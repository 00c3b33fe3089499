/** What the error flags and the counters of the machine say about the event. */
module Verdict {
  import opened Words
  import opened EventTree
  import opened EventMachine
  import opened Acceptance
  import opened Accumulators

  // ----- the shape of the tree -----

  predicate CompleteEvent(e: Event) {
    forall b :: b in e.blocks ==> CompleteBlock(b)
  }

  /** Every finished card has a hit and every finished hit has exactly one data node; only the
      open hit has none yet. */
  predicate Shaped(z: Zip) {
    && CompleteEvent(z.done)
    && match z.open
       case Closed => true
       case AtBlock(b) => CompleteBlock(b)
       case AtFee(b, f) => CompleteBlock(b) && CompleteFee(f)
       case AtHit(b, f, h) => CompleteBlock(b) && CompleteHits(f) && h.data == []
       case AtData(b, f, h, d) => CompleteBlock(b) && CompleteHits(f) && h.data == []
  }

  predicate CompleteHits(f: Fee) {
    forall h :: h in f.hits ==> CompleteHit(h)
  }

  // ----- flags -----

  predicate CleanCards(b: Block) {
    forall f :: f in b.fees ==> CleanFee(f)
  }

  /** Every finished block and every finished card has its error flags clear. */
  predicate CleanSoFar(z: Zip) {
    CleanEvent(z.done) && (!z.open.Closed? ==> CleanCards(z.open.blk))
  }

  /** What holds at every loop head of a chunk until its event is complete. */
  predicate Sound(m: Machine) {
    && Typed(m.ctl, m.zip.open)
    && Shaped(m.zip)
    && (m.ctl.state == Idle ==> m.zip.done.blocks == [])
    && (m.ctl.state != Idle && !m.flags.err ==> CleanSoFar(m.zip))
  }

  lemma NodeShaped(m: Machine, w: Word)
    requires Typed(m.ctl, m.zip.open) && Shaped(m.zip)
    requires Trans(m.ctl, w) != 7 && Trans(m.ctl, w) != 8
    ensures Shaped(NextNode(m, w))
  {
    hide Classify, Transition, FeeLenError, FeeCrcError, BlkLenError, BlkCrcError, DetectedType;
    TransitionSource(Classify(w), m.ctl.state);
    var z := NextNode(m, w);
    var o := m.zip.open;
    if o.AtData? {
      assert CompleteHit(CloseHit(o.hit, o.dat));
      assert CompleteFee(CloseFee(o.fee, CloseHit(o.hit, o.dat)));
    }
  }

  lemma NodeClean(m: Machine, w: Word)
    requires Typed(m.ctl, m.zip.open)
    requires Trans(m.ctl, w) != 7 && Trans(m.ctl, w) != 8 && Trans(m.ctl, w) != 18
    requires m.ctl.state == Idle ==> m.zip.done.blocks == []
    requires m.ctl.state != Idle && !m.flags.err ==> CleanSoFar(m.zip)
    ensures var z := NextNode(m, w);
            && (Target(Trans(m.ctl, w)) == Idle ==> z.done.blocks == [])
            && (Target(Trans(m.ctl, w)) != Idle && !NextErr(m, [w], z) ==> CleanSoFar(z))
  {
    hide Classify, Transition, FeeLenError, FeeCrcError, BlkLenError, BlkCrcError, DetectedType, NewHit, NextHit;
    TransitionSource(Classify(w), m.ctl.state);
  }

  /** Every turn that does not complete an event keeps the invariant. */
  lemma TurnSound(m: Machine, mem: Memory, i: nat, scale: Scale)
    requires Sound(m) && !Completes(m, mem, i)
    ensures Sound(Turn(m, mem, i, scale).0)
    ensures SameVerdicts(m.report, Turn(m, mem, i, scale).0.report)
  {
    hide Classify, Transition, NextNode, NextAcc, CleanSoFar, FillData, FillInfo;
    var w := mem(i);
    TransitionSource(Classify(w), m.ctl.state);
    if Classify(w) != EMPTY && !ZeroWave(m.ctl, w) {
      var ws := Slice(mem, i, Need(m.ctl, w));
      assert ws[0] == w;
      if Trans(m.ctl, w) == 7 || Trans(m.ctl, w) == 8 {
        DataSound(m, ws, scale);
      } else {
        NodeShaped(m, w);
        NodeClean(m, w);
        assert ws == [w];
      }
    } else if ZeroWave(m.ctl, w) {
      RewindSound(m, mem, i);
    }
  }

  predicate SameVerdicts(r: Report, r': Report) {
    r'.eventsGood == r.eventsGood && r'.eventsBad == r.eventsBad && r'.eventsEmpty == r.eventsEmpty
  }

  lemma DataSound(m: Machine, ws: seq<Word>, scale: Scale)
    requires Sound(m) && ws != [] && |ws| == Need(m.ctl, ws[0])
    requires Trans(m.ctl, ws[0]) == 7 || Trans(m.ctl, ws[0]) == 8
    ensures var z := NextZip(m, ws, scale);
            Shaped(z) && (!NextErr(m, ws, z) ==> CleanSoFar(z))
  {
    hide Classify, Transition, FillData, FillInfo;
    TransitionSource(Classify(ws[0]), m.ctl.state);
  }

  /** A waveform of length zero keeps the samples that are already there, and is faulty exactly when
      there are some. */
  lemma ZeroWaveVerdict(m: Machine)
    requires Typed(m.ctl, m.zip.open) && Pending(m.ctl) && m.ctl.tag == TAG_WAVEFORM
    ensures var wf := m.zip.open.dat.waveform.value;
            && Rewind(m).zip.open.dat.waveform == Some(Waveform(wf.pretrig, wf.samples, wf.samples != []))
            && (Rewind(m).flags.err <==> m.flags.err || wf.samples != [])
  {
    var wf := m.zip.open.dat.waveform.value;
    assert wf.samples + [] == wf.samples;
  }

  lemma RewindSound(m: Machine, mem: Memory, i: nat)
    requires Sound(m)
    requires ZeroWave(m.ctl, mem(i))
    ensures Sound(Rewind(m))
  {}

  /** How a completed event is counted: once, as empty, bad or good, and a good one is clean. */
  predicate Counted(r: Report, r': Report, e: Event) {
    if EmptyEvent(e) then r' == r.(eventsEmpty := r.eventsEmpty + 1)
    else r' == r.(eventsBad := r.eventsBad + 1) || (r' == r.(eventsGood := r.eventsGood + 1) && CleanEvent(e))
  }

  lemma CompletingTurn(m: Machine, mem: Memory, i: nat, scale: Scale)
    requires Sound(m) && Completes(m, mem, i)
    ensures var (m', i') := Turn(m, mem, i, scale);
            && i' == i + 1 && m'.ctl.state == Idle && Tree(m'.zip) == m'.zip.done && CompleteEvent(Tree(m'.zip))
            && Counted(m.report, m'.report, Tree(m'.zip)) && m'.flags.empty == EmptyEvent(Tree(m'.zip))
  {
    hide Classify, Transition, NextAcc;
    TransitionSource(Classify(mem(i)), m.ctl.state);
    var ws := Slice(mem, i, Need(m.ctl, mem(i)));
    assert ws[0] == mem(i);
    NodeShaped(m, mem(i));
    var z := NextNode(m, mem(i));
    assert z.done.blocks + [] == z.done.blocks;
  }

  /** The verdict on a chunk: a parsed event is complete and counted exactly once, a good one
      has every flag of every emitted block and card clear; a chunk that is not parsed counts nowhere. */
  lemma {:induction false} RunVerdict(m: Machine, mem: Memory, i: nat, size: nat, scale: Scale)
    requires Sound(m) && OnlyLastRegid(mem, size)
    ensures var (m', ok) := Run(m, mem, i, size, false, scale);
            if ok then
              && CompleteEvent(Tree(m'.zip)) && m'.flags.empty == EmptyEvent(Tree(m'.zip))
              && exists r :: Counted(r, m'.report, Tree(m'.zip)) && SameVerdicts(m.report, r)
            else SameVerdicts(m.report, m'.report) && Sound(m')
    decreases if i < size then size - i else 0, Pending(m.ctl)
  {
    hide Classify, Transition, Turn, Counted, CompleteEvent, EmptyEvent, Tree, Shaped, CleanSoFar;
    if i < size {
      var r := Turn(m, mem, i, scale);
      if Completes(m, mem, i) {
        assert i == size - 1;
        CompletingTurn(m, mem, i, scale);
      } else {
        TurnSound(m, mem, i, scale);
        RunVerdict(r.0, mem, r.1, size, scale);
      }
    }
  }

  // ----- what the flags mean -----

  /** No zero-length waveform among the first `n` turns. */
  ghost predicate NoZeroWave(m: Machine, mem: Memory, i: nat, n: nat, scale: Scale)
    requires Typed(m.ctl, m.zip.open)
  {
    forall k: nat :: k < n ==> var h := HeadAfter(m, mem, i, k, scale); !ZeroWave(h.m.ctl, mem(h.i))
  }

  /** The block check: the true length counts the two closing words too. Its comparison is not
      taken modulo 4096 after adding them, so it flags every length that is 0 or 1 modulo 4096. */
  lemma BlockLengthVerdict(words: nat, declared: nat)
    requires declared < 4096
    ensures words % 4096 + 2 == declared <==> (words + 2) % 4096 == declared && (words + 2) % 4096 >= 2
  {}

  /** At the check word of any block of any run: when its length flag is raised, and when its
      check flag is. */
  lemma BlockVerdict(m: Machine, mem: Memory, i: nat, n: nat, scale: Scale)
    requires Typed(m.ctl, m.zip.open) && m.ctl.state == Idle
    requires var h := HeadAfter(m, mem, i, n, scale); h.m.ctl.state == S9 && Classify(mem(h.i)) == CRCBL
    ensures var h := HeadAfter(m, mem, i, n, scale);
            var trueLength := |BlockWords(h.log)| + 2;
            && h.log != [] && Last(h.log).ws != []
            && BlkLenError(h.m.acc) ==
               !(Low12(Last(h.log).ws[0]) == trueLength % 4096 && trueLength % 4096 >= 2)
            && (NoZeroWave(m, mem, i, n, scale) ==>
                 && CheckedWords(h.log) != []
                 && BlkCrcError(h.m.acc, mem(h.i)) == (CheckByte(mem(h.i)) != Fold8(XorAll(CheckedWords(h.log)))))
    ensures var h := HeadAfter(m, mem, i, n, scale);
            var b := h.m.zip.open.blk.(lenError := BlkLenError(h.m.acc), crcError := BlkCrcError(h.m.acc, mem(h.i)));
            var emitted := if b.blkid == 0x7FF && !b.crcError then [] else [b];
            Tree(HeadAfter(m, mem, i, n + 1, scale).m.zip).blocks == h.m.zip.done.blocks + emitted
  {
    hide Classify, Transition, Fold8, Xor, XorFrom, NextAcc, NextControl, NextErr, BlockWords, CardWords;
    var h := HeadAfter(m, mem, i, n, scale);
    HeadsCount(m, mem, i, n, scale);
    BlockLengthVerdict(|BlockWords(h.log)|, h.m.acc.rdBlklen);
    TransitionSource(Classify(mem(h.i)), h.m.ctl.state);
    assert Slice(mem, h.i, Need(h.m.ctl, mem(h.i)))[0] == mem(h.i);
  }

  /** At the check word of any card of any run. */
  lemma CardVerdict(m: Machine, mem: Memory, i: nat, n: nat, scale: Scale)
    requires Typed(m.ctl, m.zip.open) && m.ctl.state == Idle
    requires var h := HeadAfter(m, mem, i, n, scale); h.m.ctl.state == S6 && Classify(mem(h.i)) == CRCFE
    ensures var h := HeadAfter(m, mem, i, n, scale);
            && h.log != [] && Last(h.log).ws != []
            && FeeLenError(h.m.acc) == (Low12(Last(h.log).ws[0]) != |CardWords(h.log)| % 4096)
            && (NoZeroWave(m, mem, i, n, scale) ==>
                 && CardWords(h.log) != []
                 && FeeCrcError(h.m.acc, mem(h.i)) == (CheckByte(mem(h.i)) != Fold8(XorAll(CardWords(h.log)))))
    ensures var h := HeadAfter(m, mem, i, n, scale);
            var f := h.m.zip.open.fee.(lenError := FeeLenError(h.m.acc), crcError := FeeCrcError(h.m.acc, mem(h.i)));
            var z := h.m.zip.(open := AtBlock(CloseBlock(h.m.zip.open.blk, f)));
            HeadAfter(m, mem, i, n + 1, scale).m.zip == z
  {
    hide Classify, Transition, Fold8, Xor, XorFrom, NextAcc, NextControl, NextErr, BlockWords, CardWords;
    var h := HeadAfter(m, mem, i, n, scale);
    HeadsCount(m, mem, i, n, scale);
    TransitionSource(Classify(mem(h.i)), h.m.ctl.state);
    assert Slice(mem, h.i, Need(h.m.ctl, mem(h.i)))[0] == mem(h.i);
  }
}
