/** The basic format inside a data node. With energies, the loop that gathers samples in one batch
    against the machine that takes one word at a time; without, when the main loop leaves the node.
    Check values are not modelled. */
module BasicFormat {
  import opened Words
  import opened EventTree
  import opened EventMachine

  /** The part of the machine that data words of one node change. */
  datatype Node = Node(kind: DataType, values: seq<nat>, energy1Done: bool, energy2Done: bool, pretrig: Option<Word>,
                       pretrigDone: bool, rdWflen: Word, wflenDone: bool, samples: seq<Word>, blklen: nat, feelen: nat)

  /** The node after its first data word, the high word of its energy. */
  function FirstWord(kind: DataType, w: Word, blklen: nat, feelen: nat): Node {
    Node(kind, [w as nat], false, false, None, false, 0, false, [], blklen + 1, feelen + 1)
  }

  /** Data nodes with an energy: two header words for one energy, four for two. */
  predicate HasEnergy(kind: DataType) { kind == QH1 || kind == Q2 || kind == Q3 }

  predicate Gathering(s: Node) {
    s.energy1Done && (s.kind == Q3 ==> s.energy2Done) && s.pretrigDone && s.wflenDone
  }

  /** What a header word means; samples are left to the caller. */
  function HeaderWord(s: Node, w: Word): Node {
    if !s.energy1Done then s.(values := SetValue(s.values, 0, Shift15(ValueAt(s.values, 0), w)), energy1Done := true)
    else if s.kind == Q3 && !s.energy2Done then
      if |s.values| == 1 then s.(values := s.values + [w as nat])
      else s.(values := SetValue(s.values, 1, Shift15(ValueAt(s.values, 1), w)), energy2Done := true)
    else if !s.pretrigDone then s.(pretrig := Some(w), pretrigDone := true)
    else s.(rdWflen := w, wflenDone := true)
  }

  /** The simple form: every data word is one step and counts once. */
  function Step(s: Node, w: Word): Node {
    var s := s.(blklen := s.blklen + 1, feelen := s.feelen + 1);
    if Gathering(s) then s.(samples := s.samples + [w]) else HeaderWord(s, w)
  }

  /** One step per data word, EMPTY words skipped, up to the first other word. */
  function SimpleRun(s: Node, mem: Memory, i: nat, size: nat): (r: (Node, nat))
    ensures i <= size ==> i <= r.1 <= size
    decreases if i < size then size - i else 0
  {
    if i >= size then (s, i)
    else if Classify(mem(i)) == EMPTY then SimpleRun(s, mem, i + 1, size)
    else if Classify(mem(i)) == DATA then SimpleRun(Step(s, mem(i)), mem, i + 1, size)
    else (s, i)
  }

  /** The last word of a chunk is a REGID. */
  predicate Sentinel(mem: Memory, size: nat) { size > 0 && Classify(mem(size - 1)) == REGID }

  lemma DataIsLow(w: Word)
    ensures Classify(w) == DATA <==> w <= 0x7FFF
  {}

  /** A node without its last counted word. */
  function Undone(s: Node): Node
    requires s.blklen > 0 && s.feelen > 0
  {
    s.(blklen := s.blklen - 1, feelen := s.feelen - 1)
  }

  lemma SimpleStep(s: Node, mem: Memory, i: nat, size: nat)
    requires i < size
    ensures SimpleRun(s, mem, i, size)
         == if Classify(mem(i)) == EMPTY then SimpleRun(s, mem, i + 1, size)
            else if Classify(mem(i)) == DATA then SimpleRun(Step(s, mem(i)), mem, i + 1, size)
            else (s, i)
  {}

  lemma SampleStep(s: Node, w: Word)
    requires Gathering(s)
    ensures Step(s, w) == s.(blklen := s.blklen + 1, feelen := s.feelen + 1, samples := s.samples + [w])
  {}

  lemma HeaderKind(s: Node, w: Word)
    ensures HeaderWord(s, w).kind == s.kind
  {}

  class BasicData {
    const event: Memory
    const eventSize: nat
    var eventIndex: nat
    var node: Node

    constructor (event: Memory, eventSize: nat, eventIndex: nat, node: Node)
      ensures this.event == event && this.eventSize == eventSize
      ensures this.eventIndex == eventIndex && this.node == node
    {
      this.event, this.eventSize, this.eventIndex, this.node := event, eventSize, eventIndex, node;
    }

    method UpdateBlk()
      modifies `node
      ensures node == old(node).(blklen := old(node).blklen + 1)
    {
      node := node.(blklen := node.blklen + 1);
    }

    method UpdateFee()
      modifies `node
      ensures node == old(node).(feelen := old(node).feelen + 1)
    {
      node := node.(feelen := node.feelen + 1);
    }

    /** All samples up to the next word that is not data. The loop reads one word too far, and
        the first sample is counted twice; both are undone. */
    method GatherBatch()
      requires Sentinel(event, eventSize) && eventIndex < eventSize && Gathering(node)
      requires Classify(event(eventIndex)) == DATA && node.blklen > 0 && node.feelen > 0
      modifies this
      ensures old(eventIndex) <= eventIndex < eventSize - 1 && node.kind == old(node).kind
      ensures SimpleRun(node, event, eventIndex + 1, eventSize)
           == SimpleRun(Undone(old(node)), event, old(eventIndex), eventSize)
    {
      hide Classify, SimpleRun, Step, HeaderWord;
      DataIsLow(event(eventIndex));
      while event(eventIndex) <= 0x7FFF
        invariant old(eventIndex) <= eventIndex < eventSize && node.kind == old(node).kind
        invariant Gathering(node) && node.blklen > 0 && node.feelen > 0
        invariant eventIndex == old(eventIndex) ==> event(eventIndex) <= 0x7FFF
        invariant SimpleRun(Undone(node), event, eventIndex, eventSize)
               == SimpleRun(Undone(old(node)), event, old(eventIndex), eventSize)
        decreases eventSize - eventIndex
      {
        DataIsLow(event(eventIndex));
        SimpleStep(Undone(node), event, eventIndex, eventSize);
        SampleStep(Undone(node), event(eventIndex));
        node := node.(samples := node.samples + [event(eventIndex)]);
        UpdateBlk();
        UpdateFee();
        eventIndex := eventIndex + 1;
      }
      eventIndex := eventIndex - 1;
      node := Undone(node);
    }

    /** One dispatched data word: a header word, or a batch of samples. */
    method Trans08()
      requires HasEnergy(node.kind) && Sentinel(event, eventSize) && eventIndex < eventSize
      requires Classify(event(eventIndex)) == DATA
      modifies this
      ensures old(eventIndex) <= eventIndex < eventSize - 1 && node.kind == old(node).kind
      ensures SimpleRun(node, event, eventIndex + 1, eventSize)
           == SimpleRun(old(node), event, old(eventIndex), eventSize)
    {
      hide Classify, SimpleRun, HeaderWord;
      SimpleStep(node, event, eventIndex, eventSize);
      UpdateBlk();
      UpdateFee();
      if Gathering(node) {
        GatherBatch();
      } else {
        HeaderKind(node, event(eventIndex));
        node := HeaderWord(node, event(eventIndex));
      }
    }

    /** Counts the words of sine and cosine, which an ADC node has. */
    method FetchSine()
      modifies this
      ensures var n := SineWords(old(node).kind);
              && eventIndex == old(eventIndex) + n
              && node == old(node).(blklen := old(node).blklen + n, feelen := old(node).feelen + n)
    {
      if node.kind == ADC {
        for ix := 0 to 6
          invariant eventIndex == old(eventIndex) + ix
          invariant node == old(node).(blklen := old(node).blklen + ix, feelen := old(node).feelen + ix)
        {
          UpdateBlk();
          UpdateFee();
          eventIndex := eventIndex + 1;
        }
      }
    }

    /** Collects the announced number of samples. */
    method GatherAnnounced()
      modifies this
      ensures var n := old(node).rdWflen;
              && eventIndex == old(eventIndex) + n
              && node == old(node).(samples := old(node).samples + Slice(event, old(eventIndex), n),
                                    blklen := old(node).blklen + n, feelen := old(node).feelen + n)
    {
      hide Slice;
      ghost var from, head := eventIndex, node;
      assert Slice(event, from, 0) == [] && head.samples + [] == head.samples;
      var nsample := 0;
      while nsample < node.rdWflen
        invariant nsample <= node.rdWflen == head.rdWflen && eventIndex == from + nsample
        invariant node == head.(samples := head.samples + Slice(event, from, nsample),
                                blklen := head.blklen + nsample, feelen := head.feelen + nsample)
      {
        SliceSnoc(event, from, nsample);
        assert head.samples + Slice(event, from, nsample) + [event(eventIndex)]
            == head.samples + Slice(event, from, nsample + 1);
        node := node.(samples := node.samples + [event(eventIndex)]);
        UpdateBlk();
        UpdateFee();
        eventIndex := eventIndex + 1;
        nsample := nsample + 1;
      }
    }

    /** One dispatched data word of a node without energies. The loops read one word too far, which
        is undone with one count. */
    method Trans08Plain()
      requires !HasEnergy(node.kind) && eventIndex > 0
      modifies this
      ensures (node, eventIndex + 1) == PlainTurn(old(node), event, old(eventIndex))
    {
      hide Slice;
      UpdateBlk();
      UpdateFee();
      if !node.wflenDone {
        node := node.(rdWflen := event(eventIndex), wflenDone := true);
      } else {
        FetchSine();
        GatherAnnounced();
        eventIndex := eventIndex - 1;
        node := Undone(node);
      }
    }

    /** The main loop inside a node without energies. It ends where the single turns end. */
    method PlainPhase()
      requires !HasEnergy(node.kind) && eventIndex > 0 && !Stuck(node, event, eventIndex, eventSize)
      modifies this
      ensures var n := PhaseLength(old(node), event, old(eventIndex), eventSize);
              (node, eventIndex) == PhaseTurns(old(node), event, old(eventIndex), eventSize, n)
      ensures PhaseEnded(event, eventIndex, eventSize)
    {
      hide Classify, Stuck, PlainTurn, HasEnergy;
      while eventIndex < eventSize && (Classify(event(eventIndex)) == DATA || Classify(event(eventIndex)) == EMPTY)
        invariant !HasEnergy(node.kind) && eventIndex > 0 && !Stuck(node, event, eventIndex, eventSize)
        invariant PhaseTurns(node, event, eventIndex, eventSize, PhaseLength(node, event, eventIndex, eventSize))
          == PhaseTurns(old(node), event, old(eventIndex), eventSize,
                        PhaseLength(old(node), event, old(eventIndex), eventSize))
        decreases eventSize - eventIndex
      {
        PhaseStep(node, event, eventIndex, eventSize);
        if Classify(event(eventIndex)) == DATA {
          Trans08Plain();
        }
        eventIndex := eventIndex + 1;
      }
    }

    /** The main loop while it stays inside the data node. */
    method DataPhase()
      requires HasEnergy(node.kind) && Sentinel(event, eventSize) && eventIndex < eventSize
      modifies this
      ensures (node, eventIndex) == SimpleRun(old(node), event, old(eventIndex), eventSize)
      ensures eventIndex < eventSize && Classify(event(eventIndex)) !in {DATA, EMPTY}
    {
      hide Classify, SimpleRun;
      while Classify(event(eventIndex)) == DATA || Classify(event(eventIndex)) == EMPTY
        invariant HasEnergy(node.kind) && eventIndex < eventSize
        invariant SimpleRun(node, event, eventIndex, eventSize) == SimpleRun(old(node), event, old(eventIndex), eventSize)
        decreases eventSize - eventIndex
      {
        SimpleStep(node, event, eventIndex, eventSize);
        if Classify(event(eventIndex)) == DATA {
          Trans08();
        }
        eventIndex := eventIndex + 1;
      }
      SimpleStep(node, event, eventIndex, eventSize);
    }
  }

  // ----- nodes without energies -----

  /** The node after its first data word, the pretrigger. */
  function FirstPlainWord(kind: DataType, w: Word, blklen: nat, feelen: nat): Node {
    Node(kind, [], false, false, Some(w), true, 0, false, [], blklen + 1, feelen + 1)
  }

  /** An ADC node has its sine and cosine, three words each, before the samples. */
  function SineWords(kind: DataType): nat { if kind == ADC then 6 else 0 }

  /** One turn of the main loop on a data word of a node without energies: the length, or the
      words of sine and cosine and exactly the announced number of samples, whatever words they are. */
  function PlainTurn(s: Node, mem: Memory, i: nat): (r: (Node, nat))
    ensures r.0.kind == s.kind && r.0.wflenDone
  {
    if !s.wflenDone then
      (s.(rdWflen := mem(i), wflenDone := true, blklen := s.blklen + 1, feelen := s.feelen + 1), i + 1)
    else
      var n := SineWords(s.kind) + s.rdWflen;
      (s.(samples := s.samples + Slice(mem, i + SineWords(s.kind), s.rdWflen),
          blklen := s.blklen + n, feelen := s.feelen + n), i + n)
  }

  /** The data phase is over: the chunk has ended, or another word class has come. */
  predicate PhaseEnded(mem: Memory, i: nat, size: nat) {
    i >= size || (Classify(mem(i)) != DATA && Classify(mem(i)) != EMPTY)
  }

  /** The kinds whose node is nothing but a waveform. */
  predicate WaveOnly(kind: DataType) { kind == I1 || kind == QL1 || kind == I2 || kind == UNKDT }

  /** One turn of the main loop inside the data phase. A node with energies takes its words one by
      one, which its batches do not change. */
  function PhaseTurn(s: Node, mem: Memory, i: nat, size: nat): (Node, nat) {
    if PhaseEnded(mem, i, size) then (s, i)
    else if Classify(mem(i)) == EMPTY then (s, i + 1)
    else if HasEnergy(s.kind) then (Step(s, mem(i)), i + 1)
    else PlainTurn(s, mem, i)
  }

  function PhaseTurns(s: Node, mem: Memory, i: nat, size: nat, n: nat): (Node, nat)
    decreases n
  {
    if n == 0 then (s, i)
    else var r := PhaseTurn(s, mem, i, size); PhaseTurns(r.0, mem, r.1, size, n - 1)
  }

  /** The next word from `i` on that is not EMPTY is a data word; `j` is its index. */
  function NextData(mem: Memory, i: nat, size: nat): (j: Option<nat>)
    ensures j.Some? ==> i <= j.value < size && Classify(mem(j.value)) == DATA
    decreases if i < size then size - i else 0
  {
    if PhaseEnded(mem, i, size) then None
    else if Classify(mem(i)) == EMPTY then NextData(mem, i + 1, size)
    else Some(i)
  }

  /** A node that is nothing but a waveform announces no samples, and then another data word comes. */
  predicate Stuck(s: Node, mem: Memory, i: nat, size: nat) {
    var j := NextData(mem, i, size);
    && WaveOnly(s.kind) && j.Some?
    && if s.wflenDone then s.rdWflen == 0 else mem(j.value) == 0 && NextData(mem, j.value + 1, size).Some?
  }

  /** A turn neither causes nor cures the fault; on the second word of such a node it changes
      nothing at all, and otherwise every turn inside the phase goes forward. */
  lemma PhaseStep(s: Node, mem: Memory, i: nat, size: nat)
    requires !PhaseEnded(mem, i, size)
    ensures var r := PhaseTurn(s, mem, i, size); Stuck(r.0, mem, r.1, size) == Stuck(s, mem, i, size)
    ensures var r := PhaseTurn(s, mem, i, size); r.1 > i || (r == (s, i) && Stuck(s, mem, i, size))
  {
    hide HeaderWord;
    if HasEnergy(s.kind) {
      HeaderKind(s.(blklen := s.blklen + 1, feelen := s.feelen + 1), mem(i));
    } else if s.wflenDone && s.rdWflen == 0 {
      assert s.samples + Slice(mem, i, 0) == s.samples;
    }
  }

  lemma StuckGoesOn(s: Node, mem: Memory, i: nat, size: nat)
    requires Stuck(s, mem, i, size)
    ensures !PhaseEnded(mem, i, size)
  {}

  lemma {:induction false} StuckForEver(s: Node, mem: Memory, i: nat, size: nat, n: nat)
    requires Stuck(s, mem, i, size)
    ensures var r := PhaseTurns(s, mem, i, size, n); Stuck(r.0, mem, r.1, size) && !PhaseEnded(mem, r.1, size)
    decreases n
  {
    hide Stuck, PhaseTurn, PhaseEnded;
    StuckGoesOn(s, mem, i, size);
    if n > 0 {
      PhaseStep(s, mem, i, size);
      var r := PhaseTurn(s, mem, i, size);
      StuckForEver(r.0, mem, r.1, size, n - 1);
    }
  }

  /** How many turns a phase takes: every turn leaves fewer words. */
  function PhaseLength(s: Node, mem: Memory, i: nat, size: nat): (n: nat)
    requires !Stuck(s, mem, i, size)
    ensures PhaseEnded(mem, PhaseTurns(s, mem, i, size, n).1, size)
    decreases if i < size then size - i else 0
  {
    if PhaseEnded(mem, i, size) then 0
    else
      PhaseStep(s, mem, i, size);
      var r := PhaseTurn(s, mem, i, size);
      1 + PhaseLength(r.0, mem, r.1, size)
  }

  /** For a node with energies the phase ends where the simple run ends, and with it the batches. */
  lemma {:induction false} PhaseIsSimpleRun(s: Node, mem: Memory, i: nat, size: nat)
    requires HasEnergy(s.kind)
    ensures !Stuck(s, mem, i, size)
    ensures PhaseTurns(s, mem, i, size, PhaseLength(s, mem, i, size)) == SimpleRun(s, mem, i, size)
    decreases if i < size then size - i else 0
  {
    hide Classify, HeaderWord;
    if i < size {
      SimpleStep(s, mem, i, size);
      HeaderKind(s.(blklen := s.blklen + 1, feelen := s.feelen + 1), mem(i));
      if !PhaseEnded(mem, i, size) {
        var r := PhaseTurn(s, mem, i, size);
        PhaseIsSimpleRun(r.0, mem, r.1, size);
      }
    }
  }

  /** The main loop leaves a data phase, at the end of the chunk or at a word of another class,
      exactly when the node is none that is nothing but a waveform, announces no samples, and then
      meets data. */
  lemma PhaseLeaves(s: Node, mem: Memory, i: nat, size: nat)
    ensures (exists n: nat :: PhaseEnded(mem, PhaseTurns(s, mem, i, size, n).1, size)) <==> !Stuck(s, mem, i, size)
  {
    hide Stuck, PhaseTurns, PhaseEnded;
    if !Stuck(s, mem, i, size) {
      var n := PhaseLength(s, mem, i, size);
      assert PhaseEnded(mem, PhaseTurns(s, mem, i, size, n).1, size);
    } else {
      forall n: nat
        ensures !PhaseEnded(mem, PhaseTurns(s, mem, i, size, n).1, size)
      {
        StuckForEver(s, mem, i, size, n);
      }
    }
  }

  /** On length zero, one more data word and REGID a node without energies never ends, unless it
      is an ADC node. */
  lemma ZeroLengthHangs(kind: DataType, mem: Memory, pretrig: Word)
    requires kind != QH1 && kind != Q2 && kind != Q3
    requires mem(0) == 0 && mem(1) == 5 && mem(2) == 0xC800
    ensures var s := FirstPlainWord(kind, pretrig, 0, 0);
            (forall n: nat :: !PhaseEnded(mem, PhaseTurns(s, mem, 0, 3, n).1, 3)) <==> kind != ADC
  {
    hide PhaseTurns, PhaseEnded;
    var s := FirstPlainWord(kind, pretrig, 0, 0);
    assert Classify(0) == DATA && Classify(5) == DATA;
    ZeroLengthData(mem);
    PhaseLeaves(s, mem, 0, 3);
  }

  lemma ZeroLengthData(mem: Memory)
    requires mem(0) == 0 && mem(1) == 5
    ensures NextData(mem, 0, 3) == Some(0) && NextData(mem, 1, 3) == Some(1)
  {}

  /** The layout of such a node is read back in two turns: length, then sine and cosine of an ADC
      node and all samples, every word counted once. */
  lemma PlainLayoutRecovered(kind: DataType, mem: Memory, i: nat, pretrig: Word, samples: seq<Word>,
                             blklen: nat, feelen: nat)
    requires kind != QH1 && kind != Q2 && kind != Q3 && |samples| < 0x8000 && mem(i) == |samples|
    requires var sine := if kind == ADC then 6 else 0;
             forall k :: 0 <= k < |samples| ==> mem(i + 1 + sine + k) == samples[k]
    ensures var s := FirstPlainWord(kind, pretrig, blklen, feelen);
            var a := PlainTurn(s, mem, i);
            var r := PlainTurn(a.0, mem, a.1);
            var n := 1 + (if kind == ADC then 6 else 0) + |samples|;
            && r.1 == i + n && r.0.samples == samples && r.0.pretrig == Some(pretrig) && r.0.rdWflen == |samples|
            && r.0.values == [] && r.0.blklen == blklen + 1 + n && r.0.feelen == feelen + 1 + n
  {
    var from := i + 1 + if kind == ADC then 6 else 0;
    SliceIs(mem, from, samples);
    hide Slice;
    var s := FirstPlainWord(kind, pretrig, blklen, feelen);
    assert PlainTurn(s, mem, i).1 == i + 1;
    assert from == i + 1 + SineWords(kind);
    assert [] + samples == samples;
  }

  lemma SliceIs(mem: Memory, from: nat, ws: seq<Word>)
    requires forall k :: 0 <= k < |ws| ==> mem(from + k) == ws[k]
    ensures Slice(mem, from, |ws|) == ws
  {}

  // ----- what the words of a node mean -----

  /** The steps of a run of data words. */
  function Steps(s: Node, ws: seq<Word>): Node {
    if ws == [] then s else Step(Steps(s, ws[..|ws| - 1]), ws[|ws| - 1])
  }

  lemma {:induction false} StepsConcat(s: Node, a: seq<Word>, b: seq<Word>)
    ensures Steps(s, a + b) == Steps(Steps(s, a), b)
    decreases |b|
  {
    if b == [] {
      assert a + b == a;
    } else {
      assert (a + b)[..|a + b| - 1] == a + b[..|b| - 1];
      StepsConcat(s, a, b[..|b| - 1]);
    }
  }

  lemma {:induction false} GatherSteps(s: Node, ws: seq<Word>)
    requires Gathering(s)
    ensures Steps(s, ws)
         == s.(samples := s.samples + ws, blklen := s.blklen + |ws|, feelen := s.feelen + |ws|)
    decreases |ws|
  {
    if ws == [] {
      assert s.samples + [] == s.samples;
    } else {
      GatherSteps(s, ws[..|ws| - 1]);
      assert s.samples + ws[..|ws| - 1] + [ws[|ws| - 1]] == s.samples + ws;
    }
  }

  /** The layout of a node after its first word: low word, pretrigger, length, samples; and for two
      energies the second pair before the pretrigger. Reading it gives the energies, the pretrigger,
      the announced length and the samples, and counts every word once. */
  lemma LayoutRecovered(kind: DataType, high: Word, low: Word, second: (Word, Word), pretrig: Word,
                        samples: seq<Word>, blklen: nat, feelen: nat)
    requires (kind == QH1 || kind == Q2 || kind == Q3) && |samples| < 0x8000
    ensures var ws := (if kind == Q3 then [low, second.0, second.1] else [low]) + [pretrig, |samples|] + samples;
            var s := Steps(FirstWord(kind, high, blklen, feelen), ws);
            && s.kind == kind
            && s.values == [high as int * 32768 + low] + (if kind == Q3 then [second.0 as int * 32768 + second.1] else [])
            && s.pretrig == Some(pretrig) && s.rdWflen == |samples| && s.samples == samples
            && s.blklen == blklen + 1 + |ws| && s.feelen == feelen + 1 + |ws|
  {
    hide Steps, Gathering, FirstWord;
    var s0 := FirstWord(kind, high, blklen, feelen);
    var head := (if kind == Q3 then [low, second.0, second.1] else [low]) + [pretrig, |samples|];
    StepsConcat(s0, head, samples);
    HeaderSteps(kind, high, low, second, pretrig, |samples|, blklen, feelen);
    GatherSteps(Steps(s0, head), samples);
    assert [] + samples == samples;
  }

  lemma HeaderSteps(kind: DataType, high: Word, low: Word, second: (Word, Word), pretrig: Word, n: Word,
                    blklen: nat, feelen: nat)
    requires HasEnergy(kind)
    ensures var head := (if kind == Q3 then [low, second.0, second.1] else [low]) + [pretrig, n];
            var s := Steps(FirstWord(kind, high, blklen, feelen), head);
            && s.kind == kind
            && s.values == [Pair15(high, low)] + (if kind == Q3 then [Pair15(second.0, second.1)] else [])
            && s.pretrig == Some(pretrig) && s.rdWflen == n && s.samples == [] && Gathering(s)
            && s.blklen == blklen + 1 + |head| && s.feelen == feelen + 1 + |head|
  {
    var s0 := FirstWord(kind, high, blklen, feelen);
    if kind == Q3 {
      hide Shift15;
      Shift15Fits(high, low);
      Shift15Fits(second.0, second.1);
      var a := [low, second.0, second.1, pretrig, n];
      assert a == [low, second.0, second.1] + [pretrig, n];
      assert a[..4] == [low, second.0, second.1, pretrig] && a[..4][..3] == [low, second.0, second.1];
      assert a[..4][..3][..2] == [low, second.0] && [low, second.0][..1] == [low] && [low][..0] == [];
      assert Steps(s0, [low]) == Step(s0, low);
      assert Steps(s0, [low, second.0]) == Step(Step(s0, low), second.0);
      assert Steps(s0, a[..4][..3]) == Step(Step(Step(s0, low), second.0), second.1);
    } else {
      hide Shift15;
      Shift15Fits(high, low);
      var a := [low, pretrig, n];
      assert a == [low] + [pretrig, n];
      assert a[..2] == [low, pretrig] && a[..2][..1] == [low] && [low][..0] == [];
      assert Steps(s0, [low]) == Step(s0, low);
    }
  }
}
