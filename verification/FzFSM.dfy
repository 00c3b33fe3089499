/** The event machine as the parser runs it: one object whose fields the transitions update
    in place, with handles into the event tree and an index that payload loops move ahead.
    Every method is proved against the state functions of module EventMachine. */
module FzFSM {
  import opened Words
  import opened EventTree
  import opened Handles
  import opened EventMachine

  /** The handles into the event tree. */
  datatype Refs = Refs(blk: nat, fee: FeeRef, hit: HitRef, d: DataRef, en: DataRef, wf: DataRef)

  function CountOut(m: Machine, size: nat): Machine {
    m.(report := m.report.(outEvents := m.report.outEvents + 1, outBytes := m.report.outBytes + 2 * size))
  }

  function WithData(z: Zip, d: Data): Zip
    requires z.open.AtData?
  {
    z.(open := AtData(z.open.blk, z.open.fee, z.open.hit, d))
  }

  function WithWave(z: Zip, w: Waveform): Zip
    requires z.open.AtData?
  {
    WithData(z, z.open.dat.(waveform := Some(w)))
  }

  class FSM {
    const scale: Scale
    var event: Memory
    var eventSize: nat
    var eventIndex: nat
    var ctl: Control
    var acc: Acc
    var flags: Flags
    var ev: Event
    var refs: Refs
    var fsmReport: Report

    /** The tree with its open chain kept apart. */
    ghost var zip: Zip

    ghost function Abs(): Machine
      reads this
    {
      Machine(ctl, acc, zip, flags, fsmReport)
    }

    /** The handles of the open chain are the live last nodes of their levels. */
    ghost predicate Anchored()
      reads `ev, `zip, `refs
    {
      && ev == Tree(zip)
      && (!zip.open.Closed? ==> refs.blk == LastBlk(zip))
      && (zip.open.AtFee? ==> refs.fee == LastFee(zip))
      && (zip.open.AtHit? || zip.open.AtData? ==>
        zip.open.hit.data == [] && refs.hit == LastHit(zip) && refs.fee == FeeRef(refs.hit.b, refs.hit.f))
      && (zip.open.AtData? ==> refs.d == LastData(zip))
      && (zip.open.AtData? && zip.open.dat.waveform.Some? ==> refs.wf == LastData(zip))
    }

    /** A pending energy tag has its energy handle on the current data node. */
    ghost predicate EnergyAnchored()
      reads `ctl, `zip, `refs
    {
      ctl.tagDone && (ctl.tag == TAG_SLOW || ctl.tag == TAG_FAST) && zip.open.AtData? ==> refs.en == LastData(zip)
    }

    ghost predicate Valid()
      reads this
    {
      Anchored() && Typed(ctl, zip.open) && (ctl.state == S5 ==> EnergyAnchored())
    }

    /** Every handle that the next transition dereferences is live and is the last node of its
        level, whatever was read before and even after a trigger block was taken out. */
    lemma HandlesAreLive()
      requires Valid()
      ensures ctl.state in {S1, S7, S8, S9} ==> LiveBlk(ev, refs.blk) && refs.blk == |ev.blocks| - 1
      ensures ctl.state == S6 ==>
        LiveFee(ev, refs.fee) && refs.fee.b == |ev.blocks| - 1 && refs.fee.f == |ev.blocks[refs.fee.b].fees| - 1
      ensures ctl.state in {S2, S3, S4, S5} ==>
        && LiveHit(ev, refs.hit) && refs.hit.b == |ev.blocks| - 1 && refs.hit.f == |ev.blocks[refs.hit.b].fees| - 1
        && refs.hit.h == |ev.blocks[refs.hit.b].fees[refs.hit.f].hits| - 1
        && refs.fee == FeeRef(refs.hit.b, refs.hit.f)
      ensures ctl.state in {S4, S5} ==>
        LiveData(ev, refs.d) && refs.d == DataRef(refs.hit.b, refs.hit.f, refs.hit.h, |HitAt(ev, refs.hit).data| - 1)
      ensures ctl.state == S5 && ctl.tagDone && (ctl.tag == TAG_PRETRIGGER || ctl.tag == TAG_WAVEFORM) ==>
        refs.wf == refs.d && DataAt(ev, refs.d).waveform.Some?
      ensures ctl.state == S5 && ctl.tagDone && (ctl.tag == TAG_SLOW || ctl.tag == TAG_FAST) ==>
        refs.en == refs.d && DataAt(ev, refs.d).energy.Some?
    {
      var o := zip.open;
      match o
      case Closed =>
      case AtBlock(b) => BlockHandle(zip, b);
      case AtFee(b, f) => FeeHandle(zip, f);
      case AtHit(b, f, h) => HitHandle(zip, h);
      case AtData(b, f, h, d) => DataHandle(zip, d);
    }

    /** The current word has class `c`, in state `s`. */
    ghost predicate At(s: State, c: Class)
      reads this
    {
      Valid() && ctl.state == s && Classify(event(eventIndex)) == c
    }

    /** What a transition on a single word `w` achieves before the main loop stores the new state. */
    twostate predicate DidNode(w: Word)
      requires old(Typed(ctl, zip.open))
      requires Trans(old(ctl), w) != 7 && Trans(old(ctl), w) != 8
      reads this
    {
      && Anchored()
      && event == old(event) && eventSize == old(eventSize) && eventIndex == old(eventIndex)
      && ctl == old(ctl)
      && acc == NextAcc(old(ctl), old(acc), [w])
      && zip == NextNode(old(Abs()), w)
      && flags == NextFlags(old(Abs()), [w], zip)
      && fsmReport == NextReport(old(Abs()), w, zip.done)
    }

    constructor (scale: Scale)
      ensures fsmReport == Report(0, 0, 0, 0, 0, 0, 0, 0)
      ensures Valid() && this.scale == scale
      ensures ctl == Control(Idle, 0, false, false, 0) && ev == CLEARED && eventSize == 0 && eventIndex == 0
    {
      this.scale := scale;
      fsmReport := Report(0, 0, 0, 0, 0, 0, 0, 0);
      ctl := Control(Idle, 0, false, false, 0);
      acc := Acc(0, 0, 0, 0, 0, 0, 0, 0, 0);
      flags := Flags(0, false, false, false);
      event := (i: nat) => 0;
      eventSize, eventIndex := 0, 0;
      ev := CLEARED;
      zip := Zip(CLEARED, Closed);
    }

    /** Attaches a chunk: the state and the event are reset, everything else survives. */
    method Import(evraw: Memory, size: nat)
      modifies `event, `eventSize, `ctl, `ev, `zip
      ensures Valid() && event == evraw && eventSize == size
      ensures ctl == old(ctl).(state := Idle) && zip == Zip(CLEARED, Closed)
    {
      event := evraw;
      eventSize := size;
      ctl := ctl.(state := Idle);
      ev := CLEARED;
      zip := Zip(CLEARED, Closed);
    }

    // ----- accumulators -----

    method UpdateBlk()
      modifies `acc
      ensures acc == AddBlk(old(acc), [event(eventIndex)])
    {
      XorFromOne(acc.blkcrc, event(eventIndex));
      acc := acc.(blklen := acc.blklen + 1, blkcrc := Xor(acc.blkcrc, event(eventIndex)));
    }

    method UpdateFee()
      modifies `acc
      ensures acc == AddFee(old(acc), [event(eventIndex)])
    {
      XorFromOne(acc.feecrc, event(eventIndex));
      acc := acc.(feelen := acc.feelen + 1, feecrc := Xor(acc.feecrc, event(eventIndex)));
    }

    /** One more payload word: the accumulators hold all words read since index `start`. */
    method NextEventWord(ghost base: Acc, ghost start: nat)
      requires start <= eventIndex && acc == Feed(base, Slice(event, start + 1, eventIndex - start))
      modifies `acc, `eventIndex
      ensures eventIndex == old(eventIndex) + 1
      ensures acc == Feed(base, Slice(event, start + 1, eventIndex - start))
    {
      hide Xor, XorFrom, Slice;
      ghost var n := eventIndex - start;
      eventIndex := eventIndex + 1;
      UpdateBlk();
      UpdateFee();
      FeedConcat(base, Slice(event, start + 1, n), [event(eventIndex)]);
      SliceSnoc(event, start + 1, n);
    }

    // ----- transitions -----

    method OpenBlock()
      requires Anchored() && zip.open.Closed?
      modifies `ev, `refs, `zip
      ensures zip == old(zip).(open := AtBlock(Block(0, true, true, []))) && Anchored()
    {
      refs := refs.(blk := |ev.blocks|);
      ev := ev.(blocks := ev.blocks + [Block(0, true, true, [])]);
      zip := zip.(open := AtBlock(Block(0, true, true, [])));
    }

    method Trans02()
      requires At(Idle, EC)
      modifies this
      ensures DidNode(old(event(eventIndex)))
    {
      hide Xor, XorFrom, Classify, DetectedType, NewHit;
      var w := event(eventIndex);
      flags := flags.(err := false, ec := Low12(w));
      OpenBlock();
      acc := acc.(blklen := 1, blkcrc := w, rawec := w);
      ev := ev.(ec := Low12(w));
      zip := zip.(done := zip.done.(ec := Low12(w)));
    }

    method Trans03()
      requires At(S1, TELID)
      modifies this
      ensures DidNode(old(event(eventIndex)))
    {
      hide Xor, XorFrom, Classify;
      var w := event(eventIndex);
      UpdateBlk();
      acc := acc.(feelen := 2, feecrc := Xor(acc.rawec, w));
      OpenFee(Fee(CheckedFec(FecField(w)), true, true, []), NewHit(flags.ec, w));
    }

    /** Hangs a new card with its first hit under the current block. */
    method OpenFee(f: Fee, h: Hit)
      requires Anchored() && zip.open.AtBlock? && f.hits == [] && h.data == []
      modifies `ev, `refs, `zip
      ensures zip == old(zip).(open := AtHit(old(zip).open.blk, f, h)) && Anchored()
    {
      BlockHandle(zip, CloseBlock(zip.open.blk, CloseFee(f, h)));
      var b := ev.blocks[refs.blk];
      refs := refs.(fee := FeeRef(refs.blk, |b.fees|), hit := HitRef(refs.blk, |b.fees|, 0));
      ev := PutBlk(ev, refs.blk, CloseBlock(b, CloseFee(f, h)));
      zip := zip.(open := AtHit(b, f, h));
    }

    method SetHit(h: Hit)
      requires Anchored() && zip.open.AtHit? && h.data == []
      modifies `ev, `zip
      ensures zip == old(zip).(open := AtHit(old(zip).open.blk, old(zip).open.fee, h)) && Anchored()
    {
      HitHandle(zip, h);
      ev := PutHit(ev, refs.hit, h);
      zip := zip.(open := AtHit(zip.open.blk, zip.open.fee, h));
    }

    /** The hit the hit handle denotes. */
    method GetHit() returns (h: Hit)
      requires Anchored() && zip.open.AtHit?
      ensures h == zip.open.hit
    {
      HitHandle(zip, zip.open.hit);
      h := HitAt(ev, refs.hit);
    }

    method Trans04()
      requires At(S2, DATA)
      modifies this
      ensures DidNode(old(event(eventIndex)))
    {
      hide Xor, XorFrom, Classify, DetectedType, NewHit;
      UpdateBlk();
      UpdateFee();
      var h := GetHit();
      SetHit(h.(gttag := event(eventIndex)));
      flags := flags.(dettagDone := false);
    }

    method Trans05()
      requires At(S3, DATA)
      modifies this
      ensures DidNode(old(event(eventIndex)))
    {
      hide Xor, XorFrom, Classify, DetectedType, NewHit;
      UpdateBlk();
      UpdateFee();
      var h := GetHit();
      if !flags.dettagDone {
        SetHit(h.(dettag := event(eventIndex)));
        flags := flags.(dettagDone := true);
      } else {
        SetHit(h.(trigpat := event(eventIndex)));
      }
    }

    /** Hangs a new data node under the current hit. */
    method OpenData(h: Hit, dat: Data)
      requires Anchored() && zip.open.AtHit? && h.data == [] && dat.waveform.None?
      modifies `ev, `refs, `zip
      ensures zip == old(zip).(open := AtData(old(zip).open.blk, old(zip).open.fee, h, dat)) && Anchored()
    {
      HitHandle(zip, CloseHit(h, dat));
      refs := refs.(d := DataRef(refs.hit.b, refs.hit.f, refs.hit.h, 0));
      ev := PutHit(ev, refs.hit, CloseHit(h, dat));
      zip := zip.(open := AtData(zip.open.blk, zip.open.fee, h, dat));
    }

    method Trans06()
      requires At(S3, DETID)
      modifies this
      ensures DidNode(old(event(eventIndex)))
    {
      hide Xor, XorFrom, Classify, DetectedType, NewHit;
      var w := event(eventIndex);
      UpdateBlk();
      UpdateFee();
      var h := GetHit();
      OpenData(h.(detid := DetectorField(w)), NewData(w));
      if DetectedType(w) == UNKDT {
        flags := flags.(err := true);
      }
    }

    /** The data node the data handle denotes. */
    method GetData() returns (dat: Data)
      requires Anchored() && zip.open.AtData?
      ensures dat == zip.open.dat
    {
      DataHandle(zip, zip.open.dat);
      dat := DataAt(ev, refs.d);
    }

    method SetData(dat: Data)
      requires Anchored() && zip.open.AtData? && (dat.waveform.Some? ==> refs.wf == refs.d)
      modifies `ev, `zip
      ensures zip == WithData(old(zip), dat)
      ensures Anchored()
    {
      DataHandle(zip, dat);
      ev := PutData(ev, refs.d, dat);
      zip := zip.(open := AtData(zip.open.blk, zip.open.fee, zip.open.hit, dat));
    }

    /** Stores a tag and creates the node that its payload will fill. */
    method StoreTag()
      requires Anchored() && zip.open.AtData?
      requires !ctl.tagDone
      modifies `ctl, `ev, `zip, `refs
      ensures Anchored() && EnergyAnchored()
      ensures ctl == old(ctl).(tag := event(eventIndex), tagDone := event(eventIndex) != TAG_VOID)
      ensures zip == old(zip).(open := AtData(old(zip).open.blk, old(zip).open.fee, old(zip).open.hit,
                                              OpenTag(old(zip).open.dat, event(eventIndex))))
    {
      hide Xor, XorFrom, Classify, DetectedType, NewHit;
      var tag := event(eventIndex);
      ctl := ctl.(tag := tag);
      if tag != TAG_VOID {
        var dat := GetData();
        if tag == TAG_PRETRIGGER || tag == TAG_WAVEFORM {
          if dat.waveform.None? {
            refs := refs.(wf := refs.d);
            SetData(dat.(waveform := Some(Waveform(None, [], true))));
          }
        } else if tag == TAG_SLOW || tag == TAG_FAST {
          refs := refs.(en := refs.d);
          SetData(dat.(energy := Some(Energy(if dat.energy.None? then [] else dat.energy.value.values, false))));
        }
        ctl := ctl.(tagDone := true);
      }
    }

    /** What a data word with its payload `ws` achieves before the main loop stores the new state. */
    twostate predicate DidData(ws: seq<Word>)
      requires old(Valid()) && ws != [] && |ws| == Need(old(ctl), ws[0])
      requires Trans(old(ctl), ws[0]) == 7 || Trans(old(ctl), ws[0]) == 8
      reads this
    {
      && Anchored() && EnergyAnchored()
      && event == old(event) && eventSize == old(eventSize) && eventIndex == old(eventIndex) + |ws| - 1
      && ctl == NextControl(old(ctl), ws[0]).(state := old(ctl).state)
      && acc == NextAcc(old(ctl), old(acc), ws)
      && zip == NextData(old(ctl), old(zip), ws, scale)
      && flags == NextFlags(old(Abs()), ws, zip)
      && fsmReport == old(fsmReport)
    }

    method Trans07()
      requires At(S4, DATA)
      modifies this
      ensures DidData([old(event(eventIndex))])
    {
      hide Xor, XorFrom, Classify, DetectedType, NewHit;
      ctl := ctl.(tagDone := false, wflenDone := false, rdWflen := 0);
      UpdateBlk();
      UpdateFee();
      StoreTag();
    }

    // ----- payloads -----

    /** What reading the whole payload of the pending tag achieves, its first word being
        counted already. */
    twostate predicate Filled()
      requires old(Valid()) && Pending(old(ctl))
      reads this
    {
      var ws := Slice(event, old(eventIndex), PayloadLength(old(ctl).tag, old(ctl).rdWflen));
      && Anchored()
      && eventIndex == old(eventIndex) + |ws| - 1
      && acc == Feed(old(acc), ws[1..])
      && zip == NextData(old(ctl), old(zip), ws, scale)
    }

    /** The waveform the waveform handle denotes. */
    method GetWave() returns (w: Waveform)
      requires Anchored() && zip.open.AtData? && zip.open.dat.waveform.Some?
      ensures w == zip.open.dat.waveform.value
    {
      DataHandle(zip, zip.open.dat);
      w := DataAt(ev, refs.wf).waveform.value;
    }

    method SetWave(w: Waveform)
      requires Anchored() && zip.open.AtData? && zip.open.dat.waveform.Some?
      modifies `ev, `zip
      ensures zip == WithWave(old(zip), w)
      ensures Anchored()
    {
      ghost var dat := zip.open.dat.(waveform := Some(w));
      DataHandle(zip, dat);
      ev := PutData(ev, refs.wf, DataAt(ev, refs.wf).(waveform := Some(w)));
      zip := zip.(open := AtData(zip.open.blk, zip.open.fee, zip.open.hit, dat));
    }

    /** Before the second payload word the accumulators hold the first one only. */
    lemma Start()
      ensures acc == Feed(acc, Slice(event, eventIndex + 1, 0))
      ensures forall n: nat :: n >= 1 ==>
        Slice(event, eventIndex, n)[1..] == Slice(event, eventIndex + 1, n - 1)
    {
      FeedNothing(acc);
      assert Slice(event, eventIndex + 1, 0) == [];
      forall n: nat | n >= 1
        ensures Slice(event, eventIndex, n)[1..] == Slice(event, eventIndex + 1, n - 1)
      {
        SliceTail(event, eventIndex, n);
      }
    }

    method ReadPretrigger()
      requires Valid() && Pending(ctl) && ctl.tag == TAG_PRETRIGGER
      modifies `ev, `zip
      ensures Filled()
    {
      hide Xor, XorFrom, Slice;
      Start();
      var wave := GetWave();
      SetWave(wave.(pretrig := Some(event(eventIndex))));
      assert zip.done.trinfo + [] == zip.done.trinfo;
    }

    /** Collects samples one word ahead of the main loop, saving the check values before each step. */
    method GatherSamples()
      requires Valid() && Pending(ctl) && ctl.tag == TAG_WAVEFORM
      modifies `acc, `eventIndex, `ev, `zip
      ensures Anchored() && eventIndex == old(eventIndex) + ctl.rdWflen
      ensures ctl.rdWflen == 0 ==> acc == old(acc)
      ensures ctl.rdWflen > 0 ==>
        var a := Feed(old(acc), Slice(event, old(eventIndex) + 1, ctl.rdWflen - 1));
        && acc.saveBlkcrc == a.blkcrc && acc.saveFeecrc == a.feecrc
        && acc.blklen == a.blklen + 1 && acc.feelen == a.feelen + 1
        && acc.rdBlklen == a.rdBlklen && acc.rdFeelen == a.rdFeelen && acc.rawec == a.rawec
      ensures var wave := old(zip).open.dat.waveform.value;
              zip == WithWave(old(zip), wave.(samples := wave.samples + Slice(event, old(eventIndex), ctl.rdWflen)))
    {
      hide Xor, XorFrom, Slice, Anchored, Tree;
      ghost var i0, a0, w0 := eventIndex, acc, zip.open.dat.waveform.value;
      FeedNothing(a0);
      assert Slice(event, i0 + 1, 0) == [] == Slice(event, i0, 0);
      assert w0.samples + [] == w0.samples;
      var nsample := 0;
      while nsample < ctl.rdWflen
        invariant 0 <= nsample <= ctl.rdWflen && Anchored() && eventIndex == i0 + nsample
        invariant acc == Feed(a0, Slice(event, i0 + 1, nsample)).(saveBlkcrc := acc.saveBlkcrc, saveFeecrc := acc.saveFeecrc)
        invariant nsample == 0 ==> acc == a0
        invariant nsample > 0 ==>
          var a := Feed(a0, Slice(event, i0 + 1, nsample - 1));
          acc.saveBlkcrc == a.blkcrc && acc.saveFeecrc == a.feecrc
        invariant zip == WithWave(old(zip), w0.(samples := w0.samples + Slice(event, i0, nsample)))
      {
        var wave := GetWave();
        SetWave(wave.(samples := wave.samples + [event(eventIndex)]));
        acc := Save(acc);
        NextEventWord(a0.(saveBlkcrc := acc.saveBlkcrc, saveFeecrc := acc.saveFeecrc), i0);
        SliceSnoc(event, i0, nsample);
        assert w0.samples + Slice(event, i0, nsample) + [event(i0 + nsample)]
            == w0.samples + Slice(event, i0, nsample + 1);
        nsample := nsample + 1;
      }
    }

    /** Collects the samples and then steps back by one word. With an announced length of
        zero nothing is collected and the step back leaves the index before the current
        word, with the check values of an earlier waveform. */
    method ReadWaveform()
      requires Valid() && Pending(ctl) && ctl.tag == TAG_WAVEFORM && eventIndex > 0
      requires acc.blklen > 0 && acc.feelen > 0
      modifies `acc, `eventIndex, `ev, `zip, `flags
      ensures Anchored() && eventIndex == old(eventIndex) + ctl.rdWflen - 1
      ensures ctl.rdWflen == 0 ==>
        acc == old(acc).(blklen := old(acc).blklen - 1, feelen := old(acc).feelen - 1,
                         blkcrc := old(acc).saveBlkcrc, feecrc := old(acc).saveFeecrc)
      ensures ctl.rdWflen > 0 ==> acc == Save(Feed(old(acc), Slice(event, old(eventIndex) + 1, ctl.rdWflen - 1)))
      ensures var ws := Slice(event, old(eventIndex), ctl.rdWflen);
              var wave := AddSamples(old(zip).open.dat.waveform.value, ws, ctl.rdWflen);
              zip == WithWave(old(zip), wave) && flags == old(flags).(err := old(flags).err || wave.lenError)
    {
      hide Xor, XorFrom, Slice;
      GatherSamples();
      eventIndex := eventIndex - 1;
      acc := acc.(blklen := acc.blklen - 1, feelen := acc.feelen - 1, blkcrc := acc.saveBlkcrc, feecrc := acc.saveFeecrc);
      var wave := GetWave();
      if ctl.rdWflen == |wave.samples| {
        SetWave(wave.(lenError := false));
      } else {
        SetWave(wave.(lenError := true));
        flags := flags.(err := true);
      }
    }

    /** The energy values the energy handle denotes. */
    method GetEnergy() returns (vs: seq<nat>)
      requires Anchored() && EnergyAnchored() && zip.open.AtData? && zip.open.dat.energy.Some?
      requires ctl.tagDone && (ctl.tag == TAG_SLOW || ctl.tag == TAG_FAST)
      ensures vs == zip.open.dat.energy.value.values
    {
      DataHandle(zip, zip.open.dat);
      vs := DataAt(ev, refs.en).energy.value.values;
    }

    method SetEnergy(vs: seq<nat>)
      requires Anchored() && EnergyAnchored() && zip.open.AtData? && zip.open.dat.energy.Some?
      requires ctl.tagDone && (ctl.tag == TAG_SLOW || ctl.tag == TAG_FAST)
      modifies `ev, `zip
      ensures var dat := old(zip).open.dat;
              zip == WithData(old(zip), dat.(energy := Some(dat.energy.value.(values := vs))))
      ensures Anchored()
    {
      ghost var dat := zip.open.dat.(energy := Some(zip.open.dat.energy.value.(values := vs)));
      DataHandle(zip, dat);
      var cur := DataAt(ev, refs.en);
      ev := PutData(ev, refs.en, cur.(energy := Some(cur.energy.value.(values := vs))));
      zip := WithData(zip, dat);
    }

    /** Rise time, high word, low word: entry `i` of the energies is completed and scaled. */
    method ReadEnergy(i: nat)
      requires Valid() && Pending(ctl) && (ctl.tag == TAG_SLOW || ctl.tag == TAG_FAST)
      requires i == if ctl.tag == TAG_SLOW then 0 else 1
      modifies `acc, `eventIndex, `ev, `zip
      ensures Filled()
    {
      hide Xor, XorFrom, Slice, Shift15, Anchored, EnergyAnchored, Tree;
      ghost var i0, a0 := eventIndex, acc;
      Start();
      var risetime := event(eventIndex);
      NextEventWord(a0, i0);
      var vs := GetEnergy();
      vs := vs + [event(eventIndex)];
      NextEventWord(a0, i0);
      vs := SetValue(vs, i, Shift15(ValueAt(vs, i), event(eventIndex)));
      vs := SetValue(vs, i, scale(ValueAt(vs, i), risetime));
      SetEnergy(vs);
      assert vs == AddEnergy(old(zip).open.dat.energy.value.values, i, Slice(event, i0, 3), scale);
      assert zip.done.trinfo + [] == zip.done.trinfo;
    }

    method ReadBaseline()
      requires Valid() && Pending(ctl) && ctl.tag == TAG_BASELINE
      modifies `acc, `eventIndex, `ev, `zip
      ensures Filled()
    {
      hide Xor, XorFrom, Slice;
      ghost var i0, a0 := eventIndex, acc;
      Start();
      var hi := event(eventIndex);
      NextEventWord(a0, i0);
      var dat := GetData();
      SetData(dat.(baseline := Some(Baseline(hi, event(eventIndex)))));
      assert zip.done.trinfo + [] == zip.done.trinfo;
    }

    /** Appends a trigger information record to the event. */
    method AddInfo(id: nat, value: nat)
      requires Anchored()
      modifies `ev, `zip
      ensures zip == old(zip).(done := old(zip).done.(trinfo := old(zip).done.trinfo + [TrigInfo(id, value)]))
      ensures Anchored()
    {
      ev := ev.(trinfo := ev.trinfo + [TrigInfo(id, value)]);
      zip := zip.(done := zip.done.(trinfo := zip.done.trinfo + [TrigInfo(id, value)]));
    }

    /** One record per announced word; the step ahead is left out after the last one. */
    method ReadCounters()
      requires Valid() && Pending(ctl) && ctl.tag == TAG_RB_COUNTERS
      modifies `acc, `eventIndex, `ev, `zip
      ensures Filled()
    {
      hide Xor, XorFrom, Slice;
      ghost var i0, a0, n := eventIndex, acc, ctl.rdWflen;
      ghost var info0 := zip.done.trinfo;
      Start();
      ghost var ws := Slice(event, i0, PayloadLength(ctl.tag, n));
      assert info0 + Counters(ws[..0]) == info0;
      var i := 0;
      while i < ctl.rdWflen
        invariant 0 <= i <= n && Anchored()
        invariant eventIndex == i0 + (if i == 0 then 0 else if i < n then i else n - 1)
        invariant acc == Feed(a0, Slice(event, i0 + 1, eventIndex - i0))
        invariant zip == old(zip).(done := old(zip).done.(trinfo := info0 + Counters(ws[..i])))
      {
        AddInfo(0x100 + i, event(eventIndex));
        assert ws[..i + 1] == ws[..i] + [event(i0 + i)];
        assert info0 + Counters(ws[..i]) + [TrigInfo(0x100 + i, event(i0 + i))] == info0 + Counters(ws[..i + 1]);
        if i < ctl.rdWflen - 1 {
          NextEventWord(a0, i0);
        }
        i := i + 1;
      }
    }

    method ReadPair()
      requires Valid() && Pending(ctl)
      requires ctl.tag == TAG_RB_TIME || ctl.tag == TAG_RB_GTTAG || ctl.tag == TAG_RB_EC
      modifies `acc, `eventIndex, `ev, `zip
      ensures Filled()
    {
      hide Xor, XorFrom, Slice;
      ghost var i0, a0 := eventIndex, acc;
      Start();
      var hi := event(eventIndex);
      NextEventWord(a0, i0);
      var value := hi * 32768 + event(eventIndex);
      DataHandle(zip, zip.open.dat);
      if ctl.tag == TAG_RB_TIME {
        AddInfo(0x10C, value * 4 / 150);
      } else if ctl.tag == TAG_RB_GTTAG {
        AddInfo(0x10D, value * 32768 + HitAt(ev, refs.hit).gttag);
      } else {
        AddInfo(0x10E, value * 4096 + HitAt(ev, refs.hit).ec);
      }
    }

    method ReadSingle()
      requires Valid() && Pending(ctl) && (ctl.tag == TAG_RB_TRIGPAT || ctl.tag == TAG_RB_TEMP)
      modifies `ev, `zip
      ensures Filled()
    {
      hide Xor, XorFrom, Slice;
      Start();
      if ctl.tag == TAG_RB_TRIGPAT {
        AddInfo(0x10F, event(eventIndex));
      } else {
        AddInfo(0x110, event(eventIndex));
      }
    }

    /** Two Centrum words form one 30-bit record. */
    method ReadCentrumPair(id: nat, ghost base: Acc, ghost start: nat)
      requires Anchored() && start <= eventIndex && acc == Feed(base, Slice(event, start + 1, eventIndex - start))
      modifies `acc, `eventIndex, `ev, `zip
      ensures Anchored() && eventIndex == old(eventIndex) + 1
      ensures acc == Feed(base, Slice(event, start + 1, eventIndex - start))
      ensures var value := Pair15(event(old(eventIndex)), event(old(eventIndex) + 1));
              zip == old(zip).(done := old(zip).done.(trinfo := old(zip).done.trinfo + [TrigInfo(id, value)]))
    {
      var hi := event(eventIndex);
      NextEventWord(base, start);
      AddInfo(id, Pair15(hi, event(eventIndex)));
    }

    method ReadCentrumWords()
      requires Anchored()
      requires acc == Feed(acc, Slice(event, eventIndex + 1, 0))
      modifies `acc, `eventIndex, `ev, `zip
      ensures Anchored() && eventIndex == old(eventIndex) + 6
      ensures acc == Feed(old(acc), Slice(event, old(eventIndex) + 1, 6))
      ensures var info := CentrumInfo(Slice(event, old(eventIndex), 7));
              zip == old(zip).(done := old(zip).done.(trinfo := old(zip).done.trinfo + info))
    {
      hide Xor, XorFrom, Slice, Feed, Centrum0, Pair15, Tree, Anchored;
      ghost var i0, a0, info0 := eventIndex, acc, zip.done.trinfo;
      AddInfo(0x200, Centrum0(event(eventIndex)));
      NextEventWord(a0, i0);
      ReadCentrumPair(0x201, a0, i0);
      NextEventWord(a0, i0);
      ReadCentrumPair(0x202, a0, i0);
      NextEventWord(a0, i0);
      ReadCentrumPair(0x203, a0, i0);
      assert zip.done.trinfo == info0 + CentrumInfo(Slice(event, i0, 7));
    }

    method ReadCentrum()
      requires Valid() && Pending(ctl) && ctl.tag == TAG_RB_CENTRUM
      modifies `acc, `eventIndex, `ev, `zip
      ensures Filled()
    {
      hide Xor, XorFrom, Slice, Centrum0, Pair15;
      Start();
      ReadCentrumWords();
    }

    /** Reads the payload of the pending tag; the waveform has its own check of the length. */
    method ReadPayload()
      requires Valid() && Pending(ctl) && ctl.tag != TAG_WAVEFORM
      modifies `acc, `eventIndex, `ev, `zip
      ensures Filled()
    {
      hide Xor, XorFrom, Slice;
      var tag := ctl.tag;
      if tag == TAG_PRETRIGGER {
        ReadPretrigger();
      } else if tag == TAG_SLOW {
        ReadEnergy(0);
      } else if tag == TAG_FAST {
        ReadEnergy(1);
      } else if tag == TAG_BASELINE {
        ReadBaseline();
      } else if tag == TAG_RB_COUNTERS {
        ReadCounters();
      } else if tag == TAG_RB_TIME || tag == TAG_RB_GTTAG || tag == TAG_RB_EC {
        ReadPair();
      } else if tag == TAG_RB_TRIGPAT || tag == TAG_RB_TEMP {
        ReadSingle();
      } else if tag == TAG_RB_CENTRUM {
        ReadCentrum();
      } else {
        Start();
        assert zip.done.trinfo + [] == zip.done.trinfo;
      }
    }

    /** A tag or a length word. */
    method Trans08Header()
      requires At(S5, DATA) && !Pending(ctl)
      modifies this
      ensures DidData([old(event(eventIndex))])
    {
      hide Xor, XorFrom, Slice, FillData, FillInfo, DetectedType;
      UpdateBlk();
      UpdateFee();
      if !ctl.tagDone {
        StoreTag();
      } else {
        ctl := ctl.(rdWflen := event(eventIndex), wflenDone := true);
      }
    }

    method Trans08Payload()
      requires At(S5, DATA) && Pending(ctl) && ctl.tag != TAG_WAVEFORM
      modifies this
      ensures DidData(old(Slice(event, eventIndex, Need(ctl, event(eventIndex)))))
    {
      hide Xor, XorFrom, Slice, FillData, FillInfo, DetectedType;
      ghost var i0, a0, n := eventIndex, acc, Need(ctl, event(eventIndex));
      SliceTail(event, i0, n);
      assert Slice(event, i0, n) == [event(i0)] + Slice(event, i0, n)[1..];
      FeedConcat(a0, [event(i0)], Slice(event, i0 + 1, n - 1));
      UpdateBlk();
      UpdateFee();
      ReadPayload();
      ctl := ctl.(tagDone := false, wflenDone := false, rdWflen := 0);
    }

    method Trans08Waveform()
      requires At(S5, DATA) && Pending(ctl) && ctl.tag == TAG_WAVEFORM && ctl.rdWflen > 0 && eventIndex > 0
      modifies this
      ensures DidData(old(Slice(event, eventIndex, Need(ctl, event(eventIndex)))))
    {
      hide Xor, XorFrom, Slice, DetectedType;
      ghost var i0, a0, n := eventIndex, acc, Need(ctl, event(eventIndex));
      SliceTail(event, i0, n);
      assert Slice(event, i0, n) == [event(i0)] + Slice(event, i0, n)[1..];
      FeedConcat(a0, [event(i0)], Slice(event, i0 + 1, n - 1));
      UpdateBlk();
      UpdateFee();
      ReadWaveform();
      assert zip.done.trinfo + [] == zip.done.trinfo;
      ctl := ctl.(tagDone := false, wflenDone := false, rdWflen := 0);
    }

    method Trans08ZeroWaveform()
      requires At(S5, DATA) && ZeroWave(ctl, event(eventIndex)) && eventIndex > 0
      modifies this
      ensures Anchored() && Abs() == Rewind(old(Abs()))
      ensures event == old(event) && eventSize == old(eventSize) && eventIndex == old(eventIndex) - 1
    {
      hide Xor, XorFrom, Slice;
      assert Slice(event, eventIndex, 0) == [];
      UpdateBlk();
      UpdateFee();
      ReadWaveform();
      ctl := ctl.(tagDone := false, wflenDone := false, rdWflen := 0);
    }

    /** Closes the current hit with its data node and hangs a new hit under the same card. */
    method OpenHit(h: Hit)
      requires Anchored() && zip.open.AtData? && h.data == []
      modifies `ev, `refs, `zip
      ensures Anchored()
      ensures var o := old(zip).open;
              zip == old(zip).(open := AtHit(o.blk, CloseFee(o.fee, CloseHit(o.hit, o.dat)), h))
    {
      ghost var o := zip.open;
      ghost var f := CloseFee(o.fee, CloseHit(o.hit, o.dat));
      FeeHandle(zip.(open := AtFee(o.blk, f)), CloseFee(f, h));
      var cur := FeeAt(ev, refs.fee);
      refs := refs.(hit := HitRef(refs.fee.b, refs.fee.f, |cur.hits|));
      ev := PutFee(ev, refs.fee, CloseFee(cur, h));
      zip := zip.(open := AtHit(o.blk, f, h));
    }

    /** The hit and the data node of a second detector header. */
    method OpenHitData(w: Word)
      requires Anchored() && zip.open.AtData?
      modifies `ev, `refs, `zip
      ensures Anchored()
      ensures var o := old(zip).open;
              zip == old(zip).(open := AtData(o.blk, CloseFee(o.fee, CloseHit(o.hit, o.dat)),
                                              NextHit(old(zip).done.ec, o.hit, w), NewData(w)))
    {
      DataHandle(zip, zip.open.dat);
      var h := NextHit(ev.ec, HitAt(ev, refs.hit), w);
      OpenHit(h);
      OpenData(h, NewData(w));
    }

    method Trans09()
      requires At(S5, DETID)
      modifies this
      ensures DidNode(old(event(eventIndex)))
    {
      hide Xor, XorFrom, Classify, DetectedType, NextHit;
      var w := event(eventIndex);
      UpdateBlk();
      UpdateFee();
      OpenHitData(w);
      if DetectedType(w) == UNKDT {
        flags := flags.(err := true);
      }
    }

    method Trans10()
      requires At(S5, TELID)
      modifies this
      ensures DidNode(old(event(eventIndex)))
    {
      hide Xor, XorFrom, Classify, DetectedType;
      var w := event(eventIndex);
      UpdateBlk();
      UpdateFee();
      OpenHit(NewHit(ev.ec, w));
    }

    method Trans11()
      requires At(S5, LENGTH)
      modifies this
      ensures DidNode(old(event(eventIndex)))
    {
      hide Xor, XorFrom, Classify;
      UpdateBlk();
      acc := acc.(rdFeelen := Low12(event(eventIndex)));
      ghost var o := zip.open;
      zip := zip.(open := AtFee(o.blk, CloseFee(o.fee, CloseHit(o.hit, o.dat))));
    }

    method Trans12()
      requires At(S6, CRCFE)
      modifies this
      ensures DidNode(old(event(eventIndex)))
    {
      hide Xor, XorFrom, Classify, Fold8;
      var rdFeecrc := CheckByte(event(eventIndex));
      UpdateBlk();
      var lenError := acc.feelen % 4096 != acc.rdFeelen;
      var crcError := rdFeecrc != Fold8(acc.feecrc);
      ghost var f := zip.open.fee.(lenError := lenError, crcError := crcError);
      FeeHandle(zip, f);
      ev := PutFee(ev, refs.fee, FeeAt(ev, refs.fee).(lenError := lenError, crcError := crcError));
      zip := zip.(open := AtBlock(CloseBlock(zip.open.blk, f)));
      if lenError || crcError {
        flags := flags.(err := true);
      }
    }

    method Trans13()
      requires At(S7, EC)
      modifies this
      ensures DidNode(old(event(eventIndex)))
    {
      hide Xor, XorFrom, Classify;
      flags := flags.(ec := Low12(event(eventIndex)));
      acc := acc.(rawec := event(eventIndex));
      UpdateBlk();
    }

    method SetBlock(b: Block)
      requires Anchored() && zip.open.AtBlock?
      modifies `ev, `zip
      ensures zip == old(zip).(open := AtBlock(b)) && Anchored()
    {
      BlockHandle(zip, b);
      ev := PutBlk(ev, refs.blk, b);
      zip := zip.(open := AtBlock(b));
    }

    /** The block the block handle denotes. */
    method GetBlock() returns (b: Block)
      requires Anchored() && zip.open.AtBlock?
      ensures b == zip.open.blk
    {
      BlockHandle(zip, zip.open.blk);
      b := ev.blocks[refs.blk];
    }

    method Trans14()
      requires At(S1, BLKID)
      modifies this
      ensures DidNode(old(event(eventIndex)))
    {
      hide Xor, XorFrom, Classify;
      UpdateBlk();
      var b := GetBlock();
      SetBlock(b.(blkid := Low11(event(eventIndex))));
    }

    method Trans15()
      requires At(S8, LENGTH)
      modifies this
      ensures DidNode(old(event(eventIndex)))
    {
      hide XorFrom, Classify;
      acc := acc.(rdBlklen := Low12(event(eventIndex)), blkcrc := Xor(acc.blkcrc, event(eventIndex)));
    }

    /** Stores the checked block; a trigger block whose check byte is right is taken out of
        the event again. */
    method CloseOrDrop(b: Block)
      requires Anchored() && zip.open.AtBlock?
      modifies `ev, `zip
      ensures Anchored()
      ensures zip == if b.blkid == TRIGGER_BLOCK && !b.crcError then old(zip).(open := Closed)
                     else Zip(old(zip).done.(blocks := old(zip).done.blocks + [b]), Closed)
    {
      SetBlock(b);
      if !b.crcError && b.blkid == TRIGGER_BLOCK {
        ev := ev.(blocks := ev.blocks[..|ev.blocks| - 1]);
        assert ev.blocks == zip.done.blocks + [];
        zip := zip.(open := Closed);
      } else {
        assert ev.blocks == (zip.done.blocks + [b]) + [];
        zip := Zip(zip.done.(blocks := zip.done.blocks + [b]), Closed);
      }
    }

    method Trans16()
      requires At(S9, CRCBL)
      modifies this
      ensures DidNode(old(event(eventIndex)))
    {
      hide Xor, XorFrom, Classify, Fold8;
      var rdBlkcrc := CheckByte(event(eventIndex));
      var lenError := acc.blklen % 4096 + 2 != acc.rdBlklen;
      var crcError := rdBlkcrc != Fold8(acc.blkcrc);
      var b := GetBlock();
      CloseOrDrop(b.(lenError := lenError, crcError := crcError));
      if lenError || crcError {
        flags := flags.(err := true);
      }
    }

    method Trans17()
      requires At(S10, EC)
      modifies this
      ensures DidNode(old(event(eventIndex)))
    {
      hide Xor, XorFrom, Classify;
      var w := event(eventIndex);
      OpenBlock();
      acc := acc.(blklen := 1, blkcrc := w, rawec := w);
      flags := flags.(ec := Low12(w));
      ev := ev.(ec := Low12(w));
      zip := zip.(done := zip.done.(ec := Low12(w)));
    }

    method SetRegid(regid: nat)
      requires Anchored() && zip.open.Closed?
      modifies `ev, `zip
      ensures zip == old(zip).(done := old(zip).done.(regid := regid)) && Anchored() && ev == zip.done
    {
      ev := ev.(regid := regid);
      zip := zip.(done := zip.done.(regid := regid));
      assert zip.done.blocks + [] == zip.done.blocks;
    }

    method Trans18()
      requires At(S10, REGID)
      modifies this
      ensures DidNode(old(event(eventIndex)))
    {
      hide Xor, XorFrom, Classify;
      SetRegid(Low11(event(eventIndex)));
      var empty := EventIsEmpty();
      flags := flags.(empty := empty);
      if empty {
        fsmReport := fsmReport.(eventsEmpty := fsmReport.eventsEmpty + 1);
      } else {
        if flags.err {
          fsmReport := fsmReport.(eventsBad := fsmReport.eventsBad + 1);
        } else {
          fsmReport := fsmReport.(eventsGood := fsmReport.eventsGood + 1);
        }
        flags := flags.(err := false);
      }
    }

    /** Scans the blocks for a card, unless trigger information alone makes the event non-empty. */
    method EventIsEmpty() returns (empty: bool)
      ensures empty == EmptyEvent(ev)
      ensures empty <==> |ev.trinfo| == 0 && forall k :: 0 <= k < |ev.blocks| ==> |ev.blocks[k].fees| == 0
    {
      empty := true;
      if |ev.trinfo| > 0 {
        empty := false;
      } else {
        for i := 0 to |ev.blocks|
          invariant empty && forall k :: 0 <= k < i ==> ev.blocks[k].fees == []
        {
          if |ev.blocks[i].fees| > 0 {
            empty := false;
            break;
          }
        }
      }
    }

    // ----- the main loop -----

    /** An invalid word: the machine falls back to idle and the incomplete event is cleared. */
    method Trans00()
      requires Valid() && Trans(ctl, event(eventIndex)) == 0
      modifies `ev, `zip, `fsmReport
      ensures DidNode(old(event(eventIndex)))
    {
      hide Xor, XorFrom, Classify;
      ev := CLEARED;
      zip := Zip(CLEARED, Closed);
      fsmReport := fsmReport.(stateInvalid := fsmReport.stateInvalid + 1);
    }

    /** An idle machine ignores everything but an event counter. */
    method Trans01()
      requires Valid() && Trans(ctl, event(eventIndex)) == 1
      ensures DidNode(old(event(eventIndex)))
    {
      hide Xor, XorFrom, Classify;
    }

    /** What a whole turn on the words `ws` achieves: the machine is the dispatched one, and
        the index stands on the last word. */
    twostate predicate DidTurn(ws: seq<Word>)
      requires old(Valid())
      requires ws != [] && Classify(ws[0]) != EMPTY && |ws| == Need(old(ctl), ws[0]) && !ZeroWave(old(ctl), ws[0])
      reads this
    {
      && Valid()
      && event == old(event) && eventSize == old(eventSize) && eventIndex == old(eventIndex) + |ws| - 1
      && Abs() == Dispatch(old(Abs()), ws, scale)
    }

    /** Transitions that open a block and a card, or nothing. */
    method OpeningTransition(ghost w: Word, t: nat)
      requires Valid() && w == event(eventIndex) && t == Trans(ctl, w) && t <= 3
      requires Classify(w) != EMPTY
      modifies this
      ensures DidTurn([w])
    {
      hide Classify, Transition, NextAcc, NextNode, NextFlags, NextReport, Tree, Dispatch;
      ghost var m := Abs();
      TransitionSource(Classify(w), ctl.state);
      if t == 0 {
        Trans00();
        ctl := ctl.(state := Idle);
      } else if t == 1 {
        Trans01();
      } else if t == 2 {
        Trans02();
        ctl := ctl.(state := S1);
      } else {
        Trans03();
        ctl := ctl.(state := S2);
      }
      NodeTurn(m, w, Abs(), scale);
    }

    /** Transitions on the header words of a hit. */
    method HitTransition(ghost w: Word, t: nat)
      requires Valid() && w == event(eventIndex) && t == Trans(ctl, w) && 4 <= t <= 6
      requires Classify(w) != EMPTY
      modifies this
      ensures DidTurn([w])
    {
      hide Classify, Transition, NextAcc, NextNode, NextFlags, NextReport, Tree, Dispatch;
      ghost var m := Abs();
      TransitionSource(Classify(w), ctl.state);
      if t == 4 {
        Trans04();
        ctl := ctl.(state := S3);
      } else if t == 5 {
        Trans05();
        ctl := ctl.(state := S3);
      } else {
        Trans06();
        ctl := ctl.(state := S4);
      }
      NodeTurn(m, w, Abs(), scale);
    }

    /** Transitions that close a hit or a card. */
    method ClosingTransition(ghost w: Word, t: nat)
      requires Valid() && w == event(eventIndex) && t == Trans(ctl, w) && 9 <= t <= 13
      requires Classify(w) != EMPTY
      modifies this
      ensures DidTurn([w])
    {
      hide Classify, Transition, NextAcc, NextNode, NextFlags, NextReport, Tree, Dispatch;
      ghost var m := Abs();
      TransitionSource(Classify(w), ctl.state);
      if t == 9 {
        Trans09();
        ctl := ctl.(state := S4);
      } else if t == 10 {
        Trans10();
        ctl := ctl.(state := S2);
      } else if t == 11 {
        Trans11();
        ctl := ctl.(state := S6);
      } else if t == 12 {
        Trans12();
        ctl := ctl.(state := S7);
      } else {
        Trans13();
        ctl := ctl.(state := S1);
      }
      NodeTurn(m, w, Abs(), scale);
    }

    /** Transitions that name, measure and close a block. */
    method BlockTransition(ghost w: Word, t: nat)
      requires Valid() && w == event(eventIndex) && t == Trans(ctl, w) && 14 <= t <= 16
      requires Classify(w) != EMPTY
      modifies this
      ensures DidTurn([w])
    {
      hide Classify, Transition, NextAcc, NextNode, NextFlags, NextReport, Tree, Dispatch;
      ghost var m := Abs();
      TransitionSource(Classify(w), ctl.state);
      if t == 14 {
        Trans14();
        ctl := ctl.(state := S8);
      } else if t == 15 {
        Trans15();
        ctl := ctl.(state := S9);
      } else {
        Trans16();
        ctl := ctl.(state := S10);
      }
      NodeTurn(m, w, Abs(), scale);
    }

    /** After a block: the next one, or the end of the event. */
    method EventTransition(ghost w: Word, t: nat)
      requires Valid() && w == event(eventIndex) && t == Trans(ctl, w) && 17 <= t
      requires Classify(w) != EMPTY
      modifies this
      ensures DidTurn([w])
    {
      hide Classify, Transition, NextAcc, NextNode, NextFlags, NextReport, Tree, Dispatch;
      ghost var m := Abs();
      TransitionSource(Classify(w), ctl.state);
      if t == 17 {
        Trans17();
        ctl := ctl.(state := S1);
      } else {
        Trans18();
        ctl := ctl.(state := Idle);
      }
      NodeTurn(m, w, Abs(), scale);
    }

    /** A data word after a detector header, with the payload it opens. */
    method DataTransition(ghost ws: seq<Word>)
      requires Valid() && eventIndex > 0
      requires ws == Slice(event, eventIndex, Need(ctl, event(eventIndex)))
      requires Trans(ctl, ws[0]) == 7 || Trans(ctl, ws[0]) == 8
      requires Classify(ws[0]) != EMPTY && !ZeroWave(ctl, ws[0])
      modifies this
      ensures DidTurn(ws)
    {
      hide Classify, Transition, NextAcc, NextData, NextFlags, NextReport, Tree, Slice, Dispatch;
      ghost var m := Abs();
      TransitionSource(Classify(event(eventIndex)), ctl.state);
      SliceTail(event, eventIndex, 1);
      if ctl.state == S4 {
        Trans07();
      } else if !Pending(ctl) {
        Trans08Header();
      } else if ctl.tag == TAG_WAVEFORM {
        Trans08Waveform();
      } else {
        Trans08Payload();
      }
      ctl := ctl.(state := S5);
      DataTurn(m, ws, Abs(), scale);
    }

    /** The dispatch of a word that is not EMPTY. */
    method Switch(ghost w: Word) returns (completed: bool)
      requires Valid() && (ctl.state != Idle ==> eventIndex > 0)
      requires w == event(eventIndex) && Classify(w) != EMPTY && !ZeroWave(ctl, w)
      modifies this
      ensures DidTurn(old(Slice(event, eventIndex, Need(ctl, w))))
      ensures completed == old(Completes(Abs(), event, eventIndex))
    {
      hide Classify, Transition, Tree, Slice, Dispatch, NextControl;
      TransitionSource(Classify(w), ctl.state);
      SliceTail(event, eventIndex, 1);
      var t := Trans(ctl, event(eventIndex));
      completed := t == 18;
      if t <= 3 {
        OpeningTransition(w, t);
      } else if t <= 6 {
        HitTransition(w, t);
      } else if t <= 8 {
        DataTransition(Slice(event, eventIndex, Need(ctl, w)));
      } else if t <= 13 {
        ClosingTransition(w, t);
      } else if t <= 16 {
        BlockTransition(w, t);
      } else {
        EventTransition(w, t);
      }
    }

    /** One turn of the main loop, the increment of the index included. */
    method Turn() returns (completed: bool)
      requires Valid() && (ctl.state != Idle ==> eventIndex > 0)
      modifies this
      ensures Valid() && (ctl.state != Idle ==> eventIndex > 0)
      ensures event == old(event) && eventSize == old(eventSize)
      ensures (Abs(), eventIndex) == EventMachine.Turn(old(Abs()), event, old(eventIndex), scale)
      ensures completed == old(Completes(Abs(), event, eventIndex))
    {
      hide Classify, Transition, Tree, Slice, Dispatch, NextControl;
      completed := false;
      var w := event(eventIndex);
      if Classify(w) != EMPTY {
        if ZeroWave(ctl, w) {
          Trans08ZeroWaveform();
        } else {
          completed := Switch(w);
        }
      }
      eventIndex := eventIndex + 1;
    }

    /** The main loop over the chunk. */
    method Process() returns (retval: bool)
      requires Valid() && ctl.state == Idle
      modifies this
      ensures Valid() && event == old(event) && eventSize == old(eventSize)
      ensures var r0 := old(fsmReport);
              var m0 := old(Abs()).(report := r0.(inEvents := r0.inEvents + 1, inBytes := r0.inBytes + 2 * eventSize));
              var (m, ok) := Run(m0, event, 0, eventSize, false, scale);
              retval == ok && Abs() == CountOut(m, eventSize)
    {
      hide Classify, Transition, Tree, EventMachine.Turn;
      retval := false;
      eventIndex := 0;
      fsmReport := fsmReport.(inEvents := fsmReport.inEvents + 1, inBytes := fsmReport.inBytes + 2 * eventSize);
      ghost var m0 := Abs();
      while eventIndex < eventSize
        invariant Valid() && event == old(event) && eventSize == old(eventSize)
        invariant ctl.state != Idle ==> eventIndex > 0
        invariant Run(Abs(), event, eventIndex, eventSize, retval, scale)
               == Run(m0, event, 0, eventSize, false, scale)
        decreases if eventIndex < eventSize then eventSize - eventIndex else 0, Pending(ctl)
      {
        var completed := Turn();
        retval := retval || completed;
      }
      fsmReport := fsmReport.(outEvents := fsmReport.outEvents + 1, outBytes := fsmReport.outBytes + 2 * eventSize);
    }
  }
}
