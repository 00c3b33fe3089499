/** Decoding an encoded event gives its meaning back. */
module RoundTrip {
  import opened Words
  import opened EventTree
  import opened EventMachine
  import opened Accumulators
  import opened Wire
  import opened Verdict

  // ----- feeding units to the machine -----

  predicate Fits(m: Machine, u: seq<Word>) {
    && Typed(m.ctl, m.zip.open)
    && u != [] && Classify(u[0]) != EMPTY && |u| == Need(m.ctl, u[0]) && !ZeroWave(m.ctl, u[0])
  }

  /** The machine after dispatching the units one by one, if every unit is what it demands. */
  function Feeds(m: Machine, us: Units, scale: Scale): Option<Machine>
    decreases |us|
  {
    if us == [] then Some(m)
    else if Fits(m, us[0]) then Feeds(Dispatch(m, us[0], scale), us[1..], scale)
    else None
  }

  lemma {:induction false} FeedsConcat(m: Machine, a: Units, b: Units, scale: Scale)
    requires Feeds(m, a, scale).Some?
    ensures Feeds(m, a + b, scale) == Feeds(Feeds(m, a, scale).value, b, scale)
    decreases |a|
  {
    hide Dispatch;
    if a == [] {
      assert a + b == b;
    } else {
      assert (a + b)[0] == a[0] && (a + b)[1..] == a[1..] + b;
      FeedsConcat(Dispatch(m, a[0], scale), a[1..], b, scale);
    }
  }

  lemma FeedsOne(m: Machine, u: seq<Word>, scale: Scale)
    requires Fits(m, u)
    ensures Feeds(m, [u], scale) == Some(Dispatch(m, u, scale))
  {
    hide Dispatch, Fits;
    assert [u][1..] == [];
  }

  // ----- words that run in memory, with EMPTY words between the units -----

  /** Words `i` to `end` of memory are the units, with any EMPTY words before, between and after them. */
  ghost predicate Holds(mem: Memory, i: nat, us: Units, end: nat)
    decreases if i < end then end - i else 0
  {
    || (us == [] && i == end)
    || (i < end && Classify(mem(i)) == EMPTY && Holds(mem, i + 1, us, end))
    || (us != [] && us[0] != [] && i + |us[0]| <= end && Slice(mem, i, |us[0]|) == us[0]
        && Holds(mem, i + |us[0]|, us[1..], end))
  }

  lemma {:induction false} RunStaysDone(m: Machine, mem: Memory, i: nat, size: nat, scale: Scale)
    requires Typed(m.ctl, m.zip.open)
    ensures Run(m, mem, i, size, true, scale).1
    decreases if i < size then size - i else 0, Pending(m.ctl)
  {
    hide Turn;
    if i < size {
      var r := Turn(m, mem, i, scale);
      RunStaysDone(r.0, mem, r.1, size, scale);
    }
  }

  /** Some unit completes an event. */
  ghost predicate Finishes(m: Machine, us: Units, scale: Scale) {
    exists k :: 0 <= k < |us| && us[k] != [] && Classify(us[k][0]) == REGID
      && Feeds(m, us[..k], scale).Some? && Feeds(m, us[..k], scale).value.ctl.state == S10
  }

  lemma FinishesTail(m: Machine, us: Units, scale: Scale)
    requires us != [] && Fits(m, us[0]) && Finishes(m, us, scale)
    requires !(Classify(us[0][0]) == REGID && m.ctl.state == S10)
    ensures Finishes(Dispatch(m, us[0], scale), us[1..], scale)
  {
    hide Dispatch, Fits, Classify;
    var k :| 0 <= k < |us| && us[k] != [] && Classify(us[k][0]) == REGID
      && Feeds(m, us[..k], scale).Some? && Feeds(m, us[..k], scale).value.ctl.state == S10;
    if k > 0 {
      assert us[..k][0] == us[0] && us[..k][1..] == us[1..][..k - 1];
      assert us[1..][k - 1] == us[k];
    }
  }

  /** The main loop on such memory does what feeding the units does. */
  lemma {:induction false} RunFeeds(m: Machine, mem: Memory, i: nat, us: Units, end: nat, scale: Scale)
    requires Typed(m.ctl, m.zip.open) && Holds(mem, i, us, end) && Feeds(m, us, scale).Some?
    ensures Run(m, mem, i, end, false, scale).0 == Feeds(m, us, scale).value
    ensures Finishes(m, us, scale) ==> Run(m, mem, i, end, false, scale).1
    decreases if i < end then end - i else 0
  {
    hide Classify, Dispatch;
    if i < end && Classify(mem(i)) == EMPTY && Holds(mem, i + 1, us, end) {
      RunFeeds(m, mem, i + 1, us, end, scale);
    } else if us != [] {
      var u := us[0];
      assert u[0] == mem(i);
      var m' := Dispatch(m, u, scale);
      if Completes(m, mem, i) {
        RunDoneFeeds(m', mem, i + |u|, us[1..], end, scale);
      } else {
        RunFeeds(m', mem, i + |u|, us[1..], end, scale);
        if Finishes(m, us, scale) {
          FinishesTail(m, us, scale);
        }
      }
    }
  }

  /** The same once an event is complete. */
  lemma {:induction false} RunDoneFeeds(m: Machine, mem: Memory, i: nat, us: Units, end: nat, scale: Scale)
    requires Typed(m.ctl, m.zip.open) && Holds(mem, i, us, end) && Feeds(m, us, scale).Some?
    ensures Run(m, mem, i, end, true, scale) == (Feeds(m, us, scale).value, true)
    decreases if i < end then end - i else 0
  {
    hide Classify, Dispatch;
    if i < end && Classify(mem(i)) == EMPTY && Holds(mem, i + 1, us, end) {
      RunDoneFeeds(m, mem, i + 1, us, end, scale);
    } else if us != [] {
      assert us[0][0] == mem(i);
      RunDoneFeeds(Dispatch(m, us[0], scale), mem, i + |us[0]|, us[1..], end, scale);
    }
  }

  // ----- single turns -----

  /** Between records: the next data word is a tag. */
  predicate InRecords(m: Machine) {
    && Typed(m.ctl, m.zip.open)
    && (m.ctl.state == S4 || (m.ctl.state == S5 && !m.ctl.tagDone && !m.ctl.wflenDone))
  }

  /** The accumulators apart from the values a waveform saves. */
  function Core(a: Acc): Acc { a.(saveBlkcrc := 0, saveFeecrc := 0) }

  /** From `m` to `m'` the words were counted in the card and in the block. */
  predicate Fed(m: Machine, m': Machine, ws: seq<Word>) {
    && Core(m'.acc) == Core(Feed(m.acc, ws))
    && m'.flags.ec == m.flags.ec && m'.report == m.report
  }

  lemma FedTrans(m: Machine, m1: Machine, m2: Machine, u: seq<Word>, v: seq<Word>)
    requires Fed(m, m1, u) && Fed(m1, m2, v)
    ensures Fed(m, m2, u + v)
  {
    hide Xor, XorFrom;
    FeedConcat(m.acc, u, v);
  }

  lemma FlatSnoc(us: Units, u: seq<Word>)
    ensures Flat(us + [u]) == Flat(us) + u
  {
    assert (us + [u])[..|us|] == us;
  }

  lemma {:induction false} FlatConcat(a: Units, b: Units)
    ensures Flat(a + b) == Flat(a) + Flat(b)
    decreases |b|
  {
    if b == [] {
      assert a + b == a;
    } else {
      var n := |b| - 1;
      assert (a + b)[..|a + b| - 1] == a + b[..n];
      FlatConcat(a, b[..n]);
    }
  }

  lemma FlatOne(u: seq<Word>)
    ensures Flat([u]) == u
  {
    FlatSnoc([], u);
    assert [] + [u] == [u];
  }

  /** A tag word. */
  lemma TagTurn(m: Machine, w: Word, scale: Scale)
    requires InRecords(m) && Classify(w) == DATA
    ensures Fits(m, [w])
    ensures var m' := Dispatch(m, [w], scale);
            var o := m.zip.open;
            && m'.ctl == m'.ctl.(state := S5, tag := w, tagDone := w != TAG_VOID, wflenDone := false)
            && Fed(m, m', [w])
            && m'.zip == m.zip.(open := AtData(o.blk, o.fee, o.hit, OpenTag(o.dat, w)))
            && m'.flags == m.flags && Typed(m'.ctl, m'.zip.open)
  {
    hide Classify, Transition, Xor, XorFrom;
    TransitionSource(Classify(w), m.ctl.state);
  }

  /** A length word. */
  lemma LengthTurn(m: Machine, w: Word, scale: Scale)
    requires Typed(m.ctl, m.zip.open) && Classify(w) == DATA
    requires m.ctl.state == S5 && m.ctl.tagDone && !m.ctl.wflenDone
    ensures Fits(m, [w])
    ensures var m' := Dispatch(m, [w], scale);
            && m'.ctl == m.ctl.(wflenDone := true, rdWflen := w) && Fed(m, m', [w])
            && m'.zip == m.zip && m'.flags == m.flags
  {
    hide Classify, Transition, Xor, XorFrom;
    TransitionSource(Classify(w), m.ctl.state);
  }

  /** A payload. */
  lemma PayloadTurn(m: Machine, ws: seq<Word>, scale: Scale)
    requires Typed(m.ctl, m.zip.open) && Pending(m.ctl)
    requires ws != [] && Classify(ws[0]) == DATA && |ws| == m.ctl.rdWflen == PayloadLength(m.ctl.tag, |ws|)
    ensures Fits(m, ws)
    ensures var m' := Dispatch(m, ws, scale);
            var o := m.zip.open;
            var d := FillData(o.dat, m.ctl.tag, |ws|, ws, scale);
            && InRecords(m') && m'.ctl.state == S5 && Fed(m, m', ws)
            && m'.zip == Zip(m.zip.done.(trinfo := m.zip.done.trinfo + FillInfo(o.hit, m.ctl.tag, |ws|, ws)),
                             AtData(o.blk, o.fee, o.hit, d))
            && m'.flags == m.flags.(err := m.flags.err || WaveMismatch(d, m.ctl.tag))
  {
    hide Classify, Transition, Xor, XorFrom, FillData, FillInfo;
    TransitionSource(Classify(ws[0]), m.ctl.state);
  }

  /** The state of the open data node, the information so far and the verdict. */
  function FilledOf(m: Machine): Filled
    requires m.zip.open.AtData?
  {
    Filled(m.zip.open.dat, m.zip.done.trinfo, m.flags.err)
  }

  function WithFilled(z: Zip, f: Filled): Zip
    requires z.open.AtData?
  {
    Zip(z.done.(trinfo := f.info), AtData(z.open.blk, z.open.fee, z.open.hit, f.dat))
  }

  lemma RecordFeeds(m: Machine, r: Record, scale: Scale) returns (m': Machine)
    requires InRecords(m) && WfRecord(r)
    ensures Feeds(m, RecordUnits(r), scale) == Some(m')
    ensures InRecords(m') && m'.ctl.state == S5 && Fed(m, m', Flat(RecordUnits(r)))
    ensures var f := RecordMeaning(m.zip.open.hit, FilledOf(m), r, scale);
            m'.zip == WithFilled(m.zip, f) && m'.flags == m.flags.(err := f.err)
  {
    hide Dispatch, Classify, Fed, FillData, FillInfo, Fits;
    if r.Void? {
      VoidIsData();
      TagTurn(m, TAG_VOID, scale);
      FeedsOne(m, [TAG_VOID], scale);
      FlatOne([TAG_VOID]);
      m' := Dispatch(m, [TAG_VOID], scale);
      FitsTyped(m, [TAG_VOID], scale);
    } else {
      var n := |r.payload|;
      LengthIsData(n);
      TagTurn(m, r.tag, scale);
      var m1 := Dispatch(m, [r.tag], scale);
      LengthTurn(m1, n, scale);
      var m2 := Dispatch(m1, [n], scale);
      PayloadTurn(m2, r.payload, scale);
      m' := Dispatch(m2, r.payload, scale);
      ThreeUnits(m, [r.tag], [n], r.payload, scale);
      FedTrans(m, m1, m2, [r.tag], [n]);
      FedTrans(m, m2, m', [r.tag] + [n], r.payload);
      OpenTagOpens(m.zip.open.dat, r.tag);
    }
  }

  lemma VoidIsData()
    ensures Classify(TAG_VOID) == DATA
  {}

  lemma LengthIsData(n: nat)
    requires n < 0x8000
    ensures Classify(n) == DATA
  {}

  lemma FitsTyped(m: Machine, u: seq<Word>, scale: Scale)
    requires Fits(m, u)
    ensures Typed(Dispatch(m, u, scale).ctl, Dispatch(m, u, scale).zip.open)
  {}

  lemma ThreeUnits(m: Machine, a: seq<Word>, b: seq<Word>, c: seq<Word>, scale: Scale)
    requires Fits(m, a) && Fits(Dispatch(m, a, scale), b)
    requires Fits(Dispatch(Dispatch(m, a, scale), b, scale), c)
    ensures Feeds(m, [a, b, c], scale) == Some(Dispatch(Dispatch(Dispatch(m, a, scale), b, scale), c, scale))
    ensures Flat([a, b, c]) == a + b + c
  {
    hide Dispatch, Feeds, Flat, Need, ZeroWave, Classify;
    FeedsCons(m, a, [b, c], scale);
    FeedsCons(Dispatch(m, a, scale), b, [c], scale);
    FeedsOne(Dispatch(Dispatch(m, a, scale), b, scale), c, scale);
    assert [a] + [b, c] == [a, b, c] && [b] + [c] == [b, c];
    FlatOne(a);
    FlatSnoc([a], b);
    FlatSnoc([a, b], c);
    assert [a] + [b] == [a, b] && [a, b] + [c] == [a, b, c];
  }

  lemma FeedsCons(m: Machine, u: seq<Word>, us: Units, scale: Scale)
    requires Fits(m, u)
    ensures Feeds(m, [u] + us, scale) == Feeds(Dispatch(m, u, scale), us, scale)
  {
    hide Dispatch;
    assert ([u] + us)[1..] == us;
  }

  lemma {:induction false} RecordsFeeds(m: Machine, rs: seq<Record>, scale: Scale) returns (m': Machine)
    requires InRecords(m) && forall r :: r in rs ==> WfRecord(r)
    ensures Feeds(m, RecordsUnits(rs), scale) == Some(m')
    ensures InRecords(m') && (rs != [] ==> m'.ctl.state == S5) && Fed(m, m', Flat(RecordsUnits(rs)))
    ensures var f := RecordsMeaning(m.zip.open.hit, FilledOf(m), rs, scale);
            m'.zip == WithFilled(m.zip, f) && m'.flags == m.flags.(err := f.err)
    decreases |rs|
  {
    hide Dispatch, Classify, RecordMeaning, Xor, XorFrom;
    if rs == [] {
      m' := m;
      FeedNothing(m.acc);
    } else {
      var n := |rs| - 1;
      var m1 := RecordsFeeds(m, rs[..n], scale);
      m' := RecordFeeds(m1, rs[n], scale);
      FeedsConcat(m, RecordsUnits(rs[..n]), RecordUnits(rs[n]), scale);
      FlatConcat(RecordsUnits(rs[..n]), RecordUnits(rs[n]));
      FedTrans(m, m1, m', Flat(RecordsUnits(rs[..n])), Flat(RecordUnits(rs[n])));
    }
  }

  // ----- hits -----

  /** What a record list gathers is added to what was there. */
  lemma {:induction false} RecordsAdd(h: Hit, f: Filled, rs: seq<Record>, scale: Scale)
    requires forall r :: r in rs ==> WfRecord(r)
    ensures var x := RecordsMeaning(h, Filled(f.dat, [], false), rs, scale);
            RecordsMeaning(h, f, rs, scale) == Filled(x.dat, f.info + x.info, f.err || x.err)
    decreases |rs|
  {
    hide FillData, FillInfo;
    if rs == [] {
      assert f.info + [] == f.info;
    } else {
      RecordsAdd(h, f, rs[..|rs| - 1], scale);
    }
  }

  /** A word outside a record. */
  lemma NodeFeeds(m: Machine, w: Word, scale: Scale) returns (m': Machine)
    requires Typed(m.ctl, m.zip.open)
    requires Classify(w) != EMPTY && Trans(m.ctl, w) != 7 && Trans(m.ctl, w) != 8
    ensures Feeds(m, [[w]], scale) == Some(m') && Typed(m'.ctl, m'.zip.open)
    ensures m'.ctl == m.ctl.(state := Target(Trans(m.ctl, w))) && m'.acc == NextAcc(m.ctl, m.acc, [w])
    ensures m'.zip == NextNode(m, w) && m'.flags == NextFlags(m, [w], m'.zip)
    ensures m'.report == NextReport(m, w, m'.zip.done)
  {
    hide Classify, Transition, NextAcc, NextNode, NextFlags, NextReport, Dispatch;
    m' := Machine(NextControl(m.ctl, w), NextAcc(m.ctl, m.acc, [w]), NextNode(m, w),
                  NextFlags(m, [w], NextNode(m, w)), NextReport(m, w, NextNode(m, w).done));
    NodeTurn(m, w, m', scale);
    FeedsOne(m, [w], scale);
  }

  lemma FeedsNothing(m: Machine, scale: Scale)
    ensures Feeds(m, [], scale) == Some(m) && Fed(m, m, Flat([]))
  {
    FeedNothing(m.acc);
  }

  /** One tag word: the first is the detector tag, a later one the trigger pattern. */
  lemma TagFeeds(m: Machine, w: Word, scale: Scale) returns (m': Machine)
    requires Typed(m.ctl, m.zip.open) && m.ctl.state == S3 && Classify(w) == DATA
    ensures Feeds(m, [[w]], scale) == Some(m') && Fed(m, m', [w])
    ensures Typed(m'.ctl, m'.zip.open) && m'.ctl.state == S3
    ensures var o := m.zip.open;
            var h := if m.flags.dettagDone then o.hit.(trigpat := w) else o.hit.(dettag := w);
            m'.zip == m.zip.(open := AtHit(o.blk, o.fee, h)) && m'.flags == m.flags.(dettagDone := true)
  {
    hide Classify, Transition, Feeds;
    TransitionSource(Classify(w), m.ctl.state);
    m' := NodeFeeds(m, w, scale);
  }

  lemma {:induction false} TagsFeeds(m: Machine, tags: seq<Word>, scale: Scale) returns (m': Machine)
    requires Typed(m.ctl, m.zip.open) && m.ctl.state == S3 && !m.flags.dettagDone
    requires forall w :: w in tags ==> Classify(w) == DATA
    ensures Feeds(m, Singles(tags), scale) == Some(m')
    ensures Typed(m'.ctl, m'.zip.open) && m'.ctl.state == S3 && Fed(m, m', Flat(Singles(tags)))
    ensures m'.zip == m.zip.(open := AtHit(m.zip.open.blk, m.zip.open.fee, TagsMeaning(m.zip.open.hit, tags)))
    ensures m'.flags == m.flags.(dettagDone := tags != [])
    decreases |tags|
  {
    hide Classify, Transition, Feeds, Fed, Flat;
    if tags == [] {
      m' := m;
      FeedsNothing(m, scale);
    } else {
      var n := |tags| - 1;
      var w := tags[n];
      var m1 := TagsFeeds(m, tags[..n], scale);
      m' := TagFeeds(m1, w, scale);
      FeedsConcat(m, Singles(tags[..n]), [[w]], scale);
      FlatSnoc(Singles(tags[..n]), [w]);
      FedTrans(m, m1, m', Flat(Singles(tags[..n])), [w]);
    }
  }

  /** From the telescope header word to the detector header. */
  lemma HeaderFeeds(m: Machine, h: WireHit, scale: Scale) returns (m': Machine)
    requires Typed(m.ctl, m.zip.open) && m.ctl.state == S2 && h.Telescope? && WfHit(h)
    ensures var us := [[h.gttag]] + Singles(h.tags) + [[h.det]];
            Feeds(m, us, scale) == Some(m') && Fed(m, m', Flat(us))
    ensures Typed(m'.ctl, m'.zip.open) && m'.ctl.state == S4
    ensures var o := m.zip.open;
            var head := TagsMeaning(o.hit.(gttag := h.gttag), h.tags).(detid := DetectorField(h.det));
            m'.zip == m.zip.(open := AtData(o.blk, o.fee, head, NewData(h.det)))
    ensures m'.flags.err == (m.flags.err || DetectedType(h.det) == UNKDT)
  {
    hide Classify, Transition, Xor, XorFrom, DetectedType, TagsMeaning;
    TransitionSource(Classify(h.gttag), m.ctl.state);
    var m1 := NodeFeeds(m, h.gttag, scale);
    var m2 := TagsFeeds(m1, h.tags, scale);
    TransitionSource(Classify(h.det), m2.ctl.state);
    m' := NodeFeeds(m2, h.det, scale);
    FeedsConcat(m, [[h.gttag]], Singles(h.tags), scale);
    FeedsConcat(m, [[h.gttag]] + Singles(h.tags), [[h.det]], scale);
    FlatOne([h.gttag]);
    FlatConcat([[h.gttag]], Singles(h.tags));
    FlatSnoc([[h.gttag]] + Singles(h.tags), [h.det]);
    FedTrans(m, m1, m2, [h.gttag], Flat(Singles(h.tags)));
    FedTrans(m, m2, m', [h.gttag] + Flat(Singles(h.tags)), [h.det]);
  }

  /** The records of a hit, from the detector header on. */
  lemma BodyFeeds(m: Machine, h: WireHit, scale: Scale) returns (m': Machine)
    requires Typed(m.ctl, m.zip.open) && m.ctl.state == S4 && m.zip.open.dat == NewData(h.det) && WfHit(h)
    ensures Feeds(m, RecordsUnits(h.recs), scale) == Some(m')
    ensures InRecords(m') && m'.ctl.state == S5 && Fed(m, m', Flat(RecordsUnits(h.recs)))
    ensures var o := m.zip.open;
            var f := RecordsMeaning(o.hit, Filled(NewData(h.det), [], false), h.recs, scale);
            && m'.zip == Zip(m.zip.done.(trinfo := m.zip.done.trinfo + f.info), AtData(o.blk, o.fee, o.hit, f.dat))
            && m'.flags.err == (m.flags.err || f.err)
  {
    hide Classify, Xor, XorFrom, RecordsMeaning;
    m' := RecordsFeeds(m, h.recs, scale);
    RecordsAdd(m.zip.open.hit, FilledOf(m), h.recs, scale);
  }

  /** A whole telescope hit, from the word after its header word on. */
  lemma TelescopeFeeds(m: Machine, h: WireHit, scale: Scale) returns (m': Machine)
    requires Typed(m.ctl, m.zip.open) && m.ctl.state == S2 && h.Telescope? && WfHit(h)
    ensures Feeds(m, HitTail(h), scale) == Some(m') && Fed(m, m', Flat(HitTail(h)))
    ensures InRecords(m') && m'.ctl.state == S5
    ensures var o := m.zip.open;
            var head := TagsMeaning(o.hit.(gttag := h.gttag), h.tags).(detid := DetectorField(h.det));
            var f := RecordsMeaning(head, Filled(NewData(h.det), [], false), h.recs, scale);
            && m'.zip == Zip(m.zip.done.(trinfo := m.zip.done.trinfo + f.info), AtData(o.blk, o.fee, head, f.dat))
            && m'.flags.err == (m.flags.err || DetectedType(h.det) == UNKDT || f.err)
  {
    hide Classify, Transition, Xor, XorFrom, DetectedType, TagsMeaning, RecordsMeaning, Dispatch;
    var hu, ru := [[h.gttag]] + Singles(h.tags) + [[h.det]], RecordsUnits(h.recs);
    var m1 := HeaderFeeds(m, h, scale);
    m' := BodyFeeds(m1, h, scale);
    FeedsConcat(m, hu, ru, scale);
    FlatConcat(hu, ru);
    FedTrans(m, m1, m', Flat(hu), Flat(ru));
  }

  function HitTail(h: WireHit): Units
    requires WfHit(h) && h.Telescope?
  {
    [[h.gttag]] + Singles(h.tags) + [[h.det]] + RecordsUnits(h.recs)
  }

  lemma HitUnitsSplit(h: WireHit)
    requires WfHit(h)
    ensures h.Telescope? ==> HitUnits(h) == [[h.telid]] + HitTail(h)
    ensures h.Detector? ==> HitUnits(h) == [[h.det]] + RecordsUnits(h.recs)
  {}

  /** How the next hit of a card leaves the tree and the verdict. */
  predicate HitDone(m: Machine, m': Machine, fee: Fee, head: Hit, h: WireHit, scale: Scale)
    requires WfHit(h) && !m.zip.open.Closed?
  {
    var f := RecordsMeaning(head, Filled(NewData(h.det), [], false), h.recs, scale);
    && m'.zip == Zip(m.zip.done.(trinfo := m.zip.done.trinfo + f.info), AtData(m.zip.open.blk, fee, head, f.dat))
    && m'.flags.err == (m.flags.err || DetectedType(h.det) == UNKDT || f.err)
  }

  lemma LaterTelescopeFeeds(m: Machine, h: WireHit, scale: Scale) returns (m': Machine)
    requires InRecords(m) && m.ctl.state == S5 && WfHit(h) && h.Telescope?
    ensures Feeds(m, HitUnits(h), scale) == Some(m')
    ensures InRecords(m') && m'.ctl.state == S5 && Fed(m, m', Flat(HitUnits(h)))
    ensures var fee := CloseFee(m.zip.open.fee, CloseHit(m.zip.open.hit, m.zip.open.dat));
            HitDone(m, m', fee, HitHead(h, m.zip.done.ec, fee.hits), h, scale)
  {
    hide Classify, Transition, Xor, XorFrom, DetectedType, TagsMeaning, RecordsMeaning, HitTail, Dispatch;
    TransitionSource(Classify(h.telid), m.ctl.state);
    var m1 := NodeFeeds(m, h.telid, scale);
    m' := TelescopeFeeds(m1, h, scale);
    HitUnitsSplit(h);
    FeedsConcat(m, [[h.telid]], HitTail(h), scale);
    FlatOne([h.telid]);
    FlatConcat([[h.telid]], HitTail(h));
    FedTrans(m, m1, m', [h.telid], Flat(HitTail(h)));
  }

  lemma DetectorFeeds(m: Machine, h: WireHit, scale: Scale) returns (m': Machine)
    requires InRecords(m) && m.ctl.state == S5 && WfHit(h) && h.Detector?
    ensures Feeds(m, HitUnits(h), scale) == Some(m')
    ensures InRecords(m') && m'.ctl.state == S5 && Fed(m, m', Flat(HitUnits(h)))
    ensures var fee := CloseFee(m.zip.open.fee, CloseHit(m.zip.open.hit, m.zip.open.dat));
            HitDone(m, m', fee, HitHead(h, m.zip.done.ec, fee.hits), h, scale)
  {
    hide Classify, Transition, Xor, XorFrom, DetectedType, RecordsMeaning, RecordsUnits, Dispatch;
    TransitionSource(Classify(h.det), m.ctl.state);
    var m1 := NodeFeeds(m, h.det, scale);
    m' := BodyFeeds(m1, h, scale);
    HitUnitsSplit(h);
    FeedsConcat(m, [[h.det]], RecordsUnits(h.recs), scale);
    FlatOne([h.det]);
    FlatConcat([[h.det]], RecordsUnits(h.recs));
    FedTrans(m, m1, m', [h.det], Flat(RecordsUnits(h.recs)));
  }

  /** From the loop head before a card, the words of the card counted from its own counter on. */
  predicate CardFed(m: Machine, m': Machine, ws: seq<Word>) {
    && Core(m'.acc) == Core(AddBlk(m.acc, ws).(feelen := 1 + |ws|, feecrc := XorAll([m.acc.rawec] + ws)))
    && m'.flags.ec == m.flags.ec && m'.report == m.report
  }

  lemma CardFedTrans(m: Machine, m1: Machine, m2: Machine, u: seq<Word>, v: seq<Word>)
    requires CardFed(m, m1, u) && Fed(m1, m2, v)
    ensures CardFed(m, m2, u + v)
  {
    hide Xor, XorFrom, XorAll;
    FeedConcat(m.acc, u, v);
    assert [m.acc.rawec] + (u + v) == [m.acc.rawec] + u + v;
    XorAllConcat([m.acc.rawec] + u, v);
  }

  /** The first hit of a card opens the card. */
  lemma FirstHitFeeds(m: Machine, h: WireHit, scale: Scale) returns (m': Machine)
    requires Typed(m.ctl, m.zip.open) && m.ctl.state == S1 && WfHit(h) && h.Telescope?
    ensures Feeds(m, HitUnits(h), scale) == Some(m')
    ensures InRecords(m') && m'.ctl.state == S5 && CardFed(m, m', Flat(HitUnits(h)))
    ensures HitDone(m, m', Fee(CheckedFec(FecField(h.telid)), true, true, []), HitHead(h, m.flags.ec, []), h, scale)
  {
    hide Classify, Transition, Xor, XorFrom, DetectedType, TagsMeaning, RecordsMeaning, HitTail, Dispatch;
    TransitionSource(Classify(h.telid), m.ctl.state);
    var m1 := NodeFeeds(m, h.telid, scale);
    OpensCard(m, m1, h.telid);
    m' := TelescopeFeeds(m1, h, scale);
    HitUnitsSplit(h);
    FeedsConcat(m, [[h.telid]], HitTail(h), scale);
    FlatOne([h.telid]);
    FlatConcat([[h.telid]], HitTail(h));
    CardFedTrans(m, m1, m', [h.telid], Flat(HitTail(h)));
  }

  lemma OpensCard(m: Machine, m': Machine, w: Word)
    requires Trans(m.ctl, w) == 3 && m'.acc == NextAcc(m.ctl, m.acc, [w])
    requires m'.flags.ec == m.flags.ec && m'.report == m.report
    ensures CardFed(m, m', [w])
  {
    hide Xor, XorFrom, Classify, Transition;
    assert [m.acc.rawec] + [w] == [m.acc.rawec, w] && [m.acc.rawec, w][1..] == [w];
    XorFromOne(m.acc.rawec, w);
  }

  /** How the hits of a card leave the tree and the verdict: the last one is still open. */
  predicate HitsDone(m: Machine, m': Machine, hs: seq<WireHit>, scale: Scale)
    requires hs != [] && hs[0].Telescope? && forall h :: h in hs ==> WfHit(h)
    requires !m.zip.open.Closed?
  {
    var r := HitsMeaning(hs, m.flags.ec, m.zip.done.ec, scale);
    var o := m'.zip.open;
    && o.AtData? && o.blk == m.zip.open.blk
    && m'.zip.done == m.zip.done.(trinfo := m.zip.done.trinfo + r.info)
    && CloseFee(o.fee, CloseHit(o.hit, o.dat)) == Fee(CheckedFec(FecField(hs[0].telid)), true, true, r.hits)
    && m'.flags.err == (m.flags.err || r.err)
  }

  lemma HitsDoneOne(m: Machine, m': Machine, h: WireHit, scale: Scale)
    requires WfHit(h) && h.Telescope? && !m.zip.open.Closed?
    requires HitDone(m, m', Fee(CheckedFec(FecField(h.telid)), true, true, []), HitHead(h, m.flags.ec, []), h, scale)
    ensures HitsDone(m, m', [h], scale)
  {
    hide DetectedType, TagsMeaning, RecordsMeaning, HitHead;
    assert [h][..0] == [];
    assert HitsMeaning([h][..0], m.flags.ec, m.zip.done.ec, scale) == Carded([], [], false);
    var f := RecordsMeaning(HitHead(h, m.flags.ec, []), Filled(NewData(h.det), [], false), h.recs, scale);
    assert [] + f.info == f.info;
    var r := HitsMeaning([h], m.flags.ec, m.zip.done.ec, scale);
    assert r.hits == [CloseHit(HitHead(h, m.flags.ec, []), f.dat)];
  }

  lemma HitsDoneSnoc(m: Machine, m1: Machine, m': Machine, hs: seq<WireHit>, h: WireHit, scale: Scale)
    requires hs != [] && hs[0].Telescope? && (forall x :: x in hs ==> WfHit(x)) && WfHit(h)
    requires !m.zip.open.Closed? && HitsDone(m, m1, hs, scale)
    requires var fee := CloseFee(m1.zip.open.fee, CloseHit(m1.zip.open.hit, m1.zip.open.dat));
             HitDone(m1, m', fee, HitHead(h, m1.zip.done.ec, fee.hits), h, scale)
    ensures HitsDone(m, m', hs + [h], scale)
  {
    hide DetectedType, TagsMeaning, RecordsMeaning, HitHead;
    assert (hs + [h])[..|hs|] == hs;
    var r := HitsMeaning(hs, m.flags.ec, m.zip.done.ec, scale);
    var o := m'.zip.open;
    assert o.fee.hits == r.hits;
  }

  lemma {:induction false} HitsFeeds(m: Machine, hs: seq<WireHit>, scale: Scale) returns (m': Machine)
    requires Typed(m.ctl, m.zip.open) && m.ctl.state == S1
    requires hs != [] && hs[0].Telescope? && forall h :: h in hs ==> WfHit(h)
    ensures Feeds(m, HitsUnits(hs), scale) == Some(m')
    ensures InRecords(m') && m'.ctl.state == S5 && CardFed(m, m', Flat(HitsUnits(hs)))
    ensures HitsDone(m, m', hs, scale)
    decreases |hs|
  {
    hide Classify, Transition, Xor, XorFrom, HitUnits, CardFed, Fed, HitHead, HitsDone, HitDone, Dispatch, WfHit;
    var n := |hs| - 1;
    var h := hs[n];
    assert hs == hs[..n] + [h];
    if n == 0 {
      m' := FirstHitFeeds(m, h, scale);
      HitsDoneOne(m, m', h, scale);
      assert HitsUnits(hs) == [] + HitUnits(h) == HitUnits(h);
    } else {
      var m1 := HitsFeeds(m, hs[..n], scale);
      if h.Telescope? {
        m' := LaterTelescopeFeeds(m1, h, scale);
      } else {
        m' := DetectorFeeds(m1, h, scale);
      }
      HitsDoneSnoc(m, m1, m', hs[..n], h, scale);
      FeedsConcat(m, HitsUnits(hs[..n]), HitUnits(h), scale);
      FlatConcat(HitsUnits(hs[..n]), HitUnits(h));
      CardFedTrans(m, m1, m', Flat(HitsUnits(hs[..n])), Flat(HitUnits(h)));
    }
  }

  // ----- cards -----

  /** The words were counted in the block. */
  predicate BlkFed(m: Machine, m': Machine, ws: seq<Word>) {
    && m'.acc.blklen == m.acc.blklen + |ws| && m'.acc.blkcrc == XorFrom(m.acc.blkcrc, ws)
    && m'.report == m.report
  }

  lemma BlkFedTrans(m: Machine, m1: Machine, m2: Machine, u: seq<Word>, v: seq<Word>)
    requires BlkFed(m, m1, u) && BlkFed(m1, m2, v)
    ensures BlkFed(m, m2, u + v)
  {
    XorFromConcat(m.acc.blkcrc, u, v);
  }

  lemma CardFedIsBlkFed(m: Machine, m': Machine, ws: seq<Word>)
    requires CardFed(m, m', ws)
    ensures BlkFed(m, m', ws)
    ensures m'.acc.feelen == |[m.acc.rawec] + ws| && m'.acc.feecrc == XorAll([m.acc.rawec] + ws)
  {
    hide Xor, XorFrom, XorAll;
  }

  /** The three words that close a card whose LENGTH and CRCFE words are right. */
  lemma CardEndFeeds(m: Machine, body: seq<Word>, counter: Word, scale: Scale) returns (m': Machine)
    requires InRecords(m) && m.ctl.state == S5 && Classify(counter) == EC && body != []
    requires m.acc.feelen == |body| && m.acc.feecrc == XorAll(body)
    ensures var us := [[LengthWord(|body|)], [CrcFeWord(XorAll(body))], [counter]];
            Feeds(m, us, scale) == Some(m') && BlkFed(m, m', Flat(us))
    ensures Typed(m'.ctl, m'.zip.open) && m'.ctl.state == S1
    ensures m'.acc.rawec == counter && m'.flags.ec == Low12(counter) && m'.flags.err == m.flags.err
    ensures var o := m.zip.open;
            var fee := CloseFee(o.fee, CloseHit(o.hit, o.dat)).(lenError := false, crcError := false);
            m'.zip == m.zip.(open := AtBlock(CloseBlock(o.blk, fee)))
  {
    hide Classify, Transition, Xor, XorFrom, XorAll, Fold8, LengthWord, CrcFeWord, CrcBlWord, Low12, CheckByte;
    hide Dispatch, Feeds, Flat;
    var lw, cw := LengthWord(|body|), CrcFeWord(XorAll(body));
    CheckWords(|body|, XorAll(body));
    TransitionSource(LENGTH, S5);
    TransitionSource(CRCFE, S6);
    TransitionSource(EC, S7);
    var m1 := NodeFeeds(m, lw, scale);
    var m2 := NodeFeeds(m1, cw, scale);
    m' := NodeFeeds(m2, counter, scale);
    ThreeFeeds(m, m1, m2, m', [lw], [cw], [counter], scale);
    BlkFedTrans(m, m1, m2, [lw], [cw]);
    BlkFedTrans(m, m2, m', [lw] + [cw], [counter]);
  }

  lemma ThreeFeeds(m: Machine, m1: Machine, m2: Machine, m': Machine, a: seq<Word>, b: seq<Word>, c: seq<Word>,
                   scale: Scale)
    requires Feeds(m, [a], scale) == Some(m1) && Feeds(m1, [b], scale) == Some(m2) && Feeds(m2, [c], scale) == Some(m')
    ensures Feeds(m, [a, b, c], scale) == Some(m') && Flat([a, b, c]) == a + b + c
  {
    hide Feeds, Flat;
    FeedsConcat(m, [a], [b], scale);
    FeedsConcat(m, [a] + [b], [c], scale);
    FlatOne(a);
    FlatSnoc([a], b);
    FlatSnoc([a, b], c);
    assert [a] + [b] == [a, b] && [a, b] + [c] == [a, b, c];
  }

  /** A card after its own counter, up to the next counter. */
  lemma CardFeeds(m: Machine, c: WireCard, scale: Scale) returns (m': Machine)
    requires Typed(m.ctl, m.zip.open) && m.ctl.state == S1 && WfCard(c)
    requires m.flags.ec == Low12(m.acc.rawec)
    ensures Feeds(m, CardUnits(c, m.acc.rawec), scale) == Some(m')
    ensures BlkFed(m, m', Flat(CardUnits(c, m.acc.rawec)))
    ensures Typed(m'.ctl, m'.zip.open) && m'.ctl.state == S1
    ensures m'.acc.rawec == c.counter && m'.flags.ec == Low12(c.counter)
    ensures var r := HitsMeaning(c.hits, Low12(m.acc.rawec), m.zip.done.ec, scale);
            && m'.flags.err == (m.flags.err || r.err)
            && m'.zip == Zip(m.zip.done.(trinfo := m.zip.done.trinfo + r.info),
                             AtBlock(CloseBlock(m.zip.open.blk, CardMeaning(c, m.acc.rawec, m.zip.done.ec, scale))))
  {
    hide Classify, Transition, Xor, XorFrom, XorAll, HitsMeaning, LengthWord, CrcFeWord, Dispatch, HitsUnits, WfHit;
    var body := CardBody(c, m.acc.rawec);
    var m1 := HitsFeeds(m, c.hits, scale);
    CardFedIsBlkFed(m, m1, Flat(HitsUnits(c.hits)));
    m' := CardEndFeeds(m1, body, c.counter, scale);
    var end := [[LengthWord(|body|)], [CrcFeWord(XorAll(body))], [c.counter]];
    FeedsConcat(m, HitsUnits(c.hits), end, scale);
    FlatConcat(HitsUnits(c.hits), end);
    BlkFedTrans(m, m1, m', Flat(HitsUnits(c.hits)), Flat(end));
  }

  lemma {:induction false} CardsFeeds(m: Machine, cs: seq<WireCard>, scale: Scale) returns (m': Machine)
    requires Typed(m.ctl, m.zip.open) && m.ctl.state == S1 && forall c :: c in cs ==> WfCard(c)
    requires m.flags.ec == Low12(m.acc.rawec)
    ensures Feeds(m, CardsUnits(cs, m.acc.rawec), scale) == Some(m')
    ensures BlkFed(m, m', Flat(CardsUnits(cs, m.acc.rawec)))
    ensures Typed(m'.ctl, m'.zip.open) && m'.ctl.state == S1
    ensures m'.acc.rawec == CounterAfter(cs, m.acc.rawec) && m'.flags.ec == Low12(m'.acc.rawec)
    ensures var r := CardsMeaning(cs, m.acc.rawec, m.zip.done.ec, scale);
            && m'.flags.err == (m.flags.err || r.err)
            && m'.zip == Zip(m.zip.done.(trinfo := m.zip.done.trinfo + r.info),
                             AtBlock(m.zip.open.blk.(fees := m.zip.open.blk.fees + r.fees)))
    decreases |cs|
  {
    hide Classify, Transition, Xor, HitsMeaning, CardUnits, CardMeaning, Dispatch, WfCard, Low12;
    var ec := m.acc.rawec;
    if cs == [] {
      m' := m;
      assert m.zip.open.blk.fees + [] == m.zip.open.blk.fees && m.zip.done.trinfo + [] == m.zip.done.trinfo;
    } else {
      var n := |cs| - 1;
      var m1 := CardsFeeds(m, cs[..n], scale);
      m' := CardFeeds(m1, cs[n], scale);
      FeedsConcat(m, CardsUnits(cs[..n], ec), CardUnits(cs[n], CounterAfter(cs[..n], ec)), scale);
      FlatConcat(CardsUnits(cs[..n], ec), CardUnits(cs[n], CounterAfter(cs[..n], ec)));
      BlkFedTrans(m, m1, m', Flat(CardsUnits(cs[..n], ec)), Flat(CardUnits(cs[n], CounterAfter(cs[..n], ec))));
    }
  }

  // ----- blocks -----

  /** The opening counter of a block. */
  lemma OpeningFeeds(m: Machine, w: Word, scale: Scale) returns (m': Machine)
    requires Typed(m.ctl, m.zip.open) && (m.ctl.state == Idle || m.ctl.state == S10) && Classify(w) == EC
    ensures Feeds(m, [[w]], scale) == Some(m') && Typed(m'.ctl, m'.zip.open) && m'.ctl.state == S1
    ensures m'.acc.blklen == 1 && m'.acc.blkcrc == w && m'.acc.rawec == w && m'.flags.ec == Low12(w)
    ensures m'.zip == Zip(m.zip.done.(ec := Low12(w)), AtBlock(Block(0, true, true, [])))
    ensures m'.flags.err == (m.ctl.state == S10 && m.flags.err) && m'.report == m.report
  {
    hide Classify, Transition, Xor, XorFrom, Low12, Dispatch;
    TransitionSource(EC, m.ctl.state);
    m' := NodeFeeds(m, w, scale);
  }

  /** The three words that close a block with a right check word: its length flag is raised
      exactly at the boundary. */
  lemma BlockEndFeeds(m: Machine, blkid: Word, n: nat, scale: Scale) returns (m': Machine)
    requires Typed(m.ctl, m.zip.open) && m.ctl.state == S1 && Classify(blkid) == BLKID
    requires n == m.acc.blklen + 3
    ensures var lw := LengthWord(n);
            var crc := XorFrom(m.acc.blkcrc, [blkid, lw]);
            Feeds(m, [[blkid], [lw], [CrcBlWord(crc)]], scale) == Some(m')
    ensures Typed(m'.ctl, m'.zip.open) && m'.ctl.state == S10 && m'.report == m.report
    ensures m'.flags.err == (m.flags.err || n % 4096 < 2)
    ensures var b := m.zip.open.blk.(blkid := Low11(blkid), lenError := n % 4096 < 2, crcError := false);
            m'.zip == Zip(m.zip.done.(blocks := m.zip.done.blocks + if b.blkid == TRIGGER_BLOCK then [] else [b]), Closed)
  {
    hide Classify, Transition, Xor, XorFrom, Fold8, LengthWord, CrcFeWord, CrcBlWord, Low12, Low11, CheckByte, Dispatch;
    var lw := LengthWord(n);
    var crc := XorFrom(m.acc.blkcrc, [blkid, lw]);
    var cw := CrcBlWord(crc);
    CheckWords(n, crc);
    TransitionSource(BLKID, S1);
    TransitionSource(LENGTH, S8);
    TransitionSource(CRCBL, S9);
    var m1 := NodeFeeds(m, blkid, scale);
    var m2 := NodeFeeds(m1, lw, scale);
    XorFromOne(m1.acc.blkcrc, lw);
    XorFromConcat(m.acc.blkcrc, [blkid], [lw]);
    assert [blkid] + [lw] == [blkid, lw];
    BlockLengthVerdict(m.acc.blklen + 1, n % 4096);
    m' := NodeFeeds(m2, cw, scale);
    FeedsConcat(m, [[blkid]], [[lw]], scale);
    FeedsConcat(m, [[blkid]] + [[lw]], [[cw]], scale);
    assert [[blkid]] + [[lw]] + [[cw]] == [[blkid], [lw], [cw]];
    assert m.zip.done.blocks + [] == m.zip.done.blocks;
  }

  lemma BlockWordsOf(b: WireBlock)
    requires WfBlock(b)
    ensures var cards := CardsUnits(b.cards, b.opening);
            var lw := LengthWord(BlockLength(b));
            && BlockLength(b) == |Flat(cards)| + 4
            && XorAll(Flat(BlockBody(b)) + [lw]) == XorFrom(XorFrom(b.opening, Flat(cards)), [b.blkid, lw])
            && BlockUnits(b) == [[b.opening]] + cards
                              + [[b.blkid], [lw], [CrcBlWord(XorAll(Flat(BlockBody(b)) + [lw]))]]
  {
    hide Classify, Xor, XorFrom, CardsUnits, Fold8, LengthWord, CrcBlWord;
    var cards := CardsUnits(b.cards, b.opening);
    var lw := LengthWord(BlockLength(b));
    FlatOne([b.opening]);
    FlatConcat([[b.opening]], cards);
    FlatSnoc([[b.opening]] + cards, [b.blkid]);
    var s := Flat(BlockBody(b)) + [lw];
    assert s[0] == b.opening && s[1..] == Flat(cards) + [b.blkid, lw];
    XorFromConcat(b.opening, Flat(cards), [b.blkid, lw]);
  }

  lemma BlockFeeds(m: Machine, b: WireBlock, scale: Scale) returns (m': Machine)
    requires Typed(m.ctl, m.zip.open) && (m.ctl.state == Idle || m.ctl.state == S10) && WfBlock(b)
    ensures Feeds(m, BlockUnits(b), scale) == Some(m')
    ensures Typed(m'.ctl, m'.zip.open) && m'.ctl.state == S10 && m'.report == m.report
    ensures var cards := CardsMeaning(b.cards, b.opening, Low12(b.opening), scale);
            var e := m.zip.done;
            && m'.zip == Zip(Event(Low12(b.opening), e.regid, e.trinfo + cards.info,
                                   e.blocks + if Low11(b.blkid) == TRIGGER_BLOCK then [] else [BlockMeaning(b, scale)]),
                             Closed)
            && m'.flags.err == ((m.ctl.state == S10 && m.flags.err) || cards.err || LengthBoundary(b))
  {
    hide Classify, Transition, Xor, XorFrom, XorAll, LengthWord, CrcBlWord, Low12, Low11, Dispatch, CardsUnits,
         CardsMeaning, WfCard;
    var cards := CardsUnits(b.cards, b.opening);
    var n := BlockLength(b);
    BlockWordsOf(b);
    var m1 := OpeningFeeds(m, b.opening, scale);
    var m2 := CardsFeeds(m1, b.cards, scale);
    m' := BlockEndFeeds(m2, b.blkid, n, scale);
    var end := [[b.blkid], [LengthWord(n)], [CrcBlWord(XorAll(Flat(BlockBody(b)) + [LengthWord(n)]))]];
    FeedsConcat(m, [[b.opening]], cards, scale);
    FeedsConcat(m, [[b.opening]] + cards, end, scale);
    var r := CardsMeaning(b.cards, b.opening, Low12(b.opening), scale);
    assert [] + r.fees == r.fees;
  }

  lemma {:induction false} BlocksFeeds(m: Machine, bs: seq<WireBlock>, scale: Scale) returns (m': Machine)
    requires Typed(m.ctl, m.zip.open) && m.ctl.state == Idle && m.zip == Zip(CLEARED, Closed)
    requires forall b :: b in bs ==> WfBlock(b)
    ensures Feeds(m, BlocksUnits(bs), scale) == Some(m')
    ensures Typed(m'.ctl, m'.zip.open) && m'.report == m.report
    ensures m'.ctl.state == if bs == [] then Idle else S10
    ensures m'.zip == Zip(BlocksMeaning(bs, scale).ev, Closed)
    ensures bs != [] ==> m'.flags.err == BlocksMeaning(bs, scale).err
    decreases |bs|
  {
    hide Classify, Transition, CardsMeaning, BlockMeaning, BlockUnits, LengthBoundary, Low11, Low12, Dispatch;
    if bs == [] {
      m' := m;
    } else {
      var n := |bs| - 1;
      assert WfBlock(bs[n]);
      var m1 := BlocksFeeds(m, bs[..n], scale);
      m' := BlockFeeds(m1, bs[n], scale);
      FeedsConcat(m, BlocksUnits(bs[..n]), BlockUnits(bs[n]), scale);
    }
  }

  // ----- events -----

  /** Counting one event by the verdict on it. */
  function CountEvent(r: Report, e: Event, err: bool): Report {
    if EmptyEvent(e) then r.(eventsEmpty := r.eventsEmpty + 1)
    else if err then r.(eventsBad := r.eventsBad + 1)
    else r.(eventsGood := r.eventsGood + 1)
  }

  lemma EventFeeds(m: Machine, e: WireEvent, scale: Scale) returns (m': Machine)
    requires Typed(m.ctl, m.zip.open) && m.ctl.state == Idle && m.zip == Zip(CLEARED, Closed) && WfEvent(e)
    ensures Feeds(m, EventUnits(e), scale) == Some(m') && Finishes(m, EventUnits(e), scale)
    ensures Tree(m'.zip) == EventMeaning(e, scale)
    ensures m'.report == CountEvent(m.report, EventMeaning(e, scale), EventErr(e, scale))
    ensures m'.flags.empty == EmptyEvent(EventMeaning(e, scale))
  {
    hide Classify, Transition, Dispatch, BlocksUnits, BlocksMeaning, WfBlock, Low11, Feeds, NextAcc, EmptyEvent;
    var us := BlocksUnits(e.blocks);
    var m1 := BlocksFeeds(m, e.blocks, scale);
    TransitionSource(REGID, S10);
    m' := NodeFeeds(m1, e.regid, scale);
    FeedsConcat(m, us, [[e.regid]], scale);
    var all := us + [[e.regid]];
    assert all[..|us|] == us && all[|us|] == [e.regid];
    assert m'.zip.done.blocks + [] == m'.zip.done.blocks;
  }

  /** Round trip. Whatever machine a chunk is attached to, if the chunk holds the units of a
      well-formed event, with EMPTY words anywhere between them, the main loop reports a parsed
      event, its tree is the meaning of the event, and the verdict counts it once. */
  lemma DecodesEncoded(m: Machine, e: WireEvent, mem: Memory, size: nat, scale: Scale)
    requires m.ctl.state == Idle && m.zip == Zip(CLEARED, Closed)
    requires WfEvent(e) && Holds(mem, 0, EventUnits(e), size)
    ensures var (m', ok) := Run(m, mem, 0, size, false, scale);
            && ok && Tree(m'.zip) == EventMeaning(e, scale)
            && m'.report == CountEvent(m.report, EventMeaning(e, scale), EventErr(e, scale))
            && m'.flags.empty == EmptyEvent(EventMeaning(e, scale))
  {
    hide Run, Feeds, EventUnits, EventMeaning, EventErr, Holds, Finishes;
    var m' := EventFeeds(m, e, scale);
    RunFeeds(m, mem, 0, EventUnits(e), size, scale);
  }
}
