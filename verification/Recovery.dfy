/** What the decoded tree holds, read off the records of the wire event. */
module Recovery {
  import opened Words
  import opened EventTree
  import opened EventMachine
  import opened Wire

  predicate IsTag(r: Record, tag: Word) { r.Rec? && r.tag == tag }

  /** The records that are not fillers. */
  function NoVoids(rs: seq<Record>): (r: seq<Record>)
    ensures forall x :: x in r ==> x in rs && !x.Void?
  {
    if rs == [] then []
    else
      var n := |rs| - 1;
      NoVoids(rs[..n]) + if rs[n].Void? then [] else [rs[n]]
  }

  /** Filler tags, the word 0x3030, change nothing between records. */
  lemma {:induction false} VoidsIgnored(h: Hit, f: Filled, rs: seq<Record>, scale: Scale)
    requires forall r :: r in rs ==> WfRecord(r)
    ensures RecordsMeaning(h, f, rs, scale) == RecordsMeaning(h, f, NoVoids(rs), scale) && RecordUnits(Void) == [[0x3030]]
    decreases |rs|
  {
    hide WfRecord;
    if rs != [] {
      var n := |rs| - 1;
      VoidsIgnored(h, f, rs[..n], scale);
      if rs[n].Void? {
        assert NoVoids(rs) == NoVoids(rs[..n]);
      } else {
        assert NoVoids(rs)[..|NoVoids(rs)| - 1] == NoVoids(rs[..n]);
      }
    }
  }

  /** A record whose tag is none of these holds one payload word, which changes nothing. */
  lemma OtherTagsIgnored(h: Hit, f: Filled, tag: Word, payload: seq<Word>, scale: Scale)
    requires tag < 0x8000 && tag != 0x3030
    requires tag !in {0x7001, 0x7002, 0x7003, 0x7004, 0x7005, 0x7100, 0x7101, 0x7110, 0x7111, 0x7112, 0x7113, 0x7200}
    ensures WfRecord(Rec(tag, payload)) <==> |payload| == 1 && payload[0] < 0x8000
    ensures WfRecord(Rec(tag, payload)) ==> RecordMeaning(h, f, Rec(tag, payload), scale) == f
  {
    hide AddEnergy, AddSamples, CentrumInfo;
    assert f.info + [] == f.info;
  }

  /** All waveform samples of a record list, in order. */
  function Samples(rs: seq<Record>): seq<Word> {
    if rs == [] then []
    else
      var n := |rs| - 1;
      Samples(rs[..n]) + if IsTag(rs[n], TAG_WAVEFORM) then rs[n].payload else []
  }

  function Count(rs: seq<Record>, tag: Word): nat {
    if rs == [] then 0 else Count(rs[..|rs| - 1], tag) + if IsTag(rs[|rs| - 1], tag) then 1 else 0
  }

  /** The pretrigger word of the last record that carries one. */
  function Pretrigger(rs: seq<Record>): Option<Word>
    requires forall r :: r in rs ==> WfRecord(r)
  {
    if rs == [] then None
    else if IsTag(rs[|rs| - 1], TAG_PRETRIGGER) then
      assert WfRecord(rs[|rs| - 1]);
      Some(rs[|rs| - 1].payload[0])
    else Pretrigger(rs[..|rs| - 1])
  }

  /** What one record does to the waveform and to the verdict. */
  lemma WaveformStep(h: Hit, f: Filled, r: Record, scale: Scale)
    requires WfRecord(r)
    ensures var x := RecordMeaning(h, f, r, scale);
            var prev := if f.dat.waveform.None? then Waveform(None, [], true) else f.dat.waveform.value;
            if IsTag(r, TAG_WAVEFORM) then
              var w := AddSamples(prev, r.payload, |r.payload|);
              x.dat.waveform == Some(w) && x.err == (f.err || w.lenError)
            else if IsTag(r, TAG_PRETRIGGER) then
              x.dat.waveform == Some(prev.(pretrig := Some(r.payload[0]))) && x.err == f.err
            else x.dat.waveform == f.dat.waveform && x.err == f.err
  {
    hide AddEnergy, FillInfo;
  }

  /** The waveform of a fresh data node: all samples in order, the last pretrigger; the
      verdict fails exactly when a second waveform follows. */
  lemma {:induction false} WaveformRecovered(h: Hit, det: Word, rs: seq<Record>, scale: Scale)
    requires forall r :: r in rs ==> WfRecord(r)
    ensures var f := RecordsMeaning(h, Filled(NewData(det), [], false), rs, scale);
            && (f.dat.waveform.None? <==> Count(rs, TAG_WAVEFORM) == 0 && Count(rs, TAG_PRETRIGGER) == 0)
            && (f.dat.waveform.Some? ==>
              f.dat.waveform.value.samples == Samples(rs) && f.dat.waveform.value.pretrig == Pretrigger(rs))
            && (f.err <==> Count(rs, TAG_WAVEFORM) >= 2)
            && (f.dat.waveform.Some? && Count(rs, TAG_WAVEFORM) == 1 ==> !f.dat.waveform.value.lenError)
    ensures Samples(rs) == [] <==> Count(rs, TAG_WAVEFORM) == 0
    ensures Pretrigger(rs).None? <==> Count(rs, TAG_PRETRIGGER) == 0
    decreases |rs|
  {
    hide RecordMeaning;
    if rs != [] {
      var n := |rs| - 1;
      assert WfRecord(rs[n]);
      WaveformRecovered(h, det, rs[..n], scale);
      WaveformStep(h, RecordsMeaning(h, Filled(NewData(det), [], false), rs[..n], scale), rs[n], scale);
    }
  }

  /** The records with one tag. */
  function WithTag(rs: seq<Record>, tag: Word): (r: seq<Record>)
    ensures forall x :: x in r ==> x in rs && IsTag(x, tag)
  {
    if rs == [] then []
    else WithTag(rs[..|rs| - 1], tag) + if IsTag(rs[|rs| - 1], tag) then [rs[|rs| - 1]] else []
  }

  /** The trigger information of a record list: only counters, times, patterns, temperatures and
      Centrum words, one record after another. */
  function InfoOf(h: Hit, rs: seq<Record>): seq<TrigInfo>
    requires forall r :: r in rs ==> WfRecord(r)
  {
    if rs == [] then []
    else
      var r := rs[|rs| - 1];
      assert WfRecord(r);
      InfoOf(h, rs[..|rs| - 1]) + if r.Void? || r.tag < TAG_RB_COUNTERS then [] else
        FillInfo(h, r.tag, |r.payload|, r.payload)
  }

  lemma BaselineStep(h: Hit, f: Filled, r: Record, scale: Scale)
    requires WfRecord(r)
    ensures var x := RecordMeaning(h, f, r, scale);
            && x.dat.baseline == (if IsTag(r, TAG_BASELINE) then Some(Baseline(r.payload[0], r.payload[1]))
                                  else f.dat.baseline)
            && x.dat.dataType == f.dat.dataType
            && x.info == f.info + if r.Void? || r.tag < TAG_RB_COUNTERS then [] else
                                    FillInfo(h, r.tag, |r.payload|, r.payload)
  {
    hide AddEnergy, AddSamples, Baseline, Counters, CentrumInfo;
  }

  /** The baseline is that of the last baseline record, the data type that of the detector word,
      and the trigger information is gathered in the order of the records. */
  lemma {:induction false} BaselineAndInfoRecovered(h: Hit, det: Word, rs: seq<Record>, scale: Scale)
    requires forall r :: r in rs ==> WfRecord(r)
    ensures var f := RecordsMeaning(h, Filled(NewData(det), [], false), rs, scale);
            var bs := WithTag(rs, TAG_BASELINE);
            && (bs == [] ==> f.dat.baseline == None)
            && (bs != [] ==>
              var last := bs[|bs| - 1];
              last.Rec? && |last.payload| == 2 && f.dat.baseline == Some(Baseline(last.payload[0], last.payload[1])))
            && f.dat.dataType == DetectedType(det) && f.info == InfoOf(h, rs)
    decreases |rs|
  {
    hide RecordMeaning, FillInfo, Baseline;
    if rs != [] {
      var n := |rs| - 1;
      assert WfRecord(rs[n]);
      BaselineAndInfoRecovered(h, det, rs[..n], scale);
      BaselineStep(h, RecordsMeaning(h, Filled(NewData(det), [], false), rs[..n], scale), rs[n], scale);
    }
  }

  /** Two 15-bit words are a 30-bit two's complement number. */
  lemma BaselineIsSigned(hi: Word, lo: Word)
    requires hi < 0x8000 && lo < 0x8000
    ensures -0x2000_0000 <= Baseline(hi, lo) < 0x2000_0000
    ensures (Baseline(hi, lo) - Pair15(hi, lo)) % 0x4000_0000 == 0
  {
    assert Baseline(hi, lo) == Pair15(hi, lo) || Baseline(hi, lo) == Pair15(hi, lo) - 0x4000_0000;
  }

  /** The energy records of a list. */
  function Energies(rs: seq<Record>): seq<Record> {
    if rs == [] then []
    else
      var n := |rs| - 1;
      Energies(rs[..n]) + if IsTag(rs[n], TAG_SLOW) || IsTag(rs[n], TAG_FAST) then [rs[n]] else []
  }

  /** The energy entries that a list of energy records leaves. */
  function EnergyValues(rs: seq<Record>, scale: Scale): seq<nat>
    requires forall r :: r in rs ==> r.Rec? && |r.payload| == 3
  {
    if rs == [] then []
    else
      var n := |rs| - 1;
      AddEnergy(EnergyValues(rs[..n], scale), if IsTag(rs[n], TAG_SLOW) then 0 else 1, rs[n].payload, scale)
  }

  lemma {:induction false} EnergiesAreTriples(rs: seq<Record>)
    requires forall r :: r in rs ==> WfRecord(r)
    ensures forall r :: r in Energies(rs) ==> r.Rec? && |r.payload| == 3
    decreases |rs|
  {
    if rs != [] {
      assert WfRecord(rs[|rs| - 1]);
      EnergiesAreTriples(rs[..|rs| - 1]);
    }
  }

  /** What one record does to the energies. */
  lemma EnergyStep(h: Hit, f: Filled, r: Record, scale: Scale)
    requires WfRecord(r)
    ensures var x := RecordMeaning(h, f, r, scale);
            var prev := if f.dat.energy.None? then [] else f.dat.energy.value.values;
            if IsTag(r, TAG_SLOW) || IsTag(r, TAG_FAST) then
              |r.payload| == 3 &&
              x.dat.energy == Some(Energy(AddEnergy(prev, if IsTag(r, TAG_SLOW) then 0 else 1, r.payload, scale), false))
            else x.dat.energy == f.dat.energy
  {
    hide AddEnergy, FillInfo;
  }

  /** The energies of a fresh data node depend on the energy records alone. */
  lemma {:induction false} EnergyRecovered(h: Hit, det: Word, rs: seq<Record>, scale: Scale)
    requires forall r :: r in rs ==> WfRecord(r)
    ensures forall r :: r in Energies(rs) ==> r.Rec? && |r.payload| == 3
    ensures var f := RecordsMeaning(h, Filled(NewData(det), [], false), rs, scale);
            f.dat.energy == if Energies(rs) == [] then None else Some(Energy(EnergyValues(Energies(rs), scale), false))
    decreases |rs|
  {
    hide AddEnergy, RecordMeaning;
    EnergiesAreTriples(rs);
    if rs != [] {
      var n := |rs| - 1;
      assert WfRecord(rs[n]);
      EnergyRecovered(h, det, rs[..n], scale);
      EnergyStep(h, RecordsMeaning(h, Filled(NewData(det), [], false), rs[..n], scale), rs[n], scale);
      if IsTag(rs[n], TAG_SLOW) || IsTag(rs[n], TAG_FAST) {
        EnergyValuesSnoc(Energies(rs[..n]), rs[n], scale);
        assert Energies(rs) == Energies(rs[..n]) + [rs[n]];
      } else {
        assert Energies(rs) == Energies(rs[..n]);
      }
    }
  }

  lemma EnergyValuesSnoc(es: seq<Record>, r: Record, scale: Scale)
    requires (forall x :: x in es ==> x.Rec? && |x.payload| == 3) && r.Rec? && |r.payload| == 3
    ensures EnergyValues(es + [r], scale)
         == AddEnergy(EnergyValues(es, scale), if IsTag(r, TAG_SLOW) then 0 else 1, r.payload, scale)
  {
    hide AddEnergy;
    assert (es + [r])[..|es|] == es;
  }

  /** A slow record followed by a fast one gives the two scaled 30-bit energies in that order. Each
      carries a rise time, a high word and a low word. */
  lemma SlowThenFast(h: Hit, det: Word, s: seq<Word>, f: seq<Word>, scale: Scale)
    requires |s| == |f| == 3 && s[0] < 0x8000 && f[0] < 0x8000
    ensures var rs := [Rec(0x7001, s), Rec(0x7002, f)];
            && (forall r :: r in rs ==> WfRecord(r))
            && var slow, fast := scale(s[1] as int * 0x8000 + s[2], s[0]), scale(f[1] as int * 0x8000 + f[2], f[0]);
            RecordsMeaning(h, Filled(NewData(det), [], false), rs, scale).dat.energy == Some(Energy([slow, fast], false))
  {
    hide AddEnergy, WfRecord, RecordsMeaning, Energies, EnergyValues, Pair15;
    var slow, fast := Rec(0x7001, s), Rec(0x7002, f);
    TripleWritten(0x7001, s);
    TripleWritten(0x7002, f);
    EnergyRecovered(h, det, [slow, fast], scale);
    EnergiesOnly([slow, fast]);
    AddOne([], 0, s, scale);
    NoEnergy(scale);
    EnergyValuesSnoc([], slow, scale);
    assert [] + [slow] == [slow] && [slow] + [fast] == [slow, fast];
    AddOne(EnergyValues([slow], scale), 1, f, scale);
    EnergyValuesSnoc([slow], fast, scale);
    PairIs(s[1], s[2]);
    PairIs(f[1], f[2]);
    assert EnergyValues([slow], scale) == [scale(Pair15(s[1], s[2]), s[0])];
    assert EnergyValues([slow, fast], scale) == [scale(Pair15(s[1], s[2]), s[0]), scale(Pair15(f[1], f[2]), f[0])];
  }

  lemma PairIs(hi: Word, lo: Word)
    ensures Pair15(hi, lo) == hi as int * 0x8000 + lo
  {}

  lemma NoEnergy(scale: Scale)
    ensures EnergyValues([], scale) == []
  {}

  lemma {:induction false} EnergiesOnly(rs: seq<Record>)
    requires forall r :: r in rs ==> IsTag(r, TAG_SLOW) || IsTag(r, TAG_FAST)
    ensures Energies(rs) == rs
    decreases |rs|
  {
    hide IsTag;
    if rs != [] {
      var n := |rs| - 1;
      EnergiesOnly(rs[..n]);
      assert rs[n] in rs && rs == rs[..n] + [rs[n]];
      assert Energies(rs) == Energies(rs[..n]) + [rs[n]];
    }
  }

  /** A second slow record shifts its low word into the energy already there and scales it again; its
      high word stays behind as a second entry. */
  lemma SlowAgain(h: Hit, det: Word, s: seq<Word>, t: seq<Word>, scale: Scale)
    requires |s| == |t| == 3 && s[0] < 0x8000 && t[0] < 0x8000
    ensures var rs := [Rec(0x7001, s), Rec(0x7001, t)];
            && (forall r :: r in rs ==> WfRecord(r))
            && var once := scale(s[1] as int * 0x8000 + s[2], s[0]);
            var twice := scale((once * 0x8000 + t[2]) % 0x1_0000_0000, t[0]);
            RecordsMeaning(h, Filled(NewData(det), [], false), rs, scale).dat.energy == Some(Energy([twice, t[1]], false))
  {
    hide AddEnergy, WfRecord, RecordsMeaning, Energies, EnergyValues, Pair15;
    var a, b := Rec(0x7001, s), Rec(0x7001, t);
    TripleWritten(0x7001, s);
    TripleWritten(0x7001, t);
    EnergyRecovered(h, det, [a, b], scale);
    EnergiesOnly([a, b]);
    AddOne([], 0, s, scale);
    NoEnergy(scale);
    EnergyValuesSnoc([], a, scale);
    EnergyValuesSnoc([a], b, scale);
    assert [] + [a] == [a] && [a] + [b] == [a, b];
    PairIs(s[1], s[2]);
    var once := scale(s[1] as int * 0x8000 + s[2], s[0]);
    assert EnergyValues([a], scale) == [once];
    AddAgain(once, t, scale);
  }

  lemma AddAgain(v: nat, ws: seq<Word>, scale: Scale)
    requires |ws| == 3
    ensures AddEnergy([v], 0, ws, scale) == [scale((v * 0x8000 + ws[2]) % 0x1_0000_0000, ws[0]), ws[1]]
  {}

  lemma TripleWritten(tag: Word, ws: seq<Word>)
    requires |ws| == 3 && (tag == 0x7001 || tag == 0x7002) && ws[0] < 0x8000
    ensures WfRecord(Rec(tag, ws))
  {}

  /** An energy record that completes the entry it appends. */
  lemma AddOne(vs: seq<nat>, i: nat, ws: seq<Word>, scale: Scale)
    requires |ws| == 3 && i == |vs|
    ensures AddEnergy(vs, i, ws, scale) == vs + [scale(Pair15(ws[1], ws[2]), ws[0])]
  {
    Shift15Fits(ws[1], ws[2]);
  }

  // ----- the headers of hits -----

  /** The type of data by card number, detector and data code, for every detector header. */
  lemma DetectedTypeExact(w: Word)
    ensures DetectedType(w) == ADC <==> w / 2 % 16 == 15
    ensures w / 2 % 16 != 15 ==>
      var d, code := w / 32 % 8, w / 256 % 8;
      && (DetectedType(w) == QH1 <==> (d, code) == (0, 0)) && (DetectedType(w) == I1 <==> (d, code) == (0, 1))
      && (DetectedType(w) == QL1 <==> (d, code) == (0, 2)) && (DetectedType(w) == Q2 <==> (d, code) == (1, 0))
      && (DetectedType(w) == I2 <==> (d, code) == (1, 1)) && (DetectedType(w) == Q3 <==> (d, code) == (2, 0))
      && (DetectedType(w) == UNKDT <==> (d, code) !in {(0, 0), (0, 1), (0, 2), (1, 0), (1, 1), (2, 0)})
  {}

  /** The last telescope header at or before a hit. */
  function TelescopeOf(hs: seq<WireHit>, k: nat): (j: nat)
    requires k < |hs|
    ensures j <= k
  {
    if hs[k].Telescope? || k == 0 then k else TelescopeOf(hs, k - 1)
  }

  lemma {:induction false} TelescopeOfPrefix(hs: seq<WireHit>, n: nat, k: nat)
    requires k < n <= |hs|
    ensures TelescopeOf(hs[..n], k) == TelescopeOf(hs, k)
    ensures hs[0].Telescope? ==> hs[TelescopeOf(hs, k)].Telescope?
    decreases k
  {
    if k > 0 {
      TelescopeOfPrefix(hs, n, k - 1);
    }
  }

  /** Time tag, detector tag and trigger pattern are those of a telescope header. */
  predicate TagsOf(h: Hit, t: WireHit)
    requires t.Telescope?
  {
    && h.gttag == t.gttag
    && h.dettag == (if t.tags == [] then 0 else t.tags[0])
    && h.trigpat == (if |t.tags| <= 1 then 0 else t.tags[|t.tags| - 1])
  }

  /** Identifiers are those of the hit's own header words. */
  predicate NamesOf(h: Hit, w: WireHit) {
    var id := if w.Telescope? then w.telid else w.det;
    h.telid == id % 2 && h.feeid == id / 2 % 16 && h.detid == w.det / 32 % 8
  }

  lemma FirstOfTelescope(w: WireHit, ec: nat, prev: seq<Hit>)
    requires w.Telescope?
    ensures TagsOf(HitHead(w, ec, prev), w) && NamesOf(HitHead(w, ec, prev), w) && HitHead(w, ec, prev).ec == ec
  {}

  lemma NextOfTelescope(w: WireHit, ec: nat, prev: seq<Hit>, t: WireHit)
    requires w.Detector? && prev != [] && t.Telescope? && TagsOf(prev[|prev| - 1], t)
    ensures TagsOf(HitHead(w, ec, prev), t) && NamesOf(HitHead(w, ec, prev), w) && HitHead(w, ec, prev).ec == ec
  {}

  /** One hit: its head with its data node. */
  lemma HitRecovered(w: WireHit, ec: nat, prev: seq<Hit>, t: WireHit, scale: Scale)
    requires WfHit(w) && t.Telescope?
    requires w == t || (w.Detector? && prev != [] && TagsOf(prev[|prev| - 1], t))
    ensures forall r :: r in w.recs ==> WfRecord(r)
    ensures var head := HitHead(w, ec, prev);
            var h := CloseHit(head, RecordsMeaning(head, Filled(NewData(w.det), [], false), w.recs, scale).dat);
            && TagsOf(h, t) && NamesOf(h, w) && h.ec == ec
            && |h.data| == 1 && h.data[0].dataType == DetectedType(w.det)
  {
    hide WfHit, WfRecord, RecordsMeaning, HitHead, TagsOf, NamesOf, DetectedType, CloseHit, NewData;
    var head := HitHead(w, ec, prev);
    if w == t {
      FirstOfTelescope(w, ec, prev);
    } else {
      NextOfTelescope(w, ec, prev, t);
    }
    RecordsOf(w);
    BaselineAndInfoRecovered(head, w.det, w.recs, scale);
    NothingRead(w, ec, prev);
    ClosedKeeps(head, RecordsMeaning(head, Filled(NewData(w.det), [], false), w.recs, scale).dat, t, w);
  }

  /** What each hit of an encoded card takes from where: a hit that a detector header alone opens has
      the tags of the last telescope header before it, its own identifiers, and the counter of the
      block, as has every hit but the first. */
  lemma {:induction false} HitsRecovered(hs: seq<WireHit>, cardEc: nat, blockEc: nat, scale: Scale, k: nat)
    requires (forall h :: h in hs ==> WfHit(h)) && k < |hs| && hs[0].Telescope?
    ensures hs[TelescopeOf(hs, k)].Telescope?
    ensures var h := HitsMeaning(hs, cardEc, blockEc, scale).hits[k];
            && TagsOf(h, hs[TelescopeOf(hs, k)]) && NamesOf(h, hs[k]) && h.ec == (if k == 0 then cardEc else blockEc)
            && |h.data| == 1 && h.data[0].dataType == DetectedType(hs[k].det)
    decreases |hs|
  {
    hide WfHit, WfRecord, RecordsMeaning, HitHead, HitsMeaning, TagsOf, NamesOf, DetectedType, CloseHit, NewData;
    var n := |hs| - 1;
    assert hs[..n + 1] == hs[..n] + [hs[n]] == hs && WfHit(hs[n]);
    HitsSnoc(hs[..n], hs[n], cardEc, blockEc, scale);
    TelescopeOfPrefix(hs, n + 1, k);
    if k < n {
      HitsRecovered(hs[..n], cardEc, blockEc, scale, k);
      TelescopeOfPrefix(hs, n, k);
    } else {
      var before := HitsMeaning(hs[..n], cardEc, blockEc, scale).hits;
      if hs[n].Detector? {
        HitsRecovered(hs[..n], cardEc, blockEc, scale, n - 1);
        TelescopeOfPrefix(hs, n, n - 1);
      }
      HitRecovered(hs[n], if n == 0 then cardEc else blockEc, before, hs[TelescopeOf(hs, n)], scale);
    }
  }

  lemma RecordsOf(h: WireHit)
    requires WfHit(h)
    ensures forall r :: r in h.recs ==> WfRecord(r)
  {}

  lemma NothingRead(w: WireHit, ec: nat, prev: seq<Hit>)
    ensures HitHead(w, ec, prev).data == []
  {}

  lemma ClosedKeeps(h: Hit, d: Data, t: WireHit, w: WireHit)
    requires t.Telescope? && TagsOf(h, t) && NamesOf(h, w) && h.data == []
    ensures TagsOf(CloseHit(h, d), t) && NamesOf(CloseHit(h, d), w)
    ensures CloseHit(h, d).ec == h.ec && CloseHit(h, d).data == [d]
  {}

  // ----- the verdict -----

  predicate FaultyHit(h: WireHit) {
    DetectedType(h.det) == UNKDT || Count(h.recs, TAG_WAVEFORM) >= 2
  }

  predicate FaultyCard(c: WireCard) { exists h :: h in c.hits && FaultyHit(h) }

  predicate FaultyBlock(b: WireBlock)
    requires WfBlock(b)
  {
    LengthBoundary(b) || exists c :: c in b.cards && FaultyCard(c)
  }

  lemma {:induction false} HitsFaulty(hs: seq<WireHit>, cardEc: nat, blockEc: nat, scale: Scale)
    requires forall h :: h in hs ==> WfHit(h)
    ensures HitsMeaning(hs, cardEc, blockEc, scale).err <==> exists h :: h in hs && FaultyHit(h)
    decreases |hs|
  {
    hide RecordsMeaning, DetectedType, HitHead;
    if hs != [] {
      var n := |hs| - 1;
      assert WfHit(hs[n]);
      HitsFaulty(hs[..n], cardEc, blockEc, scale);
      var before := HitsMeaning(hs[..n], cardEc, blockEc, scale);
      WaveformRecovered(HitHead(hs[n], if n == 0 then cardEc else blockEc, before.hits), hs[n].det, hs[n].recs, scale);
      assert hs == hs[..n] + [hs[n]];
    }
  }

  lemma {:induction false} CardsFaulty(cs: seq<WireCard>, ec: Word, blockEc: nat, scale: Scale)
    requires forall c :: c in cs ==> WfCard(c)
    ensures CardsMeaning(cs, ec, blockEc, scale).err <==> exists c :: c in cs && FaultyCard(c)
    decreases |cs|
  {
    hide HitsMeaning, FaultyHit, CardMeaning;
    if cs != [] {
      var n := |cs| - 1;
      assert WfCard(cs[n]);
      CardsFaulty(cs[..n], ec, blockEc, scale);
      HitsFaulty(cs[n].hits, Low12(CounterAfter(cs[..n], ec)), blockEc, scale);
      assert cs == cs[..n] + [cs[n]];
    }
  }

  /** The verdict on an encoded event, read off the wire: it is bad exactly when some hit has an
      unknown detector or a second waveform, or some block length is 0 or 1 modulo 4096. */
  lemma {:induction false} BlocksFaulty(bs: seq<WireBlock>, scale: Scale)
    requires forall b :: b in bs ==> WfBlock(b)
    ensures BlocksMeaning(bs, scale).err <==> exists b :: b in bs && FaultyBlock(b)
    decreases |bs|
  {
    hide CardsMeaning, FaultyCard, BlockMeaning, LengthBoundary;
    if bs != [] {
      var n := |bs| - 1;
      assert WfBlock(bs[n]);
      BlocksFaulty(bs[..n], scale);
      CardsFaulty(bs[n].cards, bs[n].opening, Low12(bs[n].opening), scale);
      assert bs == bs[..n] + [bs[n]];
    }
  }

  /** Every card and every check byte of the meaning is clean. */
  lemma {:induction false} CardsClean(cs: seq<WireCard>, ec: Word, blockEc: nat, scale: Scale)
    requires forall c :: c in cs ==> WfCard(c)
    ensures forall f :: f in CardsMeaning(cs, ec, blockEc, scale).fees ==> CleanFee(f) && CompleteFee(f)
    decreases |cs|
  {
    hide HitsMeaning;
    if cs != [] {
      var n := |cs| - 1;
      assert WfCard(cs[n]);
      CardsClean(cs[..n], ec, blockEc, scale);
      HitsComplete(cs[n].hits, Low12(CounterAfter(cs[..n], ec)), blockEc, scale);
    }
  }

  lemma {:induction false} HitsComplete(hs: seq<WireHit>, cardEc: nat, blockEc: nat, scale: Scale)
    requires forall h :: h in hs ==> WfHit(h)
    ensures forall h :: h in HitsMeaning(hs, cardEc, blockEc, scale).hits ==> CompleteHit(h)
    decreases |hs|
  {
    hide RecordsMeaning, DetectedType;
    if hs != [] {
      assert WfHit(hs[|hs| - 1]);
      HitsComplete(hs[..|hs| - 1], cardEc, blockEc, scale);
    }
  }

  /** A block that stays in the tree and whose length check fails. */
  predicate FlaggedBlock(b: WireBlock)
    requires WfBlock(b)
  {
    b.blkid % 2048 != 0x7FF && LengthBoundary(b)
  }

  /** The decoded event has every flag clear exactly when none of its blocks is at the boundary,
      trigger blocks aside. */
  lemma {:induction false} BlocksClean(bs: seq<WireBlock>, scale: Scale)
    requires forall b :: b in bs ==> WfBlock(b)
    ensures CleanEvent(BlocksMeaning(bs, scale).ev) <==> forall b :: b in bs ==> !FlaggedBlock(b)
    decreases |bs|
  {
    hide CardsMeaning, LengthBoundary, CleanEvent, BlockMeaning, CleanBlock;
    if bs == [] {
      NothingIsClean();
    } else {
      var n := |bs| - 1;
      assert WfBlock(bs[n]) && bs == bs[..n] + [bs[n]];
      assert forall b :: b in bs <==> b in bs[..n] || b == bs[n];
      BlocksClean(bs[..n], scale);
      CardsClean(bs[n].cards, bs[n].opening, Low12(bs[n].opening), scale);
      BlockClean(bs[n], scale);
      CleanSnoc(BlocksMeaning(bs[..n], scale).ev, BlocksMeaning(bs, scale).ev, BlockMeaning(bs[n], scale),
                Low11(bs[n].blkid) != TRIGGER_BLOCK);
      assert CleanEvent(BlocksMeaning(bs, scale).ev) <==>
             CleanEvent(BlocksMeaning(bs[..n], scale).ev) && !FlaggedBlock(bs[n]);
      assert (forall b :: b in bs ==> !FlaggedBlock(b)) <==>
             (forall b :: b in bs[..n] ==> !FlaggedBlock(b)) && !FlaggedBlock(bs[n]);
    }
  }

  lemma NothingIsClean()
    ensures CleanEvent(CLEARED)
  {}

  lemma BlockClean(b: WireBlock, scale: Scale)
    requires WfBlock(b)
    requires forall f :: f in CardsMeaning(b.cards, b.opening, Low12(b.opening), scale).fees ==> CleanFee(f)
    ensures CleanBlock(BlockMeaning(b, scale)) <==> !LengthBoundary(b)
  {
    hide CardsMeaning, LengthBoundary;
  }

  lemma CleanSnoc(e: Event, e': Event, b: Block, added: bool)
    requires e'.blocks == e.blocks + if added then [b] else []
    ensures CleanEvent(e') <==> CleanEvent(e) && (added ==> CleanBlock(b))
  {
    hide CleanBlock;
    if added {
      assert b in e'.blocks;
    }
  }

  /** The identifiers of the blocks that stay in the tree: 0x7FF is that of trigger blocks. */
  function KeptIds(bs: seq<WireBlock>): seq<nat> {
    if bs == [] then []
    else
      var n := |bs| - 1;
      KeptIds(bs[..n]) + if bs[n].blkid % 2048 == 0x7FF then [] else [bs[n].blkid % 2048]
  }

  lemma {:induction false} BlocksKept(bs: seq<WireBlock>, scale: Scale)
    requires forall b :: b in bs ==> WfBlock(b)
    ensures var e := BlocksMeaning(bs, scale).ev;
            |e.blocks| == |KeptIds(bs)| && forall k :: 0 <= k < |e.blocks| ==> e.blocks[k].blkid == KeptIds(bs)[k]
    decreases |bs|
  {
    hide CardsMeaning, LengthBoundary, WfBlock;
    if bs != [] {
      BlocksKept(bs[..|bs| - 1], scale);
    }
  }

  // ----- empty events -----

  /** Records that leave trigger information. */
  predicate CarriesInfo(r: Record) { r.Rec? && r.tag in {0x7100, 0x7101, 0x7110, 0x7111, 0x7112, 0x7113, 0x7200} }

  predicate QuietHit(h: WireHit) { forall r :: r in h.recs ==> !CarriesInfo(r) }

  predicate QuietCard(c: WireCard) { forall h :: h in c.hits ==> QuietHit(h) }

  predicate QuietBlock(b: WireBlock) { forall c :: c in b.cards ==> QuietCard(c) }

  lemma RecordInfo(h: Hit, f: Filled, r: Record, scale: Scale)
    requires WfRecord(r)
    ensures RecordMeaning(h, f, r, scale).info == [] <==> f.info == [] && !CarriesInfo(r)
  {
    hide AddEnergy, AddSamples, CentrumInfo;
  }

  lemma {:induction false} RecordsInfo(h: Hit, f: Filled, rs: seq<Record>, scale: Scale)
    requires forall r :: r in rs ==> WfRecord(r)
    ensures RecordsMeaning(h, f, rs, scale).info == [] <==> f.info == [] && forall r :: r in rs ==> !CarriesInfo(r)
    decreases |rs|
  {
    hide RecordMeaning, CarriesInfo, WfRecord;
    if rs != [] {
      var n := |rs| - 1;
      assert rs == rs[..n] + [rs[n]];
      RecordsInfo(h, f, rs[..n], scale);
      RecordInfo(h, RecordsMeaning(h, f, rs[..n], scale), rs[n], scale);
    }
  }

  lemma {:induction false} HitsInfo(hs: seq<WireHit>, cardEc: nat, blockEc: nat, scale: Scale)
    requires forall h :: h in hs ==> WfHit(h)
    ensures HitsMeaning(hs, cardEc, blockEc, scale).info == [] <==> forall h :: h in hs ==> QuietHit(h)
    decreases |hs|
  {
    hide RecordsMeaning, HitHead, DetectedType, CloseHit, NewData, CarriesInfo, WfRecord;
    if hs != [] {
      var n := |hs| - 1;
      assert hs == hs[..n] + [hs[n]];
      HitsInfo(hs[..n], cardEc, blockEc, scale);
      assert WfHit(hs[n]);
      var h := HitHead(hs[n], if n == 0 then cardEc else blockEc, HitsMeaning(hs[..n], cardEc, blockEc, scale).hits);
      RecordsInfo(h, Filled(NewData(hs[n].det), [], false), hs[n].recs, scale);
    }
  }

  lemma {:induction false} CardsInfo(cs: seq<WireCard>, ec: Word, blockEc: nat, scale: Scale)
    requires forall c :: c in cs ==> WfCard(c)
    ensures CardsMeaning(cs, ec, blockEc, scale).info == [] <==> forall c :: c in cs ==> QuietCard(c)
    decreases |cs|
  {
    hide HitsMeaning, CardMeaning, WfHit, QuietHit, Low12;
    if cs != [] {
      var n := |cs| - 1;
      assert cs == cs[..n] + [cs[n]];
      CardsInfo(cs[..n], ec, blockEc, scale);
      assert WfCard(cs[n]);
      HitsInfo(cs[n].hits, Low12(CounterAfter(cs[..n], ec)), blockEc, scale);
    }
  }

  /** Blocks that leave nothing in the event: no trigger information and, trigger blocks aside, no card. */
  predicate BlankBlock(b: WireBlock) { QuietBlock(b) && (b.blkid % 2048 != 0x7FF ==> b.cards == []) }

  lemma {:induction false} BlocksBlank(bs: seq<WireBlock>, scale: Scale)
    requires forall b :: b in bs ==> WfBlock(b)
    ensures EmptyEvent(BlocksMeaning(bs, scale).ev) <==> forall b :: b in bs ==> BlankBlock(b)
    decreases |bs|
  {
    hide CardsMeaning, LengthBoundary, WfCard, Classify, BlankBlock, EmptyEvent;
    if bs == [] {
      assert EmptyEvent(CLEARED) by { NothingIsEmpty(); }
    } else {
      var n := |bs| - 1;
      var b := bs[n];
      assert bs == bs[..n] + [b];
      BlocksBlank(bs[..n], scale);
      BlockBlank(b, scale);
      BlankSnoc(BlocksMeaning(bs[..n], scale).ev, BlocksMeaning(bs, scale).ev,
                CardsMeaning(b.cards, b.opening, Low12(b.opening), scale).info, BlockMeaning(b, scale),
                Low11(b.blkid) != TRIGGER_BLOCK);
    }
  }

  lemma NothingIsEmpty()
    ensures EmptyEvent(CLEARED)
  {}

  lemma BlockBlank(b: WireBlock, scale: Scale)
    requires WfBlock(b)
    ensures BlankBlock(b) <==>
      && CardsMeaning(b.cards, b.opening, Low12(b.opening), scale).info == []
      && (Low11(b.blkid) != TRIGGER_BLOCK ==> BlockMeaning(b, scale).fees == [])
  {
    hide CardsMeaning, LengthBoundary, QuietCard, WfCard;
    CardsInfo(b.cards, b.opening, Low12(b.opening), scale);
  }

  lemma BlankSnoc(e: Event, e': Event, info: seq<TrigInfo>, b: Block, added: bool)
    requires e'.trinfo == e.trinfo + info && e'.blocks == e.blocks + if added then [b] else []
    ensures EmptyEvent(e') <==> EmptyEvent(e) && info == [] && (added ==> b.fees == [])
  {
    if added {
      assert b in e'.blocks;
    }
  }

  /** An event is empty exactly when all its blocks are: only then is it not forwarded. */
  lemma EmptyExactly(e: WireEvent, scale: Scale)
    requires WfEvent(e)
    ensures EmptyEvent(EventMeaning(e, scale)) <==>
      forall b :: b in e.blocks ==> QuietBlock(b) && (b.blkid % 2048 != 0x7FF ==> b.cards == [])
  {
    hide BlocksMeaning, WfBlock, QuietBlock;
    BlocksBlank(e.blocks, scale);
    assert forall b :: b in e.blocks ==>
      (BlankBlock(b) <==> QuietBlock(b) && (b.blkid % 2048 != 0x7FF ==> b.cards == []));
  }
}
