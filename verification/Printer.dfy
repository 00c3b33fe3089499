/** Trees written as wire events: the inverse of what wire events mean. */
module Printer {
  import opened Words
  import opened EventTree
  import opened EventMachine
  import opened Wire
  import RoundTrip

  // ----- trigger information -----

  /** What the records of the regional board carry: words of counters, 30-bit numbers of two words,
      single words, and the Centrum words. */
  datatype Info =
    | Counters(words: seq<Word>)
    | Time(n: nat)
    | TimeTag(n: nat)
    | EventCounter(n: nat)
    | TriggerPattern(w: Word)
    | Temperature(w: Word)
    | CentrumWords(w: Word, c1: nat, c2: nat, c3: nat)

  predicate PrintableInfo(x: Info) {
    match x
    case Counters(words) => 0 < |words| < 0x8000 && words[0] < 0x8000
    case Time(n) => n < 0x4000_0000
    case TimeTag(n) => n < 0x4000_0000
    case EventCounter(n) => n < 0x4000_0000
    case TriggerPattern(w) => w < 0x8000
    case Temperature(w) => w < 0x8000
    case CentrumWords(w, c1, c2, c3) => w < 0x8000 && c1 < 0x4000_0000 && c2 < 0x4000_0000 && c3 < 0x4000_0000
  }

  predicate PrintableInfos(xs: seq<Info>) { forall x :: x in xs ==> PrintableInfo(x) }

  /** The record of an item. */
  function InfoRecord(x: Info): Record
    requires PrintableInfo(x)
  {
    match x
    case Counters(words) => Rec(0x7100, words)
    case Time(n) => Rec(0x7101, [n / 32768, n % 32768])
    case TimeTag(n) => Rec(0x7110, [n / 32768, n % 32768])
    case EventCounter(n) => Rec(0x7111, [n / 32768, n % 32768])
    case TriggerPattern(w) => Rec(0x7112, [w])
    case Temperature(w) => Rec(0x7113, [w])
    case CentrumWords(w, c1, c2, c3) =>
      Rec(0x7200, [w, c1 / 32768, c1 % 32768, c2 / 32768, c2 % 32768, c3 / 32768, c3 % 32768])
  }

  /** What an item leaves in the event, by the time tag and the counter of the hit it stands in. */
  function InfoOf(gttag: nat, ec: nat, x: Info): seq<TrigInfo> {
    match x
    case Counters(words) => seq(|words|, i requires 0 <= i < |words| => TrigInfo(0x100 + i, words[i]))
    case Time(n) => [TrigInfo(0x10C, n * 4 / 150)]
    case TimeTag(n) => [TrigInfo(0x10D, n * 0x8000 + gttag)]
    case EventCounter(n) => [TrigInfo(0x10E, n * 0x1000 + ec)]
    case TriggerPattern(w) => [TrigInfo(0x10F, w)]
    case Temperature(w) => [TrigInfo(0x110, w)]
    case CentrumWords(w, c1, c2, c3) =>
      [TrigInfo(0x200, w / 2048 * 0x400_0000 + w % 64), TrigInfo(0x201, c1), TrigInfo(0x202, c2), TrigInfo(0x203, c3)]
  }

  function InfosOf(gttag: nat, ec: nat, xs: seq<Info>): seq<TrigInfo> {
    if xs == [] then [] else InfosOf(gttag, ec, xs[..|xs| - 1]) + InfoOf(gttag, ec, xs[|xs| - 1])
  }

  /** Time tag and counter split back into the number of the record and the field of the hit. */
  lemma InfoSplits(n: nat, gttag: nat, ec: nat)
    requires gttag < 0x8000 && ec < 0x1000
    ensures var v := InfoOf(gttag, ec, TimeTag(n))[0].value; v / 0x8000 == n && v % 0x8000 == gttag
    ensures var v := InfoOf(gttag, ec, EventCounter(n))[0].value; v / 0x1000 == n && v % 0x1000 == ec
  {}

  function PrintInfos(xs: seq<Info>): (r: seq<Record>)
    requires PrintableInfos(xs)
    ensures |r| == |xs|
  {
    if xs == [] then [] else PrintInfos(xs[..|xs| - 1]) + [InfoRecord(xs[|xs| - 1])]
  }

  /** Items go into the first of several hits, cards or blocks. */
  function Lead(k: nat, xs: seq<Info>): seq<Info> { if k == 0 then xs else [] }

  // ----- which trees can be written -----

  /** The detectors that a type of data belongs to. */
  predicate KindFits(kind: DataType, detid: nat) {
    match kind
    case QH1 | I1 | QL1 => detid == 0
    case Q2 | I2 => detid == 1
    case Q3 => detid == 2
    case ADC | UNKDT => detid < 8
  }

  /** A data node without energies, which are scaled when they are read. */
  predicate PrintableData(d: Data, detid: nat) {
    && KindFits(d.dataType, detid) && d.energy == None
    && (d.waveform.Some? ==>
      var w := d.waveform.value;
      && (w.pretrig.Some? || w.samples != []) && (w.pretrig.Some? ==> w.pretrig.value < 0x8000)
      && |w.samples| < 0x8000 && (w.samples != [] ==> w.samples[0] < 0x8000) && (w.lenError <==> w.samples == []))
    && (d.baseline.Some? ==> -0x2000_0000 <= d.baseline.value < 0x2000_0000)
  }

  predicate PrintableHit(h: Hit) {
    && h.ec < 4096 && h.telid < 2 && h.feeid < 16 && h.detid < 8
    && h.gttag < 0x8000 && h.dettag < 0x8000 && h.trigpat < 0x8000
    && |h.data| == 1 && PrintableData(h.data[0], h.detid)
  }

  predicate PrintableHits(f: Fee) { f.hits != [] && forall h :: h in f.hits ==> PrintableHit(h) }

  /** The hits behind the first take the counter of the block. */
  predicate PrintableFee(f: Fee, blockEc: nat) {
    && CleanFee(f) && PrintableHits(f) && f.feeid == f.hits[0].feeid
    && forall k :: 0 < k < |f.hits| ==> f.hits[k].ec == blockEc
  }

  lemma FirstHitPrintable(f: Fee)
    requires PrintableHits(f)
    ensures f.hits != [] && PrintableHit(f.hits[0]) && f.hits[0].ec < 4096
  {
    assert f.hits[0] in f.hits;
  }

  lemma PrintableFees(fs: seq<Fee>, blockEc: nat)
    requires forall f :: f in fs ==> PrintableFee(f, blockEc)
    ensures forall f :: f in fs ==> PrintableHits(f)
    ensures fs != [] ==> PrintableHits(fs[0])
  {
    hide PrintableHits;
    forall f | f in fs
      ensures PrintableHits(f)
    {
      assert PrintableFee(f, blockEc);
    }
    if fs != [] {
      assert fs[0] in fs;
    }
  }

  /** The counter of a block is that of its first hit. */
  function BlockEc(b: Block, none: nat): nat {
    if b.fees == [] || b.fees[0].hits == [] then none else b.fees[0].hits[0].ec
  }

  /** The length flag is the one that the block's own length gives. */
  predicate PrintableBlock(b: Block, none: nat, xs: seq<Info>) {
    && b.blkid < 0x7FF && !b.crcError
    && BlockEc(b, none) < 4096 && (forall f :: f in b.fees ==> PrintableFee(f, BlockEc(b, none)))
    && PrintableInfos(xs)
    && (WrittenBlock(b, none, xs); b.lenError == LengthBoundary(PrintBlock(b, none, xs)))
  }

  /** The trigger information that records in the first hit of a block give. */
  function BlockInfo(b: Block, xs: seq<Info>): seq<TrigInfo> {
    if b.fees == [] || b.fees[0].hits == [] then [] else InfosOf(b.fees[0].hits[0].gttag, b.fees[0].hits[0].ec, xs)
  }

  /** The trigger information is what the items `xs` give in the first hit of the event. */
  predicate PrintableEvent(e: Event, xs: seq<Info>) {
    && e.ec < 4096 && e.regid < 2048 && e.blocks != [] && e.trinfo == BlockInfo(e.blocks[0], xs)
    && (forall k :: 0 <= k < |e.blocks| ==> PrintableBlock(e.blocks[k], e.ec, Lead(k, xs)))
    && BlockEc(e.blocks[|e.blocks| - 1], e.ec) == e.ec
  }

  // ----- the words of a header -----

  function TelescopeWord(telid: nat, feeid: nat): Word
    requires telid < 2 && feeid < 16
  {
    0x9800 + feeid * 2 + telid
  }

  function DetectorWord(kind: DataType, detid: nat): Word
    requires detid < 8
  {
    var dtype := match kind
      case QH1 | Q2 | Q3 | ADC => 0
      case I1 | I2 => 1
      case QL1 => 2
      case UNKDT => 7;
    0x9000 + dtype * 256 + detid * 32 + if kind == ADC then 30 else 0
  }

  lemma TelescopeWordRead(telid: nat, feeid: nat)
    requires telid < 2 && feeid < 16
    ensures var w := TelescopeWord(telid, feeid);
            Classify(w) == TELID && TelescopeField(w) == telid && FecField(w) == feeid && CheckedFec(FecField(w)) == feeid
  {}

  lemma DetectorWordRead(kind: DataType, detid: nat)
    requires detid < 8 && KindFits(kind, detid)
    ensures var w := DetectorWord(kind, detid);
            Classify(w) == DETID && DetectorField(w) == detid && DetectedType(w) == kind
  {
    var w := DetectorWord(kind, detid);
    var dtype := (w - 0x9000) / 256;
    assert FecField(w) == if kind == ADC then 15 else 0;
    assert DetectorField(w) == detid;
    assert DataTypeField(w) == dtype;
  }

  // ----- printing -----

  function PrintBaseline(b: int): seq<Word>
    requires -0x2000_0000 <= b < 0x2000_0000
  {
    var n := if b < 0 then b + 0x4000_0000 else b;
    [n / 32768, n % 32768]
  }

  function PretrigRecords(d: Data): seq<Record> {
    if d.waveform.Some? && d.waveform.value.pretrig.Some? then [Rec(0x7004, [d.waveform.value.pretrig.value])]
    else []
  }

  function SampleRecords(d: Data): seq<Record> {
    if d.waveform.Some? && d.waveform.value.samples != [] then [Rec(0x7005, d.waveform.value.samples)] else []
  }

  function BaselineRecords(d: Data): seq<Record>
    requires d.baseline.Some? ==> -0x2000_0000 <= d.baseline.value < 0x2000_0000
  {
    if d.baseline.Some? then [Rec(0x7003, PrintBaseline(d.baseline.value))] else []
  }

  /** The records of a data node, and a filler so that there is at least one. */
  function PrintData(d: Data): seq<Record>
    requires d.baseline.Some? ==> -0x2000_0000 <= d.baseline.value < 0x2000_0000
  {
    [Void] + PretrigRecords(d) + SampleRecords(d) + BaselineRecords(d)
  }

  function PrintHit(h: Hit, xs: seq<Info>): WireHit
    requires PrintableHit(h) && PrintableInfos(xs)
  {
    Telescope(TelescopeWord(h.telid, h.feeid), h.gttag, [h.dettag, h.trigpat],
              DetectorWord(h.data[0].dataType, h.detid), PrintInfos(xs) + PrintData(h.data[0]))
  }

  function PrintHits(hs: seq<Hit>, xs: seq<Info>): (r: seq<WireHit>)
    requires (forall h :: h in hs ==> PrintableHit(h)) && PrintableInfos(xs)
    ensures |r| == |hs|
  {
    if hs == [] then [] else PrintHits(hs[..|hs| - 1], xs) + [PrintHit(hs[|hs| - 1], Lead(|hs| - 1, xs))]
  }

  function CounterWord(ec: nat): Word
    requires ec < 4096
  {
    0xE000 + ec
  }

  /** A card with the counter of the card behind it. */
  function PrintFee(f: Fee, next: nat, xs: seq<Info>): WireCard
    requires next < 4096 && PrintableHits(f) && PrintableInfos(xs)
  {
    WireCard(PrintHits(f.hits, xs), CounterWord(next))
  }

  /** Cards; `next` is the counter behind the last one. */
  function PrintFees(fs: seq<Fee>, next: nat, xs: seq<Info>): (r: seq<WireCard>)
    requires next < 4096 && PrintableInfos(xs)
    requires forall f :: f in fs ==> PrintableHits(f)
    ensures |r| == |fs|
  {
    if fs == [] then []
    else
      var n := |fs| - 1;
      FirstHitPrintable(fs[n]);
      PrintFees(fs[..n], fs[n].hits[0].ec, xs) + [PrintFee(fs[n], next, Lead(n, xs))]
  }

  function PrintBlock(b: Block, none: nat, xs: seq<Info>): WireBlock
    requires PrintableInfos(xs)
    requires b.blkid < 2048 && BlockEc(b, none) < 4096
    requires forall f :: f in b.fees ==> PrintableFee(f, BlockEc(b, none))
  {
    PrintableFees(b.fees, BlockEc(b, none));
    WireBlock(CounterWord(BlockEc(b, none)), PrintFees(b.fees, 0, xs), 0xC000 + b.blkid)
  }

  function PrintBlocks(bs: seq<Block>, none: nat, xs: seq<Info>): (r: seq<WireBlock>)
    requires forall k :: 0 <= k < |bs| ==> PrintableBlock(bs[k], none, Lead(k, xs))
    ensures |r| == |bs|
  {
    if bs == [] then []
    else
      var n := |bs| - 1;
      assert PrintableBlock(bs[n], none, Lead(n, xs));
      PrintBlocks(bs[..n], none, xs) + [PrintBlock(bs[n], none, Lead(n, xs))]
  }

  function PrintEvent(e: Event, xs: seq<Info>): WireEvent
    requires PrintableEvent(e, xs)
  {
    WireEvent(PrintBlocks(e.blocks, e.ec, xs), 0xC800 + e.regid)
  }

  // ----- what is printed is well formed -----

  lemma BaselineRead(b: int)
    requires -0x2000_0000 <= b < 0x2000_0000
    ensures var ws := PrintBaseline(b); ws[0] < 0x8000 && ws[1] < 0x8000 && Baseline(ws[0], ws[1]) == b
  {}

  lemma LowIsData(w: Word)
    requires w < 0x8000
    ensures Classify(w) == DATA
  {}

  lemma RecordsWritten(d: Data, detid: nat)
    requires PrintableData(d, detid)
    ensures forall r :: r in PrintData(d) ==> WfRecord(r)
    ensures WfRecords(PrintData(d))
  {
    hide Classify;
    LowIsData(TAG_PRETRIGGER);
    LowIsData(TAG_WAVEFORM);
    LowIsData(TAG_BASELINE);
    if d.baseline.Some? {
      BaselineRead(d.baseline.value);
      LowIsData(PrintBaseline(d.baseline.value)[0]);
    }
    if d.waveform.Some? {
      if d.waveform.value.pretrig.Some? {
        LowIsData(d.waveform.value.pretrig.value);
      }
      if d.waveform.value.samples != [] {
        LowIsData(d.waveform.value.samples[0]);
      }
    }
    assert PrintData(d)[0] == Void;
  }

  lemma InfoWritten(x: Info)
    requires PrintableInfo(x)
    ensures WfRecord(InfoRecord(x))
  {
    var r := InfoRecord(x);
    LowIsData(r.tag);
    LowIsData(r.payload[0]);
  }

  lemma {:induction false} InfosWritten(xs: seq<Info>)
    requires PrintableInfos(xs)
    ensures forall r :: r in PrintInfos(xs) ==> WfRecord(r)
    decreases |xs|
  {
    hide PrintableInfo, InfoRecord, WfRecord;
    if xs != [] {
      InfosWritten(xs[..|xs| - 1]);
      InfoWritten(xs[|xs| - 1]);
    }
  }

  lemma HitWritten(h: Hit, xs: seq<Info>)
    requires PrintableHit(h) && PrintableInfos(xs)
    ensures WfHit(PrintHit(h, xs))
  {
    hide Classify, WfRecord, PrintInfos, PrintData;
    InfosWritten(xs);
    TelescopeWordRead(h.telid, h.feeid);
    DetectorWordRead(h.data[0].dataType, h.detid);
    LowIsData(h.gttag);
    LowIsData(h.dettag);
    LowIsData(h.trigpat);
    RecordsWritten(h.data[0], h.detid);
  }

  lemma {:induction false} HitsWritten(hs: seq<Hit>, xs: seq<Info>)
    requires (forall h :: h in hs ==> PrintableHit(h)) && PrintableInfos(xs)
    ensures forall h :: h in PrintHits(hs, xs) ==> WfHit(h)
    ensures hs != [] ==> PrintHits(hs, xs)[0] == PrintHit(hs[0], xs)
    decreases |hs|
  {
    hide WfHit, PrintHit, PrintableHit;
    if hs != [] {
      HitsWritten(hs[..|hs| - 1], xs);
      HitWritten(hs[|hs| - 1], Lead(|hs| - 1, xs));
    }
  }

  lemma CounterRead(ec: nat)
    requires ec < 4096
    ensures Classify(CounterWord(ec)) == EC && Low12(CounterWord(ec)) == ec
  {}

  lemma FeeWritten(f: Fee, next: nat, xs: seq<Info>)
    requires next < 4096 && PrintableHits(f) && PrintableInfos(xs)
    ensures WfCard(PrintFee(f, next, xs))
  {
    hide WfHit, PrintableHit, Classify, CounterWord;
    HitsWritten(f.hits, xs);
    CounterRead(next);
  }

  lemma {:induction false} FeesWritten(fs: seq<Fee>, next: nat, xs: seq<Info>)
    requires next < 4096 && PrintableInfos(xs)
    requires forall f :: f in fs ==> PrintableHits(f)
    ensures forall c :: c in PrintFees(fs, next, xs) ==> WfCard(c)
    decreases |fs|
  {
    hide WfCard, PrintFee, PrintableInfos;
    if fs != [] {
      var n := |fs| - 1;
      FirstHitPrintable(fs[n]);
      NoInfos();
      FeesWritten(fs[..n], fs[n].hits[0].ec, xs);
      FeeWritten(fs[n], next, Lead(n, xs));
    }
  }

  lemma NoInfos()
    ensures PrintableInfos([])
  {}

  lemma BlockWordRead(blkid: nat)
    requires blkid < 2048
    ensures Classify(0xC000 + blkid) == BLKID && Low11(0xC000 + blkid) == blkid
    ensures Classify(0xC800 + blkid) == REGID && Low11(0xC800 + blkid) == blkid
  {}

  lemma WrittenBlock(b: Block, none: nat, xs: seq<Info>)
    requires PrintableInfos(xs)
    requires b.blkid < 2048 && BlockEc(b, none) < 4096
    requires forall f :: f in b.fees ==> PrintableFee(f, BlockEc(b, none))
    ensures WfBlock(PrintBlock(b, none, xs))
  {
    hide WfCard, Classify, CounterWord;
    PrintableFees(b.fees, BlockEc(b, none));
    FeesWritten(b.fees, 0, xs);
    CounterRead(BlockEc(b, none));
    BlockWordRead(b.blkid);
  }

  // ----- printing and reading back -----

  lemma RecordsTwo(h: Hit, f: Filled, a: seq<Record>, b: seq<Record>, scale: Scale)
    requires (forall r :: r in a + b ==> WfRecord(r)) && |b| <= 1
    requires forall r :: r in a ==> WfRecord(r)
    ensures b == [] ==> RecordsMeaning(h, f, a + b, scale) == RecordsMeaning(h, f, a, scale)
    ensures b != [] ==> WfRecord(b[0])
    ensures b != [] ==>
      RecordsMeaning(h, f, a + b, scale) == RecordMeaning(h, RecordsMeaning(h, f, a, scale), b[0], scale)
  {
    hide WfRecord, RecordMeaning;
    if b == [] {
      assert a + b == a;
    } else {
      assert (a + b)[..|a|] == a && (a + b)[|a|] == b[0] && b[0] in a + b;
    }
  }

  /** A data node as its records build it up. */
  lemma DataRead(h: Hit, d: Data, detid: nat, w: Word, scale: Scale)
    requires PrintableData(d, detid) && DetectedType(w) == d.dataType
    ensures forall r :: r in PrintData(d) ==> WfRecord(r)
    ensures RecordsMeaning(h, Filled(NewData(w), [], false), PrintData(d), scale) == Filled(d, [], false)
  {
    hide WfRecord, RecordMeaning, RecordsMeaning, Baseline, PrintBaseline, KindFits;
    RecordsWritten(d, detid);
    var f := Filled(NewData(w), [], false);
    var a: seq<Record> := [Void];
    var b, c, e := PretrigRecords(d), SampleRecords(d), BaselineRecords(d);
    assert forall r :: r in a || r in b || r in c || r in e ==> r in PrintData(d);
    VoidMeaning(h, f, scale);
    RecordsTwo(h, f, a, b, scale);
    RecordsTwo(h, f, a + b, c, scale);
    RecordsTwo(h, f, a + b + c, e, scale);
    var f1 := Filled(f.dat.(waveform := PretrigOnly(d)), [], false);
    var f2 := Filled(f.dat.(waveform := d.waveform), [], false);
    PretrigRead(h, f, d, scale);
    SamplesRead(h, f1, d, scale);
    BaselineRecordRead(h, f2, d, scale);
    assert f2.dat.(baseline := d.baseline) == d;
  }

  lemma InfoRead(h: Hit, f: Filled, x: Info, scale: Scale)
    requires PrintableInfo(x)
    ensures WfRecord(InfoRecord(x))
    ensures RecordMeaning(h, f, InfoRecord(x), scale) == Filled(f.dat, f.info + InfoOf(h.gttag, h.ec, x), f.err)
  {
    hide WfRecord, AddEnergy, AddSamples, Baseline;
    InfoWritten(x);
    match x
    case Counters(words) => assert words[..|words|] == words;
    case CentrumWords(w, c1, c2, c3) => CentrumRead(w, c1, c2, c3);
    case _ =>
  }

  lemma CentrumRead(w: Word, c1: nat, c2: nat, c3: nat)
    requires w < 0x8000 && c1 < 0x4000_0000 && c2 < 0x4000_0000 && c3 < 0x4000_0000
    ensures var ws := [w, c1 / 32768, c1 % 32768, c2 / 32768, c2 % 32768, c3 / 32768, c3 % 32768];
            CentrumInfo(ws) == [TrigInfo(0x200, w / 2048 * 0x400_0000 + w % 64), TrigInfo(0x201, c1),
                                TrigInfo(0x202, c2), TrigInfo(0x203, c3)]
  {}

  /** One more record behind others. */
  lemma RecordsSnoc(h: Hit, f: Filled, rs: seq<Record>, r: Record, scale: Scale)
    requires (forall x :: x in rs ==> WfRecord(x)) && WfRecord(r)
    ensures forall x :: x in rs + [r] ==> WfRecord(x)
    ensures RecordsMeaning(h, f, rs + [r], scale) == RecordMeaning(h, RecordsMeaning(h, f, rs, scale), r, scale)
  {
    hide WfRecord, RecordMeaning;
    assert (rs + [r])[..|rs|] == rs;
  }

  lemma {:induction false} InfosRead(h: Hit, f: Filled, xs: seq<Info>, scale: Scale)
    requires PrintableInfos(xs)
    ensures forall r :: r in PrintInfos(xs) ==> WfRecord(r)
    ensures RecordsMeaning(h, f, PrintInfos(xs), scale) == Filled(f.dat, f.info + InfosOf(h.gttag, h.ec, xs), f.err)
    decreases |xs|
  {
    hide WfRecord, RecordMeaning, RecordsMeaning, PrintableInfo, InfoRecord, InfoOf;
    if xs == [] {
      NoRecords(h, f, scale);
      assert f.info + [] == f.info;
    } else {
      var n := |xs| - 1;
      assert PrintableInfo(xs[n]);
      InfosRead(h, f, xs[..n], scale);
      InfoRead(h, RecordsMeaning(h, f, PrintInfos(xs[..n]), scale), xs[n], scale);
      RecordsSnoc(h, f, PrintInfos(xs[..n]), InfoRecord(xs[n]), scale);
      assert f.info + InfosOf(h.gttag, h.ec, xs[..n]) + InfoOf(h.gttag, h.ec, xs[n])
          == f.info + InfosOf(h.gttag, h.ec, xs);
    }
  }

  lemma NoRecords(h: Hit, f: Filled, scale: Scale)
    ensures RecordsMeaning(h, f, [], scale) == f
  {}

  lemma {:induction false} RecordsConcat(h: Hit, f: Filled, a: seq<Record>, b: seq<Record>, scale: Scale)
    requires (forall r :: r in a ==> WfRecord(r)) && forall r :: r in b ==> WfRecord(r)
    ensures forall r :: r in a + b ==> WfRecord(r)
    ensures RecordsMeaning(h, f, a + b, scale) == RecordsMeaning(h, RecordsMeaning(h, f, a, scale), b, scale)
    decreases |b|
  {
    hide WfRecord, RecordMeaning;
    if b == [] {
      assert a + b == a;
    } else {
      var n := |b| - 1;
      RecordsConcat(h, f, a, b[..n], scale);
      assert (a + b)[..|a + b| - 1] == a + b[..n];
    }
  }

  lemma BaselineInRange(d: Data, detid: nat)
    requires PrintableData(d, detid)
    ensures d.baseline.Some? ==> -0x2000_0000 <= d.baseline.value < 0x2000_0000
  {}

  /** All records of a hit. */
  lemma HitRecordsRead(h: Hit, d: Data, detid: nat, w: Word, xs: seq<Info>, scale: Scale)
    requires PrintableData(d, detid) && DetectedType(w) == d.dataType && PrintableInfos(xs)
    ensures forall r :: r in PrintInfos(xs) + PrintData(d) ==> WfRecord(r)
    ensures RecordsMeaning(h, Filled(NewData(w), [], false), PrintInfos(xs) + PrintData(d), scale)
         == Filled(d, InfosOf(h.gttag, h.ec, xs), false)
  {
    hide WfRecord, RecordsMeaning, PrintableData, PrintInfos, PrintData, InfosOf, PrintableInfos, DetectedType;
    var f := Filled(NewData(w), [], false);
    BaselineInRange(d, detid);
    InfosRead(h, f, xs, scale);
    DataRead(h, d, detid, w, scale);
    RecordsConcat(h, f, PrintInfos(xs), PrintData(d), scale);
    var info := InfosOf(h.gttag, h.ec, xs);
    RoundTrip.RecordsAdd(h, Filled(f.dat, [] + info, false), PrintData(d), scale);
    assert [] + info == info && info + [] == info;
  }

  lemma VoidMeaning(h: Hit, f: Filled, scale: Scale)
    ensures WfRecord(Void) && RecordsMeaning(h, f, [Void], scale) == f
  {
    assert [Void][..0] == [];
  }

  /** The waveform when only its pretrigger has been read. */
  function PretrigOnly(d: Data): Option<Waveform> {
    if d.waveform.Some? && d.waveform.value.pretrig.Some? then Some(Waveform(d.waveform.value.pretrig, [], true))
    else None
  }

  lemma PretrigRead(h: Hit, f: Filled, d: Data, scale: Scale)
    requires f.dat.waveform == None && f.info == [] && !f.err
    requires forall r :: r in PretrigRecords(d) ==> WfRecord(r)
    ensures PretrigRecords(d) != [] ==>
      RecordMeaning(h, f, PretrigRecords(d)[0], scale) == Filled(f.dat.(waveform := PretrigOnly(d)), [], false)
    ensures PretrigRecords(d) == [] ==> f == Filled(f.dat.(waveform := PretrigOnly(d)), [], false)
  {
    hide WfRecord;
    if PretrigRecords(d) != [] {
      assert PretrigRecords(d)[0] in PretrigRecords(d);
    }
  }

  lemma SamplesRead(h: Hit, f: Filled, d: Data, scale: Scale)
    requires f.dat.waveform == PretrigOnly(d) && f.info == [] && !f.err
    requires d.waveform.Some? ==>
      var w := d.waveform.value;
      (w.pretrig.Some? || w.samples != []) && (w.lenError <==> w.samples == []) && |w.samples| < 0x8000
    requires forall r :: r in SampleRecords(d) ==> WfRecord(r)
    ensures SampleRecords(d) != [] ==>
      RecordMeaning(h, f, SampleRecords(d)[0], scale) == Filled(f.dat.(waveform := d.waveform), [], false)
    ensures SampleRecords(d) == [] ==> f == Filled(f.dat.(waveform := d.waveform), [], false)
  {
    hide WfRecord;
    if SampleRecords(d) != [] {
      assert SampleRecords(d)[0] in SampleRecords(d);
      var w := d.waveform.value;
      assert [] + w.samples == w.samples;
    }
  }

  lemma BaselineRecordRead(h: Hit, f: Filled, d: Data, scale: Scale)
    requires f.dat.baseline == None && f.info == [] && !f.err
    requires d.baseline.Some? ==> -0x2000_0000 <= d.baseline.value < 0x2000_0000
    requires forall r :: r in BaselineRecords(d) ==> WfRecord(r)
    ensures BaselineRecords(d) != [] ==>
      RecordMeaning(h, f, BaselineRecords(d)[0], scale) == Filled(f.dat.(baseline := d.baseline), [], false)
    ensures BaselineRecords(d) == [] ==> f == Filled(f.dat.(baseline := d.baseline), [], false)
  {
    hide WfRecord, Baseline, PrintBaseline;
    if d.baseline.Some? {
      BaselineRead(d.baseline.value);
      assert BaselineRecords(d)[0] in BaselineRecords(d);
    }
  }

  /** One hit behind any others. */
  lemma HitRead(h: Hit, prev: seq<Hit>, xs: seq<Info>, scale: Scale)
    requires PrintableHit(h) && PrintableInfos(xs)
    ensures var w := PrintHit(h, xs);
            && WfHit(w)
            && var head := HitHead(w, h.ec, prev);
            && var f := RecordsMeaning(head, Filled(NewData(w.det), [], false), w.recs, scale);
            && CloseHit(head, f.dat) == h && f.info == InfosOf(h.gttag, h.ec, xs) && !f.err
            && DetectedType(w.det) == h.data[0].dataType
  {
    hide WfHit, Classify, TelescopeWord, DetectorWord, TelescopeField, FecField, DetectorField, CheckedFec, DetectedType;
    hide RecordsMeaning, PrintData, PrintInfos, InfosOf, PrintableData, PrintableInfos, WfRecord;
    var w := PrintHit(h, xs);
    HitWritten(h, xs);
    TelescopeWordRead(h.telid, h.feeid);
    PrintableKind(h.data[0], h.detid);
    DetectorWordRead(h.data[0].dataType, h.detid);
    var head := HitHead(w, h.ec, prev);
    HitRecordsRead(head, h.data[0], h.detid, w.det, xs, scale);
    assert head == h.(data := []);
    assert [] + [h.data[0]] == h.data;
  }

  lemma PrintableKind(d: Data, detid: nat)
    requires PrintableData(d, detid)
    ensures KindFits(d.dataType, detid) && detid < 8
  {}

  /** A hit appended to the encoded ones. */
  lemma HitAppended(ws: seq<WireHit>, hs: seq<Hit>, info: seq<TrigInfo>, h: Hit, xs: seq<Info>,
                    cardEc: nat, blockEc: nat, scale: Scale)
    requires (forall w :: w in ws ==> WfHit(w)) && PrintableHit(h) && PrintableInfos(xs)
    requires var r := HitsMeaning(ws, cardEc, blockEc, scale); r.hits == hs && r.info == info
    requires h.ec == if ws == [] then cardEc else blockEc
    ensures forall w :: w in ws + [PrintHit(h, xs)] ==> WfHit(w)
    ensures var r := HitsMeaning(ws + [PrintHit(h, xs)], cardEc, blockEc, scale);
            r.hits == hs + [h] && r.info == info + InfosOf(h.gttag, h.ec, xs)
  {
    hide PrintableHit, HitsMeaning, WfHit, HitHead, RecordsMeaning, PrintHit, CloseHit, InfosOf, PrintableInfos;
    HitRead(h, hs, xs, scale);
    HitsSnoc(ws, PrintHit(h, xs), cardEc, blockEc, scale);
  }

  /** The trigger information of a card, a row of cards: all of it stands in the first hit. */
  function HitsInfo(hs: seq<Hit>, xs: seq<Info>): seq<TrigInfo> {
    if hs == [] then [] else InfosOf(hs[0].gttag, hs[0].ec, xs)
  }

  function FeesInfo(fs: seq<Fee>, xs: seq<Info>): seq<TrigInfo> { if fs == [] then [] else HitsInfo(fs[0].hits, xs) }

  lemma InfosOfNothing(gttag: nat, ec: nat)
    ensures InfosOf(gttag, ec, []) == []
  {}

  lemma {:induction false} HitsRead(hs: seq<Hit>, xs: seq<Info>, cardEc: nat, blockEc: nat, scale: Scale)
    requires (forall h :: h in hs ==> PrintableHit(h)) && PrintableInfos(xs)
    requires hs != [] ==> hs[0].ec == cardEc
    requires forall k :: 0 < k < |hs| ==> hs[k].ec == blockEc
    ensures forall h :: h in PrintHits(hs, xs) ==> WfHit(h)
    ensures var r := HitsMeaning(PrintHits(hs, xs), cardEc, blockEc, scale); r.hits == hs && r.info == HitsInfo(hs, xs)
    decreases |hs|
  {
    hide PrintableHit, WfHit, PrintHit, HitsMeaning, PrintHits, InfosOf, PrintableInfos;
    if hs == [] {
      NoHits(cardEc, blockEc, xs, scale);
    } else {
      var n := |hs| - 1;
      var before, h := hs[..n], hs[n];
      assert hs == before + [h];
      NoInfos();
      PrintHitsSnoc(before, h, xs);
      HitsRead(before, xs, cardEc, blockEc, scale);
      HitAppended(PrintHits(before, xs), before, HitsInfo(before, xs), h, Lead(n, xs), cardEc, blockEc, scale);
      InfosOfNothing(h.gttag, h.ec);
      assert HitsInfo(before, xs) + [] == HitsInfo(before, xs);
      assert [] + InfosOf(h.gttag, h.ec, xs) == InfosOf(h.gttag, h.ec, xs);
    }
  }

  lemma PrintHitsSnoc(hs: seq<Hit>, h: Hit, xs: seq<Info>)
    requires (forall x :: x in hs ==> PrintableHit(x)) && PrintableHit(h) && PrintableInfos(xs)
    ensures forall x :: x in hs + [h] ==> PrintableHit(x)
    ensures PrintableInfos(Lead(|hs|, xs))
    ensures PrintHits(hs + [h], xs) == PrintHits(hs, xs) + [PrintHit(h, Lead(|hs|, xs))]
  {
    hide PrintableHit, PrintHit;
    assert (hs + [h])[..|hs|] == hs;
  }

  lemma NoHits(cardEc: nat, blockEc: nat, xs: seq<Info>, scale: Scale)
    requires PrintableInfos(xs)
    ensures HitsMeaning([], cardEc, blockEc, scale) == Carded([], [], false) && PrintHits([], xs) == []
  {}

  /** A card appended to the encoded ones. */
  lemma FeeAppended(cs: seq<WireCard>, fs: seq<Fee>, info: seq<TrigInfo>, f: Fee, next: nat, xs: seq<Info>,
                    blockEc: nat, ec: Word, scale: Scale)
    requires (forall c :: c in cs ==> WfCard(c)) && next < 4096 && PrintableFee(f, blockEc) && PrintableInfos(xs)
    requires var r := CardsMeaning(cs, ec, blockEc, scale); r.fees == fs && r.info == info
    requires Low12(CounterAfter(cs, ec)) == f.hits[0].ec
    ensures forall c :: c in cs + [PrintFee(f, next, xs)] ==> WfCard(c)
    ensures Low12(CounterAfter(cs + [PrintFee(f, next, xs)], ec)) == next
    ensures var r := CardsMeaning(cs + [PrintFee(f, next, xs)], ec, blockEc, scale);
            r.fees == fs + [f] && r.info == info + HitsInfo(f.hits, xs)
  {
    hide HitsMeaning, PrintHits, PrintableHit, WfCard, Low12, CounterWord, CardMeaning, HitsInfo, PrintableInfos;
    CounterRead(next);
    var counter := CounterAfter(cs, ec);
    HitsRead(f.hits, xs, Low12(counter), blockEc, scale);
    FeeRead(f, next, xs, counter, blockEc, scale);
    assert (cs + [PrintFee(f, next, xs)])[..|cs|] == cs;
  }

  lemma {:induction false} FeesRead(fs: seq<Fee>, next: nat, xs: seq<Info>, blockEc: nat, ec: Word, scale: Scale)
    requires next < 4096 && (forall f :: f in fs ==> PrintableFee(f, blockEc)) && PrintableInfos(xs)
    requires fs != [] ==> PrintableHits(fs[0]) && Low12(ec) == fs[0].hits[0].ec
    requires forall f :: f in fs ==> PrintableHits(f)
    ensures forall c :: c in PrintFees(fs, next, xs) ==> WfCard(c)
    ensures fs != [] ==> Low12(CounterAfter(PrintFees(fs, next, xs), ec)) == next
    ensures var r := CardsMeaning(PrintFees(fs, next, xs), ec, blockEc, scale); r.fees == fs && r.info == FeesInfo(fs, xs)
    decreases |fs|
  {
    hide PrintableHits, WfCard, Low12, CardsMeaning, PrintFee, PrintableFee, InfosOf, PrintableInfos, HitsInfo;
    if fs == [] {
      NoFees(ec, blockEc, scale);
    } else {
      var n := |fs| - 1;
      var f := fs[n];
      assert f in fs && PrintableFee(f, blockEc);
      FirstHitPrintable(f);
      NoInfos();
      FeesRead(fs[..n], f.hits[0].ec, xs, blockEc, ec, scale);
      FeeAppended(PrintFees(fs[..n], f.hits[0].ec, xs), fs[..n], FeesInfo(fs[..n], xs), f, next, Lead(n, xs),
                  blockEc, ec, scale);
      assert fs[..n] + [f] == fs;
      HitsInfoNothing(f.hits);
      assert FeesInfo(fs[..n], xs) + [] == FeesInfo(fs[..n], xs);
      assert [] + HitsInfo(f.hits, xs) == HitsInfo(f.hits, xs);
    }
  }

  lemma HitsInfoNothing(hs: seq<Hit>)
    ensures HitsInfo(hs, []) == []
  {}

  lemma NoFees(ec: Word, blockEc: nat, scale: Scale)
    ensures CardsMeaning([], ec, blockEc, scale) == Blocked([], [], false)
  {}

  lemma FeeRead(f: Fee, next: nat, xs: seq<Info>, counter: Word, blockEc: nat, scale: Scale)
    requires next < 4096 && PrintableFee(f, blockEc) && Low12(counter) == f.hits[0].ec && PrintableInfos(xs)
    ensures WfCard(PrintFee(f, next, xs)) && CardMeaning(PrintFee(f, next, xs), counter, blockEc, scale) == f
  {
    hide HitsMeaning, PrintableHit, WfCard, Low12, CounterWord, HitsInfo, PrintableInfos;
    FeeWritten(f, next, xs);
    HitsWritten(f.hits, xs);
    HitsRead(f.hits, xs, Low12(counter), blockEc, scale);
    FirstHitPrintable(f);
    FirstTelescope(f.hits[0], xs);
  }

  lemma FirstTelescope(h: Hit, xs: seq<Info>)
    requires PrintableHit(h) && PrintableInfos(xs)
    ensures CheckedFec(FecField(PrintHit(h, xs).telid)) == h.feeid
  {
    TelescopeWordRead(h.telid, h.feeid);
  }

  lemma BlockInfoOfFees(b: Block, xs: seq<Info>)
    ensures BlockInfo(b, xs) == FeesInfo(b.fees, xs)
  {}

  lemma BlockRead(b: Block, none: nat, xs: seq<Info>, scale: Scale)
    requires PrintableBlock(b, none, xs)
    ensures var w := PrintBlock(b, none, xs);
            && WfBlock(w) && BlockMeaning(w, scale) == b && Low12(w.opening) == BlockEc(b, none)
            && Low11(w.blkid) == b.blkid < 0x7FF
            && CardsMeaning(w.cards, w.opening, Low12(w.opening), scale).info == BlockInfo(b, xs)
  {
    hide CardsMeaning, PrintFees, PrintableFee, WfBlock, Classify, LengthBoundary, CounterWord, Low12, Low11;
    hide FeesInfo, BlockInfo, PrintableInfos;
    WrittenBlock(b, none, xs);
    CounterRead(BlockEc(b, none));
    BlockWordRead(b.blkid);
    PrintableFees(b.fees, BlockEc(b, none));
    FeesRead(b.fees, 0, xs, BlockEc(b, none), CounterWord(BlockEc(b, none)), scale);
    BlockInfoOfFees(b, xs);
  }

  lemma {:induction false} BlocksRead(bs: seq<Block>, none: nat, xs: seq<Info>, scale: Scale)
    requires forall k :: 0 <= k < |bs| ==> PrintableBlock(bs[k], none, Lead(k, xs))
    ensures forall b :: b in PrintBlocks(bs, none, xs) ==> WfBlock(b)
    ensures var e := BlocksMeaning(PrintBlocks(bs, none, xs), scale).ev;
            && e.blocks == bs && e.trinfo == (if bs == [] then [] else BlockInfo(bs[0], xs)) && e.regid == 0
            && (bs != [] ==> e.ec == BlockEc(bs[|bs| - 1], none))
    decreases |bs|
  {
    hide PrintBlock, WfBlock, CardsMeaning, BlockMeaning, Low12, Low11, BlockEc, LengthBoundary, BlockInfo;
    hide PrintableBlock;
    if bs != [] {
      var n := |bs| - 1;
      BlocksRead(bs[..n], none, xs, scale);
      var b := bs[n];
      BlockRead(b, none, Lead(n, xs), scale);
      BlockParts(b, none, Lead(n, xs));
      var ws := PrintBlocks(bs, none, xs);
      assert ws[..n] == PrintBlocks(bs[..n], none, xs) && ws[n] == PrintBlock(b, none, Lead(n, xs));
      assert bs[..n] + [b] == bs;
      BlockInfoNothing(b);
      var info := BlocksMeaning(ws[..n], scale).ev.trinfo;
      assert info + [] == info && [] + BlockInfo(b, xs) == BlockInfo(b, xs);
    }
  }

  lemma BlockParts(b: Block, none: nat, xs: seq<Info>)
    requires PrintableBlock(b, none, xs)
    ensures PrintableInfos(xs) && b.blkid < 2048 && BlockEc(b, none) < 4096
    ensures forall f :: f in b.fees ==> PrintableFee(f, BlockEc(b, none))
  {}

  lemma BlockInfoNothing(b: Block)
    ensures BlockInfo(b, []) == []
  {}

  /** Every printable tree is the meaning of what is printed for it, under any scaling. */
  lemma PrintedMeans(e: Event, xs: seq<Info>, scale: Scale)
    requires PrintableEvent(e, xs)
    ensures WfEvent(PrintEvent(e, xs)) && EventMeaning(PrintEvent(e, xs), scale) == e
  {
    hide PrintBlocks, WfBlock, BlocksMeaning, PrintableBlock, Classify, Low11, BlockInfo;
    BlocksRead(e.blocks, e.ec, xs, scale);
    BlockWordRead(e.regid);
  }

  /** Round trip from trees: whatever holds the printed words of a printable tree, with EMPTY words
      between them, is parsed to that tree. */
  lemma PrintedIsParsed(m: Machine, e: Event, xs: seq<Info>, mem: Memory, size: nat, scale: Scale)
    requires m.ctl.state == Idle && m.zip == Zip(CLEARED, Closed) && PrintableEvent(e, xs)
    requires WfEvent(PrintEvent(e, xs)) && RoundTrip.Holds(mem, 0, EventUnits(PrintEvent(e, xs)), size)
    ensures var (m', ok) := Run(m, mem, 0, size, false, scale); ok && Tree(m'.zip) == e
  {
    hide Run, PrintableEvent, PrintEvent, RoundTrip.Holds, WfEvent, EventUnits, EventMeaning;
    PrintedMeans(e, xs, scale);
    RoundTrip.DecodesEncoded(m, PrintEvent(e, xs), mem, size, scale);
  }
}
