/** Events as they are written on the wire, their encoding as words and their meaning as trees. */
module Wire {
  import opened Words
  import opened EventTree
  import opened EventMachine
  import opened Accumulators

  /** A tagged record with its payload, or the filler tag. */
  datatype Record = Void | Rec(tag: Word, payload: seq<Word>)

  /** A hit opens with a telescope header and its tags, or with a detector header alone. */
  datatype WireHit =
    | Telescope(telid: Word, gttag: Word, tags: seq<Word>, det: Word, recs: seq<Record>)
    | Detector(det: Word, recs: seq<Record>)

  /** A card with the event counter word that follows it. */
  datatype WireCard = WireCard(hits: seq<WireHit>, counter: Word)

  datatype WireBlock = WireBlock(opening: Word, cards: seq<WireCard>, blkid: Word)

  datatype WireEvent = WireEvent(blocks: seq<WireBlock>, regid: Word)

  // ----- syntax -----

  predicate WfRecord(r: Record) {
    r.Void? || (
      && Classify(r.tag) == DATA && r.tag != TAG_VOID
      && 0 < |r.payload| < 0x8000 && Classify(r.payload[0]) == DATA
      && |r.payload| == PayloadLength(r.tag, |r.payload|))
  }

  predicate WfRecords(rs: seq<Record>) {
    rs != [] && forall r :: r in rs ==> WfRecord(r)
  }

  predicate WfHit(h: WireHit) {
    && Classify(h.det) == DETID && WfRecords(h.recs)
    && (h.Telescope? ==>
      Classify(h.telid) == TELID && Classify(h.gttag) == DATA && forall w :: w in h.tags ==> Classify(w) == DATA)
  }

  predicate WfCard(c: WireCard) {
    && c.hits != [] && c.hits[0].Telescope? && (forall h :: h in c.hits ==> WfHit(h))
    && Classify(c.counter) == EC
  }

  predicate WfBlock(b: WireBlock) {
    Classify(b.opening) == EC && Classify(b.blkid) == BLKID && forall c :: c in b.cards ==> WfCard(c)
  }

  predicate WfEvent(e: WireEvent) {
    e.blocks != [] && Classify(e.regid) == REGID && forall b :: b in e.blocks ==> WfBlock(b)
  }

  // ----- encoding: units are the words consumed together -----

  type Units = seq<seq<Word>>

  function Flat(us: Units): seq<Word> {
    if us == [] then [] else Flat(us[..|us| - 1]) + us[|us| - 1]
  }

  function Singles(ws: seq<Word>): Units {
    if ws == [] then [] else Singles(ws[..|ws| - 1]) + [[ws[|ws| - 1]]]
  }

  function RecordUnits(r: Record): Units
    requires WfRecord(r)
  {
    if r.Void? then [[TAG_VOID]] else [[r.tag], [|r.payload|], r.payload]
  }

  function RecordsUnits(rs: seq<Record>): Units
    requires forall r :: r in rs ==> WfRecord(r)
  {
    if rs == [] then [] else RecordsUnits(rs[..|rs| - 1]) + RecordUnits(rs[|rs| - 1])
  }

  function HitUnits(h: WireHit): Units
    requires WfHit(h)
  {
    (if h.Telescope? then [[h.telid], [h.gttag]] + Singles(h.tags) else []) + [[h.det]] + RecordsUnits(h.recs)
  }

  function HitsUnits(hs: seq<WireHit>): Units
    requires forall h :: h in hs ==> WfHit(h)
  {
    if hs == [] then [] else HitsUnits(hs[..|hs| - 1]) + HitUnits(hs[|hs| - 1])
  }

  /** The words of a card that its LENGTH and CRCFE words cover, the counter before it first. */
  function CardBody(c: WireCard, ec: Word): seq<Word>
    requires WfCard(c)
  {
    [ec] + Flat(HitsUnits(c.hits))
  }

  function CardUnits(c: WireCard, ec: Word): Units
    requires WfCard(c)
  {
    HitsUnits(c.hits)
    + [[LengthWord(|CardBody(c, ec)|)], [CrcFeWord(XorAll(CardBody(c, ec)))], [c.counter]]
  }

  /** The counter in force after the cards. */
  function CounterAfter(cs: seq<WireCard>, ec: Word): Word {
    if cs == [] then ec else cs[|cs| - 1].counter
  }

  function CardsUnits(cs: seq<WireCard>, ec: Word): Units
    requires forall c :: c in cs ==> WfCard(c)
  {
    if cs == [] then []
    else
      var n := |cs| - 1;
      CardsUnits(cs[..n], ec) + CardUnits(cs[n], CounterAfter(cs[..n], ec))
  }

  function BlockBody(b: WireBlock): Units
    requires WfBlock(b)
  {
    [[b.opening]] + CardsUnits(b.cards, b.opening) + [[b.blkid]]
  }

  /** The true length of a block: its words with the two closing ones. */
  function BlockLength(b: WireBlock): nat
    requires WfBlock(b)
  {
    |Flat(BlockBody(b))| + 2
  }

  function BlockUnits(b: WireBlock): Units
    requires WfBlock(b)
  {
    var len := LengthWord(BlockLength(b));
    BlockBody(b) + [[len], [CrcBlWord(XorAll(Flat(BlockBody(b)) + [len]))]]
  }

  function BlocksUnits(bs: seq<WireBlock>): Units
    requires forall b :: b in bs ==> WfBlock(b)
  {
    if bs == [] then [] else BlocksUnits(bs[..|bs| - 1]) + BlockUnits(bs[|bs| - 1])
  }

  function EventUnits(e: WireEvent): Units
    requires WfEvent(e)
  {
    BlocksUnits(e.blocks) + [[e.regid]]
  }

  // ----- meaning -----

  /** A data node, the trigger information gathered on the way and whether a waveform mismatched. */
  datatype Filled = Filled(dat: Data, info: seq<TrigInfo>, err: bool)

  lemma OpenTagOpens(d: Data, tag: Word)
    ensures TagOpen(OpenTag(d, tag), tag)
  {}

  function RecordMeaning(h: Hit, f: Filled, r: Record, scale: Scale): Filled
    requires WfRecord(r)
  {
    if r.Void? then f
    else
      OpenTagOpens(f.dat, r.tag);
      var d := FillData(OpenTag(f.dat, r.tag), r.tag, |r.payload|, r.payload, scale);
      Filled(d, f.info + FillInfo(h, r.tag, |r.payload|, r.payload), f.err || WaveMismatch(d, r.tag))
  }

  function RecordsMeaning(h: Hit, f: Filled, rs: seq<Record>, scale: Scale): Filled
    requires forall r :: r in rs ==> WfRecord(r)
  {
    if rs == [] then f
    else RecordMeaning(h, RecordsMeaning(h, f, rs[..|rs| - 1], scale), rs[|rs| - 1], scale)
  }

  /** The first tag word is the detector tag, the last of the others the trigger pattern. */
  function TagsMeaning(h: Hit, tags: seq<Word>): Hit {
    if tags == [] then h
    else if |tags| == 1 then h.(dettag := tags[0])
    else h.(dettag := tags[0], trigpat := tags[|tags| - 1])
  }

  /** The hit before its data: `ec` is its counter, `prev` the hit before it on the card. */
  function HitHead(w: WireHit, ec: nat, prev: seq<Hit>): Hit {
    match w
    case Telescope(telid, gttag, tags, det, _) =>
      TagsMeaning(NewHit(ec, telid).(gttag := gttag), tags).(detid := DetectorField(det))
    case Detector(det, _) =>
      if prev == [] then NewHit(ec, det) else NextHit(ec, prev[|prev| - 1], det)
  }

  /** Hits, trigger information and error verdict of a card. */
  datatype Carded = Carded(hits: seq<Hit>, info: seq<TrigInfo>, err: bool)

  /** The first hit takes the counter before the card, the others the counter of the block. */
  function HitsMeaning(hs: seq<WireHit>, cardEc: nat, blockEc: nat, scale: Scale): (r: Carded)
    requires forall h :: h in hs ==> WfHit(h)
    ensures |r.hits| == |hs|
  {
    if hs == [] then Carded([], [], false)
    else
      var n := |hs| - 1;
      var before := HitsMeaning(hs[..n], cardEc, blockEc, scale);
      assert WfHit(hs[n]);
      var h := HitHead(hs[n], if n == 0 then cardEc else blockEc, before.hits);
      var f := RecordsMeaning(h, Filled(NewData(hs[n].det), [], false), hs[n].recs, scale);
      Carded(before.hits + [CloseHit(h, f.dat)], before.info + f.info,
             before.err || DetectedType(hs[n].det) == UNKDT || f.err)
  }

  /** One more hit. */
  lemma HitsSnoc(ws: seq<WireHit>, w: WireHit, cardEc: nat, blockEc: nat, scale: Scale)
    requires (forall x :: x in ws ==> WfHit(x)) && WfHit(w)
    ensures forall x :: x in ws + [w] ==> WfHit(x)
    ensures var before := HitsMeaning(ws, cardEc, blockEc, scale);
            var h := HitHead(w, if ws == [] then cardEc else blockEc, before.hits);
            var f := RecordsMeaning(h, Filled(NewData(w.det), [], false), w.recs, scale);
            var r := HitsMeaning(ws + [w], cardEc, blockEc, scale);
            r.hits == before.hits + [CloseHit(h, f.dat)] && r.info == before.info + f.info
  {
    hide WfHit, HitHead, RecordsMeaning, CloseHit, DetectedType;
    assert (ws + [w])[..|ws|] == ws;
  }

  function CardMeaning(c: WireCard, ec: Word, blockEc: nat, scale: Scale): Fee
    requires WfCard(c)
  {
    Fee(CheckedFec(FecField(c.hits[0].telid)), false, false, HitsMeaning(c.hits, Low12(ec), blockEc, scale).hits)
  }

  /** Cards, trigger information and error verdict of a block. */
  datatype Blocked = Blocked(fees: seq<Fee>, info: seq<TrigInfo>, err: bool)

  function CardsMeaning(cs: seq<WireCard>, ec: Word, blockEc: nat, scale: Scale): (r: Blocked)
    requires forall c :: c in cs ==> WfCard(c)
    ensures |r.fees| == |cs|
  {
    if cs == [] then Blocked([], [], false)
    else
      var n := |cs| - 1;
      var before := CardsMeaning(cs[..n], ec, blockEc, scale);
      var counter := CounterAfter(cs[..n], ec);
      assert WfCard(cs[n]);
      var hits := HitsMeaning(cs[n].hits, Low12(counter), blockEc, scale);
      Blocked(before.fees + [CardMeaning(cs[n], counter, blockEc, scale)], before.info + hits.info,
              before.err || hits.err)
  }

  /** The block's length check fails exactly when its true length is 0 or 1 modulo 4096. */
  predicate LengthBoundary(b: WireBlock)
    requires WfBlock(b)
  {
    BlockLength(b) % 4096 < 2
  }

  function BlockMeaning(b: WireBlock, scale: Scale): Block
    requires WfBlock(b)
  {
    Block(Low11(b.blkid), LengthBoundary(b), false, CardsMeaning(b.cards, b.opening, Low12(b.opening), scale).fees)
  }

  /** The event the blocks build, and whether an error was seen. Trigger blocks leave their
      information and no block. */
  datatype Built = Built(ev: Event, err: bool)

  function BlocksMeaning(bs: seq<WireBlock>, scale: Scale): Built
    requires forall b :: b in bs ==> WfBlock(b)
  {
    if bs == [] then Built(CLEARED, false)
    else
      var n := |bs| - 1;
      assert WfBlock(bs[n]);
      var before := BlocksMeaning(bs[..n], scale);
      var cards := CardsMeaning(bs[n].cards, bs[n].opening, Low12(bs[n].opening), scale);
      Built(Event(Low12(bs[n].opening), before.ev.regid, before.ev.trinfo + cards.info,
                  before.ev.blocks + if Low11(bs[n].blkid) == TRIGGER_BLOCK then [] else [BlockMeaning(bs[n], scale)]),
            before.err || cards.err || LengthBoundary(bs[n]))
  }

  /** The tree an event means. */
  function EventMeaning(e: WireEvent, scale: Scale): Event
    requires WfEvent(e)
  {
    BlocksMeaning(e.blocks, scale).ev.(regid := Low11(e.regid))
  }

  predicate EventErr(e: WireEvent, scale: Scale)
    requires WfEvent(e)
  {
    BlocksMeaning(e.blocks, scale).err
  }
}
