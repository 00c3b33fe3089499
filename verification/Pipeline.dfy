/** From packets to trees: encoded events written to the wire one after another, cut into
    packets anywhere, come out of the parser as their meanings, in order. */
module Pipeline {
  import opened Words
  import opened EventTree
  import opened EventMachine
  import opened Acceptance
  import opened Wire
  import opened RoundTrip
  import opened Parser
  import Accumulators
  import Reader

  /** A chunk in memory, with anything behind it. */
  function InMemory(chunk: seq<Word>, beyond: Memory): Memory {
    (i: nat) => if i < |chunk| then chunk[i] else beyond(i)
  }

  /** The parser over a sequence of chunks: the machine and the events forwarded. */
  function ParseAll(m: Machine, chunks: seq<seq<Word>>, beyond: Memory, scale: Scale): (Machine, seq<Event>) {
    if chunks == [] then (m, [])
    else
      var n := |chunks| - 1;
      var (m1, es) := ParseAll(m, chunks[..n], beyond, scale);
      var (m2, out) := ParseChunk(m1, InMemory(chunks[n], beyond), |chunks[n]|, scale);
      (m2, es + if out.Some? then [out.value] else [])
  }

  /** The meanings of the events that are not empty. */
  function Meanings(es: seq<WireEvent>, scale: Scale): seq<Event>
    requires forall e :: e in es ==> WfEvent(e)
  {
    if es == [] then []
    else
      var n := |es| - 1;
      assert WfEvent(es[n]);
      var ev := EventMeaning(es[n], scale);
      Meanings(es[..n], scale) + if EmptyEvent(ev) then [] else [ev]
  }

  // ----- encoded events have their end-of-event word only at the end -----

  predicate NoEnd(us: Units) {
    forall u, w :: u in us && w in u ==> !Reader.EndOfEvent(w)
  }

  /** Payloads are data words, as the hardware sends them. */
  predicate DataRecord(r: Record) {
    r.Rec? ==> forall w :: w in r.payload ==> Classify(w) == DATA
  }

  predicate DataEvent(e: WireEvent) {
    forall b, c, h, r :: b in e.blocks && c in b.cards && h in c.hits && r in h.recs ==> DataRecord(r)
  }

  lemma NoEndConcat(a: Units, b: Units)
    requires NoEnd(a) && NoEnd(b)
    ensures NoEnd(a + b)
  {}

  lemma NotEnd(w: Word)
    requires Classify(w) != REGID
    ensures !Reader.EndOfEvent(w) && NoEnd([[w]])
  {
    Reader.EndOfEventIsRegid(w);
  }

  lemma {:induction false} SinglesNoEnd(ws: seq<Word>)
    requires forall w :: w in ws ==> Classify(w) == DATA
    ensures NoEnd(Singles(ws))
    decreases |ws|
  {
    hide Classify, Reader.EndOfEvent;
    if ws != [] {
      SinglesNoEnd(ws[..|ws| - 1]);
      NotEnd(ws[|ws| - 1]);
    }
  }

  lemma RecordNoEnd(r: Record)
    requires WfRecord(r) && DataRecord(r)
    ensures NoEnd(RecordUnits(r))
  {
    hide Classify, Reader.EndOfEvent, PayloadLength;
    if r.Void? {
      VoidIsData();
      NotEnd(TAG_VOID);
    } else {
      LengthIsData(|r.payload|);
      NotEnd(r.tag);
      NotEnd(|r.payload|);
      forall w | w in r.payload
        ensures !Reader.EndOfEvent(w)
      {
        NotEnd(w);
      }
    }
  }

  lemma {:induction false} RecordsNoEnd(rs: seq<Record>)
    requires forall r :: r in rs ==> WfRecord(r) && DataRecord(r)
    ensures NoEnd(RecordsUnits(rs))
    decreases |rs|
  {
    hide WfRecord, DataRecord, Reader.EndOfEvent;
    if rs != [] {
      RecordsNoEnd(rs[..|rs| - 1]);
      RecordNoEnd(rs[|rs| - 1]);
    }
  }

  lemma HitNoEnd(h: WireHit)
    requires WfHit(h) && forall r :: r in h.recs ==> DataRecord(r)
    ensures NoEnd(HitUnits(h))
  {
    hide Classify, WfRecord, DataRecord, Reader.EndOfEvent;
    NotEnd(h.det);
    RecordsNoEnd(h.recs);
    if h.Telescope? {
      NotEnd(h.telid);
      NotEnd(h.gttag);
      SinglesNoEnd(h.tags);
      NoEndConcat([[h.telid]], [[h.gttag]]);
      assert [[h.telid]] + [[h.gttag]] == [[h.telid], [h.gttag]];
      NoEndConcat([[h.telid], [h.gttag]], Singles(h.tags));
      NoEndConcat([[h.telid], [h.gttag]] + Singles(h.tags), [[h.det]]);
      NoEndConcat([[h.telid], [h.gttag]] + Singles(h.tags) + [[h.det]], RecordsUnits(h.recs));
    } else {
      assert [] + [[h.det]] == [[h.det]];
      NoEndConcat([[h.det]], RecordsUnits(h.recs));
    }
  }

  lemma {:induction false} HitsNoEnd(hs: seq<WireHit>)
    requires forall h :: h in hs ==> WfHit(h)
    requires forall h, r :: h in hs && r in h.recs ==> DataRecord(r)
    ensures NoEnd(HitsUnits(hs))
    decreases |hs|
  {
    hide WfHit, DataRecord, Reader.EndOfEvent, HitUnits;
    if hs != [] {
      var n := |hs| - 1;
      assert hs[n] in hs;
      HitsNoEnd(hs[..n]);
      HitNoEnd(hs[n]);
    }
  }

  lemma {:induction false} CardsNoEnd(cs: seq<WireCard>, ec: Word)
    requires forall c :: c in cs ==> WfCard(c)
    requires forall c, h, r :: c in cs && h in c.hits && r in h.recs ==> DataRecord(r)
    ensures NoEnd(CardsUnits(cs, ec))
    decreases |cs|
  {
    hide WfHit, DataRecord, Reader.EndOfEvent, HitsUnits, Classify, LengthWord, CrcFeWord, CrcBlWord;
    if cs != [] {
      var n := |cs| - 1;
      var c := cs[n];
      assert WfCard(c);
      CardsNoEnd(cs[..n], ec);
      HitsNoEnd(c.hits);
      var body := CardBody(c, CounterAfter(cs[..n], ec));
      CheckWords(|body|, Accumulators.XorAll(body));
      ThreeNoEnd(LengthWord(|body|), CrcFeWord(Accumulators.XorAll(body)), c.counter);
      NoEndConcat(HitsUnits(c.hits), [[LengthWord(|body|)], [CrcFeWord(Accumulators.XorAll(body))], [c.counter]]);
    }
  }

  lemma ThreeNoEnd(a: Word, b: Word, c: Word)
    requires Classify(a) != REGID && Classify(b) != REGID && Classify(c) != REGID
    ensures NoEnd([[a], [b], [c]])
  {
    hide Reader.EndOfEvent, Classify;
    NotEnd(a);
    NotEnd(b);
    NotEnd(c);
  }

  lemma {:induction false} BlocksNoEnd(bs: seq<WireBlock>)
    requires forall b :: b in bs ==> WfBlock(b)
    requires forall b, c, h, r :: b in bs && c in b.cards && h in c.hits && r in h.recs ==> DataRecord(r)
    ensures NoEnd(BlocksUnits(bs))
    decreases |bs|
  {
    hide WfCard, DataRecord, Reader.EndOfEvent, CardsUnits, Classify, LengthWord, CrcFeWord, CrcBlWord, BlockLength;
    if bs != [] {
      var n := |bs| - 1;
      var b := bs[n];
      assert WfBlock(b);
      BlocksNoEnd(bs[..n]);
      CardsNoEnd(b.cards, b.opening);
      BlockWordsOf(b);
      var lw := LengthWord(BlockLength(b));
      var crc := Accumulators.XorAll(Flat(BlockBody(b)) + [lw]);
      CheckWords(BlockLength(b), crc);
      NotEnd(b.opening);
      ThreeNoEnd(b.blkid, lw, CrcBlWord(crc));
      NoEndConcat([[b.opening]], CardsUnits(b.cards, b.opening));
      NoEndConcat([[b.opening]] + CardsUnits(b.cards, b.opening), [[b.blkid], [lw], [CrcBlWord(crc)]]);
      NoEndConcat(BlocksUnits(bs[..n]), BlockUnits(b));
    }
  }

  /** Memory that holds such units and one end-of-event word, and stops there, has no other. */
  lemma {:induction false} HoldsOneEnd(mem: Memory, i: nat, us: Units, r: Word, end: nat, j: nat)
    requires NoEnd(us) && Holds(mem, i, us + [[r]], end)
    requires end > 0 && Reader.EndOfEvent(mem(end - 1)) && i <= j < end - 1
    ensures !Reader.EndOfEvent(mem(j))
    decreases if i < end then end - i else 0
  {
    hide Reader.EndOfEvent, Classify;
    var all := us + [[r]];
    Reader.EndOfEventIsRegid(mem(i));
    if i < end && Classify(mem(i)) == EMPTY && Holds(mem, i + 1, all, end) {
      if i < j {
        HoldsOneEnd(mem, i + 1, us, r, end, j);
      }
    } else if us == [] {
      assert all[0] == [r] && all[1..] == [];
      HoldsNothing(mem, i + 1, end);
      Reader.EndOfEventIsRegid(mem(end - 1));
    } else {
      assert all[0] == us[0] && all[1..] == us[1..] + [[r]];
      if j < i + |us[0]| {
        assert us[0][j - i] == mem(j);
        assert us[0] in us && mem(j) in us[0];
      } else {
        HoldsOneEnd(mem, i + |us[0]|, us[1..], r, end, j);
      }
    }
  }

  /** Memory that holds no unit holds EMPTY words only. */
  lemma {:induction false} HoldsNothing(mem: Memory, i: nat, end: nat)
    requires Holds(mem, i, [], end)
    ensures i <= end && forall k: nat :: i <= k < end ==> Classify(mem(k)) == EMPTY
    decreases if i < end then end - i else 0
  {
    hide Classify;
    if i < end {
      HoldsNothing(mem, i + 1, end);
    }
  }

  // ----- the whole way -----

  /** The chunk is an encoding of the event: its units, with EMPTY words between them, up to its
      end-of-event word. */
  ghost predicate Encodes(chunk: seq<Word>, e: WireEvent)
    requires WfEvent(e)
  {
    && chunk != [] && chunk[|chunk| - 1] == e.regid
    && forall beyond :: Holds(InMemory(chunk, beyond), 0, EventUnits(e), |chunk|)
  }

  lemma {:induction false} FlatHolds(mem: Memory, i: nat, us: Units)
    requires forall u :: u in us ==> u != []
    requires forall k :: 0 <= k < |Flat(us)| ==> mem(i + k) == Flat(us)[k]
    ensures Holds(mem, i, us, i + |Flat(us)|)
    decreases |us|
  {
    hide Classify;
    if us != [] {
      var u := us[0];
      assert us == [u] + us[1..] && u in us;
      FlatConcat([u], us[1..]);
      FlatOne(u);
      assert Flat(us) == u + Flat(us[1..]);
      forall k | 0 <= k < |u|
        ensures mem(i + k) == u[k]
      {
        assert Flat(us)[k] == u[k];
      }
      forall k | 0 <= k < |Flat(us[1..])|
        ensures mem(i + |u| + k) == Flat(us[1..])[k]
      {
        assert mem(i + (|u| + k)) == Flat(us)[|u| + k] == Flat(us[1..])[k];
      }
      assert forall v :: v in us[1..] ==> v in us;
      FlatHolds(mem, i + |u|, us[1..]);
      assert Slice(mem, i, |u|) == u;
    }
  }

  lemma UnitsDispatched(e: WireEvent, m: Machine, scale: Scale)
    requires WfEvent(e) && m.ctl.state == Idle && m.zip == Zip(CLEARED, Closed)
    ensures forall u :: u in EventUnits(e) ==> u != [] && Classify(u[0]) != EMPTY
  {
    hide Classify, BlocksUnits, WfBlock, EventMeaning, Feeds;
    var m' := EventFeeds(m, e, scale);
    FeedsDispatched(m, EventUnits(e), scale);
  }

  lemma {:induction false} FeedsDispatched(m: Machine, us: Units, scale: Scale)
    requires Feeds(m, us, scale).Some?
    ensures forall u :: u in us ==> u != [] && Classify(u[0]) != EMPTY
    decreases |us|
  {
    hide Dispatch, Classify;
    if us != [] {
      FeedsDispatched(Dispatch(m, us[0], scale), us[1..], scale);
      assert us == [us[0]] + us[1..];
    }
  }

  /** Every well-formed event has an encoding: its words, without any EMPTY word. */
  lemma PlainEncoding(e: WireEvent, m: Machine, scale: Scale)
    requires WfEvent(e)
    requires m.ctl.state == Idle && m.zip == Zip(CLEARED, Closed)
    ensures Encodes(Flat(EventUnits(e)), e)
  {
    hide Classify, BlocksUnits, Holds, Feeds, Flat, WfBlock, EventMeaning;
    var us := EventUnits(e);
    UnitsDispatched(e, m, scale);
    FlatSnoc(BlocksUnits(e.blocks), [e.regid]);
    forall beyond: Memory
      ensures Holds(InMemory(Flat(us), beyond), 0, us, |Flat(us)|)
    {
      FlatHolds(InMemory(Flat(us), beyond), 0, us);
    }
  }

  /** Such a chunk is framed the way the reader cuts. */
  lemma EncodedIsFramed(chunk: seq<Word>, e: WireEvent, beyond: Memory)
    requires WfEvent(e) && DataEvent(e) && Encodes(chunk, e)
    ensures Reader.Framed(chunk)
  {
    hide Classify, WfBlock, DataRecord, BlocksUnits, Holds;
    var mem := InMemory(chunk, beyond);
    Reader.EndOfEventIsRegid(e.regid);
    BlocksNoEnd(e.blocks);
    forall j | 0 <= j < |chunk| - 1
      ensures !Reader.EndOfEvent(chunk[j])
    {
      HoldsOneEnd(mem, 0, BlocksUnits(e.blocks), e.regid, |chunk|, j);
    }
  }

  /** Every reader-framed chunk ends in its only REGID, as the acceptance results assume. */
  lemma FramedEndsInRegid(chunk: seq<Word>, beyond: Memory)
    requires Reader.Framed(chunk)
    ensures OnlyLastRegid(InMemory(chunk, beyond), |chunk|)
  {
    forall i: nat | i < |chunk|
      ensures Classify(InMemory(chunk, beyond)(i)) == REGID <==> i == |chunk| - 1
    {
      Reader.EndOfEventIsRegid(chunk[i]);
    }
  }

  lemma {:induction false} ParseAllMeans(m: Machine, chunks: seq<seq<Word>>, es: seq<WireEvent>,
                                              beyond: Memory, scale: Scale)
    requires |chunks| == |es| && (forall e :: e in es ==> WfEvent(e))
    requires forall k :: 0 <= k < |es| ==> Encodes(chunks[k], es[k])
    ensures ParseAll(m, chunks, beyond, scale).1 == Meanings(es, scale)
    decreases |es|
  {
    hide Run, WfEvent, Holds, EventMeaning, EventErr;
    if es != [] {
      var n := |es| - 1;
      ParseAllMeans(m, chunks[..n], es[..n], beyond, scale);
      var m1 := ParseAll(m, chunks[..n], beyond, scale).0;
      assert WfEvent(es[n]) && Encodes(chunks[n], es[n]);
      DecodesEncoded(Attached(m1, |chunks[n]|), es[n], InMemory(chunks[n], beyond), |chunks[n]|, scale);
    }
  }

  /** End to end: if the payload stream of the packets is a sequence of encoded events and no
      packet boundary discards an oversize chunk, then, however the stream was cut into packets
      and whatever the machine did before, the parser forwards exactly the meanings of the events
      that are not empty, in order, and no word is left over. */
  lemma PacketsToTrees(ps: seq<Reader.Packet>, chunks: seq<seq<Word>>, es: seq<WireEvent>, m: Machine,
                       beyond: Memory, scale: Scale)
    requires |chunks| == |es| && (forall e :: e in es ==> WfEvent(e) && DataEvent(e))
    requires forall k :: 0 <= k < |es| ==> Encodes(chunks[k], es[k])
    requires Reader.Stream(ps) == Reader.Concat(chunks) && Reader.NoDiscard(ps)
    ensures Reader.Receive(ps) == Reader.Cutting(chunks, [])
    ensures ParseAll(m, Reader.Receive(ps).events, beyond, scale).1 == Meanings(es, scale)
  {
    hide WfEvent, DataEvent, Reader.Framed, Reader.Cut, Encodes;
    forall c | c in chunks
      ensures Reader.Framed(c)
    {
      var k :| 0 <= k < |chunks| && chunks[k] == c;
      assert es[k] in es;
      EncodedIsFramed(chunks[k], es[k], beyond);
    }
    Reader.PacketsDoNotMatter(ps);
    Reader.CutInverts(chunks, []);
    assert Reader.Concat(chunks) + [] == Reader.Concat(chunks);
    ParseAllMeans(m, chunks, es, beyond, scale);
  }

  /** The same from the words of the packets: whatever headers of two or three words they have,
      payloads that make up the chunks give their trees, unless a discard falls between packets. */
  lemma DatagramsToTrees(ps: seq<Reader.Packet>, headers: seq<seq<Word>>, payloads: seq<seq<Word>>,
                         chunks: seq<seq<Word>>, es: seq<WireEvent>, m: Machine, beyond: Memory, scale: Scale)
    requires |chunks| == |es| && (forall e :: e in es ==> WfEvent(e) && DataEvent(e))
    requires forall k :: 0 <= k < |es| ==> Encodes(chunks[k], es[k])
    requires |ps| == |headers| == |payloads|
    requires forall k :: 0 <= k < |ps| ==> Reader.Carries(ps[k], headers[k], payloads[k])
    requires Reader.Concat(payloads) == Reader.Concat(chunks)
    requires forall k :: 0 <= k <= |ps| ==> |Reader.Cut([], Reader.Concat(payloads[..k])).rest| < 10_000_000
    ensures Reader.Receive(ps) == Reader.Cutting(chunks, [])
    ensures ParseAll(m, Reader.Receive(ps).events, beyond, scale).1 == Meanings(es, scale)
  {
    hide WfEvent, DataEvent, Encodes, Reader.Carries, Reader.Cut, Reader.Stream, Reader.Receive, ParseAll, Meanings;
    forall k | 0 <= k <= |ps|
      ensures Reader.Stream(ps[..k]) == Reader.Concat(payloads[..k])
    {
      Reader.StreamIsCarried(ps[..k], headers[..k], payloads[..k]);
    }
    assert ps[..|ps|] == ps && payloads[..|ps|] == payloads;
    PacketsToTrees(ps, chunks, es, m, beyond, scale);
  }

  // ----- filler words -----

  /** The units with filler words in front of each. */
  function WithFillers(us: Units, gaps: seq<seq<Word>>): seq<Word>
    requires |gaps| == |us|
  {
    if us == [] then [] else gaps[0] + (us[0] + WithFillers(us[1..], gaps[1..]))
  }

  /** Fillers are the words from 0x8000 to 0x8FFF. */
  predicate AllFillers(gaps: seq<seq<Word>>) {
    forall k, w :: 0 <= k < |gaps| && w in gaps[k] ==> 0x8000 <= w < 0x9000
  }

  lemma {:induction false} FillerSkip(mem: Memory, i: nat, gap: seq<Word>, us: Units, end: nat)
    requires forall k :: 0 <= k < |gap| ==> mem(i + k) == gap[k] && 0x8000 <= gap[k] < 0x9000
    requires Holds(mem, i + |gap|, us, end) && (us != [] ==> i + |gap| < end) && us != []
    ensures Holds(mem, i, us, end)
    decreases |gap|
  {
    hide Classify;
    if gap == [] {
      assert i + |gap| == i;
    } else {
      ClassRanges(mem(i));
      assert mem(i) == mem(i + 0) == gap[0];
      assert forall k :: 0 <= k < |gap[1..]| ==> mem(i + 1 + k) == gap[1..][k] by {
        forall k | 0 <= k < |gap[1..]|
          ensures mem(i + 1 + k) == gap[1..][k]
        {
          assert mem(i + (k + 1)) == gap[k + 1];
        }
      }
      FillerSkip(mem, i + 1, gap[1..], us, end);
    }
  }

  lemma {:induction false} FillersHold(mem: Memory, i: nat, us: Units, gaps: seq<seq<Word>>)
    requires |gaps| == |us| && AllFillers(gaps) && forall u :: u in us ==> u != [] && Classify(u[0]) != EMPTY
    requires forall k :: 0 <= k < |WithFillers(us, gaps)| ==> mem(i + k) == WithFillers(us, gaps)[k]
    ensures Holds(mem, i, us, i + |WithFillers(us, gaps)|)
    decreases |us|
  {
    hide Classify;
    if us != [] {
      var gap, u, rest := gaps[0], us[0], WithFillers(us[1..], gaps[1..]);
      var all := WithFillers(us, gaps);
      assert all == gap + (u + rest) && u in us;
      forall k | 0 <= k < |gap|
        ensures mem(i + k) == gap[k] && 0x8000 <= gap[k] < 0x9000
      {
        assert all[k] == gap[k] && gap[k] in gaps[0];
      }
      var j := i + |gap|;
      forall k | 0 <= k < |u|
        ensures mem(j + k) == u[k]
      {
        assert mem(i + (|gap| + k)) == all[|gap| + k] == u[k];
      }
      forall k | 0 <= k < |rest|
        ensures mem(j + |u| + k) == rest[k]
      {
        assert mem(i + (|gap| + |u| + k)) == all[|gap| + |u| + k] == rest[k];
      }
      assert AllFillers(gaps[1..]);
      assert forall v :: v in us[1..] ==> v in us;
      FillersHold(mem, j + |u|, us[1..], gaps[1..]);
      assert Slice(mem, j, |u|) == u;
      FillerSkip(mem, i, gap, us, i + |all|);
    }
  }

  /** Filler words between the units of an encoded event change nothing: result, tree and
      counters are those of the event without them. */
  lemma FillersChangeNothing(m: Machine, e: WireEvent, gaps: seq<seq<Word>>, beyond: Memory, scale: Scale)
    requires m.ctl.state == Idle && m.zip == Zip(CLEARED, Closed) && WfEvent(e)
    requires |gaps| == |EventUnits(e)| && AllFillers(gaps)
    ensures var plain, filled := Flat(EventUnits(e)), WithFillers(EventUnits(e), gaps);
            var r := Run(m, InMemory(plain, beyond), 0, |plain|, false, scale);
            var s := Run(m, InMemory(filled, beyond), 0, |filled|, false, scale);
            && r.1 && s.1 && Tree(r.0.zip) == Tree(s.0.zip) == EventMeaning(e, scale) && r.0.report == s.0.report
  {
    hide Run, EventUnits, Flat, Holds, Classify, WfEvent, EventMeaning, WithFillers;
    var us := EventUnits(e);
    var plain, filled := Flat(us), WithFillers(us, gaps);
    PlainEncoding(e, m, scale);
    assert Holds(InMemory(plain, beyond), 0, us, |plain|);
    DecodesEncoded(m, e, InMemory(plain, beyond), |plain|, scale);
    UnitsDispatched(e, m, scale);
    FillersHold(InMemory(filled, beyond), 0, us, gaps);
    DecodesEncoded(m, e, InMemory(filled, beyond), |filled|, scale);
  }

  // ----- a block at the length boundary -----

  /** A block of exactly 4096 words: one card with one hit and 4084 samples. */
  function BoundaryBlock(): WireBlock {
    var samples: seq<Word> := seq(4084, _ => 1);
    WireBlock(0xE000, [WireCard([Telescope(0x9800, 1, [], 0x9000, [Rec(TAG_WAVEFORM, samples)])], 0xE000)], 0xC001)
  }

  function BoundaryEvent(): WireEvent { WireEvent([BoundaryBlock()], 0xC800) }

  lemma BoundaryClasses()
    ensures Classify(0xE000) == EC && Classify(0x9800) == TELID && Classify(1) == DATA && Classify(0x9000) == DETID
    ensures Classify(0xC001) == BLKID && Classify(0xC800) == REGID && Classify(TAG_WAVEFORM) == DATA
  {}

  lemma BoundaryWellFormed()
    ensures WfEvent(BoundaryEvent()) && WfBlock(BoundaryBlock()) && WfCard(BoundaryBlock().cards[0])
    ensures WfHit(BoundaryBlock().cards[0].hits[0])
    ensures WfRecord(BoundaryBlock().cards[0].hits[0].recs[0])
  {
    hide Classify;
    BoundaryClasses();
  }

  lemma BoundaryHitLength()
    requires WfHit(BoundaryBlock().cards[0].hits[0])
    ensures |Flat(HitUnits(BoundaryBlock().cards[0].hits[0]))| == 4089
  {
    hide Flat, Classify;
    var h := BoundaryBlock().cards[0].hits[0];
    var r := h.recs[0];
    assert WfRecord(r);
    assert h.recs[..0] == [] && h.recs == [r];
    assert RecordsUnits(h.recs) == RecordsUnits(h.recs[..0]) + RecordUnits(r);
    assert RecordUnits(r) == [[r.tag], [4084], r.payload];
    assert HitUnits(h) == [[h.telid], [h.gttag], [h.det]] + RecordUnits(r);
    FlatConcat([[h.telid], [h.gttag], [h.det]], RecordUnits(r));
    FlatThree([h.telid], [h.gttag], [h.det]);
    FlatThree([r.tag], [4084], r.payload);
  }

  lemma FlatThree(a: seq<Word>, b: seq<Word>, c: seq<Word>)
    ensures Flat([a, b, c]) == a + b + c
  {
    FlatOne(a);
    FlatSnoc([a], b);
    FlatSnoc([a, b], c);
    assert [a] + [b] == [a, b] && [a, b] + [c] == [a, b, c];
  }

  lemma BoundaryLength()
    requires WfBlock(BoundaryBlock()) && WfCard(BoundaryBlock().cards[0])
    ensures BlockLength(BoundaryBlock()) == 4096
  {
    hide Flat, Classify, HitUnits;
    BoundaryWellFormed();
    var b := BoundaryBlock();
    var c := b.cards[0];
    BoundaryHitLength();
    assert c.hits[..0] == [] && HitsUnits(c.hits) == HitsUnits(c.hits[..0]) + HitUnits(c.hits[0]) == HitUnits(c.hits[0]);
    var end := [[LengthWord(|CardBody(c, b.opening)|)], [CrcFeWord(Accumulators.XorAll(CardBody(c, b.opening)))], [c.counter]];
    assert CardUnits(c, b.opening) == HitUnits(c.hits[0]) + end;
    FlatConcat(HitUnits(c.hits[0]), end);
    FlatThree(end[0], end[1], end[2]);
    assert b.cards[..0] == [] && b.cards == [c] && CounterAfter(b.cards[..0], b.opening) == b.opening;
    assert CardsUnits(b.cards, b.opening) == CardsUnits(b.cards[..0], b.opening) + CardUnits(c, b.opening)
        == CardUnits(c, b.opening);
    FlatConcat([[b.opening]], CardUnits(c, b.opening));
    FlatConcat([[b.opening]] + CardUnits(c, b.opening), [[b.blkid]]);
    FlatOne([b.opening]);
    FlatOne([b.blkid]);
  }

  /** An event with this block, encoded with the right LENGTH and CRC words, is parsed, and yet
      counted bad with its length flag set. */
  lemma BoundaryEventIsBad(m: Machine, beyond: Memory, scale: Scale)
    requires m.ctl.state == Idle && m.zip == Zip(CLEARED, Closed)
    ensures WfEvent(BoundaryEvent())
    ensures var chunk := Flat(EventUnits(BoundaryEvent()));
            var (m', ok) := Run(m, InMemory(chunk, beyond), 0, |chunk|, false, scale);
            && ok && m'.report == m.report.(eventsBad := m.report.eventsBad + 1)
            && |Tree(m'.zip).blocks| == 1 && Tree(m'.zip).blocks[0].lenError && !Tree(m'.zip).blocks[0].crcError
  {
    hide Run, EventUnits, Flat, Holds, Classify, CardsMeaning, BlockLength, BoundaryBlock;
    BoundaryWellFormed();
    BoundaryLength();
    var e, chunk := BoundaryEvent(), Flat(EventUnits(BoundaryEvent()));
    PlainEncoding(e, m, scale);
    assert Encodes(chunk, e);
    DecodesEncoded(m, e, InMemory(chunk, beyond), |chunk|, scale);
    BoundaryMeaning(scale);
  }

  lemma BoundaryMeaning(scale: Scale)
    requires WfEvent(BoundaryEvent()) && WfBlock(BoundaryBlock()) && BlockLength(BoundaryBlock()) == 4096
    ensures var t := EventMeaning(BoundaryEvent(), scale);
            && EventErr(BoundaryEvent(), scale) && !EmptyEvent(t)
            && |t.blocks| == 1 && t.blocks[0].lenError && !t.blocks[0].crcError
  {
    hide BlockLength, HitsMeaning, Classify;
    var b := BoundaryBlock();
    var bs := [b];
    assert bs[..0] == [] && BoundaryEvent().blocks == bs;
    assert Low11(0xC001) == 1;
    var fees := CardsMeaning(b.cards, b.opening, Low12(b.opening), scale).fees;
    assert |fees| == 1;
    assert BlocksMeaning(bs, scale).ev.blocks == BlocksMeaning(bs[..0], scale).ev.blocks + [BlockMeaning(b, scale)];
    assert BlocksMeaning(bs, scale).ev.blocks == [BlockMeaning(b, scale)];
    assert BlockMeaning(b, scale) in EventMeaning(BoundaryEvent(), scale).blocks;
  }
}
