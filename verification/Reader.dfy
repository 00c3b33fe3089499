/** The reader: a stream of packets is cut into events at REGID words, across packet boundaries. */
module Reader {
  import opened Words

  const MAX_EVENT_SIZE: nat := 10_000_000

  /** A received packet: `words` is the receive buffer seen as 16-bit words, `len` its length in
      bytes. An odd length reads the byte behind the packet as the upper half of its last word. */
  datatype Packet = Packet(words: Memory, len: nat)

  /** The mask and tag by which the reader recognises the end of an event. */
  predicate EndOfEvent(w: Word) { w / 2048 == 0xC800 / 2048 }

  /** It is the class that the event machine calls REGID. */
  lemma EndOfEventIsRegid(w: Word)
    ensures EndOfEvent(w) <==> Classify(w) == REGID
  {
    assert w / 4096 == w / 2048 / 2;
  }

  function WordCount(p: Packet): nat { if p.len % 2 == 0 then p.len / 2 else p.len / 2 + 1 }

  /** Two header words, and a third one when the first three hold an empty word. */
  function Offset(p: Packet): nat {
    if p.words(0) == 0x8080 || p.words(1) == 0x8080 || p.words(2) == 0x8080 then 3 else 2
  }

  function Payload(p: Packet): seq<Word> {
    if WordCount(p) <= Offset(p) then [] else Slice(p.words, Offset(p), WordCount(p) - Offset(p))
  }

  /** The packet carries the words `ws` behind a header. A header has three words when one of them
      is 0x8080; else it has two, and the first word behind them is not 0x8080. In a packet of odd
      length the last word ends behind the packet. */
  predicate Carries(p: Packet, header: seq<Word>, ws: seq<Word>) {
    && (p.len == 2 * (|header| + |ws|) || p.len + 1 == 2 * (|header| + |ws|))
    && (forall k :: 0 <= k < |header| ==> p.words(k) == header[k])
    && (forall k :: 0 <= k < |ws| ==> p.words(|header| + k) == ws[k])
    && if |header| == 3 then 0x8080 in header
       else |header| == 2 && 0x8080 !in header && (ws != [] ==> ws[0] != 0x8080)
  }

  /** Both header forms are stepped over: what a packet carries is its payload. */
  lemma CarriedIsPayload(p: Packet, header: seq<Word>, ws: seq<Word>)
    requires Carries(p, header, ws)
    ensures Payload(p) == ws
  {
    var h := |header|;
    assert p.words(0) == header[0] && p.words(1) == header[1];
    if h == 3 {
      assert p.words(2) == header[2];
    } else if ws != [] {
      assert p.words(2) == p.words(h + 0) == ws[0];
    }
    if ws != [] {
      assert Offset(p) == h && WordCount(p) == h + |ws|;
    }
  }

  /** Every packet of three words and more carries something; shorter ones have no payload. */
  lemma PacketsCarry(p: Packet)
    ensures p.len <= 4 ==> Payload(p) == []
    ensures p.len > 4 ==> exists n :: 2 <= n <= 3 && Carries(p, Slice(p.words, 0, n), Payload(p))
  {
    if p.len > 4 {
      var n := Offset(p);
      var header := Slice(p.words, 0, n);
      assert header[0] == p.words(0) && header[1] == p.words(1);
      if n == 3 {
        assert header[2] == p.words(2);
      } else {
        assert header == [p.words(0), p.words(1)];
      }
      assert Carries(p, header, Payload(p));
    }
  }

  /** Events cut off and the chunk left over. */
  datatype Cutting = Cutting(events: seq<seq<Word>>, rest: seq<Word>)

  function CutWord(c: Cutting, w: Word): Cutting {
    var chunk := c.rest + [w];
    if EndOfEvent(w) then Cutting(c.events + [chunk], []) else Cutting(c.events, chunk)
  }

  /** Cutting the words `ws` with `chunk` carried over. */
  function Cut(chunk: seq<Word>, ws: seq<Word>): Cutting {
    if ws == [] then Cutting([], chunk) else CutWord(Cut(chunk, ws[..|ws| - 1]), ws[|ws| - 1])
  }

  datatype Report = Report(inEvents: nat, inBytes: nat, outEvents: nat, outBytes: nat)

  function Concat(es: seq<seq<Word>>): seq<Word> {
    if es == [] then [] else Concat(es[..|es| - 1]) + es[|es| - 1]
  }

  /** The counters after sending the events. */
  function Sent(r: Report, es: seq<seq<Word>>): Report {
    r.(inEvents := r.inEvents + |es|, outEvents := r.outEvents + |es|, outBytes := r.outBytes + 2 * |Concat(es)|)
  }

  lemma CutStep(chunk: seq<Word>, ws: seq<Word>, k: nat)
    requires k < |ws|
    ensures Cut(chunk, ws[..k + 1]) == CutWord(Cut(chunk, ws[..k]), ws[k])
  {
    assert ws[..k + 1][..k] == ws[..k];
  }

  lemma CutNothing(chunk: seq<Word>)
    ensures Cut(chunk, []) == Cutting([], chunk)
  {}

  lemma SentNothing(r: Report)
    ensures Sent(r, []) == r
  {}

  lemma SentCounts(r: Report, es: seq<seq<Word>>)
    ensures var n := |es|;
            Sent(r, es) == Report(r.inEvents + n, r.inBytes, r.outEvents + n, r.outBytes + 2 * |Concat(es)|)
  {}

  lemma ConcatOne(e: seq<Word>)
    ensures Concat([e]) == e
  {
    var es: seq<seq<Word>> := [e];
    assert es[..0] == [];
  }

  lemma SentMore(r: Report, c: Cutting, w: Word)
    ensures var d := CutWord(c, w);
            Sent(Sent(r, c.events), d.events[|c.events|..]) == Sent(r, d.events)
            && c.events + d.events[|c.events|..] == d.events
  {
    var d := CutWord(c, w);
    ConcatConcat(c.events, d.events[|c.events|..]);
    assert c.events + d.events[|c.events|..] == d.events;
  }

  class FzReader {
    var chunk: seq<Word>
    var sent: seq<seq<Word>>
    var report: Report

    constructor ()
      ensures chunk == [] && sent == [] && report == Report(0, 0, 0, 0)
    {
      chunk, sent, report := [], [], Report(0, 0, 0, 0);
    }

    /** One word: it joins the chunk, and an end-of-event word sends the chunk. */
    method Push(value: Word, ghost c: Cutting)
      requires chunk == c.rest
      modifies this
      ensures var d := CutWord(c, value);
              && chunk == d.rest && sent == old(sent) + d.events[|c.events|..]
              && report == Sent(old(report), d.events[|c.events|..])
    {
      chunk := chunk + [value];
      ghost var whole := chunk;
      if EndOfEvent(value) {
        report := report.(inEvents := report.inEvents + 1);
        sent := sent + [chunk];
        report := report.(outEvents := report.outEvents + 1, outBytes := report.outBytes + 2 * |chunk|);
        chunk := [];
        assert (c.events + [whole])[|c.events|..] == [whole];
        ConcatOne(whole);
      }
    }

    /** One packet: its payload is cut, whole events are sent, and an oversize rest is discarded.
        What the packet carries behind either form of header is its payload. */
    method UdpHandler(p: Packet)
      modifies this
      ensures forall header, ws :: Carries(p, header, ws) ==>
        var c := Cut(old(chunk), ws);
        && sent == old(sent) + c.events
        && chunk == (if |c.rest| >= 10_000_000 then [] else c.rest)
        && report == Report(old(report).inEvents + |c.events|, old(report).inBytes + p.len,
                            old(report).outEvents + |c.events|, old(report).outBytes + 2 * |Concat(c.events)|)
      ensures var c := Cut(old(chunk), Payload(p));
              && sent == old(sent) + c.events
              && chunk == (if |c.rest| >= MAX_EVENT_SIZE then [] else c.rest)
              && report == Sent(old(report), c.events).(inBytes := old(report).inBytes + p.len)
    {
      hide Cut, CutWord, Sent, EndOfEvent, Slice, Concat, Carries;
      var evlen := if p.len / 2 * 2 == p.len then p.len / 2 else p.len / 2 + 1;
      var offset := 2;
      if p.words(0) == 0x8080 || p.words(1) == 0x8080 || p.words(2) == 0x8080 {
        offset := offset + 1;
      }
      ghost var ws := Payload(p);
      ghost var c := Cutting([], chunk);
      CutNothing(chunk);
      SentNothing(report);
      assert ws[..0] == [];
      assert sent + [] == sent;
      var i := offset;
      while i < evlen
        invariant offset <= i && i - offset <= |ws| && (offset <= evlen ==> i <= evlen)
        invariant c == Cut(old(chunk), ws[..i - offset])
        invariant sent == old(sent) + c.events && chunk == c.rest
        invariant report == Sent(old(report), c.events)
      {
        CutStep(old(chunk), ws, i - offset);
        Push(p.words(i), c);
        SentMore(old(report), c, p.words(i));
        assert old(sent) + c.events + CutWord(c, p.words(i)).events[|c.events|..]
            == old(sent) + CutWord(c, p.words(i)).events;
        c := CutWord(c, p.words(i));
        i := i + 1;
      }
      assert ws[..|ws|] == ws;
      SentCounts(old(report), c.events);
      report := report.(inBytes := report.inBytes + p.len);
      if |chunk| >= MAX_EVENT_SIZE {
        chunk := [];
      }
      forall header, ws | Carries(p, header, ws)
        ensures ws == Payload(p)
      {
        CarriedIsPayload(p, header, ws);
      }
    }
  }

  // ----- what the cutting means -----

  /** An event ends in its only end-of-event word. */
  predicate Framed(e: seq<Word>) {
    e != [] && EndOfEvent(e[|e| - 1]) && forall i :: 0 <= i < |e| - 1 ==> !EndOfEvent(e[i])
  }

  predicate Unfinished(chunk: seq<Word>) {
    forall w :: w in chunk ==> !EndOfEvent(w)
  }

  /** Nothing is lost, added or reordered, every event is framed and the rest is unfinished. */
  lemma {:induction false} CutKeepsStream(chunk: seq<Word>, ws: seq<Word>)
    requires Unfinished(chunk)
    ensures var c := Cut(chunk, ws);
            Concat(c.events) + c.rest == chunk + ws && (forall e :: e in c.events ==> Framed(e)) && Unfinished(c.rest)
    decreases |ws|
  {
    hide EndOfEvent;
    if ws != [] {
      var n := |ws| - 1;
      CutKeepsStream(chunk, ws[..n]);
      var c := Cut(chunk, ws[..n]);
      assert chunk + ws == chunk + ws[..n] + [ws[n]];
      if EndOfEvent(ws[n]) {
        assert (c.events + [c.rest + [ws[n]]])[..|c.events|] == c.events;
        assert Concat(c.events) + (c.rest + [ws[n]]) == Concat(c.events) + c.rest + [ws[n]];
        assert Framed(c.rest + [ws[n]]);
      }
    }
  }

  lemma {:induction false} CutConcat(chunk: seq<Word>, a: seq<Word>, b: seq<Word>)
    ensures var c := Cut(chunk, a);
            var d := Cut(c.rest, b);
            Cut(chunk, a + b) == Cutting(c.events + d.events, d.rest)
    decreases |b|
  {
    if b == [] {
      assert a + b == a;
      assert Cut(chunk, a).events + [] == Cut(chunk, a).events;
    } else {
      var n := |b| - 1;
      assert (a + b)[..|a + b| - 1] == a + b[..n];
      CutConcat(chunk, a, b[..n]);
    }
  }

  lemma {:induction false} CutUnfinished(chunk: seq<Word>, ws: seq<Word>)
    requires Unfinished(ws)
    ensures Cut(chunk, ws) == Cutting([], chunk + ws)
    decreases |ws|
  {
    hide EndOfEvent;
    if ws == [] {
      assert chunk + [] == chunk;
    } else {
      CutUnfinished(chunk, ws[..|ws| - 1]);
      assert chunk + ws[..|ws| - 1] + [ws[|ws| - 1]] == chunk + ws;
    }
  }

  lemma CutOne(e: seq<Word>)
    requires Framed(e)
    ensures Cut([], e) == Cutting([e], [])
  {
    hide EndOfEvent;
    var n := |e| - 1;
    CutUnfinished([], e[..n]);
    assert [] + e[..n] + [e[n]] == e;
    assert [] + [e] == [e];
  }

  /** Framed events written one after another are cut apart again: cutting is the inverse of
      concatenation, so no other cutting of the same stream exists. */
  lemma CutInverts(es: seq<seq<Word>>, rest: seq<Word>)
    requires (forall e :: e in es ==> Framed(e)) && Unfinished(rest)
    ensures Cut([], Concat(es) + rest) == Cutting(es, rest)
    decreases |es|
  {
    hide Cut, Concat, EndOfEvent, Unfinished;
    CutFramed(es);
    CutUnfinished([], rest);
    CutConcat([], Concat(es), rest);
    assert es + [] == es && [] + rest == rest;
  }

  lemma {:induction false} CutFramed(es: seq<seq<Word>>)
    requires forall e :: e in es ==> Framed(e)
    ensures Cut([], Concat(es)) == Cutting(es, [])
    decreases |es|
  {
    hide Cut, Framed;
    if es == [] {
      CutNothing([]);
    } else {
      var n := |es| - 1;
      CutFramed(es[..n]);
      CutOne(es[n]);
      CutConcat([], Concat(es[..n]), es[n]);
      assert es[..n] + [es[n]] == es;
    }
  }

  // ----- many packets -----

  /** The reader after the packets: what it sent and the chunk it keeps. */
  function Receive(ps: seq<Packet>): Cutting {
    if ps == [] then Cutting([], [])
    else
      var r := Receive(ps[..|ps| - 1]);
      var c := Cut(r.rest, Payload(ps[|ps| - 1]));
      Cutting(r.events + c.events, if |c.rest| >= MAX_EVENT_SIZE then [] else c.rest)
  }

  function Stream(ps: seq<Packet>): seq<Word> {
    if ps == [] then [] else Stream(ps[..|ps| - 1]) + Payload(ps[|ps| - 1])
  }

  /** The unfinished words at the boundary after `k` packets, were nothing ever discarded. */
  function Pending(ps: seq<Packet>, k: nat): nat
    requires k <= |ps|
  {
    |Cut([], Stream(ps[..k])).rest|
  }

  /** At no packet boundary has the stream too many unfinished words. */
  predicate NoDiscard(ps: seq<Packet>) {
    forall k :: 0 <= k <= |ps| ==> Pending(ps, k) < MAX_EVENT_SIZE
  }

  lemma NoDiscardStep(ps: seq<Packet>)
    requires ps != []
    ensures NoDiscard(ps) <==> NoDiscard(ps[..|ps| - 1]) && |Cut([], Stream(ps)).rest| < MAX_EVENT_SIZE
  {
    hide Cut, Stream;
    var n := |ps| - 1;
    assert ps[..n + 1] == ps;
    forall k | 0 <= k <= n
      ensures Pending(ps, k) == Pending(ps[..n], k)
    {
      assert ps[..n][..k] == ps[..k];
    }
    assert Pending(ps, n + 1) == |Cut([], Stream(ps)).rest|;
  }

  /** Between packets the chunk is bounded and unfinished, and every event sent is framed. */
  lemma {:induction false} ReceiveBounded(ps: seq<Packet>)
    ensures |Receive(ps).rest| < MAX_EVENT_SIZE && Unfinished(Receive(ps).rest)
    ensures forall e :: e in Receive(ps).events ==> Framed(e)
    decreases |ps|
  {
    hide EndOfEvent, Payload, Framed;
    if ps != [] {
      var n := |ps| - 1;
      ReceiveBounded(ps[..n]);
      CutKeepsStream(Receive(ps[..n]).rest, Payload(ps[n]));
    }
  }

  lemma {:induction false} ConcatConcat(a: seq<seq<Word>>, b: seq<seq<Word>>)
    ensures Concat(a + b) == Concat(a) + Concat(b)
    decreases |b|
  {
    if b == [] {
      assert a + b == a;
    } else {
      assert (a + b)[..|a + b| - 1] == a + b[..|b| - 1];
      ConcatConcat(a, b[..|b| - 1]);
    }
  }

  lemma CutLength(chunk: seq<Word>, ws: seq<Word>)
    requires Unfinished(chunk)
    ensures var c := Cut(chunk, ws); |Concat(c.events)| + |c.rest| == |chunk| + |ws|
  {
    hide Cut, Concat, Unfinished;
    CutKeepsStream(chunk, ws);
    var c := Cut(chunk, ws);
    assert |Concat(c.events) + c.rest| == |chunk + ws|;
  }

  lemma NothingReceived()
    ensures NoDiscard([]) && Receive([]) == Cut([], Stream([])) == Cutting([], [])
  {
    CutNothing([]);
    var none: seq<Packet> := [];
    assert none[..0] == [];
  }

  /** The packets do not matter, only the stream of payload words does, exactly when no packet
      boundary of the stream is oversize; otherwise words are lost. */
  lemma {:induction false} PacketsDoNotMatter(ps: seq<Packet>)
    ensures Receive(ps) == Cut([], Stream(ps)) <==> NoDiscard(ps)
    ensures var r := Receive(ps);
            && |Concat(r.events)| + |r.rest| <= |Stream(ps)|
            && (NoDiscard(ps) <==> |Concat(r.events)| + |r.rest| == |Stream(ps)|)
    decreases |ps|
  {
    hide EndOfEvent, Payload, Cut, NoDiscard, Concat, Unfinished;
    assert Unfinished([]) by { EmptyUnfinished(); }
    CutLength([], Stream(ps));
    if ps == [] {
      NothingReceived();
      ConcatNothing();
    } else {
      var n := |ps| - 1;
      PacketsDoNotMatter(ps[..n]);
      ReceiveBounded(ps[..n]);
      NoDiscardStep(ps);
      var r := Receive(ps[..n]);
      var c := Cut(r.rest, Payload(ps[n]));
      CutLength(r.rest, Payload(ps[n]));
      ConcatConcat(r.events, c.events);
      CutConcat([], Stream(ps[..n]), Payload(ps[n]));
    }
  }

  lemma EmptyUnfinished()
    ensures Unfinished([])
  {}

  lemma ConcatNothing()
    ensures Concat([]) == []
  {}

  /** Any two packetisations of one stream, both without discards, send the same events. */
  lemma SameStreamSameEvents(ps: seq<Packet>, qs: seq<Packet>)
    requires Stream(ps) == Stream(qs) && NoDiscard(ps) && NoDiscard(qs)
    ensures Receive(ps) == Receive(qs)
  {
    hide Cut;
    PacketsDoNotMatter(ps);
    PacketsDoNotMatter(qs);
  }

  /** Packets that carry the payloads of a row have the stream of their words. */
  lemma {:induction false} StreamIsCarried(ps: seq<Packet>, headers: seq<seq<Word>>, payloads: seq<seq<Word>>)
    requires |ps| == |headers| == |payloads|
    requires forall k :: 0 <= k < |ps| ==> Carries(ps[k], headers[k], payloads[k])
    ensures Stream(ps) == Concat(payloads)
    decreases |ps|
  {
    hide Payload, Carries;
    if ps != [] {
      var n := |ps| - 1;
      StreamIsCarried(ps[..n], headers[..n], payloads[..n]);
      CarriedIsPayload(ps[n], headers[n], payloads[n]);
    }
  }

  // ----- a discard -----

  /** The receive buffer for one datagram, in bytes. */
  const RECEIVE_BUFFER: nat := 65_000

  predicate Receivable(ps: seq<Packet>) { forall k :: 0 <= k < |ps| ==> ps[k].len <= RECEIVE_BUFFER }

  /** A packet with these payload words. */
  function PacketOf(ws: seq<Word>): Packet {
    Packet(i => if 2 <= i < 2 + |ws| then ws[i - 2] else 0, 2 * (|ws| + 2))
  }

  lemma PayloadOf(ws: seq<Word>)
    requires ws != [] ==> ws[0] != 0x8080
    ensures Payload(PacketOf(ws)) == ws
  {}

  lemma ReceiveOne(ps: seq<Packet>, p: Packet)
    ensures var r := Receive(ps);
            var c := Cut(r.rest, Payload(p));
            Receive(ps + [p]) == Cutting(r.events + c.events, if |c.rest| >= MAX_EVENT_SIZE then [] else c.rest)
    ensures Stream(ps + [p]) == Stream(ps) + Payload(p)
  {
    hide Cut, Payload;
    assert (ps + [p])[..|ps|] == ps;
  }

  /** When one word is missing to the maximum, the same two words in one packet and in two give
      different events: between the two packets the oversize chunk is lost. */
  lemma DiscardMatters(ps: seq<Packet>, a: Word, w: Word)
    requires |Receive(ps).rest| == MAX_EVENT_SIZE - 1
    requires a != 0x8080 && !EndOfEvent(a) && EndOfEvent(w)
    ensures var r := Receive(ps);
            var two, one := ps + [PacketOf([a])] + [PacketOf([w])], ps + [PacketOf([a, w])];
            && Stream(two) == Stream(one)
            && Receive(two) == Cutting(r.events + [[w]], [])
            && Receive(one) == Cutting(r.events + [r.rest + [a, w]], [])
  {
    hide EndOfEvent, Payload, Receive, Stream;
    var r := Receive(ps);
    WordIsNot(w);
    PayloadOf([a]);
    PayloadOf([w]);
    PayloadOf([a, w]);
    ReceiveOne(ps, PacketOf([a]));
    ReceiveOne(ps + [PacketOf([a])], PacketOf([w]));
    ReceiveOne(ps, PacketOf([a, w]));
    CutTwo(r.rest, a, w);
    assert [w][..0] == [];
    assert Cut([], [w]) == Cutting([[w]], []) by { CutOne([w]); }
    assert Stream(ps) + [a] + [w] == Stream(ps) + [a, w];
    assert r.events + [] == r.events && r.rest + [a] + [w] == r.rest + [a, w];
  }

  lemma WordIsNot(w: Word)
    requires EndOfEvent(w)
    ensures w != 0x8080
  {}

  lemma CutTwo(chunk: seq<Word>, a: Word, w: Word)
    requires !EndOfEvent(a) && EndOfEvent(w)
    ensures Cut(chunk, [a]) == Cutting([], chunk + [a])
    ensures Cut(chunk, [a, w]) == Cutting([chunk + [a, w]], [])
  {
    hide EndOfEvent;
    assert [a, w][..1] == [a] && [a][..0] == [];
    assert chunk + [a] + [w] == chunk + [a, w];
    assert [] + [chunk + [a, w]] == [chunk + [a, w]];
  }

  function Zeros(n: nat): (z: seq<Word>)
    ensures |z| == n
  {
    seq(n, _ => 0)
  }

  /** `n` datagrams of the largest size, filled with zeros. */
  function Filling(n: nat): seq<Packet> { seq(n, _ => PacketOf(Zeros(32_498))) }

  lemma {:induction false} FillingStream(n: nat)
    ensures Stream(Filling(n)) == Zeros(n * 32_498)
    decreases n
  {
    hide Payload;
    if n > 0 {
      FillingStream(n - 1);
      assert Filling(n)[..n - 1] == Filling(n - 1);
      PayloadOf(Zeros(32_498));
    }
  }

  lemma ZerosUnfinished(n: nat)
    ensures Unfinished(Zeros(n))
  {}

  /** 308 datagrams that hold 9 999 999 words without an end of event. */
  function AlmostFull(): seq<Packet> { Filling(307) + [PacketOf(Zeros(23_113))] }

  lemma AlmostFullStream()
    ensures Receivable(AlmostFull()) && Stream(AlmostFull()) == Zeros(MAX_EVENT_SIZE - 1)
  {
    hide Stream, Payload;
    FillingStream(307);
    PayloadOf(Zeros(23_113));
    ReceiveOne(Filling(307), PacketOf(Zeros(23_113)));
  }

  lemma {:induction false} PrefixUnfinished(ps: seq<Packet>, k: nat)
    requires k <= |ps| && Unfinished(Stream(ps))
    ensures Unfinished(Stream(ps[..k])) && |Stream(ps[..k])| <= |Stream(ps)|
    decreases |ps| - k
  {
    hide EndOfEvent, Payload;
    if k < |ps| {
      PrefixUnfinished(ps, k + 1);
      assert ps[..k + 1][..k] == ps[..k];
    } else {
      assert ps[..k] == ps;
    }
  }

  lemma ShortStream(ps: seq<Packet>)
    requires Unfinished(Stream(ps)) && |Stream(ps)| < MAX_EVENT_SIZE
    ensures NoDiscard(ps)
  {
    hide Cut, Stream, Unfinished;
    forall k | 0 <= k <= |ps|
      ensures Pending(ps, k) < MAX_EVENT_SIZE
    {
      PrefixUnfinished(ps, k);
      CutUnfinished([], Stream(ps[..k]));
    }
  }

  /** Datagrams that the reader can receive and for which the cut into packets matters: after
      these, a data word and the end of the event in one more packet give the whole event, and in
      two more packets a single word. */
  lemma DiscardHappens()
    ensures var ps := AlmostFull();
            var two, one := ps + [PacketOf([1])] + [PacketOf([0xC800])], ps + [PacketOf([1, 0xC800])];
            && Receivable(two) && Receivable(one) && Stream(two) == Stream(one)
            && Receive(two) == Cutting([[0xC800]], [])
            && Receive(one) == Cutting([Zeros(MAX_EVENT_SIZE - 1) + [1, 0xC800]], [])
  {
    hide Stream, Receive, Payload, AlmostFull, Cut, Zeros;
    var ps := AlmostFull();
    AlmostFullStream();
    ZerosUnfinished(MAX_EVENT_SIZE - 1);
    ShortStream(ps);
    PacketsDoNotMatter(ps);
    CutUnfinished([], Stream(ps));
    assert [] + Stream(ps) == Stream(ps);
    DiscardMatters(ps, 1, 0xC800);
    var e, f: seq<Word> := [0xC800], Zeros(MAX_EVENT_SIZE - 1) + [1, 0xC800];
    assert [] + [e] == [e] && [] + [f] == [f];
  }
}
