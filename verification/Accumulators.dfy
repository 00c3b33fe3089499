/** What the running lengths and check values mean: they count and fold exactly the words
    consumed since the opening event counter. */
module Accumulators {
  import opened Bytes
  import opened Words
  import opened EventTree
  import opened EventMachine

  /** One dispatch: the transition taken and the words consumed. */
  datatype Entry = Entry(t: nat, ws: seq<Word>)

  /** What the turn at `i` consumes: nothing for an EMPTY word or a zero-length waveform. */
  ghost function LogTurn(m: Machine, mem: Memory, i: nat): seq<Entry> {
    var w := mem(i);
    if Classify(w) == EMPTY || ZeroWave(m.ctl, w) then [] else [Entry(Trans(m.ctl, w), Slice(mem, i, Need(m.ctl, w)))]
  }

  /** A point of a run: the machine, the index and everything consumed so far. */
  datatype Head = Head(m: Machine, i: nat, log: seq<Entry>)

  /** The loop head after `n` turns. */
  ghost function HeadAfter(m: Machine, mem: Memory, i: nat, n: nat, scale: Scale): (h: Head)
    requires Typed(m.ctl, m.zip.open)
    ensures Typed(h.m.ctl, h.m.zip.open)
  {
    if n == 0 then Head(m, i, [])
    else
      var h := HeadAfter(m, mem, i, n - 1, scale);
      var r := Turn(h.m, mem, h.i, scale);
      Head(r.0, r.1, h.log + LogTurn(h.m, mem, h.i))
  }

  function Last(log: seq<Entry>): Entry
    requires log != []
  {
    log[|log| - 1]
  }

  function Before(log: seq<Entry>): seq<Entry>
    requires log != []
  {
    log[..|log| - 1]
  }

  /** The last event counter word, which the next card takes as its own first word. */
  function LastCounter(log: seq<Entry>): seq<Word> {
    if log == [] then [] else
    var e := Last(log);
    if e.t == 2 || e.t == 13 || e.t == 17 then e.ws else LastCounter(Before(log))
  }

  /** The words of the current block that its declared length covers: from its opening
      counter up to, not including, its LENGTH word. */
  function BlockWords(log: seq<Entry>): seq<Word> {
    if log == [] then [] else
    var e := Last(log);
    if e.t == 2 || e.t == 17 then e.ws
    else if 3 <= e.t <= 14 then BlockWords(Before(log)) + e.ws
    else if e.t == 15 then BlockWords(Before(log))
    else []
  }

  /** The words of the current block that its check byte covers: its LENGTH word too. */
  function CheckedWords(log: seq<Entry>): seq<Word> {
    if log != [] && Last(log).t == 15 then BlockWords(log) + Last(log).ws else BlockWords(log)
  }

  /** The words of the current card, from its own event counter up to, not including, LENGTH. */
  function CardWords(log: seq<Entry>): seq<Word> {
    if log == [] then [] else
    var e := Last(log);
    if e.t == 3 then LastCounter(Before(log)) + e.ws
    else if 4 <= e.t <= 10 then CardWords(Before(log)) + e.ws
    else if e.t == 11 then CardWords(Before(log))
    else []
  }

  function XorAll(s: seq<Word>): Word
    requires s != []
  {
    XorFrom(s[0], s[1..])
  }

  lemma XorAllConcat(a: seq<Word>, b: seq<Word>)
    requires a != []
    ensures XorAll(a + b) == XorFrom(XorAll(a), b)
  {
    assert (a + b)[1..] == a[1..] + b;
    XorFromConcat(a[0], a[1..], b);
  }

  /** What check bytes are compared with is the exclusive-or of all bytes of the words. */
  lemma CheckIsByteXor(ws: seq<Word>)
    requires ws != []
    ensures Fold8(XorAll(ws)) == XorFrom(0, BytesOf(ws)) < 256
  {
    hide Fold8, Xor, BytesOf;
    assert ws == [ws[0]] + ws[1..];
    XorFromConcat(0, [ws[0]], ws[1..]);
    XorFromOne(0, ws[0]);
    XorFromZero(ws[0]);
    FoldIsByteXor(ws);
  }

  lemma XorFromZero(w: Word)
    ensures Xor(0, w) == w
  {
    PowersOfBytes();
    XorNothing(16, w);
  }

  predicate InCard(s: State) { s == S2 || s == S3 || s == S4 || s == S5 || s == S6 }

  predicate InBlock(s: State) { s != Idle && s != S10 }

  /** The block length is the number of words consumed since the opening counter. */
  ghost predicate BlockCounted(s: State, a: Acc, log: seq<Entry>) {
    && (s == Idle || (log != [] && s == Target(Last(log).t)))
    && (s == S1 ==> LastCounter(log) == [a.rawec])
    && (InBlock(s) ==> BlockWords(log) != [] && a.blklen == |BlockWords(log)|)
    && (s == S9 ==> Last(log).ws != [] && a.rdBlklen == Low12(Last(log).ws[0]))
  }

  /** The block check value is the exclusive-or of those words and the LENGTH word. */
  ghost predicate BlockChecked(s: State, a: Acc, log: seq<Entry>) {
    InBlock(s) ==> CheckedWords(log) != [] && a.blkcrc == XorAll(CheckedWords(log))
  }

  ghost predicate CardCounted(s: State, a: Acc, log: seq<Entry>) {
    && (InCard(s) ==> CardWords(log) != [] && a.feelen == |CardWords(log)|)
    && (s == S6 ==> log != [] && Last(log).ws != [] && a.rdFeelen == Low12(Last(log).ws[0]))
  }

  ghost predicate CardChecked(s: State, a: Acc, log: seq<Entry>) {
    InCard(s) ==> CardWords(log) != [] && a.feecrc == XorAll(CardWords(log))
  }

  /** The lengths are the numbers of words consumed. */
  ghost predicate Counts(h: Head) {
    var s, a := h.m.ctl.state, h.m.acc;
    BlockCounted(s, a, h.log) && CardCounted(s, a, h.log)
  }

  /** The check values are the exclusive-or of the words consumed. */
  ghost predicate Checks(h: Head) {
    var s, a := h.m.ctl.state, h.m.acc;
    BlockChecked(s, a, h.log) && CardChecked(s, a, h.log)
  }

  lemma LogSnoc(log: seq<Entry>, e: Entry)
    ensures Last(log + [e]) == e && Before(log + [e]) == log
  {}

  lemma BlockStep(c: Control, a: Acc, log: seq<Entry>, ws: seq<Word>)
    requires BlockCounted(c.state, a, log)
    requires ws != [] && Classify(ws[0]) != EMPTY && |ws| == Need(c, ws[0])
    ensures var e := Entry(Trans(c, ws[0]), ws);
            var s', a' := Target(e.t), NextAcc(c, a, ws);
            && BlockCounted(s', a', log + [e])
            && (BlockChecked(c.state, a, log) ==> BlockChecked(s', a', log + [e]))
  {
    hide Xor, XorFrom, Classify, Transition;
    var t := Trans(c, ws[0]);
    TransitionSource(Classify(ws[0]), c.state);
    LogSnoc(log, Entry(t, ws));
    assert !OpensPayload(c, ws[0]) ==> ws == [ws[0]];
    if t == 2 || t == 17 {
      XorAllOne(ws[0]);
    } else if 3 <= t <= 14 {
      XorAllConcat(BlockWords(log), ws);
    } else if t == 15 {
      XorAllConcat(BlockWords(log), ws);
      XorFromOne(a.blkcrc, ws[0]);
    }
  }

  lemma XorAllOne(w: Word)
    ensures XorAll([w]) == w
  {
    assert [w][1..] == [];
  }

  lemma CardStep(c: Control, a: Acc, log: seq<Entry>, ws: seq<Word>)
    requires BlockCounted(c.state, a, log) && CardCounted(c.state, a, log)
    requires ws != [] && Classify(ws[0]) != EMPTY && |ws| == Need(c, ws[0])
    ensures var e := Entry(Trans(c, ws[0]), ws);
            var s', a' := Target(e.t), NextAcc(c, a, ws);
            && CardCounted(s', a', log + [e])
            && (CardChecked(c.state, a, log) ==> CardChecked(s', a', log + [e]))
  {
    hide Xor, XorFrom, Classify, Transition, BlockWords;
    var t := Trans(c, ws[0]);
    TransitionSource(Classify(ws[0]), c.state);
    LogSnoc(log, Entry(t, ws));
    assert !OpensPayload(c, ws[0]) ==> ws == [ws[0]];
    if t == 3 {
      XorAllOne(a.rawec);
      XorFromOne(a.rawec, ws[0]);
      XorAllConcat([a.rawec], ws);
    } else if 4 <= t <= 10 {
      XorAllConcat(CardWords(log), ws);
    }
  }

  /** The parts of a turn on a word that is consumed. */
  lemma TurnParts(m: Machine, mem: Memory, i: nat, scale: Scale)
    requires Typed(m.ctl, m.zip.open)
    requires Classify(mem(i)) != EMPTY && !ZeroWave(m.ctl, mem(i))
    ensures var n := Need(m.ctl, mem(i));
            var (m', i') := Turn(m, mem, i, scale);
            && i' == i + n && m'.ctl == NextControl(m.ctl, mem(i))
            && m'.acc == NextAcc(m.ctl, m.acc, Slice(mem, i, n))
            && m'.ctl.state == Target(Trans(m.ctl, mem(i)))
  {
    hide Classify, Transition, NextZip, NextFlags, NextReport, NextAcc;
    assert Slice(mem, i, Need(m.ctl, mem(i)))[0] == mem(i);
    TransitionSource(Classify(mem(i)), m.ctl.state);
  }

  /** A turn keeps the lengths; it keeps the check values too unless it meets a zero-length
      waveform, and then exactly when the values saved by an earlier waveform are the current ones. */
  lemma TurnCounts(h: Head, mem: Memory, scale: Scale)
    requires Typed(h.m.ctl, h.m.zip.open) && Counts(h)
    ensures var r := Turn(h.m, mem, h.i, scale);
            var h' := Head(r.0, r.1, h.log + LogTurn(h.m, mem, h.i));
            && Counts(h')
            && (Checks(h) && !ZeroWave(h.m.ctl, mem(h.i)) ==> Checks(h'))
            && (Checks(h) && ZeroWave(h.m.ctl, mem(h.i)) ==>
                (Checks(h') <==> h.m.acc.saveBlkcrc == h.m.acc.blkcrc && h.m.acc.saveFeecrc == h.m.acc.feecrc))
  {
    hide Classify, Transition, Dispatch, NextAcc, NextControl, Xor, XorFrom, BlockWords, CardWords;
    var w := mem(h.i);
    if Classify(w) == EMPTY || ZeroWave(h.m.ctl, w) {
      assert h.log + [] == h.log;
    } else {
      TurnParts(h.m, mem, h.i, scale);
      var ws := Slice(mem, h.i, Need(h.m.ctl, w));
      assert ws[0] == w;
      BlockStep(h.m.ctl, h.m.acc, h.log, ws);
      CardStep(h.m.ctl, h.m.acc, h.log, ws);
    }
  }

  /** The accumulators are right at every loop head of every run that starts idle: the
      lengths always, the check values as long as no zero-length waveform has been met. */
  lemma {:induction false} HeadsCount(m: Machine, mem: Memory, i: nat, n: nat, scale: Scale)
    requires Typed(m.ctl, m.zip.open) && m.ctl.state == Idle
    ensures Counts(HeadAfter(m, mem, i, n, scale))
    ensures (forall k: nat :: k < n ==> var h := HeadAfter(m, mem, i, k, scale); !ZeroWave(h.m.ctl, mem(h.i))) ==>
            Checks(HeadAfter(m, mem, i, n, scale))
  {
    hide Classify, Transition, Dispatch, NextAcc, NextControl, Xor, XorFrom, Turn;
    if n > 0 {
      HeadsCount(m, mem, i, n - 1, scale);
      TurnCounts(HeadAfter(m, mem, i, n - 1, scale), mem, scale);
    }
  }

  /** A zero-length waveform that is met here restores the values the accumulators have anyway. */
  ghost predicate RestoresSame(m: Machine, mem: Memory, i: nat, k: nat, scale: Scale)
    requires Typed(m.ctl, m.zip.open)
  {
    var h := HeadAfter(m, mem, i, k, scale);
    ZeroWave(h.m.ctl, mem(h.i)) ==> h.m.acc.saveBlkcrc == h.m.acc.blkcrc && h.m.acc.saveFeecrc == h.m.acc.feecrc
  }

  ghost predicate ChecksAt(m: Machine, mem: Memory, i: nat, k: nat, scale: Scale)
    requires Typed(m.ctl, m.zip.open)
  {
    Checks(HeadAfter(m, mem, i, k, scale))
  }

  /** The check values are right at every loop head of a run that starts idle exactly when every
      zero-length waveform on the way restores the values the accumulators have anyway. */
  lemma {:induction false} ChecksExact(m: Machine, mem: Memory, i: nat, n: nat, scale: Scale)
    requires Typed(m.ctl, m.zip.open) && m.ctl.state == Idle
    ensures (forall k :: 0 <= k <= n ==> ChecksAt(m, mem, i, k, scale)) <==>
            (forall k :: 0 <= k < n ==> RestoresSame(m, mem, i, k, scale))
  {
    hide ChecksAt, RestoresSame;
    if n == 0 {
      ChecksStart(m, mem, i, scale);
    } else {
      ChecksExact(m, mem, i, n - 1, scale);
      if ChecksAt(m, mem, i, n - 1, scale) {
        ChecksTurn(m, mem, i, n, scale);
      }
    }
  }

  lemma ChecksTurn(m: Machine, mem: Memory, i: nat, n: nat, scale: Scale)
    requires Typed(m.ctl, m.zip.open) && m.ctl.state == Idle && n > 0 && ChecksAt(m, mem, i, n - 1, scale)
    ensures ChecksAt(m, mem, i, n, scale) <==> RestoresSame(m, mem, i, n - 1, scale)
  {
    hide Classify, Transition, Dispatch, NextAcc, NextControl, Xor, XorFrom, Turn, Checks, Counts;
    HeadsCount(m, mem, i, n - 1, scale);
    TurnCounts(HeadAfter(m, mem, i, n - 1, scale), mem, scale);
  }

  lemma ChecksStart(m: Machine, mem: Memory, i: nat, scale: Scale)
    requires Typed(m.ctl, m.zip.open) && m.ctl.state == Idle
    ensures ChecksAt(m, mem, i, 0, scale)
  {}

  /** The turn at this head dispatches a waveform with samples. */
  ghost predicate WaveTurn(h: Head, mem: Memory) {
    OpensPayload(h.m.ctl, mem(h.i)) && h.m.ctl.tag == TAG_WAVEFORM && h.m.ctl.rdWflen > 0
  }

  /** The turns up to the end of the last waveform with samples, none when there is none. */
  ghost function WaveEnd(m: Machine, mem: Memory, i: nat, n: nat, scale: Scale): (e: nat)
    requires Typed(m.ctl, m.zip.open)
    ensures e <= n
  {
    if n == 0 then 0
    else if WaveTurn(HeadAfter(m, mem, i, n - 1, scale), mem) then n
    else WaveEnd(m, mem, i, n - 1, scale)
  }

  lemma SavedByTurn(m: Machine, mem: Memory, i: nat, scale: Scale)
    requires Typed(m.ctl, m.zip.open)
    ensures var a := Turn(m, mem, i, scale).0.acc;
            if WaveTurn(Head(m, i, []), mem) then a.saveBlkcrc == a.blkcrc && a.saveFeecrc == a.feecrc
            else a.saveBlkcrc == m.acc.saveBlkcrc && a.saveFeecrc == m.acc.saveFeecrc
  {
    hide Xor, XorFrom, NextZip, NextFlags, NextReport, Transition;
    TransitionSource(Classify(mem(i)), m.ctl.state);
  }

  /** The saved values are the check values at the end of the last waveform with samples, from
      whatever event, or those the machine started with. */
  lemma {:induction false} SavedAreOfLastWaveform(m: Machine, mem: Memory, i: nat, n: nat, scale: Scale)
    requires Typed(m.ctl, m.zip.open)
    ensures var e := WaveEnd(m, mem, i, n, scale);
            var a, b := HeadAfter(m, mem, i, n, scale).m.acc, HeadAfter(m, mem, i, e, scale).m.acc;
            && (e > 0 ==> a.saveBlkcrc == b.blkcrc && a.saveFeecrc == b.feecrc)
            && (e == 0 ==> a.saveBlkcrc == m.acc.saveBlkcrc && a.saveFeecrc == m.acc.saveFeecrc)
  {
    hide Turn, WaveTurn;
    if n > 0 {
      SavedAreOfLastWaveform(m, mem, i, n - 1, scale);
      var h := HeadAfter(m, mem, i, n - 1, scale);
      SavedByTurn(h.m, mem, h.i, scale);
      assert WaveTurn(h, mem) == WaveTurn(Head(h.m, h.i, []), mem) by { SameWaveTurn(h, mem); }
    }
  }

  lemma SameWaveTurn(h: Head, mem: Memory)
    ensures WaveTurn(h, mem) == WaveTurn(Head(h.m, h.i, []), mem)
  {}

  /** A block that announces a waveform of length zero. */
  const ZERO_WAVEFORM: seq<Word> := [0xE000, 0x9800, 1, 0x9000, TAG_WAVEFORM, 0, 5]

  lemma SingleStep(m: Machine, mem: Memory, k: nat, scale: Scale)
    requires Typed(m.ctl, m.zip.open)
    requires var h := HeadAfter(m, mem, 0, k, scale); h.i == k && !OpensPayload(h.m.ctl, mem(k))
    requires Classify(mem(k)) != EMPTY
    ensures var h, h' := HeadAfter(m, mem, 0, k, scale), HeadAfter(m, mem, 0, k + 1, scale);
            && h'.i == k + 1 && h'.m.ctl == NextControl(h.m.ctl, mem(k))
            && h'.m.acc == NextAcc(h.m.ctl, h.m.acc, [mem(k)])
  {
    hide Classify, Transition, Turn, NextAcc, NextControl;
    TurnParts(HeadAfter(m, mem, 0, k, scale).m, mem, k, scale);
    SliceTail(mem, k, 1);
  }

  lemma ZeroWaveformClasses()
    ensures Classify(0xE000) == EC && Classify(0x9800) == TELID && Classify(1) == DATA && Classify(0x9000) == DETID
  {}

  lemma ZeroWaveformXors()
    ensures Xor(0xE000, 0x9800) == 0x7800 && Xor(0x7800, 1) == 0x7801 && Xor(0x7801, 0x9000) == 0xE801
    ensures Xor(0xE801, 0x7005) == 0x9804 && Xor(0x9804, 0) == 0x9804
  {
    hide XorBits;
    XorHex(4, 14, 0, 0, 0, 9, 8, 0, 0);
    XorHex(4, 7, 8, 0, 0, 0, 0, 0, 1);
    XorHex(4, 7, 8, 0, 1, 9, 0, 0, 0);
    XorHex(4, 14, 8, 0, 1, 7, 0, 0, 5);
    XorHex(4, 9, 8, 0, 4, 0, 0, 0, 0);
    DigitXors();
  }

  function Differ(d: nat, e: nat): nat { if d != e then 1 else 0 }

  lemma XorBit(n: nat, a: nat, d: nat, b: nat, e: nat)
    requires d < 2 && e < 2
    ensures XorBits(n + 1, 2 * a + d, 2 * b + e) == 2 * XorBits(n, a, b) + Differ(d, e)
  {
    hide XorBits;
    XorStep(n + 1, 2 * a + d, 2 * b + e);
    assert (2 * a + d) / 2 == a && (2 * b + e) / 2 == b;
  }

  lemma XorNone(n: nat)
    requires n == 0
    ensures XorBits(n, 0, 0) == 0
  {}

  /** Two digits, bit by bit. */
  lemma DigitXor(n: nat, a3: nat, a2: nat, a1: nat, a0: nat, b3: nat, b2: nat, b1: nat, b0: nat)
    requires n == 0 && a3 < 2 && a2 < 2 && a1 < 2 && a0 < 2 && b3 < 2 && b2 < 2 && b1 < 2 && b0 < 2
    ensures XorBits(n + 4, 8 * a3 + 4 * a2 + 2 * a1 + a0, 8 * b3 + 4 * b2 + 2 * b1 + b0)
         == 8 * Differ(a3, b3) + 4 * Differ(a2, b2) + 2 * Differ(a1, b1) + Differ(a0, b0)
  {
    hide XorBits, Differ;
    XorNone(n);
    XorBit(n, 0, a3, 0, b3);
    XorBit(n + 1, a3, a2, b3, b2);
    XorBit(n + 2, 2 * a3 + a2, a1, 2 * b3 + b2, b1);
    XorBit(n + 3, 4 * a3 + 2 * a2 + a1, a0, 4 * b3 + 2 * b2 + b1, b0);
  }

  lemma DigitXors()
    ensures XorBits(4, 14, 9) == 7 && XorBits(4, 0, 8) == 8 && XorBits(4, 0, 0) == 0 && XorBits(4, 7, 0) == 7
    ensures XorBits(4, 8, 0) == 8 && XorBits(4, 0, 1) == 1 && XorBits(4, 7, 9) == 14 && XorBits(4, 1, 0) == 1
    ensures XorBits(4, 14, 7) == 9 && XorBits(4, 1, 5) == 4 && XorBits(4, 9, 0) == 9 && XorBits(4, 4, 0) == 4
  {
    hide XorBits;
    DigitXor(0, 1, 1, 1, 0, 1, 0, 0, 1);
    DigitXor(0, 0, 0, 0, 0, 1, 0, 0, 0);
    DigitXor(0, 0, 0, 0, 0, 0, 0, 0, 0);
    DigitXor(0, 0, 1, 1, 1, 0, 0, 0, 0);
    DigitXor(0, 1, 0, 0, 0, 0, 0, 0, 0);
    DigitXor(0, 0, 0, 0, 0, 0, 0, 0, 1);
    DigitXor(0, 0, 1, 1, 1, 1, 0, 0, 1);
    DigitXor(0, 0, 0, 0, 1, 0, 0, 0, 0);
    DigitXor(0, 1, 1, 1, 0, 0, 1, 1, 1);
    DigitXor(0, 0, 0, 0, 1, 0, 1, 0, 1);
    DigitXor(0, 1, 0, 0, 1, 0, 0, 0, 0);
    DigitXor(0, 0, 1, 0, 0, 0, 0, 0, 0);
  }

  /** A turn on a single word of a hit, seen through the fields that matter below. */
  lemma HitStep(m: Machine, mem: Memory, k: nat, scale: Scale, t: nat)
    requires Typed(m.ctl, m.zip.open)
    requires var h := HeadAfter(m, mem, 0, k, scale);
             h.i == k && !OpensPayload(h.m.ctl, mem(k)) && Trans(h.m.ctl, mem(k)) == t && 3 <= t <= 8
    requires Classify(mem(k)) != EMPTY
    ensures var h, h' := HeadAfter(m, mem, 0, k, scale), HeadAfter(m, mem, 0, k + 1, scale);
            && h'.i == k + 1 && h'.m.ctl == NextControl(h.m.ctl, mem(k))
            && h'.m.acc.saveBlkcrc == h.m.acc.saveBlkcrc
            && h'.m.acc.blkcrc == Xor(h.m.acc.blkcrc, mem(k))
  {
    hide Classify, Transition, Turn, NextControl, Xor, XorFrom;
    SingleStep(m, mem, k, scale);
    XorFromOne(HeadAfter(m, mem, 0, k, scale).m.acc.blkcrc, mem(k));
  }

  lemma ZeroWaveformOpening(m: Machine, mem: Memory, scale: Scale)
    requires Typed(m.ctl, m.zip.open) && m.ctl.state == Idle && m.acc.saveBlkcrc == 0
    requires mem(0) == 0xE000 && mem(1) == 0x9800
    ensures HeadAfter(m, mem, 0, 0, scale).i == 0
    ensures var h := HeadAfter(m, mem, 0, 1, scale); h.i == 1 && h.m.ctl.state == S1
    ensures var h := HeadAfter(m, mem, 0, 2, scale);
            h.i == 2 && h.m.ctl.state == S2 && h.m.acc.saveBlkcrc == 0 && h.m.acc.blkcrc == 0x7800
  {
    hide Xor, XorFrom, Turn, Classify;
    ZeroWaveformXors();
    ZeroWaveformClasses();
    SingleStep(m, mem, 0, scale);
    HitStep(m, mem, 1, scale, 3);
  }

  lemma ZeroWaveformHeader(m: Machine, mem: Memory, scale: Scale)
    requires Typed(m.ctl, m.zip.open) && m.ctl.state == Idle && m.acc.saveBlkcrc == 0
    requires mem(0) == 0xE000 && mem(1) == 0x9800 && mem(2) == 1 && mem(3) == 0x9000
    ensures forall k :: 0 <= k < 4 ==>
      var h := HeadAfter(m, mem, 0, k, scale); h.i == k && h.m.ctl.state != S5
    ensures var h := HeadAfter(m, mem, 0, 4, scale);
            h.i == 4 && h.m.ctl.state == S4 && h.m.acc.saveBlkcrc == 0 && h.m.acc.blkcrc == 0xE801
  {
    hide Xor, XorFrom, Turn, Classify;
    ZeroWaveformOpening(m, mem, scale);
    ZeroWaveformXors();
    ZeroWaveformClasses();
    HitStep(m, mem, 2, scale, 4);
    HitStep(m, mem, 3, scale, 6);
  }

  lemma ZeroWaveformRecord(m: Machine, mem: Memory, scale: Scale)
    requires Typed(m.ctl, m.zip.open) && m.ctl.state == Idle && m.acc.saveBlkcrc == 0
    requires forall k :: 0 <= k < 7 ==> mem(k) == ZERO_WAVEFORM[k]
    ensures forall k :: 4 <= k < 6 ==> !Pending(HeadAfter(m, mem, 0, k, scale).m.ctl)
    ensures var h := HeadAfter(m, mem, 0, 6, scale);
            h.i == 6 && ZeroWave(h.m.ctl, mem(6)) && h.m.acc.saveBlkcrc == 0 && h.m.acc.blkcrc == 0x9804
  {
    hide Xor, XorFrom, Turn;
    assert mem(0) == 0xE000 && mem(1) == 0x9800 && mem(2) == 1 && mem(3) == 0x9000;
    ZeroWaveformHeader(m, mem, scale);
    ZeroWaveformXors();
    HitStep(m, mem, 4, scale, 7);
    HitStep(m, mem, 5, scale, 8);
  }

  /** On that block the check values are lost: they come back as the zero saved initially,
      while the words consumed fold to 0x9804. */
  lemma ZeroWaveformLosesChecks(m: Machine, mem: Memory, scale: Scale)
    requires Typed(m.ctl, m.zip.open) && m.ctl.state == Idle && m.acc.saveBlkcrc == 0
    requires forall k :: 0 <= k < 7 ==> mem(k) == ZERO_WAVEFORM[k]
    ensures var h := HeadAfter(m, mem, 0, 7, scale);
            Counts(h) && !Checks(h)
  {
    hide Xor, XorFrom, Turn, Classify, BlockWords, CardWords;
    assert mem(0) == 0xE000 && mem(1) == 0x9800 && mem(2) == 1 && mem(3) == 0x9000;
    ZeroWaveformHeader(m, mem, scale);
    ZeroWaveformRecord(m, mem, scale);
    HeadsCount(m, mem, 0, 6, scale);
    TurnCounts(HeadAfter(m, mem, 0, 6, scale), mem, scale);
  }
}
