/** Length-framed messages in a byte stream, and directory names with a run number. */
module Framing {
  import opened Bytes

  type Message = seq<Byte>

  // ----- frames -----

  /** A 32-bit length, low byte first. */
  function LittleEndian32(n: nat): seq<Byte> {
    [n % 256, n / 256 % 256, n / 0x1_0000 % 256, n / 0x100_0000 % 256]
  }

  function ReadLittleEndian32(s: seq<Byte>): nat
    requires |s| >= 4
  {
    var b0: int, b1: int, b2: int, b3: int := s[0], s[1], s[2], s[3];
    b0 + b1 * 256 + b2 * 0x1_0000 + b3 * 0x100_0000
  }

  lemma LittleEndianRoundTrip(n: nat)
    ensures ReadLittleEndian32(LittleEndian32(n)) == n % 0x1_0000_0000
  {
    assert n / 0x1_0000 == n / 256 / 256 && n / 0x100_0000 == n / 256 / 256 / 256;
    assert n / 0x1_0000_0000 == n / 256 / 256 / 256 / 256;
  }

  /** The low byte comes first. */
  lemma LowByteFirst(b0: Byte, b1: Byte, b2: Byte, b3: Byte)
    ensures LittleEndian32(b0 + 256 * (b1 + 256 * (b2 + 256 * b3))) == [b0, b1, b2, b3]
    ensures ReadLittleEndian32([b0, b1, b2, b3]) == b0 + 256 * (b1 + 256 * (b2 + 256 * b3))
  {
    var n2 := b2 + 256 * b3;
    var n1 := b1 + 256 * n2;
    var n := b0 + 256 * n1;
    assert n / 256 == n1 && n1 / 256 == n2 && n2 / 256 == b3;
    assert n / 0x1_0000 == n / 256 / 256 && n / 0x100_0000 == n / 256 / 256 / 256;
  }

  function Frame(m: Message): seq<Byte> { LittleEndian32(|m|) + m }

  function Frames(ms: seq<Message>): seq<Byte> {
    if ms == [] then [] else Frames(ms[..|ms| - 1]) + Frame(ms[|ms| - 1])
  }

  /** Reading frames until one is empty or incomplete. */
  function Unframe(s: seq<Byte>): seq<Message>
    decreases |s|
  {
    if |s| < 4 then []
    else
      var n := ReadLittleEndian32(s);
      if n == 0 || |s| < 4 + n then [] else [s[4..4 + n]] + Unframe(s[4 + n..])
  }

  /** Messages whose length a frame can carry. */
  predicate Framable(m: Message) { |m| < 0x1_0000_0000 }

  lemma UnframeOne(m: Message, rest: seq<Byte>)
    requires Framable(m) && m != []
    ensures Unframe(Frame(m) + rest) == [m] + Unframe(rest)
  {
    hide ReadLittleEndian32;
    var s := Frame(m) + rest;
    FrameHead(m, rest);
    assert |s| == 4 + |m| + |rest| && s[4..4 + |m|] == m && s[4 + |m|..] == rest;
  }

  lemma FrameHead(m: Message, rest: seq<Byte>)
    requires Framable(m)
    ensures ReadLittleEndian32(Frame(m) + rest) == |m|
  {
    var s, b := Frame(m) + rest, LittleEndian32(|m|);
    LittleEndianRoundTrip(|m|);
    assert s[0] == b[0] && s[1] == b[1] && s[2] == b[2] && s[3] == b[3];
  }

  lemma {:induction false} FramesConcat(a: seq<Message>, b: seq<Message>)
    ensures Frames(a + b) == Frames(a) + Frames(b)
    decreases |b|
  {
    hide Frame;
    if b == [] {
      assert a + b == a;
    } else {
      assert (a + b)[..|a + b| - 1] == a + b[..|b| - 1];
      FramesConcat(a, b[..|b| - 1]);
    }
  }

  lemma FramesSnoc(ms: seq<Message>, m: Message)
    ensures Frames(ms + [m]) == Frames(ms) + Frame(m)
  {
    assert (ms + [m])[..|ms|] == ms;
  }

  /** The messages in front of the first empty one. */
  function BeforeEmpty(ms: seq<Message>): seq<Message> {
    if ms == [] || ms[0] == [] then [] else [ms[0]] + BeforeEmpty(ms[1..])
  }

  lemma {:induction false} BeforeEmptyIsAll(ms: seq<Message>)
    ensures |BeforeEmpty(ms)| <= |ms|
    ensures BeforeEmpty(ms) == ms <==> |BeforeEmpty(ms)| == |ms|
    ensures BeforeEmpty(ms) == ms <==> [] !in ms
    decreases |ms|
  {
    if ms != [] {
      BeforeEmptyIsAll(ms[1..]);
      assert ms == [ms[0]] + ms[1..];
    }
  }

  lemma FramesFront(m: Message, ms: seq<Message>)
    ensures Frames([m] + ms) == Frame(m) + Frames(ms)
  {
    hide Frame;
    FramesConcat([m], ms);
    assert [m][..0] == [] && Frames([m]) == Frames([]) + Frame(m) == Frame(m);
  }

  /** Reading gives the messages in front of the first empty one, each whole. */
  lemma {:induction false} UnframeBeforeEmpty(ms: seq<Message>)
    requires forall m :: m in ms ==> Framable(m)
    ensures Unframe(Frames(ms)) == BeforeEmpty(ms)
    decreases |ms|
  {
    hide Frame, Unframe;
    if ms == [] {
      UnframeNothing();
    } else {
      assert ms == [ms[0]] + ms[1..];
      FramesFront(ms[0], ms[1..]);
      if ms[0] == [] {
        EmptyMessageHidesRest(Frames(ms[1..]));
      } else {
        UnframeBeforeEmpty(ms[1..]);
        UnframeOne(ms[0], Frames(ms[1..]));
      }
    }
  }

  /** What was framed is read back exactly when no message is empty. */
  lemma UnframeFrames(ms: seq<Message>)
    requires forall m :: m in ms ==> Framable(m)
    ensures Unframe(Frames(ms)) == ms <==> [] !in ms
  {
    hide Frames, Unframe;
    UnframeBeforeEmpty(ms);
    BeforeEmptyIsAll(ms);
  }

  lemma UnframeNothing()
    ensures Unframe([]) == []
  {}

  /** A frame of length zero ends the reading: it is not a message and hides all that follows. */
  lemma EmptyMessageHidesRest(rest: seq<Byte>)
    ensures Unframe(Frame([]) + rest) == []
  {
    var s := Frame([]) + rest;
    assert s[0] == 0 && s[1] == 0 && s[2] == 0 && s[3] == 0;
  }

  // ----- directory names -----

  predicate IsDigit(c: char) { '0' <= c <= '9' }

  function DigitChar(d: nat): (c: char)
    requires d < 10
    ensures IsDigit(c) && (c as int) - ('0' as int) == d
  {
    ('0' as int + d) as char
  }

  /** Decimal digits, most significant first; zero has one digit. */
  function Decimal(n: nat): (s: string)
    ensures s != [] && forall c :: c in s ==> IsDigit(c)
  {
    if n < 10 then [DigitChar(n)] else Decimal(n / 10) + [DigitChar(n % 10)]
  }

  /** Filled with zeros on the left to six characters. */
  function Padded(s: string): string
    decreases 6 - |s|
  {
    if |s| >= 6 then s else Padded(['0'] + s)
  }

  function DirName(runtag: string, id: nat): string { runtag + Padded(Decimal(id)) }

  /** The number spelled by leading digits. */
  function Number(s: string): nat {
    if s == [] then 0
    else
      var c := s[|s| - 1];
      Number(s[..|s| - 1]) * 10 + if IsDigit(c) then (c as int) - ('0' as int) else 0
  }

  function SkipNonDigits(s: string): string {
    if s == [] || IsDigit(s[0]) then s else SkipNonDigits(s[1..])
  }

  function TakeDigits(s: string): string {
    if s == [] || !IsDigit(s[0]) then [] else [s[0]] + TakeDigits(s[1..])
  }

  /** The scan of a name: at least one character that is no digit, then a number. */
  function ScanId(name: string): (r: seq<nat>)
    ensures |r| <= 1
  {
    var rest := SkipNonDigits(name);
    if |rest| == |name| || rest == [] then [] else [Number(TakeDigits(rest))]
  }

  /** One or more characters that are no digits, followed by nothing but zeros. */
  predicate Scannable(tag: string) {
    var rest := SkipNonDigits(tag);
    |rest| < |tag| && forall c :: c in rest ==> c == '0'
  }

  lemma {:induction false} NumberOfDecimal(n: nat)
    ensures Number(Decimal(n)) == n
  {
    if n < 10 {
      var s := Decimal(n);
      assert s[..0] == [];
      assert Number(s[..0]) == 0;
    } else {
      NumberOfDecimal(n / 10);
      var s := Decimal(n);
      assert s[..|s| - 1] == Decimal(n / 10);
    }
  }

  lemma {:induction false} LeadingZero(s: string)
    ensures Number(['0'] + s) == Number(s)
    decreases |s|
  {
    var z := ['0'] + s;
    if s == [] {
      assert z[..0] == [];
      assert Number(z[..0]) == 0;
    } else {
      assert z[..|z| - 1] == ['0'] + s[..|s| - 1];
      LeadingZero(s[..|s| - 1]);
    }
  }

  lemma {:induction false} PaddedNumber(s: string)
    requires s != [] && forall c :: c in s ==> IsDigit(c)
    ensures Number(Padded(s)) == Number(s)
    ensures Padded(s) != [] && forall c :: c in Padded(s) ==> IsDigit(c)
    decreases 6 - |s|
  {
    if |s| < 6 {
      LeadingZero(s);
      PaddedNumber(['0'] + s);
    }
  }

  lemma {:induction false} SkipSuffix(tag: string, digits: string)
    requires digits != [] && IsDigit(digits[0])
    ensures SkipNonDigits(tag + digits) == SkipNonDigits(tag) + digits
    decreases |tag|
  {
    if tag == [] {
      assert tag + digits == digits && SkipNonDigits(tag) == [];
    } else {
      assert (tag + digits)[1..] == tag[1..] + digits;
      SkipSuffix(tag[1..], digits);
    }
  }

  lemma {:induction false} SkipShortens(s: string)
    ensures |SkipNonDigits(s)| <= |s| && (SkipNonDigits(s) != [] ==> IsDigit(SkipNonDigits(s)[0]))
    decreases |s|
  {
    if s != [] {
      SkipShortens(s[1..]);
    }
  }

  lemma {:induction false} TakeAll(s: string)
    requires forall c :: c in s ==> IsDigit(c)
    ensures TakeDigits(s) == s
    decreases |s|
  {
    if s != [] {
      TakeAll(s[1..]);
    }
  }

  lemma {:induction false} TakeStops(s: string, t: string)
    requires exists c :: c in s && !IsDigit(c)
    ensures TakeDigits(s + t) == TakeDigits(s)
    decreases |s|
  {
    if IsDigit(s[0]) {
      assert s == [s[0]] + s[1..] && (s + t)[1..] == s[1..] + t;
      TakeStops(s[1..], t);
    }
  }

  lemma {:induction false} ZerosThen(zeros: string, s: string)
    requires forall c :: c in zeros ==> c == '0'
    ensures Number(zeros + s) == Number(s)
    decreases |zeros|
  {
    if zeros == [] {
      assert zeros + s == s;
    } else {
      assert zeros[0] in zeros && zeros == [zeros[0]] + zeros[1..];
      forall c | c in zeros[1..]
        ensures c == '0'
      {
        assert c in zeros;
      }
      ZerosThen(zeros[1..], s);
      assert zeros + s == ['0'] + (zeros[1..] + s);
      LeadingZero(zeros[1..] + s);
    }
  }

  lemma {:induction false} NumberAppend(s: string, t: string)
    requires forall c :: c in s + t ==> IsDigit(c)
    ensures Number(s + t) >= Number(s)
    decreases |t|
  {
    if t == [] {
      assert s + t == s;
    } else {
      assert (s + t)[..|s + t| - 1] == s + t[..|t| - 1];
      NumberAppend(s, t[..|t| - 1]);
    }
  }

  lemma {:induction false} NumberPositive(s: string, t: string)
    requires (forall c :: c in s + t ==> IsDigit(c)) && exists c :: c in s && c != '0'
    ensures Number(s + t) > 0
    decreases |s|
  {
    var n := |s| - 1;
    if s[n] != '0' {
      assert s[n] in s + t && s == s[..n] + [s[n]];
      assert IsDigit(s[n]);
      NumberSnoc(s[..n], s[n]);
      NumberAppend(s, t);
    } else {
      assert s + t == s[..n] + ([s[n]] + t);
      var i :| 0 <= i < |s| && s[i] != '0';
      assert s[..n][i] == s[i] && s[i] in s[..n];
      NumberPositive(s[..n], [s[n]] + t);
    }
  }

  lemma PaddedDigits(id: nat)
    ensures var d := Padded(Decimal(id)); d != [] && IsDigit(d[0]) && (forall c :: c in d ==> IsDigit(c)) && Number(d) == id
  {
    NumberOfDecimal(id);
    PaddedNumber(Decimal(id));
    var d := Padded(Decimal(id));
    assert d[0] in d;
  }

  predicate AllDigits(s: string) { forall c :: c in s ==> IsDigit(c) }

  predicate NoDigits(s: string) { forall c :: c in s ==> !IsDigit(c) }

  lemma {:induction false} SkipToDigit(a: string, b: string)
    requires NoDigits(a) && (b == [] || IsDigit(b[0]))
    ensures SkipNonDigits(a + b) == b
    decreases |a|
  {
    if a == [] {
      assert a + b == b;
    } else {
      assert a[0] in a && (a + b)[1..] == a[1..] + b;
      SkipToDigit(a[1..], b);
    }
  }

  lemma {:induction false} TakeToNonDigit(d: string, rest: string)
    requires AllDigits(d) && (rest == [] || !IsDigit(rest[0]))
    ensures TakeDigits(d + rest) == d
    decreases |d|
  {
    if d == [] {
      assert d + rest == rest;
    } else {
      assert d[0] in d && (d + rest)[1..] == d[1..] + rest;
      TakeToNonDigit(d[1..], rest);
    }
  }

  /** The scan reads the digits behind characters that are none, whatever follows. */
  lemma ScanReads(a: string, d: string, rest: string)
    requires a != [] && NoDigits(a) && d != [] && AllDigits(d) && (rest == [] || !IsDigit(rest[0]))
    ensures ScanId(a + d + rest) == [Number(d)]
  {
    hide Number;
    assert a + d + rest == a + (d + rest) && d[0] in d;
    SkipToDigit(a, d + rest);
    TakeToNonDigit(d, rest);
  }

  lemma {:induction false} SkipAll(name: string)
    ensures SkipNonDigits(name) == [] <==> NoDigits(name)
    ensures |SkipNonDigits(name)| == |name| <==> name == [] || IsDigit(name[0])
    decreases |name|
  {
    if name != [] {
      SkipAll(name[1..]);
      SkipShortens(name[1..]);
      assert name == [name[0]] + name[1..];
    }
  }

  /** It fails exactly on names without a digit and on names that start with one. */
  lemma ScanFails(name: string)
    ensures ScanId(name) == [] <==> NoDigits(name) || IsDigit(name[0])
  {
    SkipAll(name);
  }

  /** With such a tag the number of a run directory is read back from its name, so names of
      different numbers differ. */
  lemma ScanOfDirName(runtag: string, id: nat)
    requires Scannable(runtag)
    ensures ScanId(DirName(runtag, id)) == [id]
  {
    hide Number, Decimal, Padded;
    var digits, rest := Padded(Decimal(id)), SkipNonDigits(runtag);
    PaddedDigits(id);
    SkipSuffix(runtag, digits);
    TakeAll(rest + digits);
    ZerosThen(rest, digits);
  }

  /** With any other tag the number 0 or the number 1 is not read back. */
  lemma UnscannableTag(tag: string)
    requires !Scannable(tag)
    ensures ScanId(DirName(tag, 0)) != [0] || ScanId(DirName(tag, 1)) != [1]
  {
    hide Number, Decimal, Padded, TakeDigits;
    var d0, d1, rest := Padded(Decimal(0)), Padded(Decimal(1)), SkipNonDigits(tag);
    PaddedDigits(0);
    PaddedDigits(1);
    SkipSuffix(tag, d0);
    SkipSuffix(tag, d1);
    SkipShortens(tag);
    if |rest| < |tag| {
      if exists c :: c in rest && !IsDigit(c) {
        TakeStops(rest, d0);
        TakeStops(rest, d1);
      } else {
        TakeAll(rest + d0);
        NumberPositive(rest, d0);
      }
    }
  }

  /** The numbers of all run directories are read back from their names exactly when the tag is
      scannable. */
  lemma ScanExact(tag: string)
    ensures (forall id: nat :: ScanId(DirName(tag, id)) == [id]) <==> Scannable(tag)
  {
    hide ScanId, DirName, Scannable;
    if Scannable(tag) {
      forall id: nat
        ensures ScanId(DirName(tag, id)) == [id]
      {
        ScanOfDirName(tag, id);
      }
    } else {
      UnscannableTag(tag);
    }
  }

  lemma NumberSnoc(s: string, c: char)
    requires IsDigit(c)
    ensures Number(s + [c]) == Number(s) * 10 + (c as int) - ('0' as int)
  {
    assert (s + [c])[..|s|] == s;
  }

  lemma SkipNothing(digits: string)
    requires digits != [] && IsDigit(digits[0])
    ensures SkipNonDigits("E" + digits) == digits
  {
    assert ("E" + digits)[1..] == digits;
  }

  /** A digit other than zero in the tag is taken for part of the number. */
  lemma DigitInTagMisleads()
    ensures ScanId(DirName("E7", 1)) == [7000001]
  {
    hide Number, SkipNonDigits, TakeDigits, Padded, Decimal;
    assert Padded(Decimal(1)) == "000001" by { PaddedOne(); }
    var digits := "7000001";
    assert DirName("E7", 1) == "E" + digits;
    SkipNothing(digits);
    TakeAll(digits);
    NumberNothing();
    NumberSnoc("", '7');
    NumberSnoc("7", '0');
    NumberSnoc("70", '0');
    NumberSnoc("700", '0');
    NumberSnoc("7000", '0');
    NumberSnoc("70000", '0');
    NumberSnoc("700000", '1');
    assert "" + "7" == "7" && "7" + "0" == "70" && "70" + "0" == "700" && "700" + "0" == "7000"
        && "7000" + "0" == "70000" && "70000" + "0" == "700000" && "700000" + "1" == digits;
  }

  lemma NumberNothing()
    ensures Number("") == 0
  {}

  lemma PadStep(s: string)
    requires |s| < 6
    ensures Padded(s) == Padded(['0'] + s)
  {}

  lemma PadDone(s: string)
    requires |s| == 6
    ensures Padded(s) == s
  {}

  lemma PaddedOne()
    ensures Padded(Decimal(1)) == "000001"
  {
    hide Padded;
    assert Decimal(1) == "1";
    PadStep("1");
    PadStep("01");
    PadStep("001");
    PadStep("0001");
    PadStep("00001");
    PadDone("000001");
    assert ['0'] + "1" == "01" && ['0'] + "01" == "001" && ['0'] + "001" == "0001";
    assert ['0'] + "0001" == "00001" && ['0'] + "00001" == "000001";
  }
}
