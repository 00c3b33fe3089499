/** The CoAP packet format of the bundled network library: the bytes of a message and the message
    that bytes are read as (sections 3 and 3.1 of RFC 7252), in the terms of the library's code. */
module Coap {
  import opened Bytes

  type Number = n: int | 0 <= n < 0x1_0000_0000

  type U16 = n: int | 0 <= n < 0x1_0000

  datatype CoapOption = CoapOption(number: Number, value: seq<Byte>)

  datatype CoapMessage = CoapMessage(msgType: Byte, codeClass: Byte, codeDetail: Byte, msgId: U16,
    token: seq<Byte>, options: seq<CoapOption>, payload: seq<Byte>)

  datatype Field = MSG_TYPE | TOKEN | CODE_CLASS | CODE_DETAIL | OPTIONS

  datatype Fault = None | Wrong(field: Field)

  datatype Status = FORMAT_ERROR | IGNORE | NOT_ENOUGH_DATA

  datatype Decoded = Parsed(msg: CoapMessage) | Failed(status: Status)

  /** The largest number or length that a two-byte extension can carry. */
  const MAX_EXTENDED: nat := 0xFFFF + 269

  // ----- the option list -----

  predicate Ascending(opts: seq<CoapOption>) {
    forall i, j :: 0 <= i < j < |opts| ==> opts[i].number <= opts[j].number
  }

  /** Behind every option with the same or a smaller number. */
  function InsertSorted(opts: seq<CoapOption>, o: CoapOption): seq<CoapOption> {
    if opts == [] || opts[0].number > o.number then [o] + opts
    else [opts[0]] + InsertSorted(opts[1..], o)
  }

  /** The options with one number, in order. */
  function WithNumber(opts: seq<CoapOption>, n: nat): seq<CoapOption> {
    if opts == [] then []
    else if opts[0].number == n then [opts[0]] + WithNumber(opts[1..], n)
    else WithNumber(opts[1..], n)
  }

  /** The option goes in front of the first larger one. */
  lemma {:induction false} InsertAt(opts: seq<CoapOption>, i: nat, o: CoapOption)
    requires i <= |opts| && forall k :: 0 <= k < i ==> opts[k].number <= o.number
    requires i < |opts| ==> opts[i].number > o.number
    ensures InsertSorted(opts, o) == opts[..i] + [o] + opts[i..]
  {
    if i > 0 {
      assert opts[0].number <= o.number;
      InsertAt(opts[1..], i - 1, o);
      assert opts[..i] == [opts[0]] + opts[1..][..i - 1];
    }
  }

  lemma {:induction false} FirstLarger(opts: seq<CoapOption>, n: nat) returns (i: nat)
    requires Ascending(opts)
    ensures i <= |opts|
    ensures forall k :: 0 <= k < i ==> opts[k].number <= n
    ensures forall k :: i <= k < |opts| ==> opts[k].number > n
  {
    if opts == [] || opts[0].number > n {
      i := 0;
    } else {
      var j := FirstLarger(opts[1..], n);
      i := j + 1;
      assert forall k :: 0 < k < |opts| ==> opts[k] == opts[1..][k - 1];
    }
  }

  /** Sorted stays sorted, nothing is lost, and options with equal numbers keep the order in which
      they were added. */
  lemma InsertIsStable(opts: seq<CoapOption>, o: CoapOption, n: nat)
    requires Ascending(opts)
    ensures Ascending(InsertSorted(opts, o))
    ensures multiset(InsertSorted(opts, o)) == multiset(opts) + multiset{o}
    ensures WithNumber(InsertSorted(opts, o), n) == WithNumber(opts, n) + if o.number == n then [o] else []
  {
    hide *;
    InsertAscends(opts, o);
    InsertKeeps(opts, o);
    InsertAdds(opts, o, n);
  }

  lemma InsertAscends(opts: seq<CoapOption>, o: CoapOption)
    requires Ascending(opts)
    ensures Ascending(InsertSorted(opts, o)) && |InsertSorted(opts, o)| == |opts| + 1
    ensures Small(opts) && SmallOption(o) ==> Small(InsertSorted(opts, o))
  {
    hide InsertSorted, SmallOption;
    var i := FirstLarger(opts, o.number);
    InsertAt(opts, i, o);
  }

  lemma InsertKeeps(opts: seq<CoapOption>, o: CoapOption)
    requires Ascending(opts)
    ensures multiset(InsertSorted(opts, o)) == multiset(opts) + multiset{o}
  {
    hide InsertSorted, Ascending;
    var i := FirstLarger(opts, o.number);
    InsertAt(opts, i, o);
    assert opts == opts[..i] + opts[i..];
  }

  lemma InsertAdds(opts: seq<CoapOption>, o: CoapOption, n: nat)
    requires Ascending(opts)
    ensures WithNumber(InsertSorted(opts, o), n) == WithNumber(opts, n) + if o.number == n then [o] else []
  {
    hide InsertSorted, WithNumber, Ascending;
    var i := FirstLarger(opts, o.number);
    InsertAt(opts, i, o);
    assert opts == opts[..i] + opts[i..];
    WithNumberConcat(opts[..i], opts[i..], n);
    WithNumberConcat(opts[..i], [o], n);
    WithNumberConcat(opts[..i] + [o], opts[i..], n);
    WithNumberOne(o, n);
    if o.number == n {
      NoneWithNumber(opts[i..], n);
    }
  }

  lemma WithNumberOne(o: CoapOption, n: nat)
    ensures WithNumber([o], n) == if o.number == n then [o] else []
  {
    assert [o][1..] == [];
  }

  lemma {:induction false} WithNumberConcat(a: seq<CoapOption>, b: seq<CoapOption>, n: nat)
    ensures WithNumber(a + b, n) == WithNumber(a, n) + WithNumber(b, n)
  {
    if a == [] {
      assert a + b == b;
    } else {
      WithNumberConcat(a[1..], b, n);
      assert (a + b)[1..] == a[1..] + b;
    }
  }

  lemma {:induction false} NoneWithNumber(opts: seq<CoapOption>, n: nat)
    requires forall k :: 0 <= k < |opts| ==> opts[k].number > n
    ensures WithNumber(opts, n) == []
  {
    if opts != [] {
      NoneWithNumber(opts[1..], n);
    }
  }

  // ----- what can be composed, and the bytes reserved for it -----

  function ExtSize(v: nat): nat {
    if v < 13 then 0 else if v <= 0xFF + 13 then 1 else if v <= MAX_EXTENDED then 2 else 0
  }

  /** The number checked against the limit is the option's own: the previous number stays zero. */
  predicate OptionFits(o: CoapOption) { |o.value| <= MAX_EXTENDED && o.number <= MAX_EXTENDED }

  predicate OptionsFit(opts: seq<CoapOption>) {
    Ascending(opts) && forall k :: 0 <= k < |opts| ==> OptionFits(opts[k])
  }

  function FaultOf(m: CoapMessage): Fault {
    if m.msgType > 3 then Wrong(MSG_TYPE)
    else if |m.token| > 8 then Wrong(TOKEN)
    else if m.codeClass > 7 then Wrong(CODE_CLASS)
    else if m.codeDetail > 31 then Wrong(CODE_DETAIL)
    else if !OptionsFit(m.options) then Wrong(OPTIONS)
    else None
  }

  function OptionSize(o: CoapOption): nat { 1 + ExtSize(o.number) + ExtSize(|o.value|) + |o.value| }

  function OptionsSize(opts: seq<CoapOption>): nat {
    if opts == [] then 0 else OptionSize(opts[0]) + OptionsSize(opts[1..])
  }

  function PacketSize(m: CoapMessage): nat {
    4 + |m.token| + (if m.payload == [] then 0 else |m.payload| + 1) + OptionsSize(m.options)
  }

  // ----- the bytes of a message -----

  function SplitBase(v: nat): nat { if v < 13 then v else if v <= 0xFF + 13 then 13 else 14 }

  function ExtBytes(v: nat): (b: seq<Byte>)
    requires v <= MAX_EXTENDED
    ensures |b| == ExtSize(v)
  {
    if v < 13 then [] else if v <= 0xFF + 13 then [v - 13] else [(v - 269) / 256, (v - 269) % 256]
  }

  function EncodeOption(delta: nat, value: seq<Byte>): seq<Byte>
    requires delta <= MAX_EXTENDED && |value| <= MAX_EXTENDED
  {
    [SplitBase(delta) * 16 + SplitBase(|value|)] + ExtBytes(delta) + ExtBytes(|value|) + value
  }

  /** Numbers are written as differences to the option before. */
  function EncodeOptions(prev: nat, opts: seq<CoapOption>): seq<Byte>
    requires OptionsFit(opts) && (opts != [] ==> prev <= opts[0].number)
    decreases |opts|
  {
    if opts == [] then []
    else EncodeOption(opts[0].number - prev, opts[0].value) + EncodeOptions(opts[0].number, opts[1..])
  }

  function Head(m: CoapMessage): (b: seq<Byte>)
    requires FaultOf(m) == None
    ensures |b| == 4
  {
    [64 + m.msgType * 16 + |m.token|, m.codeClass * 32 + m.codeDetail, m.msgId / 256, m.msgId % 256]
  }

  function PayloadBytes(payload: seq<Byte>): seq<Byte> { if payload == [] then [] else [0xFF] + payload }

  function Encode(m: CoapMessage): seq<Byte>
    requires FaultOf(m) == None
  {
    Head(m) + m.token + EncodeOptions(0, m.options) + PayloadBytes(m.payload)
  }

  // ----- the message read from bytes -----

  datatype Extended = NoData | Got(value: U16, used: nat)

  /** An option delta or length; a two-byte extension is added in 16 bits. */
  function GetExtended(nibble: nat, rest: seq<Byte>): (e: Extended)
    requires nibble < 15
    ensures e.Got? ==> e.used <= |rest|
  {
    if nibble == 13 then if |rest| < 1 then NoData else Got(rest[0] as int + 13, 1)
    else if nibble == 14 then if |rest| < 2 then NoData else Got((rest[0] as int * 256 + rest[1] + 269) % 0x1_0000, 2)
    else Got(nibble, 0)
  }

  datatype OneOption = OneFailed(status: Status) | One(option: CoapOption, used: nat)

  /** One option after the option `prev`, from a nonempty rest. */
  function DecodeOption(rest: seq<Byte>, prev: U16): (d: OneOption)
    requires rest != []
    ensures d.One? ==> 1 <= d.used <= |rest| && d.option.number < 0x1_0000 && |d.option.value| < 0x1_0000
  {
    var delta, len := rest[0] / 16, rest[0] % 16;
    if delta == 15 || len == 15 then OneFailed(FORMAT_ERROR)
    else
      var d := GetExtended(delta, rest[1..]);
      if d.NoData? then OneFailed(NOT_ENOUGH_DATA)
      else
        var l := GetExtended(len, rest[1 + d.used..]);
        if l.NoData? then OneFailed(NOT_ENOUGH_DATA)
        else
          var at := 1 + d.used + l.used;
          if at + l.value > |rest| then OneFailed(NOT_ENOUGH_DATA)
          else One(CoapOption((d.value as int + prev) % 0x1_0000, rest[at..at + l.value]), at + l.value)
  }

  datatype Tail = TailFailed(status: Status) | Tail(options: seq<CoapOption>, payload: seq<Byte>)

  /** Options up to the end or the payload marker. */
  function DecodeOptions(rest: seq<Byte>, prev: U16, acc: seq<CoapOption>): Tail
    decreases |rest|
  {
    if rest == [] then Tail(acc, [])
    else if rest[0] == 0xFF then Tail(acc, rest[1..])
    else
      var d := DecodeOption(rest, prev);
      if d.OneFailed? then TailFailed(d.status)
      else DecodeOptions(rest[d.used..], d.option.number, InsertSorted(acc, d.option))
  }

  function Decode(b: seq<Byte>): Decoded {
    if |b| < 4 then Failed(NOT_ENOUGH_DATA)
    else if b[0] / 64 != 1 then Failed(IGNORE)
    else
      var n := b[0] % 16;
      if n > 8 then Failed(FORMAT_ERROR)
      else if 4 + n > |b| then Failed(NOT_ENOUGH_DATA)
      else match DecodeOptions(b[4 + n..], 0, [])
        case TailFailed(status) => Failed(status)
        case Tail(options, payload) =>
          Parsed(CoapMessage(b[0] / 16 % 4, b[1] / 32, b[1] % 32, b[2] as int * 256 + b[3], b[4..4 + n], options, payload))
  }

  // ----- reading back what was written -----

  lemma ExtendedInverse(v: nat, rest: seq<Byte>)
    requires v <= MAX_EXTENDED
    ensures SplitBase(v) < 15 && GetExtended(SplitBase(v), ExtBytes(v) + rest) == Got(v % 0x1_0000, ExtSize(v))
  {}

  /** Numbers and lengths that fit the parser's 16-bit variables. */
  predicate SmallOption(o: CoapOption) { o.number < 0x1_0000 && |o.value| < 0x1_0000 }

  predicate Small(opts: seq<CoapOption>) { forall k :: 0 <= k < |opts| ==> SmallOption(opts[k]) }

  lemma OptionInverse(prev: U16, o: CoapOption, rest: seq<Byte>)
    requires SmallOption(o) && prev <= o.number
    ensures var b := EncodeOption(o.number - prev, o.value);
      b[0] != 0xFF && DecodeOption(b + rest, prev) == One(o, |b|)
  {
    hide SplitBase, ExtBytes, ExtSize, GetExtended;
    var delta, len := o.number - prev, |o.value|;
    var b := EncodeOption(delta, o.value) + rest;
    ExtendedInverse(delta, ExtBytes(len) + o.value + rest);
    ExtendedInverse(len, o.value + rest);
    assert b[1..] == ExtBytes(delta) + (ExtBytes(len) + o.value + rest);
    assert b[1 + ExtSize(delta)..] == ExtBytes(len) + (o.value + rest);
    var at := 1 + ExtSize(delta) + ExtSize(len);
    assert b[at..at + len] == o.value;
  }

  function LastNumber(prev: nat, opts: seq<CoapOption>): nat {
    if opts == [] then prev else opts[|opts| - 1].number
  }

  lemma {:induction false} AppendLast(acc: seq<CoapOption>, o: CoapOption)
    requires forall k :: 0 <= k < |acc| ==> acc[k].number <= o.number
    ensures InsertSorted(acc, o) == acc + [o]
  {
    InsertAt(acc, |acc|, o);
  }

  lemma DecodeStep(b: seq<Byte>, more: seq<Byte>, prev: U16, acc: seq<CoapOption>, o: CoapOption)
    requires b != [] && b[0] != 0xFF && DecodeOption(b + more, prev) == One(o, |b|)
    ensures o.number < 0x1_0000
    ensures DecodeOptions(b + more, prev, acc) == DecodeOptions(more, o.number, InsertSorted(acc, o))
  {
    hide DecodeOption, InsertSorted;
    assert (b + more)[|b|..] == more;
  }

  lemma {:induction false} OptionsInverse(prev: U16, opts: seq<CoapOption>, acc: seq<CoapOption>, rest: seq<Byte>)
    requires OptionsFit(opts) && Small(opts) && (opts != [] ==> prev <= opts[0].number)
    requires forall k :: 0 <= k < |acc| ==> acc[k].number <= prev
    ensures LastNumber(prev, opts) < 0x1_0000
    ensures DecodeOptions(EncodeOptions(prev, opts) + rest, prev, acc)
         == DecodeOptions(rest, LastNumber(prev, opts), acc + opts)
    decreases |opts|
  {
    hide DecodeOption, EncodeOption, InsertSorted, DecodeOptions;
    if opts == [] {
      assert EncodeOptions(prev, opts) + rest == rest && acc + opts == acc;
    } else {
      var o := opts[0];
      var b := EncodeOption(o.number - prev, o.value);
      var more := EncodeOptions(o.number, opts[1..]) + rest;
      OptionInverse(prev, o, more);
      assert EncodeOptions(prev, opts) + rest == b + more;
      DecodeStep(b, more, prev, acc, o);
      AppendLast(acc, o);
      OptionsInverse(o.number, opts[1..], acc + [o], rest);
      assert acc + [o] + opts[1..] == acc + opts;
    }
  }

  /** Bytes that begin with the head and the token of a message. */
  lemma DecodeHead(m: CoapMessage, rest: seq<Byte>)
    requires FaultOf(m) == None
    ensures Decode(Head(m) + m.token + rest)
         == match DecodeOptions(rest, 0, [])
            case TailFailed(status) => Failed(status)
            case Tail(options, payload) => Parsed(m.(options := options, payload := payload))
  {
    hide DecodeOptions, OptionsFit;
    var b, n := Head(m) + m.token + rest, |m.token|;
    assert b[4 + n..] == rest && b[4..4 + n] == m.token;
    assert b[0] == 64 + m.msgType * 16 + n && b[1] == m.codeClass * 32 + m.codeDetail;
    assert b[2] == m.msgId / 256 && b[3] == m.msgId % 256;
  }

  /** The packet followed by any bytes: what is decoded is decided by what the payload part and
      those bytes are read as. */
  lemma DecodeFollowed(m: CoapMessage, rest: seq<Byte>)
    requires FaultOf(m) == None && Small(m.options)
    ensures LastNumber(0, m.options) < 0x1_0000
    ensures Decode(Encode(m) + rest)
         == match DecodeOptions(PayloadBytes(m.payload) + rest, LastNumber(0, m.options), m.options)
            case TailFailed(status) => Failed(status)
            case Tail(options, payload) => Parsed(m.(options := options, payload := payload))
  {
    hide Decode, DecodeOptions, EncodeOptions, PayloadBytes, LastNumber, Head, Small;
    var end := PayloadBytes(m.payload) + rest;
    OptionsInverse(0, m.options, [], end);
    DecodeHead(m, EncodeOptions(0, m.options) + end);
    assert [] + m.options == m.options;
    assert Encode(m) + rest == Head(m) + m.token + (EncodeOptions(0, m.options) + end);
  }

  lemma {:induction false} DecodedOptions(rest: seq<Byte>, prev: U16, acc: seq<CoapOption>)
    requires Small(acc) && Ascending(acc)
    ensures var t := DecodeOptions(rest, prev, acc);
      t.Tail? ==> Small(t.options) && Ascending(t.options) && |t.options| >= |acc|
    decreases |rest|
  {
    if rest != [] && rest[0] != 0xFF {
      var d := DecodeOption(rest, prev);
      if d.One? {
        var more := InsertSorted(acc, d.option);
        InsertAscends(acc, d.option);
        DecodedOptions(rest[d.used..], d.option.number, more);
      }
    }
  }

  /** Whatever the bytes, a parsed message has ascending options whose numbers and lengths are
      below 65536, and header fields and a token that could be composed again. */
  lemma ParsedIsComposable(b: seq<Byte>)
    requires Decode(b).Parsed?
    ensures var m := Decode(b).msg; FaultOf(m) == None && Small(m.options)
  {
    hide DecodeOptions;
    DecodedOptions(b[4 + b[0] % 16..], 0, []);
  }

  /** A composed packet parses back to its message exactly when every option number and length fits
      in sixteen bits; numbers and lengths from 65536 to 65804 are composed, but never parsed. */
  lemma RoundTrip(m: CoapMessage)
    requires FaultOf(m) == None
    ensures Decode(Encode(m)) == Parsed(m) <==> Small(m.options)
  {
    hide Encode, Decode;
    if Small(m.options) {
      DecodeFollowed(m, []);
      assert Encode(m) + [] == Encode(m) && PayloadBytes(m.payload) + [] == PayloadBytes(m.payload);
      assert m.payload != [] ==> PayloadBytes(m.payload)[1..] == m.payload;
      assert m == m.(options := m.options, payload := m.payload);
    } else if Decode(Encode(m)) == Parsed(m) {
      ParsedIsComposable(Encode(m));
    }
  }

  // ----- writing again what was read -----

  /** The value of a delta or length before it is cut to 16 bits. */
  function Unwrapped(nibble: nat, rest: seq<Byte>): nat
    requires nibble < 15 && GetExtended(nibble, rest).Got?
  {
    if nibble == 13 then rest[0] as int + 13
    else if nibble == 14 then rest[0] as int * 256 + rest[1] + 269
    else nibble
  }

  /** Neither the delta nor the length nor the number of this option wraps around. */
  predicate PlainOption(rest: seq<Byte>, prev: U16)
    requires rest != [] && DecodeOption(rest, prev).One?
  {
    var d := GetExtended(rest[0] / 16, rest[1..]);
    && Unwrapped(rest[0] / 16, rest[1..]) + prev < 0x1_0000
    && Unwrapped(rest[0] % 16, rest[1 + d.used..]) < 0x1_0000
  }

  /** No option wraps around, and a payload marker is followed by a payload. */
  predicate Plain(rest: seq<Byte>, prev: U16)
    decreases |rest|
  {
    if rest == [] then true
    else if rest[0] == 0xFF then |rest| > 1
    else
      var d := DecodeOption(rest, prev);
      d.One? ==> PlainOption(rest, prev) && Plain(rest[d.used..], d.option.number)
  }

  lemma ExtendedRecodes(nibble: nat, rest: seq<Byte>)
    requires nibble < 15 && GetExtended(nibble, rest).Got? && Unwrapped(nibble, rest) < 0x1_0000
    ensures var e := GetExtended(nibble, rest);
      && e.value == Unwrapped(nibble, rest) && SplitBase(e.value) == nibble
      && ExtSize(e.value) == e.used && ExtBytes(e.value) == rest[..e.used]
  {}

  lemma OptionRecodes(rest: seq<Byte>, prev: U16)
    requires rest != [] && DecodeOption(rest, prev).One? && PlainOption(rest, prev)
    ensures var d := DecodeOption(rest, prev);
      prev <= d.option.number && EncodeOption(d.option.number - prev, d.option.value) == rest[..d.used]
  {
    hide SplitBase, ExtBytes, ExtSize, GetExtended, Unwrapped;
    var delta, len := rest[0] / 16, rest[0] % 16;
    var d := GetExtended(delta, rest[1..]);
    var l := GetExtended(len, rest[1 + d.used..]);
    ExtendedRecodes(delta, rest[1..]);
    ExtendedRecodes(len, rest[1 + d.used..]);
    assert rest[1..][..d.used] == rest[1..1 + d.used];
    assert rest[1 + d.used..][..l.used] == rest[1 + d.used..1 + d.used + l.used];
    var at := 1 + d.used + l.used;
    assert rest[..at + l.value]
        == [rest[0]] + rest[1..1 + d.used] + rest[1 + d.used..at] + rest[at..at + l.value];
  }

  /** The options `t` adds to `acc` and its payload encode to these bytes. */
  predicate Recodes(rest: seq<Byte>, prev: U16, acc: seq<CoapOption>, t: Tail) {
    && t.Tail? && |acc| <= |t.options| && t.options[..|acc|] == acc
    && var more := t.options[|acc|..];
    && OptionsFit(more) && (more != [] ==> prev <= more[0].number)
    && rest == EncodeOptions(prev, more) + PayloadBytes(t.payload)
  }

  lemma {:induction false} OptionsRecode(rest: seq<Byte>, prev: U16, acc: seq<CoapOption>)
    requires Plain(rest, prev) && DecodeOptions(rest, prev, acc).Tail?
    requires forall k :: 0 <= k < |acc| ==> acc[k].number <= prev
    ensures Recodes(rest, prev, acc, DecodeOptions(rest, prev, acc))
    decreases |rest|
  {
    hide DecodeOption, PlainOption, InsertSorted, EncodeOption, Recodes;
    var t := DecodeOptions(rest, prev, acc);
    if rest == [] || rest[0] == 0xFF {
      NothingToRecode(rest, prev, acc, t.payload);
    } else {
      var d := DecodeOption(rest, prev);
      OptionRecodes(rest, prev);
      AppendLast(acc, d.option);
      OptionsRecode(rest[d.used..], d.option.number, acc + [d.option]);
      RecodeStep(rest, prev, acc, t, d.option, d.used);
    }
  }

  lemma NothingToRecode(rest: seq<Byte>, prev: U16, acc: seq<CoapOption>, payload: seq<Byte>)
    requires rest == PayloadBytes(payload)
    ensures Recodes(rest, prev, acc, Tail(acc, payload))
  {
    assert acc[|acc|..] == [];
  }

  lemma RecodeStep(rest: seq<Byte>, prev: U16, acc: seq<CoapOption>, t: Tail, o: CoapOption, used: nat)
    requires used <= |rest| && prev <= o.number && SmallOption(o)
    requires EncodeOption(o.number - prev, o.value) == rest[..used]
    requires Recodes(rest[used..], o.number, acc + [o], t)
    ensures Recodes(rest, prev, acc, t)
  {
    hide EncodeOption, EncodeOptions, PayloadBytes, OptionsFit, SmallOption;
    var more := t.options[|acc| + 1..];
    assert t.options[|acc|] == (acc + [o])[|acc|] == o;
    assert t.options[..|acc|] == t.options[..|acc| + 1][..|acc|] == acc;
    assert t.options[|acc|..] == [o] + more;
    EncodeCons(prev, o, more);
    assert rest == rest[..used] + rest[used..];
  }

  lemma EncodeCons(prev: U16, o: CoapOption, more: seq<CoapOption>)
    requires OptionsFit(more) && SmallOption(o) && prev <= o.number && (more != [] ==> o.number <= more[0].number)
    ensures OptionsFit([o] + more)
    ensures EncodeOptions(prev, [o] + more) == EncodeOption(o.number - prev, o.value) + EncodeOptions(o.number, more)
  {
    hide EncodeOption;
    assert ([o] + more)[1..] == more;
  }

  lemma {:induction false} EncodedPlain(prev: U16, opts: seq<CoapOption>, payload: seq<Byte>)
    requires OptionsFit(opts) && Small(opts) && (opts != [] ==> prev <= opts[0].number)
    ensures Plain(EncodeOptions(prev, opts) + PayloadBytes(payload), prev)
    decreases |opts|
  {
    hide DecodeOption, EncodeOption, PlainOption, Plain;
    if opts == [] {
      assert EncodeOptions(prev, opts) + PayloadBytes(payload) == PayloadBytes(payload);
      PlainEnd(payload, prev);
    } else {
      hide EncodeOptions, PayloadBytes;
      var o := opts[0];
      EncodeCons(prev, o, opts[1..]);
      assert [o] + opts[1..] == opts;
      EncodedPlain(o.number, opts[1..], payload);
      PlainStep(prev, o, EncodeOptions(o.number, opts[1..]) + PayloadBytes(payload));
      assert EncodeOptions(prev, opts) + PayloadBytes(payload)
          == EncodeOption(o.number - prev, o.value) + (EncodeOptions(o.number, opts[1..]) + PayloadBytes(payload));
    }
  }

  lemma PlainEnd(payload: seq<Byte>, prev: U16)
    ensures Plain(PayloadBytes(payload), prev)
  {}

  lemma PlainStep(prev: U16, o: CoapOption, more: seq<Byte>)
    requires SmallOption(o) && prev <= o.number && Plain(more, o.number)
    ensures Plain(EncodeOption(o.number - prev, o.value) + more, prev)
  {
    hide DecodeOption, PlainOption, EncodeOption;
    var b := EncodeOption(o.number - prev, o.value);
    OptionInverse(prev, o, more);
    EncodedOptionPlain(prev, o, more);
    assert (b + more)[|b|..] == more;
  }

  lemma EncodedOptionPlain(prev: U16, o: CoapOption, rest: seq<Byte>)
    requires SmallOption(o) && prev <= o.number
    ensures var b := EncodeOption(o.number - prev, o.value) + rest;
      DecodeOption(b, prev).One? && PlainOption(b, prev)
  {
    hide SplitBase, ExtBytes, ExtSize, GetExtended, Unwrapped, DecodeOption;
    var delta, len := o.number - prev, |o.value|;
    var b := EncodeOption(delta, o.value) + rest;
    OptionInverse(prev, o, rest);
    UnwrappedInverse(delta, ExtBytes(len) + o.value + rest);
    UnwrappedInverse(len, o.value + rest);
    assert b[1..] == ExtBytes(delta) + (ExtBytes(len) + o.value + rest);
    assert b[1 + ExtSize(delta)..] == ExtBytes(len) + (o.value + rest);
  }

  lemma UnwrappedInverse(v: U16, rest: seq<Byte>)
    ensures SplitBase(v) < 15 && GetExtended(SplitBase(v), ExtBytes(v) + rest) == Got(v, ExtSize(v))
    ensures Unwrapped(SplitBase(v), ExtBytes(v) + rest) == v
  {}

  /** A packet that parses is composed again from its message, byte for byte, exactly when none of
      its options wraps around in the parser's 16-bit variables and its payload is not empty
      behind a marker. */
  lemma Recode(b: seq<Byte>)
    requires Decode(b).Parsed?
    ensures var m := Decode(b).msg; FaultOf(m) == None && (Encode(m) == b <==> Plain(b[4 + b[0] % 16..], 0))
  {
    hide DecodeOptions, EncodeOptions, Plain, OptionsFit, Small;
    var m, n := Decode(b).msg, b[0] % 16;
    ParsedIsComposable(b);
    if Plain(b[4 + n..], 0) {
      OptionsRecode(b[4 + n..], 0, []);
      assert m.options[0..] == m.options;
      assert b == b[..4] + b[4..4 + n] + b[4 + n..];
      assert Head(m) == b[..4];
    }
    if Encode(m) == b {
      EncodedPlain(0, m.options, m.payload);
      assert b[4 + n..] == EncodeOptions(0, m.options) + PayloadBytes(m.payload);
    }
  }

  // ----- packets that fail -----

  /** The header decides in this order: too short, another version, a reserved token length, a cut token. */
  lemma HeaderFailures(b: seq<Byte>)
    ensures |b| < 4 ==> Decode(b) == Failed(NOT_ENOUGH_DATA)
    ensures |b| >= 4 && !(64 <= b[0] < 128) ==> Decode(b) == Failed(IGNORE)
    ensures |b| >= 4 && 64 <= b[0] < 128 && b[0] % 16 > 8 ==> Decode(b) == Failed(FORMAT_ERROR)
    ensures 4 <= |b| < 4 + b[0] % 16 && 64 <= b[0] < 128 && b[0] % 16 <= 8 ==> Decode(b) == Failed(NOT_ENOUGH_DATA)
  {}

  /** A first byte with a nibble of 15 that is no payload marker fails behind any options. */
  lemma ReservedNibble(m: CoapMessage, bad: seq<Byte>)
    requires FaultOf(m) == None && Small(m.options)
    requires bad != [] && bad[0] != 0xFF && (bad[0] / 16 == 15 || bad[0] % 16 == 15)
    ensures Decode(Head(m) + m.token + (EncodeOptions(0, m.options) + bad)) == Failed(FORMAT_ERROR)
  {
    hide Decode, DecodeOptions, EncodeOptions, LastNumber, Head, Small;
    OptionsInverse(0, m.options, [], bad);
    DecodeHead(m, EncodeOptions(0, m.options) + bad);
    var last: U16 := LastNumber(0, m.options);
    ReservedFails(bad, last, [] + m.options);
  }

  lemma ReservedFails(bad: seq<Byte>, prev: U16, acc: seq<CoapOption>)
    requires bad != [] && bad[0] != 0xFF && (bad[0] / 16 == 15 || bad[0] % 16 == 15)
    ensures DecodeOptions(bad, prev, acc) == TailFailed(FORMAT_ERROR)
  {}

  lemma CutExtended(v: nat, k: nat)
    requires v <= MAX_EXTENDED && k < ExtSize(v)
    ensures SplitBase(v) < 15 && GetExtended(SplitBase(v), ExtBytes(v)[..k]) == NoData
  {}

  /** An option whose delta, length or value ends behind the bytes. */
  lemma OptionEnds(b: seq<Byte>, prev: U16)
    requires b != [] && b[0] / 16 < 15 && b[0] % 16 < 15
    requires var d := GetExtended(b[0] / 16, b[1..]);
             d.Got? ==>
               var l := GetExtended(b[0] % 16, b[1 + d.used..]);
               l.Got? ==> 1 + d.used + l.used + l.value > |b|
    ensures b[0] != 0xFF && DecodeOption(b, prev) == OneFailed(NOT_ENOUGH_DATA)
  {
    hide GetExtended;
  }

  /** An extension behind which the bytes are cut off. */
  lemma ExtendedCut(v: nat, more: seq<Byte>, k: nat)
    requires v <= MAX_EXTENDED && k <= ExtSize(v) + |more|
    ensures SplitBase(v) < 15
    ensures var e := GetExtended(SplitBase(v), (ExtBytes(v) + more)[..k]);
            if k < ExtSize(v) then e == NoData else e == Got(v % 0x1_0000, ExtSize(v))
    ensures k >= ExtSize(v) ==> (ExtBytes(v) + more)[..k][ExtSize(v)..] == more[..k - ExtSize(v)]
  {
    hide SplitBase, ExtBytes, ExtSize, GetExtended;
    ExtendedInverse(v, []);
    if k < ExtSize(v) {
      CutExtended(v, k);
      assert (ExtBytes(v) + more)[..k] == ExtBytes(v)[..k];
    } else {
      ExtendedInverse(v, more[..k - ExtSize(v)]);
      assert (ExtBytes(v) + more)[..k] == ExtBytes(v) + more[..k - ExtSize(v)];
    }
  }

  /** An option cut anywhere behind its first byte. */
  lemma CutOption(prev: U16, o: CoapOption, k: nat)
    requires SmallOption(o) && prev <= o.number
    requires 0 < k < |EncodeOption(o.number - prev, o.value)|
    ensures var b := EncodeOption(o.number - prev, o.value)[..k];
            b[0] != 0xFF && DecodeOption(b, prev) == OneFailed(NOT_ENOUGH_DATA)
  {
    hide SplitBase, ExtBytes, ExtSize, GetExtended, DecodeOption;
    var delta, len := o.number - prev, |o.value|;
    var whole, b := EncodeOption(delta, o.value), EncodeOption(delta, o.value)[..k];
    var more := ExtBytes(len) + o.value;
    ExtendedCut(delta, more, k - 1);
    assert whole[1..] == ExtBytes(delta) + more;
    assert b[1..] == whole[1..][..k - 1];
    if k - 1 >= ExtSize(delta) {
      ExtendedCut(len, o.value, k - 1 - ExtSize(delta));
      assert b[1 + ExtSize(delta)..] == b[1..][ExtSize(delta)..];
    } else {
      ExtendedInverse(len, []);
    }
    assert b[0] == SplitBase(delta) * 16 + SplitBase(len);
    OptionEnds(b, prev);
  }

  /** Where the first `j` options end. */
  function EndOf(prev: nat, opts: seq<CoapOption>, j: nat): nat
    requires j <= |opts| && OptionsFit(opts) && (opts != [] ==> prev <= opts[0].number)
  {
    |EncodeOptions(prev, opts[..j])|
  }

  lemma EndOfCons(prev: U16, opts: seq<CoapOption>, j: nat)
    requires 0 < j <= |opts| && OptionsFit(opts) && Small(opts) && prev <= opts[0].number
    ensures var first := EncodeOption(opts[0].number - prev, opts[0].value);
            EndOf(prev, opts, j) == |first| + EndOf(opts[0].number, opts[1..], j - 1)
  {
    hide EncodeOption;
    assert opts[..j] == [opts[0]] + opts[1..][..j - 1];
    EncodeCons(prev, opts[0], opts[1..][..j - 1]);
  }

  /** What options cut behind `k` bytes are read as: those in front of the cut when it falls between
      two, and otherwise nothing. */
  predicate CutRead(prev: nat, opts: seq<CoapOption>, acc: seq<CoapOption>, k: nat, t: Tail)
    requires OptionsFit(opts) && (opts != [] ==> prev <= opts[0].number)
  {
    && (forall j :: 0 <= j <= |opts| && k == EndOf(prev, opts, j) ==> t == Tail(acc + opts[..j], []))
    && ((forall j :: 0 <= j <= |opts| ==> k != EndOf(prev, opts, j)) ==> t == TailFailed(NOT_ENOUGH_DATA))
  }

  lemma {:induction false} CutOptions(prev: U16, opts: seq<CoapOption>, acc: seq<CoapOption>, k: nat)
    requires OptionsFit(opts) && Small(opts) && (opts != [] ==> prev <= opts[0].number)
    requires (forall i :: 0 <= i < |acc| ==> acc[i].number <= prev) && k <= |EncodeOptions(prev, opts)|
    ensures CutRead(prev, opts, acc, k, DecodeOptions(EncodeOptions(prev, opts)[..k], prev, acc))
    decreases |opts|
  {
    hide DecodeOption, EncodeOption, InsertSorted, DecodeOptions, EncodeOptions, EndOf;
    var b := EncodeOptions(prev, opts)[..k];
    CutNowhere(prev, opts, acc);
    if opts != [] {
      EncodeFirst(prev, opts);
      var o := opts[0];
      var first := EncodeOption(o.number - prev, o.value);
      forall j | 0 < j <= |opts|
        ensures EndOf(prev, opts, j) == |first| + EndOf(o.number, opts[1..], j - 1)
      {
        EndOfCons(prev, opts, j);
      }
      if 0 < k < |first| {
        assert b == first[..k];
        CutOption(prev, o, k);
        OptionFails(b, prev, acc);
      } else if k > 0 {
        var more := EncodeOptions(o.number, opts[1..])[..k - |first|];
        OptionInverse(prev, o, more);
        assert b == first + more;
        DecodeStep(first, more, prev, acc, o);
        AppendLast(acc, o);
        CutOptions(o.number, opts[1..], acc + [o], k - |first|);
        CutShift(prev, opts, acc, k, |first|, DecodeOptions(b, prev, acc));
      }
    }
  }

  lemma CutNowhere(prev: nat, opts: seq<CoapOption>, acc: seq<CoapOption>)
    requires OptionsFit(opts) && (opts != [] ==> prev <= opts[0].number) && prev < 0x1_0000
    ensures EndOf(prev, opts, 0) == 0 && acc + opts[..0] == acc
    ensures DecodeOptions(EncodeOptions(prev, opts)[..0], prev, acc) == Tail(acc, [])
    ensures opts == [] ==> EncodeOptions(prev, opts) == []
  {}

  lemma EncodeFirst(prev: U16, opts: seq<CoapOption>)
    requires OptionsFit(opts) && opts != [] && prev <= opts[0].number
    ensures EncodeOptions(prev, opts)
         == EncodeOption(opts[0].number - prev, opts[0].value) + EncodeOptions(opts[0].number, opts[1..])
    ensures EncodeOption(opts[0].number - prev, opts[0].value) != []
  {}

  lemma OptionFails(b: seq<Byte>, prev: U16, acc: seq<CoapOption>)
    requires b != [] && b[0] != 0xFF && DecodeOption(b, prev) == OneFailed(NOT_ENOUGH_DATA)
    ensures DecodeOptions(b, prev, acc) == TailFailed(NOT_ENOUGH_DATA)
  {}

  /** From the options behind the first to all of them. */
  lemma CutShift(prev: U16, opts: seq<CoapOption>, acc: seq<CoapOption>, k: nat, n: nat, t: Tail)
    requires OptionsFit(opts) && Small(opts) && opts != [] && prev <= opts[0].number && 0 < n <= k
    requires forall j :: 0 < j <= |opts| ==> EndOf(prev, opts, j) == n + EndOf(opts[0].number, opts[1..], j - 1)
    requires EndOf(prev, opts, 0) == 0
    requires CutRead(opts[0].number, opts[1..], acc + [opts[0]], k - n, t)
    ensures CutRead(prev, opts, acc, k, t)
  {
    hide EndOf;
    var more := opts[1..];
    forall j | 0 <= j <= |more|
      ensures k == EndOf(prev, opts, j + 1) <==> k - n == EndOf(opts[0].number, more, j)
      ensures acc + [opts[0]] + more[..j] == acc + opts[..j + 1]
    {
    }
    forall j | 0 <= j <= |opts| && k == EndOf(prev, opts, j)
      ensures t == Tail(acc + opts[..j], [])
    {
      assert k - n == EndOf(opts[0].number, more, j - 1);
    }
  }

  /** A packet cut anywhere: within the header, the token or an option there is not enough data;
      between two options the message is read with those in front of the cut; within the payload,
      with that much payload. */
  lemma CutPacket(m: CoapMessage, k: nat)
    requires FaultOf(m) == None && Small(m.options) && k <= |Encode(m)|
    ensures var n := 4 + |m.token|;
            var end := n + |EncodeOptions(0, m.options)|;
            var d := Decode(Encode(m)[..k]);
            && (k > end ==> d == Parsed(m.(payload := m.payload[..k - end - 1])))
            && (forall j :: 0 <= j <= |m.options| && k == n + |EncodeOptions(0, m.options[..j])| ==>
                  d == Parsed(m.(options := m.options[..j], payload := [])))
            && (k <= end && (forall j :: 0 <= j <= |m.options| ==> k != n + |EncodeOptions(0, m.options[..j])|) ==>
                  d == Failed(NOT_ENOUGH_DATA))
  {
    hide Decode, DecodeOptions, EncodeOptions, Head, Small;
    var n, o := 4 + |m.token|, EncodeOptions(0, m.options);
    forall j | 0 <= j <= |m.options|
      ensures |EncodeOptions(0, m.options[..j])| == EndOf(0, m.options, j) <= |o|
    {
      PrefixShorter(m.options, j);
    }
    if k < n {
      CutHead(m, k);
    } else if k <= n + |o| {
      assert Encode(m)[..k] == Head(m) + m.token + o[..k - n];
      DecodeHead(m, o[..k - n]);
      CutOptions(0, m.options, [], k - n);
      assert forall j :: 0 <= j <= |m.options| ==> [] + m.options[..j] == m.options[..j];
    } else {
      CutPayload(m, k);
    }
  }

  lemma PrefixShorter(opts: seq<CoapOption>, j: nat)
    requires j <= |opts| && OptionsFit(opts)
    ensures |EncodeOptions(0, opts[..j])| == EndOf(0, opts, j) <= |EncodeOptions(0, opts)|
  {
    hide EncodeOptions;
    EncodeConcat(0, opts, j);
  }

  lemma {:induction false} EncodeConcat(prev: nat, opts: seq<CoapOption>, j: nat)
    requires j <= |opts| && OptionsFit(opts) && (opts != [] ==> prev <= opts[0].number)
    ensures |EncodeOptions(prev, opts[..j])| <= |EncodeOptions(prev, opts)|
    decreases |opts|
  {
    hide EncodeOption;
    if j > 0 {
      EncodeConcat(opts[0].number, opts[1..], j - 1);
      assert opts[..j][1..] == opts[1..][..j - 1];
    }
  }

  lemma CutPayload(m: CoapMessage, k: nat)
    requires FaultOf(m) == None && Small(m.options)
    requires 4 + |m.token| + |EncodeOptions(0, m.options)| < k <= |Encode(m)|
    ensures var end := 4 + |m.token| + |EncodeOptions(0, m.options)|;
            Decode(Encode(m)[..k]) == Parsed(m.(payload := m.payload[..k - end - 1]))
  {
    hide Decode, DecodeOptions, EncodeOptions, Head, Small, OptionsFit, LastNumber;
    var o := EncodeOptions(0, m.options);
    var end := 4 + |m.token| + |o|;
    var marked := PayloadBytes(m.payload)[..k - end];
    assert Encode(m)[..k] == Head(m) + m.token + (o + marked);
    DecodeHead(m, o + marked);
    OptionsInverse(0, m.options, [], marked);
    assert [] + m.options == m.options;
    var last: U16 := LastNumber(0, m.options);
    MarkerEnds(marked, last, m.options);
    assert marked[1..] == m.payload[..k - end - 1];
  }

  lemma MarkerEnds(b: seq<Byte>, prev: U16, acc: seq<CoapOption>)
    requires b != [] && b[0] == 0xFF
    ensures DecodeOptions(b, prev, acc) == Tail(acc, b[1..])
  {}

  lemma CutHead(m: CoapMessage, k: nat)
    requires FaultOf(m) == None && k < 4 + |m.token|
    ensures k <= |Encode(m)| && Decode(Encode(m)[..k]) == Failed(NOT_ENOUGH_DATA)
  {
    hide DecodeOptions, EncodeOptions, OptionsFit;
    var b := Encode(m)[..k];
    HeaderFailures(b);
    if k >= 4 {
      assert b[0] == 64 + m.msgType * 16 + |m.token|;
    }
  }

  // ----- the reserved size -----

  /** The size is reserved for the option numbers, but the differences are written. */
  predicate Exact(prev: nat, opts: seq<CoapOption>)
    requires OptionsFit(opts) && (opts != [] ==> prev <= opts[0].number)
    decreases |opts|
  {
    opts != [] ==> ExtSize(opts[0].number - prev) == ExtSize(opts[0].number) && Exact(opts[0].number, opts[1..])
  }

  lemma {:induction false} OptionsWithin(prev: nat, opts: seq<CoapOption>)
    requires OptionsFit(opts) && (opts != [] ==> prev <= opts[0].number)
    ensures |EncodeOptions(prev, opts)| <= OptionsSize(opts)
    ensures |EncodeOptions(prev, opts)| == OptionsSize(opts) <==> Exact(prev, opts)
    decreases |opts|
  {
    if opts != [] {
      OptionsWithin(opts[0].number, opts[1..]);
      assert ExtSize(opts[0].number - prev) <= ExtSize(opts[0].number);
    }
  }

  /** Never more is written than was reserved, and exactly as much when no difference has a shorter
      extension than its number. */
  lemma WrittenWithinReserved(m: CoapMessage)
    requires FaultOf(m) == None
    ensures |Encode(m)| <= PacketSize(m)
    ensures |Encode(m)| == PacketSize(m) <==> Exact(0, m.options)
  {
    hide EncodeOptions, OptionsSize, Exact;
    OptionsWithin(0, m.options);
  }

  function Zeros(n: nat): seq<Byte> { seq(n, _ => 0) }

  /** What is sent is the whole reserved space. Whatever the bytes behind the packet are, it parses
      back to the message exactly when the sizes agree and the options fit in sixteen bits. */
  lemma ReservedRoundTrip(m: CoapMessage)
    requires FaultOf(m) == None
    ensures (forall junk: seq<Byte> :: |Encode(m)| + |junk| == PacketSize(m) ==> Decode(Encode(m) + junk) == Parsed(m))
       <==> Small(m.options) && Exact(0, m.options)
  {
    hide Encode, Decode, Exact, Small, PacketSize;
    WrittenWithinReserved(m);
    RoundTrip(m);
    if Exact(0, m.options) {
      forall junk: seq<Byte> | |Encode(m)| + |junk| == PacketSize(m)
        ensures Encode(m) + junk == Encode(m)
      {
        assert junk == [];
      }
      assert |Encode(m)| + |Zeros(0)| == PacketSize(m);
    } else {
      var n := PacketSize(m) - |Encode(m)|;
      ZerosMislead(m, n);
      assert |Encode(m)| + |Zeros(n)| == PacketSize(m);
    }
  }

  /** Zero bytes behind a packet lengthen its payload or add empty options. */
  lemma ZerosMislead(m: CoapMessage, n: nat)
    requires FaultOf(m) == None && n > 0
    ensures Decode(Encode(m) + Zeros(n)) != Parsed(m)
  {
    hide Encode, Decode;
    var z := Zeros(n);
    if !Small(m.options) {
      if Decode(Encode(m) + z) == Parsed(m) {
        ParsedIsComposable(Encode(m) + z);
      }
    } else {
      DecodeFollowed(m, z);
      var last: U16 := LastNumber(0, m.options);
      if m.payload == [] {
        var rest := PayloadBytes(m.payload) + z;
        assert rest == z && z[0] == 0;
        var d := DecodeOption(z, last);
        assert d.One?;
        var more := InsertSorted(m.options, d.option);
        InsertAscends(m.options, d.option);
        DecodedOptions(z[d.used..], d.option.number, more);
      } else {
        var rest := PayloadBytes(m.payload) + z;
        assert rest[1..] == m.payload + z;
      }
    }
  }

  // ----- packets that are not read back -----

  function OneOptionMessage(number: Number): CoapMessage { CoapMessage(0, 0, 1, 0, [], [CoapOption(number, [])], []) }

  /** The confirmable GET of the resource "temperature" with a token, in the bytes of the example in
      appendix A of RFC 7252. */
  lemma TemperatureRequest()
    ensures var path: seq<Byte> := [116, 101, 109, 112, 101, 114, 97, 116, 117, 114, 101];
            var m := CoapMessage(0, 0, 1, 0x7d35, [0x20], [CoapOption(11, path)], []);
            var b := [0x41, 0x01, 0x7d, 0x35, 0x20, 0xbb] + path;
            FaultOf(m) == None && Encode(m) == b && Decode(b) == Parsed(m)
  {
    hide Decode;
    var path: seq<Byte> := [116, 101, 109, 112, 101, 114, 97, 116, 117, 114, 101];
    var o := CoapOption(11, path);
    var m := CoapMessage(0, 0, 1, 0x7d35, [0x20], [o], []);
    assert m.options[1..] == [] && EncodeOptions(0, m.options) == EncodeOption(11, path) + [] == [0xbb] + path;
    RoundTrip(m);
  }

  /** A packet with option number 65536 is composed, and read back as one with option number 0. */
  lemma LargeNumberIsLost()
    ensures var m := OneOptionMessage(65536);
            && FaultOf(m) == None && Encode(m) == [64, 1, 0, 0, 224, 254, 243]
            && Decode(Encode(m)) == Parsed(OneOptionMessage(0)) && OneOptionMessage(0) != m
  {
    hide DecodeOptions, Decode;
    var m, z := OneOptionMessage(65536), OneOptionMessage(0);
    var o := EncodeOption(65536, []);
    assert m.options[1..] == [] && EncodeOptions(0, m.options) == o + [] == o;
    assert Encode(m) == Head(m) + m.token + (o + []);
    DecodeHead(m, o);
    LargeNumberOption(o);
    assert m.(options := z.options, payload := []) == z;
  }

  lemma LargeNumberOption(o: seq<Byte>)
    requires o == EncodeOption(65536, [])
    ensures DecodeOptions(o, 0, []) == Tail([CoapOption(0, [])], [])
  {
    assert o == [224, 254, 243];
    assert o[1..] == [254, 243] && o[3..] == [];
    assert GetExtended(14, o[1..]) == Got(0, 2);
    assert DecodeOption(o, 0) == One(CoapOption(0, []), 3) by { assert o[3..3] == []; }
    assert InsertSorted([], CoapOption(0, [])) == [CoapOption(0, [])];
  }

  /** Two options with number 13: one byte more is reserved than written, and when it is zero the
      packet has one option more when it is read. */
  lemma SpareByteAddsOption()
    ensures var o := CoapOption(13, []);
            var m := CoapMessage(0, 0, 1, 0, [], [o, o], []);
            && FaultOf(m) == None && Encode(m) == [64, 1, 0, 0, 208, 0, 0] && PacketSize(m) == 8
            && Decode(Encode(m) + [0]) == Parsed(m.(options := [o, o, o]))
  {
    hide DecodeOptions, Decode, EncodeOption, Encode;
    var o := CoapOption(13, []);
    var m := CoapMessage(0, 0, 1, 0, [], [o, o], []);
    DecodeFollowed(m, [0]);
    SpareOption(o);
    SpareSize(m, o);
    assert [] + [0] == [0];
  }

  lemma SpareOption(o: CoapOption)
    requires o == CoapOption(13, [])
    ensures DecodeOptions([0], 13, [o, o]) == Tail([o, o, o], [])
  {
    var b: seq<Byte> := [0];
    assert b[1..] == [] && b[1..1] == [];
    assert DecodeOption(b, 13) == One(o, 1);
    InsertAt([o, o], 2, o);
    assert [o, o][..2] + [o] + [o, o][2..] == [o, o, o];
    assert DecodeOptions(b, 13, [o, o]) == DecodeOptions(b[1..], 13, [o, o, o]);
  }

  lemma SpareSize(m: CoapMessage, o: CoapOption)
    requires o == CoapOption(13, []) && m == CoapMessage(0, 0, 1, 0, [], [o, o], [])
    ensures FaultOf(m) == None && PacketSize(m) == 8 && Encode(m) == [64, 1, 0, 0, 208, 0, 0]
  {
    assert m.options[1..] == [o] && [o][1..] == [];
    assert OptionSize(o) == 2 && OptionsSize([o]) == OptionSize(o) + OptionsSize([]);
    assert OptionsSize(m.options) == OptionSize(o) + OptionsSize([o]);
    assert EncodeOptions(13, [o]) == EncodeOption(0, []) + EncodeOptions(13, []);
    assert EncodeOptions(0, m.options) == EncodeOption(13, []) + EncodeOptions(13, [o]);
    assert EncodeOption(0, []) == [0] && EncodeOption(13, []) == [208, 0];
  }
}
