/** The CoAP code itself: options kept sorted in a message record, a parser that walks the input
    with a pointer, and a composer that writes through a pointer into reserved buffer space. */
module CoapCodec {
  import opened Bytes
  import opened Coap

  // ----- the receiving side -----

  datatype Flags = NO_ERROR | ERROR(status: Status)

  class NsCoapMessage {
    var flags: Flags
    var msgType: Byte
    var codeClass: Byte
    var codeDetail: Byte
    var msgId: U16
    var tokenLen: nat
    var token: seq<Byte>
    var options: seq<CoapOption>
    var payload: seq<Byte>

    constructor ()
      ensures flags == NO_ERROR && Value() == CoapMessage(0, 0, 0, 0, [], [], [])
    {
      flags := NO_ERROR;
      msgType, codeClass, codeDetail, msgId := 0, 0, 0, 0;
      tokenLen := 0;
      token, options, payload := [], [], [];
    }

    function Value(): CoapMessage
      reads this
    {
      CoapMessage(msgType, codeClass, codeDetail, msgId, token, options, payload)
    }

    method AddOption(number: Number, value: seq<Byte>)
      requires Ascending(options)
      modifies this`options
      ensures options == InsertSorted(old(options), CoapOption(number, value))
    {
      hide InsertSorted;
      var o := CoapOption(number, value);
      if options == [] {
        InsertAt(options, 0, o);
        options := [o];
      } else if options[|options| - 1].number <= number {
        InsertAt(options, |options|, o);
        options := options + [o];
      } else {
        var i := 0;
        while i < |options| && options[i].number <= number
          invariant i <= |options| && forall k :: 0 <= k < i ==> options[k].number <= number
        {
          i := i + 1;
        }
        InsertAt(options, i, o);
        options := options[..i] + [o] + options[i..];
      }
    }

    /** Fills the header fields; false when the packet is not to be read any further. */
    method ParseHeader(b: seq<Byte>) returns (ok: bool)
      requires flags == NO_ERROR
      modifies this`flags, this`msgType, this`codeClass, this`codeDetail, this`msgId, this`tokenLen
      ensures ok ==> flags == NO_ERROR && |b| >= 4 && b[0] / 64 == 1 && tokenLen == b[0] % 16 <= 8
      ensures ok ==> msgType == b[0] / 16 % 4 && codeClass == b[1] / 32 && codeDetail == b[1] % 32
      ensures ok ==> msgId == b[2] as int * 256 + b[3]
      ensures !ok ==> flags.ERROR? && Decode(b) == Failed(flags.status)
    {
      if |b| < 4 {
        flags := ERROR(NOT_ENOUGH_DATA);
        return false;
      }
      if b[0] / 64 != 1 {
        flags := ERROR(IGNORE);
        return false;
      }
      msgType := b[0] / 16 % 4;
      tokenLen := b[0] % 16;
      if tokenLen > 8 {
        flags := ERROR(FORMAT_ERROR);
        return false;
      }
      codeClass, codeDetail := b[1] / 32, b[1] % 32;
      msgId := b[2] as int * 256 + b[3];
      return true;
    }

    method GetToken(b: seq<Byte>, ptr: nat) returns (ok: bool, end: nat)
      requires flags == NO_ERROR && token == [] && ptr <= |b|
      modifies this`flags, this`token
      ensures ok <==> ptr + tokenLen <= |b|
      ensures ok ==> flags == NO_ERROR && end == ptr + tokenLen && token == b[ptr..end]
      ensures !ok ==> flags == ERROR(NOT_ENOUGH_DATA)
    {
      end := ptr;
      if tokenLen != 0 {
        if ptr + tokenLen > |b| {
          flags := ERROR(NOT_ENOUGH_DATA);
          return false, end;
        }
        token := b[ptr..ptr + tokenLen];
        end := ptr + tokenLen;
      }
      return true, end;
    }

    /** Options from `ptr` on. The result is the start of the payload, or -1 when there is none or
        the options are broken; then all options are freed. */
    method GetOptions(b: seq<Byte>, ptr: nat) returns (start: int)
      requires flags == NO_ERROR && options == [] && ptr <= |b|
      modifies this`flags, this`options
      ensures match DecodeOptions(b[ptr..], 0, [])
        case TailFailed(status) => start == -1 && flags == ERROR(status) && options == []
        case Tail(opts, rest) =>
          flags == NO_ERROR && options == opts && if start == -1 then rest == [] else 0 <= start <= |b| && b[start..] == rest
    {
      if ptr == |b| {
        return -1;
      }
      hide InsertSorted;
      var at: nat := ptr;
      var prev: U16 := 0;
      while at < |b| && b[at] != 0xFF
        invariant at <= |b| && flags == NO_ERROR && Ascending(options) && Small(options)
        invariant DecodeOptions(b[at..], prev, options) == DecodeOptions(b[ptr..], 0, [])
      {
        ghost var d := DecodeOption(b[at..], prev);
        assert d.OneFailed? ==> DecodeOptions(b[at..], prev, options) == TailFailed(d.status);
        assert d.One? ==> b[at..][d.used..] == b[at + d.used..];
        var ok, option, used := GetOption(b, at, prev);
        if !ok {
          break;
        }
        at, prev := at + used, option.number;
      }
      if flags != NO_ERROR {
        options := [];
        return -1;
      }
      if at == |b| {
        return -1;
      }
      return at + 1;
    }

    /** One option, added before its end is checked against the end of the packet. */
    method GetOption(b: seq<Byte>, ptr: nat, prev: U16) returns (ok: bool, option: CoapOption, used: nat)
      requires ptr < |b| && flags == NO_ERROR && Ascending(options) && Small(options)
      modifies this`flags, this`options
      ensures match DecodeOption(b[ptr..], prev)
        case OneFailed(status) => !ok && flags == ERROR(status)
        case One(o, n) => ok && flags == NO_ERROR && option == o && used == n && options == InsertSorted(old(options), o)
      ensures ok ==> Ascending(options) && Small(options)
    {
      hide InsertSorted, GetExtended;
      var delta: U16, len: U16 := b[ptr] / 16, b[ptr] % 16;
      option := CoapOption(0, []);
      used := 0;
      if delta == 15 || len == 15 {
        flags := ERROR(FORMAT_ERROR);
        return false, option, used;
      }
      var at := ptr + 1;
      ghost var rest := b[ptr..];
      var n: int;
      assert b[at..] == rest[1..];
      n, delta := GetExtOpt(b, at, delta);
      if n == -1 {
        flags := ERROR(NOT_ENOUGH_DATA);
        return false, option, used;
      }
      at := at + n;
      assert b[at..] == rest[1 + n..];
      n, len := GetExtOpt(b, at, len);
      if n == -1 {
        flags := ERROR(NOT_ENOUGH_DATA);
        return false, option, used;
      }
      at := at + n;
      var number := (delta as int + prev) % 0x1_0000;
      var end := if at + len <= |b| then at + len else |b|;
      option := CoapOption(number, b[at..end]);
      InsertAscends(options, option);
      AddOption(number, b[at..end]);
      if at + len > |b| {
        flags := ERROR(NOT_ENOUGH_DATA);
        return false, option, used;
      }
      used := at + len - ptr;
      assert rest[at - ptr..at - ptr + len] == b[at..end];
      return true, option, used;
    }

    /** Every packet is read as `Decode` says, into a record that starts out cleared. */
    method Parse(b: seq<Byte>)
      requires flags == NO_ERROR && Value() == CoapMessage(0, 0, 0, 0, [], [], [])
      modifies this
      ensures match Decode(b)
        case Failed(status) => flags == ERROR(status) && options == []
        case Parsed(m) => flags == NO_ERROR && Value() == m
    {
      hide DecodeOptions;
      var ok := ParseHeader(b);
      if !ok {
        return;
      }
      var end;
      ok, end := GetToken(b, 4);
      if !ok {
        return;
      }
      var start := GetOptions(b, end);
      if start == -1 {
        return;
      }
      payload := b[start..];
    }
  }

  /** An option delta or length with its extension; -1 when the packet ends before it. */
  method GetExtOpt(b: seq<Byte>, ptr: nat, optInfo: U16) returns (ret: int, info: U16)
    requires ptr <= |b| && optInfo < 15
    ensures match GetExtended(optInfo, b[ptr..])
      case NoData => ret == -1
      case Got(value, used) => ret == used && info == value
  {
    ret, info := 0, optInfo;
    if optInfo == 13 {
      if ptr < |b| {
        info := b[ptr] as int + 13;
        ret := 1;
      } else {
        ret := -1;
      }
    } else if optInfo == 14 {
      if ptr + 1 < |b| {
        info := (b[ptr] as int * 256 + b[ptr + 1] + 269) % 0x1_0000;
        ret := 2;
      } else {
        ret := -1;
      }
    }
  }

  // ----- the sending side -----

  class IoBuf {
    var buf: array<Byte>
    var len: nat

    ghost predicate Valid()
      reads this
    {
      len <= buf.Length
    }

    function Contents(): seq<Byte>
      reads this, buf
      requires Valid()
    {
      buf[..len]
    }

    constructor ()
      ensures Valid() && Contents() == []
    {
      buf := new Byte[0];
      len := 0;
    }

    /** Space behind the contents; what is in it is not determined. */
    method Append(n: nat)
      requires Valid()
      modifies this
      ensures Valid() && (buf == old(buf) || fresh(buf))
      ensures len == old(len) + n && Contents()[..old(len)] == old(Contents())
    {
      if len + n > buf.Length {
        var more := new Byte[len + n];
        for i := 0 to len
          invariant len == old(len) && buf == old(buf) && buf[..] == old(buf[..])
          invariant forall k :: 0 <= k < i ==> more[k] == buf[k]
        {
          more[i] := buf[i];
        }
        buf := more;
      }
      len := len + n;
    }
  }

  method SplitOpt(value: nat) returns (ret: nat, base: Byte, ext: U16)
    requires value <= MAX_EXTENDED
    ensures base == SplitBase(value) && ret == ExtSize(value)
    ensures ret == 1 ==> ExtBytes(value) == [ext % 256]
    ensures ret == 2 ==> ExtBytes(value) == [ext / 256, ext % 256]
  {
    ret, ext := 0, 0;
    if value < 13 {
      base := value;
    } else if value <= 0xFF + 13 {
      base := 13;
      ext := value - 13;
      ret := 1;
    } else {
      base := 14;
      ext := value - 269;
      ret := 2;
    }
  }

  method Put(buf: array<Byte>, ptr: nat, b: Byte) returns (end: nat)
    requires ptr < buf.Length
    modifies buf
    ensures end == ptr + 1 && buf[..end] == old(buf[..ptr]) + [b]
  {
    buf[ptr] := b;
    return ptr + 1;
  }

  method AddUint16(buf: array<Byte>, ptr: nat, val: U16) returns (end: nat)
    requires ptr + 2 <= buf.Length
    modifies buf
    ensures end == ptr + 2 && buf[..end] == old(buf[..ptr]) + [val / 256, val % 256]
  {
    end := Put(buf, ptr, val / 256);
    end := Put(buf, end, val % 256);
  }

  method AddOptInfo(buf: array<Byte>, ptr: nat, val: U16, len: nat) returns (end: nat)
    requires len <= 2 && ptr + len <= buf.Length
    modifies buf
    ensures end == ptr + len
    ensures buf[..end] == old(buf[..ptr]) + if len == 1 then [val % 256] else if len == 2 then [val / 256, val % 256] else []
  {
    end := ptr;
    if len == 1 {
      end := Put(buf, ptr, val % 256);
    } else if len == 2 {
      end := AddUint16(buf, ptr, val);
    }
  }

  method Copy(buf: array<Byte>, ptr: nat, s: seq<Byte>) returns (end: nat)
    requires ptr + |s| <= buf.Length
    modifies buf
    ensures end == ptr + |s| && buf[..end] == old(buf[..ptr]) + s
  {
    for i := 0 to |s|
      invariant buf[..ptr] == old(buf[..ptr])
      invariant forall k :: 0 <= k < i ==> buf[ptr + k] == s[k]
    {
      buf[ptr + i] := s[i];
    }
    return ptr + |s|;
  }

  lemma AscendingAdjacent(opts: seq<CoapOption>)
    requires forall k :: 0 <= k < |opts| - 1 ==> opts[k].number <= opts[k + 1].number
    ensures Ascending(opts)
  {
    forall i, j | 0 <= i < j < |opts|
      ensures opts[i].number <= opts[j].number
    {
      AscendingBetween(opts, i, j);
    }
  }

  lemma {:induction false} AscendingBetween(opts: seq<CoapOption>, i: nat, j: nat)
    requires forall k :: 0 <= k < |opts| - 1 ==> opts[k].number <= opts[k + 1].number
    requires i < j < |opts|
    ensures opts[i].number <= opts[j].number
    decreases j - i
  {
    if i + 1 < j {
      AscendingBetween(opts, i + 1, j);
    }
    assert opts[i].number <= opts[i + 1].number;
  }

  /** Checks the fields and the order of the options, and adds up the space to reserve. The number
      of the option before, `prev`, is never advanced. */
  method CalculatePacketSize(m: CoapMessage) returns (fault: Fault, len: nat)
    ensures fault == FaultOf(m) && (fault == None ==> len == PacketSize(m))
  {
    len := 4;
    if m.msgType > 3 {
      return Wrong(MSG_TYPE), len;
    }
    if |m.token| > 8 {
      return Wrong(TOKEN), len;
    }
    if m.codeClass > 7 {
      return Wrong(CODE_CLASS), len;
    }
    if m.codeDetail > 31 {
      return Wrong(CODE_DETAIL), len;
    }
    len := len + |m.token|;
    if |m.payload| != 0 {
      len := len + |m.payload| + 1;
    }
    var opts, prev := m.options, 0;
    for i := 0 to |opts|
      invariant len + OptionsSize(opts[i..]) == PacketSize(m)
      invariant forall k :: 0 <= k < i ==> OptionFits(opts[k])
      invariant forall k :: 0 <= k < i && k + 1 < |opts| ==> opts[k].number <= opts[k + 1].number
    {
      var o := opts[i];
      assert opts[i..][1..] == opts[i + 1..];
      len := len + 1 + ExtSize(o.number) + ExtSize(|o.value|);
      if (i + 1 < |opts| && o.number > opts[i + 1].number) || |o.value| > MAX_EXTENDED || o.number - prev > MAX_EXTENDED {
        assert !OptionFits(o) || !Ascending(opts);
        return Wrong(OPTIONS), len;
      }
      len := len + |o.value|;
    }
    AscendingAdjacent(opts);
    return None, len;
  }

  method ComposeOption(buf: array<Byte>, ptr: nat, delta: nat, value: seq<Byte>) returns (end: nat)
    requires delta <= MAX_EXTENDED && |value| <= MAX_EXTENDED
    requires ptr + |EncodeOption(delta, value)| <= buf.Length
    modifies buf
    ensures end == ptr + |EncodeOption(delta, value)|
    ensures buf[..end] == old(buf[..ptr]) + EncodeOption(delta, value)
  {
    hide ExtBytes, SplitBase, Or, Pow2;
    var deltaLen, deltaBase, deltaExt := SplitOpt(delta);
    var lenLen, lenBase, lenExt := SplitOpt(|value|);
    BasesSmall(delta);
    BasesSmall(|value|);
    Powers();
    OrAdds(4, deltaBase, lenBase);
    end := Put(buf, ptr, Or(deltaBase * 16, lenBase));
    end := AddOptInfo(buf, end, deltaExt, deltaLen);
    end := AddOptInfo(buf, end, lenExt, lenLen);
    if |value| != 0 {
      end := Copy(buf, end, value);
    }
  }

  lemma BasesSmall(v: nat)
    ensures SplitBase(v) < 15 && ExtSize(v) <= 2
  {}

  /** All options, each number as the difference to the one before. */
  method ComposeOptions(buf: array<Byte>, ptr: nat, opts: seq<CoapOption>) returns (end: nat)
    requires OptionsFit(opts) && ptr + |EncodeOptions(0, opts)| <= buf.Length
    modifies buf
    ensures end == ptr + |EncodeOptions(0, opts)| && buf[..end] == old(buf[..ptr]) + EncodeOptions(0, opts)
  {
    hide EncodeOption;
    end := ptr;
    var prev: nat := 0;
    for i := 0 to |opts|
      invariant end <= buf.Length && (i < |opts| ==> prev <= opts[i].number)
      invariant buf[..end] + EncodeOptions(prev, opts[i..]) == old(buf[..ptr]) + EncodeOptions(0, opts)
    {
      var o := opts[i];
      ghost var code := EncodeOption(o.number - prev, o.value);
      ghost var more := EncodeOptions(o.number, opts[i + 1..]);
      assert opts[i..][1..] == opts[i + 1..];
      assert EncodeOptions(prev, opts[i..]) == code + more;
      ghost var before := buf[..end];
      assert before + (code + more) == before + code + more;
      assert |before + code + more| == ptr + |EncodeOptions(0, opts)|;
      end := ComposeOption(buf, end, o.number - prev, o.value);
      prev := o.number;
    }
    assert EncodeOptions(prev, opts[|opts|..]) == [];
  }

  /** Version, type, token length, code, message id and token. The fields do not overlap. */
  method ComposeHead(buf: array<Byte>, ptr: nat, m: CoapMessage) returns (end: nat)
    requires FaultOf(m) == None && ptr + 4 + |m.token| <= buf.Length
    modifies buf
    ensures end == ptr + 4 + |m.token| && buf[..end] == old(buf[..ptr]) + (Head(m) + m.token)
  {
    hide OptionsFit, Pow2, Or;
    Powers();
    OrAdds(6, 1, m.msgType * 16);
    OrAdds(4, 4 + m.msgType, |m.token|);
    OrAdds(5, m.codeClass, m.codeDetail);
    end := Put(buf, ptr, Or(Or(64, m.msgType * 16), |m.token|));
    end := Put(buf, end, Or(m.codeClass * 32, m.codeDetail));
    end := AddUint16(buf, end, m.msgId);
    assert buf[..end] == old(buf[..ptr]) + Head(m);
    if |m.token| != 0 {
      end := Copy(buf, end, m.token);
    }
  }

  method ComposePayload(buf: array<Byte>, ptr: nat, payload: seq<Byte>) returns (end: nat)
    requires ptr + |PayloadBytes(payload)| <= buf.Length
    modifies buf
    ensures end == ptr + |PayloadBytes(payload)| && buf[..end] == old(buf[..ptr]) + PayloadBytes(payload)
  {
    end := ptr;
    if |payload| != 0 {
      end := Put(buf, end, 0xFF);
      end := Copy(buf, end, payload);
    }
  }

  /** A message with a fault leaves the buffer as it was; any other is appended in its encoding,
      behind which reserved bytes may be left over. */
  method Compose(m: CoapMessage, io: IoBuf) returns (fault: Fault)
    requires io.Valid()
    modifies io, io.buf
    ensures fault == FaultOf(m) && io.Valid()
    ensures fault != None ==> io.Contents() == old(io.Contents())
    ensures fault == None ==> io.len == old(io.len) + PacketSize(m) && old(io.Contents()) + Encode(m) <= io.Contents()
  {
    hide FaultOf, OptionsFit, EncodeOptions, PacketSize, Exact, Head, PayloadBytes;
    var size;
    fault, size := CalculatePacketSize(m);
    if fault != None {
      return;
    }
    WrittenWithinReserved(m);
    FaultlessOptions(m);
    var start := io.len;
    ghost var before := io.Contents();
    io.Append(size);
    var buf := io.buf;
    assert buf[..start] == io.Contents()[..start] == before;
    var ptr := ComposeHead(buf, start, m);
    ptr := ComposeOptions(buf, ptr, m.options);
    ptr := ComposePayload(buf, ptr, m.payload);
    assert buf[..ptr] == before + Encode(m);
    assert io.Contents()[..ptr] == buf[..ptr];
  }

  lemma FaultlessOptions(m: CoapMessage)
    requires FaultOf(m) == None
    ensures OptionsFit(m.options)
  {}
}
