/** The transmitter: an event is wrapped in an MFM frame whose header carries the Centrum words. */
module Transmitter {
  import opened Bytes
  import Framing
  import opened Words
  import opened EventTree
  import opened EventMachine

  const BUFFER_SIZE: nat := 0x40_0000

  const HEADER_SIZE: nat := 24

  // ----- the Centrum words among the trigger information -----

  predicate Is(t: TrigInfo, id: nat) { t.id == id }

  predicate AtMostOnce(ts: seq<TrigInfo>, id: nat) {
    forall i, j :: 0 <= i < j < |ts| ==> !(Is(ts[i], id) && Is(ts[j], id))
  }

  /** The value of the record with this identifier, zero when there is none. */
  function ValueOf(ts: seq<TrigInfo>, id: nat): nat {
    if ts == [] then 0
    else if Is(ts[|ts| - 1], id) then ts[|ts| - 1].value
    else ValueOf(ts[..|ts| - 1], id)
  }

  lemma {:induction false} ValueOfNone(ts: seq<TrigInfo>, id: nat)
    requires forall t :: t in ts ==> !Is(t, id)
    ensures ValueOf(ts, id) == 0
    decreases |ts|
  {
    if ts != [] {
      ValueOfNone(ts[..|ts| - 1], id);
    }
  }

  /** The order of the records does not matter. */
  lemma {:induction false} ValueOfMember(ts: seq<TrigInfo>, id: nat, i: nat)
    requires AtMostOnce(ts, id) && i < |ts| && Is(ts[i], id)
    ensures ValueOf(ts, id) == ts[i].value
    decreases |ts|
  {
    var n := |ts| - 1;
    if i < n {
      assert !Is(ts[n], id);
      ValueOfMember(ts[..n], id, i);
    }
  }

  predicate CentrumOnce(ts: seq<TrigInfo>) {
    AtMostOnce(ts, 0x200) && AtMostOnce(ts, 0x201) && AtMostOnce(ts, 0x202) && AtMostOnce(ts, 0x203)
  }

  /** Centrum 1 to 3 are 30-bit values. */
  predicate CentrumReady(ts: seq<TrigInfo>) {
    && CentrumOnce(ts)
    && (forall t :: t in ts && 0x201 <= t.id <= 0x203 ==> t.value < 0x4000_0000)
  }

  /** The twelve bytes of the header field. Bytes 0, 4 and 8 are each shared by two Centrum words. */
  function FieldBytes(m0: nat, h1: nat, l1: nat, h2: nat, l2: nat, h3: nat, v1: nat, v2: nat, v3: nat): (b: seq<Byte>)
    requires m0 < 64 && h1 < 4 && l1 < 16 && h2 < 16 && l2 < 4 && h3 < 64
    ensures |b| == 12
  {
    [m0 * 4 + h1, v1 / 0x10_0000 % 256, v1 / 0x1000 % 256, v1 / 16 % 256,
     l1 * 16 + h2, v2 / 0x4_0000 % 256, v2 / 0x400 % 256, v2 / 4 % 256,
     l2 * 64 + h3, v3 / 0x1_0000 % 256, v3 / 0x100 % 256, v3 % 256]
  }

  /** The header field for four Centrum values. */
  function HeaderBytes(c0: nat, c1: nat, c2: nat, c3: nat): (b: seq<Byte>)
    requires c1 < 0x4000_0000 && c2 < 0x4000_0000 && c3 < 0x4000_0000
    ensures |b| == 12
  {
    FieldBytes(c0 % 64, c1 / 0x1000_0000, c1 % 16, c2 / 0x400_0000, c2 % 4, c3 / 0x100_0000, c1, c2, c3)
  }

  /** One more byte at the low end. */
  function Push(n: nat, b: Byte): nat { n * 256 + b as nat }

  function BigEndian(s: seq<Byte>): nat {
    if s == [] then 0 else Push(BigEndian(s[..|s| - 1]), s[|s| - 1])
  }

  /** The Centrum words side by side: six bits of the first and thirty of each other. */
  function CentrumNumber(c0: nat, c1: nat, c2: nat, c3: nat): nat {
    ((c0 % 64 * 0x4000_0000 + c1) * 0x4000_0000 + c2) * 0x4000_0000 + c3
  }

  /** Read as one big-endian number, the header field is the Centrum words side by side. */
  lemma HeaderField(c0: nat, c1: nat, c2: nat, c3: nat)
    requires c1 < 0x4000_0000 && c2 < 0x4000_0000 && c3 < 0x4000_0000
    ensures BigEndian(HeaderBytes(c0, c1, c2, c3))
         == CentrumNumber(c0, c1, c2, c3)
  {
    var b := HeaderBytes(c0, c1, c2, c3);
    BigEndianTwelve(b);
    Split1(c1);
    Split2(c2);
    Split3(c3);
  }

  lemma Split1(c: nat)
    ensures c == (((c / 0x1000_0000 * 256 + c / 0x10_0000 % 256) * 256 + c / 0x1000 % 256) * 256 + c / 16 % 256) * 16
               + c % 16
  {
    assert c / 0x1000 == c / 16 / 256 && c / 0x10_0000 == c / 16 / 256 / 256;
    assert c / 0x1000_0000 == c / 16 / 256 / 256 / 256;
  }

  lemma Split2(c: nat)
    ensures c == (((c / 0x400_0000 * 256 + c / 0x4_0000 % 256) * 256 + c / 0x400 % 256) * 256 + c / 4 % 256) * 4 + c % 4
  {
    assert c / 0x400 == c / 4 / 256 && c / 0x4_0000 == c / 4 / 256 / 256;
    assert c / 0x400_0000 == c / 4 / 256 / 256 / 256;
  }

  lemma Split3(c: nat)
    ensures c == ((c / 0x100_0000 * 256 + c / 0x1_0000 % 256) * 256 + c / 0x100 % 256) * 256 + c % 256
  {
    assert c / 0x1_0000 == c / 256 / 256 && c / 0x100_0000 == c / 256 / 256 / 256;
  }

  lemma BigEndianTwelve(b: seq<Byte>)
    requires |b| == 12
    ensures BigEndian(b) == Push(Push(Push(Push(Push(Push(BigEndian(b[..6]), b[6]), b[7]), b[8]), b[9]), b[10]), b[11])
    ensures BigEndian(b[..6]) == Push(Push(Push(Push(Push(b[0], b[1]), b[2]), b[3]), b[4]), b[5])
  {
    BigEndianSix(b[..6]);
    assert b[..11][..10] == b[..10] && b[..10][..9] == b[..9] && b[..9][..8] == b[..8];
    assert b[..8][..7] == b[..7] && b[..7][..6] == b[..6];
    assert BigEndian(b[..7]) == Push(BigEndian(b[..6]), b[6]);
    assert BigEndian(b[..8]) == Push(BigEndian(b[..7]), b[7]);
    assert BigEndian(b[..9]) == Push(BigEndian(b[..8]), b[8]);
    assert BigEndian(b[..10]) == Push(BigEndian(b[..9]), b[9]);
    assert BigEndian(b[..11]) == Push(BigEndian(b[..10]), b[10]);
  }

  lemma BigEndianSix(b: seq<Byte>)
    requires |b| == 6
    ensures BigEndian(b) == Push(Push(Push(Push(Push(b[0], b[1]), b[2]), b[3]), b[4]), b[5])
  {
    assert b[..5][..4] == b[..4] && b[..4][..3] == b[..3] && b[..3][..2] == b[..2] && b[..2][..1] == b[..1];
    assert b[..1][..0] == [];
    assert BigEndian(b[..1]) == b[0];
    assert BigEndian(b[..2]) == Push(BigEndian(b[..1]), b[1]);
    assert BigEndian(b[..3]) == Push(BigEndian(b[..2]), b[2]);
    assert BigEndian(b[..4]) == Push(BigEndian(b[..3]), b[3]);
    assert BigEndian(b[..5]) == Push(BigEndian(b[..4]), b[4]);
  }

  // ----- the frame -----

  /** The frame size in bytes, rounded up to whole 16-bit units. */
  function FrameSize(byteSize: nat): (n: nat)
    ensures n % 2 == 0 && 24 + byteSize <= n <= 25 + byteSize
  {
    var n := 20 + 4 + byteSize;
    if n % 2 == 1 then n + 1 else n
  }

  /** The header field after one more trigger information record: bytes that two Centrum words
      share are OR-ed, the others overwritten. */
  function WithRecord(b: seq<Byte>, t: TrigInfo): (r: seq<Byte>)
    requires |b| == 12
    ensures |r| == 12
  {
    var v := t.value;
    if t.id == 0x200 then b[0 := Or(b[0], v % 64 * 4)]
    else if t.id == 0x201 then
      [Or(b[0], v / 0x1000_0000 % 256), v / 0x10_0000 % 256, v / 0x1000 % 256, v / 16 % 256, Or(b[4], v % 16 * 16)] + b[5..]
    else if t.id == 0x202 then
      b[..4] + [Or(b[4], v / 0x400_0000 % 256), v / 0x4_0000 % 256, v / 0x400 % 256, v / 4 % 256, Or(b[8], v % 4 * 64)]
      + b[9..]
    else if t.id == 0x203 then
      b[..8] + [Or(b[8], v / 0x100_0000 % 256), v / 0x1_0000 % 256, v / 0x100 % 256, v % 256]
    else b
  }

  function EmptyField(): (b: seq<Byte>)
    ensures |b| == 12 && forall k :: 0 <= k < 12 ==> b[k] == 0
  {
    seq(12, _ => 0)
  }

  function WithRecords(ts: seq<TrigInfo>): (b: seq<Byte>)
    ensures |b| == 12
  {
    if ts == [] then EmptyField()
    else WithRecord(WithRecords(ts[..|ts| - 1]), ts[|ts| - 1])
  }

  // ----- what repeated records leave behind -----

  /** The six bit fields that Centrum words put into shared bytes. */
  datatype Part = C0 | C1_TOP | C1_LOW | C2_TOP | C2_LOW | C3_TOP

  function PartId(p: Part): nat {
    match p
    case C0 => 0x200
    case C1_TOP | C1_LOW => 0x201
    case C2_TOP | C2_LOW => 0x202
    case C3_TOP => 0x203
  }

  /** The width of a field in bits. */
  function Width(p: Part): nat {
    match p case C0 => 6 case C1_TOP => 2 case C1_LOW => 4 case C2_TOP => 4 case C2_LOW => 2 case C3_TOP => 6
  }

  function PartOf(p: Part, v: nat): (r: nat)
    ensures r < Pow2(Width(p))
  {
    Powers();
    match p
    case C0 => v % 64
    case C1_TOP => v / 0x1000_0000 % 4
    case C1_LOW => v % 16
    case C2_TOP => v / 0x400_0000 % 16
    case C2_LOW => v % 4
    case C3_TOP => v / 0x100_0000 % 64
  }

  /** A field after all records: those of its word OR-ed together. */
  function Merged(ts: seq<TrigInfo>, p: Part): (r: nat)
    ensures r < Pow2(Width(p))
  {
    if ts == [] then 0
    else
      var t := ts[|ts| - 1];
      OrBound(Width(p), Merged(ts[..|ts| - 1], p), PartOf(p, t.value));
      if Is(t, PartId(p)) then OrBits(Width(p), Merged(ts[..|ts| - 1], p), PartOf(p, t.value))
      else Merged(ts[..|ts| - 1], p)
  }

  /** Centrum 1 to 3 have at most thirty bits. */
  predicate Narrow(ts: seq<TrigInfo>) {
    forall t :: t in ts && 0x201 <= t.id <= 0x203 ==> t.value < 0x4000_0000
  }

  lemma MergedSmall(ts: seq<TrigInfo>)
    ensures Merged(ts, C0) < 64 && Merged(ts, C1_TOP) < 4 && Merged(ts, C1_LOW) < 16
    ensures Merged(ts, C2_TOP) < 16 && Merged(ts, C2_LOW) < 4 && Merged(ts, C3_TOP) < 64
  {
    Powers();
  }

  /** The header field after all records. */
  function MergedField(ts: seq<TrigInfo>): (b: seq<Byte>)
    ensures |b| == 12
  {
    MergedSmall(ts);
    FieldBytes(Merged(ts, C0), Merged(ts, C1_TOP), Merged(ts, C1_LOW), Merged(ts, C2_TOP), Merged(ts, C2_LOW),
               Merged(ts, C3_TOP), ValueOf(ts, 0x201), ValueOf(ts, 0x202), ValueOf(ts, 0x203))
  }

  lemma OrSmall(n: nat, a: nat, b: nat)
    requires n == 2 || n == 4 || n == 6
    ensures OrBits(n, a, b) < if n == 2 then 4 else if n == 4 then 16 else 64
  {
    Powers();
    OrBound(n, a, b);
  }

  lemma AddCentrum0(m0: nat, h1: nat, l1: nat, h2: nat, l2: nat, h3: nat, v1: nat, v2: nat, v3: nat, t: TrigInfo)
    requires m0 < 64 && h1 < 4 && l1 < 16 && h2 < 16 && l2 < 4 && h3 < 64 && t.id == 0x200
    ensures OrBits(6, m0, t.value % 64) < 64
    ensures WithRecord(FieldBytes(m0, h1, l1, h2, l2, h3, v1, v2, v3), t)
         == FieldBytes(OrBits(6, m0, t.value % 64), h1, l1, h2, l2, h3, v1, v2, v3)
  {
    hide Or, OrBits, Pow2;
    Powers();
    OrSmall(6, m0, t.value % 64);
    OrHigh(2, m0, h1, t.value % 64);
  }

  lemma AddCentrum1(m0: nat, h1: nat, l1: nat, h2: nat, l2: nat, h3: nat, v1: nat, v2: nat, v3: nat, t: TrigInfo)
    requires m0 < 64 && h1 < 4 && l1 < 16 && h2 < 16 && l2 < 4 && h3 < 64 && t.id == 0x201 && t.value < 0x4000_0000
    ensures OrBits(2, h1, t.value / 0x1000_0000) < 4 && OrBits(4, l1, t.value % 16) < 16
    ensures WithRecord(FieldBytes(m0, h1, l1, h2, l2, h3, v1, v2, v3), t)
         == FieldBytes(m0, OrBits(2, h1, t.value / 0x1000_0000), OrBits(4, l1, t.value % 16), h2, l2, h3, t.value, v2, v3)
  {
    hide Or, OrBits, Pow2;
    Powers();
    OrSmall(2, h1, t.value / 0x1000_0000);
    OrSmall(4, l1, t.value % 16);
    OrLow(2, m0, h1, t.value / 0x1000_0000);
    OrHigh(4, l1, h2, t.value % 16);
  }

  lemma AddCentrum2(m0: nat, h1: nat, l1: nat, h2: nat, l2: nat, h3: nat, v1: nat, v2: nat, v3: nat, t: TrigInfo)
    requires m0 < 64 && h1 < 4 && l1 < 16 && h2 < 16 && l2 < 4 && h3 < 64 && t.id == 0x202 && t.value < 0x4000_0000
    ensures OrBits(4, h2, t.value / 0x400_0000) < 16 && OrBits(2, l2, t.value % 4) < 4
    ensures WithRecord(FieldBytes(m0, h1, l1, h2, l2, h3, v1, v2, v3), t)
         == FieldBytes(m0, h1, l1, OrBits(4, h2, t.value / 0x400_0000), OrBits(2, l2, t.value % 4), h3, v1, t.value, v3)
  {
    hide Or, OrBits, Pow2;
    Powers();
    OrSmall(4, h2, t.value / 0x400_0000);
    OrSmall(2, l2, t.value % 4);
    OrLow(4, l1, h2, t.value / 0x400_0000);
    OrHigh(6, l2, h3, t.value % 4);
  }

  lemma AddCentrum3(m0: nat, h1: nat, l1: nat, h2: nat, l2: nat, h3: nat, v1: nat, v2: nat, v3: nat, t: TrigInfo)
    requires m0 < 64 && h1 < 4 && l1 < 16 && h2 < 16 && l2 < 4 && h3 < 64 && t.id == 0x203 && t.value < 0x4000_0000
    ensures OrBits(6, h3, t.value / 0x100_0000) < 64
    ensures WithRecord(FieldBytes(m0, h1, l1, h2, l2, h3, v1, v2, v3), t)
         == FieldBytes(m0, h1, l1, h2, l2, OrBits(6, h3, t.value / 0x100_0000), v1, v2, t.value)
  {
    hide Or, OrBits, Pow2;
    Powers();
    OrSmall(6, h3, t.value / 0x100_0000);
    OrLow(6, l2, h3, t.value / 0x100_0000);
  }

  lemma OtherRecord(b: seq<Byte>, t: TrigInfo)
    requires |b| == 12 && !(0x200 <= t.id <= 0x203)
    ensures WithRecord(b, t) == b
  {}

  /** One record more. */
  lemma MergedStep(ts: seq<TrigInfo>, t: TrigInfo)
    requires 0x201 <= t.id <= 0x203 ==> t.value < 0x4000_0000
    ensures WithRecord(MergedField(ts), t) == MergedField(ts + [t])
  {
    hide WithRecord, FieldBytes, OrBits, Pow2;
    MergedSmall(ts);
    MergedSmall(ts + [t]);
    assert (ts + [t])[..|ts|] == ts;
    var m0, h1, l1, h2 := Merged(ts, C0), Merged(ts, C1_TOP), Merged(ts, C1_LOW), Merged(ts, C2_TOP);
    var l2, h3 := Merged(ts, C2_LOW), Merged(ts, C3_TOP);
    var v1, v2, v3 := ValueOf(ts, 0x201), ValueOf(ts, 0x202), ValueOf(ts, 0x203);
    if t.id == 0x200 {
      AddCentrum0(m0, h1, l1, h2, l2, h3, v1, v2, v3, t);
    } else if t.id == 0x201 {
      AddCentrum1(m0, h1, l1, h2, l2, h3, v1, v2, v3, t);
    } else if t.id == 0x202 {
      AddCentrum2(m0, h1, l1, h2, l2, h3, v1, v2, v3, t);
    } else if t.id == 0x203 {
      AddCentrum3(m0, h1, l1, h2, l2, h3, v1, v2, v3, t);
    } else {
      OtherRecord(MergedField(ts), t);
    }
  }

  lemma {:induction false} RecordsMerge(ts: seq<TrigInfo>)
    requires Narrow(ts)
    ensures WithRecords(ts) == MergedField(ts)
    decreases |ts|
  {
    hide WithRecord, MergedField;
    if ts == [] {
      ZeroField();
    } else {
      var n := |ts| - 1;
      assert ts[n] in ts && ts == ts[..n] + [ts[n]];
      RecordsMerge(ts[..n]);
      MergedStep(ts[..n], ts[n]);
    }
  }

  lemma ZeroField()
    ensures EmptyField() == MergedField([])
  {
    hide EmptyField, FieldBytes;
    MergedSmall([]);
    FieldAt(0, 0, 0, 0, 0, 0, 0, 0, 0);
    SameTwelve(EmptyField(), FieldBytes(0, 0, 0, 0, 0, 0, 0, 0, 0));
  }

  lemma FieldAt(m0: nat, h1: nat, l1: nat, h2: nat, l2: nat, h3: nat, v1: nat, v2: nat, v3: nat)
    requires m0 < 64 && h1 < 4 && l1 < 16 && h2 < 16 && l2 < 4 && h3 < 64
    ensures var b := FieldBytes(m0, h1, l1, h2, l2, h3, v1, v2, v3);
            && b[0] == m0 * 4 + h1 && b[1] == v1 / 0x10_0000 % 256 && b[2] == v1 / 0x1000 % 256 && b[3] == v1 / 16 % 256
            && b[4] == l1 * 16 + h2 && b[5] == v2 / 0x4_0000 % 256 && b[6] == v2 / 0x400 % 256 && b[7] == v2 / 4 % 256
            && b[8] == l2 * 64 + h3 && b[9] == v3 / 0x1_0000 % 256 && b[10] == v3 / 0x100 % 256 && b[11] == v3 % 256
  {}

  // ----- when repeated records do no harm -----

  /** Every record of the word sets in this field only bits that its last record sets. */
  predicate Harmless(ts: seq<TrigInfo>, p: Part) {
    forall t :: t in ts && Is(t, PartId(p)) ==> Covered(Width(p), PartOf(p, t.value), PartOf(p, ValueOf(ts, PartId(p))))
  }

  lemma {:induction false} MergedCovered(ts: seq<TrigInfo>, p: Part, m: nat)
    requires m < Pow2(Width(p))
    ensures Covered(Width(p), Merged(ts, p), m) <==>
            forall t :: t in ts && Is(t, PartId(p)) ==> Covered(Width(p), PartOf(p, t.value), m)
    decreases |ts|
  {
    hide Covered, OrBits, PartOf, Width, PartId;
    if ts == [] {
      CoveredZero(Width(p), m);
    } else {
      var n := |ts| - 1;
      MergedCovered(ts[..n], p, m);
      CoveredJoin(Width(p), Merged(ts[..n], p), PartOf(p, ts[n].value), m);
      assert ts == ts[..n] + [ts[n]];
    }
  }

  lemma CoveredZero(n: nat, m: nat)
    requires m < Pow2(n)
    ensures Covered(n, 0, m)
  {
    OrNothing(n, m);
  }

  lemma {:induction false} ValueOfSome(ts: seq<TrigInfo>, id: nat) returns (t: TrigInfo)
    requires exists u :: u in ts && Is(u, id)
    ensures t in ts && Is(t, id) && t.value == ValueOf(ts, id)
    decreases |ts|
  {
    var n := |ts| - 1;
    if Is(ts[n], id) {
      t := ts[n];
    } else {
      assert ts == ts[..n] + [ts[n]];
      t := ValueOfSome(ts[..n], id);
    }
  }

  /** A field is that of the last record exactly when the other records did no harm to it. */
  lemma MergedIsLast(ts: seq<TrigInfo>, p: Part)
    ensures Merged(ts, p) == PartOf(p, ValueOf(ts, PartId(p))) <==> Harmless(ts, p)
  {
    hide Covered, OrBits, PartOf, Width, PartId, Is, Merged;
    var w, last := Width(p), PartOf(p, ValueOf(ts, PartId(p)));
    MergedCovered(ts, p, last);
    MergedCovered(ts, p, Merged(ts, p));
    CoveredSelf(w, last);
    CoveredSelf(w, Merged(ts, p));
    if exists u :: u in ts && Is(u, PartId(p)) {
      var t := ValueOfSome(ts, PartId(p));
      assert Covered(w, PartOf(p, t.value), Merged(ts, p));
      if Harmless(ts, p) {
        CoveredBoth(w, Merged(ts, p), last);
      }
    } else {
      ValueOfNone(ts, PartId(p));
      NoneMerged(ts, p);
    }
  }

  lemma CoveredSelf(n: nat, a: nat)
    requires a < Pow2(n)
    ensures Covered(n, a, a)
  {
    OrSelf(n, a);
  }

  lemma {:induction false} NoneMerged(ts: seq<TrigInfo>, p: Part)
    requires forall t :: t in ts ==> !Is(t, PartId(p))
    ensures Merged(ts, p) == 0 == PartOf(p, 0)
    decreases |ts|
  {
    if ts != [] {
      NoneMerged(ts[..|ts| - 1], p);
    }
  }

  lemma {:induction false} BigEndianInjective(a: seq<Byte>, b: seq<Byte>)
    requires |a| == |b| && BigEndian(a) == BigEndian(b)
    ensures a == b
  {
    if a != [] {
      var n := |a| - 1;
      PushInjective(BigEndian(a[..n]), a[n], BigEndian(b[..n]), b[n]);
      BigEndianInjective(a[..n], b[..n]);
      assert a == a[..n] + [a[n]] && b == b[..n] + [b[n]];
    }
  }

  lemma PushInjective(m: nat, a: Byte, n: nat, b: Byte)
    requires Push(m, a) == Push(n, b)
    ensures m == n && a == b
  {}

  lemma {:induction false} ValueNarrow(ts: seq<TrigInfo>, id: nat)
    requires Narrow(ts) && 0x201 <= id <= 0x203
    ensures ValueOf(ts, id) < 0x4000_0000
    decreases |ts|
  {
    if ts != [] {
      var n := |ts| - 1;
      assert ts[n] in ts && ts == ts[..n] + [ts[n]];
      ValueNarrow(ts[..n], id);
    }
  }

  /** For records whose values have at most thirty bits, repeated or not and in any order, the
      header field is the last Centrum words side by side exactly when in every shared field every
      record sets only bits that the last record of its word sets. */
  lemma CentrumExact(ts: seq<TrigInfo>)
    requires Narrow(ts)
    ensures BigEndian(WithRecords(ts))
         == CentrumNumber(ValueOf(ts, 0x200), ValueOf(ts, 0x201), ValueOf(ts, 0x202), ValueOf(ts, 0x203))
       <==> forall p: Part :: Harmless(ts, p)
  {
    hide BigEndian, WithRecords, Merged, Harmless, ValueOf, CentrumNumber, Pow2;
    var c0, c1, c2, c3 := ValueOf(ts, 0x200), ValueOf(ts, 0x201), ValueOf(ts, 0x202), ValueOf(ts, 0x203);
    ValueNarrow(ts, 0x201);
    ValueNarrow(ts, 0x202);
    ValueNarrow(ts, 0x203);
    RecordsMerge(ts);
    HeaderField(c0, c1, c2, c3);
    if BigEndian(WithRecords(ts)) == BigEndian(HeaderBytes(c0, c1, c2, c3)) {
      BigEndianInjective(WithRecords(ts), HeaderBytes(c0, c1, c2, c3));
    }
    FieldIsHeader(ts, c0, c1, c2, c3);
    forall p: Part
      ensures Merged(ts, p) == PartOf(p, ValueOf(ts, PartId(p))) <==> Harmless(ts, p)
    {
      MergedIsLast(ts, p);
    }
    SixParts(ts);
  }

  predicate LastPart(ts: seq<TrigInfo>, p: Part) { Merged(ts, p) == PartOf(p, ValueOf(ts, PartId(p))) }

  /** Every shared field is that of the last record. */
  predicate AllLast(ts: seq<TrigInfo>) {
    && LastPart(ts, C0) && LastPart(ts, C1_TOP) && LastPart(ts, C1_LOW) && LastPart(ts, C2_TOP)
    && LastPart(ts, C2_LOW) && LastPart(ts, C3_TOP)
  }

  lemma SixParts(ts: seq<TrigInfo>)
    ensures (forall p: Part :: LastPart(ts, p)) <==> AllLast(ts)
  {
    hide LastPart;
    if AllLast(ts) {
      forall p: Part
        ensures LastPart(ts, p)
      {
        match p
        case C0 =>
        case C1_TOP =>
        case C1_LOW =>
        case C2_TOP =>
        case C2_LOW =>
        case C3_TOP =>
      }
    }
  }

  lemma FieldIsHeader(ts: seq<TrigInfo>, c0: nat, c1: nat, c2: nat, c3: nat)
    requires c0 == ValueOf(ts, 0x200) && c1 == ValueOf(ts, 0x201) && c2 == ValueOf(ts, 0x202) && c3 == ValueOf(ts, 0x203)
    requires c1 < 0x4000_0000 && c2 < 0x4000_0000 && c3 < 0x4000_0000
    ensures MergedField(ts) == HeaderBytes(c0, c1, c2, c3) <==> AllLast(ts)
  {
    hide Merged, ValueOf, Pow2, FieldBytes;
    MergedSmall(ts);
    FieldsSame(Merged(ts, C0), Merged(ts, C1_TOP), Merged(ts, C1_LOW), Merged(ts, C2_TOP), Merged(ts, C2_LOW),
               Merged(ts, C3_TOP), c0 % 64, c1 / 0x1000_0000, c1 % 16, c2 / 0x400_0000, c2 % 4, c3 / 0x100_0000, c1, c2, c3);
  }

  lemma FieldsSame(a0: nat, a1: nat, a2: nat, a3: nat, a4: nat, a5: nat,
                   b0: nat, b1: nat, b2: nat, b3: nat, b4: nat, b5: nat, v1: nat, v2: nat, v3: nat)
    requires a0 < 64 && a1 < 4 && a2 < 16 && a3 < 16 && a4 < 4 && a5 < 64
    requires b0 < 64 && b1 < 4 && b2 < 16 && b3 < 16 && b4 < 4 && b5 < 64
    ensures FieldBytes(a0, a1, a2, a3, a4, a5, v1, v2, v3) == FieldBytes(b0, b1, b2, b3, b4, b5, v1, v2, v3) <==>
            a0 == b0 && a1 == b1 && a2 == b2 && a3 == b3 && a4 == b4 && a5 == b5
  {
    var a, b := FieldBytes(a0, a1, a2, a3, a4, a5, v1, v2, v3), FieldBytes(b0, b1, b2, b3, b4, b5, v1, v2, v3);
    assert a[0] == a0 * 4 + a1 && a[4] == a2 * 16 + a3 && a[8] == a4 * 64 + a5;
    assert b[0] == b0 * 4 + b1 && b[4] == b2 * 16 + b3 && b[8] == b4 * 64 + b5;
  }

  /** In particular, for records that occur at most once. */
  lemma CentrumHeader(ts: seq<TrigInfo>)
    requires CentrumReady(ts)
    ensures BigEndian(WithRecords(ts))
         == CentrumNumber(ValueOf(ts, 0x200), ValueOf(ts, 0x201), ValueOf(ts, 0x202), ValueOf(ts, 0x203))
  {
    hide BigEndian, WithRecords, CentrumNumber;
    CentrumExact(ts);
    forall p: Part
      ensures Harmless(ts, p)
    {
      OnceIsHarmless(ts, p);
    }
  }

  lemma OnceIsHarmless(ts: seq<TrigInfo>, p: Part)
    requires CentrumReady(ts)
    ensures Harmless(ts, p)
  {
    hide PartOf, Covered, Width;
    forall t | t in ts && Is(t, PartId(p))
      ensures Covered(Width(p), PartOf(p, t.value), PartOf(p, ValueOf(ts, PartId(p))))
    {
      var i :| 0 <= i < |ts| && ts[i] == t;
      ValueOfMember(ts, PartId(p), i);
      CoveredSelf(Width(p), PartOf(p, t.value));
    }
  }

  /** A Centrum word that occurs twice can leave a mixture: 1 and then 2 do not arrive as 2. */
  lemma RepeatedCentrumMixes()
    ensures var ts := [TrigInfo(0x200, 1), TrigInfo(0x200, 2)];
      && Narrow(ts) && ValueOf(ts, 0x200) == 2 && !Harmless(ts, C0) && Merged(ts, C0) == 3
      && BigEndian(WithRecords(ts)) != CentrumNumber(2, 0, 0, 0)
  {
    hide BigEndian, WithRecords, CentrumNumber, OrBits, Harmless, Merged;
    var t, u := TrigInfo(0x200, 1), TrigInfo(0x200, 2);
    var ts := [t, u];
    assert ts[..1] == [t] && [t][..0] == [];
    MergedTwo(t, u);
    MergedIsLast(ts, C0);
    CentrumExact(ts);
    assert ValueOf([t], 0x201) == 0 && ValueOf([t], 0x202) == 0 && ValueOf([t], 0x203) == 0;
  }

  lemma MergedTwo(t: TrigInfo, u: TrigInfo)
    requires t == TrigInfo(0x200, 1) && u == TrigInfo(0x200, 2)
    ensures Merged([t, u], C0) == 3
  {
    hide OrBits;
    assert [t, u][..1] == [t] && [t][..0] == [];
    assert Merged([t], C0) == OrBits(6, 0, 1);
    OrNothingSix();
  }

  lemma OrNothingSix()
    ensures OrBits(6, 0, 1) == 1 && OrBits(6, 1, 2) == 3
  {
    OrNothing(6, 1);
    Powers();
    assert OrBits(6, 1, 2) == 2 * OrBits(5, 0, 1) + 1 && OrBits(5, 0, 1) == 2 * OrBits(4, 0, 0) + 1;
    OrNothing(4, 0);
  }

  /** The frame of an event: header, Centrum field, payload length and payload. The payload is
      copied up to the rounded size, so an odd one takes the byte behind it along. */
  method BuildFrame(buf: array<Byte>, ts: seq<TrigInfo>, data: nat -> Byte, byteSize: nat) returns (size: nat)
    requires buf.Length == BUFFER_SIZE && FrameSize(byteSize) <= BUFFER_SIZE
    modifies buf
    ensures size == FrameSize(byteSize) && size % 2 == 0 && 24 + byteSize <= size <= 25 + byteSize
    ensures buf[8..20] == WithRecords(ts)
    ensures BigEndian(buf[1..4]) * 2 == size && Framing.ReadLittleEndian32(buf[20..24]) == byteSize
    ensures buf[0] == 0x41 && buf[4..8] == [0x00, 0x00, 0x40, 0x00]
    ensures forall k :: 0 <= k < size - 24 ==> buf[24 + k] == data(k)
  {
    hide WithRecords, BigEndian, Framing.ReadLittleEndian32;
    size := 20 + 4 + byteSize;
    if size % 2 == 1 {
      size := size + 1;
    }
    WriteStart(buf, size);
    WriteCentrum(buf, ts);
    ghost var field, start := buf[8..20], buf[..8];
    buf[20] := byteSize % 256;
    buf[21] := byteSize / 256 % 256;
    buf[22] := byteSize / 0x1_0000 % 256;
    buf[23] := byteSize / 0x100_0000 % 256;
    Framing.LittleEndianRoundTrip(byteSize);
    ghost var len := buf[20..24];
    assert len == Framing.LittleEndian32(byteSize);
    forall k | 0 <= k < size - HEADER_SIZE {
      buf[HEADER_SIZE + k] := data(k);
    }
    assert buf[8..20] == field && buf[..8] == start && buf[20..24] == len;
    assert buf[0] == buf[..8][0] && buf[1..4] == buf[..8][1..4] && buf[4..8] == buf[..8][4..8];
  }

  /** The first eight bytes: type and size in 16-bit units. */
  method WriteStart(buf: array<Byte>, size: nat)
    requires buf.Length >= HEADER_SIZE && size % 2 == 0 && size <= BUFFER_SIZE
    modifies buf
    ensures BigEndian(buf[..8][1..4]) * 2 == size && buf[..8][0] == 0x41 && buf[..8][4..8] == [0x00, 0x00, 0x40, 0x00]
  {
    hide BigEndian;
    buf[0] := 0x41;
    buf[1] := size / 2 / 0x1_0000 % 256;
    buf[2] := size / 2 / 0x100 % 256;
    buf[3] := size / 2 % 256;
    buf[4] := 0x00;
    buf[5] := 0x00;
    buf[6] := 0x40;
    buf[7] := 0x00;
    BigEndianThree(size / 2);
    assert buf[..8][1..4] == [size / 2 / 0x1_0000 % 256, size / 2 / 0x100 % 256, size / 2 % 256];
  }

  lemma BigEndianThree(n: nat)
    requires n < 0x100_0000
    ensures BigEndian([n / 0x1_0000 % 256, n / 0x100 % 256, n % 256]) == n
  {
    var b: seq<Byte> := [n / 0x1_0000 % 256, n / 0x100 % 256, n % 256];
    assert b[..2][..1] == b[..1] && b[..1][..0] == [];
    assert BigEndian(b[..1]) == b[0];
    assert BigEndian(b[..2]) == Push(BigEndian(b[..1]), b[1]);
    assert n / 0x1_0000 == n / 0x100 / 0x100;
  }

  /** Bytes 8 to 19 from the trigger information records. */
  method WriteCentrum(buf: array<Byte>, ts: seq<TrigInfo>)
    requires buf.Length >= HEADER_SIZE
    modifies buf
    ensures buf[8..20] == WithRecords(ts) && buf[..8] == old(buf[..8])
  {
    hide WithRecord;
    for i := 0 to 13
      invariant forall k :: 8 <= k < 8 + i ==> buf[k] == 0
      invariant buf[..8] == old(buf[..8])
    {
      buf[i + 8] := 0;
    }
    assert buf[8..20] == WithRecords(ts[..0]);
    for j := 0 to |ts|
      invariant buf[..8] == old(buf[..8]) && buf[8..20] == WithRecords(ts[..j])
    {
      AddRecord(buf, ts[j]);
      assert ts[..j + 1][..j] == ts[..j];
    }
    assert ts[..|ts|] == ts;
  }

  method AddRecord(buf: array<Byte>, t: TrigInfo)
    requires buf.Length >= HEADER_SIZE
    modifies buf
    ensures buf[8..20] == WithRecord(old(buf[8..20]), t) && buf[..8] == old(buf[..8])
  {
    hide Or;
    var v := t.value;
    if t.id == 0x200 {
      buf[8] := Or(buf[8], v % 64 * 4);
    } else if t.id == 0x201 {
      buf[8] := Or(buf[8], v / 0x1000_0000 % 256);
      buf[9] := v / 0x10_0000 % 256;
      buf[10] := v / 0x1000 % 256;
      buf[11] := v / 16 % 256;
      buf[12] := Or(buf[12], v % 16 * 16);
    } else if t.id == 0x202 {
      buf[12] := Or(buf[12], v / 0x400_0000 % 256);
      buf[13] := v / 0x4_0000 % 256;
      buf[14] := v / 0x400 % 256;
      buf[15] := v / 4 % 256;
      buf[16] := Or(buf[16], v % 4 * 64);
    } else if t.id == 0x203 {
      buf[16] := Or(buf[16], v / 0x100_0000 % 256);
      buf[17] := v / 0x1_0000 % 256;
      buf[18] := v / 0x100 % 256;
      buf[19] := v % 256;
    }
  }

  lemma SameTwelve(a: seq<Byte>, b: seq<Byte>)
    requires |a| == |b| == 12
    requires a[0] == b[0] && a[1] == b[1] && a[2] == b[2] && a[3] == b[3] && a[4] == b[4] && a[5] == b[5]
    requires a[6] == b[6] && a[7] == b[7] && a[8] == b[8] && a[9] == b[9] && a[10] == b[10] && a[11] == b[11]
    ensures a == b
  {
    forall k | 0 <= k < 12
      ensures a[k] == b[k]
    {
      if k < 6 {
      } else {
      }
    }
  }

  // ----- from the Centrum record of the event machine to the header -----

  /** The seven 15-bit words of a Centrum record, decoded by the machine and mixed with any other
      records in any order, arrive in the header field as they stood. */
  lemma CentrumArrives(ws: seq<Word>, ts: seq<TrigInfo>)
    requires |ws| == 7 && forall k :: 0 <= k < 7 ==> ws[k] < 0x8000
    requires CentrumOnce(ts)
    requires forall t :: t in CentrumInfo(ws) ==> t in ts
    ensures CentrumReady(ts)
    ensures CentrumNumber(ValueOf(ts, 0x200), ValueOf(ts, 0x201), ValueOf(ts, 0x202), ValueOf(ts, 0x203))
         == CentrumNumber(ws[0], Pair15(ws[1], ws[2]), Pair15(ws[3], ws[4]), Pair15(ws[5], ws[6]))
  {
    var c := CentrumInfo(ws);
    forall k | 0 <= k < 4
      ensures ValueOf(ts, 0x200 + k) == c[k].value
    {
      assert c[k] in c && Is(c[k], 0x200 + k);
      var i :| 0 <= i < |ts| && ts[i] == c[k];
      assert AtMostOnce(ts, 0x200 + k);
      ValueOfMember(ts, 0x200 + k, i);
    }
    forall t | t in ts && 0x201 <= t.id <= 0x203
      ensures t.value < 0x4000_0000
    {
      var i :| 0 <= i < |ts| && ts[i] == t;
      var id := t.id;
      assert AtMostOnce(ts, id) && Is(ts[i], id);
      ValueOfMember(ts, id, i);
      assert t.value == c[id - 0x200].value;
    }
    assert Centrum0(ws[0]) % 64 == ws[0] % 64;
    assert c[0].value == Centrum0(ws[0]) && c[1].value == Pair15(ws[1], ws[2]);
    assert ValueOf(ts, 0x200) == c[0].value && ValueOf(ts, 0x200 + 1) == c[1].value
        && ValueOf(ts, 0x200 + 2) == c[2].value && ValueOf(ts, 0x200 + 3) == c[3].value;
  }
}
