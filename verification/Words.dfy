/** 16-bit words of the FAZIA event stream: their classes, bit fields and check bytes.
    A contiguous mask-and-shift is written as division and remainder by powers of two. */
module Words {
  import opened Bytes

  type Word = w: int | 0 <= w < 0x1_0000

  /** What follows a pointer in memory: the words of a chunk and then whatever lies behind it. */
  type Memory = nat -> Word

  datatype Class = DATA | EMPTY | TELID | LENGTH | CRCFE | REGID | CRCBL | EC | EOE | DETID | BLKID

  /** The class of a word, from its top nibble and, for two nibbles, bit 11. */
  function Classify(w: Word): Class {
    var nibble := w / 4096;
    if nibble < 8 then DATA
    else match nibble
      case 8 => EMPTY
      case 9 => if w / 2048 % 2 == 0 then DETID else TELID
      case 10 => LENGTH
      case 11 => CRCFE
      case 12 => if w / 2048 % 2 == 0 then BLKID else REGID
      case 13 => CRCBL
      case 14 => EC
      case _ => EOE
  }

  /** Low twelve bits: event counters and declared lengths. */
  function Low12(w: Word): nat { w % 4096 }

  /** Low eleven bits: block and region identifiers. */
  function Low11(w: Word): nat { w % 2048 }

  /** Bits 11..4: the check byte carried by CRCFE and CRCBL words. */
  function CheckByte(w: Word): nat { w / 16 % 256 }

  function TelescopeField(w: Word): nat { w % 2 }

  function FecField(w: Word): nat { w / 2 % 16 }

  function DetectorField(w: Word): nat { w / 32 % 8 }

  function DataTypeField(w: Word): nat { w / 256 % 8 }

  /** A word is its top nibble, bit 11 and the four header fields side by side; counters, identifiers
      and check bytes are cut from the same bits. */
  lemma FieldsPartition(w: Word)
    ensures var nibble, bit := w / 4096, w / 2048 % 2;
            && Low11(w) == DataTypeField(w) * 256 + DetectorField(w) * 32 + FecField(w) * 2 + TelescopeField(w)
            && Low12(w) == bit * 2048 + Low11(w) && w == nibble * 4096 + Low12(w)
            && Low12(w) == CheckByte(w) * 16 + w % 16 && nibble < 16
  {
    assert w / 32 == w / 2 / 16 && w / 256 == w / 32 / 8 && w / 2048 == w / 256 / 8 && w / 4096 == w / 2048 / 2;
    assert w / 4096 == w / 16 / 256;
  }

  function Xor(a: Word, b: Word): Word {
    XorIsWord(a, b);
    XorBits(16, a, b)
  }

  /** The running exclusive-or of `c` with the words of `s`, first word first. */
  function XorFrom(c: Word, s: seq<Word>): Word {
    if s == [] then c else Xor(XorFrom(c, s[..|s| - 1]), s[|s| - 1])
  }

  lemma XorIsWord(a: Word, b: Word)
    ensures XorBits(16, a, b) < 0x1_0000
  {
    XorBound(16, a, b);
    PowersOfBytes();
  }

  lemma PowersOfBytes()
    ensures Pow2(8) == 256 && Pow2(16) == 0x1_0000
  {
    assert Pow2(8) == 256;
    assert Pow2(12) == 4096;
  }

  /** A 16-bit accumulator folded to the byte that is compared with a check byte. */
  function Fold8(c: Word): nat { Xor(c % 256, c / 256) % 256 }

  /** The exclusive-or of two words, digit by hexadecimal digit. */
  lemma XorHex(n: nat, a3: nat, a2: nat, a1: nat, a0: nat, b3: nat, b2: nat, b1: nat, b0: nat)
    requires n == 4 && a2 < 16 && a1 < 16 && a0 < 16 && b2 < 16 && b1 < 16 && b0 < 16
    ensures XorBits(n + 12, ((a3 * 16 + a2) * 16 + a1) * 16 + a0, ((b3 * 16 + b2) * 16 + b1) * 16 + b0)
         == ((XorBits(n, a3, b3) * 16 + XorBits(n, a2, b2)) * 16 + XorBits(n, a1, b1)) * 16 + XorBits(n, a0, b0)
  {
    hide XorBits;
    var a, b := a3 * 16 + a2, b3 * 16 + b2;
    XorDigit(n, n, a3, a2, b3, b2);
    XorDigit(n + 4, n, a, a1, b, b1);
    XorDigit(n + 8, n, a * 16 + a1, a0, b * 16 + b1, b0);
  }

  lemma XorDigit(n: nat, k: nat, a: nat, d: nat, b: nat, e: nat)
    requires k == 4 && d < 16 && e < 16
    ensures XorBits(n + 4, a * 16 + d, b * 16 + e) == XorBits(n, a, b) * 16 + XorBits(k, d, e)
  {
    hide XorBits;
    Powers();
    XorFields(n, k, a, d, b, e);
  }

  /** The bytes of words, low byte first. */
  function BytesOf(ws: seq<Word>): seq<Word> {
    if ws == [] then [] else BytesOf(ws[..|ws| - 1]) + [ws[|ws| - 1] % 256, ws[|ws| - 1] / 256]
  }

  lemma FoldOfBytes(lo: Word, hi: Word)
    requires lo < 256 && hi < 256
    ensures Fold8(hi * 256 + lo) == XorBits(8, lo, hi) < 256
  {
    hide XorBits;
    PowersOfBytes();
    XorWider(8, 8, lo, hi);
    XorBound(8, lo, hi);
  }

  lemma FoldStep(c: Word, w: Word)
    ensures Fold8(c) < 256 && Fold8(Xor(c, w)) == Xor(Xor(Fold8(c), w % 256), w / 256)
  {
    hide XorBits, Fold8, Pow2;
    PowersOfBytes();
    var l, h, l', h' := c % 256, c / 256, w % 256, w / 256;
    assert c == h * 256 + l && w == h' * 256 + l';
    XorFields(8, 8, h, l, h', l');
    XorBound(8, h, h');
    XorBound(8, l, l');
    XorBound(8, l, h);
    FoldOfBytes(l, h);
    FoldOfBytes(XorBits(8, l, l'), XorBits(8, h, h'));
    var f := XorBits(8, l, h);
    XorWider(8, 8, f, l');
    XorBound(8, f, l');
    XorWider(8, 8, XorBits(8, f, l'), h');
    FourXors(l, l', h, h');
  }

  lemma FourXors(l: nat, l': nat, h: nat, h': nat)
    ensures XorBits(8, XorBits(8, l, l'), XorBits(8, h, h')) == XorBits(8, XorBits(8, XorBits(8, l, h), l'), h')
  {
    hide XorBits;
    XorAssociates(8, XorBits(8, l, l'), h, h');
    XorAssociates(8, l, l', h);
    XorCommutes(8, l', h);
    XorAssociates(8, l, h, l');
  }

  /** The folded accumulator is the exclusive-or of all bytes of the words. */
  lemma {:induction false} FoldIsByteXor(ws: seq<Word>)
    ensures Fold8(XorFrom(0, ws)) == XorFrom(0, BytesOf(ws)) < 256
    decreases |ws|
  {
    hide Fold8, Xor;
    if ws == [] {
      FoldOfNothing();
    } else {
      var n := |ws| - 1;
      FoldIsByteXor(ws[..n]);
      FoldStep(XorFrom(0, ws[..n]), ws[n]);
      var a, b := ws[n] % 256, ws[n] / 256;
      XorFromConcat(0, BytesOf(ws[..n]), [a, b]);
      assert [a, b][..1] == [a];
      XorFromOne(XorFrom(0, BytesOf(ws[..n])), a);
      FoldSmall(XorFrom(0, ws));
    }
  }

  lemma FoldOfNothing()
    ensures Fold8(0) == 0
  {
    FoldOfBytes(0, 0);
    XorNothing(8, 0);
    PowersOfBytes();
  }

  lemma FoldSmall(c: Word)
    ensures Fold8(c) < 256
  {}

  /** Which words are of which class, for all words. */
  lemma ClassRanges(w: Word)
    ensures Classify(w) == DATA <==> w < 0x8000
    ensures Classify(w) == EMPTY <==> 0x8000 <= w < 0x9000
    ensures Classify(w) == DETID <==> 0x9000 <= w < 0x9800
    ensures Classify(w) == TELID <==> 0x9800 <= w < 0xA000
    ensures Classify(w) == LENGTH <==> 0xA000 <= w < 0xB000
    ensures Classify(w) == CRCFE <==> 0xB000 <= w < 0xC000
    ensures Classify(w) == BLKID <==> 0xC000 <= w < 0xC800
    ensures Classify(w) == REGID <==> 0xC800 <= w < 0xD000
    ensures Classify(w) == CRCBL <==> 0xD000 <= w < 0xE000
    ensures Classify(w) == EC <==> 0xE000 <= w < 0xF000
    ensures Classify(w) == EOE <==> 0xF000 <= w
  {
    assert w / 4096 == w / 2048 / 2;
  }

  function LengthWord(n: nat): Word { 0xA000 + n % 4096 }

  function CrcFeWord(c: Word): Word { 0xB000 + Fold8(c) * 16 }

  function CrcBlWord(c: Word): Word { 0xD000 + Fold8(c) * 16 }

  /** `n` consecutive words of memory starting at `i`. */
  function Slice(mem: Memory, i: nat, n: nat): (s: seq<Word>)
    ensures |s| == n
    ensures forall k :: 0 <= k < n ==> s[k] == mem(i + k)
  {
    seq(n, k requires 0 <= k => mem(i + k))
  }

  lemma SliceSnoc(mem: Memory, i: nat, n: nat)
    ensures Slice(mem, i, n + 1) == Slice(mem, i, n) + [mem(i + n)]
  {}

  lemma SliceTail(mem: Memory, i: nat, n: nat)
    requires n >= 1
    ensures Slice(mem, i, n)[1..] == Slice(mem, i + 1, n - 1)
    ensures Slice(mem, i, 1) == [mem(i)]
  {}

  lemma {:induction false} XorFromConcat(c: Word, a: seq<Word>, b: seq<Word>)
    ensures XorFrom(c, a + b) == XorFrom(XorFrom(c, a), b)
    decreases |b|
  {
    if b == [] {
      assert a + b == a;
    } else {
      var b' := b[..|b| - 1];
      assert (a + b)[..|a + b| - 1] == a + b';
      XorFromConcat(c, a, b');
    }
  }

  lemma XorFromOne(c: Word, w: Word)
    ensures XorFrom(c, [w]) == Xor(c, w)
  {
    assert [w][..0] == [];
  }

  lemma FieldOf(base: nat, f: nat)
    requires f < 256
    ensures (base * 4096 + f * 16) / 4096 == base && (base * 4096 + f * 16) / 16 % 256 == f
  {}

  /** The control words an encoder writes carry exactly the fields a decoder reads. */
  lemma CheckWords(n: nat, c: Word)
    ensures Classify(LengthWord(n)) == LENGTH && Low12(LengthWord(n)) == n % 4096
    ensures Classify(CrcFeWord(c)) == CRCFE && CheckByte(CrcFeWord(c)) == Fold8(c)
    ensures Classify(CrcBlWord(c)) == CRCBL && CheckByte(CrcBlWord(c)) == Fold8(c)
  {
    FieldOf(11, Fold8(c));
    FieldOf(13, Fold8(c));
  }
}
