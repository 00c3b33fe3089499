/** Bytes, and bit fields of a byte that are OR-ed together. */
module Bytes {

  type Byte = b: int | 0 <= b < 256

  function Pow2(n: nat): (p: nat)
    ensures p >= 1
  {
    if n == 0 then 1 else 2 * Pow2(n - 1)
  }

  /** Bitwise or of the `n` low bits. */
  function OrBits(n: nat, a: nat, b: nat): nat {
    if n == 0 then 0
    else 2 * OrBits(n - 1, a / 2, b / 2) + if a % 2 == 1 || b % 2 == 1 then 1 else 0
  }

  lemma {:induction false} OrNothing(n: nat, a: nat)
    requires a < Pow2(n)
    ensures OrBits(n, a, 0) == a && OrBits(n, 0, a) == a
  {
    if n > 0 {
      OrNothing(n - 1, a / 2);
    }
  }

  /** Numbers without common bits add up. */
  lemma {:induction false} OrDisjoint(n: nat, k: nat, hi: nat, lo: nat)
    requires k <= n && hi * Pow2(k) < Pow2(n) && lo < Pow2(k)
    ensures OrBits(n, hi * Pow2(k), lo) == hi * Pow2(k) + lo
    ensures OrBits(n, lo, hi * Pow2(k)) == hi * Pow2(k) + lo
  {
    if k == 0 {
      assert hi * Pow2(0) == hi && lo == 0;
      OrNothing(n, hi);
    } else {
      var p := Pow2(k - 1);
      assert hi * Pow2(k) == 2 * (hi * p);
      assert lo / 2 < p && hi * p < Pow2(n - 1);
      OrDisjoint(n - 1, k - 1, hi, lo / 2);
    }
  }

  function Or(a: Byte, b: Byte): Byte {
    OrBits8(a, b);
    OrBits(8, a, b)
  }

  lemma OrBits8(a: Byte, b: Byte)
    ensures OrBits(8, a, b) < 256
  {
    OrBound(8, a, b);
    assert Pow2(8) == 256;
  }

  lemma {:induction false} OrBound(n: nat, a: nat, b: nat)
    ensures OrBits(n, a, b) < Pow2(n)
  {
    if n > 0 {
      OrBound(n - 1, a / 2, b / 2);
    }
  }

  lemma OrAdds(k: nat, hi: nat, lo: nat)
    requires k <= 8 && hi * Pow2(k) < 256 && lo < 256 && lo < Pow2(k)
    ensures Or(hi * Pow2(k), lo) == hi * Pow2(k) + lo == Or(lo, hi * Pow2(k))
  {
    hide OrBits;
    assert Pow2(8) == 256;
    OrDisjoint(8, k, hi, lo);
  }

  // ----- exclusive or -----

  /** Bitwise exclusive or of the `n` low bits. */
  function XorBits(n: nat, a: nat, b: nat): nat {
    if n == 0 then 0 else 2 * XorBits(n - 1, a / 2, b / 2) + if a % 2 != b % 2 then 1 else 0
  }

  lemma {:induction false} XorBound(n: nat, a: nat, b: nat)
    ensures XorBits(n, a, b) < Pow2(n)
  {
    if n > 0 {
      XorBound(n - 1, a / 2, b / 2);
    }
  }

  lemma {:induction false} XorCommutes(n: nat, a: nat, b: nat)
    ensures XorBits(n, a, b) == XorBits(n, b, a)
  {
    if n > 0 {
      XorCommutes(n - 1, a / 2, b / 2);
    }
  }

  lemma {:induction false} XorAssociates(n: nat, a: nat, b: nat, c: nat)
    ensures XorBits(n, XorBits(n, a, b), c) == XorBits(n, a, XorBits(n, b, c))
  {
    if n > 0 {
      hide XorBits;
      XorHalves(n, a, b);
      XorHalves(n, b, c);
      XorAssociates(n - 1, a / 2, b / 2, c / 2);
      XorStep(n, XorBits(n, a, b), c);
      XorStep(n, a, XorBits(n, b, c));
    }
  }

  lemma {:induction false} XorNothing(n: nat, a: nat)
    requires a < Pow2(n)
    ensures XorBits(n, a, 0) == a == XorBits(n, 0, a)
  {
    if n > 0 {
      XorNothing(n - 1, a / 2);
    }
  }

  /** More bits than the numbers have make no difference. */
  lemma {:induction false} XorWider(n: nat, k: nat, a: nat, b: nat)
    requires a < Pow2(n) && b < Pow2(n)
    ensures XorBits(n + k, a, b) == XorBits(n, a, b)
  {
    if n > 0 {
      XorWider(n - 1, k, a / 2, b / 2);
    } else {
      XorNothing(k, 0);
    }
  }

  /** Two bit fields side by side are combined one by one. */
  lemma {:induction false} XorFields(n: nat, k: nat, hi: nat, lo: nat, hi': nat, lo': nat)
    requires lo < Pow2(k) && lo' < Pow2(k)
    ensures XorBits(n + k, hi * Pow2(k) + lo, hi' * Pow2(k) + lo') == XorBits(n, hi, hi') * Pow2(k) + XorBits(k, lo, lo')
    decreases k
  {
    if k == 0 {
      assert hi * Pow2(0) + lo == hi && hi' * Pow2(0) + lo' == hi';
    } else {
      hide XorBits;
      var q := Pow2(k - 1);
      assert Pow2(k) == 2 * q && lo / 2 < q && lo' / 2 < q;
      hide Pow2;
      XorFields(n, k - 1, hi, lo / 2, hi', lo' / 2);
      XorFieldsStep(n, k, q, hi, lo, hi', lo');
    }
  }

  lemma XorFieldsStep(n: nat, k: nat, q: nat, hi: nat, lo: nat, hi': nat, lo': nat)
    requires k > 0
    requires XorBits(n + k - 1, hi * q + lo / 2, hi' * q + lo' / 2)
          == XorBits(n, hi, hi') * q + XorBits(k - 1, lo / 2, lo' / 2)
    ensures XorBits(n + k, hi * (2 * q) + lo, hi' * (2 * q) + lo') == XorBits(n, hi, hi') * (2 * q) + XorBits(k, lo, lo')
  {
    hide XorBits;
    var o, a, b := XorBits(n, hi, hi'), hi * (2 * q) + lo, hi' * (2 * q) + lo';
    FieldHalves(hi, lo, q);
    FieldHalves(hi', lo', q);
    XorStep(n + k, a, b);
    XorStep(k, lo, lo');
    assert o * (2 * q) == 2 * (o * q);
  }

  lemma XorStep(n: nat, a: nat, b: nat)
    requires n > 0
    ensures XorBits(n, a, b) == 2 * XorBits(n - 1, a / 2, b / 2) + if a % 2 != b % 2 then 1 else 0
  {}

  lemma XorHalves(n: nat, a: nat, b: nat)
    requires n > 0
    ensures XorBits(n, a, b) / 2 == XorBits(n - 1, a / 2, b / 2)
    ensures XorBits(n, a, b) % 2 == if a % 2 != b % 2 then 1 else 0
  {
    hide XorBits;
    XorStep(n, a, b);
  }

  // ----- the order of bits -----

  lemma {:induction false} OrCommutes(n: nat, a: nat, b: nat)
    ensures OrBits(n, a, b) == OrBits(n, b, a)
  {
    if n > 0 {
      OrCommutes(n - 1, a / 2, b / 2);
    }
  }

  lemma {:induction false} OrSelf(n: nat, a: nat)
    requires a < Pow2(n)
    ensures OrBits(n, a, a) == a
  {
    if n > 0 {
      OrSelf(n - 1, a / 2);
    }
  }

  /** Every bit of `a` is set in `m`. */
  predicate Covered(n: nat, a: nat, m: nat) { OrBits(n, a, m) == m }

  /** The bits of two numbers together are covered when those of each are. */
  lemma {:induction false} CoveredJoin(n: nat, a: nat, b: nat, m: nat)
    ensures Covered(n, OrBits(n, a, b), m) <==> Covered(n, a, m) && Covered(n, b, m)
  {
    if n > 0 {
      var j := OrBits(n, a, b);
      assert j / 2 == OrBits(n - 1, a / 2, b / 2);
      CoveredJoin(n - 1, a / 2, b / 2, m / 2);
      CoveredBits(n, j, m);
      CoveredBits(n, a, m);
      CoveredBits(n, b, m);
    }
  }

  lemma CoveredBits(n: nat, a: nat, m: nat)
    requires n > 0
    ensures Covered(n, a, m) <==> Covered(n - 1, a / 2, m / 2) && (a % 2 == 1 ==> m % 2 == 1)
  {}

  lemma CoveredBoth(n: nat, a: nat, b: nat)
    requires Covered(n, a, b) && Covered(n, b, a)
    ensures a == b
  {
    OrCommutes(n, a, b);
  }

  /** Two bit fields side by side are OR-ed one by one. */
  lemma {:induction false} OrFields(n: nat, k: nat, hi: nat, lo: nat, hi': nat, lo': nat)
    requires lo < Pow2(k) && lo' < Pow2(k)
    ensures OrBits(n + k, hi * Pow2(k) + lo, hi' * Pow2(k) + lo') == OrBits(n, hi, hi') * Pow2(k) + OrBits(k, lo, lo')
    decreases k
  {
    if k == 0 {
      assert hi * Pow2(0) + lo == hi && hi' * Pow2(0) + lo' == hi';
    } else {
      hide OrBits;
      var q := Pow2(k - 1);
      assert Pow2(k) == 2 * q && lo / 2 < q && lo' / 2 < q;
      hide Pow2;
      OrFields(n, k - 1, hi, lo / 2, hi', lo' / 2);
      OrFieldsStep(n, k, q, hi, lo, hi', lo');
    }
  }

  lemma OrFieldsStep(n: nat, k: nat, q: nat, hi: nat, lo: nat, hi': nat, lo': nat)
    requires k > 0
    requires OrBits(n + k - 1, hi * q + lo / 2, hi' * q + lo' / 2) == OrBits(n, hi, hi') * q + OrBits(k - 1, lo / 2, lo' / 2)
    ensures OrBits(n + k, hi * (2 * q) + lo, hi' * (2 * q) + lo') == OrBits(n, hi, hi') * (2 * q) + OrBits(k, lo, lo')
  {
    hide OrBits;
    var o, a, b := OrBits(n, hi, hi'), hi * (2 * q) + lo, hi' * (2 * q) + lo';
    FieldHalves(hi, lo, q);
    FieldHalves(hi', lo', q);
    OrStep(n + k, a, b);
    OrStep(k, lo, lo');
    assert o * (2 * q) == 2 * (o * q);
  }

  lemma OrStep(n: nat, a: nat, b: nat)
    requires n > 0
    ensures OrBits(n, a, b) == 2 * OrBits(n - 1, a / 2, b / 2) + if a % 2 == 1 || b % 2 == 1 then 1 else 0
  {}

  lemma FieldHalves(hi: nat, lo: nat, q: nat)
    ensures (hi * (2 * q) + lo) / 2 == hi * q + lo / 2 && (hi * (2 * q) + lo) % 2 == lo % 2
  {
    assert hi * (2 * q) == 2 * (hi * q);
  }

  /** One field of a byte changed by OR-ing, the other kept. */
  lemma OrHigh(k: nat, hi: nat, lo: nat, x: nat)
    requires k <= 8 && lo < Pow2(k) && hi < Pow2(8 - k) && x < Pow2(8 - k)
    requires hi * Pow2(k) + lo < 256 && x * Pow2(k) < 256
    ensures Or(hi * Pow2(k) + lo, x * Pow2(k)) == OrBits(8 - k, hi, x) * Pow2(k) + lo
  {
    hide OrBits, Pow2;
    OrFields(8 - k, k, hi, lo, x, 0);
    OrNothing(k, lo);
    assert x * Pow2(k) + 0 == x * Pow2(k);
  }

  lemma OrLow(k: nat, hi: nat, lo: nat, y: nat)
    requires k <= 8 && lo < Pow2(k) && hi < Pow2(8 - k) && y < Pow2(k)
    requires hi * Pow2(k) + lo < 256 && y < 256
    ensures Or(hi * Pow2(k) + lo, y) == hi * Pow2(k) + OrBits(k, lo, y)
  {
    hide OrBits, Pow2;
    OrFields(8 - k, k, hi, lo, 0, y);
    OrNothing(8 - k, hi);
    assert 0 * Pow2(k) + y == y;
  }

  lemma Powers()
    ensures Pow2(2) == 4 && Pow2(4) == 16 && Pow2(5) == 32 && Pow2(6) == 64
  {
    assert Pow2(3) == 8 && Pow2(5) == 32;
  }
}
