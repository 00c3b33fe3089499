/** Regular expressions over word classes, and the grammar of an event. */
module Grammar {
  import opened Words

  datatype Regex = Sym(c: Class) | Cat(a: Regex, b: Regex) | Alt(a: Regex, b: Regex) | Star(a: Regex)

  predicate Matches(r: Regex, s: seq<Class>)
    decreases r, |s|
  {
    match r
    case Sym(c) => s == [c]
    case Cat(a, b) => exists i :: 0 <= i <= |s| && Matches(a, s[..i]) && Matches(b, s[i..])
    case Alt(a, b) => Matches(a, s) || Matches(b, s)
    case Star(a) => s == [] || exists i :: 0 < i <= |s| && Matches(a, s[..i]) && Matches(r, s[i..])
  }

  function Plus(r: Regex): Regex { Cat(r, Star(r)) }

  const DATAS: Regex := Plus(Sym(DATA))

  /** The telescope header of a hit and its tags, up to the detector header. */
  const TELESCOPE: Regex := Cat(Sym(TELID), Cat(DATAS, Sym(DETID)))

  const FIRST_HIT: Regex := Cat(TELESCOPE, DATAS)

  /** A further hit opens with a detector header or with a whole telescope header. */
  const NEXT_HIT: Regex := Cat(Alt(Sym(DETID), TELESCOPE), DATAS)

  const HITS: Regex := Cat(FIRST_HIT, Star(NEXT_HIT))

  const FEE: Regex := Cat(HITS, Cat(Sym(LENGTH), Sym(CRCFE)))

  const FEES: Regex := Cat(Sym(EC), Star(Cat(FEE, Sym(EC))))

  const BLOCK: Regex := Cat(FEES, Cat(Sym(BLKID), Cat(Sym(LENGTH), Sym(CRCBL))))

  const EVENT: Regex := Cat(Plus(BLOCK), Sym(REGID))

  // ----- algebra of languages -----

  lemma CatIntro(a: Regex, b: Regex, x: seq<Class>, y: seq<Class>)
    requires Matches(a, x) && Matches(b, y)
    ensures Matches(Cat(a, b), x + y)
  {
    assert (x + y)[..|x|] == x && (x + y)[|x|..] == y;
  }

  lemma CatSplit(a: Regex, b: Regex, s: seq<Class>) returns (x: seq<Class>, y: seq<Class>)
    requires Matches(Cat(a, b), s)
    ensures s == x + y && Matches(a, x) && Matches(b, y)
  {
    var i :| 0 <= i <= |s| && Matches(a, s[..i]) && Matches(b, s[i..]);
    x, y := s[..i], s[i..];
  }

  lemma {:induction false} StarSnoc(r: Regex, x: seq<Class>, y: seq<Class>)
    requires Matches(Star(r), x) && Matches(r, y)
    ensures Matches(Star(r), x + y)
    decreases |x|
  {
    if x == [] {
      if y != [] {
        assert (x + y)[..|y|] == y && (x + y)[|y|..] == [];
      }
    } else {
      var i :| 0 < i <= |x| && Matches(r, x[..i]) && Matches(Star(r), x[i..]);
      StarSnoc(r, x[i..], y);
      assert (x + y)[..i] == x[..i] && (x + y)[i..] == x[i..] + y;
    }
  }

  /** A non-empty repetition has a last factor. */
  lemma {:induction false} StarLast(r: Regex, s: seq<Class>) returns (x: seq<Class>, y: seq<Class>)
    requires Matches(Star(r), s) && s != []
    ensures s == x + y && Matches(Star(r), x) && Matches(r, y) && y != []
    decreases |s|
  {
    var i :| 0 < i <= |s| && Matches(r, s[..i]) && Matches(Star(r), s[i..]);
    if i == |s| {
      assert s[..i] == s;
      x, y := [], s;
    } else {
      var x', y' := StarLast(r, s[i..]);
      x, y := s[..i] + x', y';
      assert x[..i] == s[..i] && x[i..] == x';
      assert s == s[..i] + s[i..];
    }
  }

  lemma DataMatches()
    ensures Matches(Sym(DATA), [DATA])
  {}

  lemma StarEmpty(r: Regex)
    ensures Matches(Star(r), [])
  {}

  /** Words ending in DATA+ accept one more DATA. */
  lemma PlusMore(r: Regex, s: seq<Class>)
    requires Matches(Cat(r, DATAS), s)
    ensures Matches(Cat(r, DATAS), s + [DATA])
  {
    hide Matches;
    var x, y := CatSplit(r, DATAS, s);
    var d, t := CatSplit(Sym(DATA), Star(Sym(DATA)), y);
    DataMatches();
    StarSnoc(Sym(DATA), t, [DATA]);
    CatIntro(Sym(DATA), Star(Sym(DATA)), d, t + [DATA]);
    assert d + (t + [DATA]) == y + [DATA];
    CatIntro(r, DATAS, x, y + [DATA]);
    assert x + (y + [DATA]) == s + [DATA];
  }

  lemma DataOnce()
    ensures Matches(DATAS, [DATA])
  {
    CatIntro(Sym(DATA), Star(Sym(DATA)), [DATA], []);
    assert [DATA] + [] == [DATA];
  }

  /** Hits followed by DATA are hits, as the last of them ends in DATA+. */
  lemma HitsMore(s: seq<Class>)
    requires Matches(HITS, s)
    ensures Matches(HITS, s + [DATA])
  {
    hide Matches;
    var x, y := CatSplit(FIRST_HIT, Star(NEXT_HIT), s);
    StarEmpty(NEXT_HIT);
    if y == [] {
      PlusMore(TELESCOPE, x);
      CatIntro(FIRST_HIT, Star(NEXT_HIT), x + [DATA], []);
      assert x + [DATA] + [] == s + [DATA];
    } else {
      var u, v := StarLast(NEXT_HIT, y);
      PlusMore(Alt(Sym(DETID), TELESCOPE), v);
      StarSnoc(NEXT_HIT, u, v + [DATA]);
      assert u + (v + [DATA]) == y + [DATA];
      CatIntro(FIRST_HIT, Star(NEXT_HIT), x, y + [DATA]);
      assert x + (y + [DATA]) == s + [DATA];
    }
  }

  lemma HitsSnoc(s: seq<Class>, h: seq<Class>)
    requires Matches(HITS, s) && Matches(NEXT_HIT, h)
    ensures Matches(HITS, s + h)
  {
    hide Matches;
    var x, y := CatSplit(FIRST_HIT, Star(NEXT_HIT), s);
    StarSnoc(NEXT_HIT, y, h);
    CatIntro(FIRST_HIT, Star(NEXT_HIT), x, y + h);
    assert x + (y + h) == s + h;
  }

  lemma FirstHitIsHits(h: seq<Class>)
    requires Matches(FIRST_HIT, h)
    ensures Matches(HITS, h)
  {
    CatIntro(FIRST_HIT, Star(NEXT_HIT), h, []);
    assert h + [] == h;
  }

  lemma CatAssoc(a: Regex, b: Regex, c: Regex, s: seq<Class>)
    ensures Matches(Cat(Cat(a, b), c), s) <==> Matches(Cat(a, Cat(b, c)), s)
  {
    hide Matches;
    if Matches(Cat(Cat(a, b), c), s) {
      var xy, z := CatSplit(Cat(a, b), c, s);
      var x, y := CatSplit(a, b, xy);
      CatIntro(b, c, y, z);
      CatIntro(a, Cat(b, c), x, y + z);
      assert x + (y + z) == s;
    }
    if Matches(Cat(a, Cat(b, c)), s) {
      var x, yz := CatSplit(a, Cat(b, c), s);
      var y, z := CatSplit(b, c, yz);
      CatIntro(a, b, x, y);
      CatIntro(Cat(a, b), c, x + y, z);
      assert x + y + z == s;
    }
  }

  lemma PlusIsStar(r: Regex, s: seq<Class>)
    requires Matches(Plus(r), s)
    ensures Matches(Star(r), s)
  {
    var x, y := CatSplit(r, Star(r), s);
    if x == [] {
      assert s == y;
    } else {
      assert s[..|x|] == x && s[|x|..] == y;
    }
  }

  /** A repetition followed by one more factor is a non-empty repetition. */
  lemma StarThenOne(r: Regex, x: seq<Class>, y: seq<Class>)
    requires Matches(Star(r), x) && Matches(r, y)
    ensures Matches(Plus(r), x + y)
  {
    if x == [] {
      CatIntro(r, Star(r), y, []);
      assert x + y == y + [];
    } else {
      var i :| 0 < i <= |x| && Matches(r, x[..i]) && Matches(Star(r), x[i..]);
      StarSnoc(r, x[i..], y);
      CatIntro(r, Star(r), x[..i], x[i..] + y);
      assert x[..i] + (x[i..] + y) == x + y;
    }
  }

  lemma SymMatches(c: Class)
    ensures Matches(Sym(c), [c])
  {}
}
