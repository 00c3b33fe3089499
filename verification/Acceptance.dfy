/** Which word sequences the transition table accepts: exactly the events of the grammar. */
module Acceptance {
  import opened Words
  import opened EventTree
  import opened Grammar
  import opened EventMachine

  /** The state after the classes `cs`, from `s`. */
  function Dfa(s: State, cs: seq<Class>): State {
    if cs == [] then s else NextState(Dfa(s, cs[..|cs| - 1]), cs[|cs| - 1])
  }

  lemma {:induction false} DfaConcat(s: State, a: seq<Class>, b: seq<Class>)
    ensures Dfa(s, a + b) == Dfa(Dfa(s, a), b)
    decreases |b|
  {
    if b == [] {
      assert a + b == a;
    } else {
      assert (a + b)[..|a + b| - 1] == a + b[..|b| - 1];
      DfaConcat(s, a, b[..|b| - 1]);
    }
  }

  lemma DfaOne(s: State, c: Class)
    ensures Dfa(s, [c]) == NextState(s, c)
  {
    assert [c][..0] == [];
  }

  // ----- words of the grammar drive the table -----

  /** A factor that leads from `p` to `q`, whatever word it matches. */
  ghost predicate Drives(r: Regex, p: State, q: State) {
    forall s :: Matches(r, s) ==> Dfa(p, s) == q
  }

  lemma DrivesSym(c: Class, p: State)
    ensures Drives(Sym(c), p, NextState(p, c))
  {
    DfaOne(p, c);
  }

  lemma DrivesCat(a: Regex, b: Regex, p: State, q: State, r: State)
    requires Drives(a, p, q) && Drives(b, q, r)
    ensures Drives(Cat(a, b), p, r)
  {
    forall s | Matches(Cat(a, b), s)
      ensures Dfa(p, s) == r
    {
      var x, y := CatSplit(a, b, s);
      DfaConcat(p, x, y);
    }
  }

  lemma DrivesStar(a: Regex, p: State)
    requires Drives(a, p, p)
    ensures Drives(Star(a), p, p)
  {
    forall s | Matches(Star(a), s)
      ensures Dfa(p, s) == p
    {
      DrivesStarOne(a, p, s);
    }
  }

  lemma {:induction false} DrivesStarOne(a: Regex, p: State, s: seq<Class>)
    requires Drives(a, p, p) && Matches(Star(a), s)
    ensures Dfa(p, s) == p
    decreases |s|
  {
    if s != [] {
      var x, y := StarLast(a, s);
      DrivesStarOne(a, p, x);
      DfaConcat(p, x, y);
    }
  }

  lemma DrivesDatas(p: State, q: State)
    requires NextState(p, DATA) == q && NextState(q, DATA) == q
    ensures Drives(DATAS, p, q)
  {
    DrivesSym(DATA, p);
    DrivesSym(DATA, q);
    DrivesStar(Sym(DATA), q);
    DrivesCat(Sym(DATA), Star(Sym(DATA)), p, q, q);
  }

  lemma DrivesTelescope(p: State)
    requires p == S1 || p == S5
    ensures Drives(TELESCOPE, p, S4)
  {
    DrivesSym(TELID, p);
    DrivesDatas(S2, S3);
    DrivesSym(DETID, S3);
    DrivesCat(DATAS, Sym(DETID), S2, S3, S4);
    DrivesCat(Sym(TELID), Cat(DATAS, Sym(DETID)), p, S2, S4);
  }

  lemma DrivesHits()
    ensures Drives(HITS, S1, S5)
  {
    DrivesTelescope(S1);
    DrivesTelescope(S5);
    DrivesDatas(S4, S5);
    DrivesCat(TELESCOPE, DATAS, S1, S4, S5);
    DrivesSym(DETID, S5);
    assert Drives(Alt(Sym(DETID), TELESCOPE), S5, S4);
    DrivesCat(Alt(Sym(DETID), TELESCOPE), DATAS, S5, S4, S5);
    DrivesStar(NEXT_HIT, S5);
    DrivesCat(FIRST_HIT, Star(NEXT_HIT), S1, S5, S5);
  }

  lemma DrivesFees(p: State)
    requires p == Idle || p == S10
    ensures Drives(FEES, p, S1)
  {
    DrivesHits();
    DrivesSym(LENGTH, S5);
    DrivesSym(CRCFE, S6);
    DrivesCat(Sym(LENGTH), Sym(CRCFE), S5, S6, S7);
    DrivesCat(HITS, Cat(Sym(LENGTH), Sym(CRCFE)), S1, S5, S7);
    DrivesSym(EC, S7);
    DrivesCat(FEE, Sym(EC), S1, S7, S1);
    DrivesStar(Cat(FEE, Sym(EC)), S1);
    DrivesSym(EC, p);
    DrivesCat(Sym(EC), Star(Cat(FEE, Sym(EC))), p, S1, S1);
  }

  lemma DrivesBlock(p: State)
    requires p == Idle || p == S10
    ensures Drives(BLOCK, p, S10)
  {
    DrivesFees(p);
    DrivesSym(BLKID, S1);
    DrivesSym(LENGTH, S8);
    DrivesSym(CRCBL, S9);
    DrivesCat(Sym(LENGTH), Sym(CRCBL), S8, S9, S10);
    DrivesCat(Sym(BLKID), Cat(Sym(LENGTH), Sym(CRCBL)), S1, S8, S10);
    DrivesCat(FEES, Cat(Sym(BLKID), Cat(Sym(LENGTH), Sym(CRCBL))), p, S1, S10);
  }

  lemma DrivesBlocks()
    ensures Drives(Plus(BLOCK), Idle, S10)
  {
    DrivesBlock(Idle);
    DrivesBlock(S10);
    DrivesStar(BLOCK, S10);
    DrivesCat(BLOCK, Star(BLOCK), Idle, S10, S10);
  }

  // ----- the table only reaches words of the grammar -----

  const TO_S1: Regex := Cat(Star(BLOCK), FEES)

  const TO_S5: Regex := Cat(TO_S1, HITS)

  /** The words that lead from idle to a state without falling back to idle. */
  function Reaching(s: State): Regex {
    match s
    case Idle => Star(Sym(EMPTY))
    case S1 => TO_S1
    case S2 => Cat(Alt(TO_S1, TO_S5), Sym(TELID))
    case S3 => Cat(Alt(TO_S1, TO_S5), Cat(Sym(TELID), DATAS))
    case S4 => Alt(Cat(TO_S1, TELESCOPE), Cat(TO_S5, Alt(Sym(DETID), TELESCOPE)))
    case S5 => TO_S5
    case S6 => Cat(TO_S5, Sym(LENGTH))
    case S7 => Cat(TO_S1, FEE)
    case S8 => Cat(TO_S1, Sym(BLKID))
    case S9 => Cat(TO_S1, Cat(Sym(BLKID), Sym(LENGTH)))
    case S10 => Plus(BLOCK)
  }

  /** A class appended to a word that it may follow. */
  lemma Append(a: Regex, c: Class, s: seq<Class>)
    requires Matches(a, s)
    ensures Matches(Cat(a, Sym(c)), s + [c])
  {
    SymMatches(c);
    CatIntro(a, Sym(c), s, [c]);
  }

  lemma AltIntro(a: Regex, b: Regex, s: seq<Class>)
    ensures Matches(Alt(a, b), s) <==> Matches(a, s) || Matches(b, s)
  {}

  lemma ReachHeader(s: State, w: seq<Class>, c: Class)
    requires s == S1 || s == S5
    requires Matches(Reaching(s), w) && c == TELID
    ensures Matches(Reaching(S2), w + [c])
  {
    hide Matches;
    AltIntro(TO_S1, TO_S5, w);
    Append(Alt(TO_S1, TO_S5), TELID, w);
  }

  lemma ReachTags(s: State, w: seq<Class>)
    requires s == S2 || s == S3
    requires Matches(Reaching(s), w)
    ensures Matches(Reaching(S3), w + [DATA])
  {
    hide Matches;
    var p := Alt(TO_S1, TO_S5);
    if s == S2 {
      var x, y := CatSplit(p, Sym(TELID), w);
      DataOnce();
      CatIntro(Sym(TELID), DATAS, y, [DATA]);
      CatIntro(p, Cat(Sym(TELID), DATAS), x, y + [DATA]);
      assert x + (y + [DATA]) == w + [DATA];
    } else {
      CatAssoc(p, Sym(TELID), DATAS, w);
      PlusMore(Cat(p, Sym(TELID)), w);
      CatAssoc(p, Sym(TELID), DATAS, w + [DATA]);
    }
  }

  lemma ReachDetector(s: State, w: seq<Class>)
    requires s == S3 || s == S5
    requires Matches(Reaching(s), w)
    ensures Matches(Reaching(S4), w + [DETID])
  {
    hide Matches;
    AltIntro(Cat(TO_S1, TELESCOPE), Cat(TO_S5, Alt(Sym(DETID), TELESCOPE)), w + [DETID]);
    SymMatches(DETID);
    if s == S3 {
      var x, y := CatSplit(Alt(TO_S1, TO_S5), Cat(Sym(TELID), DATAS), w);
      Append(Cat(Sym(TELID), DATAS), DETID, y);
      CatAssoc(Sym(TELID), DATAS, Sym(DETID), y + [DETID]);
      AltIntro(TO_S1, TO_S5, x);
      AltIntro(Sym(DETID), TELESCOPE, y + [DETID]);
      assert w + [DETID] == x + (y + [DETID]);
      if Matches(TO_S1, x) {
        CatIntro(TO_S1, TELESCOPE, x, y + [DETID]);
      } else {
        CatIntro(TO_S5, Alt(Sym(DETID), TELESCOPE), x, y + [DETID]);
      }
    } else {
      AltIntro(Sym(DETID), TELESCOPE, [DETID]);
      CatIntro(TO_S5, Alt(Sym(DETID), TELESCOPE), w, [DETID]);
    }
  }

  lemma ReachData(s: State, w: seq<Class>)
    requires s == S4 || s == S5
    requires Matches(Reaching(s), w)
    ensures Matches(Reaching(S5), w + [DATA])
  {
    hide Matches;
    if s == S5 {
      var x, y := CatSplit(TO_S1, HITS, w);
      HitsMore(y);
      CatIntro(TO_S1, HITS, x, y + [DATA]);
      assert x + (y + [DATA]) == w + [DATA];
    } else {
      AltIntro(Cat(TO_S1, TELESCOPE), Cat(TO_S5, Alt(Sym(DETID), TELESCOPE)), w);
      if Matches(Cat(TO_S1, TELESCOPE), w) {
        ReachFirstData(w);
      } else {
        ReachNextData(w);
      }
    }
  }

  lemma ReachFirstData(w: seq<Class>)
    requires Matches(Cat(TO_S1, TELESCOPE), w)
    ensures Matches(TO_S5, w + [DATA])
  {
    hide Matches;
    DataOnce();
    var x, y := CatSplit(TO_S1, TELESCOPE, w);
    CatIntro(TELESCOPE, DATAS, y, [DATA]);
    FirstHitIsHits(y + [DATA]);
    CatIntro(TO_S1, HITS, x, y + [DATA]);
    assert x + (y + [DATA]) == w + [DATA];
  }

  lemma ReachNextData(w: seq<Class>)
    requires Matches(Cat(TO_S5, Alt(Sym(DETID), TELESCOPE)), w)
    ensures Matches(TO_S5, w + [DATA])
  {
    hide Matches;
    DataOnce();
    var x, y := CatSplit(TO_S5, Alt(Sym(DETID), TELESCOPE), w);
    CatIntro(Alt(Sym(DETID), TELESCOPE), DATAS, y, [DATA]);
    var u, v := CatSplit(TO_S1, HITS, x);
    HitsSnoc(v, y + [DATA]);
    CatIntro(TO_S1, HITS, u, v + (y + [DATA]));
    assert u + (v + (y + [DATA])) == w + [DATA];
  }

  lemma ReachFeeEnd(w: seq<Class>)
    requires Matches(Reaching(S6), w)
    ensures Matches(Reaching(S7), w + [CRCFE])
  {
    hide Matches;
    Append(Cat(TO_S5, Sym(LENGTH)), CRCFE, w);
    CatAssoc(TO_S5, Sym(LENGTH), Sym(CRCFE), w + [CRCFE]);
    CatAssoc(TO_S1, HITS, Cat(Sym(LENGTH), Sym(CRCFE)), w + [CRCFE]);
  }

  lemma ReachCounter(s: State, w: seq<Class>)
    requires s == S7 || s == S10 || s == Idle
    requires s == Idle ==> w == []
    requires Matches(Reaching(s), w)
    ensures Matches(Reaching(S1), w + [EC])
  {
    hide Matches;
    SymMatches(EC);
    StarEmpty(Cat(FEE, Sym(EC)));
    StarEmpty(BLOCK);
    if s == S7 {
      var x, y := CatSplit(TO_S1, FEE, w);
      Append(FEE, EC, y);
      var a, b := CatSplit(Star(BLOCK), FEES, x);
      var e, f := CatSplit(Sym(EC), Star(Cat(FEE, Sym(EC))), b);
      StarSnoc(Cat(FEE, Sym(EC)), f, y + [EC]);
      CatIntro(Sym(EC), Star(Cat(FEE, Sym(EC))), e, f + (y + [EC]));
      CatIntro(Star(BLOCK), FEES, a, e + (f + (y + [EC])));
      assert a + (e + (f + (y + [EC]))) == w + [EC];
    } else {
      if s == S10 {
        PlusIsStar(BLOCK, w);
      }
      CatIntro(Sym(EC), Star(Cat(FEE, Sym(EC))), [EC], []);
      assert [EC] + [] == [EC];
      CatIntro(Star(BLOCK), FEES, w, [EC]);
    }
  }

  lemma ReachBlockEnd(s: State, w: seq<Class>, c: Class)
    requires (s == S1 && c == BLKID) || (s == S8 && c == LENGTH) || (s == S9 && c == CRCBL)
    requires Matches(Reaching(s), w)
    ensures Matches(Reaching(NextState(s, c)), w + [c])
  {
    hide Matches;
    if s == S1 {
      Append(TO_S1, BLKID, w);
    } else if s == S8 {
      Append(Cat(TO_S1, Sym(BLKID)), LENGTH, w);
      CatAssoc(TO_S1, Sym(BLKID), Sym(LENGTH), w + [c]);
    } else {
      var x, y := CatSplit(TO_S1, Cat(Sym(BLKID), Sym(LENGTH)), w);
      Append(Cat(Sym(BLKID), Sym(LENGTH)), CRCBL, y);
      CatAssoc(Sym(BLKID), Sym(LENGTH), Sym(CRCBL), y + [CRCBL]);
      var a, b := CatSplit(Star(BLOCK), FEES, x);
      CatIntro(FEES, Cat(Sym(BLKID), Cat(Sym(LENGTH), Sym(CRCBL))), b, y + [CRCBL]);
      StarThenOne(BLOCK, a, b + (y + [CRCBL]));
      assert a + (b + (y + [CRCBL])) == w + [c];
    }
  }

  /** One step of the table keeps the word inside the language of the state reached. */
  lemma ReachStep(s: State, w: seq<Class>, c: Class)
    requires Matches(Reaching(s), w) && (s == Idle ==> w == [])
    requires NextState(s, c) != Idle
    ensures Matches(Reaching(NextState(s, c)), w + [c])
  {
    hide Matches;
    TransitionSource(c, s);
    match Transition(c, s)
    case 3 => ReachHeader(s, w, c);
    case 10 => ReachHeader(s, w, c);
    case 4 => ReachTags(s, w);
    case 5 => ReachTags(s, w);
    case 6 => ReachDetector(s, w);
    case 9 => ReachDetector(s, w);
    case 7 => ReachData(s, w);
    case 8 => ReachData(s, w);
    case 11 => Append(TO_S5, LENGTH, w);
    case 12 => ReachFeeEnd(w);
    case 14 => ReachBlockEnd(s, w, c);
    case 15 => ReachBlockEnd(s, w, c);
    case 16 => ReachBlockEnd(s, w, c);
    case _ => ReachCounter(s, w);
  }

  /** Since the last time the table was idle, the classes spell a word of the state reached. */
  lemma {:induction false} ReachedSince(cs: seq<Class>) returns (k: nat)
    ensures k <= |cs| && Dfa(Idle, cs[..k]) == Idle
    ensures Dfa(Idle, cs) != Idle ==> Matches(Reaching(Dfa(Idle, cs)), cs[k..])
    ensures Dfa(Idle, cs) == Idle ==> k == |cs|
    decreases |cs|
  {
    hide Matches;
    assert cs[..|cs|] == cs;
    if Dfa(Idle, cs) == Idle {
      k := |cs|;
    } else {
      var n := |cs| - 1;
      k := ReachedSince(cs[..n]);
      assert cs[..n][..k] == cs[..k];
      StarEmpty(Sym(EMPTY));
      assert cs[..n][k..] + [cs[n]] == cs[k..];
      ReachStep(Dfa(Idle, cs[..n]), cs[..n][k..], cs[n]);
    }
  }

  /** The table stands after a complete block exactly when the classes since some idle point
      spell a non-empty sequence of blocks. */
  lemma TableAccepts(cs: seq<Class>)
    ensures Dfa(Idle, cs) == S10 <==>
      exists k :: 0 <= k <= |cs| && Dfa(Idle, cs[..k]) == Idle && Matches(Plus(BLOCK), cs[k..])
  {
    hide Matches;
    if Dfa(Idle, cs) == S10 {
      var k := ReachedSince(cs);
    }
    forall k | 0 <= k <= |cs| && Dfa(Idle, cs[..k]) == Idle && Matches(Plus(BLOCK), cs[k..])
      ensures Dfa(Idle, cs) == S10
    {
      DrivesBlocks();
      DfaConcat(Idle, cs[..k], cs[k..]);
      assert cs[..k] + cs[k..] == cs;
    }
  }

  // ----- the main loop follows the table -----

  /** The classes the main loop dispatches from word `i` on; EMPTY words are skipped. */
  ghost function Trace(m: Machine, mem: Memory, i: nat, size: nat, scale: Scale): seq<Class>
    requires Typed(m.ctl, m.zip.open)
    decreases if i < size then size - i else 0, Pending(m.ctl)
  {
    if i >= size then []
    else
      var r := Turn(m, mem, i, scale);
      var rest := Trace(r.0, mem, r.1, size, scale);
      if Classify(mem(i)) == EMPTY then rest else [Classify(mem(i))] + rest
  }

  /** The last word of the chunk is its only REGID, as in every chunk a reader cuts. */
  ghost predicate OnlyLastRegid(mem: Memory, size: nat) {
    size > 0 && forall i: nat :: i < size ==> (Classify(mem(i)) == REGID <==> i == size - 1)
  }

  lemma TurnState(m: Machine, mem: Memory, i: nat, scale: Scale)
    requires Typed(m.ctl, m.zip.open)
    ensures Turn(m, mem, i, scale).0.ctl.state
         == if Classify(mem(i)) == EMPTY then m.ctl.state else NextState(m.ctl.state, Classify(mem(i)))
  {
    TransitionSource(Classify(mem(i)), m.ctl.state);
  }

  lemma {:induction false} RunState(m: Machine, mem: Memory, i: nat, size: nat, ok: bool, scale: Scale)
    requires Typed(m.ctl, m.zip.open)
    ensures Run(m, mem, i, size, ok, scale).0.ctl.state == Dfa(m.ctl.state, Trace(m, mem, i, size, scale))
    decreases if i < size then size - i else 0, Pending(m.ctl)
  {
    hide Turn, Classify, Transition;
    if i < size {
      var r := Turn(m, mem, i, scale);
      TurnState(m, mem, i, scale);
      RunState(r.0, mem, r.1, size, ok || Completes(m, mem, i), scale);
      if Classify(mem(i)) != EMPTY {
        DfaOne(m.ctl.state, Classify(mem(i)));
        DfaConcat(m.ctl.state, [Classify(mem(i))], Trace(r.0, mem, r.1, size, scale));
      }
    }
  }

  /** With the only REGID at the end, the loop completes an event exactly when that word is
      dispatched after a complete block. */
  lemma {:induction false} RunCompletes(m: Machine, mem: Memory, i: nat, size: nat, scale: Scale)
    requires Typed(m.ctl, m.zip.open) && OnlyLastRegid(mem, size)
    ensures var tr := Trace(m, mem, i, size, scale);
            Run(m, mem, i, size, false, scale).1 <==>
              tr != [] && tr[|tr| - 1] == REGID && Dfa(m.ctl.state, tr[..|tr| - 1]) == S10
    decreases if i < size then size - i else 0, Pending(m.ctl)
  {
    hide Turn, Classify, Transition;
    if i < size {
      var c := Classify(mem(i));
      var r := Turn(m, mem, i, scale);
      var rest := Trace(r.0, mem, r.1, size, scale);
      TurnState(m, mem, i, scale);
      if c == REGID {
        assert r.1 >= size by { assert i == size - 1; TurnAdvances(m, mem, i, scale); }
        assert rest == [] && [c] + rest == [c];
        assert [c][..0] == [];
      } else {
        RunCompletes(r.0, mem, r.1, size, scale);
        if c != EMPTY {
          var tr := [c] + rest;
          if rest != [] {
            assert tr[..|tr| - 1] == [c] + rest[..|rest| - 1];
            DfaOne(m.ctl.state, c);
            DfaConcat(m.ctl.state, [c], rest[..|rest| - 1]);
          }
        }
      }
    }
  }

  /** A word that is not DATA is consumed alone. */
  lemma TurnAdvances(m: Machine, mem: Memory, i: nat, scale: Scale)
    requires Typed(m.ctl, m.zip.open) && Classify(mem(i)) != DATA
    ensures Turn(m, mem, i, scale).1 == i + 1
  {}

  /** Acceptance: on a chunk that ends in its only REGID, the machine reports a parsed event
      exactly when the classes dispatched since some idle point spell an event. */
  lemma Accepts(m: Machine, mem: Memory, size: nat, scale: Scale)
    requires Typed(m.ctl, m.zip.open) && m.ctl.state == Idle && OnlyLastRegid(mem, size)
    ensures var tr := Trace(m, mem, 0, size, scale);
            Run(m, mem, 0, size, false, scale).1 <==>
              exists k :: 0 <= k <= |tr| && Dfa(Idle, tr[..k]) == Idle && Matches(EVENT, tr[k..])
  {
    hide Matches, Dfa, Turn, Run, Trace, Classify, Typed;
    var tr := Trace(m, mem, 0, size, scale);
    RunCompletes(m, mem, 0, size, scale);
    if Run(m, mem, 0, size, false, scale).1 {
      var pre := tr[..|tr| - 1];
      TableAccepts(pre);
      var k :| 0 <= k <= |pre| && Dfa(Idle, pre[..k]) == Idle && Matches(Plus(BLOCK), pre[k..]);
      Append(Plus(BLOCK), REGID, pre[k..]);
      assert pre[..k] == tr[..k] && pre[k..] + [REGID] == tr[k..];
    }
    forall k | 0 <= k <= |tr| && Dfa(Idle, tr[..k]) == Idle && Matches(EVENT, tr[k..])
      ensures Run(m, mem, 0, size, false, scale).1
    {
      EventSplit(tr, k);
      TableAccepts(tr[..|tr| - 1]);
    }
  }

  /** An event is blocks and a final REGID. */
  lemma EventSplit(tr: seq<Class>, k: nat)
    requires k <= |tr| && Matches(EVENT, tr[k..])
    ensures k < |tr| && tr[|tr| - 1] == REGID
    ensures var pre := tr[..|tr| - 1];
            k <= |pre| && pre[..k] == tr[..k] && Matches(Plus(BLOCK), pre[k..])
  {
    hide Matches;
    var x, y := CatSplit(Plus(BLOCK), Sym(REGID), tr[k..]);
    SymOnly(REGID, y);
    assert tr[..|tr| - 1][k..] == x;
  }

  lemma SymOnly(c: Class, s: seq<Class>)
    requires Matches(Sym(c), s)
    ensures s == [c]
  {}

  // ----- resynchronisation -----

  /** The memory from word `k` on. */
  function Behind(mem: Memory, k: nat): Memory { (j: nat) => mem(k + j) }

  lemma TurnBehind(m: Machine, mem: Memory, k: nat, j: nat, scale: Scale)
    requires Typed(m.ctl, m.zip.open)
    ensures var r := Turn(m, Behind(mem, k), j, scale);
            Turn(m, mem, k + j, scale) == (r.0, k + r.1) && Completes(m, mem, k + j) == Completes(m, Behind(mem, k), j)
  {
    hide Classify, Dispatch, Rewind;
    var n := Need(m.ctl, mem(k + j));
    assert Slice(mem, k + j, n) == Slice(Behind(mem, k), j, n);
  }

  lemma {:induction false} RunBehind(m: Machine, mem: Memory, k: nat, j: nat, size: nat, ok: bool, scale: Scale)
    requires Typed(m.ctl, m.zip.open) && k <= size
    ensures Run(m, mem, k + j, size, ok, scale) == Run(m, Behind(mem, k), j, size - k, ok, scale)
    decreases if k + j < size then size - (k + j) else 0, Pending(m.ctl)
  {
    hide Turn, Completes, Classify;
    if k + j < size {
      TurnBehind(m, mem, k, j, scale);
      var r := Turn(m, Behind(mem, k), j, scale);
      RunBehind(r.0, mem, k, r.1, size, ok || Completes(m, mem, k + j), scale);
    }
  }

  lemma InvalidTurn(m: Machine, mem: Memory, i: nat, scale: Scale)
    requires Typed(m.ctl, m.zip.open)
    requires Classify(mem(i)) != EMPTY && Trans(m.ctl, mem(i)) == 0
    ensures Turn(m, mem, i, scale)
         == (Attach(m).(report := m.report.(stateInvalid := m.report.stateInvalid + 1)), i + 1)
    ensures !Completes(m, mem, i)
  {
    TransitionSource(Classify(mem(i)), m.ctl.state);
    assert Slice(mem, i, 1)[0] == mem(i);
  }

  /** An invalid word is counted, and the rest of the chunk is then treated like a chunk of its own
      that has just been attached: result, tree, flags and counters are the same. */
  lemma InvalidResynchronises(m: Machine, mem: Memory, i: nat, size: nat, ok: bool, scale: Scale)
    requires Typed(m.ctl, m.zip.open) && i < size
    requires Classify(mem(i)) != EMPTY && Trans(m.ctl, mem(i)) == 0
    ensures Run(m, mem, i, size, ok, scale)
         == Run(Attach(m).(report := m.report.(stateInvalid := m.report.stateInvalid + 1)),
                Behind(mem, i + 1), 0, size - i - 1, ok, scale)
  {
    hide Turn, Completes, Classify, Transition;
    InvalidTurn(m, mem, i, scale);
    var r := Turn(m, mem, i, scale);
    RunBehind(r.0, mem, i + 1, 0, size, ok, scale);
  }

  /** An end-of-event word, 0xF000 or above, clears the event in every state but idle. */
  lemma EndOfEventClears(m: Machine, mem: Memory, i: nat, size: nat, ok: bool, scale: Scale)
    requires Typed(m.ctl, m.zip.open) && i < size && mem(i) >= 0xF000 && m.ctl.state != Idle
    ensures Run(m, mem, i, size, ok, scale)
         == Run(Attach(m).(report := m.report.(stateInvalid := m.report.stateInvalid + 1)),
                Behind(mem, i + 1), 0, size - i - 1, ok, scale)
    ensures var r := Turn(m, mem, i, scale); r.0.ctl.state == Idle && Tree(r.0.zip) == Event(0, 0, [], []) && r.1 == i + 1
  {
    hide Turn, Run, Classify;
    ClassRanges(mem(i));
    TransitionSource(EOE, m.ctl.state);
    InvalidTurn(m, mem, i, scale);
    InvalidResynchronises(m, mem, i, size, ok, scale);
  }
}
