/** The controller's registry of nodes: a map of reports and a deque of last-seen times that must
    agree, and the expiry pass that erases while it walks. */
module Registry {
  import opened Bytes

  const EXPIRY: int := 10

  /** An entry of the deque: the key its map iterator points to, and when it was last seen. */
  datatype Seen = Seen(key: string, time: int)

  predicate Expired(s: Seen, now: int) { now - s.time > EXPIRY }

  function Keys(d: seq<Seen>): set<string> { set s | s in d :: s.key }

  predicate Distinct(d: seq<Seen>) {
    forall i, j :: 0 <= i < j < |d| ==> d[i].key != d[j].key
  }

  /** One pass: an expired entry is erased and the entry that slides into its place is skipped. */
  function Clean(d: seq<Seen>, now: int): seq<Seen> {
    if d == [] then []
    else if !Expired(d[0], now) then [d[0]] + Clean(d[1..], now)
    else if |d| == 1 then []
    else [d[1]] + Clean(d[2..], now)
  }

  function Touch(d: seq<Seen>, key: string, now: int): (r: seq<Seen>)
    ensures |r| == |d|
    ensures forall i :: 0 <= i < |d| ==> r[i] == if d[i].key == key then Seen(key, now) else d[i]
  {
    if d == [] then [] else [if d[0].key == key then Seen(key, now) else d[0]] + Touch(d[1..], key, now)
  }

  class FzRegistry<Report> {
    var reports: map<string, Report>
    var deque: seq<Seen>

    constructor ()
      ensures Valid() && reports == map[] && deque == []
    {
      reports, deque := map[], [];
    }

    /** The deque lists every key of the map exactly once. */
    ghost predicate Valid()
      reads this
    {
      Distinct(deque) && Keys(deque) == reports.Keys
    }

    /** A report arrives: a new node joins at the end, a known one is updated where it stands.
        Only the update walks the deque; for a known node it ends only below 256 entries. */
    method MapInsert(k: string, v: Report, now: int) returns (added: bool)
      requires Valid() && (k in reports ==> |deque| <= 255)
      modifies this
      ensures Valid() && reports == old(reports)[k := v] && (added <==> k !in old(reports))
      ensures deque == if added then old(deque) + [Seen(k, now)] else Touch(old(deque), k, now)
    {
      added := k !in reports;
      if added {
        reports := reports[k := v];
        deque := deque + [Seen(k, now)];
        assert Keys(deque) == Keys(old(deque)) + {k};
      } else {
        reports := reports[k := v];
        TouchDeque(k, now);
        TouchKeys(old(deque), k, now);
      }
    }

    /** Stores the time at the entry of the key. */
    method TouchDeque(k: string, now: int)
      requires |deque| <= 255
      modifies `deque
      ensures deque == Touch(old(deque), k, now)
    {
      var i: nat := 0;
      ghost var t := Touch(deque, k, now);
      while i < |deque|
        invariant i <= |deque| == |old(deque)|
        invariant forall j :: 0 <= j < i ==> deque[j] == t[j]
        invariant forall j :: i <= j < |deque| ==> deque[j] == old(deque)[j]
        decreases |deque| - i
      {
        if deque[i].key == k {
          deque := deque[i := Seen(k, now)];
        }
        i := Next8(i);
      }
    }

    /** One expiry pass at a fixed clock. It may start with any number of expired entries: the
        counter wraps round until at most 255 entries are left. Up to 255 it is a single pass. */
    method MapClean(now: int)
      requires Valid() && |Alive(deque, now)| <= 255
      modifies this
      ensures Valid() && deque == CleanLoop(old(deque), 0, now)
      ensures |old(deque)| <= 255 ==> deque == Clean(old(deque), now)
      ensures forall k :: k in reports ==> k in old(reports) && reports[k] == old(reports)[k]
    {
      hide Expired, Keys, Distinct, ExpiredAhead, Alive;
      var i: nat := 0;
      while i < |deque|
        invariant Valid() && i <= 255 && |Alive(deque, now)| <= 255
        invariant CleanLoop(deque, i, now) == CleanLoop(old(deque), 0, now)
        invariant forall k :: k in reports ==> k in old(reports) && reports[k] == old(reports)[k]
        decreases |deque|, TurnsAhead(deque, i, now)
      {
        ghost var d := deque;
        CleanTurnDecreases(d, i, now);
        if Expired(deque[i], now) {
          reports := reports - {deque[i].key};
          deque := deque[..i] + deque[i + 1..];
          EraseKeys(d, i);
        }
        i := Next8(i);
      }
      if |old(deque)| <= 255 {
        LoopIsPass(old(deque), 0, now);
        assert old(deque)[..0] + Clean(old(deque)[0..], now) == Clean(old(deque), now);
      }
    }
  }

  /** The successor of an eight-bit counter. */
  function Next8(i: nat): (n: nat)
    ensures i < 255 ==> n == i + 1
  {
    (i + 1) % 256
  }

  lemma CleanNothing(now: int)
    ensures Clean([], now) == []
  {}

  function Min(a: nat, b: nat): nat { if a < b then a else b }

  // ----- when the loops end -----

  /** One turn of the loop that renews the time of a key. */
  function TouchTurn(d: seq<Seen>, i: nat, key: string, now: int): (seq<Seen>, nat) {
    if i >= |d| then (d, i) else (if d[i].key == key then d[i := Seen(key, now)] else d, Next8(i))
  }

  function TouchTurns(d: seq<Seen>, i: nat, key: string, now: int, n: nat): (r: (seq<Seen>, nat))
    ensures |r.0| == |d| && (i <= 255 ==> r.1 <= 255)
    decreases n
  {
    if n == 0 then (d, i) else var r := TouchTurn(d, i, key, now); TouchTurns(r.0, r.1, key, now, n - 1)
  }

  lemma {:induction false} TouchWalks(d: seq<Seen>, i: nat, key: string, now: int, n: nat)
    requires |d| <= 255 && i + n <= |d|
    ensures TouchTurns(d, i, key, now, n).1 == i + n
    decreases n
  {
    if n > 0 {
      var r := TouchTurn(d, i, key, now);
      TouchWalks(r.0, r.1, key, now, n - 1);
    }
  }

  /** The update of a known key ends exactly when the deque has at most 255 entries. */
  lemma TouchLeaves(d: seq<Seen>, key: string, now: int)
    ensures (exists n: nat :: TouchTurns(d, 0, key, now, n).1 >= |d|) <==> |d| <= 255
  {
    if |d| <= 255 {
      TouchWalks(d, 0, key, now, |d|);
    }
  }

  /** One turn of the expiry loop. */
  function CleanTurn(d: seq<Seen>, i: nat, now: int): (seq<Seen>, nat) {
    if i >= |d| then (d, i) else (if Expired(d[i], now) then d[..i] + d[i + 1..] else d, Next8(i))
  }

  function CleanTurns(d: seq<Seen>, i: nat, now: int, n: nat): (seq<Seen>, nat)
    decreases n
  {
    if n == 0 then (d, i) else var r := CleanTurn(d, i, now); CleanTurns(r.0, r.1, now, n - 1)
  }

  /** An expired entry that the counter still reaches before it wraps round. */
  predicate ExpiredAhead(d: seq<Seen>, i: nat, now: int) {
    exists j :: i <= j < |d| && j < 256 && Expired(d[j], now)
  }

  /** Bounds the turns up to the next erasure, or to the end of the loop. */
  function TurnsAhead(d: seq<Seen>, i: nat, now: int): nat
    requires i <= 255
  {
    if ExpiredAhead(d, i, now) then 256 - i else 512 - i
  }

  lemma {:induction false} AliveConcat(a: seq<Seen>, b: seq<Seen>, now: int)
    ensures Alive(a + b, now) == Alive(a, now) + Alive(b, now)
    decreases |a|
  {
    if a == [] {
      assert a + b == b;
    } else {
      AliveConcat(a[1..], b, now);
      assert (a + b)[1..] == a[1..] + b;
    }
  }

  lemma AliveOne(s: Seen, now: int)
    ensures Alive([s], now) == if Expired(s, now) then [] else [s]
  {
    assert [s][1..] == [];
  }

  lemma AliveErase(d: seq<Seen>, i: nat, now: int)
    requires i < |d| && Expired(d[i], now)
    ensures Alive(d[..i] + d[i + 1..], now) == Alive(d, now)
  {
    hide Alive, Expired;
    assert d == d[..i] + ([d[i]] + d[i + 1..]);
    AliveConcat(d[..i], [d[i]] + d[i + 1..], now);
    AliveConcat([d[i]], d[i + 1..], now);
    AliveConcat(d[..i], d[i + 1..], now);
    AliveOne(d[i], now);
    assert [] + Alive(d[i + 1..], now) == Alive(d[i + 1..], now);
  }

  lemma {:induction false} AliveAll(d: seq<Seen>, now: int)
    requires forall s :: s in d ==> !Expired(s, now)
    ensures Alive(d, now) == d
    decreases |d|
  {
    if d != [] {
      AliveAll(d[1..], now);
      assert d == [d[0]] + d[1..];
    }
  }

  /** Among the first 256 of more entries one is expired when at most 255 are alive. */
  lemma SomeExpired(d: seq<Seen>, now: int)
    requires |d| >= 256 && |Alive(d, now)| <= 255
    ensures ExpiredAhead(d, 0, now)
  {
    hide Expired;
    if !ExpiredAhead(d, 0, now) {
      assert forall s :: s in d[..256] ==> !Expired(s, now);
      AliveAll(d[..256], now);
      assert d == d[..256] + d[256..];
      AliveConcat(d[..256], d[256..], now);
    }
  }

  lemma CleanTurnDecreases(d: seq<Seen>, i: nat, now: int)
    requires i <= 255 && i < |d| && |Alive(d, now)| <= 255
    ensures var (e, j) := CleanTurn(d, i, now);
            && |Alive(e, now)| <= 255 && j <= 255
            && (|e| < |d| || (e == d && TurnsAhead(e, j, now) < TurnsAhead(d, i, now)))
  {
    hide Alive, Expired;
    if Expired(d[i], now) {
      AliveErase(d, i, now);
    } else if i == 255 {
      SomeExpired(d, now);
    }
  }

  /** The deque with which the expiry loop ends. */
  function CleanLoop(d: seq<Seen>, i: nat, now: int): (r: seq<Seen>)
    requires i <= 255 && |Alive(d, now)| <= 255
    decreases |d|, TurnsAhead(d, i, now)
  {
    if i >= |d| then d
    else
      CleanTurnDecreases(d, i, now);
      var r := CleanTurn(d, i, now);
      CleanLoop(r.0, r.1, now)
  }

  /** How many turns it takes. */
  lemma {:induction false} CleanEnds(d: seq<Seen>, i: nat, now: int) returns (n: nat)
    requires i <= 255 && |Alive(d, now)| <= 255
    ensures var r := CleanTurns(d, i, now, n); r.1 >= |r.0| && r.0 == CleanLoop(d, i, now)
    decreases |d|, TurnsAhead(d, i, now)
  {
    hide CleanTurn, Alive, TurnsAhead;
    if i >= |d| {
      n := 0;
    } else {
      CleanTurnDecreases(d, i, now);
      var r := CleanTurn(d, i, now);
      var k := CleanEnds(r.0, r.1, now);
      n := k + 1;
    }
  }

  lemma {:induction false} CleanTurnsAlive(d: seq<Seen>, i: nat, now: int, n: nat)
    requires i <= 255
    ensures var r := CleanTurns(d, i, now, n); Alive(r.0, now) == Alive(d, now) && r.1 <= 255
    decreases n
  {
    hide Alive, Expired;
    if n > 0 {
      var r := CleanTurn(d, i, now);
      if i < |d| && Expired(d[i], now) {
        AliveErase(d, i, now);
      }
      CleanTurnsAlive(r.0, r.1, now, n - 1);
    }
  }

  lemma {:induction false} AliveBounded(d: seq<Seen>, now: int)
    ensures |Alive(d, now)| <= |d|
    decreases |d|
  {
    if d != [] {
      AliveBounded(d[1..], now);
    }
  }

  /** The expiry loop ends exactly when at most 255 entries are alive, whatever the number of the
      expired ones. */
  lemma CleanLeaves(d: seq<Seen>, now: int)
    ensures (exists n: nat :: CleanTurns(d, 0, now, n).1 >= |CleanTurns(d, 0, now, n).0|) <==> |Alive(d, now)| <= 255
  {
    hide Alive, CleanTurns, CleanLoop;
    if |Alive(d, now)| <= 255 {
      var n := CleanEnds(d, 0, now);
      assert CleanTurns(d, 0, now, n).1 >= |CleanTurns(d, 0, now, n).0|;
    } else {
      forall n: nat
        ensures CleanTurns(d, 0, now, n).1 < |CleanTurns(d, 0, now, n).0|
      {
        CleanTurnsAlive(d, 0, now, n);
        AliveBounded(CleanTurns(d, 0, now, n).0, now);
      }
    }
  }

  /** Below 256 entries the counter does not wrap round, and the loop is one pass. */
  lemma {:induction false} LoopIsPass(d: seq<Seen>, i: nat, now: int)
    requires i <= 255 && |Alive(d, now)| <= 255 && |d| <= 255
    ensures CleanLoop(d, i, now) == d[..Min(i, |d|)] + Clean(d[Min(i, |d|)..], now)
    decreases |d|, TurnsAhead(d, i, now)
  {
    hide Clean, Alive, TurnsAhead, Expired;
    if i >= |d| {
      CleanNothing(now);
      assert d[..|d|] + [] == d && d[|d|..] == [];
    } else {
      CleanTurnDecreases(d, i, now);
      var r := CleanTurn(d, i, now);
      LoopIsPass(r.0, r.1, now);
      if Expired(d[i], now) {
        PassErase(d, i, now);
      } else {
        PassKeep(d, i, now);
      }
    }
  }

  lemma {:induction false} CountConcat(a: seq<Seen>, b: seq<Seen>, now: int)
    ensures ExpiredCount(a + b, now) == ExpiredCount(a, now) + ExpiredCount(b, now)
    decreases |a|
  {
    if a == [] {
      assert a + b == b;
    } else {
      CountConcat(a[1..], b, now);
      assert (a + b)[1..] == a[1..] + b;
    }
  }

  lemma CountOne(s: Seen, now: int)
    ensures ExpiredCount([s], now) == if Expired(s, now) then 1 else 0
  {
    assert [s][1..] == [];
  }

  /** Twice the expired entries behind the counter and those before it. */
  function Weight(d: seq<Seen>, i: nat, now: int): nat {
    var j := Min(i, |d|);
    2 * ExpiredCount(d[..j], now) + ExpiredCount(d[j..], now)
  }

  lemma WeightStart(d: seq<Seen>, i: nat, now: int)
    ensures Weight(d, 0, now) == ExpiredCount(d, now) <= Weight(d, i, now)
    ensures i >= |d| ==> Weight(d, i, now) == 2 * ExpiredCount(d, now)
  {
    var j := Min(i, |d|);
    assert d[..0] == [] && d[0..] == d && d == d[..j] + d[j..];
    CountConcat(d[..j], d[j..], now);
    assert d[|d|..] == [];
  }

  lemma WeightErase(d: seq<Seen>, i: nat, now: int)
    requires i < |d| && Expired(d[i], now)
    ensures var e := d[..i] + d[i + 1..]; Weight(e, i + 1, now) <= Weight(d, i, now)
    ensures ExpiredCount(d[..i] + d[i + 1..], now) + 1 == ExpiredCount(d, now)
  {
    hide ExpiredCount, Expired;
    var e := d[..i] + d[i + 1..];
    assert d[i..] == [d[i]] + d[i + 1..] && d == d[..i] + d[i..];
    CountConcat(d[..i], d[i..], now);
    CountConcat([d[i]], d[i + 1..], now);
    CountConcat(d[..i], d[i + 1..], now);
    CountOne(d[i], now);
    if i + 1 < |d| {
      assert e[..i + 1] == d[..i] + [d[i + 1]] && e[i + 1..] == d[i + 2..];
      assert d[i + 1..] == [d[i + 1]] + d[i + 2..];
      CountConcat(d[..i], [d[i + 1]], now);
      CountConcat([d[i + 1]], d[i + 2..], now);
      CountOne(d[i + 1], now);
    } else {
      assert e[..|e|] == e == d[..i] && e[|e|..] == d[i + 1..] == [];
    }
  }

  lemma WeightKeep(d: seq<Seen>, i: nat, now: int)
    requires i < |d| && !Expired(d[i], now)
    ensures Weight(d, i + 1, now) == Weight(d, i, now)
  {
    hide ExpiredCount, Expired;
    assert d[..i + 1] == d[..i] + [d[i]] && d[i..] == [d[i]] + d[i + 1..];
    CountConcat(d[..i], [d[i]], now);
    CountConcat([d[i]], d[i + 1..], now);
    CountOne(d[i], now);
  }

  lemma {:induction false} LoopWeight(d: seq<Seen>, i: nat, now: int)
    requires i <= 255 && |Alive(d, now)| <= 255
    ensures 2 * ExpiredCount(CleanLoop(d, i, now), now) <= Weight(d, i, now)
    decreases |d|, TurnsAhead(d, i, now)
  {
    hide ExpiredCount, Alive, TurnsAhead, Expired, Weight;
    if i >= |d| {
      WeightStart(d, i, now);
    } else {
      CleanTurnDecreases(d, i, now);
      var r := CleanTurn(d, i, now);
      LoopWeight(r.0, r.1, now);
      WeightStart(r.0, i, now);
      WeightStart(d, i, now);
      if Expired(d[i], now) {
        WeightErase(d, i, now);
      } else {
        WeightKeep(d, i, now);
      }
    }
  }

  lemma {:induction false} LoopKeeps(d: seq<Seen>, i: nat, now: int)
    requires i <= 255 && |Alive(d, now)| <= 255
    ensures var r := CleanLoop(d, i, now); Alive(r, now) == Alive(d, now) && (forall s :: s in r ==> s in d) && |r| <= 255
    decreases |d|, TurnsAhead(d, i, now)
  {
    hide Alive, TurnsAhead, Expired;
    if i < |d| {
      CleanTurnDecreases(d, i, now);
      var r := CleanTurn(d, i, now);
      if Expired(d[i], now) {
        AliveErase(d, i, now);
      }
      LoopKeeps(r.0, r.1, now);
    }
  }

  /** However often the counter wraps round, the loop keeps the live entries in order, invents
      none, and at least halves the expired ones. */
  lemma LoopHalves(d: seq<Seen>, now: int)
    requires |Alive(d, now)| <= 255
    ensures var r := CleanLoop(d, 0, now);
            && Alive(r, now) == Alive(d, now) && (forall s :: s in r ==> s in d) && |r| <= 255
            && 2 * ExpiredCount(r, now) <= ExpiredCount(d, now)
  {
    LoopKeeps(d, 0, now);
    LoopWeight(d, 0, now);
    WeightStart(d, 0, now);
  }

  // ----- registries on which the loops do and do not end -----

  /** `n` distinct keys, all seen at one time. */
  function Crowd(n: nat, time: int): (d: seq<Seen>)
    ensures |d| == n
  {
    seq(n, i requires 0 <= i < n => Seen(seq(i, _ => 'n'), time))
  }

  lemma CrowdDistinct(n: nat, time: int)
    ensures Distinct(Crowd(n, time))
  {
    var d := Crowd(n, time);
    forall i, j | 0 <= i < j < n
      ensures d[i].key != d[j].key
    {
      assert |d[i].key| == i && |d[j].key| == j;
    }
  }

  /** With 256 live nodes both loops run for ever. */
  lemma CrowdHangs(key: string, now: int)
    ensures var d := Crowd(256, now - 10);
            && Distinct(d) && (forall n: nat :: TouchTurns(d, 0, key, now, n).1 < |d|)
            && forall n: nat :: CleanTurns(d, 0, now, n).1 < |CleanTurns(d, 0, now, n).0|
  {
    hide TouchTurns, CleanTurns, Alive;
    var d := Crowd(256, now - 10);
    CrowdDistinct(256, now - 10);
    TouchLeaves(d, key, now);
    AliveAll(d, now);
    CleanLeaves(d, now);
  }

  /** With 256 nodes of which the first is expired, the expiry loop ends, and no other is lost. */
  lemma OneExpiredOfMany(now: int)
    ensures var d := [Seen("old", now - 11)] + Crowd(255, now - 10);
            |d| == 256 && Alive(d, now) == Crowd(255, now - 10) && CleanLoop(d, 0, now) == Crowd(255, now - 10)
  {
    hide Alive, CleanLoop;
    var s, rest := Seen("old", now - 11), Crowd(255, now - 10);
    AliveConcat([s], rest, now);
    AliveOne(s, now);
    AliveAll(rest, now);
    assert [] + rest == rest;
    LoopHalves([s] + rest, now);
    CountConcat([s], rest, now);
    CountOne(s, now);
    NoneExpired(rest, now);
    CountBounded(CleanLoop([s] + rest, 0, now), now);
  }

  lemma {:induction false} NoneExpired(d: seq<Seen>, now: int)
    requires forall s :: s in d ==> !Expired(s, now)
    ensures ExpiredCount(d, now) == 0
    decreases |d|
  {
    if d != [] {
      NoneExpired(d[1..], now);
    }
  }

  lemma TouchKeys(d: seq<Seen>, key: string, now: int)
    ensures Keys(Touch(d, key, now)) == Keys(d)
    ensures Distinct(d) ==> Distinct(Touch(d, key, now))
  {
    var t := Touch(d, key, now);
    forall k | k in Keys(d)
      ensures k in Keys(t)
    {
      var i :| 0 <= i < |d| && d[i].key == k;
      assert t[i] in t && t[i].key == k;
    }
    forall k | k in Keys(t)
      ensures k in Keys(d)
    {
      var i :| 0 <= i < |t| && t[i].key == k;
      assert d[i] in d && d[i].key == k;
    }
  }

  lemma EraseKeys(d: seq<Seen>, i: nat)
    requires i < |d| && Distinct(d)
    ensures var e := d[..i] + d[i + 1..];
            Distinct(e) && Keys(e) == Keys(d) - {d[i].key}
  {
    var e := d[..i] + d[i + 1..];
    forall k | k in Keys(d) - {d[i].key}
      ensures k in Keys(e)
    {
      var j :| 0 <= j < |d| && d[j].key == k;
      assert d[j] == e[if j < i then j else j - 1];
      assert d[j] in e;
    }
    forall k | k in Keys(e)
      ensures k in Keys(d) - {d[i].key}
    {
      var j :| 0 <= j < |e| && e[j].key == k;
      assert e[j] == d[if j < i then j else j + 1];
    }
  }

  lemma PassErase(d: seq<Seen>, i: nat, now: int)
    requires i < |d| && Expired(d[i], now)
    ensures var e := d[..i] + d[i + 1..];
            var j := Min(i + 1, |e|);
            e[..j] + Clean(e[j..], now) == d[..i] + Clean(d[i..], now)
  {
    var e := d[..i] + d[i + 1..];
    if i + 1 < |d| {
      assert d[i..][1] == d[i + 1] && d[i..][2..] == d[i + 2..] == e[i + 1..];
      assert e[..i + 1] == d[..i] + [d[i + 1]];
    } else {
      assert e == d[..i] && e[..i] == e && e[i..] == [];
    }
  }

  lemma PassKeep(d: seq<Seen>, i: nat, now: int)
    requires i < |d| && !Expired(d[i], now)
    ensures d[..i + 1] + Clean(d[i + 1..], now) == d[..i] + Clean(d[i..], now)
  {
    assert d[i..][1..] == d[i + 1..] && d[..i + 1] == d[..i] + [d[i]];
  }

  // ----- what a pass achieves -----

  function ExpiredCount(d: seq<Seen>, now: int): nat {
    if d == [] then 0 else (if Expired(d[0], now) then 1 else 0) + ExpiredCount(d[1..], now)
  }

  /** The entries that are not expired, in order. */
  function Alive(d: seq<Seen>, now: int): seq<Seen> {
    if d == [] then [] else (if Expired(d[0], now) then [] else [d[0]]) + Alive(d[1..], now)
  }

  /** A pass keeps every entry that is not expired, in order, invents none, and at least halves
      the number of expired ones although it skips an entry after each erasure. */
  lemma {:induction false} PassHalves(d: seq<Seen>, now: int)
    ensures Alive(Clean(d, now), now) == Alive(d, now)
    ensures 2 * ExpiredCount(Clean(d, now), now) <= ExpiredCount(d, now)
    ensures forall s :: s in Clean(d, now) ==> s in d
    decreases |d|
  {
    if d == [] {
    } else if !Expired(d[0], now) {
      PassHalves(d[1..], now);
      var c := Clean(d, now);
      assert c[1..] == Clean(d[1..], now);
    } else if |d| == 1 {
      assert d[1..] == [];
    } else {
      PassHalves(d[2..], now);
      var c := Clean(d, now);
      assert c[0] == d[1] && c[1..] == Clean(d[2..], now);
      assert d[1..][0] == d[1] && d[1..][1..] == d[2..];
      assert Alive(d, now) == [] + Alive(d[1..], now) == Alive(d[1..], now);
      assert ExpiredCount(d, now) == 1 + ExpiredCount(d[1..], now);
    }
  }

  function Passes(d: seq<Seen>, now: int, n: nat): seq<Seen> {
    if n == 0 then d else Clean(Passes(d, now, n - 1), now)
  }

  /** `n` passes at one clock divide the number of expired entries by two to the `n`. */
  lemma {:induction false} PassesHalve(d: seq<Seen>, now: int, n: nat)
    ensures Pow2(n) * ExpiredCount(Passes(d, now, n), now) <= ExpiredCount(d, now)
    ensures Alive(Passes(d, now, n), now) == Alive(d, now)
  {
    hide ExpiredCount, Clean, Alive;
    if n > 0 {
      PassesHalve(d, now, n - 1);
      var e := Passes(d, now, n - 1);
      PassHalves(e, now);
      MulStep(Pow2(n - 1), ExpiredCount(Clean(e, now), now), ExpiredCount(e, now), ExpiredCount(d, now));
    }
  }

  lemma MulStep(p: nat, x: nat, y: nat, c: nat)
    requires 2 * x <= y && p * y <= c
    ensures (2 * p) * x <= c
  {
    assert (2 * p) * x == p * (2 * x);
    assert p * (2 * x) + p * (y - 2 * x) == p * y;
  }

  lemma {:induction false} CountBounded(d: seq<Seen>, now: int)
    ensures ExpiredCount(d, now) <= |d|
    ensures ExpiredCount(d, now) == 0 ==> Alive(d, now) == d
    decreases |d|
  {
    if d != [] {
      CountBounded(d[1..], now);
      assert d == [d[0]] + d[1..];
    }
  }

  /** Eight passes leave exactly the entries that are not expired, for any registry the counter
      can walk. */
  lemma EightPassesClear(d: seq<Seen>, now: int)
    requires |d| <= 255
    ensures Passes(d, now, 8) == Alive(d, now)
  {
    PassesHalve(d, now, 8);
    CountBounded(d, now);
    CountBounded(Passes(d, now, 8), now);
    assert Pow2(8) == 256;
  }
}
