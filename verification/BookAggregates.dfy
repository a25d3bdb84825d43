/**
 The two sides of agreement: what the tracked orders add up to at a price, and what a level
 array holds there before and after each level operation.
 */
module BookAggregates {
  import opened Types
  import opened OrderTable
  import opened PriceLevels
  import opened BookRuns

  // ----- Sums over the tracked orders -----

  /** What is summed: the quantities, or the number, of the orders at one side and price. */
  datatype Measure = Measure(side: Side, price: int, counting: bool) {
    function Of(rec: OrderRecord): int {
      if rec.side == side && rec.price == price then (if counting then 1 else rec.qty) else 0
    }
  }

  ghost function Sum(m: map<int, OrderRecord>, w: Measure): int {
    if exists k :: k in m then
      var k :| k in m;
      w.Of(m[k]) + Sum(m - {k}, w)
    else 0
  }

  /** The sum does not depend on the order of summation. */
  lemma {:induction false} SumRemove(m: map<int, OrderRecord>, k: int, w: Measure)
    requires k in m
    ensures Sum(m, w) == w.Of(m[k]) + Sum(m - {k}, w)
    decreases |m|
  {
    var j :| j in m && Sum(m, w) == w.Of(m[j]) + Sum(m - {j}, w);
    if j != k {
      SumRemove(m - {j}, k, w);
      SumRemove(m - {k}, j, w);
      assert m - {j} - {k} == m - {k} - {j};
    }
  }

  lemma {:induction false} SumPut(m: map<int, OrderRecord>, k: int, rec: OrderRecord, w: Measure)
    ensures Sum(m[k := rec], w) == Sum(m - {k}, w) + w.Of(rec)
  {
    SumRemove(m[k := rec], k, w);
    assert m[k := rec] - {k} == m - {k};
  }

  /** A count is not negative, and where nothing is counted nothing is summed. */
  lemma {:induction false} SumBounds(m: map<int, OrderRecord>, side: Side, p: int)
    ensures Sum(m, Measure(side, p, true)) >= 0
    ensures Sum(m, Measure(side, p, true)) == 0 ==> Sum(m, Measure(side, p, false)) == 0
    decreases |m|
  {
    if k :| k in m {
      SumBounds(m - {k}, side, p);
      SumRemove(m, k, Measure(side, p, true));
      SumRemove(m, k, Measure(side, p, false));
    }
  }

  ghost predicate NonNegative(m: map<int, OrderRecord>) {
    forall k :: k in m ==> m[k].qty >= 0
  }

  lemma {:induction false} SumNonNegative(m: map<int, OrderRecord>, side: Side, p: int)
    requires NonNegative(m)
    ensures Sum(m, Measure(side, p, false)) >= 0
    decreases |m|
  {
    if k :| k in m {
      SumNonNegative(m - {k}, side, p);
      SumRemove(m, k, Measure(side, p, false));
    }
  }

  // ----- Levels as a function of price -----

  /** The level at a price; an absent level counts as empty. */
  ghost function At(side: Side, s: seq<PriceLevel>, p: int): PriceLevel {
    var k := Rank(side, s, p);
    if k < |s| && s[k].price == p then s[k] else PriceLevel(p, 0, 0)
  }

  /** Adding at this price does not push another level out. */
  ghost predicate Room(s: seq<PriceLevel>, p: int) {
    HasPrice(s, p) || |s| < MAX_LEVELS
  }

  lemma AtMember(side: Side, s: seq<PriceLevel>, level: PriceLevel)
    requires Sorted(side, s) && level in s
    ensures At(side, s, level.price) == level && HasPrice(s, level.price)
  {
    var i :| 0 <= i < |s| && s[i] == level;
    RankIs(side, s, level.price, i);
  }

  /** Two sorted arrays with the same levels at price `q` agree at `q`. */
  lemma SameAt(side: Side, s: seq<PriceLevel>, t: seq<PriceLevel>, q: int)
    requires Sorted(side, s) && Sorted(side, t)
    requires forall l: PriceLevel :: l.price == q ==> (l in s <==> l in t)
    ensures At(side, s, q) == At(side, t, q)
    ensures HasPrice(s, q) <==> HasPrice(t, q)
  {
    HasPriceAtRank(side, s, q);
    HasPriceAtRank(side, t, q);
    if i :| 0 <= i < |s| && s[i].price == q {
      assert s[i] in t;
      AtMember(side, s, s[i]);
      AtMember(side, t, s[i]);
    } else {
      assert forall i :: 0 <= i < |t| && t[i].price == q ==> t[i] in s;
    }
  }

  lemma AddMembers(side: Side, s: seq<PriceLevel>, p: int, qty: int, l: PriceLevel)
    requires Sorted(side, s) && Room(s, p)
    ensures var t := AddQty(side, s, p, qty);
      if l.price == p then l == At(side, s, p).AddOrder(qty) ==> l in t else l in t <==> l in s
  {
    var t, k := AddQty(side, s, p, qty), Rank(side, s, p);
    HasPriceAtRank(side, s, p);
    if HasPrice(s, p) {
      ReplacedMembers(s, k, s[k].AddOrder(qty), l);
    } else {
      InsertedMembers(s, k, PriceLevel(p, qty, 1), l);
    }
  }

  lemma ReplacedMembers(s: seq<PriceLevel>, k: nat, x: PriceLevel, l: PriceLevel)
    requires k < |s|
    ensures x in s[k := x]
    ensures l.price != s[k].price && l.price != x.price ==> (l in s[k := x] <==> l in s)
  {
    var t := s[k := x];
    assert t[k] == x;
    if i :| 0 <= i < |s| && s[i] == l && l.price != s[k].price {
      assert t[i] == l;
    }
    if i :| 0 <= i < |t| && t[i] == l && l.price != x.price {
      assert s[i] == l;
    }
  }

  lemma InsertedMembers(s: seq<PriceLevel>, k: nat, x: PriceLevel, l: PriceLevel)
    requires k <= |s|
    ensures l in s[..k] + [x] + s[k..] <==> l == x || l in s
  {
    assert s == s[..k] + s[k..];
  }

  /** Adding changes the level of its own price only. */
  lemma AddAt(side: Side, s: seq<PriceLevel>, p: int, qty: int, q: int)
    requires Sorted(side, s) && Room(s, p)
    ensures var t := AddQty(side, s, p, qty);
      && At(side, t, q) == (if q == p then At(side, s, p).AddOrder(qty) else At(side, s, q))
      && (HasPrice(t, q) <==> q == p || HasPrice(s, q))
  {
    var t := AddQty(side, s, p, qty);
    AddQtySorted(side, s, p, qty);
    if q == p {
      var level := At(side, s, p).AddOrder(qty);
      AddMembers(side, s, p, qty, level);
      AtMember(side, t, level);
    } else {
      forall l: PriceLevel | l.price == q
        ensures l in s <==> l in t
      {
        AddMembers(side, s, p, qty, l);
      }
      SameAt(side, s, t, q);
    }
  }

  lemma RemoveMembers(side: Side, s: seq<PriceLevel>, p: int, qty: int, drop: bool, l: PriceLevel)
    requires Sorted(side, s) && HasPrice(s, p)
    ensures var t, level := RemoveQty(side, s, p, qty, drop), At(side, s, p).RemoveOrder(qty, drop);
      if l.price == p then l in t <==> l == level && !level.Empty() else l in t <==> l in s
  {
    var t, k := RemoveQty(side, s, p, qty, drop), Rank(side, s, p);
    HasPriceAtRank(side, s, p);
    var level := s[k].RemoveOrder(qty, drop);
    assert s == s[..k] + [s[k]] + s[k + 1..];
    assert t == s[..k] + (if level.Empty() then [] else [level]) + s[k + 1..];
    assert forall x :: x in s[..k] + s[k + 1..] ==> x.price != p;
  }

  /** Removing changes the level of its own price only. */
  lemma RemoveAt(side: Side, s: seq<PriceLevel>, p: int, qty: int, drop: bool, q: int)
    requires Sorted(side, s) && HasPrice(s, p)
    ensures var t, level := RemoveQty(side, s, p, qty, drop), At(side, s, p).RemoveOrder(qty, drop);
      && At(side, t, q) == (if q != p then At(side, s, q) else if level.Empty() then PriceLevel(p, 0, 0) else level)
      && (HasPrice(t, q) <==> if q == p then !level.Empty() else HasPrice(s, q))
  {
    var t, level := RemoveQty(side, s, p, qty, drop), At(side, s, p).RemoveOrder(qty, drop);
    RemoveQtySorted(side, s, p, qty, drop);
    forall l: PriceLevel
      ensures if l.price == p then l in t <==> l == level && !level.Empty() else l in t <==> l in s
    {
      RemoveMembers(side, s, p, qty, drop, l);
    }
    if q != p {
      SameAt(side, s, t, q);
    } else if level.Empty() {
      assert !HasPrice(t, p);
      HasPriceAtRank(side, t, p);
    } else {
      AtMember(side, t, level);
    }
  }

  lemma EvictIsAddToKept(side: Side, s: seq<PriceLevel>, p: int, qty: int)
    requires OrderedSide(side, s) && !Room(s, p) && Rank(side, s, p) < MAX_LEVELS
    ensures var kept := s[..|s| - 1];
      Sorted(side, kept) && !HasPrice(kept, p) && AddQty(side, s, p, qty) == AddQty(side, kept, p, qty)
  {
    var kept, k := s[..|s| - 1], Rank(side, s, p);
    HasPriceAtRank(side, s, p);
    assert forall i :: 0 <= i < |kept| ==> kept[i] == s[i];
    RankIs(side, kept, p, k);
    assert kept[..k] == s[..k] && kept[k..] == s[k..|s| - 1];
  }

  /** Opening a level on a full side, better than the worst, puts it in place of the worst. */
  lemma {:induction false} EvictAt(side: Side, s: seq<PriceLevel>, p: int, qty: int, q: int)
    requires OrderedSide(side, s) && !Room(s, p) && Rank(side, s, p) < MAX_LEVELS
    ensures var t, worst := AddQty(side, s, p, qty), s[|s| - 1].price;
      && At(side, t, q) == (if q == p then PriceLevel(p, qty, 1) else if q == worst then PriceLevel(q, 0, 0)
        else At(side, s, q))
      && (HasPrice(t, q) <==> q == p || (q != worst && HasPrice(s, q)))
  {
    var kept, worst := s[..|s| - 1], s[|s| - 1];
    EvictIsAddToKept(side, s, p, qty);
    assert s == kept + [worst];
    KeptAt(side, kept, worst, q);
    AddAt(side, kept, p, qty, q);
    HasPriceAtRank(side, kept, p);
  }

  /** Dropping the worst level changes the level of its own price only. */
  lemma KeptAt(side: Side, kept: seq<PriceLevel>, worst: PriceLevel, q: int)
    requires Sorted(side, kept + [worst])
    ensures var s := kept + [worst];
      && Sorted(side, kept)
      && At(side, kept, q) == (if q == worst.price then PriceLevel(q, 0, 0) else At(side, s, q))
      && (HasPrice(kept, q) <==> q != worst.price && HasPrice(s, q))
  {
    var s := kept + [worst];
    assert forall i :: 0 <= i < |kept| ==> kept[i] == s[i];
    if q == worst.price {
      assert forall i :: 0 <= i < |kept| ==> Before(side, s[i].price, s[|kept|].price);
      HasPriceAtRank(side, kept, q);
    } else {
      SameAt(side, s, kept, q);
    }
  }

}
