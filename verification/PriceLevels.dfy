/**
 One side of the book: a bounded array of price levels kept sorted best first, searched by
 binary search and maintained by shifting.
 */
module PriceLevels {
  import opened Types
  import opened Sequences

  const MAX_LEVELS: nat := 256

  datatype PriceLevel = PriceLevel(price: int, total: int, count: int) {
    function AddOrder(qty: int): PriceLevel {
      PriceLevel(price, total + qty, count + 1)
    }

    /** The remaining quantity is clamped at zero and the count never goes below zero. */
    function RemoveOrder(qty: int, dropOrder: bool): PriceLevel {
      PriceLevel(price, if total - qty < 0 then 0 else total - qty, if dropOrder && count > 0 then count - 1 else count)
    }

    predicate Empty() { count <= 0 }
  }

  /** Price `a` ranks strictly before price `b`: bids descend, asks ascend. */
  predicate Before(side: Side, a: int, b: int) {
    if side == Buy then a > b else a < b
  }

  ghost predicate Sorted(side: Side, s: seq<PriceLevel>) {
    forall i, j :: 0 <= i < j < |s| ==> Before(side, s[i].price, s[j].price)
  }

  ghost predicate HasPrice(s: seq<PriceLevel>, p: int) {
    exists i :: 0 <= i < |s| && s[i].price == p
  }

  /** How many leading levels rank strictly before `p`. */
  ghost function Rank(side: Side, s: seq<PriceLevel>, p: int): (k: nat)
    ensures k <= |s|
    ensures forall i :: 0 <= i < k ==> Before(side, s[i].price, p)
    ensures k < |s| ==> !Before(side, s[k].price, p)
  {
    if s == [] || !Before(side, s[0].price, p) then 0 else
      assert forall i :: 0 < i < |s| ==> s[i] == s[1..][i - 1];
      1 + Rank(side, s[1..], p)
  }

  lemma {:induction false} RankIs(side: Side, s: seq<PriceLevel>, p: int, k: nat)
    requires Sorted(side, s) && k <= |s|
    requires forall i :: 0 <= i < k ==> Before(side, s[i].price, p)
    requires k < |s| ==> !Before(side, s[k].price, p)
    ensures Rank(side, s, p) == k
  {
    var r := Rank(side, s, p);
    assert r < |s| ==> !Before(side, s[r].price, p);
  }

  lemma {:induction false} HasPriceAtRank(side: Side, s: seq<PriceLevel>, p: int)
    requires Sorted(side, s)
    ensures var k := Rank(side, s, p); HasPrice(s, p) <==> k < |s| && s[k].price == p
  {
    if i :| 0 <= i < |s| && s[i].price == p {
      RankIs(side, s, p, i);
    }
  }

  /** A new level at place `k`: the worst one goes from a full side, and a level worse than all of them is not taken. */
  function Opened(s: seq<PriceLevel>, k: nat, level: PriceLevel): seq<PriceLevel>
    requires k <= |s|
  {
    if |s| < MAX_LEVELS then s[..k] + [level] + s[k..]
    else if k >= MAX_LEVELS || k == |s| then s
    else s[..k] + [level] + s[k..|s| - 1]
  }

  /** What AddQtyToLevel makes of the levels of a side. */
  ghost function AddQty(side: Side, s: seq<PriceLevel>, p: int, qty: int): seq<PriceLevel> {
    var k := Rank(side, s, p);
    if k < |s| && s[k].price == p then s[k := s[k].AddOrder(qty)] else Opened(s, k, PriceLevel(p, qty, 1))
  }

  /** What RemoveQtyFromLevel makes of the levels of a side. */
  ghost function RemoveQty(side: Side, s: seq<PriceLevel>, p: int, qty: int, dropOrder: bool): seq<PriceLevel> {
    var k := Rank(side, s, p);
    if !(k < |s| && s[k].price == p) then s else
      var level := s[k].RemoveOrder(qty, dropOrder);
      if level.Empty() then s[..k] + s[k + 1..] else s[k := level]
  }

  /** The levels of one side, as the source keeps them: a fixed array and a count. */
  class BookSide {
    const side: Side
    const levels: array<PriceLevel>
    var count: nat

    ghost predicate Valid()
      reads this, levels
    {
      && levels.Length == MAX_LEVELS && count <= MAX_LEVELS
      && Sorted(side, Levels())
    }

    ghost function Levels(): seq<PriceLevel>
      requires count <= levels.Length
      reads this, levels
    {
      levels[..count]
    }

    constructor (side: Side)
      ensures Valid() && fresh(levels) && this.side == side && Levels() == []
    {
      this.side := side;
      levels := new PriceLevel[MAX_LEVELS](_ => PriceLevel(0, 0, 0));
      count := 0;
    }

    /** Binary search: the index of the level with this price, or the count if there is none. */
    method FindLevel(price: int) returns (idx: nat)
      requires Valid()
      ensures idx <= count
      ensures idx < count ==> levels[idx].price == price && idx == Rank(side, Levels(), price)
      ensures idx == count ==> !HasPrice(Levels(), price)
    {
      var lo, hi := 0, count;
      while lo < hi
        invariant 0 <= lo <= hi <= count
        invariant forall i :: 0 <= i < lo ==> Before(side, levels[i].price, price)
        invariant forall i :: hi <= i < count ==> Before(side, price, levels[i].price)
      {
        var mid := (lo + hi) / 2;
        if levels[mid].price == price {
          RankIs(side, Levels(), price, mid);
          return mid;
        }
        if Before(side, levels[mid].price, price) {
          lo := mid + 1;
        } else {
          hi := mid;
        }
      }
      return count;
    }

    /** Binary search: the number of levels that rank before this price. */
    method InsertionPoint(price: int) returns (pos: nat)
      requires Valid()
      ensures pos == Rank(side, Levels(), price)
    {
      var lo, hi := 0, count;
      while lo < hi
        invariant 0 <= lo <= hi <= count
        invariant forall i :: 0 <= i < lo ==> Before(side, levels[i].price, price)
        invariant forall i :: hi <= i < count ==> !Before(side, levels[i].price, price)
      {
        var mid := (lo + hi) / 2;
        if Before(side, levels[mid].price, price) {
          lo := mid + 1;
        } else {
          hi := mid;
        }
      }
      RankIs(side, Levels(), price, lo);
      return lo;
    }

    /** Shifts the levels in [pos, last) one place right over the one at `last` and writes at `pos`. */
    method InsertAt(pos: nat, last: nat, level: PriceLevel)
      requires levels.Length == MAX_LEVELS && pos <= last < MAX_LEVELS
      modifies levels
      ensures levels[..last + 1] == old(levels[..pos]) + [level] + old(levels[pos..last])
    {
      var i := last;
      while i > pos
        invariant pos <= i <= last
        invariant forall j :: 0 <= j <= i ==> levels[j] == old(levels[j])
        invariant forall j :: i < j <= last ==> levels[j] == old(levels[j - 1])
      {
        levels[i] := levels[i - 1];
        i := i - 1;
      }
      levels[pos] := level;
      ShiftedRight(old(levels[..]), levels[..], pos, last, level);
    }

    /** Shifts the levels after `idx` one place left. */
    method RemoveAt(idx: nat)
      requires levels.Length == MAX_LEVELS && idx < count <= MAX_LEVELS
      modifies this`count, levels
      ensures count == old(count) - 1
      ensures levels[..count] == old(levels[..idx]) + old(levels[idx + 1..count])
    {
      var i := idx;
      while i + 1 < count
        invariant idx <= i < count == old(count)
        invariant forall j :: 0 <= j < idx ==> levels[j] == old(levels[j])
        invariant forall j :: idx <= j < i ==> levels[j] == old(levels[j + 1])
        invariant forall j :: i < j < count ==> levels[j] == old(levels[j])
      {
        levels[i] := levels[i + 1];
        i := i + 1;
      }
      ShiftedLeft(old(levels[..]), levels[..], idx, count);
      count := count - 1;
    }

    method OpenLevel(pos: nat, level: PriceLevel)
      requires levels.Length == MAX_LEVELS && pos <= count <= MAX_LEVELS
      modifies this`count, levels
      ensures count <= MAX_LEVELS && Levels() == Opened(old(Levels()), pos, level)
    {
      if count < MAX_LEVELS {
        InsertAt(pos, count, level);
        count := count + 1;
      } else if pos < MAX_LEVELS {
        InsertAt(pos, MAX_LEVELS - 1, level);
      }
    }

    /** AddQtyToLevel: adds to the level of this price, opening it (and evicting the worst) if need be. */
    method AddQtyToLevel(price: int, qty: int)
      requires Valid()
      modifies this`count, levels
      ensures Valid()
      ensures Levels() == AddQty(side, old(Levels()), price, qty)
    {
      ghost var was := Levels();
      HasPriceAtRank(side, was, price);
      AddQtySorted(side, was, price, qty);
      var idx := FindLevel(price);
      if idx < count {
        levels[idx] := levels[idx].AddOrder(qty);
        assert Levels() == was[idx := was[idx].AddOrder(qty)];
      } else {
        var pos := InsertionPoint(price);
        OpenLevel(pos, PriceLevel(price, 0, 0).AddOrder(qty));
      }
    }

    /** RemoveQtyFromLevel: reduces the level of this price, closing it when its last order goes. */
    method RemoveQtyFromLevel(price: int, qty: int, dropOrder: bool)
      requires Valid()
      modifies this`count, levels
      ensures Valid()
      ensures Levels() == RemoveQty(side, old(Levels()), price, qty, dropOrder)
    {
      ghost var was := Levels();
      HasPriceAtRank(side, was, price);
      RemoveQtySorted(side, was, price, qty, dropOrder);
      var idx := FindLevel(price);
      if idx >= count {
        return;
      }
      levels[idx] := levels[idx].RemoveOrder(qty, dropOrder);
      assert Levels() == was[idx := was[idx].RemoveOrder(qty, dropOrder)];
      if levels[idx].Empty() {
        RemoveAt(idx);
        assert Levels() == was[..idx] + was[idx + 1..];
      }
    }

    /** Seed and clear: the side holds nothing, or one level. */
    method Reset(level: Option<PriceLevel>)
      requires Valid()
      modifies this`count, levels
      ensures Valid()
      ensures Levels() == if level.Some? then [level.value] else []
    {
      count := 0;
      if level.Some? {
        levels[0] := level.value;
        count := 1;
      }
    }
  }

  lemma ReplacedSorted(side: Side, s: seq<PriceLevel>, k: nat, level: PriceLevel)
    requires Sorted(side, s) && k < |s| && level.price == s[k].price
    ensures Sorted(side, s[k := level])
  {
    var t := s[k := level];
    forall i, j | 0 <= i < j < |t|
      ensures Before(side, t[i].price, t[j].price)
    {
      assert Before(side, s[i].price, s[j].price);
    }
  }

  lemma InsertedSorted(side: Side, s: seq<PriceLevel>, k: nat, level: PriceLevel)
    requires Sorted(side, s) && k <= |s|
    requires forall i :: 0 <= i < k ==> Before(side, s[i].price, level.price)
    requires forall i :: k <= i < |s| ==> Before(side, level.price, s[i].price)
    ensures Sorted(side, s[..k] + [level] + s[k..])
  {
    var t := s[..k] + [level] + s[k..];
    forall i, j | 0 <= i < j < |t|
      ensures Before(side, t[i].price, t[j].price)
    {
      assert i != k ==> t[i] == s[if i < k then i else i - 1];
      assert j != k ==> t[j] == s[if j < k then j else j - 1];
    }
  }

  lemma PrefixSorted(side: Side, s: seq<PriceLevel>, n: nat)
    requires Sorted(side, s) && n <= |s|
    ensures Sorted(side, s[..n])
  {
  }

  lemma OpenedSorted(side: Side, s: seq<PriceLevel>, k: nat, level: PriceLevel)
    requires Sorted(side, s) && k <= |s|
    requires forall i :: 0 <= i < k ==> Before(side, s[i].price, level.price)
    requires forall i :: k <= i < |s| ==> Before(side, level.price, s[i].price)
    ensures Sorted(side, Opened(s, k, level))
  {
    if |s| < MAX_LEVELS {
      InsertedSorted(side, s, k, level);
    } else if k < MAX_LEVELS && k < |s| {
      var kept := s[..|s| - 1];
      PrefixSorted(side, s, |s| - 1);
      assert kept[..k] == s[..k] && kept[k..] == s[k..|s| - 1];
      InsertedSorted(side, kept, k, level);
    }
  }

  /** Adding keeps a side strictly sorted and within its bound. */
  lemma AddQtySorted(side: Side, s: seq<PriceLevel>, p: int, qty: int)
    requires Sorted(side, s)
    ensures Sorted(side, AddQty(side, s, p, qty))
    ensures |s| <= MAX_LEVELS ==> |AddQty(side, s, p, qty)| <= MAX_LEVELS
  {
    var k := Rank(side, s, p);
    if k < |s| && s[k].price == p {
      ReplacedSorted(side, s, k, s[k].AddOrder(qty));
    } else {
      forall i | k <= i < |s|
        ensures Before(side, p, s[i].price)
      {
        assert i > k ==> Before(side, s[k].price, s[i].price);
      }
      OpenedSorted(side, s, k, PriceLevel(p, qty, 1));
    }
  }

  lemma RemovedSorted(side: Side, s: seq<PriceLevel>, k: nat)
    requires Sorted(side, s) && k < |s|
    ensures Sorted(side, s[..k] + s[k + 1..])
  {
    var t := s[..k] + s[k + 1..];
    forall i, j | 0 <= i < j < |t|
      ensures Before(side, t[i].price, t[j].price)
    {
      assert t[i] == s[if i < k then i else i + 1] && t[j] == s[if j < k then j else j + 1];
    }
  }

  /** Removing keeps a side strictly sorted and never lengthens it. */
  lemma RemoveQtySorted(side: Side, s: seq<PriceLevel>, p: int, qty: int, dropOrder: bool)
    requires Sorted(side, s)
    ensures Sorted(side, RemoveQty(side, s, p, qty, dropOrder))
    ensures |RemoveQty(side, s, p, qty, dropOrder)| <= |s|
  {
    var k := Rank(side, s, p);
    if k < |s| && s[k].price == p {
      ReplacedSorted(side, s, k, s[k].RemoveOrder(qty, dropOrder));
      RemovedSorted(side, s, k);
    }
  }
}
