/**
 Runs of adds from an empty book: despite evictions along the way, each side ends with
 exactly the best 256 prices among the accepted adds, each level complete.
 */
module BookAddOnly {
  import opened Types
  import opened OrderTable
  import opened PriceLevels
  import opened OrderBook
  import opened BookRuns
  import opened BookAggregates

  /** The adds on one side that the book answered with Ok. */
  ghost function Accepted(cfg: Config, evs: seq<MarketEvent>, side: Side): seq<MarketEvent> {
    if evs == [] then [] else
      var front, last := evs[..|evs| - 1], evs[|evs| - 1];
      Accepted(cfg, front, side) + if Step(cfg, Run(cfg, NEW_BOOK, front), last).1 == Ok && last.side == side
        then [last] else []
  }

  ghost function Prices(adds: seq<MarketEvent>): set<int> {
    set i | 0 <= i < |adds| :: adds[i].price
  }

  ghost function QtyAt(adds: seq<MarketEvent>, p: int): int {
    if adds == [] then 0 else
      QtyAt(adds[..|adds| - 1], p) + if adds[|adds| - 1].price == p then adds[|adds| - 1].qty else 0
  }

  ghost function CountAt(adds: seq<MarketEvent>, p: int): nat {
    if adds == [] then 0 else
      CountAt(adds[..|adds| - 1], p) + if adds[|adds| - 1].price == p then 1 else 0
  }

  /** The prices that rank before `p`. */
  ghost function Better(side: Side, prices: set<int>, p: int): set<int> {
    set q | q in prices && Before(side, q, p)
  }

  ghost predicate Complete(adds: seq<MarketEvent>, l: PriceLevel) {
    l.price in Prices(adds) && l == PriceLevel(l.price, QtyAt(adds, l.price), CountAt(adds, l.price))
  }

  /** The loop invariant of a run of adds: a missing price ranks after 256 kept ones. */
  ghost predicate Keeps(side: Side, s: seq<PriceLevel>, adds: seq<MarketEvent>) {
    && OrderedSide(side, s)
    && (forall i :: 0 <= i < |s| ==> Complete(adds, s[i]))
    && (forall p :: p in Prices(adds) && !HasPrice(s, p) ==> |s| == MAX_LEVELS && forall i :: 0 <= i < |s| ==>
      Before(side, s[i].price, p))
  }

  lemma {:induction false} AbsentPriceSumsToZero(adds: seq<MarketEvent>, p: int)
    requires p !in Prices(adds)
    ensures QtyAt(adds, p) == 0 && CountAt(adds, p) == 0
  {
    if adds != [] {
      var front, last := adds[..|adds| - 1], adds[|adds| - 1];
      assert adds[|adds| - 1].price in Prices(adds);
      assert forall q :: q in Prices(front) ==> q in Prices(adds);
      AbsentPriceSumsToZero(front, p);
    }
  }

  lemma PricesSnoc(adds: seq<MarketEvent>, ev: MarketEvent)
    ensures Prices(adds + [ev]) == Prices(adds) + {ev.price}
  {
    var all := adds + [ev];
    assert ev.price in Prices(all) by { assert all[|adds|] == ev; }
    forall q | q in Prices(adds)
      ensures q in Prices(all)
    {
      var i :| 0 <= i < |adds| && adds[i].price == q;
      assert all[i] == adds[i];
    }
  }

  /** One accepted add keeps the invariant, whether it joins, opens, evicts or is dropped. */
  lemma AddKeeps(side: Side, s: seq<PriceLevel>, adds: seq<MarketEvent>, ev: MarketEvent)
    requires Keeps(side, s, adds)
    ensures Keeps(side, AddQty(side, s, ev.price, ev.qty), adds + [ev])
  {
    var p, t, k, all := ev.price, AddQty(side, s, ev.price, ev.qty), Rank(side, s, ev.price), adds + [ev];
    HasPriceAtRank(side, s, p);
    AddQtySorted(side, s, p, ev.qty);
    PricesSnoc(adds, ev);
    forall i | 0 <= i < |t|
      ensures Complete(all, t[i])
    {
      AddedLevel(side, s, adds, ev, i);
    }
    forall q | q in Prices(all) && !HasPrice(t, q)
      ensures |t| == MAX_LEVELS && forall i :: 0 <= i < |t| ==> Before(side, t[i].price, q)
    {
      MissingStaysWorse(side, s, adds, ev, q);
    }
  }

  lemma JoinedLevel(adds: seq<MarketEvent>, ev: MarketEvent, l: PriceLevel)
    requires Complete(adds, l)
    ensures Complete(adds + [ev], if l.price == ev.price then l.AddOrder(ev.qty) else l)
  {
    PricesSnoc(adds, ev);
    assert (adds + [ev])[..|adds|] == adds;
  }

  lemma OpenedLevel(adds: seq<MarketEvent>, ev: MarketEvent)
    requires ev.price !in Prices(adds)
    ensures Complete(adds + [ev], PriceLevel(ev.price, ev.qty, 1))
  {
    PricesSnoc(adds, ev);
    AbsentPriceSumsToZero(adds, ev.price);
    assert (adds + [ev])[..|adds|] == adds;
  }

  lemma AddedLevel(side: Side, s: seq<PriceLevel>, adds: seq<MarketEvent>, ev: MarketEvent, i: nat)
    requires Keeps(side, s, adds) && i < |AddQty(side, s, ev.price, ev.qty)|
    ensures Complete(adds + [ev], AddQty(side, s, ev.price, ev.qty)[i])
  {
    var p, t, k := ev.price, AddQty(side, s, ev.price, ev.qty), Rank(side, s, ev.price);
    HasPriceAtRank(side, s, p);
    if !HasPrice(s, p) && k < MAX_LEVELS && i == k {
      assert p !in Prices(adds);
      OpenedLevel(adds, ev);
    } else {
      var j := if HasPrice(s, p) || i < k then i else i - 1;
      assert Complete(adds, s[j]);
      JoinedLevel(adds, ev, s[j]);
    }
  }

  /** After an eviction, whatever is missing ranks after all that is kept. */
  lemma {:induction false} EvictedIsWorst(side: Side, s: seq<PriceLevel>, p: int, qty: int, q: int)
    requires OrderedSide(side, s) && !Room(s, p) && Rank(side, s, p) < MAX_LEVELS
    requires HasPrice(s, q) || q == p || forall i :: 0 <= i < |s| ==> Before(side, s[i].price, q)
    requires !HasPrice(AddQty(side, s, p, qty), q)
    ensures var t := AddQty(side, s, p, qty); |t| == MAX_LEVELS && forall i :: 0 <= i < |t| ==>
      Before(side, t[i].price, q)
  {
    var t, k, n := AddQty(side, s, p, qty), Rank(side, s, p), |s|;
    HasPriceAtRank(side, s, p);
    assert t == s[..k] + [PriceLevel(p, qty, 1)] + s[k..n - 1];
    assert q != p by { assert t[k].price == p; }
    assert HasPrice(s, q) ==> q == s[n - 1].price by {
      forall i | 0 <= i < n - 1
        ensures s[i].price != q
      {
        assert t[if i < k then i else i + 1] == s[i];
      }
    }
    forall i | 0 <= i < |t|
      ensures Before(side, t[i].price, q)
    {
      assert i != k ==> t[i] == s[if i < k then i else i - 1];
    }
  }

  lemma MissingStaysWorse(side: Side, s: seq<PriceLevel>, adds: seq<MarketEvent>, ev: MarketEvent, q: int)
    requires Keeps(side, s, adds)
    requires q in Prices(adds + [ev]) && !HasPrice(AddQty(side, s, ev.price, ev.qty), q)
    ensures var t := AddQty(side, s, ev.price, ev.qty); |t| == MAX_LEVELS && forall i :: 0 <= i < |t| ==>
      Before(side, t[i].price, q)
  {
    var p, t, k := ev.price, AddQty(side, s, ev.price, ev.qty), Rank(side, s, ev.price);
    HasPriceAtRank(side, s, p);
    PricesSnoc(adds, ev);
    if Room(s, p) {
      AddAt(side, s, p, ev.qty, q);
    } else if k < MAX_LEVELS {
      EvictedIsWorst(side, s, p, ev.qty, q);
    }
  }

  ghost predicate AddsOnly(evs: seq<MarketEvent>) {
    forall i :: 0 <= i < |evs| ==> evs[i].kind == ORDER_ADD
  }

  lemma AddStep(cfg: Config, b: Book, ev: MarketEvent, side: Side)
    requires ev.kind == ORDER_ADD
    ensures var (next, r) := Step(cfg, b, ev);
      next.contents.Levels(side) ==
        if r == Ok && ev.side == side then AddQty(side, b.contents.Levels(side), ev.price, ev.qty)
          else b.contents.Levels(side)
  {
  }

  lemma AddOnlyStepKeeps(cfg: Config, b: Book, adds: seq<MarketEvent>, ev: MarketEvent, side: Side)
    requires ev.kind == ORDER_ADD && Keeps(side, b.contents.Levels(side), adds)
    ensures var (next, r) := Step(cfg, b, ev);
      Keeps(side, next.contents.Levels(side), adds + if r == Ok && ev.side == side then [ev] else [])
  {
    AddStep(cfg, b, ev, side);
    AddKeeps(side, b.contents.Levels(side), adds, ev);
    assert adds + [] == adds;
  }

  lemma {:induction false} AddOnlyRunKeeps(cfg: Config, evs: seq<MarketEvent>, side: Side)
    requires AddsOnly(evs)
    ensures Keeps(side, Run(cfg, NEW_BOOK, evs).contents.Levels(side), Accepted(cfg, evs, side))
  {
    if evs != [] {
      var front, last := evs[..|evs| - 1], evs[|evs| - 1];
      AddOnlyRunKeeps(cfg, front, side);
      AddOnlyStepKeeps(cfg, Run(cfg, NEW_BOOK, front), Accepted(cfg, front, side), last, side);
    }
  }

  // ----- From the invariant to the closed form -----

  ghost function PricesBelow(s: seq<PriceLevel>, n: nat): set<int>
    requires n <= |s|
  {
    if n == 0 then {} else PricesBelow(s, n - 1) + {s[n - 1].price}
  }

  lemma {:induction false} PriceBelow(s: seq<PriceLevel>, n: nat, i: nat)
    requires i < n <= |s|
    ensures s[i].price in PricesBelow(s, n)
  {
    if i < n - 1 {
      PriceBelow(s, n - 1, i);
    }
  }

  lemma {:induction false} PriceFromBelow(s: seq<PriceLevel>, n: nat, q: int) returns (i: nat)
    requires n <= |s| && q in PricesBelow(s, n)
    ensures i < n && s[i].price == q
  {
    if s[n - 1].price == q {
      i := n - 1;
    } else {
      i := PriceFromBelow(s, n - 1, q);
    }
  }

  lemma {:induction false} PricesBelowSize(side: Side, s: seq<PriceLevel>, n: nat)
    requires Sorted(side, s) && n <= |s|
    ensures |PricesBelow(s, n)| == n
  {
    if n > 0 {
      PricesBelowSize(side, s, n - 1);
      var before, last := PricesBelow(s, n - 1), s[n - 1].price;
      if last in before {
        var i := PriceFromBelow(s, n - 1, last);
      }
      assert |before + {last}| == |before| + 1;
    }
  }

  lemma {:induction false} BetterIsAbove(side: Side, s: seq<PriceLevel>, adds: seq<MarketEvent>, i: nat, q: int)
    requires Keeps(side, s, adds) && i < |s| && q in Prices(adds) && Before(side, q, s[i].price)
    ensures q in PricesBelow(s, i)
  {
    assert HasPrice(s, q);
    var j: nat :| j < |s| && s[j].price == q;
    PriceBelow(s, i, j);
  }

  lemma {:induction false} AboveIsBetter(side: Side, s: seq<PriceLevel>, adds: seq<MarketEvent>, i: nat, q: int)
    requires Keeps(side, s, adds) && i < |s| && q in PricesBelow(s, i)
    ensures q in Prices(adds) && Before(side, q, s[i].price)
  {
    var j := PriceFromBelow(s, i, q);
    assert Complete(adds, s[j]);
  }

  lemma {:induction false} BetterThanKept(side: Side, s: seq<PriceLevel>, adds: seq<MarketEvent>, i: nat)
    requires Keeps(side, s, adds) && i < |s|
    ensures Better(side, Prices(adds), s[i].price) == PricesBelow(s, i)
  {
    var prices := Prices(adds);
    forall q | q in prices && Before(side, q, s[i].price)
      ensures q in PricesBelow(s, i)
    {
      BetterIsAbove(side, s, adds, i, q);
    }
    forall q | q in PricesBelow(s, i)
      ensures q in Better(side, prices, s[i].price)
    {
      AboveIsBetter(side, s, adds, i, q);
    }
  }

  lemma {:induction false} KeptAreAccepted(side: Side, s: seq<PriceLevel>, adds: seq<MarketEvent>)
    requires Keeps(side, s, adds)
    ensures PricesBelow(s, |s|) <= Prices(adds)
  {
    forall q | q in PricesBelow(s, |s|)
      ensures q in Prices(adds)
    {
      var j := PriceFromBelow(s, |s|, q);
      assert Complete(adds, s[j]);
    }
  }

  /** A price is kept exactly when it was accepted and fewer than 256 accepted prices rank before it. */
  lemma KeptIffTop(side: Side, s: seq<PriceLevel>, adds: seq<MarketEvent>, p: int)
    requires Keeps(side, s, adds)
    ensures HasPrice(s, p) <==> p in Prices(adds) && |Better(side, Prices(adds), p)| < MAX_LEVELS
  {
    if i: nat :| i < |s| && s[i].price == p {
      assert Complete(adds, s[i]);
      BetterThanKept(side, s, adds, i);
      PricesBelowSize(side, s, i);
    } else if p in Prices(adds) {
      var better := Better(side, Prices(adds), p);
      PricesBelowSize(side, s, |s|);
      KeptAreAccepted(side, s, adds);
      forall q | q in PricesBelow(s, |s|)
        ensures q in better
      {
        var j := PriceFromBelow(s, |s|, q);
      }
      SubsetSize(PricesBelow(s, |s|), better);
    }
  }

  lemma KeptCount(side: Side, s: seq<PriceLevel>, adds: seq<MarketEvent>)
    requires Keeps(side, s, adds)
    ensures |s| == Min(MAX_LEVELS, |Prices(adds)|)
  {
    PricesBelowSize(side, s, |s|);
    KeptAreAccepted(side, s, adds);
    SubsetSize(PricesBelow(s, |s|), Prices(adds));
    if |s| < MAX_LEVELS {
      forall q | q in Prices(adds)
        ensures q in PricesBelow(s, |s|)
      {
        assert HasPrice(s, q);
        var j: nat :| j < |s| && s[j].price == q;
        PriceBelow(s, |s|, j);
      }
      assert Prices(adds) == PricesBelow(s, |s|);
    }
  }

  /**
   After every run of adds, each side is sorted and holds exactly the best min(256, distinct)
   prices among the accepted adds, each with its complete quantity and count.
   */
  lemma {:induction false} AddOnlyRunKeepsTheBest(cfg: Config, evs: seq<MarketEvent>, side: Side)
    requires AddsOnly(evs)
    ensures var s, adds := Run(cfg, NEW_BOOK, evs).contents.Levels(side), Accepted(cfg, evs, side);
      && Sorted(side, s) && |s| == Min(MAX_LEVELS, |Prices(adds)|)
      && (forall i :: 0 <= i < |s| ==>
        s[i] == PriceLevel(s[i].price, QtyAt(adds, s[i].price), CountAt(adds, s[i].price)))
      && (forall p: int :: HasPrice(s, p) <==> p in Prices(adds) && |Better(side, Prices(adds), p)| < MAX_LEVELS)
  {
    var s, adds := Run(cfg, NEW_BOOK, evs).contents.Levels(side), Accepted(cfg, evs, side);
    AddOnlyRunKeeps(cfg, evs, side);
    KeptCount(side, s, adds);
    forall i | 0 <= i < |s|
      ensures s[i] == PriceLevel(s[i].price, QtyAt(adds, s[i].price), CountAt(adds, s[i].price))
    {
      assert Complete(adds, s[i]);
    }
    forall p: int
      ensures HasPrice(s, p) <==> p in Prices(adds) && |Better(side, Prices(adds), p)| < MAX_LEVELS
    {
      KeptIffTop(side, s, adds, p);
    }
  }
}
