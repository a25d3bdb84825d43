/**
 Agreement of the level arrays with the tracked orders: every level is the seed of the last
 snapshot plus the orders tracked at that price, no more and no less. What adds and removals do
 to either side of it, and exactly when taking quantity out keeps it.
 */
module BookAgreement {
  import opened Types
  import opened OrderTable
  import opened PriceLevels
  import opened OrderBook
  import opened BookRuns
  import opened BookAggregates

  /** What the level at a price should be: the seed plus the tracked orders. */
  ghost function Expected(c: Contents, seed: Contents, side: Side, p: int): PriceLevel {
    var base := At(side, seed.Levels(side), p);
    PriceLevel(p, base.total + Sum(c.orders, Measure(side, p, false)),
               base.count + Sum(c.orders, Measure(side, p, true)))
  }

  ghost predicate AgreeAt(c: Contents, seed: Contents, side: Side, p: int) {
    && At(side, c.Levels(side), p) == Expected(c, seed, side, p)
    && (HasPrice(c.Levels(side), p) <==> Expected(c, seed, side, p).count > 0)
  }

  ghost predicate Agree(c: Contents, seed: Contents) {
    Ordered(c) && forall side: Side, p: int :: AgreeAt(c, seed, side, p)
  }

  /** A seed as Snap Quotes make them: at most one level per side, with something in it. */
  ghost predicate IsSeed(seed: Contents) {
    && seed.orders == map[]
    && forall side: Side ::
         |seed.Levels(side)| <= 1 && forall l :: l in seed.Levels(side) ==> l.count == 1 && l.total > 0
  }

  lemma SeedAgrees(cfg: Config, ev: MarketEvent)
    ensures IsSeed(SeedContents(cfg, ev)) && Agree(SeedContents(cfg, ev), SeedContents(cfg, ev))
  {
  }

  /** Where nothing is expected, no quantity is. */
  lemma ExpectedBounds(c: Contents, seed: Contents, side: Side, p: int)
    requires IsSeed(seed)
    ensures var e := Expected(c, seed, side, p); e.count >= 0 && (e.count == 0 ==> e == PriceLevel(p, 0, 0))
  {
    SumBounds(c.orders, side, p);
    var s := seed.Levels(side);
    assert forall i :: 0 <= i < |s| ==> s[i] in s;
  }

  /** The best bid is the highest, and the best ask the lowest, of the prices with something to trade. */
  lemma BestIsTrueExtreme(c: Contents, seed: Contents, side: Side)
    requires Agree(c, seed)
    ensures c.Levels(side) == [] <==> forall p: int :: Expected(c, seed, side, p).count <= 0
    ensures c.Levels(side) != [] ==>
      var best := c.Levels(side)[0];
      && best == Expected(c, seed, side, best.price) && best.count > 0
      && forall p: int :: Expected(c, seed, side, p).count > 0 ==> if side == Buy then p <= best.price else best.price <= p
  {
    var s := c.Levels(side);
    if s != [] {
      AtMember(side, s, s[0]);
      assert AgreeAt(c, seed, side, s[0].price);
    }
    forall p: int | Expected(c, seed, side, p).count > 0
      ensures s != [] && (p == s[0].price || Before(side, s[0].price, p))
    {
      assert AgreeAt(c, seed, side, p);
    }
  }

  // ----- Effects on what is expected and what is shown -----

  ghost predicate Here(rec: OrderRecord, side: Side, p: int) { rec.side == side && rec.price == p }

  /** A level less the quantity and number of orders taken out of it. */
  function Less(l: PriceLevel, qty: int, n: int): PriceLevel { PriceLevel(l.price, l.total - qty, l.count - n) }

  lemma ExpectedAfterPut(c: Contents, d: Contents, seed: Contents, k: int, rec: OrderRecord, side: Side, p: int)
    requires d.orders == c.orders[k := rec]
    ensures var was := Expected(c.(orders := c.orders - {k}), seed, side, p);
      Expected(d, seed, side, p) == if Here(rec, side, p) then was.AddOrder(rec.qty) else was
  {
    SumPut(c.orders, k, rec, Measure(side, p, true));
    SumPut(c.orders, k, rec, Measure(side, p, false));
  }

  lemma ExpectedAfterDrop(c: Contents, d: Contents, seed: Contents, k: int, side: Side, p: int)
    requires k in c.orders && d.orders == c.orders - {k}
    ensures Expected(d, seed, side, p) ==
      if Here(c.orders[k], side, p) then Less(Expected(c, seed, side, p), c.orders[k].qty, 1)
        else Expected(c, seed, side, p)
  {
    SumRemove(c.orders, k, Measure(side, p, true));
    SumRemove(c.orders, k, Measure(side, p, false));
  }

  /** What a removal leaves of a level: nothing once its last order goes. */
  function Remains(l: PriceLevel, cut: int, drop: bool): PriceLevel {
    var left := l.RemoveOrder(cut, drop);
    if left.Empty() then PriceLevel(l.price, 0, 0) else left
  }

  /** A removal at one price is seen at that price only. */
  lemma ShownAfterRemoval(c: Contents, rec: OrderRecord, cut: int, drop: bool, side: Side, p: int)
    requires Ordered(c) && HasPrice(c.Levels(rec.side), rec.price)
    ensures var d, level := RemoveLevelQty(c, rec.side, rec.price, cut, drop), At(side, c.Levels(side), p);
      && Ordered(d)
      && At(side, d.Levels(side), p) == (if Here(rec, side, p) then Remains(level, cut, drop) else level)
      && (HasPrice(d.Levels(side), p) <==>
           if Here(rec, side, p) then !level.RemoveOrder(cut, drop).Empty() else HasPrice(c.Levels(side), p))
  {
    RemoveLevelOrdered(c, rec.side, rec.price, cut, drop);
    if side == rec.side {
      RemoveAt(side, c.Levels(side), rec.price, cut, drop, p);
    }
  }

  // ----- Taking quantity out -----

  ghost function Untracked(c: Contents, k: int): Contents
    requires k in c.orders
  {
    var rec := c.orders[k];
    var removed := RemoveLevelQty(c, rec.side, rec.price, rec.qty, true);
    removed.(orders := removed.orders - {k})
  }

  ghost function Shrunk(c: Contents, k: int, cut: int): Contents
    requires k in c.orders
  {
    var rec := c.orders[k];
    var removed := RemoveLevelQty(c, rec.side, rec.price, cut, false);
    removed.(orders := removed.orders[k := rec.(qty := rec.qty - cut)])
  }

  /** The level that an order rests in. */
  ghost function LevelOf(c: Contents, rec: OrderRecord): PriceLevel {
    At(rec.side, c.Levels(rec.side), rec.price)
  }

  lemma TrackedHasLevel(c: Contents, seed: Contents, k: int)
    requires Agree(c, seed) && IsSeed(seed) && k in c.orders
    ensures HasPrice(c.Levels(c.orders[k].side), c.orders[k].price) && LevelOf(c, c.orders[k]).count >= 1
  {
    var rec := c.orders[k];
    var without := c.(orders := c.orders - {k});
    assert AgreeAt(c, seed, rec.side, rec.price);
    ExpectedAfterDrop(c, without, seed, k, rec.side, rec.price);
    ExpectedBounds(without, seed, rec.side, rec.price);
  }

  lemma ShrunkExpected(c: Contents, seed: Contents, k: int, cut: int, side: Side, p: int)
    requires k in c.orders
    ensures Expected(Shrunk(c, k, cut), seed, side, p) ==
      if Here(c.orders[k], side, p) then Less(Expected(c, seed, side, p), cut, 0) else Expected(c, seed, side, p)
  {
    var rec := c.orders[k];
    var smaller := rec.(qty := rec.qty - cut);
    ExpectedAfterDrop(c, c.(orders := c.orders - {k}), seed, k, side, p);
    ExpectedAfterPut(c, Shrunk(c, k, cut), seed, k, smaller, side, p);
  }

  lemma UntrackAt(c: Contents, seed: Contents, k: int, side: Side, p: int)
    requires Agree(c, seed) && IsSeed(seed) && k in c.orders
    ensures AgreeAt(Untracked(c, k), seed, side, p)
      <==> (Here(c.orders[k], side, p) ==> At(side, c.Levels(side), p).total >= c.orders[k].qty)
  {
    assert AgreeAt(c, seed, side, p);
    TrackedHasLevel(c, seed, k);
    ShownAfterRemoval(c, c.orders[k], c.orders[k].qty, true, side, p);
    ExpectedAfterDrop(c, Untracked(c, k), seed, k, side, p);
    ExpectedBounds(Untracked(c, k), seed, side, p);
  }

  lemma ShrinkAt(c: Contents, seed: Contents, k: int, cut: int, side: Side, p: int)
    requires Agree(c, seed) && IsSeed(seed) && k in c.orders
    ensures AgreeAt(Shrunk(c, k, cut), seed, side, p)
      <==> (Here(c.orders[k], side, p) ==> At(side, c.Levels(side), p).total >= cut)
  {
    assert AgreeAt(c, seed, side, p);
    TrackedHasLevel(c, seed, k);
    ShownAfterRemoval(c, c.orders[k], cut, false, side, p);
    ShrunkExpected(c, seed, k, cut, side, p);
  }

  /**
   Forgetting an order keeps agreement exactly when its level holds its quantity, so that the
   clamp at zero stays idle.
   */
  lemma UntrackAgreesIff(c: Contents, seed: Contents, k: int)
    requires Agree(c, seed) && IsSeed(seed) && k in c.orders
    ensures Agree(Untracked(c, k), seed) <==> LevelOf(c, c.orders[k]).total >= c.orders[k].qty
  {
    var rec := c.orders[k];
    RemoveLevelOrdered(c, rec.side, rec.price, rec.qty, true);
    UntrackAt(c, seed, k, rec.side, rec.price);
    if LevelOf(c, rec).total >= rec.qty {
      forall side: Side, p: int
        ensures AgreeAt(Untracked(c, k), seed, side, p)
      {
        UntrackAt(c, seed, k, side, p);
      }
    }
  }

  /** Shrinking an order keeps agreement exactly when its level holds the cut. */
  lemma ShrinkAgreesIff(c: Contents, seed: Contents, k: int, cut: int)
    requires Agree(c, seed) && IsSeed(seed) && k in c.orders
    ensures Agree(Shrunk(c, k, cut), seed) <==> LevelOf(c, c.orders[k]).total >= cut
  {
    var rec := c.orders[k];
    RemoveLevelOrdered(c, rec.side, rec.price, cut, false);
    ShrinkAt(c, seed, k, cut, rec.side, rec.price);
    if LevelOf(c, rec).total >= cut {
      forall side: Side, p: int
        ensures AgreeAt(Shrunk(c, k, cut), seed, side, p)
      {
        ShrinkAt(c, seed, k, cut, side, p);
      }
    }
  }

  /** What a leg of a trade takes out of the level of its order. */
  function LegCut(rec: OrderRecord, traded: int): int { if traded >= rec.qty then rec.qty else traded }

  ghost predicate LegKeeps(c: Contents, orderNo: int, traded: int) {
    Tracks(c, orderNo) ==> LevelOf(c, c.orders[orderNo]).total >= LegCut(c.orders[orderNo], traded)
  }

  /** One leg of a trade keeps agreement exactly when the level of its order holds what it takes. */
  lemma ReduceAgreesIff(c: Contents, seed: Contents, orderNo: int, traded: int)
    requires Agree(c, seed) && IsSeed(seed)
    ensures Agree(Reduce(c, orderNo, traded), seed) <==> LegKeeps(c, orderNo, traded)
  {
    if Tracks(c, orderNo) {
      if traded >= c.orders[orderNo].qty {
        UntrackAgreesIff(c, seed, orderNo);
      } else {
        ShrinkAgreesIff(c, seed, orderNo, traded);
      }
    }
  }
}
