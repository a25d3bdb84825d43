/** What the clamp at zero leaves behind, and the exact condition for every kind of event to keep agreement. */
module EventAgreement {
  import opened Types
  import opened OrderTable
  import opened PriceLevels
  import opened OrderBook
  import opened BookRuns
  import opened BookAggregates
  import opened BookAgreement
  import opened AddAgreement

  // ----- After the clamp has fired -----

  /** Everything agrees but the total of one level, which the clamp left at zero above what is expected. */
  ghost predicate Clamped(c: Contents, seed: Contents, side: Side, p: int) {
    var shown, expected := At(side, c.Levels(side), p), Expected(c, seed, side, p);
    && Ordered(c) && HasPrice(c.Levels(side), p)
    && shown.count == expected.count >= 1 && shown.total == 0 > expected.total
    && forall s: Side, q: int :: s != side || q != p ==> AgreeAt(c, seed, s, q)
  }

  lemma UntrackClamps(c: Contents, seed: Contents, k: int)
    requires Agree(c, seed) && IsSeed(seed) && k in c.orders && LevelOf(c, c.orders[k]).total < c.orders[k].qty
    ensures Clamped(Untracked(c, k), seed, c.orders[k].side, c.orders[k].price)
  {
    var d, rec := Untracked(c, k), c.orders[k];
    assert AgreeAt(c, seed, rec.side, rec.price);
    TrackedHasLevel(c, seed, k);
    ShownAfterRemoval(c, rec, rec.qty, true, rec.side, rec.price);
    ExpectedAfterDrop(c, d, seed, k, rec.side, rec.price);
    ExpectedBounds(d, seed, rec.side, rec.price);
    forall s: Side, q: int | s != rec.side || q != rec.price
      ensures AgreeAt(d, seed, s, q)
    {
      UntrackAt(c, seed, k, s, q);
    }
  }

  lemma ShrinkClamps(c: Contents, seed: Contents, k: int, cut: int)
    requires Agree(c, seed) && IsSeed(seed) && k in c.orders && LevelOf(c, c.orders[k]).total < cut
    ensures Clamped(Shrunk(c, k, cut), seed, c.orders[k].side, c.orders[k].price)
  {
    var d, rec := Shrunk(c, k, cut), c.orders[k];
    assert AgreeAt(c, seed, rec.side, rec.price);
    TrackedHasLevel(c, seed, k);
    ShownAfterRemoval(c, rec, cut, false, rec.side, rec.price);
    ShrunkExpected(c, seed, k, cut, rec.side, rec.price);
    forall s: Side, q: int | s != rec.side || q != rec.price
      ensures AgreeAt(d, seed, s, q)
    {
      ShrinkAt(c, seed, k, cut, s, q);
    }
  }

  lemma LegClamps(c: Contents, seed: Contents, orderNo: int, traded: int)
    requires Agree(c, seed) && IsSeed(seed) && !LegKeeps(c, orderNo, traded)
    ensures Clamped(Reduce(c, orderNo, traded), seed, c.orders[orderNo].side, c.orders[orderNo].price)
  {
    if traded >= c.orders[orderNo].qty {
      UntrackClamps(c, seed, orderNo);
    } else {
      ShrinkClamps(c, seed, orderNo, traded);
    }
  }

  /** An add at one price leaves a level of another price as it was, or pushes it out. */
  lemma AddElsewhere(side: Side, s: seq<PriceLevel>, p: int, qty: int, q: int)
    requires OrderedSide(side, s) && q != p
    ensures var t := AddQty(side, s, p, qty); HasPrice(t, q) ==> At(side, t, q) == At(side, s, q)
  {
    if Room(s, p) {
      AddAt(side, s, p, qty, q);
    } else if Rank(side, s, p) < MAX_LEVELS {
      EvictAt(side, s, p, qty, q);
    } else {
      HasPriceAtRank(side, s, p);
    }
  }

  /** A later add does not make up for the clamp. */
  lemma ClampedAfterAdd(c: Contents, seed: Contents, side: Side, p: int, k: int, rec: OrderRecord)
    requires Clamped(c, seed, side, p) && k !in c.orders
    ensures !AgreeAt(Tracked(c, k, rec), seed, side, p)
  {
    assert c.(orders := c.orders - {k}) == c;
    ExpectedAfterPut(c, Tracked(c, k, rec), seed, k, rec, side, p);
    if Here(rec, side, p) {
      AddAt(side, c.Levels(side), p, rec.qty, p);
    } else if side == rec.side {
      AddElsewhere(side, c.Levels(side), rec.price, rec.qty, p);
    }
  }

  lemma ClampedTrackedHasLevel(c: Contents, seed: Contents, side: Side, p: int, k: int)
    requires Clamped(c, seed, side, p) && IsSeed(seed) && k in c.orders
    ensures HasPrice(c.Levels(c.orders[k].side), c.orders[k].price)
  {
    var rec := c.orders[k];
    if !Here(rec, side, p) {
      var without := c.(orders := c.orders - {k});
      assert AgreeAt(c, seed, rec.side, rec.price);
      ExpectedAfterDrop(c, without, seed, k, rec.side, rec.price);
      ExpectedBounds(without, seed, rec.side, rec.price);
    }
  }

  /** The clamped level goes with its last order. */
  ghost predicate Repairs(c: Contents, side: Side, p: int, orderNo: int, traded: int) {
    && Tracks(c, orderNo) && traded >= c.orders[orderNo].qty
    && Here(c.orders[orderNo], side, p) && At(side, c.Levels(side), p).count == 1
  }

  lemma RepairAt(c: Contents, seed: Contents, side: Side, p: int, k: int, s: Side, q: int)
    requires Clamped(c, seed, side, p) && IsSeed(seed) && k in c.orders
    requires Here(c.orders[k], side, p) && At(side, c.Levels(side), p).count == 1
    ensures AgreeAt(Untracked(c, k), seed, s, q)
  {
    ShownAfterRemoval(c, c.orders[k], c.orders[k].qty, true, s, q);
    ExpectedAfterDrop(c, Untracked(c, k), seed, k, s, q);
    if s == side && q == p {
      ExpectedBounds(Untracked(c, k), seed, s, q);
    } else {
      assert AgreeAt(c, seed, s, q);
    }
  }

  lemma ClampedAfterUntrack(c: Contents, seed: Contents, side: Side, p: int, k: int)
    requires Clamped(c, seed, side, p) && IsSeed(seed) && k in c.orders
    requires !(Here(c.orders[k], side, p) && At(side, c.Levels(side), p).count == 1)
    ensures !AgreeAt(Untracked(c, k), seed, side, p)
  {
    ClampedTrackedHasLevel(c, seed, side, p, k);
    ShownAfterRemoval(c, c.orders[k], c.orders[k].qty, true, side, p);
    ExpectedAfterDrop(c, Untracked(c, k), seed, k, side, p);
  }

  lemma ClampedAfterShrink(c: Contents, seed: Contents, side: Side, p: int, k: int, cut: int)
    requires Clamped(c, seed, side, p) && IsSeed(seed) && k in c.orders
    ensures !AgreeAt(Shrunk(c, k, cut), seed, side, p)
  {
    ClampedTrackedHasLevel(c, seed, side, p, k);
    ShownAfterRemoval(c, c.orders[k], cut, false, side, p);
    ShrunkExpected(c, seed, k, cut, side, p);
  }

  /** A second leg restores agreement exactly when it takes the last order out of the clamped level. */
  lemma SecondLegRepairsIff(c: Contents, seed: Contents, side: Side, p: int, orderNo: int, traded: int)
    requires Clamped(c, seed, side, p) && IsSeed(seed)
    ensures Agree(Reduce(c, orderNo, traded), seed) <==> Repairs(c, side, p, orderNo, traded)
  {
    if Repairs(c, side, p, orderNo, traded) {
      var rec := c.orders[orderNo];
      RemoveLevelOrdered(c, rec.side, rec.price, rec.qty, true);
      forall s: Side, q: int
        ensures AgreeAt(Reduce(c, orderNo, traded), seed, s, q)
      {
        RepairAt(c, seed, side, p, orderNo, s, q);
      }
    } else if !Tracks(c, orderNo) {
      assert !AgreeAt(c, seed, side, p);
    } else if traded >= c.orders[orderNo].qty {
      ClampedAfterUntrack(c, seed, side, p, orderNo);
    } else {
      ClampedAfterShrink(c, seed, side, p, orderNo, traded);
    }
  }

  // ----- Every kind of event -----

  lemma ModifyIsUntrackThenTrack(cfg: Config, c: Contents, ev: MarketEvent)
    requires Modify(cfg, c, ev).1 == Ok
    ensures var k := ev.orderNo;
      Modify(cfg, c, ev).0 == Tracked(Untracked(c, k), k, c.orders[k].(price := ev.price, qty := ev.qty))
  {
    var k := ev.orderNo;
    var rec := c.orders[k].(price := ev.price, qty := ev.qty);
    assert c.orders[k := rec] == (c.orders - {k})[k := rec];
  }

  ghost predicate ModifyKeeps(c: Contents, ev: MarketEvent)
    requires ev.orderNo in c.orders
  {
    var was := c.orders[ev.orderNo];
    LevelOf(c, was).total >= was.qty && Room(Untracked(c, ev.orderNo).Levels(was.side), ev.price)
  }

  /**
   An accepted modify keeps agreement exactly when the old level holds the old quantity and,
   with that taken out, the new price pushes no level out.
   */
  lemma ModifyAgreesIff(cfg: Config, c: Contents, seed: Contents, ev: MarketEvent)
    requires Agree(c, seed) && IsSeed(seed) && Modify(cfg, c, ev).1 == Ok
    ensures Agree(Modify(cfg, c, ev).0, seed) <==> ModifyKeeps(c, ev)
  {
    var k, was := ev.orderNo, c.orders[ev.orderNo];
    var rec := was.(price := ev.price, qty := ev.qty);
    ModifyIsUntrackThenTrack(cfg, c, ev);
    UntrackAgreesIff(c, seed, k);
    if LevelOf(c, was).total >= was.qty {
      TrackAgreesIff(Untracked(c, k), seed, k, rec);
    } else {
      UntrackClamps(c, seed, k);
      ClampedAfterAdd(Untracked(c, k), seed, was.side, was.price, k, rec);
    }
  }

  ghost predicate TradeKeeps(c: Contents, ev: MarketEvent) {
    var first := Reduce(c, ev.orderNo, ev.qty);
    if LegKeeps(c, ev.orderNo, ev.qty) then LegKeeps(first, ev.orderNo2, ev.qty)
    else Repairs(first, c.orders[ev.orderNo].side, c.orders[ev.orderNo].price, ev.orderNo2, ev.qty)
  }

  /**
   A trade keeps agreement exactly when each leg finds what it takes in the level of its order,
   or the second leg empties the level on which the first one ran into the clamp.
   */
  lemma TradeAgreesIff(c: Contents, seed: Contents, ev: MarketEvent)
    requires Agree(c, seed) && IsSeed(seed)
    ensures Agree(ApplyTrade(c, ev).0, seed) <==> TradeKeeps(c, ev)
  {
    var first := Reduce(c, ev.orderNo, ev.qty);
    if LegKeeps(c, ev.orderNo, ev.qty) {
      ReduceAgreesIff(c, seed, ev.orderNo, ev.qty);
      ReduceAgreesIff(first, seed, ev.orderNo2, ev.qty);
    } else {
      LegClamps(c, seed, ev.orderNo, ev.qty);
      var was := c.orders[ev.orderNo];
      SecondLegRepairsIff(first, seed, was.side, was.price, ev.orderNo2, ev.qty);
    }
  }

  /** The exact condition under which an event keeps agreement; a refused event always does. */
  ghost predicate Keeps(cfg: Config, c: Contents, ev: MarketEvent) {
    if ev.kind == ORDER_ADD then Add(cfg, c, ev).1 == Ok ==> AddKeeps(c, ev)
    else if ev.kind == ORDER_MODIFY then Modify(cfg, c, ev).1 == Ok ==> ModifyKeeps(c, ev)
    else if ev.kind == ORDER_CANCEL then
      ev.orderNo in c.orders ==> LevelOf(c, c.orders[ev.orderNo]).total >= c.orders[ev.orderNo].qty
    else ev.kind == TRADE ==> TradeKeeps(c, ev)
  }

  lemma HandleAgreesIff(cfg: Config, c: Contents, seed: Contents, ev: MarketEvent)
    requires Agree(c, seed) && IsSeed(seed) && ev.kind != SNAP_QUOTE
    ensures Agree(Handle(cfg, c, ev).0, seed) <==> Keeps(cfg, c, ev)
  {
    if ev.kind == ORDER_ADD {
      if Add(cfg, c, ev).1 == Ok {
        AddAgreesIff(cfg, c, seed, ev);
      }
    } else if ev.kind == ORDER_MODIFY {
      if Modify(cfg, c, ev).1 == Ok {
        ModifyAgreesIff(cfg, c, seed, ev);
      }
    } else if ev.kind == ORDER_CANCEL {
      if ev.orderNo in c.orders {
        UntrackAgreesIff(c, seed, ev.orderNo);
      }
    } else if ev.kind == TRADE {
      TradeAgreesIff(c, seed, ev);
    }
  }
}
