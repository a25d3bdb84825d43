/** Exactly when an add, of a fresh number or of a tracked one, keeps the levels in agreement with the orders. */
module AddAgreement {
  import opened Types
  import opened OrderTable
  import opened PriceLevels
  import opened OrderBook
  import opened BookRuns
  import opened BookAggregates
  import opened BookAgreement

  ghost function Tracked(c: Contents, k: int, rec: OrderRecord): Contents {
    AddLevelQty(c.(orders := c.orders[k := rec]), rec.side, rec.price, rec.qty)
  }

  lemma TrackAt(c: Contents, seed: Contents, k: int, rec: OrderRecord, side: Side, p: int)
    requires Agree(c, seed) && IsSeed(seed) && k !in c.orders && Room(c.Levels(rec.side), rec.price)
    ensures AgreeAt(Tracked(c, k, rec), seed, side, p)
  {
    assert AgreeAt(c, seed, side, p);
    assert c.(orders := c.orders - {k}) == c;
    ExpectedAfterPut(c, Tracked(c, k, rec), seed, k, rec, side, p);
    ExpectedBounds(c, seed, side, p);
    if side == rec.side {
      AddAt(side, c.Levels(side), rec.price, rec.qty, p);
    }
  }

  /** A level opened on a full side: the worst one goes, or the new one is not taken. */
  ghost function Lost(side: Side, s: seq<PriceLevel>, p: int): int
    requires |s| == MAX_LEVELS
  {
    if Rank(side, s, p) >= MAX_LEVELS then p else s[|s| - 1].price
  }

  lemma LostHasNoLevel(side: Side, s: seq<PriceLevel>, p: int, qty: int)
    requires OrderedSide(side, s) && !Room(s, p)
    ensures var lost := Lost(side, s, p); !HasPrice(AddQty(side, s, p, qty), lost) && (lost == p || HasPrice(s, lost))
  {
    if Rank(side, s, p) < MAX_LEVELS {
      EvictAt(side, s, p, qty, s[|s| - 1].price);
    }
  }

  lemma LostIsMissed(c: Contents, seed: Contents, k: int, rec: OrderRecord)
    requires Agree(c, seed) && IsSeed(seed) && k !in c.orders && !Room(c.Levels(rec.side), rec.price)
    ensures !AgreeAt(Tracked(c, k, rec), seed, rec.side, Lost(rec.side, c.Levels(rec.side), rec.price))
  {
    var s := c.Levels(rec.side);
    var lost := Lost(rec.side, s, rec.price);
    LostHasNoLevel(rec.side, s, rec.price, rec.qty);
    assert AgreeAt(c, seed, rec.side, lost);
    assert c.(orders := c.orders - {k}) == c;
    ExpectedAfterPut(c, Tracked(c, k, rec), seed, k, rec, rec.side, lost);
    ExpectedBounds(c, seed, rec.side, lost);
  }

  /** A fresh order keeps agreement exactly when its level needs no room or finds it. */
  lemma TrackAgreesIff(c: Contents, seed: Contents, k: int, rec: OrderRecord)
    requires Agree(c, seed) && IsSeed(seed) && k !in c.orders
    ensures Agree(Tracked(c, k, rec), seed) <==> Room(c.Levels(rec.side), rec.price)
  {
    var d := Tracked(c, k, rec);
    if Room(c.Levels(rec.side), rec.price) {
      AddLevelOrdered(c.(orders := c.orders[k := rec]), rec.side, rec.price, rec.qty);
      forall side: Side, p: int
        ensures AgreeAt(d, seed, side, p)
      {
        TrackAt(c, seed, k, rec, side, p);
      }
    } else {
      LostIsMissed(c, seed, k, rec);
    }
  }

  /** Number `k` is tracked alone on the worst level of a full side, and the new level takes its place. */
  ghost predicate Swaps(c: Contents, was: OrderRecord, rec: OrderRecord) {
    var s := c.Levels(rec.side);
    && !Room(s, rec.price) && Rank(rec.side, s, rec.price) < MAX_LEVELS
    && was.side == rec.side && was.price == s[|s| - 1].price && s[|s| - 1].count == 1
  }

  /** What is expected once a tracked number has been overwritten. */
  lemma ExpectedAfterOverwrite(c: Contents, seed: Contents, k: int, rec: OrderRecord, side: Side, p: int)
    requires k in c.orders
    ensures var e := Expected(c, seed, side, p);
      var rest := if Here(c.orders[k], side, p) then Less(e, c.orders[k].qty, 1) else e;
      Expected(Tracked(c, k, rec), seed, side, p) == if Here(rec, side, p) then rest.AddOrder(rec.qty) else rest
  {
    ExpectedAfterDrop(c, c.(orders := c.orders - {k}), seed, k, side, p);
    ExpectedAfterPut(c, Tracked(c, k, rec), seed, k, rec, side, p);
  }

  lemma SwapShown(c: Contents, was: OrderRecord, rec: OrderRecord, p: int)
    requires Ordered(c) && Swaps(c, was, rec)
    ensures LevelOf(c, was).count == 1 && was.price != rec.price
    ensures var s := c.Levels(rec.side); var t := AddQty(rec.side, s, rec.price, rec.qty);
      && At(rec.side, t, p) ==
           (if p == rec.price then PriceLevel(p, rec.qty, 1)
            else if p == was.price then PriceLevel(p, 0, 0) else At(rec.side, s, p))
      && (HasPrice(t, p) <==> p == rec.price || (p != was.price && HasPrice(s, p)))
  {
    var s := c.Levels(rec.side);
    EvictAt(rec.side, s, rec.price, rec.qty, p);
    AtMember(rec.side, s, s[|s| - 1]);
  }

  lemma SwapAt(c: Contents, seed: Contents, k: int, rec: OrderRecord, side: Side, p: int)
    requires Agree(c, seed) && IsSeed(seed) && k in c.orders && Swaps(c, c.orders[k], rec)
    ensures AgreeAt(Tracked(c, k, rec), seed, side, p)
  {
    assert AgreeAt(c, seed, side, p);
    ExpectedAfterOverwrite(c, seed, k, rec, side, p);
    SwapShown(c, c.orders[k], rec, p);
    if Here(c.orders[k], side, p) {
      ExpectedBounds(Tracked(c, k, rec), seed, side, p);
    } else if Here(rec, side, p) {
      ExpectedBounds(c, seed, side, p);
    }
  }

  lemma OverwriteWithRoomShows(c: Contents, seed: Contents, k: int, rec: OrderRecord)
    requires Agree(c, seed) && IsSeed(seed) && k in c.orders && Room(c.Levels(rec.side), rec.price)
    ensures !AgreeAt(Tracked(c, k, rec), seed, c.orders[k].side, c.orders[k].price)
  {
    var was := c.orders[k];
    assert AgreeAt(c, seed, was.side, was.price);
    ExpectedAfterOverwrite(c, seed, k, rec, was.side, was.price);
    if was.side == rec.side {
      AddAt(rec.side, c.Levels(rec.side), rec.price, rec.qty, was.price);
    }
  }

  lemma OverwriteWithoutRoomShows(c: Contents, seed: Contents, k: int, rec: OrderRecord)
    requires Agree(c, seed) && IsSeed(seed) && k in c.orders && !Room(c.Levels(rec.side), rec.price)
    requires !Swaps(c, c.orders[k], rec) && |c.Levels(rec.side)| == MAX_LEVELS
    ensures !AgreeAt(Tracked(c, k, rec), seed, rec.side, Lost(rec.side, c.Levels(rec.side), rec.price))
  {
    var s, was := c.Levels(rec.side), c.orders[k];
    var lost := Lost(rec.side, s, rec.price);
    LostHasNoLevel(rec.side, s, rec.price, rec.qty);
    assert AgreeAt(c, seed, rec.side, lost);
    TrackedHasLevel(c, seed, k);
    ExpectedAfterOverwrite(c, seed, k, rec, rec.side, lost);
    if lost != rec.price {
      AtMember(rec.side, s, s[|s| - 1]);
    }
  }

  /** Overwriting a tracked number keeps agreement only in one case: it swaps its own level out. */
  lemma OverwriteAgreesIff(c: Contents, seed: Contents, k: int, rec: OrderRecord)
    requires Agree(c, seed) && IsSeed(seed) && k in c.orders
    ensures Agree(Tracked(c, k, rec), seed) <==> Swaps(c, c.orders[k], rec)
  {
    if Swaps(c, c.orders[k], rec) {
      AddLevelOrdered(c.(orders := c.orders[k := rec]), rec.side, rec.price, rec.qty);
      forall side: Side, p: int
        ensures AgreeAt(Tracked(c, k, rec), seed, side, p)
      {
        SwapAt(c, seed, k, rec, side, p);
      }
    } else if Room(c.Levels(rec.side), rec.price) {
      OverwriteWithRoomShows(c, seed, k, rec);
    } else {
      OverwriteWithoutRoomShows(c, seed, k, rec);
    }
  }

  ghost predicate AddKeeps(c: Contents, ev: MarketEvent) {
    if ev.orderNo in c.orders then Swaps(c, c.orders[ev.orderNo], RecordOf(ev)) else Room(c.Levels(ev.side), ev.price)
  }

  function RecordOf(ev: MarketEvent): OrderRecord { OrderRecord(ev.orderNo, ev.price, ev.qty, ev.side) }

  /**
   An accepted add keeps agreement exactly when its number is fresh and no level is pushed out,
   or its number is tracked alone on the very level that it pushes out.
   */
  lemma AddAgreesIff(cfg: Config, c: Contents, seed: Contents, ev: MarketEvent)
    requires Agree(c, seed) && IsSeed(seed) && Add(cfg, c, ev).1 == Ok
    ensures Agree(Add(cfg, c, ev).0, seed) <==> AddKeeps(c, ev)
  {
    if ev.orderNo in c.orders {
      OverwriteAgreesIff(c, seed, ev.orderNo, RecordOf(ev));
    } else {
      TrackAgreesIff(c, seed, ev.orderNo, RecordOf(ev));
    }
  }
}
