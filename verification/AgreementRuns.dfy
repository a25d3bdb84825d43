/** Agreement of levels and orders over whole runs: exactly when it lasts, and for a feed that keeps the rules. */
module AgreementRuns {
  import opened Types
  import opened OrderBook
  import opened PriceLevels
  import opened BookRuns
  import opened BookAggregates
  import opened BookAgreement
  import opened EventAgreement

  // ----- Whole runs -----

  /** The seed in force after a run: that of the last Snap Quote, if any. */
  ghost function SeedOf(cfg: Config, evs: seq<MarketEvent>): (seed: Contents)
    ensures IsSeed(seed)
  {
    if evs == [] then EMPTY
    else if evs[|evs| - 1].kind == SNAP_QUOTE then SeedContents(cfg, evs[|evs| - 1])
    else SeedOf(cfg, evs[..|evs| - 1])
  }

  ghost predicate Agrees(cfg: Config, evs: seq<MarketEvent>) {
    Agree(Run(cfg, NEW_BOOK, evs).contents, SeedOf(cfg, evs))
  }

  /** The levels agree with the orders at the start and after every event of the run. */
  ghost predicate AlwaysAgrees(cfg: Config, evs: seq<MarketEvent>) {
    Agrees(cfg, evs) && (evs != [] ==> AlwaysAgrees(cfg, evs[..|evs| - 1]))
  }

  /** What a Snap Quote of this price and quantity contributes at price `p`. */
  function SeedAt(tick: int, price: int, qty: int, p: int): PriceLevel {
    if p == price && qty > 0 && (tick == 0 || p % tick == 0) then PriceLevel(p, qty, 1) else PriceLevel(p, 0, 0)
  }

  /**
   In terms of the run alone: what is expected at a price is what the last Snap Quote put there,
   or nothing if there was none, plus the quantities and the number of the orders tracked there.
   */
  lemma {:induction false} ExpectedFromLastSeed(cfg: Config, evs: seq<MarketEvent>, a: nat, c: Contents, side: Side, p: int)
    requires LastSeed(evs, a)
    ensures var base :=
      if a == |evs| || evs[a].kind != SNAP_QUOTE then PriceLevel(p, 0, 0)
      else if side == Buy then SeedAt(cfg.tick, evs[a].bidPrice, evs[a].bidQty, p)
      else SeedAt(cfg.tick, evs[a].askPrice, evs[a].askQty, p);
      Expected(c, SeedOf(cfg, evs), side, p) ==
        PriceLevel(p, base.total + Sum(c.orders, Measure(side, p, false)),
          base.count + Sum(c.orders, Measure(side, p, true)))
  {
    if evs != [] && evs[|evs| - 1].kind != SNAP_QUOTE {
      var front := evs[..|evs| - 1];
      if a == |front| {
        assert LastSeed(front, a);
      }
      ExpectedFromLastSeed(cfg, front, a, c, side, p);
    }
  }

  /** The last event is a Snap Quote, is dropped, or keeps agreement. */
  ghost predicate LastKeeps(cfg: Config, evs: seq<MarketEvent>)
    requires evs != []
  {
    var b, last := Run(cfg, NEW_BOOK, evs[..|evs| - 1]), evs[|evs| - 1];
    last.kind == SNAP_QUOTE || b.stale || IsGap(b.expectedSeq, last.seqNo) || Keeps(cfg, b.contents, last)
  }

  ghost predicate EveryEventKeeps(cfg: Config, evs: seq<MarketEvent>) {
    evs != [] ==> LastKeeps(cfg, evs) && EveryEventKeeps(cfg, evs[..|evs| - 1])
  }

  lemma NextAgreesIff(cfg: Config, evs: seq<MarketEvent>)
    requires evs != []
    ensures Agrees(cfg, evs[..|evs| - 1]) ==> (Agrees(cfg, evs) <==> LastKeeps(cfg, evs))
  {
    if !Agrees(cfg, evs[..|evs| - 1]) {
      return;
    }
    var front, last := evs[..|evs| - 1], evs[|evs| - 1];
    var b := Run(cfg, NEW_BOOK, front);
    if last.kind == SNAP_QUOTE {
      SeedAgrees(cfg, last);
    } else {
      StepDropsOrHandles(cfg, b, last);
      if !b.stale && !IsGap(b.expectedSeq, last.seqNo) {
        HandleAgreesIff(cfg, b.contents, SeedOf(cfg, front), last);
      }
    }
  }

  /** A Snap Quote of nothing, whose seed is the empty book. */
  const NO_SEED := MarketEvent(0, 0, 0, 0, Buy, SNAP_QUOTE, 0, 0, 0, 0, 0, 0, 0, 0, 0)

  /**
   For every run: after each of its events every side holds exactly the prices with a seed or a
   tracked order, with the seed quantity plus the sum of the tracked quantities and the matching
   count, if and only if every event that the book handled met the condition of its kind.
   */
  lemma {:induction false} LevelsAgreeIff(cfg: Config, evs: seq<MarketEvent>)
    ensures AlwaysAgrees(cfg, evs) <==> EveryEventKeeps(cfg, evs)
  {
    if evs == [] {
      SeedAgrees(cfg, NO_SEED);
    } else {
      LevelsAgreeIff(cfg, evs[..|evs| - 1]);
      NextAgreesIff(cfg, evs);
    }
  }

  // ----- Since the last Snap Quote -----

  /** The levels agree with the orders after every event from the last Snap Quote on, or from the start. */
  ghost predicate AgreesSinceSeed(cfg: Config, evs: seq<MarketEvent>) {
    && Agrees(cfg, evs)
    && (evs != [] && evs[|evs| - 1].kind != SNAP_QUOTE ==> AgreesSinceSeed(cfg, evs[..|evs| - 1]))
  }

  ghost predicate KeepsSinceSeed(cfg: Config, evs: seq<MarketEvent>) {
    evs != [] && evs[|evs| - 1].kind != SNAP_QUOTE ==> LastKeeps(cfg, evs) && KeepsSinceSeed(cfg, evs[..|evs| - 1])
  }

  /**
   A Snap Quote mends whatever went before it: the levels agree at every point since the last
   one if and only if every event since then met the condition of its kind.
   */
  lemma {:induction false} LevelsAgreeSinceSeedIff(cfg: Config, evs: seq<MarketEvent>)
    ensures AgreesSinceSeed(cfg, evs) <==> KeepsSinceSeed(cfg, evs)
  {
    if evs == [] {
      SeedAgrees(cfg, NO_SEED);
    } else if evs[|evs| - 1].kind == SNAP_QUOTE {
      SeedAgrees(cfg, evs[|evs| - 1]);
    } else {
      LevelsAgreeSinceSeedIff(cfg, evs[..|evs| - 1]);
      NextAgreesIff(cfg, evs);
    }
  }

  // ----- A feed that keeps the rules -----

  /**
   What a feed has to respect: no add reuses the number of a tracked order, quantities are not
   negative, and no level is opened on a full side.
   */
  ghost predicate Admissible(cfg: Config, c: Contents, ev: MarketEvent) {
    && (ev.kind == ORDER_ADD && Add(cfg, c, ev).1 == Ok ==>
          ev.orderNo !in c.orders && ev.qty >= 0 && Room(c.Levels(ev.side), ev.price))
    && (ev.kind == ORDER_MODIFY && Modify(cfg, c, ev).1 == Ok ==>
          ev.qty >= 0 && Room(Untracked(c, ev.orderNo).Levels(c.orders[ev.orderNo].side), ev.price))
    && (ev.kind == TRADE ==> ev.qty >= 0)
  }

  ghost predicate AdmissibleRun(cfg: Config, evs: seq<MarketEvent>) {
    evs == [] ||
    (var front, last := evs[..|evs| - 1], evs[|evs| - 1];
     var b := Run(cfg, NEW_BOOK, front);
     AdmissibleRun(cfg, front) && (b.stale || IsGap(b.expectedSeq, last.seqNo) || Admissible(cfg, b.contents, last)))
  }

  /** With quantities that are not negative an order is inside its level: the clamp never fires. */
  lemma ClampNeverFires(c: Contents, seed: Contents, k: int)
    requires Agree(c, seed) && IsSeed(seed) && k in c.orders
    ensures NonNegative(c.orders) ==> LevelOf(c, c.orders[k]).total >= c.orders[k].qty
  {
    if NonNegative(c.orders) {
      var rec := c.orders[k];
      assert AgreeAt(c, seed, rec.side, rec.price);
      ExpectedAfterDrop(c, c.(orders := c.orders - {k}), seed, k, rec.side, rec.price);
      SumNonNegative(c.orders - {k}, rec.side, rec.price);
      var s := seed.Levels(rec.side);
      assert forall i :: 0 <= i < |s| ==> s[i] in s;
    }
  }

  lemma LegIsCovered(c: Contents, seed: Contents, orderNo: int, traded: int)
    requires Agree(c, seed) && IsSeed(seed) && traded >= 0
    ensures NonNegative(c.orders) ==> LegKeeps(c, orderNo, traded) && NonNegative(Reduce(c, orderNo, traded).orders)
  {
    if Tracks(c, orderNo) {
      ClampNeverFires(c, seed, orderNo);
    }
  }

  lemma AdmissibleKeeps(cfg: Config, c: Contents, seed: Contents, ev: MarketEvent)
    requires Agree(c, seed) && IsSeed(seed) && Admissible(cfg, c, ev) && ev.kind != SNAP_QUOTE
    ensures NonNegative(c.orders) ==> Keeps(cfg, c, ev) && NonNegative(Handle(cfg, c, ev).0.orders)
  {
    if !NonNegative(c.orders) {
      return;
    }
    if ev.kind == TRADE {
      LegIsCovered(c, seed, ev.orderNo, ev.qty);
      ReduceAgreesIff(c, seed, ev.orderNo, ev.qty);
      LegIsCovered(Reduce(c, ev.orderNo, ev.qty), seed, ev.orderNo2, ev.qty);
    } else if ev.kind == ORDER_MODIFY || ev.kind == ORDER_CANCEL {
      if ev.orderNo in c.orders {
        ClampNeverFires(c, seed, ev.orderNo);
      }
    }
  }

  /** Under such a feed the levels agree with the orders after every event. */
  lemma {:induction false} LevelsAgreeWithOrders(cfg: Config, evs: seq<MarketEvent>)
    requires AdmissibleRun(cfg, evs)
    ensures Agrees(cfg, evs) && NonNegative(Run(cfg, NEW_BOOK, evs).contents.orders)
  {
    if evs == [] {
      SeedAgrees(cfg, NO_SEED);
    } else {
      var front, last := evs[..|evs| - 1], evs[|evs| - 1];
      var b := Run(cfg, NEW_BOOK, front);
      LevelsAgreeWithOrders(cfg, front);
      NextAgreesIff(cfg, evs);
      if last.kind != SNAP_QUOTE {
        StepDropsOrHandles(cfg, b, last);
        if !b.stale && !IsGap(b.expectedSeq, last.seqNo) {
          AdmissibleKeeps(cfg, b.contents, SeedOf(cfg, front), last);
        }
      }
    }
  }
}
