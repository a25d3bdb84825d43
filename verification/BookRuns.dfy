/** What the book shows after an arbitrary run of events. */
module BookRuns {
  import opened Types
  import opened OrderTable
  import opened PriceLevels
  import opened OrderBook
  import opened Sequences

  /** The book after a run from `b`. */
  ghost function Run(cfg: Config, b: Book, evs: seq<MarketEvent>): Book {
    if evs == [] then b else Step(cfg, Run(cfg, b, evs[..|evs| - 1]), evs[|evs| - 1]).0
  }

  // ----- Order and size of the level arrays -----

  ghost predicate OrderedSide(side: Side, s: seq<PriceLevel>) {
    Sorted(side, s) && |s| <= MAX_LEVELS
  }

  ghost predicate Ordered(c: Contents) {
    OrderedSide(Buy, c.bids) && OrderedSide(Sell, c.asks)
  }

  lemma AddLevelOrdered(c: Contents, side: Side, p: int, qty: int)
    requires Ordered(c)
    ensures Ordered(AddLevelQty(c, side, p, qty))
  {
    AddQtySorted(side, c.Levels(side), p, qty);
  }

  lemma RemoveLevelOrdered(c: Contents, side: Side, p: int, qty: int, drop: bool)
    requires Ordered(c)
    ensures Ordered(RemoveLevelQty(c, side, p, qty, drop))
  {
    RemoveQtySorted(side, c.Levels(side), p, qty, drop);
  }

  lemma ReduceOrdered(c: Contents, orderNo: int, traded: int)
    requires Ordered(c)
    ensures Ordered(Reduce(c, orderNo, traded))
  {
    if Tracks(c, orderNo) {
      var rec := c.orders[orderNo];
      var fully := traded >= rec.qty;
      RemoveLevelOrdered(c, rec.side, rec.price, if fully then rec.qty else traded, fully);
    }
  }

  lemma HandleOrdered(cfg: Config, c: Contents, ev: MarketEvent)
    requires Ordered(c)
    ensures Ordered(Handle(cfg, c, ev).0)
  {
    if ev.kind == ORDER_ADD {
      AddLevelOrdered(c.(orders := c.orders[ev.orderNo := OrderRecord(ev.orderNo, ev.price, ev.qty, ev.side)]),
        ev.side, ev.price, ev.qty);
    } else if (ev.kind == ORDER_MODIFY || ev.kind == ORDER_CANCEL) && ev.orderNo in c.orders {
      var rec := c.orders[ev.orderNo];
      RemoveLevelOrdered(c, rec.side, rec.price, rec.qty, true);
      var removed := RemoveLevelQty(c, rec.side, rec.price, rec.qty, true);
      AddLevelOrdered(removed.(orders := removed.orders[ev.orderNo := rec.(price := ev.price, qty := ev.qty)]),
        rec.side, ev.price, ev.qty);
    } else if ev.kind == TRADE {
      ReduceOrdered(c, ev.orderNo, ev.qty);
      ReduceOrdered(Reduce(c, ev.orderNo, ev.qty), ev.orderNo2, ev.qty);
    }
  }

  /** Both arrays stay strictly sorted, best first, with at most 256 levels, in every run. */
  lemma {:induction false} LevelsStayOrdered(cfg: Config, evs: seq<MarketEvent>)
    ensures Ordered(Run(cfg, NEW_BOOK, evs).contents)
    ensures var bids := Run(cfg, NEW_BOOK, evs).contents.bids;
      |bids| <= 256 && forall i, j :: 0 <= i < j < |bids| ==> bids[i].price > bids[j].price
    ensures var asks := Run(cfg, NEW_BOOK, evs).contents.asks;
      |asks| <= 256 && forall i, j :: 0 <= i < j < |asks| ==> asks[i].price < asks[j].price
  {
    if evs != [] {
      LevelsStayOrdered(cfg, evs[..|evs| - 1]);
      HandleOrdered(cfg, Run(cfg, NEW_BOOK, evs[..|evs| - 1]).contents, evs[|evs| - 1]);
    }
  }

  // ----- Rejected events -----

  predicate Rejects(r: BookResult) {
    r == Gap || r == StaleDropped || r == TickViolation || r == UnknownOrder || r == FullTable
  }

  lemma RejectedEventsChangeNothing(cfg: Config, b: Book, ev: MarketEvent)
    requires Rejects(Step(cfg, b, ev).1)
    ensures Step(cfg, b, ev).0.contents == b.contents
  {
  }

  // ----- The gap / stale / reseed machine -----

  /** The effect of a run when sequence numbers are never looked at. */
  ghost function Replay(cfg: Config, c: Contents, evs: seq<MarketEvent>): Contents {
    if evs == [] then c else Handle(cfg, Replay(cfg, c, evs[..|evs| - 1]), evs[|evs| - 1]).0
  }

  /** The number expected after a run: one more than the last number that was set. */
  ghost function ExpectedAfter(evs: seq<MarketEvent>): nat {
    if evs == [] then 0
    else if evs[|evs| - 1].seqNo != 0 then (evs[|evs| - 1].seqNo + 1) % TWO_TO_THE_64
    else ExpectedAfter(evs[..|evs| - 1])
  }

  ghost predicate GapAt(evs: seq<MarketEvent>, i: nat)
    requires i < |evs|
  {
    IsGap(ExpectedAfter(evs[..i]), evs[i].seqNo)
  }

  /** Event `a` is the last Snap Quote of the run, or `a` is 0 and the run has none. */
  ghost predicate LastSeed(evs: seq<MarketEvent>, a: nat) {
    && a <= |evs|
    && (a == 0 || (a < |evs| && evs[a].kind == SNAP_QUOTE))
    && (forall i :: a < i < |evs| ==> evs[i].kind != SNAP_QUOTE)
  }

  /** Event `b` is the first gap after event `a`, or the run ends at `b` without one. */
  ghost predicate FirstGapAfter(evs: seq<MarketEvent>, a: nat, b: nat) {
    && a <= b <= |evs|
    && (b < |evs| ==> a < b && GapAt(evs, b))
    && (forall i :: a < i < b ==> !GapAt(evs, i))
  }

  lemma {:induction false} ExpectedFollowsNumbers(cfg: Config, evs: seq<MarketEvent>)
    ensures Run(cfg, NEW_BOOK, evs).expectedSeq == ExpectedAfter(evs)
  {
    if evs != [] {
      ExpectedFollowsNumbers(cfg, evs[..|evs| - 1]);
    }
  }

  lemma PrefixFacts(evs: seq<MarketEvent>, a: nat, b: nat)
    requires evs != [] && LastSeed(evs, a) && FirstGapAfter(evs, a, b) && a < |evs| - 1
    ensures var front := evs[..|evs| - 1];
      LastSeed(front, a) && FirstGapAfter(front, a, if b < |front| then b else |front|)
  {
    var front := evs[..|evs| - 1];
    forall i: nat | i < |front|
      ensures GapAt(front, i) == GapAt(evs, i)
    {
      assert front[..i] == evs[..i];
    }
  }

  /** A non-seeding event is handled if the book is current and the event no gap, else dropped. */
  lemma StepDropsOrHandles(cfg: Config, b: Book, ev: MarketEvent)
    requires ev.kind != SNAP_QUOTE
    ensures var dropped := b.stale || IsGap(b.expectedSeq, ev.seqNo);
      && Step(cfg, b, ev).0.contents == (if dropped then b.contents else Handle(cfg, b.contents, ev).0)
      && Step(cfg, b, ev).0.stale == dropped
  {
  }

  lemma {:induction false} ReplaySnoc(cfg: Config, c: Contents, evs: seq<MarketEvent>, ev: MarketEvent)
    ensures Replay(cfg, c, evs + [ev]) == Handle(cfg, Replay(cfg, c, evs), ev).0
  {
    DropLast(evs, ev);
  }

  /** A Snap Quote ends staleness and shows what it would show on any contents. */
  lemma StepSeeds(cfg: Config, b: Book, ev: MarketEvent, c: Contents)
    requires ev.kind == SNAP_QUOTE
    ensures Step(cfg, b, ev).0.contents == Handle(cfg, c, ev).0 && !Step(cfg, b, ev).0.stale
  {
  }

  lemma {:induction false} ReplayOne(cfg: Config, c: Contents, evs: seq<MarketEvent>, a: nat)
    requires |evs| == a + 1
    ensures Replay(cfg, c, evs[a..|evs|]) == Handle(cfg, c, evs[a]).0
  {
    assert evs[a..|evs|] == [] + [evs[a]];
    ReplaySnoc(cfg, c, [], evs[a]);
  }

  /** A run that ends with its Snap Quote, or has only one event, shows just that event. */
  lemma {:induction false} EndsWithSeed(cfg: Config, evs: seq<MarketEvent>, a: nat)
    requires LastSeed(evs, a) && a + 1 == |evs|
    ensures Run(cfg, NEW_BOOK, evs).contents == Replay(cfg, EMPTY, evs[a..|evs|])
    ensures !Run(cfg, NEW_BOOK, evs).stale
  {
    ReplayOne(cfg, EMPTY, evs, a);
    if evs[a].kind == SNAP_QUOTE {
      StepSeeds(cfg, Run(cfg, NEW_BOOK, evs[..a]), evs[a], EMPTY);
    } else {
      assert evs[..a] == [];
      StepDropsOrHandles(cfg, NEW_BOOK, evs[a]);
    }
  }

  lemma {:induction false} RunDropsOrHandles(cfg: Config, evs: seq<MarketEvent>)
    requires evs != [] && evs[|evs| - 1].kind != SNAP_QUOTE
    ensures var n := |evs| - 1;
      var before, after := Run(cfg, NEW_BOOK, evs[..n]), Run(cfg, NEW_BOOK, evs);
      var dropped := before.stale || GapAt(evs, n);
      && after.contents == (if dropped then before.contents else Handle(cfg, before.contents, evs[n]).0)
      && after.stale == dropped
  {
    var n := |evs| - 1;
    ExpectedFollowsNumbers(cfg, evs[..n]);
    StepDropsOrHandles(cfg, Run(cfg, NEW_BOOK, evs[..n]), evs[n]);
  }

  /** An event after the last Snap Quote extends the replayed window unless a gap has closed it. */
  lemma ExtendsWindow(cfg: Config, evs: seq<MarketEvent>, a: nat, b: nat, b': nat)
    requires LastSeed(evs, a) && FirstGapAfter(evs, a, b) && a + 1 < |evs| && b' == Min(b, |evs| - 1)
    requires var front := evs[..|evs| - 1]; var before := Run(cfg, NEW_BOOK, front);
      before.contents == Replay(cfg, EMPTY, front[a..b']) && (before.stale <==> b' < |front|)
    ensures Run(cfg, NEW_BOOK, evs).contents == Replay(cfg, EMPTY, evs[a..b])
    ensures Run(cfg, NEW_BOOK, evs).stale <==> b < |evs|
  {
    var n := |evs| - 1;
    RunDropsOrHandles(cfg, evs);
    SliceOfPrefix(evs, n, a, b');
    if b == |evs| {
      assert !GapAt(evs, n);
      SliceSnoc(evs, a, b);
      ReplaySnoc(cfg, EMPTY, evs[a..n], evs[n]);
    }
  }

  /**
   After any run the book shows what replaying, without sequence checks, only the events from
   the last Snap Quote up to the first gap after it would show; it is stale exactly when
   there is such a gap.
   */
  lemma {:induction false} ContentsAreReplayUpToGap(cfg: Config, evs: seq<MarketEvent>, a: nat, b: nat)
    requires LastSeed(evs, a) && FirstGapAfter(evs, a, b)
    ensures Run(cfg, NEW_BOOK, evs).contents == Replay(cfg, EMPTY, evs[a..b])
    ensures Run(cfg, NEW_BOOK, evs).stale <==> b < |evs|
  {
    if evs != [] {
      if a + 1 == |evs| {
        EndsWithSeed(cfg, evs, a);
      } else {
        var b' := Min(b, |evs| - 1);
        PrefixFacts(evs, a, b);
        ContentsAreReplayUpToGap(cfg, evs[..|evs| - 1], a, b');
        ExtendsWindow(cfg, evs, a, b, b');
      }
    }
  }

  /** Such a pair of positions exists for every run, so the theorem above covers all of them. */
  lemma {:induction false} WindowExists(evs: seq<MarketEvent>) returns (a: nat, b: nat)
    ensures LastSeed(evs, a) && FirstGapAfter(evs, a, b)
  {
    a := 0;
    for i := 0 to |evs|
      invariant a <= i && (a == 0 || (a < |evs| && evs[a].kind == SNAP_QUOTE))
      invariant forall j :: a < j < i ==> evs[j].kind != SNAP_QUOTE
    {
      if evs[i].kind == SNAP_QUOTE {
        a := i;
      }
    }
    b := a;
    if a < |evs| {
      b := a + 1;
      while b < |evs| && !GapAt(evs, b)
        invariant a < b <= |evs|
        invariant forall i :: a < i < b ==> !GapAt(evs, i)
      {
        b := b + 1;
      }
    }
  }

  /** The gap counter counts the gaps. */
  ghost function GapsIn(evs: seq<MarketEvent>): nat {
    if evs == [] then 0 else GapsIn(evs[..|evs| - 1]) + if GapAt(evs, |evs| - 1) then 1 else 0
  }

  lemma {:induction false} GapCounterCounts(cfg: Config, evs: seq<MarketEvent>)
    ensures Run(cfg, NEW_BOOK, evs).gapCount == GapsIn(evs)
  {
    if evs != [] {
      GapCounterCounts(cfg, evs[..|evs| - 1]);
      ExpectedFollowsNumbers(cfg, evs[..|evs| - 1]);
    }
  }
}
