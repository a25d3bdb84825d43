/**
 Concrete runs at the limits of the book: where the levels stop agreeing with the tracked
 orders, where two faults cancel out, and where a cancel never returns.
 */
module BookLimits {
  import opened Types
  import opened OrderTable
  import opened PriceLevels
  import opened OrderBook
  import opened BookRuns
  import opened BookAggregates
  import opened BookAgreement
  import opened AddAgreement
  import opened EventAgreement
  import opened AgreementRuns

  const CFG := Config(1, 512)

  /** An event about a buy order, with no sequence number. */
  function Buys(kind: nat, orderNo: int, price: int, qty: int): MarketEvent {
    MarketEvent(0, 0, price, qty, Buy, kind, orderNo, 1, 0, 0, 0, 0, 0, 0, 0)
  }

  /** Order number `n` for one unit at price `n`. */
  function Rung(n: nat): MarketEvent { Buys(ORDER_ADD, n, n, 1) }

  function Ladder(n: nat): seq<MarketEvent> {
    if n == 0 then [] else Ladder(n - 1) + [Rung(n)]
  }

  lemma {:induction false} RunSnoc(cfg: Config, evs: seq<MarketEvent>, ev: MarketEvent)
    ensures Run(cfg, NEW_BOOK, evs + [ev]) == Step(cfg, Run(cfg, NEW_BOOK, evs), ev).0
  {
    assert (evs + [ev])[..|evs|] == evs;
  }

  ghost predicate Climbed(b: Book, n: nat) {
    && b == Book(b.contents, 0, false, 0)
    && Agree(b.contents, EMPTY) && |b.contents.orders| == |b.contents.bids| == n
    && (forall p: int :: HasPrice(b.contents.bids, p) <==> 1 <= p <= n)
    && (forall i :: 0 <= i < n ==> b.contents.bids[i].count == 1)
    && (forall k: int :: k in b.contents.orders <==> 1 <= k <= n)
    && (forall k: int :: k in b.contents.orders ==> b.contents.orders[k] == OrderRecord(k, k, 1, Buy))
  }

  lemma NewBookIsClimbed()
    ensures Climbed(NEW_BOOK, 0)
  {
    SeedAgrees(CFG, NO_SEED);
  }

  lemma RungOpensLevel(b: Book, n: nat)
    requires 0 < n <= MAX_LEVELS && Climbed(b, n - 1)
    ensures var bids := AddQty(Buy, b.contents.bids, n, 1);
      && |bids| == n && (forall p: int :: HasPrice(bids, p) <==> 1 <= p <= n)
      && (forall i :: 0 <= i < n ==> bids[i].count == 1)
  {
    var s := b.contents.bids;
    var bids := AddQty(Buy, s, n, 1);
    HasPriceAtRank(Buy, s, n);
    assert !HasPrice(s, n);
    forall p: int
      ensures HasPrice(bids, p) <==> 1 <= p <= n
    {
      AddAt(Buy, s, n, 1, p);
    }
  }

  lemma OneMoreRung(b: Book, n: nat)
    requires 0 < n <= MAX_LEVELS && Climbed(b, n - 1)
    ensures Climbed(Step(CFG, b, Rung(n)).0, n)
  {
    var c := b.contents;
    AddAgreesIff(CFG, c, EMPTY, Rung(n));
    assert c.orders[n := OrderRecord(n, n, 1, Buy)].Keys == c.orders.Keys + {n};
    RungOpensLevel(b, n);
  }

  lemma {:induction false} LadderIsClimbed(n: nat) returns (b: Book)
    requires n <= MAX_LEVELS
    ensures b == Run(CFG, NEW_BOOK, Ladder(n)) && Climbed(b, n)
  {
    if n == 0 {
      b := NEW_BOOK;
      NewBookIsClimbed();
    } else {
      var before := LadderIsClimbed(n - 1);
      RunSnoc(CFG, Ladder(n - 1), Rung(n));
      OneMoreRung(before, n);
      b := Step(CFG, before, Rung(n)).0;
    }
  }

  // ----- Agreement lost -----

  /** Adding one number twice leaves a level that no longer matches the tracked orders. */
  lemma DuplicateAddBreaksAgreement()
    ensures !Agree(Run(CFG, NEW_BOOK, Ladder(1) + [Rung(1)]).contents, EMPTY)
  {
    var b := LadderIsClimbed(1);
    RunSnoc(CFG, Ladder(1), Rung(1));
    assert HasPrice(b.contents.bids, 1);
    AddAgreesIff(CFG, b.contents, EMPTY, Rung(1));
  }

  /** The 257th price pushes a level out while its order stays tracked. */
  lemma EvictionBreaksAgreement()
    ensures !Agree(Run(CFG, NEW_BOOK, Ladder(MAX_LEVELS + 1)).contents, EMPTY)
  {
    var b := LadderIsClimbed(MAX_LEVELS);
    RunSnoc(CFG, Ladder(MAX_LEVELS), Rung(MAX_LEVELS + 1));
    assert !HasPrice(b.contents.bids, MAX_LEVELS + 1);
    AddAgreesIff(CFG, b.contents, EMPTY, Rung(MAX_LEVELS + 1));
  }

  /** Both faults at once cancel out: the first number, added again at the 257th price, pushes out its own old level. */
  lemma SwapKeepsAgreement()
    ensures Agree(Run(CFG, NEW_BOOK, Ladder(MAX_LEVELS) + [Buys(ORDER_ADD, 1, MAX_LEVELS + 1, 1)]).contents, EMPTY)
  {
    var b := LadderIsClimbed(MAX_LEVELS);
    var ev := Buys(ORDER_ADD, 1, MAX_LEVELS + 1, 1);
    RunSnoc(CFG, Ladder(MAX_LEVELS), ev);
    var s := b.contents.bids;
    assert !HasPrice(s, MAX_LEVELS + 1);
    assert HasPrice(s, s[0].price);
    RankIs(Buy, s, MAX_LEVELS + 1, 0);
    assert s[MAX_LEVELS - 1].price == 1 by {
      assert HasPrice(s, 1) && HasPrice(s, s[MAX_LEVELS - 1].price);
    }
    AddAgreesIff(CFG, b.contents, EMPTY, ev);
  }

  const JOIN := Buys(ORDER_ADD, 300, MAX_LEVELS, 1)
  const MOVE := Buys(ORDER_MODIFY, 300, 400, 1)

  /** With two orders on the best of 256 prices, moving one of them to a new price pushes a level out. */
  lemma ModifyBreaksAgreement()
    ensures !Agree(Run(CFG, NEW_BOOK, Ladder(MAX_LEVELS) + [JOIN] + [MOVE]).contents, EMPTY)
  {
    var b := LadderIsClimbed(MAX_LEVELS);
    RunSnoc(CFG, Ladder(MAX_LEVELS), JOIN);
    RunSnoc(CFG, Ladder(MAX_LEVELS) + [JOIN], MOVE);
    StepHandles(b, JOIN);
    StepHandles(Step(CFG, b, JOIN).0, MOVE);
    MoveBreaks(b);
  }

  lemma StepHandles(b: Book, ev: MarketEvent)
    requires b == Book(b.contents, 0, false, 0) && ev.seqNo == 0 && ev.kind != SNAP_QUOTE
    ensures Step(CFG, b, ev).0 == Book(Handle(CFG, b.contents, ev).0, 0, false, 0)
  {
  }

  lemma MoveBreaks(b: Book)
    requires Climbed(b, MAX_LEVELS)
    ensures !Agree(Handle(CFG, Handle(CFG, b.contents, JOIN).0, MOVE).0, EMPTY)
  {
    assert HasPrice(b.contents.bids, MAX_LEVELS);
    AddAgreesIff(CFG, b.contents, EMPTY, JOIN);
    JoinedLevelStays(b);
    ModifyAgreesIff(CFG, Add(CFG, b.contents, JOIN).0, EMPTY, MOVE);
  }

  lemma JoinedLevelStays(b: Book)
    requires Climbed(b, MAX_LEVELS)
    ensures var c := Add(CFG, b.contents, JOIN).0;
      300 in c.orders && !Room(Untracked(c, 300).bids, 400)
  {
    var s := b.contents.bids;
    assert HasPrice(s, MAX_LEVELS) && !HasPrice(s, 400);
    HasPriceAtRank(Buy, s, MAX_LEVELS);
    var t := AddQty(Buy, s, MAX_LEVELS, 1);
    AddAt(Buy, s, MAX_LEVELS, 1, MAX_LEVELS);
    AddAt(Buy, s, MAX_LEVELS, 1, 400);
    AddQtySorted(Buy, s, MAX_LEVELS, 1);
    HasPriceAtRank(Buy, t, MAX_LEVELS);
    BookAggregates.RemoveAt(Buy, t, MAX_LEVELS, 1, true, 400);
  }

  /** A negative quantity lets the clamp fire: the level forgets that less than nothing was left. */
  lemma NegativeQuantityBreaksAgreement()
    ensures var join, cancel := Buys(ORDER_ADD, 2, 1, -5), Buys(ORDER_CANCEL, 1, 1, 0);
      !Agree(Run(CFG, NEW_BOOK, Ladder(1) + [join] + [cancel]).contents, EMPTY)
  {
    var b := LadderIsClimbed(1);
    var join, cancel := Buys(ORDER_ADD, 2, 1, -5), Buys(ORDER_CANCEL, 1, 1, 0);
    RunSnoc(CFG, Ladder(1), join);
    RunSnoc(CFG, Ladder(1) + [join], cancel);
    var s := b.contents.bids;
    assert HasPrice(s, 1);
    AddAgreesIff(CFG, b.contents, EMPTY, join);
    AddAt(Buy, s, 1, -5, 1);
    var c := Add(CFG, b.contents, join).0;
    FirstRungTotal(b);
    UntrackAgreesIff(c, EMPTY, 1);
  }

  lemma FirstRungTotal(b: Book)
    requires Climbed(b, 1)
    ensures At(Buy, b.contents.bids, 1).total == 1
  {
    var c := b.contents;
    assert AgreeAt(c, EMPTY, Buy, 1);
    SumRemove(c.orders, 1, Measure(Buy, 1, false));
    assert forall k: int :: k !in c.orders - {1};
  }

  // ----- A cancel that never returns -----

  /** One order fills a table of one slot, and its cancel does not return. */
  lemma FullTableCancelHangs()
    ensures Hangs(Config(1, 1), Run(Config(1, 1), NEW_BOOK, [Rung(1)]), Buys(ORDER_CANCEL, 1, 1, 0))
  {
    RunSnoc(Config(1, 1), [], Rung(1));
    assert [] + [Rung(1)] == [Rung(1)];
  }
}
