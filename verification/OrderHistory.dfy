/**
 Each tracked order against the events about it: when the book holds it, at what price and side,
 and that its quantity is what it was last given less what has traded since. And the answer to
 every event, from the numbers and kinds of the events before it.
 */
module OrderHistory {
  import opened Types
  import opened OrderTable
  import opened PriceLevels
  import opened OrderBook
  import opened BookRuns

  ghost function Answer(cfg: Config, evs: seq<MarketEvent>, ev: MarketEvent): BookResult {
    Step(cfg, Run(cfg, NEW_BOOK, evs), ev).1
  }

  /** The last event is an add or a modify of order `k` that the book accepted. */
  ghost predicate Sets(cfg: Config, evs: seq<MarketEvent>, k: int)
    requires evs != []
  {
    var front, last := evs[..|evs| - 1], evs[|evs| - 1];
    (last.kind == ORDER_ADD || last.kind == ORDER_MODIFY) && last.orderNo == k && Answer(cfg, front, last) == Ok
  }

  /** The last accepted add or modify of order `k`, or the last accepted add. */
  ghost function LastSet(cfg: Config, evs: seq<MarketEvent>, k: int, addsOnly: bool): Option<MarketEvent> {
    if evs == [] then None
    else if Sets(cfg, evs, k) && (addsOnly ==> evs[|evs| - 1].kind == ORDER_ADD) then Some(evs[|evs| - 1])
    else LastSet(cfg, evs[..|evs| - 1], k, addsOnly)
  }

  /** How many legs of a trade are order `k`; number 0 stands for no order. */
  function Legs(ev: MarketEvent, k: int): nat {
    if k == 0 then 0 else (if ev.orderNo == k then 1 else 0) + if ev.orderNo2 == k then 1 else 0
  }

  /** What has traded on order `k` since it was last set. */
  ghost function TradedSince(cfg: Config, evs: seq<MarketEvent>, k: int): int {
    if evs == [] || Sets(cfg, evs, k) then 0 else
      var front, last := evs[..|evs| - 1], evs[|evs| - 1];
      TradedSince(cfg, front, k) +
        if last.kind == TRADE && Answer(cfg, front, last) == Ok then Legs(last, k) * last.qty else 0
  }

  /** What is left of order `k`: the quantity it was last given less what has traded since. */
  ghost function Left(cfg: Config, evs: seq<MarketEvent>, k: int): int {
    var given := LastSet(cfg, evs, k, false);
    (if given.None? then 0 else given.value.qty) - TradedSince(cfg, evs, k)
  }

  /**
   Order `k` rests: it was set, and since then no Snap Quote came, no accepted cancel of it, and
   no trade leg of at least what was left.
   */
  ghost predicate Rests(cfg: Config, evs: seq<MarketEvent>, k: int) {
    evs != [] &&
    var front, last := evs[..|evs| - 1], evs[|evs| - 1];
    var ok, left := Answer(cfg, front, last) == Ok, Left(cfg, front, k);
    if last.kind == SNAP_QUOTE then false
    else if Sets(cfg, evs, k) then true
    else if last.kind == ORDER_CANCEL && last.orderNo == k && ok then false
    else if last.kind == TRADE && ok then
      Rests(cfg, front, k) && (Legs(last, k) >= 1 ==> left > last.qty) && (Legs(last, k) == 2 ==> left > 2 * last.qty)
    else Rests(cfg, front, k)
  }

  /** The record of an order as its events make it. */
  ghost predicate RecordIs(cfg: Config, evs: seq<MarketEvent>, k: int, rec: OrderRecord) {
    var last, added := LastSet(cfg, evs, k, false), LastSet(cfg, evs, k, true);
    last.Some? && added.Some? && rec == OrderRecord(k, last.value.price, Left(cfg, evs, k), added.value.side)
  }

  ghost predicate Follows(cfg: Config, evs: seq<MarketEvent>, k: int) {
    var orders := Run(cfg, NEW_BOOK, evs).contents.orders;
    (k in orders <==> Rests(cfg, evs, k)) && (k in orders ==> RecordIs(cfg, evs, k, orders[k]))
  }

  /** The effect of one leg on the record of order `k`. */
  lemma LegEffect(c: Contents, orderNo: int, traded: int, k: int)
    ensures var d := Reduce(c, orderNo, traded).orders;
      if k == 0 || orderNo != k || k !in c.orders then (k in d <==> k in c.orders) && (k in d ==> d[k] == c.orders[k])
      else (k in d <==> c.orders[k].qty > traded) && (k in d ==> d[k] == c.orders[k].(qty := c.orders[k].qty - traded))
  {
  }

  /** A trade answered with Ok takes its quantity from order `k` once for each leg that it is. */
  lemma TradeEffect(c: Contents, ev: MarketEvent, k: int)
    requires k in c.orders
    ensures var d, q, n := ApplyTrade(c, ev).0.orders, c.orders[k].qty, Legs(ev, k);
      && (k in d <==> (n >= 1 ==> q > ev.qty) && (n == 2 ==> q > 2 * ev.qty))
      && (k in d ==> d[k] == c.orders[k].(qty := q - n * ev.qty))
  {
    var first := Reduce(c, ev.orderNo, ev.qty);
    LegEffect(c, ev.orderNo, ev.qty, k);
    LegEffect(first, ev.orderNo2, ev.qty, k);
    assert ApplyTrade(c, ev).0 == Reduce(first, ev.orderNo2, ev.qty);
    assert Legs(ev, k) * ev.qty == (if k != 0 && ev.orderNo == k then ev.qty else 0) +
      if k != 0 && ev.orderNo2 == k then ev.qty else 0;
  }

  lemma UntrackedStays(c: Contents, ev: MarketEvent, k: int)
    requires k !in c.orders
    ensures k !in ApplyTrade(c, ev).0.orders
  {
    LegEffect(c, ev.orderNo, ev.qty, k);
    LegEffect(Reduce(c, ev.orderNo, ev.qty), ev.orderNo2, ev.qty, k);
  }

  /** What any event, by its kind and its answer, does to the orders. */
  lemma StepOrders(cfg: Config, b: Book, ev: MarketEvent)
    ensures var (b', r) := Step(cfg, b, ev);
      var orders, after, no := b.contents.orders, b'.contents.orders, ev.orderNo;
      if ev.kind == SNAP_QUOTE then after == map[]
      else if r != Ok then after == orders
      else if ev.kind == ORDER_ADD then after == orders[no := OrderRecord(no, ev.price, ev.qty, ev.side)]
      else if ev.kind == ORDER_MODIFY then
        no in orders && after == orders[no := orders[no].(price := ev.price, qty := ev.qty)]
      else if ev.kind == ORDER_CANCEL then after == orders - {no}
      else if ev.kind == TRADE then after == ApplyTrade(b.contents, ev).0.orders
      else after == orders
  {
    if ev.kind == TRADE {
      LegEffect(b.contents, ev.orderNo, ev.qty, ev.orderNo2);
    }
  }

  lemma NextFollows(cfg: Config, evs: seq<MarketEvent>, k: int)
    requires evs != [] && Follows(cfg, evs[..|evs| - 1], k)
    ensures Follows(cfg, evs, k)
  {
    var front, last := evs[..|evs| - 1], evs[|evs| - 1];
    var b := Run(cfg, NEW_BOOK, front);
    StepOrders(cfg, b, last);
    if last.kind == TRADE {
      if k in b.contents.orders {
        TradeEffect(b.contents, last, k);
      } else {
        UntrackedStays(b.contents, last, k);
      }
    }
  }

  /**
   In every run an order is tracked exactly when its own events leave it resting, at the price it
   was last given, on the side it was added on, with the quantity it was last given less all that
   has traded on it since.
   */
  lemma {:induction false} OrderFollowsItsEvents(cfg: Config, evs: seq<MarketEvent>, k: int)
    ensures Follows(cfg, evs, k)
  {
    if evs != [] {
      OrderFollowsItsEvents(cfg, evs[..|evs| - 1], k);
      NextFollows(cfg, evs, k);
    }
  }

  predicate OffGrid(cfg: Config, ev: MarketEvent) { cfg.tick != 0 && ev.price % cfg.tick != 0 }

  /** The book's answer to an event after any run, from the run's numbers and kinds and the orders held. */
  lemma {:induction false} AnswersIff(cfg: Config, evs: seq<MarketEvent>, a: nat, b: nat, ev: MarketEvent)
    requires LastSeed(evs, a) && FirstGapAfter(evs, a, b)
    ensures var r, held := Answer(cfg, evs, ev), Run(cfg, NEW_BOOK, evs).contents.orders;
      var gap := ev.seqNo != 0 && ExpectedAfter(evs) != 0 && ev.seqNo != ExpectedAfter(evs);
      var handled := !gap && b == |evs|;
      var known, known2 := ev.orderNo in held, ev.orderNo2 in held;
      var unknown := if ev.kind == TRADE then (ev.orderNo == 0 || !known) && (ev.orderNo2 == 0 || !known2)
        else !known && (ev.kind == ORDER_CANCEL || (ev.kind == ORDER_MODIFY && !OffGrid(cfg, ev)));
      && (r == Seeded <==> ev.kind == SNAP_QUOTE)
      && (r == Gap <==> gap && ev.kind != SNAP_QUOTE)
      && (r == StaleDropped <==> !gap && b < |evs| && IsOrderEvent(ev.kind))
      && (r == TickViolation <==> handled && (ev.kind == ORDER_ADD || ev.kind == ORDER_MODIFY) && OffGrid(cfg, ev))
      && (r == FullTable <==>
           handled && ev.kind == ORDER_ADD && !OffGrid(cfg, ev) && !known && |held| >= cfg.capacity)
      && (r == UnknownOrder <==> handled && unknown)
  {
    ContentsAreReplayUpToGap(cfg, evs, a, b);
    ExpectedFollowsNumbers(cfg, evs);
    LegEffect(Run(cfg, NEW_BOOK, evs).contents, ev.orderNo, ev.qty, ev.orderNo2);
  }

  /** One side as a Snap Quote of this price and quantity leaves it: one level where there is something to show, else none. */
  ghost predicate ShowsOnly(s: seq<PriceLevel>, tick: int, price: int, qty: int) {
    && (forall p: int :: HasPrice(s, p) <==> p == price && qty > 0 && (tick == 0 || p % tick == 0))
    && |s| <= 1 && forall l :: l in s ==> l == PriceLevel(price, qty, 1)
  }

  /** Whatever went before it, a Snap Quote leaves its own two levels on the book and no tracked order. */
  lemma {:induction false} SnapQuoteSetsTheBook(cfg: Config, evs: seq<MarketEvent>)
    requires evs != [] && evs[|evs| - 1].kind == SNAP_QUOTE
    ensures var c, ev := Run(cfg, NEW_BOOK, evs).contents, evs[|evs| - 1];
      && c.orders == map[]
      && ShowsOnly(c.bids, cfg.tick, ev.bidPrice, ev.bidQty) && ShowsOnly(c.asks, cfg.tick, ev.askPrice, ev.askQty)
  {
    var c := Run(cfg, NEW_BOOK, evs).contents;
    StepSeeds(cfg, Run(cfg, NEW_BOOK, evs[..|evs| - 1]), evs[|evs| - 1], EMPTY);
    assert c.bids != [] ==> HasPrice(c.bids, c.bids[0].price);
    assert c.asks != [] ==> HasPrice(c.asks, c.asks[0].price);
  }
}
