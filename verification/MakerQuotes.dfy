/**
 What a book update sends, told from the market and the state alone: which orders, at which price
 and size, which cancels, and what is left working.
 */
module MakerQuotes {
  import opened Types
  import opened Arithmetic
  import opened Session
  import opened PriceLevels
  import opened QuotingMath
  import opened QuoteLean
  import opened MarketMaking
  import opened MakerRuns

  /** There is something to quote into: trading before the pre-close, a touch, and a spread that is not too wide. */
  predicate Quotable(cfg: Config, token: nat, mkt: Market) {
    && token < MAX_TOKENS && ClockIn(mkt.now, 9 * 60 + 15, 15 * 60 + 25) && mkt.bid.Some? && mkt.ask.Some?
    && mkt.ask.value.price - mkt.bid.value.price <= cfg.maxSpreadTicks * TickSize(mkt.inst)
  }

  /** In whole lots, rounded toward zero, the position is below the limit. */
  predicate BelowLimit(position: int, lots: int, lot: int) {
    if lots > 0 then position < lots * lot else position <= (lots - 1) * lot
  }

  predicate HasRoom(cfg: Config, position: int, lot: int, side: Side) {
    BelowLimit(if side == Buy then position else -position, cfg.maxPositionLots, lot)
  }

  /** The price a side is to be quoted at. */
  function Target(cfg: Config, m: Maker, token: nat, mkt: Market, side: Side): int
    requires WellShaped(m) && Quotable(cfg, token, mkt)
  {
    var bid, ask := mkt.bid.value, mkt.ask.value;
    var want := DesiredQuotes(bid.price, ask.price, TickSize(mkt.inst), bid.total, ask.total, m.position[token],
      cfg.maxPositionLots * UnitLot(mkt.inst), cfg.maxInvSkew, cfg.maxFlowSkew);
    if side == Buy then want.bid else want.ask
  }

  /** The side may be quoted: the position leaves room for it and its price is inside the circuit. */
  predicate Allowed(cfg: Config, m: Maker, token: nat, mkt: Market, side: Side)
    requires WellShaped(m) && Quotable(cfg, token, mkt)
  {
    HasRoom(cfg, m.position[token], UnitLot(mkt.inst), side) && WithinCircuit(mkt.inst, Target(cfg, m, token, mkt, side))
  }

  /** The working quote of the side is at its price and not too old. */
  predicate Current(cfg: Config, m: Maker, token: nat, mkt: Market, side: Side)
    requires WellShaped(m) && Quotable(cfg, token, mkt)
  {
    var q := m.quotes[token].Get(side);
    q.active && q.price == Target(cfg, m, token, mkt, side) && (mkt.now - q.ts) % TWO_TO_THE_64 <= cfg.quoteTtl
  }

  predicate Emits(cfg: Config, m: Maker, token: nat, mkt: Market, side: Side)
    requires WellShaped(m)
  {
    Quotable(cfg, token, mkt) && Allowed(cfg, m, token, mkt, side) && !Current(cfg, m, token, mkt, side)
  }

  /** A working quote is cancelled from the pre-close on, and where it is not allowed or not current. */
  predicate Pulls(cfg: Config, m: Maker, token: nat, mkt: Market, side: Side)
    requires WellShaped(m)
  {
    && token < MAX_TOKENS && m.quotes[token].Get(side).active
    && (|| ClockIn(mkt.now, 15 * 60 + 25, 24 * 60)
        || (Quotable(cfg, token, mkt) &&
             !(Allowed(cfg, m, token, mkt, side) && Current(cfg, m, token, mkt, side))))
  }

  /** The order a side emits, if any, under this id. */
  function OrdersOf(cfg: Config, m: Maker, token: nat, mkt: Market, side: Side, id: int): seq<Order>
    requires WellShaped(m)
  {
    if !Emits(cfg, m, token, mkt, side) then [] else
      [Order(id, token, Target(cfg, m, token, mkt, side), cfg.quoteLots * UnitLot(mkt.inst), side, mkt.now)]
  }

  function CancelsOf(cfg: Config, m: Maker, token: nat, mkt: Market, side: Side): seq<int>
    requires WellShaped(m)
  {
    if Pulls(cfg, m, token, mkt, side) then [m.quotes[token].Get(side).id] else []
  }

  /** What is recorded for a side afterwards. */
  function QuoteAfter(cfg: Config, m: Maker, token: nat, mkt: Market, side: Side, id: int): SideQuote
    requires WellShaped(m) && token < MAX_TOKENS
  {
    var q := m.quotes[token].Get(side);
    if Emits(cfg, m, token, mkt, side) then SideQuote(true, Target(cfg, m, token, mkt, side), mkt.now, id)
    else if Pulls(cfg, m, token, mkt, side) then q.(active := false)
    else q
  }

  lemma BelowLimitIff(position: int, lots: int, lot: int)
    requires lot > 0
    ensures BelowLimit(position, lots, lot) <==> TruncDiv(position, lot) < lots
  {
    var n := TruncDiv(position, lot);
    TruncDivBounds(position, lot);
    assert (n + 1) * lot == n * lot + lot && (n - 1) * lot == n * lot - lot && (lots - 1) * lot == lots * lot - lot;
    if n < lots {
      MulMono(n + 1, lots, lot);
    } else {
      MulMono(lots, n, lot);
    }
  }

  lemma AllowedIff(cfg: Config, m: Maker, token: nat, mkt: Market)
    requires WellShaped(m) && Quotable(cfg, token, mkt)
    ensures var lots := TruncDiv(m.position[token], UnitLot(mkt.inst));
      && (Allowed(cfg, m, token, mkt, Buy) <==>
           lots < cfg.maxPositionLots && InBand(mkt.inst, Target(cfg, m, token, mkt, Buy)))
      && (Allowed(cfg, m, token, mkt, Sell) <==>
           lots > -cfg.maxPositionLots && InBand(mkt.inst, Target(cfg, m, token, mkt, Sell)))
  {
    var position, lot := m.position[token], UnitLot(mkt.inst);
    BelowLimitIff(position, cfg.maxPositionLots, lot);
    BelowLimitIff(-position, cfg.maxPositionLots, lot);
    TruncDivOdd(position, lot);
    BandIsPercentage(mkt.inst, Target(cfg, m, token, mkt, Buy));
    BandIsPercentage(mkt.inst, Target(cfg, m, token, mkt, Sell));
  }

  /** One side of an update, from a point `at` inside it: the order, the cancel and the quote it leaves. */
  lemma SideSends(cfg: Config, m: Maker, token: nat, mkt: Market, side: Side, at: Maker)
    requires WellShaped(m) && Quotable(cfg, token, mkt) && WellShaped(at)
    requires at.quotes[token].Get(side) == m.quotes[token].Get(side)
    requires |at.pending| < MAX_PENDING && |at.cancels| < MAX_PENDING
    ensures var orders := OrdersOf(cfg, m, token, mkt, side, at.nextId);
      QuoteOneSide(cfg, at, token, side, Target(cfg, m, token, mkt, side), cfg.quoteLots * UnitLot(mkt.inst),
        Allowed(cfg, m, token, mkt, side), mkt.now) ==
      at.(pending := at.pending + orders, cancels := at.cancels + CancelsOf(cfg, m, token, mkt, side),
        nextId := at.nextId + |orders|,
        quotes := at.quotes[token := at.quotes[token].With(side, QuoteAfter(cfg, m, token, mkt, side, at.nextId))])
  {
    assert !ClockIn(mkt.now, 15 * 60 + 25, 24 * 60);
    assert at.quotes[token].With(side, at.quotes[token].Get(side)) == at.quotes[token];
  }

  ghost predicate Sends(cfg: Config, m: Maker, token: nat, mkt: Market, r: Maker)
    requires WellShaped(m) && WellShaped(r)
  {
    var bought := OrdersOf(cfg, m, token, mkt, Buy, m.nextId);
    var sellId := m.nextId + |bought|;
    && r.pending == bought + OrdersOf(cfg, m, token, mkt, Sell, sellId)
    && r.cancels == CancelsOf(cfg, m, token, mkt, Buy) + CancelsOf(cfg, m, token, mkt, Sell)
    && r.nextId == m.nextId + |r.pending| && r.position == m.position
    && (forall t :: 0 <= t < MAX_TOKENS && t != token ==> r.quotes[t] == m.quotes[t])
    && (token < MAX_TOKENS ==>
         && r.quotes[token].bid == QuoteAfter(cfg, m, token, mkt, Buy, m.nextId)
         && r.quotes[token].ask == QuoteAfter(cfg, m, token, mkt, Sell, sellId))
  }

  /** An update that may quote works the buy side and then the sell side, each at its target and as it is allowed. */
  lemma QuotingUpdateIs(cfg: Config, m: Maker, token: nat, mkt: Market)
    requires WellShaped(m) && Quotable(cfg, token, mkt)
    ensures var m0, qty := m.(pending := [], cancels := []), cfg.quoteLots * UnitLot(mkt.inst);
      BookUpdate(cfg, m, token, mkt) ==
        QuoteOneSide(cfg,
          QuoteOneSide(cfg, m0, token, Buy, Target(cfg, m, token, mkt, Buy), qty, Allowed(cfg, m, token, mkt, Buy), mkt.now),
          token, Sell, Target(cfg, m, token, mkt, Sell), qty, Allowed(cfg, m, token, mkt, Sell), mkt.now)
  {
    SessionsByTheClock(mkt.now);
    AllowedIff(cfg, m, token, mkt);
  }

  lemma QuotingUpdateSends(cfg: Config, m: Maker, token: nat, mkt: Market)
    requires WellShaped(m) && Quotable(cfg, token, mkt)
    ensures Sends(cfg, m, token, mkt, BookUpdate(cfg, m, token, mkt))
  {
    QuotingUpdateIs(cfg, m, token, mkt);
    var m0, qty := m.(pending := [], cancels := []), cfg.quoteLots * UnitLot(mkt.inst);
    SideSends(cfg, m, token, mkt, Buy, m0);
    var m1 := QuoteOneSide(cfg, m0, token, Buy, Target(cfg, m, token, mkt, Buy), qty, Allowed(cfg, m, token, mkt, Buy),
      mkt.now);
    SideSends(cfg, m, token, mkt, Sell, m1);
  }

  /**
   Every book update, from any state: it emits at most one buy and one sell, numbered on from the
   next id, cancels exactly the working quotes that have to go, and leaves the other tokens and
   all positions alone.
   */
  lemma UpdateSends(cfg: Config, m: Maker, token: nat, mkt: Market)
    requires WellShaped(m)
    ensures Sends(cfg, m, token, mkt, BookUpdate(cfg, m, token, mkt))
  {
    if Quotable(cfg, token, mkt) {
      QuotingUpdateSends(cfg, m, token, mkt);
    } else {
      SessionsByTheClock(mkt.now);
    }
  }

  // ----- What that means for the orders -----

  /** The order answers this market and this state. */
  ghost predicate Justified(cfg: Config, m: Maker, token: nat, mkt: Market, o: Order)
    requires WellShaped(m)
  {
    && Quotable(cfg, token, mkt)
    && o.token == token && o.createdAt == mkt.now && o.qty == cfg.quoteLots * UnitLot(mkt.inst)
    && HasRoom(cfg, m.position[token], UnitLot(mkt.inst), o.side) && WithinCircuit(mkt.inst, o.price)
    && (cfg.maxInvSkew <= 0 && cfg.maxFlowSkew <= 0 ==>
          o.price == if o.side == Buy then mkt.bid.value.price - TickSize(mkt.inst)
            else mkt.ask.value.price + TickSize(mkt.inst))
  }

  /**
   An emitted order leans the right way: long, with no heavier bid, it is priced at or below one
   tick outside the touch; short, with no heavier ask, at or above.
   */
  lemma EmittedOrdersLean(cfg: Config, m: Maker, token: nat, mkt: Market)
    requires WellShaped(m) && cfg.maxInvSkew < TWO_TO_THE_31 && cfg.maxFlowSkew < TWO_TO_THE_31
    requires Quotable(cfg, token, mkt) && mkt.bid.value.total >= 0 && mkt.ask.value.total >= 0
    ensures var orders, position := BookUpdate(cfg, m, token, mkt).pending, m.position[token];
      var most, bid, ask := cfg.maxPositionLots * UnitLot(mkt.inst), mkt.bid.value, mkt.ask.value;
      forall i :: 0 <= i < |orders| && -most <= position <= most ==>
        var plain := if orders[i].side == Buy then bid.price - TickSize(mkt.inst) else ask.price + TickSize(mkt.inst);
        && (position >= 0 && bid.total <= ask.total ==> orders[i].price <= plain)
        && (position <= 0 && bid.total >= ask.total ==> orders[i].price >= plain)
  {
    UpdateSends(cfg, m, token, mkt);
    var position, most, bid, ask := m.position[token], cfg.maxPositionLots * UnitLot(mkt.inst), mkt.bid.value, mkt.ask.value;
    if -most <= position <= most {
      LeansTheRightWay(Setting(bid.price, ask.price, TickSize(mkt.inst), most, cfg.maxInvSkew, cfg.maxFlowSkew),
        bid.total, ask.total, position);
    }
  }

  /** Every emitted order is justified, and a buy and a sell of one update lie the spread and two ticks apart. */
  lemma EmittedOrdersAreJustified(cfg: Config, m: Maker, token: nat, mkt: Market)
    requires WellShaped(m)
    ensures var orders := BookUpdate(cfg, m, token, mkt).pending;
      && (forall i :: 0 <= i < |orders| ==> Justified(cfg, m, token, mkt, orders[i]))
      && (forall i, j :: 0 <= i < |orders| && 0 <= j < |orders| && orders[i].side == Buy && orders[j].side == Sell ==>
           orders[j].price - orders[i].price ==
             mkt.ask.value.price - mkt.bid.value.price + 2 * TickSize(mkt.inst))
  {
    UpdateSends(cfg, m, token, mkt);
  }

  ghost predicate JustifiedAt(cfg: Config, events: seq<Event>, n: nat, o: Order) {
    n < |events| && events[n].Update? &&
    Justified(cfg, Run(cfg, events[..n]).maker, events[n].token, events[n].market, o)
  }

  /** In every run every order was justified by the update that emitted it. */
  lemma {:induction false} EveryOrderIsJustified(cfg: Config, events: seq<Event>, i: nat) returns (n: nat)
    requires i < |Run(cfg, events).orders|
    ensures JustifiedAt(cfg, events, n, Run(cfg, events).orders[i])
  {
    var front, last := events[..|events| - 1], events[|events| - 1];
    var before := Run(cfg, front);
    if i < |before.orders| {
      n := EveryOrderIsJustified(cfg, front, i);
      assert front[..n] == events[..n];
    } else {
      n := |front|;
      EmittedOrdersAreJustified(cfg, before.maker, last.token, last.market);
    }
  }

  /** Bought less sold on one token. */
  ghost function NetFilled(events: seq<Event>, t: nat): int {
    if events == [] then 0 else
      var last := events[|events| - 1];
      NetFilled(events[..|events| - 1], t) +
        if !last.Filled? || last.fill.token != t then 0 else if last.fill.side == Buy then last.fill.qty else -last.fill.qty
  }

  /** In every run the position of a token is what was bought less what was sold. */
  lemma {:induction false} PositionIsNetFilled(cfg: Config, events: seq<Event>, t: nat)
    requires t < MAX_TOKENS
    ensures Run(cfg, events).maker.position[t] == NetFilled(events, t)
  {
    if events != [] {
      var front, last := events[..|events| - 1], events[|events| - 1];
      PositionIsNetFilled(cfg, front, t);
      if last.Update? {
        UpdateSends(cfg, Run(cfg, front).maker, last.token, last.market);
      }
    }
  }
}
