/**
 The market-making strategy: at most one working quote per token and side, replaced by
 cancel and re-quote, driven by book updates, fills and cancel reports.
 */
module MarketMaking {
  import opened Types
  import opened Session
  import opened PriceLevels
  import opened QuotingMath

  const MAX_PENDING: nat := 16

  datatype Config = Config(maxPositionLots: int, maxSpreadTicks: int, quoteTtl: nat, quoteLots: int, maxInvSkew: int,
      maxFlowSkew: int)

  datatype Order = Order(id: int, token: nat, price: int, qty: int, side: Side, createdAt: nat)

  datatype Fill = Fill(id: int, token: nat, side: Side, qty: int, remaining: int)

  datatype SideQuote = SideQuote(active: bool, price: int, ts: nat, id: int)

  datatype QuoteState = QuoteState(bid: SideQuote, ask: SideQuote) {
    function Get(side: Side): SideQuote { if side == Buy then bid else ask }

    function With(side: Side, q: SideQuote): QuoteState { if side == Buy then this.(bid := q) else this.(ask := q) }

    function Pulled(side: Side): QuoteState { With(side, Get(side).(active := false)) }
  }

  const NO_QUOTES := QuoteState(SideQuote(false, 0, 0, 0), SideQuote(false, 0, 0, 0))

  /** The strategy's state; `pending` and `cancels` are the outputs of the last book update. */
  datatype Maker = Maker(quotes: seq<QuoteState>, position: seq<int>, pending: seq<Order>, cancels: seq<int>,
      nextId: int)

  /** What a book update sees: the clock, the top of the book and the reference data. */
  datatype Market = Market(now: nat, bid: Option<PriceLevel>, ask: Option<PriceLevel>, inst: Option<Instrument>)

  /** The tick size, or 1 where none is known. */
  function TickSize(inst: Option<Instrument>): (t: int)
    ensures t > 0
    ensures if inst.Some? && inst.value.tickSize > 0 then t == inst.value.tickSize else t == 1
  {
    if TickSizeOf(inst) > 0 then TickSizeOf(inst) else 1
  }

  predicate WellShaped(m: Maker) { |m.quotes| == MAX_TOKENS && |m.position| == MAX_TOKENS }

  function CancelSide(m: Maker, token: nat, side: Side): (r: Maker)
    requires WellShaped(m) && token < MAX_TOKENS
    ensures WellShaped(r)
  {
    var q := m.quotes[token];
    if !q.Get(side).active then m else
      m.(cancels := if |m.cancels| < MAX_PENDING then m.cancels + [q.Get(side).id] else m.cancels,
         quotes := m.quotes[token := q.Pulled(side)])
  }

  /** Emits a new order, unless the buffer is full, and records it as the working quote. */
  function Place(m: Maker, token: nat, side: Side, price: int, qty: int, now: nat): (r: Maker)
    requires WellShaped(m) && token < MAX_TOKENS
    ensures WellShaped(r)
  {
    var room := |m.pending| < MAX_PENDING;
    var id := if room then m.nextId else 0;
    m.(pending := if room then m.pending + [Order(id, token, price, qty, side, now)] else m.pending,
       nextId := if room then m.nextId + 1 else m.nextId,
       quotes := m.quotes[token := m.quotes[token].With(side, SideQuote(true, price, now, id))])
  }

  /** Unsigned 64-bit age of a quote. */
  function Age(now: nat, ts: nat): int { (now - ts) % TWO_TO_THE_64 }

  function QuoteOneSide(cfg: Config, m: Maker, token: nat, side: Side, desired: int, qty: int, allowed: bool,
      now: nat): (r: Maker)
    requires WellShaped(m) && token < MAX_TOKENS
    ensures WellShaped(r)
  {
    var q := m.quotes[token].Get(side);
    if !allowed then CancelSide(m, token, side)
    else if q.active && q.price == desired && Age(now, q.ts) <= cfg.quoteTtl then m
    else Place(CancelSide(m, token, side), token, side, desired, qty, now)
  }

  predicate InBand(inst: Option<Instrument>, price: int) {
    var band := PriceBand(inst);
    band.Some? ==> band.value.0 <= price <= band.value.1
  }

  /** on_book_update. */
  function BookUpdate(cfg: Config, m0: Maker, token: nat, mkt: Market): (r: Maker)
    requires WellShaped(m0)
    ensures WellShaped(r)
  {
    var m := m0.(pending := [], cancels := []);
    if token >= MAX_TOKENS then m
    else if PreClose(mkt.now) then CancelSide(CancelSide(m, token, Buy), token, Sell)
    else if !WithinMarketHours(mkt.now) || mkt.bid.None? || mkt.ask.None? then m
    else
      var bid, ask, tick, lot := mkt.bid.value, mkt.ask.value, TickSize(mkt.inst), UnitLot(mkt.inst);
      if ask.price - bid.price > cfg.maxSpreadTicks * tick then m
      else
        var qty, position := cfg.quoteLots * lot, m.position[token];
        var netLots := TruncDiv(position, lot);
        var want := DesiredQuotes(bid.price, ask.price, tick, bid.total, ask.total, position,
          cfg.maxPositionLots * lot, cfg.maxInvSkew, cfg.maxFlowSkew);
        var bidOk := netLots < cfg.maxPositionLots && InBand(mkt.inst, want.bid);
        var askOk := netLots > -cfg.maxPositionLots && InBand(mkt.inst, want.ask);
        QuoteOneSide(cfg, QuoteOneSide(cfg, m, token, Buy, want.bid, qty, bidOk, mkt.now), token, Sell, want.ask,
          qty, askOk, mkt.now)
  }

  /** on_fill. */
  function OnFill(m: Maker, f: Fill): (r: Maker)
    requires WellShaped(m)
    ensures WellShaped(r)
  {
    if f.token >= MAX_TOKENS then m else
      var q := m.quotes[f.token];
      var q1 := if f.id == q.bid.id && f.remaining == 0 then q.Pulled(Buy) else q;
      var q2 := if f.id == q1.ask.id && f.remaining == 0 then q1.Pulled(Sell) else q1;
      m.(position := m.position[f.token := m.position[f.token] + if f.side == Buy then f.qty else -f.qty],
         quotes := m.quotes[f.token := q2])
  }

  predicate Works(q: QuoteState, side: Side, id: int) { q.Get(side).active && q.Get(side).id == id }

  /** The first token, from `t` on, with a working quote of this id loses it. */
  function PullFrom(quotes: seq<QuoteState>, id: int, t: nat): (r: seq<QuoteState>)
    requires t <= |quotes|
    ensures |r| == |quotes|
    decreases |quotes| - t
  {
    if t == |quotes| then quotes
    else if Works(quotes[t], Buy, id) then quotes[t := quotes[t].Pulled(Buy)]
    else if Works(quotes[t], Sell, id) then quotes[t := quotes[t].Pulled(Sell)]
    else PullFrom(quotes, id, t + 1)
  }

  /** on_cancel. */
  function OnCancel(m: Maker, id: int): (r: Maker)
    requires WellShaped(m)
    ensures WellShaped(r)
  {
    m.(quotes := PullFrom(m.quotes, id, 0))
  }

  // ----- The strategy as the source keeps it -----

  class MarketMaking {
    const cfg: Config
    const quotes: array<QuoteState>
    const position: array<int>
    const pending: array<Order>
    const cancels: array<int>
    var pendingCount: nat
    var cancelCount: nat
    var nextId: int

    ghost predicate Valid()
      reads this
    {
      && quotes.Length == MAX_TOKENS && position.Length == MAX_TOKENS
      && pending.Length == MAX_PENDING && cancels.Length == MAX_PENDING
      && pendingCount <= MAX_PENDING && cancelCount <= MAX_PENDING
      && position != cancels
    }

    ghost const Repr: set<object> := {this, quotes, position, pending, cancels}

    ghost function Abs(): (m: Maker)
      requires Valid()
      reads Repr
      ensures WellShaped(m)
    {
      Maker(quotes[..], position[..], pending[..pendingCount], cancels[..cancelCount], nextId)
    }

    constructor (cfg: Config)
      ensures Valid() && fresh(Repr) && this.cfg == cfg
      ensures Abs() == Maker(seq(MAX_TOKENS, _ => NO_QUOTES), seq(MAX_TOKENS, _ => 0), [], [], 1)
    {
      this.cfg := cfg;
      quotes := new QuoteState[MAX_TOKENS](_ => NO_QUOTES);
      position := new int[MAX_TOKENS](_ => 0);
      pending := new Order[MAX_PENDING](_ => Order(0, 0, 0, 0, Buy, 0));
      cancels := new int[MAX_PENDING](_ => 0);
      pendingCount, cancelCount, nextId := 0, 0, 1;
    }

    method DoCancelSide(token: nat, side: Side)
      requires Valid() && token < MAX_TOKENS
      modifies Repr
      ensures Valid() && Abs() == CancelSide(old(Abs()), token, side)
    {
      var q := quotes[token];
      if q.Get(side).active {
        if cancelCount < MAX_PENDING {
          cancels[cancelCount] := q.Get(side).id;
          cancelCount := cancelCount + 1;
        }
        quotes[token] := q.Pulled(side);
      }
    }

    method DoPlace(token: nat, side: Side, price: int, qty: int, now: nat)
      requires Valid() && token < MAX_TOKENS
      modifies Repr
      ensures Valid() && Abs() == Place(old(Abs()), token, side, price, qty, now)
    {
      var id := 0;
      if pendingCount < MAX_PENDING {
        id := nextId;
        nextId := nextId + 1;
        pending[pendingCount] := Order(id, token, price, qty, side, now);
        pendingCount := pendingCount + 1;
      }
      quotes[token] := quotes[token].With(side, SideQuote(true, price, now, id));
    }

    method DoQuoteOneSide(token: nat, side: Side, desired: int, qty: int, allowed: bool, now: nat)
      requires Valid() && token < MAX_TOKENS
      modifies Repr
      ensures Valid() && Abs() == QuoteOneSide(cfg, old(Abs()), token, side, desired, qty, allowed, now)
    {
      var q := quotes[token].Get(side);
      if !allowed {
        DoCancelSide(token, side);
        return;
      }
      var stale := q.active && Age(now, q.ts) > cfg.quoteTtl;
      if q.active && q.price == desired && !stale {
        return;
      }
      DoCancelSide(token, side);
      DoPlace(token, side, desired, qty, now);
    }

    method DoBookUpdate(token: nat, mkt: Market)
      requires Valid()
      modifies Repr
      ensures Valid() && Abs() == BookUpdate(cfg, old(Abs()), token, mkt)
    {
      pendingCount, cancelCount := 0, 0;
      if token >= MAX_TOKENS {
        return;
      }
      if PreClose(mkt.now) {
        DoCancelSide(token, Buy);
        DoCancelSide(token, Sell);
        return;
      }
      if !WithinMarketHours(mkt.now) || mkt.bid.None? || mkt.ask.None? {
        return;
      }
      var bid, ask, tick, lot := mkt.bid.value, mkt.ask.value, TickSize(mkt.inst), UnitLot(mkt.inst);
      if ask.price - bid.price > cfg.maxSpreadTicks * tick {
        return;
      }
      var qty := cfg.quoteLots * lot;
      var netLots := TruncDiv(position[token], lot);
      var want := DesiredQuotes(bid.price, ask.price, tick, bid.total, ask.total, position[token],
        cfg.maxPositionLots * lot, cfg.maxInvSkew, cfg.maxFlowSkew);
      var bidOk := netLots < cfg.maxPositionLots && InBand(mkt.inst, want.bid);
      DoQuoteOneSide(token, Buy, want.bid, qty, bidOk, mkt.now);
      var askOk := netLots > -cfg.maxPositionLots && InBand(mkt.inst, want.ask);
      DoQuoteOneSide(token, Sell, want.ask, qty, askOk, mkt.now);
    }

    method DoFill(f: Fill)
      requires Valid()
      modifies Repr
      ensures Valid() && Abs() == OnFill(old(Abs()), f)
    {
      if f.token >= MAX_TOKENS {
        return;
      }
      position[f.token] := position[f.token] + if f.side == Buy then f.qty else -f.qty;
      if f.id == quotes[f.token].bid.id && f.remaining == 0 {
        quotes[f.token] := quotes[f.token].Pulled(Buy);
      }
      if f.id == quotes[f.token].ask.id && f.remaining == 0 {
        quotes[f.token] := quotes[f.token].Pulled(Sell);
      }
    }

    method DoCancel(id: int)
      requires Valid()
      modifies Repr
      ensures Valid() && Abs() == OnCancel(old(Abs()), id)
    {
      var t := 0;
      while t < MAX_TOKENS
        invariant 0 <= t <= MAX_TOKENS && Valid() && Abs() == old(Abs())
        invariant PullFrom(quotes[..], id, 0) == PullFrom(quotes[..], id, t)
      {
        if Works(quotes[t], Buy, id) {
          quotes[t] := quotes[t].Pulled(Buy);
          return;
        }
        if Works(quotes[t], Sell, id) {
          quotes[t] := quotes[t].Pulled(Sell);
          return;
        }
        t := t + 1;
      }
    }
  }
}
