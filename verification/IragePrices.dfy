/** Every price the platform strategy quotes: on the tick grid, inside the price range, not crossed. */
module IragePrices {
  import opened Types
  import opened QuotingMath
  import opened Connect
  import opened IrageStrategy
  import opened IrageRuns

  /** The best prices are on the grid and not crossed. */
  ghost predicate TouchOk(md: Inputs, s: SymState)
    requires s.tickSize > 0
  {
    var t := md.tick(s.id);
    OnGrid(t.bid, s.tickSize) && OnGrid(t.ask, s.tickSize) && t.bid <= t.ask
  }

  predicate HasRange(md: Inputs, s: SymState) { md.dprHigh(s.id) > 0 && md.dprHigh(s.id) > md.dprLow(s.id) }

  predicate LegalPrice(md: Inputs, s: SymState, price: int)
    requires s.tickSize > 0
  {
    OnGrid(price, s.tickSize) && (HasRange(md, s) ==> md.dprLow(s.id) <= price <= md.dprHigh(s.id))
  }

  predicate FitsInt32(x: int) { -TWO_TO_THE_31 <= x < TWO_TO_THE_31 }

  predicate QuotesFit(tun: Tunables, md: Inputs, s: SymState) {
    FitsInt32(Desired(tun, md, s).bid) && FitsInt32(Desired(tun, md, s).ask)
  }

  /** Narrowing moves a price by a multiple of 2^32; here that is a whole number of ticks. */
  predicate WrapsOnGrid(x: int, tick: int)
    requires tick > 0
  {
    (x - ToInt32(x)) % tick == 0
  }

  predicate BidSnapped(tun: Tunables, md: Inputs, s: SymState) {
    HasRange(md, s) && ToInt32(Desired(tun, md, s).bid) < md.dprLow(s.id)
  }

  predicate AskSnapped(tun: Tunables, md: Inputs, s: SymState) {
    HasRange(md, s) && ToInt32(Desired(tun, md, s).ask) > md.dprHigh(s.id)
  }

  /** Either the bid or the ask is snapped, or narrowing moves it by whole ticks. */
  predicate SideOnGrid(tun: Tunables, md: Inputs, s: SymState, side: Side)
    requires s.tickSize > 0
  {
    if side == Buy then BidSnapped(tun, md, s) || WrapsOnGrid(Desired(tun, md, s).bid, s.tickSize)
    else AskSnapped(tun, md, s) || WrapsOnGrid(Desired(tun, md, s).ask, s.tickSize)
  }

  lemma GridDifference(x: int, y: int, tick: int)
    requires tick > 0 && OnGrid(x, tick)
    ensures OnGrid(y, tick) <==> (x - y) % tick == 0
  {
    var k := GridIsMultiples(x, tick);
    if OnGrid(y, tick) {
      var j := GridIsMultiples(y, tick);
      assert x - y == (k - j) * tick;
      MultipleOnGrid(k - j, tick);
    } else if OnGrid(x - y, tick) {
      var j := GridIsMultiples(x - y, tick);
      assert y == (k - j) * tick;
      MultipleOnGrid(k - j, tick);
    }
  }

  lemma NarrowedOnGrid(tun: Tunables, md: Inputs, s: SymState)
    requires s.tickSize > 0
    ensures TouchOk(md, s) ==>
      var d := Desired(tun, md, s);
      && OnGrid(d.bid, s.tickSize) && OnGrid(d.ask, s.tickSize)
      && (OnGrid(ToInt32(d.bid), s.tickSize) <==> WrapsOnGrid(d.bid, s.tickSize))
      && (OnGrid(ToInt32(d.ask), s.tickSize) <==> WrapsOnGrid(d.ask, s.tickSize))
  {
    if TouchOk(md, s) {
      var t, d := md.tick(s.id), Desired(tun, md, s);
      DesiredOnGrid(t.bid, t.ask, s.tickSize, t.bidSize, t.askSize, md.inventory(s.id), MaxPosition(md, s),
                    tun.invSkewTicks, tun.flowSkewTicks);
      GridDifference(d.bid, ToInt32(d.bid), s.tickSize);
      GridDifference(d.ask, ToInt32(d.ask), s.tickSize);
    }
  }

  /**
   For a touch on the grid, a side that passes the gates has a legal price exactly when it is
   snapped or narrowing moves it by whole ticks.
   */
  lemma WantedIsLegalIff(tun: Tunables, md: Inputs, s: SymState)
    requires s.tickSize > 0
    ensures TouchOk(md, s) ==>
      var w := Wanted(tun, md, s);
      && (w.bidOk ==> (LegalPrice(md, s, w.bid) <==> SideOnGrid(tun, md, s, Buy)))
      && (w.askOk ==> (LegalPrice(md, s, w.ask) <==> SideOnGrid(tun, md, s, Sell)))
  {
    NarrowedOnGrid(tun, md, s);
    SnapBounds(md.dprLow(s.id), s.tickSize);
    SnapBounds(md.dprHigh(s.id), s.tickSize);
  }

  // ----- Crossing -----

  /**
   What keeps the sides apart, told from the narrowed quotes and the limits: an ask that is
   snapped down meets a bid that is lifted, or one no higher than the limit rounded down; an ask
   that stays meets a lifted bid only from the limit rounded up; with neither side moved,
   narrowing did not pull the ask below the bid by more than the width of the quotes.
   */
  predicate SidesApart(tun: Tunables, md: Inputs, s: SymState)
    requires s.tickSize > 0
  {
    var t, d := md.tick(s.id), Desired(tun, md, s);
    var bid, ask := ToInt32(d.bid), ToInt32(d.ask);
    if AskSnapped(tun, md, s) then BidSnapped(tun, md, s) || bid <= SnapDown(md.dprHigh(s.id), s.tickSize)
    else if BidSnapped(tun, md, s) then SnapUp(md.dprLow(s.id), s.tickSize) <= ask
    else (d.ask - ask) - (d.bid - bid) <= t.ask - t.bid + 2 * s.tickSize
  }

  lemma BothSnappedApart(lo: int, hi: nat, tick: int)
    requires tick > 0 && SnapUp(lo, tick) <= hi
    ensures SnapUp(lo, tick) <= SnapDown(hi, tick)
  {
    SnapBounds(lo, tick);
    SnapDownIsGreatest(hi, SnapUp(lo, tick), tick);
  }

  /** The same condition on the narrowed quotes `q` alone. */
  predicate SnappedApart(q: Quotes, lo: int, hi: int, tick: int)
    requires tick > 0
  {
    var ranged := hi > 0 && hi > lo;
    if ranged && q.ask > hi then q.bid < lo || q.bid <= SnapDown(hi, tick)
    else if ranged && q.bid < lo then SnapUp(lo, tick) <= q.ask
    else q.bid <= q.ask
  }

  lemma SnappedUncrossedIff(q: Quotes, lo: int, hi: int, tick: int)
    requires tick > 0
    ensures var s := SnapQuotes(q, lo, hi, tick);
      s.bidOk && s.askOk ==> (s.bid <= s.ask <==> SnappedApart(q, lo, hi, tick))
  {
    if 0 < hi && lo < hi < q.ask && q.bid < lo && SnapUp(lo, tick) <= hi {
      BothSnappedApart(lo, hi, tick);
    }
  }

  lemma SidesApartIff(tun: Tunables, md: Inputs, s: SymState)
    requires s.tickSize > 0
    ensures SidesApart(tun, md, s) <==>
      SnappedApart(Narrowed(Desired(tun, md, s)), md.dprLow(s.id), md.dprHigh(s.id), s.tickSize)
  {
  }

  /** For any touch whatever, two sides that pass the gates are uncrossed exactly when they are kept apart. */
  lemma SidesUncrossedIff(tun: Tunables, md: Inputs, s: SymState)
    requires s.tickSize > 0
    ensures var w := Wanted(tun, md, s); w.bidOk && w.askOk ==> (w.bid <= w.ask <==> SidesApart(tun, md, s))
  {
    SnappedUncrossedIff(Narrowed(Desired(tun, md, s)), md.dprLow(s.id), md.dprHigh(s.id), s.tickSize);
    SidesApartIff(tun, md, s);
  }

  /** A bid lifted to the low limit passes an ask at or above that limit only by the tick of the overshoot. */
  lemma LiftedBidBelowIff(lo: int, ask: int, tick: int)
    requires tick > 0 && OnGrid(ask, tick) && lo <= ask
    ensures SnapUp(lo, tick) <= ask <==> SnapUpExact(lo, tick) || ask != SnapUp(lo, tick) - tick
  {
    var g := SnapUp(lo, tick);
    if SnapUpExact(lo, tick) {
      SnapUpIsLeastIfExact(lo, tick);
    } else {
      SnapUpOvershoots(lo, tick);
      SnapBounds(lo, tick);
      if ask < g {
        GridPointsApart(ask, g - tick, tick);
        GridPointsApart(g - tick, ask, tick);
      }
    }
  }

  /**
   For a touch on the grid with two legal sides, a snapped ask never meets the bid, and a lifted
   bid meets the ask only where the limit does not round exactly, and then at one price.
   */
  lemma LegalSidesUncrossedIff(tun: Tunables, md: Inputs, s: SymState)
    requires s.tickSize > 0
    ensures var w, lo := Wanted(tun, md, s), md.dprLow(s.id);
      TouchOk(md, s) && w.bidOk && w.askOk && SideOnGrid(tun, md, s, Buy) && SideOnGrid(tun, md, s, Sell) ==>
        && (AskSnapped(tun, md, s) ==> w.bid <= w.ask)
        && (BidSnapped(tun, md, s) && !AskSnapped(tun, md, s) ==>
              (w.bid <= w.ask <==> SnapUpExact(lo, s.tickSize) || w.ask != SnapUp(lo, s.tickSize) - s.tickSize))
  {
    var w, lo, hi := Wanted(tun, md, s), md.dprLow(s.id), md.dprHigh(s.id);
    if TouchOk(md, s) && w.bidOk && w.askOk && SideOnGrid(tun, md, s, Buy) && SideOnGrid(tun, md, s, Sell) {
      WantedIsLegalIff(tun, md, s);
      if AskSnapped(tun, md, s) {
        SnapDownIsGreatest(hi, w.bid, s.tickSize);
      } else if BidSnapped(tun, md, s) {
        LiftedBidBelowIff(lo, w.ask, s.tickSize);
      }
    }
  }

  // ----- Quotes that fit -----

  /**
   For a touch on the grid, quotes that fit in 32 bits are legal, and cross exactly when the bid is
   lifted a tick too far onto the ask's side.
   */
  lemma WantedIsLegal(tun: Tunables, md: Inputs, s: SymState)
    requires s.tickSize > 0
    ensures TouchOk(md, s) && QuotesFit(tun, md, s) ==>
      var w, lo := Wanted(tun, md, s), md.dprLow(s.id);
      && SideOnGrid(tun, md, s, Buy) && SideOnGrid(tun, md, s, Sell)
      && (w.bidOk ==> LegalPrice(md, s, w.bid)) && (w.askOk ==> LegalPrice(md, s, w.ask))
      && (w.bidOk && w.askOk ==>
           (w.bid > w.ask <==>
              && BidSnapped(tun, md, s) && !AskSnapped(tun, md, s)
              && !SnapUpExact(lo, s.tickSize) && w.ask == SnapUp(lo, s.tickSize) - s.tickSize))
  {
    if TouchOk(md, s) && QuotesFit(tun, md, s) {
      WantedIsLegalIff(tun, md, s);
      SidesUncrossedIff(tun, md, s);
      LegalSidesUncrossedIff(tun, md, s);
    }
  }

  /** Quotes fit in 32 bits if the touch leaves room for both skews and one tick. */
  lemma SmallQuotesFit(tun: Tunables, md: Inputs, s: SymState)
    requires s.tickSize > 0 && tun.invSkewTicks >= 0 && tun.flowSkewTicks >= 0
    requires var t, reach := md.tick(s.id), (1 + tun.invSkewTicks + tun.flowSkewTicks) * s.tickSize;
      && FitsInt32(t.bid - reach) && FitsInt32(t.bid + reach) && FitsInt32(t.ask - reach) && FitsInt32(t.ask + reach)
    ensures QuotesFit(tun, md, s)
  {
    var t := md.tick(s.id);
    DesiredNearTouch(t.bid, t.ask, s.tickSize, t.bidSize, t.askSize, md.inventory(s.id), MaxPosition(md, s),
                     tun.invSkewTicks, tun.flowSkewTicks);
  }

  // ----- Where a price goes wrong -----

  const PLAIN := Tunables(100, 0, 0, 1, 86400, false)

  function Only(t: Tick, lo: int, hi: int): Inputs {
    Inputs(true, 0, 0, 0, (_: int) => t, (_: int) => 0, (_: int) => 0, (_: int) => lo, (_: int) => hi)
  }

  const SYMBOL := SymState(1, 5, 1, 0, 0, 0, 0, 0)

  /**
   With a negative low limit on the grid, the bid of an uncrossed touch is lifted a tick too far
   and crosses the ask.
   */
  lemma NegativeLimitCrosses()
    ensures var md := Only(Tick(-15, -15, 1, 1), -10, 5);
      TouchOk(md, SYMBOL) && Wanted(PLAIN, md, SYMBOL) == SnappedQuotes(-5, true, -10, true)
  {
    var md := Only(Tick(-15, -15, 1, 1), -10, 5);
    assert Desired(PLAIN, md, SYMBOL) == Quotes(-20, -10);
  }

  /**
   Next to the largest 32-bit price, the ask of an uncrossed touch on the grid wraps to a price
   that is off the grid.
   */
  lemma NarrowingLeavesGrid()
    ensures var md := Only(Tick(2147483645, 2147483645, 1, 1), 0, 0);
      && TouchOk(md, SYMBOL)
      && var w := Wanted(PLAIN, md, SYMBOL); w.askOk && w.ask == -2147483646 && !LegalPrice(md, SYMBOL, w.ask)
  {
    var md := Only(Tick(2147483645, 2147483645, 1, 1), 0, 0);
    assert Desired(PLAIN, md, SYMBOL) == Quotes(2147483640, 2147483650);
    assert ToInt32(2147483650) == -2147483646;
  }

  /** On the same input the wrapped ask falls below the bid, with no range and nothing snapped. */
  lemma NarrowingCrosses()
    ensures var md := Only(Tick(2147483645, 2147483645, 1, 1), 0, 0);
      && TouchOk(md, SYMBOL) && SnapUpExact(md.dprLow(SYMBOL.id), SYMBOL.tickSize)
      && Wanted(PLAIN, md, SYMBOL) == SnappedQuotes(2147483640, true, -2147483646, true)
  {
    var md := Only(Tick(2147483645, 2147483645, 1, 1), 0, 0);
    assert Desired(PLAIN, md, SYMBOL) == Quotes(2147483640, 2147483650);
    assert ToInt32(2147483650) == -2147483646;
  }

  /** The inputs pass every gate of a callback that comes before the quotes. */
  predicate PassesGates(tun: Tunables, md: Inputs, s: SymState) {
    md.running && !Sweeps(tun, md) && !NoTouch(md, s) && !TooWide(tun, md, s) && OpsOk(md)
  }

  /**
   A tick size that divides 2^32 keeps the wrapped ask on the grid. It still falls below the bid,
   and the input passes every gate of a callback.
   */
  lemma NarrowingCrossesOnGrid()
    ensures var md, sym := NEAR_THE_TOP, FOUR_TICK;
      && TouchOk(md, sym) && SideOnGrid(PLAIN, md, sym, Buy) && SideOnGrid(PLAIN, md, sym, Sell)
      && Wanted(PLAIN, md, sym) == SnappedQuotes(2147483640, true, -2147483648, true)
      && PassesGates(PLAIN, md, sym) && AskWraps(PLAIN, md, sym)
  {
    var md, sym := NEAR_THE_TOP, FOUR_TICK;
    assert Desired(PLAIN, md, sym) == Quotes(2147483640, 2147483648);
    assert ToInt32(2147483648) == -2147483648;
  }

  const FOUR_TICK := SYMBOL.(tickSize := 4)

  const NEAR_THE_TOP := Only(Tick(2147483644, 2147483644, 1, 1), 0, 0)

  function NewQuote(s: SymState, side: Side, price: int, qty: int): Entry {
    Message(Quote(s.id, price, qty, side, 0, s.tickSize), false, New)
  }

  lemma {:induction false} RunOfOneCallback(s: Session, sym: SymState, md: Inputs)
    requires s.syms == [sym] && sym.tickSize > 0 && md.running && !Sweeps(s.tun, md)
    ensures Run(s, [MarketData(md)]).platform == WorkSymbol(s.tun, md, s.platform, sym).0
  {
    var e := MarketData(md);
    assert [e][..|[e]| - 1] == [] && Run(s, []) == s;
    assert Run(s, [e]) == Step(s, e);
    WorkAllSnoc(s.tun, md, s.platform, [sym], 0);
    assert [sym][..0] == [] && [sym][..1] == [sym];
  }

  lemma BothSidesSent(tun: Tunables, md: Inputs, p: Platform, s: SymState)
    requires s.tickSize > 0 && p.orders == map[] && !NoTouch(md, s) && !TooWide(tun, md, s) && OpsOk(md)
    requires tun.quoteLots * s.lotSize != 0
    ensures var w, qty := Wanted(tun, md, s), tun.quoteLots * s.lotSize;
      w.bidOk && w.askOk && w.bid != 0 && w.ask != 0 ==>
        WorkSymbol(tun, md, p, s).0.log == p.log + [NewQuote(s, Buy, w.bid, qty)] + [NewQuote(s, Sell, w.ask, qty)]
  {
    var t := md.tick(s.id);
    var s1 := s.(lastMid := TruncDiv(t.bid + t.ask, 2));
    assert Wanted(tun, md, s1) == Wanted(tun, md, s);
  }

  /** The inputs under which a callback on an idle platform quotes both sides of its one symbol. */
  predicate QuotesBoth(s: Session, sym: SymState, md: Inputs, w: SnappedQuotes, qty: int) {
    && s.syms == [sym] && sym.tickSize > 0 && s.platform == Platform(map[], [], NoError)
    && PassesGates(s.tun, md, sym)
    && w == Wanted(s.tun, md, sym) && w.bidOk && w.askOk && w.bid != 0 && w.ask != 0
    && qty == s.tun.quoteLots * sym.lotSize && qty != 0
  }

  /** A first callback under these inputs sends two quotes, which cross exactly when the sides are not kept apart. */
  lemma {:induction false} CallbackSendsCrossedQuotes(s: Session, sym: SymState, md: Inputs, w: SnappedQuotes, qty: int)
    ensures QuotesBoth(s, sym, md, w, qty) ==>
      && Run(s, [MarketData(md)]).platform.log == [NewQuote(sym, Buy, w.bid, qty), NewQuote(sym, Sell, w.ask, qty)]
      && (w.bid > w.ask <==> !SidesApart(s.tun, md, sym))
  {
    if QuotesBoth(s, sym, md, w, qty) {
      RunOfOneCallback(s, sym, md);
      BothSidesSent(s.tun, md, s.platform, sym);
      SidesUncrossedIff(s.tun, md, sym);
    }
  }

  /** Without a range, an ask past the largest 32-bit price wraps below a bid that is not. */
  predicate AskWraps(tun: Tunables, md: Inputs, s: SymState) {
    var d := Desired(tun, md, s);
    !HasRange(md, s) && FitsInt32(d.bid) && TWO_TO_THE_31 <= d.ask < d.bid + TWO_TO_THE_32
  }

  lemma WrappedAskIsBelow(tun: Tunables, md: Inputs, s: SymState)
    requires s.tickSize > 0 && AskWraps(tun, md, s)
    ensures !SidesApart(tun, md, s)
  {
    var d := Desired(tun, md, s);
    assert ToInt32(d.bid) == d.bid && ToInt32(d.ask) == d.ask - TWO_TO_THE_32;
  }

  /** Whenever the ask wraps, a first callback that passes the gates sends a bid above its ask. */
  lemma {:induction false} WrappedAskIsSent(s: Session, sym: SymState, md: Inputs, w: SnappedQuotes, qty: int)
    ensures QuotesBoth(s, sym, md, w, qty) && AskWraps(s.tun, md, sym) ==>
      && Run(s, [MarketData(md)]).platform.log == [NewQuote(sym, Buy, w.bid, qty), NewQuote(sym, Sell, w.ask, qty)]
      && w.bid > w.ask
  {
    if QuotesBoth(s, sym, md, w, qty) && AskWraps(s.tun, md, sym) {
      CallbackSendsCrossedQuotes(s, sym, md, w, qty);
      WrappedAskIsBelow(s.tun, md, sym);
    }
  }

  // ----- Every message of a callback -----
  // ----- Every message of a callback -----

  /** A cancel, or a quote of symbol `s` whose price, for a touch on the grid, is legal exactly under the condition. */
  ghost predicate PricedMessage(tun: Tunables, md: Inputs, s: SymState, e: Entry)
    requires s.tickSize > 0
  {
    && e.Message? && e.quote.symId == s.id
    && (e.kind == Cancel || PricedExactly(tun, md, s, e.quote.side, e.quote.price))
  }

  ghost predicate PricedExactly(tun: Tunables, md: Inputs, s: SymState, side: Side, price: int)
    requires s.tickSize > 0
  {
    TouchOk(md, s) ==> (LegalPrice(md, s, price) <==> SideOnGrid(tun, md, s, side))
  }

  ghost predicate AllPriced(tun: Tunables, md: Inputs, syms: seq<SymState>, before: seq<Entry>, after: seq<Entry>)
    requires TicksPositive(syms)
  {
    && before <= after
    && forall i :: |before| <= i < |after| ==>
         exists j :: 0 <= j < |syms| && PricedMessage(tun, md, syms[j], after[i])
  }

  ghost predicate SymbolPriced(tun: Tunables, md: Inputs, s: SymState, before: seq<Entry>, after: seq<Entry>)
    requires s.tickSize > 0
  {
    before <= after && forall i :: |before| <= i < |after| ==> PricedMessage(tun, md, s, after[i])
  }

  /** Nothing that a price depends on is changed by working a symbol. */
  predicate SameSymbol(s: SymState, s': SymState) {
    s'.id == s.id && s'.tickSize == s.tickSize && s'.lotSize == s.lotSize
  }

  lemma WorkSidePriced(tun: Tunables, md: Inputs, p: Platform, s: SymState, side: Side, ok: bool, price: int,
                       qty: int, opsOk: bool)
    requires s.tickSize > 0 && (ok ==> PricedExactly(tun, md, s, side, price))
    ensures SymbolPriced(tun, md, s, p.log, WorkSide(p, s, side, ok, price, qty, opsOk).0.log)
    ensures SymbolPriced(tun, md, s, p.log, CancelSide(p, s, side).log)
  {
  }

  lemma PricedTwice(tun: Tunables, md: Inputs, s: SymState, s': SymState, a: seq<Entry>, b: seq<Entry>, c: seq<Entry>)
    requires s.tickSize > 0 && SameSymbol(s, s')
    requires SymbolPriced(tun, md, s, a, b) && SymbolPriced(tun, md, s', b, c)
    ensures SymbolPriced(tun, md, s, a, c)
  {
    assert Desired(tun, md, s) == Desired(tun, md, s');
  }

  lemma CancelBothPriced(tun: Tunables, md: Inputs, p: Platform, s: SymState)
    requires s.tickSize > 0
    ensures SymbolPriced(tun, md, s, p.log, CancelBoth(p, s).log)
  {
    var p1 := CancelSide(p, s, Buy);
    WorkSidePriced(tun, md, p, s, Buy, false, 0, 0, true);
    WorkSidePriced(tun, md, p1, s, Sell, false, 0, 0, true);
    PricedTwice(tun, md, s, s, p.log, p1.log, CancelSide(p1, s, Sell).log);
  }

  lemma BothSidesPriced(tun: Tunables, md: Inputs, p: Platform, s: SymState, w: SnappedQuotes, qty: int, opsOk: bool)
    requires s.tickSize > 0
    requires w.bidOk ==> PricedExactly(tun, md, s, Buy, w.bid)
    requires w.askOk ==> PricedExactly(tun, md, s, Sell, w.ask)
    ensures var (p2, s2) := WorkSide(p, s, Buy, w.bidOk, w.bid, qty, opsOk);
      SymbolPriced(tun, md, s, p.log, WorkSide(p2, s2, Sell, w.askOk, w.ask, qty, opsOk).0.log)
  {
    var (p2, s2) := WorkSide(p, s, Buy, w.bidOk, w.bid, qty, opsOk);
    WorkSidePriced(tun, md, p, s, Buy, w.bidOk, w.bid, qty, opsOk);
    assert Desired(tun, md, s) == Desired(tun, md, s2);
    WorkSidePriced(tun, md, p2, s2, Sell, w.askOk, w.ask, qty, opsOk);
    PricedTwice(tun, md, s, s2, p.log, p2.log, WorkSide(p2, s2, Sell, w.askOk, w.ask, qty, opsOk).0.log);
  }

  lemma WorkSymbolPriced(tun: Tunables, md: Inputs, p: Platform, s: SymState)
    requires s.tickSize > 0
    ensures SymbolPriced(tun, md, s, p.log, WorkSymbol(tun, md, p, s).0.log)
  {
    var t := md.tick(s.id);
    var s1 := s.(lastMid := TruncDiv(t.bid + t.ask, 2));
    if NoTouch(md, s) {
      CancelBothPriced(tun, md, p, s);
    } else if TooWide(tun, md, s1) {
      CancelBothPriced(tun, md, p, s1);
      PricedTwice(tun, md, s, s1, p.log, p.log, CancelBoth(p, s1).log);
    } else {
      WantedIsLegalIff(tun, md, s1);
      BothSidesPriced(tun, md, p, s1, Wanted(tun, md, s1), tun.quoteLots * s1.lotSize, OpsOk(md));
      PricedTwice(tun, md, s, s1, p.log, p.log, WorkSymbol(tun, md, p, s).0.log);
    }
  }

  lemma {:induction false} WorkAllPriced(tun: Tunables, md: Inputs, p: Platform, syms: seq<SymState>)
    requires TicksPositive(syms)
    ensures AllPriced(tun, md, syms, p.log, WorkAll(tun, md, p, syms).0.log)
  {
    if syms != [] {
      var n := |syms| - 1;
      var front, last := syms[..n], syms[n];
      WorkAllPriced(tun, md, p, front);
      var p1 := WorkAll(tun, md, p, front).0;
      WorkSymbolPriced(tun, md, p1, last);
      var after := WorkAll(tun, md, p, syms).0.log;
      forall i | |p.log| <= i < |after|
        ensures exists j :: 0 <= j < |syms| && PricedMessage(tun, md, syms[j], after[i])
      {
        if i < |p1.log| {
          var j :| 0 <= j < |front| && PricedMessage(tun, md, front[j], p1.log[i]);
          assert PricedMessage(tun, md, syms[j], after[i]);
        } else {
          assert PricedMessage(tun, md, syms[n], after[i]);
        }
      }
    }
  }

  /**
   Whatever the inputs: every message a callback sends is a cancel, or a quote of one of its
   symbols that, for a touch on the grid, is legal exactly when its side was snapped or narrowing
   moved it by whole ticks.
   */
  lemma {:induction false} CallbackSendsLegalPrices(tun: Tunables, md: Inputs, p: Platform, syms: seq<SymState>)
    requires TicksPositive(syms)
    ensures var after := OnMarketData(tun, md, p, syms).0.log;
      && p.log <= after
      && forall i :: |p.log| <= i < |after| && after[i].Message? && after[i].kind != Cancel ==>
           exists j :: 0 <= j < |syms| && PricedMessage(tun, md, syms[j], after[i])
  {
    WorkAllPriced(tun, md, p, syms);
    CancelAllEffect(p, syms, SlotKey(0, Buy, 0));
  }
}
