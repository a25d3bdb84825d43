/**
 What the platform strategy sends for a symbol, told from the callback's inputs alone: when a side
 is quoted, at which price and size, when it is cancelled, and when it is left alone.
 */
module IrageGates {
  import opened Types
  import opened QuotingMath
  import opened Connect
  import opened IrageStrategy
  import opened IrageRuns
  import opened IragePrices

  /** The platform runs, nobody pulled the switch, and by Indian time the pre-close has not come. */
  predicate Trading(tun: Tunables, md: Inputs) {
    md.running && !tun.killed && (md.seconds + 19800) % 86400 < tun.precloseSod
  }

  /** One more message would still be within four fifths of the budget, if there is one. */
  predicate Headroom(md: Inputs) { md.totalOps > 0 ==> 5 * (md.opsConsumed + 1) <= 4 * md.totalOps }

  /** Both sides of the touch have size and the spread is not too wide. */
  predicate Quotable(tun: Tunables, md: Inputs, s: SymState) {
    var t := md.tick(s.id);
    t.bidSize > 0 && t.askSize > 0 && t.ask - t.bid <= tun.maxSpreadTicks * s.tickSize
  }

  /** The price of a side: as desired in 32 bits, moved to the limit of the price range where it lies beyond it. */
  function SidePrice(tun: Tunables, md: Inputs, s: SymState, side: Side): int
    requires s.tickSize > 0
  {
    var t := md.tick(s.id);
    var want := DesiredQuotes(t.bid, t.ask, s.tickSize, t.bidSize, t.askSize, md.inventory(s.id),
      md.maxInventory(s.id) * s.lotSize, tun.invSkewTicks, tun.flowSkewTicks);
    if side == Buy then
      if HasRange(md, s) && ToInt32(want.bid) < md.dprLow(s.id) then SnapUp(md.dprLow(s.id), s.tickSize)
      else ToInt32(want.bid)
    else
      if HasRange(md, s) && ToInt32(want.ask) > md.dprHigh(s.id) then SnapDown(md.dprHigh(s.id), s.tickSize)
      else ToInt32(want.ask)
  }

  /** The position leaves room for the side; without a maximum it always does. */
  predicate HasRoom(md: Inputs, s: SymState, side: Side) {
    var most, position := md.maxInventory(s.id) * s.lotSize, md.inventory(s.id);
    most > 0 ==> if side == Buy then position < most else -most < position
  }

  /** A side is wanted: room, fewer than three rejects in a row, and a price that is not beyond the far limit. */
  predicate Wants(tun: Tunables, md: Inputs, s: SymState, side: Side)
    requires s.tickSize > 0
  {
    && Quotable(tun, md, s) && HasRoom(md, s, side)
    && (if side == Buy then s.rejectsBuy < 3 else s.rejectsSell < 3)
    && (HasRange(md, s) ==>
          if side == Buy then SidePrice(tun, md, s, side) <= md.dprHigh(s.id)
          else SidePrice(tun, md, s, side) >= md.dprLow(s.id))
  }

  function QuoteFor(tun: Tunables, md: Inputs, s: SymState, side: Side): Quote
    requires s.tickSize > 0
  {
    Quote(s.id, SidePrice(tun, md, s, side), tun.quoteLots * s.lotSize, side, 0, s.tickSize)
  }

  /** What working a symbol does to the slot of one of its sides. */
  function SlotAfter(tun: Tunables, md: Inputs, s: SymState, side: Side, slot: OrderSlot): OrderSlot
    requires s.tickSize > 0
  {
    if !Wants(tun, md, s, side) then CancelTried(slot)
    else if Headroom(md) then Respond(slot, QuoteFor(tun, md, s, side), false).slot
    else slot
  }

  /** What working a symbol sends for one of its sides. */
  function SentFor(tun: Tunables, md: Inputs, s: SymState, side: Side, slot: OrderSlot): seq<Entry>
    requires s.tickSize > 0
  {
    if !Wants(tun, md, s, side) then
      if slot.state == StandingAcked then [Message(Quote(s.id, 0, 0, side, 0, 0), false, Cancel)] else []
    else
      var q := QuoteFor(tun, md, s, side);
      var r := Respond(slot, q, false);
      if Headroom(md) && r.sent.Some? then [Message(q, false, r.sent.value)] else []
  }

  function LastPrice(s: SymState, side: Side): int { if side == Buy then s.lastBidQuote else s.lastAskQuote }

  lemma HeadroomIff(md: Inputs)
    ensures Headroom(md) <==> OpsOk(md)
  {
  }

  lemma WantsIff(tun: Tunables, md: Inputs, s: SymState)
    requires s.tickSize > 0 && Quotable(tun, md, s)
    ensures var w := Wanted(tun, md, s);
      && w.bid == SidePrice(tun, md, s, Buy) && w.ask == SidePrice(tun, md, s, Sell)
      && (w.bidOk <==> Wants(tun, md, s, Buy)) && (w.askOk <==> Wants(tun, md, s, Sell))
  {
  }

  lemma CancelSideSends(p: Platform, s: SymState, side: Side)
    ensures CancelSide(p, s, side).log == p.log + if SlotAt(p, KeyFor(s, side)).state == StandingAcked
      then [Message(Quote(s.id, 0, 0, side, 0, 0), false, Cancel)] else []
    ensures forall k: SlotKey ::
      SlotAt(CancelSide(p, s, side), k) == if k == KeyFor(s, side) then CancelTried(SlotAt(p, k)) else SlotAt(p, k)
  {
    forall k: SlotKey
      ensures SlotAt(CancelSide(p, s, side), k) == if k == KeyFor(s, side) then CancelTried(SlotAt(p, k)) else SlotAt(p, k)
    {
      CancelSideEffect(p, s, side, k);
    }
  }

  ghost predicate SideWorked(tun: Tunables, md: Inputs, s: SymState, side: Side, p: Platform, p': Platform)
    requires s.tickSize > 0
  {
    && p'.log == p.log + SentFor(tun, md, s, side, SlotAt(p, KeyFor(s, side)))
    && forall k: SlotKey :: SlotAt(p', k) ==
         if k == KeyFor(s, side) then SlotAfter(tun, md, s, side, SlotAt(p, k)) else SlotAt(p, k)
  }

  lemma WorkSideDoes(tun: Tunables, md: Inputs, s: SymState, side: Side, p: Platform, s': SymState)
    requires s.tickSize > 0 && Quotable(tun, md, s)
    requires s'.id == s.id && s'.tickSize == s.tickSize
    ensures var (p', r) := WorkSide(p, s', side, Wants(tun, md, s, side), SidePrice(tun, md, s, side),
      tun.quoteLots * s.lotSize, Headroom(md));
      var sent := SentFor(tun, md, s, side, SlotAt(p, KeyFor(s, side)));
      && SideWorked(tun, md, s, side, p, p')
      && r == (if side == Buy then s'.(lastBidQuote := LastPrice(r, Buy)) else s'.(lastAskQuote := LastPrice(r, Sell)))
      && LastPrice(r, side) == if !Wants(tun, md, s, side) then 0 else if sent != [] then SidePrice(tun, md, s, side)
           else LastPrice(s', side)
  {
    CancelSideSends(p, s', side);
  }

  /** The symbol's last sent price of a side: the price, where it was sent, and 0 where the side is not wanted. */
  ghost predicate LastPriceIs(tun: Tunables, md: Inputs, s: SymState, side: Side, slot: OrderSlot, r: SymState)
    requires s.tickSize > 0
  {
    LastPrice(r, side) ==
      if !Quotable(tun, md, s) then LastPrice(s, side)
      else if !Wants(tun, md, s, side) then 0
      else if SentFor(tun, md, s, side, slot) != [] then SidePrice(tun, md, s, side)
      else LastPrice(s, side)
  }

  ghost predicate SymbolWorked(tun: Tunables, md: Inputs, s: SymState, p: Platform, p': Platform)
    requires s.tickSize > 0
  {
    var bid, ask := SlotAt(p, KeyFor(s, Buy)), SlotAt(p, KeyFor(s, Sell));
    && p'.log == p.log + SentFor(tun, md, s, Buy, bid) + SentFor(tun, md, s, Sell, ask)
    && forall k: SlotKey :: SlotAt(p', k) ==
         if k == KeyFor(s, k.side) then SlotAfter(tun, md, s, k.side, SlotAt(p, k)) else SlotAt(p, k)
  }

  lemma TwoSides(tun: Tunables, md: Inputs, s: SymState, p: Platform, p1: Platform, p2: Platform)
    requires s.tickSize > 0 && SideWorked(tun, md, s, Buy, p, p1) && SideWorked(tun, md, s, Sell, p1, p2)
    ensures SymbolWorked(tun, md, s, p, p2)
  {
    assert SlotAt(p1, KeyFor(s, Sell)) == SlotAt(p, KeyFor(s, Sell));
    forall k: SlotKey
      ensures SlotAt(p2, k) == if k == KeyFor(s, k.side) then SlotAfter(tun, md, s, k.side, SlotAt(p, k)) else SlotAt(p, k)
    {
      assert SlotAt(p1, k) == if k == KeyFor(s, Buy) then SlotAfter(tun, md, s, Buy, SlotAt(p, k)) else SlotAt(p, k);
      assert k.side == Buy || k.side == Sell;
    }
  }

  /** Half of the sum of the touch, rounded toward zero. */
  predicate IsMid(t: Tick, mid: int) {
    var sum := t.bid + t.ask;
    if sum >= 0 then sum - 1 <= 2 * mid <= sum else sum <= 2 * mid <= sum + 1
  }

  ghost predicate Outcome(tun: Tunables, md: Inputs, p: Platform, s: SymState, p': Platform, r: SymState)
    requires s.tickSize > 0
  {
    && SymbolWorked(tun, md, s, p, p')
    && LastPriceIs(tun, md, s, Buy, SlotAt(p, KeyFor(s, Buy)), r)
    && LastPriceIs(tun, md, s, Sell, SlotAt(p, KeyFor(s, Sell)), r)
    && r.rejectsBuy == s.rejectsBuy && r.rejectsSell == s.rejectsSell && r.lotSize == s.lotSize
  }

  lemma QuotedOutcome(tun: Tunables, md: Inputs, p: Platform, s: SymState, s1: SymState)
    requires s.tickSize > 0 && Quotable(tun, md, s) && s1 == s.(lastMid := s1.lastMid)
    ensures var w, qty := Wanted(tun, md, s1), tun.quoteLots * s1.lotSize;
      var (p1, s2) := WorkSide(p, s1, Buy, w.bidOk, w.bid, qty, OpsOk(md));
      var (p2, r) := WorkSide(p1, s2, Sell, w.askOk, w.ask, qty, OpsOk(md));
      Outcome(tun, md, p, s, p2, r)
  {
    WantsIff(tun, md, s);
    assert Wanted(tun, md, s1) == Wanted(tun, md, s);
    HeadroomIff(md);
    var qty := tun.quoteLots * s.lotSize;
    WorkSideDoes(tun, md, s, Buy, p, s1);
    var (p1, s2) := WorkSide(p, s1, Buy, Wants(tun, md, s, Buy), SidePrice(tun, md, s, Buy), qty, Headroom(md));
    WorkSideDoes(tun, md, s, Sell, p1, s2);
    var p2 := WorkSide(p1, s2, Sell, Wants(tun, md, s, Sell), SidePrice(tun, md, s, Sell), qty, Headroom(md)).0;
    TwoSides(tun, md, s, p, p1, p2);
    assert SlotAt(p1, KeyFor(s, Sell)) == SlotAt(p, KeyFor(s, Sell));
  }

  lemma CancelledOutcome(tun: Tunables, md: Inputs, p: Platform, s: SymState, s1: SymState)
    requires s.tickSize > 0 && !Quotable(tun, md, s) && s1 == s.(lastMid := s1.lastMid)
    ensures Outcome(tun, md, p, s, CancelBoth(p, s1), s1)
  {
    var p1 := CancelSide(p, s1, Buy);
    CancelSideSends(p, s1, Buy);
    CancelSideSends(p1, s1, Sell);
    assert SideWorked(tun, md, s, Buy, p, p1);
    assert SideWorked(tun, md, s, Sell, p1, CancelSide(p1, s1, Sell));
    TwoSides(tun, md, s, p, p1, CancelSide(p1, s1, Sell));
  }

  /**
   One symbol in one callback: each side is quoted, cancelled or left alone as its inputs say, no
   other slot is touched, and what the symbol remembers is what was sent.
   */
  lemma SymbolOutcome(tun: Tunables, md: Inputs, p: Platform, s: SymState)
    requires s.tickSize > 0
    ensures var (p', r) := WorkSymbol(tun, md, p, s); Outcome(tun, md, p, s, p', r)
  {
    var t := md.tick(s.id);
    var s1 := s.(lastMid := TruncDiv(t.bid + t.ask, 2));
    if Quotable(tun, md, s) {
      QuotedOutcome(tun, md, p, s, s1);
    } else if NoTouch(md, s) {
      CancelledOutcome(tun, md, p, s, s);
      assert WorkSymbol(tun, md, p, s) == (CancelBoth(p, s), s);
    } else {
      CancelledOutcome(tun, md, p, s, s1);
      assert WorkSymbol(tun, md, p, s) == (CancelBoth(p, s1), s1);
    }
  }

  /** Working a symbol remembers the middle of a touch that has size on both sides. */
  lemma MidRemembered(tun: Tunables, md: Inputs, p: Platform, s: SymState)
    requires s.tickSize > 0
    ensures var t, mid := md.tick(s.id), WorkSymbol(tun, md, p, s).1.lastMid;
      if t.bidSize > 0 && t.askSize > 0 then IsMid(t, mid) else mid == s.lastMid
  {
  }

  // ----- Whole callbacks -----

  /** The message is the quote that a symbol's inputs ask for on a side that is wanted. */
  ghost predicate Justified(tun: Tunables, md: Inputs, s: SymState, e: Entry)
    requires s.tickSize > 0
  {
    && e.Message? && !e.ioc && Trading(tun, md) && Headroom(md)
    && e.quote == QuoteFor(tun, md, s, e.quote.side) && Wants(tun, md, s, e.quote.side)
  }

  ghost predicate AllJustified(tun: Tunables, md: Inputs, syms: seq<SymState>, before: seq<Entry>, after: seq<Entry>)
    requires TicksPositive(syms)
  {
    && before <= after
    && forall i :: |before| <= i < |after| ==>
         && after[i].Message?
         && (after[i].kind == Cancel || exists j :: 0 <= j < |syms| && Justified(tun, md, syms[j], after[i]))
  }

  lemma {:induction false} WorkAllJustified(tun: Tunables, md: Inputs, p: Platform, syms: seq<SymState>)
    requires TicksPositive(syms) && Trading(tun, md)
    ensures AllJustified(tun, md, syms, p.log, WorkAll(tun, md, p, syms).0.log)
  {
    if syms != [] {
      var n := |syms| - 1;
      var front, last := syms[..n], syms[n];
      WorkAllJustified(tun, md, p, front);
      var p1 := WorkAll(tun, md, p, front).0;
      SymbolOutcome(tun, md, p1, last);
      var after := WorkAll(tun, md, p, syms).0.log;
      forall i | |p.log| <= i < |after|
        ensures after[i].Message? &&
          (after[i].kind == Cancel || exists j :: 0 <= j < |syms| && Justified(tun, md, syms[j], after[i]))
      {
        if i < |p1.log| {
          assert after[i] == p1.log[i];
          if after[i].kind != Cancel {
            var j :| 0 <= j < |front| && Justified(tun, md, front[j], p1.log[i]);
            assert Justified(tun, md, syms[j], after[i]);
          }
        } else {
          assert after[i].kind == Cancel || Justified(tun, md, syms[n], after[i]);
        }
      }
    }
  }

  /**
   Whatever the state: every message of a callback is a cancel or the quote that one of its symbols
   asks for, sent while trading, with headroom, on a side that is wanted.
   */
  lemma {:induction false} CallbackSendsOnlyWanted(tun: Tunables, md: Inputs, p: Platform, syms: seq<SymState>)
    requires TicksPositive(syms)
    ensures AllJustified(tun, md, syms, p.log, OnMarketData(tun, md, p, syms).0.log)
  {
    if Trading(tun, md) {
      WorkAllJustified(tun, md, p, syms);
    } else {
      CancelAllEffect(p, syms, SlotKey(0, Buy, 0));
    }
  }

  ghost predicate DistinctIds(syms: seq<SymState>) {
    forall i, j :: 0 <= i < j < |syms| ==> syms[i].id != syms[j].id
  }

  lemma {:induction false} WorkAllReaches(tun: Tunables, md: Inputs, p: Platform, syms: seq<SymState>, k: SlotKey, j: nat)
    requires TicksPositive(syms) && DistinctIds(syms)
    ensures var p' := WorkAll(tun, md, p, syms).0;
      && (j < |syms| && k == KeyFor(syms[j], k.side) ==>
           SlotAt(p', k) == SlotAfter(tun, md, syms[j], k.side, SlotAt(p, k)))
      && (!Owned(syms, k) ==> SlotAt(p', k) == SlotAt(p, k))
  {
    if syms != [] {
      var n := |syms| - 1;
      var front, last := syms[..n], syms[n];
      WorkAllReaches(tun, md, p, front, k, j);
      SymbolOutcome(tun, md, WorkAll(tun, md, p, front).0, last);
      OwnedSnoc(syms, k);
      assert k.side == Buy || k.side == Sell;
    }
  }

  /**
   One callback on symbols with different ids: while trading, every slot of a symbol is worked as
   the inputs of that symbol say; otherwise, if the platform runs, a cancel is tried on it.
   */
  lemma {:induction false} CallbackReachesEverySlot(tun: Tunables, md: Inputs, p: Platform, syms: seq<SymState>, j: nat,
      side: Side)
    requires TicksPositive(syms) && DistinctIds(syms) && j < |syms|
    ensures var k := KeyFor(syms[j], side); var slot := SlotAt(p, k);
      SlotAt(OnMarketData(tun, md, p, syms).0, k) ==
        if !md.running then slot else if Trading(tun, md) then SlotAfter(tun, md, syms[j], side, slot)
          else CancelTried(slot)
  {
    var k := KeyFor(syms[j], side);
    WorkAllReaches(tun, md, p, syms, k, j);
    CancelAllEffect(p, syms, k);
  }

  /** Without skews, a quote that fits in 32 bits and needs no snap stands one tick outside its side of the touch. */
  lemma PlainPrices(tun: Tunables, md: Inputs, s: SymState)
    requires s.tickSize > 0 && tun.invSkewTicks <= 0 && tun.flowSkewTicks <= 0
    ensures var t := md.tick(s.id);
      var bid, ask := t.bid - s.tickSize, t.ask + s.tickSize;
      && (FitsInt32(bid) && (HasRange(md, s) ==> md.dprLow(s.id) <= bid) ==> SidePrice(tun, md, s, Buy) == bid)
      && (FitsInt32(ask) && (HasRange(md, s) ==> ask <= md.dprHigh(s.id)) ==> SidePrice(tun, md, s, Sell) == ask)
  {
  }

  ghost predicate JustifiedAt(s: Session, events: seq<Event>, n: nat, j: nat, e: Entry)
    requires TicksPositive(s.syms)
  {
    n < |events| && events[n].MarketData? &&
    var before := Run(s, events[..n]);
    j < |before.syms| && Justified(before.tun, events[n].inputs, before.syms[j], e)
  }

  /** In every run every New and every Replace was justified by the callback that sent it. */
  lemma {:induction false} EveryQuoteIsJustified(s: Session, events: seq<Event>, i: nat) returns (n: nat, j: nat)
    requires Starts(s)
    requires var log := Run(s, events).platform.log; i < |log| && log[i].Message? && log[i].kind != Cancel
    ensures JustifiedAt(s, events, n, j, Run(s, events).platform.log[i])
  {
    var front, last := events[..|events| - 1], events[|events| - 1];
    var before, log := Run(s, front), Run(s, events).platform.log;
    if last.MarketData? {
      CallbackSendsOnlyWanted(before.tun, last.inputs, before.platform, before.syms);
    }
    if i < |before.platform.log| {
      assert before.platform.log[i] == log[i];
      n, j := EveryQuoteIsJustified(s, front, i);
      assert front[..n] == events[..n];
    } else {
      n := |front|;
      j :| 0 <= j < |before.syms| && Justified(before.tun, last.inputs, before.syms[j], log[i]);
    }
  }
}
