/** The quoting strategy on the platform: gates, quotes and cancel sweeps, symbol by symbol. */
module IrageStrategy {
  import opened Types
  import opened QuotingMath
  import opened Connect

  const MAX_REJECTS: int := 3

  datatype SymState = SymState(
    id: int, tickSize: int, lotSize: int, rejectsBuy: int, rejectsSell: int,
    lastMid: int, lastBidQuote: int, lastAskQuote: int)

  datatype Tunables = Tunables(
    maxSpreadTicks: int, invSkewTicks: int, flowSkewTicks: int, quoteLots: int, precloseSod: nat, killed: bool)

  datatype Tick = Tick(bid: int, ask: int, bidSize: int, askSize: int)

  /** What the platform tells the callback: running state, clock, rate budget, and per-symbol data. */
  datatype Inputs = Inputs(
    running: bool, seconds: nat, opsConsumed: int, totalOps: int,
    tick: int -> Tick, inventory: int -> int, maxInventory: int -> int, dprLow: int -> int, dprHigh: int -> int)

  function Initialised(s: SymState): SymState {
    s.(tickSize := if s.tickSize <= 0 then 1 else s.tickSize, lotSize := if s.lotSize <= 0 then 1 else s.lotSize)
  }

  function KeyFor(s: SymState, side: Side): SlotKey { SlotKey(s.id, side, 0) }

  /** QuoteSide: one sendOrder with the tick as minimum price change. */
  function QuoteSide(p: Platform, s: SymState, side: Side, price: int, qty: int): (Platform, bool) {
    Send(p, Quote(s.id, price, qty, side, 0, s.tickSize), false)
  }

  /** CancelSide: a zero quote, only if an order is standing. */
  function CancelSide(p: Platform, s: SymState, side: Side): Platform {
    if !Standing(p, KeyFor(s, side)) then p else Send(p, Quote(s.id, 0, 0, side, 0, 0), false).0
  }

  function CancelBoth(p: Platform, s: SymState): Platform { CancelSide(CancelSide(p, s, Buy), s, Sell) }

  function CancelAll(p: Platform, syms: seq<SymState>): Platform {
    if syms == [] then p else CancelBoth(CancelAll(p, syms[..|syms| - 1]), syms[|syms| - 1])
  }

  function IstSecondsOfDay(md: Inputs): nat { (md.seconds + 19800) % 86400 }

  /** Below 80 per cent of the message budget. */
  predicate OpsOk(md: Inputs) { md.totalOps <= 0 || md.opsConsumed < md.totalOps * 4 / 5 }

  /**
   The threshold is the product with the double nearest to 0.8, cut to an int. That double lies
   just above 0.8 and, for a 32-bit total, the rounded product is within a tenth of the exact four
   fifths; where these are an integer it is not below them, as rounding keeps order. The cut is then
   four fifths rounded down.
   */
  lemma HeadroomIsFourFifths(totalOps: int, product: real)
    requires 0 <= totalOps < TWO_TO_THE_31 && -0.1 <= product - totalOps as real * 4.0 / 5.0 <= 0.1
    requires totalOps % 5 == 0 ==> product >= totalOps as real * 4.0 / 5.0
    ensures product.Floor == totalOps * 4 / 5
  {
    var q, r := totalOps * 4 / 5, totalOps * 4 % 5;
    assert totalOps as real * 4.0 == (q * 5 + r) as real;
    assert totalOps as real * 4.0 / 5.0 == q as real + r as real / 5.0;
    assert r == 0 ==> totalOps % 5 == 0;
  }

  function MaxPosition(md: Inputs, s: SymState): int { md.maxInventory(s.id) * s.lotSize }

  /** The quotes that the shared arithmetic asks for, before they are narrowed to 32 bits. */
  function Desired(tun: Tunables, md: Inputs, s: SymState): Quotes {
    var t := md.tick(s.id);
    DesiredQuotes(t.bid, t.ask, s.tickSize, t.bidSize, t.askSize, md.inventory(s.id), MaxPosition(md, s),
                  tun.invSkewTicks, tun.flowSkewTicks)
  }

  function Narrowed(q: Quotes): Quotes { Quotes(ToInt32(q.bid), ToInt32(q.ask)) }

  /** The two quotes of a symbol after skew, narrowing, snap, position and reject gates. */
  function Wanted(tun: Tunables, md: Inputs, s: SymState): SnappedQuotes
    requires s.tickSize > 0
  {
    var position, maxPos := md.inventory(s.id), MaxPosition(md, s);
    var snapped := SnapQuotes(Narrowed(Desired(tun, md, s)), md.dprLow(s.id), md.dprHigh(s.id), s.tickSize);
    snapped.(bidOk := snapped.bidOk && !(maxPos > 0 && position >= maxPos) && s.rejectsBuy < MAX_REJECTS,
             askOk := snapped.askOk && !(maxPos > 0 && position <= -maxPos) && s.rejectsSell < MAX_REJECTS)
  }

  predicate NoTouch(md: Inputs, s: SymState) { md.tick(s.id).bidSize <= 0 || md.tick(s.id).askSize <= 0 }

  predicate TooWide(tun: Tunables, md: Inputs, s: SymState) {
    md.tick(s.id).ask - md.tick(s.id).bid > tun.maxSpreadTicks * s.tickSize
  }

  /** One side of a symbol: quote it, cancel it, or leave it while the message budget is tight. */
  function WorkSide(p: Platform, s: SymState, side: Side, ok: bool, price: int, qty: int, opsOk: bool)
    : (Platform, SymState)
  {
    if ok && opsOk then
      var (p', sent) := QuoteSide(p, s, side, price, qty);
      (p', if !sent then s else if side == Buy then s.(lastBidQuote := price) else s.(lastAskQuote := price))
    else if !ok then (CancelSide(p, s, side), if side == Buy then s.(lastBidQuote := 0) else s.(lastAskQuote := 0))
    else (p, s)
  }

  /** The body of the symbol loop. */
  function WorkSymbol(tun: Tunables, md: Inputs, p: Platform, s: SymState): (Platform, SymState)
    requires s.tickSize > 0
  {
    if NoTouch(md, s) then (CancelBoth(p, s), s)
    else
      var t := md.tick(s.id);
      var s1 := s.(lastMid := TruncDiv(t.bid + t.ask, 2));
      if TooWide(tun, md, s1) then (CancelBoth(p, s1), s1)
      else
        var w, qty := Wanted(tun, md, s1), tun.quoteLots * s1.lotSize;
        var (p2, s2) := WorkSide(p, s1, Buy, w.bidOk, w.bid, qty, OpsOk(md));
        WorkSide(p2, s2, Sell, w.askOk, w.ask, qty, OpsOk(md))
  }

  predicate TicksPositive(syms: seq<SymState>) { forall i :: 0 <= i < |syms| ==> syms[i].tickSize > 0 }

  function WorkAll(tun: Tunables, md: Inputs, p: Platform, syms: seq<SymState>): (r: (Platform, seq<SymState>))
    requires TicksPositive(syms)
    ensures |r.1| == |syms|
    ensures forall i :: 0 <= i < |syms| ==> r.1[i].id == syms[i].id && r.1[i].tickSize == syms[i].tickSize
  {
    if syms == [] then (p, []) else
      var (p1, done) := WorkAll(tun, md, p, syms[..|syms| - 1]);
      var (p2, s) := WorkSymbol(tun, md, p1, syms[|syms| - 1]);
      (p2, done + [s])
  }

  lemma {:induction false} WorkAllSnoc(tun: Tunables, md: Inputs, p: Platform, syms: seq<SymState>, i: nat)
    requires TicksPositive(syms) && i < |syms|
    ensures var (p1, done) := WorkAll(tun, md, p, syms[..i]);
      var (p2, s) := WorkSymbol(tun, md, p1, syms[i]);
      WorkAll(tun, md, p, syms[..i + 1]) == (p2, done + [s])
  {
    assert syms[..i + 1][..i] == syms[..i];
  }

  /** The callback only sweeps: the kill switch is set, or the pre-close time has come. */
  predicate Sweeps(tun: Tunables, md: Inputs) { tun.killed || IstSecondsOfDay(md) >= tun.precloseSod }

  /** onMarketData. */
  function OnMarketData(tun: Tunables, md: Inputs, p: Platform, syms: seq<SymState>): (r: (Platform, seq<SymState>))
    requires TicksPositive(syms)
    ensures |r.1| == |syms|
    ensures forall i :: 0 <= i < |syms| ==> r.1[i].id == syms[i].id && r.1[i].tickSize == syms[i].tickSize
  {
    if !md.running then (p, syms)
    else if Sweeps(tun, md) then (CancelAll(p, syms), syms)
    else WorkAll(tun, md, p, syms)
  }

  // ----- The strategy as the source keeps it -----

  class Strategy {
    const impl: ConnectImpl
    const syms: array<SymState>
    var tun: Tunables

    ghost predicate Valid()
      reads this, syms
    {
      TicksPositive(syms[..])
    }

    /** initialize: a tick or lot size that is not positive is replaced by 1. */
    constructor (impl: ConnectImpl, initial: seq<SymState>, tun: Tunables)
      ensures Valid() && this.impl == impl && fresh(syms) && this.tun == tun && syms.Length == |initial|
      ensures forall i :: 0 <= i < |initial| ==>
        var s, given := syms[i], initial[i];
        && s == given.(tickSize := s.tickSize, lotSize := s.lotSize)
        && s.tickSize == (if given.tickSize > 0 then given.tickSize else 1)
        && s.lotSize == if given.lotSize > 0 then given.lotSize else 1
    {
      this.impl := impl;
      this.tun := tun;
      syms := new SymState[|initial|](i requires 0 <= i < |initial| => Initialised(initial[i]));
    }

    method DoCancelSide(s: SymState, side: Side)
      modifies impl
      ensures impl.Abstract() == CancelSide(old(impl.Abstract()), s, side)
    {
      var standing := impl.GetStandingOrder(KeyFor(s, side));
      if !standing {
        return;
      }
      var _ := impl.SendOrder(Quote(s.id, 0, 0, side, 0, 0), false);
    }

    method DoCancelAll()
      modifies impl
      ensures impl.Abstract() == CancelAll(old(impl.Abstract()), syms[..])
    {
      for i := 0 to syms.Length
        invariant impl.Abstract() == CancelAll(old(impl.Abstract()), syms[..i])
      {
        assert syms[..i + 1][..i] == syms[..i];
        DoCancelSide(syms[i], Buy);
        DoCancelSide(syms[i], Sell);
      }
      assert syms[..] == syms[..syms.Length];
    }

    method DoWorkSide(s: SymState, side: Side, ok: bool, price: int, qty: int, opsOk: bool) returns (r: SymState)
      modifies impl
      ensures (impl.Abstract(), r) == WorkSide(old(impl.Abstract()), s, side, ok, price, qty, opsOk)
    {
      r := s;
      if ok && opsOk {
        var sent := impl.SendOrder(Quote(s.id, price, qty, side, 0, s.tickSize), false);
        if sent {
          r := if side == Buy then s.(lastBidQuote := price) else s.(lastAskQuote := price);
        }
      } else if !ok {
        DoCancelSide(s, side);
        r := if side == Buy then s.(lastBidQuote := 0) else s.(lastAskQuote := 0);
      }
    }

    method DoWorkSymbol(md: Inputs, s: SymState) returns (r: SymState)
      requires s.tickSize > 0
      modifies impl
      ensures (impl.Abstract(), r) == WorkSymbol(tun, md, old(impl.Abstract()), s)
    {
      r := s;
      if NoTouch(md, s) {
        DoCancelSide(s, Buy);
        DoCancelSide(s, Sell);
        return;
      }
      var t := md.tick(s.id);
      r := s.(lastMid := TruncDiv(t.bid + t.ask, 2));
      if TooWide(tun, md, r) {
        DoCancelSide(r, Buy);
        DoCancelSide(r, Sell);
        return;
      }
      var w, qty := Wanted(tun, md, r), tun.quoteLots * r.lotSize;
      r := DoWorkSide(r, Buy, w.bidOk, w.bid, qty, OpsOk(md));
      r := DoWorkSide(r, Sell, w.askOk, w.ask, qty, OpsOk(md));
    }

    method DoOnMarketData(md: Inputs)
      requires Valid()
      modifies impl, syms
      ensures Valid()
      ensures (impl.Abstract(), syms[..]) == OnMarketData(tun, md, old(impl.Abstract()), old(syms[..]))
    {
      if !md.running {
        return;
      }
      if tun.killed || IstSecondsOfDay(md) >= tun.precloseSod {
        DoCancelAll();
        return;
      }
      ghost var was, done, start := syms[..], [], impl.Abstract();
      for i := 0 to syms.Length
        invariant TicksPositive(was) && |done| == i
        invariant (impl.Abstract(), done) == WorkAll(tun, md, start, was[..i])
        invariant forall j :: 0 <= j < syms.Length ==> syms[j] == if j < i then done[j] else was[j]
      {
        WorkAllSnoc(tun, md, start, was, i);
        var s := DoWorkSymbol(md, syms[i]);
        syms[i] := s;
        done := done + [s];
      }
      assert was == was[..syms.Length] && syms[..] == done;
    }
  }
}
