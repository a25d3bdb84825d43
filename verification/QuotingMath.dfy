/** The shared quoting arithmetic: skews, desired quotes and the snap into the price range. */
module QuotingMath {
  import opened Types
  import opened Arithmetic

  /** Conversion of a 64-bit value to a 32-bit int. */
  function ToInt32(x: int): (r: int)
    ensures -TWO_TO_THE_31 <= r < TWO_TO_THE_31
    ensures -TWO_TO_THE_31 <= x < TWO_TO_THE_31 ==> r == x
  {
    (x + TWO_TO_THE_31) % TWO_TO_THE_32 - TWO_TO_THE_31
  }

  function ClampTicks(v: int, lim: int): int {
    if v > lim then lim else if v < -lim then -lim else v
  }

  function InventorySkewTicks(position: int, maxPosition: int, maxSkew: int): int {
    if maxSkew <= 0 || maxPosition <= 0 then 0
    else ClampTicks(ToInt32(TruncDiv(position * maxSkew, maxPosition)), maxSkew)
  }

  function FlowSkewTicks(bidQty: int, askQty: int, maxSkew: int): int {
    if maxSkew <= 0 || bidQty + askQty <= 0 then 0
    else ClampTicks(ToInt32(TruncDiv((bidQty - askQty) * maxSkew, bidQty + askQty)), maxSkew)
  }

  datatype Quotes = Quotes(bid: int, ask: int)

  /** One tick outside the touch on each side, shifted by the flow skew less the inventory skew. */
  function DesiredQuotes(bestBid: int, bestAsk: int, tick: int, bidQty: int, askQty: int,
                         position: int, maxPosition: int, maxInvSkew: int, maxFlowSkew: int): (q: Quotes)
    ensures q.ask - q.bid == bestAsk - bestBid + 2 * tick
    ensures maxInvSkew <= 0 && maxFlowSkew <= 0 ==> q == Quotes(bestBid - tick, bestAsk + tick)
  {
    var inv := InventorySkewTicks(position, maxPosition, maxInvSkew);
    var flow := FlowSkewTicks(bidQty, askQty, maxFlowSkew);
    var shift := (flow - inv) * tick;
    Quotes(bestBid - tick + shift, bestAsk + tick + shift)
  }

  /** The limit of a skew is a positive 32-bit int. */
  predicate IsLimit(maxSkew: int) { 0 < maxSkew < TWO_TO_THE_31 }

  // ----- Inventory skew -----

  /** Both skews stay within their limit, whatever the inputs. */
  lemma SkewsAreBounded(a: int, b: int, maxSkew: int)
    requires maxSkew >= 0
    ensures -maxSkew <= InventorySkewTicks(a, b, maxSkew) <= maxSkew
    ensures -maxSkew <= FlowSkewTicks(a, b, maxSkew) <= maxSkew
  {
  }

  lemma ToInt32Is(x: int, k: int, r: int)
    requires x == TWO_TO_THE_32 * k + r && -TWO_TO_THE_31 <= r < TWO_TO_THE_31
    ensures ToInt32(x) == r
  {
    DivModUnique(x + TWO_TO_THE_31, TWO_TO_THE_32, k, r + TWO_TO_THE_31);
  }

  /** Clamping the converted negation negates, except for the one int that has no negation. */
  lemma ClampOdd(q: int, lim: int)
    requires IsLimit(lim)
    ensures ClampTicks(ToInt32(-q), lim) == -ClampTicks(ToInt32(q), lim) <==> q % TWO_TO_THE_32 != TWO_TO_THE_31
  {
    var k, r := q / TWO_TO_THE_32, q % TWO_TO_THE_32;
    assert q == TWO_TO_THE_32 * k + r;
    if r < TWO_TO_THE_31 {
      ToInt32Is(q, k, r);
      ToInt32Is(-q, -k, -r);
    } else {
      ToInt32Is(q, k + 1, r - TWO_TO_THE_32);
      if r == TWO_TO_THE_31 {
        ToInt32Is(-q, -k, -TWO_TO_THE_31);
      } else {
        ToInt32Is(-q, -k - 1, TWO_TO_THE_32 - r);
      }
    }
  }

  lemma InventorySkewIsOdd(position: int, maxPosition: int, maxSkew: int)
    requires IsLimit(maxSkew) && maxPosition > 0
    ensures InventorySkewTicks(-position, maxPosition, maxSkew) == -InventorySkewTicks(position, maxPosition, maxSkew)
      <==> TruncDiv(position * maxSkew, maxPosition) % TWO_TO_THE_32 != TWO_TO_THE_31
  {
    var x := position * maxSkew;
    assert (-position) * maxSkew == -x;
    TruncDivOdd(x, maxPosition);
    ClampOdd(TruncDiv(x, maxPosition), maxSkew);
  }

  /** A quotient of 2^31 has the same skew for a long and a short position. */
  lemma SkewNotOddAtOverflow()
    ensures InventorySkewTicks(TWO_TO_THE_31, 1, 1) == -1 == InventorySkewTicks(-TWO_TO_THE_31, 1, 1)
  {
    TruncDivExact(TWO_TO_THE_31, 1);
    TruncDivOdd(TWO_TO_THE_31, 1);
  }

  /** The quotient of a position within +-p fits in 32 bits when that of p does. */
  predicate FitsUpTo(p: int, maxPosition: int, maxSkew: int) { p * maxSkew < TWO_TO_THE_31 * maxPosition }

  lemma QuotientFits(position: int, p: int, maxPosition: int, maxSkew: int)
    requires IsLimit(maxSkew) && maxPosition > 0 && FitsUpTo(p, maxPosition, maxSkew) && -p <= position <= p
    ensures -TWO_TO_THE_31 < TruncDiv(position * maxSkew, maxPosition) < TWO_TO_THE_31
  {
    var x, q := position * maxSkew, TruncDiv(position * maxSkew, maxPosition);
    TruncDivBounds(x, maxPosition);
    MulMono(position, p, maxSkew);
    MulMono(-position, p, maxSkew);
    assert (-position) * maxSkew == -x && (-q) * maxPosition == -(q * maxPosition);
    if x >= 0 {
      CancelFactor(q, TWO_TO_THE_31, maxPosition);
    } else {
      CancelFactor(-q, TWO_TO_THE_31, maxPosition);
    }
  }

  lemma InventorySkewMonotone(a: int, b: int, p: int, maxPosition: int, maxSkew: int)
    requires IsLimit(maxSkew) && maxPosition > 0 && FitsUpTo(p, maxPosition, maxSkew) && -p <= a <= b <= p
    ensures InventorySkewTicks(a, maxPosition, maxSkew) <= InventorySkewTicks(b, maxPosition, maxSkew)
  {
    QuotientFits(a, p, maxPosition, maxSkew);
    QuotientFits(b, p, maxPosition, maxSkew);
    MulMono(a, b, maxSkew);
    MulMono(a * maxSkew, b * maxSkew, maxPosition);
    TruncDivMonotone(a * maxSkew, maxPosition, b * maxSkew, maxPosition);
  }

  ghost predicate MonotoneUpTo(p: int, maxPosition: int, maxSkew: int) {
    forall a: int, b: int :: -p <= a <= b <= p ==>
      InventorySkewTicks(a, maxPosition, maxSkew) <= InventorySkewTicks(b, maxPosition, maxSkew)
  }

  /** The least position whose quotient leaves 32 bits. */
  lemma FirstOverflow(maxPosition: int, maxSkew: int) returns (p: int)
    requires IsLimit(maxSkew) && maxPosition > 0
    ensures 0 < p && !FitsUpTo(p, maxPosition, maxSkew) && FitsUpTo(p - 1, maxPosition, maxSkew)
  {
    var bound := TWO_TO_THE_31 * maxPosition;
    FloorBounds(bound - 1, maxSkew);
    var f := (bound - 1) / maxSkew;
    assert (f + 1) * maxSkew == f * maxSkew + maxSkew;
    p := f + 1;
  }

  /** The first position past 32 bits is quoted as if it were short. */
  lemma OverflowFlipsSkew(p: int, maxPosition: int, maxSkew: int)
    requires IsLimit(maxSkew) && maxPosition > 0
    requires 0 < p && !FitsUpTo(p, maxPosition, maxSkew) && FitsUpTo(p - 1, maxPosition, maxSkew)
    ensures InventorySkewTicks(p, maxPosition, maxSkew) < 0
  {
    var x := p * maxSkew;
    var q := TruncDiv(x, maxPosition);
    MulMono(0, p, maxSkew);
    TruncDivBounds(x, maxPosition);
    assert (q + 1) * maxPosition == q * maxPosition + maxPosition;
    CancelFactor(TWO_TO_THE_31, q + 1, maxPosition);
    assert (p - 1) * maxSkew == x - maxSkew;
    MulMono(1, maxPosition, maxSkew);
    MulMono(maxSkew, TWO_TO_THE_31 - 1, maxPosition);
    assert x < (TWO_TO_THE_32 - 1) * maxPosition;
    CancelFactor(q, TWO_TO_THE_32 - 1, maxPosition);
    assert ToInt32(q) == q - TWO_TO_THE_32;
  }

  /** The inventory skew is monotone over the positions within +-p exactly when the largest quotient fits in 32 bits. */
  lemma InventorySkewMonotoneIff(p: int, maxPosition: int, maxSkew: int)
    requires IsLimit(maxSkew) && maxPosition > 0 && p >= 0
    ensures MonotoneUpTo(p, maxPosition, maxSkew) <==> FitsUpTo(p, maxPosition, maxSkew)
  {
    if FitsUpTo(p, maxPosition, maxSkew) {
      forall a: int, b: int | -p <= a <= b <= p
        ensures InventorySkewTicks(a, maxPosition, maxSkew) <= InventorySkewTicks(b, maxPosition, maxSkew)
      {
        InventorySkewMonotone(a, b, p, maxPosition, maxSkew);
      }
    } else {
      var first := FirstOverflow(maxPosition, maxSkew);
      OverflowFlipsSkew(first, maxPosition, maxSkew);
      CancelFactor(first - 1, p, maxSkew);
      assert InventorySkewTicks(0, maxPosition, maxSkew) == 0;
    }
  }

  // ----- Flow skew -----

  lemma FlowQuotientBounded(bidQty: nat, askQty: nat, maxSkew: int)
    requires IsLimit(maxSkew) && bidQty + askQty > 0
    ensures FlowSkewTicks(bidQty, askQty, maxSkew) == TruncDiv((bidQty - askQty) * maxSkew, bidQty + askQty)
  {
    var x, d, top := (bidQty - askQty) * maxSkew, bidQty + askQty, maxSkew * (bidQty + askQty);
    MulMono(bidQty - askQty, d, maxSkew);
    MulMono(askQty - bidQty, d, maxSkew);
    assert (askQty - bidQty) * maxSkew == -x;
    MulMono(x, top, d);
    MulMono(-top, x, d);
    TruncDivMonotone(x, d, top, d);
    TruncDivMonotone(-top, d, x, d);
    TruncDivExact(maxSkew, d);
    TruncDivOdd(top, d);
  }

  lemma FlowSwap(b: nat, a: nat, maxSkew: int)
    requires IsLimit(maxSkew) && a + b > 0
    ensures FlowSkewTicks(a, b, maxSkew) == -FlowSkewTicks(b, a, maxSkew)
  {
    FlowQuotientBounded(b, a, maxSkew);
    FlowQuotientBounded(a, b, maxSkew);
    assert (a - b) * maxSkew == -((b - a) * maxSkew);
    TruncDivOdd((b - a) * maxSkew, a + b);
  }

  lemma ImbalanceGrows(b1: nat, b2: nat, a: nat)
    requires b1 <= b2
    ensures (b1 - a) * (b2 + a) <= (b2 - a) * (b1 + a)
  {
    assert (b1 - a) * (b2 + a) == b1 * b2 + b1 * a - a * b2 - a * a;
    assert (b2 - a) * (b1 + a) == b1 * b2 + a * b2 - b1 * a - a * a;
    MulMono(b1, b2, a);
  }

  lemma FlowSkewRisesWithBids(b1: nat, b2: nat, a: nat, maxSkew: int)
    requires IsLimit(maxSkew) && b1 <= b2
    ensures FlowSkewTicks(b1, a, maxSkew) <= FlowSkewTicks(b2, a, maxSkew)
  {
    if b1 + a > 0 {
      FlowQuotientBounded(b1, a, maxSkew);
      FlowQuotientBounded(b2, a, maxSkew);
      ImbalanceGrows(b1, b2, a);
      var x1, x2 := (b1 - a) * maxSkew, (b2 - a) * maxSkew;
      MulMono((b1 - a) * (b2 + a), (b2 - a) * (b1 + a), maxSkew);
      SwapFactors(b1 - a, b2 + a, maxSkew);
      SwapFactors(b2 - a, b1 + a, maxSkew);
      TruncDivMonotone(x1, b1 + a, x2, b2 + a);
    } else if b2 > 0 {
      FlowQuotientBounded(b2, 0, maxSkew);
      TruncDivExact(maxSkew, b2);
    }
  }

  lemma SwapFactors(a: int, b: int, c: int)
    ensures (a * b) * c == (a * c) * b
  {
  }

  /** The flow skew is odd in the imbalance, rises with the bid and falls with the ask quantity. */
  lemma FlowSkewOddAndMonotone(b1: nat, b2: nat, a: nat, maxSkew: int)
    requires IsLimit(maxSkew) && b1 <= b2
    ensures FlowSkewTicks(a, b1, maxSkew) == -FlowSkewTicks(b1, a, maxSkew)
    ensures FlowSkewTicks(b1, a, maxSkew) <= FlowSkewTicks(b2, a, maxSkew)
    ensures FlowSkewTicks(a, b1, maxSkew) >= FlowSkewTicks(a, b2, maxSkew)
  {
    if b1 + a > 0 {
      FlowSwap(b1, a, maxSkew);
    }
    if b2 + a > 0 {
      FlowSwap(b2, a, maxSkew);
    }
    FlowSkewRisesWithBids(b1, b2, a, maxSkew);
  }

  // ----- Snapping into the daily price range -----

  predicate OnGrid(p: int, tick: int)
    requires tick > 0
  {
    p % tick == 0
  }

  function SnapUp(lo: int, tick: int): int
    requires tick > 0
  {
    TruncDiv(lo + tick - 1, tick) * tick
  }

  function SnapDown(hi: int, tick: int): int
    requires tick > 0
  {
    TruncDiv(hi, tick) * tick
  }

  datatype SnappedQuotes = SnappedQuotes(bid: int, bidOk: bool, ask: int, askOk: bool)

  /** The DPR clamp: snap each side into [lo, hi] and drop a side that cannot be inside. */
  function SnapQuotes(q: Quotes, lo: int, hi: int, tick: int): SnappedQuotes
    requires tick > 0
  {
    if hi > 0 && hi > lo then
      var bid := if q.bid < lo then SnapUp(lo, tick) else q.bid;
      var ask := if q.ask > hi then SnapDown(hi, tick) else q.ask;
      SnappedQuotes(bid, bid <= hi, ask, ask >= lo)
    else SnappedQuotes(q.bid, true, q.ask, true)
  }

  lemma MultipleOnGrid(k: int, tick: int)
    requires tick > 0
    ensures OnGrid(k * tick, tick)
  {
    var p := k * tick;
    assert p == tick * (p / tick) + p % tick;
    var j := k - p / tick;
    assert j * tick == p % tick;
    if j >= 1 {
      MulMono(1, j, tick);
    } else if j <= -1 {
      MulMono(j, -1, tick);
    }
  }

  lemma GridIsMultiples(p: int, tick: int) returns (k: int)
    requires tick > 0 && OnGrid(p, tick)
    ensures p == k * tick
  {
    k := p / tick;
    assert p == tick * (p / tick) + p % tick;
  }

  lemma SnapBounds(x: int, tick: int)
    requires tick > 0
    ensures SnapUp(x, tick) >= x && OnGrid(SnapUp(x, tick), tick)
    ensures x >= 0 ==> SnapDown(x, tick) <= x
    ensures OnGrid(SnapDown(x, tick), tick)
  {
    TruncDivBounds(x + tick - 1, tick);
    TruncDivBounds(x, tick);
    MultipleOnGrid(TruncDiv(x + tick - 1, tick), tick);
    MultipleOnGrid(TruncDiv(x, tick), tick);
  }

  /** Where rounding the low limit up really gives the next grid point: not below zero, or just above one. */
  predicate SnapUpExact(lo: int, tick: int)
    requires tick > 0
  {
    lo > -tick || (lo - 1) % tick == 0
  }

  ghost predicate IsLeastGridPoint(g: int, lo: int, tick: int)
    requires tick > 0
  {
    OnGrid(g, tick) && lo <= g && forall p: int :: OnGrid(p, tick) && lo <= p ==> g <= p
  }

  lemma SnapUpTight(lo: int, tick: int)
    requires tick > 0 && SnapUpExact(lo, tick)
    ensures SnapUp(lo, tick) - tick < lo
  {
    var n := lo + tick - 1;
    var q := TruncDiv(n, tick);
    TruncDivBounds(n, tick);
    if n < 0 {
      var k := GridIsMultiples(lo - 1, tick);
      assert n == (k + 1) * tick by { assert (k + 1) * tick == k * tick + tick; }
      assert (q - 1) * tick == q * tick - tick;
      CancelFactor(q - 1, k + 1, tick);
      MulMono(q, k + 1, tick);
    }
  }

  lemma GridPointsApart(g: int, p: int, tick: int)
    requires tick > 0 && OnGrid(g, tick) && OnGrid(p, tick) && g - tick < p
    ensures g <= p
  {
    var i := GridIsMultiples(g, tick);
    var k := GridIsMultiples(p, tick);
    assert (i - 1) * tick == i * tick - tick;
    CancelFactor(i - 1, k, tick);
    MulMono(i, k, tick);
  }

  lemma SnapUpIsLeastIfExact(lo: int, tick: int)
    requires tick > 0 && SnapUpExact(lo, tick)
    ensures IsLeastGridPoint(SnapUp(lo, tick), lo, tick)
  {
    SnapBounds(lo, tick);
    SnapUpTight(lo, tick);
    forall p: int | OnGrid(p, tick) && lo <= p
      ensures SnapUp(lo, tick) <= p
    {
      GridPointsApart(SnapUp(lo, tick), p, tick);
    }
  }

  /** Where the rounding is not exact it overshoots by a whole tick. */
  lemma SnapUpOvershoots(lo: int, tick: int)
    requires tick > 0 && !SnapUpExact(lo, tick)
    ensures var g := SnapUp(lo, tick); OnGrid(g - tick, tick) && lo <= g - tick && g <= 0 && g < lo + 2 * tick
  {
    var n := lo + tick - 1;
    var q := TruncDiv(n, tick);
    SnapBounds(lo, tick);
    TruncDivBounds(n, tick);
    MultipleOnGrid(q - 1, tick);
    assert (q - 1) * tick == q * tick - tick;
    MulMono(q, 0, tick);
    assert n == q * tick ==> lo - 1 == (q - 1) * tick;
  }

  /** Rounding the low limit up gives the least grid point at or above it exactly under the condition. */
  lemma SnapUpIsLeastIff(lo: int, tick: int)
    requires tick > 0
    ensures IsLeastGridPoint(SnapUp(lo, tick), lo, tick) <==> SnapUpExact(lo, tick)
  {
    if SnapUpExact(lo, tick) {
      SnapUpIsLeastIfExact(lo, tick);
    } else {
      SnapUpOvershoots(lo, tick);
    }
  }

  lemma SnapDownIsGreatest(hi: nat, p: int, tick: int)
    requires tick > 0 && OnGrid(p, tick) && p <= hi
    ensures p <= SnapDown(hi, tick)
  {
    SnapBounds(hi, tick);
    TruncDivBounds(hi, tick);
    GridPointsApart(p, SnapDown(hi, tick), tick);
  }

  /** Every side that is quoted is on the grid and inside the price range. */
  lemma SnappedInsideRange(q: Quotes, lo: int, hi: int, tick: int)
    requires tick > 0 && hi > 0 && hi > lo && OnGrid(q.bid, tick) && OnGrid(q.ask, tick)
    ensures var s := SnapQuotes(q, lo, hi, tick);
      && (s.bidOk ==> OnGrid(s.bid, tick) && lo <= s.bid <= hi)
      && (s.askOk ==> OnGrid(s.ask, tick) && lo <= s.ask <= hi)
  {
    SnapBounds(lo, tick);
    SnapBounds(hi, tick);
  }

  ghost predicate NeverCrosses(lo: int, hi: int, tick: int)
    requires tick > 0
  {
    forall q: Quotes :: OnGrid(q.bid, tick) && OnGrid(q.ask, tick) && q.bid + 2 * tick <= q.ask ==>
      var s := SnapQuotes(q, lo, hi, tick); s.bidOk && s.askOk ==> s.bid <= s.ask
  }

  lemma ExactSnapNeverCrosses(q: Quotes, lo: int, hi: int, tick: int)
    requires tick > 0 && hi > 0 && hi > lo && SnapUpExact(lo, tick)
    requires OnGrid(q.bid, tick) && OnGrid(q.ask, tick) && q.bid + 2 * tick <= q.ask
    ensures var s := SnapQuotes(q, lo, hi, tick); s.bidOk && s.askOk ==> s.bid <= s.ask
  {
    var s := SnapQuotes(q, lo, hi, tick);
    SnappedInsideRange(q, lo, hi, tick);
    SnapUpIsLeastIfExact(lo, tick);
    if s.bidOk && s.askOk {
      SnapDownIsGreatest(hi, s.bid, tick);
    }
  }

  /**
   Two quotes at least two ticks apart, as DesiredQuotes makes them, never cross after the snap
   exactly when rounding up is exact.
   */
  lemma NeverCrossesIff(lo: int, hi: int, tick: int)
    requires tick > 0 && hi > 0 && hi > lo
    ensures NeverCrosses(lo, hi, tick) <==> SnapUpExact(lo, tick)
  {
    if SnapUpExact(lo, tick) {
      forall q: Quotes | OnGrid(q.bid, tick) && OnGrid(q.ask, tick) && q.bid + 2 * tick <= q.ask
        ensures var s := SnapQuotes(q, lo, hi, tick); s.bidOk && s.askOk ==> s.bid <= s.ask
      {
        ExactSnapNeverCrosses(q, lo, hi, tick);
      }
    } else {
      SnapUpOvershoots(lo, tick);
      var g := SnapUp(lo, tick);
      var k := GridIsMultiples(g - tick, tick);
      assert g - 3 * tick == (k - 2) * tick;
      MultipleOnGrid(k - 2, tick);
      var crossed := Quotes(g - 3 * tick, g - tick);
      assert SnapQuotes(crossed, lo, hi, tick) == SnappedQuotes(g, true, g - tick, true);
    }
  }

  lemma ShiftBound(shift: int, most: int, tick: int)
    requires tick > 0 && -most <= shift <= most
    ensures -(most * tick) <= shift * tick <= most * tick
  {
    MulMono(shift, most, tick);
    MulMono(-most, shift, tick);
    assert (-most) * tick == -(most * tick);
  }

  /** A desired quote is no further from its side of the touch than one tick and both limits. */
  lemma DesiredNearTouch(bestBid: int, bestAsk: int, tick: int, bidQty: int, askQty: int,
                         position: int, maxPosition: int, maxInvSkew: int, maxFlowSkew: int)
    requires tick > 0 && maxInvSkew >= 0 && maxFlowSkew >= 0
    ensures var q := DesiredQuotes(bestBid, bestAsk, tick, bidQty, askQty, position, maxPosition, maxInvSkew,
      maxFlowSkew);
      var reach := (1 + maxInvSkew + maxFlowSkew) * tick;
      bestBid - reach <= q.bid <= bestBid + reach && bestAsk - reach <= q.ask <= bestAsk + reach
  {
    var inv := InventorySkewTicks(position, maxPosition, maxInvSkew);
    var flow := FlowSkewTicks(bidQty, askQty, maxFlowSkew);
    SkewsAreBounded(position, maxPosition, maxInvSkew);
    SkewsAreBounded(bidQty, askQty, maxFlowSkew);
    ShiftBound(flow - inv, maxInvSkew + maxFlowSkew, tick);
    assert (1 + maxInvSkew + maxFlowSkew) * tick == tick + (maxInvSkew + maxFlowSkew) * tick;
  }

  /** The desired quotes of an on-grid touch are on the grid, and at least two ticks apart when it is not crossed. */
  lemma DesiredOnGrid(bestBid: int, bestAsk: int, tick: int, bidQty: int, askQty: int,
                      position: int, maxPosition: int, maxInvSkew: int, maxFlowSkew: int)
    requires tick > 0 && OnGrid(bestBid, tick) && OnGrid(bestAsk, tick)
    ensures var q := DesiredQuotes(bestBid, bestAsk, tick, bidQty, askQty, position, maxPosition, maxInvSkew,
      maxFlowSkew);
      && OnGrid(q.bid, tick) && OnGrid(q.ask, tick)
      && (bestBid <= bestAsk ==> q.bid + 2 * tick <= q.ask)
  {
    var skew := FlowSkewTicks(bidQty, askQty, maxFlowSkew) - InventorySkewTicks(position, maxPosition, maxInvSkew);
    ShiftedOnGrid(bestBid, skew, tick);
    ShiftedOnGrid(bestAsk, skew, tick);
  }

  lemma ShiftedOnGrid(p: int, skew: int, tick: int)
    requires tick > 0 && OnGrid(p, tick)
    ensures OnGrid(p - tick + skew * tick, tick) && OnGrid(p + tick + skew * tick, tick)
  {
    var k := GridIsMultiples(p, tick);
    assert (k - 1 + skew) * tick == p - tick + skew * tick;
    assert (k + 1 + skew) * tick == p + tick + skew * tick;
    MultipleOnGrid(k - 1 + skew, tick);
    MultipleOnGrid(k + 1 + skew, tick);
  }
}
