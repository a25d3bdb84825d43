/**
 Which way, and how far, the desired quotes lean: against the position and with the pressure of
 the book, each in proportion to its limit and independently of the other.
 */
module QuoteLean {
  import opened Types
  import opened Arithmetic
  import opened QuotingMath

  /** A touch and the limits of the strategy; sizes and position vary around it. */
  datatype Setting = Setting(bestBid: int, bestAsk: int, tick: int, maxPosition: int, maxInvSkew: int,
      maxFlowSkew: int) {

    function Quotes(bidQty: int, askQty: int, position: int): Quotes {
      DesiredQuotes(bestBid, bestAsk, tick, bidQty, askQty, position, maxPosition, maxInvSkew, maxFlowSkew)
    }

    /** Both quotes stand this many ticks above one tick outside the touch. */
    ghost predicate LeansBy(bidQty: int, askQty: int, position: int, ticks: int) {
      Quotes(bidQty, askQty, position) == QuotingMath.Quotes(bestBid - tick + ticks * tick, bestAsk + tick + ticks * tick)
    }

    ghost predicate HasLimits() { tick > 0 && maxPosition > 0 && IsLimit(maxInvSkew) && IsLimit(maxFlowSkew) }
  }

  ghost predicate NotAbove(q: Quotes, r: Quotes) { q.bid <= r.bid && q.ask <= r.ask }

  lemma TicksOrdered(s: Setting, b1: int, a1: int, p1: int, b2: int, a2: int, p2: int, k1: int, k2: int)
    requires s.tick > 0 && s.LeansBy(b1, a1, p1, k1) && s.LeansBy(b2, a2, p2, k2)
    ensures k1 <= k2 <==> NotAbove(s.Quotes(b1, a1, p1), s.Quotes(b2, a2, p2))
  {
    MultiplesOrdered(k1, k2, s.tick);
  }

  lemma MultiplesOrdered(a: int, b: int, k: int)
    requires k > 0
    ensures a <= b <==> a * k <= b * k
  {
    if a <= b {
      MulMono(a, b, k);
    } else {
      MulMono(b + 1, a, k);
      assert (b + 1) * k == b * k + k;
    }
  }

  /** Over the positions within +-p, a longer position never quotes higher. */
  ghost predicate FallsUpTo(s: Setting, bidQty: int, askQty: int, p: int) {
    forall a: int, b: int :: -p <= a <= b <= p ==> NotAbove(s.Quotes(bidQty, askQty, b), s.Quotes(bidQty, askQty, a))
  }

  lemma LeanOf(s: Setting, bidQty: int, askQty: int, position: int)
    ensures s.LeansBy(bidQty, askQty, position,
      FlowSkewTicks(bidQty, askQty, s.maxFlowSkew) - InventorySkewTicks(position, s.maxPosition, s.maxInvSkew))
  {
  }

  lemma PositionsOrdered(s: Setting, bidQty: int, askQty: int, a: int, b: int)
    requires s.tick > 0
    ensures NotAbove(s.Quotes(bidQty, askQty, b), s.Quotes(bidQty, askQty, a)) <==>
      InventorySkewTicks(a, s.maxPosition, s.maxInvSkew) <= InventorySkewTicks(b, s.maxPosition, s.maxInvSkew)
  {
    var flow := FlowSkewTicks(bidQty, askQty, s.maxFlowSkew);
    LeanOf(s, bidQty, askQty, a);
    LeanOf(s, bidQty, askQty, b);
    TicksOrdered(s, bidQty, askQty, b, bidQty, askQty, a,
      flow - InventorySkewTicks(b, s.maxPosition, s.maxInvSkew), flow - InventorySkewTicks(a, s.maxPosition, s.maxInvSkew));
  }

  /** The quotes fall as the position grows, over the positions within +-p, exactly while the quotient fits in 32 bits. */
  lemma QuotesFallWithPositionIff(s: Setting, bidQty: int, askQty: int, p: int)
    requires s.HasLimits() && p >= 0
    ensures FallsUpTo(s, bidQty, askQty, p) <==> FitsUpTo(p, s.maxPosition, s.maxInvSkew)
  {
    InventorySkewMonotoneIff(p, s.maxPosition, s.maxInvSkew);
    forall a: int, b: int | -p <= a <= b <= p
      ensures NotAbove(s.Quotes(bidQty, askQty, b), s.Quotes(bidQty, askQty, a)) <==>
        InventorySkewTicks(a, s.maxPosition, s.maxInvSkew) <= InventorySkewTicks(b, s.maxPosition, s.maxInvSkew)
    {
      PositionsOrdered(s, bidQty, askQty, a, b);
    }
  }

  /** More on the bid never lowers the quotes, more on the ask never raises them. */
  lemma QuotesFollowPressure(s: Setting, less: nat, more: nat, other: nat, position: int)
    requires s.HasLimits() && less <= more
    ensures NotAbove(s.Quotes(less, other, position), s.Quotes(more, other, position))
    ensures NotAbove(s.Quotes(other, more, position), s.Quotes(other, less, position))
  {
    var inv := InventorySkewTicks(position, s.maxPosition, s.maxInvSkew);
    FlowSkewOddAndMonotone(less, more, other, s.maxFlowSkew);
    LeanOf(s, less, other, position);
    LeanOf(s, more, other, position);
    LeanOf(s, other, less, position);
    LeanOf(s, other, more, position);
    TicksOrdered(s, less, other, position, more, other, position, FlowSkewTicks(less, other, s.maxFlowSkew) - inv,
      FlowSkewTicks(more, other, s.maxFlowSkew) - inv);
    TicksOrdered(s, other, more, position, other, less, position, FlowSkewTicks(other, more, s.maxFlowSkew) - inv,
      FlowSkewTicks(other, less, s.maxFlowSkew) - inv);
  }

  /** Flat, with equal sizes, the quotes stand one tick outside the touch on each side. */
  lemma NeutralQuotes(s: Setting, qty: int)
    ensures s.Quotes(qty, qty, 0) == Quotes(s.bestBid - s.tick, s.bestAsk + s.tick)
  {
    LeanOf(s, qty, qty, 0);
    assert s.maxInvSkew > 0 && s.maxPosition > 0 ==> TruncDiv(0 * s.maxInvSkew, s.maxPosition) == 0;
    assert s.maxFlowSkew > 0 && qty + qty > 0 ==> TruncDiv((qty - qty) * s.maxFlowSkew, qty + qty) == 0;
  }

  /** `k` of `whole` is `part` of `limit`, rounded toward zero. */
  predicate InProportion(k: int, part: int, whole: int, limit: int) {
    if part >= 0 then k >= 0 && k * whole <= part * limit < k * whole + whole
    else k <= 0 && k * whole - whole < part * limit <= k * whole
  }

  lemma SkewInProportion(position: int, maxPosition: int, maxSkew: int)
    requires IsLimit(maxSkew) && maxPosition > 0 && -maxPosition <= position <= maxPosition
    ensures InProportion(InventorySkewTicks(position, maxPosition, maxSkew), position, maxPosition, maxSkew)
  {
    var x := position * maxSkew;
    var q := TruncDiv(x, maxPosition);
    assert maxPosition * maxSkew < TWO_TO_THE_31 * maxPosition by {
      MulMono(maxSkew + 1, TWO_TO_THE_31, maxPosition);
      assert (maxSkew + 1) * maxPosition == maxSkew * maxPosition + maxPosition;
    }
    QuotientFits(position, maxPosition, maxPosition, maxSkew);
    TruncDivBounds(x, maxPosition);
    MulMono(position, maxPosition, maxSkew);
    MulMono(-maxPosition, position, maxSkew);
    assert (-maxPosition) * maxSkew == -(maxPosition * maxSkew);
    if position >= 0 {
      MulMono(0, position, maxSkew);
      assert (maxSkew + 1) * maxPosition == maxSkew * maxPosition + maxPosition;
      CancelFactor(q, maxSkew + 1, maxPosition);
    } else {
      MulMono(position, -1, maxSkew);
      assert (-maxSkew - 1) * maxPosition == -(maxSkew * maxPosition) - maxPosition;
      CancelFactor(-maxSkew - 1, q, maxPosition);
    }
  }

  /**
   With no pressure either way, a position of some part of the maximum moves both quotes down by
   that part of the limit, in whole ticks rounded toward zero; a short position moves them up.
   */
  lemma LeansAgainstPosition(s: Setting, qty: int, position: int) returns (k: int)
    requires s.HasLimits() && -s.maxPosition <= position <= s.maxPosition
    ensures s.LeansBy(qty, qty, position, -k) && InProportion(k, position, s.maxPosition, s.maxInvSkew)
    ensures position == s.maxPosition ==> k == s.maxInvSkew
    ensures position == -s.maxPosition ==> k == -s.maxInvSkew
  {
    k := InventorySkewTicks(position, s.maxPosition, s.maxInvSkew);
    LeanOf(s, qty, qty, position);
    NoPressure(qty, s.maxFlowSkew);
    SkewInProportion(position, s.maxPosition, s.maxInvSkew);
    WholeProportion(k, s.maxPosition, s.maxInvSkew);
  }

  /** The whole is given the whole limit. */
  lemma WholeProportion(k: int, whole: int, limit: int)
    requires whole > 0
    ensures InProportion(k, whole, whole, limit) ==> k == limit
    ensures InProportion(k, -whole, whole, limit) ==> k == -limit
  {
    assert (k + 1) * whole == k * whole + whole && (k - 1) * whole == k * whole - whole;
    assert (-whole) * limit == (-limit) * whole && whole * limit == limit * whole;
    if InProportion(k, whole, whole, limit) {
      CancelFactor(limit, k + 1, whole);
      MultiplesOrdered(k, limit, whole);
    }
    if InProportion(k, -whole, whole, limit) {
      CancelFactor(k - 1, -limit, whole);
      MultiplesOrdered(-limit, k, whole);
    }
  }

  lemma NoPressure(qty: int, maxSkew: int)
    ensures FlowSkewTicks(qty, qty, maxSkew) == 0
  {
    assert (qty - qty) * maxSkew == 0;
  }

  /**
   Flat, an excess on the bid moves both quotes up by its part of the whole touch times the limit,
   in whole ticks rounded toward zero; an excess on the ask moves them down.
   */
  lemma LeansWithPressure(s: Setting, bidQty: nat, askQty: nat) returns (k: int)
    requires s.HasLimits() && bidQty + askQty > 0
    ensures s.LeansBy(bidQty, askQty, 0, k) && InProportion(k, bidQty - askQty, bidQty + askQty, s.maxFlowSkew)
  {
    k := FlowSkewTicks(bidQty, askQty, s.maxFlowSkew);
    var x := (bidQty - askQty) * s.maxFlowSkew;
    LeanOf(s, bidQty, askQty, 0);
    FlowQuotientBounded(bidQty, askQty, s.maxFlowSkew);
    TruncDivBounds(x, bidQty + askQty);
    if bidQty >= askQty {
      MulMono(0, bidQty - askQty, s.maxFlowSkew);
    } else {
      MulMono(bidQty - askQty, -1, s.maxFlowSkew);
    }
  }

  /** The two leans add up: pressure and position together move the quotes by what each moves them alone. */
  lemma LeansAdd(s: Setting, bidQty: int, askQty: int, position: int, up: int, down: int)
    requires s.tick > 0 && s.LeansBy(bidQty, askQty, 0, up) && s.LeansBy(0, 0, position, down)
    ensures s.LeansBy(bidQty, askQty, position, up + down)
  {
    LeanOf(s, bidQty, askQty, 0);
    LeanOf(s, 0, 0, position);
    LeanOf(s, bidQty, askQty, position);
    NeutralQuotes(s, 0);
    NoPressure(0, s.maxFlowSkew);
    var flow := FlowSkewTicks(bidQty, askQty, s.maxFlowSkew);
    var inv := InventorySkewTicks(position, s.maxPosition, s.maxInvSkew);
    MultiplesOrdered(up, flow, s.tick);
    MultiplesOrdered(flow, up, s.tick);
    MultiplesOrdered(down, -inv, s.tick);
    MultiplesOrdered(-inv, down, s.tick);
  }

  /** The sign of the inventory skew is that of the position. */
  lemma InventorySign(position: int, maxPosition: int, maxSkew: int)
    requires maxSkew < TWO_TO_THE_31 && -maxPosition <= position <= maxPosition
    ensures var k := InventorySkewTicks(position, maxPosition, maxSkew);
      (position >= 0 ==> k >= 0) && (position <= 0 ==> k <= 0)
  {
    if maxSkew > 0 && maxPosition > 0 {
      SkewInProportion(position, maxPosition, maxSkew);
      assert position == 0 ==> position * maxSkew == 0;
    }
  }

  /** The sign of the flow skew is that of the excess on the bid. */
  lemma FlowSign(bidQty: nat, askQty: nat, maxSkew: int)
    requires maxSkew < TWO_TO_THE_31
    ensures var k := FlowSkewTicks(bidQty, askQty, maxSkew);
      (bidQty >= askQty ==> k >= 0) && (bidQty <= askQty ==> k <= 0)
  {
    if maxSkew > 0 && bidQty + askQty > 0 {
      FlowSkewOddAndMonotone(Min(bidQty, askQty), Max(bidQty, askQty), askQty, maxSkew);
      NoPressure(askQty, maxSkew);
    }
  }

  /** A long position never raises the quotes and a heavier bid never lowers them, each with nothing against it. */
  lemma LeansTheRightWay(s: Setting, bidQty: nat, askQty: nat, position: int)
    requires s.tick > 0 && s.maxInvSkew < TWO_TO_THE_31 && s.maxFlowSkew < TWO_TO_THE_31
    requires -s.maxPosition <= position <= s.maxPosition
    ensures var q, neutral := s.Quotes(bidQty, askQty, position), Quotes(s.bestBid - s.tick, s.bestAsk + s.tick);
      && (position >= 0 && bidQty <= askQty ==> NotAbove(q, neutral))
      && (position <= 0 && bidQty >= askQty ==> NotAbove(neutral, q))
  {
    var k := FlowSkewTicks(bidQty, askQty, s.maxFlowSkew) - InventorySkewTicks(position, s.maxPosition, s.maxInvSkew);
    InventorySign(position, s.maxPosition, s.maxInvSkew);
    FlowSign(bidQty, askQty, s.maxFlowSkew);
    LeanOf(s, bidQty, askQty, position);
    NeutralQuotes(s, 0);
    TicksOrdered(s, bidQty, askQty, position, 0, 0, 0, k, 0);
    TicksOrdered(s, 0, 0, 0, bidQty, askQty, position, 0, k);
  }
}
