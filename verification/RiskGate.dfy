/**
 What the risk gate lets through, condition by condition, and what its state is after any run,
 read off the acts of the run: net fills, last references, last switch, and the first loss.
 */
module RiskGate {
  import opened Types
  import opened Session
  import opened Arithmetic
  import opened RiskManager
  import opened RiskRuns

  /** The bucket, filled up for the time since its last refill as far as it can hold, has a whole order in it. */
  predicate HoldsToken(cfg: Config, b: Bucket, now: nat) {
    var elapsed := if 0 < b.lastRefill < now then now - b.lastRefill else 0;
    b.tokens + elapsed * cfg.maxOrdersPerSec >= TOKEN && (elapsed > 0 ==> cfg.maxOrdersPerSec >= 1)
  }

  /** The order meets the condition whose failure has this reason. */
  predicate Meets(cfg: Config, s: Risk, o: Order, now: nat, inst: Option<Instrument>, reason: RejectReason)
    requires WellShaped(s)
  {
    match reason
    case Approved => true
    case KillSwitch => !s.killSwitch && !s.lossKill
    case OutsideMarketHours =>
      ClockIn(now, 9 * 60 + 15, 15 * 60 + 30) || (cfg.allowPreopen && ClockIn(now, 9 * 60, 9 * 60 + 15))
    case OrderTooLarge => 0 < o.qty <= cfg.maxOrderQty
    case LotSizeMismatch =>
      o.segment == FuturesAndOptions && inst.Some? && inst.value.lotSize > 0 ==> o.qty % inst.value.lotSize == 0
    case PriceBandBreach => WithinCircuit(inst, o.price)
    case PriceSanity =>
      o.token < MAX_TOKENS &&
      var ref := if o.side == Buy then s.refAsk[o.token] else s.refBid[o.token];
      (ref > 0 ==> ref * (100 - cfg.priceSanityPct) <= 100 * o.price <= ref * (100 + cfg.priceSanityPct))
    case PositionLimit =>
      o.token < MAX_TOKENS &&
      var limit := (cfg.maxTokenPositionLots + 1) * UnitLot(inst);
      var projected := s.position[o.token] + if o.side == Buy then o.qty else -o.qty;
      && cfg.maxTokenPositionLots >= 0 && -limit < projected < limit
      && (o.segment == CapitalMarket ==> NotionalWithin(o.qty * o.price, cfg.maxCmNotionalInr))
    case RateLimitExceeded => HoldsToken(cfg, s.bucket, now)
  }

  /** The order in which the conditions are tested. */
  function Place(reason: RejectReason): nat {
    match reason
    case KillSwitch => 0
    case OutsideMarketHours => 1
    case OrderTooLarge => 2
    case LotSizeMismatch => 3
    case PriceBandBreach => 4
    case PriceSanity => 5
    case PositionLimit => 6
    case RateLimitExceeded => 7
    case Approved => 8
  }

  /** The token lies inside the tables, or one of the conditions that do not look there fails. */
  ghost predicate Answerable(cfg: Config, s: Risk, o: Order, now: nat, inst: Option<Instrument>)
    requires WellShaped(s)
  {
    o.token < MAX_TOKENS ||
    exists x: RejectReason :: Place(x) < Place(PriceSanity) && !Meets(cfg, s, o, now, inst, x)
  }

  /** The checks that come before the tables, against the conditions. */
  lemma EarlyChecks(cfg: Config, s: Risk, o: Order, now: nat, inst: Option<Instrument>)
    requires WellShaped(s)
    ensures var r := EarlyGate(cfg, s, o, now, inst);
      && (r == Approved || Place(r) < Place(PriceSanity))
      && (r != Approved ==> !Meets(cfg, s, o, now, inst, r))
      && forall x: RejectReason :: Place(x) < Min(Place(r), Place(PriceSanity)) ==> Meets(cfg, s, o, now, inst, x)
  {
    SessionsByTheClock(now);
    BandIsPercentage(inst, o.price);
  }

  /** The precondition of the gate leaves out exactly the orders that would index outside the tables. */
  lemma CheckableIff(cfg: Config, s: Risk, o: Order, now: nat, inst: Option<Instrument>)
    requires WellShaped(s)
    ensures Checkable(cfg, s, o, now, inst) <==> Answerable(cfg, s, o, now, inst)
  {
    EarlyChecks(cfg, s, o, now, inst);
  }

  lemma HoldsTokenIff(cfg: Config, b: Bucket, now: nat)
    ensures HoldsToken(cfg, b, now) <==> Consume(cfg, b, now).1
  {
    assert cfg.maxOrdersPerSec >= 1 <==> Capacity(cfg) >= TOKEN;
  }

  /**
   An order is approved if and only if it meets every condition, and one that is refused is told
   the first condition that it fails.
   */
  lemma ApprovedIff(cfg: Config, s: Risk, o: Order, now: nat, inst: Option<Instrument>)
    requires WellShaped(s) && Answerable(cfg, s, o, now, inst)
    ensures Checkable(cfg, s, o, now, inst)
    ensures var r := Check(cfg, s, o, now, inst).1;
      && (r == Approved <==> forall x: RejectReason :: Meets(cfg, s, o, now, inst, x))
      && (r != Approved ==> !Meets(cfg, s, o, now, inst, r))
      && forall x: RejectReason :: Place(x) < Place(r) ==> Meets(cfg, s, o, now, inst, x)
  {
    CheckableIff(cfg, s, o, now, inst);
    EarlyChecks(cfg, s, o, now, inst);
    HoldsTokenIff(cfg, s.bucket, now);
    if o.token < MAX_TOKENS {
      PriceSaneIff(cfg, s, o);
      PositionOkIff(cfg, s, o, inst);
    }
    var r := Check(cfg, s, o, now, inst).1;
    assert r != Approved ==> !Meets(cfg, s, o, now, inst, r);
  }

  // ----- The state from the history -----

  function SignedQty(f: Fill): int { if f.side == Buy then f.qty else -f.qty }

  predicate IsFill(a: Act) { a.Filled? && a.fill.token < MAX_TOKENS }

  /** Bought less sold on one token. */
  ghost function NetFilled(acts: seq<Act>, t: nat): int {
    if acts == [] then 0 else
      var last := acts[|acts| - 1];
      NetFilled(acts[..|acts| - 1], t) + if IsFill(last) && last.fill.token == t then SignedQty(last.fill) else 0
  }

  /** The last bid or ask that was given for a token; 0 where there was none. */
  ghost function LastReference(acts: seq<Act>, t: nat, side: Side): int {
    if acts == [] then 0 else
      var last := acts[|acts| - 1];
      if last.Reference? && last.token == t then if side == Buy then last.bid else last.ask
      else LastReference(acts[..|acts| - 1], t, side)
  }

  ghost predicate LastSwitch(acts: seq<Act>) {
    acts != [] && if acts[|acts| - 1].Kill? then acts[|acts| - 1].on else LastSwitch(acts[..|acts| - 1])
  }

  /**
   The profit in paisa of all fills, with those of one token valued at this price: each fill gains
   what its quantity is worth now less what it cost. Fills of other tokens count as spent.
   */
  ghost function Marked(acts: seq<Act>, t: nat, price: int): int {
    if acts == [] then 0 else
      var last := acts[|acts| - 1];
      Marked(acts[..|acts| - 1], t, price) +
        if IsFill(last) then SignedQty(last.fill) * ((if last.fill.token == t then price else 0) - last.fill.price) else 0
  }

  /** Rounded to whole rupees toward zero, the profit is below the allowed loss. */
  predicate Loses(paisa: int, limitInr: int) {
    if limitInr >= 0 then paisa <= -100 * (limitInr + 1) else paisa < -100 * limitInr
  }

  /** Some fill of the run left a loss beyond the limit, valued at its own price. */
  ghost predicate LossSeen(cfg: Config, acts: seq<Act>) {
    acts != [] &&
    var last := acts[|acts| - 1];
    || LossSeen(cfg, acts[..|acts| - 1])
    || (IsFill(last) && Loses(Marked(acts, last.fill.token, last.fill.price), cfg.maxDailyLossInr))
  }

  ghost predicate FromHistory(cfg: Config, s: Risk, acts: seq<Act>) {
    && WellShaped(s)
    && (forall t: nat :: t < MAX_TOKENS ==>
         && s.position[t] == NetFilled(acts, t)
         && s.refBid[t] == LastReference(acts, t, Buy) && s.refAsk[t] == LastReference(acts, t, Sell))
    && (s.killSwitch <==> LastSwitch(acts))
    && (s.lossKill <==> LossSeen(cfg, acts))
    && s.cashflow == Marked(acts, MAX_TOKENS, 0)
  }

  /** Valuing a token at a price adds its net quantity at that price to what was spent. */
  lemma {:induction false} MarkedIs(acts: seq<Act>, t: nat, price: int)
    requires t < MAX_TOKENS
    ensures Marked(acts, t, price) == Marked(acts, MAX_TOKENS, 0) + NetFilled(acts, t) * price
  {
    if acts != [] {
      var front, last := acts[..|acts| - 1], acts[|acts| - 1];
      MarkedIs(front, t, price);
      if IsFill(last) {
        var q, net := SignedQty(last.fill), NetFilled(front, t);
        assert q * (price - last.fill.price) == q * price - q * last.fill.price;
        assert q * (0 - last.fill.price) == -(q * last.fill.price);
        assert (net + q) * price == net * price + q * price;
      }
    }
  }

  lemma LosesIff(paisa: int, limitInr: int)
    ensures Loses(paisa, limitInr) <==> TruncDiv(paisa, 100) < -limitInr
  {
    TruncDivBounds(paisa, 100);
  }

  lemma {:induction false} FillKeepsHistory(cfg: Config, s: Risk, acts: seq<Act>)
    requires acts != [] && IsFill(acts[|acts| - 1]) && FromHistory(cfg, s, acts[..|acts| - 1])
    ensures FromHistory(cfg, OnFill(cfg, s, acts[|acts| - 1].fill), acts)
    ensures var f := acts[|acts| - 1].fill;
      OnFill(cfg, s, f).markPnlInr == TruncDiv(Marked(acts, f.token, f.price), 100)
  {
    var front, f := acts[..|acts| - 1], acts[|acts| - 1].fill;
    var q := SignedQty(f);
    MarkedIs(acts, f.token, f.price);
    LosesIff(Marked(acts, f.token, f.price), cfg.maxDailyLossInr);
    assert q * (0 - f.price) == -(q * f.price);
    assert NetFilled(acts, f.token) == NetFilled(front, f.token) + q;
  }

  /**
   After any run: every position is what was bought less what was sold, every reference the last
   one given, the switch as last set, and the loss switch is on exactly when some fill left a loss
   beyond the limit.
   */
  lemma {:induction false} StateFollowsActs(cfg: Config, acts: seq<Act>)
    requires AllLegal(acts)
    ensures FromHistory(cfg, Run(cfg, Initial(cfg), acts), acts)
  {
    if acts != [] {
      var front, last := acts[..|acts| - 1], acts[|acts| - 1];
      StateFollowsActs(cfg, front);
      if IsFill(last) {
        FillKeepsHistory(cfg, Run(cfg, Initial(cfg), front), acts);
      }
    }
  }

  /**
   Every order approved in any run: no switch was on and no loss had been seen; the hour, size,
   lot, circuit, and token bucket were right; its price was near the last opposite reference; and
   its quantity left the net fills within the limit.
   */
  lemma {:induction false} ApprovedInRun(cfg: Config, acts: seq<Act>, o: Order, now: nat, inst: Option<Instrument>)
    requires AllLegal(acts) && o.token < MAX_TOKENS
    ensures var s := Run(cfg, Initial(cfg), acts);
      Check(cfg, s, o, now, inst).1 == Approved ==>
        && !LastSwitch(acts) && !LossSeen(cfg, acts)
        && (forall x: RejectReason :: Meets(cfg, s, o, now, inst, x))
        && (var ref := LastReference(acts, o.token, if o.side == Buy then Sell else Buy);
            ref > 0 ==> ref * (100 - cfg.priceSanityPct) <= 100 * o.price <= ref * (100 + cfg.priceSanityPct))
        && (var projected := NetFilled(acts, o.token) + if o.side == Buy then o.qty else -o.qty;
            var limit := (cfg.maxTokenPositionLots + 1) * UnitLot(inst); -limit < projected < limit)
  {
    var s := Run(cfg, Initial(cfg), acts);
    StateFollowsActs(cfg, acts);
    ApprovedIff(cfg, s, o, now, inst);
    if Check(cfg, s, o, now, inst).1 == Approved {
      assert Meets(cfg, s, o, now, inst, KillSwitch) && Meets(cfg, s, o, now, inst, PriceSanity) &&
        Meets(cfg, s, o, now, inst, PositionLimit);
    }
  }
}
