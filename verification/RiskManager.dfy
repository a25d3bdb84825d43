/**
 The pre-trade risk gate: kill switches, hours, size, bands, projected position and the
 token bucket. Bucket contents are exact, in billionths of a token.
 */
module RiskManager {
  import opened Types
  import opened Session
  import opened Arithmetic

  datatype RejectReason =
    | Approved | KillSwitch | OutsideMarketHours | OrderTooLarge | LotSizeMismatch
    | PriceBandBreach | PriceSanity | PositionLimit | RateLimitExceeded

  datatype Config = Config(
    maxOrdersPerSec: int, maxOrderQty: int, maxTokenPositionLots: int, maxCmNotionalInr: int,
    maxDailyLossInr: int, allowPreopen: bool, priceSanityPct: int)

  datatype Segment = CapitalMarket | FuturesAndOptions | CurrencyDerivatives

  datatype Order = Order(token: nat, segment: Segment, price: int, qty: int, side: Side)

  datatype Fill = Fill(token: nat, side: Side, qty: int, price: int)

  datatype Bucket = Bucket(tokens: int, lastRefill: nat)

  datatype Risk = Risk(
    position: seq<int>, refBid: seq<int>, refAsk: seq<int>, bucket: Bucket,
    killSwitch: bool, lossKill: bool, cashflow: int, markPnlInr: int)

  const TOKEN: int := 1_000_000_000

  predicate WellShaped(s: Risk) {
    |s.position| == MAX_TOKENS && |s.refBid| == MAX_TOKENS && |s.refAsk| == MAX_TOKENS
  }

  function Capacity(cfg: Config): int { cfg.maxOrdersPerSec * TOKEN }

  function Signed(side: Side, qty: int): int { if side == Buy then qty else -qty }

  function Refill(cfg: Config, b: Bucket, now: nat): Bucket {
    var last := if b.lastRefill == 0 then now else b.lastRefill;
    if now > last then Bucket(Min(b.tokens + (now - last) * cfg.maxOrdersPerSec, Capacity(cfg)), now)
    else Bucket(b.tokens, last)
  }

  /** ConsumeRateToken: refill by the elapsed time, then take one token if there is one. */
  function Consume(cfg: Config, b: Bucket, now: nat): (Bucket, bool) {
    var full := Refill(cfg, b, now);
    if full.tokens >= TOKEN then (full.(tokens := full.tokens - TOKEN), true) else (full, false)
  }

  predicate PriceSane(cfg: Config, s: Risk, o: Order)
    requires WellShaped(s) && o.token < MAX_TOKENS
  {
    var ref := if o.side == Buy then s.refAsk[o.token] else s.refBid[o.token];
    ref <= 0 || (if o.price > ref then o.price - ref else ref - o.price) * 100 <= ref * cfg.priceSanityPct
  }

  /** The projected position, in whole lots either way, stays within the limit. */
  predicate LotsWithinLimit(cfg: Config, projected: int, lot: int)
    requires lot > 0
  {
    var lots := TruncDiv(projected, lot);
    (if lots < 0 then -lots else lots) <= cfg.maxTokenPositionLots
  }

  predicate PositionOk(cfg: Config, s: Risk, o: Order, inst: Option<Instrument>)
    requires WellShaped(s) && o.token < MAX_TOKENS
  {
    && LotsWithinLimit(cfg, s.position[o.token] + Signed(o.side, o.qty), UnitLot(inst))
    && (o.segment == CapitalMarket ==> TruncDiv(o.qty * o.price, 100) <= cfg.maxCmNotionalInr)
  }

  /** The price test is a band around the reference. */
  lemma PriceSaneIff(cfg: Config, s: Risk, o: Order)
    requires WellShaped(s) && o.token < MAX_TOKENS
    ensures var ref := if o.side == Buy then s.refAsk[o.token] else s.refBid[o.token];
      PriceSane(cfg, s, o)
      <==> (ref > 0 ==> ref * (100 - cfg.priceSanityPct) <= 100 * o.price <= ref * (100 + cfg.priceSanityPct))
  {
    var ref := if o.side == Buy then s.refAsk[o.token] else s.refBid[o.token];
    assert ref * (100 - cfg.priceSanityPct) == 100 * ref - ref * cfg.priceSanityPct;
    assert ref * (100 + cfg.priceSanityPct) == 100 * ref + ref * cfg.priceSanityPct;
    assert cfg.priceSanityPct < 0 && ref > 0 ==> ref * cfg.priceSanityPct < 0;
  }

  /** The truncating lot division lets the projected position come within a unit of one lot more than the limit. */
  lemma LotsWithinLimitIff(cfg: Config, projected: int, lot: int)
    requires lot > 0
    ensures var limit := (cfg.maxTokenPositionLots + 1) * lot;
      LotsWithinLimit(cfg, projected, lot) <==> cfg.maxTokenPositionLots >= 0 && -limit < projected < limit
  {
    var x := if projected >= 0 then projected else -projected;
    var q, m := x / lot, cfg.maxTokenPositionLots + 1;
    FloorBounds(x, lot);
    assert (q + 1) * lot == q * lot + lot;
    if q < m {
      MulMono(q + 1, m, lot);
    } else {
      MulMono(m, q, lot);
    }
  }

  /** The notional, in whole rupees rounded toward zero, against its limit, both in paisa. */
  predicate NotionalWithin(paisa: int, limitInr: int) {
    if limitInr >= 0 then paisa < 100 * (limitInr + 1) else paisa <= 100 * limitInr
  }

  lemma PositionOkIff(cfg: Config, s: Risk, o: Order, inst: Option<Instrument>)
    requires WellShaped(s) && o.token < MAX_TOKENS
    ensures var limit := (cfg.maxTokenPositionLots + 1) * UnitLot(inst);
      var projected := s.position[o.token] + Signed(o.side, o.qty);
      PositionOk(cfg, s, o, inst) <==>
        && cfg.maxTokenPositionLots >= 0 && -limit < projected < limit
        && (o.segment == CapitalMarket ==> NotionalWithin(o.qty * o.price, cfg.maxCmNotionalInr))
  {
    LotsWithinLimitIff(cfg, s.position[o.token] + Signed(o.side, o.qty), UnitLot(inst));
    TruncDivBounds(o.qty * o.price, 100);
  }

  predicate OutOfBand(o: Order, inst: Option<Instrument>) {
    var band := PriceBand(inst);
    band.Some? && (o.price < band.value.0 || o.price > band.value.1)
  }

  /** The checks that do not look at the token's own tables, in the order of the source. */
  function EarlyGate(cfg: Config, s: Risk, o: Order, now: nat, inst: Option<Instrument>): RejectReason {
    var lot := LotSizeOf(inst);
    if s.killSwitch || s.lossKill then KillSwitch
    else if !WithinMarketHours(now) && !(cfg.allowPreopen && PreOpen(now)) then OutsideMarketHours
    else if o.qty <= 0 || o.qty > cfg.maxOrderQty then OrderTooLarge
    else if o.segment == FuturesAndOptions && lot > 0 && o.qty % lot != 0 then LotSizeMismatch
    else if OutOfBand(o, inst) then PriceBandBreach
    else Approved
  }

  /** The later checks index tables by the token without a test, so it must be inside them by then. */
  predicate Checkable(cfg: Config, s: Risk, o: Order, now: nat, inst: Option<Instrument>) {
    o.token < MAX_TOKENS || EarlyGate(cfg, s, o, now, inst) != Approved
  }

  /** Every check before the rate limiter. */
  function Gate(cfg: Config, s: Risk, o: Order, now: nat, inst: Option<Instrument>): RejectReason
    requires WellShaped(s) && Checkable(cfg, s, o, now, inst)
  {
    var early := EarlyGate(cfg, s, o, now, inst);
    if early != Approved then early
    else if !PriceSane(cfg, s, o) then PriceSanity
    else if !PositionOk(cfg, s, o, inst) then PositionLimit
    else Approved
  }

  /** check: the bucket is only touched by orders that pass everything else. */
  function Check(cfg: Config, s: Risk, o: Order, now: nat, inst: Option<Instrument>): (r: (Risk, RejectReason))
    requires WellShaped(s) && Checkable(cfg, s, o, now, inst)
    ensures WellShaped(r.0)
  {
    var gate := Gate(cfg, s, o, now, inst);
    if gate != Approved then (s, gate) else
      var (bucket, ok) := Consume(cfg, s.bucket, now);
      (s.(bucket := bucket), if ok then Approved else RateLimitExceeded)
  }

  /** on_fill: position, cash flow, and the daily-loss switch. */
  function OnFill(cfg: Config, s: Risk, f: Fill): (r: Risk)
    requires WellShaped(s)
    ensures WellShaped(r)
  {
    if f.token >= MAX_TOKENS then s else
      var qty := Signed(f.side, f.qty);
      var position := s.position[f.token] + qty;
      var cashflow := s.cashflow - qty * f.price;
      var pnl := TruncDiv(cashflow + position * f.price, 100);
      s.(position := s.position[f.token := position], cashflow := cashflow, markPnlInr := pnl,
         lossKill := s.lossKill || pnl < -cfg.maxDailyLossInr)
  }

  function UpdateReference(s: Risk, token: nat, bid: int, ask: int): (r: Risk)
    requires WellShaped(s)
    ensures WellShaped(r)
  {
    if token >= MAX_TOKENS then s else s.(refBid := s.refBid[token := bid], refAsk := s.refAsk[token := ask])
  }

  // ----- The manager as the source keeps it -----

  class RiskManager {
    const cfg: Config
    const position: array<int>
    const refBid: array<int>
    const refAsk: array<int>
    var bucket: Bucket
    var killSwitch: bool
    var lossKill: bool
    var cashflow: int
    var markPnlInr: int

    ghost const Repr: set<object> := {this, position, refBid, refAsk}

    ghost predicate Valid()
      reads this
    {
      && position.Length == MAX_TOKENS && refBid.Length == MAX_TOKENS && refAsk.Length == MAX_TOKENS
      && position != refBid && position != refAsk && refBid != refAsk
    }

    ghost function Abs(): (s: Risk)
      requires Valid()
      reads Repr
      ensures WellShaped(s)
    {
      Risk(position[..], refBid[..], refAsk[..], bucket, killSwitch, lossKill, cashflow, markPnlInr)
    }

    constructor (cfg: Config)
      ensures Valid() && fresh(Repr) && this.cfg == cfg && Abs() == Initial(cfg)
    {
      this.cfg := cfg;
      position := new int[MAX_TOKENS](_ => 0);
      refBid := new int[MAX_TOKENS](_ => 0);
      refAsk := new int[MAX_TOKENS](_ => 0);
      bucket := Bucket(Capacity(cfg), 0);
      killSwitch, lossKill, cashflow, markPnlInr := false, false, 0, 0;
    }

    method ConsumeRateToken(now: nat) returns (ok: bool)
      modifies this`bucket
      ensures (bucket, ok) == Consume(cfg, old(bucket), now)
    {
      if bucket.lastRefill == 0 {
        bucket := bucket.(lastRefill := now);
      }
      if now > bucket.lastRefill {
        var tokens := bucket.tokens + (now - bucket.lastRefill) * cfg.maxOrdersPerSec;
        if tokens > Capacity(cfg) {
          tokens := Capacity(cfg);
        }
        bucket := Bucket(tokens, now);
      }
      if bucket.tokens >= TOKEN {
        bucket := bucket.(tokens := bucket.tokens - TOKEN);
        return true;
      }
      return false;
    }

    method DoCheck(o: Order, now: nat, inst: Option<Instrument>) returns (r: RejectReason)
      requires Valid() && Checkable(cfg, Abs(), o, now, inst)
      modifies this`bucket
      ensures (Abs(), r) == Check(cfg, old(Abs()), o, now, inst)
      ensures r == Approved ==>
        && !killSwitch && !lossKill && 0 < o.qty <= cfg.maxOrderQty
        && (ClockIn(now, 9 * 60 + 15, 15 * 60 + 30) || (cfg.allowPreopen && ClockIn(now, 9 * 60, 9 * 60 + 15)))
        && WithinCircuit(inst, o.price)
    {
      SessionsByTheClock(now);
      BandIsPercentage(inst, o.price);
      if killSwitch || lossKill {
        return KillSwitch;
      }
      if !WithinMarketHours(now) && !(cfg.allowPreopen && PreOpen(now)) {
        return OutsideMarketHours;
      }
      if o.qty <= 0 || o.qty > cfg.maxOrderQty {
        return OrderTooLarge;
      }
      var lot := LotSizeOf(inst);
      if o.segment == FuturesAndOptions && lot > 0 && o.qty % lot != 0 {
        return LotSizeMismatch;
      }
      if OutOfBand(o, inst) {
        return PriceBandBreach;
      }
      PriceSaneIff(cfg, Abs(), o);
      PositionOkIff(cfg, Abs(), o, inst);
      var sane := IsPriceSane(o);
      if !sane {
        return PriceSanity;
      }
      var positionOk := IsPositionOk(o, inst);
      if !positionOk {
        return PositionLimit;
      }
      var ok := ConsumeRateToken(now);
      return if ok then Approved else RateLimitExceeded;
    }

    /** An order is sane when its price lies within the allowed percentage of the opposite touch, if there is one. */
    method IsPriceSane(o: Order) returns (ok: bool)
      requires Valid() && o.token < MAX_TOKENS
      ensures var ref := if o.side == Buy then refAsk[o.token] else refBid[o.token];
        ok <==> (ref > 0 ==> ref * (100 - cfg.priceSanityPct) <= 100 * o.price <= ref * (100 + cfg.priceSanityPct))
    {
      PriceSaneIff(cfg, Abs(), o);
      var ref := if o.side == Buy then refAsk[o.token] else refBid[o.token];
      var diff := if o.price > ref then o.price - ref else ref - o.price;
      return ref <= 0 || diff * 100 <= ref * cfg.priceSanityPct;
    }

    /** The position after the order stays short of one lot more than the limit, either way. */
    method IsPositionOk(o: Order, inst: Option<Instrument>) returns (ok: bool)
      requires Valid() && o.token < MAX_TOKENS
      ensures var limit := (cfg.maxTokenPositionLots + 1) * UnitLot(inst);
        var projected := position[o.token] + Signed(o.side, o.qty);
        ok <==>
          && cfg.maxTokenPositionLots >= 0 && -limit < projected < limit
          && (o.segment == CapitalMarket ==> NotionalWithin(o.qty * o.price, cfg.maxCmNotionalInr))
    {
      PositionOkIff(cfg, Abs(), o, inst);
      var projected := position[o.token] + Signed(o.side, o.qty);
      if !LotsWithinLimit(cfg, projected, UnitLot(inst)) {
        return false;
      }
      return o.segment == CapitalMarket ==> TruncDiv(o.qty * o.price, 100) <= cfg.maxCmNotionalInr;
    }

    method DoFill(f: Fill)
      requires Valid()
      modifies Repr
      ensures Valid() && Abs() == OnFill(cfg, old(Abs()), f)
    {
      if f.token >= MAX_TOKENS {
        return;
      }
      var qty := Signed(f.side, f.qty);
      position[f.token] := position[f.token] + qty;
      cashflow := cashflow - qty * f.price;
      markPnlInr := TruncDiv(cashflow + position[f.token] * f.price, 100);
      if markPnlInr < -cfg.maxDailyLossInr {
        lossKill := true;
      }
    }

    method DoUpdateReference(token: nat, bid: int, ask: int)
      requires Valid()
      modifies refBid, refAsk
      ensures Valid() && Abs() == UpdateReference(old(Abs()), token, bid, ask)
    {
      if token < MAX_TOKENS {
        refBid[token] := bid;
        refAsk[token] := ask;
      }
    }

    method SetKillSwitch(on: bool)
      requires Valid()
      modifies this`killSwitch
      ensures Abs() == old(Abs()).(killSwitch := on)
    {
      killSwitch := on;
    }
  }

  ghost function Initial(cfg: Config): (s: Risk)
    ensures WellShaped(s)
  {
    var zeros := seq(MAX_TOKENS, _ => 0);
    Risk(zeros, zeros, zeros, Bucket(Capacity(cfg), 0), false, false, 0, 0)
  }
}
