/** What the risk gate guarantees over arbitrary runs of checks, fills and switches. */
module RiskRuns {
  import opened Types
  import opened Session
  import opened Arithmetic
  import opened RiskManager

  datatype Act =
    | Submit(order: Order, now: nat, inst: Option<Instrument>)
    | Filled(fill: Fill)
    | Kill(on: bool)
    | Reference(token: nat, bid: int, ask: int)

  predicate Legal(a: Act) { a.Submit? ==> a.order.token < MAX_TOKENS && a.now > 0 }

  ghost function Step(cfg: Config, s: Risk, a: Act): (r: Risk)
    requires WellShaped(s) && Legal(a)
    ensures WellShaped(r)
  {
    match a
    case Submit(o, now, inst) => Check(cfg, s, o, now, inst).0
    case Filled(f) => OnFill(cfg, s, f)
    case Kill(on) => s.(killSwitch := on)
    case Reference(token, bid, ask) => UpdateReference(s, token, bid, ask)
  }

  predicate AllLegal(acts: seq<Act>) { forall i :: 0 <= i < |acts| ==> Legal(acts[i]) }

  ghost function Run(cfg: Config, s: Risk, acts: seq<Act>): (r: Risk)
    requires WellShaped(s) && AllLegal(acts)
    ensures WellShaped(r)
  {
    if acts == [] then s else Step(cfg, Run(cfg, s, acts[..|acts| - 1]), acts[|acts| - 1])
  }

  ghost predicate IsApproved(cfg: Config, s: Risk, a: Act)
    requires WellShaped(s) && Legal(a)
  {
    a.Submit? && Check(cfg, s, a.order, a.now, a.inst).1 == Approved
  }

  ghost function Approvals(cfg: Config, s: Risk, acts: seq<Act>): nat
    requires WellShaped(s) && AllLegal(acts)
  {
    if acts == [] then 0 else
      var front, last := acts[..|acts| - 1], acts[|acts| - 1];
      Approvals(cfg, s, front) + if IsApproved(cfg, Run(cfg, s, front), last) then 1 else 0
  }

  /** The submissions fall in [from, to] and the clock never runs backwards. */
  predicate Within(acts: seq<Act>, from: nat, to: nat) {
    && (forall i :: 0 <= i < |acts| && acts[i].Submit? ==> from <= acts[i].now <= to)
    && (forall i, j :: 0 <= i < j < |acts| && acts[i].Submit? && acts[j].Submit? ==> acts[i].now <= acts[j].now)
  }

  // ----- The rate limit from above -----

  ghost predicate BucketOk(cfg: Config, b: Bucket) { 0 <= b.tokens <= Capacity(cfg) }

  /** What a window that starts at `from` can have handed out by the time of the last refill. */
  ghost predicate Budget(cfg: Config, b: Bucket, n: nat, from: nat) {
    && BucketOk(cfg, b)
    && if b.lastRefill < from then n == 0
       else b.tokens + n * TOKEN <= Capacity(cfg) + (b.lastRefill - from) * cfg.maxOrdersPerSec
  }

  lemma RefillKeepsBudget(cfg: Config, b: Bucket, n: nat, from: nat, now: nat)
    requires cfg.maxOrdersPerSec >= 0 && Budget(cfg, b, n, from) && from <= now && now > 0 && b.lastRefill <= now
    ensures var full := Refill(cfg, b, now); Budget(cfg, full, n, from) && full.lastRefill == now
  {
    var rate := cfg.maxOrdersPerSec;
    if 0 < b.lastRefill {
      MulMono(0, now - b.lastRefill, rate);
      if from <= b.lastRefill {
        assert (now - from) * rate == (now - b.lastRefill) * rate + (b.lastRefill - from) * rate;
      } else {
        MulMono(0, now - from, rate);
      }
    } else {
      MulMono(0, now - from, rate);
      assert b.lastRefill < from || from == 0;
      if from == 0 {
        assert b.tokens + n * TOKEN <= Capacity(cfg);
      }
    }
  }

  lemma ConsumeKeepsBudget(cfg: Config, b: Bucket, n: nat, from: nat, now: nat)
    requires cfg.maxOrdersPerSec >= 0 && Budget(cfg, b, n, from) && from <= now && now > 0 && b.lastRefill <= now
    ensures var (after, ok) := Consume(cfg, b, now);
      Budget(cfg, after, if ok then n + 1 else n, from) && after.lastRefill == now
  {
    RefillKeepsBudget(cfg, b, n, from, now);
  }

  /** The bucket after an act: consumed from if the act is an otherwise-valid order, else untouched. */
  lemma StepBucket(cfg: Config, s: Risk, a: Act)
    requires WellShaped(s) && Legal(a)
    ensures var passes := a.Submit? && Gate(cfg, s, a.order, a.now, a.inst) == Approved;
      && Step(cfg, s, a).bucket == (if passes then Consume(cfg, s.bucket, a.now).0 else s.bucket)
      && (IsApproved(cfg, s, a) <==> passes && Consume(cfg, s.bucket, a.now).1)
  {
  }

  /** The last refill lies before the window or at one of its submissions. */
  ghost predicate RefilledBy(acts: seq<Act>, last: nat, from: nat) {
    last <= from || exists i :: 0 <= i < |acts| && acts[i].Submit? && acts[i].now == last
  }

  lemma {:induction false} WindowBudget(cfg: Config, s: Risk, acts: seq<Act>, from: nat, to: nat)
    requires WellShaped(s) && AllLegal(acts) && Within(acts, from, to)
    requires cfg.maxOrdersPerSec >= 0 && BucketOk(cfg, s.bucket) && s.bucket.lastRefill <= from <= to
    ensures Budget(cfg, Run(cfg, s, acts).bucket, Approvals(cfg, s, acts), from)
    ensures var last := Run(cfg, s, acts).bucket.lastRefill; last <= to && RefilledBy(acts, last, from)
  {
    if acts == [] {
      assert s.bucket.lastRefill == from ==> (s.bucket.lastRefill - from) * cfg.maxOrdersPerSec == 0;
    } else {
      var front, last := acts[..|acts| - 1], acts[|acts| - 1];
      assert Within(front, from, to);
      WindowBudget(cfg, s, front, from, to);
      var before := Run(cfg, s, front);
      StepBucket(cfg, before, last);
      assert RefilledBy(acts, before.bucket.lastRefill, from) by {
        assert forall i :: 0 <= i < |front| ==> front[i] == acts[i];
      }
      if last.Submit? && Gate(cfg, before, last.order, last.now, last.inst) == Approved {
        assert before.bucket.lastRefill <= last.now;
        ConsumeKeepsBudget(cfg, before.bucket, Approvals(cfg, s, front), from, last.now);
        assert acts[|acts| - 1].now == last.now;
      }
    }
  }

  lemma BudgetBounds(cfg: Config, b: Bucket, n: nat, from: nat, to: nat)
    requires cfg.maxOrdersPerSec >= 0 && Budget(cfg, b, n, from) && b.lastRefill <= to && from <= to
    ensures n * TOKEN <= cfg.maxOrdersPerSec * TOKEN + cfg.maxOrdersPerSec * (to - from)
  {
    if b.lastRefill >= from {
      MulMono(b.lastRefill - from, to - from, cfg.maxOrdersPerSec);
    } else {
      MulMono(0, to - from, cfg.maxOrdersPerSec);
    }
  }

  /**
   After any run, any window of w nanoseconds approves at most rate + rate * w / 10^9 orders,
   whatever else is submitted, filled or switched in between.
   */
  lemma {:induction false} WindowApprovesAtMost(cfg: Config, before: seq<Act>, window: seq<Act>, from: nat, to: nat)
    requires cfg.maxOrdersPerSec >= 0 && AllLegal(before) && AllLegal(window) && from <= to
    requires Within(before, 0, from) && Within(window, from, to)
    ensures Approvals(cfg, Run(cfg, Initial(cfg), before), window) * TOKEN
            <= cfg.maxOrdersPerSec * TOKEN + cfg.maxOrdersPerSec * (to - from)
  {
    WindowBudget(cfg, Initial(cfg), before, 0, from);
    var s := Run(cfg, Initial(cfg), before);
    WindowBudget(cfg, s, window, from, to);
    BudgetBounds(cfg, Run(cfg, s, window).bucket, Approvals(cfg, s, window), from, to);
  }

  // ----- The rate limit from below -----

  /** The submission passes every check before the rate limiter. */
  ghost predicate Passes(cfg: Config, s: Risk, a: Act)
    requires WellShaped(s) && Legal(a)
  {
    a.Submit? && Gate(cfg, s, a.order, a.now, a.inst) == Approved
  }

  /** When the last otherwise-valid order was submitted; 0 if there was none. */
  ghost function LastPass(cfg: Config, acts: seq<Act>): nat
    requires AllLegal(acts)
  {
    if acts == [] then 0 else
      var front, last := acts[..|acts| - 1], acts[|acts| - 1];
      if Passes(cfg, Run(cfg, Initial(cfg), front), last) then last.now else LastPass(cfg, front)
  }

  /** Otherwise-valid orders come at least 10^9 / rate nanoseconds apart. */
  ghost predicate Spaced(cfg: Config, acts: seq<Act>)
    requires AllLegal(acts)
  {
    acts == [] ||
    (var front, last := acts[..|acts| - 1], acts[|acts| - 1];
     && Spaced(cfg, front)
     && (Passes(cfg, Run(cfg, Initial(cfg), front), last) && LastPass(cfg, front) != 0 ==>
           LastPass(cfg, front) <= last.now && (last.now - LastPass(cfg, front)) * cfg.maxOrdersPerSec >= TOKEN))
  }

  ghost predicate Plenty(cfg: Config, b: Bucket, lastPass: nat) {
    b.lastRefill == lastPass && BucketOk(cfg, b) && (lastPass == 0 ==> b.tokens == Capacity(cfg))
  }

  lemma ConsumeSucceeds(cfg: Config, b: Bucket, lastPass: nat, now: nat)
    requires cfg.maxOrdersPerSec >= 1 && Plenty(cfg, b, lastPass) && now > 0
    requires lastPass != 0 ==> lastPass <= now && (now - lastPass) * cfg.maxOrdersPerSec >= TOKEN
    ensures Consume(cfg, b, now).1 && Plenty(cfg, Consume(cfg, b, now).0, now)
  {
    MulMono(1, cfg.maxOrdersPerSec, TOKEN);
    assert lastPass == now ==> (now - lastPass) * cfg.maxOrdersPerSec == 0;
  }

  lemma {:induction false} SpacedRunHasPlenty(cfg: Config, acts: seq<Act>)
    requires cfg.maxOrdersPerSec >= 1 && AllLegal(acts) && Spaced(cfg, acts)
    ensures Plenty(cfg, Run(cfg, Initial(cfg), acts).bucket, LastPass(cfg, acts))
  {
    if acts == [] {
      MulMono(1, cfg.maxOrdersPerSec, TOKEN);
    } else {
      var front, last := acts[..|acts| - 1], acts[|acts| - 1];
      SpacedRunHasPlenty(cfg, front);
      var s := Run(cfg, Initial(cfg), front);
      if Passes(cfg, s, last) {
        ConsumeSucceeds(cfg, s.bucket, LastPass(cfg, front), last.now);
      }
    }
  }

  /** In a spaced run no order is ever refused by the rate limiter: it is approved or fails another check. */
  lemma {:induction false} SpacedOrdersAreNeverRateLimited(cfg: Config, acts: seq<Act>, next: Act)
    requires cfg.maxOrdersPerSec >= 1 && AllLegal(acts + [next]) && Spaced(cfg, acts + [next]) && next.Submit?
    ensures AllLegal(acts)
    ensures var s := Run(cfg, Initial(cfg), acts);
      Check(cfg, s, next.order, next.now, next.inst).1 == Gate(cfg, s, next.order, next.now, next.inst)
  {
    assert forall i :: 0 <= i < |acts| ==> (acts + [next])[i] == acts[i];
    assert (acts + [next])[..|acts|] == acts && (acts + [next])[|acts|] == next;
    SpacedRunHasPlenty(cfg, acts);
    var s := Run(cfg, Initial(cfg), acts);
    if Passes(cfg, s, next) {
      ConsumeSucceeds(cfg, s.bucket, LastPass(cfg, acts), next.now);
    }
  }

  /** An order refused for any other reason leaves the whole state, budget included, as it was. */
  lemma OtherRefusalsAreFree(cfg: Config, s: Risk, o: Order, now: nat, inst: Option<Instrument>)
    requires WellShaped(s) && Checkable(cfg, s, o, now, inst)
    ensures var (after, r) := Check(cfg, s, o, now, inst); r != Approved && r != RateLimitExceeded ==> after == s
  {
  }

  /** Once the daily-loss switch has tripped, every later submission is refused, whatever happens in between. */
  lemma {:induction false} LossKillIsPermanent(cfg: Config, s: Risk, acts: seq<Act>, o: Order, now: nat,
      inst: Option<Instrument>)
    requires WellShaped(s) && AllLegal(acts) && s.lossKill
    ensures Run(cfg, s, acts).lossKill && Check(cfg, Run(cfg, s, acts), o, now, inst).1 == KillSwitch
    ensures Approvals(cfg, s, acts) == 0
  {
    if acts != [] {
      LossKillIsPermanent(cfg, s, acts[..|acts| - 1], o, now, inst);
    }
  }

  // ----- The position limit -----

  /** Working quantity of the orders at the exchange, per token and side. */
  datatype Desk = Desk(risk: Risk, openBuy: seq<nat>, openSell: seq<nat>)

  datatype DeskAct =
    | Send(order: Order, now: nat)
    | Trade(fill: Fill)
    | Withdraw(token: nat, side: Side)
    | Other(act: Act)

  type Master = nat -> Option<Instrument>

  ghost predicate DeskShaped(d: Desk) {
    WellShaped(d.risk) && |d.openBuy| == MAX_TOKENS && |d.openSell| == MAX_TOKENS
  }

  ghost function Working(d: Desk, token: nat, side: Side): nat
    requires DeskShaped(d) && token < MAX_TOKENS
  {
    if side == Buy then d.openBuy[token] else d.openSell[token]
  }

  ghost function SetWorking(d: Desk, token: nat, side: Side, qty: nat): (r: Desk)
    requires DeskShaped(d) && token < MAX_TOKENS
    ensures DeskShaped(r)
  {
    if side == Buy then d.(openBuy := d.openBuy[token := qty]) else d.(openSell := d.openSell[token := qty])
  }

  /** At most one order per token and side is outstanding, and a fill never exceeds what is left of it. */
  ghost predicate Proper(d: Desk, a: DeskAct)
    requires DeskShaped(d)
  {
    match a
    case Send(o, now) => o.token < MAX_TOKENS && now > 0 && Working(d, o.token, o.side) == 0
    case Trade(f) => f.token < MAX_TOKENS && 0 <= f.qty <= Working(d, f.token, f.side)
    case Withdraw(token, _) => token < MAX_TOKENS
    case Other(act) => act.Kill? || act.Reference?
  }

  ghost function DeskStep(cfg: Config, insts: Master, d: Desk, a: DeskAct): (r: Desk)
    requires DeskShaped(d) && Proper(d, a)
    ensures DeskShaped(r)
  {
    match a
    case Send(o, now) =>
      var (after, reason) := Check(cfg, d.risk, o, now, insts(o.token));
      var sent := d.(risk := after);
      if reason == Approved && o.qty > 0 then SetWorking(sent, o.token, o.side, o.qty) else sent
    case Trade(f) =>
      SetWorking(d.(risk := OnFill(cfg, d.risk, f)), f.token, f.side, Working(d, f.token, f.side) - f.qty)
    case Withdraw(token, side) => SetWorking(d, token, side, 0)
    case Other(act) => d.(risk := Step(cfg, d.risk, act))
  }

  /** The largest position the gate lets through: one unit short of one lot more than the limit. */
  ghost function Limit(cfg: Config, insts: Master, token: nat): int {
    (cfg.maxTokenPositionLots + 1) * UnitLot(insts(token)) - 1
  }

  ghost predicate Bounded(cfg: Config, insts: Master, d: Desk, t: nat)
    requires DeskShaped(d) && t < MAX_TOKENS
  {
    && d.risk.position[t] + d.openBuy[t] <= Limit(cfg, insts, t)
    && d.openSell[t] - d.risk.position[t] <= Limit(cfg, insts, t)
  }

  lemma DeskStepKeepsBound(cfg: Config, insts: Master, d: Desk, a: DeskAct, t: nat)
    requires DeskShaped(d) && Proper(d, a) && t < MAX_TOKENS && Bounded(cfg, insts, d, t)
    ensures Bounded(cfg, insts, DeskStep(cfg, insts, d, a), t)
  {
    if a.Send? && a.order.token == t {
      LotsWithinLimitIff(cfg, d.risk.position[t] + Signed(a.order.side, a.order.qty), UnitLot(insts(t)));
    }
  }

  ghost predicate ProperRun(cfg: Config, insts: Master, acts: seq<DeskAct>)
    decreases |acts|, 0
  {
    acts == [] || (ProperRun(cfg, insts, acts[..|acts| - 1]) &&
      Proper(DeskRun(cfg, insts, acts[..|acts| - 1]), acts[|acts| - 1]))
  }

  ghost function DeskRun(cfg: Config, insts: Master, acts: seq<DeskAct>): (d: Desk)
    requires ProperRun(cfg, insts, acts)
    ensures DeskShaped(d)
    decreases |acts|, 1
  {
    if acts == [] then Desk(Initial(cfg), seq(MAX_TOKENS, _ => 0), seq(MAX_TOKENS, _ => 0))
    else DeskStep(cfg, insts, DeskRun(cfg, insts, acts[..|acts| - 1]), acts[|acts| - 1])
  }

  lemma {:induction false} RunStaysBounded(cfg: Config, insts: Master, acts: seq<DeskAct>, t: nat)
    requires cfg.maxTokenPositionLots >= 0 && ProperRun(cfg, insts, acts) && t < MAX_TOKENS
    ensures Bounded(cfg, insts, DeskRun(cfg, insts, acts), t)
  {
    if acts == [] {
      MulMono(1, cfg.maxTokenPositionLots + 1, UnitLot(insts(t)));
    } else {
      var front := acts[..|acts| - 1];
      RunStaysBounded(cfg, insts, front, t);
      DeskStepKeepsBound(cfg, insts, DeskRun(cfg, insts, front), acts[|acts| - 1], t);
    }
  }

  /**
   With at most one buy and one sell outstanding per token and no overfills, every run keeps the
   position plus the working buy, and the working sell less the position, within the limit; so
   the position itself stays below (max lots + 1) * lot in either direction.
   */
  lemma {:induction false} PositionStaysWithinLimit(cfg: Config, insts: Master, acts: seq<DeskAct>, t: nat)
    requires cfg.maxTokenPositionLots >= 0 && ProperRun(cfg, insts, acts) && t < MAX_TOKENS
    ensures Bounded(cfg, insts, DeskRun(cfg, insts, acts), t)
    ensures var p := DeskRun(cfg, insts, acts).risk.position[t];
      -((cfg.maxTokenPositionLots + 1) * UnitLot(insts(t))) < p < (cfg.maxTokenPositionLots + 1) * UnitLot(insts(t))
  {
    RunStaysBounded(cfg, insts, acts, t);
  }
}
