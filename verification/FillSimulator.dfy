/**
 The queue-aware fill simulator: a trade first eats the volume queued ahead of our quote and
 only the rest fills it.
 */
module FillSimulator {
  import opened Types
  import opened Session

  datatype Order = Order(id: int, token: nat, side: Side, price: int, qty: int)

  datatype SimQuote = SimQuote(active: bool, price: int, remaining: int, queueAhead: int, id: int, token: nat)

  datatype FillReport = FillReport(id: int, token: nat, side: Side, price: int, qty: int, remaining: int, tradeNo: int)

  datatype Simulator = Simulator(bids: seq<SimQuote>, asks: seq<SimQuote>, fills: nat, nextTradeNo: int) {
    function Quotes(side: Side): seq<SimQuote> { if side == Buy then bids else asks }

    function WithQuote(side: Side, token: nat, q: SimQuote): Simulator
      requires token < |Quotes(side)|
    {
      if side == Buy then this.(bids := bids[token := q]) else this.(asks := asks[token := q])
    }
  }

  const NO_QUOTE := SimQuote(false, 0, 0, 0, 0, 0)

  predicate WellShaped(s: Simulator) { |s.bids| == MAX_TOKENS && |s.asks| == MAX_TOKENS }

  /** register_order: our new quote replaces the previous one of its token and side. */
  function Register(s: Simulator, o: Order, queueAhead: int): (r: Simulator)
    requires WellShaped(s)
    ensures WellShaped(r)
  {
    if o.token >= MAX_TOKENS then s
    else s.WithQuote(o.side, o.token, SimQuote(true, o.price, o.qty, Max(queueAhead, 0), o.id, o.token))
  }

  /** MatchAgainst, on the quote: what is left of it and how much was filled. */
  function Absorb(q: SimQuote, tradeQty: int): (SimQuote, int) {
    var eaten := Min(q.queueAhead, tradeQty);
    var q1 := q.(queueAhead := q.queueAhead - eaten);
    var fill := Min(q.remaining, tradeQty - eaten);
    if tradeQty - eaten <= 0 || fill <= 0 then (q1, 0)
    else (q1.(remaining := q.remaining - fill, active := q.remaining - fill > 0), fill)
  }

  /** A trade reaches our quote when it prints at our price or through it. */
  predicate Reaches(q: SimQuote, side: Side, price: int) {
    q.active && (if side == Buy then price <= q.price else price >= q.price)
  }

  /** One side of on_event. */
  function MatchSide(s: Simulator, side: Side, ev: MarketEvent): (r: (Simulator, seq<FillReport>))
    requires WellShaped(s) && ev.token < MAX_TOKENS
    ensures WellShaped(r.0)
  {
    var q := s.Quotes(side)[ev.token];
    if !Reaches(q, side, ev.price) then (s, []) else
      var (q', fill) := Absorb(q, ev.qty);
      var s' := s.WithQuote(side, ev.token, q');
      if fill == 0 then (s', []) else
        (s'.(fills := s.fills + 1, nextTradeNo := s.nextTradeNo + 1),
          [FillReport(q.id, q.token, side, q.price, fill, q'.remaining, s.nextTradeNo)])
  }

  /** on_event: only trades fill; both sides are tried with the whole trade. */
  function OnEvent(s: Simulator, ev: MarketEvent): (r: (Simulator, seq<FillReport>))
    requires WellShaped(s)
    ensures WellShaped(r.0)
  {
    if ev.kind != TRADE || ev.token >= MAX_TOKENS then (s, []) else
      var (s1, bought) := MatchSide(s, Buy, ev);
      var (s2, sold) := MatchSide(s1, Sell, ev);
      (s2, bought + sold)
  }

  // ----- The simulator as the source keeps it -----

  class FillSimulator {
    const bids: array<SimQuote>
    const asks: array<SimQuote>
    var fills: nat
    var nextTradeNo: int

    ghost predicate Valid() { bids.Length == MAX_TOKENS && asks.Length == MAX_TOKENS && bids != asks }

    ghost function Abs(): (s: Simulator)
      requires Valid()
      reads this, bids, asks
      ensures WellShaped(s)
    {
      Simulator(bids[..], asks[..], fills, nextTradeNo)
    }

    constructor ()
      ensures Valid() && fresh(bids) && fresh(asks)
      ensures Abs() == Simulator(seq(MAX_TOKENS, _ => NO_QUOTE), seq(MAX_TOKENS, _ => NO_QUOTE), 0, 1)
    {
      bids := new SimQuote[MAX_TOKENS](_ => NO_QUOTE);
      asks := new SimQuote[MAX_TOKENS](_ => NO_QUOTE);
      fills, nextTradeNo := 0, 1;
    }

    method RegisterOrder(o: Order, queueAhead: int)
      requires Valid()
      modifies bids, asks
      ensures Abs() == Register(old(Abs()), o, queueAhead)
    {
      if o.token >= MAX_TOKENS {
        return;
      }
      var q := SimQuote(true, o.price, o.qty, if queueAhead < 0 then 0 else queueAhead, o.id, o.token);
      if o.side == Buy {
        bids[o.token] := q;
      } else {
        asks[o.token] := q;
      }
    }

    method MatchAgainst(side: Side, ev: MarketEvent) returns (reports: seq<FillReport>)
      requires Valid() && ev.token < MAX_TOKENS
      modifies this, bids, asks
      ensures (Abs(), reports) == MatchSide(old(Abs()), side, ev)
    {
      var quotes := if side == Buy then bids else asks;
      var q := quotes[ev.token];
      reports := [];
      if !Reaches(q, side, ev.price) {
        return;
      }
      var eaten := Min(q.queueAhead, ev.qty);
      q := q.(queueAhead := q.queueAhead - eaten);
      quotes[ev.token] := q;
      assert quotes[..] == old(quotes[..])[ev.token := q];
      var left := ev.qty - eaten;
      if left <= 0 {
        return;
      }
      var fill := Min(q.remaining, left);
      if fill <= 0 {
        return;
      }
      q := q.(remaining := q.remaining - fill);
      fills := fills + 1;
      reports := [FillReport(q.id, q.token, side, q.price, fill, q.remaining, nextTradeNo)];
      nextTradeNo := nextTradeNo + 1;
      if q.remaining <= 0 {
        q := q.(active := false);
      }
      quotes[ev.token] := q;
      assert quotes[..] == old(quotes[..])[ev.token := q];
    }

    method ProcessEvent(ev: MarketEvent) returns (reports: seq<FillReport>)
      requires Valid()
      modifies this, bids, asks
      ensures (Abs(), reports) == OnEvent(old(Abs()), ev)
    {
      if ev.kind != TRADE || ev.token >= MAX_TOKENS {
        return [];
      }
      var bought := MatchAgainst(Buy, ev);
      var sold := MatchAgainst(Sell, ev);
      return bought + sold;
    }
  }

  // ----- Closed form -----

  datatype Event = Quote(order: Order, queueAhead: int) | Market(event: MarketEvent)

  function Step(s: Simulator, e: Event): (r: (Simulator, seq<FillReport>))
    requires WellShaped(s)
    ensures WellShaped(r.0)
  {
    match e
    case Quote(o, queue) => (Register(s, o, queue), [])
    case Market(ev) => OnEvent(s, ev)
  }

  ghost function Run(s: Simulator, events: seq<Event>): (r: (Simulator, seq<FillReport>))
    requires WellShaped(s)
    ensures WellShaped(r.0)
  {
    if events == [] then (s, []) else
      var (s1, out) := Run(s, events[..|events| - 1]);
      var (s2, more) := Step(s1, events[|events| - 1]);
      (s2, out + more)
  }

  /** Quantity reported as filled for one token and side. */
  ghost function FilledOn(reports: seq<FillReport>, token: nat, side: Side): int {
    if reports == [] then 0 else
      var last := reports[|reports| - 1];
      FilledOn(reports[..|reports| - 1], token, side) + if last.token == token && last.side == side then last.qty else 0
  }

  /** Volume of the trades that print at a quote's price or through it. */
  ghost function Eligible(events: seq<Event>, token: nat, side: Side, price: int): int {
    if events == [] then 0 else
      var last := events[|events| - 1];
      Eligible(events[..|events| - 1], token, side, price) + EligibleQty(last, token, side, price)
  }

  predicate TradesThrough(e: Event, token: nat, side: Side, price: int) {
    && e.Market? && e.event.kind == TRADE && e.event.token == token
    && (if side == Buy then e.event.price <= price else e.event.price >= price)
  }

  function EligibleQty(e: Event, token: nat, side: Side, price: int): int {
    if TradesThrough(e, token, side, price) then e.event.qty else 0
  }

  /** Trades are not negative, and the quote of this token and side is not replaced. */
  ghost predicate Undisturbed(events: seq<Event>, token: nat, side: Side) {
    forall i :: 0 <= i < |events| ==>
      && (events[i].Market? && events[i].event.kind == TRADE ==> events[i].event.qty >= 0)
      && (events[i].Quote? ==> events[i].order.token != token || events[i].order.side != side)
  }

  /** Every active quote sits in the slot of its token. */
  ghost predicate Placed(s: Simulator) {
    && WellShaped(s)
    && forall t: nat, side: Side :: t < MAX_TOKENS && s.Quotes(side)[t].active ==> s.Quotes(side)[t].token == t
  }

  /** What eligible volume `v` makes of a fresh quote. */
  function After(q: SimQuote, v: int): SimQuote {
    var filled := FilledBy(q, v);
    q.(queueAhead := Max(0, q.queueAhead - v), remaining := q.remaining - filled,
      active := q.remaining - filled > 0 || filled == 0)
  }

  function FilledBy(q: SimQuote, v: int): int { Min(q.remaining, Max(0, v - q.queueAhead)) }

  predicate FreshQuote(q: SimQuote) { q.active && q.remaining >= 0 && q.queueAhead >= 0 }

  /** The split of the volume does not matter: absorbing more continues the closed form. */
  lemma AbsorbContinues(q: SimQuote, v: nat, more: nat)
    requires FreshQuote(q)
    ensures var (q', fill) := Absorb(After(q, v), more);
      After(q, v).active ==> q' == After(q, v + more) && fill == FilledBy(q, v + more) - FilledBy(q, v)
    ensures !After(q, v).active ==> After(q, v + more) == After(q, v) && FilledBy(q, v + more) == FilledBy(q, v)
  {
  }

  lemma {:induction false} FilledOnAppend(a: seq<FillReport>, b: seq<FillReport>, token: nat, side: Side)
    ensures FilledOn(a + b, token, side) == FilledOn(a, token, side) + FilledOn(b, token, side)
    decreases |b|
  {
    if b == [] {
      assert a + b == a;
    } else {
      FilledOnAppend(a, b[..|b| - 1], token, side);
      assert (a + b)[..|a + b| - 1] == a + b[..|b| - 1];
    }
  }

  lemma {:induction false} MatchSideEffect(s: Simulator, side: Side, ev: MarketEvent, token: nat, at: Side)
    requires Placed(s) && ev.token < MAX_TOKENS && token < MAX_TOKENS
    ensures var (s', out) := MatchSide(s, side, ev);
      && Placed(s')
      && var q := s.Quotes(at)[token];
         if side == at && ev.token == token && Reaches(q, at, ev.price)
         then s'.Quotes(at)[token] == Absorb(q, ev.qty).0 && FilledOn(out, token, at) == Absorb(q, ev.qty).1
         else s'.Quotes(at)[token] == q && FilledOn(out, token, at) == 0
  {
    var (s', out) := MatchSide(s, side, ev);
    forall t: nat, sd: Side | t < MAX_TOKENS && s'.Quotes(sd)[t].active
      ensures s'.Quotes(sd)[t].token == t
    {
      assert s.Quotes(sd)[t].active;
    }
    if out != [] {
      assert out[..|out| - 1] == [];
    }
  }

  lemma RegisterKeepsPlaced(s: Simulator, o: Order, queueAhead: int)
    requires Placed(s)
    ensures Placed(Register(s, o, queueAhead))
  {
    var s' := Register(s, o, queueAhead);
    forall t: nat, sd: Side | t < MAX_TOKENS && s'.Quotes(sd)[t].active
      ensures s'.Quotes(sd)[t].token == t
    {
      assert s.Quotes(sd)[t].active ==> s.Quotes(sd)[t].token == t;
    }
  }

  lemma {:induction false} StepEffect(s: Simulator, e: Event, token: nat, side: Side)
    requires Placed(s) && token < MAX_TOKENS && (e.Quote? ==> e.order.token != token || e.order.side != side)
    ensures var (s', out) := Step(s, e); var q := s.Quotes(side)[token];
      && Placed(s')
      && if q.active && TradesThrough(e, token, side, q.price)
         then s'.Quotes(side)[token] == Absorb(q, e.event.qty).0 &&
           FilledOn(out, token, side) == Absorb(q, e.event.qty).1
         else s'.Quotes(side)[token] == q && FilledOn(out, token, side) == 0
  {
    if e.Quote? {
      RegisterKeepsPlaced(s, e.order, e.queueAhead);
    } else if e.event.kind == TRADE && e.event.token < MAX_TOKENS {
      var s1 := MatchSide(s, Buy, e.event).0;
      MatchSideEffect(s, Buy, e.event, token, side);
      MatchSideEffect(s1, Sell, e.event, token, side);
      FilledOnAppend(MatchSide(s, Buy, e.event).1, MatchSide(s1, Sell, e.event).1, token, side);
    }
  }

  /** The closed form holds on over one more event. */
  lemma {:induction false} FillContinues(q: SimQuote, v: nat, s: Simulator, out: seq<FillReport>, e: Event,
      token: nat, side: Side)
    requires FreshQuote(q) && Placed(s) && token < MAX_TOKENS && Undisturbed([e], token, side)
    requires s.Quotes(side)[token] == After(q, v) && FilledOn(out, token, side) == FilledBy(q, v)
    ensures var (s', more) := Step(s, e); var v' := v + EligibleQty(e, token, side, q.price);
      && v' >= 0 && Placed(s')
      && s'.Quotes(side)[token] == After(q, v') && FilledOn(out + more, token, side) == FilledBy(q, v')
  {
    assert [e][0] == e;
    StepEffect(s, e, token, side);
    FilledOnAppend(out, Step(s, e).1, token, side);
    AbsorbContinues(q, v, EligibleQty(e, token, side, q.price));
  }

  /**
   A quote of quantity n behind a queue of q, once eligible volume T has traded, has been filled
   min(n, max(0, T - q)) in total, however T was split into trades and whatever else happened.
   */
  lemma {:induction false} FilledInTotal(s: Simulator, events: seq<Event>, token: nat, side: Side)
    requires Placed(s) && token < MAX_TOKENS && Undisturbed(events, token, side)
    requires FreshQuote(s.Quotes(side)[token])
    ensures var q := s.Quotes(side)[token]; var v := Eligible(events, token, side, q.price);
      && v >= 0
      && Placed(Run(s, events).0) && Run(s, events).0.Quotes(side)[token] == After(q, v)
      && FilledOn(Run(s, events).1, token, side) == FilledBy(q, v)
  {
    var q := s.Quotes(side)[token];
    if events != [] {
      var front, last := events[..|events| - 1], events[|events| - 1];
      FilledInTotal(s, front, token, side);
      FillContinues(q, Eligible(front, token, side, q.price), Run(s, front).0, Run(s, front).1, last, token, side);
    }
  }

  /** The same from the moment the quote is registered, in the terms of the order and its queue. */
  lemma {:induction false} RegisteredQuoteFills(s: Simulator, o: Order, queueAhead: int, events: seq<Event>)
    requires Placed(s) && o.token < MAX_TOKENS && o.qty >= 0 && Undisturbed(events, o.token, o.side)
    ensures var traded := Eligible(events, o.token, o.side, o.price);
      FilledOn(Run(Register(s, o, queueAhead), events).1, o.token, o.side) ==
        Min(o.qty, Max(0, traded - Max(queueAhead, 0)))
  {
    RegisterKeepsPlaced(s, o, queueAhead);
    FilledInTotal(Register(s, o, queueAhead), events, o.token, o.side);
  }

  /** Conservation: eligible volume either ate the queue, filled us, or came after both were exhausted. */
  lemma VolumeIsConserved(q: SimQuote, v: nat)
    requires FreshQuote(q)
    ensures (q.queueAhead - After(q, v).queueAhead) + FilledBy(q, v) == Min(v, q.queueAhead + q.remaining)
    ensures After(q, v).remaining + FilledBy(q, v) == q.remaining
    ensures FilledBy(q, v) > 0 ==> After(q, v).queueAhead == 0
  {
  }

  // ----- What the reports say -----

  /** The reports of one side of an event: at most one, in the words of the quote as the event leaves it. */
  lemma MatchReports(s: Simulator, side: Side, ev: MarketEvent)
    requires WellShaped(s) && ev.token < MAX_TOKENS
    ensures var (s', out) := MatchSide(s, side, ev);
      var q, q' := s.Quotes(side)[ev.token], s'.Quotes(side)[ev.token];
      && |out| <= 1 && s'.fills == s.fills + |out| && s'.nextTradeNo == s.nextTradeNo + |out|
      && (out != [] ==>
           && q.active && out[0].side == side && out[0].qty > 0 && out[0].tradeNo == s.nextTradeNo
           && (out[0].id, out[0].token, out[0].price, out[0].remaining) == (q.id, q.token, q.price, q'.remaining))
  {
  }

  /** A report is in the words of quote `q`, with this much left of it. */
  predicate Tells(r: FillReport, q: SimQuote, left: int) {
    r.id == q.id && r.price == q.price && r.qty > 0 && r.remaining == left
  }

  /** The trade numbers of the reports run on from `first`. */
  ghost predicate NumberedFrom(reports: seq<FillReport>, first: int) {
    forall i :: 0 <= i < |reports| ==> reports[i].tradeNo == first + i
  }

  /** The reports of one side of an event on the quote of a token and side. */
  ghost predicate TellsOf(out: seq<FillReport>, token: nat, side: Side, q: SimQuote, left: int) {
    forall i :: 0 <= i < |out| && out[i].token == token && out[i].side == side ==> Tells(out[i], q, left)
  }

  lemma SideReports(s: Simulator, at: Side, ev: MarketEvent, token: nat, side: Side)
    requires Placed(s) && ev.token < MAX_TOKENS && token < MAX_TOKENS
    ensures var (s', out) := MatchSide(s, at, ev);
      && TellsOf(out, token, side, s.Quotes(side)[token], s'.Quotes(side)[token].remaining)
      && (at != side ==> s'.Quotes(side)[token] == s.Quotes(side)[token])
      && |out| <= 1 && s'.fills == s.fills + |out| && s'.nextTradeNo == s.nextTradeNo + |out|
      && (out != [] ==> out[0].side == at && out[0].tradeNo == s.nextTradeNo)
  {
    MatchReports(s, at, ev);
    MatchSideEffect(s, at, ev, token, side);
  }

  /** One event reports at most once on a quote, numbers its reports on, and counts them. */
  lemma StepReports(s: Simulator, e: Event, token: nat, side: Side)
    requires Placed(s) && token < MAX_TOKENS && (e.Quote? ==> e.order.token != token || e.order.side != side)
    ensures var (s', out) := Step(s, e);
      && TellsOf(out, token, side, s.Quotes(side)[token], s'.Quotes(side)[token].remaining)
      && (forall i, j :: 0 <= i < j < |out| ==> out[i].side != out[j].side)
      && NumberedFrom(out, s.nextTradeNo)
      && s'.nextTradeNo == s.nextTradeNo + |out| && s'.fills == s.fills + |out|
  {
    if e.Market? && e.event.kind == TRADE && e.event.token < MAX_TOKENS {
      MatchSideEffect(s, Buy, e.event, token, side);
      SideReports(s, Buy, e.event, token, side);
      SideReports(MatchSide(s, Buy, e.event).0, Sell, e.event, token, side);
    }
  }

  /** Each report on a quote gives its id and price, and what is left after all that was filled up to it. */
  ghost predicate Truthful(reports: seq<FillReport>, token: nat, side: Side, q: SimQuote) {
    forall i :: 0 <= i < |reports| && reports[i].token == token && reports[i].side == side ==>
      Tells(reports[i], q, q.remaining - FilledOn(reports[..i + 1], token, side))
  }

  lemma {:induction false} QuietTail(a: seq<FillReport>, b: seq<FillReport>, token: nat, side: Side)
    requires forall j :: 0 <= j < |b| ==> b[j].side != side
    ensures FilledOn(a + b, token, side) == FilledOn(a, token, side)
    decreases |b|
  {
    if b == [] {
      assert a + b == a;
    } else {
      QuietTail(a, b[..|b| - 1], token, side);
      assert (a + b)[..|a + b| - 1] == a + b[..|b| - 1];
    }
  }

  lemma {:induction false} TruthContinues(out: seq<FillReport>, more: seq<FillReport>, token: nat, side: Side, q: SimQuote,
      left: int)
    requires Truthful(out, token, side, q) && left == q.remaining - FilledOn(out + more, token, side)
    requires TellsOf(more, token, side, q, left) && forall i, j :: 0 <= i < j < |more| ==> more[i].side != more[j].side
    ensures Truthful(out + more, token, side, q)
  {
    var all := out + more;
    forall i | 0 <= i < |all| && all[i].token == token && all[i].side == side
      ensures Tells(all[i], q, q.remaining - FilledOn(all[..i + 1], token, side))
    {
      if i < |out| {
        assert all[..i + 1] == out[..i + 1];
      } else {
        var k := i - |out|;
        assert more[k] == all[i] && all == all[..i + 1] + more[k + 1..];
        QuietTail(all[..i + 1], more[k + 1..], token, side);
      }
    }
  }

  /**
   The reports of any undisturbed run: those on the quote carry its id and price and count down
   what is left of it, and all of them are numbered and counted without a break.
   */
  lemma {:induction false} ReportsTellTheQuote(s: Simulator, events: seq<Event>, token: nat, side: Side)
    requires Placed(s) && token < MAX_TOKENS && Undisturbed(events, token, side)
    requires FreshQuote(s.Quotes(side)[token])
    ensures var (s', out) := Run(s, events);
      && Truthful(out, token, side, s.Quotes(side)[token])
      && NumberedFrom(out, s.nextTradeNo)
      && s'.nextTradeNo == s.nextTradeNo + |out| && s'.fills == s.fills + |out|
  {
    var q := s.Quotes(side)[token];
    if events != [] {
      var front, last := events[..|events| - 1], events[|events| - 1];
      ReportsTellTheQuote(s, front, token, side);
      FilledInTotal(s, front, token, side);
      FilledInTotal(s, events, token, side);
      var (s1, out) := Run(s, front);
      StepReports(s1, last, token, side);
      TruthContinues(out, Step(s1, last).1, token, side, q, Run(s, events).0.Quotes(side)[token].remaining);
    }
  }

  /** From the moment of registration, in the terms of the order. */
  lemma {:induction false} RegisteredQuoteReports(s: Simulator, o: Order, queueAhead: int, events: seq<Event>)
    requires Placed(s) && o.token < MAX_TOKENS && o.qty >= 0 && Undisturbed(events, o.token, o.side)
    ensures var out := Run(Register(s, o, queueAhead), events).1;
      forall i :: 0 <= i < |out| && out[i].token == o.token && out[i].side == o.side ==>
        && out[i].id == o.id && out[i].price == o.price
        && out[i].remaining == o.qty - FilledOn(out[..i + 1], o.token, o.side)
  {
    RegisterKeepsPlaced(s, o, queueAhead);
    ReportsTellTheQuote(Register(s, o, queueAhead), events, o.token, o.side);
  }
}
