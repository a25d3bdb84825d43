/** The strategy and the platform together, over arbitrary runs of callbacks and acknowledgements. */
module IrageRuns {
  import opened Types
  import opened Connect
  import opened IrageStrategy

  datatype Session = Session(platform: Platform, syms: seq<SymState>, tun: Tunables)

  datatype Event =
    | MarketData(inputs: Inputs)
    | Acknowledge
    | Tune(tun: Tunables)
    | Rejects(symbol: nat, buy: int, sell: int)

  ghost function Step(s: Session, e: Event): (r: Session)
    requires TicksPositive(s.syms)
    ensures TicksPositive(r.syms)
  {
    match e
    case MarketData(md) =>
      var (p, syms) := OnMarketData(s.tun, md, s.platform, s.syms);
      s.(platform := p, syms := syms)
    case Acknowledge => s.(platform := AckAll(s.platform))
    case Tune(tun) => s.(tun := tun)
    case Rejects(i, buy, sell) =>
      if i >= |s.syms| then s else s.(syms := s.syms[i := s.syms[i].(rejectsBuy := buy, rejectsSell := sell)])
  }

  ghost function Run(s: Session, events: seq<Event>): (r: Session)
    requires TicksPositive(s.syms)
    ensures TicksPositive(r.syms)
  {
    if events == [] then s else Step(Run(s, events[..|events| - 1]), events[|events| - 1])
  }

  ghost predicate Starts(s: Session) { s.platform == Platform(map[], [], NoError) && TicksPositive(s.syms) }

  // ----- Slots follow their history -----

  /** The phase that a slot's fields stand for. */
  function SlotPhase(slot: OrderSlot): Phase {
    match slot.state
    case NoOrder => Vacant
    case Unacked => AwaitingNew
    case StandingAcked => Resting
    case StandingUnacked => if slot.pendingCancel then AwaitingCancel else AwaitingReplace
  }

  /** A slot is in the phase of its history and holds the last quote that was sent for it. */
  ghost predicate SlotOk(p: Platform, k: SlotKey) {
    var slot := SlotAt(p, k);
    && PhaseOf(p.log, k) == SlotPhase(slot)
    && (slot.pendingCancel ==> slot.state == StandingUnacked)
    && slot.quote == (if LastQuote(p.log, k).Some? then LastQuote(p.log, k).value else FREE.quote)
    && (slot.state != NoOrder ==> LastQuote(p.log, k).Some?)
    && ReplacesMove(p.log, k)
  }

  /** Key `k` is a slot of one of the symbols, at level 0. */
  ghost predicate Owned(syms: seq<SymState>, k: SlotKey) { k.index == 0 && HasSymbol(syms, k.symId) }

  ghost predicate HasSymbol(syms: seq<SymState>, id: int) { exists i :: 0 <= i < |syms| && syms[i].id == id }

  ghost predicate Tracked(p: Platform, syms: seq<SymState>) {
    && NoImmediate(p.log)
    && (forall k: SlotKey :: SlotOk(p, k))
    && (forall k :: k in p.orders ==> Owned(syms, k))
  }

  lemma {:induction false} PhaseSnoc(log: seq<Entry>, e: Entry, k: SlotKey)
    ensures PhaseOf(log + [e], k) == Advance(PhaseOf(log, k), e, k)
    ensures LastQuote(log + [e], k) == if IsMessageOf(e, k) && e.kind != Cancel then Some(e.quote) else LastQuote(log, k)
    ensures ReplacesMove(log + [e], k) <==>
      ReplacesMove(log, k) && (IsMessageOf(e, k) && e.kind == Replace ==>
        LastQuote(log, k).Some? && Moves(LastQuote(log, k).value, e.quote))
  {
    assert (log + [e])[..|log|] == log;
  }

  /** The slot that a request is for moves as its message says. */
  lemma RespondFollowsPhase(slot: OrderSlot, q: Quote, ioc: bool)
    requires slot.pendingCancel ==> slot.state == StandingUnacked
    ensures var r := Respond(slot, q, ioc);
      && (r.slot.pendingCancel ==> r.slot.state == StandingUnacked)
      && SlotPhase(r.slot) ==
           if r.sent.None? then SlotPhase(slot) else Advance(SlotPhase(slot), Message(q, ioc, r.sent.value), KeyOf(q))
    ensures var r := Respond(slot, q, ioc);
      && r.slot.quote == (if r.sent.Some? && r.sent.value != Cancel then q else slot.quote)
      && (r.slot.state != NoOrder ==> slot.state != NoOrder || r.sent == Some(New))
      && (r.sent == Some(Replace) ==> slot.state != NoOrder && Moves(slot.quote, q))
  {
  }

  /** A request leaves the other slots alone. */
  lemma SendKeepsOthers(p: Platform, q: Quote, ioc: bool, k: SlotKey)
    requires SlotOk(p, k) && k != KeyOf(q)
    ensures SlotOk(Send(p, q, ioc).0, k)
  {
    var r := Respond(SlotAt(p, KeyOf(q)), q, ioc);
    if r.sent.Some? {
      PhaseSnoc(p.log, Message(q, ioc, r.sent.value), k);
    }
  }

  lemma SendKeepsOwn(p: Platform, q: Quote, ioc: bool)
    requires SlotOk(p, KeyOf(q))
    ensures SlotOk(Send(p, q, ioc).0, KeyOf(q))
  {
    var k := KeyOf(q);
    var r := Respond(SlotAt(p, k), q, ioc);
    RespondFollowsPhase(SlotAt(p, k), q, ioc);
    if r.sent.Some? {
      PhaseSnoc(p.log, Message(q, ioc, r.sent.value), k);
    }
  }

  lemma SendKeepsSlot(p: Platform, q: Quote, ioc: bool, k: SlotKey)
    requires SlotOk(p, k)
    ensures SlotOk(Send(p, q, ioc).0, k)
  {
    if k == KeyOf(q) {
      SendKeepsOwn(p, q, ioc);
    } else {
      SendKeepsOthers(p, q, ioc, k);
    }
  }

  lemma SendKeepsTracked(p: Platform, syms: seq<SymState>, q: Quote)
    requires Tracked(p, syms) && Owned(syms, KeyOf(q))
    ensures Tracked(Send(p, q, false).0, syms)
  {
    forall k: SlotKey
      ensures SlotOk(Send(p, q, false).0, k)
    {
      assert SlotOk(p, k);
      SendKeepsSlot(p, q, false, k);
    }
    var p' := Send(p, q, false).0;
    assert p'.orders.Keys <= p.orders.Keys + {KeyOf(q)};
  }

  lemma AckKeepsTracked(p: Platform, syms: seq<SymState>)
    requires Tracked(p, syms)
    ensures Tracked(AckAll(p), syms)
  {
    forall k: SlotKey
      ensures SlotOk(AckAll(p), k)
    {
      assert SlotOk(p, k);
      PhaseSnoc(p.log, AckRound, k);
    }
  }

  lemma CancelBothKeepsTracked(p: Platform, syms: seq<SymState>, s: SymState)
    requires Tracked(p, syms) && HasSymbol(syms, s.id)
    ensures Tracked(CancelSide(p, s, Buy), syms) && Tracked(CancelSide(p, s, Sell), syms) &&
      Tracked(CancelBoth(p, s), syms)
  {
    SendKeepsTracked(p, syms, Quote(s.id, 0, 0, Buy, 0, 0));
    SendKeepsTracked(p, syms, Quote(s.id, 0, 0, Sell, 0, 0));
    SendKeepsTracked(CancelSide(p, s, Buy), syms, Quote(s.id, 0, 0, Sell, 0, 0));
  }

  lemma WorkSideKeepsTracked(p: Platform, syms: seq<SymState>, s: SymState, side: Side, ok: bool, price: int,
      qty: int, opsOk: bool)
    requires Tracked(p, syms) && HasSymbol(syms, s.id)
    ensures Tracked(WorkSide(p, s, side, ok, price, qty, opsOk).0, syms)
  {
    SendKeepsTracked(p, syms, Quote(s.id, price, qty, side, 0, s.tickSize));
    CancelBothKeepsTracked(p, syms, s);
  }

  lemma WorkSymbolKeepsTracked(tun: Tunables, md: Inputs, p: Platform, syms: seq<SymState>, s: SymState)
    requires s.tickSize > 0 && Tracked(p, syms) && HasSymbol(syms, s.id)
    ensures Tracked(WorkSymbol(tun, md, p, s).0, syms)
  {
    var t := md.tick(s.id);
    var s1 := s.(lastMid := TruncDiv(t.bid + t.ask, 2));
    if NoTouch(md, s) {
      CancelBothKeepsTracked(p, syms, s);
    } else if TooWide(tun, md, s1) {
      CancelBothKeepsTracked(p, syms, s1);
    } else {
      var w, qty := Wanted(tun, md, s1), tun.quoteLots * s1.lotSize;
      WorkSideKeepsTracked(p, syms, s1, Buy, w.bidOk, w.bid, qty, OpsOk(md));
      var (p2, s2) := WorkSide(p, s1, Buy, w.bidOk, w.bid, qty, OpsOk(md));
      WorkSideKeepsTracked(p2, syms, s2, Sell, w.askOk, w.ask, qty, OpsOk(md));
    }
  }

  lemma {:induction false} CallbackKeepsTracked(tun: Tunables, md: Inputs, p: Platform, syms: seq<SymState>, n: nat)
    requires TicksPositive(syms) && Tracked(p, syms) && n <= |syms|
    ensures Tracked(CancelAll(p, syms[..n]), syms) && Tracked(WorkAll(tun, md, p, syms[..n]).0, syms)
  {
    if n > 0 {
      CallbackKeepsTracked(tun, md, p, syms, n - 1);
      assert syms[..n][..n - 1] == syms[..n - 1];
      CancelBothKeepsTracked(CancelAll(p, syms[..n - 1]), syms, syms[n - 1]);
      WorkSymbolKeepsTracked(tun, md, WorkAll(tun, md, p, syms[..n - 1]).0, syms, syms[n - 1]);
    }
  }

  lemma OwnedBySameIds(p: Platform, a: seq<SymState>, b: seq<SymState>)
    requires Tracked(p, a) && |a| == |b| && forall i :: 0 <= i < |a| ==> a[i].id == b[i].id
    ensures Tracked(p, b)
  {
    forall k | k in p.orders
      ensures Owned(b, k)
    {
      assert Owned(a, k);
    }
  }

  lemma {:induction false} RunIsTracked(s: Session, events: seq<Event>)
    requires Starts(s)
    ensures Tracked(Run(s, events).platform, Run(s, events).syms)
  {
    if events != [] {
      var before := Run(s, events[..|events| - 1]);
      RunIsTracked(s, events[..|events| - 1]);
      var after := Run(s, events);
      match events[|events| - 1] {
        case MarketData(md) =>
          assert before.syms[..|before.syms|] == before.syms;
          CallbackKeepsTracked(before.tun, md, before.platform, before.syms, |before.syms|);
          OwnedBySameIds(after.platform, before.syms, after.syms);
        case Acknowledge =>
          AckKeepsTracked(before.platform, before.syms);
        case Tune(_) =>
        case Rejects(_, _, _) =>
          OwnedBySameIds(after.platform, before.syms, after.syms);
      }
    }
  }

  /** The strategy sends no immediate-or-cancel order, so that in every run each New waits for its acknowledgement. */
  lemma {:induction false} NothingImmediate(s: Session, events: seq<Event>)
    requires Starts(s)
    ensures NoImmediate(Run(s, events).platform.log)
  {
    RunIsTracked(s, events);
  }

  /** In every run no slot's history breaks the protocol. */
  lemma {:induction false} EverySlotCycles(s: Session, events: seq<Event>, k: SlotKey)
    requires Starts(s)
    ensures PhaseOf(Run(s, events).platform.log, k) != Broken
  {
    RunIsTracked(s, events);
    assert SlotOk(Run(s, events).platform, k);
  }

  /**
   In every run, every slot's messages form New, Replace*, Cancel cycles: the first is a New, any
   two successive ones have an acknowledgement between them, and the later is a New exactly when
   the earlier is a Cancel.
   */
  lemma {:induction false} SlotMessagesCycle(s: Session, events: seq<Event>, k: SlotKey, i: nat, j: nat)
    requires Starts(s)
    ensures var log := Run(s, events).platform.log;
      j < |log| && IsMessageOf(log[j], k) ==>
        && (SilentBetween(log, k, 0, j) ==> log[j].kind == New)
        && (i < j && IsMessageOf(log[i], k) && SilentBetween(log, k, i + 1, j) ==>
              && (exists m :: i < m < j && log[m].AckRound?)
              && (log[j].kind == New <==> log[i].kind == Cancel))
  {
    var log := Run(s, events).platform.log;
    NothingImmediate(s, events);
    EverySlotCycles(s, events, k);
    if j < |log| && IsMessageOf(log[j], k) {
      if SilentBetween(log, k, 0, j) {
        FirstMessageIsNew(log, k, j);
      }
      if i < j && IsMessageOf(log[i], k) && SilentBetween(log, k, i + 1, j) {
        MessagesCycle(log, k, i, j);
      }
    }
  }

  /** In every run a slot reports a standing order exactly when its history leaves it one, acknowledged or not. */
  lemma {:induction false} StandingIffHistory(s: Session, events: seq<Event>, k: SlotKey)
    requires Starts(s)
    ensures Standing(Run(s, events).platform, k) <==> PhaseOf(Run(s, events).platform.log, k) != Vacant
  {
    RunIsTracked(s, events);
    assert SlotOk(Run(s, events).platform, k);
  }

  /**
   What a request is answered, from the history of its slot alone: taken while the slot is vacant
   or its order rests, unless there is nothing to cancel or too little changes; and sent as a
   Cancel, a Replace or a New accordingly.
   */
  lemma RequestAnswered(p: Platform, q: Quote, ioc: bool)
    requires SlotOk(p, KeyOf(q))
    ensures var (p', ok) := Send(p, q, ioc);
      var phase, last, zero := PhaseOf(p.log, KeyOf(q)), LastQuote(p.log, KeyOf(q)), q.price == 0 || q.qty == 0;
      var taken := (phase == Vacant && !zero) || (phase == Resting && (zero || (last.Some? && Moves(last.value, q))));
      var kind := if zero then Cancel else if phase == Resting then Replace else New;
      && ok == taken && p'.log == p.log + (if taken then [Message(q, ioc, kind)] else [])
      && p'.lastError == if taken then NoError else if phase == Vacant then NoSuchOrder
           else if phase == Resting then SameOrder else NoAck
  {
  }

  lemma {:induction false} ReplaceMovesAt(log: seq<Entry>, k: SlotKey, j: nat)
    requires ReplacesMove(log, k) && j < |log| && IsMessageOf(log[j], k) && log[j].kind == Replace
    ensures LastQuote(log[..j], k).Some? && Moves(LastQuote(log[..j], k).value, log[j].quote)
  {
    if j < |log| - 1 {
      ReplaceMovesAt(log[..|log| - 1], k, j);
      assert log[..|log| - 1][..j] == log[..j];
    }
  }

  /** In every run each slot holds the last quote sent for it, and each Replace moves the quote that it replaces. */
  lemma {:induction false} SlotsHoldLastQuotes(s: Session, events: seq<Event>, k: SlotKey, j: nat)
    requires Starts(s)
    ensures var p := Run(s, events).platform;
      && (Standing(p, k) ==> LastQuote(p.log, k) == Some(p.orders[k].quote))
      && (j < |p.log| && IsMessageOf(p.log[j], k) && p.log[j].kind == Replace ==>
           LastQuote(p.log[..j], k).Some? && Moves(LastQuote(p.log[..j], k).value, p.log[j].quote))
  {
    RunIsTracked(s, events);
    var p := Run(s, events).platform;
    assert SlotOk(p, k);
    if j < |p.log| && IsMessageOf(p.log[j], k) && p.log[j].kind == Replace {
      ReplaceMovesAt(p.log, k, j);
    }
  }

  // ----- Sweeps -----

  /** The slot after a cancel has been tried on it. */
  function CancelTried(slot: OrderSlot): OrderSlot {
    if slot.state == StandingAcked then slot.(state := StandingUnacked, pendingCancel := true) else slot
  }

  ghost predicate OnlyCancelsAdded(before: seq<Entry>, after: seq<Entry>) {
    before <= after && forall i :: |before| <= i < |after| ==> after[i].Message? && after[i].kind == Cancel
  }

  lemma CancelSideEffect(p: Platform, s: SymState, side: Side, k: SlotKey)
    ensures var p' := CancelSide(p, s, side);
      && p'.orders.Keys == p.orders.Keys && OnlyCancelsAdded(p.log, p'.log)
      && SlotAt(p', k) == if k == KeyFor(s, side) then CancelTried(SlotAt(p, k)) else SlotAt(p, k)
  {
  }

  lemma {:induction false} CancelAllEffect(p: Platform, syms: seq<SymState>, k: SlotKey)
    ensures var p' := CancelAll(p, syms);
      && p'.orders.Keys == p.orders.Keys && OnlyCancelsAdded(p.log, p'.log)
      && SlotAt(p', k) == if Owned(syms, k) then CancelTried(SlotAt(p, k)) else SlotAt(p, k)
  {
    if syms != [] {
      var front, last := syms[..|syms| - 1], syms[|syms| - 1];
      CancelAllEffect(p, front, k);
      var p1 := CancelAll(p, front);
      CancelSideEffect(p1, last, Buy, k);
      CancelSideEffect(CancelSide(p1, last, Buy), last, Sell, k);
      OwnedSnoc(syms, k);
    }
  }

  lemma OwnedSnoc(syms: seq<SymState>, k: SlotKey)
    requires syms != []
    ensures var front, last := syms[..|syms| - 1], syms[|syms| - 1];
      Owned(syms, k) <==> Owned(front, k) || k == KeyFor(last, Buy) || k == KeyFor(last, Sell)
  {
    var front, last := syms[..|syms| - 1], syms[|syms| - 1];
    assert k.side == Buy || k.side == Sell;
    if i :| 0 <= i < |syms| && syms[i].id == k.symId {
      assert i < |front| ==> front[i].id == k.symId;
    }
  }

  /** One sweep and a full acknowledgement. */
  ghost function SweepRound(s: Session, md: Inputs): Session
    requires TicksPositive(s.syms)
  {
    Step(Step(s, MarketData(md)), Acknowledge)
  }

  lemma SweepRoundEffect(s: Session, md: Inputs, k: SlotKey)
    requires TicksPositive(s.syms) && md.running && Sweeps(s.tun, md)
    ensures var r := SweepRound(s, md); r.tun == s.tun && r.syms == s.syms
    ensures var p, p' := s.platform, SweepRound(s, md).platform;
      && p'.orders.Keys == p.orders.Keys
      && (k in p.orders ==> p'.orders[k] == Acked(if Owned(s.syms, k) then CancelTried(p.orders[k]) else p.orders[k]))
  {
    CancelAllEffect(s.platform, s.syms, k);
  }

  /**
   From any reachable state, two rounds of a sweeping callback and a full acknowledgement leave
   no standing order, whatever was in flight before.
   */
  lemma {:induction false} TwoSweepsLeaveNothing(s: Session, events: seq<Event>, md1: Inputs, md2: Inputs, k: SlotKey)
    requires Starts(s)
    requires var tun := Run(s, events).tun; md1.running && Sweeps(tun, md1) && md2.running && Sweeps(tun, md2)
    ensures !Standing(SweepRound(SweepRound(Run(s, events), md1), md2).platform, k)
  {
    var r := Run(s, events);
    RunIsTracked(s, events);
    assert SlotOk(r.platform, k) && (k in r.platform.orders ==> Owned(r.syms, k));
    SweepRoundEffect(r, md1, k);
    SweepRoundEffect(SweepRound(r, md1), md2, k);
  }

  /** Nothing but cancels and acknowledgement rounds was logged in between. */
  ghost predicate NoQuotesAdded(before: seq<Entry>, after: seq<Entry>) {
    before <= after && forall i :: |before| <= i < |after| ==> after[i].AckRound? || after[i].kind == Cancel
  }

  lemma KilledStepSendsNoQuotes(s: Session, e: Event)
    requires TicksPositive(s.syms) && s.tun.killed && (e.Tune? ==> e.tun.killed)
    ensures Step(s, e).tun.killed && NoQuotesAdded(s.platform.log, Step(s, e).platform.log)
  {
    CancelAllEffect(s.platform, s.syms, SlotKey(0, Buy, 0));
  }

  /** While the kill switch stays set no New and no Replace is sent, whatever else happens. */
  lemma {:induction false} KilledRunSendsNoQuotes(s: Session, events: seq<Event>)
    requires TicksPositive(s.syms) && s.tun.killed
    requires forall i :: 0 <= i < |events| && events[i].Tune? ==> events[i].tun.killed
    ensures Run(s, events).tun.killed
    ensures NoQuotesAdded(s.platform.log, Run(s, events).platform.log)
  {
    if events != [] {
      var front, last := events[..|events| - 1], events[|events| - 1];
      KilledRunSendsNoQuotes(s, front);
      KilledStepSendsNoQuotes(Run(s, front), last);
    }
  }
}
