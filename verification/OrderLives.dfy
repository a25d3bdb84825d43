/**
 The life of one client order, read off the reports about it: its state, fills, exchange number,
 reject code and whether it is still live, after any events whatever until its slot is reused.
 */
module OrderLives {
  import opened Types
  import opened OrderManager

  /** A fill, cancel or reject about this id. */
  predicate IsAbout(e: Event, id: int) {
    match e
    case Fill(f) => f.id == id
    case CancelAck(i) => i == id
    case Reject(i, _) => i == id
    case _ => false
  }

  /** The last fill, cancel or reject about this id. */
  ghost function LastAbout(events: seq<Event>, id: int): Option<Event> {
    if events == [] then None
    else if IsAbout(events[|events| - 1], id) then Some(events[|events| - 1])
    else LastAbout(events[..|events| - 1], id)
  }

  /** The number in the first acknowledgement of this id, if it came before any fill, cancel or reject. */
  ghost function AckNo(events: seq<Event>, id: int): Option<int> {
    if events == [] then None else
      var front, last := events[..|events| - 1], events[|events| - 1];
      if AckNo(front, id).Some? then AckNo(front, id)
      else if last.Ack? && last.id == id && LastAbout(front, id).None? then Some(last.exchangeNo)
      else None
  }

  ghost function LastCode(events: seq<Event>, id: int): int {
    if events == [] then 0 else
      var last := events[|events| - 1];
      if last.Reject? && last.id == id then last.code else LastCode(events[..|events| - 1], id)
  }

  /** The order of this id and quantity is complete by these events, the last fill of which is `f`. */
  ghost predicate Completes(qty: int, events: seq<Event>, id: int, f: FillReport) {
    FilledFor(events, id) >= qty || f.remaining == 0
  }

  ghost function StateAfter(qty: int, events: seq<Event>, id: int): OrderState {
    match LastAbout(events, id)
    case None => if AckNo(events, id).Some? then Acknowledged else PendingNew
    case Some(Fill(f)) => if Completes(qty, events, id, f) then Filled else PartiallyFilled
    case Some(CancelAck(_)) => Cancelled
    case Some(_) => Rejected
  }

  /** No cancel, reject or completing fill has come. */
  ghost predicate StillLive(qty: int, events: seq<Event>, id: int) {
    events == [] ||
    (var front, last := events[..|events| - 1], events[|events| - 1];
     StillLive(qty, front, id) && (IsAbout(last, id) ==> last.Fill? && !Completes(qty, events, id, last.report)))
  }

  /** The slot of order `o`, taken under this id, after these events. */
  ghost function LifeOf(o: Order, id: int, events: seq<Event>): LiveOrder {
    var ack := AckNo(events, id);
    LiveOrder(Order(id, if ack.Some? then ack.value else o.exchangeNo, o.qty), StateAfter(o.qty, events, id),
      if ack.Some? then ack.value else 0, FilledFor(events, id), LastCode(events, id), StillLive(o.qty, events, id))
  }

  lemma NextInLife(t: Table, o: Order, id: int, events: seq<Event>)
    requires WellShaped(t) && events != [] && t.slots[Index(id)] == LifeOf(o, id, events[..|events| - 1])
    requires !Reuses(t, events[|events| - 1], Index(id))
    ensures Step(t, events[|events| - 1]).slots[Index(id)] == LifeOf(o, id, events)
  {
  }

  /**
   Whatever events follow, an order that was taken shows exactly what the reports about it make of
   it, until a new order is taken into its slot.
   */
  lemma {:induction false} OrderFollowsReports(t: Table, o: Order, events: seq<Event>)
    requires WellShaped(t) && NewOrder(t, o).2
    requires NeverReuses(NewOrder(t, o).0, events, Index(NewOrder(t, o).1))
    ensures var (t1, id, _) := NewOrder(t, o); Run(t1, events).slots[Index(id)] == LifeOf(o, id, events)
  {
    var (t1, id, _) := NewOrder(t, o);
    if events != [] {
      OrderFollowsReports(t, o, events[..|events| - 1]);
      NextInLife(Run(t1, events[..|events| - 1]), o, id, events);
    }
  }

  /** How many new orders came without an id of their own. */
  ghost function Unnumbered(events: seq<Event>): nat {
    if events == [] then 0 else
      Unnumbered(events[..|events| - 1]) + if events[|events| - 1].New? && events[|events| - 1].order.id == 0 then 1 else 0
  }

  /** The manager's own ids run on without a break: each unnumbered order is given the next one, taken or not. */
  lemma {:induction false} OwnIdsRunOn(t: Table, events: seq<Event>, o: Order)
    requires WellShaped(t)
    ensures Run(t, events).nextId == t.nextId + Unnumbered(events)
    ensures NewOrder(Run(t, events), o).1 == if o.id == 0 then t.nextId + Unnumbered(events) else o.id
  {
    if events != [] {
      OwnIdsRunOn(t, events[..|events| - 1], o);
    }
  }

  /** A report is accepted exactly when the slot of its id still holds that id, an ack only for a pending order. */
  lemma ReportsAnswered(t: Table, id: int, exchangeNo: int, f: FillReport, code: int)
    requires WellShaped(t) && f.id == id
    ensures var slot := t.slots[id % 4096];
      && (OnAck(t, id, exchangeNo).1 <==> slot.order.id == id && slot.state == PendingNew)
      && (OnFill(t, f).1 <==> slot.order.id == id)
      && (OnCancelAck(t, id).1 <==> slot.order.id == id) && (OnReject(t, id, code).1 <==> slot.order.id == id)
    ensures !OnAck(t, id, exchangeNo).1 ==> OnAck(t, id, exchangeNo).0 == t
    ensures !OnFill(t, f).1 ==> OnFill(t, f).0 == t == OnCancelAck(t, id).0 == OnReject(t, id, code).0
  {
  }
}
