/**
 The order manager's table of live orders: one slot per client id modulo the table size,
 reused after release, with late reports still finding released orders.
 */
module OrderManager {
  import opened Types

  const TABLE_SIZE: nat := 4096

  datatype OrderState = Idle | PendingNew | Acknowledged | PartiallyFilled | Filled | Cancelled | Rejected

  datatype Order = Order(id: int, exchangeNo: int, qty: int)

  datatype LiveOrder = LiveOrder(order: Order, state: OrderState, exchangeNo: int, filledQty: int, rejectCode: int,
      occupied: bool)

  datatype FillReport = FillReport(id: int, qty: int, remaining: int)

  datatype Table = Table(slots: seq<LiveOrder>, nextId: int, liveCount: nat)

  predicate Terminal(s: OrderState) { s == Filled || s == Cancelled || s == Rejected }

  predicate WellShaped(t: Table) { |t.slots| == TABLE_SIZE }

  /** The low bits of the id. */
  function Index(id: int): nat { id % TABLE_SIZE }

  /** get: the slot of this id, live or released, if it has not been reused. */
  function Get(t: Table, id: int): Option<nat>
    requires WellShaped(t)
  {
    if t.slots[Index(id)].order.id == id then Some(Index(id)) else None
  }

  function Released(t: Table, i: nat, lo: LiveOrder): (r: Table)
    requires WellShaped(t) && i < TABLE_SIZE
    ensures WellShaped(r)
  {
    if lo.occupied then
      var live := if t.liveCount > 0 then t.liveCount - 1 else t.liveCount;
      t.(slots := t.slots[i := lo.(occupied := false)], liveCount := live)
    else t.(slots := t.slots[i := lo])
  }

  /** new_order: the id it used and whether the order was taken. */
  function NewOrder(t: Table, o: Order): (r: (Table, int, bool))
    requires WellShaped(t)
    ensures WellShaped(r.0)
  {
    var id := if o.id == 0 then t.nextId else o.id;
    var t1 := if o.id == 0 then t.(nextId := t.nextId + 1) else t;
    var slot := t.slots[Index(id)];
    if slot.occupied && !Terminal(slot.state) then (t1, id, false)
    else
      (t1.(slots := t.slots[Index(id) := LiveOrder(o.(id := id), PendingNew, 0, 0, 0, true)],
        liveCount := t.liveCount + 1), id, true)
  }

  function OnAck(t: Table, id: int, exchangeNo: int): (r: (Table, bool))
    requires WellShaped(t)
    ensures WellShaped(r.0)
  {
    var g := Get(t, id);
    if g.None? || t.slots[g.value].state != PendingNew then (t, false) else
      var lo := t.slots[g.value];
      (t.(slots := t.slots[g.value :=
        lo.(exchangeNo := exchangeNo, order := lo.order.(exchangeNo := exchangeNo), state := Acknowledged)]), true)
  }

  function OnFill(t: Table, f: FillReport): (r: (Table, bool))
    requires WellShaped(t)
    ensures WellShaped(r.0)
  {
    var g := Get(t, f.id);
    if g.None? then (t, false) else
      var lo := t.slots[g.value].(filledQty := t.slots[g.value].filledQty + f.qty);
      if lo.filledQty >= lo.order.qty || f.remaining == 0 then (Released(t, g.value, lo.(state := Filled)), true)
      else (t.(slots := t.slots[g.value := lo.(state := PartiallyFilled)]), true)
  }

  function OnCancelAck(t: Table, id: int): (r: (Table, bool))
    requires WellShaped(t)
    ensures WellShaped(r.0)
  {
    var g := Get(t, id);
    if g.None? then (t, false) else (Released(t, g.value, t.slots[g.value].(state := Cancelled)), true)
  }

  function OnReject(t: Table, id: int, code: int): (r: (Table, bool))
    requires WellShaped(t)
    ensures WellShaped(r.0)
  {
    var g := Get(t, id);
    if g.None? then (t, false)
      else (Released(t, g.value, t.slots[g.value].(state := Rejected, rejectCode := code)), true)
  }

  // ----- The manager as the source keeps it -----

  class OrderManager {
    const table: array<LiveOrder>
    var nextId: int
    var liveCount: nat

    ghost predicate Valid() { table.Length == TABLE_SIZE }

    ghost function Abs(): (t: Table)
      requires Valid()
      reads this, table
      ensures WellShaped(t)
    {
      Table(table[..], nextId, liveCount)
    }

    /** The order data of a slot that was never used is not initialised: any `junk` will do. */
    constructor (junk: nat -> Order)
      ensures Valid() && fresh(table) && IsFresh(Abs()) && nextId == 1
    {
      table := new LiveOrder[TABLE_SIZE](i => LiveOrder(junk(i), Idle, 0, 0, 0, false));
      nextId, liveCount := 1, 0;
    }

    /** get: finds nothing but the id asked for, and in a consistent table every live order. */
    method Find(id: int) returns (r: Option<nat>)
      requires Valid()
      ensures r == Get(Abs(), id)
      ensures r.Some? ==> r.value < TABLE_SIZE && table[r.value].order.id == id
      ensures Consistent(Abs()) ==>
        forall i :: 0 <= i < TABLE_SIZE && table[i].occupied && table[i].order.id == id ==> r == Some(i)
    {
      assert forall i :: 0 <= i < TABLE_SIZE ==> Abs().slots[i] == table[i];
      return if table[Index(id)].order.id == id then Some(Index(id)) else None;
    }

    method Release(i: nat)
      requires Valid() && i < TABLE_SIZE
      modifies this`liveCount, table
      ensures Abs() == Released(old(Abs()), i, old(table[i]))
    {
      if table[i].occupied {
        table[i] := table[i].(occupied := false);
        if liveCount > 0 {
          liveCount := liveCount - 1;
        }
      }
    }

    method DoNewOrder(o: Order) returns (id: int, ok: bool)
      requires Valid()
      modifies this, table
      ensures (Abs(), id, ok) == NewOrder(old(Abs()), o)
    {
      id := o.id;
      if id == 0 {
        id := nextId;
        nextId := nextId + 1;
      }
      var slot := table[Index(id)];
      if slot.occupied && slot.state != Filled && slot.state != Cancelled && slot.state != Rejected {
        return id, false;
      }
      table[Index(id)] := LiveOrder(o.(id := id), PendingNew, 0, 0, 0, true);
      liveCount := liveCount + 1;
      ok := true;
    }

    method DoAck(id: int, exchangeNo: int) returns (ok: bool)
      requires Valid()
      modifies this, table
      ensures (Abs(), ok) == OnAck(old(Abs()), id, exchangeNo)
    {
      var g := Find(id);
      if g.None? || table[g.value].state != PendingNew {
        return false;
      }
      var lo := table[g.value];
      table[g.value] := lo.(exchangeNo := exchangeNo, order := lo.order.(exchangeNo := exchangeNo),
        state := Acknowledged);
      return true;
    }

    method DoFill(f: FillReport) returns (ok: bool)
      requires Valid()
      modifies this, table
      ensures (Abs(), ok) == OnFill(old(Abs()), f)
    {
      var g := Find(f.id);
      if g.None? {
        return false;
      }
      ghost var was := table[..];
      var lo := table[g.value].(filledQty := table[g.value].filledQty + f.qty);
      if lo.filledQty >= lo.order.qty || f.remaining == 0 {
        table[g.value] := lo.(state := Filled);
        Release(g.value);
        assert table[..] == was[g.value := lo.(state := Filled, occupied := false)];
      } else {
        table[g.value] := lo.(state := PartiallyFilled);
      }
      return true;
    }

    method DoCancelAck(id: int) returns (ok: bool)
      requires Valid()
      modifies this, table
      ensures (Abs(), ok) == OnCancelAck(old(Abs()), id)
    {
      var g := Find(id);
      if g.None? {
        return false;
      }
      ghost var was := table[..];
      table[g.value] := table[g.value].(state := Cancelled);
      Release(g.value);
      assert table[..] == was[g.value := was[g.value].(state := Cancelled, occupied := false)];
      return true;
    }

    method DoReject(id: int, code: int) returns (ok: bool)
      requires Valid()
      modifies this, table
      ensures (Abs(), ok) == OnReject(old(Abs()), id, code)
    {
      var g := Find(id);
      if g.None? {
        return false;
      }
      ghost var was := table[..];
      table[g.value] := table[g.value].(state := Rejected, rejectCode := code);
      Release(g.value);
      assert table[..] == was[g.value := was[g.value].(state := Rejected, rejectCode := code, occupied := false)];
      return true;
    }
  }

  // ----- Every run -----

  ghost predicate IsFresh(t: Table) {
    && WellShaped(t) && t.liveCount == 0
    && forall i :: 0 <= i < |t.slots| ==> !t.slots[i].occupied && t.slots[i].state == Idle
  }

  datatype Event =
    | New(order: Order) | Ack(id: int, exchangeNo: int) | Fill(report: FillReport)
    | CancelAck(id: int) | Reject(id: int, code: int)

  ghost function Step(t: Table, e: Event): (r: Table)
    requires WellShaped(t)
    ensures WellShaped(r)
  {
    match e
    case New(o) => NewOrder(t, o).0
    case Ack(id, no) => OnAck(t, id, no).0
    case Fill(f) => OnFill(t, f).0
    case CancelAck(id) => OnCancelAck(t, id).0
    case Reject(id, code) => OnReject(t, id, code).0
  }

  ghost function Run(t: Table, events: seq<Event>): (r: Table)
    requires WellShaped(t)
    ensures WellShaped(r)
  {
    if events == [] then t else Step(Run(t, events[..|events| - 1]), events[|events| - 1])
  }

  ghost function Occupied(slots: seq<LiveOrder>): nat {
    if slots == [] then 0 else Occupied(slots[..|slots| - 1]) + if slots[|slots| - 1].occupied then 1 else 0
  }

  lemma {:induction false} OccupiedUpdate(slots: seq<LiveOrder>, i: nat, lo: LiveOrder)
    requires i < |slots|
    ensures Occupied(slots[i := lo]) == Occupied(slots) - (if slots[i].occupied then 1 else 0) +
      (if lo.occupied then 1 else 0)
  {
    var n := |slots| - 1;
    if i == n {
      assert slots[i := lo][..n] == slots[..n];
    } else {
      OccupiedUpdate(slots[..n], i, lo);
      assert slots[i := lo][..n] == slots[..n][i := lo];
    }
  }

  lemma {:induction false} NoneOccupied(slots: seq<LiveOrder>)
    requires forall i :: 0 <= i < |slots| ==> !slots[i].occupied
    ensures Occupied(slots) == 0
  {
    if slots != [] {
      NoneOccupied(slots[..|slots| - 1]);
    }
  }

  /** A live slot is in its own place and not terminal; a free one is not awaiting its first report. */
  ghost predicate SlotOk(i: nat, lo: LiveOrder) {
    && (lo.state != Idle ==> Index(lo.order.id) == i)
    && if lo.occupied then !Terminal(lo.state) && lo.state != Idle
       else lo.state != PendingNew && lo.state != Acknowledged
  }

  ghost predicate Consistent(t: Table) {
    && WellShaped(t) && t.liveCount == Occupied(t.slots)
    && forall i :: 0 <= i < |t.slots| ==> SlotOk(i, t.slots[i])
  }

  lemma StepKeepsConsistent(t: Table, e: Event)
    requires Consistent(t)
    ensures Consistent(Step(t, e))
  {
    var id := match e
      case New(o) => if o.id == 0 then t.nextId else o.id
      case Ack(id, _) => id
      case Fill(f) => f.id
      case CancelAck(id) => id
      case Reject(id, _) => id;
    var i, after := Index(id), Step(t, e);
    assert SlotOk(i, t.slots[i]);
    assert after.slots == t.slots[i := after.slots[i]];
    OccupiedUpdate(t.slots, i, after.slots[i]);
    if t.slots[i].occupied {
      OccupiedAtLeastOne(t.slots, i);
    }
  }

  lemma {:induction false} OccupiedAtLeastOne(slots: seq<LiveOrder>, i: nat)
    requires i < |slots| && slots[i].occupied
    ensures Occupied(slots) >= 1
  {
    OccupiedUpdate(slots, i, slots[i].(occupied := false));
  }

  lemma {:induction false} RunIsConsistent(t: Table, events: seq<Event>)
    requires IsFresh(t)
    ensures Consistent(Run(t, events))
  {
    if events == [] {
      NoneOccupied(t.slots);
    } else {
      RunIsConsistent(t, events[..|events| - 1]);
      StepKeepsConsistent(Run(t, events[..|events| - 1]), events[|events| - 1]);
    }
  }

  /**
   In every run, late and repeated reports included: the live count is the number of occupied
   slots, no live order is in a terminal state, each is found by its own id and no two share
   one, and a new order is taken exactly when its slot holds no live order.
   */
  lemma {:induction false} LiveOrdersAreIndexed(t: Table, events: seq<Event>, o: Order)
    requires IsFresh(t)
    ensures var r := Run(t, events);
      && r.liveCount == Occupied(r.slots)
      && (forall i :: 0 <= i < |r.slots| && r.slots[i].occupied ==>
        !Terminal(r.slots[i].state) && Get(r, r.slots[i].order.id) == Some(i))
      && (forall i, j :: 0 <= i < j < |r.slots| && r.slots[i].occupied && r.slots[j].occupied ==>
        r.slots[i].order.id != r.slots[j].order.id)
      && (var (after, id, ok) := NewOrder(r, o); ok <==> !r.slots[Index(id)].occupied)
  {
    RunIsConsistent(t, events);
    var r := Run(t, events);
    forall i | 0 <= i < |r.slots| && r.slots[i].occupied
      ensures !Terminal(r.slots[i].state) && Get(r, r.slots[i].order.id) == Some(i)
    {
      assert SlotOk(i, r.slots[i]);
    }
    assert SlotOk(Index(NewOrder(r, o).1), r.slots[Index(NewOrder(r, o).1)]);
  }

  // ----- Reports on released orders -----

  /** Quantity reported as filled for one id. */
  ghost function FilledFor(events: seq<Event>, id: int): int {
    if events == [] then 0 else
      var last := events[|events| - 1];
      FilledFor(events[..|events| - 1], id) + if last.Fill? && last.report.id == id then last.report.qty else 0
  }

  /** The last fill, cancel or reject about this order is a fill that neither completes it nor says so. */
  ghost predicate LastIsPartial(lo: LiveOrder, events: seq<Event>) {
    events != [] &&
    var front, last := events[..|events| - 1], events[|events| - 1];
    match last
    case Fill(f) =>
      if f.id == lo.order.id then lo.filledQty + FilledFor(events, f.id) < lo.order.qty && f.remaining != 0
      else LastIsPartial(lo, front)
    case CancelAck(id) => id != lo.order.id && LastIsPartial(lo, front)
    case Reject(id, _) => id != lo.order.id && LastIsPartial(lo, front)
    case _ => LastIsPartial(lo, front)
  }

  /** A new order is taken into slot `i`. */
  ghost predicate Reuses(t: Table, e: Event, i: nat)
    requires WellShaped(t)
  {
    e.New? && NewOrder(t, e.order).2 && Index(NewOrder(t, e.order).1) == i
  }

  ghost predicate NeverReuses(t: Table, events: seq<Event>, i: nat)
    requires WellShaped(t)
  {
    events == [] ||
    (var front := events[..|events| - 1];
     NeverReuses(t, front, i) && !Reuses(Run(t, front), events[|events| - 1], i))
  }

  ghost predicate ReleasedAt(t: Table, i: nat)
    requires WellShaped(t)
  {
    i < TABLE_SIZE && !t.slots[i].occupied && Terminal(t.slots[i].state) && Index(t.slots[i].order.id) == i
  }

  /** What late reports have made of a released order `lo`. */
  ghost predicate LateState(lo: LiveOrder, now: LiveOrder, events: seq<Event>) {
    && !now.occupied && now.order == lo.order && now.filledQty == lo.filledQty + FilledFor(events, lo.order.id)
    && now.state != PendingNew && now.state != Idle && (Terminal(now.state) <==> !LastIsPartial(lo, events))
  }

  lemma LateStep(t: Table, lo: LiveOrder, events: seq<Event>, i: nat)
    requires WellShaped(t) && i < TABLE_SIZE && Index(lo.order.id) == i && events != []
    requires LateState(lo, t.slots[i], events[..|events| - 1]) && !Reuses(t, events[|events| - 1], i)
    ensures LateState(lo, Step(t, events[|events| - 1]).slots[i], events)
  {
  }

  /**
   From any released order: whatever reports follow, until a new order is taken into its slot it
   stays released, and it is out of its terminal state exactly when the last report about it was
   a partial fill.
   */
  lemma {:induction false} LateReports(t: Table, events: seq<Event>, i: nat)
    requires WellShaped(t) && ReleasedAt(t, i) && NeverReuses(t, events, i)
    ensures LateState(t.slots[i], Run(t, events).slots[i], events)
  {
    if events != [] {
      var front := events[..|events| - 1];
      LateReports(t, front, i);
      LateStep(Run(t, front), t.slots[i], events, i);
    }
  }

  /** In every run a free slot in a terminal state is such a released order, so the above covers it. */
  lemma {:induction false} EveryTerminalIsReleased(t: Table, events: seq<Event>, i: nat)
    requires IsFresh(t) && i < TABLE_SIZE && Terminal(Run(t, events).slots[i].state)
    ensures ReleasedAt(Run(t, events), i)
  {
    RunIsConsistent(t, events);
    assert SlotOk(i, Run(t, events).slots[i]);
  }

  lemma {:induction false} RunSnoc(t: Table, events: seq<Event>, e: Event)
    requires WellShaped(t)
    ensures Run(t, events + [e]) == Step(Run(t, events), e)
  {
    assert (events + [e])[..|events|] == events;
  }

  /** A run in which a partial fill takes a cancelled order out of its terminal state. */
  lemma {:induction false} LateFillReopens(t: Table)
    requires IsFresh(t)
    ensures var slot := Run(t, [New(Order(7, 0, 10)), CancelAck(7), Fill(FillReport(7, 1, 9))]).slots[7];
      slot.state == PartiallyFilled && !slot.occupied
  {
    var placed, cancel, fill := New(Order(7, 0, 10)), CancelAck(7), Fill(FillReport(7, 1, 9));
    RunSnoc(t, [], placed);
    RunSnoc(t, [placed], cancel);
    RunSnoc(t, [placed, cancel], fill);
    assert [] + [placed] == [placed] && [placed] + [cancel] == [placed, cancel];
    assert [placed, cancel] + [fill] == [placed, cancel, fill];
  }
}
