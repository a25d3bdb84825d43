/** The platform's order slots: NEW / RPL / CXL by slot state, with one request in flight at most. */
module Connect {
  import opened Types

  datatype SlotState = NoOrder | Unacked | StandingAcked | StandingUnacked

  datatype Error = NoError | NoAck | SameOrder | NoSuchOrder

  datatype Quote = Quote(symId: int, price: int, qty: int, side: Side, index: nat, minPriceChange: int)

  datatype SlotKey = SlotKey(symId: int, side: Side, index: nat)

  datatype OrderSlot = OrderSlot(quote: Quote, state: SlotState, pendingCancel: bool)

  datatype MessageKind = New | Replace | Cancel

  /** The history of the slots: messages sent, and the moments at which everything in flight was acknowledged. */
  datatype Entry = Message(quote: Quote, ioc: bool, kind: MessageKind) | AckRound

  datatype Platform = Platform(orders: map<SlotKey, OrderSlot>, log: seq<Entry>, lastError: Error)

  const FREE := OrderSlot(Quote(0, 0, 0, Buy, 0, 0), NoOrder, false)

  function KeyOf(q: Quote): SlotKey { SlotKey(q.symId, q.side, q.index) }

  /** The 64-bit key of the source: id, side (1 or 2) and index packed together. */
  function PackedKey(k: SlotKey): int { k.symId * 65536 + (if k.side == Buy then 1 else 2) * 256 + k.index }

  /** Different slots never share a packed key. */
  lemma PackedKeyInjective(a: SlotKey, b: SlotKey)
    requires a.index < 256 && b.index < 256 && PackedKey(a) == PackedKey(b)
    ensures a == b
  {
  }

  function SlotAt(p: Platform, k: SlotKey): OrderSlot {
    if k in p.orders then p.orders[k] else FREE
  }

  predicate InFlight(s: SlotState) { s == Unacked || s == StandingUnacked }

  function Abs(x: int): int { if x < 0 then -x else x }

  predicate SameQuote(slot: OrderSlot, q: Quote) {
    || (slot.quote.price == q.price && slot.quote.qty == q.qty)
    || (q.minPriceChange > 0 && Abs(q.price - slot.quote.price) < q.minPriceChange)
  }

  /** What a request does to its slot: the slot after it, the message sent, if any, and the error code. */
  datatype Response = Response(slot: OrderSlot, sent: Option<MessageKind>, error: Error)

  function Respond(slot: OrderSlot, q: Quote, ioc: bool): Response {
    if InFlight(slot.state) then Response(slot, None, NoAck)
    else if q.price == 0 || q.qty == 0 then
      if slot.state == NoOrder then Response(slot, None, NoSuchOrder)
      else Response(slot.(state := StandingUnacked, pendingCancel := true), Some(Cancel), NoError)
    else if slot.state == StandingAcked then
      if SameQuote(slot, q) then Response(slot, None, SameOrder)
      else Response(slot.(quote := q, state := StandingUnacked), Some(Replace), NoError)
    else Response(slot.(quote := q, state := if ioc then NoOrder else Unacked), Some(New), NoError)
  }

  /** sendOrder: the platform works out whether the quote is a new order, a replacement or a cancel. */
  function Send(p: Platform, q: Quote, ioc: bool): (Platform, bool) {
    var k := KeyOf(q);
    var r := Respond(SlotAt(p, k), q, ioc);
    var log := if r.sent.None? then p.log else p.log + [Message(q, ioc, r.sent.value)];
    (Platform(p.orders[k := r.slot], log, r.error), r.sent.Some?)
  }

  /** getStandingOrder, without the copy. */
  predicate Standing(p: Platform, k: SlotKey) { k in p.orders && p.orders[k].state != NoOrder }

  function Acked(slot: OrderSlot): OrderSlot {
    if InFlight(slot.state) then OrderSlot(slot.quote, if slot.pendingCancel then NoOrder else StandingAcked, false)
      else slot
  }

  /** test_ackAll: the exchange answers every request in flight. */
  function AckAll(p: Platform): Platform {
    p.(orders := map k | k in p.orders :: Acked(p.orders[k]), log := p.log + [AckRound])
  }

  class ConnectImpl {
    var orders: map<SlotKey, OrderSlot>
    var log: seq<Entry>
    var lastError: Error

    ghost function Abstract(): Platform
      reads this
    {
      Platform(orders, log, lastError)
    }

    constructor ()
      ensures Abstract() == Platform(map[], [], NoError)
    {
      orders, log, lastError := map[], [], NoError;
    }

    method SendOrder(q: Quote, ioc: bool) returns (ok: bool)
      modifies this
      ensures (Abstract(), ok) == Send(old(Abstract()), q, ioc)
    {
      var k := KeyOf(q);
      var slot := if k in orders then orders[k] else FREE;
      ghost var was := orders;
      orders := orders[k := slot];
      if slot.state == Unacked || slot.state == StandingUnacked {
        lastError := NoAck;
        return false;
      }
      if q.price == 0 || q.qty == 0 {
        if slot.state == NoOrder {
          lastError := NoSuchOrder;
          return false;
        }
        orders := orders[k := slot.(state := StandingUnacked, pendingCancel := true)];
        assert orders == was[k := slot.(state := StandingUnacked, pendingCancel := true)];
        log, lastError := log + [Message(q, ioc, Cancel)], NoError;
        return true;
      }
      if slot.state == StandingAcked {
        if slot.quote.price == q.price && slot.quote.qty == q.qty {
          lastError := SameOrder;
          return false;
        }
        if q.minPriceChange > 0 && Abs(q.price - slot.quote.price) < q.minPriceChange {
          lastError := SameOrder;
          return false;
        }
        orders := orders[k := slot.(quote := q, state := StandingUnacked)];
        assert orders == was[k := slot.(quote := q, state := StandingUnacked)];
        log, lastError := log + [Message(q, ioc, Replace)], NoError;
        return true;
      }
      orders := orders[k := slot.(quote := q, state := if ioc then NoOrder else Unacked)];
      assert orders == was[k := slot.(quote := q, state := if ioc then NoOrder else Unacked)];
      log, lastError := log + [Message(q, ioc, New)], NoError;
      return true;
    }

    method GetStandingOrder(k: SlotKey) returns (standing: bool)
      ensures standing == Standing(Abstract(), k)
    {
      return k in orders && orders[k].state != NoOrder;
    }

    method TestAckAll()
      modifies this
      ensures Abstract() == AckAll(old(Abstract()))
    {
      var todo := orders.Keys;
      ghost var was := orders;
      while todo != {}
        invariant orders.Keys == was.Keys && todo <= was.Keys && log == old(log) && lastError == old(lastError)
        invariant forall k :: k in was ==> orders[k] == if k in todo then was[k] else Acked(was[k])
        decreases |todo|
      {
        var k :| k in todo;
        var slot := orders[k];
        if slot.state == Unacked || slot.state == StandingUnacked {
          orders := orders[k := OrderSlot(slot.quote, if slot.pendingCancel then NoOrder else StandingAcked, false)];
        }
        todo := todo - {k};
      }
      log := log + [AckRound];
    }
  }

  // ----- The life of one slot -----

  /** Where a slot is in its cycle, read off the history alone. */
  datatype Phase = Vacant | AwaitingNew | Resting | AwaitingReplace | AwaitingCancel | Broken

  function Advance(ph: Phase, e: Entry, k: SlotKey): Phase {
    match e
    case AckRound =>
      if ph == AwaitingNew || ph == AwaitingReplace then Resting else if ph == AwaitingCancel then Vacant else ph
    case Message(q, ioc, kind) =>
      if KeyOf(q) != k then ph
      else if kind == New && ph == Vacant then if ioc then Vacant else AwaitingNew
      else if kind == Replace && ph == Resting then AwaitingReplace
      else if kind == Cancel && ph == Resting then AwaitingCancel
      else Broken
  }

  /**
   The cycle New, Replace*, Cancel with an acknowledgement after each message; an
   immediate-or-cancel New leaves the slot vacant at once; anything else is Broken.
   */
  ghost function PhaseOf(log: seq<Entry>, k: SlotKey): Phase {
    if log == [] then Vacant else Advance(PhaseOf(log[..|log| - 1], k), log[|log| - 1], k)
  }

  /** The last quote that was sent for a slot as a New or a Replace, if there was one. */
  ghost function LastQuote(log: seq<Entry>, k: SlotKey): Option<Quote> {
    if log == [] then None else
      var last := log[|log| - 1];
      if IsMessageOf(last, k) && last.kind != Cancel then Some(last.quote) else LastQuote(log[..|log| - 1], k)
  }

  /** A replacement changes the price or the quantity, and the price by the least change that it asks for, if any. */
  predicate Moves(was: Quote, q: Quote) {
    && (q.price != was.price || q.qty != was.qty)
    && (q.minPriceChange > 0 ==> q.price >= was.price + q.minPriceChange || q.price <= was.price - q.minPriceChange)
  }

  /** Every Replace of a slot moves the quote it replaces. */
  ghost predicate ReplacesMove(log: seq<Entry>, k: SlotKey) {
    log == [] ||
    (var front, last := log[..|log| - 1], log[|log| - 1];
     && ReplacesMove(front, k)
     && (IsMessageOf(last, k) && last.kind == Replace ==>
           LastQuote(front, k).Some? && Moves(LastQuote(front, k).value, last.quote)))
  }

  ghost predicate IsMessageOf(e: Entry, k: SlotKey) { e.Message? && KeyOf(e.quote) == k }

  /** Entries i to j - 1 hold no message of slot `k`. */
  ghost predicate SilentBetween(log: seq<Entry>, k: SlotKey, i: nat, j: nat)
    requires j <= |log|
  {
    forall m :: i <= m < j ==> !IsMessageOf(log[m], k)
  }

  lemma {:induction false} BrokenStays(log: seq<Entry>, k: SlotKey, n: nat)
    requires n <= |log| && PhaseOf(log[..n], k) == Broken
    ensures PhaseOf(log, k) == Broken
  {
    if n < |log| {
      assert log[..|log| - 1][..n] == log[..n];
      BrokenStays(log[..|log| - 1], k, n);
    } else {
      assert log[..n] == log;
    }
  }

  lemma {:induction false} PhaseFrozen(log: seq<Entry>, k: SlotKey, i: nat, j: nat)
    requires i <= j <= |log|
    requires forall m :: i <= m < j ==> !IsMessageOf(log[m], k) && !log[m].AckRound?
    ensures PhaseOf(log[..j], k) == PhaseOf(log[..i], k)
  {
    if i < j {
      PhaseFrozen(log, k, i, j - 1);
      assert log[..j][..j - 1] == log[..j - 1];
    }
  }

  /** Without messages of its own, acknowledgements are all that moves a slot. */
  lemma {:induction false} OnlyAcksMove(log: seq<Entry>, k: SlotKey, i: nat, j: nat)
    requires i <= j <= |log|
    requires SilentBetween(log, k, i, j)
    ensures PhaseOf(log[..j], k) == PhaseOf(log[..i], k) ||
      PhaseOf(log[..j], k) == Advance(PhaseOf(log[..i], k), AckRound, k)
  {
    if i < j {
      OnlyAcksMove(log, k, i, j - 1);
      assert log[..j][..j - 1] == log[..j - 1];
    }
  }

  lemma {:induction false} PhaseAfter(log: seq<Entry>, k: SlotKey, i: nat)
    requires i < |log| && PhaseOf(log, k) != Broken
    ensures PhaseOf(log[..i + 1], k) == Advance(PhaseOf(log[..i], k), log[i], k) && PhaseOf(log[..i + 1], k) != Broken
  {
    assert log[..i + 1][..i] == log[..i];
    if PhaseOf(log[..i + 1], k) == Broken {
      BrokenStays(log, k, i + 1);
    }
  }

  /** A New that leaves no order behind. */
  predicate Immediate(e: Entry) { e.Message? && e.kind == New && e.ioc }

  /**
   What a history that is not Broken means: between any two successive messages of a slot there
   is an acknowledgement, unless the earlier one is an immediate New, and the later one is a New
   exactly when the earlier one is a Cancel or an immediate New.
   */
  lemma {:induction false} MessagesCycle(log: seq<Entry>, k: SlotKey, i: nat, j: nat)
    requires i < j < |log| && IsMessageOf(log[i], k) && IsMessageOf(log[j], k)
    requires SilentBetween(log, k, i + 1, j)
    requires PhaseOf(log, k) != Broken
    ensures Immediate(log[i]) || exists m :: i < m < j && log[m].AckRound?
    ensures log[j].kind == New <==> log[i].kind == Cancel || Immediate(log[i])
  {
    PhaseAfter(log, k, i);
    PhaseAfter(log, k, j);
    OnlyAcksMove(log, k, i + 1, j);
    if forall m :: i < m < j ==> !log[m].AckRound? {
      PhaseFrozen(log, k, i + 1, j);
    }
  }

  ghost predicate NoImmediate(log: seq<Entry>) {
    forall i :: 0 <= i < |log| ==> !Immediate(log[i])
  }

  /** The first message of a slot is a New. */
  lemma {:induction false} FirstMessageIsNew(log: seq<Entry>, k: SlotKey, j: nat)
    requires j < |log| && IsMessageOf(log[j], k) && PhaseOf(log, k) != Broken
    requires SilentBetween(log, k, 0, j)
    ensures log[j].kind == New
  {
    OnlyAcksMove(log, k, 0, j);
    assert log[..0] == [];
    PhaseAfter(log, k, j);
  }
}
