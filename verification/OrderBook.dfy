/**
 The order book: the order table, two sides of price levels and the sequence-gap state
 machine, first as a function on values and then as the object that updates in place.
 */
module OrderBook {
  import opened Types
  import opened OrderTable
  import opened PriceLevels

  datatype BookResult = Ok | Seeded | Gap | StaleDropped | TickViolation | UnknownOrder | FullTable

  datatype Config = Config(tick: int, capacity: nat)

  /** What the book shows: the tracked orders and the levels of both sides. */
  datatype Contents = Contents(orders: map<int, OrderRecord>, bids: seq<PriceLevel>, asks: seq<PriceLevel>) {
    function Levels(side: Side): seq<PriceLevel> { if side == Buy then bids else asks }

    function WithLevels(side: Side, s: seq<PriceLevel>): Contents {
      if side == Buy then this.(bids := s) else this.(asks := s)
    }
  }

  datatype Book = Book(contents: Contents, expectedSeq: nat, stale: bool, gapCount: nat)

  const EMPTY := Contents(map[], [], [])
  const NEW_BOOK := Book(EMPTY, 0, false, 0)

  predicate TickOk(tick: int, price: int) {
    tick == 0 || price % tick == 0
  }

  /** The sequence number expected after `no`, in 64-bit unsigned arithmetic. */
  function NextSeq(no: nat): nat { (no + 1) % TWO_TO_THE_64 }

  predicate IsGap(expected: nat, no: nat) {
    no != 0 && expected != 0 && no != expected
  }

  predicate IsOrderEvent(kind: int) {
    kind == ORDER_ADD || kind == ORDER_MODIFY || kind == ORDER_CANCEL || kind == TRADE
  }

  // ----- Event handlers, on values -----

  ghost function AddLevelQty(c: Contents, side: Side, p: int, qty: int): Contents {
    c.WithLevels(side, AddQty(side, c.Levels(side), p, qty))
  }

  ghost function RemoveLevelQty(c: Contents, side: Side, p: int, qty: int, dropOrder: bool): Contents {
    c.WithLevels(side, RemoveQty(side, c.Levels(side), p, qty, dropOrder))
  }

  function SeedLevels(cfg: Config, price: int, qty: int): seq<PriceLevel> {
    if qty > 0 && TickOk(cfg.tick, price) then [PriceLevel(price, qty, 1)] else []
  }

  function SeedContents(cfg: Config, ev: MarketEvent): Contents {
    Contents(map[], SeedLevels(cfg, ev.bidPrice, ev.bidQty), SeedLevels(cfg, ev.askPrice, ev.askQty))
  }

  ghost function Add(cfg: Config, c: Contents, ev: MarketEvent): (Contents, BookResult) {
    if !TickOk(cfg.tick, ev.price) then (c, TickViolation)
    else if ev.orderNo !in c.orders && |c.orders| >= cfg.capacity then (c, FullTable)
    else
      var rec := OrderRecord(ev.orderNo, ev.price, ev.qty, ev.side);
      (AddLevelQty(c.(orders := c.orders[ev.orderNo := rec]), ev.side, ev.price, ev.qty), Ok)
  }

  ghost function Modify(cfg: Config, c: Contents, ev: MarketEvent): (Contents, BookResult) {
    if !TickOk(cfg.tick, ev.price) then (c, TickViolation)
    else if ev.orderNo !in c.orders then (c, UnknownOrder)
    else
      var rec := c.orders[ev.orderNo];
      var removed := RemoveLevelQty(c, rec.side, rec.price, rec.qty, true);
      var requeued := removed.(orders := removed.orders[ev.orderNo := rec.(price := ev.price, qty := ev.qty)]);
      (AddLevelQty(requeued, rec.side, ev.price, ev.qty), Ok)
  }

  ghost function Cancel(c: Contents, ev: MarketEvent): (Contents, BookResult) {
    if ev.orderNo !in c.orders then (c, UnknownOrder)
    else
      var rec := c.orders[ev.orderNo];
      var removed := RemoveLevelQty(c, rec.side, rec.price, rec.qty, true);
      (removed.(orders := removed.orders - {ev.orderNo}), Ok)
  }

  predicate Tracks(c: Contents, orderNo: int) { orderNo != 0 && orderNo in c.orders }

  /** One leg of a trade: the resting order shrinks, or goes when it is fully consumed. */
  ghost function Reduce(c: Contents, orderNo: int, traded: int): Contents {
    if !Tracks(c, orderNo) then c else
      var rec := c.orders[orderNo];
      if traded >= rec.qty then
        var removed := RemoveLevelQty(c, rec.side, rec.price, rec.qty, true);
        removed.(orders := removed.orders - {orderNo})
      else
        var removed := RemoveLevelQty(c, rec.side, rec.price, traded, false);
        removed.(orders := removed.orders[orderNo := rec.(qty := rec.qty - traded)])
  }

  ghost function ApplyTrade(c: Contents, ev: MarketEvent): (Contents, BookResult) {
    var first := Reduce(c, ev.orderNo, ev.qty);
    (Reduce(first, ev.orderNo2, ev.qty),
     if Tracks(c, ev.orderNo) || Tracks(first, ev.orderNo2) then Ok else UnknownOrder)
  }

  /** The effect of an event when sequence numbers are not looked at. */
  ghost function Handle(cfg: Config, c: Contents, ev: MarketEvent): (Contents, BookResult) {
    if ev.kind == SNAP_QUOTE then (SeedContents(cfg, ev), Seeded)
    else if ev.kind == ORDER_ADD then Add(cfg, c, ev)
    else if ev.kind == ORDER_MODIFY then Modify(cfg, c, ev)
    else if ev.kind == ORDER_CANCEL then Cancel(c, ev)
    else if ev.kind == TRADE then ApplyTrade(c, ev)
    else (c, Ok)
  }

  /** apply_event: gap detection, then the handler unless the book waits for a reseed. */
  ghost function Step(cfg: Config, b: Book, ev: MarketEvent): (Book, BookResult)
  {
    var gap := IsGap(b.expectedSeq, ev.seqNo);
    var expected := if ev.seqNo != 0 then NextSeq(ev.seqNo) else b.expectedSeq;
    var gaps := if gap then b.gapCount + 1 else b.gapCount;
    if gap && ev.kind != SNAP_QUOTE then (Book(b.contents, expected, true, gaps), Gap)
    else if b.stale && IsOrderEvent(ev.kind) then (Book(b.contents, expected, true, gaps), StaleDropped)
    else
      var (c, r) := Handle(cfg, b.contents, ev);
      (Book(c, expected, if ev.kind == SNAP_QUOTE then false else b.stale, gaps), r)
  }

  // ----- Events that never return -----

  /** A leg of a trade that consumes its order erases it. */
  predicate Consumes(c: Contents, orderNo: int, traded: int) {
    Tracks(c, orderNo) && traded >= c.orders[orderNo].qty
  }

  /** Erasing a tracked order from a full table does not terminate. */
  predicate ReduceHangs(cfg: Config, c: Contents, orderNo: int, traded: int) {
    Consumes(c, orderNo, traded) && |c.orders| >= cfg.capacity
  }

  ghost predicate HandleHangs(cfg: Config, c: Contents, ev: MarketEvent) {
    || (ev.kind == ORDER_CANCEL && ev.orderNo in c.orders && |c.orders| >= cfg.capacity)
    || (ev.kind == TRADE &&
         (ReduceHangs(cfg, c, ev.orderNo, ev.qty) ||
           ReduceHangs(cfg, Reduce(c, ev.orderNo, ev.qty), ev.orderNo2, ev.qty)))
  }

  ghost predicate Hangs(cfg: Config, b: Book, ev: MarketEvent) {
    !IsGap(b.expectedSeq, ev.seqNo) && !b.stale && HandleHangs(cfg, b.contents, ev)
  }

  /** One of the erases of a handled event, on the tables `s` and then `s2`, never stops. */
  ghost predicate AnEraseHangs(c: Contents, ev: MarketEvent, home: int -> nat, s: seq<Slot>, s2: seq<Slot>) {
    || (ev.kind == ORDER_CANCEL && EraseHangs(s, home, ev.orderNo))
    || (ev.kind == TRADE && Consumes(c, ev.orderNo, ev.qty) && EraseHangs(s, home, ev.orderNo))
    || (ev.kind == TRADE && Consumes(Reduce(c, ev.orderNo, ev.qty), ev.orderNo2, ev.qty) &&
      EraseHangs(s2, home, ev.orderNo2))
  }

  /** HandleHangs says exactly when an erase loop of the event never stops, whatever tables stand for the orders. */
  lemma HandleHangsIff(cfg: Config, c: Contents, ev: MarketEvent, home: int -> nat, s: seq<Slot>, s2: seq<Slot>)
    requires TableFor(s, home, c.orders) && TableFor(s2, home, Reduce(c, ev.orderNo, ev.qty).orders)
    requires |s| == |s2| == cfg.capacity
    ensures HandleHangs(cfg, c, ev) <==> AnEraseHangs(c, ev, home, s, s2)
  {
    var first := Reduce(c, ev.orderNo, ev.qty);
    FullIffAtCapacity(s, home, c.orders);
    FullIffAtCapacity(s2, home, first.orders);
    EraseHangsIff(s, home, c.orders, ev.orderNo);
    EraseHangsIff(s2, home, first.orders, ev.orderNo2);
  }

  // ----- The book as the source keeps it -----

  /** Fibonacci hashing of the 64-bit order number, masked to the table. */
  function FibonacciHash(orderNo: int, capacity: nat): (h: nat)
    requires capacity > 0
    ensures h < capacity
  {
    var product := (orderNo % TWO_TO_THE_64) * 0x9E3779B97F4A7C15 % TWO_TO_THE_64;
    (product / 0x100_0000_0000) % capacity
  }

  ghost predicate IsPowerOfTwo(p: nat) {
    p == 1 || (p > 1 && p % 2 == 0 && IsPowerOfTwo(p / 2))
  }

  /** The smallest power of two that is at least `v`. */
  method RoundUpPow2(v: nat) returns (p: nat)
    ensures IsPowerOfTwo(p) && v <= p && (p == 1 || p / 2 < v)
  {
    p := 1;
    while p < v
      invariant IsPowerOfTwo(p) && (p == 1 || p / 2 < v)
    {
      assert p * 2 / 2 == p;
      p := p * 2;
    }
  }

  class OrderBook {
    const tickSize: int
    const table: OrderTable
    const bids: BookSide
    const asks: BookSide
    var expectedSeq: nat
    var stale: bool
    var gapCount: nat

    ghost const Repr: set<object> := {this, table, table.slots, bids, bids.levels, asks, asks.levels}

    ghost predicate Valid()
      reads Repr
    {
      && table.Valid() && bids.Valid() && asks.Valid()
      && bids.side == Buy && asks.side == Sell
      && bids != asks && bids.levels != asks.levels
    }

    ghost function Cfg(): Config { Config(tickSize, table.capacity) }

    ghost function Shown(): Contents
      reads Repr
      requires Valid()
    {
      Contents(table.contents, bids.Levels(), asks.Levels())
    }

    ghost function Abs(): Book
      reads Repr
      requires Valid()
    {
      Book(Shown(), expectedSeq, stale, gapCount)
    }

    constructor (tickSize: int, orderCapacity: nat)
      ensures Valid() && fresh(Repr) && Abs() == NEW_BOOK
      ensures this.tickSize == tickSize && IsPowerOfTwo(table.capacity) && orderCapacity <= table.capacity
    {
      var capacity := RoundUpPow2(orderCapacity);
      this.tickSize := tickSize;
      table := new OrderTable(capacity, k => if capacity > 0 then FibonacciHash(k, capacity) else 0);
      bids := new BookSide(Buy);
      asks := new BookSide(Sell);
      expectedSeq, stale, gapCount := 0, false, 0;
    }

    method AddQtyTo(side: Side, price: int, qty: int)
      requires Valid()
      modifies Repr - {this, table, table.slots}
      ensures Valid() && Shown() == AddLevelQty(old(Shown()), side, price, qty)
    {
      if side == Buy {
        bids.AddQtyToLevel(price, qty);
      } else {
        asks.AddQtyToLevel(price, qty);
      }
    }

    method RemoveQtyFrom(side: Side, price: int, qty: int, dropOrder: bool)
      requires Valid()
      modifies Repr - {this, table, table.slots}
      ensures Valid() && Shown() == RemoveLevelQty(old(Shown()), side, price, qty, dropOrder)
    {
      if side == Buy {
        bids.RemoveQtyFromLevel(price, qty, dropOrder);
      } else {
        asks.RemoveQtyFromLevel(price, qty, dropOrder);
      }
    }

    /** Drops a record and leaves the levels alone. */
    method Forget(orderNo: int)
      requires Valid()
      requires orderNo in table.contents ==> |table.contents| < table.capacity
      modifies table, table.slots
      ensures Valid() && Shown() == old(Shown()).(orders := old(Shown()).orders - {orderNo})
    {
      table.EraseOrder(orderNo);
    }

    /** Writes a record in place and leaves the levels alone. */
    method Rewrite(at: nat, rec: OrderRecord)
      requires Valid()
      requires at < table.slots.Length && table.slots[at].occupied && table.slots[at].rec.orderNo == rec.orderNo
      modifies table, table.slots
      ensures Valid() && Shown() == old(Shown()).(orders := old(Shown()).orders[rec.orderNo := rec])
    {
      table.Overwrite(at, rec);
    }

    method HandleAdd(ev: MarketEvent) returns (r: BookResult)
      requires Valid()
      modifies Repr - {this}
      ensures Valid() && (Shown(), r) == Add(Cfg(), old(Shown()), ev)
    {
      if !TickOk(tickSize, ev.price) {
        return TickViolation;
      }
      var inserted := table.InsertOrder(OrderRecord(ev.orderNo, ev.price, ev.qty, ev.side));
      if !inserted {
        return FullTable;
      }
      AddQtyTo(ev.side, ev.price, ev.qty);
      return Ok;
    }

    method HandleModify(ev: MarketEvent) returns (r: BookResult)
      requires Valid()
      modifies Repr - {this}
      ensures Valid() && (Shown(), r) == Modify(Cfg(), old(Shown()), ev)
    {
      if !TickOk(tickSize, ev.price) {
        return TickViolation;
      }
      var found := table.FindOrder(ev.orderNo);
      if found.None? {
        return UnknownOrder;
      }
      var rec := table.slots[found.value].rec;
      RemoveQtyFrom(rec.side, rec.price, rec.qty, true);
      Rewrite(found.value, rec.(price := ev.price, qty := ev.qty));
      AddQtyTo(rec.side, ev.price, ev.qty);
      return Ok;
    }

    method HandleCancel(ev: MarketEvent) returns (r: BookResult)
      requires Valid()
      requires ev.orderNo in table.contents ==> |table.contents| < table.capacity
      modifies Repr - {this}
      ensures Valid() && (Shown(), r) == Cancel(old(Shown()), ev)
    {
      var found := table.FindOrder(ev.orderNo);
      if found.None? {
        return UnknownOrder;
      }
      var rec := table.slots[found.value].rec;
      RemoveQtyFrom(rec.side, rec.price, rec.qty, true);
      Forget(ev.orderNo);
      return Ok;
    }

    /** The trade consumes the order: its whole quantity leaves the level and the record goes. */
    method ReduceFully(rec: OrderRecord, traded: int)
      requires Valid() && Tracks(Shown(), rec.orderNo) && Shown().orders[rec.orderNo] == rec
      requires traded >= rec.qty && |Shown().orders| < Cfg().capacity
      modifies Repr - {this}
      ensures Valid() && Shown() == Reduce(old(Shown()), rec.orderNo, traded)
    {
      RemoveQtyFrom(rec.side, rec.price, rec.qty, true);
      Forget(rec.orderNo);
    }

    /** The trade leaves some of the order: the traded quantity leaves the level and the record. */
    method ReducePartly(at: nat, rec: OrderRecord, traded: int)
      requires Valid() && Tracks(Shown(), rec.orderNo) && Shown().orders[rec.orderNo] == rec
      requires at < table.slots.Length && table.slots[at] == Slot(rec, true) && traded < rec.qty
      modifies Repr - {this}
      ensures Valid() && Shown() == Reduce(old(Shown()), rec.orderNo, traded)
    {
      RemoveQtyFrom(rec.side, rec.price, traded, false);
      Rewrite(at, rec.(qty := rec.qty - traded));
    }

    method ReduceResting(orderNo: int, traded: int) returns (found: bool)
      requires Valid() && !ReduceHangs(Cfg(), Shown(), orderNo, traded)
      modifies Repr - {this}
      ensures Valid() && Shown() == Reduce(old(Shown()), orderNo, traded)
      ensures found == Tracks(old(Shown()), orderNo)
    {
      if orderNo == 0 {
        return false;
      }
      var at := table.FindOrder(orderNo);
      if at.None? {
        return false;
      }
      var rec := table.slots[at.value].rec;
      if traded >= rec.qty {
        ReduceFully(rec, traded);
      } else {
        ReducePartly(at.value, rec, traded);
      }
      return true;
    }

    method HandleTrade(ev: MarketEvent) returns (r: BookResult)
      requires Valid() && ev.kind == TRADE && !HandleHangs(Cfg(), Shown(), ev)
      modifies Repr - {this}
      ensures Valid() && (Shown(), r) == ApplyTrade(old(Shown()), ev)
    {
      var a := ReduceResting(ev.orderNo, ev.qty);
      var b := ReduceResting(ev.orderNo2, ev.qty);
      return if a || b then Ok else UnknownOrder;
    }

    method SeedSide(s: BookSide, price: int, qty: int)
      requires s.Valid()
      modifies s, s.levels
      ensures s.Valid() && s.Levels() == SeedLevels(Cfg(), price, qty)
    {
      s.Reset(if qty > 0 && TickOk(tickSize, price) then Some(PriceLevel(price, qty, 1)) else None);
    }

    method Seed(ev: MarketEvent) returns (r: BookResult)
      requires Valid()
      modifies Repr
      ensures Valid()
      ensures var expected := if ev.seqNo != 0 then NextSeq(ev.seqNo) else old(expectedSeq);
        Abs() == Book(SeedContents(Cfg(), ev), expected, false, old(gapCount))
      ensures r == Seeded && Shown().orders == map[]
      ensures Shown().bids == if ev.bidQty > 0 && (tickSize == 0 || ev.bidPrice % tickSize == 0)
        then [PriceLevel(ev.bidPrice, ev.bidQty, 1)] else []
      ensures Shown().asks == if ev.askQty > 0 && (tickSize == 0 || ev.askPrice % tickSize == 0)
        then [PriceLevel(ev.askPrice, ev.askQty, 1)] else []
    {
      table.Clear();
      if ev.seqNo != 0 {
        expectedSeq := NextSeq(ev.seqNo);
      }
      stale := false;
      SeedSide(bids, ev.bidPrice, ev.bidQty);
      SeedSide(asks, ev.askPrice, ev.askQty);
      return Seeded;
    }

    /** apply_event: the single entry point. */
    method ApplyEvent(ev: MarketEvent) returns (r: BookResult)
      requires Valid() && !Hangs(Cfg(), Abs(), ev)
      modifies Repr
      ensures Valid() && (Abs(), r) == Step(Cfg(), old(Abs()), ev)
    {
      if ev.seqNo != 0 {
        if expectedSeq != 0 && ev.seqNo != expectedSeq {
          gapCount := gapCount + 1;
          stale := true;
          expectedSeq := NextSeq(ev.seqNo);
          if ev.kind != SNAP_QUOTE {
            return Gap;
          }
        } else {
          expectedSeq := NextSeq(ev.seqNo);
        }
      }
      if ev.kind == SNAP_QUOTE {
        r := Seed(ev);
        return;
      }
      if !IsOrderEvent(ev.kind) {
        return Ok;
      }
      if stale {
        return StaleDropped;
      }
      if ev.kind == ORDER_ADD {
        r := HandleAdd(ev);
      } else if ev.kind == ORDER_MODIFY {
        r := HandleModify(ev);
      } else if ev.kind == ORDER_CANCEL {
        r := HandleCancel(ev);
      } else {
        r := HandleTrade(ev);
      }
    }

    /** best_bid and best_ask: the head of the side, or nothing. */
    method Best(side: Side) returns (best: Option<PriceLevel>)
      requires Valid()
      ensures best == if Shown().Levels(side) == [] then None else Some(Shown().Levels(side)[0])
    {
      var s := if side == Buy then bids else asks;
      return if s.count > 0 then Some(s.levels[0]) else None;
    }
  }

  lemma ReduceKeepsKeys(c: Contents, orderNo: int, traded: int)
    requires forall k :: k in c.orders ==> c.orders[k].orderNo == k
    ensures var d := Reduce(c, orderNo, traded);
      d.orders.Keys <= c.orders.Keys && forall k :: k in d.orders ==> d.orders[k].orderNo == k
  {
  }

  /**
   At any book, there is a table for the orders after a first leg, and an event runs into an erase
   loop that never stops exactly when Hangs holds: the precondition of ApplyEvent leaves out no
   event that returns.
   */
  lemma HangsIff(book: OrderBook, ev: MarketEvent) returns (s2: seq<Slot>)
    requires book.Valid()
    ensures |s2| == book.table.capacity
    ensures TableFor(s2, book.table.hash, Reduce(book.Shown(), ev.orderNo, ev.qty).orders)
    ensures Hangs(book.Cfg(), book.Abs(), ev) <==>
      && !IsGap(book.expectedSeq, ev.seqNo) && !book.stale
      && AnEraseHangs(book.Shown(), ev, book.table.hash, book.table.slots[..], s2)
  {
    var c, home, s := book.Shown(), book.table.hash, book.table.slots[..];
    var first := Reduce(c, ev.orderNo, ev.qty);
    FullIffAtCapacity(s, home, c.orders);
    ReduceKeepsKeys(c, ev.orderNo, ev.qty);
    SubsetSize(first.orders.Keys, c.orders.Keys);
    s2 := TableExists(home, first.orders, book.table.capacity);
    HandleHangsIff(book.Cfg(), c, ev, home, s, s2);
  }
}
