/** The quoting protocol over arbitrary runs of book updates, fills and cancel reports. */
module MakerRuns {
  import opened Types
  import opened Session
  import opened MarketMaking

  datatype Event = Update(token: nat, market: Market) | Filled(fill: Fill) | Cancelled(id: int)

  /** The strategy with its history: every order emitted, and the ids that were cancelled or completed. */
  datatype Ledger = Ledger(maker: Maker, orders: seq<Order>, closed: set<int>)

  ghost function Ids(s: seq<int>): set<int> { set x | x in s }

  ghost function Step(cfg: Config, l: Ledger, e: Event): Ledger
    requires WellShaped(l.maker)
  {
    match e
    case Update(token, market) =>
      var m := BookUpdate(cfg, l.maker, token, market);
      Ledger(m, l.orders + m.pending, l.closed + Ids(m.cancels))
    case Filled(f) => Ledger(OnFill(l.maker, f), l.orders, if f.remaining == 0 then l.closed + {f.id} else l.closed)
    case Cancelled(id) => Ledger(OnCancel(l.maker, id), l.orders, l.closed + {id})
  }

  ghost function Initial(): (l: Ledger)
    ensures WellShaped(l.maker)
  {
    Ledger(Maker(seq(MAX_TOKENS, _ => NO_QUOTES), seq(MAX_TOKENS, _ => 0), [], [], 1), [], {})
  }

  ghost function Run(cfg: Config, events: seq<Event>): (l: Ledger)
    ensures WellShaped(l.maker)
  {
    if events == [] then Initial() else Step(cfg, Run(cfg, events[..|events| - 1]), events[|events| - 1])
  }

  /** Reports are about orders that were emitted, and a fill carries its order's token. */
  ghost predicate Genuine(orders: seq<Order>, e: Event) {
    && (e.Filled? ==> exists i :: 0 <= i < |orders| && orders[i].id == e.fill.id && orders[i].token == e.fill.token)
    && (e.Cancelled? ==> exists i :: 0 <= i < |orders| && orders[i].id == e.id)
  }

  ghost predicate GenuineRun(cfg: Config, events: seq<Event>) {
    events == [] ||
    (var front := events[..|events| - 1];
     GenuineRun(cfg, front) && Genuine(Run(cfg, front).orders, events[|events| - 1]))
  }

  // ----- The invariant -----

  ghost predicate Numbered(orders: seq<Order>, nextId: int) {
    && (forall i :: 0 <= i < |orders| ==> 1 <= orders[i].id < nextId)
    && (forall i, j :: 0 <= i < j < |orders| ==> orders[i].id < orders[j].id)
  }

  /** Order `o` is recorded as the working quote of its token and side. */
  ghost predicate Recorded(quotes: seq<QuoteState>, o: Order) {
    o.token < |quotes| && Works(quotes[o.token], o.side, o.id)
  }

  ghost predicate Open(orders: seq<Order>, closed: set<int>, i: nat)
    requires i < |orders|
  {
    orders[i].id !in closed
  }

  /** An active quote is an open order of that token and side. */
  ghost predicate Backed(orders: seq<Order>, closed: set<int>, t: nat, side: Side, id: int) {
    exists i: nat :: i < |orders| && Open(orders, closed, i) && orders[i].id == id && orders[i].token == t &&
      orders[i].side == side
  }

  ghost predicate Core(quotes: seq<QuoteState>, nextId: int, orders: seq<Order>, closed: set<int>) {
    && nextId >= 1 && Numbered(orders, nextId)
    && (forall c :: c in closed ==> c < nextId)
    && (forall i: nat :: i < |orders| && Open(orders, closed, i) ==> Recorded(quotes, orders[i]))
    && (forall t: nat, side: Side :: t < |quotes| && quotes[t].Get(side).active ==>
      Backed(orders, closed, t, side, quotes[t].Get(side).id))
  }

  lemma CancelKeepsCore(quotes: seq<QuoteState>, nextId: int, orders: seq<Order>, closed: set<int>, t: nat, side: Side)
    requires Core(quotes, nextId, orders, closed) && t < |quotes| && quotes[t].Get(side).active
    ensures Core(quotes[t := quotes[t].Pulled(side)], nextId, orders, closed + {quotes[t].Get(side).id})
  {
    var id := quotes[t].Get(side).id;
    var quotes', closed' := quotes[t := quotes[t].Pulled(side)], closed + {id};
    assert Backed(orders, closed, t, side, id);
    var k: nat :| k < |orders| && orders[k].id == id && orders[k].token == t && orders[k].side == side;
    forall i: nat | i < |orders| && Open(orders, closed', i)
      ensures Recorded(quotes', orders[i])
    {
      assert Open(orders, closed, i);
    }
    forall u: nat, s: Side | u < |quotes'| && quotes'[u].Get(s).active
      ensures Backed(orders, closed', u, s, quotes'[u].Get(s).id)
    {
      assert quotes'[u].Get(s) == quotes[u].Get(s);
      var j: nat :| j < |orders| && Open(orders, closed, j) && orders[j].id == quotes[u].Get(s).id &&
        orders[j].token == u && orders[j].side == s;
      assert j != k;
      assert Open(orders, closed', j);
    }
  }

  lemma PlaceKeepsCore(quotes: seq<QuoteState>, orders: seq<Order>, closed: set<int>, o: Order)
    requires Core(quotes, o.id, orders, closed) && o.token < |quotes| && !quotes[o.token].Get(o.side).active
    ensures var quoted := quotes[o.token].With(o.side, SideQuote(true, o.price, o.createdAt, o.id));
      Core(quotes[o.token := quoted], o.id + 1, orders + [o], closed)
  {
    var quotes' := quotes[o.token := quotes[o.token].With(o.side, SideQuote(true, o.price, o.createdAt, o.id))];
    var orders' := orders + [o];
    forall i: nat | i < |orders'| && Open(orders', closed, i)
      ensures Recorded(quotes', orders'[i])
    {
      assert i < |orders| ==> Open(orders, closed, i) && Recorded(quotes, orders[i]);
    }
    forall u: nat, s: Side | u < |quotes'| && quotes'[u].Get(s).active
      ensures Backed(orders', closed, u, s, quotes'[u].Get(s).id)
    {
      if u == o.token && s == o.side {
        assert orders'[|orders|] == o && Open(orders', closed, |orders|);
      } else {
        assert Backed(orders, closed, u, s, quotes[u].Get(s).id);
        var j: nat :| j < |orders| && Open(orders, closed, j) && orders[j].id == quotes[u].Get(s).id &&
          orders[j].token == u && orders[j].side == s;
        assert orders'[j] == orders[j] && Open(orders', closed, j);
      }
    }
  }

  /** The invariant in the middle of a book update, with at most `n` outputs so far. */
  ghost predicate Mid(m: Maker, orders: seq<Order>, closed: set<int>, n: nat) {
    && WellShaped(m) && |m.pending| <= n && |m.cancels| <= n
    && Core(m.quotes, m.nextId, orders + m.pending, closed + Ids(m.cancels))
  }

  lemma CancelSideKeepsMid(m: Maker, orders: seq<Order>, closed: set<int>, n: nat, token: nat, side: Side)
    requires Mid(m, orders, closed, n) && n < MAX_PENDING && token < MAX_TOKENS
    ensures var r := CancelSide(m, token, side);
      && Mid(r, orders, closed, n + 1) && !r.quotes[token].Get(side).active
      && |r.pending| == |m.pending|
  {
    var q := m.quotes[token].Get(side);
    if q.active {
      CancelKeepsCore(m.quotes, m.nextId, orders + m.pending, closed + Ids(m.cancels), token, side);
      assert closed + Ids(m.cancels + [q.id]) == closed + Ids(m.cancels) + {q.id};
    }
  }

  lemma PlaceKeepsMid(m: Maker, orders: seq<Order>, closed: set<int>, n: nat, token: nat, side: Side, price: int,
      qty: int, now: nat)
    requires Mid(m, orders, closed, n + 1) && |m.pending| <= n < MAX_PENDING && token < MAX_TOKENS
    requires !m.quotes[token].Get(side).active
    ensures Mid(Place(m, token, side, price, qty, now), orders, closed, n + 1)
  {
    var o := Order(m.nextId, token, price, qty, side, now);
    PlaceKeepsCore(m.quotes, orders + m.pending, closed + Ids(m.cancels), o);
    assert orders + m.pending + [o] == orders + (m.pending + [o]);
  }

  lemma QuoteKeepsMid(cfg: Config, m: Maker, orders: seq<Order>, closed: set<int>, n: nat, token: nat, side: Side,
      desired: int, qty: int, allowed: bool, now: nat)
    requires Mid(m, orders, closed, n) && n < MAX_PENDING && token < MAX_TOKENS
    ensures Mid(QuoteOneSide(cfg, m, token, side, desired, qty, allowed, now), orders, closed, n + 1)
  {
    CancelSideKeepsMid(m, orders, closed, n, token, side);
    PlaceKeepsMid(CancelSide(m, token, side), orders, closed, n, token, side, desired, qty, now);
  }

  lemma UpdateKeepsCore(cfg: Config, m0: Maker, orders: seq<Order>, closed: set<int>, token: nat, market: Market)
    requires WellShaped(m0) && Core(m0.quotes, m0.nextId, orders, closed)
    ensures Mid(BookUpdate(cfg, m0, token, market), orders, closed, 2)
  {
    var m := m0.(pending := [], cancels := []);
    assert orders + [] == orders && closed + Ids([]) == closed;
    assert Mid(m, orders, closed, 0);
    if token < MAX_TOKENS {
      CancelSideKeepsMid(m, orders, closed, 0, token, Buy);
      CancelSideKeepsMid(CancelSide(m, token, Buy), orders, closed, 1, token, Sell);
      forall want: int, qty: int, ok: bool, want2: int, ok2: bool
        ensures Mid(QuoteOneSide(cfg, QuoteOneSide(cfg, m, token, Buy, want, qty, ok, market.now), token, Sell,
          want2, qty, ok2, market.now), orders, closed, 2)
      {
        QuoteKeepsMid(cfg, m, orders, closed, 0, token, Buy, want, qty, ok, market.now);
        QuoteKeepsMid(cfg, QuoteOneSide(cfg, m, token, Buy, want, qty, ok, market.now), orders, closed, 1, token,
          Sell, want2, qty, ok2, market.now);
      }
    }
  }

  // ----- Reports -----

  /** `quotes'` is `quotes` with every working quote of this id deactivated. */
  ghost predicate Deactivated(quotes: seq<QuoteState>, quotes': seq<QuoteState>, id: int) {
    && |quotes'| == |quotes|
    && forall t: nat, side: Side :: t < |quotes| ==>
         var q, q' := quotes[t].Get(side), quotes'[t].Get(side);
         q'.id == q.id && (q'.active <==> q.active && q.id != id)
  }

  lemma CloseKeepsCore(quotes: seq<QuoteState>, quotes': seq<QuoteState>, nextId: int, orders: seq<Order>,
      closed: set<int>, id: int)
    requires Core(quotes, nextId, orders, closed) && id < nextId && Deactivated(quotes, quotes', id)
    ensures Core(quotes', nextId, orders, closed + {id})
  {
    var closed' := closed + {id};
    forall i: nat | i < |orders| && Open(orders, closed', i)
      ensures Recorded(quotes', orders[i])
    {
      assert Open(orders, closed, i) && Recorded(quotes, orders[i]);
    }
    forall t: nat, side: Side | t < |quotes'| && quotes'[t].Get(side).active
      ensures Backed(orders, closed', t, side, quotes'[t].Get(side).id)
    {
      var q := quotes[t].Get(side);
      assert Backed(orders, closed, t, side, q.id);
      var j: nat :| j < |orders| && Open(orders, closed, j) && orders[j].id == q.id && orders[j].token == t &&
        orders[j].side == side;
      assert Open(orders, closed', j);
    }
  }

  /** A working quote determines its token and side: ids are never shared. */
  lemma WorksOnlyAt(quotes: seq<QuoteState>, nextId: int, orders: seq<Order>, closed: set<int>, t: nat, side: Side,
      k: nat)
    requires Core(quotes, nextId, orders, closed) && t < |quotes| && k < |orders|
    requires Works(quotes[t], side, orders[k].id)
    ensures orders[k].token == t && orders[k].side == side
  {
    assert Backed(orders, closed, t, side, orders[k].id);
    var j: nat :| j < |orders| && orders[j].id == orders[k].id && orders[j].token == t && orders[j].side == side;
    assert j == k;
  }

  lemma FillDeactivates(m: Maker, nextId: int, orders: seq<Order>, closed: set<int>, f: Fill, k: nat)
    requires WellShaped(m) && Core(m.quotes, nextId, orders, closed)
    requires k < |orders| && orders[k].id == f.id && orders[k].token == f.token && f.remaining == 0
    ensures Deactivated(m.quotes, OnFill(m, f).quotes, f.id)
  {
    forall t: nat, side: Side | t < |m.quotes| && Works(m.quotes[t], side, f.id)
      ensures t == f.token
    {
      WorksOnlyAt(m.quotes, nextId, orders, closed, t, side, k);
    }
  }

  ghost predicate WorksAtMostOnce(quotes: seq<QuoteState>, id: int) {
    forall t: nat, u: nat, a: Side, b: Side ::
      t < |quotes| && u < |quotes| && Works(quotes[t], a, id) && Works(quotes[u], b, id) ==> t == u && a == b
  }

  lemma {:induction false} PullDeactivates(quotes: seq<QuoteState>, id: int, t: nat)
    requires t <= |quotes| && WorksAtMostOnce(quotes, id)
    requires forall u: nat, side: Side :: u < t ==> !Works(quotes[u], side, id)
    ensures Deactivated(quotes, PullFrom(quotes, id, t), id)
    decreases |quotes| - t
  {
    var r := PullFrom(quotes, id, t);
    if t < |quotes| && !Works(quotes[t], Buy, id) && !Works(quotes[t], Sell, id) {
      forall u: nat, side: Side | u < t + 1
        ensures !Works(quotes[u], side, id)
      {
        assert side == Buy || side == Sell;
      }
      PullDeactivates(quotes, id, t + 1);
    } else {
      forall u: nat, side: Side | u < |quotes|
        ensures r[u].Get(side).id == quotes[u].Get(side).id
        ensures r[u].Get(side).active <==> quotes[u].Get(side).active && quotes[u].Get(side).id != id
      {
        assert u < t ==> !Works(quotes[u], side, id);
        assert u > t && t < |quotes| ==> !Works(quotes[u], side, id);
        assert t < |quotes| ==> !Works(quotes[t], Buy, id) || !Works(quotes[t], Sell, id);
      }
    }
  }

  lemma CancelDeactivates(m: Maker, nextId: int, orders: seq<Order>, closed: set<int>, id: int, k: nat)
    requires WellShaped(m) && Core(m.quotes, nextId, orders, closed)
    requires k < |orders| && orders[k].id == id
    ensures Deactivated(m.quotes, OnCancel(m, id).quotes, id)
  {
    forall t: nat, u: nat, a: Side, b: Side | t < |m.quotes| && u < |m.quotes| && Works(m.quotes[t], a, id) &&
      Works(m.quotes[u], b, id)
      ensures t == u && a == b
    {
      WorksOnlyAt(m.quotes, nextId, orders, closed, t, a, k);
      WorksOnlyAt(m.quotes, nextId, orders, closed, u, b, k);
    }
    PullDeactivates(m.quotes, id, 0);
  }

  // ----- Every run -----

  ghost predicate Sound(l: Ledger) {
    && WellShaped(l.maker) && |l.maker.pending| <= 2 && |l.maker.cancels| <= 2
    && Core(l.maker.quotes, l.maker.nextId, l.orders, l.closed)
  }

  lemma StepKeepsSound(cfg: Config, l: Ledger, e: Event)
    requires Sound(l) && Genuine(l.orders, e)
    ensures Sound(Step(cfg, l, e))
  {
    var m := l.maker;
    match e {
      case Update(token, market) =>
        UpdateKeepsCore(cfg, m, l.orders, l.closed, token, market);
      case Filled(f) =>
        var k: nat :| k < |l.orders| && l.orders[k].id == f.id && l.orders[k].token == f.token;
        if f.remaining == 0 {
          FillDeactivates(m, m.nextId, l.orders, l.closed, f, k);
          CloseKeepsCore(m.quotes, OnFill(m, f).quotes, m.nextId, l.orders, l.closed, f.id);
        } else {
          assert OnFill(m, f).quotes == m.quotes;
        }
      case Cancelled(id) =>
        var k: nat :| k < |l.orders| && l.orders[k].id == id;
        CancelDeactivates(m, m.nextId, l.orders, l.closed, id, k);
        CloseKeepsCore(m.quotes, OnCancel(m, id).quotes, m.nextId, l.orders, l.closed, id);
    }
  }

  lemma {:induction false} RunIsSound(cfg: Config, events: seq<Event>)
    requires GenuineRun(cfg, events)
    ensures Sound(Run(cfg, events))
  {
    if events != [] {
      RunIsSound(cfg, events[..|events| - 1]);
      StepKeepsSound(cfg, Run(cfg, events[..|events| - 1]), events[|events| - 1]);
    }
  }

  /** The orders of a token and side that are neither cancelled nor completed. */
  ghost function OpenIds(l: Ledger, t: nat, side: Side): set<int> {
    set i | 0 <= i < |l.orders| && l.orders[i].token == t && l.orders[i].side == side &&
      l.orders[i].id !in l.closed :: l.orders[i].id
  }

  /**
   Over any run of book updates and genuine reports: client ids strictly increase, the fixed
   buffers never hold more than two orders and two cancels, and per token and side the open
   orders are exactly the recorded quote when it is active, and none otherwise.
   */
  lemma {:induction false} OneWorkingQuotePerSide(cfg: Config, events: seq<Event>, t: nat, side: Side)
    requires GenuineRun(cfg, events) && t < MAX_TOKENS
    ensures var l := Run(cfg, events);
      && (forall i, j :: 0 <= i < j < |l.orders| ==> l.orders[i].id < l.orders[j].id)
      && |l.maker.pending| <= 2 && |l.maker.cancels| <= 2
      && var q := l.maker.quotes[t].Get(side);
         OpenIds(l, t, side) == if q.active then {q.id} else {}
  {
    RunIsSound(cfg, events);
    var l := Run(cfg, events);
    var q := l.maker.quotes[t].Get(side);
    forall id | id in OpenIds(l, t, side)
      ensures q.active && id == q.id
    {
      var i: nat :| i < |l.orders| && l.orders[i].token == t && l.orders[i].side == side &&
        l.orders[i].id !in l.closed && l.orders[i].id == id;
      assert Open(l.orders, l.closed, i) && Recorded(l.maker.quotes, l.orders[i]);
    }
    if q.active {
      assert Backed(l.orders, l.closed, t, side, q.id);
    }
  }
}
