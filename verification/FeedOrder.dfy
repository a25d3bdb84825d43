/** In which order a stream takes its messages, and exactly when their numbers go up. */
module FeedOrder {
  import opened Types
  import opened Wire
  import opened FeedHandler
  import opened FeedRuns
  import opened Sequences

  const LAST_NUMBER: nat := TWO_TO_THE_64 - 1

  // ----- The messages that a stream takes, heartbeats included -----

  ghost function TakeAll(st: StreamStats, es: seq<MarketEvent>): seq<MarketEvent>
    decreases |es|
  {
    if es == [] then [] else TakeOne(st, es[0]) + TakeAll(Arrive(st, es[0]).0, es[1..])
  }

  ghost function TakeOne(st: StreamStats, e: MarketEvent): seq<MarketEvent> {
    if st.nextSeq != 0 && e.seqNo < st.nextSeq then [] else [e]
  }

  ghost function Take(st: StreamStats, p: Packet): seq<MarketEvent> {
    if WholeDuplicate(st, p) then [] else TakeAll(st.(packets := st.packets + 1), p.messages)
  }

  ghost function Taken(ps: seq<Packet>, s: nat): seq<MarketEvent> {
    if ps == [] then [] else
      var front, p := ps[..|ps| - 1], ps[|ps| - 1];
      Taken(front, s) + if p.stream == s then Take(Run(front, s).0, p) else []
  }

  lemma {:induction false} BatchEmitsTaken(st: StreamStats, es: seq<MarketEvent>)
    ensures ArriveAll(st, es).1 == WithoutHeartbeats(TakeAll(st, es))
    decreases |es|
  {
    if es != [] {
      var st1 := Arrive(st, es[0]).0;
      BatchEmitsTaken(st1, es[1..]);
      HeartbeatsAppend(TakeOne(st, es[0]), TakeAll(st1, es[1..]));
      assert WithoutHeartbeats([es[0]]) == if es[0].kind != HEARTBEAT then [es[0]] else [];
    }
  }

  /** What a stream emits is what it takes, heartbeats left out. */
  lemma {:induction false} EmitsTaken(ps: seq<Packet>, s: nat)
    ensures Run(ps, s).1 == WithoutHeartbeats(Taken(ps, s))
  {
    if ps != [] {
      var front, p := ps[..|ps| - 1], ps[|ps| - 1];
      EmitsTaken(front, s);
      var st := Run(front, s).0;
      BatchEmitsTaken(st.(packets := st.packets + 1), p.messages);
      HeartbeatsAppend(Taken(front, s), if p.stream == s then Take(st, p) else []);
      assert Run(front, s).1 + [] == Run(front, s).1;
    }
  }

  // ----- Neighbours -----

  /** Each message but the last number is followed by a larger one; all are 64-bit numbers. */
  ghost predicate Linked(es: seq<MarketEvent>) {
    && (forall i :: 0 <= i < |es| ==> es[i].seqNo <= LAST_NUMBER)
    && (forall i :: 0 < i < |es| ==> es[i - 1].seqNo == LAST_NUMBER || es[i - 1].seqNo < es[i].seqNo)
  }

  /** The expected number is the one after the last message taken, and 0 before there is one. */
  ghost predicate Expects(es: seq<MarketEvent>, next: nat) {
    next == if es == [] then 0 else (es[|es| - 1].seqNo + 1) % TWO_TO_THE_64
  }

  lemma TakeOneLinks(done: seq<MarketEvent>, st: StreamStats, e: MarketEvent)
    requires Linked(done) && Expects(done, st.nextSeq) && e.seqNo <= LAST_NUMBER
    ensures Linked(done + TakeOne(st, e)) && Expects(done + TakeOne(st, e), Arrive(st, e).0.nextSeq)
  {
    if TakeOne(st, e) == [] {
      assert done + [] == done;
    }
  }

  lemma {:induction false} TakeAllLinks(done: seq<MarketEvent>, st: StreamStats, es: seq<MarketEvent>)
    requires Linked(done) && Expects(done, st.nextSeq)
    requires forall i :: 0 <= i < |es| ==> es[i].seqNo <= LAST_NUMBER
    ensures Linked(done + TakeAll(st, es)) && Expects(done + TakeAll(st, es), ArriveAll(st, es).0.nextSeq)
    decreases |es|
  {
    if es == [] {
      assert done + [] == done;
    } else {
      var one, st1 := TakeOne(st, es[0]), Arrive(st, es[0]).0;
      TakeOneLinks(done, st, es[0]);
      TakeAllLinks(done + one, st1, es[1..]);
      AppendAssoc(done, one, TakeAll(st1, es[1..]));
    }
  }

  lemma TakeLinks(done: seq<MarketEvent>, st: StreamStats, p: Packet)
    requires Linked(done) && Expects(done, st.nextSeq) && PacketOk(p)
    ensures Linked(done + Take(st, p)) && Expects(done + Take(st, p), Deliver(st, p).0.nextSeq)
  {
    if WholeDuplicate(st, p) {
      assert done + [] == done;
    } else {
      TakeAllLinks(done, st.(packets := st.packets + 1), p.messages);
    }
  }

  lemma {:induction false} TakenIsLinked(ps: seq<Packet>, s: nat)
    requires AllOk(ps)
    ensures Linked(Taken(ps, s)) && Expects(Taken(ps, s), Run(ps, s).0.nextSeq)
  {
    if ps != [] {
      var front, p := ps[..|ps| - 1], ps[|ps| - 1];
      TakenIsLinked(front, s);
      if p.stream == s {
        TakeLinks(Taken(front, s), Run(front, s).0, p);
      } else {
        assert Taken(front, s) + [] == Taken(front, s);
      }
    }
  }

  // ----- Increasing numbers -----

  ghost predicate Increasing(es: seq<MarketEvent>) {
    forall i, j :: 0 <= i < j < |es| ==> es[i].seqNo < es[j].seqNo
  }

  ghost predicate NothingAfterLast(es: seq<MarketEvent>) {
    forall i :: 0 <= i < |es| - 1 ==> es[i].seqNo != LAST_NUMBER
  }

  lemma {:induction false} LinkedIncreases(es: seq<MarketEvent>, i: nat, j: nat)
    requires Linked(es) && NothingAfterLast(es) && i < j < |es|
    ensures es[i].seqNo < es[j].seqNo
  {
    assert es[j - 1].seqNo != LAST_NUMBER && es[j - 1].seqNo < es[j].seqNo;
    if i < j - 1 {
      LinkedIncreases(es, i, j - 1);
    }
  }

  lemma {:induction false} LinkedIncreasesIff(es: seq<MarketEvent>)
    requires Linked(es)
    ensures Increasing(es) <==> NothingAfterLast(es)
  {
    if NothingAfterLast(es) {
      forall i, j | 0 <= i < j < |es|
        ensures es[i].seqNo < es[j].seqNo
      {
        LinkedIncreases(es, i, j);
      }
    } else {
      var i :| 0 <= i < |es| - 1 && es[i].seqNo == LAST_NUMBER;
      assert es[i + 1].seqNo <= LAST_NUMBER;
    }
  }

  // ----- The condition on each packet -----

  /**
   Unless it is dropped as a whole, a packet with messages finds a stream that has not just passed
   the last number, and its own messages do not run past it.
   */
  ghost predicate InOrder(untouched: bool, st: StreamStats, p: Packet) {
    p.messages != [] && !WholeDuplicate(st, p) ==>
      (untouched || st.nextSeq != 0) && p.first + |p.messages| <= TWO_TO_THE_64
  }

  ghost predicate LastInOrder(ps: seq<Packet>, s: nat)
    requires ps != []
  {
    var front, p := ps[..|ps| - 1], ps[|ps| - 1];
    p.stream == s ==> InOrder(Arrivals(front, s) == [], Run(front, s).0, p)
  }

  ghost predicate EveryPacketInOrder(ps: seq<Packet>, s: nat) {
    ps != [] ==> LastInOrder(ps, s) && EveryPacketInOrder(ps[..|ps| - 1], s)
  }

  ghost predicate AllInOrder(ps: seq<Packet>) {
    forall s: nat :: EveryPacketInOrder(ps, s)
  }

  lemma NothingAfterLastAppend(a: seq<MarketEvent>, b: seq<MarketEvent>)
    ensures NothingAfterLast(a + b) <==>
      && NothingAfterLast(a) && NothingAfterLast(b)
      && (a != [] && b != [] ==> a[|a| - 1].seqNo != LAST_NUMBER)
  {
    var all := a + b;
    assert forall i :: 0 <= i < |a| ==> all[i] == a[i];
    assert forall i :: 0 <= i < |b| ==> all[|a| + i] == b[i];
  }

  /** At the start, and after the last number, a stream takes whatever comes. */
  lemma {:induction false} UnsetTakes(st: StreamStats, es: seq<MarketEvent>)
    requires st.nextSeq == 0 && es != []
    ensures TakeAll(st, es) != []
  {
  }

  ghost predicate Consecutive(es: seq<MarketEvent>, first: nat) {
    forall i :: 0 <= i < |es| ==> es[i].seqNo == (first + i) % TWO_TO_THE_64
  }

  lemma ConsecutiveTail(es: seq<MarketEvent>, first: nat)
    requires Consecutive(es, first) && es != []
    ensures Consecutive(es[1..], first + 1) && Consecutive(es[1..], (first + 1) % TWO_TO_THE_64)
  {
    forall i | 0 <= i < |es[1..]|
      ensures es[1..][i].seqNo == (first + 1 + i) % TWO_TO_THE_64 == ((first + 1) % TWO_TO_THE_64 + i) % TWO_TO_THE_64
    {
      assert es[1..][i] == es[i + 1];
    }
  }

  /** A batch that takes the last number takes what follows it in the batch, and nothing else is after it. */
  lemma {:induction false} BatchInOrderIff(st: StreamStats, es: seq<MarketEvent>, first: nat)
    requires Consecutive(es, first) && first <= LAST_NUMBER && st.nextSeq <= LAST_NUMBER && es != []
    ensures NothingAfterLast(TakeAll(st, es)) <==> first + |es| <= TWO_TO_THE_64
    decreases |es|
  {
    var one, st1, rest := TakeOne(st, es[0]), Arrive(st, es[0]).0, es[1..];
    assert es[0].seqNo == first;
    NothingAfterLastAppend(one, TakeAll(st1, rest));
    if rest != [] {
      ConsecutiveTail(es, first);
      if first == LAST_NUMBER {
        UnsetTakes(st1, rest);
      } else {
        BatchInOrderIff(st1, rest, first + 1);
      }
    }
  }

  lemma {:induction false} TakenEmptyIff(ps: seq<Packet>, s: nat)
    requires AllOk(ps)
    ensures Taken(ps, s) == [] <==> Arrivals(ps, s) == []
  {
    if ps != [] {
      var front, p := ps[..|ps| - 1], ps[|ps| - 1];
      TakenEmptyIff(front, s);
      TakenIsLinked(front, s);
      var st := Run(front, s).0;
      if p.stream == s && p.messages != [] && Taken(front, s) == [] {
        UnsetTakes(st.(packets := st.packets + 1), p.messages);
      }
    }
  }

  lemma {:induction false} PacketInOrderIff(done: seq<MarketEvent>, st: StreamStats, p: Packet)
    requires PacketOk(p) && NothingAfterLast(done) && Expects(done, st.nextSeq) && Linked(done)
    ensures NothingAfterLast(done + Take(st, p)) <==> InOrder(done == [], st, p)
  {
    NothingAfterLastAppend(done, Take(st, p));
    if !WholeDuplicate(st, p) && p.messages != [] {
      var counted := st.(packets := st.packets + 1);
      BatchInOrderIff(counted, p.messages, p.first);
      if st.nextSeq == 0 {
        UnsetTakes(counted, p.messages);
      }
    }
  }

  /** A stream takes nothing after the last number exactly when every packet is in order. */
  lemma {:induction false} NothingAfterLastIff(ps: seq<Packet>, s: nat)
    requires AllOk(ps)
    ensures NothingAfterLast(Taken(ps, s)) <==> EveryPacketInOrder(ps, s)
  {
    if ps != [] {
      var front, p := ps[..|ps| - 1], ps[|ps| - 1];
      NothingAfterLastIff(front, s);
      if p.stream != s {
        assert Taken(front, s) + [] == Taken(front, s);
      } else if NothingAfterLast(Taken(front, s)) {
        TakenIsLinked(front, s);
        TakenEmptyIff(front, s);
        PacketInOrderIff(Taken(front, s), Run(front, s).0, p);
      } else {
        NothingAfterLastAppend(Taken(front, s), Take(Run(front, s).0, p));
      }
    }
  }

  /**
   For arbitrary packets: the numbers of the messages that a stream takes strictly increase if
   and only if every packet is in order.
   */
  lemma {:induction false} TakenIncreasesIff(ps: seq<Packet>, s: nat)
    requires AllOk(ps)
    ensures Increasing(Taken(ps, s)) <==> EveryPacketInOrder(ps, s)
  {
    TakenIsLinked(ps, s);
    LinkedIncreasesIff(Taken(ps, s));
    NothingAfterLastIff(ps, s);
  }

  /** Packets whose announced numbers stay below 2^64 are always in order. */
  lemma {:induction false} InRangeIsInOrder(ps: seq<Packet>, s: nat)
    requires AllOk(ps) && forall i :: 0 <= i < |ps| ==> FeedRuns.InRange(ps[i])
    ensures EveryPacketInOrder(ps, s)
  {
    if ps != [] {
      var front := ps[..|ps| - 1];
      InRangeIsInOrder(front, s);
      EmitsRunningMaxima(front, s);
      var arr := Arrivals(front, s);
      assert arr != [] ==> arr[0].seqNo <= MaxSeq(arr);
    }
  }

  // ----- All streams together -----

  /** On each stream the numbers strictly increase. */
  ghost predicate StreamsIncrease(es: seq<MarketEvent>) {
    forall i, j :: 0 <= i < j < |es| && es[i].streamId == es[j].streamId ==> es[i].seqNo < es[j].seqNo
  }

  lemma {:induction false} KeptFrom(es: seq<MarketEvent>, j: nat) returns (k: nat)
    requires j < |WithoutHeartbeats(es)|
    ensures k < |es| && es[k] == WithoutHeartbeats(es)[j] && k >= j
    decreases |es|
  {
    if es[0].kind == HEARTBEAT {
      k := KeptFrom(es[1..], j);
      k := k + 1;
    } else if j == 0 {
      k := 0;
    } else {
      k := KeptFrom(es[1..], j - 1);
      k := k + 1;
    }
  }

  lemma {:induction false} HeartbeatsKeepOrder(es: seq<MarketEvent>)
    requires Increasing(es)
    ensures Increasing(WithoutHeartbeats(es))
  {
    if es != [] {
      var rest := WithoutHeartbeats(es[1..]);
      HeartbeatsKeepOrder(es[1..]);
      forall j | 0 <= j < |rest|
        ensures es[0].seqNo < rest[j].seqNo
      {
        var k := KeptFrom(es[1..], j);
        assert es[1..][k] == es[k + 1];
      }
    }
  }

  /** An event of a stream stands in what remains of that stream. */
  lemma {:induction false} OnStreamHas(es: seq<MarketEvent>, k: nat) returns (j: nat)
    requires k < |es|
    ensures j < |OnStream(es, es[k].streamId)| && OnStream(es, es[k].streamId)[j] == es[k]
  {
    if k == 0 {
      j := 0;
    } else {
      j := OnStreamHas(es[1..], k - 1);
      if es[0].streamId == es[k].streamId {
        j := j + 1;
      }
    }
  }

  lemma {:induction false} TailOnStream(es: seq<MarketEvent>, s: nat)
    requires es != [] && Increasing(OnStream(es, s))
    ensures Increasing(OnStream(es[1..], s))
    ensures var rest := OnStream(es[1..], s);
      es[0].streamId == s ==> forall j :: 0 <= j < |rest| ==> es[0].seqNo < rest[j].seqNo
  {
    var rest := OnStream(es[1..], s);
    if es[0].streamId == s {
      var all := OnStream(es, s);
      assert all == [es[0]] + rest;
      forall j | 0 <= j < |rest|
        ensures es[0].seqNo < rest[j].seqNo
      {
        assert all[0].seqNo < all[j + 1].seqNo;
      }
      forall i, j | 0 <= i < j < |rest|
        ensures rest[i].seqNo < rest[j].seqNo
      {
        assert all[i + 1].seqNo < all[j + 1].seqNo;
      }
    }
  }

  lemma {:induction false} EachStreamIncreases(es: seq<MarketEvent>)
    requires forall s: nat :: Increasing(OnStream(es, s))
    ensures StreamsIncrease(es)
  {
    if es != [] {
      forall s: nat
        ensures Increasing(OnStream(es[1..], s))
      {
        TailOnStream(es, s);
      }
      EachStreamIncreases(es[1..]);
      forall i, j | 0 <= i < j < |es| && es[i].streamId == es[j].streamId
        ensures es[i].seqNo < es[j].seqNo
      {
        if i == 0 {
          var k := OnStreamHas(es[1..], j - 1);
          TailOnStream(es, es[0].streamId);
        } else {
          assert es[1..][i - 1] == es[i] && es[1..][j - 1] == es[j];
        }
      }
    }
  }

  /** If every packet is in order, all that is emitted increases per stream. */
  lemma {:induction false} EmittedIncreases(ps: seq<Packet>)
    requires AllOk(ps) && AllInOrder(ps)
    ensures StreamsIncrease(Emitted(ps))
  {
    forall s: nat
      ensures Increasing(OnStream(Emitted(ps), s))
    {
      TakenIncreasesIff(ps, s);
      EmitsTaken(ps, s);
      HeartbeatsKeepOrder(Taken(ps, s));
      StreamsAreIndependent(ps, s);
    }
    EachStreamIncreases(Emitted(ps));
  }

  lemma {:induction false} OnStreamFrom(es: seq<MarketEvent>, s: nat, j: nat) returns (k: nat)
    requires j < |OnStream(es, s)|
    ensures k < |es| && es[k] == OnStream(es, s)[j] && es[k].streamId == s
    decreases |es|
  {
    if es[0].streamId == s && j == 0 {
      k := 0;
    } else {
      k := OnStreamFrom(es[1..], s, if es[0].streamId == s then j - 1 else j);
      k := k + 1;
    }
  }

  lemma {:induction false} OneStreamIncreases(es: seq<MarketEvent>, s: nat)
    requires StreamsIncrease(es)
    ensures Increasing(OnStream(es, s))
  {
    if es != [] {
      var rest := OnStream(es[1..], s);
      forall i, j | 0 <= i < j < |es[1..]| && es[1..][i].streamId == es[1..][j].streamId
        ensures es[1..][i].seqNo < es[1..][j].seqNo
      {
        assert es[1..][i] == es[i + 1] && es[1..][j] == es[j + 1];
      }
      OneStreamIncreases(es[1..], s);
      forall j | 0 <= j < |rest| && es[0].streamId == s
        ensures es[0].seqNo < rest[j].seqNo
      {
        var k := OnStreamFrom(es[1..], s, j);
        assert es[1..][k] == es[k + 1];
      }
    }
  }
}
