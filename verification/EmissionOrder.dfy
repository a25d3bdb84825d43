/** Exactly when the numbers that each stream emits go up, heartbeats and restarts included. */
module EmissionOrder {
  import opened Types
  import opened Wire
  import opened FeedHandler
  import opened FeedRuns
  import opened FeedOrder

  // ----- What a packet adds -----

  /** How many of `n` messages from number `first` on stand below the expected number. */
  function Skipped(next: nat, first: nat, n: nat): (k: nat)
    ensures k <= n
  {
    if next <= first then 0 else if next - first < n then next - first else n
  }

  /** The messages of a packet that are new to the stream and are not heartbeats. */
  ghost function NewMessages(st: StreamStats, p: Packet): seq<MarketEvent> {
    if WholeDuplicate(st, p) then []
    else WithoutHeartbeats(p.messages[Skipped(st.nextSeq, p.first, |p.messages|)..])
  }

  /** A batch that starts at the expected number is taken whole, even across the last number. */
  lemma {:induction false} ExpectedIsTaken(st: StreamStats, es: seq<MarketEvent>, first: nat)
    requires Consecutive(es, first) && st.nextSeq == first % TWO_TO_THE_64
    ensures TakeAll(st, es) == es
    decreases |es|
  {
    if es != [] {
      ConsecutiveTail(es, first);
      assert es[0].seqNo == first % TWO_TO_THE_64;
      ExpectedIsTaken(Arrive(st, es[0]).0, es[1..], first + 1);
    }
  }

  lemma {:induction false} NewIsTaken(st: StreamStats, es: seq<MarketEvent>, first: nat)
    requires Consecutive(es, first) && st.nextSeq <= first <= LAST_NUMBER
    ensures TakeAll(st, es) == es
  {
    if es != [] {
      ConsecutiveTail(es, first);
      assert es[0].seqNo == first;
      ExpectedIsTaken(Arrive(st, es[0]).0, es[1..], first + 1);
    }
  }

  /** Of consecutive messages a stream takes all but those below the expected number. */
  lemma {:induction false} TakesSuffix(st: StreamStats, es: seq<MarketEvent>, first: nat)
    requires Consecutive(es, first) && first <= LAST_NUMBER && st.nextSeq <= LAST_NUMBER
    ensures TakeAll(st, es) == es[Skipped(st.nextSeq, first, |es|)..]
    decreases |es|
  {
    if st.nextSeq <= first {
      NewIsTaken(st, es, first);
    } else if es != [] {
      ConsecutiveTail(es, first);
      assert es[0].seqNo == first;
      var k := Skipped(st.nextSeq, first + 1, |es| - 1);
      TakesSuffix(Arrive(st, es[0]).0, es[1..], first + 1);
      assert TakeOne(st, es[0]) == [];
      assert es[1..][k..] == es[k + 1..];
    }
  }

  /** A packet emits exactly its new messages. */
  lemma {:induction false} EmitsNewMessages(st: StreamStats, p: Packet)
    requires PacketOk(p) && st.nextSeq <= LAST_NUMBER
    ensures Deliver(st, p).1 == NewMessages(st, p)
  {
    if !WholeDuplicate(st, p) {
      var counted := st.(packets := st.packets + 1);
      BatchEmitsTaken(counted, p.messages);
      TakesSuffix(counted, p.messages, p.first);
    }
  }

  // ----- One packet's numbers -----

  lemma {:induction false} ConsecutiveIncreases(es: seq<MarketEvent>, first: nat)
    requires Consecutive(es, first) && first + |es| <= TWO_TO_THE_64
    ensures Increasing(es)
  {
  }

  lemma {:induction false} ConsecutiveSuffix(es: seq<MarketEvent>, first: nat, k: nat)
    requires Consecutive(es, first) && k <= |es|
    ensures Consecutive(es[..k], first) && Consecutive(es[k..], first + k)
    ensures first + k == TWO_TO_THE_64 ==> Consecutive(es[k..], 0)
  {
    forall i | 0 <= i < |es[k..]|
      ensures es[k..][i].seqNo == (first + k + i) % TWO_TO_THE_64
    {
      assert es[k..][i] == es[k + i];
    }
  }

  lemma {:induction false} KeptInRange(es: seq<MarketEvent>, first: nat, j: nat)
    requires Consecutive(es, first) && first + |es| <= TWO_TO_THE_64 && j < |WithoutHeartbeats(es)|
    ensures first <= WithoutHeartbeats(es)[j].seqNo < first + |es|
  {
    var k := KeptFrom(es, j);
    assert es[k].seqNo == (first + k) % TWO_TO_THE_64;
  }

  lemma {:induction false} IncreasingAppend(a: seq<MarketEvent>, b: seq<MarketEvent>)
    ensures Increasing(a + b) <==>
      Increasing(a) && Increasing(b) && (a != [] && b != [] ==> a[|a| - 1].seqNo < b[0].seqNo)
  {
    var all := a + b;
    assert forall i :: 0 <= i < |a| ==> all[i] == a[i];
    assert forall i :: 0 <= i < |b| ==> all[|a| + i] == b[i];
    if Increasing(all) {
      assert a != [] && b != [] ==> all[|a| - 1].seqNo < all[|a|].seqNo;
    }
  }

  /** A message before the last number, and one after it, differ by more than a packet. */
  lemma {:induction false} StraddlesDown(es: seq<MarketEvent>, first: nat, w: nat)
    requires Consecutive(es, first) && |es| < 256 && w <= |es| && first + w == TWO_TO_THE_64
    ensures var a, b := WithoutHeartbeats(es[..w]), WithoutHeartbeats(es[w..]);
      a != [] && b != [] ==> b[|b| - 1].seqNo < a[0].seqNo && b[0].seqNo < a[|a| - 1].seqNo
  {
    var a, b := WithoutHeartbeats(es[..w]), WithoutHeartbeats(es[w..]);
    ConsecutiveSuffix(es, first, w);
    if a != [] && b != [] {
      KeptInRange(es[..w], first, 0);
      KeptInRange(es[..w], first, |a| - 1);
      KeptInRange(es[w..], 0, 0);
      KeptInRange(es[w..], 0, |b| - 1);
    }
  }

  /** Kept messages of one batch go up exactly when the last is not below the first. */
  lemma {:induction false} KeptIncreaseIff(es: seq<MarketEvent>, first: nat)
    requires Consecutive(es, first) && first <= LAST_NUMBER && |es| < 256
    ensures var kept := WithoutHeartbeats(es);
      Increasing(kept) <==> kept == [] || kept[0].seqNo <= kept[|kept| - 1].seqNo
  {
    var kept := WithoutHeartbeats(es);
    if first + |es| <= TWO_TO_THE_64 {
      ConsecutiveIncreases(es, first);
      HeartbeatsKeepOrder(es);
    } else {
      var w := TWO_TO_THE_64 - first;
      var a, b := WithoutHeartbeats(es[..w]), WithoutHeartbeats(es[w..]);
      assert es == es[..w] + es[w..];
      HeartbeatsAppend(es[..w], es[w..]);
      ConsecutiveSuffix(es, first, w);
      ConsecutiveIncreases(es[..w], first);
      ConsecutiveIncreases(es[w..], 0);
      HeartbeatsKeepOrder(es[..w]);
      HeartbeatsKeepOrder(es[w..]);
      StraddlesDown(es, first, w);
      IncreasingAppend(a, b);
    }
  }

  lemma {:induction false} NewMessagesIncreaseIff(st: StreamStats, p: Packet)
    requires PacketOk(p) && st.nextSeq <= LAST_NUMBER
    ensures var es := NewMessages(st, p); Increasing(es) <==> es == [] || es[0].seqNo <= es[|es| - 1].seqNo
  {
    var k := Skipped(st.nextSeq, p.first, |p.messages|);
    if !WholeDuplicate(st, p) && k < |p.messages| {
      ConsecutiveSuffix(p.messages, p.first, k);
      KeptIncreaseIff(p.messages[k..], p.first + k);
    }
  }

  // ----- The condition on each packet -----

  /** The last number emitted, or -1 before there is one. */
  ghost function LastEmitted(out: seq<MarketEvent>): int {
    if out == [] then -1 else out[|out| - 1].seqNo
  }

  /** The packet's new messages begin above the last number emitted, and do not end below where they began. */
  ghost predicate GoesUp(last: int, st: StreamStats, p: Packet) {
    var es := NewMessages(st, p);
    es == [] || last < es[0].seqNo <= es[|es| - 1].seqNo
  }

  ghost predicate EveryPacketGoesUp(ps: seq<Packet>, s: nat) {
    ps != [] ==>
      var front, p := ps[..|ps| - 1], ps[|ps| - 1];
      var (st, out) := Run(front, s);
      EveryPacketGoesUp(front, s) && (p.stream == s ==> GoesUp(LastEmitted(out), st, p))
  }

  ghost predicate AllGoUp(ps: seq<Packet>) {
    forall s: nat :: EveryPacketGoesUp(ps, s)
  }

  lemma {:induction false} PacketGoesUpIff(out: seq<MarketEvent>, st: StreamStats, p: Packet)
    requires PacketOk(p) && st.nextSeq <= LAST_NUMBER && Increasing(out)
    ensures Increasing(out + Deliver(st, p).1) <==> GoesUp(LastEmitted(out), st, p)
  {
    EmitsNewMessages(st, p);
    IncreasingAppend(out, NewMessages(st, p));
    NewMessagesIncreaseIff(st, p);
  }

  /** For arbitrary packets: what a stream emits goes up if and only if every packet of it does. */
  lemma {:induction false} StreamGoesUpIff(ps: seq<Packet>, s: nat)
    requires AllOk(ps)
    ensures Increasing(Run(ps, s).1) <==> EveryPacketGoesUp(ps, s)
  {
    if ps != [] {
      var front, p := ps[..|ps| - 1], ps[|ps| - 1];
      StreamGoesUpIff(front, s);
      TakenIsLinked(front, s);
      var (st, out) := Run(front, s);
      if p.stream != s {
      } else if Increasing(out) {
        PacketGoesUpIff(out, st, p);
      } else {
        IncreasingAppend(out, Deliver(st, p).1);
      }
    }
  }

  /**
   For arbitrary packets on all streams together: what is emitted goes up on every stream if and
   only if every packet's new messages begin above the last number its stream has emitted and do
   not end below where they began.
   */
  lemma {:induction false} EmittedIncreasesIff(ps: seq<Packet>)
    requires AllOk(ps)
    ensures StreamsIncrease(Emitted(ps)) <==> AllGoUp(ps)
  {
    forall s: nat
      ensures Increasing(OnStream(Emitted(ps), s)) <==> EveryPacketGoesUp(ps, s)
    {
      StreamsAreIndependent(ps, s);
      StreamGoesUpIff(ps, s);
    }
    if AllGoUp(ps) {
      EachStreamIncreases(Emitted(ps));
    } else if StreamsIncrease(Emitted(ps)) {
      var s: nat :| !EveryPacketGoesUp(ps, s);
      OneStreamIncreases(Emitted(ps), s);
    }
  }

  lemma EmittedOfTwo(p: Packet, q: Packet)
    requires p.stream == q.stream
    ensures var (st, out) := Deliver(NEW_STREAM, p); Emitted([p] + [q]) == out + Deliver(st, q).1
  {
    var ps := [p] + [q];
    assert ps[..|ps| - 1] == [p] && ps[|ps| - 1] == q;
    RunOfOne(p, p.stream);
    assert [p][..|[p]| - 1] == [];
    assert Emitted([p]) == [] + Deliver(Run([], p.stream).0, p).1;
  }

  /** After the last number a stream takes any number again, so that its numbers go down. */
  lemma NumbersRestart()
    ensures var ps := [Single(LAST_NUMBER)] + [Single(5)];
      AllOk(ps) && Emitted(ps) == [Numbered1(LAST_NUMBER)] + [Numbered1(5)]
  {
    EmittedOfTwo(Single(LAST_NUMBER), Single(5));
    SingleDelivered(NEW_STREAM, LAST_NUMBER);
    SingleDelivered(Deliver(NEW_STREAM, Single(LAST_NUMBER)).0, 5);
  }
}
