/**
 The market-data path end to end: packets through the feed handler, each emitted event pushed
 into the ring buffer or dropped, and the book thread popping at its own pace.
 */
module Gateway {
  import opened Types
  import opened FeedHandler
  import opened EmissionOrder
  import opened FeedOrder
  import FeedRuns
  import RingBuffer

  type RingAction = RingBuffer.Action<MarketEvent>
  type Ring = RingBuffer.State<MarketEvent>

  /**
   The packets received so far, the events of the last one that are still to be pushed, the
   ring buffer's interleaving so far, and the drop counter.
   */
  datatype Gateway = Gateway(packets: seq<Packet>, pending: seq<MarketEvent>, steps: seq<RingAction>, dropped: nat)

  const START := Gateway([], [], [], 0)

  datatype Action = Receive(packet: Packet) | PushNext | Step(action: RingAction)

  ghost function RingOf(buffer: seq<MarketEvent>, g: Gateway): Ring
    requires |buffer| > 0
  {
    RingBuffer.Run(|buffer|, buffer, g.steps)
  }

  /** One step of either thread; a packet is taken only when all events of the last one are pushed. */
  ghost function Next(buffer: seq<MarketEvent>, g: Gateway, a: Action): Gateway
    requires |buffer| > 0
  {
    var ring := RingOf(buffer, g);
    match a
    case Receive(p) =>
      if g.pending != [] || !ring.producer.PIdle? then g else
        g.(packets := g.packets + [p], pending := Deliver(FeedRuns.Run(g.packets, p.stream).0, p).1)
    case PushNext =>
      if g.pending == [] || !ring.producer.PIdle? then g else
        g.(pending := g.pending[1..], steps := g.steps + [RingBuffer.BeginPush(g.pending[0])])
    case Step(b) =>
      if b.BeginPush? then g else
        var after := RingBuffer.Next(|buffer|, ring, b);
        var refused := |after.outcomes| > |ring.outcomes| && !after.outcomes[|after.outcomes| - 1].1;
        g.(steps := g.steps + [b], dropped := if refused then g.dropped + 1 else g.dropped)
  }

  ghost function Run(buffer: seq<MarketEvent>, actions: seq<Action>): Gateway
    requires |buffer| > 0
  {
    if actions == [] then START else
      Next(buffer, Run(buffer, actions[..|actions| - 1]), actions[|actions| - 1])
  }

  // ----- Every emitted event is accounted for -----

  ghost function Values(outcomes: seq<(MarketEvent, bool)>): (vs: seq<MarketEvent>)
    ensures |vs| == |outcomes|
  {
    if outcomes == [] then [] else Values(outcomes[..|outcomes| - 1]) + [outcomes[|outcomes| - 1].0]
  }

  /** The event whose push has begun and not returned. */
  ghost function InFlight(ring: Ring): seq<MarketEvent> {
    if ring.producer.PIdle? then [] else [ring.producer.value]
  }

  ghost predicate Accounted(buffer: seq<MarketEvent>, g: Gateway)
    requires |buffer| > 0
  {
    var ring := RingOf(buffer, g);
    && FeedRuns.Emitted(g.packets) == Values(ring.outcomes) + InFlight(ring) + g.pending
    && g.dropped == RingBuffer.Refused(ring.outcomes)
  }

  lemma {:induction false} RingSnoc(buffer: seq<MarketEvent>, steps: seq<RingAction>, b: RingAction)
    requires |buffer| > 0
    ensures RingBuffer.Run(|buffer|, buffer, steps + [b]) ==
      RingBuffer.Next(|buffer|, RingBuffer.Run(|buffer|, buffer, steps), b)
  {
    assert (steps + [b])[..|steps|] == steps;
  }

  lemma {:induction false} ValuesSnoc(outcomes: seq<(MarketEvent, bool)>, v: MarketEvent, ok: bool)
    ensures Values(outcomes + [(v, ok)]) == Values(outcomes) + [v]
  {
    assert (outcomes + [(v, ok)])[..|outcomes|] == outcomes;
  }

  /** A ring step other than the start of a push moves the value in flight to the outcomes, or leaves both. */
  lemma RingStepKeepsValues(cap: nat, ring: Ring, b: RingAction)
    requires cap > 0 && |ring.buffer| == cap && !b.BeginPush?
    ensures var after := RingBuffer.Next(cap, ring, b);
      && Values(after.outcomes) + InFlight(after) == Values(ring.outcomes) + InFlight(ring)
      && RingBuffer.Refused(after.outcomes) == RingBuffer.Refused(ring.outcomes) +
           if |after.outcomes| > |ring.outcomes| && !after.outcomes[|after.outcomes| - 1].1 then 1 else 0
  {
    var v, after := ring.producer, RingBuffer.Next(cap, ring, b);
    if after.outcomes != ring.outcomes {
      assert after.outcomes == ring.outcomes + [(v.value, b.StoreTail?)];
      ValuesSnoc(ring.outcomes, v.value, b.StoreTail?);
      RingBuffer.OutcomeSnoc(ring.outcomes, (v.value, b.StoreTail?));
    }
  }

  lemma ReceiveKeepsAccounted(buffer: seq<MarketEvent>, g: Gateway, p: Packet)
    requires |buffer| > 0 && Accounted(buffer, g)
    ensures Accounted(buffer, Next(buffer, g, Receive(p)))
  {
    var ring, h := RingOf(buffer, g), Next(buffer, g, Receive(p));
    if h != g {
      assert h.packets[..|h.packets| - 1] == g.packets;
      assert Values(ring.outcomes) + InFlight(ring) + g.pending == Values(ring.outcomes) + InFlight(ring);
    }
  }

  lemma HeadMoves(done: seq<MarketEvent>, todo: seq<MarketEvent>)
    requires todo != []
    ensures done + [] + todo == done + [todo[0]] + todo[1..]
  {
  }

  lemma PushNextKeepsAccounted(buffer: seq<MarketEvent>, g: Gateway)
    requires |buffer| > 0 && Accounted(buffer, g)
    ensures Accounted(buffer, Next(buffer, g, PushNext))
  {
    var ring, h := RingOf(buffer, g), Next(buffer, g, PushNext);
    if h != g {
      RingSnoc(buffer, g.steps, RingBuffer.BeginPush(g.pending[0]));
      HeadMoves(Values(ring.outcomes), g.pending);
    }
  }

  lemma RingStepKeepsAccounted(buffer: seq<MarketEvent>, g: Gateway, b: RingAction)
    requires |buffer| > 0 && Accounted(buffer, g)
    ensures Accounted(buffer, Next(buffer, g, Step(b)))
  {
    if !b.BeginPush? {
      var ring, h := RingOf(buffer, g), Next(buffer, g, Step(b));
      RingSnoc(buffer, g.steps, b);
      RingStepKeepsValues(|buffer|, ring, b);
      var after := RingOf(buffer, h);
      assert h.pending == g.pending && h.packets == g.packets;
      assert Values(after.outcomes) + InFlight(after) == Values(ring.outcomes) + InFlight(ring);
    }
  }

  lemma NextKeepsAccounted(buffer: seq<MarketEvent>, g: Gateway, a: Action)
    requires |buffer| > 0 && Accounted(buffer, g)
    ensures Accounted(buffer, Next(buffer, g, a))
  {
    match a {
      case Receive(p) => ReceiveKeepsAccounted(buffer, g, p);
      case PushNext => PushNextKeepsAccounted(buffer, g);
      case Step(b) => RingStepKeepsAccounted(buffer, g, b);
    }
  }

  lemma {:induction false} RunKeepsAccounted(buffer: seq<MarketEvent>, actions: seq<Action>)
    requires |buffer| > 0
    ensures Accounted(buffer, Run(buffer, actions))
  {
    if actions != [] {
      RunKeepsAccounted(buffer, actions[..|actions| - 1]);
      NextKeepsAccounted(buffer, Run(buffer, actions[..|actions| - 1]), actions[|actions| - 1]);
    }
  }

  // ----- Order -----

  /** `a` is `b` with some elements left out; `idx` says which are kept. */
  ghost predicate Embeds(a: seq<MarketEvent>, b: seq<MarketEvent>, idx: seq<nat>) {
    && |idx| == |a|
    && (forall i :: 0 <= i < |idx| ==> idx[i] < |b| && a[i] == b[idx[i]])
    && (forall i, j :: 0 <= i < j < |idx| ==> idx[i] < idx[j])
  }

  ghost predicate Subsequence(a: seq<MarketEvent>, b: seq<MarketEvent>) {
    exists idx: seq<nat> :: Embeds(a, b, idx)
  }

  lemma EmbedsSnoc(a: seq<MarketEvent>, b: seq<MarketEvent>, idx: seq<nat>, v: MarketEvent)
    requires Embeds(a, b, idx)
    ensures Embeds(a, b + [v], idx) && Embeds(a + [v], b + [v], idx + [|b|])
  {
  }

  lemma {:induction false} TakenEmbeds(outcomes: seq<(MarketEvent, bool)>) returns (idx: seq<nat>)
    ensures Embeds(RingBuffer.Taken(outcomes), Values(outcomes), idx)
  {
    if outcomes == [] {
      idx := [];
    } else {
      var front, last := outcomes[..|outcomes| - 1], outcomes[|outcomes| - 1];
      idx := TakenEmbeds(front);
      EmbedsSnoc(RingBuffer.Taken(front), Values(front), idx, last.0);
      if last.1 {
        idx := idx + [|Values(front)|];
      } else {
        assert RingBuffer.Taken(front) + [] == RingBuffer.Taken(front);
      }
    }
  }

  /**
   For any packets and any timing of the two threads: what the book thread has popped is an
   in-order subsequence of what the feed handler emitted, and every emitted event is popped,
   queued, dropped, being pushed or about to be. With parsed packets that all go up, the popped
   numbers strictly increase on every stream.
   */
  lemma {:induction false} EndToEnd(buffer: seq<MarketEvent>, actions: seq<Action>)
    requires RingBuffer.IsCapacity(|buffer|)
    ensures var g := Run(buffer, actions);
      var ring, emitted := RingOf(buffer, g), FeedRuns.Emitted(g.packets);
      && Subsequence(ring.popped, emitted)
      && |emitted| == |ring.popped| + (|ring.pushed| - |ring.popped|) + g.dropped + |InFlight(ring)| + |g.pending|
      && (FeedRuns.AllOk(g.packets) && AllGoUp(g.packets) ==> StreamsIncrease(ring.popped))
  {
    var g := Run(buffer, actions);
    var ring, emitted := RingOf(buffer, g), FeedRuns.Emitted(g.packets);
    RunKeepsAccounted(buffer, actions);
    RingBuffer.OutcomesAccountForPushes(|buffer|, buffer, g.steps);
    RingBuffer.EveryInterleavingIsSafe(|buffer|, buffer, g.steps);
    var idx := TakenEmbeds(ring.outcomes);
    assert Embeds(ring.popped, emitted, idx[..|ring.popped|]);
    if FeedRuns.AllOk(g.packets) && AllGoUp(g.packets) {
      EmittedIncreasesIff(g.packets);
      SubsequenceIncreases(ring.popped, emitted);
    }
  }

  /** Packets whose announced numbers stay below 2^64 reach the book thread with increasing numbers. */
  lemma {:induction false} InRangeArrivesInOrder(buffer: seq<MarketEvent>, actions: seq<Action>)
    requires RingBuffer.IsCapacity(|buffer|)
    ensures var g := Run(buffer, actions);
      FeedRuns.AllOk(g.packets) && (forall i :: 0 <= i < |g.packets| ==> FeedRuns.InRange(g.packets[i])) ==>
        StreamsIncrease(RingOf(buffer, g).popped)
  {
    var ps := Run(buffer, actions).packets;
    EndToEnd(buffer, actions);
    if FeedRuns.AllOk(ps) && forall i :: 0 <= i < |ps| ==> FeedRuns.InRange(ps[i]) {
      forall s: nat
        ensures EveryPacketInOrder(ps, s)
      {
        InRangeIsInOrder(ps, s);
      }
      EmittedIncreases(ps);
      EmittedIncreasesIff(ps);
    }
  }

  lemma SubsequenceIncreases(a: seq<MarketEvent>, b: seq<MarketEvent>)
    requires Subsequence(a, b) && StreamsIncrease(b)
    ensures StreamsIncrease(a)
  {
    var idx :| Embeds(a, b, idx);
    forall i, j | 0 <= i < j < |a| && a[i].streamId == a[j].streamId
      ensures a[i].seqNo < a[j].seqNo
    {
      assert a[i] == b[idx[i]] && a[j] == b[idx[j]];
    }
  }
}
