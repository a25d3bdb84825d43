/**
 The single-producer single-consumer ring buffer as interleaved atomic steps. Indices are
 64-bit counters that wrap; a load of the other side's index may return any value that was
 stored since this side last looked.
 */
module RingBuffer {
  import opened Types
  import opened Arithmetic

  /** Where the producer is inside push(value). */
  datatype Producer<T> =
    | PIdle | PLoading(value: T, tail: nat) | PWriting(value: T, tail: nat) | PStoring(value: T, tail: nat)

  /** Where the consumer is inside pop(). */
  datatype Consumer<T> = CIdle | CLoading(head: nat) | CReading(head: nat) | CStoring(head: nat, out: T)

  /**
   Shared memory, the two program counters, and the history: values published and taken, the
   outcome of every finished push, and how far each side has seen the other.
   */
  datatype State<T> = State(
    head: nat, tail: nat, buffer: seq<T>,
    producer: Producer<T>, consumer: Consumer<T>,
    pushed: seq<T>, popped: seq<T>, outcomes: seq<(T, bool)>,
    seenHead: nat, seenTail: nat)

  datatype Action<T> =
    | BeginPush(value: T) | LoadHead(pops: nat) | WriteCell | StoreTail
    | BeginPop | LoadTail(pushes: nat) | ReadCell | StoreHead

  function Wrap(x: int): (w: nat)
    ensures w < TWO_TO_THE_64
  {
    x % TWO_TO_THE_64
  }

  /** A power of two of at least 2, as the static assertions demand: a proper divisor of 2^64. */
  predicate IsCapacity(cap: nat) { 2 <= cap < TWO_TO_THE_64 && TWO_TO_THE_64 % cap == 0 }

  function Init<T>(buffer: seq<T>): State<T> {
    State(0, 0, buffer, PIdle, CIdle, [], [], [], 0, 0)
  }

  /** The test of push: no room left, judged by the index value that was loaded. */
  predicate LooksFull(cap: nat, tail: nat, head: nat) { Wrap(Wrap(tail + 1) - head) > cap }

  predicate Enabled<T>(s: State<T>, a: Action<T>) {
    match a
    case BeginPush(_) => s.producer.PIdle?
    case LoadHead(pops) => s.producer.PLoading? && s.seenHead <= pops <= |s.popped|
    case WriteCell => s.producer.PWriting?
    case StoreTail => s.producer.PStoring?
    case BeginPop => s.consumer.CIdle?
    case LoadTail(pushes) => s.consumer.CLoading? && s.seenTail <= pushes <= |s.pushed|
    case ReadCell => s.consumer.CReading?
    case StoreHead => s.consumer.CStoring?
  }

  /** One atomic step; an action that is not enabled is skipped. */
  function Next<T>(cap: nat, s: State<T>, a: Action<T>): State<T>
    requires |s.buffer| == cap && cap > 0
  {
    if !Enabled(s, a) then s else
    match a
    case BeginPush(v) => s.(producer := PLoading(v, s.tail))
    case LoadHead(pops) =>
      var p := s.producer;
      if LooksFull(cap, p.tail, Wrap(pops))
      then s.(producer := PIdle, seenHead := pops, outcomes := s.outcomes + [(p.value, false)])
      else s.(producer := PWriting(p.value, p.tail), seenHead := pops)
    case WriteCell =>
      var p := s.producer;
      s.(buffer := s.buffer[p.tail % cap := p.value], producer := PStoring(p.value, p.tail))
    case StoreTail =>
      var p := s.producer;
      s.(tail := Wrap(p.tail + 1), producer := PIdle, pushed := s.pushed + [p.value],
         outcomes := s.outcomes + [(p.value, true)])
    case BeginPop => s.(consumer := CLoading(s.head))
    case LoadTail(pushes) =>
      var head := s.consumer.head;
      if head == Wrap(pushes) then s.(consumer := CIdle, seenTail := pushes)
      else s.(consumer := CReading(head), seenTail := pushes)
    case ReadCell =>
      var head := s.consumer.head;
      s.(consumer := CStoring(head, s.buffer[head % cap]))
    case StoreHead =>
      var c := s.consumer;
      s.(head := Wrap(c.head + 1), consumer := CIdle, popped := s.popped + [c.out])
  }

  /** The state after an arbitrary interleaving of the two sides. */
  function Run<T>(cap: nat, buffer: seq<T>, actions: seq<Action<T>>): (s: State<T>)
    requires |buffer| == cap && cap > 0
    ensures |s.buffer| == cap
  {
    if actions == [] then Init(buffer) else
      Next(cap, Run(cap, buffer, actions[..|actions| - 1]), actions[|actions| - 1])
  }

  // ----- Arithmetic of wrapped indices -----

  lemma CellOfWrapped(n: nat, cap: nat)
    requires IsCapacity(cap)
    ensures Wrap(n) % cap == n % cap
  {
    var m, q, r := TWO_TO_THE_64 / cap, n / TWO_TO_THE_64, Wrap(n);
    assert n == cap * (m * q) + r;
    ModAddMultiple(r, m * q, cap);
  }

  lemma ModAddMultiple(r: nat, k: nat, cap: nat)
    requires cap > 0
    ensures (cap * k + r) % cap == r % cap
  {
    assert cap * k + r == cap * (k + r / cap) + r % cap;
    DivModUnique(cap * k + r, cap, k + r / cap, r % cap);
  }

  lemma WrappedDifference(a: nat, b: nat)
    requires 0 <= a - b < TWO_TO_THE_64
    ensures Wrap(Wrap(a) - Wrap(b)) == a - b
    ensures a != b ==> Wrap(a) != Wrap(b)
  {
  }

  lemma WrapSucc(n: nat)
    ensures Wrap(Wrap(n) + 1) == Wrap(n + 1)
  {
  }

  /** Positions less than a capacity apart fall in different cells. */
  lemma DistinctCells(i: nat, j: nat, cap: nat)
    requires i < j < i + cap
    ensures i % cap != j % cap
  {
    var a, q := i % cap + (j - i), i / cap;
    if a < cap {
      DivModUnique(j, cap, q, a);
    } else {
      assert j == cap * (q + 1) + (a - cap);
      DivModUnique(j, cap, q + 1, a - cap);
    }
  }

  // ----- The invariant -----

  ghost predicate Inv<T>(cap: nat, s: State<T>) {
    && IsCapacity(cap) && |s.buffer| == cap
    && s.head == Wrap(|s.popped|) && s.tail == Wrap(|s.pushed|)
    && |s.popped| <= s.seenTail <= |s.pushed| <= s.seenHead + cap && s.seenHead <= |s.popped|
    && s.popped == s.pushed[..|s.popped|]
    && (forall i :: |s.popped| <= i < |s.pushed| ==> s.buffer[i % cap] == s.pushed[i])
    && (!s.producer.PIdle? ==> s.producer.tail == s.tail)
    && (s.producer.PWriting? || s.producer.PStoring? ==> |s.pushed| < s.seenHead + cap)
    && (s.producer.PStoring? ==> s.buffer[|s.pushed| % cap] == s.producer.value)
    && (!s.consumer.CIdle? ==> s.consumer.head == s.head)
    && (s.consumer.CReading? || s.consumer.CStoring? ==> |s.popped| < s.seenTail)
    && (s.consumer.CStoring? ==> s.consumer.out == s.pushed[|s.popped|])
  }

  lemma LooksFullIff(cap: nat, n: nat, pops: nat)
    requires IsCapacity(cap) && pops <= n <= pops + cap
    ensures LooksFull(cap, Wrap(n), Wrap(pops)) <==> n == pops + cap
  {
    WrapSucc(n);
    WrappedDifference(n + 1, pops);
  }

  lemma LoadHeadKeepsInv<T>(cap: nat, s: State<T>, pops: nat)
    requires Inv(cap, s) && Enabled(s, LoadHead(pops))
    ensures Inv(cap, Next(cap, s, LoadHead(pops)))
  {
    LooksFullIff(cap, |s.pushed|, pops);
  }

  lemma WriteCellKeepsInv<T>(cap: nat, s: State<T>)
    requires Inv(cap, s) && s.producer.PWriting?
    ensures Inv(cap, Next(cap, s, WriteCell))
  {
    var n := |s.pushed|;
    CellOfWrapped(n, cap);
    forall i | |s.popped| <= i < n
      ensures i % cap != n % cap
    {
      DistinctCells(i, n, cap);
    }
  }

  lemma StoreTailKeepsInv<T>(cap: nat, s: State<T>)
    requires Inv(cap, s) && s.producer.PStoring?
    ensures Inv(cap, Next(cap, s, StoreTail))
  {
    WrapSucc(|s.pushed|);
  }

  lemma ProducerStepKeepsInv<T>(cap: nat, s: State<T>, a: Action<T>)
    requires Inv(cap, s) && (a.BeginPush? || a.LoadHead? || a.WriteCell? || a.StoreTail?)
    ensures Inv(cap, Next(cap, s, a))
  {
    if Enabled(s, a) {
      match a {
        case LoadHead(pops) => LoadHeadKeepsInv(cap, s, pops);
        case WriteCell => WriteCellKeepsInv(cap, s);
        case StoreTail => StoreTailKeepsInv(cap, s);
        case _ =>
      }
    }
  }

  lemma ConsumerStepKeepsInv<T>(cap: nat, s: State<T>, a: Action<T>)
    requires Inv(cap, s) && (a.BeginPop? || a.LoadTail? || a.ReadCell? || a.StoreHead?)
    ensures Inv(cap, Next(cap, s, a))
  {
    if Enabled(s, a) {
      var n := |s.popped|;
      CellOfWrapped(n, cap);
      WrapSucc(n);
      if a.LoadTail? {
        WrappedDifference(a.pushes, n);
      }
    }
  }

  lemma {:induction false} RunKeepsInv<T>(cap: nat, buffer: seq<T>, actions: seq<Action<T>>)
    requires IsCapacity(cap) && |buffer| == cap
    ensures Inv(cap, Run(cap, buffer, actions))
  {
    if actions != [] {
      var front, a := actions[..|actions| - 1], actions[|actions| - 1];
      RunKeepsInv(cap, buffer, front);
      if a.BeginPush? || a.LoadHead? || a.WriteCell? || a.StoreTail? {
        ProducerStepKeepsInv(cap, Run(cap, buffer, front), a);
      } else {
        ConsumerStepKeepsInv(cap, Run(cap, buffer, front), a);
      }
    }
  }

  // ----- What every interleaving guarantees -----

  /**
   In every interleaving the consumer has taken a prefix of what the producer published, never
   more than a capacity is queued, and the cell being written is not the cell being read.
   */
  lemma {:induction false} EveryInterleavingIsSafe<T>(cap: nat, buffer: seq<T>, actions: seq<Action<T>>)
    requires IsCapacity(cap) && |buffer| == cap
    ensures var s := Run(cap, buffer, actions);
      && s.popped <= s.pushed && |s.pushed| - |s.popped| <= cap
      && (s.producer.PWriting? && s.consumer.CReading? ==> s.producer.tail % cap != s.consumer.head % cap)
  {
    RunKeepsInv(cap, buffer, actions);
    var s := Run(cap, buffer, actions);
    if s.producer.PWriting? && s.consumer.CReading? {
      CellOfWrapped(|s.popped|, cap);
      CellOfWrapped(|s.pushed|, cap);
      DistinctCells(|s.popped|, |s.pushed|, cap);
    }
  }

  /** A push that loads the current head is refused exactly when the buffer is full, a pop exactly when it is empty. */
  lemma RefusedIffFullOrEmpty<T>(cap: nat, s: State<T>)
    requires Inv(cap, s)
    ensures s.producer.PLoading? ==> (LooksFull(cap, s.producer.tail, s.head) <==> |s.pushed| - |s.popped| == cap)
    ensures s.consumer.CLoading? ==> (s.consumer.head == s.tail <==> s.popped == s.pushed)
  {
    LooksFullIff(cap, |s.pushed|, |s.popped|);
    WrappedDifference(|s.pushed|, |s.popped|);
  }

  /** size() as computed from the two loaded indices. */
  function SizeOf(tail: nat, head: nat): nat { Wrap(tail - head) }

  /**
   Called by the producer, size() lies between the true occupancy and the capacity; called by
   the consumer, between zero and the true occupancy, however late the other index is seen.
   */
  lemma {:induction false} SizeIsBounded<T>(cap: nat, buffer: seq<T>, actions: seq<Action<T>>, seen: nat)
    requires IsCapacity(cap) && |buffer| == cap
    ensures var s := Run(cap, buffer, actions);
      && (s.seenHead <= seen <= |s.popped| ==> |s.pushed| - |s.popped| <= SizeOf(s.tail, Wrap(seen)) <= cap)
      && (s.seenTail <= seen <= |s.pushed| ==> 0 <= SizeOf(Wrap(seen), s.head) <= |s.pushed| - |s.popped|)
  {
    RunKeepsInv(cap, buffer, actions);
    var s := Run(cap, buffer, actions);
    if s.seenHead <= seen <= |s.popped| {
      WrappedDifference(|s.pushed|, seen);
    }
    if s.seenTail <= seen <= |s.pushed| {
      WrappedDifference(seen, |s.popped|);
    }
  }

  // ----- Accounting for refused pushes -----

  function Taken<T>(outcomes: seq<(T, bool)>): seq<T> {
    if outcomes == [] then [] else
      Taken(outcomes[..|outcomes| - 1]) + if outcomes[|outcomes| - 1].1 then [outcomes[|outcomes| - 1].0] else []
  }

  function Refused<T>(outcomes: seq<(T, bool)>): nat {
    if outcomes == [] then 0 else
      Refused(outcomes[..|outcomes| - 1]) + if outcomes[|outcomes| - 1].1 then 0 else 1
  }

  ghost predicate Accounts<T>(s: State<T>) {
    s.pushed == Taken(s.outcomes) && |s.outcomes| == |s.pushed| + Refused(s.outcomes)
  }

  lemma {:induction false} OutcomeSnoc<T>(outcomes: seq<(T, bool)>, x: (T, bool))
    ensures Taken(outcomes + [x]) == Taken(outcomes) + if x.1 then [x.0] else []
    ensures Refused(outcomes + [x]) == Refused(outcomes) + if x.1 then 0 else 1
  {
    assert (outcomes + [x])[..|outcomes|] == outcomes;
  }

  lemma StepAccounts<T>(cap: nat, s: State<T>, a: Action<T>)
    requires cap > 0 && |s.buffer| == cap && Accounts(s)
    ensures Accounts(Next(cap, s, a))
  {
    if a.LoadHead? && Enabled(s, a) {
      OutcomeSnoc(s.outcomes, (s.producer.value, false));
    } else if a.StoreTail? && Enabled(s, a) {
      OutcomeSnoc(s.outcomes, (s.producer.value, true));
    }
  }

  /** The published values are the accepted pushes in order; every finished push is accepted or refused. */
  lemma {:induction false} OutcomesAccountForPushes<T>(cap: nat, buffer: seq<T>, actions: seq<Action<T>>)
    requires cap > 0 && |buffer| == cap
    ensures Accounts(Run(cap, buffer, actions))
  {
    if actions != [] {
      var front := actions[..|actions| - 1];
      OutcomesAccountForPushes(cap, buffer, front);
      StepAccounts(cap, Run(cap, buffer, front), actions[|actions| - 1]);
    }
  }
}
