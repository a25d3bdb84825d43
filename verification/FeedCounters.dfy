/** The counters of a stream: everything it was offered is taken or a duplicate, and what it emits is counted. */
module FeedCounters {
  import opened Types
  import opened FeedHandler
  import opened FeedRuns
  import opened FeedOrder

  /** In 64 bits the announced end of the packet is not past the number that the stream expects. */
  predicate Skipped(next: nat, p: Packet) { next != 0 && (p.first + p.count) % TWO_TO_THE_64 <= next }

  /** The messages a stream was offered: all that a packet announces where it is skipped whole, else all that were parsed. */
  ghost function Offered(ps: seq<Packet>, s: nat): nat {
    if ps == [] then 0 else
      var front, p := ps[..|ps| - 1], ps[|ps| - 1];
      Offered(front, s) + if p.stream != s then 0 else if Skipped(Run(front, s).0.nextSeq, p) then p.count else |p.messages|
  }

  /** The packets of a stream that were not skipped whole. */
  ghost function Opened(ps: seq<Packet>, s: nat): nat {
    if ps == [] then 0 else
      var front, p := ps[..|ps| - 1], ps[|ps| - 1];
      Opened(front, s) + if p.stream == s && !Skipped(Run(front, s).0.nextSeq, p) then 1 else 0
  }

  lemma {:induction false} BatchCounts(st: StreamStats, es: seq<MarketEvent>)
    ensures var (st', out) := ArriveAll(st, es);
      && st'.duplicates + |TakeAll(st, es)| == st.duplicates + |es|
      && st'.messages == st.messages + |out| && st'.packets == st.packets
    decreases |es|
  {
    if es != [] {
      BatchCounts(Arrive(st, es[0]).0, es[1..]);
    }
  }

  /** In every run each message offered was taken or counted as a duplicate, and each emission and opened packet counted. */
  lemma {:induction false} CountersAccount(ps: seq<Packet>, s: nat)
    ensures var (st, out) := Run(ps, s);
      st.duplicates + |Taken(ps, s)| == Offered(ps, s) && st.messages == |out| && st.packets == Opened(ps, s)
  {
    if ps != [] {
      var front, p := ps[..|ps| - 1], ps[|ps| - 1];
      CountersAccount(front, s);
      var st := Run(front, s).0;
      BatchCounts(st.(packets := st.packets + 1), p.messages);
    }
  }
}
