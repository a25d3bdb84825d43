/** What the feed handler delivers over arbitrary runs of packets. */
module FeedRuns {
  import opened Types
  import opened Wire
  import opened FeedHandler
  import opened Sequences

  /** A parsed packet: its messages carry its stream and, in 64 bits, consecutive numbers from its own on. */
  ghost predicate PacketOk(p: Packet) {
    && p.first < TWO_TO_THE_64 && |p.messages| <= p.count < 256
    && forall i :: 0 <= i < |p.messages| ==>
         p.messages[i].seqNo == (p.first + i) % TWO_TO_THE_64 && p.messages[i].streamId == p.stream
  }

  /** The announced numbers do not run past 64 bits. */
  predicate InRange(p: Packet) { p.first + p.count < TWO_TO_THE_64 }

  lemma {:induction false} DecodedNumber(h: Header, ms: seq<seq<byte>>, j: nat)
    requires j < |ms| && WellFormed(ms[j])
    ensures var es := DecodeAll(DecoderFor(h), ms, 0);
      |es| == |ms| && es[j].seqNo == (h.seqNo + j) % TWO_TO_THE_64 && es[j].streamId == h.streamId
  {
    DecodeAllAt(DecoderFor(h), ms, 0, j);
    DecodeKeepsHeader(ms[j], h.streamId, (h.seqNo + j) % TWO_TO_THE_64, h.timestamp);
  }

  lemma {:induction false} DecodedNumbers(h: Header, ms: seq<seq<byte>>)
    requires forall j :: 0 <= j < |ms| ==> WellFormed(ms[j])
    ensures var es := DecodeAll(DecoderFor(h), ms, 0);
      |es| == |ms| && forall j :: 0 <= j < |es| ==>
        es[j].seqNo == (h.seqNo + j) % TWO_TO_THE_64 && es[j].streamId == h.streamId
  {
    forall j | 0 <= j < |ms|
      ensures var es := DecodeAll(DecoderFor(h), ms, 0);
        |es| == |ms| && es[j].seqNo == (h.seqNo + j) % TWO_TO_THE_64 && es[j].streamId == h.streamId
    {
      DecodedNumber(h, ms, j);
    }
    if ms != [] {
      DecodedNumber(h, ms, 0);
    }
  }

  /** Every byte packet parses to such a packet. */
  lemma BytesGiveOkPackets(data: seq<byte>)
    requires |data| >= HEADER_SIZE
    ensures PacketOk(PacketOf(data))
  {
    var h := DecodeHeader(data);
    var ms := Messages(data, HEADER_SIZE, h.msgCount);
    EventsAreTheMessages(h, data, HEADER_SIZE, h.msgCount, 0);
    assert PacketMessages(data) == DecodeAll(DecoderFor(h), ms, 0);
    DecodedNumbers(h, ms);
  }

  /** The statistics of stream `s` and what was emitted on it after a run of packets. */
  ghost function Run(ps: seq<Packet>, s: nat): (StreamStats, seq<MarketEvent>) {
    if ps == [] then (NEW_STREAM, []) else
      var (st, out) := Run(ps[..|ps| - 1], s);
      var p := ps[|ps| - 1];
      if p.stream != s then (st, out) else (Deliver(st, p).0, out + Deliver(st, p).1)
  }

  // ----- The reference: running maxima over all messages that arrived -----

  ghost function Arrivals(ps: seq<Packet>, s: nat): seq<MarketEvent> {
    if ps == [] then [] else
      Arrivals(ps[..|ps| - 1], s) + if ps[|ps| - 1].stream == s then ps[|ps| - 1].messages else []
  }

  ghost function MaxSeq(arr: seq<MarketEvent>): (m: int)
    ensures m >= -1
    ensures forall i :: 0 <= i < |arr| ==> arr[i].seqNo <= m
  {
    if arr == [] then -1 else Max(MaxSeq(arr[..|arr| - 1]), arr[|arr| - 1].seqNo)
  }

  /** The arrivals that exceed everything before them: the strict running maxima. */
  ghost function Accepted(arr: seq<MarketEvent>): seq<MarketEvent> {
    if arr == [] then [] else
      var front, last := arr[..|arr| - 1], arr[|arr| - 1];
      Accepted(front) + if last.seqNo > MaxSeq(front) then [last] else []
  }

  /** The jumps over missing numbers, as half-open ranges. */
  ghost function Gaps(arr: seq<MarketEvent>): seq<(int, int)> {
    if arr == [] then [] else
      var front, last := arr[..|arr| - 1], arr[|arr| - 1];
      Gaps(front) + if front != [] && last.seqNo > MaxSeq(front) + 1 then [(MaxSeq(front) + 1, last.seqNo)] else []
  }

  lemma {:induction false} HeartbeatsAppend(a: seq<MarketEvent>, b: seq<MarketEvent>)
    ensures WithoutHeartbeats(a + b) == WithoutHeartbeats(a) + WithoutHeartbeats(b)
  {
    if a == [] {
      assert a + b == b;
    } else {
      HeartbeatsAppend(a[1..], b);
      HeartbeatsCons(a[0], a[1..] + b);
      HeartbeatsCons(a[0], a[1..]);
      assert a + b == [a[0]] + (a[1..] + b) && a == [a[0]] + a[1..];
    }
  }

  lemma {:induction false} Snoc(arr: seq<MarketEvent>, e: MarketEvent)
    ensures MaxSeq(arr + [e]) == Max(MaxSeq(arr), e.seqNo)
    ensures Accepted(arr + [e]) == Accepted(arr) + if e.seqNo > MaxSeq(arr) then [e] else []
    ensures Gaps(arr + [e]) == Gaps(arr) + if arr != [] && e.seqNo > MaxSeq(arr) + 1
      then [(MaxSeq(arr) + 1, e.seqNo)] else []
  {
    assert (arr + [e])[..|arr|] == arr;
  }

  /** The statistics and the emissions agree with the reference on the arrivals so far. */
  ghost predicate Matches(st: StreamStats, out: seq<MarketEvent>, arr: seq<MarketEvent>) {
    && st.nextSeq == MaxSeq(arr) + 1
    && out == WithoutHeartbeats(Accepted(arr))
    && st.messages == |out| && st.gaps == |Gaps(arr)|
    && (st.needsRetransmit <==> Gaps(arr) != [])
    && (Gaps(arr) != [] ==> (st.lastGapLo, st.lastGapHi) == Gaps(arr)[|Gaps(arr)| - 1])
  }

  lemma ArriveMatches(st: StreamStats, out: seq<MarketEvent>, arr: seq<MarketEvent>, e: MarketEvent)
    requires Matches(st, out, arr) && e.seqNo + 1 < TWO_TO_THE_64
    ensures Matches(Arrive(st, e).0, out + Arrive(st, e).1, arr + [e])
  {
    Snoc(arr, e);
    HeartbeatsAppend(Accepted(arr), [e]);
    assert Accepted(arr) + [] == Accepted(arr) && out + [] == out;
    assert WithoutHeartbeats([e]) == if e.kind != HEARTBEAT then [e] else [];
    assert arr != [] ==> arr[0].seqNo <= MaxSeq(arr);
  }

  lemma {:induction false} ArriveAllMatches(st: StreamStats, out: seq<MarketEvent>, arr: seq<MarketEvent>,
      es: seq<MarketEvent>)
    requires Matches(st, out, arr)
    requires forall i :: 0 <= i < |es| ==> es[i].seqNo + 1 < TWO_TO_THE_64
    ensures Matches(ArriveAll(st, es).0, out + ArriveAll(st, es).1, arr + es)
    decreases |es|
  {
    if es == [] {
      assert out + [] == out && arr + es == arr;
    } else {
      var e, later := es[0], es[1..];
      assert es == [e] + later;
      ArriveMatches(st, out, arr, e);
      ArriveTurn(st, e, later);
      var st1, got := Arrive(st, e).0, Arrive(st, e).1;
      var rest := ArriveAll(st1, later).1;
      AppendAssoc(arr, [e], later);
      AppendAssoc(out, got, rest);
      ArriveAllMatches(st1, out + got, arr + [e], later);
    }
  }

  lemma {:induction false} DuplicatesAddNothing(arr: seq<MarketEvent>, es: seq<MarketEvent>)
    requires forall i :: 0 <= i < |es| ==> es[i].seqNo <= MaxSeq(arr)
    ensures MaxSeq(arr + es) == MaxSeq(arr) && Accepted(arr + es) == Accepted(arr) && Gaps(arr + es) == Gaps(arr)
  {
    if es == [] {
      assert arr + es == arr;
    } else {
      var front, last := es[..|es| - 1], es[|es| - 1];
      DuplicatesAddNothing(arr, front);
      Snoc(arr + front, last);
      assert arr + front + [last] == arr + es;
    }
  }

  lemma {:induction false} ExpectedStaysBelow(st: StreamStats, es: seq<MarketEvent>)
    requires st.nextSeq < TWO_TO_THE_64
    ensures ArriveAll(st, es).0.nextSeq < TWO_TO_THE_64
    decreases |es|
  {
    if es != [] {
      ExpectedStaysBelow(Arrive(st, es[0]).0, es[1..]);
    }
  }

  /**
   The parsed numbers stop short of 2^64 - 1, and the shortcut, whose end of the packet is taken
   modulo 2^64, is used only if every parsed message is a duplicate.
   */
  ghost predicate Fits(st: StreamStats, p: Packet) {
    var end := p.first + |p.messages|;
    p.messages == [] || (end < TWO_TO_THE_64 && (WholeDuplicate(st, p) ==> end <= st.nextSeq))
  }

  lemma InRangeFits(st: StreamStats, p: Packet)
    requires PacketOk(p) && InRange(p)
    ensures Fits(st, p)
  {
  }

  lemma NumbersDoNotWrap(p: Packet)
    requires PacketOk(p) && (p.messages == [] || p.first + |p.messages| < TWO_TO_THE_64)
    ensures forall i :: 0 <= i < |p.messages| ==> p.messages[i].seqNo == p.first + i
  {
  }

  lemma {:induction false} ShortcutMatches(st: StreamStats, out: seq<MarketEvent>, arr: seq<MarketEvent>, p: Packet)
    requires Matches(st, out, arr) && WholeDuplicate(st, p)
    requires forall i :: 0 <= i < |p.messages| ==> p.messages[i].seqNo <= MaxSeq(arr)
    ensures Matches(Deliver(st, p).0, out + Deliver(st, p).1, arr + p.messages)
  {
    DuplicatesAddNothing(arr, p.messages);
    assert out + [] == out;
  }

  lemma LoopMatches(st: StreamStats, out: seq<MarketEvent>, arr: seq<MarketEvent>, p: Packet)
    requires Matches(st, out, arr) && !WholeDuplicate(st, p)
    requires forall i :: 0 <= i < |p.messages| ==> p.messages[i].seqNo + 1 < TWO_TO_THE_64
    ensures Matches(Deliver(st, p).0, out + Deliver(st, p).1, arr + p.messages)
  {
    ArriveAllMatches(st.(packets := st.packets + 1), out, arr, p.messages);
  }

  lemma FittingPacketMatches(st: StreamStats, out: seq<MarketEvent>, arr: seq<MarketEvent>, p: Packet)
    requires Matches(st, out, arr) && PacketOk(p) && Fits(st, p)
    ensures Matches(Deliver(st, p).0, out + Deliver(st, p).1, arr + p.messages)
  {
    NumbersDoNotWrap(p);
    if WholeDuplicate(st, p) {
      ShortcutMatches(st, out, arr, p);
    } else {
      LoopMatches(st, out, arr, p);
    }
  }

  lemma {:induction false} MaxSeqAtLeast(arr: seq<MarketEvent>, es: seq<MarketEvent>, i: nat)
    requires i < |es|
    ensures MaxSeq(arr + es) >= es[i].seqNo
  {
    assert (arr + es)[|arr| + i] == es[i];
  }

  lemma DeliverStaysBelow(st: StreamStats, p: Packet)
    requires st.nextSeq < TWO_TO_THE_64
    ensures Deliver(st, p).0.nextSeq < TWO_TO_THE_64
  {
    ExpectedStaysBelow(st.(packets := st.packets + 1), p.messages);
  }

  lemma {:induction false} OtherPacketDoesNot(st: StreamStats, arr: seq<MarketEvent>, p: Packet)
    requires st.nextSeq == MaxSeq(arr) + 1 && PacketOk(p) && st.nextSeq < TWO_TO_THE_64 && !Fits(st, p)
    ensures Deliver(st, p).0.nextSeq != MaxSeq(arr + p.messages) + 1
  {
    var end := p.first + |p.messages|;
    if end < TWO_TO_THE_64 {
      MaxSeqAtLeast(arr, p.messages, |p.messages| - 1);
    } else {
      DeliverStaysBelow(st, p);
      MaxSeqAtLeast(arr, p.messages, TWO_TO_THE_64 - 1 - p.first);
    }
  }

  /**
   Delivering a packet keeps a stream equal to the running maxima of its arrivals exactly when
   the packet fits; the whole-packet shortcut is then as good as looking at every message.
   */
  lemma DeliverMatchesIff(st: StreamStats, out: seq<MarketEvent>, arr: seq<MarketEvent>, p: Packet)
    requires Matches(st, out, arr) && PacketOk(p) && st.nextSeq < TWO_TO_THE_64
    ensures Matches(Deliver(st, p).0, out + Deliver(st, p).1, arr + p.messages) <==> Fits(st, p)
  {
    if Fits(st, p) {
      FittingPacketMatches(st, out, arr, p);
    } else {
      OtherPacketDoesNot(st, arr, p);
    }
  }

  ghost predicate MatchesRun(ps: seq<Packet>, s: nat) {
    Matches(Run(ps, s).0, Run(ps, s).1, Arrivals(ps, s))
  }

  ghost predicate AlwaysMatches(ps: seq<Packet>, s: nat) {
    MatchesRun(ps, s) && (ps != [] ==> AlwaysMatches(ps[..|ps| - 1], s))
  }

  ghost predicate LastFits(ps: seq<Packet>, s: nat)
    requires ps != []
  {
    ps[|ps| - 1].stream == s ==> Fits(Run(ps[..|ps| - 1], s).0, ps[|ps| - 1])
  }

  ghost predicate EveryPacketFits(ps: seq<Packet>, s: nat) {
    ps != [] ==> LastFits(ps, s) && EveryPacketFits(ps[..|ps| - 1], s)
  }

  ghost predicate AllOk(ps: seq<Packet>) {
    forall i :: 0 <= i < |ps| ==> PacketOk(ps[i])
  }

  lemma {:induction false} RunExpectsBelow(ps: seq<Packet>, s: nat)
    ensures Run(ps, s).0.nextSeq < TWO_TO_THE_64
  {
    if ps != [] {
      var front, p := ps[..|ps| - 1], ps[|ps| - 1];
      RunExpectsBelow(front, s);
      DeliverStaysBelow(Run(front, s).0, p);
    }
  }

  lemma NextMatchesIff(ps: seq<Packet>, s: nat)
    requires ps != [] && AllOk(ps) && MatchesRun(ps[..|ps| - 1], s)
    ensures MatchesRun(ps, s) <==> LastFits(ps, s)
  {
    var front, p := ps[..|ps| - 1], ps[|ps| - 1];
    if p.stream == s {
      RunExpectsBelow(front, s);
      DeliverMatchesIff(Run(front, s).0, Run(front, s).1, Arrivals(front, s), p);
    } else {
      assert Arrivals(front, s) + [] == Arrivals(front, s);
    }
  }

  /**
   For arbitrary packets: after each of them the stream has emitted exactly the strict running
   maxima of everything that arrived on it, heartbeats left out, expects the number after the
   largest, and has recorded exactly the jumps as gaps, if and only if every packet fits.
   */
  lemma {:induction false} EmitsRunningMaximaIff(ps: seq<Packet>, s: nat)
    requires AllOk(ps)
    ensures AlwaysMatches(ps, s) <==> EveryPacketFits(ps, s)
  {
    if ps != [] {
      EmitsRunningMaximaIff(ps[..|ps| - 1], s);
      if MatchesRun(ps[..|ps| - 1], s) {
        NextMatchesIff(ps, s);
      }
    }
  }

  /** Packets whose announced numbers stay below 2^64 always fit. */
  lemma {:induction false} EmitsRunningMaxima(ps: seq<Packet>, s: nat)
    requires AllOk(ps) && forall i :: 0 <= i < |ps| ==> InRange(ps[i])
    ensures MatchesRun(ps, s)
  {
    if ps != [] {
      EmitsRunningMaxima(ps[..|ps| - 1], s);
      InRangeFits(Run(ps[..|ps| - 1], s).0, ps[|ps| - 1]);
      NextMatchesIff(ps, s);
    }
  }

  lemma {:induction false} RunSnoc(ps: seq<Packet>, p: Packet, s: nat)
    requires p.stream == s
    ensures var (st, out) := Run(ps, s); Run(ps + [p], s) == (Deliver(st, p).0, out + Deliver(st, p).1)
    ensures Arrivals(ps + [p], s) == Arrivals(ps, s) + p.messages
  {
    DropLast(ps, p);
  }

  /** Message number `no` of stream 1. */
  function Numbered1(no: nat): MarketEvent { Blank(ORDER_ADD, 1, no, 0) }

  function Single(no: nat): Packet { Packet(1, no, 1, [Numbered1(no)]) }

  lemma SingleDelivered(st: StreamStats, no: nat)
    requires st.nextSeq == 0
    ensures Deliver(st, Single(no)).0.nextSeq == (no + 1) % TWO_TO_THE_64 &&
      Deliver(st, Single(no)).1 == [Numbered1(no)]
  {
    ArriveOne(st.(packets := st.packets + 1), Numbered1(no));
  }

  lemma {:induction false} RunOfOne(p: Packet, s: nat)
    requires p.stream == s
    ensures Run([p], s) == Deliver(NEW_STREAM, p) && Arrivals([p], s) == p.messages
  {
    assert [p][..0] == [];
    assert [] + Deliver(NEW_STREAM, p).1 == Deliver(NEW_STREAM, p).1 && [] + p.messages == p.messages;
  }

  lemma SingleDropped(st: StreamStats)
    requires st.nextSeq != 0
    ensures Deliver(st, Single(TWO_TO_THE_64 - 1)).1 == []
  {
  }

  /** The last of the 64-bit numbers, alone in a packet, is taken for a duplicate although it is the largest. */
  lemma LastNumberIsDropped()
    ensures var last := TWO_TO_THE_64 - 1;
      var ps := [Single(9)] + [Single(last)];
      AllOk(ps) && Run(ps, 1).1 == [Numbered1(9)] && Arrivals(ps, 1) == [Numbered1(9)] + [Numbered1(last)]
  {
    var a, b := Single(9), Single(TWO_TO_THE_64 - 1);
    RunOfOne(a, 1);
    SingleDelivered(NEW_STREAM, 9);
    RunSnoc([a], b, 1);
    SingleDropped(Run([a], 1).0);
  }

  // ----- Numbers and gaps -----

  ghost function GapTotal(gaps: seq<(int, int)>): int {
    if gaps == [] then 0 else GapTotal(gaps[..|gaps| - 1]) + gaps[|gaps| - 1].1 - gaps[|gaps| - 1].0
  }

  /** The span of numbers is the accepted messages, heartbeats included, plus the total length of the gaps. */
  lemma {:induction false} SpanIsAcceptedPlusGaps(arr: seq<MarketEvent>)
    requires arr != []
    ensures MaxSeq(arr) + 1 - arr[0].seqNo == |Accepted(arr)| + GapTotal(Gaps(arr))
  {
    var front, last := arr[..|arr| - 1], arr[|arr| - 1];
    if front == [] {
      assert Gaps(arr) == [];
    } else {
      SpanIsAcceptedPlusGaps(front);
      var g := Gaps(arr);
      assert g != Gaps(front) ==> g[..|g| - 1] == Gaps(front);
    }
  }

  ghost predicate AcceptedNo(arr: seq<MarketEvent>, n: int) {
    exists i :: 0 <= i < |Accepted(arr)| && Accepted(arr)[i].seqNo == n
  }

  ghost predicate InGap(arr: seq<MarketEvent>, n: int) {
    exists i :: 0 <= i < |Gaps(arr)| && Gaps(arr)[i].0 <= n < Gaps(arr)[i].1
  }

  lemma {:induction false} AcceptedIncreases(arr: seq<MarketEvent>)
    ensures forall i, j :: 0 <= i < j < |Accepted(arr)| ==> Accepted(arr)[i].seqNo < Accepted(arr)[j].seqNo
    ensures forall i :: 0 <= i < |Accepted(arr)| ==> Accepted(arr)[i].seqNo <= MaxSeq(arr)
    ensures forall i :: 0 <= i < |Gaps(arr)| ==> Gaps(arr)[i].1 <= MaxSeq(arr)
  {
    if arr != [] {
      AcceptedIncreases(arr[..|arr| - 1]);
    }
  }

  /** A new largest number is accepted and lies in no gap. */
  lemma {:induction false} LargestIsAccepted(arr: seq<MarketEvent>)
    requires arr != [] && arr[|arr| - 1].seqNo > MaxSeq(arr[..|arr| - 1])
    ensures AcceptedNo(arr, arr[|arr| - 1].seqNo) && !InGap(arr, arr[|arr| - 1].seqNo)
  {
    var last, a := arr[|arr| - 1], Accepted(arr);
    assert a[|a| - 1] == last;
    AcceptedIncreases(arr);
    assert MaxSeq(arr) == last.seqNo;
  }

  /** A number that the last message jumped over lies in its gap and was not accepted. */
  lemma {:induction false} JumpedIsMissing(arr: seq<MarketEvent>, n: int)
    requires |arr| > 1 && MaxSeq(arr[..|arr| - 1]) < n < arr[|arr| - 1].seqNo
    ensures InGap(arr, n) && !AcceptedNo(arr, n)
  {
    var front, last := arr[..|arr| - 1], arr[|arr| - 1];
    var a, g := Accepted(arr), Gaps(arr);
    assert g[|g| - 1] == (MaxSeq(front) + 1, last.seqNo);
    AcceptedIncreases(front);
    assert a == Accepted(front) + [last];
  }

  /** Each number of the span was either accepted or lies in a recorded gap, never both. */
  lemma {:induction false} AcceptedOrMissing(arr: seq<MarketEvent>, n: int)
    requires arr != [] && arr[0].seqNo <= n <= MaxSeq(arr)
    ensures AcceptedNo(arr, n) <==> !InGap(arr, n)
  {
    var front, last := arr[..|arr| - 1], arr[|arr| - 1];
    if last.seqNo <= MaxSeq(front) {
      assert Accepted(arr) == Accepted(front) && Gaps(arr) == Gaps(front);
      AcceptedOrMissing(front, n);
    } else if n <= MaxSeq(front) {
      AcceptedOrMissing(front, n);
      AcceptedBelow(arr, n);
    } else if n == last.seqNo {
      LargestIsAccepted(arr);
    } else {
      JumpedIsMissing(arr, n);
    }
  }

  lemma AcceptedBelow(arr: seq<MarketEvent>, n: int)
    requires arr != [] && n <= MaxSeq(arr[..|arr| - 1]) < arr[|arr| - 1].seqNo
    ensures AcceptedNo(arr, n) <==> AcceptedNo(arr[..|arr| - 1], n)
    ensures InGap(arr, n) <==> InGap(arr[..|arr| - 1], n)
  {
    var front := arr[..|arr| - 1];
    var a, g := Accepted(arr), Gaps(arr);
    assert forall i :: 0 <= i < |Accepted(front)| ==> a[i] == Accepted(front)[i];
    assert forall i :: 0 <= i < |Gaps(front)| ==> g[i] == Gaps(front)[i];
  }

  // ----- Two redundant sources -----

  datatype Sourced = Sourced(primary: bool, packet: Packet)

  /** How many messages one source has delivered in a run. */
  ghost function Progress(run: seq<Sourced>, primary: bool): nat {
    if run == [] then 0 else
      Progress(run[..|run| - 1], primary) + if run[|run| - 1].primary == primary then run[|run| - 1].packet.count else 0
  }

  /**
   Each source batches the same messages `all`, numbered contiguously, in its own way, and the
   packets of the two arrive in any interleaving.
   */
  ghost predicate CarriesTheSame(run: seq<Sourced>, all: seq<MarketEvent>, s: nat) {
    run == [] ||
    (var front, last := run[..|run| - 1], run[|run| - 1];
     var at, p := Progress(front, last.primary), last.packet;
     && CarriesTheSame(front, all, s)
     && PacketOk(p) && p.stream == s
     && at + p.count <= |all| && p.messages == all[at..at + p.count])
  }

  ghost predicate Numbered(all: seq<MarketEvent>, s: nat, first: nat) {
    && first + |all| < TWO_TO_THE_64
    && forall i :: 0 <= i < |all| ==> all[i].seqNo == first + i && all[i].streamId == s
  }

  ghost function Packets(run: seq<Sourced>): (ps: seq<Packet>)
    ensures |ps| == |run|
  {
    if run == [] then [] else Packets(run[..|run| - 1]) + [run[|run| - 1].packet]
  }

  ghost function Furthest(run: seq<Sourced>): nat { Max(Progress(run, true), Progress(run, false)) }

  /** The arrivals have covered exactly the first `done` messages, without a jump. */
  ghost predicate Covered(arr: seq<MarketEvent>, all: seq<MarketEvent>, first: nat, done: nat) {
    && done <= |all| && Accepted(arr) == all[..done] && Gaps(arr) == []
    && MaxSeq(arr) == (if done == 0 then -1 else first + done - 1)
  }

  lemma CoverStep(arr: seq<MarketEvent>, full: seq<MarketEvent>, all: seq<MarketEvent>, s: nat, first: nat,
      done: nat, b: nat)
    requires Numbered(all, s, first) && Covered(arr, all, first, done)
    requires b <= done && b < |all| && full == arr + [all[b]]
    ensures Covered(full, all, first, Max(done, b + 1))
  {
    Snoc(arr, all[b]);
    assert all[b].seqNo == first + b;
    if b < done {
      assert Accepted(arr) + [] == Accepted(arr) && Gaps(arr) + [] == Gaps(arr);
    } else {
      assert all[..b + 1] == all[..b] + [all[b]];
      assert arr != [] ==> arr[0].seqNo <= MaxSeq(arr);
    }
  }

  lemma {:induction false} CoverExtends(arr: seq<MarketEvent>, all: seq<MarketEvent>, s: nat, first: nat, done: nat,
      a: nat, b: nat)
    requires Numbered(all, s, first) && Covered(arr, all, first, done)
    requires a <= done && a <= b <= |all|
    ensures Covered(arr + all[a..b], all, first, Max(done, b))
  {
    if a == b {
      assert arr + all[a..b] == arr;
    } else {
      var before, full := arr + all[a..b - 1], arr + all[a..b];
      SliceSnoc(all, a, b);
      AppendAssoc(arr, all[a..b - 1], [all[b - 1]]);
      CoverExtends(arr, all, s, first, done, a, b - 1);
      CoverStep(before, full, all, s, first, Max(done, b - 1), b - 1);
    }
  }

  lemma ArrivalsOfRun(run: seq<Sourced>, s: nat)
    requires run != []
    ensures var front, p := run[..|run| - 1], run[|run| - 1].packet;
      Arrivals(Packets(run), s) == Arrivals(Packets(front), s) + if p.stream == s then p.messages else []
  {
    var ps := Packets(run);
    assert ps[..|ps| - 1] == Packets(run[..|run| - 1]);
  }

  lemma {:induction false} CarriedPacketInRange(run: seq<Sourced>, all: seq<MarketEvent>, s: nat, first: nat)
    requires run != [] && Numbered(all, s, first) && CarriesTheSame(run, all, s)
    ensures InRange(run[|run| - 1].packet)
  {
    var last := run[|run| - 1];
    var at, p := Progress(run[..|run| - 1], last.primary), last.packet;
    if p.count > 0 {
      assert p.messages[0] == all[at] && all[at].seqNo == first + at;
    }
  }

  lemma {:induction false} CarriedPacketsAreOk(run: seq<Sourced>, all: seq<MarketEvent>, s: nat, first: nat)
    requires Numbered(all, s, first) && CarriesTheSame(run, all, s)
    ensures AllOk(Packets(run)) && forall i :: 0 <= i < |run| ==> InRange(Packets(run)[i])
  {
    if run != [] {
      CarriedPacketsAreOk(run[..|run| - 1], all, s, first);
      CarriedPacketInRange(run, all, s, first);
    }
  }

  lemma {:induction false} PacketCovers(run: seq<Sourced>, arr: seq<MarketEvent>, all: seq<MarketEvent>, s: nat,
      first: nat)
    requires run != [] && Numbered(all, s, first) && CarriesTheSame(run, all, s)
    requires Covered(arr, all, first, Furthest(run[..|run| - 1]))
    ensures Covered(arr + run[|run| - 1].packet.messages, all, first, Furthest(run))
  {
    var front, last := run[..|run| - 1], run[|run| - 1];
    var at := Progress(front, last.primary);
    CoverExtends(arr, all, s, first, Furthest(front), at, at + last.packet.count);
  }

  lemma {:induction false} RunCovers(run: seq<Sourced>, all: seq<MarketEvent>, s: nat, first: nat)
    requires Numbered(all, s, first) && CarriesTheSame(run, all, s)
    ensures Covered(Arrivals(Packets(run), s), all, first, Furthest(run))
  {
    if run != [] {
      var front := run[..|run| - 1];
      RunCovers(front, all, s, first);
      PacketCovers(run, Arrivals(Packets(front), s), all, s, first);
      ArrivalsOfRun(run, s);
    }
  }

  /**
   With two sources that carry the same contiguous messages, however batched and interleaved,
   the handler has emitted exactly the messages that either source has reached, once each and
   in order, heartbeats left out, and has recorded no gap.
   */
  lemma {:induction false} DualSourceExactlyOnce(run: seq<Sourced>, all: seq<MarketEvent>, s: nat, first: nat)
    requires Numbered(all, s, first) && CarriesTheSame(run, all, s)
    ensures Furthest(run) <= |all|
    ensures Run(Packets(run), s).1 == WithoutHeartbeats(all[..Furthest(run)])
    ensures var st := Run(Packets(run), s).0;
      st.gaps == 0 && !st.needsRetransmit && (Furthest(run) > 0 ==> st.nextSeq == first + Furthest(run))
  {
    RunCovers(run, all, s, first);
    CarriedPacketsAreOk(run, all, s, first);
    EmitsRunningMaxima(Packets(run), s);
  }

  // ----- All streams together -----

  /** What the handler emits over a run of packets of any streams. */
  ghost function Emitted(ps: seq<Packet>): seq<MarketEvent> {
    if ps == [] then [] else
      var front, p := ps[..|ps| - 1], ps[|ps| - 1];
      Emitted(front) + Deliver(Run(front, p.stream).0, p).1
  }

  ghost function OnStream(es: seq<MarketEvent>, s: nat): seq<MarketEvent> {
    if es == [] then []
    else if es[0].streamId == s then [es[0]] + OnStream(es[1..], s)
    else OnStream(es[1..], s)
  }

  lemma {:induction false} OnStreamAppend(a: seq<MarketEvent>, b: seq<MarketEvent>, s: nat)
    ensures OnStream(a + b, s) == OnStream(a, s) + OnStream(b, s)
  {
    if a == [] {
      assert a + b == b;
    } else {
      OnStreamAppend(a[1..], b, s);
      assert (a + b)[1..] == a[1..] + b;
    }
  }

  lemma {:induction false} DeliveredStream(st: StreamStats, es: seq<MarketEvent>, s: nat, t: nat)
    requires forall i :: 0 <= i < |es| ==> es[i].streamId == s
    ensures OnStream(ArriveAll(st, es).1, t) == if s == t then ArriveAll(st, es).1 else []
    decreases |es|
  {
    if es != [] {
      var (st1, out) := Arrive(st, es[0]);
      DeliveredStream(st1, es[1..], s, t);
      OnStreamAppend(out, ArriveAll(st1, es[1..]).1, t);
      assert OnStream(out, t) == if s == t then out else [];
    }
  }

  /** The emissions of each stream are those of that stream's own run. */
  lemma {:induction false} StreamsAreIndependent(ps: seq<Packet>, s: nat)
    requires AllOk(ps)
    ensures OnStream(Emitted(ps), s) == Run(ps, s).1
  {
    if ps != [] {
      var front, p := ps[..|ps| - 1], ps[|ps| - 1];
      StreamsAreIndependent(front, s);
      var st := Run(front, p.stream).0;
      OnStreamAppend(Emitted(front), Deliver(st, p).1, s);
      DeliverOnStream(st, p, s);
      assert Run(front, s).1 + [] == Run(front, s).1;
    }
  }

  lemma {:induction false} DeliverOnStream(st: StreamStats, p: Packet, t: nat)
    requires PacketOk(p)
    ensures OnStream(Deliver(st, p).1, t) == if p.stream == t then Deliver(st, p).1 else []
  {
    if !WholeDuplicate(st, p) {
      DeliveredStream(st.(packets := st.packets + 1), p.messages, p.stream, t);
    }
  }
}
