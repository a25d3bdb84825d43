/**
 The dual-source feed handler: deduplication by sequence number, gap detection and the
 whole-packet shortcut, per stream.
 */
module FeedHandler {
  import opened Types
  import opened Wire
  import opened Sequences

  const MAX_STREAMS: nat := 65536

  datatype StreamStats = StreamStats(
    nextSeq: nat, packets: nat, messages: nat, duplicates: nat,
    gaps: nat, lastGapLo: nat, lastGapHi: nat, needsRetransmit: bool)

  const NEW_STREAM := StreamStats(0, 0, 0, 0, 0, 0, 0, false)

  /** A decoded packet: the header fields, and the messages the batch loop would accept from it. */
  datatype Packet = Packet(stream: nat, first: nat, count: nat, messages: seq<MarketEvent>)

  /** One message: a duplicate is dropped, anything else is accepted, over a gap if need be. */
  function Arrive(st: StreamStats, e: MarketEvent): (StreamStats, seq<MarketEvent>) {
    if st.nextSeq != 0 && e.seqNo < st.nextSeq then (st.(duplicates := st.duplicates + 1), [])
    else
      var gapped := if st.nextSeq != 0 && e.seqNo > st.nextSeq
        then st.(gaps := st.gaps + 1, lastGapLo := st.nextSeq, lastGapHi := e.seqNo, needsRetransmit := true) else st;
      var moved := gapped.(nextSeq := (e.seqNo + 1) % TWO_TO_THE_64);
      if e.kind != HEARTBEAT then (moved.(messages := moved.messages + 1), [e]) else (moved, [])
  }

  function ArriveAll(st: StreamStats, es: seq<MarketEvent>): (StreamStats, seq<MarketEvent>)
    decreases |es|
  {
    if es == [] then (st, []) else
      var (st1, out) := Arrive(st, es[0]);
      var (st2, rest) := ArriveAll(st1, es[1..]);
      (st2, out + rest)
  }

  lemma {:induction false} ArriveTurn(st: StreamStats, e: MarketEvent, es: seq<MarketEvent>)
    ensures ArriveAll(st, [e] + es).0 == ArriveAll(Arrive(st, e).0, es).0
    ensures ArriveAll(st, [e] + es).1 == Arrive(st, e).1 + ArriveAll(Arrive(st, e).0, es).1
  {
    assert ([e] + es)[1..] == es;
  }

  lemma {:induction false} ArriveOne(st: StreamStats, e: MarketEvent)
    ensures ArriveAll(st, [e]) == Arrive(st, e)
  {
    var (st1, out) := Arrive(st, e);
    assert ArriveAll(st1, [e][1..]) == (st1, []) && out + [] == out;
  }

  predicate WholeDuplicate(st: StreamStats, p: Packet) {
    st.nextSeq != 0 && (p.first + p.count) % TWO_TO_THE_64 <= st.nextSeq
  }

  /** on_packet, on the statistics of the packet's stream. */
  function Deliver(st: StreamStats, p: Packet): (StreamStats, seq<MarketEvent>) {
    if WholeDuplicate(st, p) then (st.(duplicates := st.duplicates + p.count), [])
    else ArriveAll(st.(packets := st.packets + 1), p.messages)
  }

  ghost function PacketOf(data: seq<byte>): Packet
    requires |data| >= HEADER_SIZE
  {
    var h := DecodeHeader(data);
    Packet(h.streamId, h.seqNo, h.msgCount, PacketMessages(data))
  }

  // ----- The handler as the source keeps it -----

  /** The message loop has taken `i` messages: what it has and what is still to come make up the whole. */
  ghost predicate Underway(whole: (StreamStats, seq<MarketEvent>), st: StreamStats, emitted: seq<MarketEvent>,
      todo: seq<MarketEvent>) {
    whole.0 == ArriveAll(st, todo).0 && whole.1 == emitted + ArriveAll(st, todo).1
  }

  lemma UnderwayTurn(whole: (StreamStats, seq<MarketEvent>), st: StreamStats, emitted: seq<MarketEvent>,
                     e: MarketEvent, rest: seq<MarketEvent>)
    requires Underway(whole, st, emitted, [e] + rest)
    ensures Underway(whole, Arrive(st, e).0, emitted + Arrive(st, e).1, rest)
  {
    ArriveTurn(st, e, rest);
    AppendAssoc(emitted, Arrive(st, e).1, ArriveAll(Arrive(st, e).0, rest).1);
  }

  lemma UnderwayEnds(whole: (StreamStats, seq<MarketEvent>), st: StreamStats, emitted: seq<MarketEvent>)
    requires Underway(whole, st, emitted, [])
    ensures whole == (st, emitted)
  {
    assert emitted + [] == emitted;
  }

  lemma {:induction false} UnderwayStarts(st: StreamStats, todo: seq<MarketEvent>)
    ensures Underway(ArriveAll(st, todo), st, [], todo)
  {
  }

  /** The message loop of on_packet. */
  method DeliverBatch(parse: MessageParser, data: seq<byte>, msgCount: nat, start: StreamStats)
    returns (st: StreamStats, emitted: seq<MarketEvent>, complete: bool)
    requires Progresses(parse)
    ensures var es := Events(parse, data, HEADER_SIZE, msgCount, 0);
      ArriveAll(start, es) == (st, emitted) && complete == (|es| == msgCount)
  {
    st, emitted, complete := start, [], true;
    var off: nat := HEADER_SIZE;
    var i := 0;
    ghost var todo := Events(parse, data, HEADER_SIZE, msgCount, 0);
    ghost var size, whole := |todo|, ArriveAll(start, todo);
    UnderwayStarts(start, todo);
    while i < msgCount
      invariant 0 <= i <= msgCount && size == i + |todo| && complete
      invariant Underway(whole, st, emitted, todo) && todo == Events(parse, data, off, msgCount - i, i)
    {
      var r := parse(data, off, i);
      EventsTurn(parse, data, off, msgCount - i, i);
      if r.None? {
        complete := false;
        break;
      }
      var (ev, consumed) := r.value;
      todo := Events(parse, data, off + consumed, msgCount - i - 1, i + 1);
      UnderwayTurn(whole, st, emitted, ev, todo);
      var (next, out) := Arrive(st, ev);
      st, emitted := next, emitted + out;
      off := off + consumed;
      i := i + 1;
    }
    UnderwayEnds(whole, st, emitted);
  }

  /** The part of on_packet that works on the statistics of one stream. */
  method DeliverPacket(parse: MessageParser, data: seq<byte>, h: Header, st: StreamStats)
    returns (r: StreamStats, emitted: seq<MarketEvent>, bad: bool)
    requires Progresses(parse)
    ensures var p := Packet(h.streamId, h.seqNo, h.msgCount, Events(parse, data, HEADER_SIZE, h.msgCount, 0));
      && r == Deliver(st, p).0 && emitted == Deliver(st, p).1
      && bad == (|p.messages| < p.count && !WholeDuplicate(st, p))
  {
    var packetHi := (h.seqNo + h.msgCount) % TWO_TO_THE_64;
    if st.nextSeq != 0 && packetHi <= st.nextSeq {
      return st.(duplicates := st.duplicates + h.msgCount), [], false;
    }
    var complete;
    r, emitted, complete := DeliverBatch(parse, data, h.msgCount, st.(packets := st.packets + 1));
    bad := !complete;
  }

  class FeedHandler {
    const streams: array<StreamStats>
    var malformed: nat

    ghost predicate Valid()
      reads this
    {
      streams.Length == MAX_STREAMS
    }

    constructor ()
      ensures Valid() && fresh(streams) && malformed == 0
      ensures forall s :: 0 <= s < streams.Length ==> streams[s] == NEW_STREAM
    {
      streams := new StreamStats[MAX_STREAMS](_ => NEW_STREAM);
      malformed := 0;
    }

    /** on_packet: only the packet's own stream changes; what is emitted is what Deliver says. */
    method OnPacket(data: seq<byte>) returns (emitted: seq<MarketEvent>)
      requires Valid()
      modifies this, streams
      ensures Valid()
      ensures |data| < HEADER_SIZE ==> emitted == [] && streams[..] == old(streams[..])
      ensures |data| >= HEADER_SIZE ==>
        var p := PacketOf(data);
        && p.stream < streams.Length
        && streams[..] == old(streams[..])[p.stream := Deliver(old(streams[p.stream]), p).0]
        && emitted == Deliver(old(streams[p.stream]), p).1
      ensures malformed == old(malformed) +
        if |data| < HEADER_SIZE ||
          (PacketMalformed(data) && !WholeDuplicate(old(streams[DecodeHeader(data).streamId]), PacketOf(data)))
            then 1 else 0
    {
      if |data| < HEADER_SIZE {
        malformed := malformed + 1;
        return [];
      }
      var h := DecodeHeader(data);
      var st, bad;
      st, emitted, bad := DeliverPacket(ParserFor(h), data, h, streams[h.streamId]);
      streams[h.streamId] := st;
      if bad {
        malformed := malformed + 1;
      }
    }

    method ClearRetransmit(streamId: nat)
      requires Valid()
      modifies streams
      ensures streams[..] == if streamId < MAX_STREAMS
        then old(streams[..])[streamId := old(streams[..])[streamId].(needsRetransmit := false)] else old(streams[..])
    {
      if streamId < MAX_STREAMS {
        streams[streamId] := streams[streamId].(needsRetransmit := false);
      }
    }
  }
}
