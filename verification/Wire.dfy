/**
 The MTBT wire format: little-endian fields, batched messages, the capture encoder and the
 readers, with the round trip between them.
 */
module Wire {
  import opened Types
  import opened Arithmetic
  import opened Sequences

  type byte = x: int | 0 <= x < 256

  // ----- Little-endian numbers -----

  function Pow256(w: nat): (p: nat)
    ensures p > 0
  {
    if w == 0 then 1 else 256 * Pow256(w - 1)
  }

  function LeBytes(u: nat, w: nat): (b: seq<byte>)
    ensures |b| == w
  {
    if w == 0 then [] else [u % 256] + LeBytes(u / 256, w - 1)
  }

  function LeValue(b: seq<byte>): nat {
    if b == [] then 0 else b[0] + 256 * LeValue(b[1..])
  }

  lemma {:induction false} LeRoundTrip(u: nat, w: nat)
    requires u < Pow256(w)
    ensures LeValue(LeBytes(u, w)) == u
  {
    if w > 0 {
      LeRoundTrip(u / 256, w - 1);
      assert LeBytes(u, w)[1..] == LeBytes(u / 256, w - 1);
    }
  }

  lemma {:induction false} LeValueBound(b: seq<byte>)
    ensures LeValue(b) < Pow256(|b|)
  {
    if b != [] {
      LeValueBound(b[1..]);
    }
  }

  lemma {:induction false} LeValueSnoc(b: seq<byte>, x: byte)
    ensures LeValue(b + [x]) == LeValue(b) + x * Pow256(|b|)
  {
    if b != [] {
      LeValueSnoc(b[1..], x);
      assert (b + [x])[1..] == b[1..] + [x];
      assert 256 * (x * Pow256(|b| - 1)) == x * Pow256(|b|);
    }
  }

  /** load_le: accumulates the bytes, the later ones in the higher positions. */
  method LoadLe(data: seq<byte>, off: nat, w: nat) returns (v: nat)
    requires off + w <= |data|
    ensures v == LeValue(data[off..off + w])
  {
    v := 0;
    var weight: nat := 1;
    for i := 0 to w
      invariant v == LeValue(data[off..off + i]) && weight == Pow256(i)
    {
      LeValueSnoc(data[off..off + i], data[off + i]);
      assert data[off..off + i + 1] == data[off..off + i] + [data[off + i]];
      v := v + data[off + i] * weight;
      weight := 256 * weight;
    }
  }

  /** PutLe: appends the low `w` bytes of a value, negative ones in two's complement. */
  method PutLe(b: seq<byte>, v: int, w: nat) returns (r: seq<byte>)
    ensures r == b + LeBytes(v % Pow256(w), w)
  {
    r := b;
    var rest := v % Pow256(w);
    ghost var all := LeBytes(rest, w);
    for i := 0 to w
      invariant rest >= 0 && b + all == r + LeBytes(rest, w - i)
    {
      r := r + [rest % 256];
      rest := rest / 256;
    }
  }

  /** Reinterprets an unsigned value of `w` bytes as two's complement. */
  function Signed(u: nat, w: nat): int {
    FromTwosComplement(u, Pow256(w))
  }

  ghost predicate FitsSigned(v: int, w: nat) { -(Pow256(w) / 2) <= v < Pow256(w) / 2 }

  ghost predicate FitsUnsigned(v: int, w: nat) { 0 <= v < Pow256(w) }

  lemma {:induction false} EvenPower(w: nat)
    requires w > 0
    ensures Pow256(w) % 2 == 0
  {
  }

  lemma {:induction false} SignedRemainder(v: int, w: nat)
    requires w > 0 && FitsSigned(v, w)
    ensures Signed(v % Pow256(w), w) == v
  {
    EvenPower(w);
    TwosComplement(v, Pow256(w));
  }

  lemma {:induction false} SignedRoundTrip(v: int, w: nat)
    requires w > 0 && FitsSigned(v, w)
    ensures Signed(LeValue(LeBytes(v % Pow256(w), w)), w) == v
  {
    LeRoundTrip(v % Pow256(w), w);
    SignedRemainder(v, w);
  }

  // ----- Messages -----

  const HEADER_SIZE: nat := 19

  datatype Header = Header(streamId: nat, seqNo: nat, msgCount: nat, timestamp: nat)

  /** On-wire size of a message by its type byte; 0 for an unknown type. */
  function MessageSize(kind: nat): nat {
    if kind == ORDER_ADD then 26
    else if kind == ORDER_MODIFY then 25
    else if kind == ORDER_CANCEL then 13
    else if kind == TRADE then 41
    else if kind == SNAP_QUOTE then 29
    else if kind == HEARTBEAT then 1
    else 0
  }

  function U(data: seq<byte>, off: nat, w: nat): nat
    requires off + w <= |data|
  {
    LeValue(data[off..off + w])
  }

  function S(data: seq<byte>, off: nat, w: nat): int
    requires off + w <= |data|
  {
    Signed(U(data, off, w), w)
  }

  function DecodeHeader(data: seq<byte>): (h: Header)
    requires |data| >= HEADER_SIZE
    ensures h.streamId < 65536 && h.seqNo < TWO_TO_THE_64 && h.msgCount < 256 && h.timestamp < TWO_TO_THE_64
  {
    LeValueBound(data[0..2]);
    LeValueBound(data[2..10]);
    LeValueBound(data[10..11]);
    LeValueBound(data[11..19]);
    assert Pow256(1) == 256 && Pow256(2) == 65536 && Pow256(4) == 65536 * 65536 && Pow256(8) == Pow256(4) * Pow256(4);
    Header(U(data, 0, 2), U(data, 2, 8), U(data, 10, 1), U(data, 11, 8))
  }

  predicate WellFormed(msg: seq<byte>) { |msg| > 0 && |msg| == MessageSize(msg[0]) }

  function DecodeSide(indicator: nat): Side { if indicator == 1 then Buy else Sell }

  function EncodeSide(side: Side): nat { if side == Buy then 1 else 2 }

  /** A blank event: what parse_message writes before it looks at the body. */
  function Blank(kind: nat, streamId: nat, seqNo: nat, ts: nat): MarketEvent {
    MarketEvent(ts, 0, 0, 0, Buy, kind, 0, streamId, seqNo, 0, 0, 0, 0, 0, 0)
  }

  /** parse_message on a complete message. */
  function Decode(msg: seq<byte>, streamId: nat, seqNo: nat, ts: nat): MarketEvent
    requires WellFormed(msg)
  {
    var e := Blank(msg[0], streamId, seqNo, ts);
    if msg[0] == ORDER_ADD then
      e.(orderNo := S(msg, 1, 8), side := DecodeSide(U(msg, 9, 1)), qty := S(msg, 10, 4), token := U(msg, 14, 4),
        price := S(msg, 18, 8))
    else if msg[0] == ORDER_MODIFY then
      e.(orderNo := S(msg, 1, 8), qty := S(msg, 9, 4), token := U(msg, 13, 4), price := S(msg, 17, 8))
    else if msg[0] == ORDER_CANCEL then
      e.(orderNo := S(msg, 1, 8), token := U(msg, 9, 4))
    else if msg[0] == TRADE then
      e.(orderNo := S(msg, 1, 8), orderNo2 := S(msg, 9, 8), token := U(msg, 17, 4), price := S(msg, 21, 8),
        qty := S(msg, 29, 4), tradeNo := S(msg, 33, 8))
    else if msg[0] == SNAP_QUOTE then
      e.(token := U(msg, 1, 4), bidPrice := S(msg, 5, 8), bidQty := S(msg, 13, 4), askPrice := S(msg, 17, 8),
        askQty := S(msg, 25, 4))
    else e
  }

  /** A complete message of a known type starts at `off`. */
  predicate StartsAt(data: seq<byte>, off: nat) {
    off < |data| && MessageSize(data[off]) != 0 && off + MessageSize(data[off]) <= |data|
  }

  /** parse_message at an offset: the event and the bytes consumed, or nothing on a truncated or unknown message. */
  function ParseMessage(data: seq<byte>, off: nat, streamId: nat, seqNo: nat, ts: nat): (r: Option<(MarketEvent, nat)>)
    ensures r.Some? <==> StartsAt(data, off)
    ensures r.Some? ==> 0 < r.value.1 && off + r.value.1 <= |data| && WellFormed(data[off..off + r.value.1])
  {
    if !StartsAt(data, off) then None else
      var need := MessageSize(data[off]);
      Some((Decode(data[off..off + need], streamId, seqNo, ts), need))
  }

  // ----- Batches -----

  /** The messages the batch loop accepts from offset `off` on, when `n` more are announced. */
  ghost function Messages(data: seq<byte>, off: nat, n: nat): (ms: seq<seq<byte>>)
    ensures |ms| <= n
    ensures forall i :: 0 <= i < |ms| ==> WellFormed(ms[i])
    decreases n
  {
    if n == 0 || !StartsAt(data, off) then [] else
      var size := MessageSize(data[off]);
      [data[off..off + size]] + Messages(data, off + size, n - 1)
  }

  lemma {:induction false} MessagesTurn(data: seq<byte>, off: nat, n: nat)
    requires n > 0 && StartsAt(data, off)
    ensures var size := MessageSize(data[off]);
      Messages(data, off, n) == [data[off..off + size]] + Messages(data, off + size, n - 1)
  {
  }

  ghost function Concat(ms: seq<seq<byte>>): seq<byte> {
    if ms == [] then [] else ms[0] + Concat(ms[1..])
  }

  lemma {:induction false} ConcatCons(m: seq<byte>, ms: seq<seq<byte>>)
    ensures Concat([m] + ms) == m + Concat(ms)
  {
    assert ([m] + ms)[1..] == ms;
  }

  /** The bytes of these messages stand at offset `off`. */
  ghost predicate StandsAt(data: seq<byte>, off: nat, ms: seq<seq<byte>>) {
    off + |Concat(ms)| <= |data| && data[off..off + |Concat(ms)|] == Concat(ms)
  }

  lemma {:induction false} StandsCons(data: seq<byte>, off: nat, m: seq<byte>, rest: seq<seq<byte>>)
    requires StandsAt(data, off + |m|, rest) && data[off..off + |m|] == m
    ensures StandsAt(data, off, [m] + rest) && |Concat([m] + rest)| == |m| + |Concat(rest)|
  {
    ConcatCons(m, rest);
    SliceSplit(data, off, off + |m|, off + |m| + |Concat(rest)|);
  }

  /** The accepted messages stand at the offset; the loop stops early only where no message starts. */
  lemma {:induction false} MessagesAreAPrefix(data: seq<byte>, off: nat, n: nat)
    requires off <= |data|
    ensures var ms := Messages(data, off, n);
      StandsAt(data, off, ms) && (|ms| < n ==> !StartsAt(data, off + |Concat(ms)|))
    decreases n
  {
    if n > 0 && StartsAt(data, off) {
      var size := MessageSize(data[off]);
      MessagesAreAPrefix(data, off + size, n - 1);
      var first, rest := data[off..off + size], Messages(data, off + size, n - 1);
      assert Messages(data, off, n) == [first] + rest;
      StandsCons(data, off, first, rest);
    }
  }

  /** They are the longest: any list of at most `n` messages that stands at the offset begins them. */
  lemma {:induction false} MessagesAreLongest(data: seq<byte>, off: nat, n: nat, ms: seq<seq<byte>>)
    requires |ms| <= n && StandsAt(data, off, ms)
    requires forall i :: 0 <= i < |ms| ==> WellFormed(ms[i])
    ensures ms <= Messages(data, off, n)
    decreases n
  {
    if ms != [] {
      assert WellFormed(ms[0]);
      SliceParts(data, off, off + |Concat(ms)|, ms[0], Concat(ms[1..]));
      assert data[off] == data[off..off + |ms[0]|][0];
      MessagesAreLongest(data, off + |ms[0]|, n - 1, ms[1..]);
      assert ms == [ms[0]] + ms[1..];
    }
  }

  /**
   A parser of one message at an offset: the event and the bytes consumed, given the message's
   index in the packet.
   */
  type MessageParser = (seq<byte>, nat, nat) -> Option<(MarketEvent, nat)>

  ghost predicate Progresses(parse: MessageParser) {
    forall data: seq<byte>, off: nat, i: nat :: parse(data, off, i).Some? ==>
      0 < parse(data, off, i).value.1 && off + parse(data, off, i).value.1 <= |data|
  }

  /** parse_message for the messages of a packet: message `i` carries the base number plus `i`. */
  function ParserFor(h: Header): (parse: MessageParser)
    ensures Progresses(parse)
  {
    var parse := (data: seq<byte>, off: nat, i: nat) =>
      ParseMessage(data, off, h.streamId, (h.seqNo + i) % TWO_TO_THE_64, h.timestamp);
    assert forall data: seq<byte>, off: nat, i: nat ::
      parse(data, off, i) == ParseMessage(data, off, h.streamId, (h.seqNo + i) % TWO_TO_THE_64, h.timestamp);
    parse
  }

  /** The events the batch loop decodes from offset `off` on, with `n` more messages announced. */
  ghost function Events(parse: MessageParser, data: seq<byte>, off: nat, n: nat, i: nat): (es: seq<MarketEvent>)
    requires Progresses(parse)
    ensures |es| <= n
    decreases n
  {
    if n == 0 || parse(data, off, i).None? then [] else
      var (e, size) := parse(data, off, i).value;
      [e] + Events(parse, data, off + size, n - 1, i + 1)
  }

  lemma EventsTurn(parse: MessageParser, data: seq<byte>, off: nat, n: nat, i: nat)
    requires Progresses(parse) && n > 0
    ensures var r := parse(data, off, i);
      Events(parse, data, off, n, i) ==
        if r.None? then [] else [r.value.0] + Events(parse, data, off + r.value.1, n - 1, i + 1)
  {
  }

  ghost function WithoutHeartbeats(es: seq<MarketEvent>): seq<MarketEvent> {
    if es == [] then []
    else if es[0].kind != HEARTBEAT then [es[0]] + WithoutHeartbeats(es[1..])
    else WithoutHeartbeats(es[1..])
  }

  lemma {:induction false} HeartbeatsCons(e: MarketEvent, es: seq<MarketEvent>)
    ensures WithoutHeartbeats([e] + es) == (if e.kind != HEARTBEAT then [e] else []) + WithoutHeartbeats(es)
  {
    assert ([e] + es)[1..] == es;
  }

  lemma {:induction false} HeartbeatsTurn(emitted: seq<MarketEvent>, e: MarketEvent, es: seq<MarketEvent>)
    ensures emitted + WithoutHeartbeats([e] + es) ==
      (if e.kind != HEARTBEAT then emitted + [e] else emitted) + WithoutHeartbeats(es)
  {
    HeartbeatsCons(e, es);
    AppendAssoc(emitted, [e], WithoutHeartbeats(es));
  }

  /** Every message of a packet that the batch loop accepts, heartbeats included. */
  ghost function PacketMessages(data: seq<byte>): seq<MarketEvent> {
    if |data| < HEADER_SIZE then [] else
      var h := DecodeHeader(data);
      Events(ParserFor(h), data, HEADER_SIZE, h.msgCount, 0)
  }

  ghost predicate PacketMalformed(data: seq<byte>) {
    |data| < HEADER_SIZE || |PacketMessages(data)| < DecodeHeader(data).msgCount
  }

  type MessageDecoder = (seq<byte>, nat) -> MarketEvent

  ghost function DecodeAll(decode: MessageDecoder, ms: seq<seq<byte>>, i: nat): seq<MarketEvent> {
    if ms == [] then [] else [decode(ms[0], i)] + DecodeAll(decode, ms[1..], i + 1)
  }

  lemma {:induction false} DecodeCons(decode: MessageDecoder, m: seq<byte>, ms: seq<seq<byte>>, i: nat)
    ensures DecodeAll(decode, [m] + ms, i) == [decode(m, i)] + DecodeAll(decode, ms, i + 1)
  {
    assert ([m] + ms)[1..] == ms;
  }

  lemma {:induction false} DecodeAllAt(decode: MessageDecoder, ms: seq<seq<byte>>, i: nat, j: nat)
    requires j < |ms|
    ensures |DecodeAll(decode, ms, i)| == |ms| && DecodeAll(decode, ms, i)[j] == decode(ms[j], i + j)
    decreases |ms|
  {
    if |ms| > 1 {
      DecodeAllAt(decode, ms[1..], i + 1, if j == 0 then 0 else j - 1);
    }
  }

  /** A decoded message carries the stream and number it was given. */
  lemma DecodeKeepsHeader(msg: seq<byte>, streamId: nat, seqNo: nat, ts: nat)
    requires WellFormed(msg)
    ensures var e := Decode(msg, streamId, seqNo, ts); e.streamId == streamId && e.seqNo == seqNo
  {
  }

  /** The parser accepts exactly where a message starts, consumes that message and decodes it. */
  ghost predicate ParsesBy(parse: MessageParser, decode: MessageDecoder) {
    forall data: seq<byte>, off: nat, i: nat :: parse(data, off, i) == ParsedBy(decode, data, off, i)
  }

  ghost function ParsedBy(decode: MessageDecoder, data: seq<byte>, off: nat, i: nat): Option<(MarketEvent, nat)> {
    if StartsAt(data, off) then Some((decode(data[off..off + MessageSize(data[off])], i), MessageSize(data[off])))
      else None
  }

  lemma {:induction false} EventsAreDecoded(parse: MessageParser, decode: MessageDecoder, data: seq<byte>, off: nat,
      n: nat, i: nat)
    requires Progresses(parse) && ParsesBy(parse, decode)
    ensures Events(parse, data, off, n, i) == DecodeAll(decode, Messages(data, off, n), i)
    decreases n
  {
    assert parse(data, off, i) == ParsedBy(decode, data, off, i);
    if n > 0 && StartsAt(data, off) {
      var size := MessageSize(data[off]);
      EventsAreDecoded(parse, decode, data, off + size, n - 1, i + 1);
      EventsTurn(parse, data, off, n, i);
      MessagesTurn(data, off, n);
      DecodeCons(decode, data[off..off + size], Messages(data, off + size, n - 1), i);
    }
  }

  /** Message `i` of a packet, decoded with the packet's header. */
  function DecoderFor(h: Header): MessageDecoder {
    (msg: seq<byte>, i: nat) =>
      if WellFormed(msg) then Decode(msg, h.streamId, (h.seqNo + i) % TWO_TO_THE_64, h.timestamp)
      else Blank(0, 0, 0, 0)
  }

  /** The decoded events are those of the longest well-formed prefix, message by message. */
  lemma {:induction false} EventsAreTheMessages(h: Header, data: seq<byte>, off: nat, n: nat, i: nat)
    ensures Events(ParserFor(h), data, off, n, i) == DecodeAll(DecoderFor(h), Messages(data, off, n), i)
  {
    var parse, decode := ParserFor(h), DecoderFor(h);
    forall d: seq<byte>, o: nat, j: nat
      ensures parse(d, o, j) == ParsedBy(decode, d, o, j)
    {
      assert parse(d, o, j) == ParseMessage(d, o, h.streamId, (h.seqNo + j) % TWO_TO_THE_64, h.timestamp);
    }
    EventsAreDecoded(parse, decode, data, off, n, i);
  }

  /** The batch loop of parse_packet: what it emits and how many messages it parsed. */
  method ParseBatch(parse: MessageParser, data: seq<byte>, msgCount: nat)
      returns (emitted: seq<MarketEvent>, parsed: nat)
    requires Progresses(parse)
    ensures var es := Events(parse, data, HEADER_SIZE, msgCount, 0);
      emitted == WithoutHeartbeats(es) && parsed == |es|
  {
    emitted, parsed := [], 0;
    var off: nat := HEADER_SIZE;
    ghost var todo := Events(parse, data, HEADER_SIZE, msgCount, 0);
    ghost var size, whole := |todo|, WithoutHeartbeats(todo);
    while parsed < msgCount
      invariant parsed <= msgCount && size == parsed + |todo|
      invariant whole == emitted + WithoutHeartbeats(todo)
      invariant todo == Events(parse, data, off, msgCount - parsed, parsed)
    {
      var r := parse(data, off, parsed);
      EventsTurn(parse, data, off, msgCount - parsed, parsed);
      if r.None? {
        break;
      }
      var (ev, consumed) := r.value;
      todo := Events(parse, data, off + consumed, msgCount - parsed - 1, parsed + 1);
      HeartbeatsTurn(emitted, ev, todo);
      if ev.kind != HEARTBEAT {
        emitted := emitted + [ev];
      }
      off := off + consumed;
      parsed := parsed + 1;
    }
  }

  class MtbtParser {
    var parsed: nat
    var malformed: nat

    constructor ()
      ensures parsed == 0 && malformed == 0
    {
      parsed, malformed := 0, 0;
    }

    /** parse_packet: emits the events of the longest well-formed prefix, heartbeats left out. */
    method ParsePacket(data: seq<byte>) returns (emitted: seq<MarketEvent>)
      modifies this
      ensures emitted == PacketEvents(data)
      ensures parsed == old(parsed) + |PacketMessages(data)|
      ensures malformed == old(malformed) + if PacketMalformed(data) then 1 else 0
    {
      if |data| < HEADER_SIZE {
        malformed := malformed + 1;
        return [];
      }
      var h := DecodeHeader(data);
      var count;
      emitted, count := ParseBatch(ParserFor(h), data, h.msgCount);
      parsed := parsed + count;
      if count < h.msgCount {
        malformed := malformed + 1;
      }
    }
  }

  // ----- The capture encoder -----

  predicate Encodable(kind: nat) {
    kind == SNAP_QUOTE || kind == TRADE || kind == ORDER_ADD || kind == ORDER_CANCEL
  }

  function Unsigned(v: int, w: nat): seq<byte> { LeBytes(v % Pow256(w), w) }

  /** Stream 0 is sent as stream 1, and only the low 16 bits travel. */
  function WireStream(streamId: nat): nat { (if streamId == 0 then 1 else streamId) % 65536 }

  function HeaderBytes(ev: MarketEvent): (b: seq<byte>)
    ensures |b| == HEADER_SIZE
  {
    LeBytes(WireStream(ev.streamId), 2) + Unsigned(ev.seqNo, 8) + LeBytes(1, 1) + Unsigned(ev.ts, 8)
  }

  function BodyBytes(ev: MarketEvent): (b: seq<byte>)
    requires Encodable(ev.kind)
    ensures |b| == MessageSize(ev.kind)
  {
    if ev.kind == SNAP_QUOTE then
      [SNAP_QUOTE] + Unsigned(ev.token, 4) + Unsigned(ev.bidPrice, 8) + Unsigned(ev.bidQty, 4) +
        Unsigned(ev.askPrice, 8) + Unsigned(ev.askQty, 4)
    else if ev.kind == TRADE then
      [TRADE] + Unsigned(ev.orderNo, 8) + Unsigned(ev.orderNo2, 8) + Unsigned(ev.token, 4) + Unsigned(ev.price, 8) +
        Unsigned(ev.qty, 4) + Unsigned(ev.tradeNo, 8)
    else if ev.kind == ORDER_ADD then
      [ORDER_ADD] + Unsigned(ev.orderNo, 8) + Unsigned(EncodeSide(ev.side), 1) + Unsigned(ev.qty, 4) +
        Unsigned(ev.token, 4) + Unsigned(ev.price, 8)
    else
      [ORDER_CANCEL] + Unsigned(ev.orderNo, 8) + Unsigned(ev.token, 4)
  }

  /** One record of the capture: a 32-bit length and the packet; nothing for other kinds of event. */
  function Record(ev: MarketEvent): seq<byte> {
    if !Encodable(ev.kind) then [] else
      var packet := HeaderBytes(ev) + BodyBytes(ev);
      Unsigned(|packet|, 4) + packet
  }

  lemma SmallPowers()
    ensures Pow256(1) == 256 && Pow256(2) == 65536 && Pow256(4) == 65536 * 65536 && Pow256(8) == Pow256(4) * Pow256(4)
  {
    assert Pow256(3) == 256 * Pow256(2) && Pow256(5) == 256 * Pow256(4) && Pow256(6) == 256 * Pow256(5) &&
      Pow256(7) == 256 * Pow256(6);
  }

  method PutHeader(ev: MarketEvent) returns (packet: seq<byte>)
    ensures packet == HeaderBytes(ev)
  {
    packet := PutLe([], WireStream(ev.streamId), 2);
    packet := PutLe(packet, ev.seqNo, 8);
    packet := PutLe(packet, 1, 1);
    packet := PutLe(packet, ev.ts, 8);
  }

  method PutBody(ev: MarketEvent) returns (body: seq<byte>)
    requires Encodable(ev.kind)
    ensures body == BodyBytes(ev)
  {
    if ev.kind == SNAP_QUOTE {
      body := PutLe([SNAP_QUOTE], ev.token, 4);
      body := PutLe(body, ev.bidPrice, 8);
      body := PutLe(body, ev.bidQty, 4);
      body := PutLe(body, ev.askPrice, 8);
      body := PutLe(body, ev.askQty, 4);
    } else if ev.kind == TRADE {
      body := PutLe([TRADE], ev.orderNo, 8);
      body := PutLe(body, ev.orderNo2, 8);
      body := PutLe(body, ev.token, 4);
      body := PutLe(body, ev.price, 8);
      body := PutLe(body, ev.qty, 4);
      body := PutLe(body, ev.tradeNo, 8);
    } else if ev.kind == ORDER_ADD {
      body := PutLe([ORDER_ADD], ev.orderNo, 8);
      body := PutLe(body, EncodeSide(ev.side), 1);
      body := PutLe(body, ev.qty, 4);
      body := PutLe(body, ev.token, 4);
      body := PutLe(body, ev.price, 8);
    } else {
      body := PutLe([ORDER_CANCEL], ev.orderNo, 8);
      body := PutLe(body, ev.token, 4);
    }
  }

  /** encode_capture: appends the record of one event. */
  method EncodeCapture(ev: MarketEvent, out: seq<byte>) returns (r: seq<byte>)
    ensures r == out + Record(ev)
  {
    if !Encodable(ev.kind) {
      assert out + [] == out;
      return out;
    }
    var packet := PutHeader(ev);
    var body := PutBody(ev);
    packet := packet + body;
    r := PutLe(out, |packet|, 4);
    r := r + packet;
    assert r == out + (Unsigned(|packet|, 4) + packet);
  }

  // ----- The capture reader -----

  const MAX_RECORD: nat := 0x10_0000

  ghost function PacketEvents(packet: seq<byte>): seq<MarketEvent> { WithoutHeartbeats(PacketMessages(packet)) }

  /** The length of the record at `pos`, if the reading loop accepts one there. */
  ghost function RecordLength(bytes: seq<byte>, pos: nat): Option<nat> {
    if pos + 4 > |bytes| then None else
      var len := LeValue(bytes[pos..pos + 4]);
      if 0 < len <= MAX_RECORD && pos + 4 + len <= |bytes| then Some(len) else None
  }

  type PacketDecoder = seq<byte> -> seq<MarketEvent>

  /** What the reading loop of load_events collects from position `pos` on. */
  ghost function ReadFrom(decode: PacketDecoder, bytes: seq<byte>, pos: nat): seq<MarketEvent>
    decreases |bytes| - pos
  {
    var len := RecordLength(bytes, pos);
    if len.None? then [] else decode(bytes[pos + 4..pos + 4 + len.value]) + ReadFrom(decode, bytes, pos + 4 + len.value)
  }

  ghost function ReadCapture(bytes: seq<byte>): seq<MarketEvent> { ReadFrom(PacketEvents, bytes, 0) }

  ghost predicate Decodes(decode: PacketDecoder) {
    forall packet: seq<byte> {:trigger PacketEvents(packet)} :: decode(packet) == PacketEvents(packet)
  }

  /** Parses the packet of the record at `pos`, whose length has been read. */
  method ReadPacket(ghost decode: PacketDecoder, parser: MtbtParser, packet: seq<byte>) returns (es: seq<MarketEvent>)
    requires Decodes(decode)
    modifies parser
    ensures es == decode(packet)
  {
    es := parser.ParsePacket(packet);
  }

  /** Reads one record at `pos`: its events and the position after it, or None where reading ends. */
  method ReadRecord(ghost decode: PacketDecoder, parser: MtbtParser, bytes: seq<byte>, pos: nat)
      returns (r: Option<(seq<MarketEvent>, nat)>)
    requires Decodes(decode)
    modifies parser
    ensures r.None? ==> ReadFrom(decode, bytes, pos) == []
    ensures r.Some? ==>
      && pos < r.value.1 <= |bytes|
      && ReadFrom(decode, bytes, pos) == r.value.0 + ReadFrom(decode, bytes, r.value.1)
  {
    if pos + 4 > |bytes| {
      return None;
    }
    var len := LoadLe(bytes, pos, 4);
    if len == 0 || len > MAX_RECORD || |bytes| - (pos + 4) < len {
      return None;
    }
    var es := ReadPacket(decode, parser, bytes[pos + 4..pos + 4 + len]);
    return Some((es, pos + 4 + len));
  }

  /** The loop of load_events: reads length-prefixed packets until the first bad or short record. */
  method ReadRecords(ghost decode: PacketDecoder, bytes: seq<byte>) returns (events: seq<MarketEvent>)
    requires Decodes(decode)
    ensures events == ReadFrom(decode, bytes, 0)
  {
    var parser := new MtbtParser();
    events := [];
    var pos: nat := 0;
    while true
      invariant ReadFrom(decode, bytes, 0) == events + ReadFrom(decode, bytes, pos)
      decreases |bytes| - pos
    {
      var r := ReadRecord(decode, parser, bytes, pos);
      if r.None? {
        break;
      }
      events, pos := events + r.value.0, r.value.1;
    }
  }

  /** load_events on the bytes of a capture file. */
  method LoadEvents(bytes: seq<byte>) returns (events: seq<MarketEvent>)
    ensures events == ReadCapture(bytes)
  {
    events := ReadRecords(PacketEvents, bytes);
  }

  // ----- Round trip -----

  /** The fields of an event lie in the ranges of their C++ types. */
  ghost predicate InRange(ev: MarketEvent) {
    && FitsUnsigned(ev.ts, 8) && FitsUnsigned(ev.token, 4) && FitsUnsigned(ev.seqNo, 8)
    && FitsSigned(ev.price, 8) && FitsSigned(ev.qty, 4)
    && FitsSigned(ev.orderNo, 8) && FitsSigned(ev.orderNo2, 8) && FitsSigned(ev.tradeNo, 8)
    && FitsSigned(ev.bidPrice, 8) && FitsSigned(ev.bidQty, 4) && FitsSigned(ev.askPrice, 8) && FitsSigned(ev.askQty, 4)
  }

  /** The event with the fields its message does not carry reset. */
  function OnWire(ev: MarketEvent): MarketEvent {
    var e := Blank(ev.kind, WireStream(ev.streamId), ev.seqNo, ev.ts);
    if ev.kind == SNAP_QUOTE then
      e.(token := ev.token, bidPrice := ev.bidPrice, bidQty := ev.bidQty, askPrice := ev.askPrice, askQty := ev.askQty)
    else if ev.kind == TRADE then
      e.(orderNo := ev.orderNo, orderNo2 := ev.orderNo2, token := ev.token, price := ev.price, qty := ev.qty,
        tradeNo := ev.tradeNo)
    else if ev.kind == ORDER_ADD then
      e.(orderNo := ev.orderNo, side := ev.side, qty := ev.qty, token := ev.token, price := ev.price)
    else if ev.kind == ORDER_CANCEL then
      e.(orderNo := ev.orderNo, token := ev.token)
    else e
  }

  lemma UnsignedField(v: int, w: nat)
    requires FitsUnsigned(v, w)
    ensures LeValue(Unsigned(v, w)) == v
  {
    DivModUnique(v, Pow256(w), 0, v);
    LeRoundTrip(v, w);
  }

  lemma DecodeSnapQuote(ev: MarketEvent)
    requires ev.kind == SNAP_QUOTE && InRange(ev)
    ensures Decode(BodyBytes(ev), WireStream(ev.streamId), ev.seqNo, ev.ts) == OnWire(ev)
  {
    var b := BodyBytes(ev);
    assert b[1..5] == Unsigned(ev.token, 4);
    assert b[5..13] == Unsigned(ev.bidPrice, 8);
    assert b[13..17] == Unsigned(ev.bidQty, 4);
    assert b[17..25] == Unsigned(ev.askPrice, 8);
    assert b[25..29] == Unsigned(ev.askQty, 4);
    UnsignedField(ev.token, 4);
    SignedRoundTrip(ev.bidPrice, 8);
    SignedRoundTrip(ev.bidQty, 4);
    SignedRoundTrip(ev.askPrice, 8);
    SignedRoundTrip(ev.askQty, 4);
  }

  lemma DecodeTrade(ev: MarketEvent)
    requires ev.kind == TRADE && InRange(ev)
    ensures Decode(BodyBytes(ev), WireStream(ev.streamId), ev.seqNo, ev.ts) == OnWire(ev)
  {
    var b := BodyBytes(ev);
    assert b[1..9] == Unsigned(ev.orderNo, 8);
    assert b[9..17] == Unsigned(ev.orderNo2, 8);
    assert b[17..21] == Unsigned(ev.token, 4);
    assert b[21..29] == Unsigned(ev.price, 8);
    assert b[29..33] == Unsigned(ev.qty, 4);
    assert b[33..41] == Unsigned(ev.tradeNo, 8);
    UnsignedField(ev.token, 4);
    SignedRoundTrip(ev.orderNo, 8);
    SignedRoundTrip(ev.orderNo2, 8);
    SignedRoundTrip(ev.price, 8);
    SignedRoundTrip(ev.qty, 4);
    SignedRoundTrip(ev.tradeNo, 8);
  }

  lemma DecodeAdd(ev: MarketEvent)
    requires ev.kind == ORDER_ADD && InRange(ev)
    ensures Decode(BodyBytes(ev), WireStream(ev.streamId), ev.seqNo, ev.ts) == OnWire(ev)
  {
    var b, side := BodyBytes(ev), EncodeSide(ev.side);
    assert b[1..9] == Unsigned(ev.orderNo, 8);
    assert b[9..10] == Unsigned(side, 1);
    assert b[10..14] == Unsigned(ev.qty, 4);
    assert b[14..18] == Unsigned(ev.token, 4);
    assert b[18..26] == Unsigned(ev.price, 8);
    SmallPowers();
    UnsignedField(side, 1);
    UnsignedField(ev.token, 4);
    SignedRoundTrip(ev.orderNo, 8);
    SignedRoundTrip(ev.price, 8);
    SignedRoundTrip(ev.qty, 4);
  }

  lemma DecodeCancel(ev: MarketEvent)
    requires ev.kind == ORDER_CANCEL && InRange(ev)
    ensures Decode(BodyBytes(ev), WireStream(ev.streamId), ev.seqNo, ev.ts) == OnWire(ev)
  {
    var b := BodyBytes(ev);
    assert b[1..9] == Unsigned(ev.orderNo, 8);
    assert b[9..13] == Unsigned(ev.token, 4);
    UnsignedField(ev.token, 4);
    SignedRoundTrip(ev.orderNo, 8);
  }

  lemma DecodeBody(ev: MarketEvent)
    requires Encodable(ev.kind) && InRange(ev)
    ensures WellFormed(BodyBytes(ev)) && BodyBytes(ev)[0] == ev.kind
    ensures Decode(BodyBytes(ev), WireStream(ev.streamId), ev.seqNo, ev.ts) == OnWire(ev)
  {
    if ev.kind == SNAP_QUOTE {
      DecodeSnapQuote(ev);
    } else if ev.kind == TRADE {
      DecodeTrade(ev);
    } else if ev.kind == ORDER_ADD {
      DecodeAdd(ev);
    } else {
      DecodeCancel(ev);
    }
  }

  lemma DecodeHeaderBytes(ev: MarketEvent, rest: seq<byte>)
    requires InRange(ev)
    ensures DecodeHeader(HeaderBytes(ev) + rest) == Header(WireStream(ev.streamId), ev.seqNo, 1, ev.ts)
    ensures (HeaderBytes(ev) + rest)[HEADER_SIZE..] == rest
  {
    var b, stream := HeaderBytes(ev) + rest, WireStream(ev.streamId);
    assert b[0..2] == LeBytes(stream, 2);
    assert b[2..10] == Unsigned(ev.seqNo, 8);
    assert b[10..11] == LeBytes(1, 1);
    assert b[11..19] == Unsigned(ev.ts, 8);
    SmallPowers();
    LeRoundTrip(stream, 2);
    LeRoundTrip(1, 1);
    UnsignedField(ev.seqNo, 8);
    UnsignedField(ev.ts, 8);
  }

  lemma {:induction false} SingleMessage(h: Header, data: seq<byte>, off: nat, msg: seq<byte>)
    requires WellFormed(msg) && off <= |data| && data[off..] == msg
    ensures Events(ParserFor(h), data, off, 1, 0) == [Decode(msg, h.streamId, h.seqNo % TWO_TO_THE_64, h.timestamp)]
  {
    EventsAreTheMessages(h, data, off, 1, 0);
    assert data[off] == msg[0] && data[off..off + |msg|] == msg;
    assert Messages(data, off, 1) == [msg] + Messages(data, off + |msg|, 0) == [msg];
    var decode := DecoderFor(h);
    assert DecodeAll(decode, [msg], 0) == [decode(msg, 0)] + DecodeAll(decode, [msg][1..], 1);
  }

  lemma SingleMessagePacket(packet: seq<byte>, h: Header, msg: seq<byte>)
    requires |packet| >= HEADER_SIZE && DecodeHeader(packet) == h && h.msgCount == 1
    requires packet[HEADER_SIZE..] == msg && WellFormed(msg)
    ensures PacketMessages(packet) == [Decode(msg, h.streamId, h.seqNo, h.timestamp)]
  {
    SingleMessage(h, packet, HEADER_SIZE, msg);
  }

  lemma SingleEvent(e: MarketEvent)
    requires e.kind != HEARTBEAT
    ensures WithoutHeartbeats([e]) == [e]
  {
    assert [e][1..] == [];
  }

  /** A packet with one encoded message parses back to that event. */
  lemma PacketRoundTrip(ev: MarketEvent)
    requires Encodable(ev.kind) && InRange(ev)
    ensures PacketEvents(HeaderBytes(ev) + BodyBytes(ev)) == [OnWire(ev)]
  {
    var packet, body := HeaderBytes(ev) + BodyBytes(ev), BodyBytes(ev);
    DecodeHeaderBytes(ev, body);
    DecodeBody(ev);
    SingleMessagePacket(packet, Header(WireStream(ev.streamId), ev.seqNo, 1, ev.ts), body);
    SingleEvent(OnWire(ev));
  }

  /** The packets of the events that can be encoded. */
  ghost function PacketsOf(evs: seq<MarketEvent>): seq<seq<byte>> {
    if evs == [] then []
    else if Encodable(evs[0].kind) then [HeaderBytes(evs[0]) + BodyBytes(evs[0])] + PacketsOf(evs[1..])
    else PacketsOf(evs[1..])
  }

  /** A capture file: each record in turn. */
  ghost function Capture(evs: seq<MarketEvent>): seq<byte> {
    if evs == [] then [] else Record(evs[0]) + Capture(evs[1..])
  }

  ghost function EncodableOnWire(evs: seq<MarketEvent>): seq<MarketEvent> {
    if evs == [] then []
    else if Encodable(evs[0].kind) then [OnWire(evs[0])] + EncodableOnWire(evs[1..])
    else EncodableOnWire(evs[1..])
  }

  ghost function Frame(packet: seq<byte>): seq<byte> { Unsigned(|packet|, 4) + packet }

  ghost function Framed(packets: seq<seq<byte>>): seq<byte> {
    if packets == [] then [] else Frame(packets[0]) + Framed(packets[1..])
  }

  ghost function EventsOf(decode: PacketDecoder, packets: seq<seq<byte>>): seq<MarketEvent> {
    if packets == [] then [] else decode(packets[0]) + EventsOf(decode, packets[1..])
  }

  ghost predicate Readable(packets: seq<seq<byte>>) {
    forall i :: 0 <= i < |packets| ==> 0 < |packets[i]| <= MAX_RECORD
  }

  lemma FrameLayout(packet: seq<byte>, bytes: seq<byte>, pos: nat, rest: seq<byte>)
    requires 0 < |packet| <= MAX_RECORD && pos <= |bytes| && bytes[pos..] == Frame(packet) + rest
    ensures pos + 4 + |packet| <= |bytes| && bytes[pos + 4 + |packet|..] == rest
    ensures LeValue(bytes[pos..pos + 4]) == |packet| && bytes[pos + 4..pos + 4 + |packet|] == packet
  {
    SmallPowers();
    UnsignedField(|packet|, 4);
    var tail := bytes[pos..];
    assert bytes[pos..pos + 4] == tail[0..4] == Unsigned(|packet|, 4);
    assert bytes[pos + 4..pos + 4 + |packet|] == tail[4..4 + |packet|] == packet;
    assert bytes[pos + 4 + |packet|..] == tail[4 + |packet|..] == rest;
  }

  lemma FrameReadsBack(decode: PacketDecoder, packet: seq<byte>, bytes: seq<byte>, pos: nat, rest: seq<byte>)
    requires 0 < |packet| <= MAX_RECORD && pos <= |bytes| && bytes[pos..] == Frame(packet) + rest
    ensures pos + 4 + |packet| <= |bytes| && bytes[pos + 4 + |packet|..] == rest
    ensures ReadFrom(decode, bytes, pos) == decode(packet) + ReadFrom(decode, bytes, pos + 4 + |packet|)
  {
    FrameLayout(packet, bytes, pos, rest);
    assert RecordLength(bytes, pos) == Some(|packet|);
  }

  /** The reading loop finds exactly the framed packets. */
  lemma {:induction false} FramesReadBack(decode: PacketDecoder, packets: seq<seq<byte>>, bytes: seq<byte>, pos: nat)
    requires Readable(packets) && pos <= |bytes| && bytes[pos..] == Framed(packets)
    ensures ReadFrom(decode, bytes, pos) == EventsOf(decode, packets)
    decreases |packets|
  {
    if packets == [] {
      assert RecordLength(bytes, pos).None?;
    } else {
      FrameReadsBack(decode, packets[0], bytes, pos, Framed(packets[1..]));
      FramesReadBack(decode, packets[1..], bytes, pos + 4 + |packets[0]|);
    }
  }

  lemma {:induction false} CaptureIsFramed(evs: seq<MarketEvent>)
    ensures Capture(evs) == Framed(PacketsOf(evs)) && Readable(PacketsOf(evs))
  {
    if evs != [] {
      CaptureIsFramed(evs[1..]);
      if Encodable(evs[0].kind) {
        assert PacketsOf(evs)[1..] == PacketsOf(evs[1..]);
      } else {
        assert [] + Capture(evs[1..]) == Capture(evs[1..]);
      }
    }
  }

  lemma {:induction false} PacketsDecodeBack(evs: seq<MarketEvent>)
    requires forall i :: 0 <= i < |evs| ==> InRange(evs[i])
    ensures EventsOf(PacketEvents, PacketsOf(evs)) == EncodableOnWire(evs)
  {
    if evs != [] {
      PacketsDecodeBack(evs[1..]);
      if Encodable(evs[0].kind) {
        PacketRoundTrip(evs[0]);
        assert PacketsOf(evs)[1..] == PacketsOf(evs[1..]);
      }
    }
  }

  /**
   Encoding any list of events and reading the bytes back yields the Add, Cancel, Trade and Snap
   Quote events of the list, in order, with the fields that do not travel reset.
   */
  lemma {:induction false} CaptureRoundTrip(evs: seq<MarketEvent>)
    requires forall i :: 0 <= i < |evs| ==> InRange(evs[i])
    ensures ReadCapture(Capture(evs)) == EncodableOnWire(evs)
  {
    CaptureIsFramed(evs);
    assert Capture(evs)[0..] == Capture(evs);
    FramesReadBack(PacketEvents, PacketsOf(evs), Capture(evs), 0);
    PacketsDecodeBack(evs);
  }
}
