/** Where the bytes of a message and of a header stand, field by field, for every kind of message. */
module WireLayout {
  import opened Types
  import opened Sequences
  import opened Wire

  /** The number in four, or eight, bytes from `off` on. */
  function Le4(data: seq<byte>, off: nat): nat
    requires off + 4 <= |data|
  {
    var a: int, b: int, c: int, d: int := data[off], data[off + 1], data[off + 2], data[off + 3];
    a + 0x100 * b + 0x1_0000 * c + 0x100_0000 * d
  }

  function Le8(data: seq<byte>, off: nat): nat
    requires off + 8 <= |data|
  {
    Le4(data, off) + TWO_TO_THE_32 * Le4(data, off + 4)
  }

  function I32(u: nat): int { if u < TWO_TO_THE_31 then u else u - TWO_TO_THE_32 }

  function I64(u: nat): int { if u < TWO_TO_THE_64 / 2 then u else u - TWO_TO_THE_64 }

  lemma {:induction false} LoadTurn(data: seq<byte>, off: nat, w: nat)
    requires w > 0 && off + w <= |data|
    ensures U(data, off, w) == data[off] + 256 * U(data, off + 1, w - 1)
  {
    assert data[off..off + w][1..] == data[off + 1..off + w];
  }

  lemma LoadsByte(data: seq<byte>, off: nat)
    requires off + 1 <= |data|
    ensures U(data, off, 1) == data[off]
  {
    LoadTurn(data, off, 1);
  }

  lemma Loads4(data: seq<byte>, off: nat)
    requires off + 4 <= |data|
    ensures U(data, off, 4) == Le4(data, off) && S(data, off, 4) == I32(Le4(data, off))
  {
    LoadTurn(data, off, 4);
    LoadTurn(data, off + 1, 3);
    LoadTurn(data, off + 2, 2);
    LoadTurn(data, off + 3, 1);
    SmallPowers();
  }

  lemma {:induction false} LeValueAppend(a: seq<byte>, b: seq<byte>)
    ensures LeValue(a + b) == LeValue(a) + Pow256(|a|) * LeValue(b)
  {
    if a == [] {
      assert a + b == b;
    } else {
      LeValueAppend(a[1..], b);
      assert (a + b)[1..] == a[1..] + b;
      assert 256 * (Pow256(|a| - 1) * LeValue(b)) == Pow256(|a|) * LeValue(b);
    }
  }

  lemma Loads8(data: seq<byte>, off: nat)
    requires off + 8 <= |data|
    ensures U(data, off, 8) == Le8(data, off) && S(data, off, 8) == I64(Le8(data, off))
  {
    Loads4(data, off);
    Loads4(data, off + 4);
    SliceSplit(data, off, off + 4, off + 8);
    LeValueAppend(data[off..off + 4], data[off + 4..off + 8]);
    SmallPowers();
  }

  /** The fields of a message body, in the order of the wire; those a kind does not carry are zero. */
  datatype Fields = Fields(orderNo: int, orderNo2: int, side: Side, qty: int, token: nat, price: int, tradeNo: int,
      bidPrice: int, bidQty: int, askPrice: int, askQty: int)

  const NO_FIELDS := Fields(0, 0, Buy, 0, 0, 0, 0, 0, 0, 0, 0)

  /** The fields of a message, byte by byte: the offsets are those of the wire format. */
  function FieldsOf(msg: seq<byte>): Fields
    requires WellFormed(msg)
  {
    if msg[0] == ORDER_ADD then
      NO_FIELDS.(orderNo := I64(Le8(msg, 1)), side := if msg[9] == 1 then Buy else Sell, qty := I32(Le4(msg, 10)),
        token := Le4(msg, 14), price := I64(Le8(msg, 18)))
    else if msg[0] == ORDER_MODIFY then
      NO_FIELDS.(orderNo := I64(Le8(msg, 1)), qty := I32(Le4(msg, 9)), token := Le4(msg, 13), price := I64(Le8(msg, 17)))
    else if msg[0] == ORDER_CANCEL then
      NO_FIELDS.(orderNo := I64(Le8(msg, 1)), token := Le4(msg, 9))
    else if msg[0] == TRADE then
      NO_FIELDS.(orderNo := I64(Le8(msg, 1)), orderNo2 := I64(Le8(msg, 9)), token := Le4(msg, 17),
        price := I64(Le8(msg, 21)), qty := I32(Le4(msg, 29)), tradeNo := I64(Le8(msg, 33)))
    else if msg[0] == SNAP_QUOTE then
      NO_FIELDS.(token := Le4(msg, 1), bidPrice := I64(Le8(msg, 5)), bidQty := I32(Le4(msg, 13)),
        askPrice := I64(Le8(msg, 17)), askQty := I32(Le4(msg, 25)))
    else NO_FIELDS
  }

  function EventOf(f: Fields, kind: nat, streamId: nat, seqNo: nat, ts: nat): MarketEvent {
    MarketEvent(ts, f.token, f.price, f.qty, f.side, kind, f.orderNo, streamId, seqNo, f.orderNo2, f.tradeNo,
      f.bidPrice, f.bidQty, f.askPrice, f.askQty)
  }

  /** Any message, at any offset of any buffer, is read byte by byte from where the format puts each field. */
  lemma ParsesByOffsets(data: seq<byte>, off: nat, msg: seq<byte>, streamId: nat, seqNo: nat, ts: nat)
    requires WellFormed(msg) && off + |msg| <= |data| && data[off..off + |msg|] == msg
    ensures ParseMessage(data, off, streamId, seqNo, ts) ==
      Some((EventOf(FieldsOf(msg), msg[0], streamId, seqNo, ts), |msg|))
  {
    assert data[off] == msg[0];
    assert ParseMessage(data, off, streamId, seqNo, ts) == Some((Decode(msg, streamId, seqNo, ts), |msg|));
    if msg[0] == ORDER_ADD {
      Loads8(msg, 1); LoadsByte(msg, 9); Loads4(msg, 10); Loads4(msg, 14); Loads8(msg, 18);
    } else if msg[0] == ORDER_MODIFY {
      Loads8(msg, 1); Loads4(msg, 9); Loads4(msg, 13); Loads8(msg, 17);
    } else if msg[0] == ORDER_CANCEL {
      Loads8(msg, 1); Loads4(msg, 9);
    } else if msg[0] == TRADE {
      Loads8(msg, 1); Loads8(msg, 9); Loads4(msg, 17); Loads8(msg, 21); Loads4(msg, 29); Loads8(msg, 33);
    } else if msg[0] == SNAP_QUOTE {
      Loads4(msg, 1); Loads8(msg, 5); Loads4(msg, 13); Loads8(msg, 17); Loads4(msg, 25);
    }
  }

  /** The header, byte by byte: stream, number of the first message, message count, timestamp. */
  lemma HeaderByOffsets(data: seq<byte>)
    requires |data| >= 19
    ensures var low: int, high: int, count: int := data[0], data[1], data[10];
      DecodeHeader(data) == Header(low + 0x100 * high, Le8(data, 2), count, Le8(data, 11))
  {
    LoadTurn(data, 0, 2);
    LoadsByte(data, 1);
    Loads8(data, 2);
    LoadsByte(data, 10);
    Loads8(data, 11);
  }

  /** The wire bytes of a Modify, which the encoder never writes. */
  function ModifyBytes(orderNo: int, qty: int, token: nat, price: int): (b: seq<byte>)
    ensures |b| == 25
  {
    [ORDER_MODIFY] + Unsigned(orderNo, 8) + Unsigned(qty, 4) + Unsigned(token, 4) + Unsigned(price, 8)
  }

  /** A Modify reads back wherever it stands, negative fields included. */
  lemma ModifyReadsBack(data: seq<byte>, off: nat, orderNo: int, qty: int, token: nat, price: int, streamId: nat,
      seqNo: nat, ts: nat)
    requires FitsSigned(orderNo, 8) && FitsSigned(qty, 4) && FitsUnsigned(token, 4) && FitsSigned(price, 8)
    requires off + 25 <= |data| && data[off..off + 25] == ModifyBytes(orderNo, qty, token, price)
    ensures ParseMessage(data, off, streamId, seqNo, ts) ==
      Some((MarketEvent(ts, token, price, qty, Buy, ORDER_MODIFY, orderNo, streamId, seqNo, 0, 0, 0, 0, 0, 0), 25))
  {
    var b := ModifyBytes(orderNo, qty, token, price);
    assert data[off] == b[0];
    assert b[1..9] == Unsigned(orderNo, 8);
    assert b[9..13] == Unsigned(qty, 4);
    assert b[13..17] == Unsigned(token, 4);
    assert b[17..25] == Unsigned(price, 8);
    SignedRoundTrip(orderNo, 8);
    SignedRoundTrip(qty, 4);
    UnsignedField(token, 4);
    SignedRoundTrip(price, 8);
  }

  /** On the wire a buy is 1 and a sell 2, and a stream keeps its number, except that stream 0 travels as 1. */
  lemma EncodedSideAndStream(ev: MarketEvent)
    requires ev.kind == ORDER_ADD && ev.streamId < 65536
    ensures BodyBytes(ev)[9] == (if ev.side == Buy then 1 else 2)
    ensures OnWire(ev).streamId == if ev.streamId == 0 then 1 else ev.streamId
  {
    assert BodyBytes(ev)[9..10] == Unsigned(EncodeSide(ev.side), 1);
    assert BodyBytes(ev)[9] == BodyBytes(ev)[9..10][0];
    SmallPowers();
  }

  /** No record begins here: too few bytes, or a length that is zero, over a mebibyte, or past the end. */
  predicate NoRecord(rest: seq<byte>) {
    |rest| >= 4 ==> Le4(rest, 0) == 0 || Le4(rest, 0) > 0x10_0000 || 4 + Le4(rest, 0) > |rest|
  }

  lemma NoRecordHere(bytes: seq<byte>, pos: nat)
    requires pos <= |bytes| && RecordLength(bytes, pos).None?
    ensures NoRecord(bytes[pos..])
  {
    var rest := bytes[pos..];
    if |rest| >= 4 {
      Loads4(rest, 0);
      assert rest[0..4] == bytes[pos..pos + 4];
    }
  }

  /** Where the reading loop accepts a record there is a framed packet. */
  lemma RecordIsFrame(bytes: seq<byte>, pos: nat) returns (packet: seq<byte>)
    requires pos <= |bytes| && RecordLength(bytes, pos).Some?
    ensures 0 < |packet| <= MAX_RECORD && pos + 4 + |packet| <= |bytes|
    ensures bytes[pos..] == Frame(packet) + bytes[pos + 4 + |packet|..]
  {
    var next := pos + 4 + RecordLength(bytes, pos).value;
    packet := bytes[pos + 4..next];
    LengthBytes(bytes[pos..pos + 4]);
    SliceSplit(bytes, pos, pos + 4, next);
    SliceSplit(bytes, pos, next, |bytes|);
  }

  lemma {:induction false} OneMorePacket(decode: PacketDecoder, packet: seq<byte>, more: seq<seq<byte>>)
    ensures Framed([packet] + more) == Frame(packet) + Framed(more)
    ensures EventsOf(decode, [packet] + more) == decode(packet) + EventsOf(decode, more)
  {
    assert ([packet] + more)[1..] == more;
  }

  /**
   Any bytes whatever are a run of good records and a rest that begins with none, and reading them
   yields the events of those records.
   */
  lemma {:induction false} CaptureIsRecordsAndRest(decode: PacketDecoder, bytes: seq<byte>, pos: nat)
      returns (packets: seq<seq<byte>>, rest: seq<byte>)
    requires pos <= |bytes|
    ensures bytes[pos..] == Framed(packets) + rest && Readable(packets) && NoRecord(rest)
    ensures ReadFrom(decode, bytes, pos) == EventsOf(decode, packets)
    decreases |bytes| - pos
  {
    if RecordLength(bytes, pos).None? {
      packets, rest := [], bytes[pos..];
      NoRecordHere(bytes, pos);
    } else {
      var packet := RecordIsFrame(bytes, pos);
      var next := pos + 4 + |packet|;
      var more;
      more, rest := CaptureIsRecordsAndRest(decode, bytes, next);
      packets := [packet] + more;
      OneMorePacket(decode, packet, more);
      FrameReadsBack(decode, packet, bytes, pos, bytes[next..]);
      AppendAssoc(Frame(packet), Framed(more), rest);
    }
  }

  /** Four bytes are the encoding of their value. */
  lemma LengthBytes(b: seq<byte>)
    requires |b| == 4
    ensures Unsigned(LeValue(b), 4) == b
  {
    SmallPowers();
    LeValueBound(b);
    BytesOfValue(b);
  }

  lemma {:induction false} BytesOfValue(b: seq<byte>)
    ensures LeBytes(LeValue(b), |b|) == b
  {
    if b != [] {
      BytesOfValue(b[1..]);
      assert b == [b[0]] + b[1..];
    }
  }
}
