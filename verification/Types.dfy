/** The values that flow through the system: orders, market events and message codes. */
module Types {

  datatype Option<+T> = None | Some(value: T)

  datatype Side = Buy | Sell

  const TWO_TO_THE_31: int := 0x8000_0000
  const TWO_TO_THE_32: int := 0x1_0000_0000
  const TWO_TO_THE_64: nat := 0x1_0000_0000_0000_0000

  // MTBT message codes: the ASCII letters carried in the first byte of a message.
  const ORDER_ADD: nat := 65
  const ORDER_MODIFY: nat := 77
  const ORDER_CANCEL: nat := 88
  const TRADE: nat := 84
  const SNAP_QUOTE: nat := 81
  const HEARTBEAT: nat := 72

  /** One decoded market-data message. `kind` is the raw message code. */
  datatype MarketEvent = MarketEvent(
    ts: nat, token: nat, price: int, qty: int, side: Side, kind: nat,
    orderNo: int, streamId: nat, seqNo: nat, orderNo2: int, tradeNo: int,
    bidPrice: int, bidQty: int, askPrice: int, askQty: int)

  /** C++ integer division: the quotient is truncated toward zero. */
  function TruncDiv(a: int, b: int): (q: int)
    requires b != 0
  {
    if a >= 0 then a / b else -((-a) / b)
  }

  function Min(a: int, b: int): int { if a <= b then a else b }

  function Max(a: int, b: int): int { if a >= b then a else b }
}
