/** Reference data and the exchange clock: instruments, price bands and trading hours. */
module Session {
  import opened Types
  import opened Arithmetic

  const MAX_TOKENS: nat := 65536
  const NS_PER_SECOND: nat := 1_000_000_000
  const NS_PER_DAY: nat := 86_400 * NS_PER_SECOND

  datatype Instrument = Instrument(lotSize: int, tickSize: int, prevClose: int, circuitPctX100: nat)

  function LotSizeOf(inst: Option<Instrument>): int { if inst.Some? then inst.value.lotSize else 0 }

  /** The lot size, or 1 where none is known. */
  function UnitLot(inst: Option<Instrument>): (l: int)
    ensures l > 0
    ensures if inst.Some? && inst.value.lotSize > 0 then l == inst.value.lotSize else l == 1
  {
    if LotSizeOf(inst) > 0 then LotSizeOf(inst) else 1
  }

  function TickSizeOf(inst: Option<Instrument>): int { if inst.Some? then inst.value.tickSize else 0 }

  /** The circuit band around the previous close, if there is one. */
  function PriceBand(inst: Option<Instrument>): Option<(int, int)> {
    if inst.None? || inst.value.prevClose <= 0 || inst.value.circuitPctX100 == 0 then None else
      var delta := TruncDiv(inst.value.prevClose * inst.value.circuitPctX100, 10000);
      Some((inst.value.prevClose - delta, inst.value.prevClose + delta))
  }

  /** The instant hour:minute on the day of `now`. */
  function TimeOfDay(now: nat, hour: nat, minute: nat): nat {
    now / NS_PER_DAY * NS_PER_DAY + (hour * 3600 + minute * 60) * NS_PER_SECOND
  }

  predicate WithinMarketHours(now: nat) { TimeOfDay(now, 9, 15) <= now < TimeOfDay(now, 15, 30) }

  predicate PreOpen(now: nat) { TimeOfDay(now, 9, 0) <= now < TimeOfDay(now, 9, 15) }

  predicate PreClose(now: nat) { now >= TimeOfDay(now, 15, 25) }

  /** The time of day lies in [from, to), both in minutes after midnight. */
  predicate ClockIn(now: nat, from: nat, to: nat) {
    from * 60 * NS_PER_SECOND <= now % NS_PER_DAY < to * 60 * NS_PER_SECOND
  }

  /** The sessions by the clock: pre-open from 9:00, trading from 9:15 to 15:30, pre-close from 15:25 to midnight. */
  lemma SessionsByTheClock(now: nat)
    ensures PreOpen(now) <==> ClockIn(now, 9 * 60, 9 * 60 + 15)
    ensures WithinMarketHours(now) <==> ClockIn(now, 9 * 60 + 15, 15 * 60 + 30)
    ensures PreClose(now) <==> ClockIn(now, 15 * 60 + 25, 24 * 60)
  {
    assert now == now / NS_PER_DAY * NS_PER_DAY + now % NS_PER_DAY;
  }

  /** The price is within the circuit percentage of the previous close, where both are known. */
  predicate WithinCircuit(inst: Option<Instrument>, price: int) {
    inst.Some? && inst.value.prevClose > 0 && inst.value.circuitPctX100 > 0 ==>
      var allowed := inst.value.prevClose * inst.value.circuitPctX100;
      -allowed <= 10000 * (price - inst.value.prevClose) <= allowed
  }

  /** The circuit band holds exactly the prices within the percentage. */
  lemma BandIsPercentage(inst: Option<Instrument>, price: int)
    ensures var band := PriceBand(inst); WithinCircuit(inst, price) <==> (band.Some? ==> band.value.0 <= price <= band.value.1)
  {
    if PriceBand(inst).Some? {
      var x := inst.value.prevClose * inst.value.circuitPctX100;
      MulMono(0, inst.value.prevClose, inst.value.circuitPctX100);
      FloorBounds(x, 10000);
    }
  }
}
