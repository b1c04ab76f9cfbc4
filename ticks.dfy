/**
 * The decoded tick data of one day: three parallel vectors of unsigned
 * 64-bit values (timestamp in milliseconds since the Unix epoch, bid and
 * ask as integer multiples of the symbol's tick size).
 */
module Ticks {
  const U64Bound: int := 0x1_0000_0000_0000_0000

  /** The values a `uint64_t` can hold. */
  type u64 = x: int | 0 <= x < 0x1_0000_0000_0000_0000

  /** The three vectors `Tick2dt`, `Tick2Bid` and `Tick2Ask`. */
  datatype Series = Series(dt: seq<u64>, bid: seq<u64>, ask: seq<u64>)

  /** A series whose three vectors have the same length. */
  type TickSeries = s: Series | |s.dt| == |s.bid| == |s.ask| witness Series([], [], [])

  /** One record of a series. */
  datatype Tick = Tick(dt: u64, bid: u64, ask: u64)

  function TickAt(s: TickSeries, i: int): Tick
    requires 0 <= i < |s.dt|
  {
    Tick(s.dt[i], s.bid[i], s.ask[i])
  }
}
