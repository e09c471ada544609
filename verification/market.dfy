/** Market data entering the pipeline.  Only the minute-of-hour of a
    timestamp is used for bucketing; `time` is an opaque ordinal timestamp
    that bars inherit from their first tick and that the signal log records. */
module Market {

  /** One trade update: last price, CUMULATIVE traded volume and open interest. */
  datatype Tick = Tick(time: int, minute: int, price: real, volume: int, openInterest: int)

  /** An OHLC bar with bucket volume and an open-interest snapshot; `time`
      and `minute` are those of the first tick or sub-bar that opened it. */
  datatype Bar = Bar(time: int, minute: int, open: real, high: real, low: real,
                     close: real, volume: int, openInterest: int)
}
