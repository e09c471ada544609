/** Boolean entry conditions built from indicator outputs, and the signal
    log.  Indicator values (channel bands, the open-interest ratio, RSI, EMA
    and ATR readings) are inputs. */
module Signals {

  /** `openRatioModi > 0.022` qualifies a long entry. */
  predicate RatioBuy(openRatioModi: real) { openRatioModi > 0.022 }

  /** `openRatioModi > 0.026` qualifies a short entry. */
  predicate RatioSell(openRatioModi: real) { openRatioModi > 0.026 }

  /** RSI entry levels of strategyFiveminAtr.py: rsiBuy = 50 + rsiEntry and
      rsiSell = 50 - rsiEntry; the result is (buy condition, sell condition). */
  function RsiConditions(rsiValue: real, rsiEntry: real): (r: (bool, bool))
    ensures r.0 <==> rsiValue > 50.0 + rsiEntry
    ensures r.1 <==> rsiValue < 50.0 - rsiEntry
    // for a positive entry offset the two conditions exclude each other
    ensures rsiEntry > 0.0 ==> !(r.0 && r.1)
  {
    (rsiValue > 50.0 + rsiEntry, rsiValue < 50.0 - rsiEntry)
  }

  /** Timestamps of qualifying bars, kept for observation only. */
  datatype SignalLog = SignalLog(buys: seq<int>, sells: seq<int>)

  /** A buy signal logs the bar time as a buy; otherwise a sell signal logs it
      as a sell; otherwise nothing is logged. */
  function Record(log: SignalLog, time: int, buy: bool, sell: bool): (r: SignalLog)
    ensures buy ==> r == SignalLog(log.buys + [time], log.sells)
    ensures !buy && sell ==> r == SignalLog(log.buys, log.sells + [time])
    ensures !buy && !sell ==> r == log
    ensures |r.buys| + |r.sells| <= |log.buys| + |log.sells| + 1
  {
    if buy then log.(buys := log.buys + [time])
    else if sell then log.(sells := log.sells + [time])
    else log
  }
}
