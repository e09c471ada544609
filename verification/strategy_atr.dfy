/** strategyFiveminAtr.py: raw-volume 1-minute bars, a plain 5-minute fold
    closing on the mark, and a two-stage warm-up: first the price buffers
    fill, then a buffer of ATR readings.  Entries need rising ATR, a rising
    open-interest-ratio average above 0.095 and an RSI extreme; exits are a
    fixed cut-loss against the recorded entry price, or a trailing stop. */
module StrategyAtr {
  import opened Wrappers
  import opened Market
  import opened Series
  import opened PeriodBars
  import opened ShiftBuffer
  import opened Orders
  import opened Signals
  import opened Positions
  import opened FrontEnd
  import TickBars

  const BufferSize: nat := 50
  const RsiEntry: real := 17.0
  const TrailingPrcnt: real := 1.2
  const FixedCutLoss: real := 3.0
  const AtrPolicy: Policy := Policy(CutLossOrTrailing(FixedCutLoss, TrailingPrcnt), true)

  datatype State = State(front: PlainFront, bars: PriceBuffers, atr: seq<real>, bufferCount: nat,
                         atrCount: nat, book: Book, log: SignalLog)

  /** The second counter starts once the first reaches the capacity. */
  function AtrCountFor(bufferCount: nat): nat
  {
    if bufferCount >= BufferSize then bufferCount - BufferSize + 1 else 0
  }

  predicate Valid(s: State)
  {
    HasCapacity(s.bars, BufferSize) && |s.atr| == BufferSize && s.atrCount == AtrCountFor(s.bufferCount)
  }

  function Init(): (s: State)
    ensures Valid(s) && s.bufferCount == 0 && s.atrCount == 0
  {
    State(PlainFront(None, None), ZeroBuffers(BufferSize), Zeros(BufferSize), 0, 0, EmptyBook,
          SignalLog([], []))
  }

  /** Indicator readings for one 5-minute bar: the latest ATR and its moving
      average, the RSI, the last two values of the exponential average of the
      open-interest ratio, the engine's position and the id given to a stop
      sent on this bar. */
  datatype Readings = Readings(atrValue: real, atrMa: real, rsiValue: real, ratioEma: real,
                               ratioEmaPrev: real, pos: int, stopId: OrderId)

  predicate AtrRising(r: Readings) { r.atrValue > r.atrMa }

  predicate OpenRatioRising(r: Readings) { r.ratioEma > r.ratioEmaPrev && r.ratioEma > 0.095 }

  predicate BuyCondition(r: Readings)
  {
    AtrRising(r) && OpenRatioRising(r) && RsiConditions(r.rsiValue, RsiEntry).0
  }

  predicate SellCondition(r: Readings)
  {
    AtrRising(r) && OpenRatioRising(r) && RsiConditions(r.rsiValue, RsiEntry).1
  }

  /** With rsiEntry = 17 the long side (RSI above 67) and the short side (RSI
      below 33) never hold together, so the short branch is reached exactly
      when its own condition holds. */
  lemma EntrySidesExclusive(r: Readings)
    ensures !(BuyCondition(r) && SellCondition(r))
    ensures BuyCondition(r) ==> r.rsiValue > 67.0
    ensures SellCondition(r) ==> r.rsiValue < 33.0
  {
    var c := RsiConditions(r.rsiValue, RsiEntry);
  }

  /** Clear the tracked ids, shift the bar into the buffers and count it;
      past the first stage, also shift the ATR reading in and count that. */
  function Store(s: State, bar: Bar, atrValue: real): (t: State)
    requires Valid(s)
    ensures Valid(t)
    ensures t.bufferCount == s.bufferCount + 1 && t.book.orderList == []
    ensures t.atrCount == (if t.bufferCount >= BufferSize then s.atrCount + 1 else 0)
    ensures Last(t.bars.close) == bar.close
    ensures t.bufferCount >= BufferSize ==> Last(t.atr) == atrValue
    ensures t.bufferCount < BufferSize ==> t.atr == s.atr
    // the bar, and past the first stage the ATR reading, are shifted in
    ensures t.bars == PushBar(s.bars, bar.close, bar.high, bar.low, bar.volume, bar.openInterest)
    ensures t.bufferCount >= BufferSize ==> t.atr == Push(s.atr, atrValue)
    ensures t.front == s.front && t.log == s.log
    ensures t.book.(orderList := s.book.orderList) == s.book
  {
    var s1 := s.(bars := PushBar(s.bars, bar.close, bar.high, bar.low, bar.volume, bar.openInterest),
                 bufferCount := s.bufferCount + 1,
                 book := s.book.(orderList := []));
    if s1.bufferCount < BufferSize then s1
    else s1.(atr := Push(s1.atr, atrValue), atrCount := s1.atrCount + 1)
  }

  /** The warm part of `onFiveBar`: log the signal and decide. */
  function Trade(s: State, bar: Bar, r: Readings): (o: Result<Out<State>, Error>)
    requires Valid(s) && s.book.orderList == []
    ensures o.Failure? <==>
      (r.pos > 0 && |s.book.buyCost| == 0) || (r.pos < 0 && |s.book.shortCost| == 0)
    ensures o.Success? ==> Valid(o.value.state) && o.value.state.(book := s.book, log := s.log) == s
    ensures o.Success? ==> o.value.state.book.orderList == (if r.pos != 0 then [r.stopId] else [])
    ensures o.Success? ==> o.value.state.log == Record(s.log, bar.time, BuyCondition(r), SellCondition(r))
    ensures o.Success? ==>
      (Sends(o.value.intents, Buy) <==> r.pos == 0 && BuyCondition(r))
      && (Sends(o.value.intents, Short) <==> r.pos == 0 && SellCondition(r))
      && (Sends(o.value.intents, Sell) <==> r.pos > 0)
      && (Sends(o.value.intents, Cover) <==> r.pos < 0)
    ensures o.Success? ==> forall i :: 0 <= i < |o.value.intents| ==>
      o.value.intents[i].Send? && (o.value.intents[i].stop ==> o.value.intents[i].volume == Abs(r.pos))
    ensures o.Success? && r.pos > 0 && LongCutLossHit(bar.close, Last(s.book.buyCost), FixedCutLoss) ==>
      o.value.intents == [Send(Sell, bar.close - EntryOffset, r.pos, true)]
    ensures o.Success? && r.pos < 0 && ShortCutLossHit(bar.close, Last(s.book.shortCost), FixedCutLoss) ==>
      o.value.intents == [Send(Cover, bar.close + EntryOffset, -r.pos, true)]
  {
    var buy := BuyCondition(r);
    var sell := SellCondition(r);
    EntrySidesExclusive(r);
    var log := Record(s.log, bar.time, buy, sell);
    var d := Decide(AtrPolicy, s.book, bar, r.pos, buy, sell, r.stopId);
    if d.Failure? then Failure(d.error)
    else
      DecisionDirections(AtrPolicy, s.book, bar, r.pos, buy, sell, r.stopId);
      Success(Out(s.(book := d.value.book, log := log), d.value.intents))
  }

  /** `onFiveBar`: nothing is decided until both counters reach the capacity. */
  function OnFiveBar(s: State, bar: Bar, r: Readings): (o: Result<Out<State>, Halt>)
    requires Valid(s)
    ensures o.Failure? ==> s.bufferCount + 1 >= 2 * BufferSize - 1 && r.pos != 0
    ensures o.Success? ==> Valid(o.value.state) && o.value.state.front == s.front
    ensures o.Success? ==> o.value.state.bufferCount == s.bufferCount + 1
    // the cancels go out before the exception, so they stay sent when it is raised
    ensures o.Failure? ==> o.error.issued == CancelEach(s.book.orderList)
    // every id tracked at the previous bar is cancelled before anything is sent
    ensures o.Success? ==> |o.value.intents| >= |s.book.orderList|
                           && o.value.intents[..|s.book.orderList|] == CancelEach(s.book.orderList)
    ensures o.Success? ==>
      o.value.state.book.orderList
        == (if o.value.state.atrCount >= BufferSize && r.pos != 0 then [r.stopId] else [])
    // the first order can come no earlier than the (2 * BufferSize - 1)-th 5-minute bar
    ensures o.Success? && o.value.state.bufferCount < 2 * BufferSize - 1 ==>
      NoSend(o.value.intents) && o.value.state.log == s.log
    ensures o.Success? ==>
      (Sends(o.value.intents, Buy) <==>
         o.value.state.atrCount >= BufferSize && r.pos == 0 && BuyCondition(r))
      && (Sends(o.value.intents, Short) <==>
         o.value.state.atrCount >= BufferSize && r.pos == 0 && SellCondition(r))
      && (Sends(o.value.intents, Sell) <==> o.value.state.atrCount >= BufferSize && r.pos > 0)
      && (Sends(o.value.intents, Cover) <==> o.value.state.atrCount >= BufferSize && r.pos < 0)
  {
    var cancels := CancelEach(s.book.orderList);
    var s3 := Store(s, bar, r.atrValue);
    if s3.atrCount < BufferSize then
      CancelsSendNothing(s.book.orderList, []);
      assert cancels + [] == cancels;
      Success(Out(s3, cancels))
    else
      var t := Trade(s3, bar, r);
      if t.Failure? then Failure(Halt(t.error, cancels))
      else
        CancelsSendNothing(s.book.orderList, t.value.intents);
        assert (cancels + t.value.intents)[..|cancels|] == cancels;
        Success(Out(t.value.state, cancels + t.value.intents))
  }

  /** `onTick`, with the 1-minute and 5-minute folds it drives. */
  function OnTick(s: State, t: Tick, r: Readings): (o: Result<Out<State>, Halt>)
    requires Valid(s)
    ensures o.Success? ==> Valid(o.value.state)
    ensures o.Success? ==> o.value.state.front == FeedPlain(s.front, t).next
    ensures o.Success? ==>
      o.value.state.bufferCount == s.bufferCount + |ToSeq(FeedPlain(s.front, t).fiveBar)|
    ensures o.Success? && o.value.state.bufferCount < 2 * BufferSize - 1 ==> NoSend(o.value.intents)
    ensures o.Failure? ==> o.error.issued == CancelEach(s.book.orderList)
    ensures o.Failure? ==> FeedPlain(s.front, t).fiveBar.Some?
  {
    var f := FeedPlain(s.front, t);
    var s1 := s.(front := f.next);
    if f.fiveBar.None? then Success(Out(s1, [])) else OnFiveBar(s1, f.fiveBar.value, r)
  }

  /** A stream of ticks, each with the readings in force when it arrives.
      The exception of a missing entry price ends the run; what was sent
      before it, on earlier bars and on the failing bar, stays sent. */
  function RunTicks(s: State, ts: seq<Tick>, rs: seq<Readings>): (o: Result<Out<State>, Halt>)
    requires Valid(s) && |rs| == |ts|
    ensures o.Success? ==> Valid(o.value.state)
    ensures o.Success? ==> o.value.state.front == FeedPlainAll(s.front, ts).front
    ensures o.Success? ==>
      o.value.state.bufferCount == s.bufferCount + |FeedPlainAll(s.front, ts).fiveBars|
    ensures o.Success? && o.value.state.bufferCount < 2 * BufferSize - 1 ==> NoSend(o.value.intents)
    decreases |ts|
  {
    if |ts| == 0 then Success(Out(s, []))
    else
      var prev := RunTicks(s, ts[..|ts| - 1], rs[..|rs| - 1]);
      if prev.Failure? then prev
      else
        var last := OnTick(prev.value.state, Last(ts), Last(rs));
        if last.Failure? then Failure(Halt(last.error.cause, prev.value.intents + last.error.issued))
        else if last.value.state.bufferCount < 2 * BufferSize - 1 then
          NoSendConcat(prev.value.intents, last.value.intents);
          Success(Out(last.value.state, prev.value.intents + last.value.intents))
        else
          Success(Out(last.value.state, prev.value.intents + last.value.intents))
  }

  /** A request, once sent, is never retracted: the requests of a run over a
      prefix of the ticks begin the requests of the run over all of them, and
      a run that raised on the prefix is the run over all of them. */
  lemma {:induction false} IssuedNeverRetracted(s: State, ts: seq<Tick>, rs: seq<Readings>, k: nat)
    requires Valid(s) && |rs| == |ts| && k <= |ts|
    ensures var p := RunTicks(s, ts[..k], rs[..k]);
            var o := RunTicks(s, ts, rs);
            (p.Success? ==> p.value.intents <= Issued(o)) && (p.Failure? ==> o == p)
    decreases |ts|
  {
    if k == |ts| {
      assert ts[..k] == ts && rs[..k] == rs;
    } else {
      var init, rinit := ts[..|ts| - 1], rs[..|rs| - 1];
      assert ts[..k] == init[..k] && rs[..k] == rinit[..k];
      IssuedNeverRetracted(s, init, rinit, k);
      RunTicksExtends(s, ts, rs);
      var p, prev := RunTicks(s, init[..k], rinit[..k]), RunTicks(s, init, rinit);
      if p.Success? && prev.Success? {
        assert p.value.intents <= prev.value.intents <= Issued(RunTicks(s, ts, rs));
      }
    }
  }

  /** One more tick appends to what the run had sent, or repeats its failure. */
  lemma RunTicksExtends(s: State, ts: seq<Tick>, rs: seq<Readings>)
    requires Valid(s) && |rs| == |ts| > 0
    ensures var prev := RunTicks(s, ts[..|ts| - 1], rs[..|rs| - 1]);
            var o := RunTicks(s, ts, rs);
            (prev.Success? ==> prev.value.intents <= Issued(o)) && (prev.Failure? ==> o == prev)
  {
    var prev := RunTicks(s, ts[..|ts| - 1], rs[..|rs| - 1]);
    if prev.Success? {
      var last := OnTick(prev.value.state, Last(ts), Last(rs));
      var sent := prev.value.intents + Issued(last);
      assert Issued(RunTicks(s, ts, rs)) == sent;
      assert prev.value.intents <= sent;
    }
  }

  /** A run whose 5-minute bars all arrive before the second warm-up stage
      completes cannot raise. */
  lemma {:induction false} NeverFailsWhileCold(s: State, ts: seq<Tick>, rs: seq<Readings>)
    requires Valid(s) && |rs| == |ts|
    requires s.bufferCount + |FeedPlainAll(s.front, ts).fiveBars| < 2 * BufferSize - 1
    ensures RunTicks(s, ts, rs).Success?
    decreases |ts|
  {
    if |ts| > 0 {
      var init := ts[..|ts| - 1];
      assert |FeedPlainAll(s.front, init).fiveBars| <= |FeedPlainAll(s.front, ts).fiveBars|;
      NeverFailsWhileCold(s, init, rs[..|rs| - 1]);
    }
  }

  /** From a fresh start, no order is sent, and nothing can raise, before the
      plain 5-minute fold over the assembler's 1-minute bars has produced
      2 * BufferSize - 1 bars. */
  lemma NoOrdersBeforeWarmUp(ts: seq<Tick>, rs: seq<Readings>)
    requires |rs| == |ts|
    requires |PlainRun(FiveMinuteOnTheMark, None, TickBars.RawRun(None, ts).bars).bars|
             < 2 * BufferSize - 1
    ensures RunTicks(Init(), ts, rs).Success?
    ensures NoSend(RunTicks(Init(), ts, rs).value.intents)
  {
    FeedPlainAllIsStages(Init().front, ts);
    NeverFailsWhileCold(Init(), ts, rs);
  }
}
