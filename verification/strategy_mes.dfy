/** strategyMes.py: ticks assembled into 1-minute bars with delta volume,
    folded into 5-minute bars that keep per-minute volume and open-interest
    lists, and those folded again into 15-minute bars that drive a long-cycle
    trend flag.  Entries need a channel breakout, the open-interest ratio and
    the trend flag to agree; exits are trailing stops only. */
module StrategyMes {
  import opened Wrappers
  import opened Market
  import opened Series
  import opened PeriodBars
  import opened ShiftBuffer
  import opened Orders
  import opened Signals
  import opened Positions
  import opened Trend
  import opened FrontEnd
  import TickBars

  const BufferSize: nat := 100
  const LongCycleBufferSize: nat := 30
  const TrailingPrcnt: real := 1.0
  /** Trailing exits; entry prices are recorded. */
  const MesPolicy: Policy := Policy(Trailing(TrailingPrcnt), true)

  /** The long-cycle price series, shifted once per 15-minute bar. */
  datatype CycleBars = CycleBars(close: seq<real>, high: seq<real>, low: seq<real>, volume: seq<real>)

  datatype State = State(front: ListFront, longCycleBar: Option<Bar>, bars: PriceBuffers,
                         openRatioModi: seq<real>, bufferCount: nat, cycleBars: CycleBars,
                         cycle: Cycle, book: Book, log: SignalLog)

  predicate Valid(s: State)
  {
    && Wf(s.front.five)
    && HasCapacity(s.bars, BufferSize) && |s.openRatioModi| == BufferSize
    && |s.cycleBars.close| == LongCycleBufferSize && |s.cycleBars.high| == LongCycleBufferSize
    && |s.cycleBars.low| == LongCycleBufferSize && |s.cycleBars.volume| == LongCycleBufferSize
    && |s.cycle.llt| == LongCycleBufferSize && -1 <= s.cycle.flag <= 1
  }

  /** The strategy as constructed: nothing open, zero-filled buffers, counts
      and trend flag at zero, `preBarVolume` 0 and `preBarOpenInterest` 0. */
  function Init(): (s: State)
    ensures Valid(s) && s.bufferCount == 0 && s.cycle.count == 0 && s.cycle.flag == 0
  {
    State(ListFront(TickBars.Init(0), ListAgg(None, 0)), None, ZeroBuffers(BufferSize),
          Zeros(BufferSize), 0,
          CycleBars(Zeros(LongCycleBufferSize), Zeros(LongCycleBufferSize),
                    Zeros(LongCycleBufferSize), Zeros(LongCycleBufferSize)),
          InitCycle(LongCycleBufferSize), EmptyBook, SignalLog([], []))
  }

  /** `onLongCycle`: shift the long-cycle series and the LLT buffer, and
      recompute the trend flag once warm. */
  function OnLongCycle(s: State, bar: Bar, reading: Reading): (t: State)
    requires Valid(s)
    ensures Valid(t)
    ensures t.cycle == CycleStep(s.cycle, LongCycleBufferSize, reading.llt, reading.maLong)
    ensures Last(t.cycleBars.close) == bar.close && Last(t.cycleBars.high) == bar.high
    ensures Last(t.cycleBars.low) == bar.low && Last(t.cycleBars.volume) == bar.volume as real
    // the four long-cycle series shift the bar in
    ensures t.cycleBars.close == Push(s.cycleBars.close, bar.close)
    ensures t.cycleBars.high == Push(s.cycleBars.high, bar.high)
    ensures t.cycleBars.low == Push(s.cycleBars.low, bar.low)
    ensures t.cycleBars.volume == Push(s.cycleBars.volume, bar.volume as real)
    // nothing but the long-cycle part changes
    ensures t.(cycleBars := s.cycleBars, cycle := s.cycle) == s
  {
    var c := s.cycleBars;
    s.(cycleBars := CycleBars(Push(c.close, bar.close), Push(c.high, bar.high),
                              Push(c.low, bar.low), Push(c.volume, bar.volume as real)),
       cycle := CycleStep(s.cycle, LongCycleBufferSize, reading.llt, reading.maLong))
  }

  /** Indicator readings for one 5-minute bar: the channel bands, the
      trend-line crossings used for the signal log, the open-interest ratio
      computed from the bar's lists, the engine's position, the id the engine
      gives a stop sent on this bar, and the long-cycle readings in case this
      bar closes a 15-minute bar. */
  datatype Readings = Readings(kkUp: real, kkDown: real, hbBuy: bool, hbSell: bool,
                               openRatioModi: real, pos: int, stopId: OrderId,
                               longCycle: Reading)

  predicate BuyCondition(bar: Bar, r: Readings, flag: int)
  {
    bar.close > r.kkUp && RatioBuy(r.openRatioModi) && flag == 1
  }

  predicate SellCondition(bar: Bar, r: Readings, flag: int)
  {
    bar.close < r.kkDown && RatioSell(r.openRatioModi) && flag == -1
  }

  /** The 15-minute fold at the top of `onFiveBar`, handing a completed
      15-minute bar to `onLongCycle`. */
  function AdvanceLongCycle(s: State, bar: Bar, reading: Reading): (t: State)
    requires Valid(s)
    ensures Valid(t)
    ensures t.longCycleBar == PlainStep(FifteenMinute, s.longCycleBar, bar).next
    ensures t.cycle.count == s.cycle.count + |ToSeq(PlainStep(FifteenMinute, s.longCycleBar, bar).emitted)|
    ensures t.(longCycleBar := s.longCycleBar, cycleBars := s.cycleBars, cycle := s.cycle) == s
  {
    var fifteen := PlainStep(FifteenMinute, s.longCycleBar, bar);
    var s1 := s.(longCycleBar := fifteen.next);
    if fifteen.emitted.Some? then OnLongCycle(s1, fifteen.emitted.value, reading) else s1
  }

  /** Clear the tracked ids, shift the bar and the ratio into the buffers and
      count the bar. */
  function Store(s: State, bar: Bar, openRatioModi: real): (t: State)
    requires Valid(s)
    ensures Valid(t)
    ensures t.bufferCount == s.bufferCount + 1 && t.book.orderList == []
    ensures Last(t.bars.close) == bar.close && Last(t.openRatioModi) == openRatioModi
    // the bar and the ratio are shifted in, not just written last
    ensures t.bars == PushBar(s.bars, bar.close, bar.high, bar.low, bar.volume, bar.openInterest)
    ensures t.openRatioModi == Push(s.openRatioModi, openRatioModi)
    ensures t.(bars := s.bars, openRatioModi := s.openRatioModi, bufferCount := s.bufferCount,
               book := s.book) == s
    ensures t.book.(orderList := s.book.orderList) == s.book
  {
    s.(bars := PushBar(s.bars, bar.close, bar.high, bar.low, bar.volume, bar.openInterest),
       openRatioModi := Push(s.openRatioModi, openRatioModi),
       bufferCount := s.bufferCount + 1,
       book := s.book.(orderList := []))
  }

  /** The warm part of `onFiveBar`: log the signal and decide. */
  function Trade(s: State, bar: Bar, r: Readings): (o: Out<State>)
    requires Valid(s) && s.book.orderList == []
    ensures Valid(o.state)
    ensures o.state.(book := s.book, log := s.log) == s
    ensures o.state.book.orderList == (if r.pos != 0 then [r.stopId] else [])
    ensures o.state.log == Record(s.log, bar.time, r.hbBuy && RatioBuy(r.openRatioModi),
                                  r.hbSell && RatioSell(r.openRatioModi))
    ensures Sends(o.intents, Buy) <==> r.pos == 0 && BuyCondition(bar, r, s.cycle.flag)
    ensures Sends(o.intents, Short) <==>
      r.pos == 0 && !BuyCondition(bar, r, s.cycle.flag) && SellCondition(bar, r, s.cycle.flag)
    ensures Sends(o.intents, Sell) <==> r.pos > 0
    ensures Sends(o.intents, Cover) <==> r.pos < 0
    ensures forall i :: 0 <= i < |o.intents| ==>
      o.intents[i].Send? && (o.intents[i].stop ==> o.intents[i].volume == Abs(r.pos))
  {
    var buy := BuyCondition(bar, r, s.cycle.flag);
    var sell := SellCondition(bar, r, s.cycle.flag);
    var log := Record(s.log, bar.time, r.hbBuy && RatioBuy(r.openRatioModi),
                      r.hbSell && RatioSell(r.openRatioModi));
    var d := Decide(MesPolicy, s.book, bar, r.pos, buy, sell, r.stopId).value;
    DecisionDirections(MesPolicy, s.book, bar, r.pos, buy, sell, r.stopId);
    Out(s.(book := d.book, log := log), d.intents)
  }

  /** What `onFiveBar` does after storing the bar: nothing until the buffers
      have been filled, then log and decide. */
  function Act(s: State, bar: Bar, r: Readings): (o: Out<State>)
    requires Valid(s) && s.book.orderList == []
    ensures Valid(o.state)
    ensures o.state.(book := s.book, log := s.log) == s
    ensures o.state.book.orderList == (if s.bufferCount >= BufferSize && r.pos != 0 then [r.stopId] else [])
    ensures s.bufferCount < BufferSize ==> o.intents == [] && o.state.log == s.log
    ensures s.bufferCount >= BufferSize ==>
      o.state.log == Record(s.log, bar.time, r.hbBuy && RatioBuy(r.openRatioModi),
                            r.hbSell && RatioSell(r.openRatioModi))
    ensures Sends(o.intents, Buy) <==>
      s.bufferCount >= BufferSize && r.pos == 0 && BuyCondition(bar, r, s.cycle.flag)
    ensures Sends(o.intents, Short) <==>
      s.bufferCount >= BufferSize && r.pos == 0
      && !BuyCondition(bar, r, s.cycle.flag) && SellCondition(bar, r, s.cycle.flag)
    ensures Sends(o.intents, Sell) <==> s.bufferCount >= BufferSize && r.pos > 0
    ensures Sends(o.intents, Cover) <==> s.bufferCount >= BufferSize && r.pos < 0
    ensures forall i :: 0 <= i < |o.intents| ==>
      o.intents[i].Send? && (o.intents[i].stop ==> o.intents[i].volume == Abs(r.pos))
  {
    if s.bufferCount < BufferSize then Out(s, []) else Trade(s, bar, r)
  }

  /** `onFiveBar`. */
  function OnFiveBar(s: State, fb: FiveBar, r: Readings): (o: Out<State>)
    requires Valid(s)
    ensures Valid(o.state)
    ensures o.state.front == s.front
    ensures o.state.bufferCount == s.bufferCount + 1
    // the 15-minute fold sees the bar first; the long cycle advances once per 15-minute bar
    ensures o.state.longCycleBar == PlainStep(FifteenMinute, s.longCycleBar, fb.bar).next
    ensures o.state.cycle.count
         == s.cycle.count + |ToSeq(PlainStep(FifteenMinute, s.longCycleBar, fb.bar).emitted)|
    ensures Last(o.state.bars.close) == fb.bar.close && Last(o.state.openRatioModi) == r.openRatioModi
    // every id tracked at the previous bar is cancelled before anything is sent
    ensures |o.intents| >= |s.book.orderList|
    ensures o.intents[..|s.book.orderList|] == CancelEach(s.book.orderList)
    // the tracked list is rebuilt from empty: it holds this bar's stop, if any
    ensures o.state.book.orderList
         == (if o.state.bufferCount >= BufferSize && r.pos != 0 then [r.stopId] else [])
  {
    var cancels := CancelEach(s.book.orderList);
    var a := Act(Store(AdvanceLongCycle(s, fb.bar, r.longCycle), fb.bar, r.openRatioModi), fb.bar, r);
    assert (cancels + a.intents)[..|cancels|] == cancels;
    Out(a.state, cancels + a.intents)
  }

  /** The OCO pair sent at one bar is cancelled at the next: when the tracked
      list is what sendOcoOrder left, the next 5-minute bar's handler cancels
      both legs before it sends anything. */
  lemma OcoCancelledAtNextBar(s: State, fb: FiveBar, r: Readings, prior: seq<OrderId>,
                              buyPrice: real, shortPrice: real, volume: nat,
                              buyId: OrderId, shortId: OrderId)
    requires Valid(s)
    requires s.book.orderList == SendOco(prior, buyPrice, shortPrice, volume, buyId, shortId).orderList
    ensures var o := OnFiveBar(s, fb, r);
            var n := |s.book.orderList|;
            |o.intents| >= n && Cancel(buyId) in o.intents[..n] && Cancel(shortId) in o.intents[..n]
            && forall i :: 0 <= i < n ==> !o.intents[i].Send?
  {
    var ids := s.book.orderList;
    var o := OnFiveBar(s, fb, r);
    assert o.intents[..|ids|] == CancelEach(ids);
    TrackedIsCancelled(ids, buyId);
    TrackedIsCancelled(ids, shortId);
    forall i | 0 <= i < |ids|
      ensures !o.intents[i].Send?
    {
      assert o.intents[i] == CancelEach(ids)[i];
    }
  }

  /** `onFiveBar` is the cancels followed by what `Act` does on the stored bar. */
  lemma OnFiveBarActs(s: State, fb: FiveBar, r: Readings)
    requires Valid(s)
    ensures var s3 := Store(AdvanceLongCycle(s, fb.bar, r.longCycle), fb.bar, r.openRatioModi);
      var o, a := OnFiveBar(s, fb, r), Act(s3, fb.bar, r);
      && o.state == a.state && o.state.bufferCount == s3.bufferCount && o.state.cycle == s3.cycle
      && (forall d :: Sends(o.intents, d) <==> Sends(a.intents, d))
      && (NoSend(o.intents) <==> NoSend(a.intents))
      && (forall i :: |s.book.orderList| <= i < |o.intents| ==>
            o.intents[i] == a.intents[i - |s.book.orderList|])
  {
    var s3 := Store(AdvanceLongCycle(s, fb.bar, r.longCycle), fb.bar, r.openRatioModi);
    var cancels := CancelEach(s.book.orderList);
    var a := Act(s3, fb.bar, r);
    forall d ensures Sends(cancels + a.intents, d) <==> Sends(a.intents, d) {
      CancelsSendNothing(s.book.orderList, a.intents);
    }
    CancelsSendNothing(s.book.orderList, a.intents);
  }

  /** Until the buffers are full `onFiveBar` sends nothing and logs nothing;
      after that it logs the entry signal. */
  lemma OnFiveBarLogs(s: State, fb: FiveBar, r: Readings)
    requires Valid(s)
    ensures var o := OnFiveBar(s, fb, r);
      && (o.state.bufferCount < BufferSize ==> NoSend(o.intents) && o.state.log == s.log)
      && (o.state.bufferCount >= BufferSize ==>
            o.state.log == Record(s.log, fb.bar.time, r.hbBuy && RatioBuy(r.openRatioModi),
                                  r.hbSell && RatioSell(r.openRatioModi)))
  {
    OnFiveBarActs(s, fb, r);
  }

  /** After the cancels, `onFiveBar` sends one order kind per case, with entries
      reading the trend flag as this bar left it, and every stop sized to the
      whole position. */
  lemma OnFiveBarDecides(s: State, fb: FiveBar, r: Readings)
    requires Valid(s)
    ensures var o := OnFiveBar(s, fb, r);
      var warm := o.state.bufferCount >= BufferSize;
      && (Sends(o.intents, Buy) <==>
            warm && r.pos == 0 && BuyCondition(fb.bar, r, o.state.cycle.flag))
      && (Sends(o.intents, Short) <==>
            warm && r.pos == 0
            && !BuyCondition(fb.bar, r, o.state.cycle.flag) && SellCondition(fb.bar, r, o.state.cycle.flag))
      && (Sends(o.intents, Sell) <==> warm && r.pos > 0)
      && (Sends(o.intents, Cover) <==> warm && r.pos < 0)
      && (forall i :: |s.book.orderList| <= i < |o.intents| ==>
            o.intents[i].Send? && (o.intents[i].stop ==> o.intents[i].volume == Abs(r.pos)))
  {
    OnFiveBarActs(s, fb, r);
  }

  /** `onTick`, with the 1-minute and 5-minute folds it drives. */
  function OnTick(s: State, t: Tick, r: Readings): (o: Out<State>)
    requires Valid(s)
    ensures Valid(o.state)
    ensures o.state.front == FeedList(s.front, t).next
    ensures o.state.bufferCount == s.bufferCount + |ToSeq(FeedList(s.front, t).fiveBar)|
    ensures o.state.bufferCount < BufferSize ==> NoSend(o.intents)
  {
    var f := FeedList(s.front, t);
    var s1 := s.(front := f.next);
    if f.fiveBar.None? then Out(s1, []) else OnFiveBar(s1, f.fiveBar.value, r)
  }

  /** A stream of ticks, each with the readings in force when it arrives. */
  function RunTicks(s: State, ts: seq<Tick>, rs: seq<Readings>): (o: Out<State>)
    requires Valid(s) && |rs| == |ts|
    ensures Valid(o.state)
    ensures o.state.front == FeedListAll(s.front, ts).front
    ensures o.state.bufferCount == s.bufferCount + |FeedListAll(s.front, ts).fiveBars|
    ensures o.state.bufferCount < BufferSize ==> NoSend(o.intents)
    decreases |ts|
  {
    if |ts| == 0 then Out(s, [])
    else
      var prev := RunTicks(s, ts[..|ts| - 1], rs[..|rs| - 1]);
      var last := OnTick(prev.state, Last(ts), Last(rs));
      if last.state.bufferCount < BufferSize then
        NoSendConcat(prev.intents, last.intents);
        Out(last.state, prev.intents + last.intents)
      else
        Out(last.state, prev.intents + last.intents)
  }

  /** From a fresh start, no order of any kind is sent until the 5-minute
      fold, applied to the 1-minute bars the tick assembler emits, has
      produced BufferSize bars. */
  lemma NoOrdersBeforeWarmUp(ts: seq<Tick>, rs: seq<Readings>)
    requires |rs| == |ts|
    requires |ListRun(FiveMinuteLate, ListAgg(None, 0), TickBars.DeltaRun(TickBars.Init(0), ts).bars).bars|
             < BufferSize
    ensures NoSend(RunTicks(Init(), ts, rs).intents)
  {
    FeedListAllIsStages(Init().front, ts);
  }
}
