/** strategyFiveminCta.py: the same tick and 5-minute pipeline as
    strategyMes.py without the long cycle.  Entries need a channel breakout
    and the open-interest ratio; exits are a fixed cut-loss against the
    recorded entry price, or a trailing stop otherwise. */
module StrategyCta {
  import opened Wrappers
  import opened Market
  import opened Series
  import opened PeriodBars
  import opened ShiftBuffer
  import opened Orders
  import opened Signals
  import opened Positions
  import opened FrontEnd
  import TickBars

  const BufferSize: nat := 18
  const TrailingPrcnt: real := 1.4
  const FixedCutLoss: real := 2.0
  /** The tick assembler's starting `preBarVolume`. */
  const InitialPreBarVolume: int := -100
  const CtaPolicy: Policy := Policy(CutLossOrTrailing(FixedCutLoss, TrailingPrcnt), true)

  datatype State = State(front: ListFront, bars: PriceBuffers, openRatioModi: seq<real>,
                         bufferCount: nat, book: Book, log: SignalLog)

  predicate Valid(s: State)
  {
    Wf(s.front.five) && HasCapacity(s.bars, BufferSize) && |s.openRatioModi| == BufferSize
  }

  function Init(): (s: State)
    ensures Valid(s) && s.bufferCount == 0
  {
    State(ListFront(TickBars.Init(InitialPreBarVolume), ListAgg(None, 0)), ZeroBuffers(BufferSize),
          Zeros(BufferSize), 0, EmptyBook, SignalLog([], []))
  }

  /** Indicator readings for one 5-minute bar: channel bands, the ratio
      computed from the bar's lists, the engine's position and the id given
      to a stop sent on this bar. */
  datatype Readings = Readings(kkUp: real, kkDown: real, openRatioModi: real, pos: int,
                               stopId: OrderId)

  predicate BuyCondition(bar: Bar, r: Readings)
  {
    bar.close > r.kkUp && RatioBuy(r.openRatioModi)
  }

  predicate SellCondition(bar: Bar, r: Readings)
  {
    bar.close < r.kkDown && RatioSell(r.openRatioModi)
  }

  /** Clear the tracked ids, shift the bar and the ratio into the buffers and
      count the bar. */
  function Store(s: State, bar: Bar, openRatioModi: real): (t: State)
    requires Valid(s)
    ensures Valid(t)
    ensures t.bufferCount == s.bufferCount + 1 && t.book.orderList == []
    ensures Last(t.bars.close) == bar.close && Last(t.openRatioModi) == openRatioModi
    // the bar and the ratio are shifted in, not just written last
    ensures t.bars == PushBar(s.bars, bar.close, bar.high, bar.low, bar.volume, bar.openInterest)
    ensures t.openRatioModi == Push(s.openRatioModi, openRatioModi)
    ensures t.front == s.front && t.log == s.log
    ensures t.book.(orderList := s.book.orderList) == s.book
  {
    s.(bars := PushBar(s.bars, bar.close, bar.high, bar.low, bar.volume, bar.openInterest),
       openRatioModi := Push(s.openRatioModi, openRatioModi),
       bufferCount := s.bufferCount + 1,
       book := s.book.(orderList := []))
  }

  /** The warm part of `onFiveBar`: log the signal and decide.  Holding a
      position with no recorded entry price of that side raises. */
  function Trade(s: State, bar: Bar, r: Readings): (o: Result<Out<State>, Error>)
    requires Valid(s) && s.book.orderList == []
    ensures o.Failure? <==>
      (r.pos > 0 && |s.book.buyCost| == 0) || (r.pos < 0 && |s.book.shortCost| == 0)
    ensures o.Success? ==> Valid(o.value.state) && o.value.state.(book := s.book, log := s.log) == s
    ensures o.Success? ==> o.value.state.book.orderList == (if r.pos != 0 then [r.stopId] else [])
    // the log uses the entry conditions, whatever the position
    ensures o.Success? ==> o.value.state.log == Record(s.log, bar.time, BuyCondition(bar, r), SellCondition(bar, r))
    ensures o.Success? ==>
      (Sends(o.value.intents, Buy) <==> r.pos == 0 && BuyCondition(bar, r))
      && (Sends(o.value.intents, Short) <==> r.pos == 0 && !BuyCondition(bar, r) && SellCondition(bar, r))
      && (Sends(o.value.intents, Sell) <==> r.pos > 0)
      && (Sends(o.value.intents, Cover) <==> r.pos < 0)
    ensures o.Success? ==> forall i :: 0 <= i < |o.value.intents| ==>
      o.value.intents[i].Send? && (o.value.intents[i].stop ==> o.value.intents[i].volume == Abs(r.pos))
    // the cut-loss exits sit five points beyond the close
    ensures o.Success? && r.pos > 0 && LongCutLossHit(bar.close, Last(s.book.buyCost), FixedCutLoss) ==>
      o.value.intents == [Send(Sell, bar.close - EntryOffset, r.pos, true)]
    ensures o.Success? && r.pos < 0 && ShortCutLossHit(bar.close, Last(s.book.shortCost), FixedCutLoss) ==>
      o.value.intents == [Send(Cover, bar.close + EntryOffset, -r.pos, true)]
  {
    var buy := BuyCondition(bar, r);
    var sell := SellCondition(bar, r);
    var log := Record(s.log, bar.time, buy, sell);
    var d := Decide(CtaPolicy, s.book, bar, r.pos, buy, sell, r.stopId);
    if d.Failure? then Failure(d.error)
    else
      DecisionDirections(CtaPolicy, s.book, bar, r.pos, buy, sell, r.stopId);
      Success(Out(s.(book := d.value.book, log := log), d.value.intents))
  }

  /** `onFiveBar`. */
  function OnFiveBar(s: State, fb: FiveBar, r: Readings): (o: Result<Out<State>, Halt>)
    requires Valid(s)
    ensures o.Failure? ==> s.bufferCount + 1 >= BufferSize && r.pos != 0
    ensures o.Success? ==> Valid(o.value.state) && o.value.state.front == s.front
    ensures o.Success? ==> o.value.state.bufferCount == s.bufferCount + 1
    ensures o.Success? ==> Last(o.value.state.bars.close) == fb.bar.close
    // the cancels go out before the exception, so they stay sent when it is raised
    ensures o.Failure? ==> o.error.issued == CancelEach(s.book.orderList)
    // every id tracked at the previous bar is cancelled before anything is sent
    ensures o.Success? ==> |o.value.intents| >= |s.book.orderList|
                           && o.value.intents[..|s.book.orderList|] == CancelEach(s.book.orderList)
    // the tracked list is rebuilt from empty: it holds this bar's stop, if any
    ensures o.Success? ==>
      o.value.state.book.orderList
        == (if o.value.state.bufferCount >= BufferSize && r.pos != 0 then [r.stopId] else [])
    ensures o.Success? && o.value.state.bufferCount < BufferSize ==>
      NoSend(o.value.intents) && o.value.state.log == s.log
    ensures o.Success? ==>
      (Sends(o.value.intents, Buy) <==>
         o.value.state.bufferCount >= BufferSize && r.pos == 0 && BuyCondition(fb.bar, r))
      && (Sends(o.value.intents, Short) <==>
         o.value.state.bufferCount >= BufferSize && r.pos == 0 && !BuyCondition(fb.bar, r)
         && SellCondition(fb.bar, r))
      && (Sends(o.value.intents, Sell) <==> o.value.state.bufferCount >= BufferSize && r.pos > 0)
      && (Sends(o.value.intents, Cover) <==> o.value.state.bufferCount >= BufferSize && r.pos < 0)
  {
    var cancels := CancelEach(s.book.orderList);
    var s3 := Store(s, fb.bar, r.openRatioModi);
    if s3.bufferCount < BufferSize then
      CancelsSendNothing(s.book.orderList, []);
      assert cancels + [] == cancels;
      Success(Out(s3, cancels))
    else
      var t := Trade(s3, fb.bar, r);
      if t.Failure? then Failure(Halt(t.error, cancels))
      else
        CancelsSendNothing(s.book.orderList, t.value.intents);
        assert (cancels + t.value.intents)[..|cancels|] == cancels;
        Success(Out(t.value.state, cancels + t.value.intents))
  }

  /** `onTick`, with the 1-minute and 5-minute folds it drives. */
  function OnTick(s: State, t: Tick, r: Readings): (o: Result<Out<State>, Halt>)
    requires Valid(s)
    ensures o.Success? ==> Valid(o.value.state)
    ensures o.Success? ==> o.value.state.front == FeedList(s.front, t).next
    ensures o.Success? ==>
      o.value.state.bufferCount == s.bufferCount + |ToSeq(FeedList(s.front, t).fiveBar)|
    ensures o.Success? && o.value.state.bufferCount < BufferSize ==> NoSend(o.value.intents)
    ensures o.Failure? ==> o.error.issued == CancelEach(s.book.orderList)
    ensures o.Failure? ==> FeedList(s.front, t).fiveBar.Some?
  {
    var f := FeedList(s.front, t);
    var s1 := s.(front := f.next);
    if f.fiveBar.None? then Success(Out(s1, [])) else OnFiveBar(s1, f.fiveBar.value, r)
  }

  /** A stream of ticks, each with the readings in force when it arrives.
      The exception of a missing entry price ends the run; what was sent
      before it, on earlier bars and on the failing bar, stays sent. */
  function RunTicks(s: State, ts: seq<Tick>, rs: seq<Readings>): (o: Result<Out<State>, Halt>)
    requires Valid(s) && |rs| == |ts|
    ensures o.Success? ==> Valid(o.value.state)
    ensures o.Success? ==> o.value.state.front == FeedListAll(s.front, ts).front
    ensures o.Success? ==>
      o.value.state.bufferCount == s.bufferCount + |FeedListAll(s.front, ts).fiveBars|
    ensures o.Success? && o.value.state.bufferCount < BufferSize ==> NoSend(o.value.intents)
    decreases |ts|
  {
    if |ts| == 0 then Success(Out(s, []))
    else
      var prev := RunTicks(s, ts[..|ts| - 1], rs[..|rs| - 1]);
      if prev.Failure? then prev
      else
        var last := OnTick(prev.value.state, Last(ts), Last(rs));
        if last.Failure? then Failure(Halt(last.error.cause, prev.value.intents + last.error.issued))
        else if last.value.state.bufferCount < BufferSize then
          NoSendConcat(prev.value.intents, last.value.intents);
          Success(Out(last.value.state, prev.value.intents + last.value.intents))
        else
          Success(Out(last.value.state, prev.value.intents + last.value.intents))
  }

  /** A request, once sent, is never retracted: the requests of a run over a
      prefix of the ticks begin the requests of the run over all of them, and
      a run that raised on the prefix is the run over all of them. */
  lemma {:induction false} IssuedNeverRetracted(s: State, ts: seq<Tick>, rs: seq<Readings>, k: nat)
    requires Valid(s) && |rs| == |ts| && k <= |ts|
    ensures var p := RunTicks(s, ts[..k], rs[..k]);
            var o := RunTicks(s, ts, rs);
            (p.Success? ==> p.value.intents <= Issued(o)) && (p.Failure? ==> o == p)
    decreases |ts|
  {
    if k == |ts| {
      assert ts[..k] == ts && rs[..k] == rs;
    } else {
      var init, rinit := ts[..|ts| - 1], rs[..|rs| - 1];
      assert ts[..k] == init[..k] && rs[..k] == rinit[..k];
      IssuedNeverRetracted(s, init, rinit, k);
      RunTicksExtends(s, ts, rs);
      var p, prev := RunTicks(s, init[..k], rinit[..k]), RunTicks(s, init, rinit);
      if p.Success? && prev.Success? {
        assert p.value.intents <= prev.value.intents <= Issued(RunTicks(s, ts, rs));
      }
    }
  }

  /** One more tick appends to what the run had sent, or repeats its failure. */
  lemma RunTicksExtends(s: State, ts: seq<Tick>, rs: seq<Readings>)
    requires Valid(s) && |rs| == |ts| > 0
    ensures var prev := RunTicks(s, ts[..|ts| - 1], rs[..|rs| - 1]);
            var o := RunTicks(s, ts, rs);
            (prev.Success? ==> prev.value.intents <= Issued(o)) && (prev.Failure? ==> o == prev)
  {
    var prev := RunTicks(s, ts[..|ts| - 1], rs[..|rs| - 1]);
    if prev.Success? {
      var last := OnTick(prev.value.state, Last(ts), Last(rs));
      var sent := prev.value.intents + Issued(last);
      assert Issued(RunTicks(s, ts, rs)) == sent;
      assert prev.value.intents <= sent;
    }
  }

  /** The OCO pair sent at one bar is cancelled at the next: when the tracked
      list is what sendOcoOrder left, the next 5-minute bar's handler cancels
      both legs before it sends anything. */
  lemma OcoCancelledAtNextBar(s: State, fb: FiveBar, r: Readings, prior: seq<OrderId>,
                              buyPrice: real, shortPrice: real, volume: nat,
                              buyId: OrderId, shortId: OrderId)
    requires Valid(s)
    requires s.book.orderList == SendOco(prior, buyPrice, shortPrice, volume, buyId, shortId).orderList
    ensures var o := OnFiveBar(s, fb, r);
            var n := |s.book.orderList|;
            |Issued(o)| >= n && Cancel(buyId) in Issued(o)[..n] && Cancel(shortId) in Issued(o)[..n]
            && forall i :: 0 <= i < n ==> !Issued(o)[i].Send?
  {
    var ids := s.book.orderList;
    var o := OnFiveBar(s, fb, r);
    assert Issued(o)[..|ids|] == CancelEach(ids);
    TrackedIsCancelled(ids, buyId);
    TrackedIsCancelled(ids, shortId);
    forall i | 0 <= i < |ids|
      ensures !Issued(o)[i].Send?
    {
      assert Issued(o)[i] == CancelEach(ids)[i];
    }
  }

  /** From a fresh start, no order of any kind is sent, and nothing can
      raise, until the 5-minute fold over the assembler's 1-minute bars has
      produced BufferSize bars. */
  lemma {:induction false} NoOrdersBeforeWarmUp(ts: seq<Tick>, rs: seq<Readings>)
    requires |rs| == |ts|
    requires |ListRun(FiveMinuteLate, ListAgg(None, 0),
                      TickBars.DeltaRun(TickBars.Init(InitialPreBarVolume), ts).bars).bars| < BufferSize
    ensures RunTicks(Init(), ts, rs).Success?
    ensures NoSend(RunTicks(Init(), ts, rs).value.intents)
  {
    FeedListAllIsStages(Init().front, ts);
    NeverFailsWhileCold(Init(), ts, rs);
  }

  /** A run whose 5-minute bars all arrive before the warm-up completes
      cannot raise: the decision, the only place that reads an entry price,
      never runs. */
  lemma {:induction false} NeverFailsWhileCold(s: State, ts: seq<Tick>, rs: seq<Readings>)
    requires Valid(s) && |rs| == |ts|
    requires s.bufferCount + |FeedListAll(s.front, ts).fiveBars| < BufferSize
    ensures RunTicks(s, ts, rs).Success?
    decreases |ts|
  {
    if |ts| > 0 {
      var init := ts[..|ts| - 1];
      var prefix := FeedListAll(s.front, init);
      assert |prefix.fiveBars| <= |FeedListAll(s.front, ts).fiveBars|;
      NeverFailsWhileCold(s, init, rs[..|rs| - 1]);
    }
  }
}
