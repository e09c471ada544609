/** strategyHbRemodi.py: 1-minute bars arrive from the platform's bar
    builder, which also hands over completed 5-minute and 15-minute bars.
    Each 1-minute bar refreshes a window of the last five volumes and the
    last six open interests; 15-minute bars drive the trend flag; 5-minute
    bars shift the open-interest ratio in and decide with trailing stops
    only.  Stale orders are withdrawn with one cancel-all and the tracked id
    list is never cleared. */
module StrategyHb {
  import opened Wrappers
  import opened Market
  import opened Series
  import opened ShiftBuffer
  import opened Orders
  import opened Signals
  import opened Positions
  import opened Trend

  const BufferSize: nat := 100
  const LongCycleBufferSize: nat := 30
  const TrailingPrcnt: real := 1.1
  /** Trailing exits; no entry price is recorded. */
  const HbPolicy: Policy := Policy(Trailing(TrailingPrcnt), false)
  const VolumeWindow: nat := 5
  const OpenInterestWindow: nat := 6

  /** The 1-minute store's volume and open-interest series and the two
      windows last read from it. */
  datatype Minutes = Minutes(volume: seq<real>, openInterest: seq<real>, volumeWindow: seq<real>,
                             openInterestWindow: seq<real>)

  predicate MinutesValid(m: Minutes)
  {
    |m.volume| == |m.openInterest| >= OpenInterestWindow
  }

  function InitMinutes(size: nat): (m: Minutes)
    requires size >= OpenInterestWindow
    ensures MinutesValid(m)
  {
    Minutes(Zeros(size), Zeros(size), [], [])
  }

  /** `onBar`'s window refresh: store the bar, then read the last five
      volumes and the last six open interests. */
  function OnBarWindows(m: Minutes, bar: Bar): (r: Minutes)
    requires MinutesValid(m)
    ensures MinutesValid(r) && |r.volume| == |m.volume|
    ensures |r.volumeWindow| == VolumeWindow && |r.openInterestWindow| == OpenInterestWindow
    ensures Last(r.volumeWindow) == bar.volume as real
    ensures Last(r.openInterestWindow) == bar.openInterest as real
    // the sixth-newest open interest is the one the previous minute ended with
    ensures r.openInterestWindow[4] == Last(m.openInterest)
    // volume i and the open-interest step from i to i + 1 come from the same minute
    ensures forall i :: 0 <= i < VolumeWindow ==>
      r.volumeWindow[i] == r.volume[|r.volume| - VolumeWindow + i]
      && r.openInterestWindow[i + 1] == r.openInterest[|r.openInterest| - VolumeWindow + i]
  {
    var volume := Push(m.volume, bar.volume as real);
    var openInterest := Push(m.openInterest, bar.openInterest as real);
    Minutes(volume, openInterest, Tail(volume, VolumeWindow), Tail(openInterest, OpenInterestWindow))
  }

  function MinuteRun(m: Minutes, bars: seq<Bar>): (r: Minutes)
    requires MinutesValid(m)
    ensures MinutesValid(r) && |r.volume| == |m.volume|
    decreases |bars|
  {
    if |bars| == 0 then m else OnBarWindows(MinuteRun(m, bars[..|bars| - 1]), Last(bars))
  }

  function VolumeSeries(bars: seq<Bar>): (vs: seq<real>)
    ensures |vs| == |bars|
  {
    seq(|bars|, i requires 0 <= i < |bars| => bars[i].volume as real)
  }

  function OpenInterestSeries(bars: seq<Bar>): (os: seq<real>)
    ensures |os| == |bars|
  {
    seq(|bars|, i requires 0 <= i < |bars| => bars[i].openInterest as real)
  }

  lemma MinuteRunSnoc(m: Minutes, bars: seq<Bar>, b: Bar)
    requires MinutesValid(m)
    ensures MinuteRun(m, bars + [b]) == OnBarWindows(MinuteRun(m, bars), b)
  {
    assert (bars + [b])[..|bars|] == bars;
  }

  /** The two series are the zero-filled buffers with every minute of
      `bars` pushed. */
  predicate PushedAll(m: Minutes, size: nat, bars: seq<Bar>)
    requires size > 0
  {
    && m.volume == PushAll(Zeros(size), VolumeSeries(bars))
    && m.openInterest == PushAll(Zeros(size), OpenInterestSeries(bars))
  }

  lemma PushedAllStep(m: Minutes, size: nat, bars: seq<Bar>, b: Bar)
    requires size > 0 && MinutesValid(m) && PushedAll(m, size, bars)
    ensures PushedAll(OnBarWindows(m, b), size, bars + [b])
  {
    assert VolumeSeries(bars + [b]) == VolumeSeries(bars) + [b.volume as real];
    assert OpenInterestSeries(bars + [b]) == OpenInterestSeries(bars) + [b.openInterest as real];
    PushAllSnoc(Zeros(size), VolumeSeries(bars), b.volume as real);
    PushAllSnoc(Zeros(size), OpenInterestSeries(bars), b.openInterest as real);
  }

  /** The store after a run of minutes is the zero-filled buffers with every
      minute pushed. */
  lemma {:induction false} MinuteRunIsPushAll(size: nat, bars: seq<Bar>)
    requires size >= OpenInterestWindow
    ensures MinuteRun(InitMinutes(size), bars).volume == PushAll(Zeros(size), VolumeSeries(bars))
    ensures MinuteRun(InitMinutes(size), bars).openInterest
         == PushAll(Zeros(size), OpenInterestSeries(bars))
    decreases |bars|
  {
    if |bars| == 0 {
      assert VolumeSeries(bars) == [] && OpenInterestSeries(bars) == [];
    } else {
      var init, b := bars[..|bars| - 1], Last(bars);
      assert init + [b] == bars;
      MinuteRunIsPushAll(size, init);
      MinuteRunSnoc(InitMinutes(size), init, b);
      PushedAllStep(MinuteRun(InitMinutes(size), init), size, init, b);
      assert PushedAll(MinuteRun(InitMinutes(size), bars), size, bars);
    }
  }

  /** The store and its windows after a history of minutes. */
  predicate Stored(m: Minutes, size: nat, bars: seq<Bar>)
  {
    && size > 0
    && m.volume == PushAll(Zeros(size), VolumeSeries(bars))
    && m.openInterest == PushAll(Zeros(size), OpenInterestSeries(bars))
    && |m.volume| >= VolumeWindow && |m.openInterest| >= OpenInterestWindow
    && m.volumeWindow == Tail(m.volume, VolumeWindow)
    && m.openInterestWindow == Tail(m.openInterest, OpenInterestWindow)
  }

  lemma MinuteRunIsStored(size: nat, bars: seq<Bar>)
    requires size >= OpenInterestWindow && |bars| > 0
    ensures Stored(MinuteRun(InitMinutes(size), bars), size, bars)
  {
    MinuteRunIsPushAll(size, bars);
  }

  /** Once six minutes have been seen, the windows hold the last five
      minutes' volumes and the last six minutes' open interests: volume i and
      the open-interest step from window entry i to i + 1 belong to the same
      minute. */
  lemma WindowsAlign(size: nat, bars: seq<Bar>)
    requires size >= OpenInterestWindow && |bars| >= OpenInterestWindow
    ensures forall i :: 0 <= i < VolumeWindow ==>
      MinuteRun(InitMinutes(size), bars).volumeWindow[i] == bars[|bars| - VolumeWindow + i].volume as real
    ensures forall j :: 0 <= j < OpenInterestWindow ==>
      MinuteRun(InitMinutes(size), bars).openInterestWindow[j]
        == bars[|bars| - OpenInterestWindow + j].openInterest as real
  {
    var m := MinuteRun(InitMinutes(size), bars);
    MinuteRunIsStored(size, bars);
    StoredWindows(m, size, bars);
  }

  lemma StoredWindows(m: Minutes, size: nat, bars: seq<Bar>)
    requires size >= OpenInterestWindow && |bars| >= OpenInterestWindow
    requires Stored(m, size, bars)
    ensures forall i :: 0 <= i < VolumeWindow ==>
      m.volumeWindow[i] == bars[|bars| - VolumeWindow + i].volume as real
    ensures forall j :: 0 <= j < OpenInterestWindow ==>
      m.openInterestWindow[j] == bars[|bars| - OpenInterestWindow + j].openInterest as real
  {
    forall i | 0 <= i < VolumeWindow
      ensures m.volumeWindow[i] == bars[|bars| - VolumeWindow + i].volume as real
    {
      SeriesFromEnd(size, bars, VolumeWindow - 1 - i);
    }
    forall j | 0 <= j < OpenInterestWindow
      ensures m.openInterestWindow[j] == bars[|bars| - OpenInterestWindow + j].openInterest as real
    {
      SeriesFromEnd(size, bars, OpenInterestWindow - 1 - j);
    }
  }

  lemma SeriesFromEnd(size: nat, bars: seq<Bar>, j: nat)
    requires j < size && j < |bars|
    ensures PushAll(Zeros(size), VolumeSeries(bars))[size - 1 - j] == bars[|bars| - 1 - j].volume as real
    ensures PushAll(Zeros(size), OpenInterestSeries(bars))[size - 1 - j]
         == bars[|bars| - 1 - j].openInterest as real
  {
    PushAllFromEnd(Zeros(size), VolumeSeries(bars), j);
    PushAllFromEnd(Zeros(size), OpenInterestSeries(bars), j);
  }

  datatype State = State(minutes: Minutes, openRatioModi: seq<real>, bufferCount: nat,
                         cycle: Cycle, book: Book)

  predicate Valid(s: State)
  {
    MinutesValid(s.minutes) && |s.openRatioModi| == BufferSize
    && |s.cycle.llt| == LongCycleBufferSize && -1 <= s.cycle.flag <= 1
  }

  /** The 1-minute store's capacity belongs to the platform's bar store and
      is a parameter here. */
  function Init(size: nat): (s: State)
    requires size >= OpenInterestWindow
    ensures Valid(s) && s.bufferCount == 0 && s.cycle.flag == 0
  {
    State(InitMinutes(size), Zeros(BufferSize), 0, InitCycle(LongCycleBufferSize), EmptyBook)
  }

  /** `on15MinBar`: shift the LLT reading in and, once warm, recompute the
      flag. */
  function On15MinBar(s: State, reading: Reading): (t: State)
    requires Valid(s)
    ensures Valid(t)
    ensures t.cycle == CycleStep(s.cycle, LongCycleBufferSize, reading.llt, reading.maLong)
    ensures t.(cycle := s.cycle) == s
  {
    s.(cycle := CycleStep(s.cycle, LongCycleBufferSize, reading.llt, reading.maLong))
  }

  /** A completed 5-minute bar with its readings: channel bands, the ratio
      computed from the windows, the engine's position and the id given to a
      stop sent on this bar. */
  datatype FiveMinute = FiveMinute(bar: Bar, kkUp: real, kkDown: real, openRatioModi: real,
                                   pos: int, stopId: OrderId)

  predicate BuyCondition(f: FiveMinute, flag: int)
  {
    f.bar.close > f.kkUp && RatioBuy(f.openRatioModi) && flag == 1
  }

  predicate SellCondition(f: FiveMinute, flag: int)
  {
    f.bar.close < f.kkDown && RatioSell(f.openRatioModi) && flag == -1
  }

  /** `on5MinBar`. */
  function On5MinBar(s: State, f: FiveMinute): (o: Out<State>)
    requires Valid(s)
    ensures Valid(o.state)
    ensures o.state.bufferCount == s.bufferCount + 1
    ensures Last(o.state.openRatioModi) == f.openRatioModi
    ensures o.state.minutes == s.minutes && o.state.cycle == s.cycle
    // one cancel-all first, whatever is tracked
    ensures |o.intents| >= 1 && o.intents[0] == CancelAll
    // the tracked list only grows: it is never cleared
    ensures o.state.book.orderList
         == s.book.orderList + (if o.state.bufferCount >= BufferSize && f.pos != 0 then [f.stopId] else [])
    ensures o.state.book.buyCost == s.book.buyCost && o.state.book.shortCost == s.book.shortCost
    ensures o.state.bufferCount < BufferSize ==> o.intents == [CancelAll] && o.state.book == s.book
    ensures Sends(o.intents, Buy) <==>
      o.state.bufferCount >= BufferSize && f.pos == 0 && BuyCondition(f, s.cycle.flag)
    ensures Sends(o.intents, Short) <==>
      o.state.bufferCount >= BufferSize && f.pos == 0 && !BuyCondition(f, s.cycle.flag)
      && SellCondition(f, s.cycle.flag)
    ensures Sends(o.intents, Sell) <==> o.state.bufferCount >= BufferSize && f.pos > 0
    ensures Sends(o.intents, Cover) <==> o.state.bufferCount >= BufferSize && f.pos < 0
    ensures forall i :: 1 <= i < |o.intents| ==>
      o.intents[i].Send? && (o.intents[i].stop ==> o.intents[i].volume == Abs(f.pos))
  {
    var s1 := s.(openRatioModi := Push(s.openRatioModi, f.openRatioModi),
                 bufferCount := s.bufferCount + 1);
    if s1.bufferCount < BufferSize then
      assert !Sends([CancelAll], Buy) && !Sends([CancelAll], Short);
      assert !Sends([CancelAll], Sell) && !Sends([CancelAll], Cover);
      Out(s1, [CancelAll])
    else
      var buy := BuyCondition(f, s.cycle.flag);
      var sell := SellCondition(f, s.cycle.flag);
      var d := Decide(HbPolicy, s1.book, f.bar, f.pos, buy, sell, f.stopId).value;
      DecisionDirections(HbPolicy, s1.book, f.bar, f.pos, buy, sell, f.stopId);
      CancelAllSendsNothing(d.intents);
      Out(s1.(book := d.book), [CancelAll] + d.intents)
  }

  lemma CancelAllSendsNothing(ds: seq<Intent>)
    ensures forall d :: Sends([CancelAll] + ds, d) <==> Sends(ds, d)
    ensures forall i :: 1 <= i < |[CancelAll] + ds| ==> ([CancelAll] + ds)[i] == ds[i - 1]
  {
    forall d ensures Sends([CancelAll] + ds, d) <==> Sends(ds, d) {
      if Sends([CancelAll] + ds, d) {
        var i :| 0 <= i < |[CancelAll] + ds| && ([CancelAll] + ds)[i].Send?
                 && ([CancelAll] + ds)[i].direction == d;
        assert ds[i - 1] == ([CancelAll] + ds)[i];
      }
      if Sends(ds, d) {
        var i :| 0 <= i < |ds| && ds[i].Send? && ds[i].direction == d;
        assert ([CancelAll] + ds)[i + 1] == ds[i];
      }
    }
  }

  /** `onBar` together with the bar builders it feeds: the windows are
      refreshed first, then a completed 15-minute bar updates the trend flag,
      and only then is a completed 5-minute bar decided, so a 5-minute bar
      closing together with a 15-minute bar trades on the fresh flag. */
  function OnMinute(s: State, bar: Bar, fifteen: Option<Reading>, five: Option<FiveMinute>)
    : (o: Out<State>)
    requires Valid(s)
    ensures Valid(o.state)
    ensures o.state.minutes == OnBarWindows(s.minutes, bar)
    ensures o.state.cycle
         == (if fifteen.Some? then CycleStep(s.cycle, LongCycleBufferSize, fifteen.value.llt,
                                             fifteen.value.maLong)
             else s.cycle)
    ensures o.state.bufferCount == s.bufferCount + |ToSeq(five)|
    ensures five.None? ==> o.intents == [] && o.state.book == s.book
    ensures five.Some? && Sends(o.intents, Buy) ==> o.state.cycle.flag == 1
    ensures five.Some? && Sends(o.intents, Short) ==> o.state.cycle.flag == -1
  {
    var s1 := s.(minutes := OnBarWindows(s.minutes, bar));
    var s2 := if fifteen.Some? then On15MinBar(s1, fifteen.value) else s1;
    if five.Some? then On5MinBar(s2, five.value) else Out(s2, [])
  }
}
