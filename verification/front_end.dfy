/** The tick-to-5-minute front end each tick-driven strategy runs before its
    5-minute handler: the 1-minute assembler feeding the 5-minute fold.
    strategyMes.py and strategyFiveminCta.py use the delta-volume assembler
    and the list-keeping fold closing at `(minute + 1) % 5 == 0`;
    strategyFiveminAtr.py uses the raw-volume assembler and the plain fold
    closing at `minute % 5 == 0`. */
module FrontEnd {
  import opened Wrappers
  import opened Market
  import opened Series
  import opened TickBars
  import opened PeriodBars

  datatype ListFront = ListFront(ticks: Assembler, five: ListAgg)

  /** What one tick produced: the next front end, the 1-minute bar it closed
      (if any) and the 5-minute bar that bar closed (if any). */
  datatype Fed<F, O> = Fed(next: F, minuteBar: Option<Bar>, fiveBar: Option<O>)

  /** One tick through the delta-volume assembler and the list-keeping fold. */
  function FeedList(f: ListFront, t: Tick): (r: Fed<ListFront, FiveBar>)
    ensures r.next.ticks == DeltaStep(f.ticks, t).next
    ensures r.minuteBar == DeltaStep(f.ticks, t).emitted
    ensures r.fiveBar.Some? ==> r.minuteBar.Some?
    ensures r.minuteBar.None? ==> r.next.five == f.five
    ensures Wf(f.five) ==> Wf(r.next.five)
    ensures Wf(f.five) && r.fiveBar.Some? ==> Consistent(r.fiveBar.value, f.five.preBarOpenInterest)
  {
    var a := DeltaStep(f.ticks, t);
    if a.emitted.None? then Fed(ListFront(a.next, f.five), None, None)
    else
      var l := ListStep(FiveMinuteLate, f.five, a.emitted.value);
      Fed(ListFront(a.next, l.next), a.emitted, l.emitted)
  }

  datatype Trace<F, O> = Trace(front: F, minuteBars: seq<Bar>, fiveBars: seq<O>)

  function FeedListAll(f: ListFront, ts: seq<Tick>): Trace<ListFront, FiveBar>
    decreases |ts|
  {
    if |ts| == 0 then Trace(f, [], [])
    else
      var r := FeedListAll(f, ts[..|ts| - 1]);
      var s := FeedList(r.front, Last(ts));
      Trace(s.next, r.minuteBars + ToSeq(s.minuteBar), r.fiveBars + ToSeq(s.fiveBar))
  }

  /** Running the front end tick by tick is running the assembler over all the
      ticks and the fold over all the 1-minute bars the assembler emitted. */
  lemma {:induction false} FeedListAllIsStages(f: ListFront, ts: seq<Tick>)
    ensures FeedListAll(f, ts).front.ticks == DeltaRun(f.ticks, ts).state
    ensures FeedListAll(f, ts).minuteBars == DeltaRun(f.ticks, ts).bars
    ensures FeedListAll(f, ts).front.five == ListRun(FiveMinuteLate, f.five, DeltaRun(f.ticks, ts).bars).state
    ensures FeedListAll(f, ts).fiveBars == ListRun(FiveMinuteLate, f.five, DeltaRun(f.ticks, ts).bars).bars
    decreases |ts|
  {
    if |ts| > 0 {
      var init := ts[..|ts| - 1];
      FeedListAllIsStages(f, init);
      var r := FeedListAll(f, init);
      var s := FeedList(r.front, Last(ts));
      var bars := DeltaRun(f.ticks, ts).bars;
      var prevBars := DeltaRun(f.ticks, init).bars;
      if s.minuteBar.Some? {
        assert bars == prevBars + [s.minuteBar.value];
        assert bars[..|bars| - 1] == prevBars;
      } else {
        assert bars == prevBars;
      }
    }
  }

  datatype PlainFront = PlainFront(minute: Option<Bar>, five: Option<Bar>)

  /** One tick through the raw-volume assembler and the plain fold. */
  function FeedPlain(f: PlainFront, t: Tick): (r: Fed<PlainFront, Bar>)
    ensures r.next.minute == RawStep(f.minute, t).next
    ensures r.minuteBar == RawStep(f.minute, t).emitted
    ensures r.fiveBar.Some? ==> r.minuteBar.Some?
    ensures r.minuteBar.None? ==> r.next.five == f.five
    ensures r.fiveBar.Some? ==> r.fiveBar.value.close == r.minuteBar.value.close
  {
    var a := RawStep(f.minute, t);
    if a.emitted.None? then Fed(PlainFront(a.next, f.five), None, None)
    else
      var p := PlainStep(FiveMinuteOnTheMark, f.five, a.emitted.value);
      Fed(PlainFront(a.next, p.next), a.emitted, p.emitted)
  }

  function FeedPlainAll(f: PlainFront, ts: seq<Tick>): Trace<PlainFront, Bar>
    decreases |ts|
  {
    if |ts| == 0 then Trace(f, [], [])
    else
      var r := FeedPlainAll(f, ts[..|ts| - 1]);
      var s := FeedPlain(r.front, Last(ts));
      Trace(s.next, r.minuteBars + ToSeq(s.minuteBar), r.fiveBars + ToSeq(s.fiveBar))
  }

  lemma {:induction false} FeedPlainAllIsStages(f: PlainFront, ts: seq<Tick>)
    ensures FeedPlainAll(f, ts).front.minute == RawRun(f.minute, ts).state
    ensures FeedPlainAll(f, ts).minuteBars == RawRun(f.minute, ts).bars
    ensures FeedPlainAll(f, ts).front.five == PlainRun(FiveMinuteOnTheMark, f.five, RawRun(f.minute, ts).bars).state
    ensures FeedPlainAll(f, ts).fiveBars == PlainRun(FiveMinuteOnTheMark, f.five, RawRun(f.minute, ts).bars).bars
    decreases |ts|
  {
    if |ts| > 0 {
      var init := ts[..|ts| - 1];
      FeedPlainAllIsStages(f, init);
      var r := FeedPlainAll(f, init);
      var s := FeedPlain(r.front, Last(ts));
      var bars := RawRun(f.minute, ts).bars;
      var prevBars := RawRun(f.minute, init).bars;
      if s.minuteBar.Some? {
        assert bars == prevBars + [s.minuteBar.value];
        assert bars[..|bars| - 1] == prevBars;
      } else {
        assert bars == prevBars;
      }
    }
  }
}
