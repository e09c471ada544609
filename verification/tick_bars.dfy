/** Tick -> 1-minute bar assembly (`onTick`).

    Two variants exist in the strategies:
    - delta volume (strategyMes.py, strategyFiveminCta.py): the bar volume is
      the cumulative tick volume minus the cumulative volume recorded at the
      minute's first tick, and emission is gated by a sticky
      "volume established" flag that the second tick of any minute sets;
    - raw volume (strategyFiveminAtr.py): volume and open interest stay those
      of the minute's first tick, and emission is unconditional.

    Both compare the tick's minute-of-hour with the open bar's minute; the
    initial empty minute marker is the absent bar (`None`). */
module TickBars {
  import opened Wrappers
  import opened Market
  import opened Series

  /** Delta-volume assembler state: the open bar, the cumulative volume at its
      first tick, and the volume-established flag. */
  datatype Assembler = Assembler(bar: Option<Bar>, preBarVolume: int, volumeEstablished: bool)

  /** A fresh assembler; `preBarVolume` is the class default (0 in
      strategyMes.py, -100 in strategyFiveminCta.py). */
  function Init(preBarVolume: int): Assembler
  {
    Assembler(None, preBarVolume, false)
  }

  /** The tick belongs to a new minute bucket (or nothing is open yet). */
  predicate NewMinute(open: Option<Bar>, t: Tick)
  {
    open.None? || t.minute != open.value.minute
  }

  /** The bar opened by a tick: all four prices at the tick's price. */
  function Fresh(t: Tick): Bar
  {
    Bar(t.time, t.minute, t.price, t.price, t.price, t.price, t.volume, t.openInterest)
  }

  /** A later tick of the same minute moves high, low and close only. */
  function Extend(b: Bar, t: Tick): Bar
  {
    b.(high := Max(b.high, t.price), low := Min(b.low, t.price), close := t.price)
  }

  /** One tick's effect: the next state and the bar pushed downstream, if any. */
  datatype Step<S> = Step(next: S, emitted: Option<Bar>)

  /** `onTick` of strategyMes.py / strategyFiveminCta.py. */
  function DeltaStep(a: Assembler, t: Tick): (r: Step<Assembler>)
    ensures r.next.bar.Some? && r.next.bar.value.minute == t.minute
    // only a minute change pushes a bar, and the bar pushed is the one that was open
    ensures r.emitted.Some? ==> NewMinute(a.bar, t) && r.emitted == a.bar
    ensures NewMinute(a.bar, t) ==> (r.emitted.Some? <==> a.bar.Some? && a.volumeEstablished)
    // the flag is never cleared, and the second tick of any minute sets it
    ensures a.volumeEstablished ==> r.next.volumeEstablished
    ensures !NewMinute(a.bar, t) ==> r.next.volumeEstablished
    // a new bar records the cumulative volume of its first tick
    ensures NewMinute(a.bar, t) ==> r.next.preBarVolume == t.volume
    ensures !NewMinute(a.bar, t) ==> r.next.bar.value.volume == t.volume - a.preBarVolume
  {
    if NewMinute(a.bar, t) then
      Step(Assembler(Some(Fresh(t)), t.volume, a.volumeEstablished),
           if a.bar.Some? && a.volumeEstablished then a.bar else None)
    else
      var b := Extend(a.bar.value, t).(volume := t.volume - a.preBarVolume,
                                       openInterest := t.openInterest);
      Step(Assembler(Some(b), a.preBarVolume, true), None)
  }

  /** `onTick` of strategyFiveminAtr.py. */
  function RawStep(open: Option<Bar>, t: Tick): (r: Step<Option<Bar>>)
    ensures r.next.Some? && r.next.value.minute == t.minute
    // the previous bar is pushed on every minute change, unconditionally
    ensures r.emitted.Some? <==> open.Some? && NewMinute(open, t)
    ensures r.emitted.Some? ==> r.emitted == open
    // within a minute, volume, open interest, open and time stay those of the first tick
    ensures !NewMinute(open, t) ==>
      var b, b' := open.value, r.next.value;
      b'.volume == b.volume && b'.openInterest == b.openInterest &&
      b'.open == b.open && b'.time == b.time && b'.close == t.price
  {
    if NewMinute(open, t) then Step(Some(Fresh(t)), open)
    else Step(Some(Extend(open.value, t)), None)
  }

  /** State after a tick sequence, with every bar pushed downstream on the way. */
  datatype Run<S> = Run(state: S, bars: seq<Bar>)

  function DeltaRun(a: Assembler, ts: seq<Tick>): Run<Assembler>
    decreases |ts|
  {
    if |ts| == 0 then Run(a, [])
    else
      var r := DeltaRun(a, ts[..|ts| - 1]);
      var s := DeltaStep(r.state, Last(ts));
      Run(s.next, r.bars + ToSeq(s.emitted))
  }

  function RawRun(open: Option<Bar>, ts: seq<Tick>): Run<Option<Bar>>
    decreases |ts|
  {
    if |ts| == 0 then Run(open, [])
    else
      var r := RawRun(open, ts[..|ts| - 1]);
      var s := RawStep(r.state, Last(ts));
      Run(s.next, r.bars + ToSeq(s.emitted))
  }

  // ---------------------------------------------------------------------
  // Reference: split the tick stream into minute segments, then build each
  // segment's bar in one go.

  function Prices(ts: seq<Tick>): (ps: seq<real>)
    ensures |ps| == |ts|
    ensures forall i :: 0 <= i < |ts| ==> ps[i] == ts[i].price
    decreases |ts|
  {
    if |ts| == 0 then [] else Prices(ts[..|ts| - 1]) + [Last(ts).price]
  }

  predicate NonEmpty(segs: seq<seq<Tick>>)
  {
    forall i :: 0 <= i < |segs| ==> |segs[i]| > 0
  }

  /** Maximal runs of consecutive ticks whose minute equals the minute of
      the run's first tick, in stream order. */
  function Segments(ts: seq<Tick>): (segs: seq<seq<Tick>>)
    ensures |segs| <= |ts|
    ensures |ts| > 0 <==> |segs| > 0
    ensures NonEmpty(segs)
    decreases |ts|
  {
    if |ts| == 0 then [] else Place(Segments(ts[..|ts| - 1]), Last(ts))
  }

  /** The next tick joins the last run when it has that run's minute, and
      starts a run of its own otherwise. */
  function Place(segs: seq<seq<Tick>>, t: Tick): (segs': seq<seq<Tick>>)
    requires NonEmpty(segs)
    ensures NonEmpty(segs') && |segs'| > 0
    ensures |segs| <= |segs'| <= |segs| + 1
  {
    if |segs| > 0 && t.minute == Last(segs)[0].minute then
      segs[..|segs| - 1] + [Last(segs) + [t]]
    else
      segs + [[t]]
  }

  lemma SegmentsSnoc(ts: seq<Tick>, t: Tick)
    ensures Segments(ts + [t]) == Place(Segments(ts), t)
  {
    var ts' := ts + [t];
    assert ts'[..|ts'| - 1] == ts;
  }

  function Concat(segs: seq<seq<Tick>>): seq<Tick>
  {
    if |segs| == 0 then [] else Concat(segs[..|segs| - 1]) + Last(segs)
  }

  predicate SameMinute(seg: seq<Tick>)
    requires |seg| > 0
  {
    forall j :: 0 <= j < |seg| ==> seg[j].minute == seg[0].minute
  }

  lemma ConcatSnoc(segs: seq<seq<Tick>>, seg: seq<Tick>)
    ensures Concat(segs + [seg]) == Concat(segs) + seg
  {
    assert (segs + [seg])[..|segs|] == segs;
  }

  lemma ConcatPlace(segs: seq<seq<Tick>>, t: Tick)
    requires NonEmpty(segs)
    ensures Concat(Place(segs, t)) == Concat(segs) + [t]
  {
    if |segs| > 0 && t.minute == Last(segs)[0].minute {
      var front := segs[..|segs| - 1];
      assert front + [Last(segs)] == segs;
      ConcatSnoc(front, Last(segs));
      ConcatSnoc(front, Last(segs) + [t]);
    } else {
      ConcatSnoc(segs, [t]);
    }
  }

  /** Segments partitions the stream: concatenated, the runs give back the ticks. */
  lemma {:induction false} SegmentsConcat(ts: seq<Tick>)
    ensures Concat(Segments(ts)) == ts
    decreases |ts|
  {
    if |ts| == 0 {
      assert Segments(ts) == [];
    } else {
      var init := ts[..|ts| - 1];
      var t := Last(ts);
      assert init + [t] == ts;
      SegmentsConcat(init);
      SegmentsSnoc(init, t);
      ConcatPlace(Segments(init), t);
    }
  }

  /** Each run lies in one minute, and neighbouring runs lie in different
      minutes, so every run is maximal. */
  lemma {:induction false} SegmentsAreMinutes(ts: seq<Tick>)
    ensures Minutes(Segments(ts))
    decreases |ts|
  {
    if |ts| == 0 {
      assert Segments(ts) == [];
    } else {
      var init := ts[..|ts| - 1];
      var t := Last(ts);
      assert init + [t] == ts;
      SegmentsAreMinutes(init);
      SegmentsSnoc(init, t);
      PlaceKeepsMinutes(Segments(init), t);
    }
  }

  /** Each run lies in one minute, and neighbouring runs lie in different
      minutes. */
  predicate Minutes(segs: seq<seq<Tick>>)
  {
    && NonEmpty(segs)
    && (forall i :: 0 <= i < |segs| ==> SameMinute(segs[i]))
    && (forall i :: 0 < i < |segs| ==> segs[i][0].minute != segs[i - 1][0].minute)
  }

  lemma PlaceKeepsMinutes(segs: seq<seq<Tick>>, t: Tick)
    requires Minutes(segs)
    ensures Minutes(Place(segs, t))
  {
    if |segs| > 0 && t.minute == Last(segs)[0].minute {
      SameMinuteSnocRun(segs, t);
    } else {
      NewMinuteSnocRun(segs, t);
    }
  }

  lemma SameMinuteSnocRun(segs: seq<seq<Tick>>, t: Tick)
    requires |segs| > 0 && Minutes(segs) && t.minute == Last(segs)[0].minute
    ensures Minutes(segs[..|segs| - 1] + [Last(segs) + [t]])
  {
    var l := Last(segs) + [t];
    var segs' := segs[..|segs| - 1] + [l];
    assert SameMinute(Last(segs));
    assert SameMinute(l) by {
      forall j | 0 <= j < |l| ensures l[j].minute == l[0].minute {
        if j < |l| - 1 { assert l[j] == Last(segs)[j]; }
      }
    }
    forall i | 0 <= i < |segs'| ensures SameMinute(segs'[i]) {
      if i < |segs'| - 1 { assert segs'[i] == segs[i]; }
    }
    forall i | 0 < i < |segs'|
      ensures segs'[i][0].minute != segs'[i - 1][0].minute
    {
      if i < |segs'| - 1 { assert segs'[i] == segs[i]; }
      else { assert segs'[i][0] == segs[i][0]; }
    }
  }

  lemma NewMinuteSnocRun(segs: seq<seq<Tick>>, t: Tick)
    requires Minutes(segs) && (|segs| == 0 || t.minute != Last(segs)[0].minute)
    ensures Minutes(segs + [[t]])
  {
    var segs' := segs + [[t]];
    assert SameMinute([t]);
    forall i | 0 <= i < |segs'| ensures SameMinute(segs'[i]) {
      if i < |segs| { assert segs'[i] == segs[i]; }
    }
    forall i | 0 < i < |segs'|
      ensures segs'[i][0].minute != segs'[i - 1][0].minute
    {
      if i < |segs| { assert segs'[i] == segs[i]; }
    }
  }

  /** The bar a whole minute of ticks should give under raw volume. */
  function RawMinuteBar(seg: seq<Tick>): Bar
    requires |seg| > 0
  {
    Bar(seg[0].time, seg[0].minute, seg[0].price, MaxOf(Prices(seg)), MinOf(Prices(seg)),
        Last(seg).price, seg[0].volume, seg[0].openInterest)
  }

  /** The bar a whole minute of ticks gives under delta volume: last minus first
      cumulative volume, except that a one-tick minute keeps the tick's
      cumulative volume (the delta is only written by a second tick). */
  function DeltaMinuteBar(seg: seq<Tick>): Bar
    requires |seg| > 0
  {
    Bar(seg[0].time, seg[0].minute, seg[0].price, MaxOf(Prices(seg)), MinOf(Prices(seg)),
        Last(seg).price,
        if |seg| == 1 then seg[0].volume else Last(seg).volume - seg[0].volume,
        Last(seg).openInterest)
  }

  function RawBars(segs: seq<seq<Tick>>): seq<Bar>
    requires NonEmpty(segs)
  {
    if |segs| == 0 then [] else RawBars(segs[..|segs| - 1]) + [RawMinuteBar(Last(segs))]
  }

  /** Some minute so far had a second tick, which is what sets the flag. */
  predicate AnyMulti(segs: seq<seq<Tick>>)
  {
    exists j :: 0 <= j < |segs| && |segs[j]| > 1
  }

  /** Bars of completed minutes that are pushed downstream under delta volume:
      those completed once some minute up to and including them had two ticks. */
  function EstablishedBars(segs: seq<seq<Tick>>): seq<Bar>
    requires NonEmpty(segs)
  {
    if |segs| == 0 then []
    else EstablishedBars(segs[..|segs| - 1])
         + (if AnyMulti(segs) then [DeltaMinuteBar(Last(segs))] else [])
  }

  /** A minute bar is a true OHLC summary: open first, close last, and the
      high and low bound every tick price and are attained by one. */
  lemma MinuteBarSummarises(seg: seq<Tick>)
    requires |seg| > 0
    ensures var b := DeltaMinuteBar(seg);
      && b.open == seg[0].price && b.close == Last(seg).price
      && (forall i :: 0 <= i < |seg| ==> b.low <= seg[i].price <= b.high)
      && (exists i :: 0 <= i < |seg| && seg[i].price == b.high)
      && (exists i :: 0 <= i < |seg| && seg[i].price == b.low)
      && b.low <= b.open <= b.high && b.low <= b.close <= b.high
    ensures RawMinuteBar(seg) == DeltaMinuteBar(seg).(volume := seg[0].volume,
                                                      openInterest := seg[0].openInterest)
  {
    MaxOfIsMaximum(Prices(seg));
    MinOfIsMinimum(Prices(seg));
    assert seg[|seg| - 1].price == Prices(seg)[|seg| - 1];
  }

  lemma PricesSnoc(seg: seq<Tick>, t: Tick)
    ensures Prices(seg + [t]) == Prices(seg) + [t.price]
  {
    assert (seg + [t])[..|seg|] == seg;
  }

  /** Adding a tick of the same minute to a segment is one `Extend` step. */
  lemma ExtendIsSnoc(seg: seq<Tick>, t: Tick)
    requires |seg| > 0
    ensures RawMinuteBar(seg + [t]) == Extend(RawMinuteBar(seg), t)
    ensures DeltaMinuteBar(seg + [t]) ==
              Extend(DeltaMinuteBar(seg), t).(volume := t.volume - seg[0].volume,
                                               openInterest := t.openInterest)
  {
    PricesSnoc(seg, t);
    SnocFolds(Prices(seg), t.price);
    assert (seg + [t])[0] == seg[0];
  }

  lemma FreshIsSingleton(t: Tick)
    ensures RawMinuteBar([t]) == Fresh(t) && DeltaMinuteBar([t]) == Fresh(t)
  {
    assert Prices([t]) == [t.price];
  }

  /** The raw assembler agrees with the reference on the segments so far. */
  predicate RawMatches(r: Run<Option<Bar>>, segs: seq<seq<Tick>>)
    requires NonEmpty(segs) && |segs| > 0
  {
    r.state == Some(RawMinuteBar(Last(segs))) && r.bars == RawBars(segs[..|segs| - 1])
  }

  lemma RawRunSnoc(open: Option<Bar>, ts: seq<Tick>, t: Tick)
    ensures var r := RawRun(open, ts);
      var s := RawStep(r.state, t);
      RawRun(open, ts + [t]) == Run(s.next, r.bars + ToSeq(s.emitted))
  {
    assert (ts + [t])[..|ts|] == ts;
  }

  /** One more tick keeps the raw assembler in step with the reference. */
  lemma RawPlace(r: Run<Option<Bar>>, segs: seq<seq<Tick>>, t: Tick)
    requires NonEmpty(segs) && |segs| > 0 && RawMatches(r, segs)
    ensures var s := RawStep(r.state, t);
      RawMatches(Run(s.next, r.bars + ToSeq(s.emitted)), Place(segs, t))
  {
    var segs' := Place(segs, t);
    if t.minute == Last(segs)[0].minute {
      ExtendIsSnoc(Last(segs), t);
      assert segs'[..|segs'| - 1] == segs[..|segs| - 1];
    } else {
      FreshIsSingleton(t);
      assert segs'[..|segs'| - 1] == segs;
      assert segs[..|segs| - 1] + [Last(segs)] == segs;
    }
  }

  lemma RawRunSingle(t: Tick)
    ensures RawMatches(RawRun(None, [t]), Segments([t]))
  {
    assert [t][..0] == [];
    assert Segments([t]) == [[t]];
    FreshIsSingleton(t);
    assert [[t]][..0] == [];
  }

  lemma RawMatchesSnoc(ts: seq<Tick>, t: Tick)
    requires |ts| > 0 && RawMatches(RawRun(None, ts), Segments(ts))
    ensures RawMatches(RawRun(None, ts + [t]), Segments(ts + [t]))
  {
    RawRunSnoc(None, ts, t);
    SegmentsSnoc(ts, t);
    RawPlace(RawRun(None, ts), Segments(ts), t);
  }

  lemma {:induction false} RawRunMatches(ts: seq<Tick>)
    requires |ts| > 0
    ensures RawMatches(RawRun(None, ts), Segments(ts))
    decreases |ts|
  {
    var init := ts[..|ts| - 1];
    assert init + [Last(ts)] == ts;
    if |init| == 0 {
      RawRunSingle(Last(ts));
    } else {
      RawRunMatches(init);
      RawMatchesSnoc(init, Last(ts));
    }
  }

  /** Raw-volume assembly from the start equals the reference: every completed
      minute is pushed as its segment bar, and the open bar is the current
      minute's segment bar. */
  lemma {:induction false} RawRunIsSegmentBars(ts: seq<Tick>)
    ensures var r := RawRun(None, ts);
      var segs := Segments(ts);
      && (|ts| == 0 ==> r.state.None? && r.bars == [])
      && (|ts| > 0 ==> r.state == Some(RawMinuteBar(Last(segs)))
                       && r.bars == RawBars(segs[..|segs| - 1]))
  {
    if |ts| > 0 {
      RawRunMatches(ts);
    }
  }

  lemma AnyMultiSnocSingle(segs: seq<seq<Tick>>, t: Tick)
    ensures AnyMulti(segs + [[t]]) <==> AnyMulti(segs)
  {
    if AnyMulti(segs + [[t]]) {
      var j :| 0 <= j < |segs| + 1 && |(segs + [[t]])[j]| > 1;
      assert j < |segs| && |segs[j]| > 1;
    }
    if AnyMulti(segs) {
      var j :| 0 <= j < |segs| && |segs[j]| > 1;
      assert |(segs + [[t]])[j]| > 1;
    }
  }

  /** The delta assembler agrees with the reference on the segments so far. */
  predicate DeltaMatches(r: Run<Assembler>, segs: seq<seq<Tick>>)
    requires NonEmpty(segs) && |segs| > 0
  {
    && r.state.bar == Some(DeltaMinuteBar(Last(segs)))
    && r.state.preBarVolume == Last(segs)[0].volume
    && (r.state.volumeEstablished <==> AnyMulti(segs))
    && r.bars == EstablishedBars(segs[..|segs| - 1])
  }

  lemma DeltaRunSnoc(a: Assembler, ts: seq<Tick>, t: Tick)
    ensures var r := DeltaRun(a, ts);
      var s := DeltaStep(r.state, t);
      DeltaRun(a, ts + [t]) == Run(s.next, r.bars + ToSeq(s.emitted))
  {
    assert (ts + [t])[..|ts|] == ts;
  }

  /** A tick of the open minute extends the last segment. */
  lemma DeltaSameMinute(r: Run<Assembler>, segs: seq<seq<Tick>>, t: Tick)
    requires NonEmpty(segs) && |segs| > 0 && DeltaMatches(r, segs)
    requires t.minute == Last(segs)[0].minute
    ensures var s := DeltaStep(r.state, t);
      DeltaMatches(Run(s.next, r.bars + ToSeq(s.emitted)), Place(segs, t))
  {
    ExtendIsSnoc(Last(segs), t);
    var segs' := Place(segs, t);
    assert segs'[..|segs'| - 1] == segs[..|segs| - 1];
    assert |segs'[|segs'| - 1]| > 1;
  }

  /** A tick of a new minute opens a new segment and pushes the last one. */
  lemma DeltaNewMinute(r: Run<Assembler>, segs: seq<seq<Tick>>, t: Tick)
    requires NonEmpty(segs) && |segs| > 0 && DeltaMatches(r, segs)
    requires t.minute != Last(segs)[0].minute
    ensures var s := DeltaStep(r.state, t);
      DeltaMatches(Run(s.next, r.bars + ToSeq(s.emitted)), Place(segs, t))
  {
    FreshIsSingleton(t);
    var segs' := Place(segs, t);
    assert segs'[..|segs'| - 1] == segs;
    AnyMultiSnocSingle(segs, t);
    assert segs[..|segs| - 1] + [Last(segs)] == segs;
  }

  lemma DeltaRunSingle(pre: int, t: Tick)
    ensures DeltaMatches(DeltaRun(Init(pre), [t]), Segments([t]))
  {
    assert [t][..0] == [];
    assert Segments([t]) == [[t]];
    FreshIsSingleton(t);
    assert [[t]][..0] == [];
    assert !AnyMulti([[t]]);
  }

  /** One more tick keeps the delta assembler in step with the reference. */
  lemma DeltaPlace(r: Run<Assembler>, segs: seq<seq<Tick>>, t: Tick)
    requires NonEmpty(segs) && |segs| > 0 && DeltaMatches(r, segs)
    ensures var s := DeltaStep(r.state, t);
      DeltaMatches(Run(s.next, r.bars + ToSeq(s.emitted)), Place(segs, t))
  {
    if t.minute == Last(segs)[0].minute {
      DeltaSameMinute(r, segs, t);
    } else {
      DeltaNewMinute(r, segs, t);
    }
  }

  lemma DeltaMatchesSnoc(pre: int, ts: seq<Tick>, t: Tick)
    requires |ts| > 0 && DeltaMatches(DeltaRun(Init(pre), ts), Segments(ts))
    ensures DeltaMatches(DeltaRun(Init(pre), ts + [t]), Segments(ts + [t]))
  {
    DeltaRunSnoc(Init(pre), ts, t);
    SegmentsSnoc(ts, t);
    DeltaPlace(DeltaRun(Init(pre), ts), Segments(ts), t);
  }

  lemma {:induction false} DeltaRunMatches(pre: int, ts: seq<Tick>)
    requires |ts| > 0
    ensures DeltaMatches(DeltaRun(Init(pre), ts), Segments(ts))
    decreases |ts|
  {
    var init := ts[..|ts| - 1];
    assert init + [Last(ts)] == ts;
    if |init| == 0 {
      DeltaRunSingle(pre, Last(ts));
    } else {
      DeltaRunMatches(pre, init);
      DeltaMatchesSnoc(pre, init, Last(ts));
    }
  }

  /** Delta-volume assembly from a fresh assembler equals the reference: the
      completed minutes pushed downstream are exactly `EstablishedBars`, the
      open bar is the current minute's segment bar, and the flag says whether
      any minute so far had two ticks.  The class default of `preBarVolume`
      does not appear on the right: it is never read. */
  lemma DeltaRunIsSegmentBars(pre: int, ts: seq<Tick>)
    ensures var r := DeltaRun(Init(pre), ts);
      var segs := Segments(ts);
      && (|ts| == 0 ==> r == Run(Init(pre), []))
      && (|ts| > 0 ==> && r.state.bar == Some(DeltaMinuteBar(Last(segs)))
                       && r.state.preBarVolume == Last(segs)[0].volume
                       && (r.state.volumeEstablished <==> AnyMulti(segs))
                       && r.bars == EstablishedBars(segs[..|segs| - 1]))
  {
    if |ts| > 0 {
      DeltaRunMatches(pre, ts);
    }
  }

  /** The class default of `preBarVolume` (0 or -100) never shows in any output. */
  lemma {:induction false} InitialVolumeIrrelevant(p: int, q: int, ts: seq<Tick>)
    requires |ts| > 0
    ensures DeltaRun(Init(p), ts).bars == DeltaRun(Init(q), ts).bars
    ensures DeltaRun(Init(p), ts).state == DeltaRun(Init(q), ts).state
  {
    DeltaRunIsSegmentBars(p, ts);
    DeltaRunIsSegmentBars(q, ts);
  }

  /** What a run of same-minute ticks after a minute change leaves behind,
      starting from assembler `a`. */
  predicate DeltaWithin(a: Assembler, r: Run<Assembler>, ts: seq<Tick>)
    requires |ts| > 0
  {
    && r.state.bar == Some(DeltaMinuteBar(ts))
    && r.state.preBarVolume == ts[0].volume
    && r.bars == (if a.bar.Some? && a.volumeEstablished then [a.bar.value] else [])
    && (r.state.volumeEstablished <==> a.volumeEstablished || |ts| > 1)
  }

  lemma DeltaWithinStep(a: Assembler, r: Run<Assembler>, ts: seq<Tick>, t: Tick)
    requires |ts| > 0 && DeltaWithin(a, r, ts) && t.minute == ts[0].minute
    ensures var s := DeltaStep(r.state, t);
      DeltaWithin(a, Run(s.next, r.bars + ToSeq(s.emitted)), ts + [t])
  {
    ExtendIsSnoc(ts, t);
    assert (ts + [t])[0] == ts[0];
  }

  /** Ticks of one minute arriving after a minute change, from any state:
      the open bar summarises exactly those ticks, the previous bar is pushed
      once (if the flag allows it), and the flag is set iff it was set or the
      minute had a second tick. */
  lemma {:induction false} DeltaWithinMinute(a: Assembler, ts: seq<Tick>)
    requires |ts| > 0 && NewMinute(a.bar, ts[0]) && SameMinute(ts)
    ensures var r := DeltaRun(a, ts);
      && r.state.bar == Some(DeltaMinuteBar(ts))
      && r.state.preBarVolume == ts[0].volume
      && r.bars == (if a.bar.Some? && a.volumeEstablished then [a.bar.value] else [])
      && (r.state.volumeEstablished <==> a.volumeEstablished || |ts| > 1)
    decreases |ts|
  {
    var init := ts[..|ts| - 1];
    var t := Last(ts);
    assert init + [t] == ts;
    DeltaRunSnoc(a, init, t);
    if |init| == 0 {
      assert DeltaRun(a, init) == Run(a, []);
      FreshIsSingleton(t);
    } else {
      assert SameMinute(init) && init[0] == ts[0];
      DeltaWithinMinute(a, init);
      DeltaWithinStep(a, DeltaRun(a, init), init, t);
    }
    assert DeltaWithin(a, DeltaRun(a, ts), ts);
  }

  predicate RawWithin(open: Option<Bar>, r: Run<Option<Bar>>, ts: seq<Tick>)
    requires |ts| > 0
  {
    r.state == Some(RawMinuteBar(ts)) && r.bars == ToSeq(open)
  }

  lemma RawWithinStep(open: Option<Bar>, r: Run<Option<Bar>>, ts: seq<Tick>, t: Tick)
    requires |ts| > 0 && RawWithin(open, r, ts) && t.minute == ts[0].minute
    ensures var s := RawStep(r.state, t);
      RawWithin(open, Run(s.next, r.bars + ToSeq(s.emitted)), ts + [t])
  {
    ExtendIsSnoc(ts, t);
    assert (ts + [t])[0] == ts[0];
  }

  lemma RawWithinFirst(open: Option<Bar>, t: Tick)
    requires NewMinute(open, t)
    ensures RawWithin(open, RawRun(open, [t]), [t])
  {
    RawRunSnoc(open, [], t);
    assert [] + [t] == [t];
    FreshIsSingleton(t);
  }

  lemma {:induction false} RawWithinMinute(open: Option<Bar>, ts: seq<Tick>)
    requires |ts| > 0 && NewMinute(open, ts[0]) && SameMinute(ts)
    ensures var r := RawRun(open, ts);
      r.state == Some(RawMinuteBar(ts)) && r.bars == ToSeq(open)
    decreases |ts|
  {
    var init := ts[..|ts| - 1];
    var t := Last(ts);
    assert init + [t] == ts;
    if |init| == 0 {
      assert ts == [t];
      RawWithinFirst(open, t);
    } else {
      assert SameMinute(init) && init[0] == ts[0];
      RawWithinMinute(open, init);
      RawRunSnoc(open, init, t);
      RawWithinStep(open, RawRun(open, init), init, t);
    }
    assert RawWithin(open, RawRun(open, ts), ts);
  }
}
