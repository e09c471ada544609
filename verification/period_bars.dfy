/** Sub-bar -> period-bar aggregation (`onBar`, and the 15-minute fold of
    `onFiveBar` in strategyMes.py).

    An open period bar folds each sub-bar in with high = max, low = min,
    close = latest, volume += and open interest = latest.  A sub-bar whose
    minute satisfies the period's closing rule is folded in and the period
    bar is pushed downstream; if no period bar is open, that sub-bar is
    dropped.  strategyMes.py and strategyFiveminCta.py additionally keep the
    per-sub-bar volume list and an open-interest list seeded with the last
    open interest of the previous emitted period. */
module PeriodBars {
  import opened Wrappers
  import opened Market
  import opened Series

  type Positive = n: int | n > 0 witness 1

  /** A period closes on a sub-bar whose minute m has (m + offset) % length == 0.
      With a positive modulus Python's `%` and Dafny's agree on every int. */
  datatype CloseRule = CloseRule(offset: int, length: Positive)

  /** `(bar.datetime.minute + 1) % barBin == 0`, barBin = 5 (Mes, Cta). */
  const FiveMinuteLate := CloseRule(1, 5)
  /** `bar.datetime.minute % barBin == 0`, barBin = 5 (Atr). */
  const FiveMinuteOnTheMark := CloseRule(0, 5)
  /** `(bar.datetime.minute + 1 * barBin) % barLongBin == 0`, on 5-minute bars (Mes). */
  const FifteenMinute := CloseRule(5, 15)

  predicate Closes(rule: CloseRule, minute: int)
  {
    (minute + rule.offset) % rule.length == 0
  }

  /** Fold one sub-bar into an open period bar. */
  function Merge(acc: Bar, b: Bar): Bar
  {
    acc.(high := Max(acc.high, b.high), low := Min(acc.low, b.low), close := b.close,
         volume := acc.volume + b.volume, openInterest := b.openInterest)
  }

  datatype Step<S, O> = Step(next: S, emitted: Option<O>)

  /** Aggregation without sub-bar lists (Atr 5-minute, Mes 15-minute). */
  function PlainStep(rule: CloseRule, open: Option<Bar>, b: Bar): (r: Step<Option<Bar>, Bar>)
    // a period bar is pushed exactly when a closing sub-bar finds one open
    ensures r.emitted.Some? <==> Closes(rule, b.minute) && open.Some?
    ensures Closes(rule, b.minute) <==> r.next.None?
    // the period keeps the time and open of the sub-bar that started it
    ensures r.next.Some? ==> r.next.value.time == (if open.Some? then open.value.time else b.time)
    ensures r.emitted.Some? ==> r.emitted.value.time == open.value.time
                                && r.emitted.value.close == b.close
  {
    if Closes(rule, b.minute) then
      Step(None, if open.Some? then Some(Merge(open.value, b)) else None)
    else
      Step(Some(if open.Some? then Merge(open.value, b) else b), None)
  }

  /** A period bar with the volume and open-interest lists of its sub-bars. */
  datatype FiveBar = FiveBar(bar: Bar, volumeList: seq<int>, openInterestList: seq<int>)

  /** List-keeping aggregator state: the open period bar and `preBarOpenInterest`. */
  datatype ListAgg = ListAgg(open: Option<FiveBar>, preBarOpenInterest: int)

  function Append(fb: FiveBar, b: Bar): FiveBar
  {
    FiveBar(Merge(fb.bar, b), fb.volumeList + [b.volume], fb.openInterestList + [b.openInterest])
  }

  /** An emitted or open list bar is consistent with the seed it was opened
      with: one more open interest than volumes, the seed first, the bar's
      volume the sum of the volume list and its open interest the last one. */
  predicate Consistent(fb: FiveBar, seed: int)
  {
    && |fb.volumeList| >= 1
    && |fb.openInterestList| == |fb.volumeList| + 1
    && fb.openInterestList[0] == seed
    && fb.bar.volume == SumOf(fb.volumeList)
    && Last(fb.openInterestList) == fb.bar.openInterest
  }

  /** While a bar is open, `preBarOpenInterest` is still its seed. */
  predicate Wf(s: ListAgg)
  {
    s.open.Some? ==> Consistent(s.open.value, s.preBarOpenInterest)
  }

  function BarOf(o: Option<FiveBar>): Option<Bar>
  {
    if o.Some? then Some(o.value.bar) else None
  }

  /** `onBar` of strategyMes.py / strategyFiveminCta.py. */
  function ListStep(rule: CloseRule, s: ListAgg, b: Bar): (r: Step<ListAgg, FiveBar>)
    // the OHLCV part is exactly the plain fold
    ensures PlainStep(rule, BarOf(s.open), b) == Step(BarOf(r.next.open), BarOf(r.emitted))
    // the seed moves to the closing sub-bar's open interest on emission only
    ensures r.next.preBarOpenInterest ==
              (if r.emitted.Some? then b.openInterest else s.preBarOpenInterest)
    ensures Wf(s) ==> Wf(r.next)
    ensures Wf(s) && r.emitted.Some? ==> Consistent(r.emitted.value, s.preBarOpenInterest)
  {
    if Closes(rule, b.minute) then
      if s.open.Some? then Step(ListAgg(None, b.openInterest), Some(Append(s.open.value, b)))
      else Step(s, None)
    else if s.open.Some? then
      Step(s.(open := Some(Append(s.open.value, b))), None)
    else
      Step(s.(open := Some(FiveBar(b, [b.volume], [s.preBarOpenInterest, b.openInterest]))), None)
  }

  datatype Run<S, O> = Run(state: S, bars: seq<O>)

  function PlainRun(rule: CloseRule, open: Option<Bar>, subs: seq<Bar>): Run<Option<Bar>, Bar>
    decreases |subs|
  {
    if |subs| == 0 then Run(open, [])
    else
      var r := PlainRun(rule, open, subs[..|subs| - 1]);
      var s := PlainStep(rule, r.state, Last(subs));
      Run(s.next, r.bars + ToSeq(s.emitted))
  }

  function ListRun(rule: CloseRule, s: ListAgg, subs: seq<Bar>): Run<ListAgg, FiveBar>
    decreases |subs|
  {
    if |subs| == 0 then Run(s, [])
    else
      var r := ListRun(rule, s, subs[..|subs| - 1]);
      var st := ListStep(rule, r.state, Last(subs));
      Run(st.next, r.bars + ToSeq(st.emitted))
  }

  // ---------------------------------------------------------------------
  // Reference: collect the sub-bars of each period first, fold them after.

  function Highs(bs: seq<Bar>): seq<real> { seq(|bs|, i requires 0 <= i < |bs| => bs[i].high) }
  function Lows(bs: seq<Bar>): seq<real> { seq(|bs|, i requires 0 <= i < |bs| => bs[i].low) }
  function Volumes(bs: seq<Bar>): seq<int> { seq(|bs|, i requires 0 <= i < |bs| => bs[i].volume) }
  function OpenInterests(bs: seq<Bar>): seq<int>
  {
    seq(|bs|, i requires 0 <= i < |bs| => bs[i].openInterest)
  }

  /** The period bar of a whole group of sub-bars computed in one go. */
  function Aggregate(subs: seq<Bar>): Bar
    requires |subs| > 0
  {
    Bar(subs[0].time, subs[0].minute, subs[0].open, MaxOf(Highs(subs)), MinOf(Lows(subs)),
        Last(subs).close, SumOf(Volumes(subs)), Last(subs).openInterest)
  }

  /** Completed groups (each ended by a closing sub-bar) and the pending one. */
  datatype Grouping = Grouping(done: seq<seq<Bar>>, pending: seq<Bar>)

  predicate NonEmpty(groups: seq<seq<Bar>>)
  {
    forall i :: 0 <= i < |groups| ==> |groups[i]| > 0
  }

  /** Every completed group holds at least its opening and its closing sub-bar. */
  predicate Complete(groups: seq<seq<Bar>>)
  {
    forall i :: 0 <= i < |groups| ==> |groups[i]| >= 2
  }

  function Groups(rule: CloseRule, subs: seq<Bar>): (g: Grouping)
    ensures Complete(g.done)
    decreases |subs|
  {
    if |subs| == 0 then Grouping([], []) else Collect(rule, Groups(rule, subs[..|subs| - 1]), Last(subs))
  }

  /** One more sub-bar: a non-closing one joins the pending group; a closing
      one completes the pending group, or is dropped when nothing is pending. */
  function Collect(rule: CloseRule, g: Grouping, b: Bar): (g': Grouping)
    requires Complete(g.done)
    ensures Complete(g'.done)
  {
    if !Closes(rule, b.minute) then Grouping(g.done, g.pending + [b])
    else if |g.pending| > 0 then Grouping(g.done + [g.pending + [b]], [])
    else Grouping(g.done, [])
  }

  lemma GroupsSnoc(rule: CloseRule, subs: seq<Bar>, b: Bar)
    ensures Groups(rule, subs + [b]) == Collect(rule, Groups(rule, subs), b)
  {
    assert (subs + [b])[..|subs|] == subs;
  }

  predicate Periods(rule: CloseRule, g: Grouping)
  {
    && (forall i, j :: 0 <= i < |g.done| && 0 <= j < |g.done[i]| ==>
          (Closes(rule, g.done[i][j].minute) <==> j == |g.done[i]| - 1))
    && (forall j :: 0 <= j < |g.pending| ==> !Closes(rule, g.pending[j].minute))
  }

  lemma CollectKeepsPeriods(rule: CloseRule, g: Grouping, b: Bar)
    requires Complete(g.done) && Periods(rule, g)
    ensures Periods(rule, Collect(rule, g, b))
  {
    if !Closes(rule, b.minute) {
      var p: seq<Bar> := g.pending + [b];
      forall j | 0 <= j < |p| ensures !Closes(rule, p[j].minute) {
        if j < |g.pending| {
          assert p[j] == g.pending[j];
        }
      }
    } else if |g.pending| > 0 {
      var p: seq<Bar> := g.pending + [b];
      var done: seq<seq<Bar>> := g.done + [p];
      forall i, j | 0 <= i < |done| && 0 <= j < |done[i]|
        ensures Closes(rule, done[i][j].minute) <==> j == |done[i]| - 1
      {
        if i < |g.done| {
          assert done[i] == g.done[i];
        } else if j < |g.pending| {
          assert done[i][j] == g.pending[j];
        } else {
          assert done[i][j] == b;
        }
      }
    }
  }

  /** Every completed group is a period: only its last sub-bar closes; and no
      pending sub-bar closes. */
  lemma {:induction false} GroupsArePeriods(rule: CloseRule, subs: seq<Bar>)
    ensures Periods(rule, Groups(rule, subs))
    decreases |subs|
  {
    if |subs| > 0 {
      var init := subs[..|subs| - 1];
      assert init + [Last(subs)] == subs;
      GroupsArePeriods(rule, init);
      GroupsSnoc(rule, init, Last(subs));
      CollectKeepsPeriods(rule, Groups(rule, init), Last(subs));
    }
  }

  function AggBars(groups: seq<seq<Bar>>): seq<Bar>
    requires NonEmpty(groups)
  {
    if |groups| == 0 then [] else AggBars(groups[..|groups| - 1]) + [Aggregate(Last(groups))]
  }

  function SeedAfter(groups: seq<seq<Bar>>, seed: int): int
    requires NonEmpty(groups)
  {
    if |groups| == 0 then seed else Last(Last(groups)).openInterest
  }

  function ListBar(group: seq<Bar>, seed: int): FiveBar
    requires |group| > 0
  {
    FiveBar(Aggregate(group), Volumes(group), [seed] + OpenInterests(group))
  }

  /** Each group's list bar, seeded with the previous group's last open
      interest (the initial seed for the first group). */
  function ListBars(groups: seq<seq<Bar>>, seed: int): seq<FiveBar>
    requires NonEmpty(groups)
  {
    if |groups| == 0 then []
    else ListBars(groups[..|groups| - 1], seed)
         + [ListBar(Last(groups), SeedAfter(groups[..|groups| - 1], seed))]
  }

  lemma AggregateSingle(b: Bar)
    ensures Aggregate([b]) == b
  {
    assert Highs([b]) == [b.high];
    assert Lows([b]) == [b.low];
    assert Volumes([b]) == [b.volume];
    assert SumOf([b.volume]) == SumOf([]) + b.volume;
  }

  /** Folding one more sub-bar into a group is one `Merge` step. */
  lemma AggregateSnoc(ps: seq<Bar>, b: Bar)
    requires |ps| > 0
    ensures Aggregate(ps + [b]) == Merge(Aggregate(ps), b)
  {
    assert Highs(ps + [b]) == Highs(ps) + [b.high];
    assert Lows(ps + [b]) == Lows(ps) + [b.low];
    assert Volumes(ps + [b]) == Volumes(ps) + [b.volume];
    assert OpenInterests(ps + [b]) == OpenInterests(ps) + [b.openInterest];
    SnocFolds(Highs(ps), b.high);
    SnocFolds(Lows(ps), b.low);
    SnocSum(Volumes(ps), b.volume);
  }

  lemma ListBarSnoc(ps: seq<Bar>, b: Bar, seed: int)
    requires |ps| > 0
    ensures ListBar(ps + [b], seed) == Append(ListBar(ps, seed), b)
  {
    AggregateSnoc(ps, b);
    assert Volumes(ps + [b]) == Volumes(ps) + [b.volume];
    assert OpenInterests(ps + [b]) == OpenInterests(ps) + [b.openInterest];
    assert [seed] + OpenInterests(ps + [b]) == [seed] + OpenInterests(ps) + [b.openInterest];
  }

  lemma PlainRunSnoc(rule: CloseRule, open: Option<Bar>, subs: seq<Bar>, b: Bar)
    ensures var r := PlainRun(rule, open, subs);
      var s := PlainStep(rule, r.state, b);
      PlainRun(rule, open, subs + [b]) == Run(s.next, r.bars + ToSeq(s.emitted))
  {
    assert (subs + [b])[..|subs|] == subs;
  }

  /** The plain aggregator agrees with the reference grouping so far. */
  predicate PlainMatches(r: Run<Option<Bar>, Bar>, g: Grouping)
    requires Complete(g.done)
  {
    && r.state == (if |g.pending| == 0 then None else Some(Aggregate(g.pending)))
    && r.bars == AggBars(g.done)
  }

  lemma PlainCollect(rule: CloseRule, r: Run<Option<Bar>, Bar>, g: Grouping, b: Bar)
    requires Complete(g.done) && PlainMatches(r, g)
    ensures var s := PlainStep(rule, r.state, b);
      PlainMatches(Run(s.next, r.bars + ToSeq(s.emitted)), Collect(rule, g, b))
  {
    AggregateSingle(b);
    if |g.pending| > 0 {
      AggregateSnoc(g.pending, b);
      if Closes(rule, b.minute) {
        var done' := g.done + [g.pending + [b]];
        assert done'[..|done'| - 1] == g.done;
      }
    } else {
      assert g.pending + [b] == [b];
    }
  }

  lemma PlainMatchesSnoc(rule: CloseRule, subs: seq<Bar>, b: Bar)
    requires PlainMatches(PlainRun(rule, None, subs), Groups(rule, subs))
    ensures PlainMatches(PlainRun(rule, None, subs + [b]), Groups(rule, subs + [b]))
  {
    PlainRunSnoc(rule, None, subs, b);
    GroupsSnoc(rule, subs, b);
    PlainCollect(rule, PlainRun(rule, None, subs), Groups(rule, subs), b);
  }

  /** Incremental aggregation equals collect-then-fold, over any stream of
      sub-bars from no open period. */
  lemma {:induction false} PlainRunIsGroups(rule: CloseRule, subs: seq<Bar>)
    ensures var r := PlainRun(rule, None, subs);
      var g := Groups(rule, subs);
      && r.state == (if |g.pending| == 0 then None else Some(Aggregate(g.pending)))
      && r.bars == AggBars(g.done)
    decreases |subs|
  {
    if |subs| > 0 {
      var init := subs[..|subs| - 1];
      assert init + [Last(subs)] == subs;
      PlainRunIsGroups(rule, init);
      PlainMatchesSnoc(rule, init, Last(subs));
    }
  }

  predicate ListMatches(r: Run<ListAgg, FiveBar>, g: Grouping, seed: int)
    requires Complete(g.done)
  {
    && r.state.preBarOpenInterest == SeedAfter(g.done, seed)
    && r.state.open == (if |g.pending| == 0 then None
                        else Some(ListBar(g.pending, SeedAfter(g.done, seed))))
    && r.bars == ListBars(g.done, seed)
  }

  lemma ListRunSnoc(rule: CloseRule, s: ListAgg, subs: seq<Bar>, b: Bar)
    ensures var r := ListRun(rule, s, subs);
      var st := ListStep(rule, r.state, b);
      ListRun(rule, s, subs + [b]) == Run(st.next, r.bars + ToSeq(st.emitted))
  {
    assert (subs + [b])[..|subs|] == subs;
  }

  /** With nothing pending, a non-closing sub-bar opens a list bar seeded with
      the current seed, and a closing one is dropped. */
  lemma ListCollectFresh(rule: CloseRule, seed: int, r: Run<ListAgg, FiveBar>, g: Grouping, b: Bar)
    requires Complete(g.done) && ListMatches(r, g, seed) && |g.pending| == 0
    ensures var st := ListStep(rule, r.state, b);
      ListMatches(Run(st.next, r.bars + ToSeq(st.emitted)), Collect(rule, g, b), seed)
  {
    AggregateSingle(b);
    var sd := SeedAfter(g.done, seed);
    assert Volumes([b]) == [b.volume];
    assert OpenInterests([b]) == [b.openInterest];
    assert ListBar([b], sd) == FiveBar(b, [b.volume], [sd, b.openInterest]);
    assert g.pending + [b] == [b];
  }

  /** A closing sub-bar completes the pending group and emits its list bar. */
  lemma ListCollectClose(rule: CloseRule, seed: int, r: Run<ListAgg, FiveBar>, g: Grouping, b: Bar)
    requires Complete(g.done) && ListMatches(r, g, seed) && |g.pending| > 0
    requires Closes(rule, b.minute)
    ensures var st := ListStep(rule, r.state, b);
      ListMatches(Run(st.next, r.bars + ToSeq(st.emitted)), Collect(rule, g, b), seed)
  {
    ListBarSnoc(g.pending, b, SeedAfter(g.done, seed));
    var done' := g.done + [g.pending + [b]];
    assert done'[..|done'| - 1] == g.done;
  }

  /** A non-closing sub-bar joins the pending group's list bar. */
  lemma ListCollectExtend(rule: CloseRule, seed: int, r: Run<ListAgg, FiveBar>, g: Grouping, b: Bar)
    requires Complete(g.done) && ListMatches(r, g, seed) && |g.pending| > 0
    requires !Closes(rule, b.minute)
    ensures var st := ListStep(rule, r.state, b);
      ListMatches(Run(st.next, r.bars + ToSeq(st.emitted)), Collect(rule, g, b), seed)
  {
    ListBarSnoc(g.pending, b, SeedAfter(g.done, seed));
  }

  lemma ListCollect(rule: CloseRule, seed: int, r: Run<ListAgg, FiveBar>, g: Grouping, b: Bar)
    requires Complete(g.done) && ListMatches(r, g, seed)
    ensures var st := ListStep(rule, r.state, b);
      ListMatches(Run(st.next, r.bars + ToSeq(st.emitted)), Collect(rule, g, b), seed)
  {
    if |g.pending| == 0 {
      ListCollectFresh(rule, seed, r, g, b);
    } else if Closes(rule, b.minute) {
      ListCollectClose(rule, seed, r, g, b);
    } else {
      ListCollectExtend(rule, seed, r, g, b);
    }
  }

  lemma ListMatchesSnoc(rule: CloseRule, seed: int, subs: seq<Bar>, b: Bar)
    requires ListMatches(ListRun(rule, ListAgg(None, seed), subs), Groups(rule, subs), seed)
    ensures ListMatches(ListRun(rule, ListAgg(None, seed), subs + [b]), Groups(rule, subs + [b]), seed)
  {
    ListRunSnoc(rule, ListAgg(None, seed), subs, b);
    GroupsSnoc(rule, subs, b);
    ListCollect(rule, seed, ListRun(rule, ListAgg(None, seed), subs), Groups(rule, subs), b);
  }

  /** The same for the list-keeping aggregator: every emitted bar is its
      group's list bar with the chained seed, and `preBarOpenInterest` is
      the last open interest of the last emitted period. */
  lemma {:induction false} ListRunIsGroups(rule: CloseRule, seed: int, subs: seq<Bar>)
    ensures ListMatches(ListRun(rule, ListAgg(None, seed), subs), Groups(rule, subs), seed)
    decreases |subs|
  {
    if |subs| > 0 {
      var init := subs[..|subs| - 1];
      assert init + [Last(subs)] == subs;
      ListRunIsGroups(rule, seed, init);
      ListMatchesSnoc(rule, seed, init, Last(subs));
    }
  }

  /** The first bar is consistent with the initial seed and each later bar
      with the last open interest of the bar before it. */
  predicate Chained(fbs: seq<FiveBar>, seed: int)
  {
    && (|fbs| > 0 ==> Consistent(fbs[0], seed))
    && (forall i :: 0 <= i < |fbs| - 1 ==>
          |fbs[i].openInterestList| > 0 && Consistent(fbs[i + 1], Last(fbs[i].openInterestList)))
  }

  /** Every list bar the reference produces is consistent with its seed, and
      each seed is the last open interest of the previous bar's list. */
  lemma {:induction false} ListBarsConsistent(groups: seq<seq<Bar>>, seed: int)
    requires NonEmpty(groups)
    ensures |ListBars(groups, seed)| == |groups|
    ensures Chained(ListBars(groups, seed), seed)
    ensures |groups| > 0 ==>
              Last(Last(ListBars(groups, seed)).openInterestList) == SeedAfter(groups, seed)
    decreases |groups|
  {
    if |groups| > 0 {
      var init := groups[..|groups| - 1];
      ListBarsConsistent(init, seed);
      var l := Last(groups);
      var fb := ListBar(l, SeedAfter(init, seed));
      assert Consistent(fb, SeedAfter(init, seed)) by {
        assert Last(fb.openInterestList) == Last(l).openInterest;
      }
      var fbs := ListBars(groups, seed);
      assert fbs == ListBars(init, seed) + [fb];
    }
  }

  lemma {:induction false} PendingRun(rule: CloseRule, seed: int, ps: seq<Bar>)
    requires forall j :: 0 <= j < |ps| ==> !Closes(rule, ps[j].minute)
    ensures Groups(rule, ps) == Grouping([], ps)
    decreases |ps|
  {
    if |ps| > 0 {
      var init := ps[..|ps| - 1];
      assert init + [Last(ps)] == ps;
      PendingRun(rule, seed, init);
      GroupsSnoc(rule, init, Last(ps));
    }
  }

  /** One whole period from no open bar: sub-bars that do not close followed by
      one that does give exactly one emitted bar, the aggregate of all of
      them, with volume list the sub-volumes and open-interest list the seed
      followed by the sub-bars' open interests. */
  lemma OnePeriod(rule: CloseRule, seed: int, subs: seq<Bar>)
    requires |subs| >= 2 && Closes(rule, Last(subs).minute)
    requires forall j :: 0 <= j < |subs| - 1 ==> !Closes(rule, subs[j].minute)
    ensures PlainRun(rule, None, subs) == Run(None, [Aggregate(subs)])
    ensures ListRun(rule, ListAgg(None, seed), subs) ==
              Run(ListAgg(None, Last(subs).openInterest),
                  [FiveBar(Aggregate(subs), Volumes(subs), [seed] + OpenInterests(subs))])
  {
    var ps := subs[..|subs| - 1];
    PendingRun(rule, seed, ps);
    assert ps + [Last(subs)] == subs;
    assert Groups(rule, subs) == Grouping([subs], []);
    PlainRunIsGroups(rule, subs);
    ListRunIsGroups(rule, seed, subs);
    assert [subs][..0] == [];
    assert ListBars([subs], seed) == [ListBar(subs, seed)];
    assert AggBars([subs]) == [Aggregate(subs)];
  }
}
