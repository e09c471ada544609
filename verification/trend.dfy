/** The long-cycle trend flag of strategyMes.py and strategyHbRemodi.py: an
    LLT (low-lag trend) series kept in a shift buffer and, after its own
    warm-up, a three-valued flag chosen by priority.  The LLT values and the
    moving-average comparison are indicator inputs. */
module Trend {
  import opened Series
  import opened ShiftBuffer

  /** 1 when the short moving average is above the long one; otherwise -1 when
      the LLT just fell; otherwise 0. */
  function TrendFlag(maLong: bool, lltShort: bool): (f: int)
    ensures -1 <= f <= 1
    ensures f == 1 <==> maLong
    ensures f == -1 <==> !maLong && lltShort
  {
    if maLong then 1 else if lltShort then -1 else 0
  }

  datatype Cycle = Cycle(llt: seq<real>, count: nat, flag: int)

  function InitCycle(capacity: nat): (c: Cycle)
    ensures |c.llt| == capacity && c.count == 0 && c.flag == 0
  {
    Cycle(Zeros(capacity), 0, 0)
  }

  /** One long-cycle bar: shift the new LLT value in, count it, and from the
      capacity-th bar on recompute the flag from the last two LLT values. */
  function CycleStep(c: Cycle, capacity: nat, lltValue: real, maLong: bool): (r: Cycle)
    requires |c.llt| >= 2
    ensures |r.llt| == |c.llt| && Last(r.llt) == lltValue
    ensures forall i :: 0 <= i < |c.llt| - 1 ==> r.llt[i] == c.llt[i + 1]
    ensures r.count == c.count + 1
    ensures r.count < capacity ==> r.flag == c.flag
    // the new value is compared with the one it displaced from the end
    ensures r.count >= capacity ==> r.flag == TrendFlag(maLong, lltValue < Last(c.llt))
  {
    var llt := Push(c.llt, lltValue);
    var count := c.count + 1;
    if count < capacity then Cycle(llt, count, c.flag)
    else Cycle(llt, count, TrendFlag(maLong, llt[|llt| - 1] < llt[|llt| - 2]))
  }

  /** One long-cycle bar's indicator readings. */
  datatype Reading = Reading(llt: real, maLong: bool)

  function CycleRun(c: Cycle, capacity: nat, rs: seq<Reading>): (r: Cycle)
    requires |c.llt| >= 2
    ensures |r.llt| == |c.llt|
    decreases |rs|
  {
    if |rs| == 0 then c
    else CycleStep(CycleRun(c, capacity, rs[..|rs| - 1]), capacity, Last(rs).llt, Last(rs).maLong)
  }

  /** From the initial state: the flag stays 0 for the first capacity - 1
      long-cycle bars; from then on it is decided by the last bar's moving
      average comparison and its LLT against the previous bar's. */
  lemma {:induction false} FlagAfterWarmUp(capacity: nat, rs: seq<Reading>)
    requires capacity >= 2
    ensures CycleRun(InitCycle(capacity), capacity, rs).count == |rs|
    ensures |rs| < capacity ==> CycleRun(InitCycle(capacity), capacity, rs).flag == 0
    ensures |rs| >= capacity ==>
      CycleRun(InitCycle(capacity), capacity, rs).flag
        == TrendFlag(rs[|rs| - 1].maLong, rs[|rs| - 1].llt < rs[|rs| - 2].llt)
    decreases |rs|
  {
    if |rs| > 0 {
      var init := rs[..|rs| - 1];
      FlagAfterWarmUp(capacity, init);
      var prev := CycleRun(InitCycle(capacity), capacity, init);
      if |rs| >= capacity {
        assert Last(prev.llt) == init[|init| - 1].llt == rs[|rs| - 2].llt;
      }
    }
  }

  /** The flag is always one of -1, 0 and 1. */
  lemma {:induction false} FlagInRange(c: Cycle, capacity: nat, rs: seq<Reading>)
    requires |c.llt| >= 2 && -1 <= c.flag <= 1
    ensures -1 <= CycleRun(c, capacity, rs).flag <= 1
    decreases |rs|
  {
    if |rs| > 0 {
      FlagInRange(c, capacity, rs[..|rs| - 1]);
    }
  }
}
