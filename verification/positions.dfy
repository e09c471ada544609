/** The per-5-minute-bar order decision shared by every strategy: enter when
    flat, otherwise protect the open position with exactly one stop.  The
    entry conditions arrive already evaluated; `pos` is the engine's net
    position. */
module Positions {
  import opened Wrappers
  import opened Market
  import opened Series
  import opened Orders

  /** Entries are limit orders this far beyond the bar's close. */
  const EntryOffset: real := 5.0
  /** `fixedSize`: every entry is for one lot. */
  const FixedSize: nat := 1

  /** What the decision reads and writes besides the bar: the intra-trade
      extremes, the entry prices recorded at submission and the ids of the
      orders to withdraw at the next bar. */
  datatype Book = Book(intraTradeHigh: real, intraTradeLow: real, buyCost: seq<real>,
                       shortCost: seq<real>, orderList: seq<OrderId>)

  const EmptyBook := Book(0.0, 0.0, [], [], [])

  datatype Decision = Decision(book: Book, intents: seq<Intent>)

  /** Reading `buyCost[-1]` or `shortCost[-1]` of an empty list raises. */
  datatype Error = MissingCost

  /** A callback ended by an exception: its cause, and the requests the
      callback had already sent to the engine before it raised. */
  datatype Halt = Halt(cause: Error, issued: seq<Intent>)

  /** What a strategy callback leaves behind: the new state and the requests
      it sent to the engine, in order. */
  datatype Out<S> = Out(state: S, intents: seq<Intent>)

  /** The requests a run has sent to the engine, whether it ended normally
      or by an exception. */
  function Issued<S>(o: Result<Out<S>, Halt>): (r: seq<Intent>)
    ensures o.Success? ==> r == o.value.intents
    ensures o.Failure? ==> r == o.error.issued
  {
    if o.Success? then o.value.intents else o.error.issued
  }

  /** Trailing only (strategyMes.py, strategyHbRemodi.py), or a fixed
      cut-loss against the recorded entry price with a trailing stop
      otherwise (strategyFiveminCta.py, strategyFiveminAtr.py). */
  datatype ExitRule =
    | Trailing(trailingPrcnt: real)
    | CutLossOrTrailing(fixedCutLoss: real, trailingPrcnt: real)

  datatype Policy = Policy(exit: ExitRule, recordsCost: bool)

  function LongTrailingStop(intraTradeHigh: real, trailingPrcnt: real): real
  {
    intraTradeHigh * (1.0 - trailingPrcnt / 100.0)
  }

  function ShortTrailingStop(intraTradeLow: real, trailingPrcnt: real): real
  {
    intraTradeLow * (1.0 + trailingPrcnt / 100.0)
  }

  /** Long cut-loss trigger: strictly below the cost-based level. */
  predicate LongCutLossHit(close: real, cost: real, fixedCutLoss: real)
  {
    close < (1.0 - fixedCutLoss / 100.0) * cost
  }

  /** Short cut-loss trigger: at or above the cost-based level. */
  predicate ShortCutLossHit(close: real, cost: real, fixedCutLoss: real)
  {
    close >= (1.0 + fixedCutLoss / 100.0) * cost
  }

  predicate IsEntry(o: Intent)
  {
    o.Send? && !o.stop && o.volume == FixedSize && (o.direction == Buy || o.direction == Short)
  }

  /** Flat: reset the extremes to the bar and enter on the long side if its
      condition holds, otherwise on the short side. */
  function Enter(book: Book, bar: Bar, buy: bool, sell: bool, recordsCost: bool): (d: Decision)
    ensures d.book.intraTradeHigh == bar.high && d.book.intraTradeLow == bar.low
    ensures d.book.orderList == book.orderList
    ensures |d.intents| <= 1 && (|d.intents| == 1 <==> buy || sell)
    ensures forall i :: 0 <= i < |d.intents| ==> IsEntry(d.intents[i])
    ensures buy ==> d.intents == [Send(Buy, bar.close + EntryOffset, FixedSize, false)]
    ensures !buy && sell ==> d.intents == [Send(Short, bar.close - EntryOffset, FixedSize, false)]
    // with cost recording, the recorded cost is the submitted entry price
    ensures recordsCost && buy ==>
      d.book.buyCost == book.buyCost + [d.intents[0].price] && d.book.shortCost == book.shortCost
    ensures recordsCost && !buy && sell ==>
      d.book.shortCost == book.shortCost + [d.intents[0].price] && d.book.buyCost == book.buyCost
    ensures !recordsCost || !(buy || sell) ==>
      d.book.buyCost == book.buyCost && d.book.shortCost == book.shortCost
  {
    var reset := book.(intraTradeHigh := bar.high, intraTradeLow := bar.low);
    if buy then
      var price := bar.close + EntryOffset;
      Decision(if recordsCost then reset.(buyCost := reset.buyCost + [price]) else reset,
               [Send(Buy, price, FixedSize, false)])
    else if sell then
      var price := bar.close - EntryOffset;
      Decision(if recordsCost then reset.(shortCost := reset.shortCost + [price]) else reset,
               [Send(Short, price, FixedSize, false)])
    else
      Decision(reset, [])
  }

  /** Long: raise the intra-trade high, take the low from the bar, and send
      one sell stop for the whole position. */
  function ExitLong(rule: ExitRule, book: Book, bar: Bar, pos: int, stopId: OrderId)
    : (r: Result<Decision, Error>)
    requires pos > 0
    ensures r.Failure? <==> rule.CutLossOrTrailing? && |book.buyCost| == 0
    ensures r.Success? ==>
      var high := Max(book.intraTradeHigh, bar.high);
      r.value.book == book.(intraTradeHigh := high, intraTradeLow := bar.low,
                            orderList := book.orderList + [stopId])
      && |r.value.intents| == 1 && r.value.intents[0].Send? && r.value.intents[0].direction == Sell
      && r.value.intents[0].volume == pos && r.value.intents[0].stop
      && r.value.intents[0].price ==
           (if rule.CutLossOrTrailing? && LongCutLossHit(bar.close, Last(book.buyCost), rule.fixedCutLoss)
            then bar.close - EntryOffset
            else LongTrailingStop(high, rule.trailingPrcnt))
  {
    if rule.CutLossOrTrailing? && |book.buyCost| == 0 then Failure(MissingCost)
    else
      var high := Max(book.intraTradeHigh, bar.high);
      var price :=
        if rule.CutLossOrTrailing? && LongCutLossHit(bar.close, Last(book.buyCost), rule.fixedCutLoss)
        then bar.close - EntryOffset
        else LongTrailingStop(high, rule.trailingPrcnt);
      Success(Decision(book.(intraTradeHigh := high, intraTradeLow := bar.low,
                             orderList := book.orderList + [stopId]),
                       [Send(Sell, price, pos, true)]))
  }

  /** Short: lower the intra-trade low, take the high from the bar, and send
      one cover stop for the whole position. */
  function ExitShort(rule: ExitRule, book: Book, bar: Bar, pos: int, stopId: OrderId)
    : (r: Result<Decision, Error>)
    requires pos < 0
    ensures r.Failure? <==> rule.CutLossOrTrailing? && |book.shortCost| == 0
    ensures r.Success? ==>
      var low := Min(book.intraTradeLow, bar.low);
      r.value.book == book.(intraTradeHigh := bar.high, intraTradeLow := low,
                            orderList := book.orderList + [stopId])
      && |r.value.intents| == 1 && r.value.intents[0].Send? && r.value.intents[0].direction == Cover
      && r.value.intents[0].volume == -pos && r.value.intents[0].stop
      && r.value.intents[0].price ==
           (if rule.CutLossOrTrailing? && ShortCutLossHit(bar.close, Last(book.shortCost), rule.fixedCutLoss)
            then bar.close + EntryOffset
            else ShortTrailingStop(low, rule.trailingPrcnt))
  {
    if rule.CutLossOrTrailing? && |book.shortCost| == 0 then Failure(MissingCost)
    else
      var low := Min(book.intraTradeLow, bar.low);
      var price :=
        if rule.CutLossOrTrailing? && ShortCutLossHit(bar.close, Last(book.shortCost), rule.fixedCutLoss)
        then bar.close + EntryOffset
        else ShortTrailingStop(low, rule.trailingPrcnt);
      Success(Decision(book.(intraTradeHigh := bar.high, intraTradeLow := low,
                             orderList := book.orderList + [stopId]),
                       [Send(Cover, price, -pos, true)]))
  }

  /** The whole decision on one 5-minute bar, after warm-up. */
  function Decide(policy: Policy, book: Book, bar: Bar, pos: int, buy: bool, sell: bool,
                  stopId: OrderId): (r: Result<Decision, Error>)
    // a trailing-only rule never reads the recorded cost, so it cannot fail
    ensures policy.exit.Trailing? ==> r.Success?
    ensures r.Failure? <==>
      pos != 0 && policy.exit.CutLossOrTrailing?
      && |if pos > 0 then book.buyCost else book.shortCost| == 0
    // flat: at most one entry, nothing tracked for cancellation
    ensures r.Success? && pos == 0 ==>
      |r.value.intents| <= 1 && (forall i :: 0 <= i < |r.value.intents| ==> IsEntry(r.value.intents[i]))
      && r.value.book.orderList == book.orderList
    // in a position: exactly one stop, for the whole position, which flattens it
    // when filled, tracked for cancellation at the next bar
    ensures r.Success? && pos != 0 ==>
      |r.value.intents| == 1 && r.value.intents[0].Send? && r.value.intents[0].stop
      && r.value.intents[0].volume == Abs(pos) && Filled(pos, r.value.intents[0]) == 0
      && r.value.book.orderList == book.orderList + [stopId]
  {
    if pos == 0 then Success(Enter(book, bar, buy, sell, policy.recordsCost))
    else if pos > 0 then ExitLong(policy.exit, book, bar, pos, stopId)
    else ExitShort(policy.exit, book, bar, pos, stopId)
  }

  /** Which way the decision trades: a buy only when flat with the long
      condition, a short only when flat with the short condition and not the
      long one, a sell only when long and a cover only when short. */
  lemma DecisionDirections(policy: Policy, book: Book, bar: Bar, pos: int, buy: bool, sell: bool,
                           stopId: OrderId)
    requires Decide(policy, book, bar, pos, buy, sell, stopId).Success?
    ensures var ds := Decide(policy, book, bar, pos, buy, sell, stopId).value.intents;
      (Sends(ds, Buy) <==> pos == 0 && buy)
      && (Sends(ds, Short) <==> pos == 0 && !buy && sell)
      && (Sends(ds, Sell) <==> pos > 0)
      && (Sends(ds, Cover) <==> pos < 0)
      && (NoSend(ds) <==> pos == 0 && !buy && !sell)
  {
    var ds := Decide(policy, book, bar, pos, buy, sell, stopId).value.intents;
    if |ds| == 1 {
      assert ds[0].Send?;
      assert Sends(ds, ds[0].direction);
    }
  }

  /** A trailing long stop only moves up over the life of a position, and a
      trailing short stop only moves down, whatever the bars do, for any
      percentage from 0 to 100. */
  lemma TrailingStopsRatchet(pct: real, book: Book, bar1: Bar, bar2: Bar, pos1: int, pos2: int,
                             id1: OrderId, id2: OrderId)
    requires 0.0 <= pct <= 100.0
    ensures pos1 > 0 && pos2 > 0 ==>
      var d1 := ExitLong(Trailing(pct), book, bar1, pos1, id1).value;
      var d2 := ExitLong(Trailing(pct), d1.book, bar2, pos2, id2).value;
      d2.intents[0].price >= d1.intents[0].price
    ensures pos1 < 0 && pos2 < 0 ==>
      var d1 := ExitShort(Trailing(pct), book, bar1, pos1, id1).value;
      var d2 := ExitShort(Trailing(pct), d1.book, bar2, pos2, id2).value;
      d2.intents[0].price <= d1.intents[0].price
  {
    var down := 1.0 - pct / 100.0;
    var up := 1.0 + pct / 100.0;
    assert down >= 0.0 && up >= 0.0;
    if pos1 > 0 && pos2 > 0 {
      var h1 := Max(book.intraTradeHigh, bar1.high);
      var h2 := Max(h1, bar2.high);
      MulMonotone(h1, h2, down);
    }
    if pos1 < 0 && pos2 < 0 {
      var l1 := Min(book.intraTradeLow, bar1.low);
      var l2 := Min(l1, bar2.low);
      MulMonotone(l2, l1, up);
    }
  }

  lemma MulMonotone(a: real, b: real, c: real)
    requires a <= b && c >= 0.0
    ensures a * c <= b * c
  {
  }

  /** The two exit rules agree whenever the cut-loss does not trigger: the
      cut-loss variant only ever replaces the trailing stop. */
  lemma CutLossOnlyOverridesTrailing(cut: real, pct: real, book: Book, bar: Bar, pos: int,
                                     stopId: OrderId)
    requires pos != 0
    requires pos > 0 ==> |book.buyCost| > 0 && !LongCutLossHit(bar.close, Last(book.buyCost), cut)
    requires pos < 0 ==> |book.shortCost| > 0 && !ShortCutLossHit(bar.close, Last(book.shortCost), cut)
    ensures Decide(Policy(CutLossOrTrailing(cut, pct), true), book, bar, pos, false, false, stopId)
         == Decide(Policy(Trailing(pct), true), book, bar, pos, false, false, stopId)
  {
  }

  /** A long entered at 100 with a 3% cut-loss and a 96 close: 96 is below
      97, so the sell stop goes to the close minus five, 91. */
  lemma LongCutLossExample()
    ensures var bar := Bar(0, 0, 99.0, 99.0, 95.0, 96.0, 10, 1000);
      var book := Book(101.0, 97.0, [100.0], [], []);
      Decide(Policy(CutLossOrTrailing(3.0, 1.2), true), book, bar, 1, false, false, 7)
        == Success(Decision(Book(101.0, 95.0, [100.0], [], [7]), [Send(Sell, 91.0, 1, true)]))
  {
    assert Last([100.0]) == 100.0;
    assert LongCutLossHit(96.0, 100.0, 3.0);
    assert [] + [7] == [7];
  }

  /** A long whose highest price reached 110 under a 1.2% trailing stop: the
      sell stop sits at 110 * 0.988 = 108.68. Prices here are exact reals;
      in binary floating point the same product rounds to just below 108.68. */
  lemma LongTrailingExample()
    ensures var bar := Bar(0, 0, 109.0, 110.0, 108.0, 109.5, 10, 1000);
      var book := Book(105.0, 100.0, [100.0], [], []);
      Decide(Policy(CutLossOrTrailing(3.0, 1.2), true), book, bar, 2, false, false, 8)
        == Success(Decision(Book(110.0, 108.0, [100.0], [], [8]), [Send(Sell, 108.68, 2, true)]))
  {
    assert Last([100.0]) == 100.0;
    assert !LongCutLossHit(109.5, 100.0, 3.0);
    assert LongTrailingStop(110.0, 1.2) == 108.68;
    assert [] + [8] == [8];
  }

  /** The short cut-loss triggers on equality with the cost-based level
      (here 102, exact in real arithmetic). */
  lemma ShortCutLossAtBoundary()
    ensures var bar := Bar(0, 0, 102.0, 103.0, 101.0, 102.0, 10, 1000);
      var book := Book(0.0, 99.0, [], [100.0], []);
      Decide(Policy(CutLossOrTrailing(2.0, 1.4), true), book, bar, -1, false, false, 9)
        == Success(Decision(Book(103.0, 99.0, [], [100.0], [9]), [Send(Cover, 107.0, 1, true)]))
  {
    assert Last([100.0]) == 100.0;
    assert ShortCutLossHit(102.0, 100.0, 2.0);
    assert [] + [9] == [9];
  }
}
