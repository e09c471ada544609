# Five-minute CTA strategies: bar assembly and order decision

This project models the core shared by four vn.py CTA strategies:

- `strategyMes.py`: Keltner channel, open-interest ratio and a 15-minute long-cycle trend flag;
- `strategyFiveminCta.py`: Keltner channel and open-interest ratio, with a fixed cut-loss;
- `strategyFiveminAtr.py`: ATR, RSI and an open-ratio EMA, with a fixed cut-loss;
- `strategyHbRemodi.py`: the Mes rules driven by vn.py's bar managers.

Each strategy turns market ticks into decisions along the same pipeline:

1. **Tick to 1-minute bar** (`TickBars`). A tick whose minute differs from the open bar's minute pushes the open bar downstream and opens a new bar. Any other tick extends the open bar.
   - `DeltaStep` is the Mes/Cta assembler. The volume of a bar is the tick's cumulative volume minus the cumulative volume at the bar's first tick (`preBarVolume`). A bar is pushed only once some minute has seen a second tick (`trueCalVolFlag`).
   - `RawStep` is the Atr assembler. It pushes on every minute change. Volume and open interest stay those of the first tick.
2. **1-minute to 5-minute and 15-minute bars** (`PeriodBars`). A `CloseRule` says which sub-bar minutes close a period:
   - `(minute + 1) % 5 == 0` for Mes/Cta;
   - `minute % 5 == 0` for Atr;
   - `(minute + 5) % 15 == 0` on 5-minute bars for the Mes long cycle.

   `PlainStep` folds OHLCV. `ListStep` also keeps the per-minute volume list, and an open-interest list seeded with the previous period's closing open interest (`preBarOpenInterest`).
3. **Shift buffers** (`ShiftBuffer`). Each buffer is a fixed-size array that drops its oldest element when a value is pushed, and starts as zeros. A counter per stage gates trading until the buffer is warm (`bufferCount`, `atrCount`, `longCycleBufferCount`).
4. **Per-5-minute-bar decision** (`Positions`, `Signals`, `Orders`, and one module per strategy).
   - Orders tracked at the previous bar are cancelled.
   - When flat, the strategy enters with a limit order at `close ± 5`.
   - When long or short, it places one stop order for the whole position. The stop is a trailing stop, or (Cta, Atr) a fixed cut-loss at `close ∓ 5` when the recorded entry price is breached.
5. **Long-cycle trend flag** (`Trend`). It is 1 when the short moving average is above the long one. Otherwise it is -1 when the LLT filter fell, and 0 in all other cases. It is computed only once the long-cycle counter is warm.
6. **`sendOcoOrder`** (`Orders.SendOco`). It sends a buy stop and a short stop of equal size and tracks both ids for cancellation.

`FrontEnd` composes stages 1 and 2 tick by tick. `FeedListAllIsStages` and `FeedPlainAllIsStages` prove that the composition equals the 1-minute run followed by the 5-minute run. `TickBars.DeltaRunIsSegmentBars`, `TickBars.RawRunIsSegmentBars`, `PeriodBars.PlainRunIsGroups` and `PeriodBars.ListRunIsGroups` give the reference definitions that the step machines are proved against:

- the tick stream is split into maximal same-minute runs (`Segments`);
- the sub-bar stream is split into periods (`Groups`);
- each run or period is summarised by a closed-form bar.

Indicator values (talib ATR/MA/RSI/EMA/HT_TRENDLINE, the LLT recursion, the open-ratio formula), the position and the engine's order ids are inputs to each step (`Readings`). An exception that ends a callback in the source, such as reading `buyCost[-1]` of an empty list, is modelled as a `Failure` result that ends the run and keeps the requests already sent.

## Model

| member | source | states |
|---|---|---|
| TickBars.DeltaStep | strategyMes.py:185-227 | a minute change pushes the open bar only once the volume flag is set; the flag is never cleared and is set by any same-minute tick; a new bar records the tick's cumulative volume as `preBarVolume`; later ticks set volume to cumulative volume minus `preBarVolume` |
| TickBars.RawStep | strategyFiveminAtr.py:133-165 | the previous bar is pushed exactly on a minute change; same-minute ticks move only high, low and close, keeping the first tick's volume, open interest, open and time |
| TickBars.SegmentsConcat | strategyMes.py:188-190 | the minute runs the assembler sees are a partition of the tick stream: their concatenation is the stream |
| TickBars.SegmentsAreMinutes | strategyMes.py:188-190 | every run shares one minute and adjacent runs differ in minute, so runs are maximal |
| TickBars.MinuteBarSummarises | strategyMes.py:199-225 | a minute bar opens at the first price, closes at the last, and its high and low are the attained extremes of the run's prices; the raw bar differs from the delta bar only in volume and open interest |
| TickBars.RawRunIsSegmentBars | strategyFiveminAtr.py:133-165 | after any tick stream the raw assembler holds the bar of the last minute run and has pushed exactly the bars of all earlier runs, in order |
| TickBars.DeltaRunIsSegmentBars | strategyMes.py:185-227 | after any tick stream the delta assembler holds the last run's bar, `preBarVolume` is that run's first cumulative volume, the flag is set iff some run had two ticks, and the pushed bars are the earlier runs' bars from the first multi-tick run onwards |
| TickBars.InitialVolumeIrrelevant | strategyFiveminCta.py:35 | the starting `preBarVolume` (-100 in Cta, 0 in Mes) never affects any bar or the later state |
| TickBars.DeltaWithinMinute | strategyMes.py:190-227 | a same-minute run of ticks arriving on a new minute pushes the previous bar (if the flag allowed) once, and leaves the run's summary bar open |
| TickBars.RawWithinMinute | strategyFiveminAtr.py:138-165 | a same-minute run arriving on a new minute pushes the previous bar once and leaves the run's summary bar open |
| PeriodBars.PlainStep | strategyFiveminAtr.py:168-218 | a period bar is emitted iff a closing sub-bar finds one open; a closing sub-bar always leaves no bar open; the period keeps its opening sub-bar's time and takes the closing sub-bar's close |
| PeriodBars.ListStep | strategyMes.py:230-301 | the OHLCV part equals the plain fold; `preBarOpenInterest` moves to the closing sub-bar's open interest only on emission; an emitted bar's lists are consistent with the seed |
| PeriodBars.Groups | strategyMes.py:233-301 | a closing sub-bar with nothing pending is dropped, so every completed period holds at least its opening and its closing sub-bar |
| PeriodBars.GroupsArePeriods | strategyMes.py:233 | the reference grouping closes exactly at closing minutes: every completed period ends on a closing sub-bar and has no closing sub-bar before it; the pending run holds no closing sub-bar |
| PeriodBars.PlainRunIsGroups | strategyFiveminAtr.py:168-218 | the plain fold emits exactly the aggregate of each completed period and holds the aggregate of the pending run |
| PeriodBars.ListRunIsGroups | strategyMes.py:230-301 | the list fold emits, per completed period, its aggregate with its volume list and an open-interest list seeded from the previous period's close |
| PeriodBars.ListBarsConsistent | strategyMes.py:245-265 | the open-interest list of each period starts with the previous period's last open interest, so it is one longer than the volume list and the lists chain |
| PeriodBars.OnePeriod | strategyMes.py:233-301 | sub-bars that close only at the end produce one period bar: the aggregate, the volume list and the seeded open-interest list |
| PeriodBars.PendingRun | strategyMes.py:258-301 | sub-bars with no closing minute are all pending and emit nothing |
| ShiftBuffer.Push | strategyMes.py:372-385 | shifting keeps the length, drops the oldest element and places the new value last |
| ShiftBuffer.PushAllIsSuffix | strategyMes.py:372-385 | pushing a sequence leaves the last `capacity` elements of the old buffer followed by the pushed values |
| ShiftBuffer.WindowWarming | strategyMes.py:389-391 | before the buffer is warm it holds leading zeros followed by every pushed value |
| ShiftBuffer.WindowFull | strategyMes.py:389-391 | once as many values as the capacity are pushed, the buffer holds exactly the latest `capacity` values |
| ShiftBuffer.PushAllFromEnd | strategyHbRemodi.py:161-162 | the j-th newest buffered value is the j-th newest pushed value |
| ShiftBuffer.Tail | strategyHbRemodi.py:161-162 | the `[-k:]` slice has length k and holds the last k elements |
| ShiftBuffer.PushBar | strategyFiveminCta.py:306-319 | each of the five price buffers shifts by one: older values move one place toward the front, the oldest drops and the bar's close, high, low, volume or open interest lands last |
| Orders.CancelEach | strategyMes.py:308-309 | one cancel per tracked id, in order |
| Orders.CancelsSendNothing | strategyMes.py:308-309 | prefixed cancels neither send an order nor change which directions are sent |
| Orders.SendOco | strategyMes.py:616-631 | two stop orders, a buy at `buyPrice` and a short at `shortPrice`, of the same volume; both ids are appended to the tracked list and remembered |
| Positions.Enter | strategyFiveminCta.py:396-419 | flat: the intra-trade extremes reset to the bar; a buy signal wins over a sell signal; the entry is one lot at `close ± 5`; the recorded cost is the submitted price when costs are recorded |
| Positions.ExitLong | strategyFiveminCta.py:422-433 | long: fails iff the cut-loss rule needs a recorded buy cost and none exists; otherwise one sell stop for the position at `close - 5` on a cut-loss breach, else at the trailing stop from the raised high, tracked for cancellation |
| Positions.ExitShort | strategyFiveminCta.py:436-447 | short: fails iff the cut-loss rule needs a recorded short cost and none exists; otherwise one cover stop at `close + 5` on a breach, else at the trailing stop from the lowered low |
| Positions.Decide | strategyMes.py:472-510 | trailing-only policies never fail; flat gives at most one entry and tracks nothing; in a position exactly one stop for the whole position, which flattens it when filled and is tracked |
| Positions.DecisionDirections | strategyFiveminAtr.py:296-343 | buy iff flat and buy signal; short iff flat, no buy signal and sell signal; sell iff long; cover iff short; nothing sent iff flat with no signal |
| Positions.TrailingStopsRatchet | strategyMes.py:489-510 | over consecutive bars in the same position a trailing long stop never falls and a trailing short stop never rises |
| Positions.CutLossOnlyOverridesTrailing | strategyFiveminAtr.py:322-343 | when the cut-loss level is not breached, the cut-loss policy decides exactly as the trailing policy |
| Positions.LongCutLossExample | strategyFiveminAtr.py:325-327 | a 4% drop below the entry cost with a 3% cut-loss exits at `close - 5` |
| Positions.LongTrailingExample | strategyFiveminAtr.py:328-331 | without a breach the long stop sits 1.2% under the raised intra-trade high |
| Positions.ShortCutLossAtBoundary | strategyFiveminCta.py:439-442 | the short cut-loss uses `>=`: a close exactly at the threshold exits at `close + 5` |
| Signals.RsiConditions | strategyFiveminAtr.py:111-112 | the RSI buy and sell conditions are `rsi > 50 + rsiEntry` and `rsi < 50 - rsiEntry`, exclusive for a positive offset |
| Signals.Record | strategyMes.py:463-466 | a buy signal logs the time to the buy list, else a sell signal to the sell list, else nothing |
| Trend.TrendFlag | strategyMes.py:582-587 | the flag is 1 iff the MA condition holds, -1 iff it does not and the LLT fell, and lies in -1..1 |
| Trend.CycleStep | strategyMes.py:536-552 | the LLT buffer shifts in the new value; the counter grows by one; the flag is unchanged before warm-up and afterwards compares the new LLT with the previous one |
| Trend.FlagAfterWarmUp | strategyHbRemodi.py:263-285 | after n readings the counter is n; the flag is 0 before the long-cycle buffer is warm and afterwards is decided by the last reading against the one before it |
| Trend.FlagInRange | strategyHbRemodi.py:280-285 | the flag stays within -1..1 over any run |
| FrontEnd.FeedList | strategyMes.py:190-192 | one tick drives the delta assembler; a 5-minute bar can only follow a pushed 1-minute bar; the list fold is untouched when no minute closed |
| FrontEnd.FeedListAllIsStages | strategyFiveminCta.py:166-282 | feeding ticks one by one equals the 1-minute run followed by the 5-minute list fold over its bars |
| FrontEnd.FeedPlain | strategyFiveminAtr.py:138-140 | one tick drives the raw assembler; an emitted 5-minute bar closes with the pushed minute bar's close |
| FrontEnd.FeedPlainAllIsStages | strategyFiveminAtr.py:133-218 | feeding ticks one by one equals the raw 1-minute run followed by the plain 5-minute fold |
| StrategyMes.OnLongCycle | strategyMes.py:516-587 | the long-cycle close, high, low and volume buffers each shift in the 15-minute bar's value and the cycle takes one step; nothing else changes |
| StrategyMes.AdvanceLongCycle | strategyMes.py:313-356 | the 15-minute fold sees each 5-minute bar; the cycle advances exactly when a 15-minute bar is emitted; nothing else changes |
| StrategyMes.Store | strategyMes.py:369-389 | the tracked ids are cleared; every price buffer and the ratio buffer shift by one with the bar's values landing last; the bar is counted; nothing else changes |
| StrategyMes.Trade | strategyMes.py:442-510 | the warm decision: the log records the HB and ratio signals; buy iff flat, KK, ratio and flag 1; short iff flat, not buy, KK, ratio and flag -1; a stop iff in a position; stops are for the whole position |
| StrategyMes.Act | strategyMes.py:389-510 | on the stored bar: nothing is sent and the log is kept before warm-up; once warm the decision runs with the flag this bar's long cycle produced |
| StrategyMes.OnFiveBarActs | strategyMes.py:305-510 | `onFiveBar` is the cancels of the tracked ids followed by what the stored bar's decision sends |
| StrategyMes.OcoCancelledAtNextBar | strategyMes.py:616-631 | when the tracked list is what `sendOcoOrder` left, the next 5-minute bar cancels both OCO legs before it sends anything |
| StrategyMes.OnFiveBar | strategyMes.py:305-513 | every previously tracked id is cancelled first; the 15-minute fold runs before the decision; the bar is counted; the tracked list then holds only this bar's stop |
| StrategyMes.OnFiveBarLogs | strategyMes.py:389-391 | before warm-up nothing is sent and the log is unchanged; afterwards the signal log is updated |
| StrategyMes.OnFiveBarDecides | strategyMes.py:472-510 | each direction is sent iff warm and its condition holds, using the flag as updated by this bar's long cycle |
| StrategyMes.OnTick | strategyMes.py:185-227 | one tick moves the front end, counts an emitted 5-minute bar, and sends nothing while cold |
| StrategyMes.RunTicks | strategyMes.py:185-301 | over a tick stream the bar count equals the number of 5-minute bars emitted, and nothing is sent while cold |
| StrategyMes.NoOrdersBeforeWarmUp | strategyMes.py:389-391 | from the initial state, fewer than 100 five-minute bars produce no order |
| StrategyCta.Store | strategyFiveminCta.py:303-323 | the tracked ids are cleared; every price buffer and the ratio buffer shift by one with the bar's values landing last; the bar is counted |
| StrategyCta.Trade | strategyFiveminCta.py:380-447 | fails iff in a position with no recorded cost; the log uses the entry conditions whatever the position; the direction iffs; cut-loss exits at `close ∓ 5` |
| StrategyCta.OnFiveBar | strategyFiveminCta.py:286-450 | cancels first; counts the bar; can only fail once warm and in a position, and a failure keeps the cancels already sent; nothing sent and log unchanged before 18 bars; direction iffs afterwards |
| StrategyCta.OnTick | strategyFiveminCta.py:166-209 | one tick moves the front end and counts an emitted 5-minute bar; a failure needs an emitted 5-minute bar and keeps the cancels sent before it |
| StrategyCta.RunTicks | strategyFiveminCta.py:166-282 | the bar count equals the 5-minute bars emitted; nothing is sent while cold |
| StrategyCta.IssuedNeverRetracted | strategyFiveminCta.py:289-290 | the requests sent over a prefix of the ticks begin the requests of the whole run, even one that ends by an exception; a run that raised on the prefix raises the same way on the whole stream |
| StrategyCta.OcoCancelledAtNextBar | strategyFiveminCta.py:480-495 | when the tracked list is what `sendOcoOrder` left, the next 5-minute bar cancels both OCO legs before it sends anything, whether or not the decision then raises |
| StrategyCta.NoOrdersBeforeWarmUp | strategyFiveminCta.py:323-325 | from the initial state, fewer than 18 five-minute bars neither fail nor send an order |
| StrategyCta.NeverFailsWhileCold | strategyFiveminCta.py:323-325 | a run that stays below the warm-up count cannot fail |
| StrategyAtr.EntrySidesExclusive | strategyFiveminAtr.py:278-283 | the buy and sell conditions exclude each other and need RSI above 67 or below 33 |
| StrategyAtr.Store | strategyFiveminAtr.py:225-257 | the ids are cleared; every price buffer shifts by one with the bar's values landing last; the bar is counted; past the first stage the ATR buffer shifts in the reading and the second counter counts |
| StrategyAtr.Trade | strategyFiveminAtr.py:278-343 | fails iff in a position with no recorded cost; the log and direction iffs; cut-loss exits at `close ∓ 5` |
| StrategyAtr.OnFiveBar | strategyFiveminAtr.py:222-346 | cancels first, and a failure keeps them sent; the two-stage warm-up means no order before the 99th five-minute bar; direction iffs once the ATR counter is warm |
| StrategyAtr.OnTick | strategyFiveminAtr.py:133-165 | one tick moves the front end and counts an emitted 5-minute bar; nothing is sent while cold; a failure keeps the cancels sent before it |
| StrategyAtr.RunTicks | strategyFiveminAtr.py:133-218 | the bar count equals the 5-minute bars emitted; nothing is sent before both stages are warm |
| StrategyAtr.IssuedNeverRetracted | strategyFiveminAtr.py:225-226 | the requests sent over a prefix of the ticks begin the requests of the whole run, even one that ends by an exception; a run that raised on the prefix raises the same way on the whole stream |
| StrategyAtr.NeverFailsWhileCold | strategyFiveminAtr.py:244-257 | a run that stays below the two-stage warm-up cannot fail |
| StrategyAtr.NoOrdersBeforeWarmUp | strategyFiveminAtr.py:244-257 | from the initial state, fewer than 99 five-minute bars neither fail nor send an order |
| StrategyHb.OnBarWindows | strategyHbRemodi.py:157-162 | the 1-minute store shifts in the bar; the volume window is the last 5 volumes and the open-interest window the last 6 open interests, aligned so that volume i and the open-interest step into it come from the same minute |
| StrategyHb.MinuteRunIsPushAll | strategyHbRemodi.py:160 | after any bars the 1-minute store's series are the zero buffers with every bar's volume and open interest pushed |
| StrategyHb.WindowsAlign | strategyHbRemodi.py:161-162 | once six minutes are stored, the windows hold exactly the last five volumes and last six open interests |
| StrategyHb.SeriesFromEnd | strategyHbRemodi.py:161-162 | the j-th newest stored volume and open interest are those of the j-th newest bar |
| StrategyHb.On15MinBar | strategyHbRemodi.py:250-285 | the cycle takes one step; nothing else changes |
| StrategyHb.On5MinBar | strategyHbRemodi.py:172-247 | one cancel-all first; the tracked list only grows and is never cleared; no entry cost is recorded; before 100 bars only the cancel-all; direction iffs with the flag afterwards |
| StrategyHb.CancelAllSendsNothing | strategyHbRemodi.py:174 | the leading cancel-all neither sends nor shifts which directions are sent |
| StrategyHb.OnMinute | strategyHbRemodi.py:157-168 | each 1-minute bar updates the windows; the 15-minute handler runs before the 5-minute one, so an entry reads the flag this minute produced |

## Left out

- Indicator computations (talib ATR, MA, RSI, EMA, STOCH, ADX, HT_TRENDLINE) and the floating-point formulas (`barOpenRatioModi`, the LLT recursion): their values are inputs to each step, because they are foreign numeric code with no property the decision relies on.
- Engine calls (`buy`, `sell`, `short`, `cover`, `cancelOrder`, `cancelAll`) are modelled as a list of order intents. The position `pos` and the order ids the engine returns are inputs.
- The OCO cancel-the-other-leg code in `onTrade` of strategyMes.py and strategyFiveminCta.py sits inside a string literal and never runs. No model is given for it.
- vn.py's `BarManager` and `ArrayManager`, used by strategyHbRemodi.py, are not part of this model. The Hb 5- and 15-minute bars are inputs to `StrategyHb.OnMinute`. Its 1-minute `ArrayManager` store is a shift buffer whose size is a parameter.
- Class-level state is shared between strategy instances in the source. This covers the price arrays and also the lists `orderList`, `buyCost`, `shortCost`, `signalBuy` and `signalSell` (strategyFiveminCta.py:99-103, strategyFiveminAtr.py:74-78, strategyMes.py:121-125), which are grown by `append`. strategyHbRemodi.py:82 declares `orderList` the same way and never rebinds it, so every Hb instance in a process tracks into one list. With two instances running, `buyCost[-1]` can therefore read the other instance's entry price and a cancel loop can cancel its orders. Each model state owns its buffers and lists, so it covers one instance per process only.
- `onInit`/`onStart`/`onStop`, history loading, `__main__` back-test drivers, printing and `writeCtaLog`, `putEvent`, and the `monitoringVolume`/`changeTime` monitors are left out, as are the `buycutProfitList`-style bookkeeping lists: none of them is read by the decision.
- An exception raised inside a callback ends the model run as a `Failure` that carries every request sent before it. The engine's handling of it is not modelled.
- Prices, costs and percentages are exact reals, while the source computes in binary floating point. A stop price or cut-loss threshold may therefore differ by a rounding unit: `110 * (1 - 1.2/100)` is 108.68 here but rounds just below it in floating point. A close within one rounding unit of a cut-loss threshold may be decided differently.
- TickBars.DeltaStep: a minute with a single tick keeps the tick's cumulative volume as its bar volume. This follows the code as written; the bar volume is not adjusted.
- StrategyHb.OnMinute: states only that an entry matches the sign of the freshly updated flag. The full decision is stated by StrategyHb.On5MinBar.
- StrategyMes.OnTick, StrategyCta.OnTick and StrategyAtr.OnTick: the per-bar decision is stated by the OnFiveBar members and is not repeated through the tick wrapper.
