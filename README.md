# trading-aggregator-rs: the aggregation engine in Dafny

trading-aggregator-rs reads energy-market trades (intraday, auction and
imbalance) and builds a report over a delivery window. The report gives
revenue, costs, volume sold, volume bought and gross profit. Each figure can
be taken for one delivery area or all of them, and for one market or all
of them.

This project models the engine's core:

- `src/trade.rs`: the domain enumerations, the classification of trade types
  into markets, and the string-to-enum conversions. The conversions panic on
  an unknown name.
- `src/report.rs`: the per-area accumulator `ReportEntry`, the three `Report`
  constructors, and the queries.

The model has five modules:

- `Wrappers` (`wrappers.dfy`): the `Option`, `Result` and `Outcome` datatypes.
- `Decimal` (`decimal.dfy`): the part of `rust_decimal` the engine relies on.
  - Decimals are exact `real`s.
  - `round_dp` is modelled as banker's rounding (ties go to the even
    neighbour) at a given number of decimal places.
- `Trades` (`trade.dfy`): areas, counterparties, sides, trade types, markets,
  `Market::from`, the name conversions, and the rows `Trade` and
  `TradeForReport`.
- `Reports` (`report.dfy`): the engine itself.
  - `ReportEntry` is a class. Its two bucket maps are fields that
    `AddTrade` and `AddTradeForReport` update in place.
  - The value of an entry is an `EntryState`.
  - A trade's effect is a `Booking`: the area it is routed to, plus an
    optional `Posting` (bucket key, volume, price).
  - The three constructors are methods. Each one loops over the trades,
    routes every trade to a lazily created `ReportEntry`, and is proved to
    produce the pure fold `Fold(trades, book)`.
  - The queries are functions on the finished `Report`.
  - `aggregate_metric` takes a closure in the source. Here that closure is
    the datatype `Metric`, one constructor per per-entry query.
- `ReportProperties` (`report_properties.dfy`): properties that relate
  several operations.
  - Order independence: permuted trades build the same report.
  - A closed form for every all-markets query: the sum of the trades'
    individual contributions.
  - Gross profit against revenue minus costs, before and after rounding.
  - Worked examples.

Data stand-ins:

- Instants are whole seconds (`int`).
- `contract_length` is the difference in seconds divided by 3600.
- I/O (the database, the stream's executor) is replaced by its data: a
  trade stream is the finite sequence of `Result`s it yields.
- A panicking `From<String>` returns `None`.
- An `unwrap` on a specific market's bucket becomes a precondition
  (`HasBucket`, `Answers`). An all-markets query never needs one.

### Where the model departs from a prose reading

One would expect `gross_profit == revenue − costs` for every selector, since
`ReportEntry::gross_profit` is defined that way (`src/report.rs:310-312`). The code rounds each of
the three sums separately (`src/report.rs:154-178`), so that holds only
before rounding. The model follows the code:

- `GrossProfitIsRevenueMinusCosts` proves the equation before rounding.
- `GrossProfitRoundingGap` proves that after rounding the two sides differ
  by at most one cent.
- `GrossProfitRoundingGapExample` builds a report from two trades where they
  do differ: revenue 0.015 rounds to 0.02, costs 0.005 rounds to 0.00, and
  gross profit 0.01 stays 0.01.

A second departure: one would also expect an unpriced trade to contribute
zero to every query. It does contribute zero to every all-markets query
(`UnpricedTradeAddsNothing`). But the entry for its area is created before
the price is looked at (`src/report.rs:38-40` runs before `201-203`). A new
area is therefore left with an empty entry. A specific-market query on that
area then `unwrap`s a missing bucket and panics, where before the trade it
returned 0. `UnpricedTradeBreaksSpecificQuery` states this.

The model sums a report's entries in the fixed area order `AllAreas()`. The
source sums `HashMap::values()` in whatever order the map yields. Sums of
exact reals do not depend on order, so both give the same value.

## Model

| member | source | states |
|---|---|---|
| Trades.AllAreas | src/trade.rs:8-22 | every `Area` variant is listed, each exactly once |
| Trades.MarketOf | src/trade.rs:105-120 | the classification is total; a trade type maps to `Intraday` exactly when it is `Intraday` and to `Imbalance` exactly when it is `Imbalance`, so all eight auction types map to `Auction` |
| Trades.Markets | src/trade.rs:85-103 | `Market::iter()` yields three markets, each of Auction, Intraday and Imbalance exactly once |
| Trades.AreaFromName | src/trade.rs:24-28 | parsing succeeds with area `a` exactly when the string is `a`'s upper-case name; every other string is the panic (`None`) |
| Trades.CounterPartFromName | src/trade.rs:49-53 | parsing succeeds with `c` exactly when the string is `c`'s lower-case name, otherwise `None` |
| Trades.TradeSideFromName | src/trade.rs:64-68 | "buy" and "sell" parse to their sides; every other string is `None` |
| Trades.TradeTypeFromName | src/trade.rs:128-132 | parsing succeeds exactly on each type's snake_case name, so distinct types have distinct names; every other string is `None` |
| Decimal.Abs | src/report.rs:209 | the magnitude is non-negative and equals `x` or `−x` |
| Decimal.Mul | src/report.rs:216 | `Decimal` multiplication: the product of non-negatives is non-negative, and multiplying by 1 changes nothing |
| Decimal.RoundHalfEven | src/report.rs:156 | the result is within one half of `x`, and a tie goes to the even integer |
| Decimal.RoundDp | src/report.rs:154-178 | `round_dp(dp)` moves its input by at most half a unit of the `dp`-th place and returns a number with at most `dp` decimals |
| Decimal.RoundDpExact | src/report.rs:154-178 | a number that already has `dp` decimals is left unchanged by rounding |
| Decimal.RoundDpIdempotent | src/report.rs:154-178 | rounding twice is rounding once |
| Decimal.RoundedDifferenceGap | src/report.rs:174-178 | the difference of two amounts, rounded to cents, is within one cent of the difference of the rounded amounts |
| Reports.ContractLength | src/report.rs:315-328 | the length in hours times 3600 is the interval in seconds; a non-negative interval has a non-negative length |
| Reports.Credit | src/report.rs:211-216 | `+=` on an `or_insert(0)` entry: the key is added, its value grows by `x` (from zero if it was absent), and every other key keeps its value |
| Reports.TradeBooking | src/report.rs:197-219 | an unpriced trade posts nothing; a priced one posts into bucket (its side, `Market::from` of its type) the volume `abs(quantity) × contract length` at its price, which is non-negative for a forward interval |
| Reports.TradeForReportBooking | src/report.rs:221-248 | as above, except that the side is `Sell` exactly when the quantity is negative (zero buys); the stored volume is still the absolute value |
| Reports.EntryState.Apply | src/report.rs:205-216 | no posting changes nothing; a posting makes its own key present in both maps, even for zero volume, as `or_insert` does, and adds no other key; it grows exactly its own bucket, by the volume in `mw` and by volume × price in `cash_flow`, and leaves every other bucket's value alone |
| Reports.SideTotal | src/report.rs:250-308 | a specific market reads its bucket, which must exist; all markets add the side's three buckets, with a missing bucket counting as zero |
| Reports.EntryState.Revenue | src/report.rs:250-264 | the entry's sales cash flow: a specific market's `(Sell, market)` bucket, or the sum of the three `Sell` buckets with missing ones as zero |
| Reports.EntryState.Costs | src/report.rs:266-280 | the same over the `Buy` cash-flow buckets |
| Reports.EntryState.MwSold | src/report.rs:282-294 | the same over the `Sell` volume buckets |
| Reports.EntryState.MwBought | src/report.rs:296-308 | the same over the `Buy` volume buckets |
| Reports.EntryState.GrossProfit | src/report.rs:310-312 | sales cash flow minus purchase cash flow, for a specific market or summed over all three |
| Reports.EntryState.Measure | src/report.rs:155-176 | each of the five closures passed to `aggregate_metric` reads its own side of its own map: revenue and costs the `Sell` and `Buy` cash flow, the volumes the `Sell` and `Buy` volume, gross profit their cash-flow difference |
| Reports.ReportEntry.constructor | src/report.rs:189-195 | a new entry has its area and two empty maps |
| Reports.ReportEntry.AddTrade | src/report.rs:197-219 | fails with an area mismatch exactly when the trade belongs to another area, and then changes nothing; otherwise the new state is the old state with the trade's posting applied |
| Reports.ReportEntry.AddTradeForReport | src/report.rs:221-248 | the same, for the side-less row through `TradeForReportBooking` |
| Reports.Step | src/report.rs:37-41 | one pass of the loop body: the keys gain the trade's area; every other area keeps its entry; the trade's area holds its old entry, or a fresh empty one for a new area, with the trade's posting applied (see also `StepCommutes`, `StepMeasureAt`) |
| Reports.Fold | src/report.rs:36-42 | every entry of the folded map is keyed by its own area |
| Reports.Route | src/report.rs:37-41 | `entry(area).or_insert(new).add_trade(trade)?`: the `?` never fires, entries stay keyed by their own area, and the entry states become one fold step further on |
| Reports.RouteForReport | src/report.rs:65-69 | the same through `add_trade_for_report` |
| Reports.New | src/report.rs:25-51 | fails exactly when `delivery_to < delivery_from` (equal bounds are accepted); otherwise its areas are the fold of the trades in order |
| Reports.NewFromTradeForReport | src/report.rs:53-79 | the same window check; otherwise the fold of the side-less rows |
| Reports.NewFromStream | src/report.rs:81-107 | the same window check; the first error the stream yields aborts the build with that error; otherwise the fold of every trade in arrival order |
| Reports.Collect | src/report.rs:92 | `try_next().await?` over the whole stream: success exactly delivers every item, in order; a failure carries the error of the first failing item, every item before it having succeeded |
| Reports.CollectStopsAt | src/report.rs:92 | when every item before position `i` succeeded and item `i` is an error, the whole stream fails with exactly that error |
| Reports.CollectKeepsError | src/report.rs:92 | once a prefix of the stream has failed, later items do not change the outcome |
| Reports.AreaSum | src/report.rs:146-150 | `.values().map(..).sum()` over the entries the map holds; it is zero when none of the listed areas has an entry (see also `AreaSumUpdate`, `AreaSumEmpty`) |
| Reports.Report.AggregateMetric | src/report.rs:132-152 | a specific area the report has no entry for yields 0 |
| Reports.Report.Revenue | src/report.rs:154-157 | the aggregated sales cash flow rounded once, after summing, to whole cents: within 0.005 of the exact sum |
| Reports.Report.Costs | src/report.rs:159-162 | the aggregated purchase cash flow rounded once to whole cents: within 0.005 of the exact sum |
| Reports.Report.MwSold | src/report.rs:164-167 | the aggregated volume sold rounded once to one decimal place: within 0.05 of the exact sum |
| Reports.Report.MwBought | src/report.rs:169-172 | the aggregated volume bought rounded once to one decimal place: within 0.05 of the exact sum |
| Reports.Report.GrossProfit | src/report.rs:174-178 | the aggregated gross profit rounded once to whole cents: within 0.005 of the exact sum |
| ReportProperties.CreditCommutes | src/report.rs:211-216 | two credits commute |
| ReportProperties.ApplyCommutes | src/report.rs:205-216 | two postings to one entry commute |
| ReportProperties.StepCommutes | src/report.rs:36-42 | routing two trades in either order gives the same areas map |
| ReportProperties.FoldMoveToEnd | src/report.rs:36-42 | a trade in the middle of the sequence has the same effect as the same trade folded last |
| ReportProperties.FoldPermutation | src/report.rs:36-42 | order independence: any permutation of the same trades folds to the same areas map |
| ReportProperties.NewIsOrderIndependent | src/report.rs:25-51 | permuted trade lists give identical reports |
| ReportProperties.FoldAreas | src/report.rs:36-42 | a report has an entry for exactly the areas its trades carry, priced or not |
| ReportProperties.SideTotalAfterCredit | src/report.rs:255-262 | crediting a bucket raises its side's all-markets total by the credit and leaves the other side's total alone |
| ReportProperties.MeasureAfterApply | src/report.rs:250-312 | after one posting, an entry's all-markets metric is the old metric plus that posting's contribution |
| ReportProperties.EmptyMeasure | src/report.rs:189-195 | a fresh entry reports zero for every all-markets metric |
| ReportProperties.AreaSumUpdate | src/report.rs:146-150 | changing one area's entry changes the all-areas sum by exactly that entry's change |
| ReportProperties.StepMeasureAt | src/report.rs:36-42 | routing a trade raises its own area's metric by the trade's contribution and leaves every other area's entry as it was |
| ReportProperties.StepAggregate | src/report.rs:132-152 | one more trade raises every all-markets query, for any area selection, by exactly that trade's contribution |
| ReportProperties.AreaSumEmpty | src/report.rs:146-150 | a report with no entries sums to zero |
| ReportProperties.FoldAggregate | src/report.rs:132-152 | closed form: every all-markets query on a built report equals the sum over its trades of each trade's own contribution |
| ReportProperties.UnpricedTradeAddsNothing | src/report.rs:201-203 | an unpriced trade leaves every existing entry unchanged, gives its area an empty entry, and adds nothing to any all-markets query |
| ReportProperties.UnpricedTradeBreaksSpecificQuery | src/report.rs:38-40 | an unpriced trade still creates an empty entry for its area, so a specific-market query there, which reads zero before the trade, can no longer be answered (the `unwrap` at lines 253, 269, 284 and 298 panics) |
| ReportProperties.UntradedAreaIsZero | src/report.rs:141-145 | an area no trade was routed to answers every query with 0, for every market selection, and no query on it can panic |
| ReportProperties.AreaSumGrossProfit | src/report.rs:310-312 | over any set of areas, summed gross profit is summed revenue minus summed costs |
| ReportProperties.GrossProfitIsRevenueMinusCosts | src/report.rs:310-312 | before rounding, gross profit is revenue minus costs for every market and area selection |
| ReportProperties.GrossProfitRoundingGap | src/report.rs:154-178 | after rounding, gross profit is within one cent of rounded revenue minus rounded costs |
| ReportProperties.GrossProfitRoundingGapExample | src/report.rs:154-178 | a report built from two one-hour trades (sell 0.015 MWh and buy 0.005 MWh, both at 1.0) where rounded gross profit (0.01) differs from rounded revenue minus rounded costs (0.02) |
| ReportProperties.TwoHourContractDoublesQuantity | src/report.rs:315-328 | a two-hour contract books twice its absolute quantity, and its cash flow is that doubled volume times the price |
| ReportProperties.SingleIntradayPurchase | src/report.rs:197-219 | for one priced, one-hour Intraday purchase, the area's Intraday volume bought is the rounded absolute quantity (exactly the quantity if it has one decimal) and its Intraday costs are rounded quantity × price |
| ReportProperties.Scenario | src/report.rs:154-178 | for three one-hour trades (buy 10 @ 50 Intraday and sell 4 @ 80 Auction in area A, buy 5 @ 60 Intraday in area B), area A has revenue 320.00, costs 500.00 and gross profit −180.00, and area B has 5.0 MWh bought |

## Left out

- The database layer (`src/db.rs`) and the tokio runtime in `src/main.rs`
  are left out, because they are I/O and concurrency. The runtime has three
  producers fanning in over an mpsc channel. The `[from, to)` filter on
  delivery time lives in SQL. Neither is part of this model.
- `new_from_stream`'s async `Stream` machinery is left out. The stream is
  modelled as the finite sequence of `Result<Trade, _>` items it yields.
- `print_key_metrics` is left out, because it is console output only.
- chrono and chrono_tz semantics are left out: time zones, DST, and the
  sub-second truncation of `num_seconds`. Instants are whole seconds.
- `Reports.ContractLength`: has no `end >= start` precondition, because the
  code does not check it. A reversed interval gives a negative length, and
  the volume is then negative as well.
- `Reports.ContractLength`: does not model the `from_i64` conversion error
  at `src/report.rs:321-322`. That conversion cannot fail on a whole number
  of seconds, so the model has no error path for it.
- Decimal arithmetic everywhere (`Decimal.Mul`, the `+=` of `Reports.Credit`,
  the sums of `Reports.AreaSum` and `Reports.SideTotal`) is exact `real`
  arithmetic, not `rust_decimal`'s 28-digit precision, and leaves out
  `rust_decimal`'s overflow panics.
- `Reports.ContractLength`: divides exactly. When the number of seconds is
  not a multiple of 9, seconds / 3600 has no finite decimal expansion, and
  `rust_decimal` (`src/report.rs:325`) rounds the quotient to 28
  significant digits. The model keeps the exact quotient.
- `CounterPart` is modelled only as an enum and a name conversion. It plays
  no part in aggregation.
- The serde and strum derive machinery is left out. The names strum derives
  ("UPPERCASE", "lowercase", "snake_case") are written out as functions.
- `Trade.id` is an unbounded `int`, not an `i32`. It plays no part in
  aggregation.
- The panics are not modelled as runtime failures:
  - a `From<String>` conversion panics on an unknown name; here it returns
    `None`;
  - a specific-market query panics on a missing bucket; here that case is a
    precondition.
