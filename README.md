# Market-cap index service in Dafny

This project models the index engine of a small equal-weight stock index
backend, `app/services/index_service.py`. The engine keeps four SQLite
tables:

- `daily_market_caps`: ranked market caps per date;
- `daily_prices`: adjusted closes per symbol and date;
- `index_compositions`: the symbols held on each date, with their weights;
- `index_performance`: the daily return, cumulative return and level per date.

It offers one writer and three readers:

- `build_index(start, end)`:
  - takes every distinct market-cap date in the range;
  - selects up to 100 symbols by market cap and weights them equally;
  - computes the day's return as the mean simple return of the symbols shared with the previous processed date;
  - compounds an index level from the configured base level;
  - stores both batches with `INSERT OR REPLACE`.
- `get_index_performance(start, end)` and `get_index_composition(date)` read the stored rows back, in date order and in symbol order.
- `get_composition_changes(start, end)` walks consecutive composition dates and reports the symbols that entered and exited.

## How the model is laid out

- The tables are Dafny maps:
  - `CapTable` maps a date to its rows, already ranked as `ORDER BY market_cap DESC` returns them;
  - `PriceTable` maps `(symbol, date)` to an optional close, where `None` is a `NULL` column;
  - `CompositionTable` is keyed by `(date, symbol)`;
  - `PerformanceTable` is keyed by date.
- Dates are the text SQLite stores, and the SQL text order is code-point order (`TextOrder`). `BETWEEN` is `InDateRange`, in which a `NULL` bound selects nothing, as SQL's three-valued comparison does.
- `IndexService.IndexStore` is a class holding the four tables and the base level.
  - `BuildIndex` is written as the source's loops. It is proved to return and store exactly what the ghost function `IndexBuild.Build` specifies.
  - The readers are proved equal to `IndexQueries.PerformanceBetween`, `IndexQueries.CompositionOn` and `CompositionChanges.Changes`.
  - The properties of the index are proved as lemmas about those functions. The main groups are:
    - the loop as a fold, `IndexRun.Run`;
    - the stored tables after a build;
    - the change list.
- Python exceptions (`ValueError`) are the `Err` case of `Wrappers.Result`.
- `_normalize_date`, `safe_parse_date` and `date.fromisoformat` on `YYYY-MM-DD` text are modelled in `Dates`, together with `isoformat`.
- Arithmetic is on `real`.
- The base level is a constructor argument, `settings.index_base_level`. The constructor accepts any value. `IndexService.IndexStore.BuildIndex`, `IndexService.IndexStore.EvaluateBuild`, `IndexBuild.Build` and the fold `IndexRun.Run` require it to be nonzero.
- Files, in dependency order:
  - `wrappers.dfy`
  - `text_order.dfy`
  - `dates.dfy`
  - `upsert.dfy`
  - `index_spec.dfy`
  - `index_run.dfy`
  - `index_build.dfy`
  - `index_queries.dfy`
  - `composition_changes.dfy`
  - `index_service.dfy`

## Model

| member | source | states |
|---|---|---|
| Dates.NormalizeDate | app/services/index_service.py:10-17 | `None` gives no text, a date its ISO text (10 characters), a string itself unchecked, and any other type is refused with the unsupported-type error; each case in both directions |
| Dates.Iso | app/services/index_service.py:14 | `date.isoformat()`: ten characters, the year, month and day fields separated by dashes at positions 4 and 7 |
| Dates.ParseIso | app/services/index_service.py:25 | `date.fromisoformat` on `YYYY-MM-DD`: four, two and two digits between dashes naming a real calendar date; any other text is refused with the invalid-format error |
| Dates.SafeParseDate | app/services/index_service.py:20-26 | a date passes through, a string is parsed as ISO text, anything else is refused with the unsupported-format error |
| Dates.ParseIsoRoundTrip | app/services/index_service.py:14-25 | parsing the ISO text of any date gives that date back |
| Dates.IsoParseRoundTrip | app/services/index_service.py:48-70 | a stored date text that parses is exactly the `isoformat()` of the parsed date, so the loop's `current_date.isoformat()` is the text the range query returned |
| Dates.NormalizeAgreesWithParse | app/services/index_service.py:10-26 | where `safe_parse_date` accepts an argument, `_normalize_date` yields the ISO text of the date it parses to |
| Dates.IsoInjective | app/services/index_service.py:14 | distinct dates have distinct ISO texts |
| Dates.IsoOrderIsChronological | app/services/index_service.py:39-42 | text order of ISO texts is chronological order of the dates, both directions |
| Dates.DateRangeIsChronological | app/services/index_service.py:39-44 | for date bounds, `BETWEEN` on text selects exactly the dates between them on the calendar |
| Dates.EndOrStart | app/services/index_service.py:32 | definition of `_normalize_date(end) or start`: a missing or empty end is replaced by the start; any other end is kept |
| IndexBuild.RangeBounds | app/services/index_service.py:31-32 | the bounds are the normalised start and the end-or-start; the call fails exactly when either argument has an unsupported type |
| IndexBuild.InRange | app/services/index_service.py:39-42 | definition of `WHERE date BETWEEN ? AND ?` on a set of stored dates, none when a bound is `NULL`; `DateRangeIsChronological` states what it selects for date bounds |
| IndexBuild.TradingDates | app/services/index_service.py:36-45 | the distinct market-cap dates in the range, strictly ascending, each known to the table, and none unless both bounds are present |
| IndexBuild.AllParse | app/services/index_service.py:48 | definition of every trading date passing `safe_parse_date`; `BuildWritesOnlyOnSuccess` and `ParseDates` are stated with it |
| IndexBuild.Build | app/services/index_service.py:29-133 | definition of one call of `build_index`: outcome and tables left, by the error, empty-range and success branches; `BuildWritesOnlyOnSuccess`, `BuildReportsRange`, `BuildPerformance`, `BuildCompositions` and `RebuildIsIdempotent` are proved about it |
| IndexBuild.Store | app/services/index_service.py:114-123 | definition of the two `INSERT OR REPLACE` batches applied to the tables; `StorePerformance` and `StoreCompositions` are proved about it |
| IndexSpec.TopRows | app/services/index_service.py:61-71 | `LIMIT 100`: the first `min(100, n)` rows of the ranking, the whole ranking when it has at most 100 rows |
| IndexSpec.WeightRows | app/services/index_service.py:78-79 | definition of the rows `(date, symbol, weight)` appended per selected symbol, in ranking order; `RunCompositionRows` and `AppendWeights` are stated with it |
| IndexSpec.Close | app/services/index_service.py:100 | definition of a usable close (Python truthiness of `adj_close`): present, not `NULL` and not zero; `SymbolReturn` and `DailyReturnAboveMinusOne` rely on it |
| IndexSpec.SymbolReturn | app/services/index_service.py:89-102 | a symbol has a return exactly when both its closes are usable, so no division by zero occurs |
| IndexSpec.Returns | app/services/index_service.py:88-102 | definition of the `returns` list keyed by symbol: one entry per common symbol with both closes, holding its return; `TotalPick`, `DailyReturnIsMean` and `CollectReturns` are stated over it |
| IndexSpec.Mean | app/services/index_service.py:103 | definition of `sum(returns) / len(returns) if returns else 0.0`; `MeanOfCount`, `MeanBetween` and `MeanTimesCount` are proved about it |
| IndexSpec.DailyReturn | app/services/index_service.py:86-107 | definition of the day's return from the two symbol sets: 0 without common symbols, else the mean of the common returns; `DailyReturnIsMean`, `DailyReturnZero` and `DailyReturnAboveMinusOne` are proved about it |
| IndexSpec.TotalPick | app/services/index_service.py:89-103 | `sum(returns)` does not depend on the order in which the symbols of the set were visited |
| IndexSpec.DailyReturnIsMean | app/services/index_service.py:86-107 | the day's return is the mean of the returns of the symbols held on both dates; the empty-overlap branch agrees with the mean of no returns |
| IndexSpec.DailyReturnZero | app/services/index_service.py:86-107 | the day's return is 0 when no symbol is shared, and when no shared symbol has two usable closes |
| IndexSpec.MeanBetween | app/services/index_service.py:103 | the mean of nonempty returns lies between their least and greatest value |
| IndexSpec.MeanTimesCount | app/services/index_service.py:103 | the mean times the number of returns is their sum |
| IndexSpec.DailyReturnAboveMinusOne | app/services/index_service.py:100-103 | with positive closes, a day's return is above -1 |
| IndexRun.Processed | app/services/index_service.py:73-74 | the dates that get a composition and a level are the trading dates with market-cap rows |
| IndexSpec.SymbolsOn | app/services/index_service.py:83 | definition of `prev_symbols`, read from the in-memory `compositions` batch; `StepReturnIsOverlap` and `RunCompositionSymbols` are proved about it |
| IndexRun.StepReturn | app/services/index_service.py:81-107 | definition of the return of one loop pass: 0 before the first performance row, else the overlap return against the symbols recorded for the last row's date |
| IndexRun.Step | app/services/index_service.py:61-112 | definition of one pass of the loop body: skip a date without rows, else append the weight rows and one compounded performance row; `StepSkips` and `StepAppends` state it |
| IndexRun.Run | app/services/index_service.py:54-112 | definition of the loop as a fold of `Step` over the trading dates from empty batches and the base level; the `Run*` lemmas are proved about it |
| IndexRun.Compound | app/services/index_service.py:109 | definition of `index_level *= (1 + daily_return)`; `RunCompounds`, `LevelIsCompoundedReturns` and `LevelsPositive` are proved about it |
| IndexRun.Cumulative | app/services/index_service.py:110 | definition of `index_level / base - 1.0`; `RunCompounds` is proved about it |
| IndexRun.StepSkips | app/services/index_service.py:73-74 | a date without rows changes neither batch nor the level |
| IndexRun.StepAppends | app/services/index_service.py:76-112 | a date with rows appends one weight row per selected symbol and one performance row whose level compounds the previous level |
| IndexRun.ProcessedFromDates | app/services/index_service.py:60-74 | a date is processed exactly when it is a trading date with rows; processed dates keep the ascending order |
| IndexRun.RunPerfDates | app/services/index_service.py:112 | the run has exactly one performance row per processed date, in order, and the running level is the last row's level, or the base level before the first row |
| IndexRun.RunCompounds | app/services/index_service.py:57-112 | the first processed date has return 0; each level is the previous level (the base level first) times `1 + daily_return`; `cumulative_return = level / base - 1` |
| IndexRun.LevelIsCompoundedReturns | app/services/index_service.py:57-109 | each recorded level is the base level compounded by every daily return so far |
| IndexRun.LevelsPositive | app/services/index_service.py:109 | with a positive base and every return above -1 the levels stay positive |
| IndexRun.RunLevelsPositive | app/services/index_service.py:86-109 | with a positive base and positive closes every recorded level is positive |
| IndexRun.RunCompositionRows | app/services/index_service.py:76-79 | every weight row is a processed date, one of its selected symbols, at `1/len(top_rows)` |
| IndexRun.RunCompositionSymbols | app/services/index_service.py:76-79 | the symbols recorded for a date are exactly its selected symbols when it was processed, and none otherwise |
| IndexBuild.SymbolsAt | app/services/index_service.py:195-200 | the symbols the stored composition table holds for a date, as `SELECT symbol FROM index_compositions WHERE date = ?` reads them: exactly those of its `(date, symbol)` keys |
| IndexRun.StepReturnIsOverlap | app/services/index_service.py:81-84 | `prev_symbols` is taken from the rows recorded for the previous date before the current date's rows are consulted |
| IndexRun.RunReturnOfLast | app/services/index_service.py:81-107 | the return of the last processed date is the overlap return against the processed date just before it |
| IndexRun.RunReturns | app/services/index_service.py:81-107 | every processed date after the first has the overlap return between the previous processed date's selection and its own |
| IndexBuild.BuildWritesOnlyOnSuccess | app/services/index_service.py:31-52 | a failed call or a range without trading dates writes nothing; a call fails exactly on an unsupported argument type or an unparsable trading date |
| IndexBuild.StorePerformance | app/services/index_service.py:119-123 | upserting a run's performance rows adds exactly the processed dates as keys, each with its row's values, and keeps every other date's row |
| IndexBuild.StoreCompositions | app/services/index_service.py:114-118 | upserting a run's weight rows adds each processed date's selected symbols at `1/len(top_rows)`; every other row keeps its weight, both the rows of other dates and a processed date's rows of symbols it no longer selects |
| IndexBuild.BuildReportsRange | app/services/index_service.py:127-133 | success reports the bounds used and `days_processed` as the number of trading dates, skipped dates included, which is positive; the empty-range outcome occurs exactly when there is no trading date; success carries status `success` and message `Index built and stored`, the empty range status `error` and message `No trading days in range` |
| IndexBuild.BuildPerformance | app/services/index_service.py:119-123 | after a build there is one performance row per processed date holding the run's values; rows of other dates are unchanged |
| IndexBuild.BuildCompositions | app/services/index_service.py:114-118 | after a build each processed date holds its selected symbols at `1/len(top_rows)` besides what it held before; every other row keeps its weight, including a processed date's stale rows of symbols no longer selected |
| IndexBuild.RebuildIsIdempotent | app/services/index_service.py:114-123 | building the same range again returns the same result and leaves the same tables |
| IndexQueries.CompositionSumsToOne | app/services/index_service.py:61-79 | a processed date with a ranked market-cap list, whose earlier composition holds only symbols it selects again (none, or the same selection on a rebuild), reads back `min(100, n)` holdings, each one of its selected symbols at the same weight, summing to 1 |
| IndexQueries.PerformanceBetween | app/services/index_service.py:142-151 | the stored performance rows in the range, each once, strictly ascending by date, none missing, none when a bound is missing |
| IndexQueries.CompositionOn | app/services/index_service.py:159-168 | the stored symbols of the date with their weights, each once, strictly ascending by symbol, none missing; no date gives no rows |
| CompositionChanges.DatesOf | app/services/index_service.py:179-189 | the dates of `index_compositions`: every stored row's date, and only dates that hold at least one symbol |
| CompositionChanges.CompositionDates | app/services/index_service.py:179-189 | the distinct composition dates in the range, strictly ascending; a missing end selects nothing |
| CompositionChanges.DiffAt | app/services/index_service.py:202-210 | an entry appears exactly when the two dates hold different symbol sets, and then it names the later date and lists at least one symbol |
| CompositionChanges.Diff | app/services/index_service.py:202-210 | definition of the entry built from two symbol sets: the sorted differences, and no entry when both are empty; `DiffAtContents` states its contents |
| CompositionChanges.DiffAtContents | app/services/index_service.py:203-204 | `entered` is exactly the current symbols not held before, and `exited` the reverse; both are sorted without repetition and disjoint; together with the shared symbols they cover both dates' symbols |
| CompositionChanges.ChangesOver | app/services/index_service.py:191-212 | definition of the loop carrying `prev_symbols`: each date after the first against the one before it; `ChangesSound`, `ChangesComplete` and `ChangesAscending` are proved about it |
| CompositionChanges.Changes | app/services/index_service.py:179-212 | definition of the change list over the composition dates of the range; `ChangesSound`, `ChangesComplete` and `ChangesAscending` are proved about the fold it applies |
| CompositionChanges.ChangesSound | app/services/index_service.py:194-212 | every entry compares a composition date with the date just before it |
| CompositionChanges.ChangesComplete | app/services/index_service.py:194-212 | every date whose symbols differ from the date before it has its entry |
| CompositionChanges.ChangeDatesInList | app/services/index_service.py:202 | every entry is dated with a date of the list other than its first |
| CompositionChanges.FirstDateNoEntry | app/services/index_service.py:194-212 | no entry of the change list is dated with the first composition date of the range, which serves only as the starting point |
| CompositionChanges.ChangesAscending | app/services/index_service.py:194-212 | entries come in strictly ascending date order |
| Upsert.UpsertMany | app/services/index_service.py:114-123 | `INSERT OR REPLACE` of a batch: the keys afterwards are the old keys and the batch's keys |
| Upsert.UpsertKeepsOthers | app/services/index_service.py:114-123 | a key the batch does not name keeps its row |
| Upsert.UpsertWrites | app/services/index_service.py:114-123 | a key whose rows in the batch all carry one value ends up with that value |
| Upsert.UpsertIdempotent | app/services/index_service.py:114-123 | applying the same batch twice is applying it once |
| TextOrder.SortText | app/services/index_service.py:203-204 | `sorted(list(...))` of a set of strings: ascending without repetition and holding exactly the set's elements |
| TextOrder.Sorted | app/services/index_service.py:203-204 | a set of strings listed in strictly ascending text order, with exactly its elements and as many as it has |
| IndexService.MeanOfCount | app/services/index_service.py:103 | the mean of the returns is their sum divided by their number, and 0 when there are none |
| IndexService.DiffOf | app/services/index_service.py:202-210 | the entry the loop builds for a date from the two symbol sets is the entry `Diff` specifies |
| IndexService.IndexStore.constructor | app/config.py:12 | a store over a fresh database: the given market caps and prices, the base level `settings.index_base_level`, and empty composition and performance tables |
| IndexService.IndexStore.CommonReturn | app/services/index_service.py:103 | the day's return over the common symbols is the mean of their returns, 0 when none has both closes |
| IndexService.IndexStore.AddReturn | app/services/index_service.py:89-102 | taking one more symbol into the loop adds its return, when it has one, to the running sum and count |
| IndexService.IndexStore.CollectReturns | app/services/index_service.py:88-102 | the loop over the common symbols collects the sum and the number of the returns of the symbols with both closes |
| IndexService.IndexStore.DayReturn | app/services/index_service.py:81-107 | the day's return as the loop body computes it against the last performance row |
| IndexService.IndexStore.ParseDates | app/services/index_service.py:48 | every trading date parses, or the call fails with the invalid-format error; the parsed dates print back to the stored texts |
| IndexService.IndexStore.AppendWeights | app/services/index_service.py:76-79 | appends one `(date, symbol, 1/len(top_rows))` row per selected symbol, in ranking order |
| IndexService.IndexStore.ProcessDate | app/services/index_service.py:61-112 | one pass of the loop body does what the fold's step specifies |
| IndexService.IndexStore.RunDates | app/services/index_service.py:54-112 | the loop over the trading dates produces the fold's batches and level |
| IndexService.IndexStore.EvaluateBuild | app/services/index_service.py:31-133 | without changing the store, computes the outcome and the two new tables that `Build` specifies |
| IndexService.IndexStore.BuildIndex | app/services/index_service.py:29-133 | the returned outcome and the two new tables are those `Build` specifies; the market data is not modified |
| IndexService.IndexStore.GetIndexPerformance | app/services/index_service.py:136-153 | fails exactly on an unsupported argument type, and otherwise returns the stored rows in the bounds, the end falling back to the start |
| IndexService.IndexStore.GetIndexComposition | app/services/index_service.py:156-170 | fails exactly on an unsupported argument type, and otherwise returns the date's stored holdings by symbol |
| IndexService.IndexStore.ChangesAlong | app/services/index_service.py:191-212 | the loop carrying `prev_symbols` produces the change list over the dates |
| IndexService.IndexStore.GetCompositionChanges | app/services/index_service.py:173-215 | fails exactly on an unsupported argument type, and otherwise returns the change list over the composition dates of the range, without an end fallback |

## Left out

- SQLite itself is left out: connections, `detect_types`, transactions, and the SQL engine. Each query is modelled by what it selects and in which order.
- Type affinity of stored values is left out. Dates are stored as text written by `isoformat` or passed through as given.
- The ranking query's `ORDER BY market_cap DESC` is taken as an input order. `Ranked` states that it has one row per symbol with descending caps. Ties at rank 100 are decided by that given order, as SQL leaves them unspecified.
- The order in which Python iterates `common_syms` is left out. The sum is taken over the set, and `IndexSpec.TotalPick` shows it does not depend on the order.
- The price query `WHERE symbol = ? AND date IN (?, ?) ORDER BY date` is modelled as one lookup per date keyed by `(symbol, date)`. The previous date sorts first because processed dates are strictly ascending.
- Floating point is modelled as `real`. Rounding in weights, returns, division and compounding is not modelled.
- `date.fromisoformat` is modelled on the `YYYY-MM-DD` form only. The wider forms that newer Python versions accept are not.
- `datetime` arguments are left out. `Dates.DateValue` is a plain `date`. A `datetime` passes the `isinstance(d, dt.date)` test, but its `isoformat()` includes the time (`2024-01-02T00:00:00`), so it normalises to a bound other than the 10-character date text. `safe_parse_date` returns it unchanged.
- Reading `settings.index_base_level` from the environment variable `INDEX_BASE_LEVEL` (default 100.0, `app/config.py:12`) is left out. The model takes the value as the constructor argument.
- `IndexService.IndexStore.BuildIndex`: requires a nonzero base level. With a zero base the source raises `ZeroDivisionError` on the first processed date, and that failure is not modelled.
- `IndexService.IndexStore.EvaluateBuild` and `IndexBuild.Build`: require a nonzero base level too, for the same reason.
- A `CapTable` key that maps to no rows does not occur in SQLite: `SELECT DISTINCT date` lists only dates that have a row. In the source, the re-query at lines 61-71 finds nothing only when the `isoformat()` of the parsed date differs from the stored text. An example is a compact `20240102`, which newer Python versions parse; that form is left out above. A key with no rows stands for that case. `IndexRun.StepSkips` models the skip at lines 73-74 for it, and `IndexBuild.BuildReportsRange` counts such a date in `days_processed`, as `len(trading_dates)` does.
- `IndexQueries.CompositionSumsToOne`: states weights summing to 1 only for a date whose earlier composition rows are all of symbols it selects again. `INSERT OR REPLACE` replaces the row with the same `(date, symbol)` key and never deletes rows of other keys. So a symbol that an earlier build stored for the date and that has dropped out of the new selection keeps its old row next to the new ones. Only such rows keep the stored weights from summing to 1. `IndexBuild.BuildCompositions` states the general case exactly.
- Other repository files are not part of this model:
  - `app/db.py`: `_row_to_dict`, the `DATE` column converter and the connection settings. The model takes the stored date text as it is;
  - `ingest.py`, the network ingestion and synthetic data;
  - `app/main.py`, the HTTP routes;
  - `app/cache.py`, the Redis cache;
  - `app/utils/exporter.py`, the Excel export;
  - `app/utils/dates.py`;
  - the frontend and the scripts.
- Concurrency between requests is not modelled. Each call runs against one state of the tables.
