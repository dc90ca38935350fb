# Option-Greeks sentiment tracker: a Dafny model of its pure core

The repository is a set of scripts that poll a brokerage for NIFTY option
quotes. They compute or read the options' Greeks (delta, vega, theta), sum
them inside a delta band and log the sums for a small dashboard. This
project models the sequential logic inside that glue and proves its
properties:

- **Option-chain resolution**, in its three variants (`Chain`, `Backfill.Prepare`,
  `Tracker.Resolve`, `FetchOption.Select`). Each filters the instrument dump to
  one underlying's options, picks the nearest expiry and keeps that expiry's
  strikes. Only `fetch_option_data.py` discards expired contracts first.
- **Delta-band aggregation** (`Greeks`, `Backfill`, `Tracker`). An instrument
  counts only if 0.05 <= |delta| <= 0.60. The replay script sums calls (CE)
  and puts (every other type) separately. The tracker sums signed Greeks over
  both sides.
- **Opening baseline and change log** (`Backfill.ReplayDay`, `Dashboard`). The
  first snapshot built during the day is the baseline, and every record is
  snapshot minus baseline. The dashboard repeats that subtraction on the last
  rows of its two sheets and colours each change by its sign.
- **Trading calendar** (`Calendar`). `get_last_trading_day` walks back past
  weekends and the 2025 holidays. The replay script has its own
  "market closed" guard.
- **Candle serialisation** (`Ohlc`): one six-cell row per candle, in header order.

Conventions:

- Dates are proleptic Gregorian day ordinals, as Python's `date.toordinal()`
  gives them, with `weekday == (ordinal + 6) % 7`.
- Greek values are exact `real`s.
- Python's list comprehensions are `Seqs.Filter` and `Seqs.Map`, both of
  which keep order.
- Every `expiries[0]` on an empty list (an `IndexError`) is a `None` or
  error outcome, not a precondition.
- External data becomes plain parameters: the instrument dump, quotes, LTP
  results, the Black-Scholes closed form, the clock and the files or sheets.

Three behaviours of the scripts are worth naming, because a reader might
expect otherwise:

- `backfill_greeks.py` and `sentiment_tracker.py` take the smallest expiry
  overall, never comparing it with today, so an expired contract can be
  chosen (see `FetchOption.ExpiredContractOnlyBackfillChooses`). Only
  `fetch_option_data.py` drops expired contracts first.
- `calculate_greeks` in `backfill_greeks.py` returns (0, 0, 0) only when
  evaluating the closed form raises; it has no other guard for degenerate
  inputs.
- The tracker writes the log's header only when the log file does not exist
  yet; it never inspects or rewrites the header of an existing file.

## Model

| member | source | states |
|---|---|---|
| Greeks.CalculateGreeks | backfill_greeks.py:65-78 | the closed form's value when it succeeds; when it raises, exactly (0,0,0), whose delta is therefore outside the band |
| Chain.MinExpiry | sentiment_tracker.py:47-48 | the first element of the sorted distinct expiries is an expiry present in the list and no later than any instrument's expiry |
| Chain.NearestUnique | sentiment_tracker.py:47-48 | there is only one nearest expiry |
| Chain.NearestChain | backfill_greeks.py:58-61 | none exactly when the option list is empty; otherwise the nearest expiry, plus exactly the options with that expiry (never empty), each as many times as the list holds it |
| Backfill.Prepare | backfill_greeks.py:36-61 | stops as market-closed exactly when today is a weekend or one of the three listed holidays; otherwise fails exactly when no NFO-OPT row of the symbol exists; otherwise the minimum expiry of the chain (expired or not) and exactly the chain rows with it, each as many times as the file holds it |
| Backfill.PrepareKeepsOrder | backfill_greeks.py:58-61 | the chain keeps file order: on a file split in two, it is the first part's chain rows followed by the second part's |
| Backfill.BuildSnapshot | backfill_greeks.py:97-117 | the six running sums equal the sums over the CE rows, and over the other rows, that were evaluated and have 0.05 <= abs(delta) <= 0.60 |
| Backfill.RowAddsToItsSideOnly | backfill_greeks.py:107-117 | one more row adds its delta, vega and theta to its own side only, and only when it is included; skipped and out-of-band rows change nothing |
| Backfill.FallbackNeverCounted | backfill_greeks.py:77-117 | a row whose closed form raised (0,0,0 fallback), or whose lookup raised (skipped), leaves both sides' contributions unchanged |
| Backfill.SidesCountIncluded | backfill_greeks.py:107-115 | the CE and PE counts add up to the number of included rows, so each included row is counted on exactly one side |
| Backfill.SidesPartitionIncluded | backfill_greeks.py:107-115 | the CE sums plus the PE sums equal the sums over all included rows |
| Backfill.SideDeltaBound | backfill_greeks.py:107-115 | abs(delta sum) of each side is at most 0.60 times the number of rows counted on that side |
| Backfill.ReplayDay | backfill_greeks.py:89-148 | the baseline is the first built interval's snapshot (none if no interval is built); the log has one record per built interval, in order, equal to that snapshot minus the baseline; the first record is all zeros |
| Backfill.BaselineNeverReassigned | backfill_greeks.py:129-131 | once some interval is built, later intervals never change the baseline |
| Backfill.FailedIntervalAddsNothing | backfill_greeks.py:146-148 | an interval that raised adds no record |
| Backfill.RecordsRecoverSnapshots | backfill_greeks.py:134-142 | baseline plus a record's change gives back that interval's snapshot, side by side |
| Backfill.RecordsChronological | backfill_greeks.py:92-142 | strictly increasing interval timestamps give strictly increasing record timestamps |
| Backfill.GuardLaxerThanCalendar | backfill_greeks.py:36-43 | every 2025 trading day passes the guard; 1 May 2025 passes it although the full holiday calendar closes it |
| Tracker.Resolve | sentiment_tracker.py:40-51 | fails exactly when no instrument is a NIFTY CE/PE of NFO-OPT; otherwise returns the smallest such expiry, not compared with today, and exactly the tracked instruments with that expiry |
| Tracker.ResolveMultiplicity | sentiment_tracker.py:40-51 | a tracked instrument with the chosen expiry occurs in the chain as often as in the dump; any other instrument does not occur |
| Tracker.ResolveKeepsOrder | sentiment_tracker.py:40-51 | the chain keeps dump order: on a dump split in two, it is the first part's chain instruments followed by the second part's |
| Tracker.KeptRows | sentiment_tracker.py:62-75 | no more rows than instruments, and every row's delta has abs in [0.05, 0.60] |
| Tracker.MissingGreeksSkipped | sentiment_tracker.py:62-69 | an instrument with no greeks entry, an empty one, or one without a delta (read as 0) adds no row |
| Tracker.OutOfBandSkipped | sentiment_tracker.py:67-69 | an instrument with a present entry whose abs(delta) is outside [0.05, 0.60] adds no row |
| Tracker.KeptInstrumentAddsItsRow | sentiment_tracker.py:68-75 | an instrument with a present entry and an in-band delta appends exactly one row: signed delta, and vega and theta defaulting to 0 |
| Tracker.Summarise | sentiment_tracker.py:79-92 | no entry exactly when no row was kept; otherwise one entry stamped with the given time, whose delta, vega and theta sums equal the CE rows' sums plus the other rows' sums, and whose abs(delta sum) is at most 0.60 per row |
| Tracker.RowsDeltaBound | sentiment_tracker.py:68-85 | rows that are all inside the band have abs(delta sum) at most 0.60 times their number |
| Tracker.SumsCoverBothSides | sentiment_tracker.py:83-85 | the three sums cover all kept rows: they equal the CE rows' sums plus the other rows' sums |
| Tracker.AppendEntry | sentiment_tracker.py:94-98 | a new log is header then entry; an existing log is kept as a prefix with the entry appended and gains no header |
| Tracker.Run | sentiment_tracker.py:40-98 | fails exactly when no tracked option exists; logs nothing exactly when no strike is kept; otherwise appends exactly one entry, stamped with the given time, whose sums are those of the rows kept from the resolved chain, split as CE rows plus the other rows |
| Tracker.HeaderWrittenOnce | sentiment_tracker.py:94-98 | from no log, any series of runs yields one header followed by exactly the logged entries in run order |
| Tracker.FreshLogHeaderAtTop | sentiment_tracker.py:94-98 | such a log starts with the header and holds no other header line |
| FetchOption.Select | fetch_option_data.py:30-38 | fails exactly when every NIFTY NFO-OPT option has expired; otherwise the smallest unexpired expiry and exactly the options with it, none of them expired |
| FetchOption.SelectKeepsOrder | fetch_option_data.py:38 | the selection keeps dump order: on a split dump it is the selection of the first part followed by that of the second |
| FetchOption.SelectMultiplicity | fetch_option_data.py:30-38 | an option with the chosen expiry occurs in the selection as often as in the dump; any other instrument does not occur |
| FetchOption.AgreesWithBackfillWhenNothingExpired | fetch_option_data.py:30-38 | with no expired option, this selection and the replay script's choose the same chain, and fail together |
| FetchOption.ExpiredContractOnlyBackfillChooses | fetch_option_data.py:34-35 | with one option that expired yesterday, this selection fails while the replay script chooses that contract |
| Calendar.GetLastTradingDay | fetch_historical_data.py:63-67 | the result is a trading day not after the input; every day after it, up to and including the input, is a weekend day or a holiday; a trading-day input is returned unchanged |
| Calendar.LastTradingDayUnique | fetch_historical_data.py:63-67 | the latest trading day on or before a date is unique |
| Calendar.RollbackIdempotent | fetch_historical_data.py:63-67 | rolling a result back again returns it unchanged |
| Calendar.AprilFourteenthRollsBackToFriday | fetch_historical_data.py:55-67 | Monday 2025-04-14, a holiday, rolls back past the weekend to Friday 2025-04-11 |
| Ohlc.CandleRow | fetch_historical_data.py:102-109 | six cells, each equal to the candle's field named by the header in the same position; never equal to the header row |
| Ohlc.RowRoundTrip | fetch_historical_data.py:106-109 | reading a written row gives back the candle; the header row reads as no candle |
| Ohlc.Rows | fetch_historical_data.py:106-110 | one row per candle, in input order, each reading back as its candle |
| Ohlc.AppendAsWritten | fetch_historical_data.py:93-113 | no candles leave the sheet unchanged (the `date` lookup raises first); otherwise the earlier sheet is kept as a prefix, then one header row, then rows that are not headers and read back as the candles in order |
| Ohlc.AsWrittenRepeatsHeader | fetch_historical_data.py:101-103 | two runs with candles on an empty sheet leave a second header row inside the data |
| Ohlc.WriteCleared | fetch_historical_data.py:93-113 | no candles leave the sheet unchanged (the `date` lookup raises before the clear); otherwise header first, no other header row, then each candle readable in order, whatever the sheet held before |
| Ohlc.ClearedRunsDoNotAccumulate | fetch_historical_data.py:101-103 | after a run with the clear and at least one candle, the sheet depends only on that run's candles |
| Dashboard.ColourOf | main_app.py:76-77 | green iff the value is > 0, red iff < 0, black iff 0 |
| Dashboard.ColourOfNegation | main_app.py:76-77 | negating a value swaps green and red and keeps black |
| Dashboard.ChangeFromOpen | main_app.py:56-73 | nothing is computed exactly when either sheet is empty; otherwise the last opening row plus each change gives back the last log row |
| Dashboard.Colours | main_app.py:66-80 | six colours in column order, each green or red exactly when its change is positive or negative |
| Dashboard.ColourComparesWithOpen | main_app.py:62-77 | a column is green exactly when its latest value is above the opening value, and red exactly when it is below |
| Dashboard.UnchangedIsAllBlack | main_app.py:66-77 | a latest row equal to the baseline gives six zero changes, all black |
| Dashboard.AgreesWithReplayRecord | main_app.py:62-73 | given the replay baseline as the opening row and a built snapshot as the latest row, the page shows that snapshot's change record |

## Left out

- Black-Scholes closed form (backfill_greeks.py:67-75): it uses floating-point `log`, `sqrt`, `exp` and the normal distribution. It is an opaque `Option<Triple>` input, so only the (0,0,0) fallback is modelled, and the vega/100 and theta/365 scaling lives inside that opaque value.
- Floating-point rounding of sums and differences, and the `{:.2f}` rendering: values are exact reals.
- Credentials, tokens and token write-back; the instrument download and CSV cache; quote, LTP and historical-candle calls. All of them are external I/O, and their results are parameters.
- The pandas 5-minute interval range, time to expiry in seconds, and timezone localisation: datetime library work. Intervals arrive as (timestamp, snapshot or failure) pairs, and a failed interval (for instance a missing spot price) is a None snapshot.
- File and sheet writes of the opening snapshot and of the final log; printing; `input()` for the implied volatility.
- The Streamlit page layout and auto-refresh.
- fetch_option_data.py's random simulated Greeks and its truncated tail (lines 40-44). Its first line comments out the KiteConnect import, so only the pure selection is modelled.
- fetch_historical_data.py's try/except around fetching and writing candles (lines 85-113): the empty-candle failure, which raises before any write, is modelled; a failure part-way through writing is not.
- The tracker log's timestamp comes from the clock, so it is the `time` parameter.
- Calendar.GetLastTradingDay: dates are unbounded ordinals, so the walk back never stops at 0001-01-01. In fetch_historical_data.py:66, stepping back from ordinal 1 raises `OverflowError`; the model instead returns an ordinal below 1 (for example, input 1 with holiday set {1} gives -2). That case is not modelled.
- Backfill.ReplayDay: in backfill_greeks.py:129-132 the baseline is assigned before the opening snapshot's CSV write and print, all inside the interval's `try`. If that write or print raises, the script keeps the baseline but logs no record for that interval, and the next record is then not all zeros. The model has no such interval outcome: it treats an interval as either built and recorded or failed with nothing set. Its promises of one record per built interval and an all-zero first record hold only when those writes succeed.
- Expiry text: the replay script's expiry column is read from CSV as ISO date text, whose text order matches date order. It is modelled as a day ordinal.

## Findings

| source | as written | input that shows it | evidently intended | confidence | as-written member | corrected member |
|---|---|---|---|---|---|---|
| fetch_historical_data.py:101-103 | the step commented "Clear sheet and write headers" only appends a header row after whatever the sheet holds | run the script on two days with candles against the same sheet: the second day's header row lands between the two days' candles | when the run has candles, clear the sheet, then write one header row and that run's candles; a run without candles still raises at the `date` lookup and leaves the sheet as it was | medium, not executed | Ohlc.AppendAsWritten (shown by Ohlc.AsWrittenRepeatsHeader) | Ohlc.WriteCleared (with Ohlc.ClearedRunsDoNotAccumulate) |
