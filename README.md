# covid19_india dashboard: a verified model of its table computations

The covid19_india dashboard is a Streamlit app. It fetches the covid19india.org tables and
draws them. Around the drawing code, each mode handler does a few small computations on
numpy arrays and pandas frames:

- it turns cumulative counters into daily counts (`hstack((c[0], diff(c)))`);
- it builds a dictionary from state name to state code with a loop, then looks up the
  selected state;
- it bounds the window length to 7..max, takes the last n days and, for the statewise
  table (three rows per date), splits the column with stride 3;
- it computes mortality and positivity rates and drops the non-finite positivity values;
- it computes the percentage change over a window (older dashboard);
- it pivots the vaccine-dose table from one row per region to one row per date and drops
  the rows with a missing cell;
- it shows one region's daily doses, and the latest dose count of every state with their sum.

The model states each of these as Dafny functions over sequences. The map-building loop is
a method with a loop invariant. Python exceptions become `Err` values: `KeyError` for a
missing dictionary key or column, `IndexError` for `c[0]` / `iloc[-1]` on an empty
selection, and `RangeError` for a window outside the bounds the number input enforces.
Rates are `real`s. A zero denominator gives `None`, where numpy gives nan or inf.

Modules (one file each):

- `Wrappers`: Option, Result and the error kinds.
- `Seqs`: sums, the keep-the-present-entries filter behind `isfinite` masking and `dropna`,
  and row selection.
- `Series`: the daily derivation.
- `Window`: the window bound, `tail`, and the stride-3 split.
- `RegionMap`: the name→code dictionary.
- `Rates`: percentages, rate series and percentage change.
- `Statewise`: `infection_total`, and `infection_last_n_days` in both dashboard versions.
- `Districtwise`: `infection_last_n_days_districtwise`.
- `Positivity`: `infection_rate`.
- `Pivot`: `preprocess_vaccine_doses_df`.
- `Vaccine`: `vaccine_doses_daily` and `vaccine_doses_total`.

The older `covid19_india_dashboard.py` runs the same computations, so the same members model
it: its mortality column (lines 78-79) is Statewise.TotalsWithMortality, its dictionary loop
(lines 102-105) RegionMap.BuildMapping, its lookup (line 112) Statewise.StateCode, its window
bound, tail and stride-3 split (lines 107-121) Statewise.LastNDays, and the whole view with
its percentage changes (lines 99-130) Statewise.LastNDaysWithChange.

The daily derivation indexes `c[0]` first, so an empty selection raises IndexError:
Series.Deltas requires a non-empty series, and the modes that select rows return
`Err(IndexError)` when the selection is empty.

## Model

| member | source | states |
|---|---|---|
| Series.Deltas | src/covid19_india_dashboard.py:194-196 | the daily series has the length of the cumulative one; day 0 keeps c[0]; day i is c[i] - c[i-1], negative where the counter went down (no clamping) |
| Series.DeltasPrefixSum | src/covid19_india_dashboard.py:194 | summing the daily counts of days 0..k gives back the cumulative count c[k], negative days included |
| Series.CumulateDeltas | src/covid19_india_dashboard.py:291 | running totals of the daily series give back the cumulative series |
| Series.DeltasCumulate | src/covid19_india_dashboard.py:291 | the daily derivation of running totals gives back the per-day series (the other round trip) |
| Series.DeltasTotal | src/covid19_india_dashboard.py:289-291 | the daily counts add up to the latest cumulative count |
| Series.TrailingDeltasSum | src/covid19_india_dashboard.py:213 | the last n daily counts add up to the growth of the counter over those n days |
| Seqs.KeepSomeSpec | src/covid19_india_dashboard.py:252 | the filter keeps exactly the defined entries: value k is the entry at position SomeIndices[k]; those positions increase; no defined entry is missed; the result is no longer than the input |
| Seqs.KeepSomeAll | src/covid19_india_dashboard.py:252 | nothing is dropped exactly when every entry is defined, and then the filter is the identity |
| Seqs.Select | src/covid19_india_dashboard.py:184-188 | the selected rows are the rows satisfying the condition, in table order, none missed; the selection is empty exactly when no row satisfies it |
| RegionMap.LastIndex | src/covid19_india_dashboard.py:139-142 | None exactly when the name is absent; otherwise the position of its last occurrence |
| RegionMap.MappingOfSpec | src/covid19_india_dashboard.py:139-142 | after the loop, the keys are exactly the names, and each name maps to the code at its last occurrence |
| RegionMap.BuildMapping | src/covid19_india_dashboard.py:139-142 | the loop fails with IndexError exactly when the code array is shorter than the name array, and otherwise builds MappingOf(names, codes) |
| RegionMap.Lookup | src/covid19_india_dashboard.py:149 | a present key gives its code; an absent key is a KeyError for that key, never a default |
| RegionMap.LookupBuilt | src/covid19_india_dashboard.py:149 | looking up in the built dictionary gives the code at the name's last occurrence, or KeyError(name) for an absent name |
| Window.CheckWindow | src/covid19_india_dashboard.py:144-148 | a window length is accepted exactly when 7 <= n <= max; otherwise it is a RangeError naming n and the bounds |
| Window.Tail | src/covid19_india_dashboard.py:151 | `tail(k)` has min(k, len) entries and is the suffix of the table |
| Window.EveryThirdSpec | src/covid19_india_dashboard.py:156 | `xs[::3]` has ceil(len/3) entries, entry j being xs[3j] |
| Window.StrideOfTriples | src/covid19_india_dashboard.py:156-158 | on 3n rows, the stride-3 slice at offset 0, 1 or 2 has n entries, entry j being row 3j + offset |
| Window.Interleave | src/covid19_india_dashboard.py:156-158 | interleaving three series of one length puts a[j], b[j], c[j] at rows 3j, 3j+1, 3j+2 |
| Window.InterleaveStrides | src/covid19_india_dashboard.py:156-158 | the three stride-3 slices of 3n rows have n entries each, and interleaving them gives the rows back (the split loses nothing) |
| Rates.Percent | src/covid19_india_dashboard.py:116 | `100 * num / den` is undefined exactly when den is 0, and otherwise den times it is 100 times num |
| Rates.RateSeries | src/covid19_india_dashboard.py:251 | the element-wise rate has the input length, and each entry is the percentage of its own pair of counts |
| Rates.MortalityInRange | src/covid19_india_dashboard.py:250 | when 0 <= deaths <= confirmed and confirmed > 0, the mortality rate is defined and lies in 0..100 |
| Rates.PositivityRates | src/covid19_india_dashboard.py:251-252 | the filtered positivity series is no longer than the input, and exactly as long when every day had tests |
| Rates.PositivityDays | src/covid19_india_dashboard.py:251-252 | positivity value k is the rate of day SomeIndices[k], which had tests; those days increase; every day with tests is among them |
| Rates.PercentChange | covid19_india_dashboard.py:129-130 | the percentage change is undefined exactly when the first entry is 0, and otherwise first * (1 + change/100) is the last entry |
| Rates.PercentChangeSign | covid19_india_dashboard.py:129-130 | from a positive start, the change is positive exactly when the window ends higher, and 0 exactly when it ends level |
| Statewise.TotalsWithMortality | src/covid19_india_dashboard.py:115-116 | every total row is kept as it is and gets its mortality rate, undefined exactly where Confirmed is 0 |
| Statewise.StateCode | src/covid19_india_dashboard.py:136-149 | the dictionary gives the selected state the code of its last row in the total table, or KeyError(state) when the state has no row |
| Statewise.SplitWindow | src/covid19_india_dashboard.py:151-158 | the window's dates are those of the first and last of the last 3n rows; the three series have n entries, day j read from rows first + 3j, +1, +2 of the state's column |
| Statewise.LastNDays | src/covid19_india_dashboard.py:144-158 | RangeError outside 7..rows//3; KeyError(state) for a state missing from the dictionary; KeyError(code) for a code that is not a column of the daily table; success exactly when the window is in range and the state's code is a column; the result is then SplitWindow of that code |
| Statewise.TailOfTriples | src/covid19_india_dashboard.py:151 | on a table laid out in date triples, the last 3n rows are n date triples of Confirmed, Recovered and Deceased rows |
| Statewise.SplitWindowAligned | src/covid19_india_dashboard.py:152-158 | on the published layout, day j is read from the Confirmed, Recovered and Deceased rows of one date, and the end date is the date of the last day |
| Statewise.LastNDaysWithChange | covid19_india_dashboard.py:99-130 | the older view succeeds and fails exactly as LastNDays; on success its window is that of LastNDays, with n >= 7 days, and the two changes are the percentage changes from the first to the last confirmed and deceased counts |
| Districtwise.TailOfDeltas | src/covid19_india_dashboard.py:213 | the last n daily counts are the day-by-day changes of the cumulative series over those days, and they add up to its growth over the window |
| Districtwise.TrailingWindow | src/covid19_india_dashboard.py:198-227 | the dates are those of rows len-n and len-1; each of the three series is the daily window of its counter |
| Districtwise.LastNDays | src/covid19_india_dashboard.py:184-227 | IndexError when the district has no row; RangeError outside 7..rows; success exactly otherwise, with the trailing window |
| Positivity.RateWindow | src/covid19_india_dashboard.py:250-265 | dates of rows len-n and len-1; mortality of the latest row; the last n defined positivity rates; the daily tests of the last n rows |
| Positivity.CompleteDayRow | src/covid19_india_dashboard.py:236 | a row survives `dropna` exactly when none of its Date, State, Confirmed, Deceased and Tested cells is missing, and then keeps every cell |
| Positivity.DropIncompleteSpec | src/covid19_india_dashboard.py:236 | `dropna` keeps exactly the complete rows, in order, each with its cells; no complete row is dropped |
| Positivity.InfectionRates | src/covid19_india_dashboard.py:233-265 | `dropna` comes first; IndexError when the state has no complete row; RangeError outside 7..(number of defined rates); success exactly otherwise, with the corrected window PairedRateWindow (see Findings) |
| Positivity.RateWindowValues | src/covid19_india_dashboard.py:252-259 | positivity value j is the rate of day RateDays[m + j]: the values are the rates of the last n days that had tests, in order |
| Positivity.RateWindowAlignedWhenAllTested | src/covid19_india_dashboard.py:252-259 | when every day had tests, positivity value j is the rate of row len-n+j, the row of test count j and of the dates shown |
| Positivity.LatestUntestedDayMisaligns | src/covid19_india_dashboard.py:252-259 | when the latest row adds no tests, its rate is dropped and the last value shown comes from an earlier row, yet the end date shown is the latest row's |
| Positivity.PairedRateWindow | src/covid19_india_dashboard.py:252-259 | the corrected view shows the same positivity values, test counts and mortality as RateWindow |
| Positivity.PairedRateWindowDates | src/covid19_india_dashboard.py:252-259 | in the corrected view, the start and end dates are the dates of the rows of the first and the last positivity value plotted |
| Positivity.UntestedLatestStartsEarly | src/covid19_india_dashboard.py:252-265 | when the latest row adds no tests, the first of the last n defined rates comes from a row before the last n rows |
| Positivity.PairedTestsStartLater | src/covid19_india_dashboard.py:256-265 | in the corrected view, when the latest row adds no tests, the start date is that of a row before the first of the n rows whose daily tests are plotted |
| Pivot.Transpose | src/covid19_india_dashboard.py:272-274 | the date-keyed table keeps the regions as columns and has a row per date header, in order; its cell (d, r) is the wide cell (r, d) |
| Pivot.ToWide | src/covid19_india_dashboard.py:272 | the inverse reshape gives a rectangular region-keyed table |
| Pivot.TransposeRoundTrip | src/covid19_india_dashboard.py:272-274 | reshaping back recovers the published table exactly |
| Pivot.CompleteRow | src/covid19_india_dashboard.py:275 | a row is kept exactly when it has no missing cell, and then keeps its date and its cells |
| Pivot.DropMissing | src/covid19_india_dashboard.py:275 | `dropna` keeps the columns, never adds rows, and keeps every row one cell per column |
| Pivot.Preprocess | src/covid19_india_dashboard.py:271-276 | the preprocessed table keeps the region columns, one cell per column in every row |
| Pivot.PreprocessSpec | src/covid19_india_dashboard.py:271-276 | row k is date column KeptDates[k] with every cell equal to the wide cell; kept dates keep their order; only dates with a missing cell are dropped; the row count equals the number of dates exactly when nothing is missing |
| Vaccine.RegionColumn | src/covid19_india_dashboard.py:288 | the region's column has a cell per date row, row k's cell of that region |
| Vaccine.ColumnView | src/covid19_india_dashboard.py:282-291 | first and last dates of the table; the latest cumulative count as total; daily doses whose running totals are the column and whose sum is the total |
| Vaccine.DailyDoses | src/covid19_india_dashboard.py:279-291 | IndexError when no date survives dropna; KeyError for a region that is not a column; success exactly otherwise, with the view of the region's column |
| Vaccine.DailyDosesFromTable | src/covid19_india_dashboard.py:279-291 | in the published table, the dates shown are the first and last complete date columns, and the region's cell at each of them is the running sum of the daily doses, ending at the total shown |
| Vaccine.StateColumns | src/covid19_india_dashboard.py:306-307 | `[1:-1]` past the Date column: every column but the last, in order |
| Vaccine.TotalDoses | src/covid19_india_dashboard.py:298-308 | IndexError exactly when no date survives dropna; otherwise every column but the last, its value in the latest row, and the sum of those values |
| Vaccine.TotalMatchesDaily | src/covid19_india_dashboard.py:288-308 | the count the total mode gives a state is the total the daily mode shows for it, when no other column has its name |
| Vaccine.TotalIsSumOfDaily | src/covid19_india_dashboard.py:291-308 | the total shown is the sum, over the states, of their daily doses over the whole table |

## Left out

- Streamlit widgets, titles, markdown and the `number_input` default value 60: user interface.
  The bounds the number input enforces are modelled as a RangeError.
- Matplotlib chart builders and the random colour permutation: rendering, and nondeterministic.
- `pd.read_csv`, the download links and the `modes` / `main` dispatch: network I/O and user
  interface. The fetched tables are parameters of the model.
- The selection widgets: the selected state, district or region is a parameter. A name the
  widget could not offer is modelled by its error case.
- `np.around(..., 2)` rounding: the rates are exact reals.
- nan and ±inf are both `None`.
- `astype(np.int32)` truncation and overflow: counts are unbounded integers.
- The statewise "latest date" mode (`infection_latest_date`): it only selects and draws
  columns, with no computation.
- Statewise.LastNDays: takes the daily table to be a table, every row having a cell in every
  code column (WellFormed). It does not require the rows to come in Confirmed / Recovered /
  Deceased triples, as the code does not check them; SplitWindowAligned states what holds
  when they do.
- Positivity.PairedRateWindow: the corrected dates match the positivity plot only. The
  daily-tests plot under the same title still shows the last n rows. When the latest row adds
  no tests, those rows begin after the start date shown (PairedTestsStartLater).
- Vaccine.DailyDoses: when two region columns share a name, pandas returns both columns. The
  model reads the last one.

## Findings

| source | as written | input that shows it | evidently intended | confidence | as-written member | corrected member |
|---|---|---|---|---|---|---|
| src/covid19_india_dashboard.py:252-259 | the positivity rates are filtered with `isfinite`, but the dates in the title are taken from the unfiltered rows (`all_dates[-n]`, `all_dates[-1]`) | a state whose latest row has the same Tested count as the row before: that day's rate is dropped, the last value plotted is an earlier day's, and the title still ends at the latest date | filter the dates with the same mask as the rates, so the title's dates are the dates of the first and last positivity value plotted (the daily-tests plot is not covered: see Left out) | not executed | Positivity.LatestUntestedDayMisaligns | Positivity.PairedRateWindowDates |
