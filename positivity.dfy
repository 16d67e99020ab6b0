/** The infection-rates mode (`infection_rate`): the latest mortality rate of a state and the
    trailing window of its daily positivity rates and daily test counts. */
module Positivity {
  import opened Wrappers
  import opened Seqs
  import opened Series
  import opened Window
  import opened Rates

  /** A row of the state-by-date table as read, any of its Date, State, Confirmed, Deceased and
      Tested cells possibly missing. */
  datatype RawDayRow = RawDayRow(date: Option<string>, state: Option<string>, confirmed: Option<int>,
                                 deceased: Option<int>, tested: Option<int>)

  /** A row of the state-by-date table with every cell present (the cumulative counts). */
  datatype StateDayRow = StateDayRow(date: string, state: string, confirmed: int, deceased: int, tested: int)

  /** The row with its cells unwrapped, or None when a cell is missing. */
  function CompleteDayRow(raw: RawDayRow): (r: Option<StateDayRow>)
    ensures r.Some? <==>
      raw.date.Some? && raw.state.Some? && raw.confirmed.Some? && raw.deceased.Some? && raw.tested.Some?
    ensures r.Some? ==>
      raw == RawDayRow(Some(r.value.date), Some(r.value.state), Some(r.value.confirmed),
                       Some(r.value.deceased), Some(r.value.tested))
  {
    if raw.date.Some? && raw.state.Some? && raw.confirmed.Some? && raw.deceased.Some? && raw.tested.Some?
    then Some(StateDayRow(raw.date.value, raw.state.value, raw.confirmed.value, raw.deceased.value, raw.tested.value))
    else None
  }

  function DayMask(raw: seq<RawDayRow>): seq<Option<StateDayRow>>
  {
    seq(|raw|, i requires 0 <= i < |raw| => CompleteDayRow(raw[i]))
  }

  /** `dropna()` on the table as read: the rows without a missing cell, in order. */
  function DropIncomplete(raw: seq<RawDayRow>): seq<StateDayRow>
  {
    KeepSome(DayMask(raw))
  }

  /** Kept row k is the complete raw row KeptRows(raw)[k]; the kept rows keep their order; a row
      is dropped only when one of its cells is missing. A day without a Tested cell therefore
      vanishes, and the next daily test count spans both days. */
  lemma DropIncompleteSpec(raw: seq<RawDayRow>)
    ensures var kept, t := SomeIndices(DayMask(raw)), DropIncomplete(raw);
      && |kept| == |t| <= |raw|
      && (forall k :: 0 <= k < |t| ==> kept[k] < |raw| && CompleteDayRow(raw[kept[k]]) == Some(t[k]))
      && (forall k, l :: 0 <= k < l < |kept| ==> kept[k] < kept[l])
      && (forall i :: 0 <= i < |raw| && CompleteDayRow(raw[i]).Some? ==> i in kept)
  {
    KeepSomeSpec(DayMask(raw));
  }

  /** What the mode shows: the window's dates, the latest mortality rate, and the trailing
      positivity rates and daily test counts. */
  datatype RateView = RateView(startDate: string, endDate: string, latestMortality: Option<real>,
                               positivity: seq<real>, testsDaily: seq<int>)

  /** The rows of the selected state, in table order. */
  function StateRows(rows: seq<StateDayRow>, state: string): seq<StateDayRow>
  {
    Select(rows, (row: StateDayRow) => row.state == state)
  }

  function Confirmed(rows: seq<StateDayRow>): seq<int>
  {
    seq(|rows|, i requires 0 <= i < |rows| => rows[i].confirmed)
  }

  function Tested(rows: seq<StateDayRow>): seq<int>
  {
    seq(|rows|, i requires 0 <= i < |rows| => rows[i].tested)
  }

  /** The per-day positivity rate of every row, undefined on a day whose test count did not grow. */
  function DailyRates(sel: seq<StateDayRow>): seq<Option<real>>
    requires |sel| > 0
  {
    RateSeries(Deltas(Confirmed(sel)), Deltas(Tested(sel)))
  }

  /** The positivity series after dropping the undefined rates. */
  function DefinedRates(sel: seq<StateDayRow>): seq<real>
    requires |sel| > 0
  {
    PositivityRates(Deltas(Confirmed(sel)), Deltas(Tested(sel)))
  }

  /** The days the defined rates come from, in order. */
  function RateDays(sel: seq<StateDayRow>): seq<nat>
    requires |sel| > 0
  {
    SomeIndices(DailyRates(sel))
  }

  /** The view of the state's rows as the dashboard builds it: the dates are those of the last
      n ROWS, while the positivity values are the last n DEFINED rates; the test counts are
      the daily tests of the last n rows; the mortality rate is that of the latest row. */
  function RateWindow(sel: seq<StateDayRow>, n: nat): (v: RateView)
    requires |sel| > 0 && 0 < n <= |DefinedRates(sel)|
    ensures n <= |sel|
    ensures v.startDate == sel[|sel| - n].date && v.endDate == sel[|sel| - 1].date
    ensures v.latestMortality == Percent(sel[|sel| - 1].deceased, sel[|sel| - 1].confirmed)
    ensures |v.positivity| == n
    ensures forall j :: 0 <= j < n ==> v.positivity[j] == DefinedRates(sel)[|DefinedRates(sel)| - n + j]
    ensures |v.testsDaily| == n
    ensures forall j :: 0 <= j < n ==> v.testsDaily[j] == Deltas(Tested(sel))[|sel| - n + j]
  {
    var mortality := RateSeries(seq(|sel|, i requires 0 <= i < |sel| => sel[i].deceased), Confirmed(sel));
    var rates := DefinedRates(sel);
    var tests := Deltas(Tested(sel));
    RateView(sel[|sel| - n].date, sel[|sel| - 1].date, mortality[|sel| - 1],
             rates[|rates| - n..], tests[|sel| - n..])
  }

  /** `infection_rate`: `dropna` first, then an IndexError when the state has no complete row
      (`cum[0]` of an empty array), a range error for a window outside 7..(number of defined
      positivity rates), and otherwise the window of the state's rows, with its dates taken
      from the rows of the positivity values shown (PairedRateWindow; RateWindow is the window
      as written). */
  function InfectionRates(raw: seq<RawDayRow>, state: string, n: int): (r: Result<RateView>)
    ensures StateRows(DropIncomplete(raw), state) == [] ==> r == Err(IndexError)
    ensures var sel := StateRows(DropIncomplete(raw), state);
      && (|sel| > 0 && !(MinDays <= n <= |DefinedRates(sel)|) ==> r == Err(RangeError(n, MinDays, |DefinedRates(sel)|)))
      && (r.Ok? <==> |sel| > 0 && MinDays <= n <= |DefinedRates(sel)|)
      && (r.Ok? ==> 0 < n <= |DefinedRates(sel)| && r.value == PairedRateWindow(sel, n))
  {
    var sel := StateRows(DropIncomplete(raw), state);
    if |sel| == 0 then Err(IndexError)
    else
      match CheckWindow(n, |DefinedRates(sel)|)
      case Err(e) => Err(e)
      case Ok(days) => Ok(PairedRateWindow(sel, days))
  }

  /** Positivity value j of the window is the rate of row RateDays(sel)[|DefinedRates(sel)| - n + j]:
      the values are the rates of the last n days that had tests, in order. */
  lemma RateWindowValues(sel: seq<StateDayRow>, n: nat)
    requires |sel| > 0 && 0 < n <= |DefinedRates(sel)|
    ensures |RateDays(sel)| == |DefinedRates(sel)|
    ensures forall j :: 0 <= j < n ==>
      var k := |DefinedRates(sel)| - n + j;
      RateDays(sel)[k] < |sel| && DailyRates(sel)[RateDays(sel)[k]] == Some(RateWindow(sel, n).positivity[j])
  {
    var rates := DailyRates(sel);
    assert DefinedRates(sel) == KeepSome(rates);
    KeepSomeSpec(rates);
  }

  /** When every day had tests, nothing is dropped and the window lines up: positivity value j
      is the rate of row |sel| - n + j, the row of test count j, so the start and end dates
      are those of the first and the last value. */
  lemma RateWindowAlignedWhenAllTested(sel: seq<StateDayRow>, n: nat)
    requires |sel| > 0 && 0 < n <= |DefinedRates(sel)|
    requires forall i :: 0 <= i < |sel| ==> Deltas(Tested(sel))[i] != 0
    ensures n <= |sel|
    ensures var v := RateWindow(sel, n);
      forall j :: 0 <= j < n ==> DailyRates(sel)[|sel| - n + j] == Some(v.positivity[j])
  {
    var rates := DailyRates(sel);
    assert DefinedRates(sel) == KeepSome(rates);
    KeepSomeAll(rates);
  }

  /** As written, the dates do not follow the dropped rates: when the latest row adds no
      tests, its rate is dropped, the last positivity value shown is the rate of an earlier
      row, and yet the end date shown is the latest row's. */
  lemma LatestUntestedDayMisaligns(sel: seq<StateDayRow>, n: nat)
    requires |sel| > 0 && 0 < n <= |DefinedRates(sel)|
    requires Deltas(Tested(sel))[|sel| - 1] == 0
    ensures var v, days := RateWindow(sel, n), RateDays(sel);
      && |days| == |DefinedRates(sel)|
      && DailyRates(sel)[|sel| - 1].None?
      && days[|days| - 1] < |sel| - 1
      && DailyRates(sel)[days[|days| - 1]] == Some(v.positivity[n - 1])
      && v.endDate == sel[|sel| - 1].date
  {
    var rates := DailyRates(sel);
    KeepSomeSpec(rates);
    assert DefinedRates(sel) == KeepSome(rates);
  }

  function Dates(rows: seq<StateDayRow>): seq<string>
  {
    seq(|rows|, i requires 0 <= i < |rows| => rows[i].date)
  }

  /** The defined rates filtered together with their dates, as one paired operation. */
  function DatedRates(sel: seq<StateDayRow>): seq<(string, real)>
    requires |sel| > 0
  {
    KeepSome(Paired(DailyRates(sel), Dates(sel)))
  }

  /** There are as many dated rates as defined rates and as days they come from. */
  lemma DatedRatesLength(sel: seq<StateDayRow>)
    requires |sel| > 0
    ensures |DatedRates(sel)| == |DefinedRates(sel)| == |RateDays(sel)|
  {
    var rates := DailyRates(sel);
    assert DefinedRates(sel) == KeepSome(rates);
    KeepSomePaired(rates, Dates(sel));
  }

  /** Dated rate k is defined rate k with the date of the row it was computed from. */
  lemma DatedRateAt(sel: seq<StateDayRow>, k: nat)
    requires |sel| > 0 && k < |DefinedRates(sel)|
    ensures |DatedRates(sel)| == |DefinedRates(sel)| == |RateDays(sel)|
    ensures RateDays(sel)[k] < |sel|
    ensures DailyRates(sel)[RateDays(sel)[k]] == Some(DefinedRates(sel)[k])
    ensures DatedRates(sel)[k] == (sel[RateDays(sel)[k]].date, DefinedRates(sel)[k])
  {
    var rates := DailyRates(sel);
    assert DefinedRates(sel) == KeepSome(rates);
    KeepSomePaired(rates, Dates(sel));
    KeepSomeSpec(rates);
  }

  /** The view with the filter applied to (date, rate) pairs: the positivity values, the test
      counts and the mortality rate of RateWindow, while the dates come from the kept pairs, so
      that they match the positivity plot. The test counts stay those of the last n rows
      (PairedTestsStartLater). */
  function PairedRateWindow(sel: seq<StateDayRow>, n: nat): (v: RateView)
    requires |sel| > 0 && 0 < n <= |DefinedRates(sel)|
    ensures var w := RateWindow(sel, n);
      v.positivity == w.positivity && v.testsDaily == w.testsDaily && v.latestMortality == w.latestMortality
  {
    var dated := DatedRates(sel);
    DatedRatesLength(sel);
    var m := |dated| - n;
    var w := RateWindow(sel, n);
    var positivity := seq(n, j requires 0 <= j < n => dated[m + j].1);
    assert positivity == w.positivity by {
      forall j | 0 <= j < n ensures positivity[j] == w.positivity[j] {
        DatedRateAt(sel, m + j);
      }
    }
    RateView(dated[m].0, dated[m + n - 1].0, w.latestMortality, positivity, w.testsDaily)
  }

  /** The dates of the view are those of the first and the last of the last n dated rates
      (a step kept apart so that the view's body is unfolded only here). */
  lemma PairedDates(sel: seq<StateDayRow>, n: nat)
    requires |sel| > 0 && 0 < n <= |DatedRates(sel)| && |DatedRates(sel)| == |DefinedRates(sel)|
    ensures var dated := DatedRates(sel);
      && PairedRateWindow(sel, n).startDate == dated[|dated| - n].0
      && PairedRateWindow(sel, n).endDate == dated[|dated| - 1].0
  {
  }

  /** With the pairs filtered together, the dates line up with the positivity plot whatever
      days lack tests: the start date is the date of the row of the first value shown, the end
      date that of the row of the last. */
  lemma PairedRateWindowDates(sel: seq<StateDayRow>, n: nat)
    requires |sel| > 0 && 0 < n <= |DefinedRates(sel)|
    ensures |RateDays(sel)| == |DefinedRates(sel)|
    ensures var m := |DefinedRates(sel)| - n;
      && RateDays(sel)[m] < |sel|
      && PairedRateWindow(sel, n).startDate == sel[RateDays(sel)[m]].date
    ensures var last := |DefinedRates(sel)| - 1;
      && RateDays(sel)[last] < |sel|
      && PairedRateWindow(sel, n).endDate == sel[RateDays(sel)[last]].date
  {
    DatedRatesLength(sel);
    var dated, m, last := DatedRates(sel), |DefinedRates(sel)| - n, |DefinedRates(sel)| - 1;
    PairedDates(sel, n);
    assert dated[m] == (sel[RateDays(sel)[m]].date, DefinedRates(sel)[m]) by {
      DatedRateAt(sel, m);
    }
    assert dated[last] == (sel[RateDays(sel)[last]].date, DefinedRates(sel)[last]) by {
      DatedRateAt(sel, last);
    }
  }

  /** The correction covers the positivity plot only: when the latest row adds no tests, the
      start date shown comes from a row before the first of the n rows whose daily tests are
      plotted. */
  lemma PairedTestsStartLater(sel: seq<StateDayRow>, n: nat)
    requires |sel| > 0 && 0 < n <= |DefinedRates(sel)|
    requires Deltas(Tested(sel))[|sel| - 1] == 0
    ensures |RateDays(sel)| == |DefinedRates(sel)| && n <= |sel|
    ensures RateDays(sel)[|DefinedRates(sel)| - n] < |sel| - n
    ensures PairedRateWindow(sel, n).startDate == sel[RateDays(sel)[|DefinedRates(sel)| - n]].date
    ensures PairedRateWindow(sel, n).testsDaily[0] == Deltas(Tested(sel))[|sel| - n]
  {
    UntestedLatestStartsEarly(sel, n);
    PairedRateWindowDates(sel, n);
  }

  /** When the latest row adds no tests, the first of the last n defined rates comes from a
      row before the last n rows. */
  lemma UntestedLatestStartsEarly(sel: seq<StateDayRow>, n: nat)
    requires |sel| > 0 && 0 < n <= |DefinedRates(sel)|
    requires Deltas(Tested(sel))[|sel| - 1] == 0
    ensures |RateDays(sel)| == |DefinedRates(sel)|
    ensures RateDays(sel)[|DefinedRates(sel)| - n] < |sel| - n
  {
    var rates, days := DailyRates(sel), RateDays(sel);
    var last, m := |DefinedRates(sel)| - 1, |DefinedRates(sel)| - n;
    assert rates[|sel| - 1].None?;
    assert |days| == |DefinedRates(sel)| && days[last] < |sel| && rates[days[last]].Some? by {
      KeepSomeSpec(rates);
      assert DefinedRates(sel) == KeepSome(rates);
    }
    assert forall k, l :: 0 <= k < l < |days| ==> days[k] < days[l] by {
      KeepSomeSpec(rates);
    }
    IncreasingGap(days, m, last);
  }
}
