/** The statewise modes: the total table with its mortality column (`infection_total`) and the
    "Last N days" view of one state (`infection_last_n_days`, in both versions of the dashboard). */
module Statewise {
  import opened Wrappers
  import opened Window
  import opened RegionMap
  import opened Rates

  /** A row of the statewise total table (State, State_code, Confirmed, Recovered, Deaths, Active). */
  datatype TotalRow = TotalRow(state: string, code: string, confirmed: int, recovered: int, deaths: int, active: int)

  /** A total-table row with its Mortality_Rate column; None where Confirmed is 0. */
  datatype MortalityRow = MortalityRow(row: TotalRow, mortality: Option<real>)

  function States(totals: seq<TotalRow>): seq<string>
  {
    seq(|totals|, i requires 0 <= i < |totals| => totals[i].state)
  }

  function Codes(totals: seq<TotalRow>): seq<string>
  {
    seq(|totals|, i requires 0 <= i < |totals| => totals[i].code)
  }

  /** `infection_total`: every row gets `100 * Deaths / Confirmed`, undefined exactly where
      Confirmed is 0. */
  function TotalsWithMortality(totals: seq<TotalRow>): (r: seq<MortalityRow>)
    ensures |r| == |totals|
    ensures forall i :: 0 <= i < |r| ==> r[i].row == totals[i]
    ensures forall i :: 0 <= i < |r| ==> IsPercent(totals[i].deaths, totals[i].confirmed, r[i].mortality)
  {
    var rates := RateSeries(
      seq(|totals|, i requires 0 <= i < |totals| => totals[i].deaths),
      seq(|totals|, i requires 0 <= i < |totals| => totals[i].confirmed));
    seq(|totals|, i requires 0 <= i < |totals| => MortalityRow(totals[i], rates[i]))
  }

  /** A row of the statewise daily table: its date, its Status (Confirmed, Recovered or
      Deceased) and one count per state-code column. */
  datatype StatusRow = StatusRow(date: string, status: string, counts: map<string, int>)

  /** The statewise daily table: its state-code columns and its rows. */
  datatype StatewiseDaily = StatewiseDaily(codes: set<string>, rows: seq<StatusRow>)

  /** Every row has a count in every state-code column. */
  predicate WellFormed(t: StatewiseDaily)
  {
    forall i :: 0 <= i < |t.rows| ==> t.rows[i].counts.Keys == t.codes
  }

  /** The published layout: dates in triples of Confirmed, Recovered and Deceased rows. */
  predicate TripleLayout(rows: seq<StatusRow>)
  {
    && |rows| % 3 == 0
    && forall d :: 0 <= d < |rows| / 3 ==>
         && rows[3 * d].status == "Confirmed"
         && rows[3 * d + 1].status == "Recovered"
         && rows[3 * d + 2].status == "Deceased"
         && rows[3 * d + 1].date == rows[3 * d].date
         && rows[3 * d + 2].date == rows[3 * d].date
  }

  function Column(rows: seq<StatusRow>, code: string): seq<int>
    requires forall i :: 0 <= i < |rows| ==> code in rows[i].counts
  {
    seq(|rows|, i requires 0 <= i < |rows| => rows[i].counts[code])
  }

  /** The "Last N days" view of one state. */
  datatype StatewiseView = StatewiseView(
    code: string, startDate: string, endDate: string,
    confirmed: seq<int>, recovered: seq<int>, deceased: seq<int>)

  /** The largest window the daily table allows: one day per three rows. */
  function MaxDays(daily: StatewiseDaily): int
  {
    |daily.rows| / 3
  }

  /** The code the name -> code dictionary of the total table gives the selected state: the
      code of the state's last row, or a KeyError for a state that has no row. */
  function StateCode(totals: seq<TotalRow>, state: string): (r: Result<string>)
    ensures r.Ok? <==> state in States(totals)
    ensures r.Ok? ==> r.value == totals[LastIndex(States(totals), state).value].code
    ensures r.Err? ==> r.error == KeyError(state)
  {
    LookupBuilt(States(totals), Codes(totals), state);
    Lookup(MappingOf(States(totals), Codes(totals)), state)
  }

  /** `tail(3 * n)` of the daily table, its first and last dates, and the column of `code`
      split with stride 3 into the confirmed, recovered and deceased series. */
  function SplitWindow(daily: StatewiseDaily, code: string, n: nat): (v: StatewiseView)
    requires WellFormed(daily) && code in daily.codes && 0 < 3 * n <= |daily.rows|
    ensures var rows, first := daily.rows, |daily.rows| - 3 * n;
      && v.code == code
      && v.startDate == rows[first].date && v.endDate == rows[|rows| - 1].date
      && |v.confirmed| == |v.recovered| == |v.deceased| == n
      && forall j :: 0 <= j < n ==>
           && v.confirmed[j] == rows[first + 3 * j].counts[code]
           && v.recovered[j] == rows[first + 3 * j + 1].counts[code]
           && v.deceased[j] == rows[first + 3 * j + 2].counts[code]
  {
    var window := Tail(daily.rows, 3 * n);
    var column := Column(window, code);
    StrideOfTriples(column, n, 0);
    StrideOfTriples(column, n, 1);
    StrideOfTriples(column, n, 2);
    StatewiseView(code, window[0].date, window[|window| - 1].date,
                  Stride(column, 0), Stride(column, 1), Stride(column, 2))
  }

  /** `infection_last_n_days`: the window bound 7 <= n <= rows // 3, the code of the selected
      state, and the window of that state's column. A window outside the bounds is a range
      error; a state missing from the dictionary, or a code missing from the daily table,
      is a KeyError. */
  function LastNDays(totals: seq<TotalRow>, daily: StatewiseDaily, state: string, n: int): (r: Result<StatewiseView>)
    requires WellFormed(daily)
    ensures !(MinDays <= n <= MaxDays(daily)) ==> r == Err(RangeError(n, MinDays, MaxDays(daily)))
    ensures MinDays <= n <= MaxDays(daily) && state !in States(totals) ==> r == Err(KeyError(state))
    ensures (MinDays <= n <= MaxDays(daily) && StateCode(totals, state).Ok? &&
             StateCode(totals, state).value !in daily.codes)
            ==> r == Err(KeyError(StateCode(totals, state).value))
    ensures r.Ok? <==>
      && MinDays <= n <= MaxDays(daily) && StateCode(totals, state).Ok?
      && StateCode(totals, state).value in daily.codes
    ensures r.Ok? ==>
      && 0 < 3 * n <= |daily.rows|
      && r.value == SplitWindow(daily, StateCode(totals, state).value, n)
  {
    match CheckWindow(n, MaxDays(daily))
    case Err(e) => Err(e)
    case Ok(days) =>
      match StateCode(totals, state)
      case Err(e) => Err(e)
      case Ok(code) =>
        if code !in daily.codes then Err(KeyError(code))
        else Ok(SplitWindow(daily, code, days))
  }

  /** The last 3n rows of a table laid out in date triples are themselves n date triples. */
  lemma TailOfTriples(rows: seq<StatusRow>, n: nat)
    requires TripleLayout(rows) && 0 < 3 * n <= |rows|
    ensures forall j :: 0 <= j < n ==>
      var i := |rows| - 3 * n + 3 * j;
      && rows[i].status == "Confirmed"
      && rows[i + 1].status == "Recovered"
      && rows[i + 2].status == "Deceased"
      && rows[i + 1].date == rows[i].date
      && rows[i + 2].date == rows[i].date
  {
    var days := |rows| / 3;
    assert |rows| == 3 * days;
    forall j | 0 <= j < n
      ensures var i := |rows| - 3 * n + 3 * j;
        && rows[i].status == "Confirmed"
        && rows[i + 1].status == "Recovered"
        && rows[i + 2].status == "Deceased"
        && rows[i + 1].date == rows[i].date
        && rows[i + 2].date == rows[i].date
    {
      var d := days - n + j;
      assert |rows| - 3 * n + 3 * j == 3 * d && 0 <= d < days;
    }
  }

  /** On a table laid out in date triples, day j of a window is read from the Confirmed,
      Recovered and Deceased rows of one date, the start date is the date of the window's
      first day and the end date the date of its last day. (LastNDays returns this window.) */
  lemma SplitWindowAligned(daily: StatewiseDaily, code: string, n: nat)
    requires WellFormed(daily) && TripleLayout(daily.rows)
    requires code in daily.codes && 0 < 3 * n <= |daily.rows|
    ensures var rows, first, v := daily.rows, |daily.rows| - 3 * n, SplitWindow(daily, code, n);
      && (forall j :: 0 <= j < n ==>
            && rows[first + 3 * j].status == "Confirmed"
            && rows[first + 3 * j + 1].status == "Recovered"
            && rows[first + 3 * j + 2].status == "Deceased"
            && rows[first + 3 * j + 1].date == rows[first + 3 * j].date
            && rows[first + 3 * j + 2].date == rows[first + 3 * j].date)
      && v.startDate == rows[first].date
      && v.endDate == rows[first + 3 * (n - 1)].date
  {
    var rows, first := daily.rows, |daily.rows| - 3 * n;
    TailOfTriples(rows, n);
    assert rows[first + 3 * (n - 1) + 2].date == rows[first + 3 * (n - 1)].date by {
      var d := |rows| / 3 - 1;
      assert first + 3 * (n - 1) == 3 * d && 0 <= d < |rows| / 3;
    }
    assert first + 3 * (n - 1) + 2 == |rows| - 1;
  }

  /** The older dashboard's "Last N days" view: the same window, with the percentage change
      of the confirmed and of the deceased series over it. */
  datatype ChangeView = ChangeView(window: StatewiseView, confirmedChange: Option<real>, deceasedChange: Option<real>)

  /** Percentage change between the first and the last day of the window, undefined when
      the first day's count is 0; the window itself is as in LastNDays. */
  function LastNDaysWithChange(totals: seq<TotalRow>, daily: StatewiseDaily, state: string, n: int): (r: Result<ChangeView>)
    requires WellFormed(daily)
    ensures r.Ok? <==> LastNDays(totals, daily, state, n).Ok?
    ensures r.Err? ==> r.error == LastNDays(totals, daily, state, n).error
    ensures r.Ok? ==>
      var w := r.value.window;
      && w == LastNDays(totals, daily, state, n).value
      && |w.confirmed| == |w.deceased| == n >= MinDays
      && IsChange(w.confirmed[0], w.confirmed[|w.confirmed| - 1], r.value.confirmedChange)
      && IsChange(w.deceased[0], w.deceased[|w.deceased| - 1], r.value.deceasedChange)
  {
    var v := LastNDays(totals, daily, state, n);
    if v.Err? then Err(v.error)
    else
      assert |v.value.confirmed| == |v.value.deceased| == n;
      Ok(ChangeView(v.value, PercentChange(v.value.confirmed), PercentChange(v.value.deceased)))
  }
}
