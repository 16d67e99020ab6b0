/** The districtwise "Last N days" mode (`infection_last_n_days_districtwise`): the rows of
    one district, their daily deltas, and the trailing window of them. */
module Districtwise {
  import opened Wrappers
  import opened Seqs
  import opened Series
  import opened Window

  /** A row of the district table (Date, State, District and three cumulative counts). */
  datatype DistrictRow = DistrictRow(date: string, state: string, district: string,
                                     confirmed: int, recovered: int, deceased: int)

  /** The "Last N days" view of one district: the window's first and last dates and the
      per-day confirmed, recovered and deceased counts of the window. */
  datatype DistrictView = DistrictView(startDate: string, endDate: string,
                                       confirmed: seq<int>, recovered: seq<int>, deceased: seq<int>)

  /** The rows of the selected district of the selected state, in table order. */
  function DistrictRows(rows: seq<DistrictRow>, state: string, district: string): seq<DistrictRow>
  {
    Select(rows, (row: DistrictRow) => row.state == state && row.district == district)
  }

  function Confirmed(rows: seq<DistrictRow>): seq<int>
  {
    seq(|rows|, i requires 0 <= i < |rows| => rows[i].confirmed)
  }

  function Recovered(rows: seq<DistrictRow>): seq<int>
  {
    seq(|rows|, i requires 0 <= i < |rows| => rows[i].recovered)
  }

  function Deceased(rows: seq<DistrictRow>): seq<int>
  {
    seq(|rows|, i requires 0 <= i < |rows| => rows[i].deceased)
  }

  /** `w` is the per-day series of the last n days of the cumulative series `cum`: day j is
      the change of `cum` on its day (the whole count on the series' first day), and the
      window adds up to the growth of `cum` over the window. */
  predicate DailyWindow(w: seq<int>, cum: seq<int>, n: nat)
    requires 0 < n <= |cum|
  {
    && |w| == n
    && (forall j :: 0 <= j < n ==>
          w[j] == cum[|cum| - n + j] - (if |cum| - n + j == 0 then 0 else cum[|cum| - n + j - 1]))
    && Sum(w) == cum[|cum| - 1] - (if n == |cum| then 0 else cum[|cum| - n - 1])
  }

  /** The trailing n days of the deltas of `cum` form its daily window. */
  lemma TailOfDeltas(cum: seq<int>, n: nat)
    requires 0 < n <= |cum|
    ensures DailyWindow(Tail(Deltas(cum), n), cum, n)
  {
    var d, w := Deltas(cum), Tail(Deltas(cum), n);
    assert w == d[|cum| - n..];
    forall j | 0 <= j < n
      ensures w[j] == cum[|cum| - n + j] - (if |cum| - n + j == 0 then 0 else cum[|cum| - n + j - 1])
    {
      assert w[j] == d[|cum| - n + j];
    }
    TrailingDeltasSum(cum, n);
    assert Sum(w) == cum[|cum| - 1] - (if n == |cum| then 0 else cum[|cum| - n - 1]);
  }

  /** The window of the last n of a district's rows: the dates of its first and last rows and
      the daily window of each of the three counts. */
  function TrailingWindow(sel: seq<DistrictRow>, n: nat): (v: DistrictView)
    requires 0 < n <= |sel|
    ensures v.startDate == sel[|sel| - n].date && v.endDate == sel[|sel| - 1].date
    ensures DailyWindow(v.confirmed, Confirmed(sel), n)
    ensures DailyWindow(v.recovered, Recovered(sel), n)
    ensures DailyWindow(v.deceased, Deceased(sel), n)
  {
    TailOfDeltas(Confirmed(sel), n);
    TailOfDeltas(Recovered(sel), n);
    TailOfDeltas(Deceased(sel), n);
    DistrictView(sel[|sel| - n].date, sel[|sel| - 1].date,
                 Tail(Deltas(Confirmed(sel)), n),
                 Tail(Deltas(Recovered(sel)), n),
                 Tail(Deltas(Deceased(sel)), n))
  }

  /** `infection_last_n_days_districtwise`: an IndexError when the district has no row
      (`cum[0]` of an empty array), a range error for a window outside 7..(number of rows),
      and otherwise the window of the district's last n rows. */
  function LastNDays(rows: seq<DistrictRow>, state: string, district: string, n: int): (r: Result<DistrictView>)
    ensures var sel := DistrictRows(rows, state, district);
      && (|sel| == 0 ==> r == Err(IndexError))
      && (|sel| > 0 && !(MinDays <= n <= |sel|) ==> r == Err(RangeError(n, MinDays, |sel|)))
      && (r.Ok? <==> |sel| > 0 && MinDays <= n <= |sel|)
      && (r.Ok? ==> 0 < n <= |sel| && r.value == TrailingWindow(sel, n))
  {
    var sel := DistrictRows(rows, state, district);
    if |sel| == 0 then Err(IndexError)
    else
      match CheckWindow(n, |sel|)
      case Err(e) => Err(e)
      case Ok(days) => Ok(TrailingWindow(sel, days))
  }
}
