/** The two vaccine-dose modes over the preprocessed dose table: the doses of one region per
    day (`vaccine_doses_daily`) and the latest cumulative doses of every state with their
    sum (`vaccine_doses_total`). */
module Vaccine {
  import opened Wrappers
  import opened Seqs
  import opened Series
  import opened Pivot
  import opened RegionMap

  /** What the daily mode shows: the first and last date of the table, the region's latest
      cumulative count and its daily doses. */
  datatype DosesView = DosesView(startDate: string, endDate: string, total: int, daily: seq<int>)

  /** What the total mode shows: the state columns, their latest cumulative counts and the sum. */
  datatype DosesShare = DosesShare(regions: seq<string>, doses: seq<int>, total: int)

  /** The column of region c, one cell per date row. */
  function RegionColumn(p: LongTable<int>, c: nat): (col: seq<int>)
    requires Aligned(p) && c < |p.regions|
    ensures |col| == |p.rows|
    ensures forall k :: 0 <= k < |col| ==> col[k] == p.rows[k].values[c]
  {
    seq(|p.rows|, k requires 0 <= k < |p.rows| => p.rows[k].values[c])
  }

  /** The view of one non-empty column: its latest value, and the daily doses that add up
      to it day by day. */
  function ColumnView(p: LongTable<int>, c: nat): (v: DosesView)
    requires Aligned(p) && c < |p.regions| && |p.rows| > 0
    ensures v.startDate == p.rows[0].date && v.endDate == p.rows[|p.rows| - 1].date
    ensures v.total == RegionColumn(p, c)[|p.rows| - 1]
    ensures |v.daily| == |p.rows|
    ensures Cumulate(v.daily) == RegionColumn(p, c)
    ensures Sum(v.daily) == v.total
  {
    var col := RegionColumn(p, c);
    CumulateDeltas(col);
    DeltasTotal(col);
    DosesView(p.rows[0].date, p.rows[|p.rows| - 1].date, col[|col| - 1], Deltas(col))
  }

  /** `vaccine_doses_daily`: an IndexError when no date survives `dropna` (`dates_list[0]`), a
      KeyError for a region that is not a column, and otherwise the view of the region's column
      (of its last occurrence, should a name repeat). */
  function DailyDoses(w: WideTable, region: string): (r: Result<DosesView>)
    requires Rectangular(w)
    ensures Preprocess(w).rows == [] ==> r == Err(IndexError)
    ensures Preprocess(w).rows != [] && region !in w.regions ==> r == Err(KeyError(region))
    ensures r.Ok? <==> Preprocess(w).rows != [] && region in w.regions
    ensures r.Ok? ==>
      && LastIndex(w.regions, region).Some?
      && |Preprocess(w).rows| > 0
      && r.value == ColumnView(Preprocess(w), LastIndex(w.regions, region).value)
  {
    var p := Preprocess(w);
    if |p.rows| == 0 then Err(IndexError)
    else
      match LastIndex(w.regions, region)
      case None => Err(KeyError(region))
      case Some(c) => Ok(ColumnView(p, c))
  }

  /** Read back in the published table: the dates shown are the first and the last date
      column without a missing cell; the region's cell at every such date is the running sum
      of the daily doses, and at the last one it is the total shown. */
  lemma DailyDosesFromTable(w: WideTable, region: string)
    requires Rectangular(w) && region in w.regions && |KeptDates(w)| > 0
    ensures DailyDoses(w, region).Ok?
    ensures var v, kept, c := DailyDoses(w, region).value, KeptDates(w), LastIndex(w.regions, region).value;
      && |kept| == |v.daily| > 0
      && c < |w.regions| && w.regions[c] == region
      && kept[0] < |w.dates| && v.startDate == w.dates[kept[0]]
      && kept[|kept| - 1] < |w.dates| && v.endDate == w.dates[kept[|kept| - 1]]
      && w.cells[c][kept[|kept| - 1]] == Some(v.total)
      && forall k :: 0 <= k < |kept| ==> kept[k] < |w.dates| && w.cells[c][kept[k]] == Some(Cumulate(v.daily)[k])
  {
    PreprocessSpec(w);
    var p, kept, c := Preprocess(w), KeptDates(w), LastIndex(w.regions, region).value;
    var v := DailyDoses(w, region).value;
    forall k | 0 <= k < |kept| ensures kept[k] < |w.dates| && w.cells[c][kept[k]] == Some(Cumulate(v.daily)[k]) {
      assert Cumulate(v.daily)[k] == RegionColumn(p, c)[k];
    }
  }

  /** All columns but the last, which the published table gives to the national total. */
  function StateColumns<T>(xs: seq<T>): (r: seq<T>)
    ensures |r| == if |xs| == 0 then 0 else |xs| - 1
    ensures forall i :: 0 <= i < |r| ==> r[i] == xs[i]
  {
    if |xs| == 0 then [] else xs[..|xs| - 1]
  }

  /** `vaccine_doses_total`: an IndexError when no date survives `dropna` (`iloc[-1]`);
      otherwise every column but the last, with its value in the latest row, and their sum. */
  function TotalDoses(w: WideTable): (r: Result<DosesShare>)
    requires Rectangular(w)
    ensures r.Err? <==> Preprocess(w).rows == []
    ensures r.Err? ==> r.error == IndexError
    ensures r.Ok? ==>
      var p := Preprocess(w);
      && |p.rows| > 0
      && r.value.regions == StateColumns(w.regions)
      && |r.value.doses| == |r.value.regions|
      && (forall i :: 0 <= i < |r.value.doses| ==> r.value.doses[i] == p.rows[|p.rows| - 1].values[i])
      && r.value.total == Sum(r.value.doses)
  {
    var p := Preprocess(w);
    if |p.rows| == 0 then Err(IndexError)
    else
      var doses := StateColumns(p.rows[|p.rows| - 1].values);
      Ok(DosesShare(StateColumns(w.regions), doses, Sum(doses)))
  }

  /** The two modes agree: the count the total mode gives a state is the total the daily mode
      shows for it, when the state's name names no other column. */
  lemma TotalMatchesDaily(w: WideTable, i: nat)
    requires Rectangular(w) && TotalDoses(w).Ok? && i < |TotalDoses(w).value.regions|
    requires forall j :: 0 <= j < |w.regions| && j != i ==> w.regions[j] != w.regions[i]
    ensures DailyDoses(w, w.regions[i]).Ok?
    ensures DailyDoses(w, w.regions[i]).value.total == TotalDoses(w).value.doses[i]
  {
    var p := Preprocess(w);
    assert LastIndex(w.regions, w.regions[i]) == Some(i);
    var v := DailyDoses(w, w.regions[i]).value;
    assert v == ColumnView(p, i);
    assert v.total == RegionColumn(p, i)[|p.rows| - 1] == p.rows[|p.rows| - 1].values[i];
  }

  /** The sum shown by the total mode is the sum, over the states, of their daily doses over
      the whole table. */
  lemma TotalIsSumOfDaily(w: WideTable)
    requires Rectangular(w) && TotalDoses(w).Ok?
    ensures var s, p := TotalDoses(w).value, Preprocess(w);
      s.total == Sum(seq(|s.regions|, i requires 0 <= i < |s.regions| => Sum(ColumnView(p, i).daily)))
  {
    var s, p := TotalDoses(w).value, Preprocess(w);
    var sums := seq(|s.regions|, i requires 0 <= i < |s.regions| => Sum(ColumnView(p, i).daily));
    assert sums == s.doses;
  }
}
