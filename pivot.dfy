/** The vaccine-dose table reshaped from one row per region to one row per date:
    `set_index("State").T`, `reset_index()`, rename of "index" to "Date", `dropna()`. */
module Pivot {
  import opened Wrappers
  import opened Seqs

  /** The table as published: a row per region, a cumulative dose cell per date column;
      None is a missing cell. */
  datatype WideTable = WideTable(regions: seq<string>, dates: seq<string>, cells: seq<seq<Option<int>>>)

  /** Every region row has one cell per date column. */
  predicate Rectangular(w: WideTable)
  {
    |w.cells| == |w.regions| && forall r :: 0 <= r < |w.cells| ==> |w.cells[r]| == |w.dates|
  }

  /** A row of the date-keyed table: the "Date" value and one cell per region column. */
  datatype DateRow<T> = DateRow(date: string, values: seq<T>)

  /** The date-keyed table: region columns after "Date", one row per date. */
  datatype LongTable<T> = LongTable(regions: seq<string>, rows: seq<DateRow<T>>)

  /** Every date row has one cell per region column. */
  predicate Aligned<T>(t: LongTable<T>)
  {
    forall d :: 0 <= d < |t.rows| ==> |t.rows[d].values| == |t.regions|
  }

  /** Transpose with the former date headers as the "Date" column: the cell of row d and
      column r is the wide cell of region r and date d. */
  function Transpose(w: WideTable): (t: LongTable<Option<int>>)
    requires Rectangular(w)
    ensures t.regions == w.regions && |t.rows| == |w.dates| && Aligned(t)
    ensures forall d :: 0 <= d < |t.rows| ==> t.rows[d].date == w.dates[d]
    ensures forall d, r :: 0 <= d < |t.rows| && 0 <= r < |w.regions| ==> t.rows[d].values[r] == w.cells[r][d]
  {
    LongTable(w.regions, seq(|w.dates|, d requires 0 <= d < |w.dates| =>
      DateRow(w.dates[d], seq(|w.regions|, r requires 0 <= r < |w.regions| => w.cells[r][d]))))
  }

  /** The inverse reshape, from date rows back to region rows. */
  function ToWide(t: LongTable<Option<int>>): (w: WideTable)
    requires Aligned(t)
    ensures Rectangular(w)
  {
    WideTable(t.regions,
      seq(|t.rows|, d requires 0 <= d < |t.rows| => t.rows[d].date),
      seq(|t.regions|, r requires 0 <= r < |t.regions| =>
        seq(|t.rows|, d requires 0 <= d < |t.rows| => t.rows[d].values[r])))
  }

  /** Transposing loses nothing: every original cell can be read back. */
  lemma TransposeRoundTrip(w: WideTable)
    requires Rectangular(w)
    ensures ToWide(Transpose(w)) == w
  {
    var v := ToWide(Transpose(w));
    assert v.dates == w.dates;
    assert forall r :: 0 <= r < |w.regions| ==> v.cells[r] == w.cells[r];
    assert v.cells == w.cells;
  }

  predicate Complete(row: DateRow<Option<int>>)
  {
    forall r :: 0 <= r < |row.values| ==> row.values[r].Some?
  }

  /** A row without a missing cell, unwrapped; None for a row `dropna` removes. */
  function CompleteRow(row: DateRow<Option<int>>): (r: Option<DateRow<int>>)
    ensures r.Some? <==> Complete(row)
    ensures r.Some? ==>
      && r.value.date == row.date && |r.value.values| == |row.values|
      && forall k :: 0 <= k < |row.values| ==> row.values[k] == Some(r.value.values[k])
  {
    if Complete(row)
    then Some(DateRow(row.date, seq(|row.values|, k requires 0 <= k < |row.values| => row.values[k].value)))
    else None
  }

  function RowMask(t: LongTable<Option<int>>): seq<Option<DateRow<int>>>
  {
    seq(|t.rows|, d requires 0 <= d < |t.rows| => CompleteRow(t.rows[d]))
  }

  /** `dropna()`: the rows without a missing cell, in order. */
  function DropMissing(t: LongTable<Option<int>>): (r: LongTable<int>)
    ensures r.regions == t.regions && |r.rows| <= |t.rows|
    ensures Aligned(t) ==> Aligned(r)
  {
    var mask := RowMask(t);
    KeepSomeSpec(mask);
    assert forall k :: 0 <= k < |KeepSome(mask)| ==>
      mask[SomeIndices(mask)[k]] == Some(KeepSome(mask)[k]);
    LongTable(t.regions, KeepSome(mask))
  }

  /** The whole preprocessing of the vaccine-dose table. */
  function Preprocess(w: WideTable): (p: LongTable<int>)
    requires Rectangular(w)
    ensures p.regions == w.regions && Aligned(p)
  {
    DropMissing(Transpose(w))
  }

  /** The date columns of `w` that survive as rows of Preprocess(w), in order. */
  function KeptDates(w: WideTable): seq<nat>
    requires Rectangular(w)
  {
    SomeIndices(RowMask(Transpose(w)))
  }

  /** No missing cell anywhere in the wide table. */
  predicate NoMissing(w: WideTable)
    requires Rectangular(w)
  {
    forall r, d :: 0 <= r < |w.regions| && 0 <= d < |w.dates| ==> w.cells[r][d].Some?
  }

  /** Preprocess keeps the region columns; its row k is date column KeptDates(w)[k] of the wide
      table with every cell present and equal to the wide cell; the kept dates keep their order;
      a date column is dropped only when one of its cells is missing; and the row count shrinks
      below the number of date columns exactly when some cell is missing. */
  lemma PreprocessSpec(w: WideTable)
    requires Rectangular(w)
    ensures var p, kept := Preprocess(w), KeptDates(w);
      && p.regions == w.regions && Aligned(p)
      && |p.rows| == |kept| <= |w.dates|
      && (|p.rows| == |w.dates| <==> NoMissing(w))
      && (forall k :: 0 <= k < |kept| ==>
            kept[k] < |w.dates| && p.rows[k].date == w.dates[kept[k]] &&
            forall r :: 0 <= r < |w.regions| ==> w.cells[r][kept[k]] == Some(p.rows[k].values[r]))
      && (forall k, l :: 0 <= k < l < |kept| ==> kept[k] < kept[l])
      && (forall d :: 0 <= d < |w.dates| && (forall r :: 0 <= r < |w.regions| ==> w.cells[r][d].Some?) ==> d in kept)
  {
    var t := Transpose(w);
    var mask := RowMask(t);
    KeepSomeSpec(mask);
    KeepSomeAll(mask);
    var p := Preprocess(w);
    forall k | 0 <= k < |p.rows| ensures |p.rows[k].values| == |p.regions| {
      assert mask[KeptDates(w)[k]] == Some(p.rows[k]);
    }
    forall d | 0 <= d < |w.dates| && (forall r :: 0 <= r < |w.regions| ==> w.cells[r][d].Some?)
      ensures mask[d].Some?
    {
      assert Complete(t.rows[d]);
    }
    if |p.rows| == |w.dates| {
      forall r, d | 0 <= r < |w.regions| && 0 <= d < |w.dates| ensures w.cells[r][d].Some? {
        assert mask[d].Some?;
        assert t.rows[d].values[r] == w.cells[r][d];
      }
    }
    if NoMissing(w) {
      forall d | 0 <= d < |w.dates| ensures mask[d].Some? {
        assert forall r :: 0 <= r < |w.regions| ==> t.rows[d].values[r] == w.cells[r][d];
      }
    }
  }
}
