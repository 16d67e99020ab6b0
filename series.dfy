/** Daily derivation: a cumulative counter becomes per-day deltas,
    `hstack((c[0], diff(c)))` on a numpy array. */
module Series {
  import opened Seqs

  /** The per-day series of a cumulative series: the first day keeps its cumulative value,
      every later day is the difference to the day before. Indexing `c[0]` makes the empty
      series an error at the call site, hence the requires. Negative differences, which
      upstream corrections produce, are kept as they are: a day is negative exactly when the
      counter went down. */
  function Deltas(c: seq<int>): (d: seq<int>)
    requires |c| > 0
    ensures |d| == |c| && d[0] == c[0]
    ensures forall i {:trigger d[i]} :: 0 < i < |c| ==> d[i] == c[i] - c[i - 1]
  {
    [c[0]] + seq(|c| - 1, i requires 0 <= i < |c| - 1 => c[i + 1] - c[i])
  }

  /** Running totals of a per-day series: the reference definition the deltas must invert. */
  function Cumulate(d: seq<int>): seq<int>
  {
    seq(|d|, k requires 0 <= k < |d| => Sum(d[..k + 1]))
  }

  /** Reconstruction: summing the deltas of days 0..k gives back the cumulative count of day k,
      negative deltas included. */
  lemma {:induction false} DeltasPrefixSum(c: seq<int>, k: nat)
    requires k < |c|
    ensures Sum(Deltas(c)[..k + 1]) == c[k]
  {
    var d := Deltas(c);
    if k > 0 {
      DeltasPrefixSum(c, k - 1);
      assert d[..k + 1][..k] == d[..k];
    }
  }

  /** Cumulating the deltas gives back the cumulative series. */
  lemma CumulateDeltas(c: seq<int>)
    requires |c| > 0
    ensures Cumulate(Deltas(c)) == c
  {
    forall k | 0 <= k < |c| ensures Cumulate(Deltas(c))[k] == c[k] {
      DeltasPrefixSum(c, k);
    }
  }

  /** Taking the deltas of running totals gives back the per-day series. */
  lemma DeltasCumulate(d: seq<int>)
    requires |d| > 0
    ensures Deltas(Cumulate(d)) == d
  {
    var c := Cumulate(d);
    assert c[0] == Sum(d[..1]);
    assert d[..1][..0] == [];
    assert c[0] == d[0];
    forall i | 0 < i < |d| ensures Deltas(c)[i] == d[i] {
      assert d[..i + 1][..i] == d[..i];
      assert c[i] == Sum(d[..i]) + d[i];
    }
    assert forall i :: 0 <= i < |d| ==> Deltas(c)[i] == d[i];
  }

  /** The deltas of a whole series add up to its last cumulative value. */
  lemma DeltasTotal(c: seq<int>)
    requires |c| > 0
    ensures Sum(Deltas(c)) == c[|c| - 1]
  {
    DeltasPrefixSum(c, |c| - 1);
    assert Deltas(c)[..|c|] == Deltas(c);
  }

  /** The deltas of the trailing n days add up to the change of the cumulative count over
      those days (to the whole last count when the window is the whole series). */
  lemma TrailingDeltasSum(c: seq<int>, n: nat)
    requires 0 < n <= |c|
    ensures Sum(Deltas(c)[|c| - n..]) == c[|c| - 1] - (if n == |c| then 0 else c[|c| - n - 1])
  {
    var d := Deltas(c);
    assert d == d[..|c| - n] + d[|c| - n..];
    SumConcat(d[..|c| - n], d[|c| - n..]);
    DeltasTotal(c);
    if n < |c| {
      DeltasPrefixSum(c, |c| - n - 1);
    }
  }
}
