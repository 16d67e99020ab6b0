/** Sequence helpers shared by the derivations: sums and the "keep the present entries" filter
    that numpy boolean masking and pandas row selection/dropna perform. */
module Seqs {
  import opened Wrappers

  /** The sum of a sequence of counts (numpy sum). */
  function Sum(s: seq<int>): int
  {
    if |s| == 0 then 0 else Sum(s[..|s| - 1]) + s[|s| - 1]
  }

  lemma {:induction false} SumConcat(a: seq<int>, b: seq<int>)
    ensures Sum(a + b) == Sum(a) + Sum(b)
    decreases |b|
  {
    if |b| == 0 {
      assert a + b == a;
    } else {
      assert (a + b)[..|a + b| - 1] == a + b[..|b| - 1];
      SumConcat(a, b[..|b| - 1]);
    }
  }

  /** The present entries of `xs`, in their original order. */
  function KeepSome<T>(xs: seq<Option<T>>): seq<T>
  {
    if |xs| == 0 then []
    else KeepSome(xs[..|xs| - 1]) + (if xs[|xs| - 1].Some? then [xs[|xs| - 1].value] else [])
  }

  /** The positions in `xs` of the entries KeepSome keeps. */
  function SomeIndices<T>(xs: seq<Option<T>>): seq<nat>
  {
    if |xs| == 0 then []
    else SomeIndices(xs[..|xs| - 1]) + (if xs[|xs| - 1].Some? then [|xs| - 1] else [])
  }

  predicate AllSome<T>(xs: seq<Option<T>>)
  {
    forall i :: 0 <= i < |xs| ==> xs[i].Some?
  }

  /** KeepSome keeps exactly the present entries, in order: its k-th value is the entry at
      position SomeIndices(xs)[k], those positions increase, and every present position is among them. */
  lemma {:induction false} KeepSomeSpec<T>(xs: seq<Option<T>>)
    ensures |SomeIndices(xs)| == |KeepSome(xs)| <= |xs|
    ensures forall k :: 0 <= k < |SomeIndices(xs)| ==>
      SomeIndices(xs)[k] < |xs| && xs[SomeIndices(xs)[k]] == Some(KeepSome(xs)[k])
    ensures forall k, l :: 0 <= k < l < |SomeIndices(xs)| ==> SomeIndices(xs)[k] < SomeIndices(xs)[l]
    ensures forall i :: 0 <= i < |xs| && xs[i].Some? ==> i in SomeIndices(xs)
  {
    if |xs| > 0 {
      var p, last := xs[..|xs| - 1], xs[|xs| - 1];
      KeepSomeSpec(p);
      if last.Some? {
        assert SomeIndices(xs) == SomeIndices(p) + [|p|];
        assert KeepSome(xs) == KeepSome(p) + [last.value];
      } else {
        assert SomeIndices(xs) == SomeIndices(p);
        assert KeepSome(xs) == KeepSome(p);
      }
      forall i | 0 <= i < |xs| && xs[i].Some? ensures i in SomeIndices(xs) {
        if i < |p| {
          assert p[i] == xs[i];
        } else {
          assert SomeIndices(xs)[|SomeIndices(xs)| - 1] == i;
        }
      }
    }
  }

  /** Nothing is dropped exactly when every entry is present. */
  lemma {:induction false} KeepSomeAll<T>(xs: seq<Option<T>>)
    ensures |KeepSome(xs)| == |xs| <==> AllSome(xs)
    ensures AllSome(xs) ==>
      && |SomeIndices(xs)| == |KeepSome(xs)| == |xs|
      && forall i :: 0 <= i < |xs| ==> SomeIndices(xs)[i] == i && KeepSome(xs)[i] == xs[i].value
  {
    KeepSomeSpec(xs);
    if |xs| > 0 {
      var p := xs[..|xs| - 1];
      KeepSomeAll(p);
      KeepSomeSpec(p);
      assert AllSome(xs) ==> AllSome(p);
      if !xs[|xs| - 1].Some? {
        assert !AllSome(xs);
      } else if !AllSome(p) {
        assert !AllSome(xs);
      }
    }
  }

  /** In a strictly increasing sequence of positions, entries j - i apart are at least j - i
      apart in value. */
  lemma {:induction false} IncreasingGap(xs: seq<nat>, i: nat, j: nat)
    requires forall k, l :: 0 <= k < l < |xs| ==> xs[k] < xs[l]
    requires i <= j < |xs|
    ensures xs[i] + (j - i) <= xs[j]
  {
    if i < j {
      IncreasingGap(xs, i, j - 1);
    }
  }

  /** `df[df[column] == value]`: the rows satisfying `p`. The k-th selected row is row
      SelectedIndices(rows, p)[k] of the table; those positions increase; no satisfying row is
      missed; and the selection is empty exactly when no row satisfies `p`. */
  function Select<T>(rows: seq<T>, p: T -> bool): (sel: seq<T>)
    ensures |sel| == |SelectedIndices(rows, p)| <= |rows|
    ensures forall k :: 0 <= k < |sel| ==>
      SelectedIndices(rows, p)[k] < |rows| && sel[k] == rows[SelectedIndices(rows, p)[k]] && p(sel[k])
    ensures forall k, l :: 0 <= k < l < |sel| ==> SelectedIndices(rows, p)[k] < SelectedIndices(rows, p)[l]
    ensures forall i :: 0 <= i < |rows| && p(rows[i]) ==> i in SelectedIndices(rows, p)
    ensures |sel| == 0 <==> forall i :: 0 <= i < |rows| ==> !p(rows[i])
  {
    SelectNonEmpty(rows, p);
    KeepSomeSpec(SelectMask(rows, p));
    KeepSome(SelectMask(rows, p))
  }

  lemma SelectNonEmpty<T>(rows: seq<T>, p: T -> bool)
    ensures |SelectedIndices(rows, p)| == 0 <==> forall i :: 0 <= i < |rows| ==> !p(rows[i])
  {
    var mask := SelectMask(rows, p);
    KeepSomeSpec(mask);
    if i :| 0 <= i < |rows| && p(rows[i]) {
      assert mask[i].Some?;
    }
    if |SomeIndices(mask)| > 0 {
      assert mask[SomeIndices(mask)[0]].Some?;
    }
  }

  function SelectMask<T>(rows: seq<T>, p: T -> bool): seq<Option<T>>
  {
    seq(|rows|, i requires 0 <= i < |rows| => if p(rows[i]) then Some(rows[i]) else None)
  }

  function SelectedIndices<T>(rows: seq<T>, p: T -> bool): seq<nat>
  {
    SomeIndices(SelectMask(rows, p))
  }

  /** Each present entry of `xs` paired with the tag at its position (a date, say). */
  function Paired<T, U>(xs: seq<Option<T>>, tags: seq<U>): seq<Option<(U, T)>>
    requires |tags| == |xs|
  {
    seq(|xs|, i requires 0 <= i < |xs| => if xs[i].Some? then Some((tags[i], xs[i].value)) else None)
  }

  /** Filtering the pairs keeps the same entries as filtering the values, each tagged with
      the tag of the position it comes from. */
  lemma {:induction false} KeepSomePaired<T, U>(xs: seq<Option<T>>, tags: seq<U>)
    requires |tags| == |xs|
    ensures |KeepSome(Paired(xs, tags))| == |KeepSome(xs)| == |SomeIndices(xs)|
    ensures forall k :: 0 <= k < |KeepSome(xs)| ==>
      SomeIndices(xs)[k] < |xs| && KeepSome(Paired(xs, tags))[k] == (tags[SomeIndices(xs)[k]], KeepSome(xs)[k])
  {
    KeepSomeSpec(xs);
    if |xs| > 0 {
      var p, q := xs[..|xs| - 1], tags[..|tags| - 1];
      assert Paired(xs, tags)[..|xs| - 1] == Paired(p, q);
      KeepSomePaired(p, q);
      KeepSomeSpec(p);
    }
  }
}
