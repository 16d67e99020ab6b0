/** Trailing-window selection: the 7..max bound of the "Last N days" input, the trailing
    slice, and the stride-3 de-interleave of the three-rows-per-date statewise table. */
module Window {
  import opened Wrappers

  /** The smallest window the "Last N days" input accepts. */
  const MinDays: int := 7

  /** The bound check of the "Last N days" input: lengths 7..maxDays are accepted,
      anything else is a range error naming the bounds. */
  function CheckWindow(n: int, maxDays: int): (r: Result<nat>)
    ensures r.Ok? <==> MinDays <= n <= maxDays
    ensures r.Ok? ==> r.value == n
    ensures r.Err? ==> r.error == RangeError(n, MinDays, maxDays)
  {
    if MinDays <= n <= maxDays then Ok(n) else Err(RangeError(n, MinDays, maxDays))
  }

  /** The last k entries (`DataFrame.tail(k)`, and `xs[len(xs) - k:]` for k <= len(xs));
      all of xs when it is shorter than k. */
  function Tail<T>(xs: seq<T>, k: nat): (r: seq<T>)
    ensures |r| == if k <= |xs| then k else |xs|
    ensures xs == xs[..|xs| - |r|] + r
  {
    if k >= |xs| then xs else xs[|xs| - k..]
  }

  /** `xs[::3]`: the entries at positions 0, 3, 6, ... */
  function EveryThird<T>(xs: seq<T>): seq<T>
  {
    if |xs| == 0 then [] else [xs[0]] + EveryThird(xs[if |xs| < 3 then |xs| else 3..])
  }

  /** `xs[off::3]`: the entries at positions off, off + 3, off + 6, ... */
  function Stride<T>(xs: seq<T>, off: nat): seq<T>
  {
    if off >= |xs| then [] else EveryThird(xs[off..])
  }

  lemma {:induction false} EveryThirdSpec<T>(xs: seq<T>)
    ensures |EveryThird(xs)| == (|xs| + 2) / 3
    ensures forall j :: 0 <= j < |EveryThird(xs)| ==> EveryThird(xs)[j] == xs[3 * j]
  {
    if |xs| > 0 {
      var rest := xs[if |xs| < 3 then |xs| else 3..];
      EveryThirdSpec(rest);
      forall j | 0 < j < |EveryThird(xs)| ensures EveryThird(xs)[j] == xs[3 * j] {
        assert EveryThird(xs)[j] == EveryThird(rest)[j - 1];
      }
    }
  }

  /** On 3n rows, the slice starting at offset 0, 1 or 2 has n entries, the j-th being row 3j + off. */
  lemma StrideOfTriples<T>(xs: seq<T>, n: nat, off: nat)
    requires |xs| == 3 * n && off < 3
    ensures |Stride(xs, off)| == n
    ensures forall j :: 0 <= j < n ==> Stride(xs, off)[j] == xs[3 * j + off]
  {
    if off < |xs| {
      EveryThirdSpec(xs[off..]);
    }
  }

  /** The inverse of the de-interleave: day j contributes a[j], b[j], c[j] in that order. */
  function Interleave<T>(a: seq<T>, b: seq<T>, c: seq<T>): (r: seq<T>)
    requires |a| == |b| == |c|
    ensures |r| == 3 * |a|
    ensures forall j :: 0 <= j < |a| ==> r[3 * j] == a[j] && r[3 * j + 1] == b[j] && r[3 * j + 2] == c[j]
  {
    if |a| == 0 then []
    else
      var rest := Interleave(a[1..], b[1..], c[1..]);
      assert forall j :: 1 <= j < |a| ==> a[j] == a[1..][j - 1] && b[j] == b[1..][j - 1] && c[j] == c[1..][j - 1];
      [a[0], b[0], c[0]] + rest
  }

  /** Two sequences of 3n entries that agree on every triple are equal. */
  lemma TriplesEqual<T>(r: seq<T>, xs: seq<T>, n: nat)
    requires |r| == |xs| == 3 * n
    requires forall j :: 0 <= j < n ==> r[3 * j] == xs[3 * j] && r[3 * j + 1] == xs[3 * j + 1] && r[3 * j + 2] == xs[3 * j + 2]
    ensures r == xs
  {
    forall i | 0 <= i < |xs| ensures r[i] == xs[i] {
      var j := i / 3;
      assert 3 * j <= i < 3 * j + 3 && j < n;
    }
  }

  /** Splitting 3n rows with stride 3 and interleaving the three parts gives the rows back. */
  lemma InterleaveStrides<T>(xs: seq<T>, n: nat)
    requires |xs| == 3 * n
    ensures |Stride(xs, 0)| == |Stride(xs, 1)| == |Stride(xs, 2)| == n &&
            Interleave(Stride(xs, 0), Stride(xs, 1), Stride(xs, 2)) == xs
  {
    StrideOfTriples(xs, n, 0);
    StrideOfTriples(xs, n, 1);
    StrideOfTriples(xs, n, 2);
    var a, b, c := Stride(xs, 0), Stride(xs, 1), Stride(xs, 2);
    TriplesEqual(Interleave(a, b, c), xs, n);
  }
}
