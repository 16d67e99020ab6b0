/** Rates and changes in percent, over the reals. numpy's non-finite quotient of a zero
    denominator (nan or inf) is None here. */
module Rates {
  import opened Wrappers
  import opened Seqs

  /** `rate` is num as a percentage of den: undefined when den is 0, otherwise the value
      whose den-fold is 100 times num. */
  predicate IsPercent(num: int, den: int, rate: Option<real>)
  {
    && (rate.None? <==> den == 0)
    && (rate.Some? ==> rate.value * den as real == 100.0 * num as real)
  }

  /** `100 * num / den`, undefined when den is 0. */
  function Percent(num: int, den: int): (r: Option<real>)
    ensures IsPercent(num, den, r)
  {
    if den == 0 then None else Some(100.0 * num as real / den as real)
  }

  /** The element-wise rate of two parallel columns of one table (`100 * np.divide(nums, dens)`). */
  function RateSeries(nums: seq<int>, dens: seq<int>): (r: seq<Option<real>>)
    requires |nums| == |dens|
    ensures |r| == |nums|
    ensures forall i :: 0 <= i < |r| ==> IsPercent(nums[i], dens[i], r[i])
  {
    seq(|nums|, i requires 0 <= i < |nums| => Percent(nums[i], dens[i]))
  }

  /** A mortality rate lies in 0..100 when the deaths are a part of the confirmed cases. */
  lemma MortalityInRange(deaths: int, confirmed: int)
    requires 0 <= deaths <= confirmed && confirmed > 0
    ensures Percent(deaths, confirmed).Some?
    ensures 0.0 <= Percent(deaths, confirmed).value <= 100.0
  {
    var r := Percent(deaths, confirmed).value;
    var c := confirmed as real;
    assert r * c == 100.0 * deaths as real <= 100.0 * c;
    if r > 100.0 {
      assert false;
    }
  }

  /** The positivity series after `rates[np.isfinite(rates)]`: the defined rates, in order. */
  function PositivityRates(positiveDaily: seq<int>, testedDaily: seq<int>): (r: seq<real>)
    requires |positiveDaily| == |testedDaily|
    ensures |r| <= |positiveDaily|
    ensures |r| == |positiveDaily| <==> forall i :: 0 <= i < |testedDaily| ==> testedDaily[i] != 0
  {
    var rates := RateSeries(positiveDaily, testedDaily);
    KeepSomeAll(rates);
    KeepSomeSpec(rates);
    KeepSome(rates)
  }

  /** The k-th positivity value is the rate of day SomeIndices(..)[k]; those days increase,
      and every day with a non-zero test count is among them. */
  lemma PositivityDays(positiveDaily: seq<int>, testedDaily: seq<int>)
    requires |positiveDaily| == |testedDaily|
    ensures var days := SomeIndices(RateSeries(positiveDaily, testedDaily));
      && |days| == |PositivityRates(positiveDaily, testedDaily)|
      && (forall k :: 0 <= k < |days| ==>
            days[k] < |testedDaily| && testedDaily[days[k]] != 0 &&
            IsPercent(positiveDaily[days[k]], testedDaily[days[k]], Some(PositivityRates(positiveDaily, testedDaily)[k])))
      && (forall k, l :: 0 <= k < l < |days| ==> days[k] < days[l])
      && (forall i :: 0 <= i < |testedDaily| && testedDaily[i] != 0 ==> i in days)
  {
    KeepSomeSpec(RateSeries(positiveDaily, testedDaily));
  }

  /** `change` is the percentage change from `first` to `last`: undefined when `first` is 0,
      otherwise the percentage that, added to `first`, gives `last`. */
  predicate IsChange(first: int, last: int, change: Option<real>)
  {
    && (change.None? <==> first == 0)
    && (change.Some? ==> first as real * (1.0 + change.value / 100.0) == last as real)
  }

  /** Percentage change between the first and last entry of a window,
      `100 * (xs[-1] - xs[0]) / xs[0]`, undefined when the first entry is 0. */
  function PercentChange(xs: seq<int>): (r: Option<real>)
    requires |xs| > 0
    ensures IsChange(xs[0], xs[|xs| - 1], r)
  {
    Percent(xs[|xs| - 1] - xs[0], xs[0])
  }

  /** From a positive start, the change is positive exactly when the window ends higher. */
  lemma PercentChangeSign(xs: seq<int>)
    requires |xs| > 0 && xs[0] > 0
    ensures PercentChange(xs).Some?
    ensures PercentChange(xs).value > 0.0 <==> xs[|xs| - 1] > xs[0]
    ensures PercentChange(xs).value == 0.0 <==> xs[|xs| - 1] == xs[0]
  {
    var p := PercentChange(xs).value;
    var f := xs[0] as real;
    assert p * f == 100.0 * (xs[|xs| - 1] - xs[0]) as real;
    if p > 0.0 { assert p * f > 0.0; }
    if p < 0.0 { assert p * f < 0.0; }
  }
}
