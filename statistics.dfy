/** Sums, means and the population variance, with the facts that let a comparison of a mean
    or a variance be read in integers. */
module Statistics {
  function Sum(xs: seq<real>): real {
    if xs == [] then 0.0 else Sum(xs[..|xs| - 1]) + xs[|xs| - 1]
  }

  function IntSum(xs: seq<int>): int {
    if xs == [] then 0 else IntSum(xs[..|xs| - 1]) + xs[|xs| - 1]
  }

  /** For a positive count, a mean exceeds (or falls below) `c` exactly when the sum exceeds
      (or falls below) `c` times the count. */
  lemma MeanCompare(sum: real, count: nat, c: real)
    requires count > 0
    ensures sum / count as real > c <==> sum > c * count as real
    ensures sum / count as real < c <==> sum < c * count as real
  {
    var n := count as real;
    assert (sum / n) * n == sum;
    ScaleStrict(sum / n, c, n);
    ScaleStrict(c, sum / n, n);
  }

  /** The squared deviation of one value from `m`. */
  function Deviation(t: int, m: real): real {
    (t as real - m) * (t as real - m)
  }

  /** The same deviation scaled by n, in integers: (n t - s)^2. */
  function ScaledDeviation(t: int, s: int, n: int): int {
    (n * t - s) * (n * t - s)
  }

  /** The squared deviation of each value of `ts` from `m`. */
  function Deviations(ts: seq<int>, m: real): (ds: seq<real>)
    ensures |ds| == |ts| && forall i :: 0 <= i < |ts| ==> ds[i] == Deviation(ts[i], m)
  {
    seq(|ts|, i requires 0 <= i < |ts| => Deviation(ts[i], m))
  }

  /** The scaled deviation of each value of `ts`. */
  function ScaledDeviations(ts: seq<int>, s: int, n: int): (ds: seq<int>)
    ensures |ds| == |ts| && forall i :: 0 <= i < |ts| ==> ds[i] == ScaledDeviation(ts[i], s, n)
  {
    seq(|ts|, i requires 0 <= i < |ts| => ScaledDeviation(ts[i], s, n))
  }

  /** Population variance of `ts` (nonempty). */
  function Variance(ts: seq<int>): real
    requires |ts| > 0
  {
    var n := |ts| as real;
    Sum(Deviations(ts, IntSum(ts) as real / n)) / n
  }

  /** When each real, scaled by `c`, is the matching integer, so is their sum. */
  lemma {:induction false} ScaledSum(xs: seq<real>, ys: seq<int>, c: real)
    requires |xs| == |ys| && forall i :: 0 <= i < |xs| ==> xs[i] * c == ys[i] as real
    ensures Sum(xs) * c == IntSum(ys) as real
  {
    if xs != [] {
      var k := |xs| - 1;
      ScaledSum(xs[..k], ys[..k], c);
      SumScaled(Sum(xs[..k]), IntSum(ys[..k]), xs[k], ys[k], c);
    }
  }

  /** With m = s / n, the squared deviations from m scaled by n^2 sum to the integer sum of
      (n t - s)^2. */
  lemma DeviationsScaled(ts: seq<int>, s: int, n: int, m: real)
    requires m * n as real == s as real
    ensures Sum(Deviations(ts, m)) * (n * n) as real == IntSum(ScaledDeviations(ts, s, n)) as real
  {
    var c := (n * n) as real;
    EachDeviationScaled(ts, s, n, m, c);
    SumOfPointwise(ts, s, n, m, c);
  }
  lemma SumOfPointwise(ts: seq<int>, s: int, n: int, m: real, c: real)
    requires forall i :: 0 <= i < |ts| ==> Deviations(ts, m)[i] * c == ScaledDeviations(ts, s, n)[i] as real
    ensures Sum(Deviations(ts, m)) * c == IntSum(ScaledDeviations(ts, s, n)) as real
  {
    ScaledSum(Deviations(ts, m), ScaledDeviations(ts, s, n), c);
  }
  lemma EachDeviationScaled(ts: seq<int>, s: int, n: int, m: real, c: real)
    requires m * n as real == s as real && c == (n * n) as real
    ensures forall i :: 0 <= i < |ts| ==> Deviations(ts, m)[i] * c == ScaledDeviations(ts, s, n)[i] as real
  {
    forall i | 0 <= i < |ts|
      ensures Deviations(ts, m)[i] * c == ScaledDeviations(ts, s, n)[i] as real
    {
      DeviationScaled(ts[i], s, n, m, c);
    }
  }

  lemma SumScaled(a: real, b: int, d: real, e: int, c: real)
    requires a * c == b as real && d * c == e as real
    ensures (a + d) * c == (b + e) as real
  {
    Distrib(a, d, c);
  }

  /** One value's deviation scaled by n^2 is its integer scaled deviation. */
  lemma DeviationScaled(t: int, s: int, n: int, m: real, nn: real)
    requires m * n as real == s as real && nn == (n * n) as real
    ensures Deviation(t, m) * nn == ScaledDeviation(t, s, n) as real
  {
    var x, k := t as real - m, n * t - s;
    ScaledTerm(t, s, n, m);
    CastProduct(n, n);
    CastProduct(k, k);
    SquareOfScaled(x, n as real);
  }

  lemma CastProduct(a: int, b: int)
    ensures (a * b) as real == a as real * b as real
  {
  }

  lemma Distrib(a: real, b: real, c: real)
    ensures (a + b) * c == a * c + b * c
  {
  }

  lemma SquareOfScaled(x: real, c: real)
    ensures x * x * (c * c) == (x * c) * (x * c)
  {
  }

  lemma ScaledTerm(t: int, s: int, n: int, m: real)
    requires m * n as real == s as real
    ensures (t as real - m) * n as real == (n * t - s) as real
  {
    CastProduct(n, t);
  }

  lemma VarianceAsIntegers(ts: seq<int>, n: nat)
    requires n == |ts| > 0
    ensures Variance(ts) < 4.0 <==> IntSum(ScaledDeviations(ts, IntSum(ts), n)) < 4 * n * n * n
  {
    var s := IntSum(ts);
    MeanTimesCount(s, n);
    ScaledVarianceCompare(ts, s, n, s as real / n as real);
  }

  lemma ScaledVarianceCompare(ts: seq<int>, s: int, n: nat, m: real)
    requires n > 0 && m * n as real == s as real
    ensures Sum(Deviations(ts, m)) / n as real < 4.0 <==> IntSum(ScaledDeviations(ts, s, n)) < 4 * n * n * n
  {
    DeviationsScaled(ts, s, n, m);
    ScaledCompare(Sum(Deviations(ts, m)), n, IntSum(ScaledDeviations(ts, s, n)));
  }

  lemma MeanTimesCount(s: int, n: nat)
    requires n > 0
    ensures (s as real / n as real) * n as real == s as real
  {
  }

  /** A sum whose n^2 multiple is the integer `scaled` has mean under 4 exactly when `scaled`
      is under 4 n^3. */
  lemma ScaledCompare(sq: real, n: nat, scaled: int)
    requires n > 0 && sq * (n * n) as real == scaled as real
    ensures sq / n as real < 4.0 <==> scaled < 4 * n * n * n
  {
    MeanCompare(sq, n, 4.0);
    var nn := (n * n) as real;
    ScaleStrict(4.0 * n as real, sq, nn);
    CastProduct(n, n);
    CastProduct(4 * n, n * n);
    CastProduct(4, n);
    assert 4 * n * n * n == (4 * n) * (n * n);
  }

  lemma ScaleStrict(x: real, y: real, c: real)
    requires c > 0.0
    ensures x > y <==> x * c > y * c
  {
    assert x * c - y * c == (x - y) * c;
  }
}
