/** Pairing start and end instants by position and averaging the durations. */
module Aggregator {
  import opened Records

  function Abs(x: int): nat
  {
    if x < 0 then -x else x
  }

  function Min(a: nat, b: nat): nat
  {
    if a <= b then a else b
  }

  /** Integer division as Go's `/` does it: the quotient is truncated toward
      zero, so the remainder takes the sign of the dividend (Dafny's own `/`
      rounds so that the remainder is never negative). */
  function TruncDiv(a: int, b: int): (q: int)
    requires b != 0
    ensures Abs(a - q * b) < Abs(b)
    ensures 0 <= a ==> 0 <= a - q * b
    ensures a <= 0 ==> a - q * b <= 0
  {
    var quotient, rest := Abs(a) / Abs(b), Abs(a) % Abs(b);
    DivisionOfMagnitudes(Abs(a), Abs(b), quotient, rest);
    SignedProducts(quotient, Abs(b));
    if (a < 0) == (b < 0) then quotient else -quotient
  }

  lemma DivisionOfMagnitudes(x: nat, y: nat, quotient: int, rest: int)
    requires y > 0 && quotient == x / y && rest == x % y
    ensures x == quotient * y + rest && 0 <= rest < y
  {
  }

  lemma SignedProducts(x: int, y: int)
    ensures (-x) * y == -(x * y) && x * (-y) == -(x * y) && (-x) * (-y) == x * y
  {
  }

  /** The running total of the durations; summed in the order the loop adds them. */
  function Sum(xs: seq<int>): int
    decreases |xs|
  {
    if xs == [] then 0 else Sum(xs[..|xs| - 1]) + xs[|xs| - 1]
  }

  /** What one event yields: no matches, or the per-instance durations and
      their average. */
  datatype EventOutcome = NoMatches | Measured(instances: seq<Duration>, average: Duration)

  /** The outcome for given start and end instants. Either list empty means no
      matches, whatever the other holds. Otherwise the i-th start is paired
      with the i-th end for every i below the shorter length (the rest are
      dropped), each duration is end minus start whatever its sign, and the
      average is their sum divided by the pair count, truncated toward zero. */
  function Summarize(starts: seq<Instant>, ends: seq<Instant>): (o: EventOutcome)
    ensures o.NoMatches? <==> |starts| == 0 || |ends| == 0
    ensures o.Measured? ==>
      |o.instances| == Min(|starts|, |ends|) &&
      (forall i :: 0 <= i < |o.instances| ==> o.instances[i] == ends[i] - starts[i]) &&
      o.average == TruncDiv(Sum(o.instances), |o.instances|)
  {
    if |starts| == 0 || |ends| == 0 then NoMatches
    else
      var n := Min(|starts|, |ends|);
      var instances := seq(n, i requires 0 <= i < n => ends[i] - starts[i]);
      Measured(instances, TruncDiv(Sum(instances), n))
  }

  /** The aggregation code: the no-match test, the shorter length, the loop
      that accumulates the total, and the final division. */
  method Aggregate(starts: seq<Instant>, ends: seq<Instant>) returns (o: EventOutcome)
    ensures o == Summarize(starts, ends)
  {
    if |starts| == 0 || |ends| == 0 {
      return NoMatches;
    }
    var minLen := |starts|;
    if |ends| < minLen {
      minLen := |ends|;
    }
    var instances: seq<Duration> := [];
    var total: Duration := 0;
    var i := 0;
    while i < minLen
      invariant 0 <= i <= minLen
      invariant |instances| == i
      invariant forall k :: 0 <= k < i ==> instances[k] == ends[k] - starts[k]
      invariant total == Sum(instances)
    {
      var d := ends[i] - starts[i];
      total := total + d;
      assert (instances + [d])[..i] == instances;
      assert Sum(instances + [d]) == Sum(instances) + d;
      instances := instances + [d];
      i := i + 1;
    }
    assert minLen == Min(|starts|, |ends|);
    assert instances == seq(minLen, k requires 0 <= k < minLen => ends[k] - starts[k]);
    o := Measured(instances, TruncDiv(total, minLen));
  }

  /** Bounds on each term bound the sum. */
  lemma {:induction false} SumBounds(xs: seq<int>, lo: int, hi: int)
    requires forall i :: 0 <= i < |xs| ==> lo <= xs[i] <= hi
    ensures lo * |xs| <= Sum(xs) <= hi * |xs|
    decreases |xs|
  {
    if xs != [] {
      var init := xs[..|xs| - 1];
      SumBounds(init, lo, hi);
      assert lo * |xs| == lo * |init| + lo;
      assert hi * |xs| == hi * |init| + hi;
    }
  }

  lemma CancelFactor(x: int, y: int, n: int)
    requires n > 0
    ensures x * n < y * n ==> x < y
    ensures x * n <= y * n ==> x <= y
  {
    assert y * n - x * n == (y - x) * n;
  }

  /** A quotient truncated toward zero lies between any bounds of the exact one. */
  lemma TruncDivBetween(s: int, n: int, lo: int, hi: int)
    requires n > 0 && lo * n <= s <= hi * n
    ensures lo <= TruncDiv(s, n) <= hi
  {
    var q := TruncDiv(s, n);
    assert (q + 1) * n == q * n + n && (q - 1) * n == q * n - n;
    if s >= 0 {
      CancelFactor(q, hi, n);
      CancelFactor(lo, q + 1, n);
    } else {
      CancelFactor(lo, q, n);
      CancelFactor(q - 1, hi, n);
    }
  }

  /** The truncated average lies between the least and the greatest duration:
      every duration within [lo, hi] puts the average within [lo, hi]. */
  lemma AverageWithinBounds(instances: seq<Duration>, lo: int, hi: int)
    requires |instances| > 0
    requires forall i :: 0 <= i < |instances| ==> lo <= instances[i] <= hi
    ensures lo <= TruncDiv(Sum(instances), |instances|) <= hi
  {
    SumBounds(instances, lo, hi);
    TruncDivBetween(Sum(instances), |instances|, lo, hi);
  }

  /** Starts or ends beyond the shorter list play no part. */
  lemma UnpairedDropped(starts: seq<Instant>, ends: seq<Instant>)
    ensures var n := Min(|starts|, |ends|);
      Summarize(starts, ends) == Summarize(starts[..n], ends[..n])
  {
    var n := Min(|starts|, |ends|);
    var o, o' := Summarize(starts, ends), Summarize(starts[..n], ends[..n]);
    if o.Measured? {
      assert o.instances == o'.instances;
    }
  }

  /** Ends earlier than their starts are kept as negative durations, and a
      negative total is divided toward zero: -3 over 2 pairs averages -1,
      where Dafny's own `(-3) / 2`, which rounds down, would give -2. */
  lemma NegativeAverageTruncatesTowardZero()
    ensures Summarize([10, 10, 10], [9, 8]) == Measured([-1, -2], -1)
  {
    var o := Summarize([10, 10, 10], [9, 8]);
    assert o.instances == [-1, -2];
    assert Sum([-1, -2]) == -3 by {
      assert [-1, -2][..1] == [-1];
      assert [-1][..0] == [];
    }
  }
}
