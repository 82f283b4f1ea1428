/** What the numbers in the chart rows are: counts of probes, and rounded means of the values of one
    series in one bucket. */
module ChartValues {
  import opened Arithmetic
  import opened Charts
  import opened Common

  // ----- counts -----

  // The metrics whose time lies in the bucket that starts at t.
  ghost predicate InBucket(p: Point, b: int, t: int) { t <= p.timeMs < t + b }

  lemma BucketIff(time: int, b: int, t: int)
    requires b > 0 && OnGrid(t, b)
    ensures Bucket(time, b) == t <==> t <= time < t + b
  {
    Floor(t, b, t / b);
    Floor(time, b, t / b);
    ProductOrder(time / b, t / b, b);
    ProductOrder(t / b, time / b, b);
  }

  ghost function Outcomes(points: seq<Point>, b: int, t: int, success: bool): set<int> {
    set i | 0 <= i < |points| && InBucket(points[i], b, t) && points[i].success == success
  }

  lemma {:induction false} CountIsNumber(points: seq<Point>, b: int, t: int, success: bool)
    requires b > 0 && OnGrid(t, b)
    ensures Count(points, b, t, success) == |Outcomes(points, b, t, success)|
  {
    if points != [] {
      var front, p := points[..|points| - 1], points[|points| - 1];
      CountIsNumber(front, b, t, success);
      BucketIff(p.timeMs, b, t);
      OneOutcomeMore(front, p, b, t, success);
      assert points == front + [p];
    }
  }

  lemma OneOutcomeMore(front: seq<Point>, p: Point, b: int, t: int, success: bool)
    ensures |Outcomes(front + [p], b, t, success)|
         == |Outcomes(front, b, t, success)| + if InBucket(p, b, t) && p.success == success then 1 else 0
  {
    var one := if InBucket(p, b, t) && p.success == success then {|front|} else {};
    assert Outcomes(front + [p], b, t, success) == Outcomes(front, b, t, success) + one;
  }

  lemma StaysOnGrid(lo: int, b: int, i: nat)
    requires b > 0 && OnGrid(lo, b)
    ensures OnGrid(lo + i * b, b)
  {
    Floor(lo, b, lo / b);
    assert lo + i * b == (lo / b + i) * b;
    MultipleOf(lo / b + i, b);
  }

  // Each outcome row has the numbers of succeeded and of failed probes in its bucket.
  lemma OutcomeRowsCount(points: seq<Point>, b: int, lo: int, n: nat, i: nat)
    requires b > 0 && OnGrid(lo, b) && i < n
    ensures var row := OutcomeRows(points, b, lo, n)[i];
      && row.timeMs == lo + i * b
      && row.ok == |Outcomes(points, b, lo + i * b, true)| && row.fail == |Outcomes(points, b, lo + i * b, false)|
  {
    StaysOnGrid(lo, b, i);
    CountIsNumber(points, b, lo + i * b, true);
    CountIsNumber(points, b, lo + i * b, false);
  }

  // ----- means -----

  ghost function Samples(points: seq<Point>, b: int, t: int, name: string, v: real): set<int> {
    set i | 0 <= i < |points| && InBucket(points[i], b, t) && points[i].name == name && points[i].value == v
  }

  // The values averaged are those of the series in the bucket, each as often as it occurs.
  lemma {:induction false} ValuesAreSamples(points: seq<Point>, b: int, t: int, name: string, v: real)
    requires b > 0 && OnGrid(t, b)
    ensures multiset(ValuesIn(points, b, t, name))[v] == |Samples(points, b, t, name, v)|
  {
    if points != [] {
      var front, p := points[..|points| - 1], points[|points| - 1];
      ValuesAreSamples(front, b, t, name, v);
      BucketIff(p.timeMs, b, t);
      OneSampleMore(front, p, b, t, name, v);
      OneValueMore(ValuesIn(front, b, t, name), p.value, v);
      assert points == front + [p];
    }
  }

  lemma OneSampleMore(front: seq<Point>, p: Point, b: int, t: int, name: string, v: real)
    ensures |Samples(front + [p], b, t, name, v)|
         == |Samples(front, b, t, name, v)| + if InBucket(p, b, t) && p.name == name && p.value == v then 1 else 0
  {
    var one := if InBucket(p, b, t) && p.name == name && p.value == v then {|front|} else {};
    assert Samples(front + [p], b, t, name, v) == Samples(front, b, t, name, v) + one;
  }

  lemma OneValueMore(values: seq<real>, x: real, v: real)
    ensures multiset(values + [x])[v] == multiset(values)[v] + if x == v then 1 else 0
    ensures values + [] == values
  {
  }

  lemma {:induction false} SumConcat(a: seq<real>, b: seq<real>)
    ensures Sum(a + b) == Sum(a) + Sum(b)
  {
    if b == [] {
      assert a + b == a;
    } else {
      SumConcat(a, b[..|b| - 1]);
      assert (a + b)[..|a + b| - 1] == a + b[..|b| - 1];
    }
  }

  lemma SumOfOne(v: real)
    ensures Sum([v]) == v && Sum([]) == 0.0
  {
    assert [v][..0] == [];
  }

  lemma OneTimeMore(n: real, x: real)
    ensures (n + 1.0) * x == n * x + x
  {
  }

  lemma {:induction false} SumBetween(values: seq<real>, lo: real, hi: real)
    requires forall v :: v in values ==> lo <= v <= hi
    ensures |values| as real * lo <= Sum(values) <= |values| as real * hi
  {
    if values != [] {
      var front := values[..|values| - 1];
      assert forall v :: v in front ==> v in values;
      SumBetween(front, lo, hi);
      OneTimeMore(|front| as real, lo);
      OneTimeMore(|front| as real, hi);
      assert values[|front|] in values;
    }
  }

  lemma Quotient(sum: real, n: real, m: real)
    requires n > 0.0 && m * n == sum
    ensures sum / n == m
  {
  }

  ghost predicate IsThousandths(x: real) { (x * 1000.0).Floor as real == x * 1000.0 }

  // The number shown is a whole number of thousandths, within half of one of the mean; a mean that
  // lies in the middle goes up.
  lemma RoundedMeanIsNear(values: seq<real>, m: real)
    requires values != [] && m * (|values| as real) == Sum(values)
    ensures -0.0005 < RoundedMean(values) - m <= 0.0005
    ensures IsThousandths(RoundedMean(values))
  {
    Quotient(Sum(values), |values| as real, m);
    assert RoundedMean(values) == (m * 1000.0 + 0.5).Floor as real / 1000.0;
  }

  lemma MeanBetween(sum: real, n: real, lo: real, hi: real)
    requires n > 0.0 && n * lo <= sum <= n * hi
    ensures lo <= sum / n <= hi
  {
    var m := sum / n;
    assert m * n == sum;
    RealOrder(m, lo, n);
    RealOrder(hi, m, n);
  }

  lemma RealOrder(x: real, y: real, n: real)
    requires n > 0.0
    ensures x < y ==> x * n < y * n
  {
  }

  // Math.round(x * 1000) / 1000
  function Rounded(x: real): real { (x * 1000.0 + 0.5).Floor as real / 1000.0 }

  lemma RoundedMonotone(x: real, y: real)
    requires x <= y
    ensures Rounded(x) <= Rounded(y)
  {
    assert (x * 1000.0 + 0.5).Floor <= (y * 1000.0 + 0.5).Floor;
  }

  // And it lies between any bounds of the values, rounded likewise.
  lemma RoundedMeanIsBetween(values: seq<real>, lo: real, hi: real)
    requires values != [] && forall v :: v in values ==> lo <= v <= hi
    ensures Rounded(lo) <= RoundedMean(values) <= Rounded(hi)
  {
    var n := |values| as real;
    SumBetween(values, lo, hi);
    MeanBetween(Sum(values), n, lo, hi);
    RoundedMonotone(lo, Sum(values) / n);
    RoundedMonotone(Sum(values) / n, hi);
  }

  // ----- gaps -----

  // A success of the series at this time.
  ghost predicate SucceedsAt(points: seq<Point>, series: string, time: int) {
    exists i :: 0 <= i < |points| && points[i].success && points[i].series == series && points[i].timeMs == time
  }

  // Two successes of one series with none of its successes between them.
  ghost predicate Neighbours(points: seq<Point>, series: string, s: int, t: int) {
    && s < t && SucceedsAt(points, series, s) && SucceedsAt(points, series, t)
    && forall u :: SucceedsAt(points, series, u) ==> u <= s || t <= u
  }

  ghost predicate IsGap(points: seq<Point>, g: int) {
    exists series, s, t :: Neighbours(points, series, s, t) && t - s == g
  }

  lemma OneMoreSuccess(front: seq<Point>, p: Point, series: string, time: int)
    ensures SucceedsAt(front + [p], series, time)
       <==> SucceedsAt(front, series, time) || (p.success && p.series == series && p.timeMs == time)
  {
    var points := front + [p];
    assert points[|front|] == p;
    if i :| 0 <= i < |front| && front[i].success && front[i].series == series && front[i].timeMs == time {
      assert points[i] == front[i];
    }
  }

  lemma {:induction false} TimesAreSuccesses(points: seq<Point>, series: string, time: int)
    ensures time in TimesOf(points, series) <==> SucceedsAt(points, series, time)
  {
    if points != [] {
      var front, p := points[..|points| - 1], points[|points| - 1];
      assert points == front + [p];
      TimesAreSuccesses(front, series, time);
      OneMoreSuccess(front, p, series, time);
    }
  }

  lemma {:induction false} SeriesSucceed(points: seq<Point>, series: string, time: int)
    requires SucceedsAt(points, series, time)
    ensures series in SeriesOf(points)
  {
    var front, p := points[..|points| - 1], points[|points| - 1];
    assert points == front + [p];
    OneMoreSuccess(front, p, series, time);
    if SucceedsAt(front, series, time) { SeriesSucceed(front, series, time); }
  }

  ghost predicate StepAt(times: seq<int>, k: int, s: int, t: int) {
    0 < k < |times| && times[k - 1] == s && times[k] == t
  }

  ghost predicate HasGap(times: seq<int>, g: int) { exists k, s, t :: StepAt(times, k, s, t) && t - s == g }

  lemma {:induction false} GapsAreSteps(times: seq<int>, g: int)
    ensures g in GapsOf(times) <==> HasGap(times, g)
  {
    if |times| >= 2 {
      var front, n := times[..|times| - 1], |times| - 1;
      GapsAreSteps(front, g);
      if k, s, t :| StepAt(front, k, s, t) && t - s == g { assert StepAt(times, k, s, t); }
      if k, s, t :| StepAt(times, k, s, t) && t - s == g { assert k < n ==> StepAt(front, k, s, t); }
      assert StepAt(times, n, times[n - 1], times[n]);
    }
  }

  ghost predicate FromSeries(points: seq<Point>, series: seq<string>, g: int) {
    exists k :: 0 <= k < |series| && HasGap(Sorted(TimesOf(points, series[k])), g)
  }

  lemma {:induction false} AllGapsAre(points: seq<Point>, series: seq<string>, g: int)
    ensures g in AllGaps(points, series) <==> FromSeries(points, series, g)
  {
    if series != [] {
      var front, n := series[..|series| - 1], |series| - 1;
      AllGapsAre(points, front, g);
      GapsAreSteps(Sorted(TimesOf(points, series[n])), g);
      if k :| 0 <= k < |front| && HasGap(Sorted(TimesOf(points, front[k])), g) { assert series[k] == front[k]; }
      if k :| 0 <= k < |series| && HasGap(Sorted(TimesOf(points, series[k])), g) {
        assert k < n ==> front[k] == series[k];
      }
    }
  }

  // Position of the first element above x.
  lemma {:induction false} FirstAbove(times: seq<int>, x: int) returns (k: nat)
    requires IsSorted(times)
    ensures k <= |times| && (forall i :: 0 <= i < k ==> times[i] <= x) && (k < |times| ==> x < times[k])
  {
    if times == [] || x < times[0] {
      k := 0;
    } else {
      var rest := FirstAbove(times[1..], x);
      k := rest + 1;
      forall i | 0 <= i < k ensures times[i] <= x { if i > 0 { assert times[i] == times[1..][i - 1]; } }
    }
  }

  lemma SortedTimes(points: seq<Point>, series: string)
    ensures IsSorted(Sorted(TimesOf(points, series)))
    ensures forall u :: u in Sorted(TimesOf(points, series)) <==> SucceedsAt(points, series, u)
  {
    var times := TimesOf(points, series);
    SortedIs(times);
    forall u ensures u in Sorted(times) <==> SucceedsAt(points, series, u) {
      assert u in multiset(Sorted(times)) <==> u in multiset(times);
      TimesAreSuccesses(points, series, u);
    }
  }

  // Steps between different elements of a sorted sequence lie between neighbours.
  lemma StepIsBetween(times: seq<int>, k: int, s: int, t: int)
    requires IsSorted(times) && StepAt(times, k, s, t)
    ensures s in times && t in times && forall u :: u in times ==> u <= s || t <= u
  {
    forall u | u in times ensures u <= s || t <= u {
      var i :| 0 <= i < |times| && times[i] == u;
      if i < k { assert times[i] <= times[k - 1]; } else { assert times[k] <= times[i]; }
    }
  }

  lemma NeighboursAreStep(times: seq<int>, s: int, t: int) returns (k: int)
    requires IsSorted(times) && s < t && s in times && t in times
    requires forall u :: u in times ==> u <= s || t <= u
    ensures StepAt(times, k, s, t)
  {
    k := FirstAbove(times, s);
    var i :| 0 <= i < |times| && times[i] == s;
    var j :| 0 <= j < |times| && times[j] == t;
    assert i < k <= j && times[k] in times;
    assert times[i] <= times[k - 1] && times[k] <= times[j];
  }

  lemma GapOfSeries(points: seq<Point>, series: string, g: int)
    requires g > 0
    ensures HasGap(Sorted(TimesOf(points, series)), g) <==>
      exists s, t :: Neighbours(points, series, s, t) && t - s == g
  {
    var times := Sorted(TimesOf(points, series));
    SortedTimes(points, series);
    if k, s, t :| StepAt(times, k, s, t) && t - s == g {
      StepIsBetween(times, k, s, t);
      assert Neighbours(points, series, s, t);
    }
    if s, t :| Neighbours(points, series, s, t) && t - s == g {
      var k := NeighboursAreStep(times, s, t);
    }
  }

  // The gaps from which the cadence is taken, other than zero, are exactly the distances between
  // neighbouring successes of one series.
  lemma GapsAreDistances(points: seq<Point>, g: int)
    requires g > 0
    ensures g in AllGaps(points, SeriesOf(points)) <==> IsGap(points, g)
  {
    var all := SeriesOf(points);
    AllGapsAre(points, all, g);
    if k :| 0 <= k < |all| && HasGap(Sorted(TimesOf(points, all[k])), g) { GapOfSeries(points, all[k], g); }
    if series, s, t :| Neighbours(points, series, s, t) && t - s == g {
      GapOfSeries(points, series, g);
      SeriesSucceed(points, series, s);
      var k :| 0 <= k < |all| && all[k] == series;
    }
  }
}
