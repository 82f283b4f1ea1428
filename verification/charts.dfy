/** Chart bucketing of the dashboard: metrics are aligned onto a grid of time buckets, averaged a
    series at a time for the lines and counted for the outcome bars. Times are integers; values are
    reals, so the rounding of doubles is not modelled. */
module Charts {
  import opened Arithmetic
  import opened Common

  // series stands for check type, agent and target; name is the label of its line.
  datatype Point = Point(timeMs: int, series: string, name: string, success: bool, value: real)

  datatype Range = Range(start: int, end: int)

  const BUCKET_STEPS_MS: seq<int> := [
    250, 500, 1000, 2000, 5000, 10000, 15000, 30000, 60000, 120000, 300000, 600000, 900000, 1800000, 3600000]
  const MAX_BUCKETS := 360
  const DEFAULT_CADENCE_MS := 1000

  // ----- the cadence of the metrics -----

  function Insert(sorted: seq<int>, x: int): seq<int> {
    if sorted == [] || x <= sorted[0] then [x] + sorted else [sorted[0]] + Insert(sorted[1..], x)
  }

  // sort((a, b) => a - b)
  function Sorted(s: seq<int>): seq<int> { if s == [] then [] else Insert(Sorted(s[..|s| - 1]), s[|s| - 1]) }

  ghost predicate IsSorted(s: seq<int>) { forall i, j :: 0 <= i < j < |s| ==> s[i] <= s[j] }

  lemma {:induction false} InsertIs(s: seq<int>, x: int)
    requires IsSorted(s)
    ensures IsSorted(Insert(s, x)) && multiset(Insert(s, x)) == multiset(s) + multiset{x}
  {
    if s == [] || x <= s[0] {
      FirstIsLeast(x, s);
    } else {
      var rest := Insert(s[1..], x);
      InsertIs(s[1..], x);
      forall y | y in rest ensures s[0] <= y { assert y in multiset(rest); }
      FirstIsLeast(s[0], rest);
      assert s == [s[0]] + s[1..];
    }
  }

  lemma FirstIsLeast(x: int, s: seq<int>)
    requires IsSorted(s) && (s == [] || x <= s[0] || forall y :: y in s ==> x <= y)
    ensures IsSorted([x] + s) && multiset([x] + s) == multiset(s) + multiset{x}
  {
    forall j | 0 <= j < |s| ensures x <= s[j] { assert s[j] in s; }
  }

  lemma LastApart(s: seq<int>)
    requires s != []
    ensures multiset(s) == multiset(s[..|s| - 1]) + multiset{s[|s| - 1]}
  {
    assert s == s[..|s| - 1] + [s[|s| - 1]];
  }

  lemma {:induction false} SortedIs(s: seq<int>)
    ensures IsSorted(Sorted(s)) && multiset(Sorted(s)) == multiset(s)
  {
    if s != [] {
      var front, x := s[..|s| - 1], s[|s| - 1];
      SortedIs(front);
      InsertIs(Sorted(front), x);
      LastApart(s);
    }
  }

  // The series with a success, in the order they first appear.
  function SeriesOf(points: seq<Point>): seq<string> {
    if points == [] then []
    else
      var front, last := SeriesOf(points[..|points| - 1]), points[|points| - 1];
      if last.success && last.series !in front then front + [last.series] else front
  }

  function TimesOf(points: seq<Point>, series: string): seq<int> {
    if points == [] then []
    else
      var front, last := TimesOf(points[..|points| - 1], series), points[|points| - 1];
      if last.success && last.series == series then front + [last.timeMs] else front
  }

  // Distances between consecutive times.
  function GapsOf(times: seq<int>): seq<int> {
    if |times| < 2 then [] else GapsOf(times[..|times| - 1]) + [times[|times| - 1] - times[|times| - 2]]
  }

  function AllGaps(points: seq<Point>, series: seq<string>): seq<int> {
    if series == [] then []
    else AllGaps(points, series[..|series| - 1]) + GapsOf(Sorted(TimesOf(points, series[|series| - 1])))
  }

  // The upper quartile of the gaps between samples of one series.
  function CadenceOf(points: seq<Point>): int {
    var gaps := Sorted(AllGaps(points, SeriesOf(points)));
    if gaps == [] then DEFAULT_CADENCE_MS else gaps[|gaps| * 3 / 4]
  }

  lemma NoGapsNoCadence(points: seq<Point>)
    requires AllGaps(points, SeriesOf(points)) == []
    ensures CadenceOf(points) == 1000
  {
    SortedIs(AllGaps(points, SeriesOf(points)));
    assert |multiset(Sorted(AllGaps(points, SeriesOf(points))))| == 0;
  }

  // The cadence is a gap that occurs: at least a quarter of the gaps are no shorter, and at least
  // three quarters no longer.
  lemma CadenceIsQuartile(points: seq<Point>)
    ensures var all, g := AllGaps(points, SeriesOf(points)), Sorted(AllGaps(points, SeriesOf(points)));
      && multiset(g) == multiset(all)
      && (g != [] ==> CadenceOf(points) in all)
      && (g != [] ==> forall i :: 0 <= i <= |g| * 3 / 4 ==> g[i] <= CadenceOf(points))
      && (g != [] ==> forall i :: |g| * 3 / 4 <= i < |g| ==> CadenceOf(points) <= g[i])
  {
    QuartileOfSorted(AllGaps(points, SeriesOf(points)), CadenceOf(points));
  }

  lemma QuartileOfSorted(all: seq<int>, c: int)
    requires Sorted(all) != [] ==> c == Sorted(all)[|Sorted(all)| * 3 / 4]
    ensures var g := Sorted(all);
      && multiset(g) == multiset(all)
      && (g != [] ==> c in all)
      && (g != [] ==> forall i :: 0 <= i <= |g| * 3 / 4 ==> g[i] <= c)
      && (g != [] ==> forall i :: |g| * 3 / 4 <= i < |g| ==> c <= g[i])
  {
    SortedIs(all);
    QuartileIs(Sorted(all), all, c);
  }

  lemma QuartileIs(g: seq<int>, all: seq<int>, c: int)
    requires IsSorted(g) && multiset(g) == multiset(all) && (g != [] ==> c == g[|g| * 3 / 4])
    ensures g != [] ==> c in all
    ensures g != [] ==> forall i :: 0 <= i <= |g| * 3 / 4 ==> g[i] <= c
    ensures g != [] ==> forall i :: |g| * 3 / 4 <= i < |g| ==> c <= g[i]
  {
    if g != [] { assert c in multiset(g) && c in multiset(all); }
  }

  method GroupTimes(points: seq<Point>) returns (order: seq<string>, times: map<string, seq<int>>)
    ensures order == SeriesOf(points) && times.Keys == set s | s in order
    ensures forall s :: s in order ==> times[s] == TimesOf(points, s)
  {
    order, times := [], map[];
    var i := 0;
    assert points[..0] == [];
    while i < |points|
      invariant 0 <= i <= |points| && order == SeriesOf(points[..i]) && times.Keys == set s | s in order
      invariant forall s :: (if s in order then times[s] else []) == TimesOf(points[..i], s)
    {
      var p := points[i];
      assert points[..i + 1][..i] == points[..i] && points[..i + 1][i] == p;
      if p.success {
        if p.series in times {
          times := times[p.series := times[p.series] + [p.timeMs]];
        } else {
          order, times := order + [p.series], times[p.series := [p.timeMs]];
        }
      }
      i := i + 1;
    }
    assert points[..|points|] == points;
  }

  method FindGaps(times: seq<int>) returns (gaps: seq<int>)
    ensures gaps == GapsOf(times)
  {
    gaps := [];
    var i := 1;
    while i < |times|
      invariant 1 <= i && (times != [] ==> i <= |times| && gaps == GapsOf(times[..i]))
      invariant times == [] ==> gaps == []
    {
      assert times[..i + 1][..i] == times[..i];
      gaps := gaps + [times[i] - times[i - 1]];
      i := i + 1;
    }
    assert times[..|times|] == times;
  }

  method FindCadence(points: seq<Point>) returns (cadence: int)
    ensures cadence == CadenceOf(points)
  {
    var order, times := GroupTimes(points);
    var gaps, i := [], 0;
    while i < |order|
      invariant 0 <= i <= |order| && gaps == AllGaps(points, order[..i])
    {
      assert order[..i + 1][..i] == order[..i];
      var more := FindGaps(Sorted(times[order[i]]));
      gaps := gaps + more;
      i := i + 1;
    }
    assert order[..|order|] == order;
    var sorted := Sorted(gaps);
    SortedIs(gaps);
    cadence := if sorted == [] then DEFAULT_CADENCE_MS else sorted[|sorted| * 3 / 4];
  }

  // ----- the bucket width -----

  function Target(windowSeconds: int, cadence: int): real {
    var spread := (windowSeconds * 1000) as real / 360.0;
    if cadence as real > spread then cadence as real else spread
  }

  // The narrowest step that is wide enough, or the widest one there is.
  ghost predicate IsPicked(b: int, windowSeconds: int, cadence: int) {
    && b in BUCKET_STEPS_MS
    && (b as real >= Target(windowSeconds, cadence) || b == 3600000)
    && (forall s :: s in BUCKET_STEPS_MS && s < b ==> s as real < Target(windowSeconds, cadence))
  }

  // No narrower than the cadence, and 360 of it cover the window.
  ghost predicate IsWide(b: int, windowSeconds: int, cadence: int) {
    b >= cadence && b * 360 >= windowSeconds * 1000
  }

  ghost predicate IsStep(b: int) {
    b in {250, 500, 1000, 2000, 5000, 10000, 15000, 30000, 60000, 120000, 300000, 600000, 900000, 1800000, 3600000}
  }

  lemma PickedIsNarrowest(b: int, windowSeconds: int, cadence: int)
    requires IsPicked(b, windowSeconds, cadence)
    ensures IsStep(b) && (IsWide(b, windowSeconds, cadence) || b == 3600000)
    ensures forall s :: IsStep(s) && s < b ==> !IsWide(s, windowSeconds, cadence)
  {
    forall s | IsStep(s) && s < b ensures !IsWide(s, windowSeconds, cadence) {
      StepIsListed(s);
      WideIff(s, windowSeconds, cadence);
    }
    WideIff(b, windowSeconds, cadence);
  }

  lemma WideIff(b: int, windowSeconds: int, cadence: int)
    ensures IsWide(b, windowSeconds, cadence) <==> b as real >= Target(windowSeconds, cadence)
  {
    var w := (windowSeconds * 1000) as real;
    assert w / 360.0 * 360.0 == w;
  }

  lemma StepIsListed(s: int)
    ensures IsStep(s) <==> s in BUCKET_STEPS_MS
  {
    assert BUCKET_STEPS_MS[0] == 250 && BUCKET_STEPS_MS[1] == 500 && BUCKET_STEPS_MS[2] == 1000;
    assert BUCKET_STEPS_MS[3] == 2000 && BUCKET_STEPS_MS[4] == 5000 && BUCKET_STEPS_MS[5] == 10000;
    assert BUCKET_STEPS_MS[6] == 15000 && BUCKET_STEPS_MS[7] == 30000 && BUCKET_STEPS_MS[8] == 60000;
    assert BUCKET_STEPS_MS[9] == 120000 && BUCKET_STEPS_MS[10] == 300000 && BUCKET_STEPS_MS[11] == 600000;
    assert BUCKET_STEPS_MS[12] == 900000 && BUCKET_STEPS_MS[13] == 1800000 && BUCKET_STEPS_MS[14] == 3600000;
  }

  lemma StepsIncrease(i: nat)
    requires i < |BUCKET_STEPS_MS|
    ensures forall j :: 0 <= j < |BUCKET_STEPS_MS| && BUCKET_STEPS_MS[j] < BUCKET_STEPS_MS[i] ==> j < i
  {
  }

  method PickBucketMs(windowSeconds: int, points: seq<Point>) returns (bucketMs: int)
    ensures IsPicked(bucketMs, windowSeconds, CadenceOf(points))
  {
    var cadence := FindCadence(points);
    var target := Target(windowSeconds, cadence);
    var i := 0;
    while i < |BUCKET_STEPS_MS|
      invariant 0 <= i <= |BUCKET_STEPS_MS|
      invariant forall j :: 0 <= j < i ==> BUCKET_STEPS_MS[j] as real < target
    {
      if BUCKET_STEPS_MS[i] as real >= target {
        StepsIncrease(i);
        return BUCKET_STEPS_MS[i];
      }
      i := i + 1;
    }
    assert BUCKET_STEPS_MS[14] == 3600000;
    bucketMs := BUCKET_STEPS_MS[|BUCKET_STEPS_MS| - 1];
  }

  // ----- the grid -----

  // Math.floor(t / bucketMs) * bucketMs
  function Bucket(t: int, b: int): int
    requires b > 0
  {
    t / b * b
  }

  datatype Bounds = Empty | Bounds(lo: int, hi: int)

  function Widened(g: Bounds, x: int): Bounds {
    match g
    case Empty => Bounds(x, x)
    case Bounds(lo, hi) => Bounds(if x < lo then x else lo, if x > hi then x else hi)
  }

  // Least and greatest bucket of the range and the points.
  function GridOf(points: seq<Point>, b: int, range: Option<Range>): Bounds
    requires b > 0
  {
    if points == [] then
      match range case None => Empty case Some(r) => Bounds(Bucket(r.start, b), Bucket(r.end, b))
    else Widened(GridOf(points[..|points| - 1], b, range), Bucket(points[|points| - 1].timeMs, b))
  }

  ghost predicate OnGrid(x: int, b: int)
    requires b > 0
  {
    x % b == 0
  }

  lemma BucketOnGrid(t: int, b: int)
    requires b > 0
    ensures OnGrid(Bucket(t, b), b) && Bucket(t, b) <= t < Bucket(t, b) + b
  {
    Floor(t, b, t / b);
    MultipleOf(t / b, b);
  }

  ghost predicate Covers(g: Bounds, x: int) {
    g.Bounds? && g.lo <= x <= g.hi
  }

  lemma {:induction false} GridHolds(points: seq<Point>, b: int, range: Option<Range>)
    requires b > 0
    ensures GridOf(points, b, range).Empty? <==> points == [] && range.None?
    ensures GridOf(points, b, range).Bounds? ==>
      OnGrid(GridOf(points, b, range).lo, b) && OnGrid(GridOf(points, b, range).hi, b)
    ensures forall p :: p in points ==> Covers(GridOf(points, b, range), Bucket(p.timeMs, b))
  {
    if points == [] {
      if range.Some? {
        BucketOnGrid(range.value.start, b);
        BucketOnGrid(range.value.end, b);
      }
    } else {
      var front, last := points[..|points| - 1], points[|points| - 1];
      GridHolds(front, b, range);
      BucketOnGrid(last.timeMs, b);
      assert forall p :: p in points ==> p in front || p == last;
    }
  }

  // The bucket of a point, or of an end of the range.
  ghost predicate IsEnd(x: int, points: seq<Point>, b: int, range: Option<Range>)
    requires b > 0
  {
    (exists i :: 0 <= i < |points| && Bucket(points[i].timeMs, b) == x)
    || (range.Some? && (x == Bucket(range.value.start, b) || x == Bucket(range.value.end, b)))
  }

  // And it is no larger than that: both its ends are such buckets.
  lemma {:induction false} GridIsTight(points: seq<Point>, b: int, range: Option<Range>)
    requires b > 0 && GridOf(points, b, range).Bounds?
    ensures IsEnd(GridOf(points, b, range).lo, points, b, range) && IsEnd(GridOf(points, b, range).hi, points, b, range)
  {
    if points != [] {
      var front, n := points[..|points| - 1], |points| - 1;
      if GridOf(front, b, range).Bounds? {
        GridIsTight(front, b, range);
        EndStays(GridOf(front, b, range).lo, points, b, range);
        EndStays(GridOf(front, b, range).hi, points, b, range);
      }
      assert IsEnd(Bucket(points[n].timeMs, b), points, b, range);
    }
  }

  lemma EndStays(x: int, points: seq<Point>, b: int, range: Option<Range>)
    requires b > 0 && points != [] && IsEnd(x, points[..|points| - 1], b, range)
    ensures IsEnd(x, points, b, range)
  {
    var front := points[..|points| - 1];
    if i :| 0 <= i < |front| && Bucket(front[i].timeMs, b) == x { assert points[i] == front[i]; }
  }

  ghost predicate Inside(g: Bounds, h: Bounds) {
    g.Bounds? ==> h.Bounds? && h.lo <= g.lo && g.hi <= h.hi
  }

  lemma WidenedInside(g: Bounds, h: Bounds, x: int)
    requires Inside(g, h)
    ensures Inside(Widened(g, x), Widened(h, x)) && Inside(g, Widened(h, x))
  {
  }

  // The grid of the successes lies inside the grid of all the metrics.
  lemma {:induction false} GridOfFewer(points: seq<Point>, b: int, range: Option<Range>)
    requires b > 0
    ensures Inside(GridOf(Successes(points), b, range), GridOf(points, b, range))
  {
    if points != [] {
      var front, last := points[..|points| - 1], points[|points| - 1];
      GridOfFewer(front, b, range);
      WidenedInside(GridOf(Successes(front), b, range), GridOf(front, b, range), Bucket(last.timeMs, b));
      if last.success {
        var s := Successes(front) + [last];
        assert s[..|s| - 1] == Successes(front) && Successes(points) == s;
      } else {
        assert Successes(points) == Successes(front);
      }
    }
  }

  function Successes(points: seq<Point>): seq<Point> {
    if points == [] then []
    else
      var last := points[|points| - 1];
      Successes(points[..|points| - 1]) + (if last.success then [last] else [])
  }

  function RowCount(lo: int, hi: int, b: int): nat
    requires b > 0
  {
    if hi < lo then 0 else (hi - lo) / b + 1
  }

  // ----- outcome rows -----

  datatype OutcomeRow = OutcomeRow(timeMs: int, ok: nat, fail: nat)

  function Count(points: seq<Point>, b: int, bucket: int, success: bool): nat
    requires b > 0
  {
    if points == [] then 0
    else
      var last := points[|points| - 1];
      Count(points[..|points| - 1], b, bucket, success)
      + (if Bucket(last.timeMs, b) == bucket && last.success == success then 1 else 0)
  }

  function OutcomeAt(points: seq<Point>, b: int, t: int): OutcomeRow
    requires b > 0
  {
    OutcomeRow(t, Count(points, b, t, true), Count(points, b, t, false))
  }

  function OutcomeRows(points: seq<Point>, b: int, lo: int, n: nat): (rows: seq<OutcomeRow>)
    requires b > 0
    ensures |rows| == n
    ensures forall i :: 0 <= i < n ==> rows[i] == OutcomeAt(points, b, lo + i * b)
  {
    if n == 0 then [] else OutcomeRows(points, b, lo, n - 1) + [OutcomeAt(points, b, lo + (n - 1) * b)]
  }

  function Counted(rows: seq<OutcomeRow>): nat {
    if rows == [] then 0 else Counted(rows[..|rows| - 1]) + rows[|rows| - 1].ok + rows[|rows| - 1].fail
  }

  // One point more is counted once, in the row of its bucket and no other.
  lemma {:induction false} OnePointMore(points: seq<Point>, p: Point, b: int, lo: int, n: nat, k: int)
    requires b > 0 && 0 <= k && Bucket(p.timeMs, b) == lo + k * b
    ensures Counted(OutcomeRows(points + [p], b, lo, n))
         == Counted(OutcomeRows(points, b, lo, n)) + if k < n then 1 else 0
  {
    if n > 0 {
      OnePointMore(points, p, b, lo, n - 1, k);
      assert (points + [p])[..|points|] == points;
      ProductOrder(k, n - 1, b);
      ProductOrder(n - 1, k, b);
    }
  }

  lemma {:induction false} NoPoints(b: int, lo: int, n: nat)
    requires b > 0
    ensures Counted(OutcomeRows([], b, lo, n)) == 0
  {
    if n > 0 { NoPoints(b, lo, n - 1); }
  }

  lemma GridIndex(x: int, lo: int, b: int) returns (k: int)
    requires b > 0 && OnGrid(x, b) && OnGrid(lo, b) && lo <= x
    ensures 0 <= k && x == lo + k * b && k == (x - lo) / b
  {
    Floor(x, b, x / b);
    Floor(lo, b, lo / b);
    FloorMonotone(lo, x, b);
    k := x / b - lo / b;
    Distribute(lo / b, x / b, b);
    MultipleOf(k, b);
  }

  // Where a grid time between lo and hi appears among the rows.
  lemma RowOf(x: int, lo: int, hi: int, b: int) returns (k: int)
    requires b > 0 && OnGrid(x, b) && OnGrid(lo, b) && lo <= x <= hi
    ensures 0 <= k < RowCount(lo, hi, b) && x == lo + k * b
  {
    k := GridIndex(x, lo, b);
    FloorMonotone(x - lo, hi - lo, b);
  }

  // The row times are on the grid and between lo and hi.
  lemma RowFits(lo: int, hi: int, b: int, i: int)
    requires b > 0 && OnGrid(lo, b) && 0 <= i < RowCount(lo, hi, b)
    ensures OnGrid(lo + i * b, b) && lo <= lo + i * b <= hi
  {
    var n := (hi - lo) / b;
    Floor(hi - lo, b, n);
    ProductOrder(n, i, b);
    NonNegative(i, b);
    Floor(lo, b, lo / b);
    assert lo + i * b == (lo / b + i) * b;
    MultipleOf(lo / b + i, b);
  }

  // No metric is lost and none is counted twice: the outcome counts add up to the metrics.
  lemma {:induction false} OutcomesAddUp(points: seq<Point>, b: int, lo: int, hi: int)
    requires b > 0 && OnGrid(lo, b) && OnGrid(hi, b)
    requires forall p :: p in points ==> lo <= Bucket(p.timeMs, b) <= hi
    ensures Counted(OutcomeRows(points, b, lo, RowCount(lo, hi, b))) == |points|
  {
    if points == [] {
      NoPoints(b, lo, RowCount(lo, hi, b));
    } else {
      var front, p := points[..|points| - 1], points[|points| - 1];
      OutcomesAddUp(front, b, lo, hi);
      BucketOnGrid(p.timeMs, b);
      var k := RowOf(Bucket(p.timeMs, b), lo, hi, b);
      OnePointMore(front, p, b, lo, RowCount(lo, hi, b), k);
      assert points == front + [p];
    }
  }

  // The rows are the consecutive multiples of the bucket from the least to the greatest, and their
  // counts conserve the metrics.
  method BuildOutcomeRows(points: seq<Point>, b: int, range: Option<Range>) returns (rows: seq<OutcomeRow>)
    ensures b <= 0 || (points == [] && range.None?) ==> rows == []
    ensures b > 0 && GridOf(points, b, range).Bounds? ==>
      var g := GridOf(points, b, range); rows == OutcomeRows(points, b, g.lo, RowCount(g.lo, g.hi, b))
    ensures b > 0 ==> Counted(rows) == |points|
  {
    if b <= 0 { return []; }
    GridHolds(points, b, range);
    var g := FindGrid(points, b, range);
    if g.Empty? { return []; }
    var totals := CountOutcomes(points, b);
    rows := [];
    var t := g.lo;
    while t <= g.hi
      invariant t == g.lo + |rows| * b && (|rows| > 0 ==> t - b <= g.hi)
      invariant rows == OutcomeRows(points, b, g.lo, |rows|)
      decreases g.hi + b - t
    {
      var acc := TotalAt(totals, t);
      rows := rows + [OutcomeRow(t, acc.0, acc.1)];
      assert |rows| * b == (|rows| - 1) * b + b;
      t := t + b;
    }
    RowsReached(g.lo, g.hi, b, |rows|);
    OutcomesAddUp(points, b, g.lo, g.hi);
  }

  method FindGrid(points: seq<Point>, b: int, range: Option<Range>) returns (g: Bounds)
    requires b > 0
    ensures g == GridOf(points, b, range)
  {
    g := match range case None => Empty case Some(r) => Bounds(Bucket(r.start, b), Bucket(r.end, b));
    var i := 0;
    assert points[..0] == [];
    while i < |points|
      invariant 0 <= i <= |points| && g == GridOf(points[..i], b, range)
    {
      assert points[..i + 1][..i] == points[..i];
      g := Widened(g, Bucket(points[i].timeMs, b));
      i := i + 1;
    }
    assert points[..|points|] == points;
  }

  method CountOutcomes(points: seq<Point>, b: int) returns (totals: map<int, (nat, nat)>)
    requires b > 0
    ensures forall x :: TotalAt(totals, x) == (Count(points, b, x, true), Count(points, b, x, false))
  {
    totals := map[];
    var i := 0;
    assert points[..0] == [];
    while i < |points|
      invariant 0 <= i <= |points|
      invariant forall x :: TotalAt(totals, x) == (Count(points[..i], b, x, true), Count(points[..i], b, x, false))
    {
      assert points[..i + 1][..i] == points[..i];
      var bucket := Bucket(points[i].timeMs, b);
      var acc := TotalAt(totals, bucket);
      totals := totals[bucket := if points[i].success then (acc.0 + 1, acc.1) else (acc.0, acc.1 + 1)];
      i := i + 1;
    }
    assert points[..|points|] == points;
  }

  function TotalAt(totals: map<int, (nat, nat)>, x: int): (nat, nat) { if x in totals then totals[x] else (0, 0) }

  // A loop stepping by b from lo while at most hi makes this many steps.
  lemma RowsReached(lo: int, hi: int, b: int, n: nat)
    requires b > 0 && hi < lo + n * b && (n > 0 ==> lo + n * b - b <= hi)
    ensures n == RowCount(lo, hi, b)
  {
    if n == 0 {
    } else {
      assert n * b - b == (n - 1) * b;
      NonNegative(n - 1, b);
      Floor(hi - lo, b, n - 1);
    }
  }

  // ----- chart rows -----

  datatype ChartRow = ChartRow(timeMs: int, series: map<string, real>)

  // The values of one series in one bucket, in the order of the metrics.
  function ValuesIn(points: seq<Point>, b: int, bucket: int, name: string): seq<real>
    requires b > 0
  {
    if points == [] then []
    else
      var last := points[|points| - 1];
      ValuesIn(points[..|points| - 1], b, bucket, name)
      + (if Bucket(last.timeMs, b) == bucket && last.name == name then [last.value] else [])
  }

  function Sum(values: seq<real>): real {
    if values == [] then 0.0 else Sum(values[..|values| - 1]) + values[|values| - 1]
  }

  // Math.round(mean * 1000) / 1000
  function RoundedMean(values: seq<real>): real
    requires values != []
  {
    ((Sum(values) / (|values| as real)) * 1000.0 + 0.5).Floor as real / 1000.0
  }

  ghost predicate IsChartRow(row: ChartRow, points: seq<Point>, b: int, t: int)
    requires b > 0
  {
    && row.timeMs == t
    && (forall name :: name in row.series <==> ValuesIn(points, b, t, name) != [])
    && (forall name :: name in row.series ==> row.series[name] == RoundedMean(ValuesIn(points, b, t, name)))
  }

  type Groups = map<int, map<string, seq<real>>>

  function ListAt(groups: Groups, x: int, name: string): seq<real> {
    if x in groups && name in groups[x] then groups[x][name] else []
  }

  ghost predicate NoEmptyLists(groups: Groups) {
    forall x, name :: x in groups && name in groups[x] ==> groups[x][name] != []
  }

  ghost predicate Grouped(groups: Groups, points: seq<Point>, b: int)
    requires b > 0
  {
    NoEmptyLists(groups) && forall x, name :: ListAt(groups, x, name) == ValuesIn(points, b, x, name)
  }

  function Added(groups: Groups, p: Point, b: int): Groups
    requires b > 0
  {
    var bucket := Bucket(p.timeMs, b);
    var byName := if bucket in groups then groups[bucket] else map[];
    groups[bucket := byName[p.name := ListAt(groups, bucket, p.name) + [p.value]]]
  }

  lemma NothingIsGrouped(b: int)
    requires b > 0
    ensures Grouped(map[], [], b)
  {
  }

  lemma AddedIsGrouped(groups: Groups, front: seq<Point>, p: Point, b: int)
    requires b > 0 && Grouped(groups, front, b)
    ensures Grouped(Added(groups, p, b), front + [p], b)
  {
    var more := Added(groups, p, b);
    forall x, name ensures ListAt(more, x, name) == ValuesIn(front + [p], b, x, name) {
      assert (front + [p])[..|front|] == front;
      assert ListAt(groups, x, name) == ValuesIn(front, b, x, name);
    }
  }

  // The values of each series, collected a bucket at a time.
  method GroupValues(points: seq<Point>, b: int) returns (groups: Groups)
    requires b > 0
    ensures Grouped(groups, points, b)
  {
    groups := map[];
    NothingIsGrouped(b);
    var i := 0;
    assert points[..0] == [];
    while i < |points|
      invariant 0 <= i <= |points|
      invariant Grouped(groups, points[..i], b)
    {
      AddedIsGrouped(groups, points[..i], points[i], b);
      assert points[..i + 1] == points[..i] + [points[i]];
      groups := Added(groups, points[i], b);
      i := i + 1;
    }
    assert points[..|points|] == points;
  }

  function RowAt(groups: Groups, t: int): ChartRow
    requires NoEmptyLists(groups)
  {
    ChartRow(t, if t in groups then map name | name in groups[t] :: RoundedMean(groups[t][name]) else map[])
  }

  lemma RowAtHolds(groups: Groups, points: seq<Point>, b: int, t: int)
    requires b > 0 && Grouped(groups, points, b)
    ensures IsChartRow(RowAt(groups, t), points, b, t)
  {
    forall name
      ensures name in RowAt(groups, t).series <==> ValuesIn(points, b, t, name) != []
      ensures name in RowAt(groups, t).series ==> ListAt(groups, t, name) == groups[t][name]
    {
      assert ListAt(groups, t, name) == ValuesIn(points, b, t, name);
    }
  }

  // One row a bucket from the least to the greatest; each row has exactly the series with a value in
  // its bucket, and the rounded mean of those values.
  method BuildBucketedRows(points: seq<Point>, b: int, range: Option<Range>) returns (rows: seq<ChartRow>)
    ensures b <= 0 || (points == [] && range.None?) ==> rows == []
    ensures b > 0 && GridOf(points, b, range).Bounds? ==>
      var g := GridOf(points, b, range); AreChartRows(rows, points, b, g.lo, RowCount(g.lo, g.hi, b))
  {
    if b <= 0 { return []; }
    GridHolds(points, b, range);
    var g := FindGrid(points, b, range);
    if g.Empty? { return []; }
    var groups := GroupValues(points, b);
    rows := LayOut(groups, points, b, g.lo, g.hi);
  }

  ghost predicate AreChartRows(rows: seq<ChartRow>, points: seq<Point>, b: int, lo: int, n: nat)
    requires b > 0
  {
    |rows| == n && forall i :: 0 <= i < n ==> IsChartRow(rows[i], points, b, lo + i * b)
  }

  lemma OneRowMore(rows: seq<ChartRow>, row: ChartRow, points: seq<Point>, b: int, lo: int)
    requires b > 0 && AreChartRows(rows, points, b, lo, |rows|) && IsChartRow(row, points, b, lo + |rows| * b)
    ensures AreChartRows(rows + [row], points, b, lo, |rows| + 1)
  {
  }

  method LayOut(groups: Groups, ghost points: seq<Point>, b: int, lo: int, hi: int) returns (rows: seq<ChartRow>)
    requires b > 0 && Grouped(groups, points, b)
    ensures AreChartRows(rows, points, b, lo, RowCount(lo, hi, b))
  {
    rows := [];
    var t := lo;
    while t <= hi
      invariant t == lo + |rows| * b && (|rows| > 0 ==> t - b <= hi)
      invariant AreChartRows(rows, points, b, lo, |rows|)
      decreases hi + b - t
    {
      RowAtHolds(groups, points, b, t);
      OneRowMore(rows, RowAt(groups, t), points, b, lo);
      rows := rows + [RowAt(groups, t)];
      assert |rows| * b == (|rows| - 1) * b + b;
      t := t + b;
    }
    RowsReached(lo, hi, b, |rows|);
  }

  // Every chart row, which only looks at successes, finds an outcome row at its own time.
  lemma ChartRowsHaveOutcomes(points: seq<Point>, b: int, range: Option<Range>, i: nat) returns (j: nat)
    requires b > 0 && GridOf(Successes(points), b, range).Bounds?
    requires i < RowCount(GridOf(Successes(points), b, range).lo, GridOf(Successes(points), b, range).hi, b)
    ensures var h := GridOf(points, b, range);
      h.Bounds? && j < RowCount(h.lo, h.hi, b) && h.lo + j * b == GridOf(Successes(points), b, range).lo + i * b
  {
    var g, h := GridOf(Successes(points), b, range), GridOf(points, b, range);
    GridOfFewer(points, b, range);
    GridHolds(points, b, range);
    GridHolds(Successes(points), b, range);
    RowFits(g.lo, g.hi, b, i);
    j := RowOf(g.lo + i * b, h.lo, h.hi, b);
  }

  // ----- the size bound -----

  lemma {:induction false} InRangeGrid(points: seq<Point>, b: int, r: Range)
    requires b > 0 && r.start <= r.end && forall p :: p in points ==> r.start <= p.timeMs <= r.end
    ensures GridOf(points, b, Some(r)) == Bounds(Bucket(r.start, b), Bucket(r.end, b))
  {
    if points != [] {
      var front, last := points[..|points| - 1], points[|points| - 1];
      InRangeGrid(front, b, r);
      BucketMonotone(r.start, last.timeMs, b);
      BucketMonotone(last.timeMs, r.end, b);
    }
  }

  lemma BucketMonotone(s: int, t: int, b: int)
    requires b > 0 && s <= t
    ensures Bucket(s, b) <= Bucket(t, b)
  {
    FloorMonotone(s, t, b);
    ProductOrder(t / b, s / b, b);
  }

  lemma ChartIsBounded(points: seq<Point>, b: int, windowSeconds: nat, end: int)
    requires b > 0 && b as real >= (windowSeconds * 1000) as real / 360.0
    requires forall p :: p in points ==> end - windowSeconds * 1000 <= p.timeMs <= end
    ensures var g := GridOf(points, b, Some(Range(end - windowSeconds * 1000, end)));
      g.Bounds? && RowCount(g.lo, g.hi, b) <= MAX_BUCKETS + 1
  {
    var start := end - windowSeconds * 1000;
    InRangeGrid(points, b, Range(start, end));
    assert windowSeconds * 1000 <= b * 360;
    var p, q := start / b, end / b;
    Floor(start, b, p);
    Floor(end, b, q);
    BucketMonotone(start, end, b);
    Distribute(p, q, b);
    MultipleOf(q - p, b);
    ProductOrder(361, q - p, b);
    ProductOrder(q - p, 361, b);
  }

  // For windows up to 1,296,000 seconds, whose metrics lie inside them, the picked bucket gives at
  // most 361 rows, whatever the cadence it was picked for.
  lemma PickedChartIsBounded(points: seq<Point>, b: int, cadence: int, windowSeconds: nat, end: int)
    requires windowSeconds <= 1296000 && IsPicked(b, windowSeconds, cadence)
    requires forall p :: p in points ==> end - windowSeconds * 1000 <= p.timeMs <= end
    ensures var g := GridOf(points, b, Some(Range(end - windowSeconds * 1000, end)));
      g.Bounds? && RowCount(g.lo, g.hi, b) <= MAX_BUCKETS + 1
  {
    ChartIsBounded(points, b, windowSeconds, end);
  }
}
