/** `BallTracker.smooth_trajectory` and the pure helpers beside it: the
    ball's per-frame boxes are reduced to centres, implausible centres are
    dropped, gaps are filled, the track is smoothed and clamped, and a box
    is rebuilt around every smoothed centre. The library numerics it calls
    (and the helpers of `utils`, whose source is not part of this model)
    are parameters. */
module TrajectorySmoother {
  import opened Wrappers
  import opened Geometry
  import opened Sequences

  /** `self.max_velocity`: the step length above which a smoothed sample is re-interpolated. */
  const MaxVelocity: real := 80.0
  /** Frames on each side of a sample that the first pass looks at. */
  const OutlierWindow: int := 5
  const MaxVerticalDeviation: real := 100.0
  const MaxAcceleration: real := 50.0
  /** The widest gap between known neighbours the spline branch fills. */
  const MaxGap: int := 10
  /** Below this many known points the linear fallback replaces the spline. */
  const SplineMinPoints: int := 4
  /** Box side used when no detected box is known at all. */
  const DefaultBoxSize: real := 10.0
  const SavgolMaxWindow: int := 15
  const SavgolPolyorder: int := 3

  /** The numerical routines the smoother calls but that are not modelled:
      `utils.get_center_of_bbox`, `utils.measure_distance`, `np.median`,
      `UnivariateSpline(xs, ys, k=3, s=0.1·len(xs))` evaluated at a frame,
      and `savgol_filter(v, window, 3, mode='nearest')`. */
  datatype Numerics = Numerics(
    centerOf: Box -> Point,
    distance: (Point, Point) -> real,
    median: seq<real> -> real,
    spline: (seq<int>, seq<real>, int) -> real,
    savgol: (seq<real>, int) -> seq<real>)

  /** `savgol_filter` returns an array as long as its input. */
  ghost predicate SavgolKeepsLength(lib: Numerics) {
    forall v: seq<real>, w: int :: |lib.savgol(v, w)| == |v|
  }

  /** The two ways `smooth_trajectory` raises: `np.interp` with no known
      sample, and `savgol_filter` with a window not above its order 3. */
  datatype SmoothError = NoKnownPosition | WindowTooSmall

  function Sub(a: Point, b: Point): Point { Point(a.x - b.x, a.y - b.y) }

  function Dot(a: Point, b: Point): real { Mul(a.x, b.x) + Mul(a.y, b.y) }

  // ---------------------------------------------------------------------------
  // calculate_velocity, is_outlier_angle, is_outlier
  // ---------------------------------------------------------------------------

  /** `calculate_velocity`: the distance between two samples, infinite
      when either is missing. */
  function Velocity(lib: Numerics, p1: Option<Point>, p2: Option<Point>): (v: Extended)
    ensures v == Infinity <==> p1.None? || p2.None?
    ensures p1.Some? && p2.Some? ==> v == Finite(lib.distance(p1.value, p2.value))
  {
    if p1.None? || p2.None? then Infinity else Finite(lib.distance(p1.value, p2.value))
  }

  /** The turn at `cur` is sharper than 150 degrees. With v1 = cur - prev
      and v2 = next - cur, `arccos(v1·v2 / (|v1| |v2|)) > 150°` holds
      exactly when the cosine is below -√3/2, that is when v1·v2 < 0 and
      4 (v1·v2)² > 3 |v1|² |v2|²; zero-length steps never count. */
  predicate SharpTurn(prev: Point, cur: Point, next: Point) {
    var v1 := Sub(cur, prev);
    var v2 := Sub(next, cur);
    && Dot(v1, v1) != 0.0
    && Dot(v2, v2) != 0.0
    && Dot(v1, v2) < 0.0
    && 4.0 * Mul(Dot(v1, v2), Dot(v1, v2)) > 3.0 * Mul(Dot(v1, v1), Dot(v2, v2))
  }

  /** `is_outlier_angle`. */
  predicate IsOutlierAngle(prev: Option<Point>, cur: Option<Point>, next: Option<Point>) {
    prev.Some? && cur.Some? && next.Some? && SharpTurn(prev.value, cur.value, next.value)
  }

  /** `v` exceeds the bound `b`; an infinite velocity exceeds every bound. */
  predicate Exceeds(v: Extended, b: real) {
    Finite(b).Less(v)
  }

  /** `is_outlier`: never for a missing sample or a hit frame; otherwise
      when both steps are faster than `mean + 2 std`, or the turn is too
      sharp. */
  predicate IsOutlier(lib: Numerics, prev: Option<Point>, cur: Option<Point>, next: Option<Point>,
                      meanVel: real, stdVel: real, frame: int, hits: seq<int>)
  {
    if prev.None? || cur.None? || next.None? then false
    else if frame in hits then false
    else if Exceeds(Velocity(lib, prev, cur), meanVel + 2.0 * stdVel)
         && Exceeds(Velocity(lib, cur, next), meanVel + 2.0 * stdVel) then true
    else IsOutlierAngle(prev, cur, next)
  }

  /** A ball that goes straight back to where it came from turns by 180
      degrees, so the frame is an outlier unless it is a hit frame. */
  lemma ReversalIsOutlier(lib: Numerics, prev: Point, cur: Point, meanVel: real, stdVel: real, frame: int, hits: seq<int>)
    requires prev != cur && frame !in hits
    ensures IsOutlier(lib, Some(prev), Some(cur), Some(prev), meanVel, stdVel, frame, hits)
  {
    var v1 := Sub(cur, prev);
    var v2 := Sub(prev, cur);
    assert prev == Point(prev.x, prev.y) && cur == Point(cur.x, cur.y);
    assert v2 == Point(-v1.x, -v1.y);
    SquareNonNegative(v1.x);
    SquareNonNegative(v1.y);
    if v1.x != 0.0 { SquarePositive(v1.x); } else { SquarePositive(v1.y); }
    var n := Dot(v1, v1);
    MulSigns(v1.x, v1.x);
    MulSigns(v1.y, v1.y);
    assert Dot(v1, v2) == -n;
    assert Dot(v2, v2) == n;
    SquarePositive(n);
    MulSigns(n, n);
    assert SharpTurn(prev, cur, prev);
  }

  lemma MulNonNegative(a: real, b: real)
    requires a >= 0.0 && b >= 0.0
    ensures a * b >= 0.0
  {
  }

  lemma MulPositive(a: real, b: real)
    requires a > 0.0 && b > 0.0
    ensures a * b > 0.0
  {
  }

  lemma SquareNonNegative(r: real)
    ensures Mul(r, r) >= 0.0
  {
    MulSigns(r, r);
  }

  lemma SquarePositive(r: real)
    requires r != 0.0
    ensures Mul(r, r) > 0.0
  {
    MulSigns(r, r);
    MulSigns(-r, -r);
  }

  /** `a · (c a)` is never negative when `c` is not. */
  lemma ScaledSquare(a: real, c: real)
    requires c >= 0.0
    ensures Mul(a, c * a) >= 0.0
  {
    if a >= 0.0 {
      assert c * a >= 0.0;
    } else {
      assert c * a <= 0.0;
    }
    MulSigns(a, c * a);
  }

  /** A ball moving on in the same direction (the second step a
      non-negative multiple of the first) never makes a sharp turn. */
  lemma StraightOnIsNotSharp(prev: Point, cur: Point, c: real)
    requires c >= 0.0
    ensures !SharpTurn(prev, cur, Point(cur.x + c * (cur.x - prev.x), cur.y + c * (cur.y - prev.y)))
  {
    var v1 := Sub(cur, prev);
    var next := Point(cur.x + c * (cur.x - prev.x), cur.y + c * (cur.y - prev.y));
    var v2 := Sub(next, cur);
    assert v2 == Point(c * v1.x, c * v1.y);
    ScaledSquare(v1.x, c);
    ScaledSquare(v1.y, c);
  }

  // ---------------------------------------------------------------------------
  // Known samples and their neighbours
  // ---------------------------------------------------------------------------

  predicate AllAbsent(s: seq<Option<Point>>) {
    forall k :: 0 <= k < |s| ==> s[k].None?
  }

  /** The nearest known sample strictly before `idx`. */
  function PrevPresent(s: seq<Option<Point>>, idx: int): (r: Option<int>)
    requires idx <= |s|
    ensures r.Some? ==> 0 <= r.value < idx && s[r.value].Some? && forall j :: r.value < j < idx ==> s[j].None?
    ensures r.None? ==> forall j :: 0 <= j < idx ==> s[j].None?
    decreases idx
  {
    if idx <= 0 then None
    else if s[idx - 1].Some? then Some(idx - 1)
    else PrevPresent(s, idx - 1)
  }

  /** The nearest known sample strictly after `idx`. */
  function NextPresent(s: seq<Option<Point>>, idx: int): (r: Option<int>)
    requires 0 <= idx
    ensures r.Some? ==> idx < r.value < |s| && s[r.value].Some? && forall j :: idx < j < r.value ==> s[j].None?
    ensures r.None? ==> forall j :: idx < j < |s| ==> s[j].None?
    decreases |s| - idx
  {
    if idx + 1 >= |s| then None
    else if s[idx + 1].Some? then Some(idx + 1)
    else NextPresent(s, idx + 1)
  }

  /** The generator `next(i for i in range(idx - 1, -1, -1) if ...)`. */
  method FindPrev(s: seq<Option<Point>>, idx: int) returns (r: Option<int>)
    requires 0 <= idx <= |s|
    ensures r == PrevPresent(s, idx)
  {
    var i := idx - 1;
    while i >= 0
      invariant -1 <= i < idx
      invariant PrevPresent(s, idx) == PrevPresent(s, i + 1)
    {
      if s[i].Some? {
        return Some(i);
      }
      i := i - 1;
    }
    return None;
  }

  /** The generator `next(i for i in range(idx + 1, len(centers)) if ...)`. */
  method FindNext(s: seq<Option<Point>>, idx: int) returns (r: Option<int>)
    requires 0 <= idx < |s|
    ensures r == NextPresent(s, idx)
  {
    var i := idx + 1;
    while i < |s|
      invariant idx < i <= |s|
      invariant NextPresent(s, idx) == NextPresent(s, i - 1)
    {
      if s[i].Some? {
        return Some(i);
      }
      i := i + 1;
    }
    return None;
  }

  /** Inside a run of unknown samples every frame has the same neighbours. */
  lemma SameNeighboursInGap(s: seq<Option<Point>>, k: int, idx: int)
    requires 0 <= k <= idx < |s|
    requires forall j :: k <= j <= idx ==> s[j].None?
    ensures PrevPresent(s, k) == PrevPresent(s, idx)
    ensures NextPresent(s, k) == NextPresent(s, idx)
  {
  }

  // ---------------------------------------------------------------------------
  // Linear interpolation
  // ---------------------------------------------------------------------------

  /** The value at frame `x` on the line through `(p, a)` and `(q, b)`:
      `a + (x - p) / (q - p) * (b - a)`, the formula of the fallback and
      of `np.interp`. */
  function Lerp(a: real, b: real, p: int, q: int, x: int): real
    requires p < q
  {
    a + ((x - p) as real / (q - p) as real) * (b - a)
  }

  function LerpPoint(a: Point, b: Point, p: int, q: int, x: int): Point
    requires p < q
  {
    Point(Lerp(a.x, b.x, p, q, x), Lerp(a.y, b.y, p, q, x))
  }

  /** An interpolated value lies between the two values it interpolates. */
  lemma LerpBetween(a: real, b: real, p: int, q: int, x: int)
    requires p <= x <= q && p < q
    ensures Min(a, b) <= Lerp(a, b, p, q, x) <= Max(a, b)
  {
    var t := (x - p) as real / (q - p) as real;
    DivideWithinUnit((x - p) as real, (q - p) as real);
    if a <= b {
      MulNonNegative(t, b - a);
      MulNonNegative(1.0 - t, b - a);
    } else {
      MulNonNegative(t, a - b);
      MulNonNegative(1.0 - t, a - b);
    }
  }

  lemma DivideWithinUnit(a: real, b: real)
    requires 0.0 <= a <= b && 0.0 < b
    ensures 0.0 <= a / b <= 1.0
  {
    var t := a / b;
    assert t * b == a;
    if t < 0.0 {
      MulPositive(-t, b);
    }
    if t > 1.0 {
      MulPositive(t - 1.0, b);
    }
  }

  /** Interpolating from a point already on a line to the line's end
      point stays on that line: the sequential fill of the fallback gives
      the same values as one interpolation across the whole gap. */
  lemma LerpChain(a: real, b: real, p: int, k: int, q: int, x: int)
    requires p <= k < q
    ensures Lerp(Lerp(a, b, p, q, k), b, k, q, x) == Lerp(a, b, p, q, x)
  {
    var d := (q - p) as real;
    var e := (q - k) as real;
    var lk := Lerp(a, b, p, q, k);
    assert b - lk == (e / d) * (b - a) by {
      assert (k - p) as real / d + e / d == 1.0;
    }
    calc {
      Lerp(lk, b, k, q, x);
      lk + ((x - k) as real / e) * ((e / d) * (b - a));
      { assert ((x - k) as real / e) * (e / d) == (x - k) as real / d; }
      lk + ((x - k) as real / d) * (b - a);
      a + ((k - p) as real / d) * (b - a) + ((x - k) as real / d) * (b - a);
      { assert (k - p) as real / d + (x - k) as real / d == (x - p) as real / d; }
      Lerp(a, b, p, q, x);
    }
  }

  lemma LerpAtStart(a: real, b: real, p: int, q: int)
    requires p < q
    ensures Lerp(a, b, p, q, p) == a
  {
  }

  // ---------------------------------------------------------------------------
  // Collecting the centres
  // ---------------------------------------------------------------------------

  /** The centre of every detected box, `None` for a frame without one. */
  function Centers(lib: Numerics, positions: seq<Option<Box>>): (cs: seq<Option<Point>>)
    ensures |cs| == |positions|
    ensures forall i :: 0 <= i < |cs| ==> (cs[i].Some? <==> positions[i].Some?)
  {
    seq(|positions|, i requires 0 <= i < |positions| =>
      if positions[i].Some? then Some(lib.centerOf(positions[i].value)) else None)
  }

  /** The first loop of `smooth_trajectory`: the centres, and the frames
      that have a detection in ascending order (`valid_indices`). */
  method CollectCenters(lib: Numerics, positions: seq<Option<Box>>) returns (centers: seq<Option<Point>>, valid: seq<int>)
    ensures centers == Centers(lib, positions)
    ensures StrictlyIncreasing(valid)
    ensures forall k :: k in valid <==> 0 <= k < |positions| && positions[k].Some?
  {
    centers := [];
    valid := [];
    var idx := 0;
    while idx < |positions|
      invariant 0 <= idx <= |positions|
      invariant centers == Centers(lib, positions)[..idx]
      invariant StrictlyIncreasing(valid)
      invariant forall k :: k in valid <==> 0 <= k < idx && positions[k].Some?
    {
      if positions[idx].Some? {
        assert forall a :: 0 <= a < |valid| ==> valid[a] in valid;
        centers := centers + [Some(lib.centerOf(positions[idx].value))];
        valid := valid + [idx];
      } else {
        centers := centers + [None];
      }
      idx := idx + 1;
    }
  }

  // ---------------------------------------------------------------------------
  // First pass: obvious outliers
  // ---------------------------------------------------------------------------

  /** The known samples of a window, in order. */
  function Present(s: seq<Option<Point>>): (r: seq<Point>)
    ensures |r| <= |s|
    ensures forall p :: p in r ==> Some(p) in s
  {
    if s == [] then []
    else (if s[0].Some? then [s[0].value] else []) + Present(s[1..])
  }

  function Ys(ps: seq<Point>): (r: seq<real>)
    ensures |r| == |ps|
  {
    seq(|ps|, i requires 0 <= i < |ps| => ps[i].y)
  }

  function Xs(ps: seq<Point>): (r: seq<real>)
    ensures |r| == |ps|
  {
    seq(|ps|, i requires 0 <= i < |ps| => ps[i].x)
  }

  /** The known samples among the eleven frames centred on `i`. */
  function WindowPoints(centers: seq<Option<Point>>, i: int): seq<Point>
    requires OutlierWindow <= i < |centers| - OutlierWindow
  {
    Present(centers[i - OutlierWindow .. i + OutlierWindow + 1])
  }

  /** The first pass drops frame `i`: it is away from both ends, known,
      not a hit frame, has at least three known samples in its window,
      and either sits more than 100 px from the window's median height or
      changes speed by more than 50 px per frame. */
  predicate Removes(lib: Numerics, centers: seq<Option<Point>>, hits: seq<int>, i: int) {
    && OutlierWindow <= i < |centers| - OutlierWindow
    && centers[i].Some?
    && i !in hits
    && |WindowPoints(centers, i)| >= 3
    && (|| Abs(centers[i].value.y - lib.median(Ys(WindowPoints(centers, i)))) > MaxVerticalDeviation
        || (&& 0 < i < |centers| - 1
            && centers[i - 1].Some? && centers[i + 1].Some?
            && Abs(lib.distance(centers[i].value, centers[i + 1].value)
                   - lib.distance(centers[i - 1].value, centers[i].value)) > MaxAcceleration))
  }

  /** The first pass. Every decision reads the unfiltered `centers`; a
      removal clears the sample in `filtered` and takes the frame out of
      `valid`. Frames near either end, hit frames and frames with a sparse
      window are never removed. */
  method FirstPass(lib: Numerics, centers: seq<Option<Point>>, hits: seq<int>, valid0: seq<int>)
    returns (filtered: seq<Option<Point>>, valid: seq<int>)
    requires StrictlyIncreasing(valid0)
    requires forall k :: k in valid0 <==> 0 <= k < |centers| && centers[k].Some?
    ensures |filtered| == |centers|
    ensures forall i :: 0 <= i < |centers| ==>
      filtered[i] == if Removes(lib, centers, hits, i) then None else centers[i]
    ensures forall i :: 0 <= i < |centers| && filtered[i] != centers[i] ==>
      OutlierWindow <= i < |centers| - OutlierWindow && i !in hits && |WindowPoints(centers, i)| >= 3
    ensures StrictlyIncreasing(valid)
    ensures forall k :: k in valid <==> 0 <= k < |centers| && filtered[k].Some?
  {
    filtered := centers;
    valid := valid0;
    var i := OutlierWindow;
    while i < |centers| - OutlierWindow
      invariant OutlierWindow <= i
      invariant |filtered| == |centers|
      invariant forall k :: 0 <= k < |centers| ==>
        filtered[k] == if k < i && Removes(lib, centers, hits, k) then None else centers[k]
      invariant StrictlyIncreasing(valid)
      invariant forall k :: k in valid <==> 0 <= k < |centers| && filtered[k].Some?
    {
      if centers[i].Some? {
        if i !in hits {
          var points := WindowPoints(centers, i);
          if |points| >= 3 {
            var medianY := lib.median(Ys(points));
            var currentY := centers[i].value.y;
            if Abs(currentY - medianY) > MaxVerticalDeviation {
              filtered := filtered[i := None];
              if i in valid {
                valid := Without(valid, i);
              }
            }
            if 0 < i < |centers| - 1 && centers[i - 1].Some? && centers[i + 1].Some? {
              var v1 := lib.distance(centers[i - 1].value, centers[i].value);
              var v2 := lib.distance(centers[i].value, centers[i + 1].value);
              if Abs(v2 - v1) > MaxAcceleration {
                filtered := filtered[i := None];
                if i in valid {
                  valid := Without(valid, i);
                }
              }
            }
          }
        }
      }
      i := i + 1;
    }
  }

  // ---------------------------------------------------------------------------
  // Gap filling: spline branch and linear fallback
  // ---------------------------------------------------------------------------

  /** What the spline branch leaves at frame `idx`: a known sample stays;
      an unknown non-hit frame whose nearest known neighbours are at most
      10 frames apart gets x interpolated between them and y from the
      spline; anything else stays unknown. */
  function SplineFillAt(lib: Numerics, cs: seq<Option<Point>>, hits: seq<int>, xs: seq<int>, ys: seq<real>, idx: int): Option<Point>
    requires 0 <= idx < |cs|
  {
    if cs[idx].Some? then cs[idx]
    else if idx in hits then None
    else match (PrevPresent(cs, idx), NextPresent(cs, idx))
      case (Some(p), Some(q)) =>
        if q - p <= MaxGap then Some(Point(Lerp(cs[p].value.x, cs[q].value.x, p, q, idx), lib.spline(xs, ys, idx)))
        else None
      case _ => None
  }

  /** The spline branch. The neighbours are searched among `valid_indices`,
      which are exactly the known frames of `cs`, and the values written
      never change those, so every frame is decided on `cs` alone. */
  method SplineFill(lib: Numerics, cs: seq<Option<Point>>, hits: seq<int>, xs: seq<int>, ys: seq<real>)
    returns (out: seq<Option<Point>>)
    ensures |out| == |cs|
    ensures forall idx :: 0 <= idx < |cs| ==> out[idx] == SplineFillAt(lib, cs, hits, xs, ys, idx)
  {
    out := cs;
    var idx := 0;
    while idx < |cs|
      invariant 0 <= idx <= |cs| && |out| == |cs|
      invariant forall k :: 0 <= k < idx ==> out[k] == SplineFillAt(lib, cs, hits, xs, ys, k)
      invariant forall k :: idx <= k < |cs| ==> out[k] == cs[k]
    {
      if out[idx].None? {
        if idx !in hits {
          var prev := FindPrev(cs, idx);
          var next := FindNext(cs, idx);
          if prev.Some? && next.Some? {
            var gap := next.value - prev.value;
            if gap <= MaxGap {
              var y := lib.spline(xs, ys, idx);
              var x := Lerp(cs[prev.value].value.x, cs[next.value].value.x, prev.value, next.value, idx);
              out := out[idx := Some(Point(x, y))];
            }
          }
        }
      }
      idx := idx + 1;
    }
  }

  /** What the linear fallback leaves at frame `idx`: a known sample stays;
      an unknown non-hit frame with known samples on both sides gets the
      point on the line between its nearest known neighbours; hit frames
      and the unknown frames before the first or after the last known
      sample stay unknown. */
  function LinearFillAt(cs: seq<Option<Point>>, hits: seq<int>, idx: int): Option<Point>
    requires 0 <= idx < |cs|
  {
    if cs[idx].Some? then cs[idx]
    else if idx in hits then None
    else match (PrevPresent(cs, idx), NextPresent(cs, idx))
      case (Some(p), Some(q)) => Some(LerpPoint(cs[p].value, cs[q].value, p, q, idx))
      case _ => None
  }

  /** Each filled coordinate of the fallback lies between the coordinates
      of the nearest known samples on either side. */
  lemma LinearFillBetween(cs: seq<Option<Point>>, hits: seq<int>, idx: int)
    requires 0 <= idx < |cs| && cs[idx].None? && LinearFillAt(cs, hits, idx).Some?
    ensures PrevPresent(cs, idx).Some? && NextPresent(cs, idx).Some? && idx !in hits
    ensures var a, b, v := cs[PrevPresent(cs, idx).value].value, cs[NextPresent(cs, idx).value].value, LinearFillAt(cs, hits, idx).value;
      Min(a.x, b.x) <= v.x <= Max(a.x, b.x) && Min(a.y, b.y) <= v.y <= Max(a.y, b.y)
  {
    var p, q := PrevPresent(cs, idx).value, NextPresent(cs, idx).value;
    LerpBetween(cs[p].value.x, cs[q].value.x, p, q, idx);
    LerpBetween(cs[p].value.y, cs[q].value.y, p, q, idx);
  }

  /** The state of the fallback's list after frames `0 .. idx-1`. */
  ghost predicate FilledUpTo(cs: seq<Option<Point>>, hits: seq<int>, centers: seq<Option<Point>>, idx: int) {
    && 0 <= idx <= |cs| == |centers|
    && (forall k :: 0 <= k < idx ==> centers[k] == LinearFillAt(cs, hits, k))
    && (forall k :: idx <= k < |cs| ==> centers[k] == cs[k])
  }

  /** The fallback searches its neighbours in the list it is filling, so
      the previous sample it finds may be one it has just written. That
      sample lies on the line between the original neighbours, and the
      next one it finds is the original one. */
  lemma FallbackNeighbours(cs: seq<Option<Point>>, hits: seq<int>, centers: seq<Option<Point>>, idx: int)
    requires FilledUpTo(cs, hits, centers, idx) && idx < |cs| && cs[idx].None?
    ensures NextPresent(centers, idx) == NextPresent(cs, idx)
    ensures PrevPresent(cs, idx).None? ==> PrevPresent(centers, idx).None?
    ensures PrevPresent(cs, idx).Some? && NextPresent(cs, idx).Some? ==>
      var p, q := PrevPresent(cs, idx).value, NextPresent(cs, idx).value;
      && PrevPresent(centers, idx).Some?
      && p <= PrevPresent(centers, idx).value < q
      && centers[PrevPresent(centers, idx).value] ==
         Some(LerpPoint(cs[p].value, cs[q].value, p, q, PrevPresent(centers, idx).value))
  {
    var pc := PrevPresent(cs, idx);
    var qc := NextPresent(cs, idx);
    var pm := PrevPresent(centers, idx);
    var qm := NextPresent(centers, idx);
    if pc.None? {
      forall j | 0 <= j < idx ensures centers[j].None? {
        assert PrevPresent(cs, j).None?;
      }
    } else {
      var p := pc.value;
      assert centers[p] == cs[p];
      if qc.Some? {
        var q := qc.value;
        var k := pm.value;
        assert p <= k;
        if k == p {
          LerpAtStart(cs[p].value.x, cs[q].value.x, p, q);
          LerpAtStart(cs[p].value.y, cs[q].value.y, p, q);
        } else {
          SameNeighboursInGap(cs, k, idx);
        }
      }
    }
  }

  /** The fallback's value at an unknown non-hit frame, read from the list
      being filled, is the fill between the original neighbours. */
  lemma FallbackValue(cs: seq<Option<Point>>, hits: seq<int>, centers: seq<Option<Point>>, idx: int)
    requires FilledUpTo(cs, hits, centers, idx) && idx < |cs| && cs[idx].None? && idx !in hits
    ensures PrevPresent(centers, idx).None? || NextPresent(centers, idx).None? ==>
      LinearFillAt(cs, hits, idx) == None
    ensures PrevPresent(centers, idx).Some? && NextPresent(centers, idx).Some? ==>
      var k, q := PrevPresent(centers, idx).value, NextPresent(centers, idx).value;
      LinearFillAt(cs, hits, idx) == Some(LerpPoint(centers[k].value, centers[q].value, k, q, idx))
  {
    FallbackNeighbours(cs, hits, centers, idx);
    if PrevPresent(centers, idx).Some? && NextPresent(centers, idx).Some? {
      var k, q := PrevPresent(centers, idx).value, NextPresent(centers, idx).value;
      var p := PrevPresent(cs, idx).value;
      LerpChain(cs[p].value.x, cs[q].value.x, p, k, q, idx);
      LerpChain(cs[p].value.y, cs[q].value.y, p, k, q, idx);
    }
  }

  /** Writing the fallback's value at `idx` moves the filled prefix on by one. */
  lemma FilledUpToStep(cs: seq<Option<Point>>, hits: seq<int>, centers: seq<Option<Point>>, idx: int)
    requires FilledUpTo(cs, hits, centers, idx) && idx < |cs|
    ensures FilledUpTo(cs, hits, centers[idx := LinearFillAt(cs, hits, idx)], idx + 1)
  {
  }

  /** The linear fallback, filling the list in place from left to right. */
  method LinearFill(cs: seq<Option<Point>>, hits: seq<int>) returns (centers: seq<Option<Point>>)
    ensures |centers| == |cs|
    ensures forall idx :: 0 <= idx < |cs| ==> centers[idx] == LinearFillAt(cs, hits, idx)
  {
    centers := cs;
    var idx := 0;
    while idx < |cs|
      invariant FilledUpTo(cs, hits, centers, idx)
    {
      ghost var before := centers;
      FilledUpToStep(cs, hits, before, idx);
      if centers[idx].None? && idx !in hits {
        FallbackValue(cs, hits, centers, idx);
        var prevIdx := FindPrev(centers, idx);
        var nextIdx := FindNext(centers, idx);
        if prevIdx.Some? && nextIdx.Some? {
          var k, q := prevIdx.value, nextIdx.value;
          centers := centers[idx := Some(LerpPoint(centers[k].value, centers[q].value, k, q, idx))];
        }
      }
      assert centers == before[idx := LinearFillAt(cs, hits, idx)];
      idx := idx + 1;
    }
  }

  /** Whichever branch ran, a known sample stays and an unknown one is
      filled only from a known neighbour, so the list is entirely unknown
      after filling exactly when it was before. */
  lemma FillKeepsAbsence(cs: seq<Option<Point>>, out: seq<Option<Point>>)
    requires |out| == |cs|
    requires forall idx :: 0 <= idx < |cs| && out[idx].Some? ==> cs[idx].Some? || PrevPresent(cs, idx).Some?
    requires forall idx :: 0 <= idx < |cs| && cs[idx].Some? ==> out[idx] == cs[idx]
    ensures AllAbsent(out) <==> AllAbsent(cs)
  {
    if AllAbsent(cs) {
      forall idx | 0 <= idx < |cs| ensures out[idx].None? {
        assert PrevPresent(cs, idx).None?;
      }
    }
  }

  // ---------------------------------------------------------------------------
  // NaN fill with np.interp
  // ---------------------------------------------------------------------------

  /** `np.interp` at an unknown frame: between two known samples, the
      point on the line; before the first or after the last, that sample's
      value. */
  function InterpAt(cs: seq<Option<Point>>, idx: int): Point
    requires 0 <= idx < |cs|
  {
    if cs[idx].Some? then cs[idx].value
    else match (PrevPresent(cs, idx), NextPresent(cs, idx))
      case (Some(p), Some(q)) => LerpPoint(cs[p].value, cs[q].value, p, q, idx)
      case (None, Some(q)) => cs[q].value
      case (Some(p), None) => cs[p].value
      case (None, None) => Point(0.0, 0.0)
  }

  /** The NaN fill before smoothing: an error when samples are missing and
      none is known, otherwise every frame gets a value and known frames
      keep theirs. */
  function FillGaps(cs: seq<Option<Point>>): (r: Result<seq<Point>, SmoothError>)
    ensures r.Err? <==> |cs| > 0 && AllAbsent(cs)
    ensures r.Ok? ==> |r.value| == |cs|
    ensures r.Ok? ==> forall k :: 0 <= k < |cs| && cs[k].Some? ==> r.value[k] == cs[k].value
  {
    if |cs| > 0 && AllAbsent(cs) then Err(NoKnownPosition)
    else Ok(seq(|cs|, i requires 0 <= i < |cs| => InterpAt(cs, i)))
  }

  /** Every value the NaN fill writes lies between the nearest known
      samples around it, and outside them equals the nearest one. */
  lemma FillGapsBetween(cs: seq<Option<Point>>, idx: int)
    requires 0 <= idx < |cs| && cs[idx].None? && !AllAbsent(cs)
    ensures PrevPresent(cs, idx).Some? || NextPresent(cs, idx).Some?
    ensures PrevPresent(cs, idx).Some? && NextPresent(cs, idx).Some? ==>
      var a, b, v := cs[PrevPresent(cs, idx).value].value, cs[NextPresent(cs, idx).value].value, InterpAt(cs, idx);
      Min(a.x, b.x) <= v.x <= Max(a.x, b.x) && Min(a.y, b.y) <= v.y <= Max(a.y, b.y)
    ensures PrevPresent(cs, idx).None? ==> InterpAt(cs, idx) == cs[NextPresent(cs, idx).value].value
    ensures NextPresent(cs, idx).None? ==> InterpAt(cs, idx) == cs[PrevPresent(cs, idx).value].value
  {
    var pc, qc := PrevPresent(cs, idx), NextPresent(cs, idx);
    var k :| 0 <= k < |cs| && cs[k].Some?;
    if k < idx {
      assert pc.Some?;
    } else {
      assert qc.Some?;
    }
    if pc.Some? && qc.Some? {
      var p, q := pc.value, qc.value;
      LerpBetween(cs[p].value.x, cs[q].value.x, p, q, idx);
      LerpBetween(cs[p].value.y, cs[q].value.y, p, q, idx);
    }
  }

  // ---------------------------------------------------------------------------
  // Savitzky–Golay window and the velocity clamp
  // ---------------------------------------------------------------------------

  /** `min(15, n // 2 * 2 + 1)`: the largest odd window not above 15 and
      not above `n + 1`. */
  function SavgolWindow(n: nat): (w: int)
    ensures w % 2 == 1 && 1 <= w <= SavgolMaxWindow
    ensures n >= w <==> n >= SavgolMaxWindow || n % 2 == 1
  {
    if SavgolMaxWindow <= n / 2 * 2 + 1 then SavgolMaxWindow else n / 2 * 2 + 1
  }

  /** The filter runs but raises for exactly one- and three-frame tracks. */
  lemma SavgolRaisesOnlyForOneAndThree(n: nat)
    ensures (n >= SavgolWindow(n) && SavgolWindow(n) <= SavgolPolyorder) <==> n == 1 || n == 3
  {
  }

  /** The step into frame `idx` of the smoothed track is longer than
      80 px (`np.sqrt(dx² + dy²) > 80`, compared squared). */
  predicate TooFast(xs: seq<real>, ys: seq<real>, idx: int)
    requires |xs| == |ys| && 1 <= idx < |xs|
  {
    var dx, dy := xs[idx] - xs[idx - 1], ys[idx] - ys[idx - 1];
    dx * dx + dy * dy > MaxVelocity * MaxVelocity
  }

  /** Frame `k` of the clamped track `cx`, `cy` obeys the clamp: strictly
      inside the track and reached too fast, it is the midpoint of the
      clamped frame before it and the smoothed frame after it; otherwise
      it keeps its smoothed value. */
  predicate ClampRule(xs: seq<real>, ys: seq<real>, cx: seq<real>, cy: seq<real>, k: int)
    requires |xs| == |ys| == |cx| == |cy| && 0 <= k < |xs|
  {
    if 0 < k < |xs| - 1 && TooFast(xs, ys, k)
    then cx[k] == (cx[k - 1] + xs[k + 1]) / 2.0 && cy[k] == (cy[k - 1] + ys[k + 1]) / 2.0
    else cx[k] == xs[k] && cy[k] == ys[k]
  }

  /** The velocity clamp: every frame strictly inside the track whose
      incoming step was too fast (judged on the smoothed values before any
      change) becomes the midpoint of its left neighbour, as already
      clamped, and its right neighbour, as smoothed; the others keep their
      values. The problem frames are visited in ascending order. */
  method ClampVelocity(xs: seq<real>, ys: seq<real>) returns (cx: seq<real>, cy: seq<real>)
    requires |xs| == |ys|
    ensures |cx| == |xs| && |cy| == |ys|
    ensures forall idx :: 0 <= idx < |xs| ==> ClampRule(xs, ys, cx, cy, idx)
    ensures (cx, cy) == Clamped(xs, ys)
  {
    cx, cy := xs, ys;
    var idx := 1;
    while idx < |xs|
      invariant 1 <= idx <= |xs| || |xs| == 0
      invariant |cx| == |xs| && |cy| == |ys|
      invariant forall k :: 0 <= k < |xs| && k < idx ==> ClampRule(xs, ys, cx, cy, k)
      invariant forall k :: idx <= k < |xs| ==> cx[k] == xs[k] && cy[k] == ys[k]
    {
      ghost var px, py := cx, cy;
      if TooFast(xs, ys, idx) {
        if idx > 0 && idx < |xs| - 1 {
          cx := cx[idx := (cx[idx - 1] + cx[idx + 1]) / 2.0];
          cy := cy[idx := (cy[idx - 1] + cy[idx + 1]) / 2.0];
        }
      }
      forall k | 0 <= k <= idx
        ensures ClampRule(xs, ys, cx, cy, k)
      {
        if k < idx {
          assert ClampRule(xs, ys, px, py, k);
          assert k > 0 ==> cx[k - 1] == px[k - 1] && cy[k - 1] == py[k - 1];
        }
      }
      idx := idx + 1;
    }
    ClampDetermined(xs, ys, cx, cy, |xs|);
    assert cx[..|xs|] == cx && cy[..|xs|] == cy;
  }

  /** The first `k` frames of the clamped track, frame by frame from the
      left: a frame strictly inside the track whose incoming step is too
      fast becomes the midpoint of the clamped frame before it and the
      smoothed frame after it. */
  function ClampPrefix(xs: seq<real>, ys: seq<real>, k: nat): (r: (seq<real>, seq<real>))
    requires |xs| == |ys| && k <= |xs|
    ensures |r.0| == k && |r.1| == k
  {
    if k == 0 then ([], [])
    else
      var p := ClampPrefix(xs, ys, k - 1);
      var i := k - 1;
      if 0 < i < |xs| - 1 && TooFast(xs, ys, i)
      then (p.0 + [(p.0[i - 1] + xs[i + 1]) / 2.0], p.1 + [(p.1[i - 1] + ys[i + 1]) / 2.0])
      else (p.0 + [xs[i]], p.1 + [ys[i]])
  }

  /** The whole clamped track. */
  function Clamped(xs: seq<real>, ys: seq<real>): (r: (seq<real>, seq<real>))
    requires |xs| == |ys|
    ensures |r.0| == |xs| && |r.1| == |ys|
  {
    ClampPrefix(xs, ys, |xs|)
  }

  /** The frame-by-frame rule of the clamp leaves no choice: any pair of
      tracks that obeys it is `Clamped`. */
  lemma {:induction false} ClampDetermined(xs: seq<real>, ys: seq<real>, cx: seq<real>, cy: seq<real>, k: nat)
    requires |xs| == |ys| == |cx| == |cy| && k <= |xs|
    requires forall idx :: 0 <= idx < |xs| ==> ClampRule(xs, ys, cx, cy, idx)
    ensures ClampPrefix(xs, ys, k) == (cx[..k], cy[..k])
  {
    if k > 0 {
      ClampDetermined(xs, ys, cx, cy, k - 1);
      ClampStep(xs, ys, cx, cy, k - 1);
    }
  }

  /** One more frame of the clamp: a pair of tracks that agrees with the
      clamped prefix and obeys the rule at frame `i` agrees one frame
      further. */
  lemma ClampStep(xs: seq<real>, ys: seq<real>, cx: seq<real>, cy: seq<real>, i: nat)
    requires |xs| == |ys| == |cx| == |cy| && i < |xs|
    requires ClampPrefix(xs, ys, i) == (cx[..i], cy[..i])
    requires ClampRule(xs, ys, cx, cy, i)
    ensures ClampPrefix(xs, ys, i + 1) == (cx[..i + 1], cy[..i + 1])
  {
    var p := ClampPrefix(xs, ys, i);
    assert cx[..i + 1] == cx[..i] + [cx[i]] && cy[..i + 1] == cy[..i] + [cy[i]];
    if 0 < i < |xs| - 1 && TooFast(xs, ys, i) {
      assert p.0[i - 1] == cx[i - 1] && p.1[i - 1] == cy[i - 1];
    }
  }

  /** The clamp never leaves the range of the values it was given. */
  lemma {:induction false} ClampStaysInRange(xs: seq<real>, ys: seq<real>, cx: seq<real>, cy: seq<real>, lo: real, hi: real, n: int)
    requires |xs| == |ys| == |cx| == |cy| && 0 <= n <= |xs|
    requires forall k :: 0 <= k < |xs| ==> lo <= xs[k] <= hi
    requires forall idx :: 0 <= idx < |xs| ==> ClampRule(xs, ys, cx, cy, idx)
    ensures forall k :: 0 <= k < n ==> lo <= cx[k] <= hi
  {
    if n > 0 {
      ClampStaysInRange(xs, ys, cx, cy, lo, hi, n - 1);
      var k := n - 1;
      assert ClampRule(xs, ys, cx, cy, k);
      if 0 < k < |xs| - 1 && TooFast(xs, ys, k) {
        assert cx[k] == (cx[k - 1] + xs[k + 1]) / 2.0;
        assert lo <= cx[k - 1] <= hi && lo <= xs[k + 1] <= hi;
      } else {
        assert cx[k] == xs[k];
      }
    }
  }

  // ---------------------------------------------------------------------------
  // Rebuilding the boxes
  // ---------------------------------------------------------------------------

  /** `[i for i in valid if i <= idx][-1]`, if there is one. */
  function LastAtMost(valid: seq<int>, idx: int): (r: Option<int>)
    ensures r.Some? ==> r.value in valid && r.value <= idx
    ensures r.None? ==> forall k :: k in valid ==> k > idx
    ensures r.Some? && StrictlyIncreasing(valid) ==> forall k :: k in valid && k <= idx ==> k <= r.value
  {
    if valid == [] then None
    else if valid[|valid| - 1] <= idx then Some(valid[|valid| - 1])
    else
      var r := LastAtMost(valid[..|valid| - 1], idx);
      assert forall k :: k in valid ==> k in valid[..|valid| - 1] || k == valid[|valid| - 1];
      assert StrictlyIncreasing(valid) ==> StrictlyIncreasing(valid[..|valid| - 1]);
      r
  }

  /** `[i for i in valid if i > idx][0]`, if there is one. */
  function FirstAbove(valid: seq<int>, idx: int): (r: Option<int>)
    ensures r.Some? ==> r.value in valid && r.value > idx
    ensures r.None? ==> forall k :: k in valid ==> k <= idx
    ensures r.Some? && StrictlyIncreasing(valid) ==> forall k :: k in valid && k > idx ==> r.value <= k
  {
    if valid == [] then None
    else if valid[0] > idx then Some(valid[0])
    else
      var r := FirstAbove(valid[1..], idx);
      assert forall k :: k in valid ==> k == valid[0] || k in valid[1..];
      assert StrictlyIncreasing(valid) ==> StrictlyIncreasing(valid[1..]);
      assert StrictlyIncreasing(valid) && r.Some? ==> valid[0] < r.value by {
        if StrictlyIncreasing(valid) && r.Some? {
          var j :| 0 <= j < |valid[1..]| && valid[1..][j] == r.value;
        }
      }
      r
  }

  /** The detected frame whose box size is reused at `idx`: the last one
      at or before it, else the first one after it. */
  function SizeSource(valid: seq<int>, idx: int): (r: Option<int>)
    ensures r.Some? <==> valid != []
    ensures r.Some? ==> r.value in valid
  {
    if valid == [] then None
    else match LastAtMost(valid, idx)
      case Some(k) => Some(k)
      case None =>
        match FirstAbove(valid, idx)
        case Some(k) => Some(k)
        case None => Some(valid[0])
  }

  /** The width and height of the box rebuilt at `idx`. */
  function SizeAt(positions: seq<Option<Box>>, valid: seq<int>, idx: int): (real, real)
    requires forall k :: k in valid ==> 0 <= k < |positions| && positions[k].Some?
  {
    match SizeSource(valid, idx)
    case None => (DefaultBoxSize, DefaultBoxSize)
    case Some(k) => (Width(positions[k].value), Height(positions[k].value))
  }

  /** A box of the given size centred on `c`. */
  function BoxAround(c: Point, w: real, h: real): (b: Box)
    ensures Center(b) == c && Width(b) == w && Height(b) == h
  {
    Box(c.x - w / 2.0, c.y - h / 2.0, c.x + w / 2.0, c.y + h / 2.0)
  }

  /** The last loop of `smooth_trajectory`: one box per frame, centred on
      the smoothed centre, as wide and tall as the box of the frame
      `SizeSource` picks. */
  method Reconstruct(positions: seq<Option<Box>>, valid: seq<int>, xs: seq<real>, ys: seq<real>) returns (out: seq<Box>)
    requires |xs| == |ys|
    requires forall k :: k in valid ==> 0 <= k < |positions| && positions[k].Some?
    ensures |out| == |xs|
    ensures forall idx :: 0 <= idx < |xs| ==>
      Center(out[idx]) == Point(xs[idx], ys[idx]) && (Width(out[idx]), Height(out[idx])) == SizeAt(positions, valid, idx)
    ensures forall idx :: 0 <= idx < |xs| ==>
      out[idx] == BoxAround(Point(xs[idx], ys[idx]), SizeAt(positions, valid, idx).0, SizeAt(positions, valid, idx).1)
  {
    out := [];
    var idx := 0;
    while idx < |xs|
      invariant 0 <= idx <= |xs| && |out| == idx
      invariant forall k :: 0 <= k < idx ==>
        out[k] == BoxAround(Point(xs[k], ys[k]), SizeAt(positions, valid, k).0, SizeAt(positions, valid, k).1)
    {
      var size := SizeAt(positions, valid, idx);
      out := out + [BoxAround(Point(xs[idx], ys[idx]), size.0, size.1)];
      idx := idx + 1;
    }
  }

  /** The box reused at a frame comes from the nearest detected frame
      at or before it when there is one, else from the nearest after. */
  lemma SizeSourceIsNearest(valid: seq<int>, idx: int)
    requires StrictlyIncreasing(valid) && valid != []
    ensures SizeSource(valid, idx).Some? && SizeSource(valid, idx).value in valid
    ensures (exists k :: k in valid && k <= idx) ==>
      SizeSource(valid, idx).value <= idx && forall k :: k in valid && k <= idx ==> k <= SizeSource(valid, idx).value
    ensures (forall k :: k in valid ==> k > idx) ==>
      forall k :: k in valid ==> SizeSource(valid, idx).value <= k
  {
    if LastAtMost(valid, idx).None? {
      assert valid[0] in valid;
    }
  }

  // ---------------------------------------------------------------------------
  // The whole smoother
  // ---------------------------------------------------------------------------

  /** The first pass as a value: a frame it drops is unknown, every
      other frame keeps its centre. */
  function Filtered(lib: Numerics, positions: seq<Option<Box>>, hits: seq<int>): (f: seq<Option<Point>>)
    ensures |f| == |positions|
    ensures forall i :: 0 <= i < |f| ==> (f[i].Some? <==> positions[i].Some? && !Removes(lib, Centers(lib, positions), hits, i))
  {
    var cs := Centers(lib, positions);
    seq(|cs|, i requires 0 <= i < |cs| => if Removes(lib, cs, hits, i) then None else cs[i])
  }

  /** The known frames of a track, ascending: `valid_indices`. */
  function KnownIndices(s: seq<Option<Point>>): (r: seq<int>)
    ensures StrictlyIncreasing(r)
    ensures forall k :: k in r <==> 0 <= k < |s| && s[k].Some?
  {
    if s == [] then []
    else
      var n := |s| - 1;
      var p := KnownIndices(s[..n]);
      var r := p + (if s[n].Some? then [n] else []);
      assert StrictlyIncreasing(r) by {
        assert |s[..n]| == n;
        assert forall k :: k in p ==> k < n;
        assert forall j :: 0 <= j < |p| ==> p[j] in p;
      }
      assert forall k :: k in r <==> 0 <= k < |s| && s[k].Some? by {
        forall k ensures k in r <==> 0 <= k < |s| && s[k].Some? {
          if 0 <= k < n {
            assert s[..n][k] == s[k];
          }
        }
      }
      r
  }

  /** The `y` values of the known frames, in the order of `kept`: the
      data the spline is fitted to. */
  function KeptYs(filtered: seq<Option<Point>>, kept: seq<int>): (r: seq<real>)
    requires forall k :: k in kept ==> 0 <= k < |filtered| && filtered[k].Some?
    ensures |r| == |kept|
  {
    seq(|kept|, j requires 0 <= j < |kept| => assert kept[j] in kept; filtered[kept[j]].value.y)
  }

  /** The filtered track after gap filling: the spline branch with at
      least 4 known frames, the linear fallback otherwise. */
  function FilledTrack(lib: Numerics, filtered: seq<Option<Point>>, hits: seq<int>, kept: seq<int>): (r: seq<Option<Point>>)
    requires forall k :: k in kept ==> 0 <= k < |filtered| && filtered[k].Some?
    ensures |r| == |filtered|
  {
    if |kept| >= SplineMinPoints then
      seq(|filtered|, idx requires 0 <= idx < |filtered| => SplineFillAt(lib, filtered, hits, kept, KeptYs(filtered, kept), idx))
    else
      seq(|filtered|, idx requires 0 <= idx < |filtered| => LinearFillAt(filtered, hits, idx))
  }

  /** The centre track the boxes are rebuilt around: the filled track
      after the NaN fill, then through the Savitzky-Golay filter and the
      velocity clamp when the track is at least as long as the window; or
      the error a library call raises. */
  ghost function SmoothedTrack(lib: Numerics, filtered: seq<Option<Point>>, hits: seq<int>, kept: seq<int>)
    : (r: Result<(seq<real>, seq<real>), SmoothError>)
    requires SavgolKeepsLength(lib)
    requires forall k :: k in kept ==> 0 <= k < |filtered| && filtered[k].Some?
    ensures r.Ok? ==> |r.value.0| == |filtered| && |r.value.1| == |filtered|
  {
    match FillGaps(FilledTrack(lib, filtered, hits, kept))
    case Err(e) => Err(e)
    case Ok(full) =>
      var w := SavgolWindow(|full|);
      if |full| >= w && w <= SavgolPolyorder then Err(WindowTooSmall)
      else if |full| >= w then Ok(Clamped(lib.savgol(Xs(full), w), lib.savgol(Ys(full), w)))
      else Ok((Xs(full), Ys(full)))
  }

  /** The centre track of the whole smoother, from its inputs. */
  ghost function SmoothedCentres(lib: Numerics, positions: seq<Option<Box>>, hits: seq<int>)
    : (r: Result<(seq<real>, seq<real>), SmoothError>)
    requires SavgolKeepsLength(lib)
    ensures r.Ok? ==> |r.value.0| == |positions| && |r.value.1| == |positions|
  {
    var f := Filtered(lib, positions, hits);
    SmoothedTrack(lib, f, hits, KnownIndices(f))
  }

  /** `smooth_trajectory`: one box per input frame, or one of the two
      errors the library calls raise. It fails with `NoKnownPosition`
      exactly when there are frames but every one is undetected or dropped
      by the first pass, and with `WindowTooSmall` exactly when some frame
      survives and the track has one or three frames. Otherwise the box
      of each frame is centred on that frame of the smoothed centre track
      and is as wide and tall as the detected box of the surviving frame
      `SizeSource` picks. */
  method SmoothTrajectory(lib: Numerics, positions: seq<Option<Box>>, hits: seq<int>)
    returns (r: Result<seq<Box>, SmoothError>)
    requires SavgolKeepsLength(lib)
    ensures r.Ok? ==> |r.value| == |positions|
    ensures r == Err(NoKnownPosition) <==>
      |positions| > 0 && forall k :: 0 <= k < |positions| ==>
        positions[k].None? || Removes(lib, Centers(lib, positions), hits, k)
    ensures r == Err(WindowTooSmall) <==>
      (|positions| == 1 || |positions| == 3) &&
      !(forall k :: 0 <= k < |positions| ==> positions[k].None? || Removes(lib, Centers(lib, positions), hits, k))
    ensures r.Ok? <==> SmoothedCentres(lib, positions, hits).Ok?
    ensures r.Ok? ==> forall idx :: 0 <= idx < |positions| ==>
      var c := SmoothedCentres(lib, positions, hits).value;
      var size := SizeAt(positions, KnownIndices(Filtered(lib, positions, hits)), idx);
      r.value[idx] == BoxAround(Point(c.0[idx], c.1[idx]), size.0, size.1)
    ensures r.Ok? ==> forall idx :: 0 <= idx < |positions| ==>
      (Width(r.value[idx]), Height(r.value[idx])) == SizeAt(positions, KnownIndices(Filtered(lib, positions, hits)), idx)
  {
    var centers, valid := CollectCenters(lib, positions);
    var filtered, kept := FirstPass(lib, centers, hits, valid);
    assert AllAbsent(filtered) <==>
      forall k :: 0 <= k < |positions| ==> positions[k].None? || Removes(lib, centers, hits, k);
    assert filtered == Filtered(lib, positions, hits);
    IncreasingUnique(kept, KnownIndices(filtered));
    r := FillAndSmooth(lib, positions, hits, filtered, kept);
  }

  /** The part of `smooth_trajectory` after the first pass: the gaps of
      the filtered track are filled (spline branch with at least 4
      surviving samples, linear fallback otherwise), the NaN fill runs,
      the Savitzky-Golay filter and the velocity clamp smooth the track,
      and the boxes are rebuilt. */
  method FillAndSmooth(lib: Numerics, positions: seq<Option<Box>>, hits: seq<int>,
                       filtered: seq<Option<Point>>, kept: seq<int>)
    returns (r: Result<seq<Box>, SmoothError>)
    requires SavgolKeepsLength(lib)
    requires |filtered| == |positions|
    requires forall k :: k in kept <==> 0 <= k < |filtered| && filtered[k].Some?
    requires forall k :: 0 <= k < |filtered| && filtered[k].Some? ==> positions[k].Some?
    ensures r.Ok? ==> |r.value| == |positions|
    ensures r == Err(NoKnownPosition) <==> |positions| > 0 && AllAbsent(filtered)
    ensures r == Err(WindowTooSmall) <==> (|positions| == 1 || |positions| == 3) && !AllAbsent(filtered)
    ensures r.Ok? <==> SmoothedTrack(lib, filtered, hits, kept).Ok?
    ensures r.Ok? ==> forall idx :: 0 <= idx < |positions| ==>
      var c := SmoothedTrack(lib, filtered, hits, kept).value;
      r.value[idx] == BoxAround(Point(c.0[idx], c.1[idx]), SizeAt(positions, kept, idx).0, SizeAt(positions, kept, idx).1)
    ensures r.Ok? ==> forall idx :: 0 <= idx < |positions| ==>
      (Width(r.value[idx]), Height(r.value[idx])) == SizeAt(positions, kept, idx)
  {
    var n := |positions|;
    var filled: seq<Option<Point>>;
    if |kept| >= SplineMinPoints {
      filled := SplineFill(lib, filtered, hits, kept, KeptYs(filtered, kept));
    } else {
      filled := LinearFill(filtered, hits);
    }
    assert filled == FilledTrack(lib, filtered, hits, kept);
    FillKeepsAbsence(filtered, filled);
    var full := FillGaps(filled);
    if full.Err? {
      return Err(NoKnownPosition);
    }
    var xsFull, ysFull := Xs(full.value), Ys(full.value);
    var w := SavgolWindow(n);
    SavgolRaisesOnlyForOneAndThree(n);
    var sx, sy := xsFull, ysFull;
    if n >= w {
      if w <= SavgolPolyorder {
        return Err(WindowTooSmall);
      }
      sx, sy := ClampVelocity(lib.savgol(xsFull, w), lib.savgol(ysFull, w));
    }
    assert SmoothedTrack(lib, filtered, hits, kept) == Ok((sx, sy));
    var boxes := Reconstruct(positions, kept, sx, sy);
    return Ok(boxes);
  }
}
