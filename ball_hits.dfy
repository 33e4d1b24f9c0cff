/** `BallTracker.detect_ball_hits`: a hit is a frame where the ball's
    smoothed vertical motion reverses and the new direction then holds for
    enough of the following frames. The rows are the ball boxes of every
    frame after pandas' `interpolate` and `bfill` have filled the gaps;
    those two steps are taken as given. */
module BallHits {
  import opened Wrappers
  import opened Geometry
  import opened Sequences

  /** The number of frames `rolling(window=5, min_periods=1)` averages. */
  const RollingWindow: nat := 5

  /** Rows whose `x1` and `y1` are close to these are dropped from the
      result: a fixed false detection in the recorded footage. */
  const ArtifactX1: real := 1288.377650
  const ArtifactY1: real := 647.037925

  /** The vertical middle of a box, the `mid_y` column. */
  function MidY(b: Box): real { (b.y1 + b.y2) / 2.0 }

  function MidYs(rows: seq<Box>): (r: seq<real>)
    ensures |r| == |rows|
  {
    seq(|rows|, i requires 0 <= i < |rows| => MidY(rows[i]))
  }

  /** The first index of the rolling window that ends at `i`. */
  function WindowStart(i: nat): nat {
    if i >= RollingWindow - 1 then i - (RollingWindow - 1) else 0
  }

  /** The `mid_y_rolling_mean` column at `i`: the mean of the last five
      values up to and including `i`, or of all of them near the start. */
  function RollingMean(mids: seq<real>, i: nat): real
    requires i < |mids|
  {
    Sum(mids[WindowStart(i)..i + 1]) / ((i + 1 - WindowStart(i)) as real)
  }

  function Smoothed(rows: seq<Box>): (r: seq<real>)
    ensures |r| == |rows|
  {
    var mids := MidYs(rows);
    seq(|rows|, i requires 0 <= i < |rows| => RollingMean(mids, i))
  }

  /** The `delta_y` column: `diff()` of the rolling mean, with the first
      entry (which `diff` leaves empty) filled with 0. */
  function Deltas(rows: seq<Box>): (d: seq<real>)
    ensures |d| == |rows|
    ensures |rows| > 0 ==> d[0] == 0.0
  {
    var r := Smoothed(rows);
    seq(|rows|, i requires 0 <= i < |rows| => if i == 0 then 0.0 else r[i] - r[i - 1])
  }

  /** `int(m * 1.2)`: how many frames after a reversal are inspected. */
  function Window(m: int): (w: int)
    ensures m >= 1 ==> m <= w
  {
    Trunc(m as real * 1.2)
  }

  /** `a` and `b` are non-zero and of opposite signs. */
  predicate Opposite(a: real, b: real) {
    (a > 0.0 && b < 0.0) || (a < 0.0 && b > 0.0)
  }

  /** How many of the frames `lo .. hi-1` move against the direction of frame `i`. */
  function CountOpposite(d: seq<real>, i: nat, lo: nat, hi: nat): (c: nat)
    requires i < |d| && hi <= |d|
    ensures c <= if lo <= hi then hi - lo else 0
    decreases hi
  {
    if hi <= lo then 0
    else CountOpposite(d, i, lo, hi - 1) + (if Opposite(d[i], d[hi - 1]) then 1 else 0)
  }

  /** The end (exclusive) of the frames inspected after a reversal at `i`. */
  function InspectEnd(d: seq<real>, m: int, i: nat): nat
    requires m >= 1
  {
    if i + Window(m) + 1 < |d| then i + Window(m) + 1 else |d|
  }

  /** Frame `i` is flagged `ball_hit`: it lies in the scanned range
      `1 .. n - int(1.2 m) - 1`, the motion reverses between `i` and
      `i + 1`, and at least `m` of the inspected frames move against
      frame `i`. */
  predicate IsHit(d: seq<real>, m: int, i: int)
    requires m >= 1
  {
    && 1 <= i < |d| - Window(m)
    && Opposite(d[i], d[i + 1])
    && CountOpposite(d, i, i + 1, InspectEnd(d, m, i)) >= m
  }

  /** `np.isclose(a, b)` with its default tolerances. */
  predicate IsClose(a: real, b: real) {
    Abs(a - b) <= 0.00000001 + 0.00001 * Abs(b)
  }

  predicate IsArtifact(b: Box) {
    IsClose(b.x1, ArtifactX1) && IsClose(b.y1, ArtifactY1)
  }

  /** The `ball_hit` column: the scan over `delta_y` with its inner count. */
  method HitFlags(d: seq<real>, m: int) returns (flags: seq<bool>)
    requires m >= 1
    ensures |flags| == |d|
    ensures forall i :: 0 <= i < |d| ==> (flags[i] <==> IsHit(d, m, i))
  {
    var w := Window(m);
    flags := seq(|d|, _ => false);
    var i := 1;
    while i < |d| - w
      invariant 1 <= i
      invariant |flags| == |d|
      invariant forall k :: 0 <= k < |d| ==> (flags[k] <==> (k < i && IsHit(d, m, k)))
    {
      var negative := d[i] > 0.0 && d[i + 1] < 0.0;
      var positive := d[i] < 0.0 && d[i + 1] > 0.0;
      if negative || positive {
        var count := 0;
        var end := if i + w + 1 < |d| then i + w + 1 else |d|;
        var cf := i + 1;
        while cf < end
          invariant i + 1 <= cf <= end
          invariant count == CountOpposite(d, i, i + 1, cf)
        {
          if negative && d[i] > 0.0 && d[cf] < 0.0 {
            count := count + 1;
          } else if positive && d[i] < 0.0 && d[cf] > 0.0 {
            count := count + 1;
          }
          cf := cf + 1;
        }
        if count > m - 1 {
          flags := flags[i := true];
        }
      }
      i := i + 1;
    }
  }

  /** The frames whose flag is set and whose row is not the artifact, in
      frame order: the filtered DataFrame's index. */
  method FlaggedFrames(flags: seq<bool>, rows: seq<Box>) returns (hits: seq<int>)
    requires |flags| == |rows|
    ensures StrictlyIncreasing(hits)
    ensures forall k :: k in hits <==> 0 <= k < |rows| && flags[k] && !IsArtifact(rows[k])
  {
    hits := [];
    var i := 0;
    while i < |rows|
      invariant 0 <= i <= |rows|
      invariant StrictlyIncreasing(hits)
      invariant forall k :: k in hits <==> 0 <= k < i && flags[k] && !IsArtifact(rows[k])
    {
      if flags[i] && !IsArtifact(rows[i]) {
        assert forall a :: 0 <= a < |hits| ==> hits[a] in hits;
        hits := hits + [i];
      }
      i := i + 1;
    }
  }

  /** `known_ball_positions`: the box of each hit frame, keyed by frame. */
  method KnownPositions(hits: seq<int>, rows: seq<Box>) returns (known: map<int, Box>)
    requires forall k :: k in hits ==> 0 <= k < |rows|
    ensures known.Keys == set k | k in hits
    ensures forall k :: k in known ==> 0 <= k < |rows| && known[k] == rows[k]
  {
    known := map[];
    var j := 0;
    while j < |hits|
      invariant 0 <= j <= |hits|
      invariant known.Keys == set k | k in hits[..j]
      invariant forall k :: k in known ==> 0 <= k < |rows| && known[k] == rows[k]
    {
      assert hits[j] in hits;
      assert hits[..j + 1] == hits[..j] + [hits[j]];
      known := known[hits[j] := rows[hits[j]]];
      j := j + 1;
    }
    assert hits[..j] == hits;
  }

  /** `detect_ball_hits` without its cache: the frames flagged as hits
      whose row is not the artifact, ascending, and the box of each. */
  method DetectBallHits(rows: seq<Box>, m: int) returns (hits: seq<int>, known: map<int, Box>)
    requires m >= 1
    ensures StrictlyIncreasing(hits)
    ensures forall i :: i in hits <==> 0 <= i < |rows| && IsHit(Deltas(rows), m, i) && !IsArtifact(rows[i])
    ensures forall i :: i in hits ==> 1 <= i < |rows| - Window(m) && Deltas(rows)[i] != 0.0
    ensures known.Keys == set i | i in hits
    ensures forall i :: i in known ==> 0 <= i < |rows| && known[i] == rows[i]
  {
    var d := Deltas(rows);
    var flags := HitFlags(d, m);
    hits := FlaggedFrames(flags, rows);
    known := KnownPositions(hits, rows);
  }

  /** What the two pickle files hold once written. */
  datatype HitCache = HitCache(hits: seq<int>, known: map<int, Box>)

  /** `detect_ball_hits` with its cache: unless `recompute` is set, a
      stored result is returned as it is; otherwise the result is computed
      and stored. */
  method DetectBallHitsCached(store: Option<HitCache>, recompute: bool, rows: seq<Box>, m: int)
    returns (result: HitCache, stored: Option<HitCache>)
    requires m >= 1
    ensures !recompute && store.Some? ==> result == store.value && stored == store
    ensures recompute || store.None? ==> stored == Some(result)
    ensures recompute || store.None? ==>
      forall i :: i in result.hits <==> 0 <= i < |rows| && IsHit(Deltas(rows), m, i) && !IsArtifact(rows[i])
    ensures recompute || store.None? ==> StrictlyIncreasing(result.hits)
    ensures recompute || store.None? ==>
      result.known.Keys == (set i | i in result.hits) &&
      forall i :: i in result.known ==> 0 <= i < |rows| && result.known[i] == rows[i]
  {
    if !recompute && store.Some? {
      return store.value, store;
    }
    var hits, known := DetectBallHits(rows, m);
    result := HitCache(hits, known);
    stored := Some(result);
  }

  // ---------------------------------------------------------------------------
  // Properties of the signal
  // ---------------------------------------------------------------------------

  /** Summing `delta_y` up to frame `k` gives back how far the rolling mean
      has moved since frame 0. */
  lemma {:induction false} DeltasTelescope(rows: seq<Box>, k: nat)
    requires k < |rows|
    ensures Sum(Deltas(rows)[..k + 1]) == Smoothed(rows)[k] - Smoothed(rows)[0]
  {
    var d := Deltas(rows);
    if k == 0 {
      assert d[..1] == [d[0]];
      assert Sum(d[..1]) == Sum(d[..0]) + d[0];
    } else {
      DeltasTelescope(rows, k - 1);
      assert d[..k + 1][..k] == d[..k];
    }
  }

  lemma {:induction false} SumOfConstant(s: seq<real>, c: real)
    requires forall i :: 0 <= i < |s| ==> s[i] == c
    ensures Sum(s) == |s| as real * c
  {
    if s != [] {
      SumOfConstant(s[..|s| - 1], c);
    }
  }

  /** A ball at a constant height never moves vertically, so no frame is a hit. */
  lemma ConstantHeightHasNoHits(rows: seq<Box>, m: int, c: real)
    requires m >= 1
    requires forall i :: 0 <= i < |rows| ==> MidY(rows[i]) == c
    ensures forall i :: 0 <= i < |rows| ==> Deltas(rows)[i] == 0.0 && !IsHit(Deltas(rows), m, i)
  {
    var mids := MidYs(rows);
    forall i | 0 <= i < |rows| ensures Smoothed(rows)[i] == c {
      var w := mids[WindowStart(i)..i + 1];
      SumOfConstant(w, c);
    }
  }

  /** A confirmation needs at least `m` opposing frames among the
      `int(1.2 m)` inspected, so a hit is never closer than `m` frames to
      the end of the series. */
  lemma HitLeavesRoomToConfirm(d: seq<real>, m: int, i: int)
    requires m >= 1 && IsHit(d, m, i)
    ensures i + m < |d|
  {
  }
}
