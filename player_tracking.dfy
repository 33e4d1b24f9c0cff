/** The IoU player tracker: each player box of a frame takes the id of the
    live track it overlaps most (IoU above 0.3), or a fresh id; tracks that
    go unmatched for too long are dropped. */
module PlayerTracking {
  import opened Wrappers
  import opened Geometry
  import opened Sequences

  /** A box must overlap a track by more than this IoU to inherit its id. */
  const IouThreshold: real := 0.3
  /** The term added to the IoU denominator. */
  const Epsilon: real := 0.000001
  /** A track whose missing counter exceeds this is deleted at the next cleanup. */
  const MaxFramesMissing: int := 10

  /** One detector output for the player class. */
  datatype Detection = Detection(box: Box, confidence: real)

  /** A detection labelled with the id the tracker gave it. */
  datatype TrackedDetection = TrackedDetection(box: Box, confidence: real, id: int)

  // ---------------------------------------------------------------------------
  // Intersection over union
  // ---------------------------------------------------------------------------

  /** Length of the overlap of [lo1, hi1] and [lo2, hi2], clamped at 0. */
  function Overlap(lo1: real, hi1: real, lo2: real, hi2: real): real {
    Max(0.0, Min(hi1, hi2) - Max(lo1, lo2))
  }

  function Intersection(a: Box, b: Box): real {
    Overlap(a.x1, a.x2, b.x1, b.x2) * Overlap(a.y1, a.y2, b.y1, b.y2)
  }

  function IouDenominator(a: Box, b: Box): real {
    Area(a) + Area(b) - Intersection(a, b) + Epsilon
  }

  lemma MulBounded(p: real, q: real, u: real, v: real)
    requires 0.0 <= p <= u && 0.0 <= q <= v
    ensures 0.0 <= p * q <= u * v
  {
    assert p * q <= u * q;
    assert u * q <= u * v;
  }

  /** The intersection of two well-formed boxes is no larger than either box. */
  lemma IntersectionWithinAreas(a: Box, b: Box)
    requires WellFormed(a) && WellFormed(b)
    ensures 0.0 <= Intersection(a, b) <= Area(a)
    ensures Intersection(a, b) <= Area(b)
  {
    var ox := Overlap(a.x1, a.x2, b.x1, b.x2);
    var oy := Overlap(a.y1, a.y2, b.y1, b.y2);
    MulBounded(ox, oy, Width(a), Height(a));
    MulBounded(ox, oy, Width(b), Height(b));
  }

  /** `_get_iou`: intersection area over union area plus 1e-6. Defined for
      boxes with ordered corners, where the denominator is at least 1e-6. */
  function Iou(a: Box, b: Box): (r: real)
    requires WellFormed(a) && WellFormed(b)
    ensures 0.0 <= r < 1.0
    ensures Intersection(a, b) == 0.0 ==> r == 0.0
  {
    IntersectionWithinAreas(a, b);
    assert Intersection(a, b) < IouDenominator(a, b);
    Intersection(a, b) / IouDenominator(a, b)
  }

  /** The IoU does not depend on the order of its arguments. */
  lemma IouSymmetric(a: Box, b: Box)
    requires WellFormed(a) && WellFormed(b)
    ensures Iou(a, b) == Iou(b, a)
  {
    assert Overlap(a.x1, a.x2, b.x1, b.x2) == Overlap(b.x1, b.x2, a.x1, a.x2);
    assert Overlap(a.y1, a.y2, b.y1, b.y2) == Overlap(b.y1, b.y2, a.y1, a.y2);
  }

  /** Boxes separated along either axis have IoU 0. */
  lemma IouOfSeparatedBoxes(a: Box, b: Box)
    requires WellFormed(a) && WellFormed(b)
    requires a.x2 <= b.x1 || b.x2 <= a.x1 || a.y2 <= b.y1 || b.y2 <= a.y1
    ensures Iou(a, b) == 0.0
  {
  }

  // ---------------------------------------------------------------------------
  // Orders, matches and the cleanup of counters, as values
  // ---------------------------------------------------------------------------

  /** Every listed id has a stored box, with ordered corners. */
  predicate TracksWellFormed(order: seq<int>, tracked: map<int, Box>) {
    forall j :: 0 <= j < |order| ==> order[j] in tracked && WellFormed(tracked[order[j]])
  }

  /** Position `k` of `order` holds the track the source picks for `box`: its
      IoU is above the threshold, no track has a larger IoU, and every track
      iterated before it has a strictly smaller one. */
  ghost predicate IsFirstBest(order: seq<int>, tracked: map<int, Box>, box: Box, k: int)
    requires WellFormed(box)
    requires TracksWellFormed(order, tracked)
  {
    && 0 <= k < |order|
    && Iou(box, tracked[order[k]]) > IouThreshold
    && (forall j :: 0 <= j < |order| ==> Iou(box, tracked[order[j]]) <= Iou(box, tracked[order[k]]))
    && (forall j :: 0 <= j < k ==> Iou(box, tracked[order[j]]) < Iou(box, tracked[order[k]]))
  }

  /** No track overlaps `box` by more than the threshold. */
  ghost predicate NoMatch(order: seq<int>, tracked: map<int, Box>, box: Box)
    requires WellFormed(box)
    requires TracksWellFormed(order, tracked)
  {
    forall j :: 0 <= j < |order| ==> Iou(box, tracked[order[j]]) <= IouThreshold
  }

  /** The search loop of `_assign_player_id`: scans the tracks in dictionary
      order and keeps the first strictly largest IoU above 0.3. */
  method FindBestMatch(order: seq<int>, tracked: map<int, Box>, box: Box) returns (best: Option<nat>)
    requires WellFormed(box)
    requires TracksWellFormed(order, tracked)
    ensures best.None? <==> NoMatch(order, tracked, box)
    ensures best.Some? ==> IsFirstBest(order, tracked, box, best.value)
  {
    var bestIou := 0.0;
    best := None;
    var i := 0;
    while i < |order|
      invariant 0 <= i <= |order|
      invariant best.None? ==> bestIou == 0.0 && forall j :: 0 <= j < i ==> Iou(box, tracked[order[j]]) <= IouThreshold
      invariant best.Some? ==> best.value < i && bestIou == Iou(box, tracked[order[best.value]]) > IouThreshold
      invariant best.Some? ==> forall j :: 0 <= j < i ==> Iou(box, tracked[order[j]]) <= bestIou
      invariant best.Some? ==> forall j :: 0 <= j < best.value ==> Iou(box, tracked[order[j]]) < bestIou
    {
      var iou := Iou(box, tracked[order[i]]);
      if iou > bestIou && iou > IouThreshold {
        bestIou := iou;
        best := Some(i);
      }
      i := i + 1;
    }
  }

  /** The counters after `_cleanup_missing_players`: counters above 10 are
      deleted, every other counter goes up by one. */
  function CleanupCounters(missing: map<int, int>): (r: map<int, int>)
    ensures forall id :: id in r <==> id in missing && missing[id] <= MaxFramesMissing
  {
    map id | id in missing && missing[id] <= MaxFramesMissing :: missing[id] + 1
  }

  /** `k` consecutive cleanups with no match in between. */
  function CleanupTimes(missing: map<int, int>, k: nat): map<int, int> {
    if k == 0 then missing else CleanupTimes(CleanupCounters(missing), k - 1)
  }

  /** An unmatched track with counter `c` is still alive, with counter
      `c + k`, after `k` cleanups as long as `c + k` stays within 11. */
  lemma {:induction false} UnmatchedCounterAdvances(missing: map<int, int>, id: int, k: nat)
    requires id in missing && 0 <= missing[id] && missing[id] + k <= MaxFramesMissing + 1
    ensures id in CleanupTimes(missing, k)
    ensures CleanupTimes(missing, k)[id] == missing[id] + k
  {
    if k > 0 {
      var next := CleanupCounters(missing);
      assert id in next && next[id] == missing[id] + 1;
      UnmatchedCounterAdvances(next, id, k - 1);
    }
  }

  /** Boundary of the tolerance window: a track matched in some frame
      (counter 0) survives the cleanups of the next 11 frames, so it can
      still be matched after missing 10 frames; the cleanup at the start of
      the 12th frame deletes it. */
  lemma UnmatchedTrackLifetime(missing: map<int, int>, id: int)
    requires id in missing && missing[id] == 0
    ensures id in CleanupTimes(missing, 11) && CleanupTimes(missing, 11)[id] == 11
    ensures id !in CleanupTimes(missing, 12)
  {
    UnmatchedCounterAdvances(missing, id, 11);
    var m11 := CleanupTimes(missing, 11);
    assert CleanupTimes(missing, 12) == CleanupTimes(CleanupCounters(missing), 11);
    CleanupTimesShift(missing, 11);
  }

  lemma {:induction false} CleanupTimesShift(missing: map<int, int>, k: nat)
    ensures CleanupTimes(missing, k + 1) == CleanupCounters(CleanupTimes(missing, k))
  {
    if k > 0 {
      CleanupTimesShift(CleanupCounters(missing), k - 1);
    }
  }

  /** The ids whose counter exceeds 10, in dictionary order: the list
      `players_to_remove` built by the first loop of the cleanup. */
  method StaleIds(order: seq<int>, missing: map<int, int>) returns (stale: seq<int>)
    requires forall j :: 0 <= j < |order| ==> order[j] in missing
    ensures forall id :: id in stale <==> id in order && missing[id] > MaxFramesMissing
  {
    stale := [];
    var i := 0;
    while i < |order|
      invariant 0 <= i <= |order|
      invariant forall id :: id in stale <==> id in order[..i] && missing[id] > MaxFramesMissing
    {
      assert order[..i + 1] == order[..i] + [order[i]];
      if missing[order[i]] > MaxFramesMissing {
        stale := stale + [order[i]];
      }
      i := i + 1;
    }
    assert order[..i] == order;
  }

  // ---------------------------------------------------------------------------
  // The tracker object
  // ---------------------------------------------------------------------------

  /** Every stored box has ordered corners. */
  predicate BoxesWellFormed(tracked: map<int, Box>) {
    forall id :: id in tracked ==> WellFormed(tracked[id])
  }

  /** `id` is the track the source picks for `box`: IoU above 0.3, no track
      with a larger IoU, every smaller id with a strictly smaller one. */
  ghost predicate IsBestTrack(tracked: map<int, Box>, box: Box, id: int)
    requires WellFormed(box) && BoxesWellFormed(tracked)
  {
    && id in tracked
    && Iou(box, tracked[id]) > IouThreshold
    && (forall j :: j in tracked ==> Iou(box, tracked[j]) <= Iou(box, tracked[id]))
    && (forall j :: j in tracked && j < id ==> Iou(box, tracked[j]) < Iou(box, tracked[id]))
  }

  /** No track overlaps `box` by more than 0.3. */
  ghost predicate NoTrackMatches(tracked: map<int, Box>, box: Box)
    requires WellFormed(box) && BoxesWellFormed(tracked)
  {
    forall j :: j in tracked ==> Iou(box, tracked[j]) <= IouThreshold
  }

  /** The tracker invariant, on the values of its four fields: both tables
      have the key set listed by `order`, which is ascending (so dictionary
      order is id order); every id is below `nextId`; counters lie in
      0..11; stored boxes are well formed. */
  ghost predicate TrackerInv(nextId: int, order: seq<int>, tracked: map<int, Box>, missing: map<int, int>) {
    && 0 <= nextId
    && StrictlyIncreasing(order)
    && (forall id :: id in order ==> 0 <= id < nextId)
    && (forall id :: id in tracked <==> id in order)
    && tracked.Keys == missing.Keys
    && TracksWellFormed(order, tracked)
    && BoxesWellFormed(tracked)
    && (forall id :: id in missing ==> 0 <= missing[id] <= MaxFramesMissing + 1)
  }

  lemma InvAfterMatch(nextId: int, order: seq<int>, tracked: map<int, Box>, missing: map<int, int>, id: int, box: Box)
    requires TrackerInv(nextId, order, tracked, missing)
    requires id in tracked && WellFormed(box)
    ensures TrackerInv(nextId, order, tracked[id := box], missing[id := 0])
  {
    var t := tracked[id := box];
    forall j | 0 <= j < |order| ensures order[j] in t && WellFormed(t[order[j]]) {
      assert order[j] in tracked;
    }
  }

  lemma InvAfterNew(nextId: int, order: seq<int>, tracked: map<int, Box>, missing: map<int, int>, box: Box)
    requires TrackerInv(nextId, order, tracked, missing)
    requires WellFormed(box)
    ensures nextId !in tracked
    ensures TrackerInv(nextId + 1, order + [nextId], tracked[nextId := box], missing[nextId := 0])
  {
    var o, t := order + [nextId], tracked[nextId := box];
    assert forall id :: id in o <==> id in order || id == nextId;
    forall j | 0 <= j < |o| ensures o[j] in t && WellFormed(t[o[j]]) {
      if j < |order| { assert o[j] == order[j] && order[j] in tracked; }
    }
    forall i, j | 0 <= i < j < |o| ensures o[i] < o[j] {
      if j == |order| { assert o[i] == order[i] && order[i] in order; }
    }
  }

  lemma InvAfterDelete(nextId: int, order: seq<int>, tracked: map<int, Box>, missing: map<int, int>, id: int)
    requires TrackerInv(nextId, order, tracked, missing)
    ensures TrackerInv(nextId, Without(order, id), tracked - {id}, missing - {id})
  {
    var o, t := Without(order, id), tracked - {id};
    forall j | 0 <= j < |o| ensures o[j] in t && WellFormed(t[o[j]]) {
      assert o[j] in o;
    }
  }

  /** Maps a match found by position in `order` to one by id. */
  lemma BestPositionIsBestTrack(order: seq<int>, tracked: map<int, Box>, box: Box, k: nat)
    requires WellFormed(box) && TracksWellFormed(order, tracked) && BoxesWellFormed(tracked)
    requires StrictlyIncreasing(order) && forall id :: id in tracked ==> id in order
    requires IsFirstBest(order, tracked, box, k)
    ensures IsBestTrack(tracked, box, order[k])
  {
    var id := order[k];
    forall j | j in tracked ensures Iou(box, tracked[j]) <= Iou(box, tracked[id]) {
      var p :| 0 <= p < |order| && order[p] == j;
    }
    forall j | j in tracked && j < id ensures Iou(box, tracked[j]) < Iou(box, tracked[id]) {
      var p :| 0 <= p < |order| && order[p] == j;
      assert p < k;
    }
  }

  lemma NoMatchIsNoTrackMatches(order: seq<int>, tracked: map<int, Box>, box: Box)
    requires WellFormed(box) && TracksWellFormed(order, tracked) && BoxesWellFormed(tracked)
    requires forall id :: id in tracked ==> id in order
    requires NoMatch(order, tracked, box)
    ensures NoTrackMatches(tracked, box)
  {
    forall j | j in tracked ensures Iou(box, tracked[j]) <= IouThreshold {
      var p :| 0 <= p < |order| && order[p] == j;
    }
  }

  // ---------------------------------------------------------------------------
  // The tracker's tables as one value, and each step of the detector on it
  // ---------------------------------------------------------------------------

  /** The four fields of the tracker: next id, key order, boxes, counters. */
  datatype Tables = Tables(nextId: int, order: seq<int>, tracked: map<int, Box>, missing: map<int, int>)

  ghost predicate ValidTables(s: Tables) {
    TrackerInv(s.nextId, s.order, s.tracked, s.missing)
  }

  /** The state `process_video` starts from. */
  const Fresh: Tables := Tables(0, [], map[], map[])

  /** The ids of `order` whose counter is at most 10, in order: the key
      order the deletions of the cleanup leave. */
  function Surviving(order: seq<int>, missing: map<int, int>): (r: seq<int>)
    requires forall id :: id in order ==> id in missing
    ensures forall id :: id in r <==> id in order && missing[id] <= MaxFramesMissing
    ensures StrictlyIncreasing(order) ==> StrictlyIncreasing(r)
  {
    if order == [] then []
    else
      var rest := Surviving(order[1..], missing);
      assert StrictlyIncreasing(order) ==> StrictlyIncreasing(order[1..]);
      assert order[0] in order;
      if missing[order[0]] > MaxFramesMissing then rest
      else
        var r := [order[0]] + rest;
        assert StrictlyIncreasing(order) ==> forall j :: 0 < j < |r| ==> r[0] < r[j] by {
          if StrictlyIncreasing(order) {
            forall j | 0 < j < |r| ensures r[0] < r[j] {
              assert r[j] == rest[j - 1] && rest[j - 1] in rest;
            }
          }
        }
        r
  }

  /** `_cleanup_missing_players` on the tables: the tracks whose counter
      is above 10 go, with their boxes and their place in the key order;
      every other counter goes up by one. */
  function Cleanup(s: Tables): (r: Tables)
    requires ValidTables(s)
    ensures ValidTables(r)
    ensures r.nextId == s.nextId && r.missing == CleanupCounters(s.missing)
    ensures forall id :: id in r.tracked <==> id in s.tracked && s.missing[id] <= MaxFramesMissing
    ensures forall id :: id in r.tracked ==> r.tracked[id] == s.tracked[id]
  {
    var r := Tables(s.nextId, Surviving(s.order, s.missing),
                    map id | id in s.tracked && s.missing[id] <= MaxFramesMissing :: s.tracked[id],
                    CleanupCounters(s.missing));
    assert TracksWellFormed(r.order, r.tracked) by {
      forall j | 0 <= j < |r.order| ensures r.order[j] in r.tracked && WellFormed(r.tracked[r.order[j]]) {
        assert r.order[j] in r.order;
      }
    }
    r
  }

  /** Tables that keep the counters, boxes and next id of a cleanup are
      its result: the surviving key order is fixed by the surviving keys. */
  lemma CleanupDetermined(s: Tables, t: Tables)
    requires ValidTables(s) && ValidTables(t)
    requires t.nextId == s.nextId && t.missing == CleanupCounters(s.missing)
    requires forall id :: id in t.tracked ==> t.tracked[id] == s.tracked[id]
    ensures t == Cleanup(s)
  {
    var c := Cleanup(s);
    assert t.tracked.Keys == c.tracked.Keys;
    assert forall id :: id in t.tracked ==> t.tracked[id] == c.tracked[id];
    assert t.tracked == c.tracked;
    IncreasingUnique(t.order, c.order);
  }

  /** Some track is the best one for `box` as soon as one overlaps it by
      more than 0.3. */
  lemma {:induction false} FirstBestExists(order: seq<int>, tracked: map<int, Box>, box: Box)
    requires WellFormed(box) && TracksWellFormed(order, tracked)
    requires !NoMatch(order, tracked, box)
    ensures exists k :: IsFirstBest(order, tracked, box, k)
  {
    var n := |order| - 1;
    var init := order[..n];
    assert TracksWellFormed(init, tracked);
    var last := Iou(box, tracked[order[n]]);
    if NoMatch(init, tracked, box) {
      assert IsFirstBest(order, tracked, box, n);
    } else {
      FirstBestExists(init, tracked, box);
      var k :| IsFirstBest(init, tracked, box, k);
      if last > Iou(box, tracked[order[k]]) {
        assert IsFirstBest(order, tracked, box, n);
      } else {
        assert IsFirstBest(order, tracked, box, k);
      }
    }
  }

  /** There is at most one best track: ties go to the smallest id. */
  lemma BestTrackUnique(tracked: map<int, Box>, box: Box, a: int, b: int)
    requires WellFormed(box) && BoxesWellFormed(tracked)
    requires IsBestTrack(tracked, box, a) && IsBestTrack(tracked, box, b)
    ensures a == b
  {
  }

  /** `_assign_player_id` on the tables: the best track takes the box and
      has its counter reset, or the box opens a track under the next id. */
  ghost function Assign(s: Tables, box: Box): (r: (Tables, int))
    requires ValidTables(s) && WellFormed(box)
    ensures ValidTables(r.0)
    ensures NoTrackMatches(s.tracked, box) ==>
      r.1 == s.nextId && r.1 !in s.tracked && r.0.nextId == s.nextId + 1 && r.0.order == s.order + [r.1]
    ensures !NoTrackMatches(s.tracked, box) ==>
      IsBestTrack(s.tracked, box, r.1) && r.0.nextId == s.nextId && r.0.order == s.order
    ensures r.0.tracked == s.tracked[r.1 := box] && r.0.missing == s.missing[r.1 := 0]
  {
    if NoTrackMatches(s.tracked, box) then
      InvAfterNew(s.nextId, s.order, s.tracked, s.missing, box);
      (Tables(s.nextId + 1, s.order + [s.nextId], s.tracked[s.nextId := box], s.missing[s.nextId := 0]), s.nextId)
    else
      assert !NoMatch(s.order, s.tracked, box);
      FirstBestExists(s.order, s.tracked, box);
      var k :| IsFirstBest(s.order, s.tracked, box, k);
      BestPositionIsBestTrack(s.order, s.tracked, box, k);
      var id := s.order[k];
      InvAfterMatch(s.nextId, s.order, s.tracked, s.missing, id, box);
      (Tables(s.nextId, s.order, s.tracked[id := box], s.missing[id := 0]), id)
  }

  lemma QuotientAbove(a: real, d: real, t: real)
    requires d > 0.0 && a > t * d
    ensures a / d > t
  {
    assert a / d * d == a;
    assert (a / d - t) * d > 0.0;
  }

  /** A player who has not moved keeps the id: a box equal to the stored
      box of a track, of area at least one square pixel and overlapping no
      other track, is given that track's id. */
  lemma StillPlayerKeepsId(s: Tables, id: int)
    requires ValidTables(s) && id in s.tracked && Area(s.tracked[id]) >= 1.0
    requires forall j :: j in s.tracked && j != id ==> Intersection(s.tracked[id], s.tracked[j]) == 0.0
    ensures Assign(s, s.tracked[id]).1 == id
  {
    var box := s.tracked[id];
    assert Intersection(box, box) == Area(box);
    var a, d := Area(box), IouDenominator(box, box);
    assert d == a + Epsilon;
    assert Iou(box, box) > IouThreshold by {
      assert Iou(box, box) == a / d;
      QuotientAbove(a, d, IouThreshold);
    }
    assert IsBestTrack(s.tracked, box, id);
    BestTrackUnique(s.tracked, box, id, Assign(s, box).1);
  }

  /** The assignment loop of `process_frame` from tables `s`: one `Assign`
      per kept detection, in order, and the ids they gave. */
  ghost function AssignAll(s: Tables, kept: seq<Detection>): (r: (Tables, seq<int>))
    requires ValidTables(s) && forall d :: d in kept ==> WellFormed(d.box)
    ensures ValidTables(r.0) && |r.1| == |kept|
  {
    if kept == [] then (s, [])
    else
      var p := AssignAll(s, kept[..|kept| - 1]);
      var q := Assign(p.0, kept[|kept| - 1].box);
      (q.0, p.1 + [q.1])
  }

  /** Assignment never deletes a track, only opens tracks at or above the
      old next id, and every id it gives is tracked afterwards. */
  lemma {:induction false} AssignAllFacts(s: Tables, kept: seq<Detection>)
    requires ValidTables(s) && forall d :: d in kept ==> WellFormed(d.box)
    ensures var r := AssignAll(s, kept);
      && r.0.nextId >= s.nextId
      && (forall id :: id in s.tracked ==> id in r.0.tracked)
      && (forall id :: id in r.0.tracked && id !in s.tracked ==> s.nextId <= id)
      && (forall k :: 0 <= k < |kept| ==> r.1[k] in r.0.tracked)
  {
    if kept != [] {
      var n := |kept| - 1;
      AssignAllFacts(s, kept[..n]);
      var p := AssignAll(s, kept[..n]);
      var q := Assign(p.0, kept[n].box);
      var r := AssignAll(s, kept);
      assert r.0 == q.0 && r.1 == p.1 + [q.1];
      forall k | 0 <= k < |kept| ensures r.1[k] in r.0.tracked {
        if k < n { assert r.1[k] == p.1[k]; }
      }
    }
  }

  /** The first detection at or above `threshold` with box `box`: the
      confidence the inner search of `process_frame` reports. */
  function FirstConfidence(detections: seq<Detection>, box: Box, threshold: real): (r: Option<real>)
    ensures r.None? <==> forall j :: 0 <= j < |detections| ==> !ReportsBox(detections[j], box, threshold)
    ensures r.Some? ==> r.value >= threshold && exists j :: FirstReport(detections, box, threshold, j) && detections[j].confidence == r.value
  {
    if detections == [] then None
    else if ReportsBox(detections[0], box, threshold) then
      assert FirstReport(detections, box, threshold, 0);
      Some(detections[0].confidence)
    else
      var r := FirstConfidence(detections[1..], box, threshold);
      assert r.Some? ==> exists j :: FirstReport(detections, box, threshold, j) && detections[j].confidence == r.value by {
        if r.Some? {
          var j :| FirstReport(detections[1..], box, threshold, j) && detections[1..][j].confidence == r.value;
          assert FirstReport(detections, box, threshold, j + 1);
        }
      }
      r
  }

  /** Detection `d` is one the inner search of `process_frame` accepts for `box`. */
  predicate ReportsBox(d: Detection, box: Box, threshold: real) {
    d.confidence >= threshold && d.box == box
  }

  /** Position `j` holds the first detection accepted for `box`. */
  predicate FirstReport(detections: seq<Detection>, box: Box, threshold: real, j: int) {
    && 0 <= j < |detections|
    && ReportsBox(detections[j], box, threshold)
    && forall i :: 0 <= i < j ==> !ReportsBox(detections[i], box, threshold)
  }

  /** The detections `process_frame` reports: each kept box with its id
      and the confidence of the first qualifying detection with that box;
      a box with none is not reported. */
  function Label(detections: seq<Detection>, threshold: real, kept: seq<Detection>, ids: seq<int>): (r: seq<TrackedDetection>)
    requires |ids| == |kept|
    ensures |r| <= |kept|
  {
    if kept == [] then []
    else
      var n := |kept| - 1;
      Label(detections, threshold, kept[..n], ids[..n]) +
        match FirstConfidence(detections, kept[n].box, threshold)
        case Some(c) => [TrackedDetection(kept[n].box, c, ids[n])]
        case None => []
  }

  /** When every kept box has a qualifying detection, every box is
      reported, in order, with its own id. */
  lemma {:induction false} LabelAll(detections: seq<Detection>, threshold: real, kept: seq<Detection>, ids: seq<int>)
    requires |ids| == |kept|
    requires forall k :: 0 <= k < |kept| ==> FirstConfidence(detections, kept[k].box, threshold).Some?
    ensures var r := Label(detections, threshold, kept, ids);
      && |r| == |kept|
      && forall k :: 0 <= k < |kept| ==>
           r[k] == TrackedDetection(kept[k].box, FirstConfidence(detections, kept[k].box, threshold).value, ids[k])
  {
    if kept != [] {
      var n := |kept| - 1;
      LabelAll(detections, threshold, kept[..n], ids[..n]);
      var p := Label(detections, threshold, kept[..n], ids[..n]);
      var r := Label(detections, threshold, kept, ids);
      assert r == p + [TrackedDetection(kept[n].box, FirstConfidence(detections, kept[n].box, threshold).value, ids[n])];
    }
  }

  /** `process_frame` on the tables, given the detector's output: the
      cleanup, then the assignment of every qualifying box. */
  ghost function FrameResult(s: Tables, detections: seq<Detection>, threshold: real): (r: (Tables, seq<TrackedDetection>))
    requires ValidTables(s) && forall d :: d in detections ==> WellFormed(d.box)
    ensures ValidTables(r.0)
  {
    var kept := Qualifying(detections, threshold);
    var a := AssignAll(Cleanup(s), kept);
    (a.0, Label(detections, threshold, kept, a.1))
  }

  /** One frame reports every qualifying box, in order, with a confidence
      at or above the threshold and a tracked id; ids only grow, new
      tracks take ids at or above the old next id, and stale tracks are
      gone. */
  lemma FrameResultFacts(s: Tables, detections: seq<Detection>, threshold: real)
    requires ValidTables(s) && forall d :: d in detections ==> WellFormed(d.box)
    ensures var r := FrameResult(s, detections, threshold);
      var kept := Qualifying(detections, threshold);
      && |r.1| == |kept|
      && (forall k :: 0 <= k < |r.1| ==>
            r.1[k].box == kept[k].box && r.1[k].confidence >= threshold && r.1[k].id in r.0.tracked)
      && r.0.nextId >= s.nextId
      && (forall id :: id in r.0.tracked && id !in s.tracked ==> s.nextId <= id)
      && (forall id :: id in s.tracked && s.missing[id] > MaxFramesMissing ==> id !in r.0.tracked)
  {
    var kept := Qualifying(detections, threshold);
    var c := Cleanup(s);
    var a := AssignAll(c, kept);
    AssignAllFacts(c, kept);
    forall k | 0 <= k < |kept| ensures FirstConfidence(detections, kept[k].box, threshold).Some? {
      assert kept[k] in kept;
      QualifyingHasSource(detections, threshold, k);
    }
    LabelAll(detections, threshold, kept, a.1);
  }

  /** `process_video` given the detector's output for each frame: from the
      reset tables, every frame in turn; the reports of all frames, in
      order. */
  ghost function VideoResult(frames: seq<seq<Detection>>, threshold: real): (r: (Tables, seq<TrackedDetection>))
    requires forall f, d :: f in frames && d in f ==> WellFormed(d.box)
    ensures ValidTables(r.0)
  {
    if frames == [] then (Fresh, [])
    else
      var p := VideoResult(frames[..|frames| - 1], threshold);
      var q := FrameResult(p.0, frames[|frames| - 1], threshold);
      (q.0, p.1 + q.1)
  }

  /** Every id reported over a video is below the final next id, and every
      confidence is at or above the threshold. */
  lemma {:induction false} VideoResultFacts(frames: seq<seq<Detection>>, threshold: real)
    requires forall f, d :: f in frames && d in f ==> WellFormed(d.box)
    ensures var r := VideoResult(frames, threshold);
      forall d :: d in r.1 ==> 0 <= d.id < r.0.nextId && d.confidence >= threshold
  {
    if frames != [] {
      var n := |frames| - 1;
      VideoResultFacts(frames[..n], threshold);
      var p := VideoResult(frames[..n], threshold);
      var q := FrameResult(p.0, frames[n], threshold);
      FrameResultFacts(p.0, frames[n], threshold);
      forall d | d in q.1 ensures 0 <= d.id < q.0.nextId && d.confidence >= threshold {
        var k :| 0 <= k < |q.1| && q.1[k] == d;
        assert d.id in q.0.tracked && d.id in q.0.order;
      }
    }
  }

  /** The tracking state of `PlayerYoloDetector`. Both dictionaries share
      one key order, `order`: a key keeps its place when its value is
      replaced, new keys go last, deleted keys drop out. */
  class Tracker {
    var nextId: int
    var order: seq<int>
    var tracked: map<int, Box>
    var missing: map<int, int>

    ghost predicate Valid()
      reads this
    {
      TrackerInv(nextId, order, tracked, missing)
    }

    /** The four fields as one value. */
    function State(): Tables
      reads this
    {
      Tables(nextId, order, tracked, missing)
    }

    constructor ()
      ensures Valid()
      ensures nextId == 0 && order == [] && tracked == map[] && missing == map[]
    {
      nextId := 0;
      order := [];
      tracked := map[];
      missing := map[];
    }

    /** The reset at the start of `process_video`. */
    method Reset()
      modifies this
      ensures Valid()
      ensures State() == Fresh
    {
      nextId := 0;
      order := [];
      tracked := map[];
      missing := map[];
    }

    /** `_assign_player_id`: the best track (IoU above 0.3; among the
        largest IoUs, the smallest id) takes the box and has its counter
        reset; without one, the box opens a track with id `nextId`. */
    method AssignId(box: Box) returns (id: int)
      requires Valid() && WellFormed(box)
      modifies this
      ensures Valid()
      ensures old(NoTrackMatches(tracked, box)) ==>
        id == old(nextId) && id !in old(tracked) && nextId == old(nextId) + 1 && order == old(order) + [id]
      ensures !old(NoTrackMatches(tracked, box)) ==>
        old(IsBestTrack(tracked, box, id)) && nextId == old(nextId) && order == old(order)
      ensures tracked == old(tracked)[id := box]
      ensures missing == old(missing)[id := 0]
      ensures State() == Assign(old(State()), box).0 && id == Assign(old(State()), box).1
    {
      var best := FindBestMatch(order, tracked, box);
      if best.Some? {
        id := order[best.value];
        BestPositionIsBestTrack(order, tracked, box, best.value);
        BestTrackUnique(tracked, box, id, Assign(State(), box).1);
        InvAfterMatch(nextId, order, tracked, missing, id, box);
        tracked := tracked[id := box];
        missing := missing[id := 0];
      } else {
        NoMatchIsNoTrackMatches(order, tracked, box);
        InvAfterNew(nextId, order, tracked, missing, box);
        id := nextId;
        tracked := tracked[id := box];
        missing := missing[id := 0];
        order := order + [id];
        nextId := nextId + 1;
      }
    }

    /** `_cleanup_missing_players`: deletes the tracks whose counter is
        above 10, then adds one to every remaining counter. */
    method CleanupMissingPlayers()
      requires Valid()
      modifies this
      ensures Valid()
      ensures nextId == old(nextId)
      ensures missing == CleanupCounters(old(missing))
      ensures forall id :: id in tracked ==> tracked[id] == old(tracked)[id]
      ensures State() == Cleanup(old(State()))
    {
      var stale := StaleIds(order, missing);
      var i := 0;
      while i < |stale|
        invariant 0 <= i <= |stale|
        invariant Valid() && nextId == old(nextId)
        invariant forall id :: id in tracked <==> id in old(tracked) && id !in stale[..i]
        invariant forall id :: id in tracked ==> tracked[id] == old(tracked)[id] && missing[id] == old(missing)[id]
      {
        var id := stale[i];
        assert stale[..i + 1] == stale[..i] + [id];
        InvAfterDelete(nextId, order, tracked, missing, id);
        order, tracked, missing := Without(order, id), tracked - {id}, missing - {id};
        assert TrackerInv(nextId, order, tracked, missing);
        i := i + 1;
      }
      assert stale[..i] == stale;
      assert forall id :: id in missing <==> id in old(missing) && old(missing)[id] <= MaxFramesMissing;
      IncrementAll(nextId, order, tracked, missing);
      ghost var kept := missing;
      missing := map id | id in missing :: missing[id] + 1;
      assert missing == CleanupCounters(old(missing)) by {
        ghost var expected := CleanupCounters(old(missing));
        assert missing.Keys == expected.Keys;
        assert forall id :: id in missing ==> missing[id] == kept[id] + 1 == expected[id];
      }
      CleanupDetermined(old(State()), State());
    }

    /** `process_frame` with the detector's output given: cleanup first,
        then an id for every box at or above `threshold`, in order; each
        box is reported with the confidence of the first qualifying
        detection with that box. */
    method ProcessFrame(detections: seq<Detection>, threshold: real) returns (out: seq<TrackedDetection>)
      requires Valid()
      requires forall d :: d in detections ==> WellFormed(d.box)
      modifies this
      ensures Valid()
      ensures State() == FrameResult(old(State()), detections, threshold).0
      ensures out == FrameResult(old(State()), detections, threshold).1
    {
      CleanupMissingPlayers();
      ghost var start := State();
      var kept := Qualifying(detections, threshold);
      out := [];
      var i := 0;
      while i < |kept|
        invariant 0 <= i <= |kept|
        invariant Valid()
        invariant State() == AssignAll(start, kept[..i]).0
        invariant out == Label(detections, threshold, kept[..i], AssignAll(start, kept[..i]).1)
      {
        var box := kept[i].box;
        AssignAllStep(start, kept, i);
        var id := AssignId(box);
        var conf := LookupConfidence(detections, box, threshold);
        LabelStep(detections, threshold, kept, AssignAll(start, kept[..i + 1]).1, i);
        if conf.Some? {
          out := out + [TrackedDetection(box, conf.value, id)];
        }
        i := i + 1;
      }
      assert kept[..i] == kept;
    }

    /** `process_video` with the detector's output for each frame given:
        the tables are reset, then every frame is processed in turn. */
    method ProcessVideo(frames: seq<seq<Detection>>, threshold: real) returns (all: seq<TrackedDetection>)
      requires forall f, d :: f in frames && d in f ==> WellFormed(d.box)
      modifies this
      ensures Valid()
      ensures State() == VideoResult(frames, threshold).0
      ensures all == VideoResult(frames, threshold).1
    {
      Reset();
      all := [];
      var i := 0;
      while i < |frames|
        invariant 0 <= i <= |frames|
        invariant Valid()
        invariant State() == VideoResult(frames[..i], threshold).0
        invariant all == VideoResult(frames[..i], threshold).1
      {
        assert frames[..i + 1][..i] == frames[..i];
        var out := ProcessFrame(frames[i], threshold);
        all := all + out;
        i := i + 1;
      }
      assert frames[..i] == frames;
    }
  }

  /** One more turn of the assignment loop. */
  lemma AssignAllStep(s: Tables, kept: seq<Detection>, i: int)
    requires ValidTables(s) && forall d :: d in kept ==> WellFormed(d.box)
    requires 0 <= i < |kept|
    ensures var p := AssignAll(s, kept[..i]);
      var q := Assign(p.0, kept[i].box);
      AssignAll(s, kept[..i + 1]) == (q.0, p.1 + [q.1])
  {
    assert kept[..i + 1][..i] == kept[..i];
  }

  /** One more turn of the reporting loop. */
  lemma LabelStep(detections: seq<Detection>, threshold: real, kept: seq<Detection>, ids: seq<int>, i: int)
    requires 0 <= i < |kept| && |ids| == i + 1
    ensures Label(detections, threshold, kept[..i + 1], ids) ==
      Label(detections, threshold, kept[..i], ids[..i]) +
        match FirstConfidence(detections, kept[i].box, threshold)
        case Some(c) => [TrackedDetection(kept[i].box, c, ids[i])]
        case None => []
  {
    assert kept[..i + 1][..i] == kept[..i];
  }

  /** After deleting the stale tracks every counter is at most 10, so the
      increment keeps the invariant. */
  lemma IncrementAll(nextId: int, order: seq<int>, tracked: map<int, Box>, missing: map<int, int>)
    requires TrackerInv(nextId, order, tracked, missing)
    requires forall id :: id in missing ==> missing[id] <= MaxFramesMissing
    ensures TrackerInv(nextId, order, tracked, map id | id in missing :: missing[id] + 1)
  {
  }

  /** The detections at or above `threshold`, in order: the list
      `current_frame_detections`. */
  function Qualifying(detections: seq<Detection>, threshold: real): (r: seq<Detection>)
    ensures |r| <= |detections|
    ensures forall d :: d in r ==> d in detections && d.confidence >= threshold
    ensures forall d :: d in detections && d.confidence >= threshold ==> d in r
  {
    if detections == [] then []
    else (if detections[0].confidence >= threshold then [detections[0]] else [])
         + Qualifying(detections[1..], threshold)
  }

  /** The filter keeps the input's order and its repeats: filtering a
      concatenation is concatenating the filtered parts, and a single
      detection is kept exactly when it reaches the threshold. */
  lemma {:induction false} QualifyingAppend(a: seq<Detection>, b: seq<Detection>, threshold: real)
    ensures Qualifying(a + b, threshold) == Qualifying(a, threshold) + Qualifying(b, threshold)
    ensures |a| == 1 ==> Qualifying(a, threshold) == if a[0].confidence >= threshold then a else []
  {
    if a != [] {
      var head := if a[0].confidence >= threshold then [a[0]] else [];
      assert (a + b)[0] == a[0] && (a + b)[1..] == a[1..] + b;
      QualifyingAppend(a[1..], b, threshold);
      calc {
        Qualifying(a + b, threshold);
        head + Qualifying(a[1..] + b, threshold);
        head + (Qualifying(a[1..], threshold) + Qualifying(b, threshold));
        (head + Qualifying(a[1..], threshold)) + Qualifying(b, threshold);
      }
    } else {
      assert a + b == b;
    }
    if |a| == 1 {
      assert Qualifying(a[1..], threshold) == [];
    }
  }

  lemma QualifyingHasSource(detections: seq<Detection>, threshold: real, k: int)
    requires 0 <= k < |Qualifying(detections, threshold)|
    ensures exists j :: 0 <= j < |detections| && detections[j] == Qualifying(detections, threshold)[k]
  {
    assert Qualifying(detections, threshold)[k] in detections;
  }

  /** The inner search of `process_frame`: the confidence of the first
      detection at or above `threshold` whose box equals `box`. */
  method LookupConfidence(detections: seq<Detection>, box: Box, threshold: real) returns (conf: Option<real>)
    ensures conf == FirstConfidence(detections, box, threshold)
  {
    conf := None;
    var j := 0;
    while j < |detections|
      invariant 0 <= j <= |detections|
      invariant FirstConfidence(detections[j..], box, threshold) == FirstConfidence(detections, box, threshold)
    {
      if detections[j].confidence >= threshold && detections[j].box == box {
        conf := Some(detections[j].confidence);
        return;
      }
      j := j + 1;
    }
  }
}
