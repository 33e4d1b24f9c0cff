/** The proximity hit counter: a player hits the ball when the nearest ball
    box is close enough to its own box, with a per-player cooldown, and the
    hits of a video are tallied per player. */
module MatchProcessing {
  import opened Wrappers
  import opened Geometry

  /** A hit needs a ball centre closer than this many pixels. */
  const HitDistanceThreshold: real := 80.0
  /** Distances are compared squared; see `CenterDistance`. */
  const ThresholdSquared: real := HitDistanceThreshold * HitDistanceThreshold
  /** Frames a player must wait after a hit before it can hit again. */
  const MinFramesBetweenHits: int := 10

  /** One detector result: its class id, its confidence and its box. */
  datatype Detection = Detection(classId: string, confidence: real, box: seq<real>)

  datatype HitEvent = HitEvent(
    playerId: string,
    frameNumber: int,
    timestamp: real,
    playerConfidence: real,
    ballConfidence: real,
    playerBox: seq<real>,
    ballBox: seq<real>)

  /** The statistics of a match; the per-player counts keep the insertion
      order of the dictionary they model. */
  datatype MatchStatistics = MatchStatistics(
    totalHits: int,
    hitsPerPlayer: seq<(string, int)>,
    totalFrames: int,
    videoDuration: real,
    fps: real)

  const FreshStatistics: MatchStatistics := MatchStatistics(0, [], 0, 0.0, 0.0)

  /** What the detectors make of one frame read from the video. */
  datatype FrameInput =
    | NoFrame
    | DetectorFailure
    | Detections(players: seq<Detection>, balls: seq<Detection>)

  // ---------------------------------------------------------------------------
  // Distances
  // ---------------------------------------------------------------------------

  function BoxCenter(box: seq<real>): Point
    requires |box| == 4
  {
    Point((box[0] + box[2]) / 2.0, (box[1] + box[3]) / 2.0)
  }

  /** The distance between the centres of a player box and a ball box:
      infinite unless both have four coordinates. It is kept squared: the
      square root is increasing on non-negative reals, so every comparison
      below orders squared distances exactly as the Euclidean ones. */
  function CenterDistance(playerBox: seq<real>, ballBox: seq<real>): (d: Extended)
    ensures d.Infinity? <==> |playerBox| != 4 || |ballBox| != 4
    ensures d.Finite? ==> d.r >= 0.0
  {
    if |playerBox| != 4 || |ballBox| != 4 then Infinity
    else
      var p := BoxCenter(playerBox);
      var b := BoxCenter(ballBox);
      MulSigns(p.x - b.x, p.x - b.x);
      MulSigns(p.y - b.y, p.y - b.y);
      Finite(Mul(p.x - b.x, p.x - b.x) + Mul(p.y - b.y, p.y - b.y))
  }

  /** The distance does not depend on the order of the boxes, and a box is
      at distance 0 from itself. */
  lemma CenterDistanceSymmetric(a: seq<real>, b: seq<real>)
    ensures CenterDistance(a, b) == CenterDistance(b, a)
    ensures |a| == 4 ==> CenterDistance(a, a) == Finite(0.0)
  {
    if |a| == 4 && |b| == 4 {
      var p := BoxCenter(a);
      var q := BoxCenter(b);
      MulSigns(p.x - q.x, p.x - q.x);
      MulSigns(p.y - q.y, p.y - q.y);
      assert q.x - p.x == -(p.x - q.x) && q.y - p.y == -(p.y - q.y);
    }
  }

  /** The ball nearest to a player box: the first one strictly closer than
      every earlier one, never a ball at infinite distance. */
  function Nearest(box: seq<real>, balls: seq<Detection>): (r: Option<nat>)
    ensures r.Some? ==> r.value < |balls| && CenterDistance(box, balls[r.value].box).Finite?
    ensures r.Some? ==> forall j :: 0 <= j < |balls| ==>
      !CenterDistance(box, balls[j].box).Less(CenterDistance(box, balls[r.value].box))
    ensures r.Some? ==> forall j :: 0 <= j < r.value ==>
      CenterDistance(box, balls[r.value].box).Less(CenterDistance(box, balls[j].box))
    ensures r.None? <==> forall j :: 0 <= j < |balls| ==> CenterDistance(box, balls[j].box).Infinity?
  {
    if |balls| == 0 then None
    else
      var k := Nearest(box, balls[..|balls| - 1]);
      var last := |balls| - 1;
      var d := CenterDistance(box, balls[last].box);
      if k.None? then (if d.Finite? then Some(last) else None)
      else if d.Less(CenterDistance(box, balls[k.value].box)) then Some(last)
      else k
  }

  /** `Nearest` over one more ball: the new ball wins when it is finite and
      strictly closer than the nearest so far. */
  lemma NearestSnoc(box: seq<real>, balls: seq<Detection>, i: nat)
    requires i < |balls|
    ensures var k, d := Nearest(box, balls[..i]), CenterDistance(box, balls[i].box);
      Nearest(box, balls[..i + 1]) ==
        if k.None? then (if d.Finite? then Some(i) else None)
        else if d.Less(CenterDistance(box, balls[k.value].box)) then Some(i)
        else k
  {
    assert balls[..i + 1][..i] == balls[..i];
  }

  /** The inner loop of the hit detector: the nearest ball and its
      distance, infinite when there is none. */
  method NearestBall(box: seq<real>, balls: seq<Detection>) returns (best: Extended, index: Option<nat>)
    ensures index == Nearest(box, balls)
    ensures index.None? ==> best == Infinity
    ensures index.Some? ==> best == CenterDistance(box, balls[index.value].box)
  {
    best := Infinity;
    index := None;
    var i := 0;
    while i < |balls|
      invariant 0 <= i <= |balls|
      invariant index == Nearest(box, balls[..i])
      invariant index.None? ==> best == Infinity
      invariant index.Some? ==> index.value < i && best == CenterDistance(box, balls[index.value].box)
    {
      NearestSnoc(box, balls, i);
      var d := CenterDistance(box, balls[i].box);
      if d.Less(best) {
        best := d;
        index := Some(i);
      }
      i := i + 1;
    }
    assert balls[..i] == balls;
  }

  // ---------------------------------------------------------------------------
  // Hits within one frame
  // ---------------------------------------------------------------------------

  /** A player is still cooling down after its last hit. */
  predicate Cooling(last: map<string, int>, id: string, frame: int) {
    id in last && frame - last[id] < MinFramesBetweenHits
  }

  /** One player of the frame: skipped while cooling down, a hit when the
      nearest ball is close enough. */
  function PlayerStep(state: (seq<HitEvent>, map<string, int>), p: Detection, balls: seq<Detection>,
                      frame: int, timestamp: real): (seq<HitEvent>, map<string, int>)
  {
    if Cooling(state.1, p.classId, frame) then state
    else
      var k := Nearest(p.box, balls);
      if k.Some? && CenterDistance(p.box, balls[k.value].box).Less(Finite(ThresholdSquared)) then
        var ball := balls[k.value];
        (state.0 + [HitEvent(p.classId, frame, timestamp, p.confidence, ball.confidence, p.box, ball.box)],
         state.1[p.classId := frame])
      else state
  }

  /** The hits of a frame and the last-hit table after it, from the
      players in detection order. */
  function FrameHits(last: map<string, int>, players: seq<Detection>, balls: seq<Detection>,
                     frame: int, timestamp: real): (seq<HitEvent>, map<string, int>)
  {
    if players == [] then ([], last)
    else PlayerStep(FrameHits(last, players[..|players| - 1], balls, frame, timestamp),
                    players[|players| - 1], balls, frame, timestamp)
  }

  predicate HitBy(hits: seq<HitEvent>, id: string) {
    exists k :: 0 <= k < |hits| && hits[k].playerId == id
  }

  /** The last-hit table after a frame holds this frame for the players
      that hit and the old entry for the rest. */
  lemma {:induction false} FrameHitsTable(last0: map<string, int>, players: seq<Detection>, balls: seq<Detection>,
                                          frame: int, timestamp: real)
    ensures var r := FrameHits(last0, players, balls, frame, timestamp);
      && (forall id :: id in r.1 <==> id in last0 || HitBy(r.0, id))
      && (forall id :: id in r.1 ==> r.1[id] == if HitBy(r.0, id) then frame else last0[id])
  {
    if players != [] {
      var init := players[..|players| - 1];
      var p := players[|players| - 1];
      FrameHitsTable(last0, init, balls, frame, timestamp);
      var (hits, last) := FrameHits(last0, init, balls, frame, timestamp);
      if !Cooling(last, p.classId, frame) {
        var k := Nearest(p.box, balls);
        if k.Some? && CenterDistance(p.box, balls[k.value].box).Less(Finite(ThresholdSquared)) {
          var ball := balls[k.value];
          var e := HitEvent(p.classId, frame, timestamp, p.confidence, ball.confidence, p.box, ball.box);
          var hits' := hits + [e];
          forall id ensures HitBy(hits', id) <==> HitBy(hits, id) || id == p.classId {
            if HitBy(hits', id) {
              var j :| 0 <= j < |hits'| && hits'[j].playerId == id;
              if j < |hits| { assert hits[j].playerId == id; }
            }
            if HitBy(hits, id) {
              var j :| 0 <= j < |hits| && hits[j].playerId == id;
              assert hits'[j].playerId == id;
            }
            if id == p.classId { assert hits'[|hits|].playerId == id; }
          }
        }
      }
    }
  }

  /** A player that hit earlier in the frame is cooling down, and one that
      has not is cooling down exactly when it was before the frame. */
  lemma CoolingInFrame(last0: map<string, int>, players: seq<Detection>, balls: seq<Detection>,
                       frame: int, timestamp: real, id: string)
    ensures var r := FrameHits(last0, players, balls, frame, timestamp);
      && (HitBy(r.0, id) ==> Cooling(r.1, id, frame))
      && (!HitBy(r.0, id) ==> (Cooling(r.1, id, frame) <==> Cooling(last0, id, frame)))
  {
    FrameHitsTable(last0, players, balls, frame, timestamp);
    var r := FrameHits(last0, players, balls, frame, timestamp);
    if HitBy(r.0, id) {
      assert r.1[id] == frame;
    }
  }

  /** Every hit of a frame is stamped with the frame, is close enough, and
      belongs to a player that was not cooling down when the frame began. */
  lemma {:induction false} FrameHitsStamped(last0: map<string, int>, players: seq<Detection>, balls: seq<Detection>,
                                            frame: int, timestamp: real)
    ensures var hits := FrameHits(last0, players, balls, frame, timestamp).0;
      forall k :: 0 <= k < |hits| ==>
        && hits[k].frameNumber == frame && hits[k].timestamp == timestamp
        && CenterDistance(hits[k].playerBox, hits[k].ballBox).Less(Finite(ThresholdSquared))
        && !Cooling(last0, hits[k].playerId, frame)
  {
    if players != [] {
      var init := players[..|players| - 1];
      var p := players[|players| - 1];
      FrameHitsStamped(last0, init, balls, frame, timestamp);
      var r := FrameHits(last0, init, balls, frame, timestamp);
      var hits := FrameHits(last0, players, balls, frame, timestamp).0;
      if |hits| != |r.0| {
        CoolingInFrame(last0, init, balls, frame, timestamp, p.classId);
        assert forall k :: 0 <= k < |r.0| ==> hits[k] == r.0[k];
      }
    }
  }

  /** No player hits twice in one frame. */
  lemma {:induction false} FrameHitsOncePerPlayer(last0: map<string, int>, players: seq<Detection>, balls: seq<Detection>,
                                                  frame: int, timestamp: real)
    ensures var hits := FrameHits(last0, players, balls, frame, timestamp).0;
      forall k, m :: 0 <= k < m < |hits| ==> hits[k].playerId != hits[m].playerId
  {
    if players != [] {
      var init := players[..|players| - 1];
      var p := players[|players| - 1];
      FrameHitsOncePerPlayer(last0, init, balls, frame, timestamp);
      var r := FrameHits(last0, init, balls, frame, timestamp);
      var hits := FrameHits(last0, players, balls, frame, timestamp).0;
      if |hits| != |r.0| {
        CoolingInFrame(last0, init, balls, frame, timestamp, p.classId);
        assert forall k :: 0 <= k < |r.0| ==> hits[k] == r.0[k] && r.0[k].playerId != p.classId;
      }
    }
  }

  /** Every hit of a frame is stamped with the frame, is close enough, and
      belongs to a player that was not cooling down when the frame began;
      no player hits twice in one frame; and the table afterwards holds
      this frame for the players that hit and the old entry for the rest. */
  lemma FrameHitsFacts(last0: map<string, int>, players: seq<Detection>, balls: seq<Detection>,
                       frame: int, timestamp: real)
    ensures var (hits, last) := FrameHits(last0, players, balls, frame, timestamp);
      && (forall k :: 0 <= k < |hits| ==>
            && hits[k].frameNumber == frame && hits[k].timestamp == timestamp
            && CenterDistance(hits[k].playerBox, hits[k].ballBox).Less(Finite(ThresholdSquared))
            && !Cooling(last0, hits[k].playerId, frame))
      && (forall k, m :: 0 <= k < m < |hits| ==> hits[k].playerId != hits[m].playerId)
      && (forall id :: id in last <==> id in last0 || HitBy(hits, id))
      && (forall id :: id in last ==> last[id] == if HitBy(hits, id) then frame else last0[id])
  {
    FrameHitsStamped(last0, players, balls, frame, timestamp);
    FrameHitsOncePerPlayer(last0, players, balls, frame, timestamp);
    FrameHitsTable(last0, players, balls, frame, timestamp);
  }

  /** With no ball detected, a frame has no hits and changes nothing. */
  lemma {:induction false} NoBallNoHit(last0: map<string, int>, players: seq<Detection>, frame: int, timestamp: real)
    ensures FrameHits(last0, players, [], frame, timestamp) == ([], last0)
  {
    if players != [] {
      NoBallNoHit(last0, players[..|players| - 1], frame, timestamp);
    }
  }

  /** The hits of a prefix of the players stay at the front. */
  lemma {:induction false} FrameHitsGrow(last0: map<string, int>, players: seq<Detection>, balls: seq<Detection>,
                                         frame: int, timestamp: real, n: nat)
    requires n <= |players|
    ensures var before := FrameHits(last0, players[..n], balls, frame, timestamp).0;
            var after := FrameHits(last0, players, balls, frame, timestamp).0;
            |before| <= |after| && after[..|before|] == before
    decreases |players| - n
  {
    if n == |players| {
      assert players[..n] == players;
    } else {
      var init := players[..|players| - 1];
      assert init[..n] == players[..n];
      FrameHitsGrow(last0, init, balls, frame, timestamp, n);
    }
  }

  /** A player seen for the first time in the frame, not cooling down, and
      whose nearest ball is close enough, hits. */
  lemma FirstCloseApproachHits(last0: map<string, int>, players: seq<Detection>, balls: seq<Detection>,
                               frame: int, timestamp: real, i: nat)
    requires i < |players|
    requires forall j :: 0 <= j < i ==> players[j].classId != players[i].classId
    requires !Cooling(last0, players[i].classId, frame)
    requires Nearest(players[i].box, balls).Some?
    requires CenterDistance(players[i].box, balls[Nearest(players[i].box, balls).value].box).Less(Finite(ThresholdSquared))
    ensures var hits := FrameHits(last0, players, balls, frame, timestamp).0;
      exists k :: 0 <= k < |hits| && hits[k].playerId == players[i].classId && hits[k].playerBox == players[i].box
  {
    var p := players[i];
    var upTo := players[..i + 1];
    var init := players[..i];
    assert upTo[..i] == init;
    FrameHitsFacts(last0, init, balls, frame, timestamp);
    var (hits, last) := FrameHits(last0, init, balls, frame, timestamp);
    if HitBy(hits, p.classId) {
      var k :| 0 <= k < |hits| && hits[k].playerId == p.classId;
      FrameHitsPlayers(last0, init, balls, frame, timestamp, k);
      assert false;
    }
    assert !Cooling(last, p.classId, frame);
    var after := FrameHits(last0, upTo, balls, frame, timestamp).0;
    assert after[|hits|].playerId == p.classId && after[|hits|].playerBox == p.box;
    FrameHitsGrow(last0, players, balls, frame, timestamp, i + 1);
  }

  /** `hit` is the event player `p` makes: its id, confidence and box, and
      the confidence and box of its nearest ball. */
  predicate IsHitOf(hit: HitEvent, p: Detection, balls: seq<Detection>) {
    && hit.playerId == p.classId && hit.playerConfidence == p.confidence && hit.playerBox == p.box
    && Nearest(p.box, balls).Some?
    && hit.ballConfidence == balls[Nearest(p.box, balls).value].confidence
    && hit.ballBox == balls[Nearest(p.box, balls).value].box
  }

  /** Each hit of a frame comes from one of its player detections and
      records that player's nearest ball. */
  lemma {:induction false} FrameHitsPlayers(last0: map<string, int>, players: seq<Detection>, balls: seq<Detection>,
                                            frame: int, timestamp: real, k: nat)
    requires k < |FrameHits(last0, players, balls, frame, timestamp).0|
    ensures var hit := FrameHits(last0, players, balls, frame, timestamp).0[k];
      exists j :: 0 <= j < |players| && IsHitOf(hit, players[j], balls)
  {
    var init := players[..|players| - 1];
    var before := FrameHits(last0, init, balls, frame, timestamp).0;
    var hits := FrameHits(last0, players, balls, frame, timestamp).0;
    if k < |before| {
      FrameHitsGrow(last0, players, balls, frame, timestamp, |players| - 1);
      FrameHitsPlayers(last0, init, balls, frame, timestamp, k);
      var j :| 0 <= j < |init| && IsHitOf(before[k], init[j], balls);
      assert players[j] == init[j];
    } else {
      assert IsHitOf(hits[k], players[|players| - 1], balls);
    }
  }

  // ---------------------------------------------------------------------------
  // Hits over a video
  // ---------------------------------------------------------------------------

  /** The timestamp of a frame: its number over the frame rate, or 0 when
      the rate is not positive. */
  function Timestamp(frame: int, fps: real): (t: real)
    ensures fps > 0.0 ==> t * fps == frame as real
    ensures fps <= 0.0 ==> t == 0.0
  {
    if fps > 0.0 then frame as real / fps else 0.0
  }

  /** The hits of one frame read from the video. */
  function FrameOutcome(last: map<string, int>, input: FrameInput, frame: int, fps: real): (seq<HitEvent>, map<string, int>)
  {
    match input
    case Detections(players, balls) => FrameHits(last, players, balls, frame, Timestamp(frame, fps))
    case _ => ([], last)
  }

  /** The events and the last-hit table after the first `k` frames,
      starting from an empty table. */
  function VideoHits(frames: seq<FrameInput>, fps: real, k: nat): (seq<HitEvent>, map<string, int>)
    requires k <= |frames|
  {
    if k == 0 then ([], map[])
    else
      var before := VideoHits(frames, fps, k - 1);
      var now := FrameOutcome(before.1, frames[k - 1], k - 1, fps);
      (before.0 + now.0, now.1)
  }

  lemma HitByAppend(a: seq<HitEvent>, b: seq<HitEvent>, id: string)
    ensures HitBy(a + b, id) <==> HitBy(a, id) || HitBy(b, id)
  {
    var all := a + b;
    if HitBy(all, id) {
      var j :| 0 <= j < |all| && all[j].playerId == id;
      if j < |a| { assert a[j].playerId == id; } else { assert b[j - |a|].playerId == id; }
    }
    if HitBy(a, id) {
      var j :| 0 <= j < |a| && a[j].playerId == id;
      assert all[j].playerId == id;
    }
    if HitBy(b, id) {
      var j :| 0 <= j < |b| && b[j].playerId == id;
      assert all[|a| + j].playerId == id;
    }
  }

  /** One more frame: its hits are appended, are stamped with the frame,
      come from players not cooling down, are by distinct players, and
      update the table. */
  lemma VideoStep(frames: seq<FrameInput>, fps: real, k: nat)
    requires 0 < k <= |frames|
    ensures var (events, last) := VideoHits(frames, fps, k - 1);
            var (hits, last') := FrameOutcome(last, frames[k - 1], k - 1, fps);
      && VideoHits(frames, fps, k) == (events + hits, last')
      && (forall e :: 0 <= e < |hits| ==> hits[e].frameNumber == k - 1 && !Cooling(last, hits[e].playerId, k - 1))
      && (forall a, b :: 0 <= a < b < |hits| ==> hits[a].playerId != hits[b].playerId)
      && (forall id :: id in last' <==> id in last || HitBy(hits, id))
      && (forall id :: id in last' ==> last'[id] == if HitBy(hits, id) then k - 1 else last[id])
  {
    var before := VideoHits(frames, fps, k - 1);
    var now := FrameOutcome(before.1, frames[k - 1], k - 1, fps);
    if frames[k - 1].Detections? {
      var players, balls := frames[k - 1].players, frames[k - 1].balls;
      assert now == FrameHits(before.1, players, balls, k - 1, Timestamp(k - 1, fps));
      FrameHitsStamped(before.1, players, balls, k - 1, Timestamp(k - 1, fps));
      FrameHitsOncePerPlayer(before.1, players, balls, k - 1, Timestamp(k - 1, fps));
      FrameHitsTable(before.1, players, balls, k - 1, Timestamp(k - 1, fps));
    } else {
      assert now == ([], before.1);
      assert forall id :: !HitBy(now.0, id);
    }
  }

  /** Events come in frame order and lie within the frames read. */
  lemma {:induction false} VideoHitsInOrder(frames: seq<FrameInput>, fps: real, k: nat)
    requires k <= |frames|
    ensures var events := VideoHits(frames, fps, k).0;
      && (forall e :: 0 <= e < |events| ==> 0 <= events[e].frameNumber < k)
      && (forall a, b :: 0 <= a < b < |events| ==> events[a].frameNumber <= events[b].frameNumber)
  {
    if k > 0 {
      VideoHitsInOrder(frames, fps, k - 1);
      VideoStep(frames, fps, k);
      var events := VideoHits(frames, fps, k - 1).0;
      var all := VideoHits(frames, fps, k).0;
      assert forall e :: 0 <= e < |events| ==> all[e] == events[e];
    }
  }

  /** The table holds exactly the players that hit, each at a frame no
      earlier than any of its hits. */
  lemma {:induction false} VideoHitsTable(frames: seq<FrameInput>, fps: real, k: nat)
    requires k <= |frames|
    ensures var (events, last) := VideoHits(frames, fps, k);
      && (forall id :: id in last <==> HitBy(events, id))
      && (forall e :: 0 <= e < |events| ==> events[e].playerId in last && events[e].frameNumber <= last[events[e].playerId])
  {
    if k > 0 {
      VideoHitsTable(frames, fps, k - 1);
      VideoHitsInOrder(frames, fps, k - 1);
      VideoStep(frames, fps, k);
      var (events, last) := VideoHits(frames, fps, k - 1);
      var (hits, last') := FrameOutcome(last, frames[k - 1], k - 1, fps);
      var all := events + hits;
      forall id ensures id in last' <==> HitBy(all, id) {
        HitByAppend(events, hits, id);
      }
      forall e | 0 <= e < |all|
        ensures all[e].playerId in last' && all[e].frameNumber <= last'[all[e].playerId]
      {
        if e >= |events| {
          var h := e - |events|;
          assert all[e] == hits[h];
          assert HitBy(hits, hits[h].playerId);
        } else {
          assert all[e] == events[e];
        }
      }
    }
  }

  /** Every entry of the table is the frame of a hit by that player, so
      with `VideoHitsTable` it is the player's latest hit frame. */
  lemma {:induction false} VideoHitsTableAttained(frames: seq<FrameInput>, fps: real, k: nat)
    requires k <= |frames|
    ensures var (events, last) := VideoHits(frames, fps, k);
      forall id :: id in last ==>
        exists e :: 0 <= e < |events| && events[e].playerId == id && events[e].frameNumber == last[id]
  {
    if k > 0 {
      VideoHitsTableAttained(frames, fps, k - 1);
      VideoStep(frames, fps, k);
      var (events, last) := VideoHits(frames, fps, k - 1);
      var (hits, last') := FrameOutcome(last, frames[k - 1], k - 1, fps);
      var all := events + hits;
      forall id | id in last'
        ensures exists e :: 0 <= e < |all| && all[e].playerId == id && all[e].frameNumber == last'[id]
      {
        if HitBy(hits, id) {
          var j :| 0 <= j < |hits| && hits[j].playerId == id;
          assert all[|events| + j] == hits[j];
        } else {
          var e :| 0 <= e < |events| && events[e].playerId == id && events[e].frameNumber == last[id];
          assert all[e] == events[e];
        }
      }
    }
  }

  /** Two hits by the same player are at least the cooldown apart. */
  lemma {:induction false} VideoHitsSpaced(frames: seq<FrameInput>, fps: real, k: nat)
    requires k <= |frames|
    ensures var events := VideoHits(frames, fps, k).0;
      forall a, b :: 0 <= a < b < |events| && events[a].playerId == events[b].playerId ==>
        events[b].frameNumber - events[a].frameNumber >= MinFramesBetweenHits
  {
    if k > 0 {
      VideoHitsSpaced(frames, fps, k - 1);
      VideoHitsTable(frames, fps, k - 1);
      VideoStep(frames, fps, k);
      var before := VideoHits(frames, fps, k - 1);
      var events, last := before.0, before.1;
      var hits := FrameOutcome(last, frames[k - 1], k - 1, fps).0;
      var all := VideoHits(frames, fps, k).0;
      assert all == events + hits;
      forall a, b | 0 <= a < b < |all| && all[a].playerId == all[b].playerId
        ensures all[b].frameNumber - all[a].frameNumber >= MinFramesBetweenHits
      {
        if b < |events| {
          assert all[a] == events[a] && all[b] == events[b];
        } else if a < |events| {
          assert all[a] == events[a] && all[b] == hits[b - |events|];
          assert events[a].frameNumber <= last[events[a].playerId];
          assert !Cooling(last, hits[b - |events|].playerId, k - 1);
        }
      }
    }
  }

  /** The hits of a whole video never have one player hit twice within the
      cooldown. */
  lemma HitsAreSpaced(frames: seq<FrameInput>, fps: real, a: nat, b: nat)
    requires a < b < |VideoHits(frames, fps, |frames|).0|
    requires VideoHits(frames, fps, |frames|).0[a].playerId == VideoHits(frames, fps, |frames|).0[b].playerId
    ensures VideoHits(frames, fps, |frames|).0[b].frameNumber - VideoHits(frames, fps, |frames|).0[a].frameNumber >= MinFramesBetweenHits
  {
    VideoHitsSpaced(frames, fps, |frames|);
  }

  // ---------------------------------------------------------------------------
  // Tallies
  // ---------------------------------------------------------------------------

  /** `dict.get(id, 0)` on the per-player counts. */
  function CountOf(entries: seq<(string, int)>, id: string): int {
    if entries == [] then 0
    else if entries[0].0 == id then entries[0].1
    else CountOf(entries[1..], id)
  }

  predicate HasKey(entries: seq<(string, int)>, id: string) {
    exists j :: 0 <= j < |entries| && entries[j].0 == id
  }

  predicate DistinctKeys(entries: seq<(string, int)>) {
    forall i, j :: 0 <= i < j < |entries| ==> entries[i].0 != entries[j].0
  }

  /** One more hit for `id`: its count goes up, or it is added at the end
      with a count of 1. */
  function Bump(entries: seq<(string, int)>, id: string): seq<(string, int)> {
    if entries == [] then [(id, 1)]
    else if entries[0].0 == id then [(id, entries[0].1 + 1)] + entries[1..]
    else [entries[0]] + Bump(entries[1..], id)
  }

  function CountSum(entries: seq<(string, int)>): int {
    if entries == [] then 0 else entries[0].1 + CountSum(entries[1..])
  }

  /** The counts after every event is added in order. */
  function Tally(entries: seq<(string, int)>, events: seq<HitEvent>): seq<(string, int)> {
    if events == [] then entries
    else Bump(Tally(entries, events[..|events| - 1]), events[|events| - 1].playerId)
  }

  /** The number of events of a player. */
  function HitsOf(events: seq<HitEvent>, id: string): nat {
    if events == [] then 0
    else HitsOf(events[..|events| - 1], id) + (if events[|events| - 1].playerId == id then 1 else 0)
  }

  lemma HasKeyCons(x: (string, int), s: seq<(string, int)>, other: string)
    ensures HasKey([x] + s, other) <==> x.0 == other || HasKey(s, other)
  {
    var t := [x] + s;
    if HasKey(s, other) {
      var j :| 0 <= j < |s| && s[j].0 == other;
      assert t[j + 1].0 == other;
    }
    if HasKey(t, other) && x.0 != other {
      var j :| 0 <= j < |t| && t[j].0 == other;
      assert s[j - 1].0 == other;
    }
    if x.0 == other {
      assert t[0].0 == other;
    }
  }

  /** A bump adds one to the bumped player's count and to the sum. */
  lemma {:induction false} BumpCounts(entries: seq<(string, int)>, id: string)
    ensures forall other :: CountOf(Bump(entries, id), other) == CountOf(entries, other) + (if other == id then 1 else 0)
    ensures CountSum(Bump(entries, id)) == CountSum(entries) + 1
  {
    if entries != [] && entries[0].0 != id {
      var rest := entries[1..];
      BumpCounts(rest, id);
      assert Bump(entries, id) == [entries[0]] + Bump(rest, id);
      assert Bump(entries, id)[1..] == Bump(rest, id);
    } else if entries != [] {
      assert Bump(entries, id)[1..] == entries[1..];
    }
  }

  /** The keys after a bump are the old keys and the bumped player. */
  lemma {:induction false} BumpKeys(entries: seq<(string, int)>, id: string)
    ensures forall other :: HasKey(Bump(entries, id), other) <==> HasKey(entries, other) || other == id
  {
    if entries != [] && entries[0].0 != id {
      var rest := entries[1..];
      BumpKeys(rest, id);
      var b := Bump(entries, id);
      assert b == [entries[0]] + Bump(rest, id);
      assert entries == [entries[0]] + rest;
      forall other ensures HasKey(b, other) <==> HasKey(entries, other) || other == id {
        HasKeyCons(entries[0], Bump(rest, id), other);
        HasKeyCons(entries[0], rest, other);
      }
    } else if entries != [] {
      var b := Bump(entries, id);
      assert forall j :: 0 <= j < |b| ==> b[j].0 == entries[j].0;
      forall other ensures HasKey(b, other) <==> HasKey(entries, other) || other == id {
        if HasKey(b, other) {
          var j :| 0 <= j < |b| && b[j].0 == other;
          assert entries[j].0 == other;
        }
        if HasKey(entries, other) {
          var j :| 0 <= j < |entries| && entries[j].0 == other;
          assert b[j].0 == other;
        }
      }
    } else {
      assert Bump(entries, id)[0].0 == id;
    }
  }

  /** A bump keeps the keys distinct. */
  lemma {:induction false} BumpDistinct(entries: seq<(string, int)>, id: string)
    requires DistinctKeys(entries)
    ensures DistinctKeys(Bump(entries, id))
  {
    if entries != [] && entries[0].0 != id {
      var rest := entries[1..];
      BumpDistinct(rest, id);
      BumpKeys(rest, id);
      var b := Bump(entries, id);
      assert b == [entries[0]] + Bump(rest, id);
      assert !HasKey(rest, entries[0].0);
      forall i, j | 0 <= i < j < |b| ensures b[i].0 != b[j].0 {
        if i == 0 {
          assert Bump(rest, id)[j - 1].0 == b[j].0;
          assert HasKey(Bump(rest, id), b[j].0);
        } else {
          assert Bump(rest, id)[i - 1].0 == b[i].0 && Bump(rest, id)[j - 1].0 == b[j].0;
        }
      }
    } else if entries != [] {
      var b := Bump(entries, id);
      assert forall j :: 0 <= j < |b| ==> b[j].0 == entries[j].0;
    }
  }

  /** A bump adds one to the bumped player and to the sum, keeps the keys
      distinct, and has the bumped player as a key. */
  lemma BumpFacts(entries: seq<(string, int)>, id: string)
    ensures forall other :: CountOf(Bump(entries, id), other) == CountOf(entries, other) + (if other == id then 1 else 0)
    ensures CountSum(Bump(entries, id)) == CountSum(entries) + 1
    ensures DistinctKeys(entries) ==> DistinctKeys(Bump(entries, id))
    ensures forall other :: HasKey(Bump(entries, id), other) <==> HasKey(entries, other) || other == id
  {
    BumpCounts(entries, id);
    BumpKeys(entries, id);
    if DistinctKeys(entries) {
      BumpDistinct(entries, id);
    }
  }

  /** Tallying events adds each player's hits to its count and the number
      of events to the sum, keeps the keys distinct, and has as keys the
      old ones and the players that hit. */
  lemma {:induction false} TallyFacts(entries: seq<(string, int)>, events: seq<HitEvent>)
    ensures forall id :: CountOf(Tally(entries, events), id) == CountOf(entries, id) + HitsOf(events, id)
    ensures CountSum(Tally(entries, events)) == CountSum(entries) + |events|
    ensures DistinctKeys(entries) ==> DistinctKeys(Tally(entries, events))
    ensures forall id :: HasKey(Tally(entries, events), id) <==> HasKey(entries, id) || HitsOf(events, id) > 0
  {
    if events != [] {
      var init := events[..|events| - 1];
      TallyFacts(entries, init);
      BumpFacts(Tally(entries, init), events[|events| - 1].playerId);
    }
  }

  /** From no counts, the per-player counts add up to the number of
      events, and each player's count is its number of hits. */
  lemma CountsAddUp(events: seq<HitEvent>)
    ensures CountSum(Tally([], events)) == |events|
    ensures forall id :: CountOf(Tally([], events), id) == HitsOf(events, id)
    ensures DistinctKeys(Tally([], events))
  {
    TallyFacts([], events);
  }

  // ---------------------------------------------------------------------------
  // The processor
  // ---------------------------------------------------------------------------

  class MatchProcessor {
    var hitEvents: seq<HitEvent>
    var lastHitFrame: map<string, int>
    var matchStats: MatchStatistics

    constructor()
      ensures hitEvents == [] && lastHitFrame == map[] && matchStats == FreshStatistics
    {
      hitEvents := [];
      lastHitFrame := map[];
      matchStats := FreshStatistics;
    }

    /** The hits of one frame, updating the last-hit table: nothing when
        the frame is missing, a detector fails, or no ball is seen. */
    method DetectHitsInFrame(input: FrameInput, frame: int, timestamp: real) returns (hits: seq<HitEvent>)
      modifies this`lastHitFrame
      ensures !input.Detections? || input.balls == [] ==> hits == [] && lastHitFrame == old(lastHitFrame)
      ensures input.Detections? ==>
        (hits, lastHitFrame) == FrameHits(old(lastHitFrame), input.players, input.balls, frame, timestamp)
    {
      hits := [];
      if !input.Detections? {
        return;
      }
      var players, balls := input.players, input.balls;
      if balls == [] {
        NoBallNoHit(lastHitFrame, players, frame, timestamp);
        return;
      }
      var i := 0;
      while i < |players|
        invariant 0 <= i <= |players|
        invariant (hits, lastHitFrame) == FrameHits(old(lastHitFrame), players[..i], balls, frame, timestamp)
      {
        assert players[..i + 1][..i] == players[..i];
        var p := players[i];
        if !(p.classId in lastHitFrame && frame - lastHitFrame[p.classId] < MinFramesBetweenHits) {
          var best, index := NearestBall(p.box, balls);
          if best.Less(Finite(ThresholdSquared)) && index.Some? {
            var ball := balls[index.value];
            hits := hits + [HitEvent(p.classId, frame, timestamp, p.confidence, ball.confidence, p.box, ball.box)];
            lastHitFrame := lastHitFrame[p.classId := frame];
          }
        }
        i := i + 1;
      }
      assert players[..i] == players;
    }

    /** The final statistics: the number of events, and every event added
        to the per-player counts. */
    method CalculateFinalStatistics()
      modifies this`matchStats
      ensures matchStats == old(matchStats).(totalHits := |hitEvents|,
                                             hitsPerPlayer := Tally(old(matchStats.hitsPerPlayer), hitEvents))
    {
      matchStats := matchStats.(totalHits := |hitEvents|);
      var i := 0;
      while i < |hitEvents|
        invariant 0 <= i <= |hitEvents|
        invariant matchStats == old(matchStats).(totalHits := |hitEvents|,
                                                 hitsPerPlayer := Tally(old(matchStats.hitsPerPlayer), hitEvents[..i]))
      {
        assert hitEvents[..i + 1][..i] == hitEvents[..i];
        matchStats := matchStats.(hitsPerPlayer := Bump(matchStats.hitsPerPlayer, hitEvents[i].playerId));
        i := i + 1;
      }
      assert hitEvents[..i] == hitEvents;
    }

    /** Processing a video: the state is reset, every frame read is run
        through the hit detector in order, and the statistics are computed
        from the events. */
    method ProcessVideo(frames: seq<FrameInput>, totalFrames: int, fps: real) returns (stats: MatchStatistics)
      modifies this
      ensures (hitEvents, lastHitFrame) == VideoHits(frames, fps, |frames|)
      ensures stats == matchStats
      ensures matchStats == MatchStatistics(|hitEvents|, Tally([], hitEvents), totalFrames,
                                            if fps > 0.0 then totalFrames as real / fps else 0.0, fps)
    {
      var duration := if fps > 0.0 then totalFrames as real / fps else 0.0;
      hitEvents := [];
      lastHitFrame := map[];
      matchStats := MatchStatistics(0, [], totalFrames, duration, fps);
      var frame := 0;
      while frame < |frames|
        invariant 0 <= frame <= |frames|
        invariant (hitEvents, lastHitFrame) == VideoHits(frames, fps, frame)
        invariant matchStats == MatchStatistics(0, [], totalFrames, duration, fps)
      {
        var timestamp := if fps > 0.0 then frame as real / fps else 0.0;
        var frameHits := DetectHitsInFrame(frames[frame], frame, timestamp);
        hitEvents := hitEvents + frameHits;
        frame := frame + 1;
      }
      CalculateFinalStatistics();
      stats := matchStats;
    }
  }
}
