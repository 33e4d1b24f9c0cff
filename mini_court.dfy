/** The mini-court: a fixed 250 x 500 canvas drawn near the top-right corner
    of the frame. Player feet and the ball are projected onto it from the
    court keypoints detected in the video, and the ball leaves a short,
    smoothed trail. */
module MiniCourtMapping {
  import opened Wrappers
  import opened Geometry
  import opened Sequences

  const DrawingRectangleWidth: int := 250
  const DrawingRectangleHeight: int := 500
  /** Gap between the canvas and the frame's right and top edges. */
  const Buffer: int := 50
  /** Inset of the court inside the canvas, on every side. */
  const PaddingCourt: int := 20
  /** The trail keeps at most this many ball positions. */
  const TrailLength: int := 10
  /** Smoothing averages over at most this many recent positions. */
  const SmoothingWindow: int := 5
  /** A new ball position joins the trail only when it is farther than this from the last one. */
  const MinDistanceThreshold: int := 1
  /** Divisor of the perspective correction. */
  const PerspectiveDivisor: real := 1000.0
  /** Weight of the new position when it is blended with the recent average. */
  const Alpha: real := 0.7

  /** The real-world court and player dimensions of the `constants` module. */
  datatype CourtConstants = CourtConstants(
    doubleLineWidth: real,
    halfCourtLineHeight: real,
    doubleAllyDifference: real,
    noMansLandHeight: real,
    singleLineWidth: real,
    player1Height: real,
    player2Height: real)

  /** The helpers the mini-court imports from `utils`, which are not part
      of this model, taken as parameters. */
  datatype Utils = Utils(
    /** `convert_meters_to_pixel_distance(meters, reference_meters, reference_pixels)` */
    metersToPixels: (real, real, real) -> real,
    /** `convert_pixel_distance_to_meters(pixels, reference_meters, reference_pixels)` */
    pixelsToMeters: (real, real, real) -> real,
    /** `measure_xy_distance`: the two offsets between two points */
    xyDistance: (Point, Point) -> Point,
    /** `measure_distance` */
    distance: (Point, Point) -> real,
    centerOf: Box -> Point,
    footOf: Box -> Point,
    heightOf: Box -> real,
    /** `get_closest_keypoint_index(point, keypoints, candidate_indices)` */
    closestKeypoint: (Point, seq<real>, seq<int>) -> int)

  /** What the callers rely on from `get_closest_keypoint_index`: it
      returns one of the candidate indices it is given. */
  ghost predicate PicksCandidate(u: Utils) {
    forall p: Point, kps: seq<real>, cands: seq<int> ::
      |cands| > 0 ==> u.closestKeypoint(p, kps, cands) in cands
  }

  /** One entry of a frame's player dictionary, in insertion order. */
  datatype PlayerBox = PlayerBox(id: int, box: Box)

  /** One entry of a frame's output dictionary: a player's mini-court position. */
  datatype PlayerSpot = PlayerSpot(id: int, position: Point)

  /** An integer pixel, as the trail stores it. */
  datatype Pixel = Pixel(x: int, y: int)

  // ---------------------------------------------------------------------------
  // Court layout
  // ---------------------------------------------------------------------------

  /** `set_court_drawing_key_points`: the 14 mini-court keypoints, flattened
      as x0, y0, x1, y1, ..., laid out from the court rectangle and the
      real-world line distances. */
  function DrawingKeyPoints(u: Utils, c: CourtConstants, startX: int, startY: int, endX: int, width: int): (kp: seq<real>)
    ensures |kp| == 28
  {
    var k0 := startX as real;
    var k1 := startY as real;
    var k2 := endX as real;
    var k3 := startY as real;
    var k4 := startX as real;
    var k5 := startY as real + ToPixels(u, c, c.halfCourtLineHeight * 2.0, width);
    var k6 := k0 + width as real;
    var k7 := k5;
    var k8 := k0 + ToPixels(u, c, c.doubleAllyDifference, width);
    var k9 := k1;
    var k10 := k4 + ToPixels(u, c, c.doubleAllyDifference, width);
    var k11 := k5;
    var k12 := k2 - ToPixels(u, c, c.doubleAllyDifference, width);
    var k13 := k3;
    var k14 := k6 - ToPixels(u, c, c.doubleAllyDifference, width);
    var k15 := k7;
    var k16 := k8;
    var k17 := k9 + ToPixels(u, c, c.noMansLandHeight, width);
    var k18 := k16 + ToPixels(u, c, c.singleLineWidth, width);
    var k19 := k17;
    var k20 := k10;
    var k21 := k11 - ToPixels(u, c, c.noMansLandHeight, width);
    var k22 := k20 + ToPixels(u, c, c.singleLineWidth, width);
    var k23 := k21;
    var k24 := Trunc((k16 + k18) / 2.0) as real;
    var k25 := k17;
    var k26 := Trunc((k20 + k22) / 2.0) as real;
    var k27 := k21;
    [k0, k1, k2, k3, k4, k5, k6, k7, k8, k9, k10, k11, k12, k13,
     k14, k15, k16, k17, k18, k19, k20, k21, k22, k23, k24, k25, k26, k27]
  }

  /** `convert_meters_to_pixels` against the drawn court's width. */
  function ToPixels(u: Utils, c: CourtConstants, meters: real, width: int): real {
    u.metersToPixels(meters, c.doubleLineWidth, width as real)
  }

  function KeyX(kp: seq<real>, i: int): real
    requires 0 <= i && 2 * i + 1 < |kp|
  {
    kp[2 * i]
  }

  function KeyY(kp: seq<real>, i: int): real
    requires 0 <= i && 2 * i + 1 < |kp|
  {
    kp[2 * i + 1]
  }

  /** The outline of the drawn court: the four baseline corners span the
      court rectangle. */
  lemma KeyPointsLayout(u: Utils, c: CourtConstants, startX: int, startY: int, endX: int)
    ensures var kp := DrawingKeyPoints(u, c, startX, startY, endX, endX - startX);
      && KeyX(kp, 0) == KeyX(kp, 2) == startX as real
      && KeyX(kp, 1) == KeyX(kp, 3) == endX as real
      && KeyY(kp, 0) == KeyY(kp, 1) == startY as real
      && KeyY(kp, 2) == KeyY(kp, 3)
  {
  }

  /** The alley points of the drawn court sit on the baselines, the same
      distance in from both side lines. */
  lemma KeyPointsAlleys(u: Utils, c: CourtConstants, startX: int, startY: int, endX: int)
    ensures var kp := DrawingKeyPoints(u, c, startX, startY, endX, endX - startX);
      && KeyY(kp, 4) == KeyY(kp, 6) == KeyY(kp, 0)
      && KeyY(kp, 5) == KeyY(kp, 7) == KeyY(kp, 2)
      && KeyX(kp, 4) == KeyX(kp, 5) == KeyX(kp, 8) == KeyX(kp, 10)
      && KeyX(kp, 6) == KeyX(kp, 7)
      && KeyX(kp, 4) - KeyX(kp, 0) == KeyX(kp, 1) - KeyX(kp, 6)
  {
  }

  /** The service lines of the drawn court sit the same distance in from
      their baselines and have the same length, and the centre marks 12
      and 13 lie within one pixel of the middle of the service lines. */
  lemma KeyPointsServiceLines(u: Utils, c: CourtConstants, startX: int, startY: int, endX: int)
    ensures var kp := DrawingKeyPoints(u, c, startX, startY, endX, endX - startX);
      && KeyY(kp, 8) == KeyY(kp, 9) == KeyY(kp, 12)
      && KeyY(kp, 10) == KeyY(kp, 11) == KeyY(kp, 13)
      && KeyY(kp, 8) - KeyY(kp, 0) == KeyY(kp, 2) - KeyY(kp, 10)
      && KeyX(kp, 9) - KeyX(kp, 8) == KeyX(kp, 11) - KeyX(kp, 10)
      && Abs(KeyX(kp, 12) - (KeyX(kp, 8) + KeyX(kp, 9)) / 2.0) < 1.0
      && Abs(KeyX(kp, 13) - (KeyX(kp, 10) + KeyX(kp, 11)) / 2.0) < 1.0
  {
  }

  // ---------------------------------------------------------------------------
  // get_mini_court_coordinates
  // ---------------------------------------------------------------------------

  /** The perspective correction of the horizontal offset: 1 unless the
      object is strictly above the keypoint, and then 1 plus a thousandth
      of the vertical gap. */
  function PerspectiveFactor(obj: Point, key: Point): (f: real)
    ensures f >= 1.0
    ensures obj.y >= key.y ==> f == 1.0
  {
    if obj.y < key.y then 1.0 + (key.y - obj.y) / PerspectiveDivisor else 1.0
  }

  /** The higher an object is in the frame, the larger its correction. */
  lemma PerspectiveGrowsWithHeight(low: Point, high: Point, key: Point)
    requires high.y <= low.y
    ensures PerspectiveFactor(high, key) >= PerspectiveFactor(low, key)
    ensures high.y < low.y && high.y < key.y ==> PerspectiveFactor(high, key) > PerspectiveFactor(low, key)
  {
  }

  /** The sign given to an offset: +1 when the object is strictly past the
      keypoint (right of it, or below it), else -1. */
  function Direction(objCoord: real, keyCoord: real): (d: int)
    ensures d == 1 || d == -1
    ensures d == 1 <==> objCoord > keyCoord
  {
    if objCoord > keyCoord then 1 else -1
  }

  /** `max(lo, min(hi, v))`. */
  function Clamp(lo: int, hi: int, v: real): (r: real)
    ensures lo <= hi ==> lo as real <= r <= hi as real
    ensures lo as real <= v <= hi as real ==> r == v
    ensures v < lo as real ==> r == lo as real
    ensures lo <= hi && v > hi as real ==> r == hi as real
  {
    Max(lo as real, Min(hi as real, v))
  }

  /** The closest baseline corner for a player's foot. */
  const BaselineCorners: seq<int> := [0, 1, 2, 3]

  /** The reference keypoints for the ball, by the quadrant of the
      detected court it falls in: the alley point and the service point of
      that quadrant. */
  function ReferencePoints(ball: Point, okp: seq<real>): (refs: seq<int>)
    requires |okp| == 28
    ensures refs == [4, 8] || refs == [6, 9] || refs == [5, 10] || refs == [7, 11]
    ensures refs[0] in {4, 6} <==> ball.y < (okp[1] + okp[5]) / 2.0
    ensures refs[0] in {4, 5} <==> ball.x < (okp[0] + okp[2]) / 2.0
  {
    var midY := (okp[1] + okp[5]) / 2.0;
    var midX := (okp[0] + okp[2]) / 2.0;
    if ball.y < midY then
      if ball.x < midX then [4, 8] else [6, 9]
    else
      if ball.x < midX then [5, 10] else [7, 11]
  }

  /** The first player (in dictionary order) whose box centre is closest
      to the ball, as `min` over the keys returns it. */
  function ClosestPlayer(u: Utils, ball: Point, players: seq<PlayerBox>): (k: nat)
    requires |players| > 0
    ensures k < |players|
    ensures forall j :: 0 <= j < |players| ==>
      u.distance(ball, u.centerOf(players[k].box)) <= u.distance(ball, u.centerOf(players[j].box))
    ensures forall j :: 0 <= j < k ==>
      u.distance(ball, u.centerOf(players[j].box)) > u.distance(ball, u.centerOf(players[k].box))
  {
    if |players| == 1 then 0
    else
      var k := ClosestPlayer(u, ball, players[..|players| - 1]);
      var last := |players| - 1;
      if u.distance(ball, u.centerOf(players[last].box)) < u.distance(ball, u.centerOf(players[k].box))
      then last else k
  }

  /** The box of player `id` in one frame, if it has one. */
  function BoxOf(frame: seq<PlayerBox>, id: int): Option<Box> {
    if |frame| == 0 then None
    else if frame[0].id == id then Some(frame[0].box)
    else BoxOf(frame[1..], id)
  }

  /** The lookup `player_boxes[i][player_id]` finds the player's entry, and
      fails exactly when the frame has no entry for the id. */
  lemma {:induction false} BoxOfFindsPlayer(frame: seq<PlayerBox>, id: int)
    ensures BoxOf(frame, id).None? <==> forall k :: 0 <= k < |frame| ==> frame[k].id != id
    ensures BoxOf(frame, id).Some? ==> exists k :: 0 <= k < |frame| && frame[k] == PlayerBox(id, BoxOf(frame, id).value)
  {
    if |frame| > 0 && frame[0].id != id {
      BoxOfFindsPlayer(frame[1..], id);
      if BoxOf(frame, id).Some? {
        var k :| 0 <= k < |frame| - 1 && frame[1..][k] == PlayerBox(id, BoxOf(frame, id).value);
        assert frame[k + 1] == frame[1..][k];
      }
      forall k | 0 < k < |frame|
        ensures frame[k] == frame[1..][k - 1]
      {
      }
    }
  }

  /** A frame's player dictionary: no id twice. */
  predicate DistinctIds(frame: seq<PlayerBox>) {
    forall i, j :: 0 <= i < j < |frame| ==> frame[i].id != frame[j].id
  }

  /** The frames sampled for a player's pixel height around frame `f`:
      from 20 before to 50 after, inside the video. */
  function WindowLo(f: int): int { if f - 20 > 0 then f - 20 else 0 }

  function WindowHi(n: int, f: int): int { if n < f + 50 then n else f + 50 }

  /** The tallest box of player `id` over frames [lo, hi), or None when one
      of those frames lacks the player (the source's lookup then fails). */
  function MaxHeight(u: Utils, players: seq<seq<PlayerBox>>, id: int, lo: int, hi: int): Option<real>
    requires 0 <= lo < hi <= |players|
    decreases hi - lo
  {
    var b := BoxOf(players[hi - 1], id);
    if b.None? then None
    else if hi - 1 == lo then Some(u.heightOf(b.value))
    else
      var m := MaxHeight(u, players, id, lo, hi - 1);
      if m.None? then None else Some(Max(m.value, u.heightOf(b.value)))
  }

  /** `max` of the window's heights: defined exactly when every frame of
      the window has the player, and then the height of its tallest box. */
  lemma {:induction false} MaxHeightIsTallest(u: Utils, players: seq<seq<PlayerBox>>, id: int, lo: int, hi: int)
    requires 0 <= lo < hi <= |players|
    decreases hi - lo
    ensures var r := MaxHeight(u, players, id, lo, hi);
      && (r.Some? <==> forall i :: lo <= i < hi ==> BoxOf(players[i], id).Some?)
      && (r.Some? ==> forall i :: lo <= i < hi ==> u.heightOf(BoxOf(players[i], id).value) <= r.value)
      && (r.Some? ==> exists i :: lo <= i < hi && u.heightOf(BoxOf(players[i], id).value) == r.value)
  {
    if hi - 1 > lo {
      MaxHeightIsTallest(u, players, id, lo, hi - 1);
    }
  }

  /** A frame without the player spoils every longer window too. */
  lemma {:induction false} MaxHeightStaysNone(u: Utils, players: seq<seq<PlayerBox>>, id: int, lo: int, mid: int, hi: int)
    requires 0 <= lo < mid <= hi <= |players|
    requires MaxHeight(u, players, id, lo, mid).None?
    decreases hi - mid
    ensures MaxHeight(u, players, id, lo, hi).None?
  {
    if mid < hi {
      MaxHeightStaysNone(u, players, id, lo, mid, hi - 1);
    }
  }

  /** The known height of players 1 and 2; other ids have none. */
  function PlayerHeight(c: CourtConstants, id: int): Option<real> {
    if id == 1 then Some(c.player1Height)
    else if id == 2 then Some(c.player2Height)
    else None
  }

  /** Player `id` can be placed in frame `f`: its height in metres is known
      and its pixel height is defined over the window (by
      `MaxHeightIsTallest`, every frame of the window has its box). */
  predicate PlayerPlaceable(u: Utils, c: CourtConstants, players: seq<seq<PlayerBox>>, f: int, id: int)
    requires 0 <= f < |players|
  {
    && PlayerHeight(c, id).Some?
    && MaxHeight(u, players, id, WindowLo(f), WindowHi(|players|, f)).Some?
  }

  /** Frame `f` has a ball box under key 1 and at least one player. */
  predicate BallKnown(players: seq<seq<PlayerBox>>, balls: seq<map<int, Box>>, f: int)
    requires 0 <= f < |players|
  {
    f < |balls| && 1 in balls[f] && |players[f]| > 0
  }

  /** Frame `f` converts without an exception: its ball is known and every
      player is placeable. */
  predicate FrameOk(u: Utils, c: CourtConstants, players: seq<seq<PlayerBox>>, balls: seq<map<int, Box>>, f: int)
    requires 0 <= f < |players|
  {
    && BallKnown(players, balls, f)
    && forall k :: 0 <= k < |players[f]| ==> PlayerPlaceable(u, c, players, f, players[f][k].id)
  }

  class MiniCourt {
    const u: Utils
    const c: CourtConstants
    var startX: int
    var startY: int
    var endX: int
    var endY: int
    var courtStartX: int
    var courtStartY: int
    var courtEndX: int
    var courtEndY: int
    var courtDrawingWidth: int
    var drawingKeyPoints: seq<real>
    var previousPositions: seq<Pixel>

    /** The canvas and court are laid out as the `set_*` methods leave
        them, all 14 keypoints are present, and the trail is no longer than
        its limit. */
    ghost predicate Valid()
      reads this
    {
      && endY == Buffer + DrawingRectangleHeight
      && startX == endX - DrawingRectangleWidth
      && startY == endY - DrawingRectangleHeight
      && courtStartX == startX + PaddingCourt
      && courtStartY == startY + PaddingCourt
      && courtEndX == endX - PaddingCourt
      && courtEndY == endY - PaddingCourt
      && courtDrawingWidth == courtEndX - courtStartX
      && |drawingKeyPoints| == 28
      && |previousPositions| <= TrailLength
    }

    /** `__init__`: an empty trail, then the canvas, the court and the
        keypoints for a frame `frameWidth` pixels wide. */
    constructor (frameWidth: int, u0: Utils, c0: CourtConstants)
      ensures Valid()
      ensures u == u0 && c == c0 && previousPositions == []
      ensures drawingKeyPoints == DrawingKeyPoints(u, c, courtStartX, courtStartY, courtEndX, courtDrawingWidth)
      ensures startX == frameWidth - 300 && endX == frameWidth - 50 && startY == 50 && endY == 550
      ensures courtStartX == frameWidth - 280 && courtEndX == frameWidth - 70
      ensures courtStartY == 70 && courtEndY == 530 && courtDrawingWidth == 210
    {
      u := u0;
      c := c0;
      previousPositions := [];
      new;
      SetCanvasBackgroundBoxPosition(frameWidth);
      SetMiniCourtPosition();
      SetCourtDrawingKeyPoints();
    }

    /** `set_canvas_background_box_position`: the canvas hangs `Buffer`
        pixels from the frame's right edge and from the top. */
    method SetCanvasBackgroundBoxPosition(frameWidth: int)
      modifies this`startX, this`startY, this`endX, this`endY
      ensures endX == frameWidth - Buffer
      ensures endY == Buffer + DrawingRectangleHeight
      ensures startX == endX - DrawingRectangleWidth
      ensures startY == endY - DrawingRectangleHeight
    {
      endX := frameWidth - Buffer;
      endY := Buffer + DrawingRectangleHeight;
      startX := endX - DrawingRectangleWidth;
      startY := endY - DrawingRectangleHeight;
    }

    /** `set_mini_court_position`: the court is the canvas inset by
        `PaddingCourt` on every side. */
    method SetMiniCourtPosition()
      modifies this`courtStartX, this`courtStartY, this`courtEndX, this`courtEndY, this`courtDrawingWidth
      ensures courtStartX == startX + PaddingCourt && courtStartY == startY + PaddingCourt
      ensures courtEndX == endX - PaddingCourt && courtEndY == endY - PaddingCourt
      ensures courtDrawingWidth == courtEndX - courtStartX
    {
      courtStartX := startX + PaddingCourt;
      courtStartY := startY + PaddingCourt;
      courtEndX := endX - PaddingCourt;
      courtEndY := endY - PaddingCourt;
      courtDrawingWidth := courtEndX - courtStartX;
    }

    /** `set_court_drawing_key_points`. */
    method SetCourtDrawingKeyPoints()
      modifies this`drawingKeyPoints
      ensures drawingKeyPoints == DrawingKeyPoints(u, c, courtStartX, courtStartY, courtEndX, courtDrawingWidth)
    {
      drawingKeyPoints := DrawingKeyPoints(u, c, courtStartX, courtStartY, courtEndX, courtDrawingWidth);
    }

    /** The court always has room: its corners are ordered. */
    lemma CourtIsOrdered()
      requires Valid()
      ensures courtStartX < courtEndX && courtStartY < courtEndY
      ensures courtDrawingWidth == 210
    {
    }

    /** `get_mini_court_coordinates`: the pixel offset of `obj` from the
        keypoint `key` (the horizontal one corrected for perspective) goes
        to metres with the player's height as the scale and back to
        mini-court pixels, is added with the offset's sign to the
        mini-court keypoint `keyIndex`, and the result is clamped to the
        court. */
    function GetMiniCourtCoordinates(obj: Point, key: Point, keyIndex: int, heightPixels: real, heightMeters: real): (r: Point)
      reads this
      requires Valid() && 0 <= keyIndex < 14
      ensures courtStartX as real <= r.x <= courtEndX as real
      ensures courtStartY as real <= r.y <= courtEndY as real
    {
      var offset := u.xyDistance(obj, key);
      var correctedX := offset.x * PerspectiveFactor(obj, key);
      var metersX := u.pixelsToMeters(correctedX, heightMeters, heightPixels);
      var metersY := u.pixelsToMeters(offset.y, heightMeters, heightPixels);
      var pixelsX := u.metersToPixels(metersX, c.doubleLineWidth, courtDrawingWidth as real);
      var pixelsY := u.metersToPixels(metersY, c.doubleLineWidth, courtDrawingWidth as real);
      var anchor := Point(KeyX(drawingKeyPoints, keyIndex), KeyY(drawingKeyPoints, keyIndex));
      var x := anchor.x + Direction(obj.x, key.x) as real * pixelsX;
      var y := anchor.y + Direction(obj.y, key.y) as real * pixelsY;
      Point(Clamp(courtStartX, courtEndX, x), Clamp(courtStartY, courtEndY, y))
    }

    /** A player's mini-court position in frame `f`: anchored at the
        closest baseline corner to the foot, scaled by the player's tallest
        box over the height window. */
    function PlayerSpotAt(players: seq<seq<PlayerBox>>, okp: seq<real>, f: int, k: int): (s: PlayerSpot)
      reads this
      requires Valid() && PicksCandidate(u) && |okp| == 28
      requires 0 <= f < |players| && 0 <= k < |players[f]|
      requires PlayerPlaceable(u, c, players, f, players[f][k].id)
      ensures s.id == players[f][k].id
    {
      var p := players[f][k];
      var foot := u.footOf(p.box);
      var idx := u.closestKeypoint(foot, okp, BaselineCorners);
      assert idx in BaselineCorners;
      var height := MaxHeight(u, players, p.id, WindowLo(f), WindowHi(|players|, f));
      PlayerSpot(p.id, GetMiniCourtCoordinates(foot, Point(KeyX(okp, idx), KeyY(okp, idx)), idx,
                                               height.value, PlayerHeight(c, p.id).value))
    }

    /** The ball's mini-court position in frame `f`: anchored at the closer
        reference keypoint of its quadrant, scaled by the player closest to
        it. */
    function BallAt(players: seq<seq<PlayerBox>>, balls: seq<map<int, Box>>, okp: seq<real>, f: int): (b: Point)
      reads this
      requires Valid() && PicksCandidate(u) && |okp| == 28
      requires 0 <= f < |players| && BallKnown(players, balls, f)
      requires PlayerPlaceable(u, c, players, f, players[f][ClosestPlayer(u, u.centerOf(balls[f][1]), players[f])].id)
    {
      var ball := u.centerOf(balls[f][1]);
      var p := players[f][ClosestPlayer(u, ball, players[f])];
      var refs := ReferencePoints(ball, okp);
      var idx := u.closestKeypoint(ball, okp, refs);
      assert idx in refs;
      var height := MaxHeight(u, players, p.id, WindowLo(f), WindowHi(|players|, f));
      GetMiniCourtCoordinates(ball, Point(KeyX(okp, idx), KeyY(okp, idx)), idx,
                              height.value, PlayerHeight(c, p.id).value)
    }

    /** The keypoint a player is anchored at is a baseline corner. */
    lemma PlayersAnchorOnBaseline(players: seq<seq<PlayerBox>>, okp: seq<real>, f: int, k: int)
      requires PicksCandidate(u) && 0 <= f < |players| && 0 <= k < |players[f]|
      ensures 0 <= u.closestKeypoint(u.footOf(players[f][k].box), okp, BaselineCorners) <= 3
    {
      assert u.closestKeypoint(u.footOf(players[f][k].box), okp, BaselineCorners) in BaselineCorners;
    }

    /** The tallest box of a player over a window, by a loop over the frames. */
    method WindowHeight(players: seq<seq<PlayerBox>>, id: int, lo: int, hi: int) returns (r: Option<real>)
      requires 0 <= lo < hi <= |players|
      ensures r == MaxHeight(u, players, id, lo, hi)
    {
      var first := BoxOf(players[lo], id);
      if first.None? {
        assert MaxHeight(u, players, id, lo, lo + 1).None?;
        MaxHeightStaysNone(u, players, id, lo, lo + 1, hi);
        return None;
      }
      var best := u.heightOf(first.value);
      var i := lo + 1;
      while i < hi
        invariant lo + 1 <= i <= hi
        invariant MaxHeight(u, players, id, lo, i) == Some(best)
      {
        var b := BoxOf(players[i], id);
        if b.None? {
          assert MaxHeight(u, players, id, lo, i + 1).None?;
          MaxHeightStaysNone(u, players, id, lo, i + 1, hi);
          return None;
        }
        best := Max(best, u.heightOf(b.value));
        i := i + 1;
      }
      r := Some(best);
    }

    /** One player of the frame loop: its mini-court position, or None
        where the source raises (a frame of its height window lacks it, or
        its height in metres is unknown). */
    method PlacePlayer(players: seq<seq<PlayerBox>>, okp: seq<real>, f: int, k: int) returns (spot: Option<PlayerSpot>)
      requires Valid() && PicksCandidate(u) && |okp| == 28
      requires 0 <= f < |players| && 0 <= k < |players[f]|
      ensures spot.Some? <==> PlayerPlaceable(u, c, players, f, players[f][k].id)
      ensures spot.Some? ==> spot.value == PlayerSpotAt(players, okp, f, k)
    {
      var p := players[f][k];
      var height := WindowHeight(players, p.id, WindowLo(f), WindowHi(|players|, f));
      var meters := PlayerHeight(c, p.id);
      if height.None? || meters.None? {
        return None;
      }
      var foot := u.footOf(p.box);
      var idx := u.closestKeypoint(foot, okp, BaselineCorners);
      assert idx in BaselineCorners;
      spot := Some(PlayerSpot(p.id, GetMiniCourtCoordinates(foot, Point(KeyX(okp, idx), KeyY(okp, idx)), idx,
                                                            height.value, meters.value)));
    }

    /** The ball branch of the player loop, taken for the closest player. */
    method PlaceBall(players: seq<seq<PlayerBox>>, balls: seq<map<int, Box>>, okp: seq<real>, f: int) returns (b: Point)
      requires Valid() && PicksCandidate(u) && |okp| == 28
      requires 0 <= f < |players| && BallKnown(players, balls, f)
      requires PlayerPlaceable(u, c, players, f, players[f][ClosestPlayer(u, u.centerOf(balls[f][1]), players[f])].id)
      ensures b == BallAt(players, balls, okp, f)
    {
      var ball := u.centerOf(balls[f][1]);
      var p := players[f][ClosestPlayer(u, ball, players[f])];
      var height := WindowHeight(players, p.id, WindowLo(f), WindowHi(|players|, f));
      var refs := ReferencePoints(ball, okp);
      var idx := u.closestKeypoint(ball, okp, refs);
      assert idx in refs;
      b := GetMiniCourtCoordinates(ball, Point(KeyX(okp, idx), KeyY(okp, idx)), idx,
                                   height.value, PlayerHeight(c, p.id).value);
    }

    /** Appending the spot of player `k` extends the converted prefix by one. */
    lemma SpotsStep(players: seq<seq<PlayerBox>>, okp: seq<real>, f: int, k: int, spots: seq<PlayerSpot>, spot: PlayerSpot)
      requires Valid() && PicksCandidate(u) && |okp| == 28
      requires 0 <= f < |players| && 0 <= k < |players[f]| && |spots| == k
      requires forall j :: 0 <= j <= k ==> PlayerPlaceable(u, c, players, f, players[f][j].id)
      requires forall j :: 0 <= j < k ==> spots[j] == PlayerSpotAt(players, okp, f, j)
      requires spot == PlayerSpotAt(players, okp, f, k)
      ensures forall j :: 0 <= j <= k ==> (spots + [spot])[j] == PlayerSpotAt(players, okp, f, j)
    {
    }

    /** One iteration of the frame loop of
        `convert_bounding_boxes_to_mini_court_coordinates`: None where the
        source raises. */
    method ConvertFrame(players: seq<seq<PlayerBox>>, balls: seq<map<int, Box>>, okp: seq<real>, f: int)
      returns (r: Option<(seq<PlayerSpot>, Point)>)
      requires Valid() && PicksCandidate(u) && |okp| == 28 && 0 <= f < |players|
      ensures r.Some? <==> FrameOk(u, c, players, balls, f)
      ensures r.Some? ==> FrameOk(u, c, players, balls, f) && |r.value.0| == |players[f]|
      ensures r.Some? ==>
        FrameOk(u, c, players, balls, f) &&
        (forall k :: 0 <= k < |players[f]| ==> r.value.0[k] == PlayerSpotAt(players, okp, f, k))
      ensures r.Some? ==> FrameOk(u, c, players, balls, f) && r.value.1 == BallAt(players, balls, okp, f)
    {
      if f >= |balls| || 1 !in balls[f] || |players[f]| == 0 {
        return None;
      }
      var closest := ClosestPlayer(u, u.centerOf(balls[f][1]), players[f]);
      var spots: seq<PlayerSpot> := [];
      var ballSpot: Point := Point(0.0, 0.0);
      var k := 0;
      while k < |players[f]|
        invariant 0 <= k <= |players[f]|
        invariant forall j :: 0 <= j < k ==> PlayerPlaceable(u, c, players, f, players[f][j].id)
        invariant |spots| == k
        invariant forall j :: 0 <= j < k ==> spots[j] == PlayerSpotAt(players, okp, f, j)
        invariant closest < k ==> ballSpot == BallAt(players, balls, okp, f)
      {
        var spot := PlacePlayer(players, okp, f, k);
        if spot.None? {
          return None;
        }
        SpotsStep(players, okp, f, k, spots, spot.value);
        spots := spots + [spot.value];
        if k == closest {
          ballSpot := PlaceBall(players, balls, okp, f);
        }
        k := k + 1;
      }
      r := Some((spots, ballSpot));
    }

    /** Frame `g` converted without an exception into `spots` and `ball`. */
    ghost predicate FrameConverted(players: seq<seq<PlayerBox>>, balls: seq<map<int, Box>>, okp: seq<real>, g: int,
                                   spots: seq<PlayerSpot>, ball: Point)
      reads this
      requires Valid() && PicksCandidate(u) && |okp| == 28 && 0 <= g < |players|
    {
      FrameOk(u, c, players, balls, g) && |spots| == |players[g]| &&
      (forall k :: 0 <= k < |players[g]| ==> spots[k] == PlayerSpotAt(players, okp, g, k)) &&
      ball == BallAt(players, balls, okp, g)
    }

    /** Appending frame `f`'s output extends the converted prefix by one. */
    lemma FramesStep(players: seq<seq<PlayerBox>>, balls: seq<map<int, Box>>, okp: seq<real>, f: int,
                     spots: seq<seq<PlayerSpot>>, ballSpots: seq<Point>, s: seq<PlayerSpot>, b: Point)
      requires Valid() && PicksCandidate(u) && |okp| == 28 && 0 <= f < |players|
      requires |spots| == f && |ballSpots| == f
      requires forall g :: 0 <= g < f ==> FrameConverted(players, balls, okp, g, spots[g], ballSpots[g])
      requires FrameConverted(players, balls, okp, f, s, b)
      ensures forall g :: 0 <= g <= f ==> FrameConverted(players, balls, okp, g, (spots + [s])[g], (ballSpots + [b])[g])
    {
    }

    /** `convert_bounding_boxes_to_mini_court_coordinates`: every frame's
        player positions and exactly one ball position per frame, or the
        first frame at which the source raises. */
    method ConvertBoundingBoxes(players: seq<seq<PlayerBox>>, balls: seq<map<int, Box>>, okp: seq<real>)
      returns (r: Result<(seq<seq<PlayerSpot>>, seq<Point>), nat>)
      requires Valid() && PicksCandidate(u) && |okp| == 28
      ensures r.Ok? <==> forall f :: 0 <= f < |players| ==> FrameOk(u, c, players, balls, f)
      ensures r.Err? ==> r.error < |players| && !FrameOk(u, c, players, balls, r.error)
      ensures r.Err? ==> forall g :: 0 <= g < r.error ==> FrameOk(u, c, players, balls, g)
      ensures r.Ok? ==> |r.value.0| == |players| && |r.value.1| == |players|
      ensures r.Ok? ==> forall f :: 0 <= f < |players| ==>
        FrameConverted(players, balls, okp, f, r.value.0[f], r.value.1[f])
    {
      var spots: seq<seq<PlayerSpot>> := [];
      var ballSpots: seq<Point> := [];
      var f := 0;
      while f < |players|
        invariant 0 <= f <= |players|
        invariant |spots| == f && |ballSpots| == f
        invariant forall g :: 0 <= g < f ==> FrameConverted(players, balls, okp, g, spots[g], ballSpots[g])
      {
        var out := ConvertFrame(players, balls, okp, f);
        if out.None? {
          forall g | 0 <= g < f ensures FrameOk(u, c, players, balls, g) {
            assert FrameConverted(players, balls, okp, g, spots[g], ballSpots[g]);
          }
          return Err(f);
        }
        FramesStep(players, balls, okp, f, spots, ballSpots, out.value.0, out.value.1);
        spots := spots + [out.value.0];
        ballSpots := ballSpots + [out.value.1];
        f := f + 1;
      }
      forall g | 0 <= g < |players| ensures FrameOk(u, c, players, balls, g) {
        assert FrameConverted(players, balls, okp, g, spots[g], ballSpots[g]);
      }
      r := Ok((spots, ballSpots));
    }

    /** The ball branch of `draw_points_on_mini_court` for one frame: the
        position is smoothed against the trail, joins the trail when it
        moved, and the trail is cut back to its last `TrailLength` points. */
    method RecordBallPosition(p: Pixel) returns (drawn: Pixel)
      requires Valid()
      modifies this`previousPositions
      ensures Valid()
      ensures drawn == SmoothPosition(old(previousPositions), p)
      ensures previousPositions == Trail(u, old(previousPositions), drawn)
    {
      drawn := SmoothPosition(previousPositions, p);
      var trail := previousPositions;
      if Moved(u, trail, drawn) {
        trail := trail + [drawn];
      }
      trail := DropOldest(trail);
      previousPositions := trail;
    }

    /** The ball loop of `draw_points_on_mini_court`: each frame's position
        is truncated to pixels, smoothed and recorded; the drawn points are
        returned. */
    method DrawBallTrail(positions: seq<Point>) returns (drawn: seq<Pixel>)
      requires Valid()
      modifies this`previousPositions
      ensures Valid()
      ensures |drawn| == |positions|
      ensures |positions| > 0 && old(previousPositions) == [] ==>
        drawn[0] == Pixel(Trunc(positions[0].x), Trunc(positions[0].y))
      ensures forall q :: q in previousPositions ==> q in old(previousPositions) || q in drawn
      ensures forall f :: 0 <= f < |positions| ==>
        drawn[f] == SmoothPosition(TrailAfter(u, old(previousPositions), positions[..f]), ToPixel(positions[f]))
      ensures previousPositions == TrailAfter(u, old(previousPositions), positions)
    {
      drawn := [];
      var f := 0;
      while f < |positions|
        invariant 0 <= f <= |positions| && Valid()
        invariant |drawn| == f
        invariant f == 0 ==> previousPositions == old(previousPositions)
        invariant f > 0 && old(previousPositions) == [] ==>
          drawn[0] == Pixel(Trunc(positions[0].x), Trunc(positions[0].y))
        invariant forall q :: q in previousPositions ==> q in old(previousPositions) || q in drawn
        invariant previousPositions == TrailAfter(u, old(previousPositions), positions[..f])
        invariant forall g :: 0 <= g < f ==>
          drawn[g] == SmoothPosition(TrailAfter(u, old(previousPositions), positions[..g]), ToPixel(positions[g]))
      {
        ghost var before := previousPositions;
        TrailAfterStep(u, old(previousPositions), positions, f);
        var d := RecordBallPosition(ToPixel(positions[f]));
        TrailDrawsFrom(u, before, d);
        ghost var prev := drawn;
        drawn := drawn + [d];
        forall g | 0 <= g <= f
          ensures drawn[g] == SmoothPosition(TrailAfter(u, old(previousPositions), positions[..g]), ToPixel(positions[g]))
        {
          if g < f {
            assert drawn[g] == prev[g];
          }
        }
        f := f + 1;
      }
      assert positions[..f] == positions;
    }
  }

  // ---------------------------------------------------------------------------
  // smooth_position and the trail
  // ---------------------------------------------------------------------------

  /** The last `SmoothingWindow` positions (all of them when fewer). */
  function Recent(history: seq<Pixel>): (r: seq<Pixel>)
    ensures |r| == if |history| < SmoothingWindow then |history| else SmoothingWindow
  {
    if |history| <= SmoothingWindow then history else history[|history| - SmoothingWindow..]
  }

  /** The weights i/n for i = 1..n: the most recent position weighs most. */
  function Weights(n: nat): (w: seq<real>)
    ensures |w| == n
    ensures forall i :: 0 <= i < n ==> w[i] > 0.0
  {
    seq(n, i requires 0 <= i < n => (i + 1) as real / n as real)
  }

  /** Sum of `vals[i] * ws[i]`. */
  function WeightedSum(vals: seq<real>, ws: seq<real>): real
    requires |vals| == |ws|
  {
    if |vals| == 0 then 0.0
    else WeightedSum(vals[..|vals| - 1], ws[..|ws| - 1]) + Mul(vals[|vals| - 1], ws[|ws| - 1])
  }

  /** One coordinate of `smooth_position`: the weighted average of the
      recent values, blended 30/70 with the new value. */
  function Blend(recent: seq<real>, newValue: real): real
    requires |recent| > 0
  {
    var w := Weights(|recent|);
    SumPositive(w);
    (1.0 - Alpha) * (WeightedSum(recent, w) / Sum(w)) + Alpha * newValue
  }

  function Xs(ps: seq<Pixel>): (xs: seq<real>)
    ensures |xs| == |ps| && forall i :: 0 <= i < |ps| ==> xs[i] == ps[i].x as real
  {
    seq(|ps|, i requires 0 <= i < |ps| => ps[i].x as real)
  }

  function Ys(ps: seq<Pixel>): (ys: seq<real>)
    ensures |ys| == |ps| && forall i :: 0 <= i < |ps| ==> ys[i] == ps[i].y as real
  {
    seq(|ps|, i requires 0 <= i < |ps| => ps[i].y as real)
  }

  /** `smooth_position`: the new position itself when there is no history;
      otherwise each coordinate blended with the recent trail and
      truncated to an integer. */
  function SmoothPosition(history: seq<Pixel>, p: Pixel): (r: Pixel)
    ensures history == [] ==> r == p
  {
    if history == [] then p
    else
      var recent := Recent(history);
      Pixel(Trunc(Blend(Xs(recent), p.x as real)), Trunc(Blend(Ys(recent), p.y as real)))
  }

  /** A pixel as a point, for `measure_distance`. */
  function AsPoint(q: Pixel): (p: Point)
    ensures p.x == q.x as real && p.y == q.y as real
  {
    Point(q.x as real, q.y as real)
  }

  /** The drawn point joins the trail: always into an empty trail, else
      when `measure_distance` puts it more than `MinDistanceThreshold`
      from the last point. */
  predicate Moved(u: Utils, history: seq<Pixel>, q: Pixel) {
    history == [] ||
    u.distance(AsPoint(history[|history| - 1]), AsPoint(q)) > MinDistanceThreshold as real
  }

  /** The trail after drawing `q`: `q` appended when it moved, then only
      the last `TrailLength` points kept. */
  function Trail(u: Utils, history: seq<Pixel>, q: Pixel): (t: seq<Pixel>)
    ensures |t| <= TrailLength
  {
    var grown := if Moved(u, history, q) then history + [q] else history;
    if |grown| > TrailLength then grown[|grown| - TrailLength..] else grown
  }

  /** The `while ... pop(0)` loop of the trail: the oldest points are
      dropped until at most `TrailLength` remain. */
  method DropOldest(grown: seq<Pixel>) returns (trail: seq<Pixel>)
    ensures trail == if |grown| > TrailLength then grown[|grown| - TrailLength..] else grown
  {
    trail := grown;
    while |trail| > TrailLength
      invariant |trail| >= TrailLength || trail == grown
      invariant trail == grown[|grown| - |trail|..]
      decreases |trail|
    {
      trail := trail[1..];
    }
  }

  /** A court position truncated to pixels, as `int(x), int(y)`. */
  function ToPixel(p: Point): (q: Pixel)
    ensures p.x >= 0.0 && p.y >= 0.0 ==> q.x as real <= p.x < q.x as real + 1.0 && q.y as real <= p.y < q.y as real + 1.0
  {
    Pixel(Trunc(p.x), Trunc(p.y))
  }

  /** The trail after drawing the given positions one after another, each
      truncated, smoothed against the trail so far and recorded. */
  function TrailAfter(u: Utils, history: seq<Pixel>, positions: seq<Point>): (t: seq<Pixel>)
    ensures positions != [] ==> |t| <= TrailLength
  {
    if positions == [] then history
    else
      var before := TrailAfter(u, history, positions[..|positions| - 1]);
      Trail(u, before, SmoothPosition(before, ToPixel(positions[|positions| - 1])))
  }

  /** One more frame drawn. */
  lemma TrailAfterStep(u: Utils, history: seq<Pixel>, positions: seq<Point>, f: int)
    requires 0 <= f < |positions|
    ensures var before := TrailAfter(u, history, positions[..f]);
      TrailAfter(u, history, positions[..f + 1]) == Trail(u, before, SmoothPosition(before, ToPixel(positions[f])))
  {
    assert positions[..f + 1][..f] == positions[..f];
  }

  /** The trail only ever holds points it had or the point just drawn, and
      it ends with that point whenever it moved. */
  lemma TrailDrawsFrom(u: Utils, history: seq<Pixel>, q: Pixel)
    ensures forall x :: x in Trail(u, history, q) ==> x in history || x == q
    ensures Moved(u, history, q) ==> Trail(u, history, q)[|Trail(u, history, q)| - 1] == q
    ensures !Moved(u, history, q) && |history| <= TrailLength ==> Trail(u, history, q) == history
  {
    var grown := if Moved(u, history, q) then history + [q] else history;
    var t := Trail(u, history, q);
    forall x | x in t
      ensures x in history || x == q
    {
      var i :| 0 <= i < |t| && t[i] == x;
      assert x == grown[|grown| - |t| + i];
    }
  }

  lemma SumPositive(w: seq<real>)
    requires |w| > 0 && forall i :: 0 <= i < |w| ==> w[i] > 0.0
    ensures Sum(w) > 0.0
  {
    if |w| > 1 {
      SumPositive(w[..|w| - 1]);
    }
  }

  /** A weighted sum of values within [lo, hi] lies within lo and hi times
      the total weight. */
  lemma {:induction false} WeightedSumBounds(vals: seq<real>, ws: seq<real>, lo: real, hi: real)
    requires |vals| == |ws|
    requires forall i :: 0 <= i < |ws| ==> ws[i] >= 0.0
    requires forall i :: 0 <= i < |vals| ==> lo <= vals[i] <= hi
    ensures Mul(lo, Sum(ws)) <= WeightedSum(vals, ws) <= Mul(hi, Sum(ws))
  {
    if |vals| == 0 {
      MulSigns(lo, 0.0);
      MulSigns(hi, 0.0);
    } else {
      var n := |vals| - 1;
      WeightedSumBounds(vals[..n], ws[..n], lo, hi);
      MulMonotone(lo, vals[n], hi, ws[n]);
      MulDistributes(lo, Sum(ws[..n]), ws[n]);
      MulDistributes(hi, Sum(ws[..n]), ws[n]);
    }
  }

  /** A weighted average lies between the least and the largest value. */
  lemma AverageBounds(vals: seq<real>, lo: real, hi: real)
    requires |vals| > 0
    requires forall i :: 0 <= i < |vals| ==> lo <= vals[i] <= hi
    ensures var w := Weights(|vals|);
      Sum(w) > 0.0 && lo <= WeightedSum(vals, w) / Sum(w) <= hi
  {
    var w := Weights(|vals|);
    SumPositive(w);
    WeightedSumBounds(vals, w, lo, hi);
    DivideBetween(WeightedSum(vals, w), Sum(w), lo, hi);
  }

  lemma DivideBetween(x: real, s: real, lo: real, hi: real)
    requires s > 0.0 && Mul(lo, s) <= x <= Mul(hi, s)
    ensures lo <= x / s <= hi
  {
    assert x / s - lo == (x - lo * s) / s;
    assert hi - x / s == (hi * s - x) / s;
  }

  /** `int` of a value between two integers stays between them. */
  lemma TruncBetween(v: real, lo: int, hi: int)
    requires lo as real <= v <= hi as real
    ensures lo <= Trunc(v) <= hi
  {
  }

  /** Smoothing never takes the ball outside the box spanned by the
      recent trail and the new position. */
  lemma SmoothStaysInRange(history: seq<Pixel>, p: Pixel, lo: Pixel, hi: Pixel)
    requires lo.x <= p.x <= hi.x && lo.y <= p.y <= hi.y
    requires forall q :: q in history ==> lo.x <= q.x <= hi.x && lo.y <= q.y <= hi.y
    ensures var r := SmoothPosition(history, p);
      lo.x <= r.x <= hi.x && lo.y <= r.y <= hi.y
  {
    if history != [] {
      var recent := Recent(history);
      assert forall i :: 0 <= i < |recent| ==> recent[i] in history;
      AverageBounds(Xs(recent), lo.x as real, hi.x as real);
      AverageBounds(Ys(recent), lo.y as real, hi.y as real);
      TruncBetween(Blend(Xs(recent), p.x as real), lo.x, hi.x);
      TruncBetween(Blend(Ys(recent), p.y as real), lo.y, hi.y);
    }
  }

  /** A ball that has not moved stays put: when every recent position
      equals the new one, smoothing returns it unchanged. */
  lemma StationaryBallStaysPut(history: seq<Pixel>, p: Pixel)
    requires forall q :: q in history ==> q == p
    ensures SmoothPosition(history, p) == p
  {
    SmoothStaysInRange(history, p, p, p);
  }
}
