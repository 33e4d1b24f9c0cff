/** The per-shot statistics of the analysis script: for every pair of
    consecutive hit frames, the ball's speed, the shooter's and the
    opponent's speeds are folded into a table of running totals, which is
    then spread over every frame of the video. */
module Kinematics {
  import opened Wrappers
  import opened Geometry
  import opened MiniCourtMapping

  /** The elapsed time of an interval is its frame count over this rate. */
  const FramesPerSecond: real := 30.0
  /** Metres per second to kilometres per hour. */
  const KmhPerMs: real := 3.6

  /** The helpers of `utils` the fold calls, which are not part of this
      model: `measure_distance`, and `convert_pixel_distance_to_meters`
      with the doubles width and the mini-court width as its reference. */
  datatype Env = Env(distance: (Point, Point) -> real, toMeters: real -> real)

  /** One player's columns of a statistics row. */
  datatype PlayerStats = PlayerStats(
    numberOfShots: int,
    totalShotSpeed: real,
    lastShotSpeed: real,
    totalPlayerSpeed: real,
    lastPlayerSpeed: real,
    speedMeasurements: int)

  /** One row of `player_stats_data`. */
  datatype StatsRow = StatsRow(frameNum: int, player1: PlayerStats, player2: PlayerStats)

  const ZeroStats: PlayerStats := PlayerStats(0, 0.0, 0.0, 0.0, 0.0, 0)

  /** The first row: every counter and speed 0, at frame 0. */
  const InitialRow: StatsRow := StatsRow(0, ZeroStats, ZeroStats)

  /** What one measured interval contributes. */
  datatype Shot = Shot(start: int, shooter: int, opponent: int,
                       ballSpeed: real, shooterSpeed: real, opponentSpeed: real)

  // ---------------------------------------------------------------------------
  // One interval
  // ---------------------------------------------------------------------------

  /** `seq[i]` where an out-of-range index counts as missing. */
  function BallAt(balls: seq<Option<Point>>, i: int): Option<Point> {
    if 0 <= i < |balls| then balls[i] else None
  }

  /** The mapped player positions of frame `i`; none beyond the list. */
  function PlayersAt(players: seq<seq<PlayerSpot>>, i: int): seq<PlayerSpot> {
    if 0 <= i < |players| then players[i] else []
  }

  /** `dict.get(id)` on a frame's positions. */
  function SpotOf(frame: seq<PlayerSpot>, id: int): Option<Point> {
    if |frame| == 0 then None
    else if frame[0].id == id then Some(frame[0].position)
    else SpotOf(frame[1..], id)
  }

  /** The player nearest the ball: the first (in dictionary order) at the
      least distance, as `min` over the keys returns it. */
  function Nearest(env: Env, frame: seq<PlayerSpot>, ball: Point): (k: nat)
    requires |frame| > 0
    ensures k < |frame|
    ensures forall j :: 0 <= j < |frame| ==> env.distance(frame[k].position, ball) <= env.distance(frame[j].position, ball)
    ensures forall j :: 0 <= j < k ==> env.distance(frame[j].position, ball) > env.distance(frame[k].position, ball)
  {
    if |frame| == 1 then 0
    else
      var k := Nearest(env, frame[..|frame| - 1], ball);
      var last := |frame| - 1;
      if env.distance(frame[last].position, ball) < env.distance(frame[k].position, ball) then last else k
  }

  /** The opponent of the shooter: 1 when the shooter is 2, else 2. */
  function Opponent(shooter: int): (o: int)
    ensures shooter == 1 || shooter == 2 ==> (o == 1 || o == 2) && o != shooter
    ensures shooter != 1 && shooter != 2 ==> o == 2
  {
    if shooter == 2 then 1 else 2
  }

  /** A speed in km/h from two positions and the elapsed seconds. */
  function Speed(env: Env, from: Point, to: Point, seconds: real): real
    requires seconds != 0.0
  {
    (env.toMeters(env.distance(from, to)) / seconds) * KmhPerMs
  }

  /** The body of the fold for the interval from `start` to `end`: None
      when the source skips it with `continue`. */
  function MeasureShot(env: Env, balls: seq<Option<Point>>, players: seq<seq<PlayerSpot>>, start: int, end: int): Option<Shot>
  {
    var ballStart := BallAt(balls, start);
    var ballEnd := BallAt(balls, end);
    var seconds := (end - start) as real / FramesPerSecond;
    var atStart := PlayersAt(players, start);
    var atEnd := PlayersAt(players, end);
    if ballStart.None? || ballEnd.None? then None
    else if seconds == 0.0 then None
    else if |atStart| == 0 then None
    else
      var shooter := atStart[Nearest(env, atStart, ballStart.value)].id;
      var opponent := Opponent(shooter);
      var opponentStart := SpotOf(atStart, opponent);
      var opponentEnd := SpotOf(atEnd, opponent);
      if opponentStart.None? || opponentEnd.None? then None
      else
        var shooterStart := SpotOf(atStart, shooter);
        var shooterEnd := SpotOf(atEnd, shooter);
        var shooterSpeed :=
          if shooterStart.None? || shooterEnd.None? then 0.0
          else Speed(env, shooterStart.value, shooterEnd.value, seconds);
        Some(Shot(start, shooter, opponent,
                  Speed(env, ballStart.value, ballEnd.value, seconds),
                  shooterSpeed,
                  Speed(env, opponentStart.value, opponentEnd.value, seconds)))
  }

  /** An interval is skipped exactly for the four reasons of the source: a
      missing ball at either end, no elapsed time, no players at the start,
      or a missing opponent at either end. When it is measured, the shooter
      is the player nearest the ball and the opponent is the other one. */
  lemma SkipReasons(env: Env, balls: seq<Option<Point>>, players: seq<seq<PlayerSpot>>, start: int, end: int)
    ensures var s := MeasureShot(env, balls, players, start, end);
      s.None? <==>
        || BallAt(balls, start).None? || BallAt(balls, end).None?
        || start == end
        || |PlayersAt(players, start)| == 0
        || (var atStart := PlayersAt(players, start);
            var shooter := atStart[Nearest(env, atStart, BallAt(balls, start).value)].id;
            SpotOf(atStart, Opponent(shooter)).None? || SpotOf(PlayersAt(players, end), Opponent(shooter)).None?)
    ensures var s := MeasureShot(env, balls, players, start, end);
      s.Some? ==>
        var atStart := PlayersAt(players, start);
        && s.value.start == start
        && s.value.shooter == atStart[Nearest(env, atStart, BallAt(balls, start).value)].id
        && s.value.opponent == Opponent(s.value.shooter)
  {
    if start != end {
      assert (end - start) as real / FramesPerSecond != 0.0;
    }
  }

  /** The shooter's own speed is 0 when its position at the end of the
      interval is missing. */
  lemma ShooterWithoutEndStandsStill(env: Env, balls: seq<Option<Point>>, players: seq<seq<PlayerSpot>>, start: int, end: int)
    requires MeasureShot(env, balls, players, start, end).Some?
    requires SpotOf(PlayersAt(players, end), MeasureShot(env, balls, players, start, end).value.shooter).None?
    ensures MeasureShot(env, balls, players, start, end).value.shooterSpeed == 0.0
  {
  }

  // ---------------------------------------------------------------------------
  // The fold
  // ---------------------------------------------------------------------------

  /** The shooter's columns after a shot. */
  function AsShooter(p: PlayerStats, s: Shot): PlayerStats {
    p.(numberOfShots := p.numberOfShots + 1,
       totalShotSpeed := p.totalShotSpeed + s.ballSpeed,
       lastShotSpeed := s.ballSpeed,
       totalPlayerSpeed := p.totalPlayerSpeed + s.shooterSpeed,
       lastPlayerSpeed := s.shooterSpeed,
       speedMeasurements := p.speedMeasurements + 1)
  }

  /** The opponent's columns after a shot. */
  function AsOpponent(p: PlayerStats, s: Shot): PlayerStats {
    p.(totalPlayerSpeed := p.totalPlayerSpeed + s.opponentSpeed,
       lastPlayerSpeed := s.opponentSpeed,
       speedMeasurements := p.speedMeasurements + 1)
  }

  /** The row appended for a shot: a copy of the previous row at the
      interval's start frame, with the shooter's and the opponent's columns
      updated. */
  function Record(prev: StatsRow, s: Shot): StatsRow
    requires s.shooter == 1 || s.shooter == 2
  {
    if s.shooter == 1 then StatsRow(s.start, AsShooter(prev.player1, s), AsOpponent(prev.player2, s))
    else StatsRow(s.start, AsOpponent(prev.player1, s), AsShooter(prev.player2, s))
  }

  /** How the counters of two successive rows relate: exactly one player
      shot once more, both took one more speed measurement, and nothing
      else about the counts changed. */
  predicate CountersStep(prev: StatsRow, next: StatsRow) {
    && next.player1.speedMeasurements == prev.player1.speedMeasurements + 1
    && next.player2.speedMeasurements == prev.player2.speedMeasurements + 1
    && ((next.player1.numberOfShots == prev.player1.numberOfShots + 1 &&
         next.player2.numberOfShots == prev.player2.numberOfShots) ||
        (next.player1.numberOfShots == prev.player1.numberOfShots &&
         next.player2.numberOfShots == prev.player2.numberOfShots + 1))
  }

  /** The columns of player `p` (1 or 2) in a row. */
  function Columns(row: StatsRow, p: int): PlayerStats
    requires p == 1 || p == 2
  {
    if p == 1 then row.player1 else row.player2
  }

  /** A recorded row is stamped with the shot's start frame and moves the
      counters by one step. The shooter shot once more at the ball's speed,
      which its shot total gains and which becomes its last shot speed; its
      own speed is added to its speed total and becomes its last speed. The
      opponent's speed is added to the opponent's speed total and becomes
      its last speed, and the opponent's other columns are unchanged. */
  lemma RecordSteps(prev: StatsRow, s: Shot)
    requires s.shooter == 1 || s.shooter == 2
    ensures CountersStep(prev, Record(prev, s))
    ensures Record(prev, s).frameNum == s.start
    ensures var before, after := Columns(prev, s.shooter), Columns(Record(prev, s), s.shooter);
      && after.numberOfShots == before.numberOfShots + 1
      && after.totalShotSpeed == before.totalShotSpeed + s.ballSpeed
      && after.lastShotSpeed == s.ballSpeed
      && after.totalPlayerSpeed == before.totalPlayerSpeed + s.shooterSpeed
      && after.lastPlayerSpeed == s.shooterSpeed
      && after.speedMeasurements == before.speedMeasurements + 1
    ensures var o := Opponent(s.shooter);
            var before, after := Columns(prev, o), Columns(Record(prev, s), o);
      && after.numberOfShots == before.numberOfShots
      && after.totalShotSpeed == before.totalShotSpeed
      && after.lastShotSpeed == before.lastShotSpeed
      && after.totalPlayerSpeed == before.totalPlayerSpeed + s.opponentSpeed
      && after.lastPlayerSpeed == s.opponentSpeed
      && after.speedMeasurements == before.speedMeasurements + 1
  {
  }

  /** The number of intervals: pairs of consecutive hit frames. */
  function Intervals(shots: seq<nat>): nat {
    if |shots| == 0 then 0 else |shots| - 1
  }

  /** What each interval contributes, in order. */
  function Measurements(env: Env, balls: seq<Option<Point>>, players: seq<seq<PlayerSpot>>, shots: seq<nat>): (ms: seq<Option<Shot>>)
    ensures |ms| == Intervals(shots)
  {
    seq(Intervals(shots), m requires 0 <= m < Intervals(shots) => MeasureShot(env, balls, players, shots[m], shots[m + 1]))
  }

  /** The table after the contributions `ms`, or the index of the first
      interval whose shooter id has no columns (the source then stops with
      an uncaught `KeyError`). */
  function Fold(ms: seq<Option<Shot>>): (r: Result<seq<StatsRow>, nat>)
    ensures r.Ok? ==> |r.value| > 0 && r.value[0] == InitialRow
    ensures r.Err? ==> r.error < |ms| && ms[r.error].Some? &&
                       ms[r.error].value.shooter != 1 && ms[r.error].value.shooter != 2
  {
    if ms == [] then Ok([InitialRow])
    else
      var before := Fold(ms[..|ms| - 1]);
      var s := ms[|ms| - 1];
      if before.Err? then before
      else if s.None? then before
      else if s.value.shooter != 1 && s.value.shooter != 2 then Err(|ms| - 1)
      else Ok(before.value + [Record(before.value[|before.value| - 1], s.value)])
  }

  /** The number of measured intervals in `ms`. */
  function CountMeasured(ms: seq<Option<Shot>>): (n: nat)
    ensures n <= |ms|
  {
    if ms == [] then 0
    else CountMeasured(ms[..|ms| - 1]) + (if ms[|ms| - 1].Some? then 1 else 0)
  }

  /** The table gains one row per measured interval, every later row is
      one counter step from the row before it, and so the shots of both
      players add up to the number of later rows and each player's
      measurements equal it. */
  lemma {:induction false} FoldShape(ms: seq<Option<Shot>>)
    ensures var r := Fold(ms);
      r.Ok? ==>
        && |r.value| == 1 + CountMeasured(ms)
        && (forall i :: 0 < i < |r.value| ==> CountersStep(r.value[i - 1], r.value[i]))
        && (forall i :: 0 <= i < |r.value| ==>
              r.value[i].player1.numberOfShots + r.value[i].player2.numberOfShots == i &&
              r.value[i].player1.speedMeasurements == i && r.value[i].player2.speedMeasurements == i)
  {
    if ms != [] {
      var init := ms[..|ms| - 1];
      FoldShape(init);
      var before := Fold(init);
      var s := ms[|ms| - 1];
      if before.Ok? && s.Some? && (s.value.shooter == 1 || s.value.shooter == 2) {
        var rows := before.value;
        RecordSteps(rows[|rows| - 1], s.value);
        var after := rows + [Record(rows[|rows| - 1], s.value)];
        assert Fold(ms) == Ok(after);
        forall i | 0 < i < |after|
          ensures CountersStep(after[i - 1], after[i])
        {
          if i < |rows| {
            assert after[i - 1] == rows[i - 1] && after[i] == rows[i];
          }
        }
      }
    }
  }

  /** Counters never decrease from one row to any later row. */
  lemma {:induction false} CountersNeverDecrease(ms: seq<Option<Shot>>, i: nat, j: nat)
    requires Fold(ms).Ok? && i <= j < |Fold(ms).value|
    decreases j - i
    ensures var rows := Fold(ms).value;
      && rows[i].player1.numberOfShots <= rows[j].player1.numberOfShots
      && rows[i].player2.numberOfShots <= rows[j].player2.numberOfShots
      && rows[i].player1.speedMeasurements <= rows[j].player1.speedMeasurements
      && rows[i].player2.speedMeasurements <= rows[j].player2.speedMeasurements
  {
    if i < j {
      FoldShape(ms);
      CountersNeverDecrease(ms, i + 1, j);
      assert CountersStep(Fold(ms).value[i], Fold(ms).value[i + 1]);
    }
  }

  /** Every row after the first is stamped with the start frame of a
      measured interval. */
  lemma {:induction false} RowsAtShotStarts(ms: seq<Option<Shot>>)
    ensures var r := Fold(ms);
      r.Ok? ==> forall i :: 0 < i < |r.value| ==>
        exists m :: 0 <= m < |ms| && ms[m].Some? && r.value[i].frameNum == ms[m].value.start
  {
    if ms != [] {
      var init := ms[..|ms| - 1];
      RowsAtShotStarts(init);
      var before := Fold(init);
      var r := Fold(ms);
      if r.Ok? {
        assert before.Ok?;
        forall i | 0 < i < |r.value|
          ensures exists m :: 0 <= m < |ms| && ms[m].Some? && r.value[i].frameNum == ms[m].value.start
        {
          if i < |before.value| {
            assert r.value[i] == before.value[i];
            var m :| 0 <= m < |init| && init[m].Some? && before.value[i].frameNum == init[m].value.start;
            assert ms[m] == init[m];
          } else {
            var s := ms[|ms| - 1];
            RecordSteps(before.value[|before.value| - 1], s.value);
            assert r.value[i].frameNum == ms[|ms| - 1].value.start;
          }
        }
      }
    }
  }

  /** Once an interval fails, every longer run of intervals fails there. */
  lemma {:induction false} FailureSticks(ms: seq<Option<Shot>>, k: nat)
    requires k <= |ms| && Fold(ms[..k]).Err?
    ensures Fold(ms) == Fold(ms[..k])
    decreases |ms| - k
  {
    if k < |ms| {
      assert ms[..k + 1][..k] == ms[..k];
      FailureSticks(ms, k + 1);
    } else {
      assert ms[..k] == ms;
    }
  }

  /** The number of measured shots of player `p`. */
  function ShotsBy(ms: seq<Option<Shot>>, p: int): nat {
    if ms == [] then 0
    else ShotsBy(ms[..|ms| - 1], p) + (if ms[|ms| - 1].Some? && ms[|ms| - 1].value.shooter == p then 1 else 0)
  }

  /** The sum of the ball speeds of the measured shots of player `p`. */
  function ShotSpeedSum(ms: seq<Option<Shot>>, p: int): real {
    if ms == [] then 0.0
    else
      ShotSpeedSum(ms[..|ms| - 1], p) +
        (if ms[|ms| - 1].Some? && ms[|ms| - 1].value.shooter == p then ms[|ms| - 1].value.ballSpeed else 0.0)
  }

  /** The sum of player `p`'s own speeds over the measured shots: its speed
      as the shooter when it shot, its speed as the opponent otherwise. */
  function PlayerSpeedSum(ms: seq<Option<Shot>>, p: int): real {
    if ms == [] then 0.0
    else
      var s := ms[|ms| - 1];
      PlayerSpeedSum(ms[..|ms| - 1], p) +
        (if s.None? then 0.0 else if s.value.shooter == p then s.value.shooterSpeed else s.value.opponentSpeed)
  }

  /** The last row of the table holds, for each player, the number of its
      measured shots, the sum of their ball speeds, the sum of its own
      speeds over every measured shot, and the number of measured shots as
      its measurement count. */
  lemma {:induction false} FoldTotals(ms: seq<Option<Shot>>, p: int)
    requires p == 1 || p == 2
    ensures var r := Fold(ms);
      r.Ok? ==>
        var last := Columns(r.value[|r.value| - 1], p);
        && last.numberOfShots == ShotsBy(ms, p)
        && last.totalShotSpeed == ShotSpeedSum(ms, p)
        && last.totalPlayerSpeed == PlayerSpeedSum(ms, p)
        && last.speedMeasurements == CountMeasured(ms)
  {
    if ms != [] {
      var init := ms[..|ms| - 1];
      FoldTotals(init, p);
      var before := Fold(init);
      var s := ms[|ms| - 1];
      if before.Ok? && s.Some? && (s.value.shooter == 1 || s.value.shooter == 2) {
        var rows := before.value;
        RecordSteps(rows[|rows| - 1], s.value);
        assert Fold(ms).value[|Fold(ms).value| - 1] == Record(rows[|rows| - 1], s.value);
        if s.value.shooter != p {
          assert p == Opponent(s.value.shooter);
        }
      }
    }
  }

  /** Every row of the table is the last row of the table of some prefix
      of the intervals. */
  lemma {:induction false} RowIsLastOfPrefix(ms: seq<Option<Shot>>, i: nat) returns (k: nat)
    requires Fold(ms).Ok? && i < |Fold(ms).value|
    ensures k <= |ms| && Fold(ms[..k]) == Ok(Fold(ms).value[..i + 1])
  {
    var rows := Fold(ms).value;
    if i + 1 == |rows| {
      k := |ms|;
      assert ms[..k] == ms && rows[..i + 1] == rows;
    } else {
      var init := ms[..|ms| - 1];
      var before := Fold(init).value;
      assert i < |before| && before[..i + 1] == rows[..i + 1];
      k := RowIsLastOfPrefix(init, i);
      assert init[..k] == ms[..k];
    }
  }

  /** Every measured shot of player `p` has the ball speed `speed`. */
  predicate SameBallSpeed(ms: seq<Option<Shot>>, p: int, speed: real) {
    forall m :: 0 <= m < |ms| && ms[m].Some? && ms[m].value.shooter == p ==> ms[m].value.ballSpeed == speed
  }

  /** Sums of a constant ball speed. */
  lemma {:induction false} ConstantShotSpeedSum(ms: seq<Option<Shot>>, p: int, speed: real)
    requires SameBallSpeed(ms, p, speed)
    ensures ShotSpeedSum(ms, p) == Mul(speed, ShotsBy(ms, p) as real)
  {
    if ms != [] {
      var init := ms[..|ms| - 1];
      assert forall m :: 0 <= m < |init| ==> init[m] == ms[m];
      ConstantShotSpeedSum(init, p, speed);
    }
  }

  /** A measured interval starts at its first hit frame. */
  lemma MeasurementStarts(env: Env, balls: seq<Option<Point>>, players: seq<seq<PlayerSpot>>, shots: seq<nat>, m: nat)
    requires m < Intervals(shots)
    requires Measurements(env, balls, players, shots)[m].Some?
    ensures Measurements(env, balls, players, shots)[m].value.start == shots[m]
  {
    SkipReasons(env, balls, players, shots[m], shots[m + 1]);
  }

  /** Folding one more contribution onto a prefix. */
  lemma FoldSnoc(ms: seq<Option<Shot>>, k: nat)
    requires k < |ms|
    ensures var before := Fold(ms[..k]);
      Fold(ms[..k + 1]) ==
        if before.Err? || ms[k].None? then before
        else if ms[k].value.shooter != 1 && ms[k].value.shooter != 2 then Err(k)
        else Ok(before.value + [Record(before.value[|before.value| - 1], ms[k].value)])
  {
    assert ms[..k + 1][..k] == ms[..k];
  }

  /** The statistics loop of the script: one row per measured pair of
      consecutive hit frames, or the interval at which it fails. */
  method ComputePlayerStats(env: Env, balls: seq<Option<Point>>, players: seq<seq<PlayerSpot>>, shots: seq<nat>)
    returns (r: Result<seq<StatsRow>, nat>)
    ensures r == Fold(Measurements(env, balls, players, shots))
  {
    ghost var ms := Measurements(env, balls, players, shots);
    var rows := [InitialRow];
    var k := 0;
    while k < Intervals(shots)
      invariant 0 <= k <= Intervals(shots)
      invariant Fold(ms[..k]) == Ok(rows)
    {
      var shot := MeasureShot(env, balls, players, shots[k], shots[k + 1]);
      assert ms[k] == shot;
      FoldSnoc(ms, k);
      if shot.Some? {
        if shot.value.shooter != 1 && shot.value.shooter != 2 {
          FailureSticks(ms, k + 1);
          return Err(k);
        }
        var current := Record(rows[|rows| - 1], shot.value);
        rows := rows + [current];
      }
      k := k + 1;
    }
    assert ms[..k] == ms;
    r := Ok(rows);
  }

  // ---------------------------------------------------------------------------
  // Per-frame table and averages
  // ---------------------------------------------------------------------------

  /** Rows stamped with strictly increasing frames, as they are when the
      hit frames increase. */
  predicate FramesIncrease(rows: seq<StatsRow>) {
    forall i, j :: 0 <= i < j < |rows| ==> rows[i].frameNum < rows[j].frameNum
  }

  /** The row in force at frame `i` after the left join and the forward
      fill: the last row stamped at or before `i`; None before the first. */
  function InForce(rows: seq<StatsRow>, i: int): (r: Option<StatsRow>)
    ensures r.Some? ==> r.value in rows && r.value.frameNum <= i
    ensures r.None? <==> forall j :: 0 <= j < |rows| ==> rows[j].frameNum > i
  {
    if |rows| == 0 then None
    else if rows[|rows| - 1].frameNum <= i then Some(rows[|rows| - 1])
    else InForce(rows[..|rows| - 1], i)
  }

  /** With increasing frames, the row in force is the one with the latest
      stamp not after `i`. */
  lemma {:induction false} InForceIsLatest(rows: seq<StatsRow>, i: int, j: nat)
    requires FramesIncrease(rows) && j < |rows| && rows[j].frameNum <= i
    requires j + 1 == |rows| || rows[j + 1].frameNum > i
    ensures InForce(rows, i) == Some(rows[j])
  {
    if j + 1 < |rows| {
      InForceIsLatest(rows[..|rows| - 1], i, j);
    }
  }

  /** Before the first stamped frame no row is in force. */
  lemma NothingInForceBeforeFirst(rows: seq<StatsRow>, i: int)
    requires FramesIncrease(rows) && (|rows| == 0 || rows[0].frameNum > i)
    ensures InForce(rows, i) == None
  {
    forall t | 0 < t < |rows| ensures rows[0].frameNum < rows[t].frameNum { }
  }

  /** The merge onto frames 0..n-1 and the forward fill, by a walk that
      either moves past a row whose frame is reached or emits the row in
      force at the current frame. */
  method FillFrames(rows: seq<StatsRow>, n: nat) returns (table: seq<Option<StatsRow>>)
    requires FramesIncrease(rows)
    ensures |table| == n
    ensures forall i :: 0 <= i < n ==> table[i] == InForce(rows, i)
  {
    table := [];
    var j := 0;
    var i := 0;
    while i < n
      invariant 0 <= i <= n && 0 <= j <= |rows|
      invariant |table| == i
      invariant forall t :: 0 <= t < i ==> table[t] == InForce(rows, t)
      invariant j > 0 ==> rows[j - 1].frameNum <= i
      decreases n - i, |rows| - j
    {
      if j < |rows| && rows[j].frameNum <= i {
        j := j + 1;
      } else {
        if j == 0 {
          NothingInForceBeforeFirst(rows, i);
          table := table + [None];
        } else {
          InForceIsLatest(rows, i, j - 1);
          table := table + [Some(rows[j - 1])];
        }
        i := i + 1;
      }
    }
  }

  /** Every frame has statistics when the first row is stamped at frame 0. */
  lemma EveryFrameCovered(rows: seq<StatsRow>, i: nat)
    requires |rows| > 0 && rows[0].frameNum == 0
    ensures InForce(rows, i).Some?
  {
  }

  /** `total / count`, or 0 for a zero count. */
  function AverageOrZero(total: real, count: int): (a: real)
    ensures count > 0 ==> a * count as real == total
    ensures count <= 0 ==> a == 0.0
  {
    if count > 0 then total / count as real else 0.0
  }

  /** The four average columns of a row. */
  datatype Averages = Averages(player1ShotSpeed: real, player2ShotSpeed: real,
                               player1PlayerSpeed: real, player2PlayerSpeed: real)

  function RowAverages(row: StatsRow): Averages {
    Averages(AverageOrZero(row.player1.totalShotSpeed, row.player1.numberOfShots),
             AverageOrZero(row.player2.totalShotSpeed, row.player2.numberOfShots),
             AverageOrZero(row.player1.totalPlayerSpeed, row.player1.speedMeasurements),
             AverageOrZero(row.player2.totalPlayerSpeed, row.player2.speedMeasurements))
  }

  /** The average shot speed of player `p` (1 or 2) in a row. */
  function ShotSpeedAverage(a: Averages, p: int): real {
    if p == 1 then a.player1ShotSpeed else a.player2ShotSpeed
  }

  /** A player whose every measured shot has the same ball speed averages
      that speed in every row of the table where it has shot, and 0 in the
      rows before its first shot. */
  lemma ConstantSpeedAverage(ms: seq<Option<Shot>>, p: int, speed: real, i: nat)
    requires p == 1 || p == 2
    requires Fold(ms).Ok? && i < |Fold(ms).value|
    requires SameBallSpeed(ms, p, speed)
    ensures var row := Fold(ms).value[i];
      ShotSpeedAverage(RowAverages(row), p) == if Columns(row, p).numberOfShots > 0 then speed else 0.0
  {
    var k := RowIsLastOfPrefix(ms, i);
    var prefix := ms[..k];
    assert forall m :: 0 <= m < |prefix| ==> prefix[m] == ms[m];
    LastRowConstantAverage(prefix, p, speed);
  }

  /** The same, for the last row of the table. */
  lemma LastRowConstantAverage(ms: seq<Option<Shot>>, p: int, speed: real)
    requires p == 1 || p == 2
    requires Fold(ms).Ok?
    requires SameBallSpeed(ms, p, speed)
    ensures var row := Fold(ms).value[|Fold(ms).value| - 1];
      ShotSpeedAverage(RowAverages(row), p) == if Columns(row, p).numberOfShots > 0 then speed else 0.0
  {
    var rows := Fold(ms).value;
    var row := rows[|rows| - 1];
    var n := ShotsBy(ms, p);
    FoldTotals(ms, p);
    ConstantShotSpeedSum(ms, p, speed);
    assert Columns(row, p).numberOfShots == n;
    RowOfConstantAverage(row, p, speed, n);
  }

  /** A row whose shot total is `n` times one speed averages that speed. */
  lemma RowOfConstantAverage(row: StatsRow, p: int, speed: real, n: nat)
    requires p == 1 || p == 2
    requires Columns(row, p).numberOfShots == n && Columns(row, p).totalShotSpeed == Mul(speed, n as real)
    ensures ShotSpeedAverage(RowAverages(row), p) == if n > 0 then speed else 0.0
  {
    AverageOfConstant(speed, n);
  }

  lemma AverageOfConstant(speed: real, n: nat)
    ensures AverageOrZero(Mul(speed, n as real), n) == if n > 0 then speed else 0.0
  {
    if n > 0 {
      assert speed * n as real / n as real == speed;
    }
  }
}
