# padel-ia analysis core in Dafny

This project models the deterministic per-frame analysis of the padel-ia
system. That analysis sits between the neural detectors and the video, web
and HTTP layers. The detector and keypoint outputs are inputs here. Library
numerics and the `utils` helpers, whose source is not part of this model,
are function-valued parameters. Coordinates are reals.

| file | module | models |
|---|---|---|
| `wrappers.dfy` | `Wrappers` | `Option`, `Result`, and an extended real with +∞ (Python's `float('inf')`) |
| `geometry.dfy` | `Geometry` | boxes `[x1, y1, x2, y2]`, points, and a few facts about products |
| `sequences.dfy` | `Sequences` | strictly increasing index lists, `list.remove`, sums |
| `player_tracking.dfy` | `PlayerTracking` | the IoU player tracker of `PlayerYoloDetector` (class `Tracker`) |
| `ball_hits.dfy` | `BallHits` | `BallTracker.detect_ball_hits`, a sign-reversal hit detector over smoothed ball heights |
| `trajectory.dfy` | `TrajectorySmoother` | `BallTracker.smooth_trajectory`: outlier pass, gap filling, velocity clamp, box rebuild |
| `mini_court.dfy` | `MiniCourtMapping` | the mini-court canvas, its 14 keypoints, the pixel-to-court mapping, the smoothed ball trail (class `MiniCourt`) |
| `kinematics.dfy` | `Kinematics` | the per-shot statistics fold of `test.py`, its averages and the per-frame forward fill |
| `match_processor.dfy` | `MatchProcessing` | the proximity hit counter of `PadelMatchProcessor` (class `MatchProcessor`) |
| `report.dfy` | `MatchReport` | extension stripping, and the figures, labels and filename of `generate_report` |

The tracker, the hit counter and the mini-court are classes, because the
source updates their fields in place. Each of their methods states the new
state. The loops of the source are methods with loop invariants, each
proved equal to a specification function, and the properties the source
promises are lemmas about those functions.

## Model

| member | source | states |
|---|---|---|
| PlayerTracking.Iou | app/yolo/player_detector.py:28-38 | For well-formed boxes the IoU lies in [0, 1), because of the 1e-6 term in the denominator. It is 0 when the clamped intersection is 0. |
| PlayerTracking.IouSymmetric | app/yolo/player_detector.py:28-38 | The IoU does not depend on the order of the two boxes. |
| PlayerTracking.IouOfSeparatedBoxes | app/yolo/player_detector.py:29-33 | Boxes separated along x or y have IoU 0. |
| PlayerTracking.IntersectionWithinAreas | app/yolo/player_detector.py:29-33 | The clamped intersection is non-negative and at most either box's area. |
| PlayerTracking.FindBestMatch | app/yolo/player_detector.py:44-49 | The loop over the tracks returns no position iff no track has IoU above 0.3. Otherwise it returns the first track in key order with the strictly greatest IoU, and that IoU is above 0.3. |
| PlayerTracking.BestPositionIsBestTrack | app/yolo/player_detector.py:44-51 | With ids in ascending key order, the first strictly-greatest track is the best track: IoU above 0.3, no track better, and no smaller id as good. |
| PlayerTracking.NoMatchIsNoTrackMatches | app/yolo/player_detector.py:51-57 | When the loop finds nothing, no tracked box has IoU above 0.3. |
| PlayerTracking.InvAfterMatch | app/yolo/player_detector.py:51-55 | Replacing a matched track's box and resetting its counter to 0 keeps the tracker invariant: both tables have the same keys, in strictly increasing key order, all below the next id, with counters in [0, 11]. |
| PlayerTracking.InvAfterNew | app/yolo/player_detector.py:57-62 | Opening a track under the next id keeps the invariant. That id is not yet tracked, so ids are never reused. |
| PlayerTracking.InvAfterDelete | app/yolo/player_detector.py:73-75 | Deleting an id from both tables keeps the invariant. |
| PlayerTracking.IncrementAll | app/yolo/player_detector.py:77-79 | Once no counter exceeds 10, incrementing every counter keeps the invariant. |
| PlayerTracking.CleanupCounters | app/yolo/player_detector.py:64-79 | Cleanup keeps exactly the ids whose counter is at most 10, each one incremented by 1. |
| PlayerTracking.StaleIds | app/yolo/player_detector.py:68-71 | The ids collected for deletion are exactly the tracked ids whose counter exceeds 10. |
| PlayerTracking.UnmatchedCounterAdvances | app/yolo/player_detector.py:64-79 | A track that is never matched again gains exactly 1 per cleanup while it survives. |
| PlayerTracking.UnmatchedTrackLifetime | app/yolo/player_detector.py:64-79 | A freshly matched track that is never matched again survives 11 cleanups, reaching counter 11, and is gone after the 12th. |
| PlayerTracking.CleanupTimesShift | app/yolo/player_detector.py:64-79 | k+1 cleanups are one more cleanup after k cleanups. |
| PlayerTracking.Tracker.constructor | app/yolo/player_detector.py:128-130 | A new tracker starts at id 0 with both tables empty, and the invariant holds. |
| PlayerTracking.Tracker.Reset | app/yolo/player_detector.py:128-130 | The reset before a video sets the next id to 0 and empties both tables: the tables are the fresh ones `VideoResult` starts from. |
| PlayerTracking.Tracker.AssignId | app/yolo/player_detector.py:40-62 | Without a matching track, the result is the old next id, which then grows by exactly 1, and the new id goes last in key order. Otherwise the result is the best track and the next id is unchanged. In both cases the box is stored under the result and its counter becomes 0. The new tables and the id are those of `Assign` on the old tables. |
| PlayerTracking.Tracker.CleanupMissingPlayers | app/yolo/player_detector.py:64-79 | The loops leave the tables `Cleanup` gives for the old tables: the counters are the cleaned-up counters, surviving boxes are unchanged, the next id is unchanged, and the invariant holds. |
| PlayerTracking.Tracker.ProcessFrame | app/yolo/player_detector.py:81-119 | The new tables and the reported detections are those of `FrameResult` on the old tables: the cleanup first, then one `Assign` per qualifying box in order, each box reported with the id it was given and the confidence of the first qualifying detection with that box. |
| PlayerTracking.Tracker.ProcessVideo | app/yolo/player_detector.py:121-139 | The final tables and the reported detections are those of `VideoResult`: from the reset tables, each frame processed in turn, with the reports of all frames concatenated in frame order. |
| PlayerTracking.Surviving | app/yolo/player_detector.py:68-75 | The deletions keep exactly the ids whose counter is at most 10, in their old key order, so that order stays ascending. |
| PlayerTracking.Cleanup | app/yolo/player_detector.py:64-79 | On the tables: the next id is unchanged, the counters are the cleaned-up counters, exactly the tracks with a counter of at most 10 remain with their boxes unchanged, and the invariant holds. |
| PlayerTracking.CleanupDetermined | app/yolo/player_detector.py:64-79 | Any valid tables with the cleanup's next id and counters, and the old boxes, are the cleanup's result: ascending key order is fixed by the keys. |
| PlayerTracking.FirstBestExists | app/yolo/player_detector.py:44-51 | When some track overlaps the box with IoU above 0.3, some position of the key order holds the first strictly greatest IoU. |
| PlayerTracking.BestTrackUnique | app/yolo/player_detector.py:44-51 | There is at most one best track for a box. |
| PlayerTracking.Assign | app/yolo/player_detector.py:40-62 | On the tables: without a matching track the id is the old next id, not yet tracked; the next id grows by 1 and the id goes last in key order. Otherwise the id is the best track, and the next id and key order are unchanged. The box is stored under the id, its counter becomes 0, and the invariant holds. |
| PlayerTracking.StillPlayerKeepsId | app/yolo/player_detector.py:40-62 | A box equal to a track's stored box, of area at least 1 and overlapping no other track, is given that track's id again. |
| PlayerTracking.AssignAll | app/yolo/player_detector.py:99-101 | The assignment loop from given tables keeps the invariant and gives one id per qualifying box. |
| PlayerTracking.AssignAllFacts | app/yolo/player_detector.py:99-101 | The assignment loop never deletes a track and never lowers the next id. New tracks take ids at or above the old next id, and every id it gives is tracked afterwards. |
| PlayerTracking.FirstConfidence | app/yolo/player_detector.py:103-117 | None iff no detection at or above the threshold has the box. Otherwise the value is at or above the threshold and is the confidence of the first such detection. |
| PlayerTracking.LabelAll | app/yolo/player_detector.py:99-117 | When every kept box has a qualifying detection, every box is reported, in order, with its own id and the confidence of its first qualifying detection. |
| PlayerTracking.Label | app/yolo/player_detector.py:99-117 | At most one report per kept box, in order, each with the id it was given and the confidence of its first qualifying detection; `LabelAll` states the contents. |
| PlayerTracking.FrameResultFacts | app/yolo/player_detector.py:81-119 | One frame reports every qualifying box, in order, with a confidence at or above the threshold and a tracked id. The next id never decreases, new tracks take ids at or above the old next id, and tracks whose counter exceeded 10 are gone. |
| PlayerTracking.FrameResult | app/yolo/player_detector.py:81-119 | One frame on the tables: the cleanup, then one `Assign` per qualifying box in order, and the labelled reports; the tables stay valid. |
| PlayerTracking.VideoResultFacts | app/yolo/player_detector.py:121-139 | Every detection reported over a video has an id in [0, final next id) and a confidence at or above the threshold. |
| PlayerTracking.VideoResult | app/yolo/player_detector.py:121-139 | From the fresh tables, `FrameResult` for each frame in turn with the reports concatenated; the tables stay valid. |
| PlayerTracking.Qualifying | app/yolo/player_detector.py:92-97 | Keeps exactly the detections whose confidence is at or above the threshold. |
| PlayerTracking.QualifyingAppend | app/yolo/player_detector.py:90-97 | The kept list preserves the input's order and repeats: filtering a concatenation concatenates the filtered parts, and one detection is kept iff its confidence reaches the threshold. With the empty case, this fixes the list the ids are issued in. |
| PlayerTracking.QualifyingHasSource | app/yolo/player_detector.py:92-97 | Every kept detection is one of the input detections. |
| PlayerTracking.LookupConfidence | app/yolo/player_detector.py:103-117 | The search loop with its `break` returns `FirstConfidence`: the confidence of the first detection at or above the threshold whose box equals the given box, or nothing. |
| BallHits.Deltas | trackers/ball_tracker.py:62-72 | There is one delta per frame, and the first delta is 0 because `diff` followed by `fillna(0)` gives 0 there. |
| BallHits.DeltasTelescope | trackers/ball_tracker.py:62-72 | The deltas up to frame k add up to the change of the smoothed height since frame 0. |
| BallHits.ConstantHeightHasNoHits | trackers/ball_tracker.py:62-101 | A ball at constant height has zero deltas and no hit. |
| BallHits.Window | trackers/ball_tracker.py:78-87 | The confirmation window ⌊1.2·m⌋ is at least m. |
| BallHits.CountOpposite | trackers/ball_tracker.py:87-99 | The count of confirming frames never exceeds the frames inspected. |
| BallHits.HitFlags | trackers/ball_tracker.py:78-101 | Frame i is flagged iff 1 ≤ i < n − ⌊1.2·m⌋, delta[i] and delta[i+1] have strictly opposite signs (so a zero delta never starts a hit), and at least m of frames i+1 … min(i+⌊1.2·m⌋, n−1) have a sign strictly opposite to delta[i]. |
| BallHits.HitLeavesRoomToConfirm | trackers/ball_tracker.py:78-101 | A hit at i has at least m frames after it. |
| BallHits.FlaggedFrames | trackers/ball_tracker.py:104-113 | The hit list is strictly ascending and holds exactly the flagged frames that are not at the hard-coded artifact coordinate. |
| BallHits.KnownPositions | trackers/ball_tracker.py:116-120 | The known-position table has exactly the hit frames as keys, each mapped to that frame's box. |
| BallHits.DetectBallHits | trackers/ball_tracker.py:62-128 | The hits are strictly ascending. Frame i is a hit iff the sign-reversal test holds and the frame is not an artifact. Every hit lies in [1, n − ⌊1.2·m⌋) with a non-zero delta. The known positions are exactly the hit frames' boxes. |
| BallHits.DetectBallHitsCached | trackers/ball_tracker.py:54-128 | A stored result is returned unchanged unless recomputation is asked for. Otherwise the detector runs and its result is stored: the hits are strictly ascending, and the known-position table has exactly the hit frames as keys, each mapped to that frame's row. |
| TrajectorySmoother.Velocity | trackers/ball_tracker.py:130-134 | +∞ iff either point is missing, otherwise the distance between the points. |
| TrajectorySmoother.ReversalIsOutlier | trackers/ball_tracker.py:151-195 | A ball that returns to where it came from turns 180° and is an outlier, unless the frame is a hit frame. |
| TrajectorySmoother.StraightOnIsNotSharp | trackers/ball_tracker.py:151-175 | A ball that moves on in the same direction never turns by more than 150°. |
| TrajectorySmoother.PrevPresent | trackers/ball_tracker.py:281 | The nearest known sample before a frame, with every frame between them unknown. None iff all earlier frames are unknown. |
| TrajectorySmoother.NextPresent | trackers/ball_tracker.py:282 | The nearest known sample after a frame, with every frame between them unknown. None iff all later frames are unknown. |
| TrajectorySmoother.FindPrev | trackers/ball_tracker.py:301 | The backward search returns the nearest known earlier sample. |
| TrajectorySmoother.FindNext | trackers/ball_tracker.py:302 | The forward search returns the nearest known later sample. |
| TrajectorySmoother.SameNeighboursInGap | trackers/ball_tracker.py:281-282 | Every frame of a run of unknown samples has the same two neighbours. |
| TrajectorySmoother.LerpBetween | trackers/ball_tracker.py:304-306 | An interpolated coordinate lies between the two coordinates it interpolates. |
| TrajectorySmoother.LerpChain | trackers/ball_tracker.py:294-307 | Interpolating again from a point already on the line gives the same value as interpolating across the whole gap. |
| TrajectorySmoother.Centers | trackers/ball_tracker.py:207-215 | There is one centre per frame, and it is present iff the frame has a detection. |
| TrajectorySmoother.CollectCenters | trackers/ball_tracker.py:201-215 | The collection loop yields the centres and the ascending list of detected frames. |
| TrajectorySmoother.FirstPass | trackers/ball_tracker.py:223-263 | Each sample is cleared exactly when the removal test holds on the unfiltered centres. A frame within 5 of either end, a hit frame, or a frame with fewer than 3 known samples in its ±5 window is never cleared. The surviving frame list is ascending and holds exactly the frames still known. |
| TrajectorySmoother.SplineFill | trackers/ball_tracker.py:270-291 | Known samples stay. An unknown non-hit frame whose known neighbours are at most 10 apart gets x interpolated linearly and y from the spline. Every other frame stays unknown. |
| TrajectorySmoother.LinearFillBetween | trackers/ball_tracker.py:292-307 | A frame the fallback fills is not a hit frame, has known samples on both sides, and each coordinate lies between those samples' coordinates. |
| TrajectorySmoother.FallbackNeighbours | trackers/ball_tracker.py:300-307 | In the list being filled, the previous sample found may be one just written. It lies on the line between the original neighbours, and the next sample found is the original one. |
| TrajectorySmoother.LinearFill | trackers/ball_tracker.py:292-307 | The in-place left-to-right fallback gives, at every frame, the fill between the original nearest known neighbours. Hit frames and leading or trailing gaps stay unknown. |
| TrajectorySmoother.FillKeepsAbsence | trackers/ball_tracker.py:270-307 | After either fill the track is entirely unknown iff it was before. |
| TrajectorySmoother.FillGaps | trackers/ball_tracker.py:309-325 | The NaN fill fails iff there are frames and none is known, as `np.interp` raises then. Otherwise every frame gets a value and known frames keep theirs. |
| TrajectorySmoother.FillGapsBetween | trackers/ball_tracker.py:322-325 | A filled value lies between its nearest known neighbours. Before the first or after the last known sample it equals that sample. |
| TrajectorySmoother.SavgolWindow | trackers/ball_tracker.py:328-329 | The window is odd, in [1, 15], and the filter runs iff n ≥ 15 or n is odd. |
| TrajectorySmoother.SavgolRaisesOnlyForOneAndThree | trackers/ball_tracker.py:328-331 | The filter runs with a window not above its order 3 exactly for 1- and 3-frame tracks. |
| TrajectorySmoother.ClampVelocity | trackers/ball_tracker.py:333-342 | A frame strictly inside the track whose incoming smoothed step exceeds 80 px becomes the midpoint of its clamped left neighbour and its smoothed right neighbour. Every other frame keeps its value. The result is `Clamped`. |
| TrajectorySmoother.ClampPrefix | trackers/ball_tracker.py:336-342 | The clamp applied frame by frame from the left gives one value per frame so far, in each coordinate. |
| TrajectorySmoother.ClampDetermined | trackers/ball_tracker.py:336-342 | Any pair of tracks that obeys the clamp's frame-by-frame rule is the clamped track: the in-place loop leaves no choice. |
| TrajectorySmoother.ClampStaysInRange | trackers/ball_tracker.py:338-342 | The clamp never leaves the range of the values it was given. |
| TrajectorySmoother.LastAtMost | trackers/ball_tracker.py:357-359 | The last detected frame at or before idx, if there is one. |
| TrajectorySmoother.FirstAbove | trackers/ball_tracker.py:362-364 | The first detected frame after idx, if there is one. |
| TrajectorySmoother.SizeSource | trackers/ball_tracker.py:355-366 | A source frame for the box size exists iff some frame was detected, and it is a detected frame. |
| TrajectorySmoother.SizeSourceIsNearest | trackers/ball_tracker.py:355-366 | The source is the last detected frame at or before idx. If there is none, it is the first detected frame after idx. |
| TrajectorySmoother.BoxAround | trackers/ball_tracker.py:371-376 | The rebuilt box is centred on the smoothed centre with the given width and height. |
| TrajectorySmoother.Reconstruct | trackers/ball_tracker.py:349-378 | There is one box per frame, and it is `BoxAround` the smoothed centre of that frame. Its size comes from the source frame's detected box, or 10×10 when no frame was detected. |
| TrajectorySmoother.SmoothTrajectory | trackers/ball_tracker.py:197-383 | There is one box per input frame. The call fails with "no known position" iff there are frames but each one is undetected or removed by the first pass. It fails with "window too small" iff some frame survives and the track has 1 or 3 frames. Otherwise box i is `BoxAround` frame i of the smoothed, clamped centre track, with the width and height `SizeAt` gives from the surviving frames. |
| TrajectorySmoother.FillAndSmooth | trackers/ball_tracker.py:265-383 | Given the first pass's track and its surviving frames, there is one box per frame. The call fails with "no known position" iff there are frames and none survived. It fails with "window too small" iff some frame survived and the track has 1 or 3 frames. Otherwise box i is `BoxAround` frame i of `SmoothedTrack`, with the width and height `SizeAt` gives. |
| TrajectorySmoother.Filtered | trackers/ball_tracker.py:223-263 | There is one sample per frame. It is known iff the frame was detected and the first pass does not remove it. |
| TrajectorySmoother.KnownIndices | trackers/ball_tracker.py:202-263 | The list `valid_indices` after the first pass: strictly ascending, and exactly the frames with a sample. |
| TrajectorySmoother.FilledTrack | trackers/ball_tracker.py:270-307 | The gap fill keeps one sample per frame, by the spline branch with at least 4 known frames and the linear fallback otherwise. |
| TrajectorySmoother.SmoothedTrack | trackers/ball_tracker.py:309-342 | When it succeeds, the smoothed centre track has one x and one y per frame. |
| TrajectorySmoother.SmoothedCentres | trackers/ball_tracker.py:197-342 | When it succeeds, the centre track of the whole smoother has one x and one y per input frame. |
| MiniCourtMapping.MiniCourt.SetCanvasBackgroundBoxPosition | mini_court/mini_court.py:107-113 | The canvas is 250 × 500, hangs 50 px from the frame's right edge, and its top is at y = 50. |
| MiniCourtMapping.MiniCourt.SetMiniCourtPosition | mini_court/mini_court.py:100-105 | The court is the canvas inset by 20 on every side, and the drawing width is its width. |
| MiniCourtMapping.MiniCourt.SetCourtDrawingKeyPoints | mini_court/mini_court.py:40-84 | The keypoints become the 28 analytic coordinates of the current court. |
| MiniCourtMapping.MiniCourt.constructor | mini_court/mini_court.py:18-31 | The trail is empty. The canvas spans [w−300, w−50] × [50, 550] and the court spans [w−280, w−70] × [70, 530], with a drawing width of 210. The keypoints are laid out for that court. |
| MiniCourtMapping.MiniCourt.CourtIsOrdered | mini_court/mini_court.py:100-113 | The court's corners are ordered, and its drawing width is 210. |
| MiniCourtMapping.DrawingKeyPoints | mini_court/mini_court.py:40-84 | There are exactly 28 keypoint coordinates. |
| MiniCourtMapping.KeyPointsLayout | mini_court/mini_court.py:43-52 | Points 0 and 2 have x = court start, and points 1 and 3 have x = court end. Points 0 and 1 have y = court start, and points 2 and 3 share one y. |
| MiniCourtMapping.KeyPointsAlleys | mini_court/mini_court.py:53-72 | Points 4 and 6 lie on the first baseline, and points 5 and 7 on the second. Points 4, 5, 8 and 10 share x, and so do 6 and 7. Both alleys are equally wide. |
| MiniCourtMapping.KeyPointsServiceLines | mini_court/mini_court.py:65-82 | Points 8, 9 and 12 share y, points 10, 11 and 13 share y, and both service lines sit equally far in from their baselines. Points 8–9 and 10–11 are equally wide. Points 12 and 13 lie within 1 px of the midpoints of 8–9 and 10–11. |
| MiniCourtMapping.PerspectiveFactor | mini_court/mini_court.py:179-183 | The factor is ≥ 1. It is exactly 1 unless the object is strictly above the keypoint, and then 1 + Δy/1000. |
| MiniCourtMapping.PerspectiveGrowsWithHeight | mini_court/mini_court.py:179-183 | A higher object never gets a smaller correction. Strictly higher and above the keypoint, it gets a larger one. |
| MiniCourtMapping.Direction | mini_court/mini_court.py:211-212 | The direction is ±1, and +1 iff the object coordinate is strictly greater than the keypoint's. |
| MiniCourtMapping.Clamp | mini_court/mini_court.py:221-224 | `max(lo, min(hi, v))` lies in [lo, hi]. It is v inside, lo below and hi above. |
| MiniCourtMapping.MiniCourt.GetMiniCourtCoordinates | mini_court/mini_court.py:166-226 | The mapped position always lies within the court rectangle. |
| MiniCourtMapping.ReferencePoints | mini_court/mini_court.py:281-297 | The reference keypoints by quadrant: top-left {4, 8}, top-right {6, 9}, bottom-left {5, 10}, bottom-right {7, 11}. Top and left are decided by strict comparison with the detected court's midlines. |
| MiniCourtMapping.ClosestPlayer | mini_court/mini_court.py:247-248 | The chosen player's centre is nearest the ball, and no earlier player in dictionary order is as near (`min` with a key returns the first minimum). |
| MiniCourtMapping.BoxOfFindsPlayer | mini_court/mini_court.py:264-265 | The lookup `player_boxes[i][player_id]` fails iff the frame has no entry for the id. Otherwise it finds that entry. |
| MiniCourtMapping.MaxHeightIsTallest | mini_court/mini_court.py:262-266 | The window maximum is defined iff every frame of the window has the player. It is then at least every height in the window and equal to one of them. |
| MiniCourtMapping.MaxHeightStaysNone | mini_court/mini_court.py:262-266 | A frame that lacks the player spoils every longer window. |
| MiniCourtMapping.MaxHeight | mini_court/mini_court.py:262-266 | The tallest box of a player over a window of frames, or none when a frame lacks the player. Stated by `MaxHeightIsTallest` and `MaxHeightStaysNone`. |
| MiniCourtMapping.MiniCourt.WindowHeight | mini_court/mini_court.py:262-266 | The loop over the window computes the window maximum. |
| MiniCourtMapping.MiniCourt.PlayerSpotAt | mini_court/mini_court.py:251-276 | A player's position carries the player's id. |
| MiniCourtMapping.MiniCourt.PlayersAnchorOnBaseline | mini_court/mini_court.py:255-257 | Players are anchored only at keypoints 0–3. |
| MiniCourtMapping.MiniCourt.PlacePlayer | mini_court/mini_court.py:251-276 | A player is placed iff its height window is complete and its height in metres is known (ids 1 and 2). The position is then the mapped foot position. |
| MiniCourtMapping.MiniCourt.PlaceBall | mini_court/mini_court.py:278-315 | The ball is placed from the closest player's height, at the closer reference keypoint of its quadrant. |
| MiniCourtMapping.MiniCourt.BallAt | mini_court/mini_court.py:278-315 | The ball's mini-court position: anchored at the closer reference keypoint of its quadrant and scaled by the height of the player closest to it. Stated by `PlaceBall` and `ConvertFrame`. |
| MiniCourtMapping.MiniCourt.ConvertFrame | mini_court/mini_court.py:244-317 | A frame converts iff its ball is known and every player is placeable. It then gives one position per player, in order, and exactly one ball position, the one for the closest player. |
| MiniCourtMapping.MiniCourt.ConvertBoundingBoxes | mini_court/mini_court.py:228-319 | Succeeds iff every frame converts, with one player table and one ball position per frame. Otherwise it fails at the first frame that raises. |
| MiniCourtMapping.SmoothPosition | mini_court/mini_court.py:321-343 | The smoothed position is the input itself when the history is empty. |
| MiniCourtMapping.Weights | mini_court/mini_court.py:332 | There are n weights i/n, all positive. |
| MiniCourtMapping.Recent | mini_court/mini_court.py:327 | The last five positions, or all of them when fewer. |
| MiniCourtMapping.AverageBounds | mini_court/mini_court.py:332-336 | The weighted average lies between the least and the largest value. |
| MiniCourtMapping.SmoothStaysInRange | mini_court/mini_court.py:321-343 | Smoothing stays within any integer box that holds the recent trail and the new position. |
| MiniCourtMapping.StationaryBallStaysPut | mini_court/mini_court.py:321-343 | When every recent position equals the new one, smoothing returns it unchanged. |
| MiniCourtMapping.Trail | mini_court/mini_court.py:361-368 | The trail never exceeds 10 entries. |
| MiniCourtMapping.Moved | mini_court/mini_court.py:361-364 | A drawn point joins the trail when the trail is empty or `measure_distance` puts it more than 1 from the last point. Stated by `TrailDrawsFrom`. |
| MiniCourtMapping.AsPoint | mini_court/mini_court.py:362-363 | A pixel passed to `measure_distance` keeps its coordinates. |
| MiniCourtMapping.ToPixel | mini_court/mini_court.py:353-354 | Truncation to pixels: for non-negative coordinates each pixel coordinate is the largest integer not above the real one. |
| MiniCourtMapping.TrailAfter | mini_court/mini_court.py:349-368 | The trail after drawing one or more positions one after another never exceeds 10 entries. |
| MiniCourtMapping.TrailDrawsFrom | mini_court/mini_court.py:361-368 | The trail holds only earlier points and the drawn one. It ends with the drawn point when `measure_distance` puts that point more than 1 px from the last one, and is unchanged when it does not. |
| MiniCourtMapping.DropOldest | mini_court/mini_court.py:367-368 | The loop that drops the oldest trail points leaves exactly the last 10 of them, or all when there are at most 10. |
| MiniCourtMapping.MiniCourt.RecordBallPosition | mini_court/mini_court.py:356-368 | The drawn point is the smoothed position against the old trail, and the trail becomes the updated trail. |
| MiniCourtMapping.MiniCourt.DrawBallTrail | mini_court/mini_court.py:349-368 | There is one drawn point per frame. Point f is the truncated position of frame f smoothed against the trail left by frames 0 … f−1, and the final trail is `TrailAfter` all frames. On an empty trail the first point is drawn where it is, truncated to pixels. The trail holds only earlier or drawn points. |
| Kinematics.Nearest | test.py:224-230 | The shooter is the first player whose mapped position is nearest the ball. |
| Kinematics.Opponent | test.py:240 | The opponent is 1 if the shooter is 2, else 2, so players 1 and 2 oppose each other. |
| Kinematics.SkipReasons | test.py:164-295 | An interval is skipped iff the ball is missing at its start or end, or the elapsed time is zero, or no player has a position at the start, or the opponent has none at the start or end. Otherwise the shot starts at the interval's start, with the nearest player as shooter. |
| Kinematics.ShooterWithoutEndStandsStill | test.py:271-295 | The shooter's speed is 0 when the shooter has no position at the end frame. |
| Kinematics.MeasureShot | test.py:164-295 | The body of the loop for one interval: None for each `continue`, otherwise the ball's, the shooter's and the opponent's speeds in km/h over (end − start)/30 seconds. What it returns and when it skips is stated by `SkipReasons` and `ShooterWithoutEndStandsStill`. |
| Kinematics.RecordSteps | test.py:297-313 | A new row is the previous row stamped with the shot's start frame, one counter step on. The shooter's shot count goes up by 1, its shot total grows by the ball speed, which becomes its last shot speed, its speed total grows by its own speed, which becomes its last speed, and its measurements go up by 1. The opponent's speed total grows by the opponent's speed, which becomes its last speed, its measurements go up by 1, and its shot columns are unchanged. |
| Kinematics.Record | test.py:297-313 | The row appended for a measured shot: a copy of the last row at the start frame, with the shooter's and the opponent's columns updated. `RecordSteps` states every column it changes and keeps. |
| Kinematics.AsShooter | test.py:300-306 | The shooter's six columns after a shot; stated by `RecordSteps`. |
| Kinematics.AsOpponent | test.py:309-311 | The opponent's three speed columns after a shot; stated by `RecordSteps`. |
| Kinematics.FoldTotals | test.py:297-313 | In the last row of the table each player's shot count is the number of its measured shots, its shot total is the sum of their ball speeds, its speed total is the sum of its own speeds over every measured shot (as shooter or as opponent), and its measurement count is the number of measured shots. |
| Kinematics.RowIsLastOfPrefix | test.py:164-313 | Every row of the table is the last row of the table built from some prefix of the intervals, so facts about the last row hold of every row. |
| Kinematics.Measurements | test.py:164-167 | There is one measurement per consecutive pair of shot frames. |
| Kinematics.MeasurementStarts | test.py:164-167 | A measured interval starts at its first shot frame. |
| Kinematics.Fold | test.py:147-315 | A successful table is non-empty and starts with the all-zero row at frame 0. A failure is the first measured shot whose shooter is neither 1 nor 2, which is the source's `KeyError`. |
| Kinematics.FoldShape | test.py:147-315 | The table has one row per measured interval plus the first. Consecutive rows step as one shot. Row i has i shots between the two players, and i measurements for each player. |
| Kinematics.CountersNeverDecrease | test.py:298-315 | No counter of a later row is below that of an earlier row. |
| Kinematics.RowsAtShotStarts | test.py:298-315 | Every row after the first is stamped with a measured shot's start frame. |
| Kinematics.FailureSticks | test.py:164-315 | Once the fold fails on a prefix, it fails the same way on the whole sequence. |
| Kinematics.ComputePlayerStats | test.py:145-315 | The loop with its `continue` skips produces exactly the folded table, or stops at the failing interval. |
| Kinematics.InForce | test.py:318-321 | The forward-filled row at frame i is a table row at or before i. There is none iff every row is after i. |
| Kinematics.InForceIsLatest | test.py:318-321 | With increasing frames, the row in force is the last one at or before i. |
| Kinematics.FillFrames | test.py:318-321 | The left join onto frames 0..N−1 with forward fill gives, at every frame, the row in force. |
| Kinematics.EveryFrameCovered | test.py:147-162 | Since the first row is at frame 0, every frame has a row after the fill. |
| Kinematics.AverageOrZero | test.py:324-335 | An average times its count is its total when the count is positive, and 0 otherwise. |
| Kinematics.ConstantSpeedAverage | test.py:297-335 | When every measured shot of a player has the same ball speed, that player's average shot speed is that speed in every row of the table where it has shot, and 0 in the rows before. |
| Kinematics.LastRowConstantAverage | test.py:297-335 | The same for the last row of the table. |
| Kinematics.RowAverages | test.py:322-335 | The four average columns of a row: each total over its counter, or 0 for a zero counter. Its properties are those of `AverageOrZero` and `ConstantSpeedAverage`. |
| MatchProcessing.CenterDistance | app/match/processor.py:41-53 | +∞ iff either box does not have 4 coordinates, otherwise a non-negative (squared) distance between centres. |
| MatchProcessing.CenterDistanceSymmetric | app/match/processor.py:41-53 | The distance is symmetric, and a box is at distance 0 from itself. |
| MatchProcessing.Nearest | app/match/processor.py:80-88 | The nearest ball is the first one with the strictly smallest distance. There is none iff every distance is infinite. |
| MatchProcessing.NearestBall | app/match/processor.py:80-88 | The search loop finds that nearest ball and its distance, or +∞ with no ball. |
| MatchProcessing.FrameHitsFacts | app/match/processor.py:71-106 | Every hit has this frame's number and timestamp, and its player box and ball box are closer than 80 px. Its player was not cooling down. The player ids are distinct, so a frame has at most one hit per id. The table records this frame exactly for the players that hit. |
| MatchProcessing.FirstCloseApproachHits | app/match/processor.py:71-106 | A player seen for the first time in the frame, not cooling down, whose nearest ball is closer than 80 px, hits. |
| MatchProcessing.PlayerStep | app/match/processor.py:71-104 | One player of the frame: skipped while cooling down, otherwise a hit against its nearest ball when that ball is closer than 80 px, with the table updated to this frame. Stated by `FrameHitsFacts`, `FirstCloseApproachHits` and `FrameHitsPlayers`. |
| MatchProcessing.FrameHits | app/match/processor.py:71-106 | The hits of a frame and the new table, one `PlayerStep` per player detection in order. Stated by `FrameHitsFacts`, `FrameHitsPlayers`, `NoBallNoHit` and `FrameHitsGrow`. |
| MatchProcessing.FrameHitsPlayers | app/match/processor.py:71-101 | Each hit carries the id, confidence and box of one of the frame's player detections, and the confidence and box of that player's nearest ball. |
| MatchProcessing.NoBallNoHit | app/match/processor.py:68-69 | Without ball detections there is no hit and the table is unchanged. |
| MatchProcessing.FrameHitsGrow | app/match/processor.py:71-104 | The hits of a prefix of the players are a prefix of the frame's hits. |
| MatchProcessing.Timestamp | app/match/processor.py:142 | The timestamp times fps is the frame number when fps > 0, and 0 otherwise. |
| MatchProcessing.VideoStep | app/match/processor.py:137-148 | Each frame appends its hits to the events and updates the table. |
| MatchProcessing.FrameOutcome | app/match/processor.py:55-106 | One frame read from the video: no hits and an unchanged table for a missing frame, a detector failure or no ball, otherwise `FrameHits`. Stated by `VideoStep` and `MatchProcessor.DetectHitsInFrame`. |
| MatchProcessing.VideoHits | app/match/processor.py:137-148 | The events and the table after the first k frames from an empty table, the hits of each frame appended in turn. Stated by `VideoStep`, `VideoHitsInOrder`, `VideoHitsTable`, `VideoHitsTableAttained` and `VideoHitsSpaced`. |
| MatchProcessing.VideoHitsInOrder | app/match/processor.py:137-148 | Events are in order of non-decreasing frame number, each within the frames processed. |
| MatchProcessing.VideoHitsTable | app/match/processor.py:75-104 | The last-hit table has exactly the players that hit as keys, and no hit of a player is at a frame after its entry. |
| MatchProcessing.VideoHitsTableAttained | app/match/processor.py:102-104 | Every entry of the last-hit table is the frame of a hit by that player. With `VideoHitsTable`, it is the player's latest hit frame. |
| MatchProcessing.VideoHitsSpaced | app/match/processor.py:75-104 | Two hits by the same id are at least 10 frames apart. |
| MatchProcessing.HitsAreSpaced | app/match/processor.py:75-104 | The same, for the events of the whole video. |
| MatchProcessing.BumpFacts | app/match/processor.py:310-314 | Bumping a player adds 1 to that player's count only and 1 to the sum. It keeps keys distinct and adds the key if missing. |
| MatchProcessing.Bump | app/match/processor.py:311-314 | One event counted for a player: its entry goes up by 1, or a new entry with 1 goes last. Stated by `BumpFacts`. |
| MatchProcessing.Tally | app/match/processor.py:310-314 | Every event counted in turn with `Bump`. Stated by `TallyFacts` and `CountsAddUp`. |
| MatchProcessing.TallyFacts | app/match/processor.py:310-314 | Tallying events adds each player's number of events to its count, and the number of events to the sum. |
| MatchProcessing.CountsAddUp | app/match/processor.py:304-314 | From fresh statistics the per-player counts are each player's number of events, the keys are distinct, and the counts add up to the number of events. |
| MatchProcessing.MatchProcessor.constructor | app/match/processor.py:31-39 | A new processor has no events, an empty table and fresh statistics. |
| MatchProcessing.MatchProcessor.DetectHitsInFrame | app/match/processor.py:55-106 | No frame, a detector failure or no ball gives no hits and leaves the table unchanged. Otherwise the hits and the new table are those of the frame step. |
| MatchProcessing.MatchProcessor.CalculateFinalStatistics | app/match/processor.py:304-314 | The total becomes the number of events, and the per-player table becomes the old table tallied with the events. |
| MatchProcessing.MatchProcessor.ProcessVideo | app/match/processor.py:108-164 | After the reset and the frame loop, the events and table are those of the whole video. The statistics hold the event count, the per-player tally, the frame count, the duration (0 when fps ≤ 0) and fps. |
| MatchReport.FirstExtensionFrom | app/api/match/processor.py:36-39 | The first of the seven extensions, in list order, that the name ends with. None iff it ends with none of them. |
| MatchReport.RemoveAll | app/api/match/processor.py:38 | `str.replace(ext, '')` never lengthens the name. |
| MatchReport.RemoveAbsent | app/api/match/processor.py:38 | Removing a substring that does not occur leaves the name unchanged. |
| MatchReport.StripVideoExtension | app/api/match/processor.py:35-39 | The loop with `break` strips as written, and a name with no listed extension is unchanged. |
| MatchReport.StripAsWritten | app/api/match/processor.py:36-39 | As written: every occurrence of the first listed extension the name ends with is removed. Stated by `StripRemovesInnerExtension` and `StrippingsAgreeOnPlainNames`. |
| MatchReport.StripRemovesInnerExtension | app/api/match/processor.py:36-39 | As written, "a.mp4b.mp4" becomes "ab", since every occurrence is removed. The corrected strip gives "a.mp4b". |
| MatchReport.StripExtension | app/api/match/processor.py:35-39 | Corrected: the stem plus the first matching extension is the name, and a name with no listed extension is unchanged. |
| MatchReport.StrippingsAgreeOnPlainNames | app/api/match/processor.py:35-39 | When the extension occurs only at the end, both strippings agree. |
| MatchReport.ProcessedFileName | app/api/match/processor.py:35-47 | Corrected: the processed file name is the corrected stem followed by "_processed.mp4", and that stem followed by the matched extension is the uploaded name. |
| MatchReport.ProcessedFileNameAsWritten | app/api/match/processor.py:35-47 | As written: the processed file name ends with "_processed.mp4", and what comes before it is the name with every occurrence of the matched extension removed. |
| MatchReport.ProcessedNamesDiffer | app/api/match/processor.py:35-47 | For "a.mp4b.mp4" the handler as written produces "ab_processed.mp4", while the corrected name is "a.mp4b_processed.mp4". |
| MatchReport.DurationMinutes | app/api/match/processor.py:271 | Minutes times 60 is the duration when that is positive, and 0 otherwise. |
| MatchReport.HitsPerMinute | app/api/match/processor.py:272 | The rate times the minutes is the hit count when the minutes are positive, and 0 otherwise. |
| MatchReport.LabelsAreMonotone | app/api/match/processor.py:273-341 | Intensity is "Alto" iff the rate is above 30 and at least "Medio" iff above 15. Quality is "Alta" iff fps ≥ 25 and at least "Media" iff fps ≥ 15. Both labels are monotone. |
| MatchReport.Intensity | app/api/match/processor.py:273 | "Alto" above 30 hits per minute, "Medio" above 15, else "Bajo". Stated by `LabelsAreMonotone`. |
| MatchReport.Quality | app/api/match/processor.py:341 | "Alta" from 25 fps, "Media" from 15 fps, else "Baja". Stated by `LabelsAreMonotone`. |
| MatchReport.Percentage | app/api/match/processor.py:300 | A player's percentage times the total is 100 times its hits when the total is positive, and 0 otherwise. |
| MatchReport.Shares | app/api/match/processor.py:298-303 | There is one share per table entry, in order, with its name, its hits and its percentage. |
| MatchReport.PlayerLines | app/api/match/processor.py:297-303 | The loop over the table builds exactly those shares. |
| MatchReport.PercentSumIsShare | app/api/match/processor.py:298-303 | The percentages add up to 100 × (sum of counts) / total. |
| MatchReport.SharesAddUpTo100 | app/api/match/processor.py:298-303 | For the tally of a non-empty event list, the percentages add up to 100. |
| MatchReport.SharesOfFullCount | app/api/match/processor.py:298-303 | Whenever the counts add up to the total, the percentages add up to 100. |
| MatchReport.Sanitize | app/api/match/processor.py:350 | Every space and dot becomes "_", and every other character stays. |
| MatchReport.ReportFilename | app/api/match/processor.py:350 | The name is "reporte_padel_" + the sanitised filename + ".md", with no space or dot between prefix and suffix. |
| MatchReport.EmptyStatsAnswer500 | app/api/match/processor.py:259-364 | As written, an empty dictionary is answered with status 500, not 400. |
| MatchReport.MissingFramesAnswer500 | app/api/match/processor.py:266-364 | As written, a dictionary without `total_frames` is answered with status 500. |
| MatchReport.GenerateReportAsWritten | app/api/match/processor.py:254-364 | As written: 500 for an empty dictionary and for zero or missing frames, otherwise the figures. Stated by `EmptyStatsAnswer500` and `MissingFramesAnswer500`. |
| MatchReport.GenerateReport | app/api/match/processor.py:254-364 | Corrected: 400 for an empty dictionary, per-frame figures 0 without frames, otherwise the figures as written. Stated by `ReportAnswersEveryDictionary`. |
| MatchReport.ReportAnswersEveryDictionary | app/api/match/processor.py:255-364 | Corrected: status 400 iff the dictionary is empty, otherwise a result. With no frames the activity and per-frame figures are 0. The filename is the sanitised one. When frames are positive, it agrees with the handler as written. |

## Left out

- Detector and model inference (YOLO, the keypoint network) are not modelled. Their outputs are inputs: detections per frame, ball boxes, court keypoints.
- Video I/O, drawing, plotting and progress bars are not modelled: `cv2` capture and writing, every `draw_*` body except the trail update, `plot_trajectory`/`plot_velocities`, tqdm.
- The pickle cache of `detect_ball_hits` and `detect_frames` is an optional stored value plus a recompute flag. Reading and writing files is not modelled.
- The `utils` helpers (`get_center_of_bbox`, `measure_distance`, `measure_xy_distance`, `get_foot_position`, `get_height_of_bbox`, `get_closest_keypoint_index`, the metre/pixel conversions) and the `constants` module are not part of this model. They are parameters, and no property of them is assumed except that `get_closest_keypoint_index` returns one of its candidates. The trail update passes pixel positions to the `measure_distance` parameter.
- `UnivariateSpline`, `savgol_filter` and `np.median` are parameters. Of `savgol_filter` only "the output is as long as the input" is assumed.
- `compute_velocity_statistics` is not modelled. Its mean and deviation are never used by `smooth_trajectory` itself, and `is_outlier` takes them as arguments.
- `arccos` in `is_outlier_angle` is replaced by the equivalent test on the dot product: an angle above 150° iff the cosine is below −√3/2.
- The pandas `rolling(5, min_periods=1).mean()`, `diff` and `fillna` of `detect_ball_hits` are written out as sequence functions. Its `interpolate` and `bfill` of the ball rows are taken as given: the rows arrive complete.
- Floating point is modelled as exact reals. The hit counter compares squared centre distances with the squared threshold, which orders them as the Euclidean distances.
- BallHits.DetectBallHits: requires m ≥ 1, the value every caller passes being 25. The inner confirmation loop is bounded by the number of rows and never reads past the last delta. With m = 0 the outer loop reaches the last row, whose candidate test reads the delta after it and raises `IndexError` unless the last delta is 0 (the `and` short-circuits); otherwise the call returns and, with the count compared against −1, flags every sign reversal. With m < 0 the outer range runs past the end and the candidate test can raise too. None of these cases is modelled. The confirmation test follows the code: more than m − 1, that is at least m, confirming frames.
- PlayerTracking.Iou: requires well-formed boxes (x1 ≤ x2, y1 ≤ y2), which the detector produces. For inverted boxes the denominator can vanish and the source's value is not modelled.
- PlayerTracking.Tracker.ProcessFrame: requires well-formed boxes, for the same reason. The detector's results are one flat list for the frame. With several result objects the source's `break` ends only the inner search and could report a box twice; that case is not modelled.
- The tracker's dictionary key order is an explicit `order` sequence. Since ids are issued in increasing order, it is ascending.
- MiniCourtMapping.MiniCourt.GetMiniCourtCoordinates: requires a keypoint index below 14, the range the callers pass (0–11).
- MiniCourtMapping.MiniCourt.PlacePlayer, PlaceBall, ConvertFrame and ConvertBoundingBoxes require that `get_closest_keypoint_index` returns one of its candidates and that the detected keypoints have 28 coordinates.
- The frame size is only its width, the one dimension the canvas uses. `set_court_lines` and the line list are drawing data and are not modelled.
- An exception in `convert_bounding_boxes_to_mini_court_coordinates` (a missing ball box, no player, a player without a height or a complete height window) is reported as the first failing frame. The exception's type and message are not modelled.
- Kinematics.FillFrames: requires strictly increasing frame numbers in the table. The merge of a table with repeated `frame_num` values, which would duplicate frames, is not modelled.
- The conversion of the mini-court positions in `test.py` is taken as given. The statistics fold receives the ball and player positions per frame.
- The rendering loop of `test.py` and its other drawing code are not modelled.
- The hit counter's thresholds are fixed at their defaults (80 px, 10 frames).
- `process_video` of the hit counter does not model `FileNotFoundError`/`ValueError` for a missing or unopenable video. A frame the capture could not read ends the loop, so the frames are given as a finite sequence.
- The hit counter reads `class_id` from each player detection (app/match/processor.py:72). As written, `DetectionResultFrame` (app/data_models/result.py:5-8) declares no such field, so the id passed at app/yolo/player_detector.py:114 is dropped and that read raises `AttributeError` on any frame with both a ball and a player. The model assumes that the tracker's id reaches the hit counter as a string.
- `process_video_with_output` and `print_statistics` are drawing and printing, and are not modelled.
- The Markdown text of the report, its `datetime` stamps and the console output are not modelled. The report is reduced to its figures, labels and filename.
- The temporary directory and the uuid of the processed-video path are not modelled. Only the file name is.
- TrajectorySmoother.SmoothTrajectory: requires that `savgol_filter` keeps the length of its input.

## Findings

| source | as written | input that shows it | evidently intended | confidence | as-written member | corrected member |
|---|---|---|---|---|---|---|
| app/api/match/processor.py:259-364 | The 400 for an empty statistics dictionary is raised inside the `try`. The blanket `except Exception` turns it into a 500. | `{}` | status 400 | not executed | MatchReport.EmptyStatsAnswer500 | MatchReport.ReportAnswersEveryDictionary |
| app/api/match/processor.py:266-364 | `total_frames` defaults to 0, and then divides `total_hits`. The `ZeroDivisionError` becomes a 500. | `{"total_hits": 12, "video_duration": 120, "fps": 30}` | a report with the frame-based figures at 0 | not executed | MatchReport.MissingFramesAnswer500 | MatchReport.ReportAnswersEveryDictionary |
| app/api/match/processor.py:36-39 | The extension is removed with `str.replace`, so every occurrence goes, not only the final one. | `"a.mp4b.mp4"` gives `"ab"` | `"a.mp4b"` | not executed | MatchReport.StripRemovesInnerExtension | MatchReport.StripExtension |
| app/api/match/processor.py:35-47 | The processed video is named after the over-stripped stem. | `"a.mp4b.mp4"` gives `"ab_processed.mp4"` | `"a.mp4b_processed.mp4"` | not executed | MatchReport.ProcessedNamesDiffer | MatchReport.ProcessedFileName |
