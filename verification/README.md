# Dankong, verified

Dafny models of the algorithms and protocols inside Dankong, a controller for drones, cars and robot
dogs, with proofs about all inputs, all runs and all interleavings. `dafny verify dfyconfig.toml`
checks the whole project.

| file | what it models |
|---|---|
| `Basics.dfy` | optional values and ordering functions |
| `Planar.dfy` | plane vectors, discs, saturation, and the laws asked of `hypot`, `sin` and `cos` |
| `Limiter.dfy` | the 50 Hz speed, acceleration and jerk limiter as a step function, and what its runs keep |
| `LimiterMeaning.dfy` | where a tick and a run of ticks lead: towards the command, by how much, in which direction |
| `SpeedCap.dfy` | exactly when the limiter keeps its speed cap |
| `Tracker.dfy` | the path follower around it: staged commands, the walk, what a waypoint aims for, callback speed limits, tokens |
| `TrackerRuns.dfy` | whole lives of the tracker: targets, limits in force, speed under a limit, velocity commands |
| `DatumSync.dfy` | joining positions and satellite fixes that arrive in any order |
| `ArrivalOrder.dfy` | exactly when a position and a fix can change places |
| `PoseHistory.dfy` | time-ordered sample windows with interpolating lookup |
| `Matrices.dfy`, `Kalman.dfy` | the 4-state and the yaw Kalman filter, covariances and refinement |
| `KalmanMeaning.dfy` | what an update does to the estimate: drawn to the measurement, by the best share |
| `Landing.dfy` | blind-drop flag, hold radius and descent speed of a precision landing |
| `Trajectory.dfy` | the virtual point of a landing and its leash |
| `TrajectoryMeaning.dfy` | how the virtual point moves: by its velocity, towards the target, straight back on the leash |
| `Mission.dfy` | dwell points, path slicing, arrival, interruption and completion of a route |
| `MissionIntake.dfy` | accepting a route, height compensation, where RETURN goes |
| `Reporting.dfy` | dirty flag, reporter, snapshot and rate limit, step by step under interleaving |
| `ThreadRunner.dfy` | start, stop, destruction and the sleeping worker, one atomic access at a time |
| `Angles.dfy` | normalisation, yaw conventions, shortest turn with hysteresis |
| `Base64.dfy`, `Request.dfy` | the encoders and the URL parser |

Objects that the program updates in place are classes here. Each method is proved equal to a step
function on values. Lemmas about those functions say in plain terms where one step leads, and what every
run keeps. Concurrent protocols are transition systems with one shared access per step. Real numbers
stand for `double`; a norm is any value whose square is the sum of squares.

## What the code does not do

Each of these is a theorem about the code as it is, with the exact condition where there is one.

- The limiter keeps its speed cap exactly if one tick of jerk spans the disc of accelerations, J dt >= 2A;
  otherwise a run from rest leaves it (`SpeedCap.CapIsKeptExactly`).
- After a path is staged, "position reached" says until the next period that nothing is being followed,
  exactly if nothing was (`Tracker.StaleReached`). No caller in the repository asks.
- A change of the speed-limit callbacks replaces the velocity command in force by the feed-forward velocity
  of the last path, exactly if there ever was a path (`TrackerRuns.VelocityIsKeptExactly`).
- The order in which positions and fixes arrive matters for positions that go back in time, for a verdict
  that hangs on the oldest position of a full buffer, and for a full queue of fixes; each has its exact
  condition and an instance (`ArrivalOrder`).
- The actions of a waypoint are dispatched again after every interruption of the leg to it
  (`Mission.DispatchesExactly`).
- An action list shorter than the route, return point included, ends the mission in an exception
  (`Mission.BreaksExactly`).
- A RETURN accepted on the ground goes to the take-off of the flight before, which is where the robot
  stands exactly if it took off there (`MissionIntake.GroundReturnIsStale`).
- A full-state snapshot for one client can keep an update from all the others
  (`Reporting.StreamTellsExactly`).
- A runner destroyed without a stop never gets its thread back (`ThreadRunner.JoinEndsExactly`, `ThreadRunner.StartThenDestroyHangs`).
- The turn direction is remembered only for dead bands of at most half a turn
  (`Angles.HysteresisExactly`).
- With a velocity gain above one per step the virtual point gains speed (`Trajectory.GainExactly`).
- Where the align radius is not below the hold radius the descent has no ramp but a jump; with the default
  configuration that is from 18 m up (`Landing.DescentIsGradualExactly`, `Landing.DefaultsJumpFromEighteen`).
- A URL without a scheme whose path holds "://" is misread (`Request.SchemelessExactly`).

## Model

| member | source | states |
|---|---|---|
| Limiter.SameInWorld | include/features/tracker/tracker.hpp:805-826 | re-expressing the remembered velocity or acceleration for a new heading leaves it unchanged in world axes, for every pair of headings |
| Limiter.NextAccWithin | include/features/tracker/tracker.hpp:835-862 | the new planar acceleration stays in the disc of radius A and moves by at most the larger of one tick of jerk and 1e-6 |
| Limiter.TickInWorld | include/features/tracker/tracker.hpp:805-868 | one tick in world axes: the velocity changes by exactly dt times the commanded acceleration, which stays within A and obeys the jerk limit, however the body turned |
| Limiter.WideJerkIsSlack | include/features/tracker/tracker.hpp:850-862 | a jerk limit of at least 2A per tick never bites |
| Limiter.SlackTickMovesToward | include/features/tracker/tracker.hpp:795-868 | when jerk does not bite, the new velocity is a convex combination of the rotated old one and the capped target |
| Limiter.SlackTickKeepsSpeed | include/features/tracker/tracker.hpp:795-868 | so no disc that holds both is left |
| Limiter.TargetWithin | include/features/tracker/tracker.hpp:795-801 | the target lies within the speed cap, down to the 1e-4 below which the code does not cap |
| Limiter.TickVerticalAndYaw | include/features/tracker/tracker.hpp:870-896 | climb acceleration keeps its bound and its jerk; the yaw rate keeps its cap without any condition on jerk and moves by at most one tick of yaw acceleration |
| Limiter.RunStaysCalm | include/features/tracker/tracker.hpp:790-898 | over every run of ticks and resets, acceleration, climb acceleration and yaw rate keep their bounds |
| Limiter.RunKeepsSpeed | include/features/tracker/tracker.hpp:790-898 | over every run with a wide jerk limit, planar speed never leaves the disc of the targets once inside |
| Limiter.RunVelocityDrift | include/features/tracker/tracker.hpp:790-898 | between resets the world velocity moves by at most A times the elapsed time |
| Limiter.BitingJerkOvershoots | include/features/tracker/tracker.hpp:850-868 | with a jerk allowance below A, every cap over 0.01 is left by one tick from a state at the cap that still accelerates, although the raw command asks for the present speed |
| SpeedCap.CapIsKeptExactly | include/features/tracker/tracker.hpp:790-898 | for given acceleration bound A, jerk limit J and period dt, every tick keeps every state inside every cap of at least 1e-4 exactly if J dt >= 2A, and every run from rest ends inside its cap exactly then too |
| SpeedCap.WideJerkKeepsCap | include/features/tracker/tracker.hpp:850-868 | one direction, for every tick, state and heading |
| SpeedCap.OvershootFromRest | include/features/tracker/tracker.hpp:790-898 | the other: with less jerk than that, a run of ticks from rest, under one cap and limits that never change, ends outside the cap |
| SpeedCap.TicksKeepRuns | include/features/tracker/tracker.hpp:790-898 | a cap that every tick keeps is kept by every run |
| SpeedCap.Steer | include/features/tracker/tracker.hpp:790-898 | any acceleration within the limit and one jump of the last one is commanded exactly, if its speed lies inside the cap |
| LimiterMeaning.ForwardIsHeading | include/features/tracker/tracker.hpp:805-826 | the body axes are the heading and a quarter turn counter-clockwise from it |
| LimiterMeaning.TargetIsCappedCommand | include/features/tracker/tracker.hpp:795-801 | the planar target is the raw command times a share: the whole of it up to the cap, and exactly to the cap beyond |
| LimiterMeaning.SlackTickExactly | include/features/tracker/tracker.hpp:833-868 | without jerk in the way the velocity goes straight towards the target: all the way if the limit that applies, braking exactly when the way leads back, covers it in one tick, else by exactly that limit times the period |
| LimiterMeaning.CappedLeadsToTarget | include/features/tracker/tracker.hpp:833-849 | the acceleration before the jerk limit leads straight to the target, in one tick if the limit allows |
| LimiterMeaning.JerkStepExactly | include/features/tracker/tracker.hpp:850-868 | when jerk bites, the acceleration goes straight towards that one by exactly one tick of jerk |
| LimiterMeaning.ClimbJerkStep | include/features/tracker/tracker.hpp:873-884 | on every tick the climb acceleration goes towards the capped way to the held command over the period, by at most one tick of jerk: there, or a full step |
| LimiterMeaning.ClimbIntegrates | include/features/tracker/tracker.hpp:882-884 | the climb rate changes by the climb acceleration times the period |
| LimiterMeaning.ClimbMovesToward | include/features/tracker/tracker.hpp:873-884 | without jerk in the way the climb rate goes towards the held command: there, or a full step of acceleration in that direction |
| LimiterMeaning.ClimbShare | include/features/tracker/tracker.hpp:873-884 | so it changes by a share k of the way to the command, 0 < k <= 1, and k = 1 if one step covers it |
| LimiterMeaning.ClimbReaches | include/features/tracker/tracker.hpp:870-884 | over a run of such ticks the climb rate is at the command as soon as the limit times the elapsed time covers the difference, and stays there; before that it is exactly that much closer |
| LimiterMeaning.ClimbStaysInside | include/features/tracker/tracker.hpp:870-884 | whatever is commanded meanwhile, a climb rate inside the cap stays inside |
| LimiterMeaning.YawRateMovesToward | include/features/tracker/tracker.hpp:886-896 | on every tick the yaw rate is the held command if one step of yaw acceleration covers the difference, and a full step closer otherwise |
| LimiterMeaning.YawRateReaches | include/features/tracker/tracker.hpp:886-896 | and the same closed form over runs, on all ticks |
| Tracker.LeastIsUnique | include/features/tracker/tracker.hpp:455-466 | the least of waypoint limit, configured limit and callback readings is one value, whatever the order of the callbacks |
| Tracker.RemoveAt | include/features/tracker/tracker.hpp:263-273 | erasing one entry of an id-unique list is filtering that id out |
| Tracker.IssuedWithout | include/features/tracker/tracker.hpp:254-273 | ids stay strictly increasing and below the next id |
| Tracker.ThreadedTracker.SendPosCmd | include/features/tracker/tracker.hpp:183-192 | an empty path is ignored; any other replaces the staged command |
| Tracker.LimitIsLeast | include/features/tracker/tracker.hpp:455-466 | the loop over the callbacks gives the least of the base and all answers |
| Tracker.FeedForwardIsAtLimit | include/features/tracker/tracker.hpp:496-531 | a point without a velocity of its own is passed with no climb and at exactly the limit in force, or, at the end of the path or without a direction, at zero |
| Tracker.ThreadedTracker.ApplyCurrentWaypoint | include/features/tracker/tracker.hpp:440-534 | limits, overrides, target pose, feed-forward velocity, frame, yaw control, heading mode and stiffness of the present waypoint; nothing without one |
| Tracker.ThreadedTracker.ApplyPose | include/features/tracker/tracker.hpp:481-494 | the target pose in either frame, stated as what it is aimed at; without a yaw the old one stays in the world frame and the robot's own is taken in the body frame |
| Tracker.ThreadedTracker.FeedForwardVelocity | include/features/tracker/tracker.hpp:496-531 | the waypoint's own velocity, or that of the leg, or zero |
| Tracker.ThreadedTracker.ApplyVelocity | include/features/tracker/tracker.hpp:554-571 | target velocity, frame and yaw of a velocity command |
| Tracker.ThreadedTracker.FollowHeading | include/features/tracker/tracker.hpp:308-314 | in heading mode yaw control is on, towards the bearing if there is one |
| Tracker.ThreadedTracker.AddSpeedLimitCb | include/features/tracker/tracker.hpp:254-261 | a fresh id at the end of the list, and limits and aim of the waypoint in place are applied at once, in every mode |
| Tracker.ThreadedTracker.RemoveSpeedLimitCb | include/features/tracker/tracker.hpp:263-273 | exactly that id goes, a stranger id changes nothing, and limits and aim of the waypoint in place are applied at once, in every mode |
| Tracker.ThreadedTracker.ApplyKinematicConstraints | include/features/tracker/tracker.hpp:790-898 | the step-by-step update of the remembered command equals the specification step `Limiter.Next`, which `LimiterMeaning` and `SpeedCap` are about |
| Tracker.ThreadedTracker.ApplyPendingCommand | include/features/tracker/tracker.hpp:536-572 | takes over the staged command: a path starts at index 0, unfinished, with its first limits and aim; a velocity command counts as finished and sets the aim |
| Tracker.ThreadedTracker.AdvanceWaypoint | include/features/tracker/tracker.hpp:325-348 | next waypoint with its limits, or finished and idle at the last one |
| Tracker.ThreadedTracker.Decide | include/features/tracker/tracker.hpp:279-348 | take-over, heading and walk together are one step of the bookkeeping |
| Tracker.ThreadedTracker.OnStep | include/features/tracker/tracker.hpp:275-373 | a period of the loop is that step, then the limiter; too short a period changes nothing; a stop sends zero and resets the limiter; a new waypoint has its limits in force and is what the tracker aims at |
| Tracker.EveryRunSound | include/features/tracker/tracker.hpp:303-348 | over every run the index stays on the path and finished is reported exactly outside position mode |
| Tracker.WalkCountsArrivals | include/features/tracker/tracker.hpp:325-348 | closed form of any walk: the index counts the arrivals, and finished comes exactly with the arrival at the last point |
| Tracker.StaleReached | include/features/tracker/tracker.hpp:143-188 | after a path is staged, finished is reported exactly if no path was being followed; after the next period exactly if the path is one point that has been reached |
| Tracker.StagingIsInvisible | include/features/tracker/tracker.hpp:143-203 | whatever is staged between two periods, finished is reported exactly outside position mode |
| Tracker.PositionTarget | include/features/tracker/tracker.hpp:392-398 | in position mode the limit in force, or 1e-4, bounds what the limiter aims for |
| Tracker.PositionStepKeepsLimit | include/features/tracker/tracker.hpp:392-402 | a period with slack jerk leaves no disc of at least 1e-4 that holds the speed and the limit in force |
| Tracker.RefreshAims | include/features/tracker/tracker.hpp:440-534 | applying a waypoint aims at it: in the world frame at its point and yaw; in the body frame the target minus the robot, turned back by the robot's yaw, is the waypoint, and the target yaw is congruent to the robot's plus the waypoint's |
| Tracker.NewWaypointIsAimedAt | include/features/tracker/tracker.hpp:275-348 | so does every period that takes over a path or arrives at a point that is not the last |
| Tracker.FeedForwardFollowsLeg | include/features/tracker/tracker.hpp:496-531 | on the way the velocity has the direction of the leg, from the point before or from the robot, or of the next leg if this one is shorter than a millimetre |
| Tracker.StepTickIsCapped | include/features/tracker/tracker.hpp:385-398 | the limiter gets the raw command, shortened in position mode exactly to the limit in force |
| Tracker.VelocityEndsOnTimeOut | include/features/tracker/tracker.hpp:352-360 | holding a velocity ends with the first period that times out, and with no other |
| TrackerRuns.RunStaysFresh | include/features/tracker/tracker.hpp:254-273 | after any sequence of commands, periods, adds and removes with steady answers, the limits in force are the least of waypoint, configuration and every callback that is left |
| TrackerRuns.RunKeepsLimit | include/features/tracker/tracker.hpp:385-407 | over any run in position mode with the limit in force at most L and slack jerk, the speed never exceeds the larger of the first speed and L |
| TrackerRuns.RegisteredLimitHolds | include/features/tracker/tracker.hpp:385-473 | so while a callback that answers L stays registered and only paths are followed, whatever other callbacks and paths come and go |
| TrackerRuns.VelocityIsKeptExactly | include/features/tracker/tracker.hpp:254-273 | over every run from a new tracker: adding a callback, or removing a registered one, keeps whatever velocity is commanded exactly if no path has ever been taken over |
| TrackerRuns.FinishedPathStopsVelocity | include/features/tracker/tracker.hpp:527-531 | with a path flown to its end still in place, an added callback turns the command into a standstill |
| TrackerRuns.RunStaysOnTarget | include/features/tracker/tracker.hpp:275-373 | after any sequence of events, following a path in the world frame, the target is the path point at the index |
| TrackerRuns.FlownPathWasAimedAt | include/features/tracker/tracker.hpp:325-348 | from the staging of a path in the world frame on, the targets so far are the points up to the present one, in order; at its end they are exactly the points of the path, whatever callbacks came and went |
| Tracker.SpeedLimitToken.Release | include/core/base_tracker.hpp:145-151 | gives the callback back at most once: a released token holds nothing |
| Tracker.SpeedLimitToken.MoveFrom | include/core/base_tracker.hpp:133-142 | releases what was held, takes over the other's id and owner, empties the other; self-move changes nothing |
| Tracker.DetectSwitch.Enable | src/features/algo/event_listener.cpp:50-55 | exactly one detect limit is registered, also when detection was on already, and all others stay |
| Tracker.DetectSwitch.Disable | src/features/algo/event_listener.cpp:73-77 | exactly the detect limit goes |
| DatumSync.DatumSynchronizer.PushENU | include/utils/datum_synchronizer.hpp:34-45 | append, drop the oldest over 200, settle |
| DatumSync.DatumSynchronizer.PushGPS | include/utils/datum_synchronizer.hpp:50-61 | append, drop the oldest over 50, settle |
| DatumSync.DatumSynchronizer.TrySync | include/utils/datum_synchronizer.hpp:83-121 | the loop ends and settles exactly the prefix of fixes that the positions decide, in order, keeping the newest pairs |
| DatumSync.DatumSynchronizer.InterpolateENU | include/utils/datum_synchronizer.hpp:124-150 | interpolates in the first bracket, refuses too long a gap, takes the earlier sample over too short a one |
| DatumSync.DrainHead | include/utils/datum_synchronizer.hpp:83-121 | settling the oldest fix by itself first does not change the outcome |
| DatumSync.VerdictStands | include/utils/datum_synchronizer.hpp:83-121 | a verdict on a fix survives every later position |
| DatumSync.JudgeFromTail | include/utils/datum_synchronizer.hpp:34-41 | the 200 newest positions give the verdict of the whole stream on every fix newer than the oldest of them |
| DatumSync.RunIsWhole | include/utils/datum_synchronizer.hpp:34-150 | after any run, however long, in which no fix is dropped and no needed position is, window and queue are functions of the two streams alone |
| DatumSync.ArrivalOrderDoesNotMatter | include/utils/datum_synchronizer.hpp:34-150 | any two such interleavings of the same streams end in the same window, queue and buffer |
| DatumSync.RoomyIsPrompt | include/utils/datum_synchronizer.hpp:38-41 | in particular runs that never fill a buffer |
| DatumSync.WindowIsSound | include/utils/datum_synchronizer.hpp:104-150 | every pair is a received fix and a convex combination of two adjacent positions around its time, at most the permitted time apart |
| DatumSync.WaitsExactly | include/utils/datum_synchronizer.hpp:83-121 | a fix waits exactly while there are fewer than two positions or the last is before it, unless the first is after it; then it is given up |
| DatumSync.PairsLinearly | include/utils/datum_synchronizer.hpp:123-150 | a fix with ordered positions around it is paired exactly if its bracket is close enough in time; on each coordinate the displacement is to the whole as the elapsed time to the gap |
| ArrivalOrder.BackwardPositionsDepend | include/utils/datum_synchronizer.hpp:83-121 | with room in both buffers one position and one fix can change places exactly unless the position goes back behind a fix that is already surrounded |
| ArrivalOrder.FullBufferDepends | include/utils/datum_synchronizer.hpp:38-41 | with a full buffer of ordered positions they can exactly if the verdict does not hang on the oldest position: a fix in the first interval, or at its end with gaps judged differently |
| ArrivalOrder.FullQueueDepends | include/utils/datum_synchronizer.hpp:55-57 | with a full queue they can exactly if the position does not pair the oldest fix, or pairs enough later ones to push that pair out of the window |
| ArrivalOrder.FreeBehindQueue | include/utils/datum_synchronizer.hpp:83-121 | behind a fix that waits, with room in the queue, they always can, whatever the position and however full its buffer |
| ArrivalOrder.BackwardInstance | include/utils/datum_synchronizer.hpp:98-102 | a concrete position that goes back in time |
| ArrivalOrder.FullBufferInstance | include/utils/datum_synchronizer.hpp:93-96 | a concrete fix that a full buffer is too late for |
| ArrivalOrder.FullQueueInstance | include/utils/datum_synchronizer.hpp:55-57 | a concrete full queue that gives up a fix |
| PoseHistory.PushedUnique | include/features/control/context.hpp:45-100 | the outcome of a push is determined: late samples are ignored, otherwise the least prefix is dropped |
| PoseHistory.PushSample | include/features/control/context.hpp:45-53 | strictly increasing times, at most two samples or at most 2.0 s, and not one sample dropped too many |
| PoseHistory.LowerBound | include/features/control/context.hpp:68-72 | binary search finds the first sample not before the time |
| PoseHistory.ScanIsFirst | include/features/control/context.hpp:68-72 | that is where a linear scan stops |
| PoseHistory.Lookup | include/features/control/context.hpp:55-80 | the binary-search lookup equals the linear-scan interpolation on every buffer and time |
| PoseHistory.CoveredExactly | include/features/control/context.hpp:55-80 | a lookup fails exactly for an empty buffer or a time more than 0.15 s outside it: the begin/end failure in the middle is unreachable |
| PoseHistory.OffIsNearest | include/features/control/context.hpp:172-176 | the reported distance is the least distance to any sample |
| PoseHistory.ExactAtSamples | include/features/control/context.hpp:155-176 | at the time of a sample the lookup returns that sample |
| PoseHistory.ScalarStaysBetween | include/features/control/context.hpp:68-80 | an interpolated angle lies between its two neighbours |
| PoseHistory.PositionIsLinear | include/features/control/context.hpp:146-176 | strictly between two samples each coordinate is linear in time: displacement to whole as elapsed time to gap; the earlier one if they are as good as simultaneous |
| PoseHistory.AngleIsLinear | include/features/control/context.hpp:55-80 | the same for the gimbal angles |
| PoseHistory.OutsideIsTheEnd | include/features/control/context.hpp:55-69 | before the first sample and after the last the value is that sample, up to 0.15 s away |
| PoseHistory.History.PushPos | include/features/control/context.hpp:82-90 | the position window |
| PoseHistory.History.PushQuat | include/features/control/context.hpp:92-100 | the orientation window |
| PoseHistory.History.PushRoll | include/features/control/context.hpp:102-105 | the roll window |
| PoseHistory.History.PushPitch | include/features/control/context.hpp:106-109 | the pitch window |
| PoseHistory.History.PushYaw | include/features/control/context.hpp:110-113 | the yaw window |
| PoseHistory.History.GetGimbalAt | include/features/control/context.hpp:115-137 | each angle is looked up by itself |
| PoseHistory.History.GetPoseAt | include/features/control/context.hpp:139-209 | succeeds exactly if both lookups do; the distance is the larger of the two nearest-sample distances |
| Kalman.PredictKeepsPosDef | include/features/pland/kalman_filter_2d.hpp:88-94 | prediction keeps positive definiteness for every step, also a negative one |
| Kalman.CorrectKeepsPosDef | include/features/pland/kalman_filter_2d.hpp:116-121 | correction keeps it, det(P') = det(P) r / s, and the posterior variance is below both measurement noise and prior |
| Kalman.AccelerationNoiseIsHarmless | include/features/pland/kalman_filter_2d.hpp:57-74 | the singular acceleration noise matrix is harmless |
| Kalman.DiagonalNoiseIsHarmless | include/features/pland/kalman_filter_yaw.hpp:12-13 | so is the diagonal noise of the yaw filter |
| Kalman.NextIsRegular | include/features/pland/kalman_filter_2d.hpp:99-114 | the innovation covariance is a positive multiple of the identity, before and after widening, so no inverse fails |
| Kalman.DistanceIsShared | include/features/pland/kalman_filter_2d.hpp:97-102 | the squared Mahalanobis distance is the squared residual of both axes over one scalar variance |
| Kalman.DenseIsTwoAxes | include/features/pland/kalman_filter_2d.hpp:51-125 | refinement: an update of the 4-state filter is one update of each of two 2-state filters with one shared noise scale; axes stay decoupled, alike and positive definite, variance below noise |
| Kalman.NextIsDecoupled | include/features/pland/kalman_filter_2d.hpp:51-125 | so from every decoupled state |
| Kalman.RunIsTwoAxes | include/features/pland/kalman_filter_2d.hpp:33-125 | over every run of resets, forced states and measurements the 4-state filter is the pair of 2-state filters |
| Kalman.KalmanFilter2D.Update | include/features/pland/kalman_filter_2d.hpp:51-125 | the in-place update is the specification step; too short a step changes nothing |
| Kalman.KalmanFilter2D.Reset | include/features/pland/kalman_filter_2d.hpp:33-37 | start at zero with covariance 10 I |
| Kalman.KalmanFilter2D.ForceSetState | include/features/pland/kalman_filter_2d.hpp:39-48 | start at a point with covariance 0.01 I |
| Kalman.YawStaysPosDef | include/features/pland/kalman_filter_yaw.hpp:39-61 | the yaw covariance stays positive definite, the determinant identity holds and the yaw variance is below 0.5 after every update, for any normalisation of angles |
| Kalman.KalmanFilterYaw.Update | include/features/pland/kalman_filter_yaw.hpp:39-61 | the in-place update is the specification step, which `KalmanMeaning.YawIsDrawnToMeasurement` is about; a non-positive step changes nothing |
| Kalman.KalmanFilterYaw.CorrectWith | include/features/pland/kalman_filter_yaw.hpp:53-59 | gain, state and covariance of the correction |
| Kalman.KalmanFilterYaw.Reset | include/features/pland/kalman_filter_yaw.hpp:17-20 | start with covariance I |
| Kalman.KalmanFilterYaw.ForceSetState | include/features/pland/kalman_filter_yaw.hpp:27-36 | start with covariance 0.01 I |
| KalmanMeaning.PredictionVariance | include/features/pland/kalman_filter_2d.hpp:87-93 | the predicted covariance is that of the predicted state: in every direction the variance of position plus dt times velocity, and that of the noise |
| KalmanMeaning.NoiseOfAcceleration | include/features/pland/kalman_filter_2d.hpp:57-74 | the process noise is that of one random acceleration throughout the step |
| KalmanMeaning.CorrectionIsBest | include/features/pland/kalman_filter_2d.hpp:114-120 | the correction is the best linear one: in every direction the corrected covariance is the variance its share of the residual leaves, and every other share leaves more |
| KalmanMeaning.AxisIsDrawnToMeasurement | include/features/pland/kalman_filter_2d.hpp:91-120 | an update leaves 1 - k of the predicted residual, 0 < k < 1, and the velocity changes by P.c / P.a times k times the residual |
| KalmanMeaning.DenseIsDrawnToMeasurement | include/features/pland/kalman_filter_2d.hpp:91-120 | so the 4-state filter moves both coordinates towards the measurement, by one share |
| KalmanMeaning.WideningExactly | include/features/pland/kalman_filter_2d.hpp:104-112 | the noise is widened only above the threshold, by the ratio or the most allowed |
| KalmanMeaning.MeasurementNoiseExactly | include/features/pland/kalman_filter_2d.hpp:76-82 | the measurement noise is the base times 1 + 5 rate up to 2 m, and grows with the square of the height beyond |
| KalmanMeaning.MeasurementNoiseGrows | include/features/pland/kalman_filter_2d.hpp:76-82 | it is strictly increasing in the rate, and in the height from 2 m on |
| KalmanMeaning.YawIsDrawnToMeasurement | include/features/pland/kalman_filter_yaw.hpp:39-61 | an update takes the yaw from yaw + dt rate along the shortest turn to the measurement, by a share strictly between none and all; the shortest turn that is left is 1 - k times it, strictly shorter unless it was zero, and the rate changes by P.c / P.a times k times it |
| Landing.DescentController.CalculateSharedZDescent | include/features/pland/landing_controller.hpp:113-225 | touch-down exactly below the landing height; otherwise flag, descent, hold radius, target height and stiffnesses |
| Landing.DescentController.ExecuteZStateMachine | include/features/pland/landing_controller.hpp:228-247 | the flag is stored except on touch-down |
| Landing.FlagExactly | include/features/pland/landing_controller.hpp:132-143 | over any run the blind-drop flag is on exactly if a low, well-aligned step turned it on, or it was on at first, and no step above max(1, blind altitude + 0.5) came since |
| Landing.DescentRange | include/features/pland/landing_controller.hpp:165-205 | outside the blind drop the descent is in [0, min(1, limit)] and positive only inside the hold radius and within 35 degrees |
| Landing.DescentFalls | include/features/pland/landing_controller.hpp:170-205 | and antitone in the planar error and the yaw error together |
| Landing.HoldRadiusGrows | include/features/pland/landing_controller.hpp:149-163 | the hold radius stays between its two ends and grows with the height |
| Landing.RampIsUsedExactly | include/features/pland/landing_controller.hpp:146-177 | at every height some planar error leaves part of the descent exactly if the align radius is below the hold radius there; exactly otherwise the planar factor is 1 up to the hold radius and 0 beyond |
| Landing.DescentIsGradualExactly | include/features/pland/landing_controller.hpp:146-205 | at every height some planar error gives a descent between none and full exactly if moreover the speed limit exceeds 0.05 of the base speed; otherwise every error gives none or full |
| Landing.DefaultsJumpFromEighteen | include/features/pland/config.hpp:102-128 | with the default radii and speed limit the descent is gradual exactly below 18 m, and the factor jumps from there up |
| Landing.GammaGrows | include/features/pland/landing_controller.hpp:213-222 | planar stiffness stays between its ends and grows with the height |
| Landing.FlagStepExactly | include/features/pland/landing_controller.hpp:125-143 | on above the landing height, below the blind height and within the planar threshold; off above that height by half a metre and above 1 m; otherwise as it was |
| Landing.BaseVelExactly | include/features/pland/landing_controller.hpp:193-196 | 0.2 m/s on the ground, 0.08 more for each metre, 1 m/s from 10 m up |
| Landing.HoldRadiusExactly | include/features/pland/landing_controller.hpp:155-165 | the smallest radius up to the minimum altitude, the largest from 10 m up, and linear in between |
| Landing.GammaExactly | include/features/pland/landing_controller.hpp:213-222 | the least stiffness on the ground, the largest above the height of decay, and linear in between |
| Landing.DescentExactly | include/features/pland/landing_controller.hpp:145-205 | the descent speed is the speed for the height times the planar and the yaw share, each linear between its two thresholds, or none up to a product of 0.05, under the speed limit; in the blind drop the touch-down speed and 0.2 |
| Trajectory.KinematicTrajectoryGenerator2D.Step | include/features/pland/landing_controller.hpp:53-89 | the in-place step is the specification step, which `TrajectoryMeaning` is about; before the first reset the target is returned and nothing changes |
| Trajectory.KinematicTrajectoryGenerator2D.Follow | include/features/pland/landing_controller.hpp:671-700 | trajectory, then leash, with the state forced to the leashed point |
| Trajectory.ApproachCanBrake | include/features/pland/landing_controller.hpp:61-76 | the relative speed is at most the cruise speed and one that 80 % of the acceleration stops within the distance |
| Trajectory.AccelerationBound | include/features/pland/landing_controller.hpp:78-86 | acceleration stays within its limit, velocity changes by at most that times dt |
| Trajectory.StepIsMean | include/features/pland/landing_controller.hpp:78-86 | if Kv dt <= 1 the new velocity is a convex combination of old and wanted |
| Trajectory.LeashHolds | include/features/pland/landing_controller.hpp:683-699 | after the leash the point is within max(2, 1 + z/6) of the robot and no faster than before |
| Trajectory.RunKeepsSpeed | include/features/pland/landing_controller.hpp:53-89 | over any run the virtual speed never exceeds the larger of the first speed and cruise plus target speed, and the point ends on the leash |
| Trajectory.GainExactly | include/features/pland/landing_controller.hpp:78-86 | that bound holds for all states and goals exactly if Kv dt <= 1 |
| TrajectoryMeaning.StepMovesByMeanVelocity | include/features/pland/landing_controller.hpp:83-86 | every step moves the point by the mean of its velocities before and after, times the period |
| TrajectoryMeaning.DisplacementIsVelocitySum | include/features/pland/landing_controller.hpp:83-86 | over any unleashed run the displacement is the sum of the mean velocities times their periods |
| TrajectoryMeaning.DisplacementIsBounded | include/features/pland/landing_controller.hpp:53-89 | and at most the top speed times the elapsed time |
| TrajectoryMeaning.ApproachPointsToTarget | include/features/pland/landing_controller.hpp:61-74 | the approach velocity is a positive share of kp times the way to the target; it has a positive component along the way for kp > 0 away from the target |
| TrajectoryMeaning.GentleApproach | include/features/pland/landing_controller.hpp:61-74 | within 1 cm of the target and under the cruise speed nothing is cut from kp times the way |
| TrajectoryMeaning.AcceleratesToWanted | include/features/pland/landing_controller.hpp:76-86 | the velocity changes by kv times what it lacks of approach plus target velocity, cut exactly to the acceleration limit, times the period |
| TrajectoryMeaning.RidesWithTarget | include/features/pland/landing_controller.hpp:61-86 | on the target and as fast as it, the point rides with it |
| TrajectoryMeaning.LeashPullsStraight | include/features/pland/landing_controller.hpp:683-699 | the leash pulls the point straight to the robot, to exactly its length, and cuts the speed exactly to cruise; a short one is left alone |
| TrajectoryMeaning.LeashLengthExactly | include/features/pland/landing_controller.hpp:687 | 2 m up to a height of 6 m, then 1 m and a sixth of the height |
| Mission.WaypointState.OnEnter | src/states/waypoint_state.cpp:50-117 | every outcome; the return point is appended; a point is a dwell point exactly if lifting is not skipped, it was named, the route turns by more than 60 degrees there, or it is the last; the mission home is recorded once |
| Mission.WaypointState.MarkTurns | src/states/waypoint_state.cpp:96-112 | the loop marks exactly the sharp turns |
| Mission.WaypointState.TurnsSharply | src/states/waypoint_state.cpp:97-103 | the clamped-cosine test is the root-free test 4 (u.v)^2 < |u|^2 |v|^2 or u.v <= 0 on legs over 0.1 m |
| Mission.WaypointState.EnterExecuteState | src/states/waypoint_state.cpp:224-261 | sends exactly the points from the current one to the first dwell point |
| Mission.WaypointState.OnArrive | src/states/waypoint_state.cpp:263-283 | one more point, one progress event, then done, lifting or the next leg |
| Mission.WaypointState.CheckArrive | src/states/waypoint_state.cpp:210-221 | there exactly if odometry is ok and the distance is below the dwell tolerance for a dwell point, the pass tolerance for any other |
| Mission.WaypointState.Handle | src/states/waypoint_state.cpp:164-292 | each happening is one step of the machine the runs below are about |
| Mission.FirstDwellUnique | src/states/waypoint_state.cpp:229-243 | the path ends at the first dwell point and nowhere else |
| Mission.NextPathIsTail | src/states/waypoint_state.cpp:274-282 | after a point that is flown through, the next path is the tail of the one before |
| Mission.StretchesAreTheRoute | src/states/waypoint_state.cpp:229-243 | the stretches between dwell points concatenate to the route |
| Mission.SentPathsAreTheRoute | src/states/waypoint_state.cpp:224-283 | in every finished run without interruptions the paths that were sent first or after a dwell point concatenate to the route |
| Mission.EveryRunSound | src/states/waypoint_state.cpp:164-292 | over any run with any interruptions: index in bounds while alive, progress exactly 1..k of n, done once and only at k = n, legs in order, every path the right slice |
| Mission.IndexMovesOnArrival | src/states/waypoint_state.cpp:263-268 | while flying to a point the index moves, by one, exactly on a tick with odometry and a distance below the dwell tolerance at a dwell point, the pass tolerance at any other; n - index is a measure |
| Mission.ArrivalLeadsOn | src/states/waypoint_state.cpp:263-283 | an arrival reports one more point and leads to the end after the last point, to a lifting after any other dwell point, and else to the next leg with the next path |
| Mission.ReportedFromNear | src/states/waypoint_state.cpp:210-221 | over every run, each reported point was reported on a tick with odometry, a dwell point from nearer than the dwell tolerance and any other from nearer than the pass tolerance |
| Mission.WiderThanSixtyIsAngle | src/states/waypoint_state.cpp:97-103 | the turn test holds exactly if the cosine of the angle between the legs is below one half, whatever their lengths |
| Mission.WaypointState.PathToDwell | src/states/waypoint_state.cpp:229-243 | the loop collects the points from the current one to the first dwell point |
| Mission.FinishedVisitsAll | src/states/waypoint_state.cpp:224-283 | a finished mission began a leg to every point |
| Mission.InterruptionKeepsProgress | include/states/posvel_state.hpp:157-169 | an interruption of any length, ended by the step back to lifting, changes nothing but the phase |
| Mission.DispatchesExactly | src/states/waypoint_state.cpp:246-253 | over every run the actions of a point are dispatched once if it is or was flown to, and once more for each time the leg to it was interrupted |
| Mission.BreaksExactly | src/states/waypoint_state.cpp:246-253 | a mission can be finished exactly if it has no action list or one at least as long as its route, return point included; otherwise, and only then, a run ends in the out-of-range exception |
| MissionIntake.WaypointEvent.OnSetWaypoint | src/features/control/event_listener.cpp:215-348 | refused exactly in the initial state, for nothing on the ground, for an unprojectable point, or for RETURN without a home; otherwise the first of two or more points is dropped, order is kept, heights are compensated, and the plan is the right one |
| MissionIntake.WaypointEvent.ProjectPoints | src/features/control/event_listener.cpp:251-263 | all points or failure; requested height = stored height - (z - height above home) |
| MissionIntake.WaypointEvent.RaisePoints | src/features/control/event_listener.cpp:264-273 | the same compensation for local points, x and y untouched |
| MissionIntake.WaypointEvent.ResolveReturn | src/features/control/event_listener.cpp:277-306 | home by precedence; height of the last point, else the present one |
| MissionIntake.HomeIsFirstStart | src/states/waypoint_state.cpp:67-71 | between two clears the mission home is the start of the first mission with points, whatever else happens |
| MissionIntake.ReturnGoesToFirstStart | src/features/control/event_listener.cpp:289-290 | so every later RETURN goes there |
| MissionIntake.GroundHasNoHome | src/states/ground_state.cpp:8-12 | on the ground there is no mission home, over every run |
| MissionIntake.HomeOfLastResort | src/features/control/event_listener.cpp:289-304 | without a mission and a take-off, home is the autopilot's, projected and compensated in height; without that there is none |
| MissionIntake.TakeOffIsKept | src/states/takeoff_state.cpp:51-54 | the take-off point is overwritten by the next take-off and by nothing else |
| MissionIntake.GroundReturnIsStale | src/features/control/event_listener.cpp:289-292 | so a RETURN accepted on the ground goes to the last take-off before it; that is where the robot stands exactly if it took off there |
| MissionIntake.SecondFlightReturnsToFirst | src/features/control/event_listener.cpp:289-292 | two flights from different places: the RETURN of the second, accepted on the ground, goes to the start of the first |
| MissionIntake.AcceptAndEnter | src/features/control/event_listener.cpp:215-348 | from the command to the entered mission: whether it can break depends on the number of points, the finish action and the length of the action list alone |
| Reporting.RateLimiter.CheckAndUpdate | include/utils/state_registry.hpp:18-25 | accepts exactly after an interval at a positive rate, and remembers only accepted times |
| Reporting.AcceptedApart | include/utils/state_registry.hpp:18-25 | accepted times are at least 1/hz apart, whatever clock values come between |
| Reporting.WindowBound | include/utils/state_registry.hpp:18-25 | any window of length T holds at most T hz + 1 accepted times |
| Reporting.NoLostUpdate | include/utils/dirty_var.hpp:60-127 | every step of any number of writers and the reporter keeps: quiet means consumed and remembered |
| Reporting.QuietIsCurrent | include/utils/state_registry.hpp:81-127 | when nothing is in flight and the flag is down, the last consumed value is the data, and the remembered one equals it or is too close for the checker |
| Reporting.StreamTellsWithoutSnapshots | include/utils/state_registry.hpp:81-111 | without full-state snapshots the last value of the stream is current or close |
| Reporting.SnapshotHidesUpdate | include/utils/state_registry.hpp:113-127 | after one snapshot any value the checker keeps back is never in the stream at all |
| Reporting.StreamTellsExactly | include/utils/state_registry.hpp:81-127 | with snapshots allowed the stream is current in all runs exactly if the checker keeps nothing back |
| Reporting.DirtyVar.Store | include/utils/dirty_var.hpp:60-84 | an equal value leaves the flag alone, any other raises it |
| Reporting.DirtyVar.ConsumeIfDirty | include/utils/dirty_var.hpp:120-127 | takes the flag and the data together |
| Reporting.DirtyVar.MarkDirty | include/utils/dirty_var.hpp:117 | raises the flag only |
| Reporting.ReportableBinding.TryReport | include/utils/state_registry.hpp:81-111 | the method is the protocol's poll, take and read, run without interruption |
| Reporting.ReportableBinding.AppendFullState | include/utils/state_registry.hpp:113-127 | remembers the data as reported without lowering the flag |
| Reporting.DueReportConsumes | include/utils/state_registry.hpp:81-111 | a due poll, left alone, takes the flag down, consumes the data, and sends it unless the checker keeps it back |
| Reporting.IdlePollIsNothing | include/utils/state_registry.hpp:81-111 | a poll that is too early, or finds no flag, changes nothing |
| ThreadRunner.StepKeeps | include/utils/thread_runner.hpp:51-104 | every step of worker, callers and destructor keeps mutual exclusion and the announcement invariant |
| ThreadRunner.NoLostWakeUp | include/utils/thread_runner.hpp:35-104 | in every interleaving, a worker blocked with no notification due means neither running nor terminating |
| ThreadRunner.RateIsSet | include/utils/thread_runner.hpp:51-82 | the worker never reads the rate before a start has set it; the mutex has one holder |
| ThreadRunner.JoinEndsExactly | include/utils/thread_runner.hpp:35-96 | a waiting destructor gets its worker back exactly if the worker is not in a run that nobody stopped |
| ThreadRunner.DestroyedWhileRunning | include/utils/thread_runner.hpp:83-96 | every idle, running runner that is destroyed without a stop gets there: the inner loop never looks at the terminating flag |
| ThreadRunner.StartThenDestroyHangs | include/utils/thread_runner.hpp:35-96 | and a new runner with any number of callers gets there by a start, the worker's first steps and a destruction |
| ThreadRunner.StopThenDestroyReturns | include/utils/thread_runner.hpp:35-104 | after a stop, the same start, steps and destruction end with the worker joined |
| Angles.NormYaw | src/states/state_utils.cpp:140-144 | the two loops end, in the one congruent angle of [0, 2 pi) |
| Angles.NormalUnique | src/states/state_utils.cpp:140-144 | there is only one such angle |
| Angles.ThereAndBack | src/states/state_utils.cpp:126-137 | ENU to NED and back, in either order, only normalises |
| Angles.YawEnuToNed | src/states/state_utils.cpp:126-130 | the conversion in place |
| Angles.YawNedToEnu | src/states/state_utils.cpp:133-137 | and its inverse |
| Angles.AngleController.GetDistance | include/states/state_utils.hpp:121-139 | the turn and the direction flag, which is set exactly for a negative turn |
| Angles.TurnReachesTarget | include/states/state_utils.hpp:121-139 | the turn is congruent to target - current, at most half a turn, or, clockwise in the dead zone, less than half a turn and the dead band |
| Angles.DirectionChangesOnce | include/states/state_utils.hpp:121-139 | while the dead zone is not left, a clockwise direction is kept, so it changes at most once |
| Angles.HysteresisExactly | include/states/state_utils.hpp:121-139 | that holds for all runs exactly if the dead band is at most pi |
| Angles.HeadingCountsFromNorth | src/states/state_utils.cpp:126-137 | north is 0, east pi/2 and west 3 pi/2 in NED; both conversions give the angle of [0, 2 pi) congruent to pi/2 minus the yaw |
| Angles.TurnIsShortest | include/states/state_utils.hpp:121-139 | no turn to the target is shorter, except clockwise in the dead zone, where no clockwise turn is |
| Base64.Encode | include/features/ntrip/ntrip_client.hpp:204-223 | the accumulator loop with its padding yields the encoding of section 4 of RFC 4648, with a 32-bit wrapping accumulator and with an unbounded one |
| Base64.EncodeLetters | include/features/ntrip/ntrip_client.hpp:204-221 | the letters before the padding, from nested loops over a wrapping accumulator |
| Base64.DecodedEncoding | include/features/ntrip/ntrip_client.hpp:204-223 | a strict specification decoder inverts it on every byte string |
| Base64.EncodingIsUnique | include/features/ntrip/ntrip_client.hpp:204-223 | nothing else decodes to those bytes |
| Base64.EncodingLength | include/features/ntrip/ntrip_client.hpp:222 | the length is 4 ceil(n / 3) |
| Base64.LowBits | include/features/ntrip/ntrip_client.hpp:208-219 | the shifts and masks see the last two bytes only, whatever the sign of the accumulator |
| Base64.StandardAlphabet | include/features/ntrip/ntrip_client.hpp:212-214 | the 64 letters are distinct, none is the padding, and they are read back |
| Base64.LettersAreDigits | include/features/ntrip/ntrip_client.hpp:204-221 | four letters are the digits to base 64 of the number that three bytes are to base 256; the ends are shifted up |
| Base64.TestVectors | include/features/ntrip/ntrip_client.hpp:204-223 | three of the examples in section 10 of RFC 4648 |
| Request.ParseUrl | include/utils/request.hpp:44-77 | the method is the reading of the text, with the defaults http, / and 443 or 80 |
| Request.DefaultsExactly | include/utils/request.hpp:49-74 | http without a scheme, / without a path, and without a port 443 for https and 80 for all else |
| Request.ReadingKeepsText | include/utils/request.hpp:44-77 | every text is read into parts that print as that text |
| Request.ReadingOfText | include/utils/request.hpp:44-77 | and readable parts come back from their text: scheme, host, port and path |
| Request.SchemelessExactly | include/utils/request.hpp:49-56 | a URL without a scheme is understood exactly if :// stands nowhere in it, path included |
| Request.UrlEncode | include/utils/request.hpp:80-94 | the loop is the escaping of each byte |
| Request.DecodedEncoded | include/utils/request.hpp:80-94 | percent-decoding (section 2.1 of RFC 3986) inverts it on all byte strings |
| Request.EncodedIsPlain | include/utils/request.hpp:84-90 | only unreserved characters and % come out |
| Request.PlainStays | include/utils/request.hpp:84-86 | a value of letters, digits and -_.~ stays as it is |
| Request.OthersAreTriplets | include/utils/request.hpp:87-90 | any other byte becomes % and its two hexadecimal digits, in capitals |
| Request.FormBody | include/utils/request.hpp:126-136 | the loop joins the escaped fields; no separator is missing or doubled, also for empty keys |
| Request.FormReads | include/utils/request.hpp:126-136 | the body reads back into the same fields in the same order, for all bytes |

## Left out

- Floating-point rounding, infinities and NaN: arithmetic is over the reals.
- `sin`, `cos`, `hypot`, `sqrt` and `slerp` are parameters with their laws; `atan2` is only used to normalise the yaw filter: its covariance results hold for any function there, and where the yaw goes for any that gives the congruent angle of (-pi, pi]. The 60 degree test on `acos` is stated on the cosine.
- Feedback controllers and pure pursuit of the tracker: the raw command, the arrival test, the bearing to the waypoint and the command timeout are inputs of a step, so the results cover every controller.
- Unlocked reads of mode and limits in the tracker: its loop and its commands are taken one after the other.
- Waypoint jerk limits are required not to be negative, since `std::clamp` is undefined otherwise.
- The measurement noise of the 4-state filter is required to be positive: the angular rate is a norm where it is called.
- The hold radius divides by 10 minus its minimum altitude: a configured minimum altitude of exactly 10 is excluded.
- UTM projection: the planar offset of two coordinates is a parameter that may fail, the height part is modelled.
- The statistics behind a reliable datum (`isWindowReliable`): a threshold on a variance.
- Lifting ends on yaw and altitude or a stall: an input of the mission machine, as is the distance to the target.
- What the action list of a waypoint dispatches, and the waypoint list published for display.
- The `dk` state engine: step, plan, next, fallback and re-entry follow its description in the repository's README.md, lines 162-211; that a step back to lifting reuses the live mission follows include/states/posvel_state.hpp lines 158-165.
- Where a single-point move is accepted, its time-out, and the follow mode itself: to the mission both are an interruption.
- Serialisers that throw, and types without an equality that convert on store.
- The runner without a thread of its own, join liveness in real time, and `on_stop` racing a step that is under way.
- CTRV, UKF and IMM filters, ray geometry, AprilTag detection, CAN packing, adapters, networking, JSON and YAML.
- Limiter.RunKeepsSpeed: asks for a jerk limit of at least 2A per tick; `SpeedCap.CapIsKeptExactly` shows that no less will do.
- TrackerRuns.RunKeepsLimit: asks for slack jerk in every period, for the same reason, and for limits that are not negative.
- TrackerRuns.RunStaysFresh: asks for answers that do not change during the run, since limits are only read when a callback is added or removed or a waypoint begins.
- DatumSync.ArrivalOrderDoesNotMatter: asks for positions in order of time, for a queue that never overflows and for fixes newer than what the position buffer has given up. For one position and one fix `ArrivalOrder` says exactly what happens without each of these; for whole streams the condition is sufficient only, because a later pair can push an earlier difference out of the window.
- Landing.DescentIsGradualExactly: asks for a funnel radius that is not negative and a positive speed limit.
- Trajectory.RunKeepsSpeed: asks for a gain that is not negative, with Kv dt <= 1.
