/**
 Whole lives of the tracker: commands, callbacks that come and go, and periods, in any order.
 */
module TrackerRuns {
  import opened Basics
  import opened Planar
  import opened Limiter
  import opened Tracker

  datatype Event =
    | Send(path: seq<Waypoint>)
    | Hold(v: Velocity)
    | Add(name: string, w: World)
    | Remove(id: int, w: World)
    | Beat(dt: real, w: World, arrived: bool, timedOut: bool, heading: Option<real>, raw: Cmd)

  /** The bookkeeping and the limiter. */
  datatype Loop = Loop(x: Tracking, lim: State)

  ghost predicate EventOk(e: Event) {
    e.Send? ==> AllJerksOk(e.path)
  }

  /** The bookkeeping after an event; a period that is too short is none. */
  ghost function Booked(u: Setup, x: Tracking, e: Event): Tracking {
    match e
    case Send(path) => if path == [] then x else x.(track := x.track.(pending := Some(FollowPath(path))))
    case Hold(v) => x.(track := x.track.(pending := Some(HoldVelocity(v))))
    case Add(name, w) => AddLimit(u, x, name, w)
    case Remove(id, w) => RemoveLimit(u, x, id, w)
    case Beat(dt, w, arrived, timedOut, heading, raw) =>
      if dt < ACC_EPS then x else Period(u, x, w, arrived, timedOut, heading)
  }

  lemma BookedIsProper(u: Setup, x: Tracking, e: Event)
    requires Proper(x) && EventOk(e)
    ensures Proper(Booked(u, x, e))
  {
    match e
    case Send(path) =>
    case Hold(v) =>
    case Add(name, w) => AddKeepsProper(u, x, name, w);
    case Remove(id, w) => RemoveKeepsProper(u, x, id, w);
    case Beat(dt, w, arrived, timedOut, heading, raw) => PeriodKeepsProper(u, x, w, arrived, timedOut, heading);
  }

  /** A period in which the limiter works: neither idle nor the one that stops. */
  ghost predicate Drives(u: Setup, x: Tracking, e: Event) {
    e.Beat? && e.dt >= ACC_EPS && Booked(u, x, e).track.mode != IDLE
  }

  /** What the limiter is given in such a period. */
  ghost function Given(u: Setup, x: Tracking, e: Event): Tick
    requires e.Beat?
  {
    var y := Booked(u, x, e);
    StepTick(u.m, y.track.mode, e.raw, y.caps.xy, u.top, y.over, e.w.yaw, e.dt)
  }

  lemma GivenIsSane(u: Setup, cfg: Config, x: Tracking, e: Event)
    requires Proper(x) && Limited(u.top, cfg) && EventOk(e) && Drives(u, x, e)
    ensures Sane(cfg, Given(u, x, e))
  {
    BookedIsProper(u, x, e);
  }

  ghost function Handle(u: Setup, cfg: Config, s: Loop, e: Event): (t: Loop)
    requires Proper(s.x) && Limited(u.top, cfg) && EventOk(e)
    ensures Proper(t.x) && t.x == Booked(u, s.x, e)
  {
    BookedIsProper(u, s.x, e);
    if Drives(u, s.x, e) then
      GivenIsSane(u, cfg, s.x, e);
      Loop(Booked(u, s.x, e), Next(u.m, cfg, s.lim, Given(u, s.x, e)))
    else if e.Beat? && e.dt >= ACC_EPS && Activate(s.x.track).mode != IDLE then Loop(Booked(u, s.x, e), Rest(e.w.yaw))
    else Loop(Booked(u, s.x, e), s.lim)
  }

  ghost predicate AllOk(run: seq<Event>) {
    forall i :: 0 <= i < |run| ==> EventOk(run[i])
  }

  ghost function After(u: Setup, cfg: Config, s: Loop, run: seq<Event>): (t: Loop)
    requires Proper(s.x) && Limited(u.top, cfg) && AllOk(run)
    ensures Proper(t.x)
    decreases |run|
  {
    if run == [] then s
    else
      assert EventOk(run[0]);
      After(u, cfg, Handle(u, cfg, s, run[0]), run[1..])
  }

  // ---------- the limits in force ----------

  /** The callbacks answer alike throughout. */
  ghost predicate Reads(e: Event, limits: Readings) {
    (e.Add? || e.Remove? || e.Beat?) ==> e.w.limits == limits
  }

  lemma TakeOverStaysFresh(u: Setup, x: Tracking, w: World)
    requires Fresh(u.top, x, w.limits)
    ensures Fresh(u.top, TakeOver(u, x, w), w.limits)
  {
    RefreshIsFresh(u, x.(track := Activate(x.track)), w);
  }

  lemma WalkStaysFresh(u: Setup, x: Tracking, w: World, arrived: bool, timedOut: bool)
    requires Fresh(u.top, x, w.limits)
    ensures Fresh(u.top, WalkOn(u, x, w, arrived, timedOut), w.limits)
  {
    RefreshIsFresh(u, x.(track := Walk(x.track, arrived, timedOut)), w);
  }

  lemma PeriodStaysFresh(u: Setup, x: Tracking, w: World, arrived: bool, timedOut: bool, heading: Option<real>)
    requires Fresh(u.top, x, w.limits)
    ensures Fresh(u.top, Period(u, x, w, arrived, timedOut, heading), w.limits)
  {
    TakeOverStaysFresh(u, x, w);
    var a := TakeOver(u, x, w);
    assert Fresh(u.top, TurnAlong(a, heading), w.limits);
    WalkStaysFresh(u, TurnAlong(a, heading), w, arrived, timedOut);
  }

  lemma EventStaysFresh(u: Setup, x: Tracking, e: Event, limits: Readings)
    requires Fresh(u.top, x, limits) && Reads(e, limits)
    ensures Fresh(u.top, Booked(u, x, e), limits)
  {
    match e
    case Send(path) =>
    case Hold(v) =>
    case Add(name, w) => RefreshIsFresh(u, x.(cbs := x.cbs + [LimitCb(x.next, name)], next := x.next + 1), w);
    case Remove(id, w) => RefreshIsFresh(u, x.(cbs := Without(x.cbs, id)), w);
    case Beat(dt, w, arrived, timedOut, heading, raw) => PeriodStaysFresh(u, x, w, arrived, timedOut, heading);
  }

  /**
   After any sequence of commands, periods, adds and removes the limits in force are the least of the present
   waypoint's, the configured ones and those of every callback that is left.
   */
  lemma {:induction false} RunStaysFresh(u: Setup, cfg: Config, s: Loop, run: seq<Event>, limits: Readings)
    requires Proper(s.x) && Limited(u.top, cfg) && AllOk(run)
    requires Fresh(u.top, s.x, limits) && forall i :: 0 <= i < |run| ==> Reads(run[i], limits)
    ensures Fresh(u.top, After(u, cfg, s, run).x, limits)
    decreases |run|
  {
    if run != [] {
      assert EventOk(run[0]) && Reads(run[0], limits);
      EventStaysFresh(u, s.x, run[0], limits);
      RunStaysFresh(u, cfg, Handle(u, cfg, s, run[0]), run[1..], limits);
    }
  }

  // ---------- the speed under a limit ----------

  /** If the limiter works, it works in position mode under a limit of at most `L`, and jerk does not get in the way. */
  ghost predicate Gentle(u: Setup, cfg: Config, s: Loop, e: Event, L: real)
    requires Proper(s.x) && Limited(u.top, cfg) && EventOk(e)
  {
    Drives(u, s.x, e) ==>
      var y := Booked(u, s.x, e);
      y.track.mode == POSITION && 0.0 <= y.caps.xy <= L && Unhindered(u, cfg, s, e)
  }

  ghost predicate Unhindered(u: Setup, cfg: Config, s: Loop, e: Event)
    requires Proper(s.x) && Limited(u.top, cfg) && EventOk(e)
  {
    Drives(u, s.x, e) ==> Sane(cfg, Given(u, s.x, e)) && Slack(u.m, cfg, s.lim, Given(u, s.x, e))
  }

  ghost predicate GentleRun(u: Setup, cfg: Config, s: Loop, run: seq<Event>, L: real)
    requires Proper(s.x) && Limited(u.top, cfg) && AllOk(run)
    decreases |run|
  {
    run == [] ||
    (assert EventOk(run[0]);
     Gentle(u, cfg, s, run[0], L) && GentleRun(u, cfg, Handle(u, cfg, s, run[0]), run[1..], L))
  }

  lemma EventKeepsSpeed(u: Setup, cfg: Config, s: Loop, e: Event, L: real, V: real)
    requires Lawful(u.m) && Proper(s.x) && Limited(u.top, cfg) && EventOk(e)
    requires L <= V && SPEED_EPS <= V && Within(s.lim.vel.xy, V) && Gentle(u, cfg, s, e, L)
    ensures Within(Handle(u, cfg, s, e).lim.vel.xy, V)
  {
    if Drives(u, s.x, e) {
      var y := Booked(u, s.x, e);
      PositionStepKeepsLimit(u.m, cfg, s.lim, e.raw, y.caps.xy, u.top, y.over, e.w.yaw, e.dt, V);
    } else {
      assert 0.0 <= V * V;
    }
  }

  /** In position mode, with the limit in force at most `L`, the speed never exceeds the larger of the first speed and `L`. */
  lemma {:induction false} RunKeepsLimit(u: Setup, cfg: Config, s: Loop, run: seq<Event>, L: real, V: real)
    requires Lawful(u.m) && Proper(s.x) && Limited(u.top, cfg) && AllOk(run)
    requires L <= V && SPEED_EPS <= V && Within(s.lim.vel.xy, V) && GentleRun(u, cfg, s, run, L)
    ensures Within(After(u, cfg, s, run).lim.vel.xy, V)
    decreases |run|
  {
    if run != [] {
      assert EventOk(run[0]);
      EventKeepsSpeed(u, cfg, s, run[0], L, V);
      RunKeepsLimit(u, cfg, Handle(u, cfg, s, run[0]), run[1..], L, V);
    }
  }

  // ---------- one callback, as long as it is registered ----------

  ghost predicate SpeedsOk(path: seq<Waypoint>) {
    forall w :: w in path ==> w.speedXY.GetOr(0.0) >= 0.0
  }

  /** Only paths are followed, and no limit is negative. */
  ghost predicate OnlyPaths(x: Tracking) {
    && x.track.mode != VELOCITY && SpeedsOk(x.track.waypoints)
    && (x.track.pending.Some? ==> x.track.pending.value.FollowPath? && SpeedsOk(x.track.pending.value.path))
  }

  /** Nothing but paths is sent, and callback `id` is left alone. */
  ghost predicate Leaves(e: Event, id: int) {
    match e
    case Send(path) => SpeedsOk(path)
    case Hold(_) => false
    case Remove(other, _) => other != id
    case _ => true
  }

  /** The callback is registered and answers `L`. */
  ghost predicate Covered(u: Setup, x: Tracking, limits: Readings, id: int, L: real) {
    && Fresh(u.top, x, limits) && OnlyPaths(x) && Registered(x.cbs, id) && limits(id) == Some(L)
    && forall i :: limits(i).Some? ==> limits(i).value >= 0.0
  }

  lemma OthersStayRegistered(cbs: seq<LimitCb>, id: int, other: int)
    requires Registered(cbs, id) && id != other
    ensures Registered(Without(cbs, other), id)
  {
    var i :| 0 <= i < |cbs| && cbs[i].id == id;
    WithoutMembers(cbs, other);
    assert cbs[i] in Without(cbs, other);
  }

  /** What an event does to the walk and to the callbacks, whatever else it does. */
  function Walked(t: Track, e: Event): Track {
    match e
    case Send(path) => if path == [] then t else t.(pending := Some(FollowPath(path)))
    case Hold(v) => t.(pending := Some(HoldVelocity(v)))
    case Beat(dt, _, arrived, timedOut, _, _) => if dt < ACC_EPS then t else Walk(Activate(t), arrived, timedOut)
    case _ => t
  }

  function Callbacks(x: Tracking, e: Event): seq<LimitCb> {
    match e
    case Add(name, _) => x.cbs + [LimitCb(x.next, name)]
    case Remove(id, _) => Without(x.cbs, id)
    case _ => x.cbs
  }

  lemma PeriodKeepsCallbacks(u: Setup, x: Tracking, w: World, arrived: bool, timedOut: bool, heading: Option<real>)
    ensures Period(u, x, w, arrived, timedOut, heading).cbs == x.cbs
  {
    var a := TakeOver(u, x, w);
    assert a.cbs == x.cbs;
    assert TurnAlong(a, heading).cbs == a.cbs;
  }

  lemma BookedParts(u: Setup, x: Tracking, e: Event)
    ensures Booked(u, x, e).track == Walked(x.track, e)
    ensures Booked(u, x, e).cbs == Callbacks(x, e)
  {
    match e
    case Send(path) =>
    case Hold(v) =>
    case Add(name, w) =>
    case Remove(id, w) => if !Registered(x.cbs, id) { WithoutStranger(x.cbs, id); }
    case Beat(dt, w, arrived, timedOut, heading, raw) =>
      PeriodWalks(u, x, w, arrived, timedOut, heading);
      PeriodKeepsCallbacks(u, x, w, arrived, timedOut, heading);
  }

  lemma WalkedOnlyPaths(x: Tracking, e: Event, id: int)
    requires OnlyPaths(x) && Leaves(e, id)
    ensures forall y: Tracking :: y.track == Walked(x.track, e) ==> OnlyPaths(y)
  {
  }

  lemma CallbackStays(x: Tracking, e: Event, id: int)
    requires Registered(x.cbs, id) && Leaves(e, id)
    ensures Registered(Callbacks(x, e), id)
  {
    if e.Add? {
      var i :| 0 <= i < |x.cbs| && x.cbs[i].id == id;
      assert Callbacks(x, e)[i].id == id;
    } else if e.Remove? {
      OthersStayRegistered(x.cbs, id, e.id);
    }
  }

  lemma StaysCovered(u: Setup, x: Tracking, e: Event, limits: Readings, id: int, L: real)
    requires Covered(u, x, limits, id, L) && Reads(e, limits) && Leaves(e, id)
    ensures Covered(u, Booked(u, x, e), limits, id, L)
  {
    EventStaysFresh(u, x, e, limits);
    BookedParts(u, x, e);
    WalkedOnlyPaths(x, e, id);
    CallbackStays(x, e, id);
  }

  lemma CoveredLimit(u: Setup, x: Tracking, limits: Readings, id: int, L: real)
    requires Covered(u, x, limits, id, L) && x.track.mode == POSITION && x.track.OnPath() && u.top.xy >= 0.0
    ensures 0.0 <= x.caps.xy <= L
  {
    var w := x.track.waypoints[x.track.index];
    assert w in x.track.waypoints;
    var i :| 0 <= i < |x.cbs| && x.cbs[i].id == id;
    assert x.cbs[i] in x.cbs && limits(x.cbs[i].id) == Some(L);
  }

  ghost predicate UnhinderedRun(u: Setup, cfg: Config, s: Loop, run: seq<Event>)
    requires Proper(s.x) && Limited(u.top, cfg) && AllOk(run)
    decreases |run|
  {
    run == [] ||
    (assert EventOk(run[0]);
     Unhindered(u, cfg, s, run[0]) && UnhinderedRun(u, cfg, Handle(u, cfg, s, run[0]), run[1..]))
  }

  lemma {:induction false} CoveredRunIsGentle(u: Setup, cfg: Config, s: Loop, run: seq<Event>, limits: Readings, id: int, L: real)
    requires Proper(s.x) && Limited(u.top, cfg) && AllOk(run) && UnhinderedRun(u, cfg, s, run)
    requires Covered(u, s.x, limits, id, L)
    requires forall i :: 0 <= i < |run| ==> Reads(run[i], limits) && Leaves(run[i], id)
    ensures GentleRun(u, cfg, s, run, L)
    decreases |run|
  {
    if run != [] {
      var e := run[0];
      assert EventOk(e) && Reads(e, limits) && Leaves(e, id);
      StaysCovered(u, s.x, e, limits, id, L);
      var t := Handle(u, cfg, s, e);
      if Drives(u, s.x, e) { CoveredLimit(u, t.x, limits, id, L); }
      CoveredRunIsGentle(u, cfg, t, run[1..], limits, id, L);
    }
  }

  /**
   What a cruise limit is for: while a callback that answers `L` is registered and only paths are followed, the
   commanded speed never exceeds the larger of `L` and the speed it started from, whatever other limits come and go.
   */
  lemma RegisteredLimitHolds(u: Setup, cfg: Config, s: Loop, run: seq<Event>, limits: Readings, id: int, L: real, speed: real)
    requires Lawful(u.m) && Proper(s.x) && Limited(u.top, cfg) && AllOk(run) && UnhinderedRun(u, cfg, s, run)
    requires Covered(u, s.x, limits, id, L) && SPEED_EPS <= L && IsNorm(s.lim.vel.xy, speed)
    requires forall i :: 0 <= i < |run| ==> Reads(run[i], limits) && Leaves(run[i], id)
    ensures Within(After(u, cfg, s, run).lim.vel.xy, Max(speed, L))
  {
    CoveredRunIsGentle(u, cfg, s, run, limits, id, L);
    NormWithin(s.lim.vel.xy, speed, Max(speed, L));
    RunKeepsLimit(u, cfg, s, run, L, Max(speed, L));
  }

  // ---------- a callback in velocity mode ----------

  /** Some period of the run took over a path. */
  ghost predicate PathTaken(u: Setup, x: Tracking, run: seq<Event>)
    decreases |run|
  {
    run != [] && (TakesPath(x, run[0]) || PathTaken(u, Booked(u, x, run[0]), run[1..]))
  }

  predicate TakesPath(x: Tracking, e: Event) {
    e.Beat? && e.dt >= ACC_EPS && x.track.pending.Some? && x.track.pending.value.FollowPath?
  }

  /** A path stays in place, with the index on it, for good. */
  ghost predicate PathInPlace(x: Tracking) { x.track.index < |x.track.waypoints| }

  lemma PathStep(x: Tracking, e: Event)
    requires Proper(x) && (x.track.waypoints == [] || PathInPlace(x))
    ensures var t := Walked(x.track, e);
            (t.index < |t.waypoints| <==> PathInPlace(x) || TakesPath(x, e)) && (t.waypoints == [] || t.index < |t.waypoints|)
  {
  }

  lemma {:induction false} PathStaysInPlace(u: Setup, cfg: Config, s: Loop, run: seq<Event>)
    requires Proper(s.x) && Limited(u.top, cfg) && AllOk(run)
    requires s.x.track.waypoints == [] || PathInPlace(s.x)
    ensures PathInPlace(After(u, cfg, s, run).x) <==> PathInPlace(s.x) || PathTaken(u, s.x, run)
    ensures After(u, cfg, s, run).x.track.waypoints == [] || PathInPlace(After(u, cfg, s, run).x)
    decreases |run|
  {
    if run != [] {
      assert EventOk(run[0]);
      BookedParts(u, s.x, run[0]);
      PathStep(s.x, run[0]);
      PathStaysInPlace(u, cfg, Handle(u, cfg, s, run[0]), run[1..]);
    }
  }

  /** Adding a callback leaves whatever velocity is commanded as it is. */
  ghost predicate AddKeepsVelocity(u: Setup, x: Tracking, name: string, w: World) {
    forall aim: Aim :: AddLimit(u, x.(aim := aim), name, w).aim.vel == aim.vel
  }

  /** And so does removing one. */
  ghost predicate RemoveKeepsVelocity(u: Setup, x: Tracking, id: int, w: World) {
    forall aim: Aim :: RemoveLimit(u, x.(aim := aim), id, w).aim.vel == aim.vel
  }

  lemma Overwrites(u: Setup, x: Tracking, w: World)
    requires PathInPlace(x)
    ensures exists aim: Aim :: Refresh(u, x.(aim := aim), w).aim.vel != aim.vel
  {
    var v := Refresh(u, x, w).aim.vel;
    var aim := x.aim.(vel := v.(z := v.z + 1.0));
    assert Refresh(u, x.(aim := aim), w).aim.vel == v;
    assert aim.vel != v;
  }

  /**
   A change of the callbacks keeps a velocity command exactly if no path has ever been taken over; after one,
   the old waypoint's feed-forward velocity replaces the command, in velocity mode too.
   */
  lemma VelocityIsKeptExactly(u: Setup, cfg: Config, yaw: real, run: seq<Event>, name: string, id: int, w: World)
    requires Limited(u.top, cfg) && AllOk(run)
    ensures Proper(START)
    ensures var x := After(u, cfg, Loop(START, Rest(yaw)), run).x;
            && (AddKeepsVelocity(u, x, name, w) <==> !PathTaken(u, START, run))
            && (RemoveKeepsVelocity(u, x, id, w) <==> !PathTaken(u, START, run) || !Registered(x.cbs, id))
  {
    var x := After(u, cfg, Loop(START, Rest(yaw)), run).x;
    PathStaysInPlace(u, cfg, Loop(START, Rest(yaw)), run);
    if PathInPlace(x) {
      var y := x.(cbs := x.cbs + [LimitCb(x.next, name)], next := x.next + 1);
      Overwrites(u, y, w);
      var aim :| Refresh(u, y.(aim := aim), w).aim.vel != aim.vel;
      assert AddLimit(u, x.(aim := aim), name, w) == Refresh(u, y.(aim := aim), w);
      if Registered(x.cbs, id) {
        var z := x.(cbs := Without(x.cbs, id));
        Overwrites(u, z, w);
        var aim' :| Refresh(u, z.(aim := aim'), w).aim.vel != aim'.vel;
        assert RemoveLimit(u, x.(aim := aim'), id, w) == Refresh(u, z.(aim := aim'), w);
      }
    }
  }

  /** After a path that has been flown to its end, the command becomes a standstill. */
  lemma FinishedPathStopsVelocity(u: Setup, x: Tracking, name: string, w: World)
    requires x.track.index + 1 == |x.track.waypoints| && x.track.waypoints[x.track.index].ffVel.None?
    ensures var v := AddLimit(u, x, name, w).aim.vel; v.xy == ZERO && v.z == 0.0
  {
  }

  // ---------- what is aimed at ----------

  /** A path point in the world frame that is being followed is the target. */
  ghost predicate OnTarget(x: Tracking) {
    x.track.mode == POSITION && x.track.index < |x.track.waypoints| && x.track.waypoints[x.track.index].frame == ENU ==>
      x.aim.pose.pos == x.track.waypoints[x.track.index].pos
  }

  lemma RefreshOnTarget(u: Setup, x: Tracking, w: World)
    ensures OnTarget(Refresh(u, x, w))
  {
  }

  lemma PeriodOnTarget(u: Setup, x: Tracking, w: World, arrived: bool, timedOut: bool, heading: Option<real>)
    requires OnTarget(x)
    ensures OnTarget(TakeOver(u, x, w)) && OnTarget(Period(u, x, w, arrived, timedOut, heading))
  {
    RefreshOnTarget(u, x.(track := Activate(x.track)), w);
    var a := TakeOver(u, x, w);
    assert OnTarget(a);
    var b := TurnAlong(a, heading);
    assert OnTarget(b);
    RefreshOnTarget(u, b.(track := Walk(b.track, arrived, timedOut)), w);
  }

  lemma EventOnTarget(u: Setup, x: Tracking, e: Event)
    requires OnTarget(x)
    ensures OnTarget(Booked(u, x, e))
  {
    match e
    case Send(path) =>
    case Hold(v) =>
    case Add(name, w) => RefreshOnTarget(u, x.(cbs := x.cbs + [LimitCb(x.next, name)], next := x.next + 1), w);
    case Remove(id, w) => RefreshOnTarget(u, x.(cbs := Without(x.cbs, id)), w);
    case Beat(dt, w, arrived, timedOut, heading, raw) => PeriodOnTarget(u, x, w, arrived, timedOut, heading);
  }

  /** After any sequence of events the tracker aims at the path point it is at. */
  lemma {:induction false} RunStaysOnTarget(u: Setup, cfg: Config, s: Loop, run: seq<Event>)
    requires Proper(s.x) && Limited(u.top, cfg) && AllOk(run) && OnTarget(s.x)
    ensures OnTarget(After(u, cfg, s, run).x)
    decreases |run|
  {
    if run != [] {
      assert EventOk(run[0]);
      EventOnTarget(u, s.x, run[0]);
      RunStaysOnTarget(u, cfg, Handle(u, cfg, s, run[0]), run[1..]);
    }
  }

  /** The bookkeeping after a run. */
  ghost function BookedAll(u: Setup, x: Tracking, run: seq<Event>): Tracking
    decreases |run|
  {
    if run == [] then x else BookedAll(u, Booked(u, x, run[0]), run[1..])
  }

  /** It is the bookkeeping of the loop. */
  lemma {:induction false} AfterBooks(u: Setup, cfg: Config, s: Loop, run: seq<Event>)
    requires Proper(s.x) && Limited(u.top, cfg) && AllOk(run)
    ensures After(u, cfg, s, run).x == BookedAll(u, s.x, run)
    decreases |run|
  {
    if run != [] {
      assert EventOk(run[0]);
      AfterBooks(u, cfg, Handle(u, cfg, s, run[0]), run[1..]);
    }
  }

  /** The targets that an event sets: one for a path that is taken over, and one for a point that is moved on to. */
  ghost function Sets(u: Setup, x: Tracking, e: Event): seq<Vec3> {
    if !e.Beat? || e.dt < ACC_EPS then []
    else
      var a, y := TakeOver(u, x, e.w), Booked(u, x, e);
      (if Takes(x) then [a.aim.pose.pos] else []) +
      (if y.track.mode == POSITION && y.track.index != a.track.index then [y.aim.pose.pos] else [])
  }

  /** The bookkeeping, and every target that has been set. */
  datatype Log = Log(x: Tracking, targets: seq<Vec3>)

  ghost function LogAll(u: Setup, l: Log, run: seq<Event>): Log
    decreases |run|
  {
    if run == [] then l else LogAll(u, Log(Booked(u, l.x, run[0]), l.targets + Sets(u, l.x, run[0])), run[1..])
  }

  lemma {:induction false} LogBooks(u: Setup, l: Log, run: seq<Event>)
    ensures LogAll(u, l, run).x == BookedAll(u, l.x, run)
    decreases |run|
  {
    if run != [] {
      LogBooks(u, Log(Booked(u, l.x, run[0]), l.targets + Sets(u, l.x, run[0])), run[1..]);
    }
  }

  function Positions(path: seq<Waypoint>): seq<Vec3> {
    if path == [] then [] else [path[0].pos] + Positions(path[1..])
  }

  ghost predicate InWorld(path: seq<Waypoint>) {
    forall w :: w in path ==> w.frame == ENU
  }

  /** The path is followed, or has been flown to its end. */
  ghost predicate OnItsWay(x: Tracking, path: seq<Waypoint>) {
    && x.track.waypoints == path && x.track.index < |path| && x.track.pending == None && OnTarget(x)
    && (x.track.mode == POSITION || (x.track.mode == IDLE && x.track.index + 1 == |path|))
  }

  ghost predicate NoCommand(run: seq<Event>) {
    forall i :: 0 <= i < |run| ==> !run[i].Send? && !run[i].Hold?
  }

  /** Without a new command an event leaves the target, or moves it to the next point. */
  lemma EventOnItsWay(u: Setup, x: Tracking, e: Event, path: seq<Waypoint>)
    requires OnItsWay(x, path) && InWorld(path) && !e.Send? && !e.Hold?
    ensures var y := Booked(u, x, e);
            && OnItsWay(y, path) && x.track.index <= y.track.index <= x.track.index + 1
            && Sets(u, x, e) == if y.track.index == x.track.index then [] else [path[y.track.index].pos]
  {
    EventOnTarget(u, x, e);
    BookedParts(u, x, e);
    var y := Booked(u, x, e);
    assert path[y.track.index] in path;
  }

  /** The first period after a path was staged: the take-over, and perhaps the first arrival. */
  lemma FirstTargets(u: Setup, x: Tracking, e: Event, path: seq<Waypoint>)
    requires Proper(x) && x.track.pending == Some(FollowPath(path)) && InWorld(path) && e.Beat? && e.dt >= ACC_EPS && OnTarget(x)
    ensures var y := Booked(u, x, e);
            && OnItsWay(y, path) && y.track.index <= 1
            && Sets(u, x, e) == Positions(path[..y.track.index + 1])
  {
    EventOnTarget(u, x, e);
    BookedParts(u, x, e);
    RefreshOnTarget(u, x.(track := Activate(x.track)), e.w);
    var y := Booked(u, x, e);
    assert path[0] in path && path[y.track.index] in path;
    assert path[..1] == [path[0]] && Positions([path[0]]) == [path[0].pos];
    if y.track.index == 1 {
      assert path[..2] == [path[0], path[1]];
      assert [path[0], path[1]][1..] == [path[1]] && Positions([path[1]]) == [path[1].pos];
    }
  }

  lemma {:induction false} PositionsAppend(a: seq<Waypoint>, b: seq<Waypoint>)
    ensures Positions(a + b) == Positions(a) + Positions(b)
  {
    if a == [] {
      assert a + b == b;
    } else {
      assert (a + b)[1..] == a[1..] + b;
      PositionsAppend(a[1..], b);
    }
  }

  lemma OnePositionMore(path: seq<Waypoint>, k: nat)
    requires k < |path|
    ensures Positions(path[..k + 1]) == Positions(path[..k]) + [path[k].pos]
  {
    assert path[..k + 1] == path[..k] + [path[k]];
    PositionsAppend(path[..k], [path[k]]);
    assert [path[k]][1..] == [] && Positions([path[k]]) == [path[k].pos];
  }

  /** Before the take-over nothing has been aimed at; after it the targets are the path up to the present point. */
  ghost predicate InOrder(l: Log, path: seq<Waypoint>) {
    if l.x.track.pending.Some? then l.targets == [] && l.x.track.pending == Some(FollowPath(path)) && OnTarget(l.x) && Proper(l.x)
    else OnItsWay(l.x, path) && l.targets == Positions(path[..l.x.track.index + 1])
  }

  lemma StaysInOrder(u: Setup, l: Log, e: Event, path: seq<Waypoint>)
    requires InOrder(l, path) && InWorld(path) && EventOk(e) && !e.Send? && !e.Hold?
    ensures InOrder(Log(Booked(u, l.x, e), l.targets + Sets(u, l.x, e)), path)
  {
    if l.x.track.pending == None {
      EventOnItsWay(u, l.x, e, path);
      OnePositionMore(path, Booked(u, l.x, e).track.index);
    } else if e.Beat? && e.dt >= ACC_EPS {
      FirstTargets(u, l.x, e, path);
    } else {
      EventOnTarget(u, l.x, e);
      BookedParts(u, l.x, e);
      BookedIsProper(u, l.x, e);
    }
  }

  /**
   From the staging of a path in the world frame, through any periods and any coming and going of callbacks: the
   targets are exactly the points of the path in order, up to the present one; and all of them at its end.
   */
  lemma {:induction false} PathIsAimedAtInOrder(u: Setup, l: Log, run: seq<Event>, path: seq<Waypoint>)
    requires InOrder(l, path) && InWorld(path) && AllOk(run) && NoCommand(run)
    ensures InOrder(LogAll(u, l, run), path)
    decreases |run|
  {
    if run != [] {
      assert EventOk(run[0]) && !run[0].Send? && !run[0].Hold?;
      StaysInOrder(u, l, run[0], path);
      PathIsAimedAtInOrder(u, Log(Booked(u, l.x, run[0]), l.targets + Sets(u, l.x, run[0])), run[1..], path);
    }
  }

  /** A path that has been flown to its end has had exactly its points as targets, in order. */
  lemma FlownPathWasAimedAt(u: Setup, x: Tracking, run: seq<Event>, path: seq<Waypoint>)
    requires Proper(x) && OnTarget(x) && x.track.pending == Some(FollowPath(path)) && InWorld(path)
    requires AllOk(run) && NoCommand(run)
    ensures var l := LogAll(u, Log(x, []), run);
            && l.x == BookedAll(u, x, run)
            && (l.x.track.pending == None && l.x.track.mode == IDLE ==> l.targets == Positions(path))
            && (l.x.track.pending == None && l.x.track.mode != IDLE ==>
                 l.x.track.index < |path| && l.targets == Positions(path[..l.x.track.index + 1]))
  {
    LogBooks(u, Log(x, []), run);
    PathIsAimedAtInOrder(u, Log(x, []), run, path);
    assert path[..|path|] == path;
  }
}
