/**
 The path follower around the limiter: staged commands, the walk along the waypoints, and the
 speed limits that callbacks contribute.

 What the feedback controllers produce (`raw`) and whether the vehicle has reached the present
 waypoint (`arrived`) are inputs of a step, so every result covers every controller and plant.
 */
module Tracker {
  import opened Basics
  import opened Planar
  import opened Limiter
  import Angles
  import LimiterMeaning

  datatype Frame = ENU | BODY

  datatype Waypoint = Waypoint(
    pos: Vec3, yaw: Option<real>, yawRate: Option<real>, ffVel: Option<Vec3>,
    speedXY: Option<real>, speedZ: Option<real>, speedYaw: Option<real>,
    frame: Frame, gamma: Vec3, over: Overrides)

  datatype Velocity = Velocity(vel: Vec3, yaw: Option<real>, yawRate: Option<real>, frame: Frame)

  datatype Command = FollowPath(path: seq<Waypoint>) | HoldVelocity(v: Velocity)

  datatype Mode = IDLE | POSITION | VELOCITY

  /** The part of the tracker that decides where it is going. */
  datatype Track = Track(mode: Mode, waypoints: seq<Waypoint>, index: nat, finished: bool, pending: Option<Command>) {
    predicate OnPath() { mode == POSITION ==> index < |waypoints| }
  }

  /** Take over a staged command, if there is one. */
  function Activate(t: Track): Track {
    match t.pending
    case None => t
    case Some(FollowPath(path)) => Track(POSITION, path, 0, false, None)
    case Some(HoldVelocity(_)) => t.(mode := VELOCITY, finished := true, pending := None)
  }

  /** Move on along the path, or stop. */
  function Walk(t: Track, arrived: bool, timedOut: bool): Track {
    match t.mode
    case IDLE => t
    case POSITION =>
      if !arrived then t
      else if t.index + 1 < |t.waypoints| then t.(index := t.index + 1)
      else t.(mode := IDLE, finished := true)
    case VELOCITY => if timedOut then t.(mode := IDLE) else t
  }

  // ---------- speed limits ----------

  datatype LimitCb = LimitCb(id: int, name: string)

  /** What the registered callbacks answer at one moment, by id; `None` is no limit. */
  type Readings = int -> Option<real>

  /** `r` is the least of `base` and the limits that the callbacks report. */
  ghost predicate Least(r: real, base: real, cbs: seq<LimitCb>, now: Readings) {
    && r <= base
    && (forall c :: c in cbs && now(c.id).Some? ==> r <= now(c.id).value)
    && (r == base || exists c :: c in cbs && now(c.id) == Some(r))
  }

  lemma LeastIsUnique(r: real, r': real, base: real, cbs: seq<LimitCb>, now: Readings)
    requires Least(r, base, cbs, now) && Least(r', base, cbs, now)
    ensures r == r'
  {
  }

  /** The smallest of `base` and the answers, one callback after the other. */
  function LimitInForce(base: real, cbs: seq<LimitCb>, now: Readings): real {
    if cbs == [] then base
    else
      var least, lim := LimitInForce(base, cbs[..|cbs| - 1], now), now(cbs[|cbs| - 1].id);
      if lim.Some? && lim.value < least then lim.value else least
  }

  lemma {:induction false} LimitIsLeast(base: real, cbs: seq<LimitCb>, now: Readings)
    ensures Least(LimitInForce(base, cbs, now), base, cbs, now)
  {
    if cbs != [] {
      var init, last := cbs[..|cbs| - 1], cbs[|cbs| - 1];
      LimitIsLeast(base, init, now);
      assert cbs == init + [last];
      assert forall c :: c in cbs <==> c in init || c == last;
    }
  }

  /** Identifiers are handed out in increasing order and never twice. */
  ghost predicate Issued(cbs: seq<LimitCb>, next: int) {
    && (forall i :: 0 <= i < |cbs| ==> 0 <= cbs[i].id < next)
    && (forall i, j :: 0 <= i < j < |cbs| ==> cbs[i].id < cbs[j].id)
  }

  /** The callbacks left when `id` is gone. */
  function Without(cbs: seq<LimitCb>, id: int): seq<LimitCb> {
    if cbs == [] then []
    else if cbs[0].id == id then Without(cbs[1..], id)
    else [cbs[0]] + Without(cbs[1..], id)
  }

  lemma {:induction false} WithoutMembers(cbs: seq<LimitCb>, id: int)
    ensures forall c :: c in Without(cbs, id) <==> c in cbs && c.id != id
  {
    if cbs != [] {
      WithoutMembers(cbs[1..], id);
      assert forall c :: c in cbs <==> c == cbs[0] || c in cbs[1..];
    }
  }

  lemma {:induction false} WithoutStranger(cbs: seq<LimitCb>, id: int)
    requires forall i :: 0 <= i < |cbs| ==> cbs[i].id != id
    ensures Without(cbs, id) == cbs
  {
    if cbs != [] {
      WithoutStranger(cbs[1..], id);
    }
  }

  lemma {:induction false} RemoveAt(cbs: seq<LimitCb>, k: nat)
    requires k < |cbs| && forall j :: 0 <= j < |cbs| && j != k ==> cbs[j].id != cbs[k].id
    ensures cbs[..k] + cbs[k + 1..] == Without(cbs, cbs[k].id)
  {
    if k == 0 {
      WithoutStranger(cbs[1..], cbs[0].id);
    } else {
      assert cbs[1..][k - 1] == cbs[k];
      RemoveAt(cbs[1..], k - 1);
      assert cbs[..k] == [cbs[0]] + cbs[1..][..k - 1];
      assert cbs[k + 1..] == cbs[1..][k..];
    }
  }

  lemma IssuedWithout(cbs: seq<LimitCb>, k: nat, next: int)
    requires Issued(cbs, next) && k < |cbs|
    ensures Issued(cbs[..k] + cbs[k + 1..], next)
  {
    var r := cbs[..k] + cbs[k + 1..];
    assert forall i :: 0 <= i < |r| ==> r[i] == cbs[if i < k then i else i + 1];
  }

  // ---------- what a waypoint makes the tracker aim for ----------

  datatype Pose = Pose(pos: Vec3, yaw: real)

  /** Target pose and velocity, and how they are to be read. */
  datatype Aim = Aim(pose: Pose, vel: Cmd, frame: Frame, ctrlYaw: bool, autoHeading: bool, gamma: Vec3)

  /** What is measured at one moment. */
  datatype World = World(limits: Readings, pos: Vec3, yaw: real)

  const NEAR := 0.001
  const ORIGIN := Vec3(0.0, 0.0, 0.0)

  function Flat(a: Vec3, b: Vec3): Vec2 { Vec2(b.x - a.x, b.y - a.y) }

  /** An offset in the body frame, seen from the robot's present pose. */
  function BodyToEnu(m: MathLib, offset: Vec3, turn: real, w: World): Pose {
    var v := IntoWorld(m, Vec2(offset.x, offset.y), w.yaw);
    Pose(Vec3(w.pos.x + v.x, w.pos.y + v.y, w.pos.z + offset.z), Angles.Normal(w.yaw + turn))
  }

  function TargetPose(m: MathLib, wp: Waypoint, w: World, was: Pose): Pose {
    if wp.frame == BODY then BodyToEnu(m, wp.pos, wp.yaw.GetOr(0.0), w)
    else Pose(wp.pos, wp.yaw.GetOr(was.yaw))
  }

  /** The direction in which the waypoint is passed: that of the leg to it, or of the next one if that leg is too short. */
  function LegDirection(m: MathLib, t: Track, w: World): Vec2
    requires t.index + 1 < |t.waypoints|
  {
    var wp := t.waypoints[t.index];
    var from := if t.index > 0 then t.waypoints[t.index - 1].pos else if wp.frame == BODY then ORIGIN else w.pos;
    var d := Flat(from, wp.pos);
    if m.Norm(d) < NEAR then Flat(wp.pos, t.waypoints[t.index + 1].pos) else d
  }

  /** The velocity to pass the waypoint with: its own, or the limit in force along the leg, and zero at the end of the path. */
  function FeedForward(m: MathLib, t: Track, limit: real, w: World): Vec3
    requires t.index < |t.waypoints|
  {
    if t.waypoints[t.index].ffVel.Some? then t.waypoints[t.index].ffVel.value
    else if t.index + 1 == |t.waypoints| then ORIGIN
    else
      var d := LegDirection(m, t, w);
      var n := m.Norm(d);
      if n > NEAR then Vec3(d.x / n * limit, d.y / n * limit, 0.0) else ORIGIN
  }

  function WaypointAim(m: MathLib, omni: bool, t: Track, limit: real, w: World, was: Aim): Aim
    requires t.index < |t.waypoints|
  {
    var wp, v := t.waypoints[t.index], FeedForward(m, t, limit, w);
    Aim(TargetPose(m, wp, w, was.pose), Cmd(Vec2(v.x, v.y), v.z, wp.yawRate.GetOr(0.0)),
        wp.frame, wp.yaw.Some?, (wp.yaw.None? && wp.yawRate.None?) || !omni, wp.gamma)
  }

  function VelocityAim(v: Velocity, w: World, was: Aim): Aim {
    var yaw := if v.yaw.None? then was.pose.yaw
               else if v.frame == BODY then Angles.Normal(w.yaw + v.yaw.value) else v.yaw.value;
    Aim(was.pose.(yaw := yaw), Cmd(Vec2(v.vel.x, v.vel.y), v.vel.z, v.yawRate.GetOr(0.0)),
        v.frame, v.yaw.Some?, false, was.gamma)
  }

  /** A path point without a velocity of its own is passed at the limit in force or not at all. */
  lemma FeedForwardIsAtLimit(m: MathLib, t: Track, limit: real, w: World)
    requires Lawful(m) && limit >= 0.0 && t.index < |t.waypoints| && t.waypoints[t.index].ffVel.None?
    ensures var v := FeedForward(m, t, limit, w);
            v.z == 0.0 && (v == ORIGIN || IsNorm(Vec2(v.x, v.y), limit))
    ensures t.index + 1 == |t.waypoints| ==> FeedForward(m, t, limit, w) == ORIGIN
  {
    if t.index + 1 < |t.waypoints| {
      var d := LegDirection(m, t, w);
      assert HypotLaw(m, d);
      if m.Norm(d) > NEAR {
        ScaledTo(d, m.Norm(d), limit);
      }
    }
  }

  /** The leg to the waypoint from where the path comes from, in the waypoint's own frame. */
  predicate IsLeg(t: Track, w: World, d: Vec2)
    requires t.index < |t.waypoints|
  {
    var wp := t.waypoints[t.index];
    if t.index > 0 then d == Vec2(wp.pos.x - t.waypoints[t.index - 1].pos.x, wp.pos.y - t.waypoints[t.index - 1].pos.y)
    else if wp.frame == BODY then d == Vec2(wp.pos.x, wp.pos.y)
    else d == Vec2(wp.pos.x - w.pos.x, wp.pos.y - w.pos.y)
  }

  /** On the way, the velocity points along the leg, or along the next leg if this one is shorter than a millimetre. */
  lemma FeedForwardFollowsLeg(m: MathLib, t: Track, limit: real, w: World, d: Vec2)
    requires Lawful(m) && t.index + 1 < |t.waypoints| && t.waypoints[t.index].ffVel.None? && IsLeg(t, w, d)
    ensures var v, next := FeedForward(m, t, limit, w), t.waypoints[t.index + 1].pos;
            var wp := t.waypoints[t.index].pos;
            var e := if m.Norm(d) < 0.001 then Vec2(next.x - wp.x, next.y - wp.y) else d;
            Times(v.x, m.Norm(e)) == (if m.Norm(e) > 0.001 then Times(e.x, limit) else 0.0) &&
            Times(v.y, m.Norm(e)) == (if m.Norm(e) > 0.001 then Times(e.y, limit) else 0.0)
  {
    var next, wp := t.waypoints[t.index + 1].pos, t.waypoints[t.index].pos;
    var e := if m.Norm(d) < 0.001 then Vec2(next.x - wp.x, next.y - wp.y) else d;
    assert LegDirection(m, t, w) == e;
    if m.Norm(e) > 0.001 {
      Unscale(e.x, m.Norm(e), limit);
      Unscale(e.y, m.Norm(e), limit);
    }
  }

  lemma Unscale(x: real, n: real, limit: real)
    requires n > 0.0
    ensures Times(x / n * limit, n) == Times(x, limit)
  {
    var q := x / n;
    assert q * n == x;
    assert q * limit * n == q * n * limit;
  }

  lemma ScaledTo(d: Vec2, n: real, limit: real)
    requires IsNorm(d, n) && n > 0.0 && limit >= 0.0
    ensures IsNorm(Vec2(d.x / n * limit, d.y / n * limit), limit)
  {
    var k := limit / n;
    assert k * n == limit;
    DivTimes(d.x, n, limit);
    DivTimes(d.y, n, limit);
    TimesSq(d, k);
    ProductSq(k, n, limit);
  }

  // ---------- the whole of the bookkeeping, as a value ----------

  /** Everything but the limiter: the walk, the callbacks, the limits in force and the aim. */
  datatype Tracking = Tracking(track: Track, cbs: seq<LimitCb>, next: int, caps: SpeedCaps, over: Overrides, aim: Aim)

  /** What does not change: the library, the configured limits, and whether the robot can move sideways. */
  datatype Setup = Setup(m: MathLib, top: SpeedCaps, omni: bool)

  /** The limits and the aim of the present waypoint, if there is one. */
  function Refresh(u: Setup, x: Tracking, w: World): Tracking {
    if x.track.index >= |x.track.waypoints| then x
    else
      var wp := x.track.waypoints[x.track.index];
      var limit := LimitInForce(Min(wp.speedXY.GetOr(u.top.xy), u.top.xy), x.cbs, w.limits);
      x.(caps := SpeedCaps(limit, Min(wp.speedZ.GetOr(u.top.z), u.top.z), Min(wp.speedYaw.GetOr(u.top.yaw), u.top.yaw)),
         over := wp.over, aim := WaypointAim(u.m, u.omni, x.track, limit, w, x.aim))
  }

  /** The limits in force are those of the present waypoint, under everything that is registered. */
  ghost predicate Fresh(top: SpeedCaps, x: Tracking, now: Readings) {
    x.track.index < |x.track.waypoints| ==>
      var w := x.track.waypoints[x.track.index];
      && Least(x.caps.xy, Min(w.speedXY.GetOr(top.xy), top.xy), x.cbs, now)
      && x.caps.z == Min(w.speedZ.GetOr(top.z), top.z)
      && x.caps.yaw == Min(w.speedYaw.GetOr(top.yaw), top.yaw)
      && x.over == w.over
  }

  lemma RefreshIsFresh(u: Setup, x: Tracking, w: World)
    ensures Fresh(u.top, Refresh(u, x, w), w.limits)
  {
    if x.track.index < |x.track.waypoints| {
      var wp := x.track.waypoints[x.track.index];
      LimitIsLeast(Min(wp.speedXY.GetOr(u.top.xy), u.top.xy), x.cbs, w.limits);
    }
  }

  /** The target is where the waypoint says: in the world, or as seen from the robot along its heading. */
  ghost predicate AimsAt(m: MathLib, wp: Waypoint, pos: Vec3, w: World) {
    if wp.frame == ENU then pos == wp.pos
    else IntoBody(m, Vec2(pos.x - w.pos.x, pos.y - w.pos.y), w.yaw) == Vec2(wp.pos.x, wp.pos.y) && pos.z - w.pos.z == wp.pos.z
  }

  /** The target yaw is the waypoint's, if it has one; in the body frame it counts from the robot's, and no yaw means none. */
  ghost predicate FacesAs(wp: Waypoint, yaw: real, w: World) {
    if wp.frame == ENU then wp.yaw.Some? ==> yaw == wp.yaw.value
    else 0.0 <= yaw < Angles.TWO_PI && Angles.Congruent(yaw, w.yaw + wp.yaw.GetOr(0.0))
  }

  lemma BodyOffset(m: MathLib, offset: Vec3, turn: real, w: World)
    requires Lawful(m)
    ensures var p := BodyToEnu(m, offset, turn, w).pos;
            IntoBody(m, Vec2(p.x - w.pos.x, p.y - w.pos.y), w.yaw) == Vec2(offset.x, offset.y) && p.z - w.pos.z == offset.z
  {
    var v := Vec2(offset.x, offset.y);
    LimiterMeaning.ThereAndBack(m, v, w.yaw);
    var p := BodyToEnu(m, offset, turn, w).pos;
    assert Vec2(p.x - w.pos.x, p.y - w.pos.y) == IntoWorld(m, v, w.yaw);
  }

  /** Applying a waypoint aims at it. */
  lemma RefreshAims(u: Setup, x: Tracking, w: World)
    requires Lawful(u.m) && x.track.index < |x.track.waypoints|
    ensures var wp, aim := x.track.waypoints[x.track.index], Refresh(u, x, w).aim;
            && AimsAt(u.m, wp, aim.pose.pos, w) && FacesAs(wp, aim.pose.yaw, w)
            && aim.frame == wp.frame && aim.ctrlYaw == wp.yaw.Some? && aim.gamma == wp.gamma
            && (aim.autoHeading <==> (wp.yaw.None? && wp.yawRate.None?) || !u.omni)
            && aim.vel.w == wp.yawRate.GetOr(0.0)
  {
    var wp := x.track.waypoints[x.track.index];
    if wp.frame == BODY {
      BodyOffset(u.m, wp.pos, wp.yaw.GetOr(0.0), w);
      Angles.NormalRange(w.yaw + wp.yaw.GetOr(0.0));
    }
  }

  function AddLimit(u: Setup, x: Tracking, name: string, w: World): Tracking {
    Refresh(u, x.(cbs := x.cbs + [LimitCb(x.next, name)], next := x.next + 1), w)
  }

  ghost predicate Registered(cbs: seq<LimitCb>, id: int) {
    exists i :: 0 <= i < |cbs| && cbs[i].id == id
  }

  ghost function RemoveLimit(u: Setup, x: Tracking, id: int, w: World): Tracking {
    if Registered(x.cbs, id) then Refresh(u, x.(cbs := Without(x.cbs, id)), w) else x
  }

  function TakeOver(u: Setup, x: Tracking, w: World): Tracking {
    match x.track.pending
    case None => x
    case Some(FollowPath(_)) => Refresh(u, x.(track := Activate(x.track)), w)
    case Some(HoldVelocity(v)) => x.(track := Activate(x.track), aim := VelocityAim(v, w, x.aim))
  }

  /** A robot that steers by its heading turns it along the way, when far enough from the waypoint. */
  function TurnAlong(x: Tracking, heading: Option<real>): Tracking {
    if x.track.mode == POSITION && x.aim.autoHeading then
      x.(aim := x.aim.(ctrlYaw := true, pose := x.aim.pose.(yaw := heading.GetOr(x.aim.pose.yaw))))
    else x
  }

  function WalkOn(u: Setup, x: Tracking, w: World, arrived: bool, timedOut: bool): Tracking {
    var y := x.(track := Walk(x.track, arrived, timedOut));
    if x.track.mode == POSITION && arrived && y.track.mode == POSITION then Refresh(u, y, w) else y
  }

  /** One period of the loop. */
  function Period(u: Setup, x: Tracking, w: World, arrived: bool, timedOut: bool, heading: Option<real>): Tracking {
    WalkOn(u, TurnAlong(TakeOver(u, x, w), heading), w, arrived, timedOut)
  }

  class ThreadedTracker {
    const m: MathLib
    const cfg: Config
    const top: SpeedCaps
    const omni: bool

    var mode: Mode
    var waypoints: seq<Waypoint>
    var index: nat
    var finished: bool
    var pending: Option<Command>
    var fbXY: real
    var fbZ: real
    var fbYaw: real
    var over: Overrides
    var aim: Aim
    var callbacks: seq<LimitCb>
    var nextId: int
    var limiter: State

    ghost function View(): Track reads this {
      Track(mode, waypoints, index, finished, pending)
    }

    ghost function Full(): Tracking reads this {
      Tracking(View(), callbacks, nextId, SpeedCaps(fbXY, fbZ, fbYaw), over, aim)
    }

    ghost function Rig(): Setup { Setup(m, top, omni) }

    ghost predicate Valid() reads this {
      Proper(Full()) && Limited(top, cfg)
    }

    ghost predicate Refreshed(now: Readings) reads this {
      Fresh(top, Full(), now)
    }

    constructor (m: MathLib, cfg: Config, top: SpeedCaps, omni: bool, yaw: real)
      requires Limited(top, cfg)
      ensures Valid() && Full() == START
      ensures limiter == Rest(yaw) && this.m == m && this.cfg == cfg && this.top == top && this.omni == omni
    {
      this.m, this.cfg, this.top, this.omni := m, cfg, top, omni;
      mode, waypoints, index, finished, pending := IDLE, [], 0, true, None;
      fbXY, fbZ, fbYaw, over := 0.0, 0.0, 0.0, Overrides(None, None, None, None);
      aim := Aim(Pose(ORIGIN, 0.0), STOP, ENU, false, false, Vec3(1.0, 1.0, 1.0));
      callbacks, nextId := [], 0;
      limiter := State(STOP, ZERO, 0.0, yaw);
    }

    method SendPosCmd(path: seq<Waypoint>)
      requires Valid() && forall w :: w in path ==> JerksOk(w.over)
      modifies this`pending
      ensures Valid()
      ensures pending == if path == [] then old(pending) else Some(FollowPath(path))
    {
      if path == [] { return; }
      pending := Some(FollowPath(path));
    }

    method SendVelCmd(v: Velocity)
      requires Valid()
      modifies this`pending
      ensures Valid() && pending == Some(HoldVelocity(v))
    {
      pending := Some(HoldVelocity(v));
    }

    /** The speed limit of a waypoint, under the configured one and every callback. */
    method EffectiveLimit(wp: Waypoint, now: Readings) returns (eff: real)
      ensures eff == LimitInForce(Min(wp.speedXY.GetOr(top.xy), top.xy), callbacks, now)
    {
      eff := Min(wp.speedXY.GetOr(top.xy), top.xy);
      ghost var base := eff;
      for i := 0 to |callbacks|
        invariant eff == LimitInForce(base, callbacks[..i], now)
      {
        var lim := now(callbacks[i].id);
        assert callbacks[..i + 1][..i] == callbacks[..i];
        if lim.Some? && lim.value < eff {
          eff := lim.value;
        }
      }
      assert callbacks[..|callbacks|] == callbacks;
    }

    method FeedForwardVelocity(w: World) returns (v: Vec3)
      requires index < |waypoints|
      ensures v == FeedForward(m, View(), fbXY, w)
    {
      var wp := waypoints[index];
      if wp.ffVel.Some? {
        return wp.ffVel.value;
      }
      v := ORIGIN;
      if index + 1 < |waypoints| {
        var from := if index == 0 then (if wp.frame == BODY then ORIGIN else w.pos) else waypoints[index - 1].pos;
        var dir := Vec2(wp.pos.x - from.x, wp.pos.y - from.y);
        if m.Norm(dir) < 0.001 {
          dir := Vec2(waypoints[index + 1].pos.x - wp.pos.x, waypoints[index + 1].pos.y - wp.pos.y);
        }
        var n := m.Norm(dir);
        if n > 0.001 {
          v := Vec3(dir.x / n * fbXY, dir.y / n * fbXY, 0.0);
        }
      }
    }

    method ApplyLimits(wp: Waypoint, now: Readings)
      modifies this`fbXY, this`fbZ, this`fbYaw, this`over
      ensures over == wp.over && fbXY == LimitInForce(Min(wp.speedXY.GetOr(top.xy), top.xy), callbacks, now)
      ensures fbZ == Min(wp.speedZ.GetOr(top.z), top.z) && fbYaw == Min(wp.speedYaw.GetOr(top.yaw), top.yaw)
    {
      over := wp.over;
      fbXY := EffectiveLimit(wp, now);
      fbZ := Min(wp.speedZ.GetOr(top.z), top.z);
      fbYaw := Min(wp.speedYaw.GetOr(top.yaw), top.yaw);
    }

    method ApplyPose(wp: Waypoint, w: World) returns (pose: Pose)
      ensures pose == TargetPose(m, wp, w, aim.pose)
    {
      pose := aim.pose;
      if wp.frame == BODY {
        var turn := if wp.yaw.Some? then wp.yaw.value else 0.0;
        pose := BodyToEnu(m, wp.pos, turn, w);
      } else {
        pose := pose.(pos := wp.pos);
        if wp.yaw.Some? {
          pose := pose.(yaw := wp.yaw.value);
        }
      }
    }

    method ApplyCurrentWaypoint(w: World)
      modifies this`fbXY, this`fbZ, this`fbYaw, this`over, this`aim
      ensures Full() == Refresh(Rig(), old(Full()), w)
      ensures Refreshed(w.limits)
    {
      RefreshIsFresh(Rig(), Full(), w);
      if index >= |waypoints| { return; }
      var wp := waypoints[index];
      ApplyLimits(wp, w.limits);
      var pose := ApplyPose(wp, w);
      var v := FeedForwardVelocity(w);
      aim := Aim(pose, Cmd(Vec2(v.x, v.y), v.z, wp.yawRate.GetOr(0.0)), wp.frame, wp.yaw.Some?,
                 (wp.yaw.None? && wp.yawRate.None?) || !omni, wp.gamma);
    }

    method AddSpeedLimitCb(name: string, w: World) returns (id: int)
      requires Valid()
      modifies this`callbacks, this`nextId, this`fbXY, this`fbZ, this`fbYaw, this`over, this`aim
      ensures Valid()
      ensures id == old(nextId) && Full() == AddLimit(Rig(), old(Full()), name, w)
      ensures Refreshed(w.limits)
    {
      AddKeepsProper(Rig(), Full(), name, w);
      id := nextId;
      nextId := nextId + 1;
      callbacks := callbacks + [LimitCb(id, name)];
      ApplyCurrentWaypoint(w);
    }

    method Erase(k: nat)
      requires Issued(callbacks, nextId) && k < |callbacks|
      modifies this`callbacks
      ensures Issued(callbacks, nextId) && callbacks == Without(old(callbacks), old(callbacks)[k].id)
    {
      IssuedWithout(callbacks, k, nextId);
      RemoveAt(callbacks, k);
      callbacks := callbacks[..k] + callbacks[k + 1..];
    }

    method RemoveSpeedLimitCb(id: int, w: World)
      requires Valid()
      modifies this`callbacks, this`fbXY, this`fbZ, this`fbYaw, this`over, this`aim
      ensures Valid()
      ensures Full() == RemoveLimit(Rig(), old(Full()), id, w) && callbacks == Without(old(callbacks), id)
      ensures Registered(old(callbacks), id) ==> Refreshed(w.limits)
      ensures !Registered(old(callbacks), id) ==> unchanged(this)
    {
      RemoveKeepsProper(Rig(), Full(), id, w);
      var k := 0;
      while k < |callbacks| && callbacks[k].id != id
        invariant 0 <= k <= |callbacks| && unchanged(this)
        invariant forall j :: 0 <= j < k ==> callbacks[j].id != id
      {
        k := k + 1;
      }
      if k < |callbacks| {
        Erase(k);
        ApplyCurrentWaypoint(w);
      } else {
        WithoutStranger(callbacks, id);
      }
    }

    /** What `send_zero_velocity` leaves behind. */
    method SendZeroVelocity(yaw: real) returns (out: Cmd)
      modifies this`limiter
      ensures out == STOP && limiter == Apply(m, cfg, old(limiter), Halt(yaw))
    {
      out := STOP;
      limiter := State(STOP, ZERO, 0.0, yaw);
    }

    /** Cap the length of `v`, unless it is too short to have a direction. */
    method CapLength(v: Vec2, limit: real, eps: real) returns (r: Vec2)
      requires eps > 0.0
      ensures r == Saturate(v, limit, eps, m.Norm(v))
    {
      var n := m.hypot(v.x, v.y);
      r := v;
      if n > limit && n > eps {
        r := Vec2(v.x / n * limit, v.y / n * limit);
      }
    }

    /** Planar acceleration for this tick: the way to the target, under the acceleration and jerk limits. */
    method PlanarAcceleration(ghost t: Tick, target: Vec2, v: Vec2, a: Vec2, dt: real) returns (acc: Vec2)
      requires Sane(cfg, t) && t.over == over && t.dt == dt && target == TargetXY(m, t)
      ensures acc == NextAcc(m, cfg, t, v, a)
    {
      var want := Vec2((target.x - v.x) / dt, (target.y - v.y) / dt);
      var limit := over.accXY.GetOr(cfg.maxAccXY);
      if m.hypot(v.x, v.y) > 0.01 && v.x * want.x + v.y * want.y < 0.0 {
        limit := over.decelXY.GetOr(cfg.maxDecelXY);
      }
      want := CapLength(want, limit, 0.000001);
      var d := CapLength(want.Minus(a), Reach(over.jerkXY.GetOr(NO_JERK_LIMIT), dt), 0.000001);
      acc := a.Plus(d);
    }

    method VerticalAcceleration(ghost t: Tick, target: real, dt: real) returns (acc: real)
      requires Sane(cfg, t) && t.over == over && t.dt == dt && target == Clamp(t.raw.z, -t.caps.z, t.caps.z)
      ensures acc == NextAccZ(cfg, t, limiter)
    {
      acc := Clamp((target - limiter.vel.z) / dt, -cfg.maxAccZ, cfg.maxAccZ);
      var most := Reach(over.jerkZ.GetOr(NO_JERK_LIMIT), dt);
      acc := Clamp(acc, limiter.accZ - most, limiter.accZ + most);
    }

    method YawRate(ghost t: Tick, target: real, dt: real) returns (w: real)
      requires Sane(cfg, t) && t.dt == dt && target == Clamp(t.raw.w, -t.caps.yaw, t.caps.yaw)
      ensures w == NextYawRate(cfg, t, limiter)
    {
      var most := Reach(cfg.maxAccYaw, dt);
      w := Clamp(target, limiter.vel.w - most, limiter.vel.w + most);
    }

    /** The remembered planar vectors turn with the body. */
    method TurnWithBody(yaw: real) returns (v: Vec2, a: Vec2)
      ensures v == IntoBody(m, limiter.vel.xy, yaw - limiter.yaw)
      ensures a == IntoBody(m, limiter.acc, yaw - limiter.yaw)
    {
      var turn := yaw - limiter.yaw;
      var cy, sy := m.cos(turn), m.sin(turn);
      v := Vec2(limiter.vel.xy.x * cy + limiter.vel.xy.y * sy, -limiter.vel.xy.x * sy + limiter.vel.xy.y * cy);
      a := Vec2(limiter.acc.x * cy + limiter.acc.y * sy, -limiter.acc.x * sy + limiter.acc.y * cy);
    }

    method ApplyKinematicConstraints(raw: Cmd, caps: SpeedCaps, yaw: real, dt: real) returns (out: Cmd)
      requires Sane(cfg, Tick(raw, caps, over, yaw, dt))
      modifies this`limiter
      ensures limiter == Next(m, cfg, old(limiter), Tick(raw, caps, over, yaw, dt))
      ensures out == limiter.vel
    {
      ghost var t := Tick(raw, caps, over, yaw, dt);
      var xy := CapLength(raw.xy, caps.xy, 0.0001);
      var z, w := Clamp(raw.z, -caps.z, caps.z), Clamp(raw.w, -caps.yaw, caps.yaw);
      var v, a := TurnWithBody(yaw);
      var acc := PlanarAcceleration(t, xy, v, a, dt);
      var accZ := VerticalAcceleration(t, z, dt);
      w := YawRate(t, w, dt);
      limiter := Integrate(v, acc, limiter.vel.z, accZ, w, yaw, dt);
      out := limiter.vel;
    }

    method ApplyPendingCommand(w: World)
      modifies this`mode, this`waypoints, this`index, this`finished, this`pending, this`fbXY, this`fbZ, this`fbYaw, this`over, this`aim
      ensures Full() == TakeOver(Rig(), old(Full()), w)
    {
      if pending == None { return; }
      if pending.value.FollowPath? {
        mode, finished, waypoints, index := POSITION, false, pending.value.path, 0;
        pending := None;
        ApplyCurrentWaypoint(w);
      } else {
        mode, finished := VELOCITY, true;
        ApplyVelocity(pending.value.v, w);
        pending := None;
      }
    }

    method ApplyVelocity(v: Velocity, w: World)
      modifies this`aim
      ensures aim == VelocityAim(v, w, old(aim))
      ensures aim.vel == Cmd(Vec2(v.vel.x, v.vel.y), v.vel.z, v.yawRate.GetOr(0.0)) && aim.frame == v.frame
      ensures !aim.autoHeading && aim.ctrlYaw == v.yaw.Some? && aim.pose.pos == old(aim).pose.pos
      ensures v.yaw.None? ==> aim.pose.yaw == old(aim).pose.yaw
      ensures v.yaw.Some? && v.frame == ENU ==> aim.pose.yaw == v.yaw.value
      ensures v.yaw.Some? && v.frame == BODY ==> aim.pose.yaw == Angles.Normal(w.yaw + v.yaw.value)
    {
      aim := aim.(autoHeading := false, ctrlYaw := v.yaw.Some?, frame := v.frame,
                  vel := Cmd(Vec2(v.vel.x, v.vel.y), v.vel.z, v.yawRate.GetOr(0.0)));
      if aim.ctrlYaw {
        var yaw := if v.frame == BODY then Angles.Normal(w.yaw + v.yaw.value) else v.yaw.value;
        aim := aim.(pose := aim.pose.(yaw := yaw));
      }
    }

    /** The index moves on, or the path is done. */
    method AdvanceWaypoint(w: World)
      requires mode == POSITION
      modifies this`mode, this`index, this`finished, this`fbXY, this`fbZ, this`fbYaw, this`over, this`aim
      ensures Full() == WalkOn(Rig(), old(Full()), w, true, false)
    {
      if index + 1 < |waypoints| {
        index := index + 1;
        ApplyCurrentWaypoint(w);
      } else {
        finished, mode := true, IDLE;
      }
    }

    method FollowHeading(heading: Option<real>)
      modifies this`aim
      ensures Full() == TurnAlong(old(Full()), heading)
      ensures mode == POSITION && old(aim).autoHeading ==>
        aim == old(aim).(ctrlYaw := true, pose := old(aim).pose.(yaw := if heading.Some? then heading.value else old(aim).pose.yaw))
      ensures !(mode == POSITION && old(aim).autoHeading) ==> aim == old(aim)
    {
      if mode == POSITION && aim.autoHeading {
        if heading.Some? {
          aim := aim.(pose := aim.pose.(yaw := heading.value));
        }
        aim := aim.(ctrlYaw := true);
      }
    }

    /** The part of a period that decides where to go; the mode after the take-over is returned. */
    method Decide(w: World, arrived: bool, timedOut: bool, heading: Option<real>) returns (was: Mode)
      modifies this`mode, this`waypoints, this`index, this`finished, this`pending, this`fbXY, this`fbZ, this`fbYaw, this`over, this`aim
      ensures was == Activate(old(View())).mode
      ensures Full() == Period(Rig(), old(Full()), w, arrived, timedOut, heading)
    {
      ApplyPendingCommand(w);
      was := mode;
      FollowHeading(heading);
      if mode == POSITION && arrived {
        AdvanceWaypoint(w);
      } else if mode == VELOCITY && timedOut {
        mode := IDLE;
      }
    }

    /** The command of this period: in position mode the speed is first clamped to the limit in force. */
    method Drive(raw: Cmd, yaw: real, dt: real) returns (out: Cmd)
      requires Valid() && dt > 0.0 && mode != IDLE
      modifies this`limiter
      ensures limiter == Next(m, cfg, old(limiter), StepTick(m, mode, raw, fbXY, top, over, yaw, dt))
      ensures out == limiter.vel
    {
      var xy := raw.xy;
      if mode == POSITION {
        xy := CapLength(raw.xy, fbXY, 0.0001);
      }
      out := ApplyKinematicConstraints(raw.(xy := xy), top, yaw, dt);
    }

    /** One period of the control loop. */
    method OnStep(dt: real, w: World, arrived: bool, timedOut: bool, heading: Option<real>, raw: Cmd) returns (out: Option<Cmd>)
      requires Valid()
      modifies this
      ensures dt < ACC_EPS ==> unchanged(this) && out == None
      ensures dt >= ACC_EPS ==> Full() == Period(Rig(), old(Full()), w, arrived, timedOut, heading)
      ensures dt >= ACC_EPS ==> View() == Walk(Activate(old(View())), arrived, timedOut)
      ensures dt >= ACC_EPS && Activate(old(View())).mode == IDLE ==> out == None && limiter == old(limiter)
      ensures dt >= ACC_EPS && Activate(old(View())).mode != IDLE && mode == IDLE ==>
        out == Some(STOP) && limiter == Apply(m, cfg, old(limiter), Halt(w.yaw))
      ensures Valid()
      ensures dt >= ACC_EPS && mode != IDLE ==>
        out == Some(limiter.vel) &&
        limiter == Next(m, cfg, old(limiter), StepTick(m, mode, raw, fbXY, top, over, w.yaw, dt))
      ensures dt >= ACC_EPS && mode == POSITION && (index != old(index) || View().waypoints != old(waypoints)) ==> Refreshed(w.limits)
      ensures Lawful(m) && dt >= ACC_EPS && mode == POSITION && (Takes(old(Full())) || arrived) ==>
        && index < |waypoints| && AimsAt(m, waypoints[index], aim.pose.pos, w)
        && (arrived || !aim.autoHeading || heading.None? ==> FacesAs(waypoints[index], aim.pose.yaw, w))
    {
      out := None;
      if dt < 0.000001 { return; }
      PeriodKeepsProper(Rig(), Full(), w, arrived, timedOut, heading);
      NewWaypointIsFresh(Rig(), Full(), w, arrived, timedOut, heading);
      PeriodWalks(Rig(), Full(), w, arrived, timedOut, heading);
      if Lawful(m) { NewWaypointIsAimedAt(Rig(), Full(), w, arrived, timedOut, heading); }
      var was := Decide(w, arrived, timedOut, heading);
      assert Valid();
      if was == IDLE { return; }
      if mode == IDLE {
        var stop := SendZeroVelocity(w.yaw);
        out := Some(stop);
      } else {
        var safe := Drive(raw, w.yaw, dt);
        out := Some(safe);
      }
    }
  }

  ghost predicate JerksOk(o: Overrides) {
    o.jerkXY.GetOr(NO_JERK_LIMIT) >= 0.0 && o.jerkZ.GetOr(NO_JERK_LIMIT) >= 0.0
  }

  /** Limits that make sense to the limiter. */
  ghost predicate Limited(top: SpeedCaps, cfg: Config) {
    top.xy >= 0.0 && top.z >= 0.0 && top.yaw >= 0.0 && cfg.maxAccZ >= 0.0 && cfg.maxAccYaw >= 0.0
  }

  ghost predicate AllJerksOk(path: seq<Waypoint>) {
    forall w :: w in path ==> JerksOk(w.over)
  }

  ghost predicate Proper(x: Tracking) {
    && Issued(x.cbs, x.next) && x.next >= 0
    && x.track.OnPath()
    && JerksOk(x.over) && AllJerksOk(x.track.waypoints)
    && (x.track.pending.Some? && x.track.pending.value.FollowPath? ==>
          x.track.pending.value.path != [] && AllJerksOk(x.track.pending.value.path))
  }

  const START: Tracking :=
    Tracking(Track(IDLE, [], 0, true, None), [], 0, SpeedCaps(0.0, 0.0, 0.0), Overrides(None, None, None, None),
             Aim(Pose(ORIGIN, 0.0), STOP, ENU, false, false, Vec3(1.0, 1.0, 1.0)))

  lemma AddKeepsProper(u: Setup, x: Tracking, name: string, w: World)
    requires Proper(x)
    ensures Proper(AddLimit(u, x, name, w))
  {
  }

  lemma RemoveKeepsProper(u: Setup, x: Tracking, id: int, w: World)
    requires Proper(x)
    ensures Proper(RemoveLimit(u, x, id, w))
  {
    if Registered(x.cbs, id) {
      var k :| 0 <= k < |x.cbs| && x.cbs[k].id == id;
      IssuedWithout(x.cbs, k, x.next);
      RemoveAt(x.cbs, k);
    }
  }

  lemma TakeOverKeepsProper(u: Setup, x: Tracking, w: World)
    requires Proper(x)
    ensures Proper(TakeOver(u, x, w))
  {
  }

  lemma WalkKeepsProper(u: Setup, x: Tracking, w: World, arrived: bool, timedOut: bool)
    requires Proper(x)
    ensures Proper(WalkOn(u, x, w, arrived, timedOut))
  {
  }

  /** What a step hands to the limiter: in position mode the raw command is first put under the limit in force. */
  function StepTick(m: MathLib, mode: Mode, raw: Cmd, limit: real, top: SpeedCaps, over: Overrides, yaw: real, dt: real): Tick {
    var xy := if mode == POSITION then Saturate(raw.xy, limit, SPEED_EPS, m.Norm(raw.xy)) else raw.xy;
    Tick(raw.(xy := xy), top, over, yaw, dt)
  }

  lemma PeriodWalks(u: Setup, x: Tracking, w: World, arrived: bool, timedOut: bool, heading: Option<real>)
    ensures Period(u, x, w, arrived, timedOut, heading).track == Walk(Activate(x.track), arrived, timedOut)
  {
  }

  lemma PeriodKeepsProper(u: Setup, x: Tracking, w: World, arrived: bool, timedOut: bool, heading: Option<real>)
    requires Proper(x)
    ensures Proper(Period(u, x, w, arrived, timedOut, heading))
  {
    TakeOverKeepsProper(u, x, w);
    var a := TakeOver(u, x, w);
    assert Proper(TurnAlong(a, heading));
    WalkKeepsProper(u, TurnAlong(a, heading), w, arrived, timedOut);
  }

  /** After a take-over of a path, or an arrival that is not the last, the period ends aiming at the new waypoint. */
  lemma NewWaypointIsAimedAt(u: Setup, x: Tracking, w: World, arrived: bool, timedOut: bool, heading: Option<real>)
    requires Lawful(u.m) && Proper(x)
    ensures var y := Period(u, x, w, arrived, timedOut, heading);
            y.track.mode == POSITION && (Takes(x) || arrived) ==>
              && y.track.index < |y.track.waypoints|
              && AimsAt(u.m, y.track.waypoints[y.track.index], y.aim.pose.pos, w)
              && (arrived || !y.aim.autoHeading || heading.None? ==> FacesAs(y.track.waypoints[y.track.index], y.aim.pose.yaw, w))
  {
    var a := TakeOver(u, x, w);
    var b := TurnAlong(a, heading);
    if Takes(x) { RefreshAims(u, x.(track := Activate(x.track)), w); }
    if b.track.mode == POSITION && arrived && b.track.index + 1 < |b.track.waypoints| {
      RefreshAims(u, b.(track := Walk(b.track, arrived, timedOut)), w);
    }
  }

  /** A path is staged. */
  predicate Takes(x: Tracking) { x.track.pending.Some? && x.track.pending.value.FollowPath? }

  lemma NewWaypointIsFresh(u: Setup, x: Tracking, w: World, arrived: bool, timedOut: bool, heading: Option<real>)
    ensures var t, now := Period(u, x, w, arrived, timedOut, heading), x.track;
            t.track.mode == POSITION && (t.track.index != now.index || t.track.waypoints != now.waypoints) ==>
              Fresh(u.top, t, w.limits)
  {
    var a := TakeOver(u, x, w);
    var b := TurnAlong(a, heading);
    RefreshIsFresh(u, x.(track := Activate(x.track)), w);
    RefreshIsFresh(u, b.(track := Walk(b.track, arrived, timedOut)), w);
  }

  // ---------- the walk along the path ----------

  datatype Happening = SendPath(path: seq<Waypoint>) | SendVelocity(v: Velocity) | Step(arrived: bool, timedOut: bool)

  function Happen(t: Track, h: Happening): Track {
    match h
    case SendPath(path) => if path == [] then t else t.(pending := Some(FollowPath(path)))
    case SendVelocity(v) => t.(pending := Some(HoldVelocity(v)))
    case Step(arrived, timedOut) => Walk(Activate(t), arrived, timedOut)
  }

  function AfterAll(t: Track, hs: seq<Happening>): Track
    decreases |hs|
  {
    if hs == [] then t else AfterAll(Happen(t, hs[0]), hs[1..])
  }

  /** The index is on the path, and "position reached" is reported exactly outside position mode. */
  ghost predicate Sound(t: Track) {
    && t.OnPath()
    && (t.finished <==> t.mode != POSITION)
    && (t.pending.Some? && t.pending.value.FollowPath? ==> t.pending.value.path != [])
  }

  lemma {:induction false} EveryRunSound(t: Track, hs: seq<Happening>)
    requires Sound(t)
    ensures Sound(AfterAll(t, hs))
    decreases |hs|
  {
    if hs != [] {
      EveryRunSound(Happen(t, hs[0]), hs[1..]);
    }
  }

  /**
   After a path is staged, "position reached" is reported until the next period exactly if the tracker was
   not following a path; after that period exactly if the path is one point that has been reached.
   */
  lemma StaleReached(t: Track, path: seq<Waypoint>, arrived: bool)
    requires Sound(t) && path != []
    ensures Happen(t, SendPath(path)).finished <==> t.mode != POSITION
    ensures AfterAll(t, [SendPath(path), Step(arrived, false)]).finished <==> arrived && |path| == 1
  {
    var sent := Happen(t, SendPath(path));
    assert AfterAll(t, [SendPath(path), Step(arrived, false)]) == AfterAll(sent, [Step(arrived, false)])
        == AfterAll(Happen(sent, Step(arrived, false)), []);
  }

  /** So it is in every run: whatever is staged between two periods, what is reported is whether a path was being followed. */
  lemma {:induction false} StagingIsInvisible(t: Track, hs: seq<Happening>)
    requires Sound(t) && forall i :: 0 <= i < |hs| ==> !hs[i].Step?
    ensures AfterAll(t, hs).finished <==> t.mode != POSITION
    decreases |hs|
  {
    if hs != [] {
      StagingIsInvisible(Happen(t, hs[0]), hs[1..]);
    }
  }

  function Arrivals(hs: seq<Happening>): (n: nat)
    ensures n <= |hs|
  {
    if hs == [] then 0 else (if hs[0].Step? && hs[0].arrived then 1 else 0) + Arrivals(hs[1..])
  }

  /**
   The walk in closed form. While no new command is sent, the position after any number of
   steps depends only on how many arrivals there were: the index counts them, and the path
   is reported finished exactly when every one of its points has been reached.
   */
  lemma {:induction false} WalkCountsArrivals(t: Track, hs: seq<Happening>)
    requires t.mode == POSITION && t.index < |t.waypoints| && t.pending == None && !t.finished
    requires forall i :: 0 <= i < |hs| ==> hs[i].Step?
    ensures AfterAll(t, hs) ==
      if t.index + Arrivals(hs) < |t.waypoints| then t.(index := t.index + Arrivals(hs))
      else t.(index := |t.waypoints| - 1, mode := IDLE, finished := true)
    decreases |hs|
  {
    if hs != [] {
      var t' := Happen(t, hs[0]);
      if t'.mode == POSITION {
        WalkCountsArrivals(t', hs[1..]);
      } else {
        IdleStays(t', hs[1..]);
      }
    }
  }

  lemma {:induction false} IdleStays(t: Track, hs: seq<Happening>)
    requires t.mode == IDLE && t.pending == None && forall i :: 0 <= i < |hs| ==> hs[i].Step?
    ensures AfterAll(t, hs) == t
    decreases |hs|
  {
    if hs != [] {
      IdleStays(t, hs[1..]);
    }
  }

  /** What the limiter gets is the raw command, shortened in position mode to the limit in force and no further. */
  lemma StepTickIsCapped(m: MathLib, mode: Mode, raw: Cmd, limit: real, top: SpeedCaps, over: Overrides, yaw: real, dt: real) returns (k: real)
    requires Lawful(m) && limit >= 0.0
    ensures StepTick(m, mode, raw, limit, top, over, yaw, dt) == Tick(Cmd(raw.xy.Times(k), raw.z, raw.w), top, over, yaw, dt)
    ensures mode != POSITION ==> k == 1.0
    ensures mode == POSITION ==> LimiterMeaning.ShareOf(k, m.Norm(raw.xy), Max(limit, SPEED_EPS), limit)
  {
    assert HypotLaw(m, raw.xy);
    k := 1.0;
    assert raw.xy.Times(1.0) == raw.xy;
    if mode == POSITION {
      k := LimiterMeaning.CapShare(raw.xy, limit, SPEED_EPS, m.Norm(raw.xy));
    }
  }

  /** Holding a velocity ends with the first period that times out, and with no other. */
  lemma {:induction false} VelocityEndsOnTimeOut(t: Track, hs: seq<Happening>)
    requires t.mode == VELOCITY && t.pending == None && forall i :: 0 <= i < |hs| ==> hs[i].Step?
    ensures AfterAll(t, hs) == if exists i :: 0 <= i < |hs| && hs[i].timedOut then t.(mode := IDLE) else t
    decreases |hs|
  {
    if hs != [] {
      var t' := Happen(t, hs[0]);
      assert (exists i :: 0 <= i < |hs| && hs[i].timedOut) <==>
        hs[0].timedOut || exists i :: 0 <= i < |hs| - 1 && hs[1..][i].timedOut by {
        if i :| 0 < i < |hs| && hs[i].timedOut { assert hs[1..][i - 1].timedOut; }
        if i :| 0 <= i < |hs| - 1 && hs[1..][i].timedOut { assert hs[i + 1].timedOut; }
      }
      if hs[0].timedOut {
        IdleStays(t', hs[1..]);
      } else {
        VelocityEndsOnTimeOut(t', hs[1..]);
      }
    }
  }

  /** In position mode the limit in force bounds what the limiter aims for, down to the least length the code caps. */
  lemma PositionTarget(m: MathLib, raw: Cmd, limit: real, top: SpeedCaps, over: Overrides, yaw: real, dt: real)
    requires Lawful(m) && limit >= 0.0 && top.xy >= 0.0
    ensures Within(TargetXY(m, StepTick(m, POSITION, raw, limit, top, over, yaw, dt)), Max(limit, SPEED_EPS))
  {
    var v := Saturate(raw.xy, limit, SPEED_EPS, m.Norm(raw.xy));
    assert HypotLaw(m, raw.xy) && HypotLaw(m, v);
    var k := SaturateShrinks(raw.xy, limit, SPEED_EPS, m.Norm(raw.xy));
    var k' := SaturateShrinks(v, top.xy, SPEED_EPS, m.Norm(v));
    NormWithin(v, m.Norm(v), Max(limit, SPEED_EPS));
    WithinWider(Saturate(v, top.xy, SPEED_EPS, m.Norm(v)), m.Norm(v), Max(limit, SPEED_EPS));
  }

  /** Accelerations are limited by something, and jerk does not get in the way. */
  ghost predicate Slack(m: MathLib, cfg: Config, s: State, t: Tick)
    requires Sane(cfg, t)
  {
    JerkSlack(m, cfg, s, t) && 0.0 <= t.over.accXY.GetOr(cfg.maxAccXY) && 0.0 <= t.over.decelXY.GetOr(cfg.maxDecelXY)
  }

  /** One period of position mode without jerk in the way leaves no disc that holds the speed and the limit in force. */
  lemma PositionStepKeepsLimit(m: MathLib, cfg: Config, s: State, raw: Cmd, limit: real, top: SpeedCaps, over: Overrides, yaw: real, dt: real, V: real)
    requires Lawful(m) && 0.0 <= limit <= V && SPEED_EPS <= V && Within(s.vel.xy, V)
    requires var t := StepTick(m, POSITION, raw, limit, top, over, yaw, dt); Sane(cfg, t) && Slack(m, cfg, s, t)
    ensures Within(Next(m, cfg, s, StepTick(m, POSITION, raw, limit, top, over, yaw, dt)).vel.xy, V)
  {
    var t := StepTick(m, POSITION, raw, limit, top, over, yaw, dt);
    PositionTarget(m, raw, limit, top, over, yaw, dt);
    WithinWider(TargetXY(m, t), Max(limit, SPEED_EPS), V);
    SlackTickKeepsSpeed(m, cfg, s, t, V);
  }

  // ---------- ownership of a limit ----------

  /** The handle that takes a callback back when it goes away. */
  class SpeedLimitToken {
    var id: int
    var owner: ThreadedTracker?

    constructor ()
      ensures id == -1 && owner == null
    {
      id, owner := -1, null;
    }

    ghost predicate Holds() reads this { owner != null && id >= 0 }

    /** Gives the callback back, at most once: a released token holds nothing. */
    method Release(w: World)
      requires owner != null ==> owner.Valid()
      modifies this, owner
      ensures id == -1 && owner == null
      ensures old(owner) != null ==> old(owner).Valid() && old(owner).View() == old(owner.View())
      ensures old(Holds()) ==> old(owner).callbacks == Without(old(owner.callbacks), old(id))
      ensures old(owner) != null && !old(Holds()) ==> old(owner).callbacks == old(owner.callbacks)
    {
      if owner != null && id >= 0 {
        owner.RemoveSpeedLimitCb(id, w);
      }
      id, owner := -1, null;
    }

    /** Move assignment: what this token held is given back, what the other held is taken over. */
    method MoveFrom(other: SpeedLimitToken, w: World)
      requires owner != null ==> owner.Valid()
      modifies this, other, owner
      ensures this == other ==> unchanged(this)
      ensures this != other ==>
        && id == old(other.id) && owner == old(other.owner)
        && other.id == -1 && other.owner == null
        && (old(Holds()) ==> old(owner).callbacks == Without(old(owner.callbacks), old(id)))
    {
      if this != other {
        Release(w);
        id, owner := other.id, other.owner;
        other.id, other.owner := -1, null;
      }
    }
  }

  const DETECT := "detect"

  lemma IssuedBelow(cbs: seq<LimitCb>, next: int)
    requires Issued(cbs, next)
    ensures forall c :: c in cbs ==> c.id < next
  {
  }

  /** Detection on and off: while it is on, exactly one "detect" limit is registered. */
  class DetectSwitch {
    const tracker: ThreadedTracker
    var token: SpeedLimitToken?

    ghost predicate Valid()
      reads this, tracker, token
    {
      && tracker.Valid()
      && (token == null ==> forall c :: c in tracker.callbacks ==> c.name != DETECT)
      && (token != null ==>
            && token.owner == tracker && token.id >= 0
            && (exists c :: c in tracker.callbacks && c.id == token.id)
            && (forall c :: c in tracker.callbacks ==> (c.name == DETECT <==> c.id == token.id)))
    }

    constructor (tracker: ThreadedTracker)
      requires tracker.Valid() && forall c :: c in tracker.callbacks ==> c.name != DETECT
      ensures Valid() && this.tracker == tracker && token == null
    {
      this.tracker := tracker;
      token := null;
    }

    method Disable(w: World)
      requires Valid()
      modifies this, tracker, token
      ensures Valid() && token == null
      ensures tracker.View() == old(tracker.View())
      ensures tracker.callbacks ==
        if old(token) == null then old(tracker.callbacks) else Without(old(tracker.callbacks), old(token.id))
      ensures forall c :: c in old(tracker.callbacks) && c.name != DETECT ==> c in tracker.callbacks
    {
      if token != null {
        WithoutMembers(tracker.callbacks, token.id);
        token.Release(w);
        token := null;
      }
    }

    method Enable(w: World)
      requires Valid()
      modifies this, tracker, token
      ensures Valid() && token != null && fresh(token)
      ensures tracker.View() == old(tracker.View())
      ensures tracker.callbacks ==
        (if old(token) == null then old(tracker.callbacks) else Without(old(tracker.callbacks), old(token.id)))
        + [LimitCb(token.id, DETECT)]
      ensures tracker.index < |tracker.waypoints| ==> tracker.Refreshed(w.limits)
    {
      // the new handle replaces the old one, which gives its callback back
      Disable(w);
      ghost var others := tracker.callbacks;
      IssuedBelow(others, tracker.nextId);
      var t := new SpeedLimitToken();
      t.id := tracker.AddSpeedLimitCb(DETECT, w);
      t.owner := tracker;
      token := t;
      assert LimitCb(t.id, DETECT) in tracker.callbacks;
    }
  }
}
