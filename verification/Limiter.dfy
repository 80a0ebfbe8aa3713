/**
 The command limiter of the tracker: what one call of `apply_kinematic_constraints` makes of
 the remembered command, and what holds over whole runs of such calls.
 */
module Limiter {
  import opened Basics
  import opened Planar

  /** A velocity command: planar part, climb rate, yaw rate. */
  datatype Cmd = Cmd(xy: Vec2, z: real, w: real)

  const STOP: Cmd := Cmd(ZERO, 0.0, 0.0)

  datatype Config = Config(maxAccXY: real, maxDecelXY: real, maxAccZ: real, maxAccYaw: real)

  /** Limits that a waypoint may set for itself. */
  datatype Overrides = Overrides(accXY: Option<real>, decelXY: Option<real>, jerkXY: Option<real>, jerkZ: Option<real>)

  datatype SpeedCaps = SpeedCaps(xy: real, z: real, yaw: real)

  /** What the limiter remembers: last command, last acceleration, and the heading both refer to. */
  datatype State = State(vel: Cmd, acc: Vec2, accZ: real, yaw: real)

  datatype Tick = Tick(raw: Cmd, caps: SpeedCaps, over: Overrides, yaw: real, dt: real)

  const SPEED_EPS := 0.0001
  const ACC_EPS := 0.000001
  const NO_JERK_LIMIT := 1000.0

  /** Body-frame coordinates of `v` after the body has turned by `turn`. */
  function IntoBody(m: MathLib, v: Vec2, turn: real): Vec2 {
    var c, s := m.cos(turn), m.sin(turn);
    Vec2(v.x * c + v.y * s, -v.x * s + v.y * c)
  }

  /** World (ENU) coordinates of a body vector at heading `yaw`. */
  function IntoWorld(m: MathLib, v: Vec2, yaw: real): Vec2 {
    var c, s := m.cos(yaw), m.sin(yaw);
    Vec2(v.x * c - v.y * s, v.x * s + v.y * c)
  }

  ghost predicate Sane(cfg: Config, t: Tick) {
    && t.dt > 0.0
    && t.caps.xy >= 0.0 && t.caps.z >= 0.0 && t.caps.yaw >= 0.0
    && cfg.maxAccZ >= 0.0 && cfg.maxAccYaw >= 0.0
    && JerkXY(t) >= 0.0 && JerkZ(t) >= 0.0
  }

  function JerkXY(t: Tick): real { t.over.jerkXY.GetOr(NO_JERK_LIMIT) }

  function JerkZ(t: Tick): real { t.over.jerkZ.GetOr(NO_JERK_LIMIT) }

  /** Planar target: the raw command under the speed cap. */
  function TargetXY(m: MathLib, t: Tick): Vec2 {
    Saturate(t.raw.xy, t.caps.xy, SPEED_EPS, m.Norm(t.raw.xy))
  }

  /** The acceleration that would reach the target in one tick. */
  function WantedXY(m: MathLib, t: Tick, v: Vec2): Vec2
    requires t.dt > 0.0
  {
    var d := TargetXY(m, t).Minus(v);
    Vec2(d.x / t.dt, d.y / t.dt)
  }

  /** Deceleration has a limit of its own, used when moving and pulling back. */
  function AccLimit(m: MathLib, cfg: Config, t: Tick, v: Vec2): real
    requires t.dt > 0.0
  {
    if m.Norm(v) > 0.01 && v.Dot(WantedXY(m, t, v)) < 0.0
    then t.over.decelXY.GetOr(cfg.maxDecelXY)
    else t.over.accXY.GetOr(cfg.maxAccXY)
  }

  /** The wanted acceleration under the acceleration limit. */
  function CappedXY(m: MathLib, cfg: Config, t: Tick, v: Vec2): Vec2
    requires t.dt > 0.0
  {
    var w := WantedXY(m, t, v);
    Saturate(w, AccLimit(m, cfg, t, v), ACC_EPS, m.Norm(w))
  }

  /** The acceleration actually commanded, `v` and `a` being last velocity and acceleration in the new body frame. */
  function NextAcc(m: MathLib, cfg: Config, t: Tick, v: Vec2, a: Vec2): Vec2
    requires Sane(cfg, t)
  {
    var d := CappedXY(m, cfg, t, v).Minus(a);
    a.Plus(Saturate(d, Reach(JerkXY(t), t.dt), ACC_EPS, m.Norm(d)))
  }

  /** `std::clamp(target, from - step, from + step)`: as near to `target` as `step` allows. */
  function Approach(from: real, target: real, step: real): (r: real)
    requires 0.0 <= step
    ensures from - step <= r <= from + step
    ensures Min(from, target) <= r <= Max(from, target)
  {
    Clamp(target, from - step, from + step)
  }

  /** How far one tick may move a quantity whose rate is limited. */
  function Reach(rate: real, dt: real): (r: real)
    requires rate >= 0.0 && dt > 0.0
    ensures r >= 0.0 && r == rate * dt
  {
    rate * dt
  }

  function NextAccZ(cfg: Config, t: Tick, s: State): real
    requires Sane(cfg, t)
  {
    var target := Clamp(t.raw.z, -t.caps.z, t.caps.z);
    var wanted := Clamp((target - s.vel.z) / t.dt, -cfg.maxAccZ, cfg.maxAccZ);
    Approach(s.accZ, wanted, Reach(JerkZ(t), t.dt))
  }

  function NextYawRate(cfg: Config, t: Tick, s: State): real
    requires Sane(cfg, t)
  {
    var target := Clamp(t.raw.w, -t.caps.yaw, t.caps.yaw);
    Approach(s.vel.w, target, Reach(cfg.maxAccYaw, t.dt))
  }

  /** One Euler step of the commanded accelerations. */
  function Integrate(v: Vec2, acc: Vec2, vz: real, accZ: real, w: real, yaw: real, dt: real): State {
    State(Cmd(v.Plus(acc.Times(dt)), vz + accZ * dt, w), acc, accZ, yaw)
  }

  function Next(m: MathLib, cfg: Config, s: State, t: Tick): State
    requires Sane(cfg, t)
  {
    var v := IntoBody(m, s.vel.xy, t.yaw - s.yaw);
    var a := IntoBody(m, s.acc, t.yaw - s.yaw);
    var acc := NextAcc(m, cfg, t, v, a);
    var accZ := NextAccZ(cfg, t, s);
    Integrate(v, acc, s.vel.z, accZ, NextYawRate(cfg, t, s), t.yaw, t.dt)
  }

  // ---------- frames ----------

  lemma RotationKeepsSq(x: real, y: real, c: real, s: real)
    requires s * s + c * c == 1.0
    ensures (x * c + y * s) * (x * c + y * s) + (-x * s + y * c) * (-x * s + y * c) == x * x + y * y
    ensures (x * c - y * s) * (x * c - y * s) + (x * s + y * c) * (x * s + y * c) == x * x + y * y
  {
    var xc, ys, xs, yc := x * c, y * s, x * s, y * c;
    assert xc * ys == xs * yc;
    assert (-x * s) == -xs;
    assert (xc + ys) * (xc + ys) == xc * xc + 2.0 * (xc * ys) + ys * ys;
    assert (xc - ys) * (xc - ys) == xc * xc - 2.0 * (xc * ys) + ys * ys;
    assert (-xs + yc) * (-xs + yc) == xs * xs - 2.0 * (xs * yc) + yc * yc;
    assert (xs + yc) * (xs + yc) == xs * xs + 2.0 * (xs * yc) + yc * yc;
    assert xc * xc + xs * xs == x * x by { SplitUnit(x, c, s); }
    assert yc * yc + ys * ys == y * y by { SplitUnit(y, c, s); }
  }

  lemma SplitUnit(x: real, c: real, s: real)
    requires s * s + c * c == 1.0
    ensures (x * c) * (x * c) + (x * s) * (x * s) == x * x
  {
    assert (x * c) * (x * c) == (x * x) * (c * c) && (x * s) * (x * s) == (x * x) * (s * s);
    assert (x * x) * (c * c) + (x * x) * (s * s) == (x * x) * (s * s + c * c);
  }

  lemma IntoBodyKeepsSq(m: MathLib, v: Vec2, turn: real)
    requires Lawful(m)
    ensures IntoBody(m, v, turn).Sq() == v.Sq()
  {
    assert CircleLaw(m, turn);
    RotationKeepsSq(v.x, v.y, m.cos(turn), m.sin(turn));
  }

  lemma IntoWorldKeepsSq(m: MathLib, v: Vec2, yaw: real)
    requires Lawful(m)
    ensures IntoWorld(m, v, yaw).Sq() == v.Sq()
  {
    assert CircleLaw(m, yaw);
    RotationKeepsSq(v.x, v.y, m.cos(yaw), m.sin(yaw));
  }

  lemma TurnBack(c: real, s: real, c': real, s': real)
    requires s' * s' + c' * c' == 1.0
    ensures (c' * c + s' * s) * c' + (s' * c - c' * s) * s' == c
    ensures (c' * c + s' * s) * s' - (s' * c - c' * s) * c' == s
  {
    var cc, ss, sc := c' * c', s' * s', s' * c';
    assert (c' * c + s' * s) * c' == c * cc + s * sc;
    assert (s' * c - c' * s) * s' == c * ss - s * sc;
    assert (c' * c + s' * s) * s' == c * sc + s * ss;
    assert (s' * c - c' * s) * c' == c * sc - s * cc;
    assert c * cc + c * ss == c * (cc + ss) == c;
    assert s * cc + s * ss == s * (cc + ss) == s;
  }

  /** Re-expressing a remembered vector for the new heading leaves it where it was in the world. */
  lemma SameInWorld(m: MathLib, v: Vec2, yaw: real, yaw': real)
    requires Lawful(m)
    ensures IntoWorld(m, IntoBody(m, v, yaw' - yaw), yaw') == IntoWorld(m, v, yaw)
  {
    assert CircleLaw(m, yaw');
    assert DifferenceLaw(m, yaw', yaw);
    TurnBack(m.cos(yaw), m.sin(yaw), m.cos(yaw'), m.sin(yaw'));
    var d, e := m.cos(yaw' - yaw), m.sin(yaw' - yaw);
    var b := IntoBody(m, v, yaw' - yaw);
    assert b == Vec2(v.x * d + v.y * e, -v.x * e + v.y * d);
    TurnTwice(v.x, v.y, d, e, m.cos(yaw'), m.sin(yaw'), m.cos(yaw), m.sin(yaw));
  }

  lemma TurnTwice(x: real, y: real, d: real, e: real, c': real, s': real, c: real, s: real)
    requires d * c' + e * s' == c && d * s' - e * c' == s
    ensures (x * d + y * e) * c' - (-x * e + y * d) * s' == x * c - y * s
    ensures (x * d + y * e) * s' + (-x * e + y * d) * c' == x * s + y * c
  {
    assert -x * e == -(x * e);
    var dc, es, ds, ec := d * c', e * s', d * s', e * c';
    assert (x * d + y * e) * c' == x * dc + y * ec && (-x * e + y * d) * s' == -x * es + y * ds;
    assert (x * d + y * e) * s' == x * ds + y * es && (-x * e + y * d) * c' == -x * ec + y * dc;
    assert x * dc + x * es == x * c && y * ds - y * ec == y * s;
    assert x * ds - x * ec == x * s && y * dc + y * es == y * c;
  }

  lemma IntoWorldLinear(m: MathLib, v: Vec2, a: Vec2, dt: real, yaw: real)
    ensures IntoWorld(m, v.Plus(a.Times(dt)), yaw) == IntoWorld(m, v, yaw).Plus(IntoWorld(m, a, yaw).Times(dt))
  {
    var c, s := m.cos(yaw), m.sin(yaw);
    assert (v.x + a.x * dt) * c - (v.y + a.y * dt) * s == (v.x * c - v.y * s) + (a.x * c - a.y * s) * dt;
    assert (v.x + a.x * dt) * s + (v.y + a.y * dt) * c == (v.x * s + v.y * c) + (a.x * s + a.y * c) * dt;
  }

  // ---------- one tick ----------

  /** `A` bounds every acceleration limit that tick `t` may use. */
  ghost predicate AccBound(cfg: Config, t: Tick, A: real) {
    && A >= ACC_EPS
    && 0.0 <= t.over.accXY.GetOr(cfg.maxAccXY) <= A
    && 0.0 <= t.over.decelXY.GetOr(cfg.maxDecelXY) <= A
  }

  /** The jerk limit does not bite on this tick. */
  ghost predicate JerkSlack(m: MathLib, cfg: Config, s: State, t: Tick)
    requires Sane(cfg, t)
  {
    var v, a := IntoBody(m, s.vel.xy, t.yaw - s.yaw), IntoBody(m, s.acc, t.yaw - s.yaw);
    m.Norm(CappedXY(m, cfg, t, v).Minus(a)) <= Reach(JerkXY(t), t.dt)
  }

  lemma CappedWithin(m: MathLib, cfg: Config, t: Tick, v: Vec2, A: real)
    requires Lawful(m) && Sane(cfg, t) && AccBound(cfg, t, A)
    ensures Within(CappedXY(m, cfg, t, v), A)
  {
    var w, limit := WantedXY(m, t, v), AccLimit(m, cfg, t, v);
    assert HypotLaw(m, w);
    var k := SaturateShrinks(w, limit, ACC_EPS, m.Norm(w));
    WithinWider(CappedXY(m, cfg, t, v), Max(limit, ACC_EPS), A);
  }

  lemma NextAccWithin(m: MathLib, cfg: Config, t: Tick, v: Vec2, a: Vec2, A: real)
    requires Lawful(m) && Sane(cfg, t) && AccBound(cfg, t, A) && Within(a, A)
    ensures Within(NextAcc(m, cfg, t, v, a), A)
    ensures Within(NextAcc(m, cfg, t, v, a).Minus(a), Max(Reach(JerkXY(t), t.dt), ACC_EPS))
  {
    var d := CappedXY(m, cfg, t, v);
    CappedWithin(m, cfg, t, v, A);
    assert HypotLaw(m, d.Minus(a));
    CappedStep(a, d, Reach(JerkXY(t), t.dt), m.Norm(d.Minus(a)), A);
  }

  lemma CappedStep(a: Vec2, d: Vec2, reach: real, n: real, A: real)
    requires Within(a, A) && Within(d, A) && IsNorm(d.Minus(a), n) && 0.0 <= reach
    ensures var b := a.Plus(Saturate(d.Minus(a), reach, ACC_EPS, n));
            Within(b, A) && Within(b.Minus(a), Max(reach, ACC_EPS))
  {
    var e := d.Minus(a);
    var k := SaturateShrinks(e, reach, ACC_EPS, n);
    TowardWithin(a, d, k, A);
    var b := a.Plus(Saturate(e, reach, ACC_EPS, n));
    assert b == Toward(a, d, k);
    assert b.Minus(a) == Saturate(e, reach, ACC_EPS, n);
  }

  /**
   The planar guarantee of one tick, in world axes: the commanded velocity changes by exactly
   `dt` times the commanded acceleration, the acceleration stays within `A`, and it changes by
   no more than the jerk limit allows, whatever the body did to its heading in between.
   */
  lemma TickInWorld(m: MathLib, cfg: Config, s: State, t: Tick, A: real)
    requires Lawful(m) && Sane(cfg, t) && AccBound(cfg, t, A) && Within(s.acc, A)
    ensures var s' := Next(m, cfg, s, t);
            && Within(s'.acc, A)
            && IntoWorld(m, s'.vel.xy, s'.yaw) ==
               IntoWorld(m, s.vel.xy, s.yaw).Plus(IntoWorld(m, s'.acc, s'.yaw).Times(t.dt))
            && Within(IntoWorld(m, s'.acc, s'.yaw).Minus(IntoWorld(m, s.acc, s.yaw)), Max(Reach(JerkXY(t), t.dt), ACC_EPS))
  {
    var s' := Next(m, cfg, s, t);
    var v, a := IntoBody(m, s.vel.xy, t.yaw - s.yaw), IntoBody(m, s.acc, t.yaw - s.yaw);
    IntoBodyKeepsSq(m, s.acc, t.yaw - s.yaw);
    NextAccWithin(m, cfg, t, v, a, A);
    SameInWorld(m, s.vel.xy, s.yaw, t.yaw);
    SameInWorld(m, s.acc, s.yaw, t.yaw);
    IntoWorldLinear(m, v, s'.acc, t.dt, t.yaw);
    var d := s'.acc.Minus(a);
    IntoWorldLinear(m, a, d, 1.0, t.yaw);
    assert a.Plus(d.Times(1.0)) == s'.acc;
    IntoWorldKeepsSq(m, d, t.yaw);
    assert IntoWorld(m, s'.acc, t.yaw).Minus(IntoWorld(m, a, t.yaw)) == IntoWorld(m, d, t.yaw);
  }

  ghost predicate WideJerk(cfg: Config, t: Tick, A: real) {
    Sane(cfg, t) && Reach(JerkXY(t), t.dt) >= 2.0 * A
  }

  /** Slack is automatic once one tick of jerk spans the whole disc of accelerations. */
  lemma WideJerkIsSlack(m: MathLib, cfg: Config, s: State, t: Tick, A: real)
    requires Lawful(m) && Sane(cfg, t) && AccBound(cfg, t, A) && Within(s.acc, A)
    requires WideJerk(cfg, t, A)
    ensures JerkSlack(m, cfg, s, t)
  {
    var v, a := IntoBody(m, s.vel.xy, t.yaw - s.yaw), IntoBody(m, s.acc, t.yaw - s.yaw);
    var d := CappedXY(m, cfg, t, v);
    IntoBodyKeepsSq(m, s.acc, t.yaw - s.yaw);
    CappedWithin(m, cfg, t, v, A);
    TimesSq(a, -1.0);
    PlusWithin(d, A, a.Times(-1.0), A);
    assert d.Plus(a.Times(-1.0)) == d.Minus(a);
    assert HypotLaw(m, d.Minus(a));
    NormWithin(d.Minus(a), m.Norm(d.Minus(a)), 2.0 * A);
  }

  /** Without jerk in the way the new velocity lies on the way from the old one to the target. */
  lemma SlackTickMovesToward(m: MathLib, cfg: Config, s: State, t: Tick) returns (k: real)
    requires Lawful(m) && Sane(cfg, t) && JerkSlack(m, cfg, s, t)
    requires 0.0 <= t.over.accXY.GetOr(cfg.maxAccXY) && 0.0 <= t.over.decelXY.GetOr(cfg.maxDecelXY)
    ensures 0.0 <= k <= 1.0
    ensures Next(m, cfg, s, t).vel.xy == Toward(IntoBody(m, s.vel.xy, t.yaw - s.yaw), TargetXY(m, t), k)
  {
    var v, a := IntoBody(m, s.vel.xy, t.yaw - s.yaw), IntoBody(m, s.acc, t.yaw - s.yaw);
    var w, d := WantedXY(m, t, v), CappedXY(m, cfg, t, v);
    assert HypotLaw(m, w);
    k := SaturateShrinks(w, AccLimit(m, cfg, t, v), ACC_EPS, m.Norm(w));
    assert NextAcc(m, cfg, t, v, a) == a.Plus(d.Minus(a)) == d;
    CappedMove(v, TargetXY(m, t), t.dt, w, k);
  }

  lemma CappedMove(v: Vec2, target: Vec2, dt: real, w: Vec2, k: real)
    requires dt > 0.0 && w == Vec2((target.x - v.x) / dt, (target.y - v.y) / dt)
    ensures v.Plus(w.Times(k).Times(dt)) == Toward(v, target, k)
  {
    assert w.x * k * dt == w.x * dt * k && w.y * k * dt == w.y * dt * k;
    assert w.x * dt == target.x - v.x && w.y * dt == target.y - v.y;
  }

  /** A slack tick never raises the planar speed above the larger of the cap and the speed it had. */
  lemma SlackTickKeepsSpeed(m: MathLib, cfg: Config, s: State, t: Tick, V: real)
    requires Lawful(m) && Sane(cfg, t) && JerkSlack(m, cfg, s, t)
    requires 0.0 <= t.over.accXY.GetOr(cfg.maxAccXY) && 0.0 <= t.over.decelXY.GetOr(cfg.maxDecelXY)
    requires Within(TargetXY(m, t), V) && Within(s.vel.xy, V)
    ensures Within(Next(m, cfg, s, t).vel.xy, V)
  {
    IntoBodyKeepsSq(m, s.vel.xy, t.yaw - s.yaw);
    var k := SlackTickMovesToward(m, cfg, s, t);
    TowardWithin(IntoBody(m, s.vel.xy, t.yaw - s.yaw), TargetXY(m, t), k, V);
  }

  /** The cap of the tick bounds what it aims for. */
  lemma TargetWithin(m: MathLib, t: Tick, V: real)
    requires Lawful(m) && 0.0 <= t.caps.xy <= V && SPEED_EPS <= V
    ensures Within(TargetXY(m, t), V)
  {
    assert HypotLaw(m, t.raw.xy);
    var k := SaturateShrinks(t.raw.xy, t.caps.xy, SPEED_EPS, m.Norm(t.raw.xy));
    WithinWider(TargetXY(m, t), Max(t.caps.xy, SPEED_EPS), V);
  }

  /** Climb acceleration keeps its bound and its jerk limit; the yaw rate keeps its cap unconditionally. */
  lemma TickVerticalAndYaw(m: MathLib, cfg: Config, s: State, t: Tick, W: real)
    requires Sane(cfg, t) && t.caps.yaw <= W
    requires Abs(s.vel.w) <= W && Abs(s.accZ) <= cfg.maxAccZ
    ensures Abs(Next(m, cfg, s, t).accZ) <= cfg.maxAccZ
    ensures Abs(Next(m, cfg, s, t).accZ - s.accZ) <= Reach(JerkZ(t), t.dt)
    ensures Abs(Next(m, cfg, s, t).vel.w) <= W
    ensures Abs(Next(m, cfg, s, t).vel.w - s.vel.w) <= Reach(cfg.maxAccYaw, t.dt)
  {
  }

  // ---------- runs ----------

  /** A tick of the control loop, or one of the resets that zero the remembered command. */
  datatype Move = Drive(t: Tick) | Halt(yaw: real)

  ghost predicate MoveOk(cfg: Config, mv: Move, A: real) {
    mv.Drive? ==> Sane(cfg, mv.t) && AccBound(cfg, mv.t, A)
  }

  ghost predicate Drivable(cfg: Config, run: seq<Move>, A: real) {
    forall i :: 0 <= i < |run| ==> MoveOk(cfg, run[i], A)
  }

  /** Nothing remembered but the heading. */
  function Rest(yaw: real): State { State(STOP, ZERO, 0.0, yaw) }

  function Apply(m: MathLib, cfg: Config, s: State, mv: Move): State
    requires mv.Drive? ==> Sane(cfg, mv.t)
  {
    match mv
    case Drive(t) => Next(m, cfg, s, t)
    case Halt(yaw) => Rest(yaw)
  }

  ghost function After(m: MathLib, cfg: Config, s: State, run: seq<Move>, A: real): State
    requires Drivable(cfg, run, A)
    decreases |run|
  {
    if run == [] then s
    else
      assert MoveOk(cfg, run[0], A);
      After(m, cfg, Apply(m, cfg, s, run[0]), run[1..], A)
  }

  ghost predicate Calm(cfg: Config, s: State, A: real, W: real) {
    Within(s.acc, A) && Abs(s.accZ) <= cfg.maxAccZ && Abs(s.vel.w) <= W
  }

  /** Over every run the commanded accelerations and the yaw rate keep their bounds. */
  lemma {:induction false} RunStaysCalm(m: MathLib, cfg: Config, s: State, run: seq<Move>, A: real, W: real)
    requires Lawful(m) && Drivable(cfg, run, A) && A >= 0.0 && W >= 0.0 && cfg.maxAccZ >= 0.0
    requires Calm(cfg, s, A, W)
    requires forall i :: 0 <= i < |run| && run[i].Drive? ==> run[i].t.caps.yaw <= W
    ensures Calm(cfg, After(m, cfg, s, run, A), A, W)
    decreases |run|
  {
    if run != [] {
      var mv := run[0];
      assert MoveOk(cfg, mv, A);
      if mv.Drive? {
        TickInWorld(m, cfg, s, mv.t, A);
        TickVerticalAndYaw(m, cfg, s, mv.t, W);
      } else {
        assert 0.0 <= A * A;
      }
      RunStaysCalm(m, cfg, Apply(m, cfg, s, mv), run[1..], A, W);
    }
  }

  /** What a tick aims for is no faster than `V`, and its jerk limit spans the disc of accelerations. */
  ghost predicate Aimed(m: MathLib, cfg: Config, mv: Move, A: real, V: real) {
    mv.Drive? ==> WideJerk(cfg, mv.t, A) && Within(TargetXY(m, mv.t), V)
  }

  /** With such a jerk limit, speed never leaves the disc of the targets once inside. */
  lemma {:induction false} RunKeepsSpeed(m: MathLib, cfg: Config, s: State, run: seq<Move>, A: real, V: real)
    requires Lawful(m) && Drivable(cfg, run, A) && V >= 0.0 && A >= 0.0
    requires Within(s.acc, A) && Within(s.vel.xy, V)
    requires forall i :: 0 <= i < |run| ==> Aimed(m, cfg, run[i], A, V)
    ensures Within(After(m, cfg, s, run, A).vel.xy, V)
    decreases |run|
  {
    if run != [] {
      var mv := run[0];
      assert MoveOk(cfg, mv, A) && Aimed(m, cfg, mv, A, V);
      if mv.Drive? {
        TickInWorld(m, cfg, s, mv.t, A);
        WideJerkIsSlack(m, cfg, s, mv.t, A);
        SlackTickKeepsSpeed(m, cfg, s, mv.t, V);
      } else {
        assert 0.0 <= V * V && 0.0 <= A * A;
      }
      RunKeepsSpeed(m, cfg, Apply(m, cfg, s, mv), run[1..], A, V);
    }
  }

  /** The world velocity of `s'` differs from that of `s` by at most `d`. */
  ghost predicate Drifted(m: MathLib, s: State, s': State, d: real) {
    Within(IntoWorld(m, s'.vel.xy, s'.yaw).Minus(IntoWorld(m, s.vel.xy, s.yaw)), d)
  }

  lemma TickDrift(m: MathLib, cfg: Config, s: State, t: Tick, A: real)
    requires Lawful(m) && Sane(cfg, t) && AccBound(cfg, t, A) && Within(s.acc, A)
    ensures Drifted(m, s, Next(m, cfg, s, t), Reach(A, t.dt))
  {
    TickInWorld(m, cfg, s, t, A);
    var s' := Next(m, cfg, s, t);
    var a := IntoWorld(m, s'.acc, s'.yaw);
    IntoWorldKeepsSq(m, s'.acc, s'.yaw);
    TimesWithin(a, t.dt, A, Reach(A, t.dt));
    assert IntoWorld(m, s'.vel.xy, s'.yaw).Minus(IntoWorld(m, s.vel.xy, s.yaw)) == a.Times(t.dt);
  }

  lemma DriftAdds(m: MathLib, s: State, s': State, s'': State, d: real, d': real)
    requires Drifted(m, s, s', d) && Drifted(m, s', s'', d')
    ensures Drifted(m, s, s'', d + d')
  {
    var w, w', w'' := IntoWorld(m, s.vel.xy, s.yaw), IntoWorld(m, s'.vel.xy, s'.yaw), IntoWorld(m, s''.vel.xy, s''.yaw);
    PlusWithin(w'.Minus(w), d, w''.Minus(w'), d');
    assert w'.Minus(w).Plus(w''.Minus(w')) == w''.Minus(w);
  }

  /** What acceleration `A` can do to the velocity over a run. */
  ghost function Budget(cfg: Config, run: seq<Move>, A: real): (r: real)
    requires Drivable(cfg, run, A) && A >= 0.0
    ensures r >= 0.0
  {
    if run == [] then 0.0
    else
      assert MoveOk(cfg, run[0], A);
      (if run[0].Drive? then Reach(A, run[0].t.dt) else 0.0) + Budget(cfg, run[1..], A)
  }

  /** Between resets, the commanded world velocity moves by at most `A` times the time that has passed. */
  lemma {:induction false} RunVelocityDrift(m: MathLib, cfg: Config, s: State, run: seq<Move>, A: real)
    requires Lawful(m) && Drivable(cfg, run, A) && A >= 0.0
    requires Within(s.acc, A) && forall i :: 0 <= i < |run| ==> run[i].Drive?
    ensures Drifted(m, s, After(m, cfg, s, run, A), Budget(cfg, run, A))
    decreases |run|
  {
    if run != [] {
      assert MoveOk(cfg, run[0], A);
      var t := run[0].t;
      var s' := Next(m, cfg, s, t);
      TickInWorld(m, cfg, s, t, A);
      TickDrift(m, cfg, s, t, A);
      RunVelocityDrift(m, cfg, s', run[1..], A);
      DriftAdds(m, s, s', After(m, cfg, s', run[1..], A), Reach(A, t.dt), Budget(cfg, run[1..], A));
    }
  }

  /**
   When the jerk limit bites, the speed cap is not kept: at the cap and still accelerating at
   `A`, a tick whose raw command is exactly the present velocity overshoots, for every `A`,
   every cap and every jerk allowance below `A`.
   */
  lemma BitingJerkOvershoots(m: MathLib, cfg: Config, A: real, V: real, J: real, dt: real)
    requires Lawful(m) && A > ACC_EPS && V > 0.01 && dt > 0.0 && 0.0 <= J * dt < A && J >= 0.0
    requires cfg.maxAccXY == A && cfg.maxDecelXY == A && cfg.maxAccZ >= 0.0 && cfg.maxAccYaw >= 0.0
    ensures var s := State(Cmd(Vec2(V, 0.0), 0.0, 0.0), Vec2(A, 0.0), 0.0, 0.0);
            var t := Tick(s.vel, SpeedCaps(V, 0.0, 0.0), Overrides(None, None, Some(J), None), 0.0, dt);
            Sane(cfg, t) && AccBound(cfg, t, A) && Within(s.vel.xy, V) && Within(s.acc, A)
            && !Within(Next(m, cfg, s, t).vel.xy, V)
  {
    var s := State(Cmd(Vec2(V, 0.0), 0.0, 0.0), Vec2(A, 0.0), 0.0, 0.0);
    var t := Tick(s.vel, SpeedCaps(V, 0.0, 0.0), Overrides(None, None, Some(J), None), 0.0, dt);
    NoTurn(m, s.vel.xy);
    NoTurn(m, s.acc);
    NoDemand(m, cfg, t, V);
    FullJerk(m, cfg, t, s.vel.xy, A, Reach(J, dt));
    assert Reach(J, dt) == J * dt;
    BeyondRim(V, A - Reach(J, dt), dt);
  }

  /** At the cap, asking for the present velocity asks for no acceleration. */
  lemma NoDemand(m: MathLib, cfg: Config, t: Tick, V: real)
    requires Lawful(m) && V > 0.0 && t.dt > 0.0 && t.raw.xy == Vec2(V, 0.0) && t.caps.xy == V
    ensures CappedXY(m, cfg, t, Vec2(V, 0.0)) == ZERO
  {
    NormOfAxis(m, V);
    assert TargetXY(m, t) == Vec2(V, 0.0);
    assert WantedXY(m, t, Vec2(V, 0.0)) == ZERO;
    NormOfAxis(m, 0.0);
  }

  /** Without demand, an acceleration along the axis falls by the jerk that one tick allows. */
  lemma FullJerk(m: MathLib, cfg: Config, t: Tick, v: Vec2, A: real, step: real)
    requires Lawful(m) && Sane(cfg, t) && step == Reach(JerkXY(t), t.dt) && step < A && ACC_EPS < A
    requires CappedXY(m, cfg, t, v) == ZERO
    ensures NextAcc(m, cfg, t, v, Vec2(A, 0.0)) == Vec2(A - step, 0.0)
  {
    NormOfAxis(m, -A);
    assert ZERO.Minus(Vec2(A, 0.0)) == Vec2(-A, 0.0);
    DivTimes(-A, A, step);
    DivTimes(0.0, A, step);
    Undivide(A, step);
  }

  lemma Undivide(A: real, x: real)
    requires A > 0.0
    ensures -A * (x / A) == -x
  {
  }

  lemma BeyondRim(V: real, a: real, dt: real)
    requires V > 0.0 && a > 0.0 && dt > 0.0
    ensures !Within(Vec2(V, 0.0).Plus(Vec2(a, 0.0).Times(dt)), V)
    ensures Within(Vec2(V, 0.0), V)
  {
    var e := a * dt;
    assert e > 0.0;
    StrictSquareOrder(V, V + e);
    assert Vec2(V, 0.0).Plus(Vec2(a, 0.0).Times(dt)) == Vec2(V + e, 0.0);
  }

  lemma NoTurn(m: MathLib, v: Vec2)
    requires Lawful(m)
    ensures IntoBody(m, v, 0.0 - 0.0) == v
  {
    assert CircleLaw(m, 0.0) && DifferenceLaw(m, 0.0, 0.0);
    var c, s := m.cos(0.0), m.sin(0.0);
    assert m.cos(0.0 - 0.0) == c && m.sin(0.0 - 0.0) == s;
    assert c == c * c + s * s && s == s * c - c * s;
  }

  lemma NormOfAxis(m: MathLib, x: real)
    requires Lawful(m)
    ensures m.Norm(Vec2(x, 0.0)) == Abs(x)
  {
    assert HypotLaw(m, Vec2(x, 0.0));
    var n := m.Norm(Vec2(x, 0.0));
    assert n * n == Abs(x) * Abs(x);
    RootOrder(n, Abs(x));
    RootOrder(Abs(x), n);
  }
}
