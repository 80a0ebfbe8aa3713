/**
 The virtual point that a landing robot follows: a second-order trajectory towards a moving target,
 kept on a leash around the robot.
 */
module Trajectory {
  import opened Basics
  import opened Planar

  datatype Gains = Gains(kp: real, kv: real)

  /** `sqrt` joins the library functions. */
  datatype Lib = Lib(m: MathLib, sqrt: real -> real)

  ghost predicate RootLaw(lib: Lib, v: real) {
    v >= 0.0 ==> lib.sqrt(v) >= 0.0 && lib.sqrt(v) * lib.sqrt(v) == v
  }

  ghost predicate LawfulLib(lib: Lib) {
    Lawful(lib.m) && forall v :: RootLaw(lib, v)
  }

  /** The virtual point. */
  datatype Rabbit = Rabbit(pos: Vec2, vel: Vec2)

  datatype Goal = Goal(pos: Vec2, vel: Vec2, maxVel: real, maxAcc: real, dt: real)

  /** The limits the controller passes are positive. */
  ghost predicate Limits(g: Goal) {
    g.maxVel > 0.0 && g.maxAcc > 0.0 && g.dt >= 0.0
  }

  /** Cap the length at a positive limit. */
  function Cap(m: MathLib, v: Vec2, limit: real): Vec2 {
    if limit <= 0.0 then v else Saturate(v, limit, limit, m.Norm(v))
  }

  // ---------- one step ----------

  function BrakeVel(lib: Lib, g: Goal, distance: real): real {
    lib.sqrt(Times(2.0 * (g.maxAcc * 0.8), distance))
  }

  /** The wanted velocity relative to the target. */
  function Approach(lib: Lib, k: Gains, r: Rabbit, g: Goal): Vec2 {
    var err := g.pos.Minus(r.pos);
    var v := Cap(lib.m, err.Times(k.kp), g.maxVel);
    if lib.m.Norm(err) > 0.01 then Cap(lib.m, v, BrakeVel(lib, g, lib.m.Norm(err))) else v
  }

  function Wanted(lib: Lib, k: Gains, r: Rabbit, g: Goal): Vec2 {
    Approach(lib, k, r, g).Plus(g.vel)
  }

  function Acceleration(lib: Lib, k: Gains, r: Rabbit, g: Goal): Vec2 {
    Cap(lib.m, Wanted(lib, k, r, g).Minus(r.vel).Times(k.kv), g.maxAcc)
  }

  function HalfSquare(dt: real): real { 0.5 * dt * dt }

  function Stepped(lib: Lib, k: Gains, r: Rabbit, g: Goal): Rabbit {
    var a := Acceleration(lib, k, r, g);
    Rabbit(r.pos.Plus(r.vel.Times(g.dt)).Plus(a.Times(HalfSquare(g.dt))), r.vel.Plus(a.Times(g.dt)))
  }

  // ---------- the leash ----------

  /** The length of the leash at a height. */
  function LeashLength(z: real): (l: real)
    ensures l >= 2.0
  {
    Max(2.0, 1.0 + 0.5 * (z / 3.0))
  }

  function Leashed(m: MathLib, r: Rabbit, robot: Vec2, z: real, cruise: real): Rabbit {
    var err := r.pos.Minus(robot);
    if m.Norm(err) > LeashLength(z) then
      Rabbit(robot.Plus(Cap(m, err, LeashLength(z))), Cap(m, r.vel, cruise))
    else r
  }

  class KinematicTrajectoryGenerator2D {
    var pos: Vec2
    var vel: Vec2
    var initialized: bool

    constructor ()
      ensures !initialized
    {
      pos, vel, initialized := ZERO, ZERO, false;
    }

    function Point(): Rabbit
      reads this
    {
      Rabbit(pos, vel)
    }

    method Reset(at: Vec2)
      modifies this
      ensures Point() == Rabbit(at, ZERO) && initialized
    {
      pos, vel, initialized := at, ZERO, true;
    }

    method ForceSetState(at: Vec2, v: Vec2)
      modifies this
      ensures Point() == Rabbit(at, v) && initialized == old(initialized)
    {
      pos, vel := at, v;
    }

    method CapLength(m: MathLib, v: Vec2, limit: real) returns (r: Vec2)
      requires limit > 0.0
      ensures r == Cap(m, v, limit)
    {
      var n := m.Norm(v);
      if n > limit {
        r := Vec2(v.x / n * limit, v.y / n * limit);
      } else {
        r := v;
      }
    }

    /** Before the first reset the target itself is the answer. */
    method Step(lib: Lib, k: Gains, g: Goal) returns (out: Rabbit)
      requires LawfulLib(lib) && Limits(g)
      modifies this
      ensures old(initialized) ==> out == Stepped(lib, k, old(Point()), g)
      ensures !old(initialized) ==> out == Rabbit(g.pos, g.vel)
      ensures initialized == old(initialized) && Point() == if initialized then out else old(Point())
    {
      if !initialized {
        return Rabbit(g.pos, g.vel);
      }
      ghost var r := Point();
      var err := g.pos.Minus(pos);
      var rel := CapLength(lib.m, err.Times(k.kp), g.maxVel);
      var distance := lib.m.Norm(err);
      if distance > 0.01 {
        BrakeVelPositive(lib, g, distance);
        rel := CapLength(lib.m, rel, lib.sqrt(Times(2.0 * (g.maxAcc * 0.8), distance)));
      }
      assert rel == Approach(lib, k, r, g);
      var velErr := rel.Plus(g.vel).Minus(vel);
      var acc := CapLength(lib.m, velErr.Times(k.kv), g.maxAcc);
      assert acc == Acceleration(lib, k, r, g);
      pos := pos.Plus(vel.Times(g.dt)).Plus(acc.Times(HalfSquare(g.dt)));
      vel := vel.Plus(acc.Times(g.dt));
      out := Rabbit(pos, vel);
    }

    /** The controller's step: trajectory, then leash. */
    method Follow(lib: Lib, k: Gains, g: Goal, robot: Vec2, z: real) returns (out: Rabbit)
      requires LawfulLib(lib) && Limits(g)
      modifies this
      ensures initialized
      ensures out == Point() ==
        var r := if old(initialized) then old(Point()) else Rabbit(robot, ZERO);
        Leashed(lib.m, Stepped(lib, k, r, g), robot, z, g.maxVel)
    {
      if !initialized {
        Reset(robot);
      }
      out := Step(lib, k, g);
      var err := out.pos.Minus(robot);
      var leash := LeashLength(z);
      var n := lib.m.Norm(err);
      if n > leash {
        var e := CapLength(lib.m, err, leash);
        var v := CapLength(lib.m, out.vel, g.maxVel);
        out := Rabbit(robot.Plus(e), v);
        ForceSetState(out.pos, out.vel);
      }
    }
  }

  // ---------- bounds ----------

  lemma BrakeVelPositive(lib: Lib, g: Goal, distance: real)
    requires LawfulLib(lib) && Limits(g) && distance > 0.0
    ensures BrakeVel(lib, g, distance) > 0.0
    ensures BrakeVel(lib, g, distance) * BrakeVel(lib, g, distance) == 1.6 * g.maxAcc * distance
  {
    var v := Times(2.0 * (g.maxAcc * 0.8), distance);
    assert v == 1.6 * g.maxAcc * distance;
    assert RootLaw(lib, v);
    RootPositive(lib.sqrt(v), v);
  }

  lemma RootPositive(s: real, v: real)
    requires s >= 0.0 && s * s == v && v > 0.0
    ensures s > 0.0
  {
    assert Times(s, s) == v;
  }

  lemma CapBound(m: MathLib, v: Vec2, limit: real)
    requires Lawful(m) && limit > 0.0
    ensures Within(Cap(m, v, limit), limit)
  {
    var k := CapScales(m, v, limit);
  }

  /** Capping keeps the direction, never lengthens, and lands in the disc. */
  lemma CapScales(m: MathLib, v: Vec2, limit: real) returns (k: real)
    requires Lawful(m) && limit > 0.0
    ensures 0.0 <= k <= 1.0 && Cap(m, v, limit) == v.Times(k)
    ensures Within(Cap(m, v, limit), limit)
  {
    assert HypotLaw(m, v);
    k := SaturateShrinks(v, limit, limit, m.Norm(v));
  }

  lemma CapKeeps(m: MathLib, v: Vec2, limit: real, r: real)
    requires Lawful(m) && limit > 0.0 && Within(v, r)
    ensures Within(Cap(m, v, limit), r)
  {
    assert HypotLaw(m, v);
    NormWithin(v, m.Norm(v), r);
    var k := SaturateShrinks(v, limit, limit, m.Norm(v));
    WithinWider(Cap(m, v, limit), m.Norm(v), r);
  }

  /**
   The relative speed is one from which 80 % of the acceleration stops within the distance, and at most
   the cruise speed.
   */
  lemma ApproachCanBrake(lib: Lib, k: Gains, r: Rabbit, g: Goal)
    requires LawfulLib(lib) && Limits(g)
    ensures Within(Approach(lib, k, r, g), g.maxVel)
    ensures lib.m.Norm(g.pos.Minus(r.pos)) > 0.01 ==>
      Approach(lib, k, r, g).Sq() <= 1.6 * g.maxAcc * lib.m.Norm(g.pos.Minus(r.pos))
  {
    var err := g.pos.Minus(r.pos);
    var v := Cap(lib.m, err.Times(k.kp), g.maxVel);
    CapBound(lib.m, err.Times(k.kp), g.maxVel);
    var n := lib.m.Norm(err);
    if n > 0.01 {
      BrakeVelPositive(lib, g, n);
      CapBound(lib.m, v, BrakeVel(lib, g, n));
      CapKeeps(lib.m, v, BrakeVel(lib, g, n), g.maxVel);
    }
  }

  lemma AccelerationBound(lib: Lib, k: Gains, r: Rabbit, g: Goal)
    requires LawfulLib(lib) && Limits(g)
    ensures Within(Acceleration(lib, k, r, g), g.maxAcc)
    ensures Within(Stepped(lib, k, r, g).vel.Minus(r.vel), g.maxAcc * g.dt)
  {
    CapBound(lib.m, Wanted(lib, k, r, g).Minus(r.vel).Times(k.kv), g.maxAcc);
    var a := Acceleration(lib, k, r, g);
    TimesWithin(a, g.dt, g.maxAcc, g.dt * g.maxAcc);
    assert Stepped(lib, k, r, g).vel.Minus(r.vel) == a.Times(g.dt);
  }

  /** The new velocity is a mean of the old one and the wanted one. */
  lemma StepIsMean(lib: Lib, k: Gains, r: Rabbit, g: Goal) returns (t: real)
    requires LawfulLib(lib) && Limits(g) && 0.0 <= k.kv && k.kv * g.dt <= 1.0
    ensures 0.0 <= t <= 1.0 && Stepped(lib, k, r, g).vel == Toward(r.vel, Wanted(lib, k, r, g), t)
  {
    var w := Wanted(lib, k, r, g);
    var c := CapScales(lib.m, w.Minus(r.vel).Times(k.kv), g.maxAcc);
    t := Part(c, k.kv, g.dt);
    MeanStep(r.vel, w, k.kv, c, g.dt, Acceleration(lib, k, r, g), t);
  }

  lemma MeanStep(v: Vec2, w: Vec2, kv: real, c: real, dt: real, acc: Vec2, t: real)
    requires acc == w.Minus(v).Times(kv).Times(c) && t == c * (kv * dt)
    ensures v.Plus(acc.Times(dt)) == Toward(v, w, t)
  {
    Thrice(w.x - v.x, kv, c, dt);
    Thrice(w.y - v.y, kv, c, dt);
  }

  lemma Part(c: real, kv: real, dt: real) returns (t: real)
    requires 0.0 <= c <= 1.0 && 0.0 <= kv && 0.0 <= dt && kv * dt <= 1.0
    ensures 0.0 <= t <= 1.0 && t == c * (kv * dt)
  {
    var q := Times(kv, dt);
    t := Times(c, q);
    ProductOrder(c, 1.0, q, 1.0);
  }

  lemma Thrice(x: real, kv: real, c: real, dt: real)
    ensures x * kv * c * dt == x * (c * (kv * dt))
  {
  }

  ghost predicate Bounded(lib: Lib, k: Gains, g: Goal, top: real) {
    Limits(g) && k.kv * g.dt <= 1.0 && exists s :: Within(g.vel, s) && g.maxVel + s <= top
  }

  lemma StepKeepsSpeed(lib: Lib, k: Gains, r: Rabbit, g: Goal, top: real)
    requires LawfulLib(lib) && 0.0 <= k.kv && Bounded(lib, k, g, top) && Within(r.vel, top)
    ensures Within(Stepped(lib, k, r, g).vel, top)
  {
    var s :| Within(g.vel, s) && g.maxVel + s <= top;
    ApproachCanBrake(lib, k, r, g);
    PlusWithin(Approach(lib, k, r, g), g.maxVel, g.vel, s);
    WithinWider(Wanted(lib, k, r, g), g.maxVel + s, top);
    var t := StepIsMean(lib, k, r, g);
    TowardWithin(r.vel, Wanted(lib, k, r, g), t, top);
  }

  /** After the leash the point is within reach of the robot and no faster than before. */
  lemma LeashHolds(m: MathLib, r: Rabbit, robot: Vec2, z: real, cruise: real, top: real)
    requires Lawful(m) && cruise > 0.0 && Within(r.vel, top)
    ensures Within(Leashed(m, r, robot, z, cruise).pos.Minus(robot), LeashLength(z))
    ensures Within(Leashed(m, r, robot, z, cruise).vel, top)
  {
    var err := r.pos.Minus(robot);
    assert HypotLaw(m, err);
    if m.Norm(err) > LeashLength(z) {
      CapBound(m, err, LeashLength(z));
      CapKeeps(m, r.vel, cruise, top);
      assert Leashed(m, r, robot, z, cruise).pos.Minus(robot) == Cap(m, err, LeashLength(z));
    } else {
      NormWithin(err, m.Norm(err), LeashLength(z));
    }
  }

  datatype Moment = Moment(goal: Goal, robot: Vec2, z: real)

  function FollowAll(lib: Lib, k: Gains, r: Rabbit, run: seq<Moment>): Rabbit
    decreases |run|
  {
    if run == [] then r
    else
      var h := run[0];
      FollowAll(lib, k, Leashed(lib.m, Stepped(lib, k, r, h.goal), h.robot, h.z, h.goal.maxVel), run[1..])
  }

  ghost predicate AllBounded(lib: Lib, k: Gains, run: seq<Moment>, top: real) {
    forall i :: 0 <= i < |run| ==> Bounded(lib, k, run[i].goal, top)
  }

  /**
   Over any run in which the gain does not overshoot a step, the virtual speed never exceeds the larger
   of the first speed and the largest cruise speed plus target speed; and it ends on the leash.
   */
  lemma {:induction false} RunKeepsSpeed(lib: Lib, k: Gains, r: Rabbit, run: seq<Moment>, top: real)
    requires LawfulLib(lib) && 0.0 <= k.kv && AllBounded(lib, k, run, top) && Within(r.vel, top)
    ensures Within(FollowAll(lib, k, r, run).vel, top)
    ensures run != [] ==>
      Within(FollowAll(lib, k, r, run).pos.Minus(run[|run| - 1].robot), LeashLength(run[|run| - 1].z))
    decreases |run|
  {
    if run != [] {
      var h := run[0];
      assert Bounded(lib, k, h.goal, top);
      var s := Stepped(lib, k, r, h.goal);
      StepKeepsSpeed(lib, k, r, h.goal, top);
      LeashHolds(lib.m, s, h.robot, h.z, h.goal.maxVel, top);
      RunKeepsSpeed(lib, k, Leashed(lib.m, s, h.robot, h.z, h.goal.maxVel), run[1..], top);
    }
  }

  // ---------- the condition on the gain is exact ----------

  ghost predicate KeepsSpeed(lib: Lib, k: Gains, r: Rabbit, g: Goal, top: real) {
    forall s :: Within(g.vel, s) && Within(r.vel, top) && g.maxVel + s <= top ==> Within(Stepped(lib, k, r, g).vel, top)
  }

  ghost predicate AlwaysKeepsSpeed(lib: Lib, k: Gains, dt: real) {
    forall r: Rabbit, g: Goal, top: real :: Limits(g) && g.dt == dt ==> KeepsSpeed(lib, k, r, g, top)
  }

  lemma NormOnAxis(m: MathLib, a: real)
    requires Lawful(m) && a >= 0.0
    ensures m.Norm(Vec2(a, 0.0)) == a
  {
    var v := Vec2(a, 0.0);
    assert HypotLaw(m, v);
    assert v.Sq() == a * a;
    RootOrder(m.Norm(v), a);
    RootOrder(a, m.Norm(v));
  }

  /** A gain that overshoots, with the virtual point on the target and flying against it, gains speed. */
  lemma OvershootGainsSpeed(lib: Lib, k: Gains, dt: real)
    requires LawfulLib(lib) && 0.0 <= k.kv && 0.0 < dt && k.kv * dt > 1.0
    ensures !AlwaysKeepsSpeed(lib, k, dt)
  {
    var q := k.kv * dt;
    var s := 1.0 / (q - 1.0);
    assert s * (q - 1.0) == 1.0 && s > 0.0;
    var top, gap := 1.0 + s, 1.0 + 2.0 * s;
    var r := Rabbit(ZERO, Vec2(-top, 0.0));
    var g := Goal(ZERO, Vec2(s, 0.0), 1.0, Times(k.kv, gap) + 1.0, dt);
    NormOnAxis(lib.m, 0.0);
    assert g.pos.Minus(r.pos) == ZERO && ZERO.Times(k.kp) == ZERO;
    assert Wanted(lib, k, r, g) == Vec2(s, 0.0);
    NormOnAxis(lib.m, Times(k.kv, gap));
    assert Wanted(lib, k, r, g).Minus(r.vel).Times(k.kv) == Vec2(Times(k.kv, gap), 0.0);
    assert Acceleration(lib, k, r, g) == Vec2(Times(k.kv, gap), 0.0);
    var v := Stepped(lib, k, r, g).vel;
    Overshoot(k.kv, dt, q, s, gap);
    assert v == Vec2(top + q, 0.0);
    StrictSquareOrder(top, top + q);
    SquareOrder(top, top);
    assert Within(g.vel, s) && Within(r.vel, top) && !Within(v, top);
    assert !KeepsSpeed(lib, k, r, g, top);
  }

  lemma Overshoot(kv: real, dt: real, q: real, s: real, gap: real)
    requires q == kv * dt && s * (q - 1.0) == 1.0 && gap == 1.0 + 2.0 * s
    ensures Times(kv, gap) * dt == 2.0 * (1.0 + s) + q
  {
    assert Times(kv, gap) * dt == q * gap;
    assert q * gap == q + 2.0 * (s * (q - 1.0)) + 2.0 * s;
  }

  /** The speed bound holds for every state and goal exactly if the gain does not overshoot a step. */
  lemma GainExactly(lib: Lib, k: Gains, dt: real)
    requires LawfulLib(lib) && 0.0 <= k.kv && 0.0 < dt
    ensures AlwaysKeepsSpeed(lib, k, dt) <==> k.kv * dt <= 1.0
  {
    if k.kv * dt <= 1.0 {
      forall r: Rabbit, g: Goal, top: real | Limits(g) && g.dt == dt ensures KeepsSpeed(lib, k, r, g, top) {
        forall s | Within(g.vel, s) && Within(r.vel, top) && g.maxVel + s <= top
          ensures Within(Stepped(lib, k, r, g).vel, top)
        {
          StepKeepsSpeed(lib, k, r, g, top);
        }
      }
    } else {
      OvershootGainsSpeed(lib, k, dt);
    }
  }
}
