/**
 Where the virtual point of a landing goes: along its velocity, towards its target, and no further from the
 robot than the leash, on the side where it was.
 */
module TrajectoryMeaning {
  import opened Basics
  import opened Planar
  import opened LimiterMeaning
  import opened Trajectory

  // ---------- one step ----------

  /** Over a step the point moves by the mean of its velocities before and after, times the period. */
  lemma StepMovesByMeanVelocity(lib: Lib, k: Gains, r: Rabbit, g: Goal)
    ensures var n := Stepped(lib, k, r, g);
            && 2.0 * (n.pos.x - r.pos.x) == Times(g.dt, r.vel.x + n.vel.x)
            && 2.0 * (n.pos.y - r.pos.y) == Times(g.dt, r.vel.y + n.vel.y)
  {
    MeanOf(r.pos, r.vel, Acceleration(lib, k, r, g), g.dt);
  }

  lemma MeanOf(p: Vec2, v: Vec2, a: Vec2, dt: real)
    ensures var q, w := p.Plus(v.Times(dt)).Plus(a.Times(HalfSquare(dt))), v.Plus(a.Times(dt));
            2.0 * (q.x - p.x) == Times(dt, v.x + w.x) && 2.0 * (q.y - p.y) == Times(dt, v.y + w.y)
  {
    Trapezoid(p.x, v.x, a.x, dt);
    Trapezoid(p.y, v.y, a.y, dt);
  }

  lemma Trapezoid(p: real, v: real, a: real, dt: real)
    ensures 2.0 * (p + v * dt + a * HalfSquare(dt) - p) == Times(dt, v + (v + a * dt))
  {
    assert 2.0 * (a * (0.5 * dt * dt)) == dt * (a * dt);
    assert dt * (v + (v + a * dt)) == 2.0 * (v * dt) + dt * (a * dt);
  }

  /** A cap takes a share of a vector. */
  lemma CapTakes(m: MathLib, v: Vec2, limit: real) returns (c: real)
    requires Lawful(m) && limit > 0.0
    ensures Cap(m, v, limit) == v.Times(c) && ShareOf(c, m.Norm(v), limit, limit) && c > 0.0
  {
    assert HypotLaw(m, v);
    c := CapShare(v, limit, limit, m.Norm(v));
    if m.Norm(v) > limit {
      Divide(m.Norm(v), c, limit);
    }
  }

  /** The approach velocity points to the target: it is a share of `kp` times the way there, never none. */
  lemma ApproachPointsToTarget(lib: Lib, k: Gains, r: Rabbit, g: Goal) returns (c: real)
    requires LawfulLib(lib) && Limits(g)
    ensures 0.0 < c <= 1.0 && Approach(lib, k, r, g) == g.pos.Minus(r.pos).Times(k.kp).Times(c)
    ensures k.kp >= 0.0 ==> Approach(lib, k, r, g).Dot(g.pos.Minus(r.pos)) >= 0.0
    ensures k.kp > 0.0 && g.pos != r.pos ==> Approach(lib, k, r, g).Dot(g.pos.Minus(r.pos)) > 0.0
  {
    var err := g.pos.Minus(r.pos);
    var want := err.Times(k.kp);
    c := CapTakes(lib.m, want, g.maxVel);
    if lib.m.Norm(err) > 0.01 {
      BrakeVelPositive(lib, g, lib.m.Norm(err));
      var b := CapTakes(lib.m, want.Times(c), BrakeVel(lib, g, lib.m.Norm(err)));
      TwiceTimes(want, c, b);
      assert Times(c, b) > 0.0 && Times(c, 1.0 - b) >= 0.0 && Times(c, b) == c - Times(c, 1.0 - b);
      c := Times(c, b);
    }
    DotOfTimes(err, k.kp, c);
    if g.pos != r.pos { SqPositive(err); }
  }

  lemma TwiceTimes(v: Vec2, a: real, b: real)
    ensures v.Times(a).Times(b) == v.Times(Times(a, b))
  {
    assert v.x * a * b == v.x * (a * b) && v.y * a * b == v.y * (a * b);
  }

  lemma DotOfTimes(e: Vec2, kp: real, c: real)
    requires c > 0.0
    ensures e.Times(kp).Times(c).Dot(e) == Times(Times(kp, c), e.Sq())
    ensures kp >= 0.0 ==> Times(Times(kp, c), e.Sq()) >= 0.0
    ensures kp > 0.0 && e.Sq() > 0.0 ==> Times(Times(kp, c), e.Sq()) > 0.0
  {
    assert e.x * kp * c * e.x == kp * c * (e.x * e.x);
    assert e.y * kp * c * e.y == kp * c * (e.y * e.y);
  }

  lemma SqPositive(e: Vec2)
    requires e != ZERO
    ensures e.Sq() > 0.0
  {
    assert Square(e.x) == e.x * e.x && Square(e.y) == e.y * e.y;
  }

  /** Near the target and under the cruise speed nothing is cut: the approach is `kp` times the way. */
  lemma GentleApproach(lib: Lib, k: Gains, r: Rabbit, g: Goal)
    requires LawfulLib(lib) && Limits(g) && lib.m.Norm(g.pos.Minus(r.pos)) <= 0.01
    requires lib.m.Norm(g.pos.Minus(r.pos).Times(k.kp)) <= g.maxVel
    ensures Approach(lib, k, r, g) == g.pos.Minus(r.pos).Times(k.kp)
  {
  }

  /** The acceleration is a share of `kv` times what the velocity lacks of the target's velocity plus the approach. */
  lemma AcceleratesToWanted(lib: Lib, k: Gains, r: Rabbit, g: Goal) returns (c: real)
    requires LawfulLib(lib) && Limits(g)
    ensures 0.0 < c <= 1.0
    ensures var lacks := g.vel.Plus(Approach(lib, k, r, g)).Minus(r.vel);
            && Stepped(lib, k, r, g).vel.Minus(r.vel) == lacks.Times(k.kv).Times(c).Times(g.dt)
            && ShareOf(c, lib.m.Norm(lacks.Times(k.kv)), g.maxAcc, g.maxAcc)
  {
    var lacks := g.vel.Plus(Approach(lib, k, r, g)).Minus(r.vel);
    assert Wanted(lib, k, r, g).Minus(r.vel) == lacks;
    c := CapTakes(lib.m, lacks.Times(k.kv), g.maxAcc);
    assert Acceleration(lib, k, r, g) == lacks.Times(k.kv).Times(c);
    AddThenTake(r.vel, Acceleration(lib, k, r, g).Times(g.dt));
  }

  lemma AddThenTake(v: Vec2, d: Vec2)
    ensures v.Plus(d).Minus(v) == d
  {
  }

  /** On the target and as fast as it, the point rides with it. */
  lemma RidesWithTarget(lib: Lib, k: Gains, r: Rabbit, g: Goal)
    requires LawfulLib(lib) && Limits(g) && r == Rabbit(g.pos, g.vel)
    ensures Stepped(lib, k, r, g).vel == g.vel
    ensures Stepped(lib, k, r, g).pos == g.pos.Plus(g.vel.Times(g.dt))
  {
  }

  // ---------- many steps ----------

  ghost predicate AllLimits(run: seq<Goal>) {
    forall i :: 0 <= i < |run| ==> Limits(run[i])
  }

  function StepAll(lib: Lib, k: Gains, r: Rabbit, run: seq<Goal>): Rabbit
    decreases |run|
  {
    if run == [] then r else StepAll(lib, k, Stepped(lib, k, r, run[0]), run[1..])
  }

  /** The period times the sum of the velocities before and after, over all steps. */
  function VelocitySum(lib: Lib, k: Gains, r: Rabbit, run: seq<Goal>): Vec2
    decreases |run|
  {
    if run == [] then ZERO
    else
      var n := Stepped(lib, k, r, run[0]);
      Vec2(Times(run[0].dt, r.vel.x + n.vel.x), Times(run[0].dt, r.vel.y + n.vel.y)).Plus(VelocitySum(lib, k, n, run[1..]))
  }

  /** Without the leash the displacement is the sum of the mean velocities, each times its period. */
  lemma {:induction false} DisplacementIsVelocitySum(lib: Lib, k: Gains, r: Rabbit, run: seq<Goal>)
    ensures var n, sum := StepAll(lib, k, r, run), VelocitySum(lib, k, r, run);
            2.0 * (n.pos.x - r.pos.x) == sum.x && 2.0 * (n.pos.y - r.pos.y) == sum.y
    decreases |run|
  {
    if run != [] {
      StepMovesByMeanVelocity(lib, k, r, run[0]);
      DisplacementIsVelocitySum(lib, k, Stepped(lib, k, r, run[0]), run[1..]);
    }
  }

  function TimeOf(run: seq<Goal>): real {
    if run == [] then 0.0 else run[0].dt + TimeOf(run[1..])
  }

  /** And at most the top speed times the elapsed time, for a gain that does not overshoot. */
  lemma {:induction false} DisplacementIsBounded(lib: Lib, k: Gains, r: Rabbit, run: seq<Goal>, top: real)
    requires LawfulLib(lib) && 0.0 <= k.kv && Within(r.vel, top)
    requires forall i :: 0 <= i < |run| ==> Bounded(lib, k, run[i], top)
    ensures TimeOf(run) >= 0.0 && Within(StepAll(lib, k, r, run).vel, top)
    ensures Within(StepAll(lib, k, r, run).pos.Minus(r.pos), Times(top, TimeOf(run)))
    decreases |run|
  {
    if run == [] {
      assert r.pos.Minus(r.pos) == ZERO;
      assert ZERO.Sq() == 0.0;
    } else {
      var g, n := run[0], Stepped(lib, k, r, run[0]);
      assert Bounded(lib, k, g, top);
      StepKeepsSpeed(lib, k, r, g, top);
      StepIsBounded(lib, k, r, g, top);
      DisplacementIsBounded(lib, k, n, run[1..], top);
      var end := StepAll(lib, k, n, run[1..]);
      PlusWithin(n.pos.Minus(r.pos), Times(top, g.dt), end.pos.Minus(n.pos), Times(top, TimeOf(run[1..])));
      assert n.pos.Minus(r.pos).Plus(end.pos.Minus(n.pos)) == end.pos.Minus(r.pos);
      assert Times(top, g.dt) + Times(top, TimeOf(run[1..])) == Times(top, TimeOf(run));
    }
  }

  lemma StepIsBounded(lib: Lib, k: Gains, r: Rabbit, g: Goal, top: real)
    requires Within(r.vel, top) && Within(Stepped(lib, k, r, g).vel, top) && g.dt >= 0.0
    ensures Within(Stepped(lib, k, r, g).pos.Minus(r.pos), Times(top, g.dt))
  {
    var n := Stepped(lib, k, r, g);
    StepMovesByMeanVelocity(lib, k, r, g);
    PlusWithin(r.vel, top, n.vel, top);
    TimesWithin(r.vel.Plus(n.vel), 0.5 * g.dt, 2.0 * top, 0.5 * g.dt * (2.0 * top));
    HalfSum(r.vel.x, n.vel.x, n.pos.x - r.pos.x, g.dt);
    HalfSum(r.vel.y, n.vel.y, n.pos.y - r.pos.y, g.dt);
    assert n.pos.Minus(r.pos) == r.vel.Plus(n.vel).Times(0.5 * g.dt);
    assert 0.5 * g.dt * (2.0 * top) == Times(top, g.dt);
  }

  lemma HalfSum(v: real, w: real, d: real, dt: real)
    requires 2.0 * d == Times(dt, v + w)
    ensures d == (v + w) * (0.5 * dt)
  {
  }

  // ---------- the leash ----------

  /** Up to 6 m the leash is 2 m long, and from there 1 m and a sixth of the height. */
  lemma LeashLengthExactly(z: real)
    ensures LeashLength(z) == if z <= 6.0 then 2.0 else 1.0 + z / 6.0
  {
  }

  /** The leash pulls the point straight to the robot, to its own length and no further, and cuts the speed to the cruise speed; a short one is left alone. */
  lemma LeashPullsStraight(m: MathLib, r: Rabbit, robot: Vec2, z: real, cruise: real) returns (c: real, d: real)
    requires Lawful(m) && cruise > 0.0
    ensures var n, off := Leashed(m, r, robot, z, cruise), r.pos.Minus(robot);
            && n.pos == robot.Plus(off.Times(c)) && ShareOf(c, m.Norm(off), LeashLength(z), LeashLength(z))
            && n.vel == r.vel.Times(d)
            && (if m.Norm(off) > LeashLength(z) then ShareOf(d, m.Norm(r.vel), cruise, cruise) else d == 1.0 && n == r)
  {
    var off := r.pos.Minus(robot);
    assert HypotLaw(m, off);
    if m.Norm(off) > LeashLength(z) {
      c := CapTakes(m, off, LeashLength(z));
      d := CapTakes(m, r.vel, cruise);
    } else {
      c, d := 1.0, 1.0;
      assert off.Times(1.0) == off && r.vel.Times(1.0) == r.vel && robot.Plus(off) == r.pos;
    }
  }
}
