/**
 What one tick of the limiter does, in terms of the command alone: towards the capped command, in each
 of its parts, as far as the limits allow; and where many such ticks lead.
 */
module LimiterMeaning {
  import opened Basics
  import opened Planar
  import opened Limiter

  // ---------- orientation ----------

  /** Forward is along the heading, and left is a quarter turn counter-clockwise from it. */
  lemma ForwardIsHeading(m: MathLib, yaw: real)
    ensures IntoWorld(m, Vec2(1.0, 0.0), yaw) == Vec2(m.cos(yaw), m.sin(yaw))
    ensures IntoWorld(m, Vec2(0.0, 1.0), yaw) == Vec2(-m.sin(yaw), m.cos(yaw))
  {
  }

  /** The two frames undo each other. */
  lemma ThereAndBack(m: MathLib, v: Vec2, yaw: real)
    requires Lawful(m)
    ensures IntoBody(m, IntoWorld(m, v, yaw), yaw) == v
    ensures IntoWorld(m, IntoBody(m, v, yaw), yaw) == v
  {
    assert CircleLaw(m, yaw);
    UnitTurn(v.x, v.y, m.cos(yaw), m.sin(yaw));
  }

  lemma UnitTurn(x: real, y: real, c: real, s: real)
    requires s * s + c * c == 1.0
    ensures (x * c - y * s) * c + (x * s + y * c) * s == x
    ensures -(x * c - y * s) * s + (x * s + y * c) * c == y
    ensures (x * c + y * s) * c - (-x * s + y * c) * s == x
    ensures (x * c + y * s) * s + (-x * s + y * c) * c == y
  {
    ByUnit(x, c, s);
    ByUnit(y, c, s);
  }

  lemma ByUnit(x: real, c: real, s: real)
    requires s * s + c * c == 1.0
    ensures x * c * c + x * s * s == x
  {
    assert x * c * c + x * s * s == x * (s * s + c * c);
  }

  // ---------- the climb rate ----------

  /** The commanded climb rate, held to the cap. */
  function HeldZ(t: Tick): real
    requires t.caps.z >= 0.0
  {
    Clamp(t.raw.z, -t.caps.z, t.caps.z)
  }

  function HeldYawRate(t: Tick): real
    requires t.caps.yaw >= 0.0
  {
    Clamp(t.raw.w, -t.caps.yaw, t.caps.yaw)
  }

  /** As far towards `goal` as `step` allows. */
  function Toward1(v: real, goal: real, step: real): (r: real)
    requires step >= 0.0
    ensures goal > v + step ==> r == v + step
    ensures goal < v - step ==> r == v - step
    ensures v - step <= goal <= v + step ==> r == goal
  {
    if goal > v + step then v + step else if goal < v - step then v - step else goal
  }

  /** One tick of jerk reaches the acceleration that goes towards the commanded climb rate. */
  ghost predicate ClimbSlack(cfg: Config, s: State, t: Tick)
    requires Sane(cfg, t)
  {
    Abs(Clamp((HeldZ(t) - s.vel.z) / t.dt, -cfg.maxAccZ, cfg.maxAccZ) - s.accZ) <= Reach(JerkZ(t), t.dt)
  }

  lemma ClimbOfNext(m: MathLib, cfg: Config, s: State, t: Tick)
    requires Sane(cfg, t)
    ensures Next(m, cfg, s, t).accZ == NextAccZ(cfg, t, s)
    ensures Next(m, cfg, s, t).vel.z == s.vel.z + NextAccZ(cfg, t, s) * t.dt
  {
  }

  lemma PartsOfNext(m: MathLib, cfg: Config, s: State, t: Tick)
    requires Sane(cfg, t)
    ensures Next(m, cfg, s, t).vel.w == NextYawRate(cfg, t, s) && Next(m, cfg, s, t).yaw == t.yaw
    ensures var n, v, a := Next(m, cfg, s, t), IntoBody(m, s.vel.xy, t.yaw - s.yaw), IntoBody(m, s.acc, t.yaw - s.yaw);
            n.acc == NextAcc(m, cfg, t, v, a) && n.vel.xy == v.Plus(n.acc.Times(t.dt))
  {
  }

  /** When jerk bites, the climb acceleration makes a full step towards the one that is wanted. */
  lemma ClimbJerkStep(m: MathLib, cfg: Config, s: State, t: Tick)
    requires Sane(cfg, t)
    ensures Next(m, cfg, s, t).accZ ==
      Toward1(s.accZ, Clamp((HeldZ(t) - s.vel.z) / t.dt, -cfg.maxAccZ, cfg.maxAccZ), Reach(JerkZ(t), t.dt))
  {
  }

  lemma ClimbIntegrates(m: MathLib, cfg: Config, s: State, t: Tick)
    requires Sane(cfg, t)
    ensures Next(m, cfg, s, t).vel.z == s.vel.z + Times(Next(m, cfg, s, t).accZ, t.dt)
  {
    IntegrateZ(IntoBody(m, s.vel.xy, t.yaw - s.yaw), Next(m, cfg, s, t).acc, s.vel.z, NextAccZ(cfg, t, s),
               NextYawRate(cfg, t, s), t.yaw, t.dt);
  }

  lemma IntegrateZ(v: Vec2, acc: Vec2, vz: real, accZ: real, w: real, yaw: real, dt: real)
    ensures Integrate(v, acc, vz, accZ, w, yaw, dt).vel.z == vz + Times(accZ, dt)
    ensures Integrate(v, acc, vz, accZ, w, yaw, dt).accZ == accZ
  {
  }

  lemma ClimbAcc(cfg: Config, s: State, t: Tick)
    requires Sane(cfg, t)
    ensures NextAccZ(cfg, t, s) ==
      Toward1(s.accZ, Clamp((HeldZ(t) - s.vel.z) / t.dt, -cfg.maxAccZ, cfg.maxAccZ), Reach(JerkZ(t), t.dt))
  {
    ApproachIsToward(s.accZ, Clamp((HeldZ(t) - s.vel.z) / t.dt, -cfg.maxAccZ, cfg.maxAccZ), Reach(JerkZ(t), t.dt));
  }

  lemma SlackClimb(cfg: Config, s: State, t: Tick)
    requires Sane(cfg, t) && ClimbSlack(cfg, s, t)
    ensures s.vel.z + NextAccZ(cfg, t, s) * t.dt == Toward1(s.vel.z, HeldZ(t), Reach(cfg.maxAccZ, t.dt))
  {
    ClimbAcc(cfg, s, t);
    var want := Clamp((HeldZ(t) - s.vel.z) / t.dt, -cfg.maxAccZ, cfg.maxAccZ);
    assert NextAccZ(cfg, t, s) == want;
    ClampedStep(s.vel.z, HeldZ(t), cfg.maxAccZ, t.dt);
  }

  lemma ApproachIsToward(from: real, target: real, step: real)
    requires step >= 0.0
    ensures Approach(from, target, step) == Toward1(from, target, step)
  {
  }

  /**
   Without jerk in the way the climb rate goes towards the commanded one by as much as the acceleration limit
   allows: it gets there, or it changes by a full step in that direction.
   */
  lemma ClimbMovesToward(m: MathLib, cfg: Config, s: State, t: Tick)
    requires Sane(cfg, t) && ClimbSlack(cfg, s, t)
    ensures Next(m, cfg, s, t).vel.z == Toward1(s.vel.z, HeldZ(t), Reach(cfg.maxAccZ, t.dt))
  {
    ClimbOfNext(m, cfg, s, t);
    SlackClimb(cfg, s, t);
  }

  lemma ClampedStep(v: real, goal: real, a: real, dt: real)
    requires dt > 0.0 && a >= 0.0
    ensures v + Clamp((goal - v) / dt, -a, a) * dt == Toward1(v, goal, Reach(a, dt))
  {
    Scaled(goal - v, a, dt);
  }

  lemma Scaled(d: real, a: real, dt: real)
    requires dt > 0.0 && a >= 0.0
    ensures d > a * dt <==> d / dt > a
    ensures d < -(a * dt) <==> d / dt < -a
    ensures d / dt * dt == d
  {
    var q := d / dt;
    assert q * dt == d;
    assert Times(q - a, dt) == d - a * dt;
    assert Times(a - q, dt) == a * dt - d;
    assert Times(q + a, dt) == d + a * dt;
    assert Times(-a - q, dt) == -(a * dt) - d;
  }

  /** The same as a share of the way: a positive one, and the whole way if that is within reach. */
  lemma ClimbShare(m: MathLib, cfg: Config, s: State, t: Tick) returns (k: real)
    requires Sane(cfg, t) && ClimbSlack(cfg, s, t) && cfg.maxAccZ > 0.0
    ensures 0.0 < k <= 1.0 && Next(m, cfg, s, t).vel.z == s.vel.z + Times(k, HeldZ(t) - s.vel.z)
    ensures Abs(HeldZ(t) - s.vel.z) <= Reach(cfg.maxAccZ, t.dt) ==> k == 1.0
  {
    ClimbMovesToward(m, cfg, s, t);
    assert Times(cfg.maxAccZ, t.dt) > 0.0;
    k := ShareOfStep(s.vel.z, HeldZ(t), Reach(cfg.maxAccZ, t.dt));
  }

  lemma ShareOfStep(v: real, goal: real, step: real) returns (k: real)
    requires step > 0.0
    ensures 0.0 < k <= 1.0 && Toward1(v, goal, step) == v + Times(k, goal - v)
    ensures Abs(goal - v) <= step ==> k == 1.0
  {
    var d := goal - v;
    if Abs(d) <= step {
      k := 1.0;
    } else {
      k := step / Abs(d);
      Ratio(step, Abs(d));
      Divide(Abs(d), k, step);
      assert Times(k, d) == if d < 0.0 then -(k * Abs(d)) else k * Abs(d);
    }
  }

  /** The yaw rate goes towards the commanded one, by as much as its acceleration limit allows, on every tick. */
  lemma YawRateMovesToward(m: MathLib, cfg: Config, s: State, t: Tick)
    requires Sane(cfg, t)
    ensures Next(m, cfg, s, t).vel.w == Toward1(s.vel.w, HeldYawRate(t), Reach(cfg.maxAccYaw, t.dt))
    ensures Next(m, cfg, s, t).yaw == t.yaw
  {
  }

  // ---------- many ticks ----------

  lemma Toward1Twice(v: real, goal: real, a: real, b: real)
    requires a >= 0.0 && b >= 0.0
    ensures Toward1(Toward1(v, goal, a), goal, b) == Toward1(v, goal, a + b)
  {
  }

  lemma Toward1Inside(v: real, goal: real, step: real, c: real)
    requires step >= 0.0 && Abs(v) <= c && Abs(goal) <= c
    ensures Abs(Toward1(v, goal, step)) <= c
  {
  }

  ghost predicate TicksOk(cfg: Config, run: seq<Tick>) {
    forall i :: 0 <= i < |run| ==> Sane(cfg, run[i])
  }

  ghost function AfterTicks(m: MathLib, cfg: Config, s: State, run: seq<Tick>): State
    requires TicksOk(cfg, run)
    decreases |run|
  {
    if run == [] then s
    else
      assert Sane(cfg, run[0]);
      AfterTicks(m, cfg, Next(m, cfg, s, run[0]), run[1..])
  }

  /** `rate` times the time that the run takes. */
  ghost function Span(cfg: Config, run: seq<Tick>, rate: real): (r: real)
    requires TicksOk(cfg, run) && rate >= 0.0
    ensures r >= 0.0
  {
    if run == [] then 0.0
    else
      assert Sane(cfg, run[0]);
      Reach(rate, run[0].dt) + Span(cfg, run[1..], rate)
  }

  ghost predicate ClimbsSlack(m: MathLib, cfg: Config, s: State, run: seq<Tick>)
    requires TicksOk(cfg, run)
    decreases |run|
  {
    run == [] ||
    (assert Sane(cfg, run[0]);
     ClimbSlack(cfg, s, run[0]) && ClimbsSlack(m, cfg, Next(m, cfg, s, run[0]), run[1..]))
  }

  ghost predicate HoldsZ(run: seq<Tick>, z: real) {
    forall i :: 0 <= i < |run| ==> run[i].caps.z >= 0.0 && HeldZ(run[i]) == z
  }

  ghost predicate HoldsYawRate(run: seq<Tick>, w: real) {
    forall i :: 0 <= i < |run| ==> run[i].caps.yaw >= 0.0 && HeldYawRate(run[i]) == w
  }

  /**
   Closed form for any number of slack ticks with one commanded climb rate: it is reached as soon as the limit
   times the elapsed time covers the difference, and kept.
   */
  lemma {:induction false} ClimbReaches(m: MathLib, cfg: Config, s: State, run: seq<Tick>, z: real)
    requires TicksOk(cfg, run) && ClimbsSlack(m, cfg, s, run) && HoldsZ(run, z) && cfg.maxAccZ >= 0.0
    ensures AfterTicks(m, cfg, s, run).vel.z == Toward1(s.vel.z, z, Span(cfg, run, cfg.maxAccZ))
    decreases |run|
  {
    if run != [] {
      assert Sane(cfg, run[0]) && HeldZ(run[0]) == z;
      ClimbMovesToward(m, cfg, s, run[0]);
      ClimbReaches(m, cfg, Next(m, cfg, s, run[0]), run[1..], z);
      Toward1Twice(s.vel.z, z, Reach(cfg.maxAccZ, run[0].dt), Span(cfg, run[1..], cfg.maxAccZ));
    }
  }

  /** And for the yaw rate, on all ticks. */
  lemma {:induction false} YawRateReaches(m: MathLib, cfg: Config, s: State, run: seq<Tick>, w: real)
    requires TicksOk(cfg, run) && HoldsYawRate(run, w) && cfg.maxAccYaw >= 0.0
    ensures AfterTicks(m, cfg, s, run).vel.w == Toward1(s.vel.w, w, Span(cfg, run, cfg.maxAccYaw))
    decreases |run|
  {
    if run != [] {
      assert Sane(cfg, run[0]) && HeldYawRate(run[0]) == w;
      YawRateMovesToward(m, cfg, s, run[0]);
      YawRateReaches(m, cfg, Next(m, cfg, s, run[0]), run[1..], w);
      Toward1Twice(s.vel.w, w, Reach(cfg.maxAccYaw, run[0].dt), Span(cfg, run[1..], cfg.maxAccYaw));
    }
  }

  ghost predicate ClimbCapped(run: seq<Tick>, c: real) {
    forall i :: 0 <= i < |run| ==> 0.0 <= run[i].caps.z <= c
  }

  /** Whatever is commanded, a climb rate inside the cap stays inside it. */
  lemma {:induction false} ClimbStaysInside(m: MathLib, cfg: Config, s: State, run: seq<Tick>, c: real)
    requires TicksOk(cfg, run) && ClimbsSlack(m, cfg, s, run) && ClimbCapped(run, c) && Abs(s.vel.z) <= c
    ensures Abs(AfterTicks(m, cfg, s, run).vel.z) <= c
    decreases |run|
  {
    if run != [] {
      assert Sane(cfg, run[0]) && 0.0 <= run[0].caps.z <= c;
      ClimbMovesToward(m, cfg, s, run[0]);
      Toward1Inside(s.vel.z, HeldZ(run[0]), Reach(cfg.maxAccZ, run[0].dt), c);
      ClimbStaysInside(m, cfg, Next(m, cfg, s, run[0]), run[1..], c);
    }
  }

  // ---------- the planar velocity ----------

  /** `k` is the share of a length `n` that is left when lengths above `top` are cut to `limit`. */
  ghost predicate ShareOf(k: real, n: real, top: real, limit: real) {
    0.0 <= k <= 1.0 && (n <= top ==> k == 1.0) && (n > top ==> Times(k, n) == limit)
  }

  /** The planar target is the raw command, shortened to the cap and no further. */
  lemma TargetIsCappedCommand(m: MathLib, t: Tick) returns (k: real)
    requires Lawful(m) && t.caps.xy >= 0.0
    ensures TargetXY(m, t) == t.raw.xy.Times(k)
    ensures ShareOf(k, m.Norm(t.raw.xy), Max(t.caps.xy, SPEED_EPS), t.caps.xy)
  {
    assert HypotLaw(m, t.raw.xy);
    k := CapShare(t.raw.xy, t.caps.xy, SPEED_EPS, m.Norm(t.raw.xy));
  }

  lemma CapShare(v: Vec2, limit: real, eps: real, r: real) returns (k: real)
    requires IsNorm(v, r) && 0.0 <= limit && 0.0 < eps
    ensures Saturate(v, limit, eps, r) == v.Times(k) && ShareOf(k, r, Max(limit, eps), limit)
  {
    if r > limit && r > eps {
      k := SaturateShrinks(v, limit, eps, r);
    } else {
      k := 1.0;
      assert v.Times(1.0) == v;
    }
  }

  /** The limit for going from `v` towards the target: that for braking if the way there leads back. */
  function LimitToward(m: MathLib, cfg: Config, t: Tick, v: Vec2): real {
    if m.Norm(v) > 0.01 && v.Dot(TargetXY(m, t).Minus(v)) < 0.0
    then t.over.decelXY.GetOr(cfg.maxDecelXY) else t.over.accXY.GetOr(cfg.maxAccXY)
  }

  lemma SignOfWay(m: MathLib, cfg: Config, t: Tick, v: Vec2)
    requires t.dt > 0.0
    ensures AccLimit(m, cfg, t, v) == LimitToward(m, cfg, t, v)
    ensures WantedXY(m, t, v).Times(t.dt) == TargetXY(m, t).Minus(v)
  {
    var d := TargetXY(m, t).Minus(v);
    DotOver(v, d, t.dt);
    assert d.x / t.dt * t.dt == d.x && d.y / t.dt * t.dt == d.y;
  }

  lemma DotOver(v: Vec2, d: Vec2, dt: real)
    requires dt > 0.0
    ensures v.Dot(Vec2(d.x / dt, d.y / dt)) < 0.0 <==> v.Dot(d) < 0.0
  {
    var q := v.Dot(Vec2(d.x / dt, d.y / dt));
    assert v.x * (d.x / dt) * dt == v.x * d.x && v.y * (d.y / dt) * dt == v.y * d.y;
    assert q * dt == v.Dot(d);
    assert Times(-q, dt) == -v.Dot(d) && Times(q, dt) == v.Dot(d);
  }

  /**
   Without jerk in the way the velocity goes straight towards the target: all the way, if the limit that applies
   (or 1e-6) covers it in one tick, and otherwise by exactly that limit times the period.
   */
  lemma SlackTickExactly(m: MathLib, cfg: Config, s: State, t: Tick) returns (k: real)
    requires Lawful(m) && Sane(cfg, t) && JerkSlack(m, cfg, s, t)
    requires 0.0 <= t.over.accXY.GetOr(cfg.maxAccXY) && 0.0 <= t.over.decelXY.GetOr(cfg.maxDecelXY)
    ensures var v := IntoBody(m, s.vel.xy, t.yaw - s.yaw);
            var way, limit := TargetXY(m, t).Minus(v), LimitToward(m, cfg, t, v);
            Next(m, cfg, s, t).vel.xy == v.Plus(way.Times(k))
            && ShareOf(k, m.Norm(way), Times(Max(limit, ACC_EPS), t.dt), Times(limit, t.dt))
  {
    var v, a := IntoBody(m, s.vel.xy, t.yaw - s.yaw), IntoBody(m, s.acc, t.yaw - s.yaw);
    k := SlackPlane(m, cfg, t, v, a);
    PartsOfNext(m, cfg, s, t);
  }

  lemma SlackPlane(m: MathLib, cfg: Config, t: Tick, v: Vec2, a: Vec2) returns (k: real)
    requires Lawful(m) && Sane(cfg, t) && m.Norm(CappedXY(m, cfg, t, v).Minus(a)) <= Reach(JerkXY(t), t.dt)
    requires 0.0 <= t.over.accXY.GetOr(cfg.maxAccXY) && 0.0 <= t.over.decelXY.GetOr(cfg.maxDecelXY)
    ensures var way, limit := TargetXY(m, t).Minus(v), LimitToward(m, cfg, t, v);
            v.Plus(NextAcc(m, cfg, t, v, a).Times(t.dt)) == v.Plus(way.Times(k))
            && ShareOf(k, m.Norm(way), Times(Max(limit, ACC_EPS), t.dt), Times(limit, t.dt))
  {
    k := CappedLeadsToTarget(m, cfg, t, v);
    SlackAcc(m, cfg, t, v, a);
  }

  lemma SlackAcc(m: MathLib, cfg: Config, t: Tick, v: Vec2, a: Vec2)
    requires Sane(cfg, t) && m.Norm(CappedXY(m, cfg, t, v).Minus(a)) <= Reach(JerkXY(t), t.dt)
    ensures NextAcc(m, cfg, t, v, a) == CappedXY(m, cfg, t, v)
  {
    assert a.Plus(CappedXY(m, cfg, t, v).Minus(a)) == CappedXY(m, cfg, t, v);
  }

  lemma NormOfTimes(w: Vec2, n: real, way: Vec2, r: real, dt: real)
    requires dt > 0.0 && IsNorm(w, n) && IsNorm(way, r) && w.Times(dt) == way
    ensures r == n * dt
  {
    TimesSq(w, dt);
    assert Times(n, dt) >= 0.0;
    ProductSq(n, dt, n * dt);
    RootOrder(r, n * dt);
    RootOrder(n * dt, r);
  }

  lemma OverPeriod(n: real, r: real, limit: real, dt: real)
    requires dt > 0.0 && r == n * dt && limit >= 0.0
    ensures r <= limit * dt <==> n <= limit
  {
    assert Times(limit - n, dt) == limit * dt - r;
    assert Times(n - limit, dt) == r - limit * dt;
  }

  /** When jerk bites, the acceleration goes straight towards the capped one, by exactly one tick of jerk. */
  lemma JerkStepExactly(m: MathLib, cfg: Config, s: State, t: Tick) returns (k: real)
    requires Lawful(m) && Sane(cfg, t)
    ensures var v, a := IntoBody(m, s.vel.xy, t.yaw - s.yaw), IntoBody(m, s.acc, t.yaw - s.yaw);
            var way, reach := CappedXY(m, cfg, t, v).Minus(a), Reach(JerkXY(t), t.dt);
            Next(m, cfg, s, t).acc == a.Plus(way.Times(k))
            && Next(m, cfg, s, t).vel.xy == v.Plus(Next(m, cfg, s, t).acc.Times(t.dt))
            && ShareOf(k, m.Norm(way), Max(reach, ACC_EPS), reach)
  {
    var v, a := IntoBody(m, s.vel.xy, t.yaw - s.yaw), IntoBody(m, s.acc, t.yaw - s.yaw);
    k := JerkShare(m, cfg, t, v, a);
    PartsOfNext(m, cfg, s, t);
  }

  lemma JerkShare(m: MathLib, cfg: Config, t: Tick, v: Vec2, a: Vec2) returns (k: real)
    requires Lawful(m) && Sane(cfg, t)
    ensures var way, reach := CappedXY(m, cfg, t, v).Minus(a), Reach(JerkXY(t), t.dt);
            NextAcc(m, cfg, t, v, a) == a.Plus(way.Times(k))
            && ShareOf(k, m.Norm(way), Max(reach, ACC_EPS), reach)
  {
    var way := CappedXY(m, cfg, t, v).Minus(a);
    assert HypotLaw(m, way);
    k := CapShare(way, Reach(JerkXY(t), t.dt), ACC_EPS, m.Norm(way));
  }

  /** The capped acceleration leads straight to the target, in one tick if the limit that applies (or 1e-6) allows. */
  lemma CappedLeadsToTarget(m: MathLib, cfg: Config, t: Tick, v: Vec2) returns (k: real)
    requires Lawful(m) && t.dt > 0.0 && 0.0 <= LimitToward(m, cfg, t, v)
    ensures var way, limit := TargetXY(m, t).Minus(v), LimitToward(m, cfg, t, v);
            CappedXY(m, cfg, t, v).Times(t.dt) == way.Times(k)
            && ShareOf(k, m.Norm(way), Times(Max(limit, ACC_EPS), t.dt), Times(limit, t.dt))
  {
    var way, w, limit := TargetXY(m, t).Minus(v), WantedXY(m, t, v), LimitToward(m, cfg, t, v);
    SignOfWay(m, cfg, t, v);
    assert HypotLaw(m, w) && HypotLaw(m, way);
    k := CapShare(w, limit, ACC_EPS, m.Norm(w));
    NormOfTimes(w, m.Norm(w), way, m.Norm(way), t.dt);
    SwapTimes(w, k, t.dt);
    ShareOverPeriod(k, m.Norm(w), m.Norm(way), Max(limit, ACC_EPS), limit, t.dt);
  }

  lemma SwapTimes(w: Vec2, k: real, dt: real)
    ensures w.Times(k).Times(dt) == w.Times(dt).Times(k)
  {
    assert w.x * k * dt == w.x * dt * k && w.y * k * dt == w.y * dt * k;
  }

  lemma ShareOverPeriod(k: real, n: real, r: real, top: real, limit: real, dt: real)
    requires dt > 0.0 && r == n * dt && top >= 0.0 && ShareOf(k, n, top, limit)
    ensures ShareOf(k, r, Times(top, dt), Times(limit, dt))
  {
    OverPeriod(n, r, top, dt);
    assert Times(k, r) == Times(Times(k, n), dt);
  }
}
