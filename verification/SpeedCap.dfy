/**
 Exactly when the limiter keeps its speed cap. One direction is a property of every tick; for the
 other a run from rest is steered, under limits that never change, to where the jerk limit bites.
 */
module SpeedCap {
  import opened Basics
  import opened Planar
  import opened Limiter

  // ---------- exactly when the cap is kept ----------

  /** Limits that stay the same: `A` bounds every acceleration, `J` is the jerk limit, `dt` the period. */
  datatype Setting = Setting(A: real, J: real, dt: real) {
    ghost predicate Ok() { A >= ACC_EPS && J >= 0.0 && dt > 0.0 }

    /** What one tick may change an acceleration by. */
    function Jump(): real
      requires J >= 0.0 && dt > 0.0
    {
      Max(Reach(J, dt), ACC_EPS)
    }
  }

  ghost predicate Under(cfg: Config, t: Tick, g: Setting, V: real) {
    Sane(cfg, t) && AccBound(cfg, t, g.A) && JerkXY(t) == g.J && t.dt == g.dt && t.caps.xy == V
  }

  ghost predicate TickKeepsCap(m: MathLib, cfg: Config, s: State, t: Tick, g: Setting, V: real) {
    Under(cfg, t, g, V) && Within(s.acc, g.A) && Within(s.vel.xy, V) ==> Within(Next(m, cfg, s, t).vel.xy, V)
  }

  /** Every tick keeps every state inside every cap. */
  ghost predicate CapIsKept(m: MathLib, g: Setting) {
    forall cfg: Config, s: State, t: Tick, V: real :: V >= SPEED_EPS ==> TickKeepsCap(m, cfg, s, t, g, V)
  }

  ghost predicate RunUnder(cfg: Config, run: seq<Move>, g: Setting, V: real) {
    forall i :: 0 <= i < |run| ==> MoveUnder(cfg, run[i], g, V)
  }

  ghost predicate MoveUnder(cfg: Config, mv: Move, g: Setting, V: real) {
    mv.Drive? ==> Under(cfg, mv.t, g, V)
  }

  lemma UnderIsDrivable(cfg: Config, run: seq<Move>, g: Setting, V: real)
    requires RunUnder(cfg, run, g, V)
    ensures Drivable(cfg, run, g.A)
  {
    forall i | 0 <= i < |run| ensures MoveOk(cfg, run[i], g.A) {
      assert MoveUnder(cfg, run[i], g, V);
    }
  }

  ghost predicate RunKeepsCap(m: MathLib, cfg: Config, yaw: real, run: seq<Move>, g: Setting, V: real) {
    RunUnder(cfg, run, g, V) ==>
      Drivable(cfg, run, g.A) && Within(After(m, cfg, Rest(yaw), run, g.A).vel.xy, V)
  }

  /** Every run from rest under one cap ends inside it. */
  ghost predicate CapIsKeptFromRest(m: MathLib, g: Setting) {
    forall cfg: Config, yaw: real, run: seq<Move>, V: real :: V >= SPEED_EPS ==> RunKeepsCap(m, cfg, yaw, run, g, V)
  }

  /** Enough jerk keeps the cap on every tick. */
  lemma WideJerkKeepsCap(m: MathLib, g: Setting)
    requires Lawful(m) && g.Ok() && Reach(g.J, g.dt) >= 2.0 * g.A
    ensures CapIsKept(m, g)
  {
    forall cfg: Config, s: State, t: Tick, V: real | V >= SPEED_EPS ensures TickKeepsCap(m, cfg, s, t, g, V) {
      if Under(cfg, t, g, V) && Within(s.acc, g.A) && Within(s.vel.xy, V) {
        TargetWithin(m, t, V);
        WideJerkIsSlack(m, cfg, s, t, g.A);
        SlackTickKeepsSpeed(m, cfg, s, t, V);
      }
    }
  }

  lemma {:induction false} TicksKeepRuns(m: MathLib, cfg: Config, s: State, run: seq<Move>, g: Setting, V: real)
    requires Lawful(m) && g.Ok() && CapIsKept(m, g) && V >= SPEED_EPS && RunUnder(cfg, run, g, V)
    requires Within(s.acc, g.A) && Within(s.vel.xy, V)
    ensures Drivable(cfg, run, g.A) && Within(After(m, cfg, s, run, g.A).vel.xy, V)
    decreases |run|
  {
    UnderIsDrivable(cfg, run, g, V);
    if run != [] {
      var mv := run[0];
      assert MoveUnder(cfg, mv, g, V) && MoveOk(cfg, mv, g.A);
      assert forall i :: 0 <= i < |run| - 1 ==> run[1..][i] == run[i + 1];
      if mv.Drive? {
        assert TickKeepsCap(m, cfg, s, mv.t, g, V);
        TickInWorld(m, cfg, s, mv.t, g.A);
      } else {
        RestIsInside(g.A, V);
      }
      TicksKeepRuns(m, cfg, Apply(m, cfg, s, mv), run[1..], g, V);
    }
  }

  lemma RestIsInside(A: real, V: real)
    requires A >= 0.0 && V >= 0.0
    ensures Within(ZERO, A) && Within(ZERO, V)
  {
    assert 0.0 <= A * A;
    assert 0.0 <= V * V;
  }

  // ---------- a run from rest that leaves its cap ----------

  /** Straight and level motion at heading zero. */
  function Level(v: Vec2, a: Vec2): State { State(Cmd(v, 0.0, 0.0), a, 0.0, 0.0) }

  function PlainConfig(g: Setting): Config { Config(g.A, g.A, 0.0, 0.0) }

  function LevelTick(g: Setting, raw: Vec2, V: real): Tick {
    Tick(Cmd(raw, 0.0, 0.0), SpeedCaps(V, 0.0, 0.0), Overrides(None, None, Some(g.J), None), 0.0, g.dt)
  }

  lemma LevelUnder(g: Setting, raw: Vec2, V: real)
    requires g.Ok() && V >= 0.0
    ensures Under(PlainConfig(g), LevelTick(g, raw, V), g, V)
  {
  }

  lemma LevelNext(m: MathLib, g: Setting, v: Vec2, a: Vec2, raw: Vec2, V: real)
    requires Lawful(m) && g.Ok() && V >= 0.0
    ensures Sane(PlainConfig(g), LevelTick(g, raw, V))
    ensures var a' := NextAcc(m, PlainConfig(g), LevelTick(g, raw, V), v, a);
            Next(m, PlainConfig(g), Level(v, a), LevelTick(g, raw, V)) == Level(v.Plus(a'.Times(g.dt)), a')
  {
    var s, t := Level(v, a), LevelTick(g, raw, V);
    NoTurn(m, v);
    NoTurn(m, a);
    assert NextAccZ(PlainConfig(g), t, s) == 0.0;
    assert NextYawRate(PlainConfig(g), t, s) == 0.0;
    assert Reach(0.0, g.dt) == 0.0;
  }

  /** A command inside the cap asks for its acceleration. */
  lemma LevelDemand(m: MathLib, g: Setting, v: Vec2, w: Vec2, V: real)
    requires Lawful(m) && g.Ok() && Within(w, g.A) && Within(v.Plus(w.Times(g.dt)), V)
    ensures CappedXY(m, PlainConfig(g), LevelTick(g, v.Plus(w.Times(g.dt)), V), v) == w
  {
    var raw := v.Plus(w.Times(g.dt));
    var t := LevelTick(g, raw, V);
    assert HypotLaw(m, raw) && HypotLaw(m, w);
    NormWithin(raw, m.Norm(raw), V);
    NormWithin(w, m.Norm(w), g.A);
    assert TargetXY(m, t) == raw;
    BackAgain(v.x, w.x, g.dt);
    BackAgain(v.y, w.y, g.dt);
    assert WantedXY(m, t, v) == w;
  }

  lemma BackAgain(v: real, w: real, dt: real)
    requires dt > 0.0
    ensures (v + w * dt - v) / dt == w
  {
    var d := w * dt;
    assert d / dt == w;
  }

  /** Any acceleration within one jump of the last one, and any speed inside the cap, is one tick away. */
  lemma Steer(m: MathLib, g: Setting, v: Vec2, a: Vec2, w: Vec2, V: real)
    requires Lawful(m) && g.Ok() && V >= 0.0
    requires Within(w, g.A) && Within(w.Minus(a), g.Jump()) && Within(v.Plus(w.Times(g.dt)), V)
    ensures Sane(PlainConfig(g), LevelTick(g, v.Plus(w.Times(g.dt)), V))
    ensures Next(m, PlainConfig(g), Level(v, a), LevelTick(g, v.Plus(w.Times(g.dt)), V)) == Level(v.Plus(w.Times(g.dt)), w)
  {
    var raw := v.Plus(w.Times(g.dt));
    LevelNext(m, g, v, a, raw, V);
    LevelDemand(m, g, v, w, V);
    assert HypotLaw(m, w.Minus(a));
    NormWithin(w.Minus(a), m.Norm(w.Minus(a)), g.Jump());
    assert a.Plus(w.Minus(a)) == w;
  }

  lemma OnAxis(x: real, r: real)
    requires 0.0 <= x <= r
    ensures Within(Vec2(x, 0.0), r)
  {
    SquareOrder(x, r);
    assert Vec2(x, 0.0).Sq() == x * x;
  }

  /** Accelerations along the axis, one jump at a time up to the limit. */
  function RampAcc(g: Setting, n: nat): real
    requires g.Ok()
  {
    Min(g.A, n as real * g.Jump())
  }

  function RampVel(g: Setting, n: nat): (x: real)
    requires g.Ok()
    ensures x >= 0.0
  {
    if n == 0 then 0.0 else RampVel(g, n - 1) + Times(RampAcc(g, n), g.dt)
  }

  /** The moves of the ramp, under the cap `V`. */
  function Ramp(g: Setting, n: nat, V: real): seq<Move>
    requires g.Ok()
  {
    if n == 0 then [] else Ramp(g, n - 1, V) + [Drive(LevelTick(g, Vec2(RampVel(g, n), 0.0), V))]
  }

  lemma {:induction false} AfterOneMore(m: MathLib, cfg: Config, s: State, run: seq<Move>, mv: Move, A: real)
    requires Drivable(cfg, run, A) && MoveOk(cfg, mv, A)
    ensures Drivable(cfg, run + [mv], A)
    ensures After(m, cfg, s, run + [mv], A) == Apply(m, cfg, After(m, cfg, s, run, A), mv)
    decreases |run|
  {
    var more := run + [mv];
    forall i | 0 <= i < |more| ensures MoveOk(cfg, more[i], A) {
      assert i < |run| ==> MoveOk(cfg, run[i], A);
    }
    if run == [] {
      assert more == [mv] && more[1..] == [];
    } else {
      assert more[1..] == run[1..] + [mv];
      assert MoveOk(cfg, run[0], A);
      assert forall i :: 0 <= i < |run| - 1 ==> run[1..][i] == run[i + 1];
      AfterOneMore(m, cfg, Apply(m, cfg, s, run[0]), run[1..], mv, A);
    }
  }

  /** A run from rest to `Level(v, a)`, all of it under the cap `V`. */
  ghost predicate Reaches(m: MathLib, g: Setting, run: seq<Move>, V: real, v: Vec2, a: Vec2)
    requires g.Ok()
  {
    && RunUnder(PlainConfig(g), run, g, V) && Drivable(PlainConfig(g), run, g.A)
    && After(m, PlainConfig(g), Rest(0.0), run, g.A) == Level(v, a)
  }

  lemma UnderOneMore(cfg: Config, run: seq<Move>, mv: Move, g: Setting, V: real)
    requires RunUnder(cfg, run, g, V) && MoveUnder(cfg, mv, g, V)
    ensures RunUnder(cfg, run + [mv], g, V)
  {
    var more := run + [mv];
    forall i | 0 <= i < |more| ensures MoveUnder(cfg, more[i], g, V) {
      assert i < |run| ==> MoveUnder(cfg, run[i], g, V);
    }
  }

  /** One tick more, with whatever the limiter makes of the raw command. */
  lemma ReachesNext(m: MathLib, g: Setting, run: seq<Move>, V: real, v: Vec2, a: Vec2, raw: Vec2, v': Vec2, a': Vec2)
    requires Lawful(m) && g.Ok() && V >= 0.0 && Reaches(m, g, run, V, v, a)
    requires Sane(PlainConfig(g), LevelTick(g, raw, V))
    requires Next(m, PlainConfig(g), Level(v, a), LevelTick(g, raw, V)) == Level(v', a')
    ensures Reaches(m, g, run + [Drive(LevelTick(g, raw, V))], V, v', a')
  {
    var cfg, mv := PlainConfig(g), Drive(LevelTick(g, raw, V));
    LevelUnder(g, raw, V);
    UnderOneMore(cfg, run, mv, g, V);
    assert MoveOk(cfg, mv, g.A);
    AfterOneMore(m, cfg, Rest(0.0), run, mv, g.A);
  }

  lemma ReachesSteered(m: MathLib, g: Setting, run: seq<Move>, V: real, v: Vec2, a: Vec2, w: Vec2)
    requires Lawful(m) && g.Ok() && V >= 0.0 && Reaches(m, g, run, V, v, a)
    requires Within(w, g.A) && Within(w.Minus(a), g.Jump()) && Within(v.Plus(w.Times(g.dt)), V)
    ensures Reaches(m, g, run + [Drive(LevelTick(g, v.Plus(w.Times(g.dt)), V))], V, v.Plus(w.Times(g.dt)), w)
  {
    Steer(m, g, v, a, w, V);
    ReachesNext(m, g, run, V, v, a, v.Plus(w.Times(g.dt)), v.Plus(w.Times(g.dt)), w);
  }

  lemma RampStep(g: Setting, n: nat)
    requires g.Ok()
    ensures 0.0 <= RampAcc(g, n) <= RampAcc(g, n + 1) <= g.A
    ensures RampAcc(g, n + 1) - RampAcc(g, n) <= g.Jump()
    ensures RampVel(g, n) <= RampVel(g, n + 1)
  {
    var d := g.Jump();
    assert (n + 1) as real * d == n as real * d + d;
    assert Times(n as real, d) >= 0.0;
  }

  lemma SteerOnAxis(m: MathLib, g: Setting, run: seq<Move>, V: real, x: real, a: real, x': real, w: real)
    requires Lawful(m) && g.Ok() && 0.0 <= x' <= V && x' == x + Times(w, g.dt)
    requires 0.0 <= a <= w <= g.A && w - a <= g.Jump()
    requires Reaches(m, g, run, V, Vec2(x, 0.0), Vec2(a, 0.0))
    ensures Reaches(m, g, run + [Drive(LevelTick(g, Vec2(x', 0.0), V))], V, Vec2(x', 0.0), Vec2(w, 0.0))
  {
    OnAxis(w, g.A);
    OnAxis(w - a, g.Jump());
    OnAxis(x', V);
    AxisStep(x, x', a, w, g.dt);
    ReachesSteered(m, g, run, V, Vec2(x, 0.0), Vec2(a, 0.0), Vec2(w, 0.0));
  }

  lemma AxisStep(x: real, x': real, a: real, w: real, dt: real)
    requires x' == x + Times(w, dt)
    ensures Vec2(w, 0.0).Minus(Vec2(a, 0.0)) == Vec2(w - a, 0.0)
    ensures Vec2(x, 0.0).Plus(Vec2(w, 0.0).Times(dt)) == Vec2(x', 0.0)
  {
  }

  lemma {:induction false} RampReaches(m: MathLib, g: Setting, n: nat, V: real)
    requires Lawful(m) && g.Ok() && RampVel(g, n) <= V
    ensures Reaches(m, g, Ramp(g, n, V), V, Vec2(RampVel(g, n), 0.0), Vec2(RampAcc(g, n), 0.0))
  {
    if n == 0 {
      assert Rest(0.0) == Level(ZERO, ZERO);
      assert RampAcc(g, 0) == 0.0;
    } else {
      RampStep(g, n - 1);
      RampReaches(m, g, n - 1, V);
      SteerOnAxis(m, g, Ramp(g, n - 1, V), V, RampVel(g, n - 1), RampAcc(g, n - 1), RampVel(g, n), RampAcc(g, n));
    }
  }

  lemma OneTimeMore(k: nat, d: real)
    requires k > 0
    ensures Times(k as real, d) == Times((k - 1) as real, d) + d
  {
    var q := (k - 1) as real;
    assert k as real == q + 1.0;
    assert (q + 1.0) * d == q * d + d;
  }

  lemma {:induction false} RampGoesOn(g: Setting, n: nat, k: nat)
    requires g.Ok() && RampAcc(g, n) == g.A
    ensures RampAcc(g, n + k) == g.A && RampVel(g, n + k) >= Times(k as real, Times(g.A, g.dt))
  {
    if k > 0 {
      RampGoesOn(g, n, k - 1);
      RampStep(g, n + k - 1);
      OneTimeMore(k, Times(g.A, g.dt));
      assert RampVel(g, n + k) == RampVel(g, n + k - 1) + Times(RampAcc(g, n + k), g.dt);
    }
  }

  lemma Enough(x: real, d: real) returns (n: nat)
    requires d > 0.0
    ensures Times(n as real, d) >= x
  {
    n := if x <= 0.0 then 0 else (x / d).Floor + 1;
    if x > 0.0 {
      assert x / d * d == x;
      var f := n as real;
      assert f >= x / d;
      assert Times(f - x / d, d) == f * d - x;
    }
  }

  /** The ramp gets to the full acceleration at any speed. */
  lemma FarRamp(g: Setting, X: real) returns (n: nat)
    requires g.Ok()
    ensures RampAcc(g, n) == g.A && RampVel(g, n) >= X
  {
    var n0 := Enough(g.A, g.Jump());
    var k := Enough(X, Times(g.A, g.dt));
    assert RampAcc(g, n0) == g.A;
    RampGoesOn(g, n0, k);
    n := n0 + k;
  }

  // ---------- the last two ticks ----------

  /** Half of the reach of one tick of jerk. */
  function HalfReach(g: Setting): real
    requires g.J >= 0.0 && g.dt > 0.0
  {
    Reach(g.J, g.dt) / 2.0
  }

  /** The acceleration the overshoot starts from. */
  function Leaning(A: real, q: real): Vec2 { Vec2(A - q, -q) }

  lemma LeaningWithin(A: real, q: real)
    requires 0.0 <= q < A
    ensures Within(Leaning(A, q), A)
    ensures Within(Leaning(A, q).Minus(Vec2(A, 0.0)), 2.0 * q)
  {
    assert Times(q, A - q) >= 0.0;
    assert (A - q) * (A - q) + q * q == A * A - 2.0 * (q * (A - q));
    assert Leaning(A, q).Sq() == (A - q) * (A - q) + q * q;
    assert Leaning(A, q).Minus(Vec2(A, 0.0)) == Vec2(-q, -q);
    assert Vec2(-q, -q).Sq() == 2.0 * (q * q);
    assert (2.0 * q) * (2.0 * q) == 4.0 * (q * q);
    assert Square(q) == q * q;
  }

  /** From there to full acceleration at a right angle is more than one tick of jerk allows. */
  lemma TooFar(A: real, q: real, n: real)
    requires ACC_EPS <= A && 0.0 <= q < A && IsNorm(Vec2(-(A - q), A + q), n)
    ensures n > 2.0 * q && n > ACC_EPS
  {
    assert (A - q) * (A - q) + (A + q) * (A + q) == 2.0 * (A * A) + 2.0 * (q * q);
    StrictSquareOrder(q, A);
    assert (2.0 * q) * (2.0 * q) == 4.0 * (q * q);
    assert Square(q) == q * q;
    if n <= 2.0 * q { SquareOrder(n, 2.0 * q); }
    if n <= A { SquareOrder(n, A); }
  }

  /** What is left of the forward acceleration after the tick, times the period. */
  function Excess(A: real, q: real, n: real, dt: real): real
    requires n != 0.0
  {
    Times(Times(A - q, 1.0 - 2.0 * q / n), dt)
  }

  lemma ExcessPositive(A: real, q: real, n: real, dt: real)
    requires 0.0 <= q < A && 2.0 * q < n && dt > 0.0 && n > 0.0
    ensures Excess(A, q, n, dt) > 0.0
  {
    var k := 2.0 * q / n;
    assert k * n == 2.0 * q;
    assert n * (1.0 - k) == n - 2.0 * q;
    Divide(n, 1.0 - k, n - 2.0 * q);
  }

  /** Far out, an excess of any size leads out of the disc. */
  lemma OutOfDisc(X: real, y: real, e: real, h: real, V: real)
    requires X > 0.0 && e > 0.0 && h > 0.0 && IsNorm(Vec2(X, h), V) && Times(X, e) >= h * h
    ensures !Within(Vec2(X + e, y), V)
  {
    assert (X + e) * (X + e) == X * X + 2.0 * Times(X, e) + e * e;
    assert Square(e) == e * e && Square(y) == y * y && Square(h) == h * h;
  }

  /** Asked to turn at a right angle, the limiter keeps `e` of the forward speed gain. */
  ghost predicate StillForward(m: MathLib, g: Setting, t: Tick, v: Vec2, e: real)
    requires g.J >= 0.0 && g.dt > 0.0
  {
    Sane(PlainConfig(g), t) && JerkXY(t) == g.J && t.dt == g.dt && CappedXY(m, PlainConfig(g), t, v) == Vec2(0.0, g.A) ==>
      Times(NextAcc(m, PlainConfig(g), t, v, Leaning(g.A, HalfReach(g))).x, g.dt) == e
  }

  /** The jerk limit keeps part of the forward acceleration, always the same. */
  lemma JerkBites(m: MathLib, g: Setting) returns (e: real)
    requires Lawful(m) && g.Ok() && HalfReach(g) < g.A
    ensures e > 0.0 && forall t, v :: StillForward(m, g, t, v, e)
  {
    var q := HalfReach(g);
    var d := Vec2(-(g.A - q), g.A + q);
    var n := m.Norm(d);
    assert HypotLaw(m, d);
    TooFar(g.A, q, n);
    ExcessPositive(g.A, q, n, g.dt);
    e := Excess(g.A, q, n, g.dt);
    LeanX(g.A, q, n, g.dt);
    forall t, v ensures StillForward(m, g, t, v, e) {
      BitesAt(m, g, t, v, q, n, e);
    }
  }

  lemma LeanX(A: real, q: real, n: real, dt: real)
    requires n > 2.0 * q >= 0.0 && n > ACC_EPS
    ensures Times(Leaning(A, q).Plus(Saturate(Vec2(-(A - q), A + q), 2.0 * q, ACC_EPS, n)).x, dt) == Excess(A, q, n, dt)
  {
    Forward(A - q, q, n, dt);
  }

  lemma BitesAt(m: MathLib, g: Setting, t: Tick, v: Vec2, q: real, n: real, e: real)
    requires g.Ok() && q == HalfReach(g) && n == m.Norm(Vec2(-(g.A - q), g.A + q))
    requires Times(Leaning(g.A, q).Plus(Saturate(Vec2(-(g.A - q), g.A + q), 2.0 * q, ACC_EPS, n)).x, g.dt) == e
    ensures StillForward(m, g, t, v, e)
  {
    if Sane(PlainConfig(g), t) && JerkXY(t) == g.J && t.dt == g.dt && CappedXY(m, PlainConfig(g), t, v) == Vec2(0.0, g.A) {
      assert Vec2(0.0, g.A).Minus(Leaning(g.A, q)) == Vec2(-(g.A - q), g.A + q);
      assert Reach(JerkXY(t), t.dt) == 2.0 * q;
    }
  }

  /** The overshooting tick, from any velocity. */
  lemma Overshoot(m: MathLib, g: Setting, v: Vec2, a: Vec2, raw: Vec2, V: real, e: real) returns (a': Vec2)
    requires Lawful(m) && g.Ok() && V >= 0.0 && a == Leaning(g.A, HalfReach(g))
    requires raw == v.Plus(Vec2(0.0, g.A).Times(g.dt)) && Within(raw, V)
    requires StillForward(m, g, LevelTick(g, raw, V), v, e)
    ensures Sane(PlainConfig(g), LevelTick(g, raw, V)) && Times(a'.x, g.dt) == e
    ensures Next(m, PlainConfig(g), Level(v, a), LevelTick(g, raw, V)) == Level(v.Plus(a'.Times(g.dt)), a')
  {
    UpWithin(g.A);
    LevelDemand(m, g, v, Vec2(0.0, g.A), V);
    LevelNext(m, g, v, a, raw, V);
    a' := NextAcc(m, PlainConfig(g), LevelTick(g, raw, V), v, a);
  }

  lemma LeavesDisc(v: Vec2, a: Vec2, e: real, dt: real, h: real, V: real)
    requires v.x >= 1.0 && e > 0.0 && Times(a.x, dt) == e && h > 0.0 && IsNorm(Vec2(v.x, h), V) && Times(v.x, e) >= h * h
    ensures !Within(v.Plus(a.Times(dt)), V)
  {
    OutOfDisc(v.x, v.y + a.y * dt, e, h, V);
    assert v.Plus(a.Times(dt)) == Vec2(v.x + e, v.y + a.y * dt);
  }

  lemma Forward(b: real, q: real, n: real, dt: real)
    requires n > 0.0
    ensures (b + -b / n * (2.0 * q)) * dt == Times(Times(b, 1.0 - 2.0 * q / n), dt)
  {
    DivTimes(-b, n, 2.0 * q);
    var k := 2.0 * q / n;
    assert -b * k + b == b * (1.0 - k);
  }

  lemma UpWithin(A: real)
    requires A >= 0.0
    ensures Within(Vec2(0.0, A), A)
  {
    assert Vec2(0.0, A).Sq() == A * A;
  }

  /** The raw commands of the last two ticks lie inside the cap. */
  lemma CommandInside(X: real, q: real, A: real, dt: real, V: real)
    requires 0.0 <= q < A && dt > 0.0 && X >= 0.0 && IsNorm(Vec2(X, Times(A, dt)), V)
    ensures Within(Vec2(X, -Times(q, dt)), V)
    ensures Within(Vec2(X, -Times(q, dt)).Plus(Vec2(0.0, A).Times(dt)), V)
  {
    var h, k := Times(A, dt), Times(q, dt);
    assert Times(A - q, dt) == h - k;
    SquareOrder(k, h);
    SquareOrder(h - k, h);
    assert Vec2(X, -k).Sq() == X * X + k * k;
    assert Vec2(X, -k).Plus(Vec2(0.0, A).Times(dt)) == Vec2(X, h - k);
  }

  /** The run up to the last tick: the ramp, then one tick that leans to the side. */
  lemma RampThenLean(m: MathLib, g: Setting, n: nat, X: real, V: real) returns (run: seq<Move>)
    requires Lawful(m) && g.Ok() && HalfReach(g) < g.A && RampAcc(g, n) == g.A
    requires X == RampVel(g, n) + Times(g.A - HalfReach(g), g.dt) && V == m.Norm(Vec2(X, Times(g.A, g.dt))) >= X
    ensures Reaches(m, g, run, V, Vec2(X, -Times(HalfReach(g), g.dt)), Leaning(g.A, HalfReach(g)))
  {
    var q, x := HalfReach(g), RampVel(g, n);
    assert HypotLaw(m, Vec2(X, Times(g.A, g.dt)));
    RampReaches(m, g, n, V);
    run := Ramp(g, n, V);
    LeaningWithin(g.A, q);
    WithinWider(Leaning(g.A, q).Minus(Vec2(g.A, 0.0)), 2.0 * q, g.Jump());
    CommandInside(X, q, g.A, g.dt, V);
    LeanStep(x, X, g.A, q, g.dt);
    ReachesSteered(m, g, run, V, Vec2(x, 0.0), Vec2(g.A, 0.0), Leaning(g.A, q));
    run := run + [Drive(LevelTick(g, Vec2(X, -Times(q, g.dt)), V))];
  }

  lemma LeanStep(x: real, X: real, A: real, q: real, dt: real)
    requires X == x + Times(A - q, dt)
    ensures Vec2(x, 0.0).Plus(Leaning(A, q).Times(dt)) == Vec2(X, -Times(q, dt))
  {
    assert -q * dt == -(q * dt);
  }

  lemma LastTick(m: MathLib, g: Setting, before: seq<Move>, X: real, V: real, e: real) returns (run: seq<Move>, v: Vec2, a: Vec2)
    requires Lawful(m) && g.Ok() && HalfReach(g) < g.A && X >= 1.0 && e > 0.0 && V >= 0.0
    requires V == m.Norm(Vec2(X, Times(g.A, g.dt)))
    requires Times(X, e) >= Times(g.A, g.dt) * Times(g.A, g.dt) && forall t, v :: StillForward(m, g, t, v, e)
    requires Reaches(m, g, before, V, Vec2(X, -Times(HalfReach(g), g.dt)), Leaning(g.A, HalfReach(g)))
    ensures Reaches(m, g, run, V, v, a) && !Within(v, V)
  {
    var u, lean := Vec2(X, -Times(HalfReach(g), g.dt)), Leaning(g.A, HalfReach(g));
    var raw := u.Plus(Vec2(0.0, g.A).Times(g.dt));
    assert HypotLaw(m, Vec2(X, Times(g.A, g.dt)));
    CommandInside(X, HalfReach(g), g.A, g.dt, V);
    assert StillForward(m, g, LevelTick(g, raw, V), u, e);
    a := Overshoot(m, g, u, lean, raw, V, e);
    v := u.Plus(a.Times(g.dt));
    LeavesDisc(u, a, e, g.dt, Times(g.A, g.dt), V);
    ReachesNext(m, g, before, V, u, lean, raw, v, a);
    run := before + [Drive(LevelTick(g, raw, V))];
  }

  /** How far the ramp has to go for an excess of `e`. */
  lemma ChooseRamp(g: Setting, e: real) returns (n: nat, X: real)
    requires g.Ok() && HalfReach(g) < g.A && e > 0.0
    ensures RampAcc(g, n) == g.A && X == RampVel(g, n) + Times(g.A - HalfReach(g), g.dt)
    ensures X >= 1.0 && Times(X, e) >= Times(g.A, g.dt) * Times(g.A, g.dt)
  {
    var s := Times(g.A, g.dt) * Times(g.A, g.dt);
    var far := Enough(s, e);
    n := FarRamp(g, far as real + 1.0);
    X := RampVel(g, n) + Times(g.A - HalfReach(g), g.dt);
    StillEnough(far, X, e, s);
  }

  /** Too little jerk: a run from rest, all of it under one cap, that ends outside it. */
  lemma OvershootFromRest(m: MathLib, g: Setting) returns (run: seq<Move>, V: real, v: Vec2, a: Vec2)
    requires Lawful(m) && g.Ok() && HalfReach(g) < g.A
    ensures V >= SPEED_EPS && Reaches(m, g, run, V, v, a) && !Within(v, V)
  {
    var e := JerkBites(m, g);
    var n, X := ChooseRamp(g, e);
    V := m.Norm(Vec2(X, Times(g.A, g.dt)));
    assert HypotLaw(m, Vec2(X, Times(g.A, g.dt)));
    CapIsFar(X, Times(g.A, g.dt), V);
    run := RampThenLean(m, g, n, X, V);
    run, v, a := LastTick(m, g, run, X, V, e);
  }

  lemma StillEnough(far: nat, X: real, e: real, s: real)
    requires X >= far as real && e > 0.0 && Times(far as real, e) >= s
    ensures Times(X, e) >= s
  {
    assert Times(X - far as real, e) == Times(X, e) - Times(far as real, e);
  }

  lemma CapIsFar(X: real, h: real, V: real)
    requires X >= 1.0 && h >= 0.0 && IsNorm(Vec2(X, h), V)
    ensures V >= X
  {
    assert Square(h) == h * h;
    RootOrder(X, V);
  }

  /**
   The speed cap holds exactly if one tick of jerk spans the disc of accelerations, and it makes no
   difference whether every state is asked to keep inside it or only those that come from rest.
   */
  lemma CapIsKeptExactly(m: MathLib, g: Setting)
    requires Lawful(m) && g.Ok()
    ensures CapIsKept(m, g) <==> g.J * g.dt >= 2.0 * g.A
    ensures CapIsKeptFromRest(m, g) <==> g.J * g.dt >= 2.0 * g.A
  {
    assert Reach(g.J, g.dt) == g.J * g.dt;
    if Reach(g.J, g.dt) >= 2.0 * g.A {
      WideJerkKeepsCap(m, g);
    } else {
      var run, V, v, a := OvershootFromRest(m, g);
      assert !RunKeepsCap(m, PlainConfig(g), 0.0, run, g, V);
    }
    if CapIsKept(m, g) {
      forall cfg: Config, yaw: real, run: seq<Move>, V: real | V >= SPEED_EPS
        ensures RunKeepsCap(m, cfg, yaw, run, g, V)
      {
        if RunUnder(cfg, run, g, V) {
          RestIsInside(g.A, V);
          TicksKeepRuns(m, cfg, Rest(yaw), run, g, V);
        }
      }
    }
  }
}
