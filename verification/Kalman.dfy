/**
 The two Kalman filters of the landing feature. `KalmanFilter2D` is dense: four states, 4x4
 covariance, a 2x2 innovation covariance that is inverted. `KalmanFilterYaw` has two states.
 The reference is one constant-velocity filter on one axis, `Axis`.
 */
module Kalman {
  import opened Basics
  import opened Planar
  import opened Matrices

  // ---------- reference: one axis ----------

  datatype Axis = Axis(pos: real, vel: real, cov: Mat2)

  function Transition(dt: real): Mat2 { Mat2(1.0, dt, 0.0, 1.0) }

  function PredictCov(cov: Mat2, dt: real, q: Mat2): Mat2 {
    Transition(dt).Mul(cov).Mul(Transition(dt).T()).Plus(q)
  }

  /** Correction of a predicted state by a scalar measurement that is off by `y`, with noise `r`. */
  function Correct(pos: real, vel: real, cov: Mat2, y: real, r: real): Axis
    requires cov.a + r != 0.0
  {
    var s := cov.a + r;
    var k1, k2 := cov.a / s, cov.c / s;
    Axis(pos + k1 * y, vel + k2 * y, I2.Minus(Mat2(k1, 0.0, k2, 0.0)).Mul(cov))
  }

  /** One update of one axis: predict over `dt` with process noise `q`, correct with measurement `z`. */
  function AxisStep(a: Axis, z: real, dt: real, q: Mat2, r: real): Axis
    requires PredictCov(a.cov, dt, q).a + r != 0.0
  {
    Correct(Ahead(a, dt), a.vel, PredictCov(a.cov, dt, q), Off(a, z, dt), r)
  }

  /** The predicted position, and what a measurement is off from it. */
  function Ahead(a: Axis, dt: real): real { a.pos + dt * a.vel }

  function Off(a: Axis, z: real, dt: real): real { z - Ahead(a, dt) }

  // ---------- covariance: positive definite for ever ----------

  /** Process noise that keeps every covariance positive definite. */
  ghost predicate Harmless(q: Mat2) {
    forall p :: PosDef(p) ==> PosDef(p.Plus(q))
  }

  lemma TransitionKeepsPosDef(p: Mat2, dt: real)
    requires PosDef(p)
    ensures PosDef(Transition(dt).Mul(p).Mul(Transition(dt).T()))
  {
    PosDefForm(p, Vec2(1.0, dt));
    ShearDet(p.a, p.b, p.d, dt);
    var m := Transition(dt).Mul(p).Mul(Transition(dt).T());
    assert m == Mat2(p.a + dt * p.b + (p.b + dt * p.d) * dt, p.b + dt * p.d, p.b + p.d * dt, p.d);
    assert m.a == Form(p, Vec2(1.0, dt));
  }

  lemma ShearDet(a: real, b: real, d: real, t: real)
    ensures (a + t * b + (b + t * d) * t) * d - (b + t * d) * (b + d * t) == a * d - b * b
  {
  }

  lemma PredictKeepsPosDef(p: Mat2, dt: real, q: Mat2)
    requires PosDef(p) && Harmless(q)
    ensures PosDef(PredictCov(p, dt, q))
  {
    TransitionKeepsPosDef(p, dt);
  }

  /**
   Correction: the posterior covariance is again positive definite, its determinant is that of
   the prediction times r / s, and the corrected quantity is known better than one measurement.
   */
  lemma CorrectKeepsPosDef(pos: real, vel: real, p: Mat2, y: real, r: real)
    requires PosDef(p) && r > 0.0
    ensures var c := Correct(pos, vel, p, y, r).cov;
            && PosDef(c)
            && c.Det() == p.Det() * (r / (p.a + r))
            && c.a < r && c.a < p.a
  {
    var s := p.a + r;
    var g, h, k := p.a / s, p.b / s, r / s;
    CorrectShape(pos, vel, p, y, r);
    Shares(p.a, r, s, g, k);
    Crossed(p.a, p.b, s, g, h);
    ShapeIsPosDef(p, g, h, k, r, s);
  }

  /** The posterior covariance in closed form. */
  lemma CorrectShape(pos: real, vel: real, p: Mat2, y: real, r: real)
    requires PosDef(p) && r > 0.0
    ensures var s := p.a + r;
            Correct(pos, vel, p, y, r).cov == Mat2(r / s * p.a, r / s * p.b, r / s * p.b, p.d - p.b / s * p.b)
  {
    var s := p.a + r;
    var g, h, k := p.a / s, p.b / s, r / s;
    Shares(p.a, r, s, g, k);
    Crossed(p.a, p.b, s, g, h);
    LessShare(p.a, g, k);
    LessShare(p.b, g, k);
    var m := I2.Minus(Mat2(g, 0.0, h, 0.0));
    assert m == Mat2(1.0 - g, 0.0, -h, 1.0);
    assert m.Mul(p) == Mat2((1.0 - g) * p.a, (1.0 - g) * p.b, p.c - h * p.a, p.d - h * p.b);
  }

  lemma LessShare(x: real, g: real, k: real)
    requires g + k == 1.0
    ensures (1.0 - g) * x == k * x == x - g * x
  {
  }

  lemma ShapeIsPosDef(p: Mat2, g: real, h: real, k: real, r: real, s: real)
    requires PosDef(p) && r > 0.0 && g + k == 1.0 && 0.0 < g < 1.0 && 0.0 < k < 1.0
    requires h * p.a == g * p.b && g * s == p.a && k * s == r && s == p.a + r
    ensures var c := Mat2(k * p.a, k * p.b, k * p.b, p.d - h * p.b);
            PosDef(c) && c.Det() == p.Det() * k && c.a < r && c.a < p.a
  {
    var c := Mat2(k * p.a, k * p.b, k * p.b, p.d - h * p.b);
    PosteriorDet(p.a, p.b, p.d, g, h, k);
    DetOf(p);
    DetOf(c);
    assert c.Det() == Times(p.Det(), k);
    VarianceDrops(p.a, g, k, r, s);
  }

  lemma DetOf(p: Mat2)
    ensures p.Det() == p.a * p.d - p.b * p.c
  {
  }

  lemma VarianceDrops(a: real, g: real, k: real, r: real, s: real)
    requires a > 0.0 && r > 0.0 && g * s == a && k * s == r && 0.0 < g < 1.0 && 0.0 < k < 1.0
    ensures 0.0 < k * a < a && k * a < r
  {
    Crossed(a, r, s, g, k);
    PartLess(g, r);
    PartLess(k, a);
  }

  lemma Shares(a: real, r: real, s: real, g: real, k: real)
    requires a > 0.0 && r > 0.0 && s == a + r && g * s == a && k * s == r
    ensures g + k == 1.0 && 0.0 < g < 1.0 && 0.0 < k < 1.0
  {
    assert (g + k) * s == s;
    OneFactor(g + k, s);
    Divide(s, g, a);
    Divide(s, k, r);
  }

  lemma OneFactor(x: real, s: real)
    requires s != 0.0 && x * s == s
    ensures x == 1.0
  {
    assert (x - 1.0) * s == 0.0;
  }

  lemma Crossed(a: real, b: real, s: real, g: real, h: real)
    requires s != 0.0 && g * s == a && h * s == b
    ensures h * a == g * b
  {
    assert h * a == h * (g * s) == (h * s) * g;
  }

  lemma PartLess(g: real, x: real)
    requires 0.0 < g < 1.0 && x > 0.0
    ensures 0.0 < g * x < x
  {
  }

  lemma PosteriorDet(a: real, b: real, d: real, g: real, h: real, k: real)
    requires g + k == 1.0 && h * a == g * b
    ensures (k * a) * (d - h * b) - (k * b) * (k * b) == (a * d - b * b) * k
  {
    assert (k * a) * (h * b) == k * b * (h * a) == k * b * (g * b);
    assert (k * a) * (d - h * b) == k * (a * d) - (k * a) * (h * b);
    assert k * b * (g * b) + (k * b) * (k * b) == k * (b * b) * (g + k);
  }

  lemma DiagonalNoiseIsHarmless(k: real)
    requires k >= 0.0
    ensures Harmless(Diag(k))
  {
    forall p | PosDef(p) ensures PosDef(p.Plus(Diag(k))) {
      RankOneUpdate(p, Vec2(1.0, 0.0), k);
      var p' := p.Plus(Outer(Vec2(1.0, 0.0), k));
      RankOneUpdate(p', Vec2(0.0, 1.0), k);
      assert p'.Plus(Outer(Vec2(0.0, 1.0), k)) == p.Plus(Diag(k));
    }
  }

  /** White acceleration noise over `dt`, on one axis, times `k`. */
  function AxisNoise(dt: real, k: real): Mat2 {
    var dt2 := dt * dt;
    var dt3 := dt2 * dt;
    var dt4 := dt3 * dt;
    Mat2(dt4 / 4.0 * k, dt3 / 2.0 * k, dt3 / 2.0 * k, dt2 * k)
  }

  lemma AccelerationNoiseIsHarmless(dt: real, k: real)
    requires k >= 0.0
    ensures Harmless(AxisNoise(dt, k))
  {
    var v := Vec2(dt * dt / 2.0, dt);
    assert AxisNoise(dt, k) == Outer(v, k) by {
      var dt2 := dt * dt;
      assert v.x * v.x == dt2 * dt2 / 4.0 == dt2 * dt * dt / 4.0;
      assert v.x * v.y == dt2 * dt / 2.0;
    }
    forall p | PosDef(p) ensures PosDef(p.Plus(AxisNoise(dt, k))) {
      RankOneUpdate(p, v, k);
    }
  }

  // ---------- the dense filter ----------

  datatype Tuning = Tuning(sigmaA: real, baseR: real, threshold: real, maxScale: real)

  ghost predicate Tuned(t: Tuning) {
    t.baseR > 0.0 && t.threshold > 0.0 && t.maxScale > 0.0
  }

  datatype Dense = Dense(x: Vec4, P: Mat4)

  function Transition4(dt: real): Mat4 { Mat4(I2, Diag(dt), O2, I2) }

  function Noise4(dt: real, sigma: real): Mat4 {
    var dt2 := dt * dt;
    var dt3 := dt2 * dt;
    var dt4 := dt3 * dt;
    Mat4(Diag(dt4 / 4.0), Diag(dt3 / 2.0), Diag(dt3 / 2.0), Diag(dt2)).Scale(sigma * sigma)
  }

  /** Fixes from higher up, or while turning, are trusted less. */
  function MeasurementNoise(t: Tuning, z: real, rate: real): real {
    var height := Max(1.0, z / 2.0);
    t.baseR * height * height * (1.0 + rate * 5.0)
  }

  function PredictCov4(P: Mat4, dt: real, Q: Mat4): Mat4 {
    Transition4(dt).Mul(P).Mul(Transition4(dt).T()).Plus(Q)
  }

  /** Covariance of the residual. */
  function Innovation(P: Mat4, r: real): Mat2 { P.tl.Plus(Diag(r)) }

  function Mahalanobis(S: Mat2, y: Vec2): real
    requires S.Det() != 0.0
  {
    y.Dot(S.Inverse().Apply(y))
  }

  /** How much the process noise is widened for a residual of this size. */
  function Widening(t: Tuning, eps: real): (k: real)
    requires Tuned(t)
    ensures k > 0.0
  {
    if eps > t.threshold then
      assert Times(eps / t.threshold, t.threshold) == eps;
      Min(t.maxScale, eps / t.threshold)
    else 1.0
  }

  function Correct4(xPred: Vec4, P: Mat4, y: Vec2, r: real): Dense
    requires Innovation(P, r).Det() != 0.0
  {
    var K := P.ObservedT().MulRight(Innovation(P, r).Inverse());
    Dense(xPred.Plus(K.Apply(y)), I4.Minus(K.Observed()).Mul(P))
  }

  /** The scalar covariance of a dense one that acts alike on both axes. */
  function Core(P: Mat4): Mat2 { Mat2(P.tl.a, P.tr.a, P.bl.a, P.br.a) }

  /** The axes are decoupled and alike, and their covariance is positive definite. */
  ghost predicate Decoupled(P: Mat4) {
    P == Lift(Core(P)) && PosDef(Core(P))
  }

  /** `k` times the identity, as an initial covariance. */
  method InitialCov(k: real) returns (P: Mat4)
    requires k > 0.0
    ensures P == Lift(Diag(k)) && Decoupled(P)
  {
    assert Times(k, k) > 0.0;
    assert Diag(k).Det() == k * k;
    P := I4.Scale(k);
  }

  class KalmanFilter2D {
    const tuning: Tuning
    var x: Vec4
    var P: Mat4

    ghost predicate Valid() reads this {
      Tuned(tuning) && Decoupled(P)
    }

    ghost function View(): Dense reads this { Dense(x, P) }

    constructor (tuning: Tuning)
      requires Tuned(tuning)
      ensures Valid() && View() == Dense(Vec4(ZERO, ZERO), Lift(Diag(10.0))) && this.tuning == tuning
    {
      this.tuning := tuning;
      var cov := InitialCov(10.0);
      x, P := Vec4(ZERO, ZERO), cov;
    }

    method Reset()
      requires Tuned(tuning)
      modifies this
      ensures Valid() && View() == Dense(Vec4(ZERO, ZERO), Lift(Diag(10.0)))
    {
      var cov := InitialCov(10.0);
      x, P := Vec4(ZERO, ZERO), cov;
    }

    method ForceSetState(px: real, py: real)
      requires Tuned(tuning)
      modifies this
      ensures Valid() && View() == Dense(Vec4(Vec2(px, py), ZERO), Lift(Diag(0.01)))
    {
      var cov := InitialCov(0.01);
      x, P := Vec4(Vec2(px, py), ZERO), cov;
    }

    /** One measurement. `eps` is the squared Mahalanobis distance of the residual, if one was taken. */
    method Update(meas: Vec2, dt: real, z: real, rate: real) returns (vel: Vec2, eps: Option<real>)
      requires Valid() && MeasurementNoise(tuning, z, rate) > 0.0
      modifies this
      ensures Valid() && vel == x.vel
      ensures dt <= 0.0001 ==> unchanged(this) && eps == None
      ensures dt > 0.0001 ==>
        var Q, r := Noise4(dt, tuning.sigmaA), MeasurementNoise(tuning, z, rate);
        && NoiseOk(Q)
        && eps == Some(Distance(old(View()), Q, meas, dt, r))
        && View() == Next(tuning, old(View()), Q, meas, dt, r)
    {
      if dt <= 0.0001 {
        return x.vel, None;
      }
      var Q := Noise4(dt, tuning.sigmaA);
      var r := MeasurementNoise(tuning, z, rate);
      var F := Transition4(dt);
      var xPred := F.Apply(x);
      var pPred := F.Mul(P).Mul(F.T()).Plus(Q);
      var y := meas.Minus(xPred.pos);
      var S := pPred.tl.Plus(Diag(r));
      NoiseIsOk(dt, tuning.sigmaA);
      assert Q.Scale(1.0) == Q;
      NextIsRegular(View(), Q, dt, r, 1.0);
      var e := y.Dot(S.Inverse().Apply(y));
      if e > tuning.threshold {
        var scale := Min(tuning.maxScale, e / tuning.threshold);
        NextIsRegular(View(), Q, dt, r, Widening(tuning, e));
        pPred := F.Mul(P).Mul(F.T()).Plus(Q.Scale(scale));
        S := pPred.tl.Plus(Diag(r));
      }
      NextIsDecoupled(tuning, View(), Q, meas, dt, r);
      var K := pPred.ObservedT().MulRight(S.Inverse());
      x := xPred.Plus(K.Apply(y));
      P := I4.Minus(K.Observed()).Mul(pPred);
      return x.vel, Some(e);
    }
  }

  // ---------- process noise ----------

  /** Process noise that is alike on both axes and harmless at every width. */
  ghost predicate NoiseOk(Q: Mat4) {
    Q == Lift(Core(Q)) && forall k :: k > 0.0 ==> Harmless(Core(Q).Scale(k))
  }

  lemma NoiseIsOk(dt: real, sigma: real)
    ensures NoiseOk(Noise4(dt, sigma))
  {
    var q := Core(Noise4(dt, sigma));
    var s := Square(sigma);
    assert q == AxisNoise(dt, s);
    forall k | k > 0.0 ensures Harmless(q.Scale(k)) {
      AccelerationNoiseIsHarmless(dt, Times(s, k));
      AxisNoiseScales(dt, s, k);
    }
  }

  lemma AxisNoiseScales(dt: real, s: real, k: real)
    ensures AxisNoise(dt, s).Scale(k) == AxisNoise(dt, Times(s, k))
  {
    var dt2 := dt * dt;
    var dt3 := dt2 * dt;
    var dt4 := dt3 * dt;
    ScaleTwice(dt4 / 4.0, s, k);
    ScaleTwice(dt3 / 2.0, s, k);
    ScaleTwice(dt2, s, k);
  }

  lemma ScaleTwice(x: real, s: real, k: real)
    ensures x * s * k == x * Times(s, k)
  {
  }

  // ---------- refinement: dense is two axes ----------

  ghost predicate Ready(d: Dense, Q: Mat4, r: real) {
    Decoupled(d.P) && NoiseOk(Q) && r > 0.0
  }

  /** The predicted covariance with the process noise widened by `k`. */
  function Predicted(d: Dense, Q: Mat4, dt: real, k: real): Mat4 {
    PredictCov4(d.P, dt, Q.Scale(k))
  }

  /** The same on one axis. */
  function PredictedCore(d: Dense, Q: Mat4, dt: real, k: real): Mat2 {
    PredictCov(Core(d.P), dt, Core(Q).Scale(k))
  }

  /** The squared Mahalanobis distance of a measurement, before any widening. */
  function Distance(d: Dense, Q: Mat4, meas: Vec2, dt: real, r: real): real
    requires Ready(d, Q, r)
  {
    NextIsRegular(d, Q, dt, r, 1.0);
    Mahalanobis(Innovation(Predicted(d, Q, dt, 1.0), r), meas.Minus(Transition4(dt).Apply(d.x).pos))
  }

  function Next(t: Tuning, d: Dense, Q: Mat4, meas: Vec2, dt: real, r: real): Dense
    requires Tuned(t) && Ready(d, Q, r)
  {
    var k := Widening(t, Distance(d, Q, meas, dt, r));
    var xPred := Transition4(dt).Apply(d.x);
    NextIsRegular(d, Q, dt, r, k);
    Correct4(xPred, Predicted(d, Q, dt, k), meas.Minus(xPred.pos), r)
  }

  lemma PredictLifts(p: Mat2, dt: real, q: Mat2)
    ensures PredictCov4(Lift(p), dt, Lift(q)) == Lift(PredictCov(p, dt, q))
  {
    var f := Transition(dt);
    assert Transition4(dt) == Lift(f);
    LiftMul(f, p);
    LiftLinear(f, f, 1.0);
    LiftMul(f.Mul(p), f.T());
    LiftLinear(f.Mul(p).Mul(f.T()), q, 1.0);
  }

  /** The predicted covariance is that of one axis on both, and positive definite. */
  lemma PredictedIsLifted(d: Dense, Q: Mat4, dt: real, k: real)
    requires Decoupled(d.P) && NoiseOk(Q) && k > 0.0
    ensures Predicted(d, Q, dt, k) == Lift(PredictedCore(d, Q, dt, k))
    ensures PosDef(PredictedCore(d, Q, dt, k))
  {
    LiftLinear(Core(Q), Core(Q), k);
    PredictLifts(Core(d.P), dt, Core(Q).Scale(k));
    PredictKeepsPosDef(Core(d.P), dt, Core(Q).Scale(k));
  }

  lemma InnovationIsDiagonal(p: Mat2, r: real)
    requires PosDef(p) && r > 0.0
    ensures Innovation(Lift(p), r) == Diag(p.a + r) && p.a + r > 0.0
    ensures Innovation(Lift(p), r).Det() != 0.0
    ensures Innovation(Lift(p), r).Inverse() == Diag(1.0 / (p.a + r))
  {
    assert Innovation(Lift(p), r) == Diag(p.a + r);
    DiagInverse(p.a + r);
  }

  /** The innovation covariance is a positive multiple of the identity, so it can be inverted. */
  lemma NextIsRegular(d: Dense, Q: Mat4, dt: real, r: real, k: real)
    requires Ready(d, Q, r) && k > 0.0
    ensures PredictedCore(d, Q, dt, k).a + r > 0.0
    ensures Innovation(Predicted(d, Q, dt, k), r) == Diag(PredictedCore(d, Q, dt, k).a + r)
    ensures Innovation(Predicted(d, Q, dt, k), r).Det() != 0.0
  {
    PredictedIsLifted(d, Q, dt, k);
    InnovationIsDiagonal(PredictedCore(d, Q, dt, k), r);
  }

  lemma GainLifts(p: Mat2, r: real)
    requires PosDef(p) && r > 0.0
    ensures Innovation(Lift(p), r).Det() != 0.0
    ensures var s := p.a + r;
            Lift(p).ObservedT().MulRight(Innovation(Lift(p), r).Inverse()) == Tall(Diag(p.a / s), Diag(p.c / s))
  {
    var s := p.a + r;
    InnovationIsDiagonal(p, r);
    DiagMul(p.a, 1.0 / s);
    DiagMul(p.c, 1.0 / s);
    Reciprocal(p.a, s);
    Reciprocal(p.c, s);
  }

  lemma PosteriorLifts(p: Mat2, k1: real, k2: real)
    ensures I4.Minus(Tall(Diag(k1), Diag(k2)).Observed()).Mul(Lift(p)) == Lift(I2.Minus(Mat2(k1, 0.0, k2, 0.0)).Mul(p))
  {
    var g := Mat2(k1, 0.0, k2, 0.0);
    LiftLinear(I2, g, 1.0);
    LiftMul(I2.Minus(g), p);
  }

  lemma CorrectLiftsCov(x: Vec4, p: Mat2, y: Vec2, r: real)
    requires PosDef(p) && r > 0.0
    ensures Innovation(Lift(p), r).Det() != 0.0
    ensures Correct4(x, Lift(p), y, r).P == Lift(Correct(x.pos.x, x.vel.x, p, y.x, r).cov)
  {
    GainLifts(p, r);
    PosteriorLifts(p, p.a / (p.a + r), p.c / (p.a + r));
  }

  lemma CorrectLiftsState(x: Vec4, p: Mat2, y: Vec2, r: real)
    requires PosDef(p) && r > 0.0
    ensures Innovation(Lift(p), r).Det() != 0.0
    ensures var cx, cy := Correct(x.pos.x, x.vel.x, p, y.x, r), Correct(x.pos.y, x.vel.y, p, y.y, r);
            Correct4(x, Lift(p), y, r).x == Vec4(Vec2(cx.pos, cy.pos), Vec2(cx.vel, cy.vel))
  {
    GainLifts(p, r);
    DiagApply(p.a / (p.a + r), y);
    DiagApply(p.c / (p.a + r), y);
  }

  lemma Reciprocal(x: real, s: real)
    requires s != 0.0
    ensures x * (1.0 / s) == x / s
  {
  }

  /** Two axis filters side by side, as one dense state. */
  function Join(ax: Axis, ay: Axis): Dense {
    Dense(Vec4(Vec2(ax.pos, ay.pos), Vec2(ax.vel, ay.vel)), Lift(ax.cov))
  }

  /** The residuals of the two axes. */
  function Residual(ax: Axis, ay: Axis, meas: Vec2, dt: real): Vec2 {
    Vec2(Off(ax, meas.x, dt), Off(ay, meas.y, dt))
  }

  /** The process noise both axes share: widened by the size of their residuals together. */
  function SharedNoise(t: Tuning, ax: Axis, ay: Axis, q: Mat2, meas: Vec2, dt: real, r: real): Mat2
    requires Tuned(t) && PredictCov(ax.cov, dt, q).a + r > 0.0
  {
    q.Scale(Widening(t, Residual(ax, ay, meas, dt).Sq() / (PredictCov(ax.cov, dt, q).a + r)))
  }

  lemma PredictState(x: Vec4, dt: real)
    ensures Transition4(dt).Apply(x) == Vec4(Vec2(x.pos.x + dt * x.vel.x, x.pos.y + dt * x.vel.y), x.vel)
  {
    assert Transition4(dt) == Lift(Transition(dt));
    LiftApply(Transition(dt), x);
  }

  lemma DiagonalDistance(s: real, y: Vec2)
    requires s > 0.0
    ensures Diag(s).Det() != 0.0 && Mahalanobis(Diag(s), y) == y.Sq() / s
  {
    DiagInverse(s);
    DiagApply(1.0 / s, y);
    WeightedSum(y.x, y.y, s, 1.0 / s);
  }

  lemma WeightedSum(x: real, y: real, s: real, k: real)
    requires s != 0.0 && k == 1.0 / s
    ensures x * (k * x) + y * (k * y) == (x * x + y * y) / s
  {
    Reciprocal(x * x + y * y, s);
  }

  lemma ResidualOfJoin(ax: Axis, ay: Axis, meas: Vec2, dt: real)
    ensures meas.Minus(Transition4(dt).Apply(Join(ax, ay).x).pos) == Residual(ax, ay, meas, dt)
    ensures Transition4(dt).Apply(Join(ax, ay).x) == Vec4(Vec2(Ahead(ax, dt), Ahead(ay, dt)), Vec2(ax.vel, ay.vel))
  {
    PredictState(Join(ax, ay).x, dt);
  }

  lemma UnscaledCore(ax: Axis, ay: Axis, Q: Mat4, dt: real)
    ensures PredictedCore(Join(ax, ay), Q, dt, 1.0) == PredictCov(ax.cov, dt, Core(Q))
  {
    assert Core(Q).Scale(1.0) == Core(Q);
    assert Core(Lift(ax.cov)) == ax.cov;
  }

  lemma DistanceIsShared(ax: Axis, ay: Axis, Q: Mat4, meas: Vec2, dt: real, r: real)
    requires Ready(Join(ax, ay), Q, r)
    ensures PredictCov(ax.cov, dt, Core(Q)).a + r > 0.0
    ensures Distance(Join(ax, ay), Q, meas, dt, r) ==
      Residual(ax, ay, meas, dt).Sq() / (PredictCov(ax.cov, dt, Core(Q)).a + r)
  {
    UnscaledCore(ax, ay, Q, dt);
    NextIsRegular(Join(ax, ay), Q, dt, r, 1.0);
    ResidualOfJoin(ax, ay, meas, dt);
    DiagonalDistance(PredictCov(ax.cov, dt, Core(Q)).a + r, Residual(ax, ay, meas, dt));
  }

  lemma CorrectIsJoin(x: Vec4, ax: Axis, ay: Axis, y: Vec2, dt: real, r: real, p: Mat2)
    requires PosDef(p) && r > 0.0 && x == Vec4(Vec2(Ahead(ax, dt), Ahead(ay, dt)), Vec2(ax.vel, ay.vel))
    ensures p.a + r > 0.0 && Innovation(Lift(p), r).Det() != 0.0
    ensures Correct4(x, Lift(p), y, r) ==
      Join(Correct(Ahead(ax, dt), ax.vel, p, y.x, r), Correct(Ahead(ay, dt), ay.vel, p, y.y, r))
  {
    CorrectLiftsCov(x, p, y, r);
    CorrectLiftsState(x, p, y, r);
  }

  lemma NextIsCorrect(t: Tuning, ax: Axis, ay: Axis, Q: Mat4, meas: Vec2, dt: real, r: real, p: Mat2, k: real)
    requires Tuned(t) && Ready(Join(ax, ay), Q, r)
    requires k == Widening(t, Distance(Join(ax, ay), Q, meas, dt, r)) && p == PredictedCore(Join(ax, ay), Q, dt, k)
    ensures p.a + r > 0.0 && PosDef(p)
    ensures var y := Residual(ax, ay, meas, dt);
            Next(t, Join(ax, ay), Q, meas, dt, r) ==
            Join(Correct(Ahead(ax, dt), ax.vel, p, y.x, r), Correct(Ahead(ay, dt), ay.vel, p, y.y, r))
  {
    PredictedIsLifted(Join(ax, ay), Q, dt, k);
    ResidualOfJoin(ax, ay, meas, dt);
    CorrectIsJoin(Transition4(dt).Apply(Join(ax, ay).x), ax, ay, Residual(ax, ay, meas, dt), dt, r, p);
  }

  /**
   Refinement. On a state whose axes are decoupled and alike, an update of the dense filter is
   one update of each of two scalar-measurement filters under the noise they share, and the
   axes stay decoupled, alike and positive definite.
   */
  lemma DenseIsTwoAxes(t: Tuning, ax: Axis, ay: Axis, Q: Mat4, meas: Vec2, dt: real, r: real)
    requires Tuned(t) && r > 0.0 && ax.cov == ay.cov && PosDef(ax.cov) && NoiseOk(Q)
    ensures Ready(Join(ax, ay), Q, r) && PredictCov(ax.cov, dt, Core(Q)).a + r > 0.0
    ensures var q := SharedNoise(t, ax, ay, Core(Q), meas, dt, r);
            PredictCov(ax.cov, dt, q).a + r > 0.0
            && Next(t, Join(ax, ay), Q, meas, dt, r) == Join(AxisStep(ax, meas.x, dt, q, r), AxisStep(ay, meas.y, dt, q, r))
            && AxisStep(ax, meas.x, dt, q, r).cov == AxisStep(ay, meas.y, dt, q, r).cov
            && PosDef(AxisStep(ax, meas.x, dt, q, r).cov)
            && AxisStep(ax, meas.x, dt, q, r).cov.a < r
  {
    var d := Join(ax, ay);
    assert Core(d.P) == ax.cov;
    DistanceIsShared(ax, ay, Q, meas, dt, r);
    var k := Widening(t, Distance(d, Q, meas, dt, r));
    var p := PredictedCore(d, Q, dt, k);
    var q := SharedNoise(t, ax, ay, Core(Q), meas, dt, r);
    assert q == Core(Q).Scale(k);
    assert p == PredictCov(ax.cov, dt, q) == PredictCov(ay.cov, dt, q);
    NextIsCorrect(t, ax, ay, Q, meas, dt, r, p, k);
    CorrectKeepsPosDef(Ahead(ax, dt), ax.vel, p, Off(ax, meas.x, dt), r);
  }

  lemma NextIsDecoupled(t: Tuning, d: Dense, Q: Mat4, meas: Vec2, dt: real, r: real)
    requires Tuned(t) && Ready(d, Q, r)
    ensures Decoupled(Next(t, d, Q, meas, dt, r).P)
    ensures Core(Next(t, d, Q, meas, dt, r).P).a < r
  {
    var c := Core(d.P);
    var ax, ay := Axis(d.x.pos.x, d.x.vel.x, c), Axis(d.x.pos.y, d.x.vel.y, c);
    assert Join(ax, ay) == d;
    DenseIsTwoAxes(t, ax, ay, Q, meas, dt, r);
  }

  // ---------- whole lives of the filter ----------

  datatype Op = Reset | Force(px: real, py: real) | Measure(meas: Vec2, dt: real, r: real)

  ghost predicate Fit(ops: seq<Op>) {
    forall i :: 0 <= i < |ops| && ops[i].Measure? ==> ops[i].r > 0.0
  }

  function Do(t: Tuning, d: Dense, op: Op): Dense
    requires Tuned(t) && Decoupled(d.P) && (op.Measure? ==> op.r > 0.0)
  {
    match op
    case Reset => Dense(Vec4(ZERO, ZERO), Lift(Diag(10.0)))
    case Force(px, py) => Dense(Vec4(Vec2(px, py), ZERO), Lift(Diag(0.01)))
    case Measure(meas, dt, r) =>
      if dt <= 0.0001 then d
      else
        NoiseIsOk(dt, t.sigmaA);
        Next(t, d, Noise4(dt, t.sigmaA), meas, dt, r)
  }

  /** The same on two axis filters, one per coordinate. */
  function DoAxes(t: Tuning, ax: Axis, ay: Axis, op: Op): (Axis, Axis)
    requires Tuned(t) && ax.cov == ay.cov && PosDef(ax.cov) && (op.Measure? ==> op.r > 0.0)
  {
    match op
    case Reset => (Axis(0.0, 0.0, Diag(10.0)), Axis(0.0, 0.0, Diag(10.0)))
    case Force(px, py) => (Axis(px, 0.0, Diag(0.01)), Axis(py, 0.0, Diag(0.01)))
    case Measure(meas, dt, r) =>
      if dt <= 0.0001 then (ax, ay)
      else
        NoiseIsOk(dt, t.sigmaA);
        DenseIsTwoAxes(t, ax, ay, Noise4(dt, t.sigmaA), meas, dt, r);
        var q := SharedNoise(t, ax, ay, Core(Noise4(dt, t.sigmaA)), meas, dt, r);
        (AxisStep(ax, meas.x, dt, q, r), AxisStep(ay, meas.y, dt, q, r))
  }

  lemma DoIsTwoAxes(t: Tuning, ax: Axis, ay: Axis, op: Op)
    requires Tuned(t) && ax.cov == ay.cov && PosDef(ax.cov) && (op.Measure? ==> op.r > 0.0)
    ensures Decoupled(Join(ax, ay).P)
    ensures var (bx, by') := DoAxes(t, ax, ay, op);
            Do(t, Join(ax, ay), op) == Join(bx, by') && bx.cov == by'.cov && PosDef(bx.cov)
  {
    assert Core(Join(ax, ay).P) == ax.cov;
    if op.Measure? && op.dt > 0.0001 {
      NoiseIsOk(op.dt, t.sigmaA);
      DenseIsTwoAxes(t, ax, ay, Noise4(op.dt, t.sigmaA), op.meas, op.dt, op.r);
    } else {
      DiagIsPosDef(10.0);
      DiagIsPosDef(0.01);
    }
  }

  /** The end of a run of the two axis filters. */
  function RunAxes(t: Tuning, ax: Axis, ay: Axis, ops: seq<Op>): (r: (Axis, Axis))
    requires Tuned(t) && ax.cov == ay.cov && PosDef(ax.cov) && Fit(ops)
    ensures r.0.cov == r.1.cov && PosDef(r.0.cov)
    decreases |ops|
  {
    if ops == [] then (ax, ay)
    else
      DoIsTwoAxes(t, ax, ay, ops[0]);
      var (bx, by') := DoAxes(t, ax, ay, ops[0]);
      RunAxes(t, bx, by', ops[1..])
  }

  lemma DoIsDecoupled(t: Tuning, d: Dense, op: Op)
    requires Tuned(t) && Decoupled(d.P) && (op.Measure? ==> op.r > 0.0)
    ensures Decoupled(Do(t, d, op).P)
  {
    if op.Measure? && op.dt > 0.0001 {
      NoiseIsOk(op.dt, t.sigmaA);
      NextIsDecoupled(t, d, Noise4(op.dt, t.sigmaA), op.meas, op.dt, op.r);
    } else {
      DiagIsPosDef(10.0);
      DiagIsPosDef(0.01);
    }
  }

  /** The end of a run of the dense filter; its axes are decoupled and alike all along. */
  function RunDense(t: Tuning, d: Dense, ops: seq<Op>): (r: Dense)
    requires Tuned(t) && Decoupled(d.P) && Fit(ops)
    ensures Decoupled(r.P)
    decreases |ops|
  {
    if ops == [] then d
    else
      DoIsDecoupled(t, d, ops[0]);
      RunDense(t, Do(t, d, ops[0]), ops[1..])
  }

  /** Over every run of resets, forced states and measurements the dense filter is the two axis filters. */
  lemma {:induction false} RunIsTwoAxes(t: Tuning, ax: Axis, ay: Axis, ops: seq<Op>)
    requires Tuned(t) && ax.cov == ay.cov && PosDef(ax.cov) && Fit(ops)
    ensures Decoupled(Join(ax, ay).P)
    ensures RunDense(t, Join(ax, ay), ops) == Join(RunAxes(t, ax, ay, ops).0, RunAxes(t, ax, ay, ops).1)
    decreases |ops|
  {
    assert Core(Join(ax, ay).P) == ax.cov;
    if ops != [] {
      DoIsTwoAxes(t, ax, ay, ops[0]);
      var (bx, by') := DoAxes(t, ax, ay, ops[0]);
      RunIsTwoAxes(t, bx, by', ops[1..]);
    }
  }

  // ---------- the yaw filter ----------

  datatype YawState = YawState(yaw: real, rate: real, P: Mat2)

  const YAW_Q := 0.05
  const YAW_R := 0.5

  function YawPredicted(s: YawState, dt: real): Mat2 {
    PredictCov(s.P, dt, Diag(YAW_Q))
  }

  lemma YawPredictedPosDef(s: YawState, dt: real)
    requires PosDef(s.P)
    ensures PosDef(YawPredicted(s, dt)) && YawPredicted(s, dt).a + YAW_R > 0.0
  {
    DiagonalNoiseIsHarmless(YAW_Q);
    PredictKeepsPosDef(s.P, dt, Diag(YAW_Q));
  }

  function YawAhead(s: YawState, dt: real): real { s.yaw + dt * s.rate }

  /** One measurement: the axis filter, with every angle normalised on the way. */
  function YawNext(normalize: real -> real, s: YawState, meas: real, dt: real): YawState
    requires PosDef(s.P)
  {
    YawPredictedPosDef(s, dt);
    var yaw := normalize(YawAhead(s, dt));
    var c := Correct(yaw, s.rate, YawPredicted(s, dt), normalize(meas - yaw), YAW_R);
    YawState(normalize(c.pos), c.vel, c.cov)
  }

  lemma YawStaysPosDef(normalize: real -> real, s: YawState, meas: real, dt: real)
    requires PosDef(s.P)
    ensures YawPredicted(s, dt).a + YAW_R > 0.0
    ensures PosDef(YawNext(normalize, s, meas, dt).P)
    ensures YawNext(normalize, s, meas, dt).P.a < YAW_R
    ensures YawNext(normalize, s, meas, dt).P.Det() ==
      YawPredicted(s, dt).Det() * (YAW_R / (YawPredicted(s, dt).a + YAW_R))
  {
    var yaw := normalize(YawAhead(s, dt));
    YawPredictedPosDef(s, dt);
    CorrectKeepsPosDef(yaw, s.rate, YawPredicted(s, dt), normalize(meas - yaw), YAW_R);
  }

  lemma DiagIsPosDef(k: real)
    requires k > 0.0
    ensures PosDef(Diag(k)) && Core(Lift(Diag(k))) == Diag(k)
  {
    assert Times(k, k) > 0.0;
  }

  class KalmanFilterYaw {
    const normalize: real -> real
    var yaw: real
    var rate: real
    var P: Mat2
    var F: Mat2

    ghost function View(): YawState reads this { YawState(yaw, rate, P) }

    ghost predicate Valid() reads this {
      PosDef(P) && F.a == 1.0 && F.c == 0.0 && F.d == 1.0
    }

    constructor (normalize: real -> real)
      ensures Valid() && View() == YawState(0.0, 0.0, I2) && this.normalize == normalize
    {
      this.normalize := normalize;
      yaw, rate, P, F := 0.0, 0.0, I2, I2;
    }

    method Reset(initialYaw: real)
      requires Valid()
      modifies this
      ensures Valid() && View() == YawState(initialYaw, 0.0, I2)
    {
      yaw, rate, P := initialYaw, 0.0, I2;
    }

    method ForceSetState(y: real)
      requires Valid()
      modifies this
      ensures Valid() && View() == YawState(y, 0.0, Diag(0.01))
    {
      DiagIsPosDef(0.01);
      yaw, rate, P := y, 0.0, Diag(0.01);
    }

    method Update(meas: real, dt: real)
      requires Valid()
      modifies this
      ensures Valid()
      ensures dt <= 0.0 ==> unchanged(this)
      ensures dt > 0.0 ==> View() == YawNext(normalize, old(View()), meas, dt) && P.a < YAW_R
    {
      if dt <= 0.0 { return; }
      YawStaysPosDef(normalize, View(), meas, dt);
      Predict(dt);
      var innovation := normalize(meas - yaw);
      CorrectWith(innovation, P.a + 0.5);
      yaw := normalize(yaw);
    }

    method Predict(dt: real)
      requires F.a == 1.0 && F.c == 0.0 && F.d == 1.0
      modifies this`F, this`yaw, this`P
      ensures F == Transition(dt) && yaw == normalize(YawAhead(old(View()), dt)) && P == YawPredicted(old(View()), dt)
    {
      ghost var s := View();
      F := F.(b := dt);
      var ahead := yaw + dt * rate;
      assert ahead == YawAhead(s, dt);
      yaw := normalize(ahead);
      P := F.Mul(P).Mul(F.T()).Plus(Diag(0.05));
    }

    /** The correction, with the gain computed from the innovation variance `S`. */
    method CorrectWith(innovation: real, S: real)
      requires S == P.a + YAW_R && S != 0.0
      modifies this`yaw, this`rate, this`P
      ensures Axis(yaw, rate, P) == Correct(old(yaw), old(rate), old(P), innovation, YAW_R)
    {
      var k1, k2 := P.a / S, P.c / S;
      yaw, rate := yaw + k1 * innovation, rate + k2 * innovation;
      P := I2.Minus(Mat2(k1, 0.0, k2, 0.0)).Mul(P);
    }
  }
}
