/**
 What an update of the filters does to the estimate: it is drawn towards the measurement, and by the share
 that leaves the least variance of all linear corrections.
 */
module KalmanMeaning {
  import opened Basics
  import opened Planar
  import opened Matrices
  import opened Kalman
  import Angles

  // ---------- prediction ----------

  /**
   The predicted covariance is that of the predicted state: the variance of `x` times the position after `dt`, plus
   `y` times the velocity, is that of the same sum before, plus that of the noise.
   */
  lemma PredictionVariance(p: Mat2, dt: real, q: Mat2, x: real, y: real)
    ensures Form(PredictCov(p, dt, q), Vec2(x, y)) == Form(p, Vec2(x, dt * x + y)) + Form(q, Vec2(x, y))
  {
  }

  /** The process noise is that of one random acceleration throughout the step. */
  lemma NoiseOfAcceleration(dt: real, k: real, x: real, y: real)
    ensures Form(AxisNoise(dt, k), Vec2(x, y)) == Times(k, Square(x * (dt * dt / 2.0) + y * dt))
  {
  }

  // ---------- correction ----------

  /** The variance that is left in `v` times the state, when its estimate moves by `s` times what the measurement is off. */
  function ErrorVariance(p: Mat2, r: real, v: Vec2, s: real): real {
    Err(p.a, p.b, p.d, r, v.x, v.y, s)
  }

  function Err(a: real, b: real, d: real, r: real, x: real, y: real, s: real): real {
    a * ((x - s) * (x - s)) + (b + b) * ((x - s) * y) + d * (y * y) + Times(r, Square(s))
  }

  /** It is the variance of `v` times the state without `s` times the position, plus `s` times the noise. */
  lemma ErrorVarianceIsForm(p: Mat2, r: real, v: Vec2, s: real)
    requires p.b == p.c
    ensures ErrorVariance(p, r, v, s) == Form(p, Vec2(v.x - s, v.y)) + Times(r, Square(s))
  {
  }

  /**
   The correction is the best linear one: in every direction the estimate moves by a share of what the measurement
   is off, the corrected covariance is the variance that this share leaves, and any other share leaves more.
   */
  lemma CorrectionIsBest(pos: real, vel: real, p: Mat2, y: real, r: real, v: Vec2) returns (s: real)
    requires PosDef(p) && r > 0.0
    ensures var n := Correct(pos, vel, p, y, r);
            && v.x * (n.pos - pos) + v.y * (n.vel - vel) == s * y
            && Form(n.cov, v) == ErrorVariance(p, r, v, s)
    ensures forall other :: other != s ==> ErrorVariance(p, r, v, other) > ErrorVariance(p, r, v, s)
  {
    var S := p.a + r;
    var k1, k2 := p.a / S, p.c / S;
    s := v.x * k1 + v.y * k2;
    var n := Correct(pos, vel, p, y, r);
    Moves(v.x, v.y, k1, k2, y);
    CorrectedForm(pos, vel, p, y, r, v, k1, k2, s);
    forall other | other != s ensures ErrorVariance(p, r, v, other) > ErrorVariance(p, r, v, s) {
      WorseShare(p, r, v, s, other);
    }
  }

  lemma CorrectedForm(pos: real, vel: real, p: Mat2, y: real, r: real, v: Vec2, k1: real, k2: real, s: real)
    requires PosDef(p) && r > 0.0 && k1 == p.a / (p.a + r) && k2 == p.c / (p.a + r) && s == v.x * k1 + v.y * k2
    ensures s * (p.a + r) == p.a * v.x + p.b * v.y
    ensures Form(Correct(pos, vel, p, y, r).cov, v) == ErrorVariance(p, r, v, s)
  {
    var S := p.a + r;
    assert k1 * S == p.a && k2 * S == p.b;
    CorrectedCov(p, k1, k2);
    LeftOver(p.a, p.b, p.d, r, S, k1, k2, v.x, v.y, s);
  }

  lemma CorrectedCov(p: Mat2, k1: real, k2: real)
    ensures I2.Minus(Mat2(k1, 0.0, k2, 0.0)).Mul(p) == Mat2((1.0 - k1) * p.a, (1.0 - k1) * p.b, p.c - k2 * p.a, p.d - k2 * p.b)
  {
    assert I2.Minus(Mat2(k1, 0.0, k2, 0.0)) == Mat2(1.0 - k1, 0.0, -k2, 1.0);
    assert -k2 * p.a == -(k2 * p.a) && -k2 * p.b == -(k2 * p.b);
  }

  lemma WorseShare(p: Mat2, r: real, v: Vec2, s: real, other: real)
    requires p.b == p.c && p.a + r > 0.0 && s * (p.a + r) == p.a * v.x + p.b * v.y && other != s
    ensures ErrorVariance(p, r, v, other) > ErrorVariance(p, r, v, s)
  {
    Parabola(p.a, p.b, p.d, r, p.a + r, v.x, v.y, s, other);
  }

  lemma Moves(x: real, y: real, k1: real, k2: real, e: real)
    ensures x * (k1 * e) + y * (k2 * e) == (x * k1 + y * k2) * e
  {
  }

  lemma LeftOver(a: real, b: real, d: real, r: real, S: real, k1: real, k2: real, x: real, y: real, s: real)
    requires S == a + r && k1 * S == a && k2 * S == b && s == x * k1 + y * k2
    ensures s * S == a * x + b * y
    ensures (1.0 - k1) * a * (x * x) + ((1.0 - k1) * b + (b - k2 * a)) * (x * y) + (d - k2 * b) * (y * y) == Err(a, b, d, r, x, y, s)
  {
    var g := a * x + b * y;
    assert s * S == x * (k1 * S) + y * (k2 * S) == g;
    var F := a * (x * x) + (b + b) * (x * y) + d * (y * y);
    assert a * ((x - s) * (x - s)) + (b + b) * ((x - s) * y) + d * (y * y) == F - 2.0 * (s * g) + a * (s * s);
    assert a * (s * s) + r * (s * s) == S * (s * s) == s * (s * S);
    assert s * g == x * x * (k1 * a) + x * y * (k1 * b + k2 * a) + y * y * (k2 * b);
  }

  lemma Parabola(a: real, b: real, d: real, r: real, S: real, x: real, y: real, s: real, o: real)
    requires S == a + r && S > 0.0 && s * S == a * x + b * y && o != s
    ensures Err(a, b, d, r, x, y, o) > Err(a, b, d, r, x, y, s)
  {
    var g := a * x + b * y;
    var F := a * (x * x) + (b + b) * (x * y) + d * (y * y);
    Expand(a, b, d, r, S, x, y, s, g, F);
    Expand(a, b, d, r, S, x, y, o, g, F);
    assert S * (o * o) - 2.0 * (o * g) - (S * (s * s) - 2.0 * (s * g)) == S * ((o - s) * (o - s)) by {
      assert o * g == o * (s * S) && s * g == s * (s * S);
      Difference(S, o, s);
    }
    assert Times(S, Square(o - s)) > 0.0;
  }

  lemma Difference(S: real, o: real, s: real)
    ensures S * (o * o) - 2.0 * (o * (s * S)) - (S * (s * s) - 2.0 * (s * (s * S))) == S * ((o - s) * (o - s))
  {
  }

  lemma Expand(a: real, b: real, d: real, r: real, S: real, x: real, y: real, s: real, g: real, F: real)
    requires S == a + r && g == a * x + b * y && F == a * (x * x) + (b + b) * (x * y) + d * (y * y)
    ensures Err(a, b, d, r, x, y, s) == F - 2.0 * (s * g) + S * (s * s)
  {
  }

  /** The share of the residual that the corrected quantity takes over: strictly between none and all. */
  lemma CorrectionContracts(pos: real, vel: real, p: Mat2, y: real, r: real) returns (k: real)
    requires PosDef(p) && r > 0.0
    ensures 0.0 < k < 1.0 && Times(k, p.a + r) == p.a
    ensures var n := Correct(pos, vel, p, y, r);
            n.pos == pos + Times(k, y) && Times(n.vel - vel, p.a) == Times(p.c, Times(k, y))
  {
    var S := p.a + r;
    k := p.a / S;
    var k2 := p.c / S;
    assert k * S == p.a && k2 * S == p.c;
    Shares(p.a, r, S, k, r / S);
    RateShare(p.a, p.c, S, k, k2, y);
  }

  lemma RateShare(a: real, c: real, S: real, k: real, k2: real, y: real)
    requires k * S == a && k2 * S == c
    ensures Times(k2 * y, a) == Times(c, Times(k, y))
  {
    assert k2 * y * a == k2 * y * (k * S) == (k2 * S) * (k * y);
  }

  /** One update of one axis leaves strictly less of the residual, and the velocity follows. */
  lemma AxisIsDrawnToMeasurement(a: Axis, z: real, dt: real, q: Mat2, r: real) returns (k: real)
    requires PosDef(a.cov) && Harmless(q) && r > 0.0
    ensures PosDef(PredictCov(a.cov, dt, q)) && PredictCov(a.cov, dt, q).a + r > 0.0 && 0.0 < k < 1.0
    ensures var p, n, ahead := PredictCov(a.cov, dt, q), AxisStep(a, z, dt, q, r), a.pos + dt * a.vel;
            && Times(k, p.a + r) == p.a
            && z - n.pos == Times(1.0 - k, z - ahead)
            && Times(n.vel - a.vel, p.a) == Times(p.c, Times(k, z - ahead))
  {
    PredictKeepsPosDef(a.cov, dt, q);
    var y := z - (a.pos + dt * a.vel);
    k := CorrectionContracts(a.pos + dt * a.vel, a.vel, PredictCov(a.cov, dt, q), y, r);
    assert Times(1.0 - k, y) == y - Times(k, y);
  }

  /** And so on both axes of the dense filter, by the same share. */
  lemma DenseIsDrawnToMeasurement(t: Tuning, ax: Axis, ay: Axis, Q: Mat4, meas: Vec2, dt: real, r: real) returns (k: real)
    requires Tuned(t) && r > 0.0 && ax.cov == ay.cov && PosDef(ax.cov) && NoiseOk(Q)
    ensures 0.0 < k < 1.0 && Ready(Join(ax, ay), Q, r)
    ensures var n := Next(t, Join(ax, ay), Q, meas, dt, r).x;
            && meas.x - n.pos.x == Times(1.0 - k, meas.x - (ax.pos + dt * ax.vel))
            && meas.y - n.pos.y == Times(1.0 - k, meas.y - (ay.pos + dt * ay.vel))
  {
    DenseIsTwoAxes(t, ax, ay, Q, meas, dt, r);
    var q := SharedNoise(t, ax, ay, Core(Q), meas, dt, r);
    ScaledIsHarmless(t, ax, ay, Q, meas, dt, r);
    k := AxisIsDrawnToMeasurement(ax, meas.x, dt, q, r);
    var k' := AxisIsDrawnToMeasurement(ay, meas.y, dt, q, r);
    SameShare(k, k', PredictCov(ax.cov, dt, q).a + r);
  }

  lemma SameShare(k: real, k': real, s: real)
    requires s > 0.0 && Times(k, s) == Times(k', s)
    ensures k == k'
  {
    assert (k - k') * s == 0.0;
  }

  lemma ScaledIsHarmless(t: Tuning, ax: Axis, ay: Axis, Q: Mat4, meas: Vec2, dt: real, r: real)
    requires Tuned(t) && r > 0.0 && PosDef(ax.cov) && NoiseOk(Q) && PredictCov(ax.cov, dt, Core(Q)).a + r > 0.0
    ensures Harmless(SharedNoise(t, ax, ay, Core(Q), meas, dt, r))
  {
  }

  // ---------- the tuning ----------

  /** The noise is widened only beyond the threshold: by as much as brings the residual back to it, or the most allowed. */
  lemma WideningExactly(t: Tuning, eps: real)
    requires Tuned(t)
    ensures eps <= t.threshold ==> Widening(t, eps) == 1.0
    ensures eps > t.threshold ==>
      Widening(t, eps) <= t.maxScale && Times(Widening(t, eps), t.threshold) <= eps &&
      (Widening(t, eps) == t.maxScale || Times(Widening(t, eps), t.threshold) == eps)
  {
  }

  /** The measurement noise: that of the base up to 2 m, then with the square of the height; and with the rate. */
  lemma MeasurementNoiseExactly(t: Tuning, z: real, rate: real)
    ensures z <= 2.0 ==> MeasurementNoise(t, z, rate) == t.baseR * (1.0 + 5.0 * rate)
    ensures z >= 2.0 ==> 4.0 * MeasurementNoise(t, z, rate) == t.baseR * (z * z) * (1.0 + 5.0 * rate)
  {
  }

  lemma MeasurementNoiseGrows(t: Tuning, z: real, z': real, rate: real, rate': real)
    requires t.baseR > 0.0 && z <= z' && 0.0 <= rate <= rate'
    ensures 0.0 < MeasurementNoise(t, z, rate) <= MeasurementNoise(t, z', rate')
    ensures 2.0 <= z < z' || rate < rate' ==> MeasurementNoise(t, z, rate) < MeasurementNoise(t, z', rate')
  {
    var h, h' := Max(1.0, z / 2.0), Max(1.0, z' / 2.0);
    var b, b' := t.baseR * h * h, t.baseR * h' * h';
    SquareOrder(h, h');
    assert Times(t.baseR, h' * h' - h * h) == b' - b;
    assert Times(t.baseR, Square(h)) == b;
    if h < h' { StrictSquareOrder(h, h'); }
    Grows(b, b', 1.0 + rate * 5.0, 1.0 + rate' * 5.0);
  }

  lemma Grows(b: real, b': real, f: real, f': real)
    requires 0.0 < b <= b' && 0.0 < f <= f'
    ensures 0.0 < b * f <= b' * f'
    ensures b < b' || f < f' ==> b * f < b' * f'
  {
    assert b' * f' - b * f == Times(b' - b, f') + Times(b, f' - f);
    assert Times(b, f) > 0.0;
  }

  // ---------- the yaw filter ----------

  /** The representative in (-pi, pi]. */
  ghost predicate NormLaw(normalize: real -> real, x: real) {
    -Angles.PI < normalize(x) <= Angles.PI && Angles.Congruent(normalize(x), x)
  }

  ghost predicate Normalises(normalize: real -> real) {
    forall x :: NormLaw(normalize, x)
  }

  lemma CongruentSum(a: real, b: real, c: real, d: real)
    requires Angles.Congruent(a, b) && Angles.Congruent(c, d)
    ensures Angles.Congruent(a + c, b + d) && Angles.Congruent(a - c, b - d)
  {
    var n: int :| Angles.TurnsApart(a, b, n);
    var k: int :| Angles.TurnsApart(c, d, k);
    assert Angles.TurnsApart(a + c, b + d, n + k);
    assert Angles.TurnsApart(a - c, b - d, n - k);
  }

  lemma Itself(a: real)
    ensures Angles.Congruent(a, a)
  {
    assert Angles.TurnsApart(a, a, 0);
  }

  lemma OnlyOne(normalize: real -> real, a: real, x: real)
    requires NormLaw(normalize, x) && -Angles.PI < a <= Angles.PI && Angles.Congruent(a, x)
    ensures normalize(x) == a
  {
    CongruentSum(a, x, normalize(x), x);
    var d: int :| Angles.TurnsApart(a - normalize(x), x - x, d);
    assert a - normalize(x) == d as real * Angles.TWO_PI;
    assert -1 < d < 1;
  }

  /** The shortest turn from a yaw to the measurement. */
  function TurnTo(normalize: real -> real, yaw: real, meas: real): real { normalize(meas - yaw) }

  lemma YawParts(normalize: real -> real, s: YawState, meas: real, dt: real, ahead: real, turn: real) returns (k: real)
    requires PosDef(s.P) && ahead == normalize(s.yaw + dt * s.rate) && turn == normalize(meas - ahead)
    ensures 0.0 < k < 1.0 && Times(k, YawPredicted(s, dt).a + 0.5) == YawPredicted(s, dt).a
    ensures YawNext(normalize, s, meas, dt).yaw == normalize(ahead + Times(k, turn))
    ensures Times(YawNext(normalize, s, meas, dt).rate - s.rate, YawPredicted(s, dt).a) == Times(YawPredicted(s, dt).c, Times(k, turn))
  {
    YawPredictedPosDef(s, dt);
    k := CorrectionContracts(ahead, s.rate, YawPredicted(s, dt), turn, YAW_R);
    var c := Correct(ahead, s.rate, YawPredicted(s, dt), turn, YAW_R);
    assert YawAhead(s, dt) == s.yaw + dt * s.rate;
    assert YawNext(normalize, s, meas, dt) == YawState(normalize(c.pos), c.vel, c.cov);
  }

  /** The turn is the shortest one from the prediction to the measurement. */
  lemma TurnFromAhead(normalize: real -> real, next: real, meas: real)
    requires Normalises(normalize)
    ensures var ahead := normalize(next);
            && Angles.Congruent(ahead, next)
            && -Angles.PI < normalize(meas - ahead) <= Angles.PI && Angles.Congruent(normalize(meas - ahead), meas - next)
  {
    var ahead := normalize(next);
    assert NormLaw(normalize, next) && NormLaw(normalize, meas - ahead);
    Itself(meas);
    CongruentSum(meas, meas, ahead, next);
    Chain(normalize(meas - ahead), meas - ahead, meas - next);
  }

  /**
   One update of the yaw: it goes from the predicted yaw along the shortest turn to the measurement, by a share strictly
   between none and all; what is left is that much shorter, and the rate follows.
   */
  lemma YawIsDrawnToMeasurement(normalize: real -> real, s: YawState, meas: real, dt: real) returns (k: real, ahead: real, turn: real)
    requires Normalises(normalize) && PosDef(s.P)
    ensures 0.0 < k < 1.0 && Angles.Congruent(ahead, s.yaw + dt * s.rate)
    ensures -Angles.PI < turn <= Angles.PI && Angles.Congruent(turn, meas - (s.yaw + dt * s.rate))
    ensures Times(k, YawPredicted(s, dt).a + 0.5) == YawPredicted(s, dt).a
    ensures Times(YawNext(normalize, s, meas, dt).rate - s.rate, YawPredicted(s, dt).a) == Times(YawPredicted(s, dt).c, Times(k, turn))
    ensures Angles.Congruent(YawNext(normalize, s, meas, dt).yaw, ahead + Times(k, turn))
    ensures var left := TurnTo(normalize, YawNext(normalize, s, meas, dt).yaw, meas);
            left == Times(1.0 - k, turn) && Abs(left) <= Abs(turn) && (turn != 0.0 ==> Abs(left) < Abs(turn))
  {
    ahead := normalize(s.yaw + dt * s.rate);
    turn := normalize(meas - ahead);
    TurnFromAhead(normalize, s.yaw + dt * s.rate, meas);
    k := YawParts(normalize, s, meas, dt, ahead, turn);
    assert NormLaw(normalize, ahead + Times(k, turn));
    Remaining(normalize, normalize(ahead + Times(k, turn)), ahead, turn, k, meas);
  }

  lemma Chain(a: real, b: real, c: real)
    requires Angles.Congruent(a, b) && Angles.Congruent(b, c)
    ensures Angles.Congruent(a, c)
  {
    var n: int :| Angles.TurnsApart(a, b, n);
    var k: int :| Angles.TurnsApart(b, c, k);
    assert Angles.TurnsApart(a, c, n + k);
  }

  lemma Remaining(normalize: real -> real, yaw: real, ahead: real, turn: real, k: real, meas: real)
    requires Normalises(normalize) && 0.0 < k < 1.0 && turn == normalize(meas - ahead)
    requires Angles.Congruent(yaw, ahead + Times(k, turn))
    ensures TurnTo(normalize, yaw, meas) == Times(1.0 - k, turn)
    ensures Abs(Times(1.0 - k, turn)) <= Abs(turn) && (turn != 0.0 ==> Abs(Times(1.0 - k, turn)) < Abs(turn))
  {
    assert NormLaw(normalize, meas - ahead) && NormLaw(normalize, meas - yaw);
    Itself(meas);
    Itself(Times(k, turn));
    CongruentSum(meas, meas, yaw, ahead + Times(k, turn));
    CongruentSum(turn, meas - ahead, Times(k, turn), Times(k, turn));
    var left := turn - Times(k, turn);
    assert left == Times(1.0 - k, turn);
    Back(left, meas - ahead - Times(k, turn), meas - yaw);
    ShorterTurn(k, turn);
    OnlyOne(normalize, left, meas - yaw);
  }

  lemma Back(a: real, b: real, c: real)
    requires Angles.Congruent(a, b) && Angles.Congruent(c, b)
    ensures Angles.Congruent(a, c)
  {
    var n: int :| Angles.TurnsApart(a, b, n);
    var k: int :| Angles.TurnsApart(c, b, k);
    assert Angles.TurnsApart(a, c, n - k);
  }

  lemma ShorterTurn(k: real, turn: real)
    requires 0.0 < k < 1.0
    ensures turn > 0.0 ==> 0.0 < Times(1.0 - k, turn) < turn
    ensures turn < 0.0 ==> turn < Times(1.0 - k, turn) < 0.0
    ensures turn == 0.0 ==> Times(1.0 - k, turn) == 0.0
  {
    assert Times(1.0 - k, turn) + Times(k, turn) == turn;
    Negated(1.0 - k, turn);
    Negated(k, turn);
  }

  lemma Negated(a: real, b: real)
    ensures Times(a, -b) == -Times(a, b)
  {
  }
}
