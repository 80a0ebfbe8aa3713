/**
 Two-by-two matrices, and four-by-four matrices as blocks of them. The 4-state filter orders its
 state as position then velocity, so entry (i, j) of one of its matrices lies in block
 (i / 2, j / 2) at (i % 2, j % 2).
 */
module Matrices {
  import opened Basics
  import opened Planar

  /** Rows (a b) and (c d). */
  datatype Mat2 = Mat2(a: real, b: real, c: real, d: real) {
    function Plus(o: Mat2): Mat2 { Mat2(a + o.a, b + o.b, c + o.c, d + o.d) }

    function Minus(o: Mat2): Mat2 { Mat2(a - o.a, b - o.b, c - o.c, d - o.d) }

    function Scale(k: real): Mat2 { Mat2(a * k, b * k, c * k, d * k) }

    function Mul(o: Mat2): Mat2 {
      Mat2(a * o.a + b * o.c, a * o.b + b * o.d, c * o.a + d * o.c, c * o.b + d * o.d)
    }

    function T(): Mat2 { Mat2(a, c, b, d) }

    function Apply(v: Vec2): Vec2 { Vec2(a * v.x + b * v.y, c * v.x + d * v.y) }

    function Det(): real { a * d - b * c }

    function Inverse(): Mat2
      requires Det() != 0.0
    {
      Mat2(d / Det(), -b / Det(), -c / Det(), a / Det())
    }
  }

  /** `k` times the identity. */
  function Diag(k: real): Mat2 { Mat2(k, 0.0, 0.0, k) }

  const I2: Mat2 := Diag(1.0)
  const O2: Mat2 := Diag(0.0)

  /** A 4-vector: positions, then velocities. */
  datatype Vec4 = Vec4(pos: Vec2, vel: Vec2) {
    function Plus(o: Vec4): Vec4 { Vec4(pos.Plus(o.pos), vel.Plus(o.vel)) }
  }

  /** A 4x2 matrix. */
  datatype Tall = Tall(top: Mat2, bottom: Mat2) {
    function MulRight(m: Mat2): Tall { Tall(top.Mul(m), bottom.Mul(m)) }

    function Apply(v: Vec2): Vec4 { Vec4(top.Apply(v), bottom.Apply(v)) }

    /** The product with the 2x4 observation matrix (I 0). */
    function Observed(): Mat4 { Mat4(top, O2, bottom, O2) }
  }

  datatype Mat4 = Mat4(tl: Mat2, tr: Mat2, bl: Mat2, br: Mat2) {
    function Plus(o: Mat4): Mat4 { Mat4(tl.Plus(o.tl), tr.Plus(o.tr), bl.Plus(o.bl), br.Plus(o.br)) }

    function Minus(o: Mat4): Mat4 { Mat4(tl.Minus(o.tl), tr.Minus(o.tr), bl.Minus(o.bl), br.Minus(o.br)) }

    function Scale(k: real): Mat4 { Mat4(tl.Scale(k), tr.Scale(k), bl.Scale(k), br.Scale(k)) }

    function Mul(o: Mat4): Mat4 {
      Mat4(tl.Mul(o.tl).Plus(tr.Mul(o.bl)), tl.Mul(o.tr).Plus(tr.Mul(o.br)),
           bl.Mul(o.tl).Plus(br.Mul(o.bl)), bl.Mul(o.tr).Plus(br.Mul(o.br)))
    }

    function T(): Mat4 { Mat4(tl.T(), bl.T(), tr.T(), br.T()) }

    function Apply(v: Vec4): Vec4 {
      Vec4(tl.Apply(v.pos).Plus(tr.Apply(v.vel)), bl.Apply(v.pos).Plus(br.Apply(v.vel)))
    }

    /** The product with the transposed observation matrix. */
    function ObservedT(): Tall { Tall(tl, bl) }
  }

  const I4: Mat4 := Mat4(I2, O2, O2, I2)

  // ---------- a 2x2 matrix acting alike on both axes ----------

  /** The matrix that acts on each axis' (position, velocity) as `p` does. */
  function Lift(p: Mat2): Mat4 {
    Mat4(Diag(p.a), Diag(p.b), Diag(p.c), Diag(p.d))
  }

  lemma DiagMul(k: real, l: real)
    ensures Diag(k).Mul(Diag(l)) == Diag(k * l)
  {
  }

  lemma DiagApply(k: real, v: Vec2)
    ensures Diag(k).Apply(v) == Vec2(k * v.x, k * v.y)
  {
  }

  lemma DiagInverse(k: real)
    requires k != 0.0
    ensures Diag(k).Det() != 0.0 && Diag(k).Inverse() == Diag(1.0 / k)
  {
    var kk := k * k;
    assert Diag(k).Det() == kk;
    assert kk != 0.0;
    SelfRatio(k, kk);
    assert -0.0 / kk == 0.0;
  }

  lemma SelfRatio(k: real, kk: real)
    requires k != 0.0 && kk == k * k && kk != 0.0
    ensures k / kk == 1.0 / k
  {
    var q := k / kk;
    assert q * kk == k;
    assert q * kk == (q * k) * k;
    Unit(q * k, k);
    assert (1.0 / k) * k == 1.0;
    Same(q, 1.0 / k, k);
  }

  lemma Unit(x: real, k: real)
    requires k != 0.0 && x * k == k
    ensures x == 1.0
  {
    assert (x - 1.0) * k == 0.0;
  }

  lemma Same(x: real, y: real, k: real)
    requires k != 0.0 && x * k == y * k
    ensures x == y
  {
    assert (x - y) * k == 0.0;
  }

  /** Lifting respects products, sums, differences, transposes and scaling. */
  lemma LiftMul(p: Mat2, q: Mat2)
    ensures Lift(p).Mul(Lift(q)) == Lift(p.Mul(q))
  {
    DiagMul(p.a, q.a);
    DiagMul(p.b, q.c);
    DiagMul(p.a, q.b);
    DiagMul(p.b, q.d);
    DiagMul(p.c, q.a);
    DiagMul(p.d, q.c);
    DiagMul(p.c, q.b);
    DiagMul(p.d, q.d);
  }

  lemma LiftLinear(p: Mat2, q: Mat2, k: real)
    ensures Lift(p).Plus(Lift(q)) == Lift(p.Plus(q))
    ensures Lift(p).Minus(Lift(q)) == Lift(p.Minus(q))
    ensures Lift(p).Scale(k) == Lift(p.Scale(k))
    ensures Lift(p).T() == Lift(p.T())
    ensures I4 == Lift(I2)
  {
  }

  lemma LiftApply(p: Mat2, v: Vec4)
    ensures Lift(p).Apply(v) ==
      Vec4(Vec2(p.a * v.pos.x + p.b * v.vel.x, p.a * v.pos.y + p.b * v.vel.y),
           Vec2(p.c * v.pos.x + p.d * v.vel.x, p.c * v.pos.y + p.d * v.vel.y))
  {
    DiagApply(p.a, v.pos);
    DiagApply(p.b, v.vel);
    DiagApply(p.c, v.pos);
    DiagApply(p.d, v.vel);
  }

  // ---------- covariances ----------

  /** Symmetric and positive definite, by Sylvester's criterion. */
  ghost predicate PosDef(p: Mat2) {
    p.b == p.c && p.a > 0.0 && p.Det() > 0.0
  }

  /** The quadratic form of `p` at `v`. */
  function Form(p: Mat2, v: Vec2): real {
    p.a * (v.x * v.x) + (p.b + p.c) * (v.x * v.y) + p.d * (v.y * v.y)
  }

  /** Sylvester's criterion says what it should. */
  lemma PosDefForm(p: Mat2, v: Vec2)
    requires PosDef(p) && v != ZERO
    ensures Form(p, v) > 0.0
  {
    FormPositive(p.a, p.b, p.d, v.x, v.y);
  }

  lemma FormPositive(a: real, b: real, d: real, x: real, y: real)
    requires a > 0.0 && a * d - b * b > 0.0 && (x != 0.0 || y != 0.0)
    ensures a * (x * x) + (b + b) * (x * y) + d * (y * y) > 0.0
  {
    var u, f, g := CompleteSquare(a, b, d, x, y);
    if y != 0.0 {
      Divide(a, f, Square(u) + Times(g, Square(y)));
    } else {
      assert u == a * x != 0.0;
      Divide(a, f, Square(u));
    }
  }

  lemma CompleteSquare(a: real, b: real, d: real, x: real, y: real) returns (u: real, f: real, g: real)
    ensures u == a * x + b * y && f == a * (x * x) + (b + b) * (x * y) + d * (y * y) && g == a * d - b * b
    ensures a * f == Square(u) + Times(g, Square(y))
  {
    u, f, g := a * x + b * y, a * (x * x) + (b + b) * (x * y) + d * (y * y), a * d - b * b;
    var yy := y * y;
    assert Square(y) == yy;
    assert a * f == u * u + g * yy;
  }

  /** `k` times the matrix product of `v` with its transpose. */
  function Outer(v: Vec2, k: real): Mat2 {
    Mat2(k * (v.x * v.x), k * (v.x * v.y), k * (v.x * v.y), k * (v.y * v.y))
  }

  /** Adding such a product keeps a covariance positive definite. */
  lemma RankOneUpdate(p: Mat2, v: Vec2, k: real)
    requires PosDef(p) && k >= 0.0
    ensures PosDef(p.Plus(Outer(v, k)))
  {
    var w := Vec2(v.y, -v.x);
    if v != ZERO {
      PosDefForm(p, w);
    }
    RankOneDet(p.a, p.b, p.d, k, v.x, v.y);
    assert Form(p, w) >= 0.0;
    assert Times(k, Form(p, w)) >= 0.0;
    assert Times(k, Square(v.x)) >= 0.0;
  }

  lemma RankOneDet(a: real, b: real, d: real, k: real, x: real, y: real)
    ensures (a + k * (x * x)) * (d + k * (y * y)) - (b + k * (x * y)) * (b + k * (x * y)) ==
      (a * d - b * b) + Times(k, a * (y * y) + (b + b) * (y * -x) + d * (-x * -x))
  {
  }
}
