/**
 Plane vectors and the laws of the C math library that the controllers rely on.

 `hypot`, `sin` and `cos` are parameters: a `MathLib` is any triple of functions, and
 `Lawful` says which of their laws a result uses. Each law sits in a predicate of its own,
 so that an instance has to be asked for by name.
 */
module Planar {
  import opened Basics

  datatype Vec2 = Vec2(x: real, y: real) {
    function Plus(o: Vec2): Vec2 { Vec2(x + o.x, y + o.y) }

    function Minus(o: Vec2): Vec2 { Vec2(x - o.x, y - o.y) }

    function Times(k: real): Vec2 { Vec2(x * k, y * k) }

    function Dot(o: Vec2): real { x * o.x + y * o.y }

    /** The squared length. */
    function Sq(): (r: real)
      ensures r >= 0.0
    {
      x * x + y * y
    }
  }

  const ZERO: Vec2 := Vec2(0.0, 0.0)

  datatype Vec3 = Vec3(x: real, y: real, z: real)

  /** `v` lies in the closed disc of radius `r` around the origin. */
  ghost predicate Within(v: Vec2, r: real) {
    r >= 0.0 && v.Sq() <= r * r
  }

  /** `r` is the length of `v`. */
  ghost predicate IsNorm(v: Vec2, r: real) {
    r >= 0.0 && r * r == v.Sq()
  }

  /** The point a fraction `t` of the way from `a` to `b`. */
  function Toward(a: Vec2, b: Vec2, t: real): Vec2 {
    a.Plus(b.Minus(a).Times(t))
  }

  /** Cap the length of `v` at `limit`; lengths up to `eps` are left alone. `r` is the length of `v`. */
  function Saturate(v: Vec2, limit: real, eps: real, r: real): Vec2
    requires eps > 0.0
  {
    if r > limit && r > eps then Vec2(v.x / r * limit, v.y / r * limit) else v
  }

  datatype MathLib = MathLib(sin: real -> real, cos: real -> real, hypot: (real, real) -> real) {
    function Norm(v: Vec2): real { hypot(v.x, v.y) }
  }

  ghost predicate HypotLaw(m: MathLib, v: Vec2) {
    IsNorm(v, m.Norm(v))
  }

  ghost predicate CircleLaw(m: MathLib, a: real) {
    m.sin(a) * m.sin(a) + m.cos(a) * m.cos(a) == 1.0
  }

  ghost predicate DifferenceLaw(m: MathLib, a: real, b: real) {
    && m.cos(a - b) == m.cos(a) * m.cos(b) + m.sin(a) * m.sin(b)
    && m.sin(a - b) == m.sin(a) * m.cos(b) - m.cos(a) * m.sin(b)
  }

  ghost predicate Lawful(m: MathLib) {
    && (forall v :: HypotLaw(m, v))
    && (forall a :: CircleLaw(m, a))
    && (forall a, b :: DifferenceLaw(m, a, b))
  }

  // ---------- products, squares and order ----------

  /** A product, with the rules of signs. */
  function Times(a: real, b: real): (r: real)
    ensures a > 0.0 && b > 0.0 ==> r > 0.0
    ensures a < 0.0 && b < 0.0 ==> r > 0.0
    ensures a >= 0.0 && b >= 0.0 ==> r >= 0.0
    ensures a == 0.0 || b == 0.0 ==> r == 0.0
  {
    a * b
  }

  function Square(u: real): (r: real)
    ensures r >= 0.0
    ensures u != 0.0 ==> r > 0.0
  {
    Times(u, u)
  }

  lemma Divide(a: real, f: real, s: real)
    requires a > 0.0 && a * f == s && s > 0.0
    ensures f > 0.0
  {
  }

  lemma SquareOrder(a: real, b: real)
    requires 0.0 <= a <= b
    ensures a * a <= b * b
  {
    assert a * a <= a * b <= b * b;
  }

  lemma RootOrder(a: real, b: real)
    requires 0.0 <= b && a * a <= b * b
    ensures a <= b
  {
    if a > b {
      StrictSquareOrder(b, a);
    }
  }

  lemma StrictSquareOrder(a: real, b: real)
    requires 0.0 <= a < b
    ensures a * a < b * b
  {
    var d := b - a;
    assert b * b == a * a + 2.0 * (a * d) + d * d;
    assert a * d >= 0.0 && d * d > 0.0;
  }

  lemma WithinWider(v: Vec2, r: real, q: real)
    requires Within(v, r) && r <= q
    ensures Within(v, q)
  {
    SquareOrder(r, q);
  }

  lemma NormWithin(v: Vec2, n: real, r: real)
    requires IsNorm(v, n) && 0.0 <= r
    ensures Within(v, r) <==> n <= r
  {
    if n <= r {
      SquareOrder(n, r);
    } else {
      StrictSquareOrder(r, n);
    }
  }

  lemma TimesSq(v: Vec2, k: real)
    ensures v.Times(k).Sq() == k * k * v.Sq()
  {
    assert (v.x * k) * (v.x * k) == k * k * (v.x * v.x);
    assert (v.y * k) * (v.y * k) == k * k * (v.y * v.y);
  }

  lemma TimesWithin(v: Vec2, k: real, r: real, q: real)
    requires Within(v, r) && 0.0 <= k && q == k * r
    ensures Within(v.Times(k), q)
  {
    TimesSq(v, k);
    Monotone(k * k, v.Sq(), r * r);
    ProductSq(k, r, q);
    assert q >= 0.0;
  }

  lemma Monotone(k: real, a: real, b: real)
    requires 0.0 <= k && a <= b
    ensures k * a <= k * b
  {
  }

  lemma ProductSq(k: real, r: real, q: real)
    requires q == k * r
    ensures q * q == (k * k) * (r * r)
  {
  }

  lemma SumSq(a: Vec2, b: Vec2)
    ensures a.Plus(b).Sq() == a.Sq() + 2.0 * a.Dot(b) + b.Sq()
  {
    assert (a.x + b.x) * (a.x + b.x) == a.x * a.x + 2.0 * (a.x * b.x) + b.x * b.x;
    assert (a.y + b.y) * (a.y + b.y) == a.y * a.y + 2.0 * (a.y * b.y) + b.y * b.y;
  }

  /** Cauchy-Schwarz, as a bound on the product of radii. */
  lemma DotBound(a: Vec2, p: real, b: Vec2, q: real)
    requires Within(a, p) && Within(b, q)
    ensures a.Dot(b) <= p * q
  {
    Lagrange(a, b);
    ProductOrder(a.Sq(), p * p, b.Sq(), q * q);
    BelowRoot(a.Dot(b), a.x * b.y - a.y * b.x, p, q);
  }

  lemma BelowRoot(d: real, e: real, p: real, q: real)
    requires 0.0 <= p && 0.0 <= q && d * d + e * e <= (p * p) * (q * q)
    ensures d <= p * q
  {
    assert e * e >= 0.0;
    var m := p * q;
    assert (p * p) * (q * q) == m * m by {
      assert (p * p) * (q * q) == p * (p * (q * q)) == p * (m * q) == m * m;
    }
    RootOrder(d, m);
  }

  lemma Lagrange(a: Vec2, b: Vec2)
    ensures a.Dot(b) * a.Dot(b) + (a.x * b.y - a.y * b.x) * (a.x * b.y - a.y * b.x) == a.Sq() * b.Sq()
  {
    var p, q, r, s := a.x * b.x, a.y * b.y, a.x * b.y, a.y * b.x;
    assert p * q == r * s;
    assert (p + q) * (p + q) == p * p + 2.0 * (p * q) + q * q;
    assert (r - s) * (r - s) == r * r - 2.0 * (r * s) + s * s;
    assert p * p == (a.x * a.x) * (b.x * b.x);
    assert q * q == (a.y * a.y) * (b.y * b.y);
    assert r * r == (a.x * a.x) * (b.y * b.y);
    assert s * s == (a.y * a.y) * (b.x * b.x);
  }

  lemma ProductOrder(a: real, b: real, c: real, d: real)
    requires 0.0 <= a <= b && 0.0 <= c <= d
    ensures a * c <= b * d
  {
    assert a * c <= b * c <= b * d;
  }

  /** The triangle inequality. */
  lemma PlusWithin(a: Vec2, p: real, b: Vec2, q: real)
    requires Within(a, p) && Within(b, q)
    ensures Within(a.Plus(b), p + q)
  {
    SumSq(a, b);
    DotBound(a, p, b, q);
    assert (p + q) * (p + q) == p * p + 2.0 * (p * q) + q * q;
  }

  /** A disc is convex. */
  lemma TowardWithin(a: Vec2, b: Vec2, t: real, r: real)
    requires Within(a, r) && Within(b, r) && 0.0 <= t <= 1.0
    ensures Within(Toward(a, b, t), r)
  {
    var u := 1.0 - t;
    TimesWithin(a, u, r, u * r);
    TimesWithin(b, t, r, t * r);
    PlusWithin(a.Times(u), u * r, b.Times(t), t * r);
    Mix(r, r, t);
    Mix(a.x, b.x, t);
    Mix(a.y, b.y, t);
    assert a.Times(u).Plus(b.Times(t)) == Toward(a, b, t);
  }

  lemma Mix(a: real, b: real, t: real)
    ensures (1.0 - t) * a == a * (1.0 - t)
    ensures a * (1.0 - t) + b * t == a + (b - a) * t
  {
  }

  lemma Ratio(part: real, whole: real)
    requires 0.0 <= part <= whole && 0.0 < whole
    ensures 0.0 <= part / whole <= 1.0 && part / whole * whole == part
  {
  }

  lemma DivTimes(x: real, whole: real, part: real)
    requires 0.0 < whole
    ensures x / whole * part == x * (part / whole)
  {
  }

  /** Saturation shrinks a vector along itself, into the disc, and no more than it has to. */
  lemma SaturateShrinks(v: Vec2, limit: real, eps: real, r: real) returns (k: real)
    requires IsNorm(v, r) && 0.0 <= limit && 0.0 < eps
    ensures 0.0 <= k <= 1.0 && Saturate(v, limit, eps, r) == v.Times(k)
    ensures r <= limit ==> k == 1.0
    ensures Within(Saturate(v, limit, eps, r), Max(limit, eps))
    ensures Within(Saturate(v, limit, eps, r), r)
    ensures r > Max(limit, eps) ==> k * r == limit
  {
    if r > limit && r > eps {
      k := limit / r;
      Ratio(limit, r);
      DivTimes(v.x, r, limit);
      DivTimes(v.y, r, limit);
      TimesWithin(v, k, r, limit);
      WithinWider(v.Times(k), limit, Max(limit, eps));
      WithinWider(v.Times(k), limit, r);
    } else {
      k := 1.0;
      assert v.Times(1.0) == v;
      WithinWider(v, r, Max(limit, eps));
    }
  }
}
