/** The twisted Edwards curve a x^2 + y^2 = 1 + d x^2 y^2: the affine addition
    law, its completeness and its closure. */
module Edwards {
  import opened Field
  import opened Sqrt

  datatype Point = Point(x: nat, y: nat)

  datatype Curve = Curve(f: Fp, a: nat, d: nat, order: nat)

  const IDENTITY := Point(0, 1)

  /** The conditions under which the addition law has no exceptional case. */
  ghost predicate ValidCurve(c: Curve) {
    && OddPrime(c.f)
    && 0 < c.a < c.f.p && 0 < c.d < c.f.p
    && c.f.IsSquare(c.a) && !c.f.IsSquare(c.d)
  }

  predicate OnCurve(c: Curve, q: Point) {
    && q.x < c.f.p && q.y < c.f.p
    && c.f.R(c.a * (q.x * q.x) + q.y * q.y) == c.f.R(1 + c.d * ((q.x * q.y) * (q.x * q.y)))
  }

  /** d x1 x2 y1 y2, the term both denominators are built from. */
  function Cross(c: Curve, q: Point, r: Point): int {
    c.d * ((q.x * q.y) * (r.x * r.y))
  }

  function NumX(q: Point, r: Point): int {
    q.x * r.y + q.y * r.x
  }

  function NumY(c: Curve, q: Point, r: Point): int {
    q.y * r.y - c.a * (q.x * r.x)
  }

  function Sum(c: Curve, q: Point, r: Point): Point {
    var t := Cross(c, q, r);
    Point(c.f.R(NumX(q, r) * c.f.Inv(c.f.R(1 + t))),
          c.f.R(NumY(c, q, r) * c.f.Inv(c.f.R(1 - t))))
  }

  /** The n-fold sum of q, the meaning of every scalar multiplication. */
  function Fold(c: Curve, n: nat, q: Point): Point {
    if n == 0 then IDENTITY else Sum(c, Fold(c, n - 1, q), q)
  }

  // ------------------------------------------------------------ completeness

  /** Neither denominator of the addition law vanishes on the curve. */
  lemma Complete(c: Curve, q: Point, r: Point)
    requires ValidCurve(c) && OnCurve(c, q) && OnCurve(c, r)
    ensures c.f.R(1 + Cross(c, q, r)) != 0
    ensures c.f.R(1 - Cross(c, q, r)) != 0
  {
    var f, t := c.f, Cross(c, q, r);
    RSmall(f, 1);
    RSmall(f, 0);
    if f.R(1 + t) == 0 {
      RZero(f, t, -1);
      assert t - (-1) == 1 + t;
      Exceptional(c, q, r, -1);
    }
    if f.R(1 - t) == 0 {
      RZero(f, 1, t);
      Exceptional(c, q, r, 1);
    }
  }

  /** If d x1 x2 y1 y2 were e = 1 or -1, then d would be a square. */
  lemma Exceptional(c: Curve, q: Point, r: Point, e: int)
    requires OddPrime(c.f) && c.a < c.f.p && c.d < c.f.p && c.f.IsSquare(c.a)
    requires OnCurve(c, q) && OnCurve(c, r)
    requires (e == 1 || e == -1) && c.f.R(Cross(c, q, r)) == c.f.R(e)
    ensures c.f.IsSquare(c.d)
  {
    var s: nat :| c.f.IsRoot(s, c.a);
    RSmall(c.f, c.a);
    var z := 0 - s;
    NegSquare(s);
    CrossFactors(c, q, r, e);
    if c.f.R(s * r.x + r.y) != 0 {
      RatioCase(c, q, r, e, s);
    } else if c.f.R(z * r.x + r.y) != 0 {
      RatioCase(c, q, r, e, z);
    } else {
      Opposite(s, r.x);
      BothZero(c.f, s * r.x + r.y, z * r.x + r.y, r.y);
    }
  }

  lemma NegSquare(s: int)
    ensures (0 - s) * (0 - s) == s * s
  {
  }

  lemma Opposite(s: int, x: int)
    ensures (0 - s) * x == -(s * x)
  {
  }

  lemma RatioCase(c: Curve, q: Point, r: Point, e: int, s: int)
    requires OddPrime(c.f) && c.d < c.f.p && OnCurve(c, q) && OnCurve(c, r)
    requires e * e == 1 && c.f.R(Cross(c, q, r)) == c.f.R(e)
    requires c.f.R(s * s) == c.f.R(c.a)
    requires c.f.R(q.x * q.y) != 0 && c.f.R(s * r.x + r.y) != 0
    ensures c.f.IsSquare(c.d)
  {
    SquareRatio(c, q, r, e, s);
    RatioIsSquare(c.f, c.d, q.x * q.y, s * r.x + r.y, s * q.x + e * q.y);
  }

  lemma BothZero(f: Fp, u: int, v: int, y: nat)
    requires OddPrime(f) && y < f.p && u + v == 2 * y && f.R(u) == 0 && f.R(v) == 0
    ensures y == 0
  {
    RAdd(f, u, v);
    RSmall(f, 0);
    RSmall(f, y);
    RSmall(f, 2);
    NoZeroDivisors(f, 2, y);
  }

  /** The cross term being a unit, its factors are. */
  lemma CrossFactors(c: Curve, q: Point, r: Point, e: int)
    requires OddPrime(c.f) && q.x < c.f.p && q.y < c.f.p && r.x < c.f.p && r.y < c.f.p
    requires (e == 1 || e == -1) && c.f.R(Cross(c, q, r)) == c.f.R(e)
    ensures c.f.R(q.x * q.y) != 0 && r.y != 0
  {
    var f := c.f;
    RSmall(f, 1);
    RUnique(f, -1, -1, f.p - 1);
    if f.R(q.x * q.y) == 0 {
      FactorZero(f, q.x * q.y, c.d, r.x * r.y);
    }
    if r.y == 0 {
      assert Cross(c, q, r) == 0;
      RSmall(f, 0);
    }
  }

  lemma FactorZero(f: Fp, w: int, d: int, m: int)
    requires f.R(w) == 0
    ensures f.R(d * (w * m)) == 0
  {
    RSmall(f, 0);
    assert d * (w * m) == w * (d * m) + 0;
    Subst(f, w, 0, d * m, 0);
  }

  /** (s x1 + e y1)^2 = d (x1 y1)^2 (s x2 + y2)^2 for s^2 = a. */
  lemma SquareRatio(c: Curve, q: Point, r: Point, e: int, s: int)
    requires OnCurve(c, q) && OnCurve(c, r) && e * e == 1
    requires c.f.R(s * s) == c.f.R(c.a) && c.f.R(Cross(c, q, r)) == c.f.R(e)
    ensures c.f.R((s * q.x + e * q.y) * (s * q.x + e * q.y))
         == c.f.R(c.d * ((q.x * q.y) * (q.x * q.y)) * ((s * r.x + r.y) * (s * r.x + r.y)))
  {
    RatioLeft(c.f, q.x, q.y, s, e, c.a, c.d);
    RatioRight(c.f, q.x * q.y, r.x, r.y, s, c.a, c.d);
    RatioEnd(c.f, c.d, q.x * q.y, r.x * r.y, s, e);
  }

  lemma RatioLeft(f: Fp, x1: int, y1: int, s: int, e: int, a: int, d: int)
    requires e * e == 1 && f.R(s * s) == f.R(a)
    requires f.R(a * (x1 * x1) + y1 * y1) == f.R(1 + d * ((x1 * y1) * (x1 * y1)))
    ensures f.R((s * x1 + e * y1) * (s * x1 + e * y1))
         == f.R(1 + d * ((x1 * y1) * (x1 * y1)) + 2 * s * (x1 * y1) * e)
  {
    hide Fp.R;
    Subst(f, s * s, a, x1 * x1, y1 * y1 + 2 * s * (x1 * y1) * e);
    Subst(f, a * (x1 * x1) + y1 * y1, 1 + d * ((x1 * y1) * (x1 * y1)), 1, 2 * s * (x1 * y1) * e);
    ExpandLeft(x1, y1, s, e);
  }

  lemma ExpandLeft(x1: int, y1: int, s: int, e: int)
    requires e * e == 1
    ensures (s * x1 + e * y1) * (s * x1 + e * y1) == (s * s) * (x1 * x1) + (y1 * y1 + 2 * s * (x1 * y1) * e)
  {
    assert (s * x1 + e * y1) * (s * x1 + e * y1)
        == (s * s) * (x1 * x1) + (e * e) * (y1 * y1) + 2 * s * (x1 * y1) * e;
  }

  lemma RatioRight(f: Fp, m: int, x2: int, y2: int, s: int, a: int, d: int)
    requires f.R(s * s) == f.R(a)
    requires f.R(a * (x2 * x2) + y2 * y2) == f.R(1 + d * ((x2 * y2) * (x2 * y2)))
    ensures f.R(d * (m * m) * ((s * x2 + y2) * (s * x2 + y2)))
         == f.R(d * (m * m) + d * (m * (x2 * y2)) * (d * (m * (x2 * y2)) + 2 * s * m))
  {
    hide Fp.R;
    ExpandRight(d * (m * m), x2, y2, s, a);
    Subst(f, s * s, a, d * (m * m) * (x2 * x2), d * (m * m) * (y2 * y2) + 2 * s * (d * (m * m)) * (x2 * y2));
    Subst(f, a * (x2 * x2) + y2 * y2, 1 + d * ((x2 * y2) * (x2 * y2)), d * (m * m), 2 * s * (d * (m * m)) * (x2 * y2));
    CollectRight(d, m, x2 * y2, s);
  }

  lemma ExpandRight(w: int, x2: int, y2: int, s: int, a: int)
    ensures w * ((s * x2 + y2) * (s * x2 + y2))
         == (s * s) * (w * (x2 * x2)) + (w * (y2 * y2) + 2 * s * w * (x2 * y2))
    ensures a * (w * (x2 * x2)) + (w * (y2 * y2) + 2 * s * w * (x2 * y2))
         == (a * (x2 * x2) + y2 * y2) * w + 2 * s * w * (x2 * y2)
  {
  }

  lemma CollectRight(d: int, m: int, n: int, s: int)
    ensures (1 + d * (n * n)) * (d * (m * m)) + 2 * s * (d * (m * m)) * n
         == d * (m * m) + d * (m * n) * (d * (m * n) + 2 * s * m)
  {
  }

  lemma RatioEnd(f: Fp, d: int, m: int, n: int, s: int, e: int)
    requires e * e == 1 && f.R(d * (m * n)) == f.R(e)
    ensures f.R(d * (m * m) + d * (m * n) * (d * (m * n) + 2 * s * m)) == f.R(1 + d * (m * m) + 2 * s * m * e)
  {
    hide Fp.R;
    var t := d * (m * n);
    Subst(f, t, e, t + 2 * s * m, d * (m * m));
    Subst(f, t, e, e, e * (2 * s * m) + d * (m * m));
    assert e * (t + 2 * s * m) == t * e + e * (2 * s * m);
  }

  /** Replacing a factor by a congruent one. */
  lemma Subst(f: Fp, u: int, v: int, c: int, r: int)
    requires f.R(u) == f.R(v)
    ensures f.R(u * c + r) == f.R(v * c + r)
  {
    hide Fp.R;
    RCong(f, u, v, c);
    RCong(f, u * c, v * c, r);
  }

  /** d w^2 m^2 = n^2 with w and m units makes d a square. */
  lemma RatioIsSquare(f: Fp, d: nat, w: int, m: int, n: int)
    requires OddPrime(f) && d < f.p && f.R(w) != 0 && f.R(m) != 0
    requires f.R(n * n) == f.R(d * (w * w) * (m * m))
    ensures f.IsSquare(d)
  {
    hide Fp.R;
    var u := f.R(w * m);
    RMul(f, w, m);
    if u == 0 {
      NoZeroDivisors(f, f.R(w), f.R(m));
    }
    var i := f.Inv(u);
    InvIsInverse(f, u);
    RSmall(f, d);
    RSmall(f, 1);
    RMul(f, w * m, i);
    var k := f.R(n * i);
    RMul(f, n * i, n * i);
    RatioRoot(n, d, w, m, i);
    RCong(f, n * n, d * (w * w) * (m * m), i * i);
    Subst(f, w * m * i, 1, d * (w * m * i), 0);
    Subst(f, w * m * i, 1, d, 0);
    assert f.IsRoot(k, d);
  }

  lemma RatioRoot(n: int, d: int, w: int, m: int, i: int)
    ensures (n * i) * (n * i) == (n * n) * (i * i)
    ensures d * (w * w) * (m * m) * (i * i) == (w * m * i) * (d * (w * m * i)) + 0
    ensures 1 * (d * (w * m * i)) + 0 == (w * m * i) * d + 0
  {
  }

  // ----------------------------------------------------------------- closure

  /** Membership may be checked before reducing the coordinates. */
  lemma OnCurveUnreduced(c: Curve, u: int, v: int)
    ensures OnCurve(c, Point(c.f.R(u), c.f.R(v)))
       <==> c.f.R(c.a * (u * u) + v * v) == c.f.R(1 + c.d * ((u * v) * (u * v)))
  {
    var f := c.f;
    var x, y := f.R(u), f.R(v);
    SquareUnreduced(f, u, c.a, y * y);
    SquareUnreduced(f, v, 1, c.a * (u * u));
    RMul(f, u, v);
    ProductUnreduced(f, u, v);
    SquareUnreduced(f, u * v, c.d, 1);
    SquareUnreduced(f, x * y, c.d, 1);
  }

  lemma SquareUnreduced(f: Fp, u: int, k: int, r: int)
    ensures f.R(k * (f.R(u) * f.R(u)) + r) == f.R(k * (u * u) + r)
  {
    RMul(f, u, u);
    RMul(f, f.R(u), f.R(u));
    RSmall(f, f.R(u * u));
    Subst(f, f.R(u) * f.R(u), u * u, k, r);
  }

  lemma ProductUnreduced(f: Fp, u: int, v: int)
    ensures f.R(f.R(u) * f.R(v)) == f.R(u * v)
  {
    RMul(f, u, v);
  }

  /** The sum of two curve points is a curve point. */
  lemma Closed(c: Curve, q: Point, r: Point)
    requires ValidCurve(c) && OnCurve(c, q) && OnCurve(c, r)
    ensures OnCurve(c, Sum(c, q, r))
  {
    var f, t := c.f, Cross(c, q, r);
    Complete(c, q, r);
    var i1, i2 := f.Inv(f.R(1 + t)), f.Inv(f.R(1 - t));
    InvIsInverse(f, f.R(1 + t));
    InvIsInverse(f, f.R(1 - t));
    RMul(f, 1 + t, i1);
    RMul(f, 1 - t, i2);
    RSmall(f, 1);
    SumNumerators(c, q, r);
    ClearDenominators(f, c.a, c.d, NumX(q, r), NumY(c, q, r), 1 + t, 1 - t, i1, i2);
    OnCurveUnreduced(c, NumX(q, r) * i1, NumY(c, q, r) * i2);
  }

  lemma ClearDenominators(f: Fp, a: int, d: int, n1: int, n2: int, d1: int, d2: int, i1: int, i2: int)
    requires f.R(d1 * i1) == f.R(1) && f.R(d2 * i2) == f.R(1)
    requires f.R(a * (n1 * n1) * (d2 * d2) + n2 * n2 * (d1 * d1))
          == f.R((d1 * d1) * (d2 * d2) + d * ((n1 * n2) * (n1 * n2)))
    ensures f.R(a * ((n1 * i1) * (n1 * i1)) + (n2 * i2) * (n2 * i2))
         == f.R(1 + d * (((n1 * i1) * (n2 * i2)) * ((n1 * i1) * (n2 * i2))))
  {
    hide Fp.R;
    var i := (i1 * i2) * (i1 * i2);
    var u1, u2 := d1 * i1, d2 * i2;
    var x2, y2 := (n1 * i1) * (n1 * i1), (n2 * i2) * (n2 * i2);
    var xy2 := ((n1 * i1) * (n2 * i2)) * ((n1 * i1) * (n2 * i2));
    RCong(f, a * (n1 * n1) * (d2 * d2) + n2 * n2 * (d1 * d1),
          (d1 * d1) * (d2 * d2) + d * ((n1 * n2) * (n1 * n2)), i);
    ClearLeft(a, n1, n2, d1, d2, i1, i2);
    ClearRight(d, n1, n2, d1, d2, i1, i2);
    OneSquared(f, u2, a * x2, (u1 * u1) * y2);
    OneSquared(f, u1, y2, a * x2);
    OneSquared(f, u1, u2 * u2, d * xy2);
    OneSquared(f, u2, 1, d * xy2);
  }

  lemma OneSquared(f: Fp, u: int, c: int, r: int)
    requires f.R(u) == f.R(1)
    ensures f.R((u * u) * c + r) == f.R(c + r)
  {
    hide Fp.R;
    Subst(f, u, 1, u * c, r);
    Subst(f, u, 1, c, r);
    assert (u * u) * c == u * (u * c);
  }

  lemma ClearLeft(a: int, n1: int, n2: int, d1: int, d2: int, i1: int, i2: int)
    ensures (a * (n1 * n1) * (d2 * d2) + n2 * n2 * (d1 * d1)) * ((i1 * i2) * (i1 * i2))
         == ((d2 * i2) * (d2 * i2)) * (a * ((n1 * i1) * (n1 * i1)))
          + ((d1 * i1) * (d1 * i1)) * ((n2 * i2) * (n2 * i2))
  {
    var i := (i1 * i2) * (i1 * i2);
    Regroup(n1, d2, i1, i2);
    Regroup(n2, d1, i2, i1);
    assert a * (n1 * n1) * (d2 * d2) * i == a * ((n1 * n1) * (d2 * d2) * i);
  }

  lemma Regroup(n: int, d: int, i1: int, i2: int)
    ensures (n * n) * (d * d) * ((i1 * i2) * (i1 * i2)) == ((d * i2) * (d * i2)) * ((n * i1) * (n * i1))
    ensures (i1 * i2) * (i1 * i2) == (i2 * i1) * (i2 * i1)
  {
  }

  lemma ClearRight(d: int, n1: int, n2: int, d1: int, d2: int, i1: int, i2: int)
    ensures ((d1 * d1) * (d2 * d2) + d * ((n1 * n2) * (n1 * n2))) * ((i1 * i2) * (i1 * i2))
         == ((d1 * i1) * (d1 * i1)) * ((d2 * i2) * (d2 * i2))
          + d * (((n1 * i1) * (n2 * i2)) * ((n1 * i1) * (n2 * i2)))
  {
    var i := (i1 * i2) * (i1 * i2);
    Regroup(d1, d2, i1, i2);
    RegroupProduct(n1, n2, i1, i2);
    assert d * ((n1 * n2) * (n1 * n2)) * i == d * ((n1 * n2) * (n1 * n2) * i);
  }

  lemma RegroupProduct(n1: int, n2: int, i1: int, i2: int)
    ensures (n1 * n2) * (n1 * n2) * ((i1 * i2) * (i1 * i2)) == ((n1 * i1) * (n2 * i2)) * ((n1 * i1) * (n2 * i2))
  {
    assert (n1 * i1) * (n2 * i2) == (n1 * n2) * (i1 * i2);
  }

  /** The curve equation of the sum with denominators cleared. */
  lemma SumNumerators(c: Curve, q: Point, r: Point)
    requires OnCurve(c, q) && OnCurve(c, r)
    ensures var t := Cross(c, q, r);
      c.f.R(c.a * (NumX(q, r) * NumX(q, r)) * ((1 - t) * (1 - t)) + NumY(c, q, r) * NumY(c, q, r) * ((1 + t) * (1 + t)))
      == c.f.R(((1 + t) * (1 + t)) * ((1 - t) * (1 - t))
               + c.d * ((NumX(q, r) * NumY(c, q, r)) * (NumX(q, r) * NumY(c, q, r))))
  {
    Numerators(c.f, c.a, c.d, q.x, q.y, r.x, r.y);
  }

  lemma Numerators(f: Fp, a: int, d: int, x1: int, y1: int, x2: int, y2: int)
    requires f.R(a * (x1 * x1) + y1 * y1) == f.R(1 + d * ((x1 * y1) * (x1 * y1)))
    requires f.R(a * (x2 * x2) + y2 * y2) == f.R(1 + d * ((x2 * y2) * (x2 * y2)))
    ensures
      var t, n1, n2 := d * ((x1 * y1) * (x2 * y2)), x1 * y2 + y1 * x2, y1 * y2 - a * (x1 * x2);
      f.R(a * (n1 * n1) * ((1 - t) * (1 - t)) + n2 * n2 * ((1 + t) * (1 + t)))
      == f.R(((1 + t) * (1 + t)) * ((1 - t) * (1 - t)) + d * ((n1 * n2) * (n1 * n2)))
  {
    hide Fp.R;
    var n1, n2 := x1 * y2 + y1 * x2, y1 * y2 - a * (x1 * x2);
    var m, n := x1 * y1, x2 * y2;
    var t := d * (m * n);
    var s1, s2 := a * (x1 * x1) + y1 * y1, a * (x2 * x2) + y2 * y2;
    var t1, t2 := 1 + d * (m * m), 1 + d * (n * n);
    var rest := d * ((n1 * n2) * (n1 * n2));
    NumeratorIdentity(a, d, x1, y1, x2, y2);
    QuadSubst(f, s1, t1, s2, t2, 1 + t * t, d * (m * m), d * (n * n));
    RCong(f, (1 + t * t) * (s1 * s2) - d * (m * m) * (s2 * s2) - d * (n * n) * (s1 * s1),
          (1 + t * t) * (t1 * t2) - d * (m * m) * (t2 * t2) - d * (n * n) * (t1 * t1), rest);
    ClosingIdentity(d, m, n);
  }

  lemma QuadSubst(f: Fp, s1: int, t1: int, s2: int, t2: int, k: int, u: int, v: int)
    requires f.R(s1) == f.R(t1) && f.R(s2) == f.R(t2)
    ensures f.R(k * (s1 * s2) - u * (s2 * s2) - v * (s1 * s1)) == f.R(k * (t1 * t2) - u * (t2 * t2) - v * (t1 * t1))
  {
    hide Fp.R;
    QuadPolys(s1, t1, s2, t2, k, u, v);
    Subst(f, s1, t1, k * s2 - v * s1, -u * (s2 * s2));
    Subst(f, s1, t1, -v * t1, k * (t1 * s2) - u * (s2 * s2));
    Subst(f, s2, t2, k * t1 - u * s2, -v * (t1 * t1));
    Subst(f, s2, t2, -u * t2, k * (t1 * t2) - v * (t1 * t1));
  }

  lemma QuadPolys(s1: int, t1: int, s2: int, t2: int, k: int, u: int, v: int)
    ensures k * (s1 * s2) - u * (s2 * s2) - v * (s1 * s1) == s1 * (k * s2 - v * s1) + -u * (s2 * s2)
    ensures t1 * (k * s2 - v * s1) + -u * (s2 * s2) == s1 * (-v * t1) + (k * (t1 * s2) - u * (s2 * s2))
    ensures t1 * (-v * t1) + (k * (t1 * s2) - u * (s2 * s2)) == s2 * (k * t1 - u * s2) + -v * (t1 * t1)
    ensures t2 * (k * t1 - u * s2) + -v * (t1 * t1) == s2 * (-u * t2) + (k * (t1 * t2) - v * (t1 * t1))
    ensures t2 * (-u * t2) + (k * (t1 * t2) - v * (t1 * t1)) == k * (t1 * t2) - u * (t2 * t2) - v * (t1 * t1)
  {
  }

  /** a N1^2 (1-t)^2 + N2^2 (1+t)^2 rewritten over s1 = a x1^2 + y1^2 and
      s2 = a x2^2 + y2^2. */
  lemma NumeratorIdentity(a: int, d: int, x1: int, y1: int, x2: int, y2: int)
    ensures
      var n1, n2 := x1 * y2 + y1 * x2, y1 * y2 - a * (x1 * x2);
      var m, n := x1 * y1, x2 * y2;
      var t := d * (m * n);
      var s1, s2 := a * (x1 * x1) + y1 * y1, a * (x2 * x2) + y2 * y2;
      a * (n1 * n1) * ((1 - t) * (1 - t)) + n2 * n2 * ((1 + t) * (1 + t))
      == (1 + t * t) * (s1 * s2) - d * (m * m) * (s2 * s2) - d * (n * n) * (s1 * s1)
         + d * ((n1 * n2) * (n1 * n2))
  {
    var n1, n2 := x1 * y2 + y1 * x2, y1 * y2 - a * (x1 * x2);
    var m, n := x1 * y1, x2 * y2;
    var s1, s2 := a * (x1 * x1) + y1 * y1, a * (x2 * x2) + y2 * y2;
    var u := (x1 * x1) * (y2 * y2) + (y1 * y1) * (x2 * x2);
    var v := (y1 * y1) * (y2 * y2) + (a * a) * ((x1 * x1) * (x2 * x2));
    NumeratorSquares(a, x1, y1, x2, y2);
    CrossSquares(a, x1 * x1, y1 * y1, x2 * x2, y2 * y2);
    SquareOfProduct(x1, y1);
    SquareOfProduct(x2, y2);
    SquareOfProduct(n1, n2);
    SquareOfProduct(m, n);
    Collect(a, d, u, v, m * n, s1 * s2, m * m, n * n, s1 * s1, s2 * s2);
  }

  lemma NumeratorSquares(a: int, x1: int, y1: int, x2: int, y2: int)
    ensures (x1 * y2 + y1 * x2) * (x1 * y2 + y1 * x2)
         == (x1 * x1) * (y2 * y2) + (y1 * y1) * (x2 * x2) + 2 * ((x1 * y1) * (x2 * y2))
    ensures (y1 * y2 - a * (x1 * x2)) * (y1 * y2 - a * (x1 * x2))
         == (y1 * y1) * (y2 * y2) + (a * a) * ((x1 * x1) * (x2 * x2)) - 2 * a * ((x1 * y1) * (x2 * y2))
  {
    BinomialSquare(x1 * y2, y1 * x2);
    SquareOfProduct(x1, y2);
    SquareOfProduct(y1, x2);
    Cross4(x1, y1, x2, y2);
    BinomialSquare(y1 * y2, a * (x1 * x2));
    SquareOfProduct(y1, y2);
    SquareOfProduct(a, x1 * x2);
    SquareOfProduct(x1, x2);
    Scale(y1 * y2, a, x1 * x2);
  }

  lemma BinomialSquare(u: int, v: int)
    ensures (u + v) * (u + v) == u * u + v * v + 2 * (u * v)
    ensures (u - v) * (u - v) == u * u + v * v - 2 * (u * v)
  {
  }

  lemma Cross4(x1: int, y1: int, x2: int, y2: int)
    ensures (x1 * y2) * (y1 * x2) == (x1 * y1) * (x2 * y2)
    ensures (y1 * y2) * (x1 * x2) == (x1 * y1) * (x2 * y2)
  {
  }

  lemma Scale(u: int, a: int, v: int)
    ensures u * (a * v) == a * (u * v)
  {
  }

  lemma SquareOfProduct(u: int, v: int)
    ensures (u * v) * (u * v) == (u * u) * (v * v)
  {
  }

  lemma CrossSquares(k: int, a: int, b: int, c: int, d: int)
    ensures (k * a + b) * (k * c + d) == k * (a * d + b * c) + (b * d + (k * k) * (a * c))
    ensures (a * d + b * c) * (b * d + (k * k) * (a * c)) + 4 * k * ((a * b) * (c * d))
         == (a * b) * ((k * c + d) * (k * c + d)) + (c * d) * ((k * a + b) * (k * a + b))
  {
    ProductOfSums(k, a, b, c, d);
    CrossProduct(k * k, a, b, c, d);
    WeightedSquare(k, a * b, c, d);
    WeightedSquare(k, c * d, a, b);
    CrossTerms(a * b, c * d, k);
  }

  lemma ProductOfSums(k: int, a: int, b: int, c: int, d: int)
    ensures (k * a + b) * (k * c + d) == k * (a * d + b * c) + (b * d + (k * k) * (a * c))
  {
    assert (k * a) * (k * c) == (k * k) * (a * c);
  }

  lemma WeightedSquare(k: int, w: int, c: int, d: int)
    ensures w * ((k * c + d) * (k * c + d)) == w * (d * d + (k * k) * (c * c)) + w * (2 * (k * (c * d)))
  {
    BinomialSquare(k * c, d);
    SquareOfProduct(k, c);
    assert (k * c) * d == k * (c * d);
    Distribute(w, d * d + (k * k) * (c * c), 2 * (k * (c * d)));
  }

  lemma CrossProduct(kk: int, a: int, b: int, c: int, d: int)
    ensures (a * d + b * c) * (b * d + kk * (a * c))
         == (a * b) * (d * d + kk * (c * c)) + (c * d) * (b * b + kk * (a * a))
  {
    FourTerms(a * d, b * c, b * d, a * c, kk);
    Monomials(a, b, c, d);
    Distribute(a * b, d * d, kk * (c * c));
    Scale(a * b, kk, c * c);
    Distribute(c * d, b * b, kk * (a * a));
    Scale(c * d, kk, a * a);
  }

  lemma FourTerms(u: int, v: int, w: int, z: int, kk: int)
    ensures (u + v) * (w + kk * z) == u * w + kk * (u * z) + v * w + kk * (v * z)
  {
  }

  lemma Monomials(a: int, b: int, c: int, d: int)
    ensures (a * d) * (b * d) == (a * b) * (d * d)
    ensures (a * d) * (a * c) == (c * d) * (a * a)
    ensures (b * c) * (b * d) == (c * d) * (b * b)
    ensures (b * c) * (a * c) == (a * b) * (c * c)
  {
  }

  lemma CrossTerms(ab: int, cd: int, k: int)
    ensures ab * (2 * (k * cd)) == 2 * k * (ab * cd)
    ensures cd * (2 * (k * ab)) == 2 * k * (ab * cd)
  {
  }

  lemma Distribute(u: int, v: int, w: int)
    ensures u * (v + w) == u * v + u * w
  {
  }

  lemma Collect(a: int, d: int, u: int, v: int, mn: int, s: int, mm: int, nn: int, s11: int, s22: int)
    requires s == a * u + v && u * v + 4 * a * (mn * mn) == mm * s22 + nn * s11
    ensures
      var t := d * mn;
      a * (u + 2 * mn) * ((1 - t) * (1 - t)) + (v - 2 * a * mn) * ((1 + t) * (1 + t))
      == (1 + t * t) * s - d * mm * s22 - d * nn * s11 + d * ((u + 2 * mn) * (v - 2 * a * mn))
  {
    var t, w, q := d * mn, v - a * u, a * (mn * mn);
    CollectLeft(a * u, v, a * mn, t);
    Distribute(a, u, 2 * mn);
    CollectProduct(a, u, v, mn);
    Spread(d, u * v, q, 2 * (mn * w));
    CollectScale(a, mn, d, w);
    Spread(d, mm * s22, 0, nn * s11);
    assert u * v + 4 * q == mm * s22 + nn * s11;
  }

  lemma Spread(d: int, u: int, q: int, w: int)
    ensures d * (u - 4 * q + w) == d * (u + 4 * q) - 8 * (d * q) + d * w
    ensures d * (u + w) == d * u + d * w
  {
  }

  lemma CollectScale(a: int, mn: int, d: int, w: int)
    ensures d * (a * (mn * mn)) == (a * mn) * (d * mn)
    ensures d * (2 * (mn * w)) == 2 * ((d * mn) * w)
    ensures 4 * a * (mn * mn) == 4 * (a * (mn * mn))
  {
  }

  lemma CollectLeft(p: int, v: int, q: int, t: int)
    ensures (p + 2 * q) * ((1 - t) * (1 - t)) + (v - 2 * q) * ((1 + t) * (1 + t))
         == (1 + t * t) * (p + v) + 2 * (t * (v - p)) - 8 * (q * t)
  {
  }

  lemma CollectProduct(a: int, u: int, v: int, mn: int)
    ensures (u + 2 * mn) * (v - 2 * a * mn) == u * v - 4 * (a * (mn * mn)) + 2 * (mn * (v - a * u))
  {
  }

  lemma ClosingIdentity(d: int, m: int, n: int)
    ensures
      var t := d * (m * n);
      (1 + t * t) * ((1 + d * (m * m)) * (1 + d * (n * n)))
      - d * (m * m) * ((1 + d * (n * n)) * (1 + d * (n * n)))
      - d * (n * n) * ((1 + d * (m * m)) * (1 + d * (m * m)))
      == ((1 + t) * (1 + t)) * ((1 - t) * (1 - t))
  {
    var t := d * (m * n);
    SquareOfT(d, m, n);
    TwoVariables(d * (m * m), d * (n * n));
    DifferenceSquared(t);
  }

  lemma SquareOfT(d: int, m: int, n: int)
    ensures (d * (m * n)) * (d * (m * n)) == (d * (m * m)) * (d * (n * n))
  {
  }

  lemma TwoVariables(u: int, v: int)
    ensures (1 + u * v) * ((1 + u) * (1 + v)) - u * ((1 + v) * (1 + v)) - v * ((1 + u) * (1 + u))
         == (1 - u * v) * (1 - u * v)
  {
  }

  lemma DifferenceSquared(t: int)
    ensures ((1 + t) * (1 + t)) * ((1 - t) * (1 - t)) == (1 - t * t) * (1 - t * t)
  {
  }
}
