/** Extended coordinates (X, Y, Z, T) as the browser verifier computes with
    them, proved to represent the affine curve law. */
module Extended {
  import opened Binary
  import opened Field
  import opened Sqrt
  import opened Edwards
  import opened Group

  datatype Ext = Ext(X: nat, Y: nat, Z: nat, T: nat)

  const EXT_IDENTITY := Ext(0, 1, 1, 0)

  function FromAffine(c: Curve, q: Point): Ext {
    Ext(q.x, q.y, 1, c.f.Mul(q.x, q.y))
  }

  function PtAdd(c: Curve, p: Ext, q: Ext): Ext {
    var f := c.f;
    var A, B := f.Mul(p.X, q.X), f.Mul(p.Y, q.Y);
    var C, D := f.Mul(f.Mul(p.T, c.d), q.T), f.Mul(p.Z, q.Z);
    var E := f.Sub(f.Sub(f.Mul(f.Add(p.X, p.Y), f.Add(q.X, q.Y)), A), B);
    var F, G, H := f.Sub(D, C), f.Add(D, C), f.Sub(B, f.Mul(c.a, A));
    Ext(f.Mul(E, F), f.Mul(G, H), f.Mul(F, G), f.Mul(E, H))
  }

  function PtDouble(c: Curve, p: Ext): Ext {
    var f := c.f;
    var A, B := f.Mul(p.X, p.X), f.Mul(p.Y, p.Y);
    var C, D := f.Mul(2, f.Mul(p.Z, p.Z)), f.Mul(c.a, A);
    var E := f.Sub(f.Sub(f.Mul(f.Add(p.X, p.Y), f.Add(p.X, p.Y)), A), B);
    var G := f.Add(D, B);
    var F, H := f.Sub(G, C), f.Sub(D, B);
    Ext(f.Mul(E, F), f.Mul(G, H), f.Mul(F, G), f.Mul(E, H))
  }

  /** e stands for the affine point q: X = xZ, Y = yZ, T = xyZ with Z a unit. */
  predicate Represents(c: Curve, e: Ext, q: Point) {
    && 0 < e.Z < c.f.p
    && e.X == c.f.R(q.x * e.Z) && e.Y == c.f.R(q.y * e.Z) && e.T == c.f.R((q.x * q.y) * e.Z)
  }

  /** The auxiliary coordinate's law, which both formulas keep whatever their
      input. */
  lemma KeepsT(c: Curve, p: Ext, q: Ext)
    ensures var r := PtAdd(c, p, q); c.f.Mul(r.T, r.Z) == c.f.Mul(r.X, r.Y)
    ensures var r := PtDouble(c, p); c.f.Mul(r.T, r.Z) == c.f.Mul(r.X, r.Y)
  {
    CrossMultiply(c.f);
  }

  lemma CrossMultiply(f: Fp)
    ensures forall e: nat, g: nat, h: nat, k: nat ::
      f.Mul(f.Mul(e, k), f.Mul(g, h)) == f.Mul(f.Mul(e, g), f.Mul(h, k))
  {
    forall e: nat, g: nat, h: nat, k: nat
      ensures f.Mul(f.Mul(e, k), f.Mul(g, h)) == f.Mul(f.Mul(e, g), f.Mul(h, k))
    {
      MulShuffle(f, e, k, g, h);
      MulComm(f, h, k);
    }
  }

  // ---------------------------------------------------------------- addition

  lemma ScaledMul(f: Fp, u: int, z: int, v: int, w: int)
    ensures f.R(f.R(u * z) * f.R(v * w)) == f.R((u * v) * (z * w))
  {
    hide Fp.R;
    RMul(f, u * z, v * w);
    Shuffle(u, z, v, w);
  }

  lemma ScaledAdd(f: Fp, u: int, v: int, z: int)
    ensures f.R(f.R(u * z) + f.R(v * z)) == f.R((u + v) * z)
    ensures f.R(f.R(u * z) - f.R(v * z)) == f.R((u - v) * z)
  {
    hide Fp.R;
    RAdd(f, u * z, v * z);
    assert u * z + v * z == (u + v) * z && u * z - v * z == (u - v) * z;
  }

  /** The intermediate values E, F, G and H of ptAdd are the numerators and
      denominators of the affine law times z = Z1 Z2. */
  lemma AddIntermediates(c: Curve, p: Ext, q: Ext, P: Point, Q: Point)
    requires Represents(c, p, P) && Represents(c, q, Q)
    ensures var z, t := p.Z * q.Z, Cross(c, P, Q);
      PtAdd(c, p, q) == Ext(
        c.f.R((NumX(P, Q) * (1 - t)) * (z * z)), c.f.R(((1 + t) * NumY(c, P, Q)) * (z * z)),
        c.f.R(((1 - t) * (1 + t)) * (z * z)), c.f.R((NumX(P, Q) * NumY(c, P, Q)) * (z * z)))
  {
    hide Fp.R;
    var f, z, t := c.f, p.Z * q.Z, Cross(c, P, Q);
    AddDiagonal(c, p, q, P, Q);
    AddCross(c, p, q, P, Q);
    ScaledMul(f, NumX(P, Q), z, 1 - t, z);
    ScaledMul(f, 1 + t, z, NumY(c, P, Q), z);
    ScaledMul(f, 1 - t, z, 1 + t, z);
    ScaledMul(f, NumX(P, Q), z, NumY(c, P, Q), z);
  }

  lemma AddDiagonal(c: Curve, p: Ext, q: Ext, P: Point, Q: Point)
    requires Represents(c, p, P) && Represents(c, q, Q)
    ensures var f, z, t := c.f, p.Z * q.Z, Cross(c, P, Q);
      var C, D := f.Mul(f.Mul(p.T, c.d), q.T), f.Mul(p.Z, q.Z);
      && f.Sub(D, C) == f.R((1 - t) * z) && f.Add(D, C) == f.R((1 + t) * z)
      && f.Sub(f.Mul(p.Y, q.Y), f.Mul(c.a, f.Mul(p.X, q.X))) == f.R(NumY(c, P, Q) * z)
  {
    hide Fp.R;
    var f, z, t := c.f, p.Z * q.Z, Cross(c, P, Q);
    var xx, yy := P.x * Q.x, P.y * Q.y;
    ScaledMul(f, P.x, p.Z, Q.x, q.Z);
    ScaledMul(f, P.y, p.Z, Q.y, q.Z);
    ScaledT(c, p, q, P, Q);
    ScaledAdd(f, 1, t, z);
    assert 1 * z == z;
    RMul(f, c.a, xx * z);
    assert c.a * (xx * z) == (c.a * xx) * z;
    ScaledAdd(f, yy, c.a * xx, z);
  }

  lemma AddCross(c: Curve, p: Ext, q: Ext, P: Point, Q: Point)
    requires Represents(c, p, P) && Represents(c, q, Q)
    ensures var f, z := c.f, p.Z * q.Z;
      f.Sub(f.Sub(f.Mul(f.Add(p.X, p.Y), f.Add(q.X, q.Y)), f.Mul(p.X, q.X)), f.Mul(p.Y, q.Y))
      == f.R(NumX(P, Q) * z)
  {
    hide Fp.R;
    SumOfProducts(P, Q);
    AddCrossScaled(c.f, P.x, P.y, p.Z, Q.x, Q.y, q.Z, P.x + P.y, Q.x + Q.y, NumX(P, Q));
  }

  lemma AddCrossScaled(f: Fp, x1: nat, y1: nat, z1: nat, x2: nat, y2: nat, z2: nat, u: nat, v: nat, n: int)
    requires u == x1 + y1 && v == x2 + y2 && u * v - x1 * x2 - y1 * y2 == n
    ensures
      var X1, Y1, X2, Y2 := f.R(x1 * z1), f.R(y1 * z1), f.R(x2 * z2), f.R(y2 * z2);
      f.Sub(f.Sub(f.Mul(f.Add(X1, Y1), f.Add(X2, Y2)), f.Mul(X1, X2)), f.Mul(Y1, Y2)) == f.R(n * (z1 * z2))
  {
    hide Fp.R;
    var X1, Y1, X2, Y2 := f.R(x1 * z1), f.R(y1 * z1), f.R(x2 * z2), f.R(y2 * z2);
    assert f.Add(X1, Y1) == f.R(u * z1) by { ScaledAdd(f, x1, y1, z1); }
    assert f.Add(X2, Y2) == f.R(v * z2) by { ScaledAdd(f, x2, y2, z2); }
    assert f.Mul(X1, X2) == f.R((x1 * x2) * (z1 * z2)) by { ScaledMul(f, x1, z1, x2, z2); }
    assert f.Mul(Y1, Y2) == f.R((y1 * y2) * (z1 * z2)) by { ScaledMul(f, y1, z1, y2, z2); }
    CrossStep(f, u, v, x1 * x2, y1 * y2, z1, z2, n);
  }

  lemma CrossStep(f: Fp, u: int, v: int, xx: int, yy: int, z1: int, z2: int, n: int)
    requires u * v - xx - yy == n
    ensures f.R(f.R(f.R(f.R(u * z1) * f.R(v * z2)) - f.R(xx * (z1 * z2))) - f.R(yy * (z1 * z2))) == f.R(n * (z1 * z2))
  {
    hide Fp.R;
    ScaledMul(f, u, z1, v, z2);
    var m := u * v;
    ScaledAdd(f, m, xx, z1 * z2);
    ScaledAdd(f, m - xx, yy, z1 * z2);
  }

  lemma SumOfProducts(P: Point, Q: Point)
    ensures (P.x + P.y) * (Q.x + Q.y) - P.x * Q.x - P.y * Q.y == NumX(P, Q)
  {
  }

  lemma ScaledT(c: Curve, p: Ext, q: Ext, P: Point, Q: Point)
    requires Represents(c, p, P) && Represents(c, q, Q)
    ensures c.f.Mul(c.f.Mul(p.T, c.d), q.T) == c.f.R(Cross(c, P, Q) * (p.Z * q.Z))
  {
    hide Fp.R;
    var f, m, n := c.f, P.x * P.y, Q.x * Q.y;
    RMul(f, m * p.Z, c.d);
    assert (m * p.Z) * c.d == (c.d * m) * p.Z;
    ScaledMul(f, c.d * m, p.Z, n, q.Z);
    assert (c.d * m) * n == c.d * (m * n);
  }

  /** ptAdd computes the sum of the points its arguments stand for. */
  lemma AddRepresents(c: Curve, p: Ext, q: Ext, P: Point, Q: Point)
    requires ValidCurve(c) && OnCurve(c, P) && OnCurve(c, Q)
    requires Represents(c, p, P) && Represents(c, q, Q)
    ensures Represents(c, PtAdd(c, p, q), Sum(c, P, Q))
  {
    hide Fp.R;
    var f, z, t := c.f, p.Z * q.Z, Cross(c, P, Q);
    AddIntermediates(c, p, q, P, Q);
    Complete(c, P, Q);
    var i1, i2 := f.Inv(f.R(1 + t)), f.Inv(f.R(1 - t));
    InvIsInverse(f, f.R(1 + t));
    InvIsInverse(f, f.R(1 - t));
    RMul(f, 1 + t, i1);
    RMul(f, 1 - t, i2);
    RSmall(f, 1);
    UnitDenominator(f, 1 - t, 1 + t, p.Z, q.Z);
    ScaledPoint(f, NumX(P, Q), NumY(c, P, Q), 1 + t, 1 - t, i1, i2, z * z);
  }

  lemma UnitDenominator(f: Fp, u: int, v: int, z1: nat, z2: nat)
    requires Prime(f.p) && f.R(u) != 0 && f.R(v) != 0 && 0 < z1 < f.p && 0 < z2 < f.p
    ensures f.R((u * v) * ((z1 * z2) * (z1 * z2))) != 0
  {
    RSmall(f, z1);
    RSmall(f, z2);
    UnitProduct(f, u, v);
    UnitProduct(f, z1, z2);
    UnitProduct(f, z1 * z2, z1 * z2);
    UnitProduct(f, u * v, (z1 * z2) * (z1 * z2));
  }

  lemma UnitProduct(f: Fp, u: int, v: int)
    requires Prime(f.p) && f.R(u) != 0 && f.R(v) != 0
    ensures f.R(u * v) != 0
  {
    hide Fp.R;
    RMul(f, u, v);
    if f.R(u * v) == 0 {
      NoZeroDivisors(f, f.R(u), f.R(v));
    }
  }

  lemma ScaledPoint(f: Fp, n1: int, n2: int, d1: int, d2: int, i1: int, i2: int, z: int)
    requires f.R(d1 * i1) == f.R(1) && f.R(d2 * i2) == f.R(1)
    ensures
      var x, y, Z := f.R(n1 * i1), f.R(n2 * i2), f.R((d2 * d1) * z);
      && f.R(x * Z) == f.R((n1 * d2) * z)
      && f.R(y * Z) == f.R((d1 * n2) * z)
      && f.R((x * y) * Z) == f.R((n1 * n2) * z)
  {
    hide Fp.R;
    var x, y, Z := f.R(n1 * i1), f.R(n2 * i2), f.R((d2 * d1) * z);
    var W := (d2 * d1) * z;
    RMul(f, n1 * i1, W);
    RMul(f, n2 * i2, W);
    ScaledPolys(n1, n2, d1, d2, i1, i2, z);
    Subst(f, d1 * i1, 1, (n1 * d2) * z, 0);
    Subst(f, d2 * i2, 1, (d1 * n2) * z, 0);
    RMul(f, n1 * i1, n2 * i2);
    RMul(f, (n1 * i1) * (n2 * i2), W);
    RMul(f, x * y, W);
    Subst(f, x * y, (n1 * i1) * (n2 * i2), W, 0);
    Subst(f, d1 * i1, 1, (d2 * i2) * ((n1 * n2) * z), 0);
    Subst(f, d2 * i2, 1, (n1 * n2) * z, 0);
  }

  lemma ScaledPolys(n1: int, n2: int, d1: int, d2: int, i1: int, i2: int, z: int)
    ensures (n1 * i1) * ((d2 * d1) * z) == (d1 * i1) * ((n1 * d2) * z)
    ensures (n2 * i2) * ((d2 * d1) * z) == (d2 * i2) * ((d1 * n2) * z)
    ensures ((n1 * i1) * (n2 * i2)) * ((d2 * d1) * z) == (d1 * i1) * ((d2 * i2) * ((n1 * n2) * z))
  {
    FiveFactors(n1, i1, d1, d2, z);
    FiveFactors(n2, i2, d2, d1, z);
    assert d1 * d2 == d2 * d1;
    Shuffle(n1, i1, n2, i2);
    Shuffle(d1, i1, d2, i2);
    Swap(n1 * n2, i1 * i2, d1 * d2, z);
    Reassociate(d1 * i1, d2 * i2, (n1 * n2) * z);
  }

  lemma FiveFactors(n: int, i: int, d: int, e: int, z: int)
    ensures (n * i) * ((e * d) * z) == (d * i) * ((n * e) * z)
    ensures (n * e) * z == (e * n) * z
  {
    assert (n * i) * (e * d) == (d * i) * (n * e);
    assert (n * i) * ((e * d) * z) == ((n * i) * (e * d)) * z;
  }

  lemma Swap(n: int, i: int, d: int, z: int)
    ensures (n * i) * (d * z) == (d * i) * (n * z)
  {
  }

  lemma Reassociate(u: int, v: int, w: int)
    ensures (u * v) * w == u * (v * w)
  {
  }

  // ---------------------------------------------------------------- doubling

  function NegateAll(f: Fp, e: Ext): Ext {
    Ext(f.Neg(e.X), f.Neg(e.Y), f.Neg(e.Z), f.Neg(e.T))
  }

  lemma MulNeg(f: Fp, u: nat, v: nat)
    ensures f.Mul(u, f.Neg(v)) == f.Neg(f.Mul(u, v))
    ensures f.Mul(f.Neg(u), v) == f.Neg(f.Mul(u, v))
  {
    hide Fp.R, Fp.Mul, Fp.Neg;
    MulNegRight(f, u, v);
    MulNegRight(f, v, u);
    MulComm(f, f.Neg(u), v);
    MulComm(f, u, v);
  }

  lemma MulNegRight(f: Fp, u: nat, v: nat)
    ensures f.Mul(u, f.Neg(v)) == f.Neg(f.Mul(u, v))
  {
    hide Fp.R;
    RMul(f, u, 0 - v);
    RAdd(f, 0, u * v);
    TimesMinus(u, v);
  }

  lemma TimesMinus(u: int, v: int)
    ensures u * (0 - v) == 0 - u * v
  {
  }

  lemma SubNeg(f: Fp, u: nat, v: nat)
    ensures f.Sub(u, v) == f.Neg(f.Sub(v, u))
  {
    hide Fp.R;
    RAdd(f, 0, v - u);
    assert 0 - (v - u) == u - v;
  }

  /** a X^2 + Y^2 = Z^2 + d T^2 for a point of the curve. */
  lemma ExtendedEquation(c: Curve, e: Ext, q: Point)
    requires OnCurve(c, q) && Represents(c, e, q)
    ensures var f := c.f;
      f.Add(f.Mul(c.a, f.Mul(e.X, e.X)), f.Mul(e.Y, e.Y))
      == f.Add(f.Mul(e.Z, e.Z), f.Mul(f.Mul(e.T, c.d), e.T))
  {
    hide Fp.R;
    var f, z := c.f, e.Z * e.Z;
    var x2, y2 := q.x * q.x, q.y * q.y;
    var t := Cross(c, q, q);
    ScaledMul(f, q.x, e.Z, q.x, e.Z);
    ScaledMul(f, q.y, e.Z, q.y, e.Z);
    RMul(f, c.a, x2 * z);
    assert c.a * (x2 * z) == (c.a * x2) * z;
    ScaledAdd(f, c.a * x2, y2, z);
    ScaledT(c, e, e, q, q);
    ScaledAdd(f, 1, t, z);
    assert 1 * z == z;
    RCong(f, c.a * x2 + y2, 1 + t, z);
  }

  lemma DoubleDenominator(f: Fp, D: nat, C: nat)
    ensures f.Sub(f.Add(D, C), f.Mul(2, D)) == f.Neg(f.Sub(D, C))
  {
    hide Fp.R;
    RAdd(f, D + C, 2 * D);
    RAdd(f, 0, D - C);
    assert (D + C) - 2 * D == 0 - (D - C);
  }

  /** ptDouble(p) has minus the coordinates of ptAdd(p, p): the same point. */
  lemma DoubleIsAdd(c: Curve, e: Ext, q: Point)
    requires OnCurve(c, q) && Represents(c, e, q)
    ensures PtDouble(c, e) == NegateAll(c.f, PtAdd(c, e, e))
  {
    hide Fp.R, Fp.Mul, Fp.Add, Fp.Sub, Fp.Neg;
    var f := c.f;
    var A, B := f.Mul(e.X, e.X), f.Mul(e.Y, e.Y);
    var C, D := f.Mul(f.Mul(e.T, c.d), e.T), f.Mul(e.Z, e.Z);
    var aA := f.Mul(c.a, A);
    ExtendedEquation(c, e, q);
    assert f.Add(aA, B) == f.Add(D, C);
    SubNeg(f, aA, B);
    DoubleDenominator(f, D, C);
    var E := f.Sub(f.Sub(f.Mul(f.Add(e.X, e.Y), f.Add(e.X, e.Y)), A), B);
    MulNeg(f, E, f.Sub(D, C));
    MulNeg(f, f.Add(D, C), f.Sub(B, aA));
    MulNeg(f, f.Sub(D, C), f.Add(D, C));
    MulNeg(f, E, f.Sub(B, aA));
  }

  lemma NegateRepresents(c: Curve, e: Ext, q: Point)
    requires Represents(c, e, q)
    ensures Represents(c, NegateAll(c.f, e), q)
  {
    var f, z := c.f, e.Z;
    NegValue(f, z);
    NegScaled(f, q.x, z);
    NegScaled(f, q.y, z);
    NegScaled(f, q.x * q.y, z);
  }

  lemma NegScaled(f: Fp, u: nat, z: nat)
    ensures f.R(u * f.Neg(z)) == f.Neg(f.R(u * z))
  {
    hide Fp.R;
    RMul(f, u, 0 - z);
    RAdd(f, 0, u * z);
    assert u * (0 - z) == 0 - u * z;
  }

  lemma DoubleRepresents(c: Curve, e: Ext, q: Point)
    requires ValidCurve(c) && OnCurve(c, q) && Represents(c, e, q)
    ensures Represents(c, PtDouble(c, e), Sum(c, q, q))
  {
    DoubleIsAdd(c, e, q);
    AddRepresents(c, e, e, q, q);
    NegateRepresents(c, PtAdd(c, e, e), Sum(c, q, q));
  }

  /** Doubling and adding a point to itself give the same affine point. */
  lemma SameAffine(c: Curve, e: Ext, q: Point)
    requires ValidCurve(c) && OnCurve(c, q) && Represents(c, e, q)
    ensures ToAffine(c, PtDouble(c, e)) == ToAffine(c, PtAdd(c, e, e)) == Sum(c, q, q)
  {
    Closed(c, q, q);
    DoubleRepresents(c, e, q);
    AddRepresents(c, e, e, q, q);
    ToAffineIs(c, PtDouble(c, e), Sum(c, q, q));
    ToAffineIs(c, PtAdd(c, e, e), Sum(c, q, q));
  }

  // ------------------------------------------------------------------ affine

  function ToAffine(c: Curve, e: Ext): Point {
    var zi := c.f.Inv(e.Z);
    Point(c.f.Mul(e.X, zi), c.f.Mul(e.Y, zi))
  }

  lemma ToAffineIs(c: Curve, e: Ext, q: Point)
    requires Prime(c.f.p) && Represents(c, e, q) && q.x < c.f.p && q.y < c.f.p
    ensures ToAffine(c, e) == q
  {
    InvIsInverse(c.f, e.Z);
    UnscaleIs(c.f, q.x, e.Z, c.f.Inv(e.Z));
    UnscaleIs(c.f, q.y, e.Z, c.f.Inv(e.Z));
  }

  lemma UnscaleIs(f: Fp, x: nat, z: nat, i: nat)
    requires x < f.p && f.Mul(z, i) == 1
    ensures f.Mul(f.R(x * z), i) == x
  {
    MulAssoc(f, x, z, i);
    MulOne(f, x);
  }

  lemma FromAffineRepresents(c: Curve, q: Point)
    requires OnCurve(c, q)
    ensures Represents(c, FromAffine(c, q), q)
  {
    RSmall(c.f, q.x);
    RSmall(c.f, q.y);
  }

  lemma IdentityRepresents(c: Curve)
    ensures Represents(c, EXT_IDENTITY, IDENTITY)
  {
    RSmall(c.f, 0);
    RSmall(c.f, 1);
  }

  // -------------------------------------------------- scalar multiplication

  /** Left-to-right double-and-add is the k-fold sum, for every k. */
  method PtMul(c: Curve, k: nat, q: Point) returns (r: Ext)
    requires CurveGroup(c) && OnCurve(c, q)
    ensures Represents(c, r, Fold(c, k, q))
  {
    hide Fp.R, Sum, OnCurve, PtAdd, PtDouble, Represents;
    r := EXT_IDENTITY;
    var p := FromAffine(c, q);
    FromAffineRepresents(c, q);
    IdentityRepresents(c);
    var i := BitLength(k);
    DivIs(k, Pow2(i), 0, k);
    while i > 0
      invariant Represents(c, r, Fold(c, k / Pow2(i), q))
    {
      i := i - 1;
      ghost var half := k / Pow2(i + 1);
      NextBit(k, i);
      FoldOnCurve(c, half, q);
      DoubleRepresents(c, r, Fold(c, half, q));
      FoldAdd(c, half, half, q);
      r := PtDouble(c, r);
      if (k / Pow2(i)) % 2 == 1 {
        FoldOnCurve(c, half + half, q);
        AddRepresents(c, r, p, Fold(c, half + half, q), q);
        r := PtAdd(c, r, p);
      }
    }
    assert k / Pow2(0) == k;
  }

  /** mul(affine, k) of the verifier and keys::mul of the crate. */
  method MulAffine(c: Curve, q: Point, k: nat) returns (r: Point)
    requires CurveGroup(c) && OnCurve(c, q)
    ensures r == Fold(c, k, q)
  {
    var e := PtMul(c, k, q);
    FoldOnCurve(c, k, q);
    ToAffineIs(c, e, Fold(c, k, q));
    var zi := FInv(c.f, e.Z);
    r := Point(c.f.Mul(e.X, zi.value), c.f.Mul(e.Y, zi.value));
  }
}
