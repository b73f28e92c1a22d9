/** What follows from associativity of the (proved closed and complete) curve
    law: multiples add, multiply and cancel. Associativity is the one curve
    fact taken as a hypothesis. */
module Group {
  import opened Field
  import opened Sqrt
  import opened Edwards

  ghost predicate Associative(c: Curve) {
    forall q, r, s :: OnCurve(c, q) && OnCurve(c, r) && OnCurve(c, s)
      ==> Sum(c, Sum(c, q, r), s) == Sum(c, q, Sum(c, r, s))
  }

  ghost predicate CurveGroup(c: Curve) {
    ValidCurve(c) && Associative(c)
  }

  lemma SumComm(c: Curve, q: Point, r: Point)
    ensures Sum(c, q, r) == Sum(c, r, q)
  {
    assert Cross(c, q, r) == Cross(c, r, q);
    assert NumX(q, r) == NumX(r, q);
    assert NumY(c, q, r) == NumY(c, r, q);
  }

  lemma IdentityOnCurve(c: Curve)
    requires c.f.p > 1
    ensures OnCurve(c, IDENTITY)
  {
  }

  lemma SumIdentity(c: Curve, q: Point)
    requires OnCurve(c, q)
    ensures Sum(c, IDENTITY, q) == q && Sum(c, q, IDENTITY) == q
  {
    var f := c.f;
    assert Cross(c, IDENTITY, q) == 0 by {
      assert (IDENTITY.x * IDENTITY.y) * (q.x * q.y) == 0;
    }
    RSmall(f, 1);
    PowOne(f, f.p - 2);
    RSmall(f, q.x);
    RSmall(f, q.y);
    assert NumX(IDENTITY, q) == q.x && NumY(c, IDENTITY, q) == q.y;
    SumComm(c, IDENTITY, q);
  }

  function Negate(c: Curve, q: Point): Point {
    Point(c.f.Neg(q.x), q.y)
  }

  lemma NegateOnCurve(c: Curve, q: Point)
    requires OnCurve(c, q)
    ensures OnCurve(c, Negate(c, q))
  {
    RSmall(c.f, q.y);
    NegPolys(q.x, q.y);
    OnCurveUnreduced(c, 0 - q.x, q.y);
  }

  lemma NegPolys(x: int, y: int)
    ensures (0 - x) * (0 - x) == x * x
    ensures ((0 - x) * y) * ((0 - x) * y) == (x * y) * (x * y)
    ensures x * y + y * (0 - x) == 0
  {
    assert (0 - x) * y == -(x * y);
  }

  /** q plus its negative is the identity. */
  lemma SumNegate(c: Curve, q: Point)
    requires ValidCurve(c) && OnCurve(c, q)
    ensures Sum(c, q, Negate(c, q)) == IDENTITY
  {
    hide Fp.R;
    var f, n := c.f, Negate(c, q);
    NegateOnCurve(c, q);
    Complete(c, q, n);
    var t := Cross(c, q, n);
    RSmall(f, 0);
    RSmall(f, 1);
    // numerator of x: x y + y (-x)
    RMul(f, q.y, 0 - q.x);
    RAdd(f, q.x * q.y, q.y * n.x);
    RAdd(f, q.x * q.y, q.y * (0 - q.x));
    NegPolys(q.x, q.y);
    RMul(f, NumX(q, n), f.Inv(f.R(1 + t)));
    assert 0 * f.Inv(f.R(1 + t)) == 0;
    // y: (y^2 + a x^2) / (1 + d x^2 y^2)
    NegateDenominator(c, q);
    InvIsInverse(f, f.R(1 - t));
    RMul(f, NumY(c, q, n), f.Inv(f.R(1 - t)));
  }

  lemma NegateDenominator(c: Curve, q: Point)
    requires OnCurve(c, q)
    ensures c.f.R(NumY(c, q, Negate(c, q))) == c.f.R(1 - Cross(c, q, Negate(c, q)))
  {
    var n := Negate(c, q);
    RSmall(c.f, n.x);
    NegateTerms(c.f, c.a, c.d, q.x, q.y, n.x);
  }

  lemma NegateTerms(f: Fp, a: int, d: int, x: int, y: int, n: int)
    requires f.R(n) == f.R(0 - x)
    requires f.R(a * (x * x) + y * y) == f.R(1 + d * ((x * y) * (x * y)))
    ensures f.R(y * y - a * (x * n)) == f.R(1 - d * ((x * y) * (n * y)))
  {
    hide Fp.R;
    Subst(f, n, 0 - x, -(a * x), y * y);
    Subst(f, n, 0 - x, -(d * ((x * y) * y)), 1);
    NegatePolys(a, d, x, y, n);
  }

  lemma NegatePolys(a: int, d: int, x: int, y: int, n: int)
    ensures y * y - a * (x * n) == n * -(a * x) + y * y
    ensures (0 - x) * -(a * x) + y * y == a * (x * x) + y * y
    ensures 1 - d * ((x * y) * (n * y)) == n * -(d * ((x * y) * y)) + 1
    ensures (0 - x) * -(d * ((x * y) * y)) + 1 == 1 + d * ((x * y) * (x * y))
  {
  }

  lemma CancelLeft(c: Curve, q: Point, r: Point, s: Point)
    requires CurveGroup(c) && OnCurve(c, q) && OnCurve(c, r) && OnCurve(c, s)
    requires Sum(c, q, r) == Sum(c, q, s)
    ensures r == s
  {
    hide Sum, OnCurve;
    var n := Negate(c, q);
    NegateOnCurve(c, q);
    SumNegate(c, q);
    SumComm(c, q, n);
    SumIdentity(c, r);
    SumIdentity(c, s);
    assert Sum(c, Sum(c, n, q), r) == Sum(c, n, Sum(c, q, r));
    assert Sum(c, Sum(c, n, q), s) == Sum(c, n, Sum(c, q, s));
  }

  // ---------------------------------------------------------------- multiples

  lemma {:induction false} FoldOnCurve(c: Curve, n: nat, q: Point)
    requires ValidCurve(c) && OnCurve(c, q)
    ensures OnCurve(c, Fold(c, n, q))
  {
    hide Sum, OnCurve;
    if n == 0 {
      IdentityOnCurve(c);
    } else {
      FoldOnCurve(c, n - 1, q);
      Closed(c, Fold(c, n - 1, q), q);
    }
  }

  lemma {:induction false} FoldAdd(c: Curve, m: nat, n: nat, q: Point)
    requires CurveGroup(c) && OnCurve(c, q)
    ensures Fold(c, m + n, q) == Sum(c, Fold(c, m, q), Fold(c, n, q))
  {
    hide Sum, OnCurve;
    FoldOnCurve(c, m, q);
    if n == 0 {
      SumIdentity(c, Fold(c, m, q));
    } else {
      FoldAdd(c, m, n - 1, q);
      FoldOnCurve(c, n - 1, q);
      assert Fold(c, m + n, q) == Sum(c, Fold(c, m + (n - 1), q), q);
    }
  }

  lemma {:induction false} FoldMul(c: Curve, m: nat, n: nat, q: Point)
    requires CurveGroup(c) && OnCurve(c, q)
    ensures Fold(c, m * n, q) == Fold(c, m, Fold(c, n, q))
  {
    hide Sum, OnCurve;
    if m != 0 {
      FoldMul(c, m - 1, n, q);
      assert m * n == (m - 1) * n + n;
      FoldAdd(c, (m - 1) * n, n, q);
    }
  }

  /** Multiplications by two scalars commute: what makes both sides of the
      note key agreement compute the same point. */
  lemma FoldSwap(c: Curve, m: nat, n: nat, q: Point)
    requires CurveGroup(c) && OnCurve(c, q)
    ensures Fold(c, m, Fold(c, n, q)) == Fold(c, n, Fold(c, m, q))
  {
    hide Sum, OnCurve;
    FoldMul(c, m, n, q);
    FoldMul(c, n, m, q);
    assert m * n == n * m;
  }

  lemma {:induction false} FoldIdentity(c: Curve, n: nat)
    ensures Fold(c, n, IDENTITY) == IDENTITY
  {
    hide Sum, OnCurve;
    if n != 0 {
      FoldIdentity(c, n - 1);
      IdentityOnCurve(c);
      SumIdentity(c, IDENTITY);
    }
  }

  /** q generates a subgroup of the prime order c.order. */
  ghost predicate Generates(c: Curve, q: Point) {
    OnCurve(c, q) && q != IDENTITY && Prime(c.order) && Fold(c, c.order, q) == IDENTITY
  }

  /** No smaller multiple of a generator is the identity. */
  lemma NoSmallMultiple(c: Curve, q: Point, k: nat)
    requires CurveGroup(c) && Generates(c, q) && 0 < k < c.order
    ensures Fold(c, k, q) != IDENTITY
  {
    hide Sum, OnCurve;
    if Fold(c, k, q) == IDENTITY {
      var g := Fp(c.order);
      var u := InverseExists(g, k);
      var w := RSplit(g, k * u);
      assert u * k == 1 + w * c.order;
      if w < 0 {
        MulAtLeast(-w, c.order);
      }
      FoldMul(c, u, k, q);
      FoldIdentity(c, u);
      FoldMul(c, w, c.order, q);
      FoldIdentity(c, w);
      FoldAdd(c, 1, w * c.order, q);
      assert Fold(c, 1, q) == Sum(c, Fold(c, 0, q), q);
      SumIdentity(c, q);
    }
  }

  /** Scalars below the order are determined by their multiple of a generator. */
  lemma FoldInjective(c: Curve, q: Point, m: nat, n: nat)
    requires CurveGroup(c) && Generates(c, q) && m < c.order && n < c.order
    requires Fold(c, m, q) == Fold(c, n, q)
    ensures m == n
  {
    hide Sum, OnCurve;
    if m > n {
      DifferenceVanishes(c, q, m, n);
    } else if n > m {
      DifferenceVanishes(c, q, n, m);
    }
  }

  lemma DifferenceVanishes(c: Curve, q: Point, m: nat, n: nat)
    requires CurveGroup(c) && Generates(c, q) && n < m < c.order
    ensures Fold(c, m, q) != Fold(c, n, q)
  {
    hide Sum, OnCurve, Fold;
    var l := Fold(c, n, q);
    FoldAdd(c, n, m - n, q);
    FoldOnCurve(c, n, q);
    FoldOnCurve(c, m - n, q);
    IdentityOnCurve(c);
    SumIdentity(c, l);
    NoSmallMultiple(c, q, m - n);
    if Fold(c, m, q) == l {
      CancelLeft(c, l, Fold(c, m - n, q), IDENTITY);
    }
  }

  /** A nonzero multiple of a generator generates the same subgroup. */
  lemma MultipleGenerates(c: Curve, q: Point, k: nat)
    requires CurveGroup(c) && Generates(c, q) && 0 < k < c.order
    ensures Generates(c, Fold(c, k, q))
  {
    hide Sum, OnCurve;
    NoSmallMultiple(c, q, k);
    FoldOnCurve(c, k, q);
    FoldSwap(c, c.order, k, q);
    FoldIdentity(c, k);
  }
}
