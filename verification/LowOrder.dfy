/** When a diversified base degenerates: the cofactor multiple of a point is the
    identity exactly for points on an axis or a diagonal of the curve, and the
    search does not refuse them. */
module LowOrder {
  import opened Field
  import opened Sqrt
  import opened Wrappers
  import opened Edwards
  import opened Group
  import opened PointCodec
  import opened Diversify

  /** On an axis, or on a diagonal: y^2 = a x^2. */
  predicate Low(c: Curve, q: Point) {
    q.x == 0 || q.y == 0 || c.f.R(q.y * q.y - c.a * (q.x * q.x)) == 0
  }

  // --------------------------------------------------------------- doublings

  /** A point doubles to the identity iff its x is 0. */
  lemma DoubleIsIdentity(c: Curve, q: Point)
    requires CurveGroup(c) && OnCurve(c, q)
    ensures Sum(c, q, q) == IDENTITY <==> q.x == 0
  {
    hide Sum, Fp.Neg, Associative;
    NegValue(c.f, q.x);
    NegateOnCurve(c, q);
    SumNegate(c, q);
    if Sum(c, q, q) == IDENTITY {
      CancelLeft(c, q, q, Negate(c, q));
      assert q.x == c.f.Neg(q.x);
    }
  }

  /** A quotient of residues vanishes iff its numerator does. */
  lemma QuotientZero(f: Fp, num: int, den: nat)
    requires Prime(f.p) && 0 < den < f.p
    ensures f.R(num * f.Inv(den)) == 0 <==> f.R(num) == 0
  {
    hide Fp.R, Fp.Inv;
    var n, i := f.R(num), f.Inv(den);
    InvIsInverse(f, den);
    RMul(f, num, i);
    assert f.Mul(n, i) == f.R(num * i);
    if n == 0 {
      MulZero(f, i);
    } else if f.R(num * i) == 0 {
      NoZeroDivisors(f, n, i);
    }
  }

  lemma TwiceProduct(f: Fp, x: nat, y: nat)
    requires Prime(f.p) && f.p % 2 == 1 && x < f.p && y < f.p
    ensures f.R(x * y + y * x) == 0 <==> x == 0 || y == 0
  {
    hide Fp.R;
    assert x * y + y * x == 2 * (x * y);
    RSmall(f, 2);
    RMul(f, 2, x * y);
    assert f.Mul(2, f.Mul(x, y)) == f.R(x * y + y * x);
    if f.R(x * y + y * x) == 0 {
      NoZeroDivisors(f, 2, f.Mul(x, y));
      NoZeroDivisors(f, x, y);
    } else {
      MulZero(f, y);
      MulZero(f, x);
      MulZero(f, 2);
    }
  }

  lemma DoubleCoordinates(c: Curve, q: Point)
    requires ValidCurve(c) && OnCurve(c, q)
    ensures Sum(c, q, q).x == 0 <==> q.x == 0 || q.y == 0
    ensures Sum(c, q, q).y == 0 <==> c.f.R(q.y * q.y - c.a * (q.x * q.x)) == 0
  {
    hide Fp.R, Fp.Inv, OnCurve, Cross;
    var t := Cross(c, q, q);
    Complete(c, q, q);
    InRange(c, q);
    QuotientZero(c.f, NumX(q, q), c.f.R(1 + t));
    QuotientZero(c.f, NumY(c, q, q), c.f.R(1 - t));
    TwiceProduct(c.f, q.x, q.y);
  }

  /** Eight times a point is the identity iff the point is low. */
  lemma EightIsIdentity(c: Curve, q: Point)
    requires CurveGroup(c) && OnCurve(c, q)
    ensures Fold(c, 8, q) == IDENTITY <==> Low(c, q)
  {
    hide Sum, OnCurve, Fold, Associative;
    var q2, q4 := Sum(c, q, q), Sum(c, Sum(c, q, q), Sum(c, q, q));
    FoldOne(c, q);
    FoldAdd(c, 1, 1, q);
    FoldAdd(c, 2, 2, q);
    FoldAdd(c, 4, 4, q);
    Closed(c, q, q);
    Closed(c, q2, q2);
    DoubleIsIdentity(c, q4);
    DoubleCoordinates(c, q2);
    DoubleCoordinates(c, q);
  }

  lemma FoldOne(c: Curve, q: Point)
    requires OnCurve(c, q)
    ensures Fold(c, 1, q) == q
  {
    hide Sum, OnCurve;
    assert Fold(c, 1, q) == Sum(c, Fold(c, 0, q), q);
    SumIdentity(c, q);
  }

  // ------------------------------------------------------------------- bases

  /** The first candidate of hash output h on the curve is low. */
  ghost predicate LowStart(c: Curve, h: nat) {
    exists k, x :: FirstHit(c, h, k) && RawAt(c, h, k, x, YAt(c, h, k)) && Low(c, Point(x, YAt(c, h, k)))
  }

  /** The search never tests its result: its base is the identity exactly when
      the first candidate on the curve is low. */
  lemma IdentityBaseIff(c: Curve, h: nat)
    requires ValidBase(c)
    ensures Base(c, h) == Some(IDENTITY) <==> LowStart(c, h)
  {
    hide Fold, Sum, OnCurve, Base, RawAt, FirstHit, Low, CurveGroup;
    if Base(c, h).Some? {
      var k, x := FirstRaw(c, h);
      RawOnCurve(c, h, k, x, YAt(c, h, k));
      EightIsIdentity(c, Point(x, YAt(c, h, k)));
    }
    if LowStart(c, h) {
      var k, x :| FirstHit(c, h, k) && RawAt(c, h, k, x, YAt(c, h, k)) && Low(c, Point(x, YAt(c, h, k)));
      BaseIs(c, h, k, x);
      RawOnCurve(c, h, k, x, YAt(c, h, k));
      EightIsIdentity(c, Point(x, YAt(c, h, k)));
    }
  }

  lemma FirstRaw(c: Curve, h: nat) returns (k: nat, x: nat)
    requires ValidBase(c) && Base(c, h).Some?
    ensures FirstHit(c, h, k) && RawAt(c, h, k, x, YAt(c, h, k))
    ensures Base(c, h) == Some(Fold(c, 8, Point(x, YAt(c, h, k))))
  {
    hide Fold, RawAt;
    SearchFound(c, h, 0);
    k := SearchFrom(c, h, 0).value;
    RawExists(c, h, k);
    x :| RawAt(c, h, k, x, YAt(c, h, k));
    BaseIs(c, h, k, x);
  }

  /** Three hash outputs that start on an axis. */
  lemma LowOutputs(c: Curve)
    requires ValidBase(c)
    ensures LowStart(c, 0) && LowStart(c, 1) && LowStart(c, c.f.p - 1)
  {
    hide RawAt, FirstHit;
    OnAxis(c, 1);
    OnAxis(c, c.f.p - 1);
    var x := MinusOneRow(c);
    StartsAt(c, 0, x);
    StartsAt(c, 1, 0);
    StartsAt(c, c.f.p - 1, 0);
  }

  lemma StartsAt(c: Curve, h: nat, x: nat)
    requires ValidBase(c) && RawAt(c, h, 0, x, YAt(c, h, 0)) && Low(c, Point(x, YAt(c, h, 0)))
    ensures LowStart(c, h)
  {
    hide Low, Fp.Mul;
    RawSquare(c, h, 0, x);
    assert FirstHit(c, h, 0);
  }

  /** h = 1 and h = -1 start on (0, h). */
  lemma OnAxis(c: Curve, h: nat)
    requires ValidBase(c) && (h == 1 || h == c.f.p - 1)
    ensures RawAt(c, h, 0, 0, YAt(c, h, 0)) && Low(c, Point(0, YAt(c, h, 0)))
  {
    hide Fp.R, DenAt;
    var f := c.f;
    RSmall(f, h);
    RSmall(f, 1);
    RSmall(f, 0);
    NegValue(f, 1);
    NegNeg(f, 1);
    MulZero(f, 0);
    MulZero(f, DenAt(c, h, 0));
  }

  /** h = 0 starts on the row y = 0, where x^2 = -1 has a root. */
  lemma MinusOneRow(c: Curve) returns (x: nat)
    requires ValidBase(c)
    ensures RawAt(c, 0, 0, x, YAt(c, 0, 0)) && Low(c, Point(x, YAt(c, 0, 0)))
  {
    hide Fp.R;
    var f := c.f;
    var r: nat :| f.IsRoot(r, c.a);
    EvenRoot(f, r);
    x := if r % 2 == 0 then r else f.Neg(r);
    RSmall(f, 0);
    RSmall(f, 1);
    NegValue(f, 1);
    MulZero(f, 0);
    MulZero(f, c.d);
    MulOne(f, f.Mul(x, x));
  }
}
