/** The 32-byte compressed point encoding: y little-endian, the top bit telling
    the larger of the two square roots from the smaller. */
module PointCodec {
  import opened Bytes
  import opened Field
  import opened Sqrt
  import opened Wrappers
  import opened Edwards
  import opened Group
  import opened Extended

  /** 2^255, the weight of the sign bit. */
  function SignWeight(): (w: nat)
    ensures w > 0
  {
    128 * Pow256(31)
  }

  ghost predicate ValidCodec(c: Curve) {
    CurveGroup(c) && c.f.p <= SignWeight()
  }

  /** Points of the subgroup of the given order, the only ones accepted. */
  predicate InSubgroup(c: Curve, q: Point) {
    OnCurve(c, q) && Fold(c, c.order, q) == IDENTITY
  }

  function EncodePoint(c: Curve, q: Point): (b: seq<byte>)
    requires q.y < SignWeight()
    ensures |b| == 32
  {
    var out := ToLe(q.y, 32);
    TopBitFree(q.y);
    if q.x > c.f.Neg(q.x) then out[31 := out[31] + 128] else out
  }

  lemma TopBitFree(y: nat)
    requires y < SignWeight()
    ensures ToLe(y, 32)[31] < 128
    ensures Le(ToLe(y, 32)) == y
  {
    hide Pow256, ToLe;
    var b := ToLe(y, 32);
    Pow256Step(31);
    LeToLe(y, 32);
    SplitTop(b);
    if b[31] >= 128 {
      MulMonotone(128, b[31], Pow256(31));
    }
  }

  lemma SplitTop(b: seq<byte>)
    requires |b| == 32
    ensures Le(b) == Le(b[..31]) + Pow256(31) * b[31]
    ensures Le(b[..31]) < Pow256(31)
  {
    hide Pow256;
    assert b == b[..31] + [b[31]];
    LeConcat(b[..31], [b[31]]);
    LeBound(b[..31]);
  }

  /** The y coordinate a 32-byte string carries: all bits but the top one. */
  function CodedY(b: seq<byte>): nat {
    Le(b) % SignWeight()
  }

  lemma CodedYIs(b: seq<byte>, out: seq<byte>, y: nat)
    requires |b| == |out| == 32 && y < SignWeight() && Le(out) == y && out[31] < 128
    requires b == out || b == out[31 := out[31] + 128]
    ensures CodedY(b) == y
  {
    hide Pow256;
    SplitTop(b);
    SplitTop(out);
    assert b[..31] == out[..31];
    WithTopBit(Pow256(31), out[31]);
    if b == out {
      RUnique(Fp(SignWeight()), Le(b), 0, y);
    } else {
      RUnique(Fp(SignWeight()), Le(b), 1, y);
    }
  }

  lemma WithTopBit(w: nat, t: int)
    ensures w * (t + 128) == w * t + 128 * w
  {
  }

  function ClearTop(b: seq<byte>): (out: seq<byte>)
    requires |b| == 32
    ensures |out| == 32 && out[31] < 128
  {
    if b[31] < 128 then b else b[31 := b[31] - 128]
  }

  lemma BelowSign(out: seq<byte>)
    requires |out| == 32 && out[31] < 128
    ensures Le(out) < SignWeight()
  {
    hide Pow256, Le;
    SplitTop(out);
    BelowTop(Le(out[..31]), Pow256(31), out[31]);
  }

  lemma BelowTop(r: nat, w: nat, t: nat)
    requires r < w && t <= 127
    ensures r + w * t < 128 * w
  {
    MulMonotone(t, 127, w);
  }

  /** Clearing the sign bit of b gives the canonical bytes of CodedY(b). */
  lemma CodedYBytes(b: seq<byte>)
    requires |b| == 32
    ensures CodedY(b) < SignWeight()
    ensures ToLe(CodedY(b), 32) == ClearTop(b)
  {
    hide Pow256, ToLe, CodedY, SignWeight;
    var out := ClearTop(b);
    BelowSign(out);
    if b != out {
      assert b == out[31 := out[31] + 128];
    }
    CodedYIs(b, out, Le(out));
    ToLeLe(out);
  }

  /** What an accepted encoding says about its point. */
  predicate Decodes(c: Curve, b: seq<byte>, q: Point) {
    && |b| == 32 && q.y == CodedY(b) && InSubgroup(c, q)
    && (if b[31] < 128 then q.x <= c.f.Neg(q.x) else q.x >= c.f.Neg(q.x))
  }

  // --------------------------------------------------- x from y on the curve

  function XDenominator(c: Curve, y: nat): nat {
    c.f.Sub(c.a, c.f.Mul(c.f.Mul(y, y), c.d))
  }

  function XSquared(c: Curve, y: nat): nat {
    c.f.Mul(c.f.Sub(1, c.f.Mul(y, y)), c.f.Inv(XDenominator(c, y)))
  }

  lemma CurveLinear(f: Fp, a: int, d: int, x: int, y: int)
    ensures f.R(a * (x * x) + y * y) == f.R(1 + d * ((x * y) * (x * y)))
       <==> f.R((x * x) * (a - (y * y) * d)) == f.R(1 - y * y)
  {
    var u, v := a * (x * x) + y * y, 1 + d * ((x * y) * (x * y));
    RZero(f, u, v);
    RZero(f, (x * x) * (a - (y * y) * d), 1 - y * y);
    LinearPoly(a, d, x, y);
  }

  lemma LinearPoly(a: int, d: int, x: int, y: int)
    ensures a * (x * x) + y * y - (1 + d * ((x * y) * (x * y))) == (x * x) * (a - (y * y) * d) - (1 - y * y)
  {
  }

  lemma DenominatorUnreduced(c: Curve, y: nat)
    ensures XDenominator(c, y) == c.f.R(c.a - (y * y) * c.d)
  {
    RMul(c.f, y * y, c.d);
    RAdd(c.f, c.a, c.f.R(y * y) * c.d);
    RAdd(c.f, c.a, (y * y) * c.d);
  }

  /** With a nonzero denominator, (x, y) is on the curve exactly when x is a
      root of XSquared(y). */
  lemma CurveX(c: Curve, x: nat, y: nat)
    requires Prime(c.f.p) && x < c.f.p && y < c.f.p && XDenominator(c, y) != 0
    ensures OnCurve(c, Point(x, y)) <==> c.f.Mul(x, x) == XSquared(c, y)
  {
    var f, w := c.f, XDenominator(c, y);
    CurveLinear(f, c.a, c.d, x, y);
    DenominatorUnreduced(c, y);
    InvIsInverse(f, w);
    var n := f.Sub(1, f.Mul(y, y));
    RAdd(f, 1, y * y);
    RMul(f, x * x, c.a - (y * y) * c.d);
    assert f.Mul(f.Mul(x, x), w) == f.R((x * x) * (c.a - (y * y) * c.d));
    DivideBoth(f, f.Mul(x, x), w, f.Inv(w), n);
  }

  lemma DivideBoth(f: Fp, u: nat, w: nat, i: nat, n: nat)
    requires f.Mul(w, i) == 1 && u < f.p && n < f.p
    ensures f.Mul(u, w) == n <==> u == f.Mul(n, i)
  {
    MulAssoc(f, u, w, i);
    MulOne(f, u);
    MulAssoc(f, n, i, w);
    MulComm(f, i, w);
    MulOne(f, n);
  }

  /** A y with zero denominator belongs to no point: a would equal d. */
  lemma NoPointAtPole(c: Curve, q: Point)
    requires ValidCurve(c) && OnCurve(c, q)
    ensures XDenominator(c, q.y) != 0
  {
    if XDenominator(c, q.y) == 0 {
      var f, y := c.f, q.y;
      DenominatorUnreduced(c, y);
      RZero(f, c.a, (y * y) * c.d);
      CurveLinear(f, c.a, c.d, q.x, y);
      RMul(f, q.x * q.x, c.a - (y * y) * c.d);
      assert (q.x * q.x) * 0 == 0;
      RSmall(f, 0);
      RZero(f, 1, y * y);
      Subst(f, 1, y * y, c.d, 0);
      RSmall(f, c.a);
      RSmall(f, c.d);
    }
  }

  // ------------------------------------------------------------ decodePoint

  /** Both x for a y, the smaller first; None when y carries no point. */
  method XsFromY(c: Curve, tab: Table, y: nat) returns (r: Option<(nat, nat)>)
    requires ValidCurve(c) && ValidTable(c.f, tab) && y < c.f.p
    ensures r.None? ==> forall q :: OnCurve(c, q) ==> q.y != y
    ensures r.Some? ==> r.value.0 <= r.value.1 && r.value.1 == c.f.Neg(r.value.0) && r.value.0 == c.f.Neg(r.value.1)
    ensures r.Some? ==> OnCurve(c, Point(r.value.0, y)) && OnCurve(c, Point(r.value.1, y))
  {
    var f := c.f;
    var y2 := f.Mul(y, y);
    var den := f.Sub(c.a, f.Mul(y2, c.d));
    forall q | OnCurve(c, q) && q.y == y
      ensures den != 0 && f.IsSquare(XSquared(c, y))
    {
      NoPointAtPole(c, q);
      CurveX(c, q.x, y);
      assert f.IsRoot(q.x, XSquared(c, y));
    }
    if den == 0 {
      return None;
    }
    var i := FInv(f, den);
    var x := FSqrt(f, tab, f.Mul(f.Sub(1, y2), i.value));
    if x.None? {
      return None;
    }
    var nx := f.Neg(x.value);
    NegNeg(f, x.value);
    CurveX(c, x.value, y);
    CurveX(c, nx, y);
    if x.value <= nx {
      return Some((x.value, nx));
    }
    return Some((nx, x.value));
  }

  lemma NegNeg(f: Fp, x: nat)
    requires x < f.p
    ensures f.Neg(f.Neg(x)) == x && f.Mul(f.Neg(x), f.Neg(x)) == f.Mul(x, x)
  {
    NegValue(f, x);
    NegValue(f, f.Neg(x));
    MulNeg(f, f.Neg(x), x);
    MulNeg(f, x, x);
    var s := f.Mul(x, x);
    NegValue(f, s);
    NegValue(f, f.Neg(s));
  }

  method DecodePoint(c: Curve, tab: Table, b: seq<byte>) returns (r: Option<Point>)
    requires ValidCodec(c) && ValidTable(c.f, tab)
    ensures r.None? ==> forall q :: !Decodes(c, b, q)
    ensures r.Some? ==> Decodes(c, b, r.value)
  {
    if |b| != 32 {
      return None;
    }
    var y := Le(b) % SignWeight();
    if y >= c.f.p {
      return None;
    }
    var xs := XsFromY(c, tab, y);
    if xs.None? {
      return None;
    }
    var p := Point(if b[31] / 128 == 0 then xs.value.0 else xs.value.1, y);
    forall q | Decodes(c, b, q) ensures q == p {
      SameRow(c, b, p, q);
    }
    if !OnCurve(c, p) {
      return None;
    }
    var o := MulAffine(c, p, c.order);
    if o == IDENTITY {
      return Some(p);
    }
    return None;
  }

  /** Two points with the same y and the same sign choice are equal. */
  lemma SameRow(c: Curve, b: seq<byte>, p: Point, q: Point)
    requires ValidCurve(c) && |b| == 32 && OnCurve(c, p) && OnCurve(c, q) && p.y == q.y
    requires if b[31] < 128 then p.x <= c.f.Neg(p.x) && q.x <= c.f.Neg(q.x)
             else p.x >= c.f.Neg(p.x) && q.x >= c.f.Neg(q.x)
    ensures p == q
  {
    NoPointAtPole(c, p);
    CurveX(c, p.x, p.y);
    CurveX(c, q.x, p.y);
    RootsDiffer(c.f, p.x, q.x);
    NegNeg(c.f, q.x);
  }

  /** A byte string decodes to at most one point. */
  lemma DecodesUnique(c: Curve, b: seq<byte>, p: Point, q: Point)
    requires ValidCodec(c) && Decodes(c, b, p) && Decodes(c, b, q)
    ensures p == q
  {
    hide Pow256, ToLe;
    SameRow(c, b, p, q);
  }

  /** Every subgroup point is what its encoding decodes to. */
  lemma RoundTrip(c: Curve, q: Point)
    requires ValidCodec(c) && InSubgroup(c, q)
    ensures Decodes(c, EncodePoint(c, q), q)
  {
    hide Pow256, ToLe;
    TopBitFree(q.y);
    CodedYIs(EncodePoint(c, q), ToLe(q.y, 32), q.y);
  }

  /** An accepted encoding is the point's own, except that at x = 0 the sign
      bit is free. */
  lemma Canonical(c: Curve, b: seq<byte>, q: Point)
    requires ValidCodec(c) && Decodes(c, b, q)
    ensures EncodePoint(c, q) == b <==> !(q.x == 0 && b[31] >= 128)
    ensures q.x == 0 ==> EncodePoint(c, q) == ClearTop(b)
  {
    hide Pow256, ToLe, OnCurve, Fold, CodedY, SignWeight, Fp.Neg;
    CodedYBytes(b);
    SignOf(c, q);
    if b[31] >= 128 {
      SetTop(b);
    }
  }

  lemma SignOf(c: Curve, q: Point)
    requires OnCurve(c, q)
    ensures q.x == 0 ==> c.f.Neg(q.x) == 0
    ensures q.x != 0 && c.f.p % 2 == 1 ==> c.f.Neg(q.x) != q.x
  {
    NegValue(c.f, q.x);
  }

  lemma SetTop(b: seq<byte>)
    requires |b| == 32 && b[31] >= 128
    ensures b == ClearTop(b)[31 := ClearTop(b)[31] + 128] && b != ClearTop(b)
  {
  }

  method EncodeThenDecode(c: Curve, tab: Table, q: Point) returns (r: Option<Point>)
    requires ValidCodec(c) && ValidTable(c.f, tab) && InSubgroup(c, q)
    ensures r == Some(q)
  {
    hide Pow256, ToLe;
    RoundTrip(c, q);
    r := DecodePoint(c, tab, EncodePoint(c, q));
    if r.Some? {
      DecodesUnique(c, EncodePoint(c, q), q, r.value);
    }
  }
}
