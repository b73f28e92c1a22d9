/** Arithmetic modulo a prime p, written on canonical representatives, with the
    number theory the curve and square-root code rely on. */
module Field {

  /** k divides n. */
  predicate Divides(k: nat, n: nat)
    requires k > 0
  {
    n % k == 0
  }

  ghost predicate Prime(p: nat)
  {
    p >= 2 && forall k :: 2 <= k < p ==> !Divides(k, p)
  }

  type Modulus = p: nat | p >= 2 witness 2

  /** The field of integers modulo p. The elements are the canonical
      representatives 0 .. p-1. */
  datatype Fp = Fp(p: Modulus) {

    function R(x: int): (r: nat)
      ensures r < p
    {
      x % p
    }

    function Add(a: nat, b: nat): (r: nat)
      ensures r < p
    {
      R(a + b)
    }

    function Sub(a: nat, b: nat): (r: nat)
      ensures r < p
    {
      R(a - b)
    }

    function Mul(a: nat, b: nat): (r: nat)
      ensures r < p
    {
      R(a * b)
    }

    function Neg(a: nat): (r: nat)
      ensures r < p
    {
      R(0 - a)
    }

    /** a to the e by repeated multiplication: what square-and-multiply must
        compute. */
    function Pow(a: nat, e: nat): (r: nat)
      ensures r < p
    {
      if e == 0 then 1 else Mul(a, Pow(a, e - 1))
    }

    function Inv(a: nat): (r: nat)
      ensures r < p
    {
      Pow(a, p - 2)
    }

    ghost predicate IsSquare(n: nat) {
      exists r: nat :: IsRoot(r, n)
    }

    predicate IsRoot(r: nat, n: nat) {
      r < p && Mul(r, r) == n
    }
  }

  // ---------------------------------------------------------------- residues

  lemma MulAtLeast(m: int, n: int)
    requires m >= 1 && n >= 0
    ensures m * n >= n
  {
    assert (m - 1) * n >= 0;
    assert m * n == (m - 1) * n + n;
  }

  lemma MulMonotone(m: nat, n: nat, k: nat)
    requires m <= n
    ensures m * k <= n * k
  {
    MulAtLeastZero(n - m, k);
    assert n * k == m * k + (n - m) * k;
  }

  lemma MulAtLeastZero(m: nat, k: nat)
    ensures m * k >= 0
  {
  }

  /** The remainder is the only number below p that differs from x by a
      multiple of p. */
  lemma RUnique(f: Fp, x: int, q: int, r: int)
    requires x == q * f.p + r && 0 <= r < f.p
    ensures f.R(x) == r
  {
    var q', r' := x / f.p, x % f.p;
    assert x == f.p * q' + r';
    assert (q' - q) * f.p == r - r';
    assert (q - q') * f.p == r' - r;
    if q' > q {
      MulAtLeast(q' - q, f.p);
    } else if q' < q {
      MulAtLeast(q - q', f.p);
    }
  }

  /** x is q*p more than its remainder, for some q. */
  lemma RSplit(f: Fp, x: int) returns (q: int)
    ensures x == q * f.p + f.R(x)
  {
    q := x / f.p;
  }

  lemma RSmall(f: Fp, x: nat)
    requires x < f.p
    ensures f.R(x) == x
  {
    RUnique(f, x, 0, x);
  }

  /** Adding a multiple of p does not change the residue. */
  lemma RShift(f: Fp, x: int, k: int)
    ensures f.R(x + k * f.p) == f.R(x)
  {
    var q := RSplit(f, x);
    assert x + k * f.p == (q + k) * f.p + f.R(x);
    RUnique(f, x + k * f.p, q + k, f.R(x));
  }

  lemma RAddLeft(f: Fp, u: int, v: int)
    ensures f.R(f.R(u) + v) == f.R(u + v)
    ensures f.R(v - f.R(u)) == f.R(v - u)
  {
    hide Fp.R;
    var a := RSplit(f, u);
    RShift(f, f.R(u) + v, a);
    RShift(f, v - f.R(u), -a);
    assert (-a) * f.p == -(a * f.p);
  }

  lemma RAdd(f: Fp, u: int, v: int)
    ensures f.R(f.R(u) + v) == f.R(u + v)
    ensures f.R(u + f.R(v)) == f.R(u + v)
    ensures f.R(f.R(u) - v) == f.R(u - v)
    ensures f.R(u - f.R(v)) == f.R(u - v)
    ensures f.R(f.R(u) + f.R(v)) == f.R(u + v)
    ensures f.R(f.R(u) - f.R(v)) == f.R(u - v)
  {
    hide Fp.R;
    RAddLeft(f, u, v);
    RAddLeft(f, v, u);
    RAddLeft(f, u, -v);
    RAddLeft(f, u, f.R(v));
    RAddLeft(f, v, f.R(u));
    RAddLeft(f, u, 0 - f.R(v));
  }

  lemma RInner(f: Fp, c: int, x: int, l: int)
    ensures f.R(c + x * f.R(l)) == f.R(c + x * l)
  {
    hide Fp.R;
    RMul(f, x, l);
    RCong(f, x * f.R(l), x * l, c);
  }

  lemma RMul(f: Fp, u: int, v: int)
    ensures f.R(f.R(u) * v) == f.R(u * v)
    ensures f.R(u * f.R(v)) == f.R(u * v)
    ensures f.R(f.R(u) * f.R(v)) == f.R(u * v)
  {
    hide Fp.R;
    RMulLeft(f, u, v);
    RMulLeft(f, v, u);
    assert u * f.R(v) == f.R(v) * u && u * v == v * u;
    RMulLeft(f, u, f.R(v));
  }

  lemma RMulLeft(f: Fp, u: int, v: int)
    ensures f.R(f.R(u) * v) == f.R(u * v)
  {
    hide Fp.R;
    var a := RSplit(f, u);
    calc {
      u * v;
      (a * f.p + f.R(u)) * v;
      f.R(u) * v + (a * v) * f.p;
    }
    RShift(f, f.R(u) * v, a * v);
  }

  /** Residues may be replaced inside a product. */
  lemma RCong(f: Fp, u: int, v: int, c: int)
    requires f.R(u) == f.R(v)
    ensures f.R(u * c) == f.R(v * c)
    ensures f.R(u + c) == f.R(v + c)
    ensures f.R(c - u) == f.R(c - v)
    ensures f.R(u - c) == f.R(v - c)
  {
    hide Fp.R;
    RMul(f, u, c);
    RMul(f, v, c);
    RAdd(f, u, c);
    RAdd(f, v, c);
    RAdd(f, c, u);
    RAdd(f, c, v);
  }

  /** Equal residues differ by a multiple of p, and conversely. */
  lemma RZero(f: Fp, u: int, v: int)
    ensures f.R(u) == f.R(v) <==> f.R(u - v) == 0
  {
    hide Fp.R;
    RAdd(f, u, v);
    RAdd(f, u - v, v);
    RSmall(f, 0);
    if f.R(u) == f.R(v) {
      RCong(f, u, v, v);
    }
    if f.R(u - v) == 0 {
      RCong(f, u - v, 0, v);
    }
  }

  lemma MulAssoc(f: Fp, a: nat, b: nat, c: nat)
    ensures f.Mul(f.Mul(a, b), c) == f.Mul(a, f.Mul(b, c))
  {
    hide Fp.R;
    RMul(f, a * b, c);
    RMul(f, a, b * c);
    assert (a * b) * c == a * (b * c);
  }

  lemma MulComm(f: Fp, a: nat, b: nat)
    ensures f.Mul(a, b) == f.Mul(b, a)
  {
  }

  lemma MulOne(f: Fp, a: nat)
    requires a < f.p
    ensures f.Mul(1, a) == a && f.Mul(a, 1) == a
  {
    RSmall(f, a);
  }

  // ---------------------------------------------- a prime modulus is a field

  /** Every nonzero residue has an inverse (Euclid's descent on the residue). */
  lemma {:induction false} InverseExists(f: Fp, a: nat) returns (b: nat)
    requires Prime(f.p) && 0 < a < f.p
    ensures b < f.p && f.Mul(a, b) == 1
    decreases a
  {
    if a == 1 {
      b := 1;
      RSmall(f, 1);
    } else {
      var q, r := f.p / a, f.p % a;
      assert !Divides(a, f.p);
      var c := InverseExists(f, r);
      b := f.R(-q * c);
      calc {
        f.Mul(a, b);
        { RMul(f, a, -q * c); }
        f.R(a * (-q * c));
        { assert a * (-q * c) == r * c + (-c) * f.p by {
            assert f.p == a * q + r;
            assert a * (-q * c) == -(a * q) * c;
            assert -(a * q) * c == (r - f.p) * c;
          } }
        f.R(r * c + (-c) * f.p);
        { RShift(f, r * c, -c); }
        f.R(r * c);
        1;
      }
    }
  }

  lemma NoZeroDivisors(f: Fp, a: nat, b: nat)
    requires Prime(f.p) && a < f.p && b < f.p && f.Mul(a, b) == 0
    ensures a == 0 || b == 0
  {
    if a != 0 {
      var c := InverseExists(f, a);
      calc {
        b;
        { MulOne(f, b); }
        f.Mul(f.Mul(a, c), b);
        { MulComm(f, a, c); MulAssoc(f, c, a, b); }
        f.Mul(c, f.Mul(a, b));
        { RSmall(f, 0); }
        0;
      }
    }
  }

  lemma Cancel(f: Fp, a: nat, b: nat, c: nat)
    requires Prime(f.p) && 0 < a < f.p && b < f.p && c < f.p
    requires f.Mul(a, b) == f.Mul(a, c)
    ensures b == c
  {
    hide Fp.R;
    RZero(f, a * b, a * c);
    assert a * b - a * c == a * (b - c);
    RMul(f, a, b - c);
    NoZeroDivisors(f, a, f.R(b - c));
    RZero(f, b, c);
    RSmall(f, b);
    RSmall(f, c);
  }

  lemma SquareGap(u: int, v: int)
    ensures u * u - v * v == (u - v) * (u + v)
  {
  }

  lemma Shuffle(a: int, b: int, x: int, y: int)
    ensures (a * b) * (x * y) == (a * x) * (b * y)
  {
  }

  lemma MulShuffle(f: Fp, a: nat, b: nat, x: nat, y: nat)
    ensures f.Mul(f.Mul(a, b), f.Mul(x, y)) == f.Mul(f.Mul(a, x), f.Mul(b, y))
  {
    hide Fp.R;
    RMul(f, a * b, x * y);
    Shuffle(a, b, x, y);
    RMul(f, a * x, b * y);
  }

  lemma MulZero(f: Fp, v: nat)
    ensures f.Mul(0, v) == 0 && f.Mul(v, 0) == 0
  {
    RSmall(f, 0);
    assert v * 0 == 0;
  }

  /** Only 1 and -1 square to 1. */
  lemma RootsOfOne(f: Fp, u: nat)
    requires Prime(f.p) && u < f.p && f.Mul(u, u) == 1
    ensures u == 1 || u == f.p - 1
  {
    hide Fp.R, Fp.Neg;
    RSmall(f, 1);
    assert f.Mul(1, 1) == f.R(1);
    RootsDiffer(f, u, 1);
    if u != 1 {
      NegValue(f, 1);
    }
  }

  lemma NegValue(f: Fp, a: nat)
    requires a < f.p
    ensures f.Neg(a) == if a == 0 then 0 else f.p - a
  {
    if a == 0 {
      RUnique(f, 0, 0, 0);
    } else {
      RUnique(f, 0 - a, -1, f.p - a);
    }
  }

  /** Two square roots of the same number agree up to sign. */
  lemma RootsDiffer(f: Fp, u: nat, v: nat)
    requires Prime(f.p) && u < f.p && v < f.p && f.Mul(u, u) == f.Mul(v, v)
    ensures u == v || u == f.Neg(v)
  {
    hide Fp.R;
    RZero(f, u * u, v * v);
    SquareGap(u, v);
    RMul(f, u - v, u + v);
    NoZeroDivisors(f, f.R(u - v), f.R(u + v));
    RSmall(f, u);
    RSmall(f, v);
    if f.R(u - v) == 0 {
      RZero(f, u, v);
    } else {
      RZero(f, u, 0 - v);
    }
  }

  // ----------------------------------------------------------------- powers

  lemma PowOne(f: Fp, e: nat)
    ensures f.Pow(1, e) == 1
  {
    if e > 0 {
      PowOne(f, e - 1);
      RSmall(f, 1);
    }
  }

  lemma {:induction false} PowAdd(f: Fp, a: nat, m: nat, n: nat)
    ensures f.Pow(a, m + n) == f.Mul(f.Pow(a, m), f.Pow(a, n))
  {
    hide Fp.R;
    if m == 0 {
      MulOne(f, f.Pow(a, n));
    } else {
      PowAdd(f, a, m - 1, n);
      MulAssoc(f, a, f.Pow(a, m - 1), f.Pow(a, n));
    }
  }

  lemma {:induction false} PowBase(f: Fp, a: nat, b: nat, e: nat)
    ensures f.Pow(f.Mul(a, b), e) == f.Mul(f.Pow(a, e), f.Pow(b, e))
  {
    if e == 0 {
      RSmall(f, 1);
    } else {
      PowBase(f, a, b, e - 1);
      var x, y := f.Pow(a, e - 1), f.Pow(b, e - 1);
      MulShuffle(f, a, b, x, y);
    }
  }

  lemma {:induction false} PowPow(f: Fp, a: nat, m: nat, n: nat)
    ensures f.Pow(f.Pow(a, m), n) == f.Pow(a, m * n)
  {
    hide Fp.R;
    if n != 0 {
      PowPow(f, a, m, n - 1);
      assert m * n == m + m * (n - 1);
      PowAdd(f, a, m, m * (n - 1));
    }
  }

  lemma PowTwo(f: Fp, a: nat)
    requires a < f.p
    ensures f.Pow(a, 2) == f.Mul(a, a)
  {
    assert f.Pow(a, 1) == f.Mul(a, 1);
    MulOne(f, a);
    assert f.Pow(a, 2) == f.Mul(a, f.Pow(a, 1));
  }

  /** Reducing the base first changes nothing. */
  lemma {:induction false} PowReduced(f: Fp, a: nat, e: nat)
    ensures f.Pow(f.R(a), e) == f.Pow(a, e)
  {
    hide Fp.R;
    if e > 0 {
      PowReduced(f, a, e - 1);
      RMul(f, a, f.Pow(a, e - 1));
    }
  }

  // ------------------------------------------------- Fermat's little theorem

  ghost function Product(f: Fp, s: set<nat>): (r: nat)
    ensures r < f.p
    decreases |s|
  {
    if s == {} then 1 else
      var x :| x in s;
      f.Mul(x, Product(f, s - {x}))
  }

  /** The factors of a product may be taken in any order. */
  lemma {:induction false} ProductPick(f: Fp, s: set<nat>, y: nat)
    requires y in s
    ensures Product(f, s) == f.Mul(y, Product(f, s - {y}))
    decreases |s|
  {
    var x :| x in s && Product(f, s) == f.Mul(x, Product(f, s - {x}));
    if x != y {
      ProductPick(f, s - {x}, y);
      ProductPick(f, s - {y}, x);
      assert s - {x} - {y} == s - {y} - {x};
      var rest := Product(f, s - {x} - {y});
      MulAssoc(f, x, y, rest);
      MulAssoc(f, y, x, rest);
      MulComm(f, x, y);
    }
  }

  ghost function Scale(f: Fp, a: nat, s: set<nat>): set<nat> {
    set x | x in s :: f.Mul(a, x)
  }

  /** Multiplying every element by a unit multiplies the product by a power of
      it and keeps the number of elements. */
  lemma {:induction false} ProductScale(f: Fp, a: nat, s: set<nat>)
    requires Prime(f.p) && 0 < a < f.p && forall x :: x in s ==> x < f.p
    ensures Product(f, Scale(f, a, s)) == f.Mul(f.Pow(a, |s|), Product(f, s))
    ensures |Scale(f, a, s)| == |s|
    decreases |s|
  {
    hide Fp.R, Fp.Mul, Fp.Pow, Scale, Product;
    if s == {} {
      ScaleNothing(f, a);
    } else {
      var y :| y in s;
      var t := s - {y};
      ProductScale(f, a, t);
      ScaleStep(f, a, s, y);
      ProductPick(f, Scale(f, a, s), f.Mul(a, y));
      ProductPick(f, s, y);
      MulShuffle(f, a, y, f.Pow(a, |t|), Product(f, t));
      PowNext(f, a, |t|);
    }
  }

  lemma ScaleNothing(f: Fp, a: nat)
    requires Prime(f.p)
    ensures Scale(f, a, {}) == {} && Product(f, {}) == 1 && f.Mul(f.Pow(a, 0), 1) == 1
  {
    hide Fp.R;
    RSmall(f, 1);
  }

  lemma PowNext(f: Fp, a: nat, n: nat)
    ensures f.Pow(a, n + 1) == f.Mul(a, f.Pow(a, n))
  {
  }

  /** Scaling one element fewer leaves out exactly its multiple. */
  lemma ScaleStep(f: Fp, a: nat, s: set<nat>, y: nat)
    requires Prime(f.p) && 0 < a < f.p && y in s && forall x :: x in s ==> x < f.p
    ensures f.Mul(a, y) in Scale(f, a, s) && Scale(f, a, s) - {f.Mul(a, y)} == Scale(f, a, s - {y})
  {
    hide Fp.Mul, Prime;
    forall x | x in s - {y} ensures f.Mul(a, x) != f.Mul(a, y) {
      if f.Mul(a, x) == f.Mul(a, y) {
        Cancel(f, a, x, y);
      }
    }
  }

  lemma {:induction false} ProductUnit(f: Fp, s: set<nat>)
    requires Prime(f.p) && forall x :: x in s ==> 0 < x < f.p
    ensures Product(f, s) != 0
    decreases |s|
  {
    if s != {} {
      var x :| x in s && Product(f, s) == f.Mul(x, Product(f, s - {x}));
      ProductUnit(f, s - {x});
      if Product(f, s) == 0 {
        NoZeroDivisors(f, x, Product(f, s - {x}));
      }
    }
  }

  ghost function Units(n: nat): (u: set<nat>)
    requires n >= 1
    ensures forall x :: x in u <==> 0 < x < n
    ensures |u| == n - 1
  {
    if n == 1 then {} else Units(n - 1) + {n - 1}
  }

  lemma SubsetOfSameSize(a: set<nat>, b: set<nat>)
    requires a <= b && |a| == |b|
    ensures a == b
  {
    assert b == a + (b - a);
    assert |b| == |a| + |b - a|;
  }

  /** Multiplication by a unit permutes the units. */
  lemma ScaleUnits(f: Fp, a: nat)
    requires Prime(f.p) && 0 < a < f.p
    ensures Scale(f, a, Units(f.p)) == Units(f.p)
  {
    var u := Units(f.p);
    forall x | x in u ensures f.Mul(a, x) in u {
      if f.Mul(a, x) == 0 {
        NoZeroDivisors(f, a, x);
      }
    }
    ProductScale(f, a, u);
    SubsetOfSameSize(Scale(f, a, u), u);
  }

  lemma UnitFactor(f: Fp, k: nat, q: nat)
    requires Prime(f.p) && k < f.p && 0 < q < f.p && f.Mul(k, q) == q
    ensures k == 1
  {
    MulOne(f, q);
    Cancel(f, q, k, 1);
  }

  lemma Fermat(f: Fp, a: nat)
    requires Prime(f.p) && 0 < a < f.p
    ensures f.Pow(a, f.p - 1) == 1
  {
    UnitsProductTwice(f, a, Units(f.p));
  }

  lemma UnitsProductTwice(f: Fp, a: nat, u: set<nat>)
    requires Prime(f.p) && 0 < a < f.p && u == Units(f.p)
    ensures f.Pow(a, |u|) == 1
  {
    hide Fp.R;
    ProductScale(f, a, u);
    ScaleUnits(f, a);
    ProductUnit(f, u);
    UnitFactor(f, f.Pow(a, |u|), Product(f, u));
  }

  /** finv: the power p - 2 is the multiplicative inverse. */
  lemma InvIsInverse(f: Fp, a: nat)
    requires Prime(f.p) && 0 < a < f.p
    ensures f.Mul(a, f.Inv(a)) == 1 && f.Inv(a) != 0
  {
    Fermat(f, a);
    assert f.Pow(a, f.p - 1) == f.Mul(a, f.Pow(a, f.p - 2));
    if f.Inv(a) == 0 {
      RSmall(f, 0);
    }
  }

  /** A nonzero square to the power (p-1)/2 is 1, and every nonzero element to
      that power is 1 or -1. */
  lemma HalfPower(f: Fp, a: nat)
    requires Prime(f.p) && 0 < a < f.p && f.p % 2 == 1
    ensures f.Pow(a, (f.p - 1) / 2) == 1 || f.Pow(a, (f.p - 1) / 2) == f.p - 1
    ensures f.Pow(f.Mul(a, a), (f.p - 1) / 2) == 1
  {
    var h := (f.p - 1) / 2;
    Fermat(f, a);
    assert f.p - 1 == h + h;
    PowAdd(f, a, h, h);
    PowBase(f, a, a, h);
    RootsOfOne(f, f.Pow(a, h));
  }
}
