/** Square roots modulo an odd prime: the browser verifier's fpow, load and
    fsqrt (Tonelli-Shanks), with Euler's criterion proved rather than assumed. */
module Sqrt {
  import opened Binary
  import opened Field
  import opened Wrappers

  function Half(f: Fp): nat {
    (f.p - 1) / 2
  }

  ghost predicate OddPrime(f: Fp) {
    Prime(f.p) && f.p % 2 == 1
  }

  // ---------------------------------------------------- square and multiply

  /** What is left to do: target = r * b^k. */
  ghost predicate PowRest(f: Fp, r: nat, b: nat, k: nat, target: nat) {
    r < f.p && b < f.p && f.Mul(r, f.Pow(b, k)) == target
  }

  method FPow(f: Fp, a: nat, e: nat) returns (r: nat)
    ensures r == f.Pow(a, e)
  {
    r := 1;
    var b, k := f.R(a), e;
    ghost var target := f.Pow(a, e);
    PowStart(f, a, e);
    while k > 0
      invariant PowRest(f, r, b, k, target)
    {
      PowStep(f, r, b, k, target);
      if k % 2 == 1 {
        r := f.Mul(r, b);
      }
      b := f.Mul(b, b);
      k := k / 2;
    }
    MulOne(f, r);
  }

  lemma PowStart(f: Fp, a: nat, e: nat)
    ensures PowRest(f, 1, f.R(a), e, f.Pow(a, e))
  {
    MulOne(f, f.Pow(a, e));
    PowReduced(f, a, e);
  }

  lemma PowHalve(f: Fp, b: nat, k: nat)
    requires b < f.p && k > 0
    ensures k % 2 == 0 ==> f.Pow(b, k) == f.Pow(f.Mul(b, b), k / 2)
    ensures k % 2 == 1 ==> f.Pow(b, k) == f.Mul(b, f.Pow(f.Mul(b, b), k / 2))
  {
    PowTwo(f, b);
    PowPow(f, b, 2, k / 2);
    assert k == 2 * (k / 2) || k == 1 + 2 * (k / 2);
  }

  lemma PowStep(f: Fp, r: nat, b: nat, k: nat, target: nat)
    requires k > 0 && PowRest(f, r, b, k, target)
    ensures PowRest(f, if k % 2 == 1 then f.Mul(r, b) else r, f.Mul(b, b), k / 2, target)
  {
    PowHalve(f, b, k);
    MulAssoc(f, r, b, f.Pow(f.Mul(b, b), k / 2));
  }

  /** finv throws on zero; otherwise it returns the multiplicative inverse. */
  method FInv(f: Fp, a: nat) returns (r: Option<nat>)
    requires Prime(f.p) && a < f.p
    ensures r.None? <==> a == 0
    ensures r.Some? ==> r.value == f.Inv(a) && f.Mul(a, r.value) == 1
  {
    if a == 0 {
      return None;
    }
    var i := FPow(f, a, f.p - 2);
    InvIsInverse(f, a);
    return Some(i);
  }

  // ------------------------------------------------------ iterated squaring

  /** x^(2^k): x squared k times. */
  function Tower(f: Fp, x: nat, k: nat): (r: nat)
    ensures r < f.p
  {
    f.Pow(x, Pow2(k))
  }

  lemma TowerZero(f: Fp, x: nat)
    requires x < f.p
    ensures Tower(f, x, 0) == x
  {
    assert f.Pow(x, 1) == f.Mul(x, f.Pow(x, 0));
    MulOne(f, x);
  }

  lemma TowerStep(f: Fp, x: nat, k: nat)
    ensures f.Mul(Tower(f, x, k), Tower(f, x, k)) == Tower(f, x, k + 1)
  {
    PowAdd(f, x, Pow2(k), Pow2(k));
  }

  lemma TowerTower(f: Fp, x: nat, j: nat, k: nat)
    ensures Tower(f, Tower(f, x, j), k) == Tower(f, x, j + k)
  {
    PowPow(f, x, Pow2(j), Pow2(k));
    Pow2Add(j, k);
  }

  lemma TowerMul(f: Fp, x: nat, y: nat, k: nat)
    ensures Tower(f, f.Mul(x, y), k) == f.Mul(Tower(f, x, k), Tower(f, y, k))
  {
    PowBase(f, x, y, Pow2(k));
  }

  // ------------------------------- a polynomial has no more roots than degree

  /** c[0] + c[1] x + ... modulo p. */
  function Eval(f: Fp, c: seq<nat>, x: nat): (r: nat)
    ensures r < f.p
  {
    if c == [] then 0 else f.R(c[0] + x * Eval(f, c[1..], x))
  }

  /** The quotient of c - c(a) by (x - a). */
  function Quotient(f: Fp, c: seq<nat>, a: nat): (q: seq<nat>)
    ensures |q| == if c == [] then 0 else |c| - 1
    ensures |c| > 1 ==> q[|q| - 1] == c[|c| - 1]
  {
    if |c| <= 1 then [] else
      var rest := c[1..];
      var q := Quotient(f, rest, a);
      seq(|rest|, i requires 0 <= i < |rest| => if i < |q| then rest[i] + a * q[i] else rest[i])
  }

  /** One step of evaluation. */
  function Horner(f: Fp, c0: nat, x: nat, e: nat): nat {
    f.R(c0 + x * e)
  }

  lemma {:induction false} EvalSum(f: Fp, s: seq<nat>, c: seq<nat>, q: seq<nat>, a: nat, x: nat)
    requires |q| <= |c| == |s|
    requires forall i :: 0 <= i < |c| ==> s[i] == if i < |q| then c[i] + a * q[i] else c[i]
    ensures Eval(f, s, x) == Horner(f, Eval(f, c, x), a, Eval(f, q, x))
    decreases |c|
  {
    hide Fp.R, Eval, Horner;
    EvalUnfolds(f, s, x);
    EvalUnfolds(f, c, x);
    EvalUnfolds(f, q, x);
    if c == [] {
      HornerZero(f, a);
    } else {
      EvalSum(f, s[1..], c[1..], Tail(q), a, x);
      FirstOfSum(s, c, q, a);
      EvalSumStep(f, c[0], Head(q), Eval(f, c[1..], x), Eval(f, Tail(q), x), a, x);
    }
  }

  lemma FirstOfSum(s: seq<nat>, c: seq<nat>, q: seq<nat>, a: nat)
    requires |q| <= |c| == |s| && c != []
    requires s[0] == if 0 < |q| then c[0] + a * q[0] else c[0]
    ensures s[0] == c[0] + a * Head(q)
  {
  }

  lemma HornerZero(f: Fp, a: nat)
    ensures Horner(f, 0, a, 0) == 0
  {
    assert a * 0 == 0;
    RSmall(f, 0);
  }

  function Head(q: seq<nat>): nat {
    if q == [] then 0 else q[0]
  }

  function Tail(q: seq<nat>): seq<nat> {
    if q == [] then [] else q[1..]
  }

  lemma EvalUnfolds(f: Fp, q: seq<nat>, x: nat)
    ensures Eval(f, q, x) == Horner(f, Head(q), x, Eval(f, Tail(q), x))
    ensures q == [] ==> Eval(f, q, x) == 0
  {
    hide Fp.R;
    if q == [] {
      HornerZero(f, x);
    }
  }

  lemma EvalSumStep(f: Fp, c0: nat, q0: nat, ec: nat, eq: nat, a: nat, x: nat)
    ensures Horner(f, c0 + a * q0, x, Horner(f, ec, a, eq)) == Horner(f, Horner(f, c0, x, ec), a, Horner(f, q0, x, eq))
  {
    hide Fp.R;
    RInner(f, c0 + a * q0, x, ec + a * eq);
    RInner(f, f.R(c0 + x * ec), a, q0 + x * eq);
    RAddLeft(f, c0 + x * ec, a * (q0 + x * eq));
    EvalSumPoly(c0, q0, ec, eq, a, x);
  }

  lemma EvalSumPoly(c0: int, q0: int, ec: int, eq: int, a: int, x: int)
    ensures c0 + a * q0 + x * (ec + a * eq) == c0 + x * ec + a * (q0 + x * eq)
  {
  }

  /** c(x) - c(a) = (x - a) * Quotient(c, a)(x). */
  lemma {:induction false} Synthetic(f: Fp, c: seq<nat>, a: nat, x: nat)
    ensures Divided(f, Eval(f, c, x), Eval(f, c, a), a, x, Eval(f, Quotient(f, c, a), x))
    decreases |c|
  {
    hide *;
    if |c| <= 1 {
      SyntheticBase(f, c, a, x);
    } else {
      var rest := c[1..];
      var q := Quotient(f, rest, a);
      Synthetic(f, rest, a, x);
      QuotientUnfolds(f, c, a);
      EvalCons(f, c, x);
      EvalCons(f, c, a);
      EvalSum(f, Quotient(f, c, a), rest, q, a, x);
      SyntheticStep(f, c[0], Eval(f, rest, x), Eval(f, rest, a), Eval(f, q, x), a, x);
    }
  }

  /** cx - ca is (x - a) times qx. */
  predicate Divided(f: Fp, cx: nat, ca: nat, a: nat, x: nat, qx: nat) {
    f.R(cx - ca) == f.R((x - a) * qx)
  }

  lemma EvalCons(f: Fp, c: seq<nat>, x: nat)
    requires c != []
    ensures Eval(f, c, x) == Horner(f, c[0], x, Eval(f, c[1..], x))
  {
    hide Fp.R;
  }

  lemma SyntheticBase(f: Fp, c: seq<nat>, a: nat, x: nat)
    requires |c| <= 1
    ensures Divided(f, Eval(f, c, x), Eval(f, c, a), a, x, Eval(f, Quotient(f, c, a), x))
  {
    hide Fp.R, Eval;
    EvalUnfolds(f, [], x);
    EvalUnfolds(f, [], a);
    EvalUnfolds(f, c, x);
    EvalUnfolds(f, c, a);
    assert Tail(c) == [];
    assert x * 0 == 0 && a * 0 == 0 && (x - a) * 0 == 0;
  }

  lemma QuotientUnfolds(f: Fp, c: seq<nat>, a: nat)
    requires |c| > 1
    ensures var q, s := Quotient(f, c[1..], a), Quotient(f, c, a);
      |q| <= |s| == |c[1..]|
      && forall i :: 0 <= i < |s| ==> s[i] == if i < |q| then c[1..][i] + a * q[i] else c[1..][i]
  {
  }

  lemma SyntheticStep(f: Fp, c0: nat, ex: nat, ea: nat, eq: nat, a: nat, x: nat)
    requires Divided(f, ex, ea, a, x, eq)
    ensures Divided(f, Horner(f, c0, x, ex), Horner(f, c0, a, ea), a, x, Horner(f, ex, a, eq))
  {
    hide Fp.R;
    SyntheticLeft(f, c0, ex, ea, a, x);
    SyntheticRight(f, ex, eq, a, x);
    CongMulAdd(f, ex - ea, (x - a) * eq, a, (x - a) * ex);
  }

  lemma SyntheticLeft(f: Fp, c0: nat, ex: nat, ea: nat, a: nat, x: nat)
    ensures f.R(f.R(c0 + x * ex) - f.R(c0 + a * ea)) == f.R((ex - ea) * a + (x - a) * ex)
  {
    hide Fp.R;
    RAdd(f, c0 + x * ex, c0 + a * ea);
    SyntheticPoly(c0, ex, ea, 0, a, x);
  }

  lemma SyntheticRight(f: Fp, ex: nat, eq: nat, a: nat, x: nat)
    ensures f.R((x - a) * f.R(ex + a * eq)) == f.R(((x - a) * eq) * a + (x - a) * ex)
  {
    hide Fp.R;
    RMul(f, x - a, ex + a * eq);
    SyntheticPoly(0, ex, 0, eq, a, x);
  }

  lemma CongMulAdd(f: Fp, u: int, v: int, a: int, c: int)
    requires f.R(u) == f.R(v)
    ensures f.R(u * a + c) == f.R(v * a + c)
  {
    hide Fp.R;
    RCong(f, u, v, a);
    RCong(f, u * a, v * a, c);
  }

  lemma SyntheticPoly(c0: int, ex: int, ea: int, eq: int, a: int, x: int)
    ensures (c0 + x * ex) - (c0 + a * ea) == (ex - ea) * a + (x - a) * ex
    ensures (x - a) * (ex + a * eq) == ((x - a) * eq) * a + (x - a) * ex
  {
  }

  /** A polynomial whose leading coefficient is a unit has at most as many
      roots as its degree. */
  lemma {:induction false} RootBound(f: Fp, c: seq<nat>, roots: set<nat>)
    requires Prime(f.p) && |c| >= 1 && 0 < c[|c| - 1] < f.p
    requires forall x :: x in roots ==> x < f.p && Eval(f, c, x) == 0
    ensures |roots| <= |c| - 1
    decreases |c|
  {
    if roots != {} {
      var a :| a in roots;
      if |c| == 1 {
        assert a * Eval(f, c[1..], a) == 0;
        RSmall(f, c[0]);
        assert false;
      } else {
        var q := Quotient(f, c, a);
        forall x | x in roots - {a} ensures Eval(f, q, x) == 0 {
          Synthetic(f, c, a, x);
          RootOfQuotient(f, x, a, Eval(f, q, x));
        }
        RootBound(f, q, roots - {a});
      }
    }
  }

  lemma RootOfQuotient(f: Fp, x: nat, a: nat, e: nat)
    requires Prime(f.p) && x < f.p && a < f.p && e < f.p && x != a
    requires f.R((x - a) * e) == f.R(0)
    ensures e == 0
  {
    RSmall(f, 0);
    RMul(f, x - a, e);
    NoZeroDivisors(f, f.R(x - a), e);
    RZero(f, x, a);
    RSmall(f, x);
    RSmall(f, a);
  }

  /** x^h - 1 as coefficients. */
  function PowerMinusOne(f: Fp, h: nat): (c: seq<nat>)
    requires h >= 1
    ensures |c| == h + 1 && c[h] == 1
  {
    [f.p - 1] + seq(h - 1, i => 0) + [1]
  }

  lemma {:induction false} EvalMonomial(f: Fp, k: nat, x: nat)
    ensures Eval(f, seq(k, i => 0) + [1], x) == f.Pow(x, k)
  {
    var c := seq(k, i => 0) + [1];
    if k == 0 {
      assert x * Eval(f, c[1..], x) == 0;
      RSmall(f, 1);
    } else {
      assert c[1..] == seq(k - 1, i => 0) + [1];
      EvalMonomial(f, k - 1, x);
    }
  }

  lemma EvalPowerMinusOne(f: Fp, h: nat, x: nat)
    requires h >= 1 && f.Pow(x, h) == 1
    ensures Eval(f, PowerMinusOne(f, h), x) == 0
  {
    var c := PowerMinusOne(f, h);
    assert c[1..] == seq(h - 1, i => 0) + [1];
    EvalMonomial(f, h - 1, x);
    RAdd(f, f.p - 1, x * f.Pow(x, h - 1));
    RUnique(f, f.p - 1 + 1, 1, 0);
  }

  /** load's search for z ends: some element to the power (p-1)/2 is not 1. */
  lemma NonresidueExists(f: Fp) returns (z: nat)
    requires OddPrime(f)
    ensures 2 <= z < f.p && f.Pow(z, Half(f)) != 1
  {
    var h := Half(f);
    var u := Units(f.p);
    assert h >= 1;
    if forall x :: x in u ==> f.Pow(x, h) == 1 {
      forall x | x in u ensures Eval(f, PowerMinusOne(f, h), x) == 0 {
        EvalPowerMinusOne(f, h, x);
      }
      RootBound(f, PowerMinusOne(f, h), u);
      assert false;
    }
    z :| z in u && f.Pow(z, h) != 1;
    PowOne(f, h);
  }

  // ------------------------------------------------------------- the tables

  /** What load leaves in SQRT: p - 1 = q * 2^s with q odd, and z of order
      exactly 2^s. */
  datatype Table = Table(q: nat, s: nat, z: nat)

  ghost predicate ValidTable(f: Fp, t: Table) {
    && t.q % 2 == 1 && t.s >= 1 && t.z < f.p
    && t.q * Pow2(t.s) == f.p - 1
    && Tower(f, t.z, t.s - 1) == f.p - 1
  }

  method Load(f: Fp) returns (t: Table)
    requires OddPrime(f)
    ensures ValidTable(f, t)
  {
    hide Fp.R, Fp.Pow, Prime, ValidTable, Pow2;
    StartHalving(f);
    var q: nat, s: nat := f.p - 1, 0;
    while q % 2 == 0
      invariant Halved(f.p - 1, q, s)
      decreases q
    {
      Halve(f.p - 1, q, s);
      q, s := q / 2, s + 1;
    }
    ghost var last := NonresidueExists(f);
    var z := 2;
    var e := FPow(f, z, (f.p - 1) / 2);
    while e == 1
      invariant 2 <= z <= last && e == f.Pow(z, Half(f))
      decreases last - z
    {
      z := z + 1;
      e := FPow(f, z, (f.p - 1) / 2);
    }
    var zq := FPow(f, z, q);
    TableOf(f, q, s, z);
    t := Table(q, s, zq);
  }

  /** n after s halvings is q. */
  ghost predicate Halved(n: nat, q: nat, s: nat) {
    q >= 1 && q * Pow2(s) == n && (s == 0 ==> q == n)
  }

  lemma StartHalving(f: Fp)
    requires OddPrime(f)
    ensures f.p > 1 && Halved(f.p - 1, f.p - 1, 0)
  {
  }

  lemma Halve(n: nat, q: nat, s: nat)
    requires q % 2 == 0 && Halved(n, q, s)
    ensures Halved(n, q / 2, s + 1)
  {
    HalveProduct(q / 2, Pow2(s));
  }

  lemma HalveProduct(h: nat, w: nat)
    ensures h * (2 * w) == (2 * h) * w
  {
  }

  lemma TableOf(f: Fp, q: nat, s: nat, z: nat)
    requires OddPrime(f) && Halved(f.p - 1, q, s) && q % 2 == 1 && 2 <= z < f.p && f.Pow(z, Half(f)) != 1
    ensures ValidTable(f, Table(q, s, f.Pow(z, q)))
  {
    hide Fp.R, Fp.Pow, Pow2;
    var t := Table(q, s, f.Pow(z, q));
    PowPow(f, z, q, Pow2(s - 1));
    HalfOfTable(f, t);
    HalfPower(f, z);
  }

  lemma HalfOfTable(f: Fp, t: Table)
    requires t.s >= 1 && t.q * Pow2(t.s) == f.p - 1
    ensures t.q * Pow2(t.s - 1) == Half(f)
  {
    assert t.q * Pow2(t.s) == 2 * (t.q * Pow2(t.s - 1));
  }

  // --------------------------------------------------------- Euler's criterion

  lemma MinusOneSquared(f: Fp)
    ensures f.Mul(f.p - 1, f.p - 1) == 1
  {
    assert (f.p - 1) * (f.p - 1) == (f.p - 2) * f.p + 1;
    RUnique(f, (f.p - 1) * (f.p - 1), f.p - 2, 1);
  }

  /** A nonzero square has half power 1. */
  lemma SquareHalfPower(f: Fp, n: nat)
    requires OddPrime(f) && 0 < n < f.p && f.IsSquare(n)
    ensures f.Pow(n, Half(f)) == 1
  {
    var r: nat :| f.IsRoot(r, n);
    if r == 0 {
      RSmall(f, 0);
    }
    HalfPower(f, r);
  }

  // ------------------------------------------------------------------ fsqrt

  /** The square-root loop's invariant: r^2 = n t, c has order 2^m and t has
      order dividing 2^(m-1). */
  ghost predicate Progress(f: Fp, n: nat, m: nat, c: nat, t: nat, r: nat) {
    && m >= 1 && c < f.p && t < f.p && r < f.p
    && f.Mul(r, r) == f.Mul(n, t)
    && Tower(f, c, m - 1) == f.p - 1
    && Tower(f, t, m - 1) == 1
  }

  method FSqrt(f: Fp, tab: Table, n: nat) returns (res: Option<nat>)
    requires OddPrime(f) && ValidTable(f, tab) && n < f.p
    ensures res.None? <==> !f.IsSquare(n)
    ensures res.Some? ==> f.IsRoot(res.value, n)
  {
    hide Fp.R;
    if n == 0 {
      RSmall(f, 0);
      assert f.IsRoot(0, 0);
      return Some(0);
    }
    var e := FPow(f, n, (f.p - 1) / 2);
    if e != 1 {
      if f.IsSquare(n) {
        SquareHalfPower(f, n);
      }
      return None;
    }
    var m, c := tab.s, tab.z;
    var t := FPow(f, n, tab.q);
    var r := FPow(f, n, (tab.q + 1) / 2);
    Start(f, tab, n);
    while t != 1
      invariant Progress(f, n, m, c, t, r)
      decreases m
    {
      var i, tt := 0, t;
      TowerZero(f, t);
      while tt != 1
        invariant 0 <= i < m && tt == Tower(f, t, i)
        invariant forall j :: 0 <= j < i ==> Tower(f, t, j) != 1
        decreases m - i
      {
        TowerStep(f, t, i);
        tt := f.Mul(tt, tt);
        i := i + 1;
      }
      assert i >= 1 && Tower(f, t, i - 1) != 1;
      var b, k := c, 0;
      TowerZero(f, c);
      while k < m - i - 1
        invariant 0 <= k <= m - i - 1 && b == Tower(f, c, k)
      {
        TowerStep(f, c, k);
        b := f.Mul(b, b);
        k := k + 1;
      }
      Advance(f, n, m, c, t, r, i, b);
      m := i;
      c := f.Mul(b, b);
      t := f.Mul(t, c);
      r := f.Mul(r, b);
    }
    MulOne(f, n);
    assert f.IsRoot(r, n);
    return Some(r);
  }

  lemma Start(f: Fp, tab: Table, n: nat)
    requires OddPrime(f) && ValidTable(f, tab) && 0 < n < f.p
    requires f.Pow(n, Half(f)) == 1
    ensures Progress(f, n, tab.s, tab.z, f.Pow(n, tab.q), f.Pow(n, (tab.q + 1) / 2))
  {
    var k := (tab.q + 1) / 2;
    PowAdd(f, n, k, k);
    assert k + k == 1 + tab.q;
    PowPow(f, n, tab.q, Pow2(tab.s - 1));
    HalfOfTable(f, tab);
  }

  /** One round: with i the least exponent at which t's chain reaches 1 and
      b = c^(2^(m-i-1)), the invariant holds again with m replaced by i < m. */
  lemma Advance(f: Fp, n: nat, m: nat, c: nat, t: nat, r: nat, i: nat, b: nat)
    requires OddPrime(f) && Progress(f, n, m, c, t, r)
    requires 1 <= i < m && Tower(f, t, i) == 1 && Tower(f, t, i - 1) != 1
    requires b == Tower(f, c, m - i - 1)
    ensures Progress(f, n, i, f.Mul(b, b), f.Mul(t, f.Mul(b, b)), f.Mul(r, b))
  {
    hide Fp.R;
    var c' := f.Mul(b, b);
    TowerStep(f, c, m - i - 1);
    TowerTower(f, c, m - i, i - 1);
    assert Tower(f, c', i - 1) == f.p - 1;
    TowerStep(f, t, i - 1);
    RootsOfOne(f, Tower(f, t, i - 1));
    TowerMul(f, t, c', i - 1);
    MinusOneSquared(f);
    MulShuffle(f, r, b, r, b);
    MulAssoc(f, n, t, c');
  }

  /** Euler's criterion: a nonzero n is a square exactly when n^((p-1)/2) = 1. */
  lemma EulerCriterion(f: Fp, n: nat)
    requires OddPrime(f) && 0 < n < f.p
    ensures f.IsSquare(n) <==> f.Pow(n, Half(f)) == 1
  {
    if f.IsSquare(n) {
      SquareHalfPower(f, n);
    }
    if f.Pow(n, Half(f)) == 1 {
      var tab := SomeTable(f);
      Start(f, tab, n);
      RootByDescent(f, n, tab.s, tab.z, f.Pow(n, tab.q), f.Pow(n, (tab.q + 1) / 2));
    }
  }

  lemma {:induction false} OddPart(n: nat) returns (q: nat, s: nat)
    requires n >= 1
    ensures q % 2 == 1 && q * Pow2(s) == n
  {
    if n % 2 == 1 {
      q, s := n, 0;
    } else {
      q, s := OddPart(n / 2);
      assert q * (2 * Pow2(s)) == 2 * (q * Pow2(s));
      s := s + 1;
    }
  }

  lemma SomeTable(f: Fp) returns (t: Table)
    requires OddPrime(f)
    ensures ValidTable(f, t)
  {
    hide Fp.R;
    var q, s := OddPart(f.p - 1);
    var z := NonresidueExists(f);
    t := Table(q, s, f.Pow(z, q));
    assert s >= 1 by {
      assert s == 0 ==> q * Pow2(s) == q;
    }
    PowPow(f, z, q, Pow2(s - 1));
    HalfOfTable(f, t);
    HalfPower(f, z);
  }

  /** The same descent as fsqrt, halving the order of t one bit at a time. */
  lemma {:induction false} RootByDescent(f: Fp, n: nat, m: nat, c: nat, t: nat, r: nat)
    requires OddPrime(f) && n < f.p && Progress(f, n, m, c, t, r)
    ensures f.IsSquare(n)
    decreases m
  {
    if t == 1 {
      MulOne(f, n);
      assert f.IsRoot(r, n);
    } else {
      var i := FirstOne(f, t, m - 1);
      var b := Tower(f, c, m - i - 1);
      Advance(f, n, m, c, t, r, i, b);
      RootByDescent(f, n, i, f.Mul(b, b), f.Mul(t, f.Mul(b, b)), f.Mul(r, b));
    }
  }

  lemma {:induction false} FirstOne(f: Fp, t: nat, k: nat) returns (i: nat)
    requires t < f.p && t != 1 && Tower(f, t, k) == 1
    ensures 1 <= i <= k && Tower(f, t, i) == 1 && Tower(f, t, i - 1) != 1
  {
    TowerZero(f, t);
    if k > 0 && Tower(f, t, k - 1) != 1 {
      i := k;
    } else {
      i := FirstOne(f, t, k - 1);
    }
  }

  /** The product of two nonsquares is a square; a nonsquare times a nonzero
      square is a nonsquare. */
  lemma SquareClass(f: Fp, a: nat, b: nat)
    requires OddPrime(f) && 0 < a < f.p && 0 < b < f.p && !f.IsSquare(a)
    ensures f.IsSquare(f.Mul(a, b)) <==> !f.IsSquare(b)
    ensures f.Mul(a, b) != 0
  {
    if f.Mul(a, b) == 0 {
      NoZeroDivisors(f, a, b);
    }
    EulerCriterion(f, a);
    EulerCriterion(f, b);
    EulerCriterion(f, f.Mul(a, b));
    PowBase(f, a, b, Half(f));
    HalfPower(f, a);
    HalfPower(f, b);
    MinusOneSquared(f);
    MulOne(f, f.p - 1);
  }
}
