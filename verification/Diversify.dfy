/** DiversifyHash: the native search of the crate, the browser's copy of it,
    and the in-circuit gadget that checks it, proved to compute one function. */
module Diversify {
  import opened Field
  import opened Sqrt
  import opened Wrappers
  import opened Edwards
  import opened Group
  import opened Extended
  import opened PointCodec

  const TRIES: nat := 32
  const NONRESIDUE: nat := 7

  /** What the search needs of its curve: a = -1, 7 a nonresidue, and a modulus
      larger than every small constant involved. */
  ghost predicate ValidBase(c: Curve) {
    && CurveGroup(c) && c.a == c.f.p - 1 && c.f.p > TRIES
    && !c.f.IsSquare(NONRESIDUE)
  }

  // ------------------------------------------------------------ specification

  function YAt(c: Curve, h: nat, k: nat): nat {
    c.f.Add(h, k)
  }

  function NumAt(c: Curve, h: nat, k: nat): nat {
    c.f.Sub(c.f.Mul(YAt(c, h, k), YAt(c, h, k)), 1)
  }

  function DenAt(c: Curve, h: nat, k: nat): nat {
    c.f.Add(c.f.Mul(c.d, c.f.Mul(YAt(c, h, k), YAt(c, h, k))), 1)
  }

  function ProdAt(c: Curve, h: nat, k: nat): nat {
    c.f.Mul(NumAt(c, h, k), DenAt(c, h, k))
  }

  /** The least candidate from k on that lies on the curve. */
  ghost function SearchFrom(c: Curve, h: nat, k: nat): (r: Option<nat>)
    decreases TRIES - k
  {
    if k >= TRIES then None
    else if c.f.IsSquare(ProdAt(c, h, k)) then Some(k)
    else SearchFrom(c, h, k + 1)
  }

  ghost predicate FirstHit(c: Curve, h: nat, k: nat) {
    && k < TRIES && c.f.IsSquare(ProdAt(c, h, k))
    && forall t :: 0 <= t < k ==> !c.f.IsSquare(ProdAt(c, h, t))
  }

  lemma {:induction false} SearchIs(c: Curve, h: nat, from: nat, k: nat)
    requires from <= k && k < TRIES && c.f.IsSquare(ProdAt(c, h, k))
    requires forall t :: from <= t < k ==> !c.f.IsSquare(ProdAt(c, h, t))
    ensures SearchFrom(c, h, from) == Some(k)
    decreases k - from
  {
    if from < k {
      SearchIs(c, h, from + 1, k);
    }
  }

  lemma {:induction false} SearchFails(c: Curve, h: nat, from: nat)
    requires forall t :: from <= t < TRIES ==> !c.f.IsSquare(ProdAt(c, h, t))
    ensures SearchFrom(c, h, from) == None
    decreases TRIES - from
  {
    if from < TRIES {
      SearchFails(c, h, from + 1);
    }
  }

  lemma {:induction false} SearchFound(c: Curve, h: nat, from: nat)
    requires SearchFrom(c, h, from).Some?
    ensures var k := SearchFrom(c, h, from).value;
      && from <= k && k < TRIES && c.f.IsSquare(ProdAt(c, h, k))
      && forall t :: from <= t < k ==> !c.f.IsSquare(ProdAt(c, h, t))
    decreases TRIES - from
  {
    if !c.f.IsSquare(ProdAt(c, h, from)) {
      SearchFound(c, h, from + 1);
    }
  }

  /** (x, y) is the curve point with even x at candidate k. */
  predicate RawAt(c: Curve, h: nat, k: nat, x: nat, y: nat) {
    && y == YAt(c, h, k) && x < c.f.p && x % 2 == 0
    && c.f.Mul(c.f.Mul(x, x), DenAt(c, h, k)) == NumAt(c, h, k)
  }

  /** The diversified base for hash output h: the first candidate's even point
      times the cofactor. None when no candidate lands on the curve. */
  ghost function Base(c: Curve, h: nat): (r: Option<Point>)
    requires ValidBase(c)
  {
    match SearchFrom(c, h, 0)
    case None => None
    case Some(k) =>
      SearchFound(c, h, 0);
      RawExists(c, h, k);
      var x :| RawAt(c, h, k, x, YAt(c, h, k));
      Some(Fold(c, 8, Point(x, YAt(c, h, k))))
  }

  // ---------------------------------------------------- number theory behind

  /** The denominator d y^2 + 1 never vanishes. */
  lemma DenNonzero(c: Curve, h: nat, k: nat)
    requires ValidBase(c)
    ensures DenAt(c, h, k) != 0
  {
    var f, y := c.f, YAt(c, h, k);
    var y2 := f.Mul(y, y);
    if DenAt(c, h, k) == 0 {
      PlusOneZero(f, f.Mul(c.d, y2));
      if y == 0 {
        assert c.d * 0 == 0;
        RSmall(f, 0);
      } else {
        if y2 == 0 {
          NoZeroDivisors(f, y, y);
        }
        assert f.IsRoot(y, y2);
        SquareClass(f, c.d, y2);
      }
    }
  }

  lemma PlusOneZero(f: Fp, u: nat)
    requires u < f.p && f.Add(u, 1) == 0
    ensures u == f.p - 1
  {
    if u + 1 < f.p {
      RSmall(f, u + 1);
    }
  }

  /** Exactly one of the two roots of a square is even. */
  lemma EvenRoot(f: Fp, r: nat)
    requires f.p % 2 == 1 && r < f.p
    ensures f.Neg(r) < f.p && f.Mul(f.Neg(r), f.Neg(r)) == f.Mul(r, r)
    ensures r == 0 ==> f.Neg(r) == 0
    ensures r != 0 ==> (r % 2 == 0 <==> f.Neg(r) % 2 == 1)
  {
    hide Fp.R, Fp.Mul, Fp.Neg;
    NegValue(f, r);
    NegNeg(f, r);
  }

  /** With s^2 = num * den, s / den squares to num / den. */
  lemma RootOverDen(f: Fp, num: nat, den: nat, s: nat)
    requires Prime(f.p) && num < f.p && 0 < den < f.p && s < f.p
    requires f.Mul(s, s) == f.Mul(num, den)
    ensures var x := f.Mul(s, f.Inv(den)); f.Mul(f.Mul(x, x), den) == num
  {
    hide Fp.R;
    var i := f.Inv(den);
    InvIsInverse(f, den);
    MulShuffle(f, s, i, s, i);
    var ii := f.Mul(i, i);
    // (s s)(i i) den = (num den)(i i) den
    MulAssoc(f, f.Mul(num, den), ii, den);
    MulAssoc(f, i, i, den);
    MulComm(f, i, den);
    MulOne(f, i);
    MulAssoc(f, num, den, i);
    MulOne(f, num);
  }

  lemma RawExists(c: Curve, h: nat, k: nat)
    requires ValidBase(c) && c.f.IsSquare(ProdAt(c, h, k))
    ensures exists x :: RawAt(c, h, k, x, YAt(c, h, k))
  {
    var f := c.f;
    var s: nat :| f.IsRoot(s, ProdAt(c, h, k));
    DenNonzero(c, h, k);
    RootOverDen(f, NumAt(c, h, k), DenAt(c, h, k), s);
    var x := f.Mul(s, f.Inv(DenAt(c, h, k)));
    EvenRoot(f, x);
    assert RawAt(c, h, k, if x % 2 == 0 then x else f.Neg(x), YAt(c, h, k));
  }

  /** The even point at a candidate is unique. */
  lemma RawUnique(c: Curve, h: nat, k: nat, x: nat, x': nat, y: nat)
    requires ValidBase(c) && RawAt(c, h, k, x, y) && RawAt(c, h, k, x', y)
    ensures x == x'
  {
    var f := c.f;
    DenNonzero(c, h, k);
    MulComm(f, f.Mul(x, x), DenAt(c, h, k));
    MulComm(f, f.Mul(x', x'), DenAt(c, h, k));
    Cancel(f, DenAt(c, h, k), f.Mul(x, x), f.Mul(x', x'));
    RootsDiffer(f, x, x');
    EvenRoot(f, x');
  }

  lemma BaseIs(c: Curve, h: nat, k: nat, x: nat)
    requires ValidBase(c) && FirstHit(c, h, k) && RawAt(c, h, k, x, YAt(c, h, k))
    ensures Base(c, h) == Some(Fold(c, 8, Point(x, YAt(c, h, k))))
  {
    hide Fold, Sum;
    SearchIs(c, h, 0, k);
    var x' :| RawAt(c, h, k, x', YAt(c, h, k)) && Base(c, h) == Some(Fold(c, 8, Point(x', YAt(c, h, k))));
    RawUnique(c, h, k, x, x', YAt(c, h, k));
  }

  lemma RawSquare(c: Curve, h: nat, k: nat, w: nat)
    requires ValidBase(c) && c.f.Mul(c.f.Mul(w, w), DenAt(c, h, k)) == NumAt(c, h, k)
    ensures c.f.IsSquare(ProdAt(c, h, k))
  {
    var f, den := c.f, DenAt(c, h, k);
    MulShuffle(f, w, den, w, den);
    MulAssoc(f, f.Mul(w, w), den, den);
    assert f.IsRoot(f.Mul(w, den), ProdAt(c, h, k));
  }

  lemma RawOnCurve(c: Curve, h: nat, k: nat, x: nat, y: nat)
    requires ValidBase(c) && RawAt(c, h, k, x, y)
    ensures OnCurve(c, Point(x, y))
  {
    var f, d := c.f, c.d;
    CurveLinear(f, c.a, d, x, y);
    OppositeForm(f, c.a, d, x, y);
    RMul(f, d, y * y);
    RAdd(f, d * f.Mul(y, y), 1);
    RAdd(f, d * (y * y), 1);
    RMul(f, x * x, d * (y * y) + 1);
    RAdd(f, y * y, 1);
  }

  lemma OppositeForm(f: Fp, a: int, d: int, x: int, y: int)
    requires a == f.p - 1
    ensures f.R((x * x) * (a - (y * y) * d)) == f.R(1 - y * y)
       <==> f.R((x * x) * (d * (y * y) + 1)) == f.R(y * y - 1)
  {
    var u, v := (x * x) * (d * (y * y) + 1), y * y - 1;
    OppositePoly(f.p, a, d, x * x, y * y);
    RShift(f, 0 - u, x * x);
    RZero(f, 0 - u, 0 - v);
    RZero(f, v, u);
  }

  lemma OppositePoly(p: int, a: int, d: int, xx: int, yy: int)
    requires a == p - 1
    ensures xx * (a - yy * d) == (0 - xx * (d * yy + 1)) + xx * p
  {
    assert xx * (p - 1 - yy * d) == xx * p - xx * 1 - xx * (yy * d);
  }

  // ------------------------------------------------------- the native search

  /** diversify_hash: the base, the index of the candidate that hit and one
      witnessed root per candidate. Whichever root the square-root routine
      returns, the result is the specified one. */
  datatype DiversifyResult = DiversifyResult(base: Point, k: nat, roots: seq<nat>)

  ghost predicate RootsWitness(c: Curve, h: nat, k: nat, roots: seq<nat>) {
    && |roots| == k + 1
    && (forall t :: 0 <= t < k ==> MissRoot(c, h, t, roots[t]))
    && RawAt(c, h, k, roots[k], YAt(c, h, k))
  }

  predicate MissRoot(c: Curve, h: nat, t: nat, w: nat) {
    0 < w < c.f.p && c.f.Mul(w, w) == c.f.Mul(NONRESIDUE, ProdAt(c, h, t))
  }

  lemma MissHasRoot(c: Curve, h: nat, t: nat)
    requires ValidBase(c) && !c.f.IsSquare(ProdAt(c, h, t))
    ensures c.f.IsSquare(c.f.Mul(NONRESIDUE, ProdAt(c, h, t))) && c.f.Mul(NONRESIDUE, ProdAt(c, h, t)) != 0
  {
    var f := c.f;
    assert f.IsRoot(0, 0) by {
      RSmall(f, 0);
    }
    SquareClass(f, NONRESIDUE, ProdAt(c, h, t));
  }

  method DiversifyHash(c: Curve, tab: Table, h: nat) returns (r: Option<DiversifyResult>)
    requires ValidBase(c) && ValidTable(c.f, tab)
    ensures r.None? <==> Base(c, h).None?
    ensures r.Some? ==> Base(c, h) == Some(r.value.base)
    ensures r.Some? ==> FirstHit(c, h, r.value.k) && RootsWitness(c, h, r.value.k, r.value.roots)
  {
    hide Fold, Sum, OnCurve;
    var f := c.f;
    var roots: seq<nat> := [];
    for k := 0 to TRIES
      invariant |roots| == k
      invariant forall t :: 0 <= t < k ==> !f.IsSquare(ProdAt(c, h, t)) && MissRoot(c, h, t, roots[t])
    {
      var y := f.Add(h, k);
      var y2 := f.Mul(y, y);
      var num := f.Sub(y2, 1);
      var den := f.Add(f.Mul(c.d, y2), 1);
      var prod := f.Mul(num, den);
      var root := FSqrt(f, tab, prod);
      if root.Some? {
        DenNonzero(c, h, k);
        var inv := FInv(f, den);
        var x := f.Mul(root.value, inv.value);
        RootOverDen(f, num, den, root.value);
        EvenRoot(f, x);
        if x % 2 != 0 {
          x := f.Neg(x);
        }
        roots := roots + [x];
        RawOnCurve(c, h, k, x, y);
        var cleared := MulAffine(c, Point(x, y), 8);
        BaseIs(c, h, k, x);
        return Some(DiversifyResult(cleared, k, roots));
      }
      MissHasRoot(c, h, k);
      var w := FSqrt(f, tab, f.Mul(NONRESIDUE, prod));
      RootNonzero(f, w.value, f.Mul(NONRESIDUE, prod));
      roots := roots + [w.value];
    }
    SearchFails(c, h, 0);
    return None;
  }

  /** The browser's diversifyHash clears the cofactor by three doublings in
      extended coordinates. */
  method BrowserDiversifyHash(c: Curve, tab: Table, h: nat) returns (r: Option<Point>)
    requires ValidBase(c) && ValidTable(c.f, tab)
    ensures r == Base(c, h)
  {
    hide Fold, Sum, OnCurve, Represents;
    var f := c.f;
    var k := 0;
    while k < TRIES
      invariant k <= TRIES
      invariant forall t :: 0 <= t < k ==> !f.IsSquare(ProdAt(c, h, t))
    {
      var y := f.Add(h, k);
      var y2 := f.Mul(y, y);
      var den := f.Add(f.Mul(c.d, y2), 1);
      var root := FSqrt(f, tab, f.Mul(f.Sub(y2, 1), den));
      if root.Some? {
        DenNonzero(c, h, k);
        var inv := FInv(f, den);
        var x := f.Mul(root.value, inv.value);
        RootOverDen(f, NumAt(c, h, k), den, root.value);
        EvenRoot(f, x);
        if x % 2 == 1 {
          x := f.Neg(x);
        }
        var q := Point(x, y);
        RawOnCurve(c, h, k, x, y);
        BaseIs(c, h, k, x);
        FromAffineRepresents(c, q);
        ThreeDoublings(c, FromAffine(c, q), q);
        return Some(ToAffine(c, PtDouble(c, PtDouble(c, PtDouble(c, FromAffine(c, q))))));
      }
      k := k + 1;
    }
    SearchFails(c, h, 0);
    return None;
  }

  lemma ThreeDoublings(c: Curve, e: Ext, q: Point)
    requires CurveGroup(c) && OnCurve(c, q) && Represents(c, e, q)
    ensures ToAffine(c, PtDouble(c, PtDouble(c, PtDouble(c, e)))) == Fold(c, 8, q)
  {
    hide Sum, Represents, OnCurve;
    assert Fold(c, 1, q) == Sum(c, Fold(c, 0, q), q);
    SumIdentity(c, q);
    DoubledFold(c, e, 1, q);
    DoubledFold(c, PtDouble(c, e), 2, q);
    DoubledFold(c, PtDouble(c, PtDouble(c, e)), 4, q);
    FoldOnCurve(c, 8, q);
    InRange(c, Fold(c, 8, q));
    ToAffineIs(c, PtDouble(c, PtDouble(c, PtDouble(c, e))), Fold(c, 8, q));
  }

  lemma InRange(c: Curve, q: Point)
    requires OnCurve(c, q)
    ensures q.x < c.f.p && q.y < c.f.p
  {
  }

  lemma DoubledFold(c: Curve, e: Ext, n: nat, q: Point)
    requires CurveGroup(c) && OnCurve(c, q) && Represents(c, e, Fold(c, n, q))
    ensures Represents(c, PtDouble(c, e), Fold(c, 2 * n, q))
  {
    hide Sum, Represents, OnCurve, PtDouble, Fold;
    FoldOnCurve(c, n, q);
    DoubleRepresents(c, e, Fold(c, n, q));
    FoldAdd(c, n, n, q);
  }

  // -------------------------------------------------------------- the gadget

  /** The witness variables of one candidate. */
  datatype Cell = Cell(isK: bool, w: nat, inv: nat)

  function Bit(b: bool): nat {
    if b then 1 else 0
  }

  predicate ValidCells(c: Curve, cells: seq<Cell>) {
    |cells| == TRIES && forall t :: 0 <= t < |cells| ==> cells[t].w < c.f.p && cells[t].inv < c.f.p
  }

  predicate MissOk(c: Curve, h: nat, t: nat, cell: Cell) {
    && c.f.Mul(cell.w, cell.w) == c.f.Mul(NONRESIDUE, ProdAt(c, h, t))
    && c.f.Mul(cell.w, cell.inv) == 1
  }

  predicate HitOk(c: Curve, h: nat, k: nat, cell: Cell) {
    c.f.Mul(c.f.Mul(cell.w, cell.w), DenAt(c, h, k)) == NumAt(c, h, k)
  }

  /** The gadget's constraints read as a statement: the selector is set at
      exactly one k, every earlier candidate is witnessed off the curve, and
      (x, y) is the even point at k. */
  predicate Selects(c: Curve, h: nat, cells: seq<Cell>, k: nat)
    requires ValidCells(c, cells)
  {
    && k < TRIES
    && (forall t :: 0 <= t < TRIES ==> (cells[t].isK <==> t == k))
    && (forall t :: 0 <= t < k ==> MissOk(c, h, t, cells[t]))
    && HitOk(c, h, k, cells[k])
    && cells[k].w % 2 == 0
  }

  ghost predicate Satisfiable(c: Curve, h: nat, cells: seq<Cell>) {
    ValidCells(c, cells) && exists k :: Selects(c, h, cells, k)
  }

  /** The first constraint of a candidate: notYet * branch = 0. */
  function Branch(c: Curve, h: nat, t: nat, cell: Cell): nat {
    var f := c.f;
    var w2 := f.Mul(cell.w, cell.w);
    var miss := f.Sub(w2, f.Mul(NONRESIDUE, ProdAt(c, h, t)));
    var hit := f.Sub(f.Mul(w2, DenAt(c, h, t)), NumAt(c, h, t));
    f.Add(f.Mul(f.Sub(1, Bit(cell.isK)), miss), f.Mul(Bit(cell.isK), hit))
  }

  /** Where diversify_hash_var's accumulators stand after t candidates, of
      which count were selected, the first of them at index at. */
  ghost predicate Accumulated(c: Curve, h: nat, cells: seq<Cell>, t: nat, count: nat, at: nat,
                              sat: bool, x: nat, y: nat, oneHot: nat, notYet: nat)
    requires ValidCells(c, cells) && t <= TRIES
  {
    && count <= t && oneHot == count && notYet == c.f.R(1 - count) && x < c.f.p && y < c.f.p
    && (count == 0 ==>
          && x == 0 && y == 0
          && (forall j :: 0 <= j < t ==> !cells[j].isK)
          && (sat <==> forall j :: 0 <= j < t ==> MissOk(c, h, j, cells[j])))
    && (count == 1 ==>
          && at < t && (forall j :: 0 <= j < t ==> (cells[j].isK <==> j == at))
          && x == cells[at].w && y == YAt(c, h, at)
          && (sat <==> (forall j :: 0 <= j < at ==> MissOk(c, h, j, cells[j])) && HitOk(c, h, at, cells[at])))
    && (count >= 2 ==> exists i, j :: 0 <= i < j < t && cells[i].isK && cells[j].isK)
  }

  /** Evaluates diversify_hash_var's constraints on an assignment, accumulator
      by accumulator, and returns the selected coordinates. */
  method CheckGadget(c: Curve, h: nat, cells: seq<Cell>) returns (sat: bool, x: nat, y: nat)
    requires ValidBase(c) && ValidCells(c, cells)
    ensures sat <==> Satisfiable(c, h, cells)
    ensures forall k: nat :: Selects(c, h, cells, k) ==> x == cells[k].w && y == YAt(c, h, k)
  {
    hide Branch, MissOk, HitOk, Fp.R, ValidBase;
    var f := c.f;
    var oneHot, notYet := 0, 1;
    x, y, sat := 0, 0, true;
    ghost var count, at := 0, 0;
    StartAccumulated(c, h, cells);
    for t := 0 to TRIES
      invariant Accumulated(c, h, cells, t, count, at, sat, x, y, oneHot, notYet)
    {
      var cell := cells[t];
      var isK := Bit(cell.isK);
      var first := f.Mul(notYet, Branch(c, h, t, cell));
      var second := f.Mul(f.Mul(notYet, f.Sub(1, isK)), f.Sub(f.Mul(cell.w, cell.inv), 1));
      StepAccumulated(c, h, cells, t, count, at, sat, x, y, oneHot, notYet);
      sat := sat && first == 0 && second == 0;
      x := f.Add(x, f.Mul(isK, cell.w));
      y := f.Add(y, f.Mul(isK, f.Add(h, t)));
      oneHot := f.Add(oneHot, isK);
      notYet := f.Sub(notYet, isK);
      at := if cell.isK && count == 0 then t else at;
      count := count + isK;
    }
    sat := sat && oneHot == 1 && x % 2 == 0;
    if count == 1 && sat {
      assert Selects(c, h, cells, at);
    }
  }

  lemma CountStep(f: Fp, count: nat, isK: nat)
    requires count + isK < f.p
    ensures f.Add(count, isK) == count + isK
    ensures f.Sub(f.R(1 - count), isK) == f.R(1 - (count + isK))
  {
    RSmall(f, count + isK);
    RAddLeft(f, 1 - count, 0 - isK);
  }

  lemma StartAccumulated(c: Curve, h: nat, cells: seq<Cell>)
    requires ValidBase(c) && ValidCells(c, cells)
    ensures Accumulated(c, h, cells, 0, 0, 0, true, 0, 0, 0, 1)
  {
    RSmall(c.f, 1);
  }

  lemma StepAccumulated(c: Curve, h: nat, cells: seq<Cell>, t: nat, count: nat, at: nat,
                        sat: bool, x: nat, y: nat, oneHot: nat, notYet: nat)
    requires ValidBase(c) && ValidCells(c, cells) && t < TRIES
    requires Accumulated(c, h, cells, t, count, at, sat, x, y, oneHot, notYet)
    ensures
      var f, cell, isK := c.f, cells[t], Bit(cells[t].isK);
      var first := f.Mul(notYet, Branch(c, h, t, cell));
      var second := f.Mul(f.Mul(notYet, f.Sub(1, isK)), f.Sub(f.Mul(cell.w, cell.inv), 1));
      Accumulated(c, h, cells, t + 1, count + isK, if cell.isK && count == 0 then t else at,
                  sat && first == 0 && second == 0, f.Add(x, f.Mul(isK, cell.w)), f.Add(y, f.Mul(isK, f.Add(h, t))),
                  f.Add(oneHot, isK), f.Sub(notYet, isK))
  {
    hide Branch, MissOk, HitOk, Fp.R, Fp.Mul, Fp.Add, Fp.Sub;
    var f, cell, isK := c.f, cells[t], Bit(cells[t].isK);
    CellMeaning(c, h, t, cell, notYet, count);
    Accumulate(f, x, isK, cell.w);
    Accumulate(f, y, isK, YAt(c, h, t));
    CountStep(f, count, isK);
    if count + isK >= 2 {
      if count == 1 {
        assert cells[at].isK && cells[t].isK;
      }
    }
  }

  /** Adding isK * v selects v or leaves the accumulator alone. */
  lemma Accumulate(f: Fp, acc: nat, isK: nat, v: nat)
    requires acc < f.p && v < f.p && isK <= 1
    ensures isK == 0 ==> f.Add(acc, f.Mul(isK, v)) == acc
    ensures isK == 1 && acc == 0 ==> f.Add(acc, f.Mul(isK, v)) == v
  {
    if isK == 0 {
      assert 0 * v == 0;
      RSmall(f, 0);
      RSmall(f, acc);
    } else {
      MulOne(f, v);
      RSmall(f, v);
    }
  }

  /** While the selector has not fired, a candidate's two constraints say miss
      or hit; once it has fired exactly once they say nothing. */
  lemma CellMeaning(c: Curve, h: nat, t: nat, cell: Cell, notYet: nat, count: nat)
    requires ValidBase(c) && cell.w < c.f.p && cell.inv < c.f.p && notYet == c.f.R(1 - count)
    ensures var f, isK := c.f, Bit(cell.isK);
      var first := f.Mul(notYet, Branch(c, h, t, cell));
      var second := f.Mul(f.Mul(notYet, f.Sub(1, isK)), f.Sub(f.Mul(cell.w, cell.inv), 1));
      && (count == 0 && !cell.isK ==> ((first == 0 && second == 0) <==> MissOk(c, h, t, cell)))
      && (count == 0 && cell.isK ==> ((first == 0 && second == 0) <==> HitOk(c, h, t, cell)))
      && (count == 1 ==> first == 0 && second == 0)
  {
    var f := c.f;
    hide Branch, Fp.R;
    RSmall(f, 0);
    RSmall(f, 1);
    if count == 0 {
      var w2 := f.Mul(cell.w, cell.w);
      BranchValue(c, h, t, cell);
      MulOne(f, Branch(c, h, t, cell));
      SubZero(f, w2, f.Mul(NONRESIDUE, ProdAt(c, h, t)));
      SubZero(f, f.Mul(w2, DenAt(c, h, t)), NumAt(c, h, t));
      SubZero(f, f.Mul(cell.w, cell.inv), 1);
      MulOne(f, f.Sub(1, Bit(cell.isK)));
      MulOne(f, f.Sub(f.Mul(cell.w, cell.inv), 1));
      MulZero(f, f.Sub(f.Mul(cell.w, cell.inv), 1));
    } else if count == 1 {
      MulZero(f, Branch(c, h, t, cell));
      MulZero(f, f.Sub(1, Bit(cell.isK)));
      MulZero(f, f.Sub(f.Mul(cell.w, cell.inv), 1));
    }
  }

  lemma BranchValue(c: Curve, h: nat, t: nat, cell: Cell)
    requires c.f.p > 1
    ensures var f := c.f;
      var w2 := f.Mul(cell.w, cell.w);
      Branch(c, h, t, cell) == if cell.isK then f.Sub(f.Mul(w2, DenAt(c, h, t)), NumAt(c, h, t))
                               else f.Sub(w2, f.Mul(NONRESIDUE, ProdAt(c, h, t)))
  {
    var f := c.f;
    var w2 := f.Mul(cell.w, cell.w);
    var miss := f.Sub(w2, f.Mul(NONRESIDUE, ProdAt(c, h, t)));
    var hit := f.Sub(f.Mul(w2, DenAt(c, h, t)), NumAt(c, h, t));
    RSmall(f, 0);
    RSmall(f, 1);
    MulOne(f, miss);
    MulOne(f, hit);
    RSmall(f, miss);
    RSmall(f, hit);
    assert 0 * miss == 0 && 0 * hit == 0;
  }

  lemma SubZero(f: Fp, u: nat, v: nat)
    requires u < f.p && v < f.p
    ensures f.Sub(u, v) == 0 <==> u == v
  {
    RZero(f, u, v);
    RSmall(f, u);
    RSmall(f, v);
  }

  /** Soundness: every satisfying assignment selects the candidate the native
      search finds and the same even point, so the same base. */
  lemma GadgetSound(c: Curve, h: nat, cells: seq<Cell>, k: nat)
    requires ValidBase(c) && ValidCells(c, cells) && Selects(c, h, cells, k)
    ensures FirstHit(c, h, k) && RawAt(c, h, k, cells[k].w, YAt(c, h, k))
    ensures Base(c, h) == Some(Fold(c, 8, Point(cells[k].w, YAt(c, h, k))))
  {
    RawSquare(c, h, k, cells[k].w);
    forall t | 0 <= t < k ensures !c.f.IsSquare(ProdAt(c, h, t)) {
      MissIsOffCurve(c, h, t, cells[t]);
    }
    BaseIs(c, h, k, cells[k].w);
  }

  /** An invertible number and its square are nonzero. */
  lemma UnitsOnly(f: Fp, w: nat, inv: nat)
    requires Prime(f.p) && w < f.p && f.Mul(w, inv) == 1
    ensures w != 0 && f.Mul(w, w) != 0
  {
    MulZero(f, inv);
    if f.Mul(w, w) == 0 {
      NoZeroDivisors(f, w, w);
    }
  }

  lemma FactorNonzero(f: Fp, u: nat, v: nat)
    requires f.Mul(u, v) != 0
    ensures v != 0
  {
    MulZero(f, u);
  }

  lemma RootNonzero(f: Fp, w: nat, n: nat)
    requires f.IsRoot(w, n) && n != 0
    ensures w != 0
  {
    MulZero(f, w);
  }

  lemma MissIsOffCurve(c: Curve, h: nat, t: nat, cell: Cell)
    requires ValidBase(c) && cell.w < c.f.p && MissOk(c, h, t, cell)
    ensures !c.f.IsSquare(ProdAt(c, h, t))
  {
    var f, prod := c.f, ProdAt(c, h, t);
    var w2 := f.Mul(cell.w, cell.w);
    UnitsOnly(f, cell.w, cell.inv);
    assert f.IsRoot(cell.w, w2);
    FactorNonzero(f, NONRESIDUE, prod);
    SquareClass(f, NONRESIDUE, prod);
  }

  /** Completeness: whenever the native search succeeds its roots fill the
      witness variables so that every constraint holds. */
  lemma GadgetComplete(c: Curve, h: nat, k: nat, roots: seq<nat>) returns (cells: seq<Cell>)
    requires ValidBase(c) && FirstHit(c, h, k) && RootsWitness(c, h, k, roots)
    ensures ValidCells(c, cells) && Selects(c, h, cells, k)
  {
    var f := c.f;
    cells := seq(TRIES, t requires 0 <= t < TRIES =>
      Cell(t == k, if t <= k then roots[t] else 0, if t < k then f.Inv(roots[t]) else 0));
    forall t | 0 <= t < k ensures MissOk(c, h, t, cells[t]) {
      assert MissRoot(c, h, t, roots[t]);
      InvIsInverse(f, roots[t]);
    }
    forall t | 0 <= t < TRIES ensures cells[t].w < f.p && cells[t].inv < f.p {
      if t < k {
        assert MissRoot(c, h, t, roots[t]);
      }
    }
  }

  /** The constraints are satisfiable exactly when the search succeeds. */
  lemma SatisfiableIff(c: Curve, h: nat)
    requires ValidBase(c)
    ensures (exists cells :: Satisfiable(c, h, cells)) <==> Base(c, h).Some?
  {
    if cells :| Satisfiable(c, h, cells) {
      var k :| Selects(c, h, cells, k);
      GadgetSound(c, h, cells, k);
    }
    if Base(c, h).Some? {
      SearchFound(c, h, 0);
      var k := SearchFrom(c, h, 0).value;
      var roots := SomeRoots(c, h, k);
      var cells := GadgetComplete(c, h, k, roots);
      assert Satisfiable(c, h, cells);
    }
  }

  lemma SomeRoots(c: Curve, h: nat, k: nat) returns (roots: seq<nat>)
    requires ValidBase(c) && FirstHit(c, h, k)
    ensures RootsWitness(c, h, k, roots)
  {
    var misses := MissRoots(c, h, k);
    RawExists(c, h, k);
    var x :| RawAt(c, h, k, x, YAt(c, h, k));
    roots := misses + [x];
  }

  lemma {:induction false} MissRoots(c: Curve, h: nat, k: nat) returns (roots: seq<nat>)
    requires ValidBase(c) && forall t :: 0 <= t < k ==> !c.f.IsSquare(ProdAt(c, h, t))
    ensures |roots| == k && forall t :: 0 <= t < k ==> MissRoot(c, h, t, roots[t])
  {
    if k == 0 {
      roots := [];
    } else {
      roots := MissRoots(c, h, k - 1);
      MissHasRoot(c, h, k - 1);
      var w: nat :| c.f.IsRoot(w, c.f.Mul(NONRESIDUE, ProdAt(c, h, k - 1)));
      RootNonzero(c.f, w, c.f.Mul(NONRESIDUE, ProdAt(c, h, k - 1)));
      roots := roots + [w];
    }
  }

  /** The base is eight times a curve point. */
  lemma BaseRaw(c: Curve, h: nat) returns (q: Point)
    requires ValidBase(c) && Base(c, h).Some?
    ensures OnCurve(c, q) && Base(c, h) == Some(Fold(c, 8, q))
  {
    SearchFound(c, h, 0);
    var k := SearchFrom(c, h, 0).value;
    RawExists(c, h, k);
    var x :| RawAt(c, h, k, x, YAt(c, h, k));
    BaseIs(c, h, k, x);
    RawOnCurve(c, h, k, x, YAt(c, h, k));
    q := Point(x, YAt(c, h, k));
  }

  /** The base is a curve point. */
  lemma BaseOnCurve(c: Curve, h: nat)
    requires ValidBase(c) && Base(c, h).Some?
    ensures OnCurve(c, Base(c, h).value)
  {
    var q := BaseRaw(c, h);
    FoldOnCurve(c, 8, q);
  }
}
