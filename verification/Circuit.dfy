/** The transfer relation: what generate_constraints enforces on a witness, the
    native evaluation beside it, and what the relation binds. */
module Circuit {
  import opened Binary
  import opened Bytes
  import opened Field
  import opened Wrappers
  import opened Edwards
  import opened Group
  import PointCodec
  import opened Diversify
  import opened Wire
  import opened WireLaws
  import opened Merkle
  import opened Note

  /** One spent input as the prover knows it, with the diversified base gadget's
      assignment and the point it yields. */
  datatype InputWitness = InputWitness(
    enabled: bool, isMint: bool, v: nat, d: nat, rSeed: nat, hBodyCreate: nat, j: nat,
    pos: nat, siblings: seq<nat>, cells: seq<Cell>, gd: Point)

  datatype OutputWitness = OutputWitness(v: nat, d: nat, rSeed: nat, pkD: Point, cells: seq<Cell>, gd: Point)

  datatype TransferWitness = TransferWitness(sk: nat, hBody: nat, inputs: seq<InputWitness>,
    outputs: seq<OutputWitness>)

  datatype PublicInputs = PublicInputs(rAnchor: nat, digest: nat)

  function NodeOf(s: Suite): Merkle.Node {
    (l, r) => s.hash(NODE, [l, r])
  }

  // ------------------------------------------------------ in-circuit values

  /** The point the gadget's constraints force. */
  predicate GadgetBase(s: Suite, d: nat, cells: seq<Cell>, gd: Point) {
    ValidCells(s.c, cells) && exists k | 0 <= k < TRIES :: SelectsPoint(s.c, s.hash(DIVERSIFY, [d]), cells, k, gd)
  }

  predicate SelectsPoint(c: Curve, h: nat, cells: seq<Cell>, k: nat, gd: Point)
    requires ValidCells(c, cells)
  {
    Selects(c, h, cells, k) && gd == Fold(c, 8, Point(cells[k].w, YAt(c, h, k)))
  }

  lemma GadgetBaseIsGD(s: Suite, d: nat, cells: seq<Cell>, gd: Point)
    requires ValidSuite(s) && GadgetBase(s, d, cells, gd)
    ensures GD(s, d) == Some(gd)
  {
    hide Selects, ValidBase, Fold, ValidCells;
    var h := s.hash(DIVERSIFY, [d]);
    var k :| 0 <= k < TRIES && SelectsPoint(s.c, h, cells, k, gd);
    GadgetSound(s.c, h, cells, k);
  }

  /** encrypt_var: the ephemeral key and ciphertext of (v, d, rSeed) under pkD. */
  function EncryptVar(s: Suite, gd: Point, pkD: Point, v: nat, d: nat, rSeed: nat): (Point, Ciphertext) {
    var e := SkEph(s, rSeed);
    var pkEph := Fold(s.c, e, gd);
    var key := NoteKey(s, Fold(s.c, e, pkD), pkEph);
    (pkEph, Seal(s, key, s.c.f.R(v + d * Pow256(8)), rSeed))
  }

  function InputKey(s: Suite, sk: nat, inp: InputWitness): Point {
    Fold(s.c, ViewOf(s, sk), inp.gd)
  }

  /** The leaf block 1 reconstructs under the spender's own address key. */
  function CircuitLeaf(s: Suite, sk: nat, inp: InputWitness): nat {
    var pkD := InputKey(s, sk, inp);
    if inp.isMint then MintLeaf(s, inp.v, inp.d, pkD, inp.rSeed)
    else
      var (pkEph, ct) := EncryptVar(s, inp.gd, pkD, inp.v, inp.d, inp.rSeed);
      CtLeaf(s, inp.hBodyCreate, inp.j, pkEph, ct)
  }

  function InputNf(s: Suite, sk: nat, inp: InputWitness): nat {
    NullifierOf(s, sk, inp.rSeed, inp.pos)
  }

  function OutputCt(s: Suite, o: OutputWitness): (Point, Ciphertext) {
    EncryptVar(s, o.gd, o.pkD, o.v, o.d, o.rSeed)
  }

  function StmtInputs(hBody: nat, nf0: nat, nf1: nat, p0: Point, p1: Point, c0: Ciphertext, c1: Ciphertext): seq<nat> {
    [hBody, N_IN, N_OUT, nf0, nf1, p0.x, p0.y, p1.x, p1.y, c0.c0, c0.c1, c0.tag, c1.c0, c1.c1, c1.tag]
  }

  // ------------------------------------------------------------ the relation

  predicate InputOk(s: Suite, sk: nat, inp: InputWitness, rAnchor: nat) {
    && inp.v < Pow256(8) && inp.d < Pow256(DIVERSIFIER_LEN) && inp.pos < Pow2(DEPTH)
    && inp.rSeed < s.c.f.p && |inp.siblings| == DEPTH
    && s.c.f.Mul(inp.v, Bit(!inp.enabled)) == 0
    && GadgetBase(s, inp.d, inp.cells, inp.gd)
    && (inp.enabled ==> PathRoot(NodeOf(s), CircuitLeaf(s, sk, inp), inp.pos, inp.siblings) == rAnchor)
  }

  predicate OutputOk(s: Suite, o: OutputWitness) {
    && o.v < Pow256(8) && o.d < Pow256(DIVERSIFIER_LEN) && o.rSeed < s.c.f.p && PointCodec.InSubgroup(s.c, o.pkD)
    && GadgetBase(s, o.d, o.cells, o.gd)
  }

  function WitnessStmt(s: Suite, w: TransferWitness): seq<nat>
    requires |w.inputs| == N_IN && |w.outputs| == N_OUT
  {
    var (p0, c0) := OutputCt(s, w.outputs[0]);
    var (p1, c1) := OutputCt(s, w.outputs[1]);
    StmtInputs(w.hBody, InputNf(s, w.sk, w.inputs[0]), InputNf(s, w.sk, w.inputs[1]), p0, p1, c0, c1)
  }

  /** generate_constraints, as a relation between the public inputs and a full
      assignment. */
  predicate Satisfies(s: Suite, pub: PublicInputs, w: TransferWitness) {
    && |w.inputs| == N_IN && |w.outputs| == N_OUT
    && InputOk(s, w.sk, w.inputs[0], pub.rAnchor) && InputOk(s, w.sk, w.inputs[1], pub.rAnchor)
    && OutputOk(s, w.outputs[0]) && OutputOk(s, w.outputs[1])
    && s.c.f.Add(w.inputs[0].v, w.inputs[1].v) == s.c.f.Add(w.outputs[0].v, w.outputs[1].v)
    && s.hash(STMT, WitnessStmt(s, w)) == pub.digest
  }

  // -------------------------------------------- field equations over integers

  /** The 64-bit range checks turn the conservation equation of the field into
      one between integers, and a disabled input carries nothing. */
  lemma Conserves(s: Suite, pub: PublicInputs, w: TransferWitness)
    requires ValidSuite(s) && Satisfies(s, pub, w)
    ensures w.inputs[0].v + w.inputs[1].v == w.outputs[0].v + w.outputs[1].v
    ensures forall i :: 0 <= i < N_IN && !w.inputs[i].enabled ==> w.inputs[i].v == 0
  {
    hide Pow256, Pow2, GadgetBase, PathRoot, PointCodec.InSubgroup, ValidSuite, WitnessStmt, CircuitLeaf, Fp.Add,
      Fp.Mul;
    TwoFit(s);
    SumsAgree(s.c.f, w.inputs[0].v, w.inputs[1].v, w.outputs[0].v, w.outputs[1].v);
    forall i | 0 <= i < N_IN && !w.inputs[i].enabled ensures w.inputs[i].v == 0 {
      TimesOne(s.c.f, w.inputs[i].v);
    }
  }

  lemma SumsAgree(f: Fp, a: nat, b: nat, c: nat, d: nat)
    requires a + b < f.p && c + d < f.p && f.Add(a, b) == f.Add(c, d)
    ensures a + b == c + d
  {
    RSmall(f, a + b);
    RSmall(f, c + d);
  }

  lemma TimesOne(f: Fp, v: nat)
    requires v < f.p
    ensures f.Mul(v, 1) == v
  {
    MulOne(f, v);
  }

  lemma TwoFit(s: Suite)
    requires ValidSuite(s)
    ensures 2 * Pow256(8) < s.c.f.p && Pow256(19) < s.c.f.p
  {
    hide Pow256;
    Sizes(s);
    Pow256Step(8);
    Pow256Step(19);
    Pow256Monotone(9, 19);
    Pow256Monotone(20, CHUNK);
  }

  /** The packed plaintext of the circuit never wraps, so it determines v and d. */
  lemma PackedVar(s: Suite, v: nat, d: nat)
    requires ValidSuite(s) && v < Pow256(8) && d < Pow256(DIVERSIFIER_LEN)
    ensures s.c.f.R(v + d * Pow256(8)) == v + d * Pow256(8)
  {
    hide Pow256, ValidSuite;
    TwoFit(s);
    PackedBound(v, d, Pow256(8), Pow256(DIVERSIFIER_LEN));
    Pow256Add(8, DIVERSIFIER_LEN);
    RSmall(s.c.f, v + d * Pow256(8));
  }

  lemma PackedBound(v: nat, d: nat, a: nat, b: nat)
    requires v < a && d < b
    ensures v + d * a < a * b
  {
    MulMonotone(d + 1, b, a);
    assert (d + 1) * a == d * a + a;
  }

  lemma {:induction false} Pow256Add(m: nat, n: nat)
    ensures Pow256(m) * Pow256(n) == Pow256(m + n)
  {
    if m > 0 {
      Pow256Add(m - 1, n);
      assert 256 * (Pow256(m - 1) * Pow256(n)) == Pow256(m) * Pow256(n);
    }
  }

  lemma UnpackVar(v: nat, d: nat, v': nat, d': nat, a: nat)
    requires a > 0 && v < a && v' < a && v + d * a == v' + d' * a
    ensures v == v' && d == d'
  {
    DivIs(v + d * a, a, d, v);
    DivIs(v + d * a, a, d', v');
  }

  // --------------------------------------------- the native side mirrors it

  /** encrypt_var on a field diversifier is note::encrypt on its bytes. */
  lemma EncryptVarIsEncrypt(s: Suite, gd: Point, n: Plain, pkD: Point)
    requires ValidSuite(s) && PlainOk(s, n) && GD(s, Le(n.d)) == Some(gd)
    ensures Encrypt(s, n, pkD) == Some(EncryptVar(s, gd, pkD, n.v, Le(n.d), n.rSeed))
  {
    hide Fold, Pow256, Le, ToLe, Seal, ValidSuite;
    Sizes(s);
    PackValue(s.c.f, n.v, n.d);
    LeBound(n.d);
    PackedVar(s, n.v, Le(n.d));
    assert Pow256(8) * Le(n.d) == Le(n.d) * Pow256(8);
  }

  /** input_leaf rebuilds the leaf the circuit would. */
  lemma CircuitLeafIsInputLeaf(s: Suite, sk: nat, inp: InputWitness, n: Plain)
    requires ValidSuite(s) && PlainOk(s, n) && GD(s, Le(n.d)) == Some(inp.gd)
    requires inp.v == n.v && inp.d == Le(n.d) && inp.rSeed == n.rSeed
    ensures InputLeaf(s, sk, inp.isMint, n, inp.hBodyCreate, inp.j) == Some(CircuitLeaf(s, sk, inp))
  {
    hide Fold, Pow256, Le, ToLe, Seal, ValidSuite, Encrypt, EncryptVar, PlainOk;
    EncryptVarIsEncrypt(s, inp.gd, n, InputKey(s, sk, inp));
  }
}
