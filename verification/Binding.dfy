/** What a leaf binds: any two openings of one leaf have the same value and the
    same spending key, so the same nullifier at the same position. The hash is
    assumed collision-free only on the queries actually made. */
module Binding {
  import opened Binary
  import opened Bytes
  import opened Field
  import opened Wrappers
  import opened Edwards
  import opened Group
  import opened Diversify
  import opened LowOrder
  import opened Wire
  import opened Merkle
  import opened Note
  import opened Circuit

  /** A set of hash queries: tag and inputs. */
  type Queries = iset<(nat, seq<nat>)>

  ghost predicate NoCollision(s: Suite, q: Queries) {
    forall t, x, t', x' :: (t, x) in q && (t', x') in q && s.hash(t, x) == s.hash(t', x') ==> t == t' && x == x'
  }

  /** The hash behaves on the queries in q: no collision, none among truncated
      viewing keys, no leaf equal to the empty leaf, no zero ephemeral scalar, no
      diversifier whose search starts on a low point. */
  ghost predicate GoodQueries(s: Suite, q: Queries) {
    && NoCollision(s, q)
    && (forall a: nat, b: nat :: (SK_VIEW, [a]) in q && (SK_VIEW, [b]) in q && SkView(s, a) == SkView(s, b) ==> a == b)
    && (forall x :: (LEAF, x) in q ==> s.hash(LEAF, x) != 0)
    && (forall x :: (MINT_LEAF, x) in q ==> s.hash(MINT_LEAF, x) != 0)
    && (forall r: nat :: (EPH, [r]) in q ==> SkEph(s, r) != 0)
    && (forall d: nat :: (DIVERSIFY, [d]) in q ==> !LowStart(s.c, s.hash(DIVERSIFY, [d])))
  }

  lemma SameQuery(s: Suite, q: Queries, t: nat, x: seq<nat>, t': nat, x': seq<nat>)
    requires GoodQueries(s, q) && (t, x) in q && (t', x') in q && s.hash(t, x) == s.hash(t', x')
    ensures t == t' && x == x'
  {
  }

  // ------------------------------------------------------------------ sealing

  /** One ciphertext opens to one key and one plaintext. */
  lemma SealBinds(s: Suite, q: Queries, k: nat, m0: nat, m1: nat, k': nat, m0': nat, m1': nat)
    requires GoodQueries(s, q) && m0 < s.c.f.p && m1 < s.c.f.p && m0' < s.c.f.p && m1' < s.c.f.p
    requires Seal(s, k, m0, m1) == Seal(s, k', m0', m1')
    requires MacQuery(s, k, m0, m1) in q && MacQuery(s, k', m0', m1') in q
    ensures k == k' && m0 == m0' && m1 == m1'
  {
    hide GoodQueries, Fp.Add, Fp.Sub;
    var a, b := MacQuery(s, k, m0, m1), MacQuery(s, k', m0', m1');
    SameQuery(s, q, MAC, a.1, MAC, b.1);
    assert a.1[0] == b.1[0];
    AddSub(s.c.f, m0, s.hash(STREAM, [k, 0]));
    AddSub(s.c.f, m0', s.hash(STREAM, [k, 0]));
    AddSub(s.c.f, m1, s.hash(STREAM, [k, 1]));
    AddSub(s.c.f, m1', s.hash(STREAM, [k, 1]));
  }

  function MacQuery(s: Suite, k: nat, m0: nat, m1: nat): (nat, seq<nat>) {
    var ct := Seal(s, k, m0, m1);
    (MAC, [k, ct.c0, ct.c1])
  }

  /** Everything encrypt_var hashes under collision resistance. */
  ghost predicate EncryptCovered(s: Suite, q: Queries, gd: Point, pkD: Point, v: nat, d: nat, rSeed: nat) {
    var e := SkEph(s, rSeed);
    var pkEph, shared := Fold(s.c, e, gd), Fold(s.c, e, pkD);
    && (EPH, [rSeed]) in q && (KDF, [shared.x, shared.y, pkEph.x, pkEph.y]) in q
    && MacQuery(s, NoteKey(s, shared, pkEph), s.c.f.R(v + d * Pow256(8)), rSeed) in q
  }

  predicate Ranges(s: Suite, v: nat, d: nat, rSeed: nat) {
    v < Pow256(8) && d < Pow256(DIVERSIFIER_LEN) && rSeed < s.c.f.p
  }

  /** Equal ciphertexts carry equal plaintexts and were agreed on one shared
      point. */
  lemma CiphertextBinds(s: Suite, q: Queries, gd: Point, pkD: Point, v: nat, d: nat, r: nat,
                        gd': Point, pkD': Point, v': nat, d': nat, r': nat)
    requires ValidSuite(s) && GoodQueries(s, q) && Ranges(s, v, d, r) && Ranges(s, v', d', r')
    requires EncryptCovered(s, q, gd, pkD, v, d, r) && EncryptCovered(s, q, gd', pkD', v', d', r')
    requires EncryptVar(s, gd, pkD, v, d, r).1 == EncryptVar(s, gd', pkD', v', d', r').1
    ensures v == v' && d == d' && r == r'
    ensures Fold(s.c, SkEph(s, r), pkD) == Fold(s.c, SkEph(s, r), pkD')
  {
    hide GoodQueries, ValidSuite, Fold, Seal, Pow256, SkEph;
    var f := s.c.f;
    PackedVar(s, v, d);
    PackedVar(s, v', d');
    var e, e' := SkEph(s, r), SkEph(s, r');
    var pk, sh, pk', sh' := Fold(s.c, e, gd), Fold(s.c, e, pkD), Fold(s.c, e', gd'), Fold(s.c, e', pkD');
    SealBinds(s, q, NoteKey(s, sh, pk), f.R(v + d * Pow256(8)), r, NoteKey(s, sh', pk'), f.R(v' + d' * Pow256(8)), r');
    UnpackVar(v, d, v', d', Pow256(8));
    var x, x' := [sh.x, sh.y, pk.x, pk.y], [sh'.x, sh'.y, pk'.x, pk'.y];
    SameQuery(s, q, KDF, x, KDF, x');
    assert x[0] == x'[0] && x[1] == x'[1];
  }

  // -------------------------------------------------------------- spend side

  /** What opening a leaf with the key sk hashes. */
  ghost predicate OpeningQueries(s: Suite, q: Queries, sk: nat, inp: InputWitness) {
    var pkD := InputKey(s, sk, inp);
    && (VK_IN, [sk]) in q && (SK_VIEW, [VkIn(s, sk)]) in q && (DIVERSIFY, [inp.d]) in q
    && LeafQuery(s, q, inp, pkD)
    && (inp.isMint || EncryptCovered(s, q, inp.gd, pkD, inp.v, inp.d, inp.rSeed))
  }

  /** An opening of a leaf by the key sk, with its queries in q. */
  ghost predicate Opening(s: Suite, q: Queries, sk: nat, inp: InputWitness) {
    && Ranges(s, inp.v, inp.d, inp.rSeed) && GadgetBase(s, inp.d, inp.cells, inp.gd)
    && OpeningQueries(s, q, sk, inp)
  }

  /** The base of a queried diversifier generates the subgroup. */
  lemma BaseGenerates(s: Suite, q: Queries, inp: InputWitness)
    requires ValidSuite(s) && GoodQueries(s, q) && (DIVERSIFY, [inp.d]) in q && GadgetBase(s, inp.d, inp.cells, inp.gd)
    ensures Generates(s.c, inp.gd)
  {
    hide NoCollision, GadgetBase, Fold, OnCurve, ScalarModulus, ValidBase, Cofactor8, Pow256, LowStart;
    GadgetBaseIsGD(s, inp.d, inp.cells, inp.gd);
    BaseInSubgroup(s, inp.d);
    IdentityBaseIff(s.c, s.hash(DIVERSIFY, [inp.d]));
  }

  /** From a low start every viewing key has one address key, the identity. */
  lemma LowKeysMeet(s: Suite, d: nat, view: nat)
    requires ValidSuite(s) && LowStart(s.c, s.hash(DIVERSIFY, [d]))
    ensures AddressKey(s, view, d) == Some(IDENTITY)
  {
    hide Fold, Base, ValidBase, Cofactor8, ScalarModulus, Pow256, LowStart;
    IdentityBaseIff(s.c, s.hash(DIVERSIFY, [d]));
    FoldIdentity(s.c, view);
  }

  /** The address keys of different viewing keys differ. */
  ghost predicate KeysDiffer(s: Suite, d: nat) {
    forall a: nat, b: nat :: a < b < s.c.order ==> AddressKey(s, a, d) != AddressKey(s, b, d)
  }

  /** Where a diversifier has a base, its address keys determine the viewing key
      iff the search does not start low. */
  lemma KeysDifferIff(s: Suite, d: nat)
    requires ValidSuite(s) && GD(s, d).Some?
    ensures KeysDiffer(s, d) <==> !LowStart(s.c, s.hash(DIVERSIFY, [d]))
  {
    hide Fold, Base, OnCurve, Cofactor8, ScalarModulus, Pow256, LowStart;
    if LowStart(s.c, s.hash(DIVERSIFY, [d])) {
      LowKeysMeet(s, d, 0);
      LowKeysMeet(s, d, 1);
    } else {
      IdentityBaseIff(s.c, s.hash(DIVERSIFY, [d]));
      BaseInSubgroup(s, d);
      var g := GD(s, d).value;
      forall a: nat, b: nat | a < b < s.c.order ensures AddressKey(s, a, d) != AddressKey(s, b, d) {
        if Fold(s.c, a, g) == Fold(s.c, b, g) {
          FoldInjective(s.c, g, a, b);
        }
      }
    }
  }

  /** The address key determines the spending key. */
  lemma KeyBinds(s: Suite, q: Queries, gd: Point, sk: nat, sk': nat)
    requires ValidSuite(s) && GoodQueries(s, q) && Generates(s.c, gd)
    requires (VK_IN, [sk]) in q && (SK_VIEW, [VkIn(s, sk)]) in q
    requires (VK_IN, [sk']) in q && (SK_VIEW, [VkIn(s, sk')]) in q
    requires Fold(s.c, ViewOf(s, sk), gd) == Fold(s.c, ViewOf(s, sk'), gd)
    ensures sk == sk'
  {
    hide Fold, ScalarModulus, Generates, ValidBase, NoCollision;
    FoldInjective(s.c, gd, ViewOf(s, sk), ViewOf(s, sk'));
    SameQuery(s, q, VK_IN, [sk], VK_IN, [sk']);
    assert [sk][0] == [sk'][0];
  }

  /** The shared point of a nonzero ephemeral scalar determines the viewing
      key on the other side. */
  lemma SharedBinds(s: Suite, gd: Point, e: nat, view: nat, view': nat)
    requires ValidSuite(s) && Generates(s.c, gd) && 0 < e < ScalarModulus()
    requires view < ScalarModulus() && view' < ScalarModulus()
    requires Fold(s.c, e, Fold(s.c, view, gd)) == Fold(s.c, e, Fold(s.c, view', gd))
    ensures view == view'
  {
    hide Fold, ScalarModulus, Sum, OnCurve;
    FoldSwap(s.c, e, view, gd);
    FoldSwap(s.c, e, view', gd);
    MultipleGenerates(s.c, gd, e);
    FoldInjective(s.c, Fold(s.c, e, gd), view, view');
  }

  /** Any two openings of the same leaf agree on everything that matters to a
      spend: the value, the seed and the spending key. */
  lemma LeafBinds(s: Suite, q: Queries, sk: nat, a: InputWitness, sk': nat, b: InputWitness)
    requires ValidSuite(s) && GoodQueries(s, q) && Opening(s, q, sk, a) && Opening(s, q, sk', b)
    requires CircuitLeaf(s, sk, a) == CircuitLeaf(s, sk', b)
    ensures a.v == b.v && a.rSeed == b.rSeed && sk == sk'
  {
    hide GoodQueries, ValidSuite, Fold, Generates, GadgetBase, EncryptVar, EncryptCovered, Ranges, LeafQuery, GD,
      LeafInputs, MintInputs;
    GadgetBaseIsGD(s, a.d, a.cells, a.gd);
    GadgetBaseIsGD(s, b.d, b.cells, b.gd);
    BaseGenerates(s, q, a);
    if a.isMint {
      SameMint(s, q, a, InputKey(s, sk, a), b, InputKey(s, sk', b));
      KeyBinds(s, q, a.gd, sk, sk');
    } else {
      SameCt(s, q, a, InputKey(s, sk, a), b, InputKey(s, sk', b));
      CtKeyBinds(s, q, sk, a, sk', b);
    }
  }

  /** The ciphertext case: tag, key, plaintext, address key, spending key. */
  lemma CtKeyBinds(s: Suite, q: Queries, sk: nat, a: InputWitness, sk': nat, b: InputWitness)
    requires ValidSuite(s) && GoodQueries(s, q) && Opening(s, q, sk, a) && Opening(s, q, sk', b) && !a.isMint
      && !b.isMint
    requires GD(s, a.d) == Some(a.gd) && GD(s, b.d) == Some(b.gd) && Generates(s.c, a.gd)
    requires EncryptVar(s, a.gd, InputKey(s, sk, a), a.v, a.d, a.rSeed)
      == EncryptVar(s, b.gd, InputKey(s, sk', b), b.v, b.d, b.rSeed)
    ensures a.v == b.v && a.rSeed == b.rSeed && sk == sk'
  {
    hide GoodQueries, ValidSuite, Fold, Generates, GadgetBase, EncryptVar, EncryptCovered, Ranges, LeafQuery, GD;
    var pa, pb := InputKey(s, sk, a), InputKey(s, sk', b);
    CiphertextBinds(s, q, a.gd, pa, a.v, a.d, a.rSeed, b.gd, pb, b.v, b.d, b.rSeed);
    EphNonzero(s, q, a, pa);
    SharedBinds(s, a.gd, SkEph(s, a.rSeed), ViewOf(s, sk), ViewOf(s, sk'));
    KeyBinds(s, q, a.gd, sk, sk');
  }

  lemma EphNonzero(s: Suite, q: Queries, a: InputWitness, pa: Point)
    requires GoodQueries(s, q) && EncryptCovered(s, q, a.gd, pa, a.v, a.d, a.rSeed)
    ensures 0 < SkEph(s, a.rSeed) < ScalarModulus()
  {
    hide ScalarModulus, Fold, NoCollision;
    assert (EPH, [a.rSeed]) in q;
  }

  ghost predicate LeafQuery(s: Suite, q: Queries, inp: InputWitness, pkD: Point) {
    if inp.isMint then (MINT_LEAF, MintInputs(inp.v, inp.d, pkD, inp.rSeed)) in q
    else
      var (pkEph, ct) := EncryptVar(s, inp.gd, pkD, inp.v, inp.d, inp.rSeed);
      (LEAF, LeafInputs(s, inp.hBodyCreate, inp.j, pkEph, ct)) in q
  }

  function LeafUnder(s: Suite, inp: InputWitness, pkD: Point): nat {
    if inp.isMint then MintLeaf(s, inp.v, inp.d, pkD, inp.rSeed)
    else
      var (pkEph, ct) := EncryptVar(s, inp.gd, pkD, inp.v, inp.d, inp.rSeed);
      CtLeaf(s, inp.hBodyCreate, inp.j, pkEph, ct)
  }

  lemma SameMint(s: Suite, q: Queries, a: InputWitness, pa: Point, b: InputWitness, pb: Point)
    requires GoodQueries(s, q) && LeafQuery(s, q, a, pa) && LeafQuery(s, q, b, pb)
    requires a.isMint && LeafUnder(s, a, pa) == LeafUnder(s, b, pb)
    ensures b.isMint && a.v == b.v && a.d == b.d && pa == pb && a.rSeed == b.rSeed
  {
    hide GoodQueries, EncryptVar;
    var x := MintInputs(a.v, a.d, pa, a.rSeed);
    if b.isMint {
      var y := MintInputs(b.v, b.d, pb, b.rSeed);
      SameQuery(s, q, MINT_LEAF, x, MINT_LEAF, y);
      assert x[0] == y[0] && x[1] == y[1] && x[2] == y[2] && x[3] == y[3] && x[4] == y[4];
    } else {
      var (e, ct) := EncryptVar(s, b.gd, pb, b.v, b.d, b.rSeed);
      SameQuery(s, q, MINT_LEAF, x, LEAF, LeafInputs(s, b.hBodyCreate, b.j, e, ct));
    }
  }

  lemma SameCt(s: Suite, q: Queries, a: InputWitness, pa: Point, b: InputWitness, pb: Point)
    requires GoodQueries(s, q) && LeafQuery(s, q, a, pa) && LeafQuery(s, q, b, pb)
    requires !a.isMint && LeafUnder(s, a, pa) == LeafUnder(s, b, pb)
    ensures !b.isMint
    ensures EncryptVar(s, a.gd, pa, a.v, a.d, a.rSeed) == EncryptVar(s, b.gd, pb, b.v, b.d, b.rSeed)
  {
    hide GoodQueries, EncryptVar, LeafInputs, MintInputs;
    var (e, ct) := EncryptVar(s, a.gd, pa, a.v, a.d, a.rSeed);
    var x := LeafInputs(s, a.hBodyCreate, a.j, e, ct);
    if b.isMint {
      SameQuery(s, q, LEAF, x, MINT_LEAF, MintInputs(b.v, b.d, pb, b.rSeed));
    } else {
      var (e', ct') := EncryptVar(s, b.gd, pb, b.v, b.d, b.rSeed);
      LeafInputsBind(s, q, a.hBodyCreate, a.j, e, ct, b.hBodyCreate, b.j, e', ct');
    }
  }

  lemma LeafInputsBind(s: Suite, q: Queries, h: nat, j: nat, e: Point, ct: Ciphertext,
                       h': nat, j': nat, e': Point, ct': Ciphertext)
    requires GoodQueries(s, q) && CtLeaf(s, h, j, e, ct) == CtLeaf(s, h', j', e', ct')
    requires (LEAF, LeafInputs(s, h, j, e, ct)) in q && (LEAF, LeafInputs(s, h', j', e', ct')) in q
    ensures h == h' && j == j' && e == e' && ct == ct'
  {
    hide GoodQueries, Salt;
    var x, y := LeafInputs(s, h, j, e, ct), LeafInputs(s, h', j', e', ct');
    SameQuery(s, q, LEAF, x, LEAF, y);
    assert x[1] == y[1] && x[2] == y[2] && x[3] == y[3] && x[4] == y[4];
    assert x[5] == y[5] && x[6] == y[6] && x[7] == y[7];
  }

  /** Openings of one leaf at one position have one nullifier. */
  lemma NullifierBinds(s: Suite, q: Queries, sk: nat, a: InputWitness, sk': nat, b: InputWitness)
    requires ValidSuite(s) && GoodQueries(s, q) && Opening(s, q, sk, a) && Opening(s, q, sk', b)
    requires CircuitLeaf(s, sk, a) == CircuitLeaf(s, sk', b) && a.pos == b.pos
    ensures InputNf(s, sk, a) == InputNf(s, sk', b)
  {
    hide GoodQueries, ValidSuite, Opening, CircuitLeaf;
    LeafBinds(s, q, sk, a, sk', b);
  }

  // ------------------------------------------------------------ creation side

  /** How a leaf came to be: a funded mint, or an output of a transfer. */
  datatype Origin =
    | FromMint(value: nat, d: nat, pkD: Point, rSeed: nat)
    | FromOutput(o: OutputWitness, hBody: nat, j: nat)

  function OriginLeaf(s: Suite, g: Origin): nat {
    match g
    case FromMint(v, d, pkD, r) => MintLeaf(s, v, d, pkD, r)
    case FromOutput(o, hBody, j) => CtLeaf(s, hBody, j, OutputCt(s, o).0, OutputCt(s, o).1)
  }

  function OriginValue(g: Origin): nat {
    match g
    case FromMint(v, _, _, _) => v
    case FromOutput(o, _, _) => o.v
  }

  ghost predicate OriginOk(s: Suite, q: Queries, g: Origin) {
    (g.FromOutput? ==> Ranges(s, g.o.v, g.o.d, g.o.rSeed)) && OriginQueries(s, q, g)
  }

  /** What creating a leaf hashes. */
  ghost predicate OriginQueries(s: Suite, q: Queries, g: Origin) {
    match g
    case FromMint(v, d, pkD, r) => (MINT_LEAF, MintInputs(v, d, pkD, r)) in q
    case FromOutput(o, hBody, j) =>
      && (LEAF, LeafInputs(s, hBody, j, OutputCt(s, o).0, OutputCt(s, o).1)) in q
      && EncryptCovered(s, q, o.gd, o.pkD, o.v, o.d, o.rSeed)
  }

  /** An opened leaf is never the empty leaf. */
  lemma OpeningNotEmpty(s: Suite, q: Queries, sk: nat, inp: InputWitness)
    requires GoodQueries(s, q) && Opening(s, q, sk, inp)
    ensures CircuitLeaf(s, sk, inp) != 0
  {
    hide NoCollision, EncryptVar, EncryptCovered, GadgetBase, Fold, Ranges;
  }

  /** A spend opens a leaf for exactly the value it was created with. */
  lemma ValueBinds(s: Suite, q: Queries, g: Origin, sk: nat, inp: InputWitness)
    requires ValidSuite(s) && GoodQueries(s, q) && OriginOk(s, q, g) && Opening(s, q, sk, inp)
    requires OriginLeaf(s, g) == CircuitLeaf(s, sk, inp)
    ensures OriginValue(g) == inp.v
  {
    hide GoodQueries, ValidSuite, EncryptVar, EncryptCovered, GadgetBase, Ranges, Fold, LeafInputs, MintInputs;
    if g.FromMint? {
      MintValueBinds(s, q, g, inp, InputKey(s, sk, inp));
    } else {
      OutputBinds(s, q, g, inp, InputKey(s, sk, inp));
      CiphertextBinds(s, q, g.o.gd, g.o.pkD, g.o.v, g.o.d, g.o.rSeed, inp.gd, InputKey(s, sk, inp), inp.v, inp.d,
        inp.rSeed);
    }
  }

  lemma MintValueBinds(s: Suite, q: Queries, g: Origin, inp: InputWitness, pkD: Point)
    requires GoodQueries(s, q) && g.FromMint? && OriginQueries(s, q, g) && LeafQuery(s, q, inp, pkD)
    requires OriginLeaf(s, g) == LeafUnder(s, inp, pkD)
    ensures g.value == inp.v
  {
    hide GoodQueries, EncryptVar;
    var x := MintInputs(g.value, g.d, g.pkD, g.rSeed);
    if inp.isMint {
      var y := MintInputs(inp.v, inp.d, pkD, inp.rSeed);
      SameQuery(s, q, MINT_LEAF, x, MINT_LEAF, y);
      assert x[0] == y[0];
    } else {
      var (e, ct) := EncryptVar(s, inp.gd, pkD, inp.v, inp.d, inp.rSeed);
      SameQuery(s, q, MINT_LEAF, x, LEAF, LeafInputs(s, inp.hBodyCreate, inp.j, e, ct));
    }
  }

  lemma OutputBinds(s: Suite, q: Queries, g: Origin, inp: InputWitness, pkD: Point)
    requires GoodQueries(s, q) && g.FromOutput? && OriginQueries(s, q, g) && LeafQuery(s, q, inp, pkD)
    requires OriginLeaf(s, g) == LeafUnder(s, inp, pkD)
    ensures !inp.isMint && OutputCt(s, g.o) == EncryptVar(s, inp.gd, pkD, inp.v, inp.d, inp.rSeed)
  {
    hide GoodQueries, EncryptVar, EncryptCovered, LeafInputs, MintInputs;
    var (e', ct') := OutputCt(s, g.o);
    if inp.isMint {
      SameQuery(s, q, LEAF, LeafInputs(s, g.hBody, g.j, e', ct'), MINT_LEAF, MintInputs(inp.v, inp.d, pkD, inp.rSeed));
    } else {
      var (e, ct) := EncryptVar(s, inp.gd, pkD, inp.v, inp.d, inp.rSeed);
      LeafInputsBind(s, q, g.hBody, g.j, e', ct', inp.hBodyCreate, inp.j, e, ct);
    }
  }
}
