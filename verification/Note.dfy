/** Key derivation, notes, note encryption, leaves and nullifiers, over one
    curve and one uninterpreted hash. */
module Note {
  import opened Binary
  import opened Bytes
  import opened Field
  import opened Wrappers
  import opened Edwards
  import opened Group
  import opened PointCodec
  import opened Diversify
  import opened Wire

  // Domain tags of the hash.
  const NF_KEY: nat := 1
  const VK_IN: nat := 2
  const SK_VIEW: nat := 3
  const DIVERSIFY: nat := 4
  const RHO: nat := 5
  const EPH: nat := 6
  const KDF: nat := 7
  const STREAM: nat := 8
  const MAC: nat := 9
  const LEAF: nat := 10
  const MINT_LEAF: nat := 11
  const NF: nat := 12
  const NODE: nat := 13
  const BODY: nat := 14
  const STMT: nat := 15

  const SCALAR_BITS: nat := 250
  const CONST_SALT: seq<byte> :=
    [0x73, 0x62, 0x70, 0x2f, 0x63, 0x6f, 0x6e, 0x73, 0x74, 0x5f, 0x73, 0x61, 0x6c, 0x74, 0x2f, 0x31]

  /** The curve, the diversified-base function computed by DiversifyHash, and
      the hash (tag, inputs) to one field element. */
  datatype Suite = Suite(c: Curve, base: nat -> Option<Point>, hash: (nat, seq<nat>) -> nat)

  /** What is assumed of the suite: the curve facts, cofactor 8 among them, the
      sizes, and that base is the search proved in Diversify. */
  ghost predicate ValidSuite(s: Suite) {
    && ValidBase(s.c) && ValidCodec(s.c) && Prime(s.c.order)
    && ScalarModulus() < s.c.order && Pow256(CHUNK) <= s.c.f.p
    && (forall t, xs :: s.hash(t, xs) < s.c.f.p)
    && (forall h :: s.base(h) == Base(s.c, h))
    && Cofactor8(s.c)
  }

  /** Eight times any curve point lies in the subgroup. */
  ghost predicate Cofactor8(c: Curve) {
    forall q :: OnCurve(c, q) ==> Fold(c, c.order, Fold(c, 8, q)) == IDENTITY
  }

  function ScalarModulus(): (m: nat)
    ensures m >= 1
  {
    Pow2(SCALAR_BITS)
  }

  /** Low SCALAR_BITS bits of a field element, read as a scalar. */
  function Low(x: nat): (r: nat)
    ensures r < ScalarModulus()
  {
    Mod(x, ScalarModulus())
  }

  function Mod(x: nat, m: nat): (r: nat)
    requires m > 0
    ensures r < m
  {
    x % m
  }

  function BitAt(x: nat, i: nat): (b: nat)
    ensures b <= 1
  {
    (x / Pow2(i)) % 2
  }

  function Top(y: nat, i: nat): nat {
    Quotient(y, Pow2(i))
  }

  function Quotient(y: nat, w: nat): (q: nat)
    requires w > 0
  {
    QuotientNonNegative(y, w);
    y / w
  }

  lemma QuotientNonNegative(y: nat, w: nat)
    requires w > 0
    ensures y / w >= 0
  {
  }

  lemma ModSmall(a: nat, m: nat)
    requires a < m
    ensures Mod(a, m) == a
  {
    if m >= 2 {
      RSmall(Fp(m), a);
    }
  }

  /** scalar_from_field: the low bits folded from the top, modulo the order. */
  method ScalarFromField(order: nat, x: nat) returns (acc: nat)
    requires ScalarModulus() < order
    ensures acc == Low(x)
  {
    hide Pow2, Low, Top, BitAt, ScalarModulus, Mod;
    acc := 0;
    var i: nat := SCALAR_BITS;
    TopEnds(x);
    while i > 0
      invariant i <= SCALAR_BITS && acc == Top(Low(x), i)
    {
      i := i - 1;
      TopStep(x, i);
      var bit := BitAt(x, i);
      ModSmall(acc * 2, order);
      acc := Mod(acc * 2, order);
      if bit == 1 {
        ModSmall(acc + 1, order);
        acc := Mod(acc + 1, order);
      }
    }
  }

  lemma TopEnds(x: nat)
    ensures Top(Low(x), SCALAR_BITS) == 0 && Top(Low(x), 0) == Low(x)
  {
    hide Pow2;
    DivIs(Low(x), Pow2(SCALAR_BITS), 0, Low(x));
    Pow2Zero();
  }

  lemma TopStep(x: nat, i: nat)
    requires i < SCALAR_BITS
    ensures Top(Low(x), i) == 2 * Top(Low(x), i + 1) + BitAt(x, i)
    ensures Top(Low(x), i) < ScalarModulus()
  {
    hide Pow2;
    NextBit(Low(x), i);
    LowBit(x, i);
    QuotientBelow(Low(x), Pow2(i), ScalarModulus());
  }

  lemma Pow2Zero()
    ensures Pow2(0) == 1
  {
  }

  lemma QuotientBelow(y: nat, w: nat, bound: nat)
    requires w > 0 && y < bound
    ensures y / w < bound
  {
    assert y == (y / w) * w + y % w;
    MulAtLeast(w, y / w);
  }

  /** Bits below SCALAR_BITS survive the reduction. */
  lemma LowBit(x: nat, i: nat)
    requires i < SCALAR_BITS
    ensures (x / Pow2(i)) % 2 == (Low(x) / Pow2(i)) % 2
  {
    hide Pow2;
    assert Low(x) == x % ScalarModulus();
    Pow2Add(i + 1, SCALAR_BITS - i - 1);
    Pow2Step(i);
    BitOfRemainder(x, Pow2(i), Pow2(SCALAR_BITS - i - 1), ScalarModulus());
  }

  lemma Pow2Step(i: nat)
    ensures Pow2(i + 1) == 2 * Pow2(i)
  {
  }

  lemma BitOfRemainder(x: nat, w: nat, m: nat, n: nat)
    requires w > 0 && m > 0 && n > 0 && n == (2 * w) * m
    ensures (x / w) % 2 == ((x % n) / w) % 2
  {
    var q, y := x / n, x % n;
    var h, r := y / w, y % w;
    BitCore(x, w, m, n, q, h, r);
  }

  lemma BitCore(x: nat, w: nat, m: nat, n: nat, q: nat, h: nat, r: nat)
    requires n == (2 * w) * m && x == q * n + (h * w + r) && r < w
    ensures (x / w) % 2 == h % 2
  {
    var k := q * m;
    MulAtLeastZero(q, m);
    Combine(q, m, w, h, r);
    DivIs(x, w, 2 * k + h, r);
  }

  lemma Combine(q: int, m: int, w: int, h: int, r: int)
    ensures q * ((2 * w) * m) + (h * w + r) == (2 * (q * m) + h) * w + r
  {
    assert q * ((2 * w) * m) == 2 * (q * m) * w;
  }

  // ---------------------------------------------------------- key derivation

  function SkNf(s: Suite, sk: nat): nat { s.hash(NF_KEY, [sk]) }

  function VkIn(s: Suite, sk: nat): nat { s.hash(VK_IN, [sk]) }

  function SkView(s: Suite, vkIn: nat): nat { Low(s.hash(SK_VIEW, [vkIn])) }

  function ViewOf(s: Suite, sk: nat): nat { SkView(s, VkIn(s, sk)) }

  function Rho(s: Suite, rSeed: nat): nat { s.hash(RHO, [rSeed]) }

  function SkEph(s: Suite, rSeed: nat): nat { Low(s.hash(EPH, [rSeed])) }

  /** DiversifyHash of a diversifier read as a field element. */
  function GD(s: Suite, d: nat): Option<Point> { s.base(s.hash(DIVERSIFY, [d])) }

  function NullifierOf(s: Suite, sk: nat, rSeed: nat, pos: nat): nat {
    s.hash(NF, [SkNf(s, sk), Rho(s, rSeed), s.c.f.R(pos)])
  }

  // ------------------------------------------------------- packing the plaintext

  datatype Plain = Plain(v: nat, d: seq<byte>, rSeed: nat)

  predicate PlainOk(s: Suite, n: Plain) {
    n.v < Pow256(8) && |n.d| == DIVERSIFIER_LEN && n.rSeed < s.c.f.p
  }

  function PackVd(f: Fp, v: nat, d: seq<byte>): nat {
    f.R(Le(ToLe(v, 8) + d))
  }

  function UnpackVd(m: nat): Option<(nat, seq<byte>)> {
    var b := ToLe(m, 32);
    if exists i :: 19 <= i < 32 && b[i] != 0 then None
    else Some((Le(b[..8]), b[8..19]))
  }

  lemma {:induction false} LeZeros(b: seq<byte>)
    requires forall i :: 0 <= i < |b| ==> b[i] == 0
    ensures Le(b) == 0
  {
    if b != [] {
      LeZeros(b[1..]);
    }
  }

  /** The packed value as an integer: v + 2^64 d, small enough not to wrap. */
  lemma PackValue(f: Fp, v: nat, d: seq<byte>)
    requires Pow256(CHUNK) <= f.p && v < Pow256(8) && |d| == DIVERSIFIER_LEN
    ensures PackVd(f, v, d) == Le(ToLe(v, 8) + d) == v + Pow256(8) * Le(d)
    ensures PackVd(f, v, d) < Pow256(19)
  {
    hide Pow256, ToLe, Le;
    LeConcat(ToLe(v, 8), d);
    LeToLe(v, 8);
    LeBound(ToLe(v, 8) + d);
    Pow256Monotone(19, CHUNK);
    RSmall(f, Le(ToLe(v, 8) + d));
  }

  lemma PackUnpack(f: Fp, v: nat, d: seq<byte>)
    requires Pow256(CHUNK) <= f.p && v < Pow256(8) && |d| == DIVERSIFIER_LEN
    ensures UnpackVd(PackVd(f, v, d)) == Some((v, d))
  {
    hide Pow256, ToLe, Le, PackVd;
    PackValue(f, v, d);
    var raw := ToLe(v, 8) + d;
    var zeros := seq(13, i => 0 as byte);
    LeZeros(zeros);
    LeConcat(raw, zeros);
    assert Pow256(19) * 0 == 0;
    ToLeLe(raw + zeros);
    var b := ToLe(PackVd(f, v, d), 32);
    assert b == raw + zeros;
    assert b[..8] == ToLe(v, 8) && b[8..19] == d;
    LeToLe(v, 8);
  }

  /** Whatever unpacks was packed from what it unpacks to. */
  lemma UnpackPack(f: Fp, m: nat)
    requires f.p <= Pow256(32) && m < f.p && UnpackVd(m).Some?
    ensures var (v, d) := UnpackVd(m).value;
      PackVd(f, v, d) == m && v < Pow256(8) && |d| == DIVERSIFIER_LEN
  {
    hide Pow256, ToLe, Le;
    var b := ToLe(m, 32);
    LeToLe(m, 32);
    LeZeros(b[19..]);
    LeConcat(b[..19], b[19..]);
    assert Pow256(19) * 0 == 0;
    assert b == b[..19] + b[19..];
    LeBound(b[..8]);
    ToLeLe(b[..8]);
    assert b[..8] + b[8..19] == b[..19];
    RSmall(f, m);
  }

  // -------------------------------------------------------------- encryption

  function NoteKey(s: Suite, shared: Point, pkEph: Point): nat {
    s.hash(KDF, [shared.x, shared.y, pkEph.x, pkEph.y])
  }

  function Seal(s: Suite, key: nat, m0: nat, m1: nat): Ciphertext {
    var c0 := s.c.f.Add(m0, s.hash(STREAM, [key, 0]));
    var c1 := s.c.f.Add(m1, s.hash(STREAM, [key, 1]));
    Ciphertext(c0, c1, s.hash(MAC, [key, c0, c1]))
  }

  /** note::encrypt: None when d has no diversified base. */
  function Encrypt(s: Suite, n: Plain, pkD: Point): Option<(Point, Ciphertext)> {
    var g := GD(s, Le(n.d));
    if g.None? then None else
      var e := SkEph(s, n.rSeed);
      var pkEph := Fold(s.c, e, g.value);
      var key := NoteKey(s, Fold(s.c, e, pkD), pkEph);
      Some((pkEph, Seal(s, key, PackVd(s.c.f, n.v, n.d), n.rSeed)))
  }

  function Unseal(s: Suite, key: nat, ct: Ciphertext): Option<Plain> {
    if s.hash(MAC, [key, ct.c0, ct.c1]) != ct.tag then None else
      var m0 := s.c.f.Sub(ct.c0, s.hash(STREAM, [key, 0]));
      var m1 := s.c.f.Sub(ct.c1, s.hash(STREAM, [key, 1]));
      var vd := UnpackVd(m0);
      if vd.None? then None else Some(Plain(vd.value.0, vd.value.1, m1))
  }

  /** Both decryptions, after the note key: the ephemeral key must be the one
      the recovered seed derives. */
  function Open(s: Suite, key: nat, ct: Ciphertext, pkEph: Point): Option<Plain> {
    var n := Unseal(s, key, ct);
    if n.None? then None else
      var g := GD(s, Le(n.value.d));
      if g.None? || Fold(s.c, SkEph(s, n.value.rSeed), g.value) != pkEph then None else n
  }

  function DecryptAsRecipient(s: Suite, ct: Ciphertext, pkEph: Point, skView: nat): Option<Plain> {
    Open(s, NoteKey(s, Fold(s.c, skView, pkEph), pkEph), ct, pkEph)
  }

  function DecryptAsSender(s: Suite, ct: Ciphertext, pkEph: Point, pkD: Point, e: nat): Option<Plain> {
    Open(s, NoteKey(s, Fold(s.c, e, pkD), pkEph), ct, pkEph)
  }

  /** The payment address key of a diversifier under a viewing key. */
  function AddressKey(s: Suite, skView: nat, d: nat): Option<Point> {
    var g := GD(s, d);
    if g.None? then None else Some(Fold(s.c, skView, g.value))
  }

  lemma AddSub(f: Fp, m: nat, k: nat)
    requires m < f.p
    ensures f.Sub(f.Add(m, k), k) == m && f.Add(f.Sub(m, k), k) == m
  {
    hide Fp.R;
    RAdd(f, m + k, k);
    RAdd(f, m - k, k);
    RSmall(f, m);
  }

  /** Sealing and unsealing under one key are inverse on plaintexts. */
  lemma SealUnseal(s: Suite, key: nat, n: Plain, ct: Ciphertext)
    requires ValidSuite(s) && PlainOk(s, n) && CtCanonical(s, ct)
    ensures Unseal(s, key, ct) == Some(n) <==> ct == Seal(s, key, PackVd(s.c.f, n.v, n.d), n.rSeed)
  {
    hide ValidSuite, PackVd, UnpackVd, Fp.Add, Fp.Sub, Pow256;
    Sizes(s);
    var f := s.c.f;
    var k0, k1 := s.hash(STREAM, [key, 0]), s.hash(STREAM, [key, 1]);
    var m := PackVd(f, n.v, n.d);
    PackUnpack(f, n.v, n.d);
    PackValue(f, n.v, n.d);
    PackBelow(f, n.v, n.d);
    AddSub(f, m, k0);
    AddSub(f, n.rSeed, k1);
    AddSub(f, ct.c0, k0);
    AddSub(f, ct.c1, k1);
    if Unseal(s, key, ct) == Some(n) {
      SubBelow(f, ct.c0, k0);
      UnpackPack(f, f.Sub(ct.c0, k0));
    }
  }

  lemma PackBelow(f: Fp, v: nat, d: seq<byte>)
    ensures PackVd(f, v, d) < f.p
  {
  }

  lemma SubBelow(f: Fp, a: nat, b: nat)
    ensures f.Sub(a, b) < f.p
  {
  }

  lemma Sizes(s: Suite)
    requires ValidSuite(s)
    ensures Pow256(CHUNK) <= s.c.f.p <= Pow256(32)
    ensures forall t, xs :: s.hash(t, xs) < s.c.f.p
  {
    hide Pow256;
    Pow256Step(31);
  }

  predicate CtCanonical(s: Suite, ct: Ciphertext) {
    ct.c0 < s.c.f.p && ct.c1 < s.c.f.p && ct.tag < s.c.f.p
  }

  /** A diversified base lies in the subgroup. */
  lemma BaseInSubgroup(s: Suite, d: nat)
    requires ValidSuite(s) && GD(s, d).Some?
    ensures InSubgroup(s.c, GD(s, d).value)
  {
    hide Sum, OnCurve, ScalarModulus, Pow256;
    var h := s.hash(DIVERSIFY, [d]);
    BaseOnCurve(s.c, h);
    var q := BaseRaw(s.c, h);
  }

  /** Sender and recipient agree on the shared point. */
  lemma SharedPoint(s: Suite, d: nat, skView: nat, e: nat)
    requires ValidSuite(s) && GD(s, d).Some?
    ensures Fold(s.c, skView, Fold(s.c, e, GD(s, d).value)) == Fold(s.c, e, Fold(s.c, skView, GD(s, d).value))
  {
    hide Fold, Sum, OnCurve;
    BaseOnCurve(s.c, s.hash(DIVERSIFY, [d]));
    FoldSwap(s.c, skView, e, GD(s, d).value);
  }

  /** decrypt_as_recipient returns n exactly when encrypting n to the
      recipient's own address key gives this ephemeral key and ciphertext. */
  lemma RecipientIff(s: Suite, ct: Ciphertext, pkEph: Point, skView: nat, n: Plain)
    requires ValidSuite(s) && PlainOk(s, n) && CtCanonical(s, ct)
    ensures DecryptAsRecipient(s, ct, pkEph, skView) == Some(n)
       <==> AddressKey(s, skView, Le(n.d)).Some?
            && Encrypt(s, n, AddressKey(s, skView, Le(n.d)).value) == Some((pkEph, ct))
  {
    hide Fold, Sum, OnCurve, Seal, Unseal, ValidSuite, PlainOk, CtCanonical, Le;
    var key := NoteKey(s, Fold(s.c, skView, pkEph), pkEph);
    SealUnseal(s, key, n, ct);
    if GD(s, Le(n.d)).Some? {
      SharedPoint(s, Le(n.d), skView, SkEph(s, n.rSeed));
    }
  }

  /** n encrypted with the ephemeral key its own seed derives, but under the
      shared point a sender computes from the scalar e. */
  function EncryptWith(s: Suite, n: Plain, pkD: Point, e: nat): Option<(Point, Ciphertext)> {
    var g := GD(s, Le(n.d));
    if g.None? then None else
      var pkEph := Fold(s.c, SkEph(s, n.rSeed), g.value);
      Some((pkEph, Seal(s, NoteKey(s, Fold(s.c, e, pkD), pkEph), PackVd(s.c.f, n.v, n.d), n.rSeed)))
  }

  /** decrypt_as_sender, for every scalar e it may be given: it returns n exactly
      when encrypting n under e's shared point gives these; with a scalar that
      yields the seed's own shared point, exactly when encrypting n does. */
  lemma SenderIff(s: Suite, ct: Ciphertext, pkEph: Point, pkD: Point, n: Plain, e: nat)
    requires ValidSuite(s) && PlainOk(s, n) && CtCanonical(s, ct)
    ensures DecryptAsSender(s, ct, pkEph, pkD, e) == Some(n) <==> EncryptWith(s, n, pkD, e) == Some((pkEph, ct))
    ensures Fold(s.c, e, pkD) == Fold(s.c, SkEph(s, n.rSeed), pkD) ==>
      (DecryptAsSender(s, ct, pkEph, pkD, e) == Some(n) <==> Encrypt(s, n, pkD) == Some((pkEph, ct)))
  {
    hide Fold, Sum, OnCurve, Seal, Unseal, ValidSuite, PlainOk, CtCanonical, Le;
    SealUnseal(s, NoteKey(s, Fold(s.c, e, pkD), pkEph), n, ct);
  }

  /** What decryption returns is always a plaintext in range. */
  lemma DecryptsOk(s: Suite, key: nat, ct: Ciphertext, pkEph: Point)
    requires ValidSuite(s) && Open(s, key, ct, pkEph).Some?
    ensures PlainOk(s, Open(s, key, ct, pkEph).value)
  {
    hide ValidSuite, UnpackVd, Fold, Fp.Sub, Pow256, Le;
    Sizes(s);
    var f := s.c.f;
    var m0 := f.Sub(ct.c0, s.hash(STREAM, [key, 0]));
    SubBelow(f, ct.c0, s.hash(STREAM, [key, 0]));
    SubBelow(f, ct.c1, s.hash(STREAM, [key, 1]));
    UnpackPack(f, m0);
  }

  // ----------------------------------------------------- leaves and nullifiers

  function Salt(s: Suite): nat {
    s.c.f.R(Le(CONST_SALT))
  }

  function LeafInputs(s: Suite, hBody: nat, j: nat, pkEph: Point, ct: Ciphertext): seq<nat> {
    [Salt(s), hBody, j, pkEph.x, pkEph.y, ct.c0, ct.c1, ct.tag, 0]
  }

  function CtLeaf(s: Suite, hBody: nat, j: nat, pkEph: Point, ct: Ciphertext): nat {
    s.hash(LEAF, LeafInputs(s, hBody, j, pkEph, ct))
  }

  function MintInputs(v: nat, d: nat, pkD: Point, rSeed: nat): seq<nat> {
    [v, d, pkD.x, pkD.y, rSeed]
  }

  function MintLeaf(s: Suite, v: nat, d: nat, pkD: Point, rSeed: nat): nat {
    s.hash(MINT_LEAF, MintInputs(v, d, pkD, rSeed))
  }

  /** circuit::input_leaf: the leaf a wallet rebuilds for a note it owns. */
  function InputLeaf(s: Suite, sk: nat, isMint: bool, n: Plain, hBody: nat, j: nat): Option<nat> {
    var pkD := AddressKey(s, ViewOf(s, sk), Le(n.d));
    if pkD.None? then None
    else if isMint then Some(MintLeaf(s, n.v, Le(n.d), pkD.value, n.rSeed))
    else
      var e := Encrypt(s, n, pkD.value);
      if e.None? then None else Some(CtLeaf(s, hBody, j, e.value.0, e.value.1))
  }

  /** A note found by decryption rebuilds the leaf it was found under. */
  lemma FoundNoteRebuildsLeaf(s: Suite, sk: nat, ct: Ciphertext, pkEph: Point, hBody: nat, j: nat)
    requires ValidSuite(s) && CtCanonical(s, ct)
    requires DecryptAsRecipient(s, ct, pkEph, ViewOf(s, sk)).Some?
    ensures var n := DecryptAsRecipient(s, ct, pkEph, ViewOf(s, sk)).value;
      InputLeaf(s, sk, false, n, hBody, j) == Some(CtLeaf(s, hBody, j, pkEph, ct))
  {
    hide Fold, Sum, OnCurve, Seal, Unseal, ValidSuite, PlainOk, CtCanonical, Le, Open, Encrypt;
    var skView := ViewOf(s, sk);
    var n := DecryptAsRecipient(s, ct, pkEph, skView).value;
    DecryptsOk(s, NoteKey(s, Fold(s.c, skView, pkEph), pkEph), ct, pkEph);
    RecipientIff(s, ct, pkEph, skView, n);
  }
}
