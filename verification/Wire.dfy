/** Transfer and mint envelopes: canonical serialisation, the strict parser, and
    the byte packing absorbed by the body hash. */
module Wire {
  import opened Bytes
  import opened Field
  import opened Sqrt
  import opened Wrappers
  import opened Edwards

  const N_IN: nat := 2
  const N_OUT: nat := 2
  const MAGIC: seq<byte> := [0x73, 0x62, 0x70]
  const VERSION: byte := 1
  const KIND_TRANSFER: byte := 1
  const KIND_MINT: byte := 2
  const PROOF_LEN: nat := 192
  const CT_OUT_LEN: nat := N_OUT * 64 + 16
  const CIPHERTEXT_LEN: nat := 96
  const DIVERSIFIER_LEN: nat := 11

  datatype Error =
    | UnknownVersion(v: byte) | ReservedByteSet | InputCount | OutputCount | Nullifier | PkEph
    | BadCiphertext | PayoutTooShort | PkD | RSeed | UnknownKind(k: byte) | TrailingBytes
    | NonMinimalCount | NonCanonical | Truncated

  datatype Ciphertext = Ciphertext(c0: nat, c1: nat, tag: nat)

  datatype Payout = Payout(amount: nat, script: seq<byte>)

  datatype Transfer = Transfer(
    hAnchor: nat, nf: seq<nat>, pkEph: seq<Point>, ct: seq<Ciphertext>,
    ctOut: seq<byte>, payout: Option<Payout>, proof: seq<byte>)

  datatype Mint = Mint(d: seq<byte>, pkD: Point, rSeed: nat)

  datatype Envelope = TransferEnvelope(t: Transfer) | MintEnvelope(m: Mint)

  /** The field and the point encoding the envelope is written with. */
  datatype Codec = Codec(f: Fp, enc: Point -> seq<byte>, dec: seq<byte> -> Option<Point>)

  /** Points the codec accepts. */
  predicate Encodable(cd: Codec, q: Point) {
    |cd.enc(q)| == 32 && cd.dec(cd.enc(q)) == Some(q)
  }

  /** A decoder that returns only encodable points. */
  ghost predicate SoundCodec(cd: Codec) {
    && cd.f.p <= Pow256(32)
    && forall b :: cd.dec(b).Some? ==> |b| == 32 && Encodable(cd, cd.dec(b).value)
  }

  /** No two byte strings decode to one point. */
  ghost predicate InjectiveCodec(cd: Codec) {
    forall b :: cd.dec(b).Some? ==> cd.enc(cd.dec(b).value) == b
  }

  // ----------------------------------------------------------- serialisation

  function CompactSizeBytes(n: nat): seq<byte> {
    if n <= 252 then [n]
    else if n <= 0xffff then [0xfd] + ToLe(n, 2)
    else [0xfe] + ToLe(n, 4)
  }

  function Header(kind: byte): seq<byte> {
    MAGIC + [VERSION, kind, 0]
  }

  function FrBytes(x: nat): (b: seq<byte>)
    ensures |b| == 32
  {
    ToLe(x, 32)
  }

  function CtBytes(ct: Ciphertext): (b: seq<byte>)
    ensures |b| == CIPHERTEXT_LEN
  {
    FrBytes(ct.c0) + (FrBytes(ct.c1) + FrBytes(ct.tag))
  }

  function Concat<T>(bytes: T -> seq<byte>, xs: seq<T>): seq<byte> {
    if xs == [] then [] else bytes(xs[0]) + Concat(bytes, xs[1..])
  }

  function PayoutBytes(p: Option<Payout>): seq<byte> {
    match p
    case None => [0]
    case Some(p) => CompactSizeBytes(8 + |p.script|) + (ToLe(p.amount, 8) + p.script)
  }

  /** Everything of a transfer after its header, up to the proof. */
  function BodyTail(cd: Codec, t: Transfer): seq<byte> {
    ToLe(t.hAnchor, 4) + (CompactSizeBytes(N_IN) + (CompactSizeBytes(N_OUT)
      + (Concat(FrBytes, t.nf) + (Concat(cd.enc, t.pkEph) + (Concat(CtBytes, t.ct)
      + (t.ctOut + PayoutBytes(t.payout)))))))
  }

  function BodyBytes(cd: Codec, t: Transfer): seq<byte> {
    Header(KIND_TRANSFER) + BodyTail(cd, t)
  }

  function MintTail(cd: Codec, m: Mint): seq<byte> {
    m.d + (cd.enc(m.pkD) + FrBytes(m.rSeed))
  }

  function ToBytes(cd: Codec, e: Envelope): seq<byte> {
    match e
    case TransferEnvelope(t) => BodyBytes(cd, t) + t.proof
    case MintEnvelope(m) => Header(KIND_MINT) + MintTail(cd, m)
  }

  predicate FrOk(cd: Codec, x: nat) {
    x < cd.f.p
  }

  predicate CtOk(cd: Codec, ct: Ciphertext) {
    ct.c0 < cd.f.p && ct.c1 < cd.f.p && ct.tag < cd.f.p
  }

  predicate PayoutOk(p: Option<Payout>) {
    p.None? || (p.value.amount < Pow256(8) && |p.value.script| >= 1 && 8 + |p.value.script| < Pow256(4))
  }

  /** The envelopes the wire format can carry. */
  predicate WellFormed(cd: Codec, e: Envelope) {
    match e
    case TransferEnvelope(t) =>
      && t.hAnchor < Pow256(4) && |t.nf| == N_IN && |t.pkEph| == N_OUT && |t.ct| == N_OUT
      && (forall x :: x in t.nf ==> FrOk(cd, x)) && (forall q :: q in t.pkEph ==> Encodable(cd, q))
      && (forall x :: x in t.ct ==> CtOk(cd, x))
      && |t.ctOut| == CT_OUT_LEN && PayoutOk(t.payout) && |t.proof| == PROOF_LEN
    case MintEnvelope(m) => |m.d| == DIVERSIFIER_LEN && Encodable(cd, m.pkD) && FrOk(cd, m.rSeed)
  }

  // --------------------------------------------------- the parser, as a value

  /** A value read and the bytes left, or why reading failed. */
  datatype Read<T> = Got(value: T, rest: seq<byte>) | Bad(error: Error) {
    predicate IsFailure() { Bad? }
    function PropagateFailure<U>(): Read<U>
      requires Bad?
    {
      Bad(error)
    }
    function Extract(): (T, seq<byte>)
      requires Got?
    {
      (value, rest)
    }
  }

  function Take(b: seq<byte>, n: nat): Read<seq<byte>> {
    if n > |b| then Bad(Truncated) else Got(b[..n], b[n..])
  }

  function CompactSize(b: seq<byte>): Read<nat> {
    var (first, b) :- Take(b, 1);
    if first[0] == 0xff then Bad(NonMinimalCount)
    else if first[0] == 0xfe then
      var (raw, b) :- Take(b, 4);
      if Le(raw) < 0x1_0000 then Bad(NonMinimalCount) else Got(Le(raw), b)
    else if first[0] == 0xfd then
      var (raw, b) :- Take(b, 2);
      if Le(raw) < 253 then Bad(NonMinimalCount) else Got(Le(raw), b)
    else Got(first[0], b)
  }

  /** fr_from_bytes: reduce, and accept only if nothing was reduced away. */
  function FrFromBytes(f: Fp, b: seq<byte>): Option<nat> {
    if |b| != 32 then None else
      var candidate := f.R(Le(b));
      if FrBytes(candidate) == b then Some(candidate) else None
  }

  function ReadFr(cd: Codec, err: Error, b: seq<byte>): Read<nat> {
    var (raw, b) :- Take(b, 32);
    var x := FrFromBytes(cd.f, raw);
    if x.None? then Bad(err) else Got(x.value, b)
  }

  function ReadPoint(cd: Codec, err: Error, b: seq<byte>): Read<Point> {
    var (raw, b) :- Take(b, 32);
    var q := cd.dec(raw);
    if q.None? then Bad(err) else Got(q.value, b)
  }

  function CtFromBytes(cd: Codec, b: seq<byte>): Option<Ciphertext> {
    if |b| != CIPHERTEXT_LEN then None else
      var c0, c1, tag := FrFromBytes(cd.f, b[..32]), FrFromBytes(cd.f, b[32..64]), FrFromBytes(cd.f, b[64..]);
      if c0.None? || c1.None? || tag.None? then None else Some(Ciphertext(c0.value, c1.value, tag.value))
  }

  function ReadCt(cd: Codec, b: seq<byte>): Read<Ciphertext> {
    var (raw, b) :- Take(b, CIPHERTEXT_LEN);
    var x := CtFromBytes(cd, raw);
    if x.None? then Bad(BadCiphertext) else Got(x.value, b)
  }

  function ReadMany<T>(item: seq<byte> -> Read<T>, n: nat, b: seq<byte>): (r: Read<seq<T>>)
    ensures r.Got? ==> |r.value| == n
  {
    if n == 0 then Got([], b) else
      var (x, b) :- item(b);
      var (xs, b) :- ReadMany(item, n - 1, b);
      Got([x] + xs, b)
  }

  function ReadPayout(b: seq<byte>): Read<Option<Payout>> {
    var (plen, b) :- CompactSize(b);
    if plen == 0 then Got(None, b)
    else if plen <= 8 then Bad(PayoutTooShort)
    else
      var (amount, b) :- Take(b, 8);
      var (script, b) :- Take(b, plen - 8);
      Got(Some(Payout(Le(amount), script)), b)
  }

  function FrReader(cd: Codec, err: Error): seq<byte> -> Read<nat> {
    b => ReadFr(cd, err, b)
  }

  function PointReader(cd: Codec, err: Error): seq<byte> -> Read<Point> {
    b => ReadPoint(cd, err, b)
  }

  function CtReader(cd: Codec): seq<byte> -> Read<Ciphertext> {
    b => ReadCt(cd, b)
  }

  function ReadTransfer(cd: Codec, b: seq<byte>): Read<Transfer> {
    var (anchor, b) :- Take(b, 4);
    var (nIn, b) :- CompactSize(b);
    if nIn != N_IN then Bad(InputCount) else
      var (nOut, b) :- CompactSize(b);
      if nOut != N_OUT then Bad(OutputCount) else
        var (nf, b) :- ReadMany(FrReader(cd, Nullifier), N_IN, b);
        var (pkEph, b) :- ReadMany(PointReader(cd, PkEph), N_OUT, b);
        var (ct, b) :- ReadMany(CtReader(cd), N_OUT, b);
        var (ctOut, b) :- Take(b, CT_OUT_LEN);
        var (payout, b) :- ReadPayout(b);
        var (proof, b) :- Take(b, PROOF_LEN);
        Got(Transfer(Le(anchor), nf, pkEph, ct, ctOut, payout, proof), b)
  }

  function ReadMint(cd: Codec, b: seq<byte>): Read<Mint> {
    var (d, b) :- Take(b, DIVERSIFIER_LEN);
    var (pkD, b) :- ReadPoint(cd, PkD, b);
    var (rSeed, b) :- ReadFr(cd, RSeed, b);
    Got(Mint(d, pkD, rSeed), b)
  }

  /** The structural part of the parser: everything but the two final checks. */
  function ReadEnvelope(cd: Codec, b: seq<byte>): Read<Envelope>
    requires |b| >= 6
  {
    if b[4] == KIND_TRANSFER then
      var (t, b) :- ReadTransfer(cd, b[6..]);
      Got(TransferEnvelope(t), b)
    else if b[4] == KIND_MINT then
      var (m, b) :- ReadMint(cd, b[6..]);
      Got(MintEnvelope(m), b)
    else Bad(UnknownKind(b[4]))
  }

  datatype Outcome = NotEnvelope | Accepted(e: Envelope) | Rejected(error: Error)

  /** Parsing up to, not including, the re-serialisation check. */
  function ParseStructure(cd: Codec, b: seq<byte>): Outcome {
    if |b| < 6 || b[..3] != MAGIC then NotEnvelope
    else if b[3] != VERSION then Rejected(UnknownVersion(b[3]))
    else if b[5] != 0 then Rejected(ReservedByteSet)
    else match ReadEnvelope(cd, b)
      case Bad(err) => Rejected(err)
      case Got(e, rest) => if rest != [] then Rejected(TrailingBytes) else Accepted(e)
  }

  function Parse(cd: Codec, b: seq<byte>): Outcome {
    var r := ParseStructure(cd, b);
    if r.Accepted? && ToBytes(cd, r.e) != b then Rejected(NonCanonical) else r
  }

  // -------------------------------------------- reading inverts writing, field by field

  lemma TakePrefix(s: seq<byte>, rest: seq<byte>)
    ensures Take(s + rest, |s|) == Got(s, rest)
  {
  }

  lemma CompactSizeRead(n: nat, rest: seq<byte>)
    requires n < Pow256(4)
    ensures CompactSize(CompactSizeBytes(n) + rest) == Got(n, rest)
  {
    hide ToLe, Le, Pow256;
    SmallPowers();
    var b := CompactSizeBytes(n) + rest;
    if n <= 252 {
      assert b[1..] == rest;
    } else if n <= 0xffff {
      LeToLe(n, 2);
      assert b[1..] == ToLe(n, 2) + rest;
      TakePrefix(ToLe(n, 2), rest);
    } else {
      LeToLe(n, 4);
      assert b[1..] == ToLe(n, 4) + rest;
      TakePrefix(ToLe(n, 4), rest);
    }
  }

  lemma CompactSizeOnly(b: seq<byte>)
    requires CompactSize(b).Got?
    ensures var r := CompactSize(b); b == CompactSizeBytes(r.value) + r.rest && r.value < Pow256(4)
  {
    hide ToLe, Le, Pow256;
    SmallPowers();
    var tail := b[1..];
    assert b == [b[0]] + tail;
    if b[0] == 0xfe {
      var raw := tail[..4];
      LeBound(raw);
      ToLeLe(raw);
      assert tail == raw + tail[4..];
    } else if b[0] == 0xfd {
      var raw := tail[..2];
      LeBound(raw);
      ToLeLe(raw);
      assert tail == raw + tail[2..];
    }
  }

  lemma FrRoundTrip(f: Fp, x: nat)
    requires x < f.p <= Pow256(32)
    ensures FrFromBytes(f, FrBytes(x)) == Some(x)
  {
    hide ToLe, Le, Pow256;
    LeToLe(x, 32);
    RSmall(f, x);
  }

  /** The canonical check accepts exactly the integers below the modulus. */
  lemma FrFromBytesIff(f: Fp, b: seq<byte>)
    requires |b| == 32 && f.p <= Pow256(32)
    ensures FrFromBytes(f, b).Some? <==> Le(b) < f.p
    ensures FrFromBytes(f, b).Some? ==> FrFromBytes(f, b).value == Le(b) && FrBytes(Le(b)) == b
  {
    hide ToLe, Le, Pow256;
    ToLeLe(b);
    var x := f.R(Le(b));
    if FrBytes(x) == b {
      LeToLe(x, 32);
    }
    if Le(b) < f.p {
      RSmall(f, Le(b));
    }
  }

  lemma CtRoundTrip(cd: Codec, ct: Ciphertext)
    requires CtOk(cd, ct) && cd.f.p <= Pow256(32)
    ensures CtFromBytes(cd, CtBytes(ct)) == Some(ct)
  {
    hide FrFromBytes, Pow256, ToLe;
    var b := CtBytes(ct);
    assert b[..32] == FrBytes(ct.c0) && b[32..64] == FrBytes(ct.c1) && b[64..] == FrBytes(ct.tag);
    FrRoundTrip(cd.f, ct.c0);
    FrRoundTrip(cd.f, ct.c1);
    FrRoundTrip(cd.f, ct.tag);
  }

  lemma CtOnly(cd: Codec, b: seq<byte>)
    requires CtFromBytes(cd, b).Some? && cd.f.p <= Pow256(32)
    ensures CtOk(cd, CtFromBytes(cd, b).value) && CtBytes(CtFromBytes(cd, b).value) == b
  {
    hide FrFromBytes, Pow256, ToLe, Le;
    FrFromBytesIff(cd.f, b[..32]);
    FrFromBytesIff(cd.f, b[32..64]);
    FrFromBytesIff(cd.f, b[64..]);
    assert b == b[..32] + (b[32..64] + b[64..]);
  }

  /** item reads back exactly what bytes writes, for the values ok allows. */
  ghost predicate Inverts<T(!new)>(item: seq<byte> -> Read<T>, bytes: T -> seq<byte>, ok: T -> bool) {
    forall x, rest :: ok(x) ==> item(bytes(x) + rest) == Got(x, rest)
  }

  /** item accepts nothing but what bytes writes. */
  ghost predicate OnlyReads<T(!new)>(item: seq<byte> -> Read<T>, bytes: T -> seq<byte>, ok: T -> bool) {
    forall b :: item(b).Got? ==> ok(item(b).value) && b == bytes(item(b).value) + item(b).rest
  }

  lemma {:induction false} ManyRead<T(!new)>(item: seq<byte> -> Read<T>, bytes: T -> seq<byte>, ok: T -> bool,
                                             xs: seq<T>, rest: seq<byte>)
    requires Inverts(item, bytes, ok) && forall x :: x in xs ==> ok(x)
    ensures ReadMany(item, |xs|, Concat(bytes, xs) + rest) == Got(xs, rest)
  {
    if xs != [] {
      var tail := Concat(bytes, xs[1..]) + rest;
      assert Concat(bytes, xs) + rest == bytes(xs[0]) + tail;
      ManyRead(item, bytes, ok, xs[1..], rest);
      assert [xs[0]] + xs[1..] == xs;
    } else {
      assert Concat(bytes, xs) + rest == rest;
    }
  }

  lemma {:induction false} ManyOnly<T(!new)>(item: seq<byte> -> Read<T>, bytes: T -> seq<byte>, ok: T -> bool,
                                             n: nat, b: seq<byte>)
    requires OnlyReads(item, bytes, ok) && ReadMany(item, n, b).Got?
    ensures var r := ReadMany(item, n, b);
      (forall x :: x in r.value ==> ok(x)) && b == Concat(bytes, r.value) + r.rest
  {
    if n > 0 {
      var one := item(b);
      ManyOnly(item, bytes, ok, n - 1, one.rest);
      var r, r' := ReadMany(item, n, b), ReadMany(item, n - 1, one.rest);
      assert r.value[1..] == r'.value;
      assert b == bytes(one.value) + (Concat(bytes, r'.value) + r.rest);
    }
  }

  lemma FrInverts(cd: Codec, err: Error)
    requires cd.f.p <= Pow256(32)
    ensures Inverts(FrReader(cd, err), FrBytes, x => FrOk(cd, x))
    ensures OnlyReads(FrReader(cd, err), FrBytes, x => FrOk(cd, x))
  {
    hide FrFromBytes, Pow256, ToLe, Le;
    forall x: nat, rest | FrOk(cd, x) ensures ReadFr(cd, err, FrBytes(x) + rest) == Got(x, rest) {
      TakePrefix(FrBytes(x), rest);
      FrRoundTrip(cd.f, x);
    }
    forall b | ReadFr(cd, err, b).Got?
      ensures FrOk(cd, ReadFr(cd, err, b).value) && b == FrBytes(ReadFr(cd, err, b).value) + ReadFr(cd, err, b).rest
    {
      FrFromBytesIff(cd.f, b[..32]);
      assert b == b[..32] + b[32..];
    }
  }

  lemma PointInverts(cd: Codec, err: Error)
    ensures Inverts(PointReader(cd, err), cd.enc, q => Encodable(cd, q))
    ensures SoundCodec(cd) && InjectiveCodec(cd) ==> OnlyReads(PointReader(cd, err), cd.enc, q => Encodable(cd, q))
  {
    hide Pow256;
    forall q: Point, rest | Encodable(cd, q) ensures ReadPoint(cd, err, cd.enc(q) + rest) == Got(q, rest) {
      TakePrefix(cd.enc(q), rest);
    }
    if SoundCodec(cd) && InjectiveCodec(cd) {
      forall b | ReadPoint(cd, err, b).Got?
        ensures Encodable(cd, ReadPoint(cd, err, b).value)
        ensures b == cd.enc(ReadPoint(cd, err, b).value) + ReadPoint(cd, err, b).rest
      {
        assert b == b[..32] + b[32..];
      }
    }
  }

  lemma CtInverts(cd: Codec)
    requires cd.f.p <= Pow256(32)
    ensures Inverts(CtReader(cd), CtBytes, x => CtOk(cd, x))
    ensures OnlyReads(CtReader(cd), CtBytes, x => CtOk(cd, x))
  {
    hide CtFromBytes, Pow256, ToLe, Le;
    forall x: Ciphertext, rest | CtOk(cd, x) ensures ReadCt(cd, CtBytes(x) + rest) == Got(x, rest) {
      TakePrefix(CtBytes(x), rest);
      CtRoundTrip(cd, x);
    }
    forall b | ReadCt(cd, b).Got?
      ensures CtOk(cd, ReadCt(cd, b).value) && b == CtBytes(ReadCt(cd, b).value) + ReadCt(cd, b).rest
    {
      CtOnly(cd, b[..CIPHERTEXT_LEN]);
      assert b == b[..CIPHERTEXT_LEN] + b[CIPHERTEXT_LEN..];
    }
  }

  lemma PayoutRead(p: Option<Payout>, rest: seq<byte>)
    requires PayoutOk(p)
    ensures ReadPayout(PayoutBytes(p) + rest) == Got(p, rest)
  {
    hide CompactSize, CompactSizeBytes, ToLe, Le, Pow256;
    match p {
      case None =>
        SmallPowers();
        CompactSizeRead(0, rest);
        CompactZero();
      case Some(v) =>
        var tail := v.script + rest;
        assert PayoutBytes(p) + rest == CompactSizeBytes(8 + |v.script|) + (ToLe(v.amount, 8) + tail);
        CompactSizeRead(8 + |v.script|, ToLe(v.amount, 8) + tail);
        TakePrefix(ToLe(v.amount, 8), tail);
        LeToLe(v.amount, 8);
        TakePrefix(v.script, rest);
    }
  }

  lemma CompactZero()
    ensures CompactSizeBytes(0) == [0]
  {
  }

  lemma PayoutOnly(b: seq<byte>)
    requires ReadPayout(b).Got?
    ensures var r := ReadPayout(b); PayoutOk(r.value) && b == PayoutBytes(r.value) + r.rest
  {
    hide CompactSize, CompactSizeBytes, ToLe, Le, Pow256;
    CompactSizeOnly(b);
    CompactZero();
    var r := CompactSize(b);
    if r.value != 0 {
      var amount := r.rest[..8];
      LeBound(amount);
      ToLeLe(amount);
      var after := r.rest[8..];
      var n := r.value - 8;
      assert after == after[..n] + after[n..];
      assert r.rest == amount + (after[..n] + after[n..]);
    }
  }
}
