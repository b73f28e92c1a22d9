/** The wire format's laws: parsing inverts serialisation, accepts nothing else,
    and no accepted envelope is a proper prefix of another. */
module WireLaws {
  import opened Bytes
  import opened Field
  import opened Sqrt
  import opened Wrappers
  import opened Edwards
  import opened Wire

  /** A transfer after its header: body tail, then proof. */
  function TransferTail(cd: Codec, t: Transfer): seq<byte> {
    BodyTail(cd, t) + t.proof
  }

  /** Serialised, the fields in the order the reader takes them. */
  function Fields(cd: Codec, t: Transfer, rest: seq<byte>): seq<byte> {
    ToLe(t.hAnchor, 4) + (CompactSizeBytes(N_IN) + (CompactSizeBytes(N_OUT)
      + (Concat(FrBytes, t.nf) + (Concat(cd.enc, t.pkEph) + (Concat(CtBytes, t.ct)
      + (t.ctOut + (PayoutBytes(t.payout) + (t.proof + rest))))))))
  }

  lemma TailIsFields(cd: Codec, t: Transfer, rest: seq<byte>)
    ensures TransferTail(cd, t) + rest == Fields(cd, t, rest)
  {
    hide ToLe, CompactSizeBytes, PayoutBytes;
    var a, b, c := ToLe(t.hAnchor, 4), CompactSizeBytes(N_IN), CompactSizeBytes(N_OUT);
    var d, e, g := Concat(FrBytes, t.nf), Concat(cd.enc, t.pkEph), Concat(CtBytes, t.ct);
    Regroup4(t.ctOut, PayoutBytes(t.payout), t.proof, rest);
    Regroup4(g, t.ctOut + PayoutBytes(t.payout), t.proof, rest);
    Regroup4(e, g + (t.ctOut + PayoutBytes(t.payout)), t.proof, rest);
    Regroup4(d, e + (g + (t.ctOut + PayoutBytes(t.payout))), t.proof, rest);
    Regroup4(c, d + (e + (g + (t.ctOut + PayoutBytes(t.payout)))), t.proof, rest);
    Regroup4(b, c + (d + (e + (g + (t.ctOut + PayoutBytes(t.payout))))), t.proof, rest);
    Regroup4(a, b + (c + (d + (e + (g + (t.ctOut + PayoutBytes(t.payout)))))), t.proof, rest);
  }

  lemma Regroup4(a: seq<byte>, b: seq<byte>, p: seq<byte>, r: seq<byte>)
    ensures ((a + b) + p) + r == a + ((b + p) + r)
    ensures (b + p) + r == b + (p + r)
  {
  }

  /** What is read once the fields before the payout have been taken. */
  function FromPayout(t: Transfer, b: seq<byte>): Read<Transfer> {
    var (payout, b) :- ReadPayout(b);
    var (proof, b) :- Take(b, PROOF_LEN);
    Got(t.(payout := payout, proof := proof), b)
  }

  /** Reading a serialised transfer takes its fields up to the payout. */
  lemma FieldsRead(cd: Codec, t: Transfer, rest: seq<byte>)
    requires cd.f.p <= Pow256(32) && WellFormed(cd, TransferEnvelope(t.(payout := None)))
    ensures ReadTransfer(cd, TransferTail(cd, t) + rest) == FromPayout(t, PayoutBytes(t.payout) + (t.proof + rest))
  {
    hide ToLe, Le, Pow256, CompactSize, CompactSizeBytes, ReadPayout, PayoutBytes, Take, ReadMany, Concat;
    TailIsFields(cd, t, rest);
    var r7 := PayoutBytes(t.payout) + (t.proof + rest);
    var r6 := t.ctOut + r7;
    var r5 := Concat(CtBytes, t.ct) + r6;
    var r4 := Concat(cd.enc, t.pkEph) + r5;
    var r3 := Concat(FrBytes, t.nf) + r4;
    var r2 := CompactSizeBytes(N_OUT) + r3;
    var r1 := CompactSizeBytes(N_IN) + r2;
    TakePrefix(ToLe(t.hAnchor, 4), r1);
    LeToLe(t.hAnchor, 4);
    SmallPowers();
    CompactSizeRead(N_IN, r2);
    CompactSizeRead(N_OUT, r3);
    FrInverts(cd, Nullifier);
    ManyRead(FrReader(cd, Nullifier), FrBytes, x => FrOk(cd, x), t.nf, r4);
    PointInverts(cd, PkEph);
    ManyRead(PointReader(cd, PkEph), cd.enc, q => Encodable(cd, q), t.pkEph, r5);
    CtInverts(cd);
    ManyRead(CtReader(cd), CtBytes, x => CtOk(cd, x), t.ct, r6);
    TakePrefix(t.ctOut, r7);
  }

  /** Reading a serialised transfer gives it back and leaves the rest. */
  lemma TransferRead(cd: Codec, t: Transfer, rest: seq<byte>)
    requires cd.f.p <= Pow256(32) && WellFormed(cd, TransferEnvelope(t))
    ensures ReadTransfer(cd, TransferTail(cd, t) + rest) == Got(t, rest)
  {
    hide ToLe, Le, Pow256, ReadTransfer, TransferTail, ReadPayout, PayoutBytes, Take;
    FieldsRead(cd, t, rest);
    PayoutRead(t.payout, t.proof + rest);
    TakePrefix(t.proof, rest);
  }

  lemma TakeOnly(b: seq<byte>, n: nat)
    requires Take(b, n).Got?
    ensures |Take(b, n).value| == n && b == Take(b, n).value + Take(b, n).rest
  {
  }

  /** With an injective point codec a transfer is read only from its own bytes. */
  lemma TransferOnly(cd: Codec, b: seq<byte>)
    requires SoundCodec(cd) && InjectiveCodec(cd) && ReadTransfer(cd, b).Got?
    ensures var r := ReadTransfer(cd, b);
      WellFormed(cd, TransferEnvelope(r.value)) && b == TransferTail(cd, r.value) + r.rest
  {
    hide ToLe, Le, Pow256, CompactSize, CompactSizeBytes, ReadPayout, PayoutBytes, Take, ReadMany, Concat, PayoutOk;
    var t, rest := ReadTransfer(cd, b).value, ReadTransfer(cd, b).rest;
    TailIsFields(cd, t, rest);
    TakeOnly(b, 4);
    var a := Take(b, 4);
    LeBound(a.value);
    ToLeLe(a.value);
    CompactSizeOnly(a.rest);
    var b1 := CompactSize(a.rest).rest;
    CompactSizeOnly(b1);
    var b2 := CompactSize(b1).rest;
    FrInverts(cd, Nullifier);
    ManyOnly(FrReader(cd, Nullifier), FrBytes, x => FrOk(cd, x), N_IN, b2);
    var b3 := ReadMany(FrReader(cd, Nullifier), N_IN, b2).rest;
    PointInverts(cd, PkEph);
    ManyOnly(PointReader(cd, PkEph), cd.enc, q => Encodable(cd, q), N_OUT, b3);
    var b4 := ReadMany(PointReader(cd, PkEph), N_OUT, b3).rest;
    CtInverts(cd);
    ManyOnly(CtReader(cd), CtBytes, x => CtOk(cd, x), N_OUT, b4);
    var b5 := ReadMany(CtReader(cd), N_OUT, b4).rest;
    TakeOnly(b5, CT_OUT_LEN);
    var b6 := Take(b5, CT_OUT_LEN).rest;
    PayoutOnly(b6);
    var b7 := ReadPayout(b6).rest;
    TakeOnly(b7, PROOF_LEN);
  }

  /** item yields only values ok allows. */
  ghost predicate Yields<T(!new)>(item: seq<byte> -> Read<T>, ok: T -> bool) {
    forall b :: item(b).Got? ==> ok(item(b).value)
  }

  lemma {:induction false} ManyYields<T(!new)>(item: seq<byte> -> Read<T>, ok: T -> bool, n: nat, b: seq<byte>)
    requires Yields(item, ok) && ReadMany(item, n, b).Got?
    ensures forall x :: x in ReadMany(item, n, b).value ==> ok(x)
  {
    if n > 0 {
      ManyYields(item, ok, n - 1, item(b).rest);
    }
  }

  /** Whatever the reader returns is well formed. */
  lemma TransferYields(cd: Codec, b: seq<byte>)
    requires SoundCodec(cd) && ReadTransfer(cd, b).Got?
    ensures WellFormed(cd, TransferEnvelope(ReadTransfer(cd, b).value))
  {
    hide ToLe, Le, Pow256, CompactSize, CompactSizeBytes, ReadPayout, PayoutBytes, Take, ReadMany, PayoutOk;
    TakeOnly(b, 4);
    var a := Take(b, 4);
    LeBound(a.value);
    var b1 := CompactSize(a.rest).rest;
    var b2 := CompactSize(b1).rest;
    FrInverts(cd, Nullifier);
    ManyYields(FrReader(cd, Nullifier), x => FrOk(cd, x), N_IN, b2);
    var b3 := ReadMany(FrReader(cd, Nullifier), N_IN, b2).rest;
    PointYields(cd, PkEph);
    ManyYields(PointReader(cd, PkEph), q => Encodable(cd, q), N_OUT, b3);
    var b4 := ReadMany(PointReader(cd, PkEph), N_OUT, b3).rest;
    CtInverts(cd);
    ManyYields(CtReader(cd), x => CtOk(cd, x), N_OUT, b4);
    var b5 := ReadMany(CtReader(cd), N_OUT, b4).rest;
    TakeOnly(b5, CT_OUT_LEN);
    var b6 := Take(b5, CT_OUT_LEN).rest;
    PayoutOnly(b6);
    TakeOnly(ReadPayout(b6).rest, PROOF_LEN);
  }

  lemma PointYields(cd: Codec, err: Error)
    requires SoundCodec(cd)
    ensures Yields(PointReader(cd, err), q => Encodable(cd, q))
  {
    hide Pow256;
  }

  // -------------------------------------------------------------------- mints

  lemma MintRead(cd: Codec, m: Mint, rest: seq<byte>)
    requires cd.f.p <= Pow256(32) && WellFormed(cd, MintEnvelope(m))
    ensures ReadMint(cd, MintTail(cd, m) + rest) == Got(m, rest)
  {
    hide ToLe, Le, Pow256, FrFromBytes;
    var r2 := FrBytes(m.rSeed) + rest;
    var r1 := cd.enc(m.pkD) + r2;
    assert MintTail(cd, m) + rest == m.d + r1;
    TakePrefix(m.d, r1);
    TakePrefix(cd.enc(m.pkD), r2);
    TakePrefix(FrBytes(m.rSeed), rest);
    FrRoundTrip(cd.f, m.rSeed);
  }

  lemma MintOnly(cd: Codec, b: seq<byte>)
    requires SoundCodec(cd) && ReadMint(cd, b).Got?
    ensures WellFormed(cd, MintEnvelope(ReadMint(cd, b).value))
    ensures InjectiveCodec(cd) ==> b == MintTail(cd, ReadMint(cd, b).value) + ReadMint(cd, b).rest
  {
    hide ToLe, Le, Pow256, FrFromBytes;
    var b1 := b[DIVERSIFIER_LEN..];
    var b2 := b1[32..];
    FrFromBytesIff(cd.f, b2[..32]);
    assert b == b[..DIVERSIFIER_LEN] + (b1[..32] + (b2[..32] + b2[32..]));
  }

  // ------------------------------------------------------------- the envelope

  lemma HeaderSplit(kind: byte, tail: seq<byte>)
    ensures var b := Header(kind) + tail;
      |b| >= 6 && b[..3] == MAGIC && b[3] == VERSION && b[4] == kind && b[5] == 0 && b[6..] == tail
  {
  }

  lemma HeaderJoin(b: seq<byte>)
    requires |b| >= 6 && b[..3] == MAGIC && b[3] == VERSION && b[5] == 0
    ensures b == Header(b[4]) + b[6..]
  {
    assert b[..3] + b[3..6] + b[6..] == b;
    assert b[3..6] == [VERSION, b[4], 0];
  }

  /** Reading e's bytes followed by anything gives e and leaves the rest. */
  lemma EnvelopeRead(cd: Codec, e: Envelope, rest: seq<byte>)
    requires cd.f.p <= Pow256(32) && WellFormed(cd, e)
    ensures var b := ToBytes(cd, e) + rest;
      && |b| >= 6 && b[..3] == MAGIC && b[3] == VERSION && b[5] == 0
      && ReadEnvelope(cd, b) == Got(e, rest)
  {
    hide Pow256, ReadTransfer, ReadMint, BodyTail, MintTail;
    match e {
      case TransferEnvelope(t) =>
        HeaderSplit(KIND_TRANSFER, TransferTail(cd, t) + rest);
        assert ToBytes(cd, e) + rest == Header(KIND_TRANSFER) + (TransferTail(cd, t) + rest);
        TransferRead(cd, t, rest);
      case MintEnvelope(m) =>
        HeaderSplit(KIND_MINT, MintTail(cd, m) + rest);
        assert ToBytes(cd, e) + rest == Header(KIND_MINT) + (MintTail(cd, m) + rest);
        MintRead(cd, m, rest);
    }
  }

  /** Round trip: what was serialised parses back, with both final checks met. */
  lemma RoundTrip(cd: Codec, e: Envelope)
    requires cd.f.p <= Pow256(32) && WellFormed(cd, e)
    ensures Parse(cd, ToBytes(cd, e)) == Accepted(e)
  {
    hide ReadEnvelope, ToBytes, Pow256;
    EnvelopeRead(cd, e, []);
    assert ToBytes(cd, e) + [] == ToBytes(cd, e);
  }

  /** A payout with an empty script serialises to what the parser refuses: a
      transfer otherwise well formed round-trips exactly when its payout is
      absent or its script is not empty. */
  lemma EmptyScriptRefused(cd: Codec, t: Transfer)
    requires cd.f.p <= Pow256(32) && WellFormed(cd, TransferEnvelope(t.(payout := None)))
    requires t.payout.Some? ==> t.payout.value.amount < Pow256(8) && 8 + |t.payout.value.script| < Pow256(4)
    ensures t.payout.Some? && t.payout.value.script == [] ==>
      Parse(cd, ToBytes(cd, TransferEnvelope(t))) == Rejected(PayoutTooShort)
    ensures Parse(cd, ToBytes(cd, TransferEnvelope(t))) == Accepted(TransferEnvelope(t)) <==>
      t.payout.None? || t.payout.value.script != []
  {
    hide ToLe, Le, Pow256, ReadTransfer, BodyTail, CompactSize, CompactSizeBytes, Take;
    if t.payout.Some? && t.payout.value.script == [] {
      var rest := (ToLe(t.payout.value.amount, 8) + []) + (t.proof + []);
      FieldsRead(cd, t, []);
      SmallPowers();
      CompactSizeRead(8, rest);
      assert PayoutBytes(t.payout) + (t.proof + []) == CompactSizeBytes(8) + rest;
      assert TransferTail(cd, t) + [] == TransferTail(cd, t);
      HeaderSplit(KIND_TRANSFER, TransferTail(cd, t));
      assert ToBytes(cd, TransferEnvelope(t)) == Header(KIND_TRANSFER) + TransferTail(cd, t);
    } else {
      RoundTrip(cd, TransferEnvelope(t));
    }
  }

  lemma StructureYields(cd: Codec, b: seq<byte>)
    requires SoundCodec(cd) && ParseStructure(cd, b).Accepted?
    ensures WellFormed(cd, ParseStructure(cd, b).e)
  {
    hide ReadTransfer, ReadMint, Pow256, WellFormed;
    if b[4] == KIND_TRANSFER {
      TransferYields(cd, b[6..]);
    } else {
      MintOnly(cd, b[6..]);
    }
  }

  /** The parser accepts exactly the serialisations of well-formed envelopes. */
  lemma ParseIff(cd: Codec, b: seq<byte>, e: Envelope)
    requires SoundCodec(cd)
    ensures Parse(cd, b) == Accepted(e) <==> WellFormed(cd, e) && ToBytes(cd, e) == b
  {
    hide ParseStructure, ToBytes, WellFormed, Pow256;
    if Parse(cd, b) == Accepted(e) {
      StructureYields(cd, b);
    }
    if WellFormed(cd, e) && ToBytes(cd, e) == b {
      RoundTrip(cd, e);
    }
  }

  /** Self-delimitation: an accepted envelope followed by anything is rejected
      for its trailing bytes, so none is a proper prefix of another. */
  lemma Delimited(cd: Codec, b: seq<byte>, more: seq<byte>)
    requires SoundCodec(cd) && Parse(cd, b).Accepted? && more != []
    ensures Parse(cd, b + more) == Rejected(TrailingBytes)
  {
    hide ReadEnvelope, ToBytes, WellFormed, Pow256;
    var e := Parse(cd, b).e;
    ParseIff(cd, b, e);
    EnvelopeRead(cd, e, more);
  }

  /** With an injective point codec the structural checks alone are canonical:
      the final re-serialisation check never fires. */
  lemma StructureIsCanonical(cd: Codec, b: seq<byte>)
    requires SoundCodec(cd) && InjectiveCodec(cd) && ParseStructure(cd, b).Accepted?
    ensures ToBytes(cd, ParseStructure(cd, b).e) == b
    ensures Parse(cd, b) == ParseStructure(cd, b)
  {
    hide ReadTransfer, ReadMint, Pow256, BodyTail, MintTail, WellFormed;
    HeaderJoin(b);
    if b[4] == KIND_TRANSFER {
      TransferOnly(cd, b[6..]);
      var t := ReadTransfer(cd, b[6..]).value;
      assert TransferTail(cd, t) + [] == TransferTail(cd, t);
      assert Header(KIND_TRANSFER) + (BodyTail(cd, t) + t.proof) == Header(KIND_TRANSFER) + BodyTail(cd, t) + t.proof;
    } else {
      MintOnly(cd, b[6..]);
      assert MintTail(cd, ReadMint(cd, b[6..]).value) + [] == MintTail(cd, ReadMint(cd, b[6..]).value);
    }
  }

  lemma TwoStringsTwoEnvelopes(cd: Codec, b: seq<byte>, b': seq<byte>)
    requires SoundCodec(cd) && InjectiveCodec(cd)
    requires ParseStructure(cd, b).Accepted? && ParseStructure(cd, b') == ParseStructure(cd, b)
    ensures b == b'
  {
    StructureIsCanonical(cd, b);
    StructureIsCanonical(cd, b');
  }

  /** Without injectivity the check is what keeps bytes canonical: two strings
      for one point make two strings the structure accepts, and the parser
      takes the one that re-serialises. */
  lemma CheckCatchesSecondEncoding(cd: Codec, m: Mint, raw: seq<byte>)
    requires SoundCodec(cd) && WellFormed(cd, MintEnvelope(m))
    requires cd.dec(raw) == Some(m.pkD) && raw != cd.enc(m.pkD)
    ensures var b := Header(KIND_MINT) + (m.d + (raw + FrBytes(m.rSeed)));
      && ParseStructure(cd, b) == Accepted(MintEnvelope(m))
      && Parse(cd, b) == Rejected(NonCanonical)
  {
    hide ToLe, Le, Pow256, FrFromBytes;
    var tail := m.d + (raw + FrBytes(m.rSeed));
    HeaderSplit(KIND_MINT, tail);
    TakePrefix(m.d, raw + FrBytes(m.rSeed));
    TakePrefix(raw, FrBytes(m.rSeed));
    FrRoundTrip(cd.f, m.rSeed);
    assert FrBytes(m.rSeed) + [] == FrBytes(m.rSeed);
    TakePrefix(FrBytes(m.rSeed), []);
    var b := Header(KIND_MINT) + tail;
    assert b[17..49] == raw;
    assert ToBytes(cd, MintEnvelope(m))[17..49] == cd.enc(m.pkD);
  }

  // ------------------------------------------------------ bytes into Poseidon

  /** hash_bytes' input: the length, then 31-byte little-endian chunks. */
  function ChunkElems(f: Fp, b: seq<byte>): (es: seq<nat>)
    decreases |b|
  {
    if |b| == 0 then []
    else if |b| <= CHUNK then [f.R(Le(b))]
    else [f.R(Le(b[..CHUNK]))] + ChunkElems(f, b[CHUNK..])
  }

  function HashElems(f: Fp, b: seq<byte>): seq<nat> {
    [f.R(|b|)] + ChunkElems(f, b)
  }

  method PackBytes(f: Fp, b: seq<byte>) returns (elems: seq<nat>)
    ensures elems == HashElems(f, b)
  {
    hide ChunkElems, Fp.R, Le;
    elems := [f.R(|b|)];
    var i := 0;
    assert b[0..] == b;
    while i < |b|
      invariant 0 <= i <= |b|
      invariant HashElems(f, b) == elems + ChunkElems(f, b[i..])
    {
      var j := if i + CHUNK < |b| then i + CHUNK else |b|;
      FirstChunk(f, b[i..]);
      assert b[i..][..j - i] == b[i..j] && b[i..][j - i..] == b[j..];
      elems := elems + [f.R(Le(b[i..j]))];
      i := j;
    }
    FirstChunk(f, b[i..]);
  }

  lemma FirstChunk(f: Fp, b: seq<byte>)
    ensures b == [] ==> ChunkElems(f, b) == []
    ensures b != [] ==>
      var n := if CHUNK < |b| then CHUNK else |b|;
      ChunkElems(f, b) == [f.R(Le(b[..n]))] + ChunkElems(f, b[n..])
  {
    hide Le;
    if 0 < |b| <= CHUNK {
      assert b[..|b|] == b && ChunkElems(f, b[|b|..]) == [];
    }
  }

  lemma ChunkInjective(f: Fp, a: seq<byte>, b: seq<byte>)
    requires Pow256(CHUNK) <= f.p && |a| == |b| <= CHUNK && f.R(Le(a)) == f.R(Le(b))
    ensures a == b
  {
    hide Pow256, Le, ToLe;
    LeBound(a);
    LeBound(b);
    Pow256Monotone(|a|, CHUNK);
    RSmall(f, Le(a));
    RSmall(f, Le(b));
    LeInjective(a, b);
  }

  lemma {:induction false} ChunksInjective(f: Fp, a: seq<byte>, b: seq<byte>)
    requires Pow256(CHUNK) <= f.p && |a| == |b| && ChunkElems(f, a) == ChunkElems(f, b)
    ensures a == b
    decreases |a|
  {
    hide Pow256, Le;
    if 0 < |a| <= CHUNK {
      assert ChunkElems(f, a)[0] == ChunkElems(f, b)[0];
      ChunkInjective(f, a, b);
    } else if |a| > CHUNK {
      assert ChunkElems(f, a)[0] == ChunkElems(f, b)[0];
      assert ChunkElems(f, a)[1..] == ChunkElems(f, a[CHUNK..]);
      assert ChunkElems(f, b)[1..] == ChunkElems(f, b[CHUNK..]);
      ChunkInjective(f, a[..CHUNK], b[..CHUNK]);
      ChunksInjective(f, a[CHUNK..], b[CHUNK..]);
      assert a == a[..CHUNK] + a[CHUNK..] && b == b[..CHUNK] + b[CHUNK..];
    }
  }

  /** Different byte strings reach the hash as different element sequences. */
  lemma PackInjective(f: Fp, a: seq<byte>, b: seq<byte>)
    requires Pow256(CHUNK) <= f.p && |a| < f.p && |b| < f.p && HashElems(f, a) == HashElems(f, b)
    ensures a == b
  {
    hide Pow256, ChunkElems;
    RSmall(f, |a|);
    RSmall(f, |b|);
    assert HashElems(f, a)[0] == |a| && HashElems(f, b)[0] == |b|;
    assert HashElems(f, a)[1..] == ChunkElems(f, a) && HashElems(f, b)[1..] == ChunkElems(f, b);
    ChunksInjective(f, a, b);
  }
}
