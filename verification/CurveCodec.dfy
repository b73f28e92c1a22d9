/** The point encoding as the codec of the wire format: what the envelope laws
    assume of a codec holds of it, and where it is not injective. */
module CurveCodec {
  import opened Bytes
  import opened Field
  import opened Wrappers
  import opened Edwards
  import opened Group
  import opened PointCodec
  import opened Wire
  import opened WireLaws

  /** The point a byte string decodes to. */
  ghost function DecodeOf(c: Curve, b: seq<byte>): Option<Point> {
    if exists q :: Decodes(c, b, q) then
      var q :| Decodes(c, b, q);
      Some(q)
    else None
  }

  function EncodeAny(c: Curve, q: Point): seq<byte> {
    if q.y < SignWeight() then EncodePoint(c, q) else []
  }

  ghost function CodecOf(c: Curve): Codec {
    Codec(c.f, (q: Point) => EncodeAny(c, q), (b: seq<byte>) => DecodeOf(c, b))
  }

  lemma DecodesTo(c: Curve, b: seq<byte>, q: Point)
    requires PointCodec.ValidCodec(c) && Decodes(c, b, q)
    ensures DecodeOf(c, b) == Some(q)
  {
    hide Decodes, PointCodec.ValidCodec;
    var r := DecodeOf(c, b).value;
    DecodesUnique(c, b, q, r);
  }

  /** Subgroup points are encodable. */
  lemma SubgroupEncodable(c: Curve, q: Point)
    requires PointCodec.ValidCodec(c) && InSubgroup(c, q)
    ensures Encodable(CodecOf(c), q)
  {
    hide Decodes, EncodePoint, DecodeOf, Fold, OnCurve;
    BelowWeight(c, q);
    PointCodec.RoundTrip(c, q);
    DecodesTo(c, EncodePoint(c, q), q);
    EncodedLength(c, q);
  }

  lemma BelowWeight(c: Curve, q: Point)
    requires PointCodec.ValidCodec(c) && InSubgroup(c, q)
    ensures q.y < SignWeight()
  {
    hide Fold, SignWeight;
  }

  lemma EncodedLength(c: Curve, q: Point)
    requires q.y < SignWeight()
    ensures |EncodePoint(c, q)| == 32
  {
    hide SignWeight;
  }

  /** The codec meets what the envelope laws ask: its decoder returns only
      encodable points, and every subgroup point is one. */
  lemma CodecSound(c: Curve)
    requires PointCodec.ValidCodec(c)
    ensures SoundCodec(CodecOf(c))
    ensures forall q :: InSubgroup(c, q) ==> Encodable(CodecOf(c), q)
  {
    hide Decodes, EncodePoint, InSubgroup, Encodable, Pow256, SignWeight;
    forall q | InSubgroup(c, q) ensures Encodable(CodecOf(c), q) {
      SubgroupEncodable(c, q);
    }
    forall b | CodecOf(c).dec(b).Some? ensures |b| == 32 && Encodable(CodecOf(c), CodecOf(c).dec(b).value) {
      var q := DecodeOf(c, b).value;
      assert Decodes(c, b, q);
      DecodedShape(c, b, q);
    }
    WeightFits();
  }

  lemma DecodedShape(c: Curve, b: seq<byte>, q: Point)
    requires Decodes(c, b, q)
    ensures |b| == 32 && InSubgroup(c, q)
  {
    hide InSubgroup;
  }

  lemma WeightFits()
    ensures SignWeight() <= Pow256(32)
  {
    hide Pow256;
    Pow256Step(31);
  }

  /** A byte string re-encodes to itself unless its point has x = 0 and the free
      sign bit set. */
  lemma CanonicalIff(c: Curve, b: seq<byte>, q: Point)
    requires PointCodec.ValidCodec(c) && CodecOf(c).dec(b) == Some(q)
    ensures CodecOf(c).enc(q) == b <==> !(q.x == 0 && b[31] >= 128)
  {
    hide EncodePoint, Decodes, InSubgroup, SignWeight;
    assert Decodes(c, b, q);
    DecodedShape(c, b, q);
    BelowWeight(c, q);
    Canonical(c, b, q);
  }

  function Twin(c: Curve): seq<byte> {
    var b := EncodeAny(c, IDENTITY);
    if |b| == 32 && b[31] < 128 then b[31 := b[31] + 128] else b
  }

  /** The identity has a second encoding, so the codec is not injective. */
  lemma IdentityTwice(c: Curve)
    requires PointCodec.ValidCodec(c)
    ensures CodecOf(c).dec(Twin(c)) == Some(IDENTITY) && CodecOf(c).enc(IDENTITY) != Twin(c)
    ensures !InjectiveCodec(CodecOf(c))
  {
    hide Twin, DecodeOf, EncodeAny, InSubgroup, Decodes, InjectiveCodec;
    TwinDecodes(c);
    DecodesTo(c, Twin(c), IDENTITY);
    CanonicalIff(c, Twin(c), IDENTITY);
    NotInjective(CodecOf(c), Twin(c), IDENTITY);
  }

  lemma NotInjective(cd: Codec, b: seq<byte>, q: Point)
    requires cd.dec(b) == Some(q) && cd.enc(q) != b
    ensures !InjectiveCodec(cd)
  {
  }

  lemma TwinDecodes(c: Curve)
    requires PointCodec.ValidCodec(c)
    ensures Decodes(c, Twin(c), IDENTITY) && Twin(c)[31] >= 128
  {
    hide EncodePoint, InSubgroup, Pow256, SignWeight, CodedY, Le;
    IdentityIn(c);
    BelowWeight(c, IDENTITY);
    PointCodec.RoundTrip(c, IDENTITY);
    IdentityPlain(c);
    var b := EncodePoint(c, IDENTITY);
    SignBitAside(b);
    NegValue(c.f, 0);
  }

  /** The sign bit is no part of y. */
  lemma SignBitAside(b: seq<byte>)
    requires |b| == 32 && b[31] < 128
    ensures CodedY(b[31 := b[31] + 128]) == CodedY(b)
  {
    hide Pow256, SignWeight, CodedY, Le;
    BelowSign(b);
    CodedYIs(b[31 := b[31] + 128], b, Le(b));
    CodedYIs(b, b, Le(b));
  }

  lemma IdentityPlain(c: Curve)
    requires PointCodec.ValidCodec(c) && IDENTITY.y < SignWeight()
    ensures |EncodePoint(c, IDENTITY)| == 32 && EncodePoint(c, IDENTITY)[31] < 128
  {
    hide Pow256, SignWeight, ToLe;
    TopBitFree(IDENTITY.y);
    NegValue(c.f, 0);
  }

  /** A mint paying the identity's other encoding gets through the structure of
      the parser and is stopped only by the re-serialisation check. */
  lemma TwinCaught(c: Curve, d: seq<byte>, rSeed: nat)
    requires PointCodec.ValidCodec(c) && |d| == DIVERSIFIER_LEN && rSeed < c.f.p
    ensures var m := Mint(d, IDENTITY, rSeed);
      var b := Header(KIND_MINT) + (d + (Twin(c) + FrBytes(rSeed)));
      && ParseStructure(CodecOf(c), b) == Accepted(MintEnvelope(m))
      && Parse(CodecOf(c), b) == Rejected(NonCanonical)
  {
    hide ParseStructure, Parse, Twin, EncodeAny, DecodeOf, SoundCodec, InjectiveCodec, Encodable, InSubgroup;
    CodecSound(c);
    IdentityTwice(c);
    IdentityIn(c);
    CheckCatchesSecondEncoding(CodecOf(c), Mint(d, IDENTITY, rSeed), Twin(c));
  }

  lemma IdentityIn(c: Curve)
    requires PointCodec.ValidCodec(c)
    ensures InSubgroup(c, IDENTITY)
  {
    FoldIdentity(c, c.order);
    IdentityOnCurve(c);
  }
}
