/** The envelope code in the form it runs in: a cursor that advances through
    the bytes, and serialisers that push onto a vector. Each method is proved
    to compute the value the format's laws are stated about. */
module WireIo {
  import opened Bytes
  import opened Field
  import opened Sqrt
  import opened Wrappers
  import opened Edwards
  import opened Wire
  import opened WireLaws

  datatype Result<T> = Ok(value: T) | Err(error: Error) {
    predicate IsFailure() { Err? }
    function PropagateFailure<U>(): Result<U>
      requires Err?
    {
      Err(error)
    }
    function Extract(): T
      requires Ok?
    {
      value
    }
  }

  class Reader {
    const b: seq<byte>
    var pos: nat

    constructor (bytes: seq<byte>, start: nat)
      requires start <= |bytes|
      ensures Valid() && b == bytes && Rest() == bytes[start..]
    {
      b := bytes;
      pos := start;
    }

    predicate Valid()
      reads this
    {
      pos <= |b|
    }

    function Rest(): seq<byte>
      requires Valid()
      reads this
    {
      b[pos..]
    }

    /** The cursor took what the functional reader spec takes from the bytes
        that were left: the same value and the same remainder, or the same
        error. */
    ghost predicate Took<T>(spec: Read<T>, r: Result<T>)
      requires Valid()
      reads this
    {
      match spec
      case Bad(error) => r == Err(error)
      case Got(value, rest) => r == Ok(value) && Rest() == rest
    }

    method Take(n: nat) returns (r: Result<seq<byte>>)
      requires Valid()
      modifies this`pos
      ensures Valid() && Took(Wire.Take(old(Rest()), n), r)
      ensures r.Ok? ==> |r.value| == n
      ensures r.Err? ==> pos == old(pos)
    {
      if pos + n > |b| {
        return Err(Truncated);
      }
      var s := b[pos..pos + n];
      assert s == Rest()[..n] && b[pos + n..] == Rest()[n..];
      pos := pos + n;
      return Ok(s);
    }

    method CompactSize() returns (r: Result<nat>)
      requires Valid()
      modifies this`pos
      ensures Valid() && Took(Wire.CompactSize(old(Rest())), r)
    {
      hide Le;
      var first :- Take(1);
      var n, min := 0, 0;
      if first[0] == 0xff {
        return Err(NonMinimalCount);
      } else if first[0] == 0xfe {
        var raw :- Take(4);
        n, min := Le(raw), 0x1_0000;
      } else if first[0] == 0xfd {
        var raw :- Take(2);
        n, min := Le(raw), 253;
      } else {
        n, min := first[0], 0;
      }
      if n < min {
        return Err(NonMinimalCount);
      }
      return Ok(n);
    }

    method Fr(cd: Codec, err: Error) returns (r: Result<nat>)
      requires Valid()
      modifies this`pos
      ensures Valid() && Took(ReadFr(cd, err, old(Rest())), r)
    {
      hide FrFromBytes;
      var raw :- Take(32);
      var x := FrFromBytes(cd.f, raw);
      return if x.None? then Err(err) else Ok(x.value);
    }

    method PointAt(cd: Codec, err: Error) returns (r: Result<Point>)
      requires Valid()
      modifies this`pos
      ensures Valid() && Took(ReadPoint(cd, err, old(Rest())), r)
    {
      var raw :- Take(32);
      var q := cd.dec(raw);
      return if q.None? then Err(err) else Ok(q.value);
    }

    method Ct(cd: Codec) returns (r: Result<Ciphertext>)
      requires Valid()
      modifies this`pos
      ensures Valid() && Took(ReadCt(cd, old(Rest())), r)
    {
      hide CtFromBytes;
      var raw :- Take(CIPHERTEXT_LEN);
      var x := CtFromBytes(cd, raw);
      return if x.None? then Err(BadCiphertext) else Ok(x.value);
    }

    method Frs(cd: Codec, err: Error, n: nat) returns (r: Result<seq<nat>>)
      requires Valid()
      modifies this`pos
      ensures Valid() && Took(ReadMany(FrReader(cd, err), n, old(Rest())), r)
    {
      hide ReadFr;
      var xs: seq<nat> := [];
      PrependEnds(xs, ReadMany(FrReader(cd, err), n, Rest()), FrReader(cd, err), Rest());
      for i := 0 to n
        invariant Valid()
        invariant ReadMany(FrReader(cd, err), n, old(Rest())) == Prepend(xs, ReadMany(FrReader(cd, err), n - i, Rest()))
      {
        PrependStep(xs, FrReader(cd, err), n - i, Rest());
        var x :- Fr(cd, err);
        xs := xs + [x];
      }
      PrependEnds(xs, ReadMany(FrReader(cd, err), 0, Rest()), FrReader(cd, err), Rest());
      return Ok(xs);
    }

    method Points(cd: Codec, err: Error, n: nat) returns (r: Result<seq<Point>>)
      requires Valid()
      modifies this`pos
      ensures Valid() && Took(ReadMany(PointReader(cd, err), n, old(Rest())), r)
    {
      hide ReadPoint;
      var xs: seq<Point> := [];
      PrependEnds(xs, ReadMany(PointReader(cd, err), n, Rest()), PointReader(cd, err), Rest());
      for i := 0 to n
        invariant Valid()
        invariant ReadMany(PointReader(cd, err), n, old(Rest()))
          == Prepend(xs, ReadMany(PointReader(cd, err), n - i, Rest()))
      {
        PrependStep(xs, PointReader(cd, err), n - i, Rest());
        var x :- PointAt(cd, err);
        xs := xs + [x];
      }
      PrependEnds(xs, ReadMany(PointReader(cd, err), 0, Rest()), PointReader(cd, err), Rest());
      return Ok(xs);
    }

    method Cts(cd: Codec, n: nat) returns (r: Result<seq<Ciphertext>>)
      requires Valid()
      modifies this`pos
      ensures Valid() && Took(ReadMany(CtReader(cd), n, old(Rest())), r)
    {
      hide ReadCt;
      var xs: seq<Ciphertext> := [];
      PrependEnds(xs, ReadMany(CtReader(cd), n, Rest()), CtReader(cd), Rest());
      for i := 0 to n
        invariant Valid()
        invariant ReadMany(CtReader(cd), n, old(Rest())) == Prepend(xs, ReadMany(CtReader(cd), n - i, Rest()))
      {
        PrependStep(xs, CtReader(cd), n - i, Rest());
        var x :- Ct(cd);
        xs := xs + [x];
      }
      PrependEnds(xs, ReadMany(CtReader(cd), 0, Rest()), CtReader(cd), Rest());
      return Ok(xs);
    }

    method PayoutAt() returns (r: Result<Option<Payout>>)
      requires Valid()
      modifies this`pos
      ensures Valid() && Took(ReadPayout(old(Rest())), r)
    {
      hide Le, Wire.CompactSize;
      var plen :- CompactSize();
      if plen == 0 {
        return Ok(None);
      }
      if plen <= 8 {
        return Err(PayoutTooShort);
      }
      var amount :- Take(8);
      var script :- Take(plen - 8);
      return Ok(Some(Payout(Le(amount), script)));
    }

    method TransferBody(cd: Codec) returns (r: Result<Transfer>)
      requires Valid()
      modifies this`pos
      ensures Valid() && Took(ReadTransfer(cd, old(Rest())), r)
    {
      hide Le, Wire.CompactSize, ReadMany, ReadPayout, Wire.Take;
      var anchor :- Take(4);
      var nIn :- CompactSize();
      if nIn != N_IN {
        return Err(InputCount);
      }
      var nOut :- CompactSize();
      if nOut != N_OUT {
        return Err(OutputCount);
      }
      var nf :- Frs(cd, Nullifier, N_IN);
      var pkEph :- Points(cd, PkEph, N_OUT);
      var ct :- Cts(cd, N_OUT);
      var ctOut :- Take(CT_OUT_LEN);
      var payout :- PayoutAt();
      var proof :- Take(PROOF_LEN);
      return Ok(Transfer(Le(anchor), nf, pkEph, ct, ctOut, payout, proof));
    }

    method MintBody(cd: Codec) returns (r: Result<Mint>)
      requires Valid()
      modifies this`pos
      ensures Valid() && Took(ReadMint(cd, old(Rest())), r)
    {
      hide ReadFr, ReadPoint, Wire.Take;
      var d :- Take(DIVERSIFIER_LEN);
      var pkD :- PointAt(cd, PkD);
      var rSeed :- Fr(cd, RSeed);
      return Ok(Mint(d, pkD, rSeed));
    }
  }

  function Prepend<T>(xs: seq<T>, r: Read<seq<T>>): Read<seq<T>> {
    match r
    case Bad(error) => Bad(error)
    case Got(value, rest) => Got(xs + value, rest)
  }

  lemma PrependEnds<T>(xs: seq<T>, r: Read<seq<T>>, item: seq<byte> -> Read<T>, b: seq<byte>)
    ensures Prepend([], r) == r
    ensures Prepend(xs, ReadMany(item, 0, b)) == Got(xs, b)
  {
    if r.Got? {
      assert [] + r.value == r.value;
    }
    assert xs + [] == xs;
  }

  lemma PrependStep<T>(xs: seq<T>, item: seq<byte> -> Read<T>, n: nat, b: seq<byte>)
    requires n > 0
    ensures Prepend(xs, ReadMany(item, n, b)) == match item(b)
      case Bad(error) => Bad(error)
      case Got(x, rest) => Prepend(xs + [x], ReadMany(item, n - 1, rest))
  {
    match item(b) {
      case Bad(_) =>
      case Got(x, rest) =>
        var tail := ReadMany(item, n - 1, rest);
        if tail.Got? {
          assert xs + ([x] + tail.value) == xs + [x] + tail.value;
        }
    }
  }

  /** Envelope::parse over a cursor. */
  method ParseBytes(cd: Codec, b: seq<byte>) returns (r: Outcome)
    ensures r == Parse(cd, b)
  {
    hide ReadTransfer, ReadMint, ToBytes;
    if |b| < 6 || b[..3] != MAGIC {
      return NotEnvelope;
    }
    if b[3] != VERSION {
      return Rejected(UnknownVersion(b[3]));
    }
    if b[5] != 0 {
      return Rejected(ReservedByteSet);
    }
    var rd := new Reader(b, 6);
    var env: Envelope;
    if b[4] == KIND_TRANSFER {
      var t := rd.TransferBody(cd);
      if t.Err? {
        return Rejected(t.error);
      }
      env := TransferEnvelope(t.value);
    } else if b[4] == KIND_MINT {
      var m := rd.MintBody(cd);
      if m.Err? {
        return Rejected(m.error);
      }
      env := MintEnvelope(m.value);
    } else {
      return Rejected(UnknownKind(b[4]));
    }
    if rd.pos != |b| {
      return Rejected(TrailingBytes);
    }
    if ToBytes(cd, env) != b {
      return Rejected(NonCanonical);
    }
    return Accepted(env);
  }

  lemma {:induction false} ConcatSnoc<T>(bytes: T -> seq<byte>, xs: seq<T>, x: T)
    ensures Concat(bytes, xs + [x]) == Concat(bytes, xs) + bytes(x)
  {
    if xs == [] {
      assert Concat(bytes, [x]) == bytes(x) + Concat(bytes, []);
    } else {
      ConcatSnoc(bytes, xs[1..], x);
      assert (xs + [x])[1..] == xs[1..] + [x];
    }
  }

  method PushCompactSize(v: seq<byte>, n: nat) returns (w: seq<byte>)
    ensures w == v + CompactSizeBytes(n)
  {
    hide ToLe;
    if n <= 252 {
      w := v + [n];
    } else if n <= 0xffff {
      w := v + [0xfd];
      w := w + ToLe(n, 2);
    } else {
      w := v + [0xfe];
      w := w + ToLe(n, 4);
    }
  }

  method PushAll<T>(v: seq<byte>, bytes: T -> seq<byte>, xs: seq<T>) returns (w: seq<byte>)
    ensures w == v + Concat(bytes, xs)
  {
    w := v;
    for i := 0 to |xs|
      invariant w == v + Concat(bytes, xs[..i])
    {
      ConcatSnoc(bytes, xs[..i], xs[i]);
      assert xs[..i] + [xs[i]] == xs[..i + 1];
      w := w + bytes(xs[i]);
    }
    assert xs[..|xs|] == xs;
  }

  /** body_bytes: the canonical body, pushed field by field. */
  method SerialiseBody(cd: Codec, t: Transfer) returns (v: seq<byte>)
    ensures v == BodyBytes(cd, t)
  {
    hide ToLe, CompactSizeBytes, Concat, Header;
    BodyInOrder(cd, t);
    v := Header(KIND_TRANSFER);
    v := v + ToLe(t.hAnchor, 4);
    v := PushCompactSize(v, N_IN);
    v := PushCompactSize(v, N_OUT);
    v := PushAll(v, FrBytes, t.nf);
    v := PushAll(v, cd.enc, t.pkEph);
    v := PushAll(v, CtBytes, t.ct);
    v := v + t.ctOut;
    match t.payout {
      case None =>
        v := v + [0];
      case Some(p) =>
        v := PushCompactSize(v, 8 + |p.script|);
        v := v + ToLe(p.amount, 8);
        v := v + p.script;
    }
  }

  /** The body with its fields appended one at a time. */
  lemma BodyInOrder(cd: Codec, t: Transfer)
    ensures var v := Header(KIND_TRANSFER) + ToLe(t.hAnchor, 4) + CompactSizeBytes(N_IN) + CompactSizeBytes(N_OUT)
        + Concat(FrBytes, t.nf) + Concat(cd.enc, t.pkEph) + Concat(CtBytes, t.ct) + t.ctOut;
      BodyBytes(cd, t) == v + PayoutBytes(t.payout)
    ensures t.payout.Some? ==> forall v: seq<byte> :: var p := t.payout.value;
      v + PayoutBytes(t.payout) == v + CompactSizeBytes(8 + |p.script|) + ToLe(p.amount, 8) + p.script
  {
    hide ToLe, CompactSizeBytes, Concat, Header, PayoutBytes;
    var h, a, b, c := Header(KIND_TRANSFER), ToLe(t.hAnchor, 4), CompactSizeBytes(N_IN), CompactSizeBytes(N_OUT);
    var d, e, g, o, p := Concat(FrBytes, t.nf), Concat(cd.enc, t.pkEph), Concat(CtBytes, t.ct), t.ctOut,
      PayoutBytes(t.payout);
    Regroup(h + a + b + c + d + e, g, o, p);
    Regroup(h + a + b + c, d, e, g + (o + p));
    Regroup(h + a, b, c, d + (e + (g + (o + p))));
    PayoutInOrder(t.payout);
  }

  lemma Regroup(v: seq<byte>, x: seq<byte>, y: seq<byte>, z: seq<byte>)
    ensures v + x + y + z == v + (x + (y + z))
  {
  }

  lemma PayoutInOrder(q: Option<Payout>)
    ensures q.Some? ==> forall v: seq<byte> ::
      v + PayoutBytes(q) == v + CompactSizeBytes(8 + |q.value.script|) + ToLe(q.value.amount, 8) + q.value.script
  {
    hide ToLe, CompactSizeBytes;
  }
}
