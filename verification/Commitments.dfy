/** What the hashes commit to: the body hash, and with it the statement digest
    and every output leaf, to everything of a transfer but its proof. */
module Commitments {
  import opened Bytes
  import opened Wrappers
  import opened Edwards
  import Field
  import opened Wire
  import opened WireLaws
  import opened Note
  import opened Circuit
  import opened Binding
  import opened Replay
  import opened Conservation

  /** The domain tags, in the order of their declaration. */
  const TAGS: seq<nat> :=
    [NF_KEY, VK_IN, SK_VIEW, DIVERSIFY, RHO, EPH, KDF, STREAM, MAC, LEAF, MINT_LEAF, NF, NODE, BODY, STMT]

  lemma TagAt(i: nat, k: nat)
    requires i < k < |TAGS|
    ensures TAGS[i] != TAGS[k]
  {
  }

  /** Under distinct tags no hash of one kind is one of another. */
  lemma TagsDiffer(s: Suite, q: Queries, i: nat, k: nat, x: seq<nat>, y: seq<nat>)
    requires GoodQueries(s, q) && i < k < |TAGS| && (TAGS[i], x) in q && (TAGS[k], y) in q
    ensures s.hash(TAGS[i], x) != s.hash(TAGS[k], y)
  {
    hide GoodQueries;
    TagAt(i, k);
    if s.hash(TAGS[i], x) == s.hash(TAGS[k], y) {
      SameQuery(s, q, TAGS[i], x, TAGS[k], y);
    }
  }

  /** The two halves of a plaintext are masked by different elements. */
  lemma StreamsDiffer(s: Suite, q: Queries, key: nat, m0: nat, m1: nat)
    requires ValidSuite(s) && GoodQueries(s, q) && m0 < s.c.f.p && m1 < s.c.f.p
    requires (STREAM, [key, 0]) in q && (STREAM, [key, 1]) in q
    ensures var ct := Seal(s, key, m0, m1); s.c.f.Sub(ct.c0, m0) != s.c.f.Sub(ct.c1, m1)
  {
    hide GoodQueries, ValidSuite, Field.Fp.Add, Field.Fp.Sub, Pow256;
    var a, b := s.hash(STREAM, [key, 0]), s.hash(STREAM, [key, 1]);
    Sizes(s);
    PairsDiffer(key);
    if a == b {
      SameQuery(s, q, STREAM, [key, 0], STREAM, [key, 1]);
    }
    Unmask(s.c.f, m0, a);
    Unmask(s.c.f, m1, b);
  }

  lemma PairsDiffer(key: nat)
    ensures [key, 0] != [key, 1]
  {
    assert [key, 0][1] != [key, 1][1];
  }

  lemma Unmask(f: Field.Fp, m: nat, a: nat)
    requires m < f.p && a < f.p
    ensures f.Sub(f.Add(m, a), m) == a
  {
    hide Field.Fp.Add, Field.Fp.Sub;
    AddSub(f, a, m);
    assert f.Add(m, a) == f.Add(a, m) by { AddSwap(f, m, a); }
  }

  lemma AddSwap(f: Field.Fp, a: nat, b: nat)
    ensures f.Add(a, b) == f.Add(b, a)
  {
  }

  // ------------------------------------------------------------------ the body

  lemma BodySize(cd: Codec, t: Transfer)
    requires WellFormed(cd, TransferEnvelope(t))
    ensures |CONST_SALT + BodyBytes(cd, t)| < Pow256(5)
  {
    hide ToLe, Pow256;
    SmallPowers();
    Pow256Step(4);
    TwoLong(FrBytes, t.nf, 32);
    assert t.pkEph[0] in t.pkEph && t.pkEph[1] in t.pkEph;
    TwoLong(cd.enc, t.pkEph, 32);
    TwoLong(CtBytes, t.ct, CIPHERTEXT_LEN);
    PayoutSize(t.payout);
  }

  lemma PayoutSize(p: Option<Payout>)
    requires PayoutOk(p)
    ensures |PayoutBytes(p)| < Pow256(4) + 5
  {
    hide ToLe, Pow256;
    SmallPowers();
  }

  lemma TwoLong<T>(bytes: T -> seq<byte>, xs: seq<T>, n: nat)
    requires |xs| == 2 && |bytes(xs[0])| == n && |bytes(xs[1])| == n
    ensures |Concat(bytes, xs)| == 2 * n
  {
    assert xs[1..][0] == xs[1] && xs[1..][1..] == [];
    assert Concat(bytes, xs[1..]) == bytes(xs[1]) + Concat(bytes, []);
  }

  /** Body bytes determine the transfer up to its proof. */
  lemma BodyDetermines(cd: Codec, t: Transfer, t': Transfer)
    requires SoundCodec(cd) && WellFormed(cd, TransferEnvelope(t)) && WellFormed(cd, TransferEnvelope(t'))
    requires BodyBytes(cd, t) == BodyBytes(cd, t')
    ensures t.(proof := t'.proof) == t'
  {
    hide Parse, Pow256, Encodable, BodyTail;
    var u := t.(proof := t'.proof);
    SameBody(cd, t, t'.proof);
    RoundTrip(cd, TransferEnvelope(u));
    RoundTrip(cd, TransferEnvelope(t'));
  }

  lemma SameBody(cd: Codec, t: Transfer, proof: seq<byte>)
    requires WellFormed(cd, TransferEnvelope(t)) && |proof| == PROOF_LEN
    ensures BodyBytes(cd, t.(proof := proof)) == BodyBytes(cd, t)
    ensures WellFormed(cd, TransferEnvelope(t.(proof := proof)))
  {
    hide ToLe, Pow256, Encodable;
  }

  /** What hashing a transfer's body asks. */
  ghost predicate BodyQuery(env: Env, q: Queries, t: Transfer) {
    (BODY, HashElems(env.cd.f, CONST_SALT + BodyBytes(env.cd, t))) in q
  }

  ghost predicate Hashable(env: Env, q: Queries, t: Transfer) {
    WellFormed(env.cd, TransferEnvelope(t)) && BodyQuery(env, q, t)
  }

  /** Two transfers with one body hash differ in their proofs at most. */
  lemma BodyBinds(env: Env, q: Queries, t: Transfer, t': Transfer)
    requires ValidEnv(env) && GoodQueries(env.s, q) && Hashable(env, q, t) && Hashable(env, q, t')
    ensures HBody(env, t) == HBody(env, t') <==> t.(proof := t'.proof) == t'
  {
    hide GoodQueries, WellFormed, BodyBytes, HashElems, Pow256, ValidSuite, SoundCodec;
    var a, b := CONST_SALT + BodyBytes(env.cd, t), CONST_SALT + BodyBytes(env.cd, t');
    if HBody(env, t) == HBody(env, t') {
      SameQuery(env.s, q, BODY, HashElems(env.cd.f, a), BODY, HashElems(env.cd.f, b));
      BodySize(env.cd, t);
      BodySize(env.cd, t');
      Sizes(env.s);
      Pow256Monotone(5, CHUNK);
      PackInjective(env.cd.f, a, b);
      assert a[|CONST_SALT|..] == BodyBytes(env.cd, t) && b[|CONST_SALT|..] == BodyBytes(env.cd, t');
      BodyDetermines(env.cd, t, t');
    } else if t.(proof := t'.proof) == t' {
      ProofFits(env.cd, t');
      SameBody(env.cd, t, t'.proof);
    }
  }

  lemma ProofFits(cd: Codec, t: Transfer)
    requires WellFormed(cd, TransferEnvelope(t))
    ensures |t.proof| == PROOF_LEN
  {
  }

  /** And so do two with one statement digest: a proof speaks of one anchor, one
      payout, one recovery ciphertext. */
  lemma DigestBinds(env: Env, q: Queries, t: Transfer, t': Transfer)
    requires ValidEnv(env) && GoodQueries(env.s, q) && Hashable(env, q, t) && Hashable(env, q, t')
    requires Arity(t) && Arity(t') && (STMT, StmtOf(env, t)) in q && (STMT, StmtOf(env, t')) in q
    ensures StatementDigest(env, t) == StatementDigest(env, t') <==> t.(proof := t'.proof) == t'
  {
    hide GoodQueries, Hashable, HBody, ValidEnv;
    BodyBinds(env, q, t, t');
    if StatementDigest(env, t) == StatementDigest(env, t') {
      var a, b := StmtOf(env, t), StmtOf(env, t');
      SameQuery(env.s, q, STMT, a, STMT, b);
      assert a[0] == b[0];
    }
  }

  ghost predicate OutputQuery(env: Env, q: Queries, t: Transfer, j: nat)
    requires Arity(t) && j < N_OUT
  {
    (LEAF, LeafInputs(env.s, HBody(env, t), j, t.pkEph[j], t.ct[j])) in q
  }

  /** Equal output leaves come from one transfer, up to its proof, and one output
      of it. */
  lemma LeafIsOneOutput(env: Env, q: Queries, t: Transfer, j: nat, t': Transfer, j': nat)
    requires ValidEnv(env) && GoodQueries(env.s, q) && Hashable(env, q, t) && Hashable(env, q, t')
    requires Arity(t) && Arity(t') && j < N_OUT && j' < N_OUT
    requires OutputQuery(env, q, t, j) && OutputQuery(env, q, t', j')
    ensures OutputLeaf(env, t, j) == OutputLeaf(env, t', j') <==> t.(proof := t'.proof) == t' && j == j'
  {
    hide GoodQueries, Hashable, HBody, ValidEnv, LeafInputs;
    BodyBinds(env, q, t, t');
    if OutputLeaf(env, t, j) == OutputLeaf(env, t', j') {
      LeafInputsBind(env.s, q, HBody(env, t), j, t.pkEph[j], t.ct[j], HBody(env, t'), j', t'.pkEph[j'], t'.ct[j']);
    }
  }
}
