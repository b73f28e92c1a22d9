/** What replay makes of a transfer the wallet built: it is accepted in every
    block of the window that has not seen its nullifiers. */
module Acceptance {
  import opened Binary
  import opened Bytes
  import opened Field
  import opened Wrappers
  import opened Edwards
  import opened Group
  import opened PointCodec
  import opened Diversify
  import opened Wire
  import opened WireLaws
  import opened Merkle
  import opened Note
  import opened Circuit
  import opened Replay
  import opened Pruning
  import opened EventLog
  import opened Scanning
  import opened Resume
  import opened Building
  import S = Selection
  import Carrier

  // ------------------------------------------------------------ the anchor's root

  /** A root retained before more blocks and still in the window after them is
      retained with the same value. */
  lemma RootStays(env: Env, dep: Deployment, bs: seq<Block>, more: seq<Block>, k: nat)
    requires k in ReplayAll(env, dep, bs).roots && k >= KeepFrom(InitialHeight(dep) + |bs| + |more|)
    ensures var l, m := ReplayAll(env, dep, bs), ReplayAll(env, dep, bs + more);
      k in m.roots && m.roots[k] == l.roots[k]
  {
    hide ReplayAll, Root, RootOfPrefix;
    RetainedAt(env, dep, bs, k);
    RetainedAt(env, dep, bs + more, k);
    SameRoot(env, dep, bs, more, k);
  }

  lemma RetainedAt(env: Env, dep: Deployment, bs: seq<Block>, k: nat)
    ensures k in ReplayAll(env, dep, bs).roots <==> Kept(dep, InitialHeight(dep) + |bs|, k)
    ensures k in ReplayAll(env, dep, bs).roots ==> RootOfPrefix(env, dep, bs, k)
  {
    hide ReplayAll, Root, Kept, RootOfPrefix;
    RetainedMaps(env, dep, bs);
  }

  lemma SameRoot(env: Env, dep: Deployment, bs: seq<Block>, more: seq<Block>, k: nat)
    requires RootOfPrefix(env, dep, bs, k) && RootOfPrefix(env, dep, bs + more, k)
    ensures ReplayAll(env, dep, bs + more).roots[k] == ReplayAll(env, dep, bs).roots[k]
  {
    hide ReplayAll, Root;
    assert Upto(dep, bs + more, k) == Upto(dep, bs, k);
  }

  /** A transfer built at replayed height H is accepted in block h, H < h <=
      H + 99, of any extension in which neither nullifier was spent, whatever
      transactions precede it in the block. */
  lemma BuiltIsAccepted(env: Env, dep: Deployment, bs: seq<Block>, more: seq<Block>, before: seq<(nat, Carrier.Tx)>,
                        t: Transfer, h: nat, m: Ledger)
    requires Ready(env, ReplayAll(env, dep, bs), t) && |more| < 99
    requires h == InitialHeight(dep) + |bs| + |more| + 1
    requires m == ReplayTxs(env, dep, ReplayAll(env, dep, bs + more), h, before)
    requires t.nf[0] !in m.nullifiers && t.nf[1] !in m.nullifiers
    ensures Judge(env, m, h, t) == None
  {
    hide ReplayAll, ReplayTxs, StatementDigest, RootOfPrefix;
    var l := ReplayAll(env, dep, bs);
    RetainedMaps(env, dep, bs);
    assert Kept(dep, l.height, t.hAnchor);
    RootStays(env, dep, bs, more, t.hAnchor);
    TxsGrow(env, dep, ReplayAll(env, dep, bs + more), h, before);
  }

  /** In block h of any run, after whatever transactions, replay accepts a
      transfer exactly when it is anchored one to a hundred blocks back and not
      before activation, its nullifiers differ and no event so far published
      them, and its proof verifies against the root of the tree as the block at
      the anchor left it. */
  lemma AcceptedIff(env: Env, dep: Deployment, bs: seq<Block>, before: seq<(nat, Carrier.Tx)>, t: Transfer, h: nat,
                    m: Ledger)
    requires Arity(t) && h == InitialHeight(dep) + |bs| + 1
    requires m == ReplayTxs(env, dep, ReplayAll(env, dep, bs), h, before)
    ensures Judge(env, m, h, t).None? <==>
      && InitialHeight(dep) <= t.hAnchor < h <= t.hAnchor + 100
      && t.nf[0] != t.nf[1] && t.nf[0] !in NfsOf(env, m.events) && t.nf[1] !in NfsOf(env, m.events)
      && env.verify(PublicInputs(Root(NodeOf(env.s), ReplayAll(env, dep, Upto(dep, bs, t.hAnchor)).leaves),
                                 StatementDigest(env, t)),
                    t.proof)
  {
    hide ReplayAll, ReplayTxs, StatementDigest, RootOfPrefix, NfsOf, Root, LogOk, LeavesOf;
    RetainedAt(env, dep, bs, t.hAnchor);
    TxsGrow(env, dep, ReplayAll(env, dep, bs), h, before);
    ReplayLogged(env, dep, bs);
    TxsLogged(env, dep, ReplayAll(env, dep, bs), h, before);
    if t.hAnchor in ReplayAll(env, dep, bs).roots {
      PrefixRoot(env, dep, bs, t.hAnchor);
    }
  }

  lemma PrefixRoot(env: Env, dep: Deployment, bs: seq<Block>, k: nat)
    requires RootOfPrefix(env, dep, bs, k)
    ensures InitialHeight(dep) <= k
    ensures ReplayAll(env, dep, bs).roots[k] == Root(NodeOf(env.s), ReplayAll(env, dep, Upto(dep, bs, k)).leaves)
  {
    hide ReplayAll, Root;
  }

  // ----------------------------------------------------------------- on the wire

  /** Subgroup points have an encoding the parser accepts. */
  ghost predicate FullCodec(env: Env) {
    && env.cd.f == env.s.c.f && env.cd.f.p <= Pow256(32)
    && forall q :: InSubgroup(env.s.c, q) ==> Encodable(env.cd, q)
  }

  lemma EphemeralInSubgroup(s: Suite, n: Plain, pkD: Point)
    requires ValidSuite(s) && Encrypt(s, n, pkD).Some?
    ensures InSubgroup(s.c, Encrypt(s, n, pkD).value.0) && CtCanonical(s, Encrypt(s, n, pkD).value.1)
  {
    hide Fold, Sum, OnCurve, Seal, Le, PackVd, Pow256, Pow2, InSubgroup, ScalarModulus;
    var g := GD(s, Le(n.d)).value;
    var e := SkEph(s, n.rSeed);
    BaseInSubgroup(s, Le(n.d));
    MultipleInSubgroup(s.c, g, e);
    SealCanonical(s, NoteKey(s, Fold(s.c, e, pkD), Fold(s.c, e, g)), PackVd(s.c.f, n.v, n.d), n.rSeed);
  }

  lemma MultipleInSubgroup(c: Curve, g: Point, e: nat)
    requires CurveGroup(c) && InSubgroup(c, g)
    ensures InSubgroup(c, Fold(c, e, g))
  {
    hide Sum, OnCurve;
    FoldOnCurve(c, e, g);
    FoldSwap(c, c.order, e, g);
    FoldIdentity(c, e);
  }

  lemma SealCanonical(s: Suite, key: nat, m0: nat, m1: nat)
    requires ValidSuite(s)
    ensures CtCanonical(s, Seal(s, key, m0, m1))
  {
    hide ValidBase, Pow256, Pow2, ScalarModulus;
    AddBelow(s.c.f, m0, s.hash(STREAM, [key, 0]));
    AddBelow(s.c.f, m1, s.hash(STREAM, [key, 1]));
    Sizes(s);
  }

  lemma AddBelow(f: Fp, a: nat, b: nat)
    ensures f.Add(a, b) < f.p
  {
  }

  /** What a built transfer writes is well formed, but for an empty payout
      script. */
  lemma BuiltWellFormed(w: Who, l: Ledger, wit: NativeWitness, t: Transfer)
    requires ValidSuite(w.env.s) && FullCodec(w.env) && Ready(w.env, l, t) && l.height < Pow256(4)
    requires TwoByTwo(wit) && Evaluates(w.env.s, wit, Statement(t.nf, t.pkEph, t.ct))
    requires PayoutOk(t.payout) && |t.proof| == PROOF_LEN
    ensures WellFormed(w.env.cd, TransferEnvelope(t))
  {
    hide ValidSuite, Pow256, Encrypt, NullifierOf, InSubgroup, Encodable, PayoutOk, CtCanonical, StatementDigest;
    var s := w.env.s;
    Sizes(s);
    EphemeralInSubgroup(s, PlainOf(wit.outputs[0]), wit.outputs[0].pkD);
    EphemeralInSubgroup(s, PlainOf(wit.outputs[1]), wit.outputs[1].pkD);
    NfBelow(s, wit.sk, wit.inputs[0].rSeed, wit.inputs[0].pos);
    NfBelow(s, wit.sk, wit.inputs[1].rSeed, wit.inputs[1].pos);
    CtsOk(w.env, t.ct[0]);
    CtsOk(w.env, t.ct[1]);
    assert t.nf == [t.nf[0], t.nf[1]] && t.pkEph == [t.pkEph[0], t.pkEph[1]] && t.ct == [t.ct[0], t.ct[1]];
  }

  lemma CtsOk(env: Env, ct: Ciphertext)
    requires env.cd.f == env.s.c.f && CtCanonical(env.s, ct)
    ensures CtOk(env.cd, ct)
  {
  }

  lemma NfBelow(s: Suite, sk: nat, rSeed: nat, pos: nat)
    requires ValidSuite(s)
    ensures NullifierOf(s, sk, rSeed, pos) < s.c.f.p
  {
    hide ValidBase, Pow256, Pow2, ScalarModulus;
  }

  /** A transaction carrying a transfer's bytes asks for exactly it. */
  lemma CarrierAsks(env: Env, vault: seq<byte>, t: Transfer, tx: Carrier.Tx)
    requires env.cd.f.p <= Pow256(32) && WellFormed(env.cd, TransferEnvelope(t))
    requires Carrier.OpReturnPayload(tx) == Carrier.Carried(ToBytes(env.cd, TransferEnvelope(t)))
    ensures RequestOf(env.cd, vault, tx) == Move(t, ToBytes(env.cd, TransferEnvelope(t)))
  {
    hide ToBytes, Parse, WellFormed, Pow256, Carrier.OpReturnPayload;
    WireLaws.RoundTrip(env.cd, TransferEnvelope(t));
  }

  lemma LongPayload(cd: Codec, e: Envelope)
    ensures |ToBytes(cd, e)| > 1
  {
    hide BodyTail, MintTail;
  }

  /** Put together: whatever transaction carries a built transfer's bytes, in any
      block of the window, moves the notes. */
  lemma BuiltCarrierMoves(w: Who, dep: Deployment, bs: seq<Block>, more: seq<Block>, before: seq<(nat, Carrier.Tx)>,
                          wit: NativeWitness, t: Transfer, txid: nat, tx: Carrier.Tx, h: nat, m: Ledger,
                          payload: seq<byte>)
    requires ValidSuite(w.env.s) && FullCodec(w.env) && Ready(w.env, ReplayAll(w.env, dep, bs), t) && |more| < 99
    requires InitialHeight(dep) + |bs| < Pow256(4)
    requires TwoByTwo(wit) && Evaluates(w.env.s, wit, Statement(t.nf, t.pkEph, t.ct))
    requires PayoutOk(t.payout) && |t.proof| == PROOF_LEN
    requires payload == ToBytes(w.env.cd, TransferEnvelope(t))
      && Carrier.OpReturnPayload(tx) == Carrier.Carried(payload)
    requires h == InitialHeight(dep) + |bs| + |more| + 1
    requires m == ReplayTxs(w.env, dep, ReplayAll(w.env, dep, bs + more), h, before)
    requires t.nf[0] !in m.nullifiers && t.nf[1] !in m.nullifiers
    ensures ReplayTx(w.env, dep, m, h, (txid, tx)) == ApplyTransfer(w.env, m, h, txid, t, payload)
  {
    hide *;
    Heights(w.env, dep, bs);
    ReadyArity(w.env, ReplayAll(w.env, dep, bs), t);
    BuiltWellFormed(w, ReplayAll(w.env, dep, bs), wit, t);
    FullFits(w.env);
    CarrierAsks(w.env, dep.vault, t, tx);
    BuiltIsAccepted(w.env, dep, bs, more, before, t, h, m);
    Granted(w.env, dep, m, h, txid, tx, t, payload);
  }

  lemma ReadyArity(env: Env, l: Ledger, t: Transfer)
    requires Ready(env, l, t)
    ensures Arity(t)
  {
    hide StatementDigest;
  }

  lemma FullFits(env: Env)
    requires FullCodec(env)
    ensures env.cd.f.p <= Pow256(32)
  {
    hide Pow256, InSubgroup, Encodable;
  }

  lemma Granted(env: Env, dep: Deployment, m: Ledger, h: nat, txid: nat, tx: Carrier.Tx, t: Transfer,
                payload: seq<byte>)
    requires RequestOf(env.cd, dep.vault, tx) == Move(t, payload) && Arity(t) && Judge(env, m, h, t) == None
    ensures ReplayTx(env, dep, m, h, (txid, tx)) == ApplyTransfer(env, m, h, txid, t, payload)
  {
    hide RequestOf, Judge, OutputLeaf;
  }
}
