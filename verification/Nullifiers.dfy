/** One nullifier per key, seed and position: what enters the set, and so what
    spending a note does to every other note. */
module Nullifiers {
  import opened Binary
  import opened Bytes
  import opened Wrappers
  import opened Merkle
  import opened Note
  import opened Circuit
  import opened Binding
  import opened Replay
  import opened EventLog
  import opened Conservation
  import opened Scanning
  import opened Resume
  import opened Building
  import opened Solvency
  import opened Wire
  import Field
  import Carrier
  import S = Selection

  /** What deriving a nullifier hashes. */
  ghost predicate NfQueries(s: Suite, q: Queries, sk: nat, rSeed: nat, pos: nat) {
    (NF_KEY, [sk]) in q && (RHO, [rSeed]) in q && (NF, [SkNf(s, sk), Rho(s, rSeed), s.c.f.R(pos)]) in q
  }

  /** A nullifier determines the key, the seed and the position it came from. */
  lemma NullifierFixes(s: Suite, q: Queries, sk: nat, rSeed: nat, pos: nat, sk': nat, rSeed': nat, pos': nat)
    requires GoodQueries(s, q) && NfQueries(s, q, sk, rSeed, pos) && NfQueries(s, q, sk', rSeed', pos')
    requires pos < s.c.f.p && pos' < s.c.f.p
    ensures NullifierOf(s, sk, rSeed, pos) == NullifierOf(s, sk', rSeed', pos')
            <==> sk == sk' && rSeed == rSeed' && pos == pos'
  {
    hide GoodQueries, Field.Fp.R;
    if NullifierOf(s, sk, rSeed, pos) == NullifierOf(s, sk', rSeed', pos') {
      var a, b := [SkNf(s, sk), Rho(s, rSeed), s.c.f.R(pos)], [SkNf(s, sk'), Rho(s, rSeed'), s.c.f.R(pos')];
      SameQuery(s, q, NF, a, NF, b);
      assert a[0] == b[0] && a[1] == b[1] && a[2] == b[2];
      SameQuery(s, q, NF_KEY, [sk], NF_KEY, [sk']);
      SameQuery(s, q, RHO, [rSeed], RHO, [rSeed']);
      assert [sk][0] == [sk'][0] && [rSeed][0] == [rSeed'][0];
      Field.RSmall(s.c.f, pos);
      Field.RSmall(s.c.f, pos');
    }
  }

  lemma {:induction false} Pow2Bytes(n: nat)
    ensures Pow2(8 * n) == Pow256(n)
  {
    if n > 0 {
      Pow2Bytes(n - 1);
      EightDoublings(8 * (n - 1));
    }
  }

  lemma EightDoublings(k: nat)
    ensures Pow2(k + 8) == 256 * Pow2(k)
  {
    hide Pow2;
    Pow2Add(k, 8);
    TwoToEight();
  }

  lemma TwoToEight()
    ensures Pow2(8) == 256
  {
  }

  /** Every position of the tree is below the modulus. */
  lemma PositionFits(s: Suite, pos: nat)
    requires ValidSuite(s) && pos < Pow2(DEPTH)
    ensures pos < s.c.f.p
  {
    hide Pow2, Pow256, ValidSuite;
    Pow2Bytes(4);
    Pow256Monotone(4, CHUNK);
    Sizes(s);
  }

  // ----------------------------------------------------- what enters the set

  /** The state before transaction k of block i. */
  function Before(env: Env, dep: Deployment, bs: seq<Block>, i: nat, k: nat): Ledger
    requires i < |bs| && k <= |bs[i].txs|
  {
    var l := ReplayAll(env, dep, bs[..i]);
    ReplayTxs(env, dep, l, l.height + 1, bs[i].txs[..k])
  }

  /** p is input a of the transfer accepted from the transaction. */
  ghost predicate InputOf(env: Env, x: Extractor, dep: Deployment, l: Ledger, h: nat, tx: (nat, Carrier.Tx), a: nat,
                          p: Spend)
  {
    var r := RequestOf(env.cd, dep.vault, tx.1);
    r.Move? && Judge(env, l, h, r.t).None? &&
    var w := Witness(env, x, l, r.t);
    a < N_IN && a < |w.inputs| && p == Spend(w.sk, w.inputs[a])
  }

  ghost predicate SpentBy(env: Env, x: Extractor, dep: Deployment, l: Ledger, h: nat, tx: (nat, Carrier.Tx), nf: nat)
  {
    exists a, p :: InputOf(env, x, dep, l, h, tx, a, p) && InputNf(env.s, p.sk, p.inp) == nf
  }

  ghost predicate SpentAt(env: Env, x: Extractor, dep: Deployment, bs: seq<Block>, i: nat, k: nat, a: nat, p: Spend)
  {
    && i < |bs| && k < |bs[i].txs|
    && InputOf(env, x, dep, Before(env, dep, bs, i, k), ReplayAll(env, dep, bs[..i]).height + 1, bs[i].txs[k], a, p)
  }

  /** p is an input, enabled or not, of a transfer accepted in the run. */
  ghost predicate SpentInRun(env: Env, x: Extractor, dep: Deployment, bs: seq<Block>, p: Spend) {
    exists i: nat, k: nat, a: nat :: SpentAt(env, x, dep, bs, i, k, a, p)
  }

  ghost predicate SpentIn(env: Env, x: Extractor, dep: Deployment, l: Ledger, h: nat, txs: seq<(nat, Carrier.Tx)>,
                          nf: nat)
  {
    exists k :: 0 <= k < |txs| && SpentBy(env, x, dep, ReplayTxs(env, dep, l, h, txs[..k]), h, txs[k], nf)
  }

  lemma TxNullifiers(env: Env, x: Extractor, q: Queries, dep: Deployment, l: Ledger, h: nat, tx: (nat, Carrier.Tx),
                     nf: nat)
    requires Conservation.Sound(env, x) && GoodQueries(env.s, q) && TxCovered(env, x, q, dep, l, h, tx)
    ensures nf in ReplayTx(env, dep, l, h, tx).nullifiers <==>
      nf in l.nullifiers || SpentBy(env, x, dep, l, h, tx, nf)
  {
    hide GoodQueries, RequestOf, InputNf, StatementDigest, OutputLeaf, MintLeaf, Le, OriginQueries, TransferCovered,
      Satisfies;
    var r := RequestOf(env.cd, dep.vault, tx.1);
    if r.Move? && Judge(env, l, h, r.t).None? {
      var w := Witness(env, x, l, r.t);
      WitnessBound(env, q, PublicOf(env, l, r.t), w, r.t, Anchored(l, r.t.hAnchor));
      forall a | 0 <= a < N_IN ensures InputOf(env, x, dep, l, h, tx, a, Spend(w.sk, w.inputs[a])) {
      }
      assert InputOf(env, x, dep, l, h, tx, 0, Spend(w.sk, w.inputs[0]));
      assert InputOf(env, x, dep, l, h, tx, 1, Spend(w.sk, w.inputs[1]));
    }
  }

  lemma WitnessBound(env: Env, q: Queries, pub: PublicInputs, w: TransferWitness, t: Transfer, anchored: seq<nat>)
    requires GoodQueries(env.s, q) && Arity(t) && TransferCovered(env, q, w, t, anchored)
    requires Satisfies(env.s, pub, w) && pub.digest == StatementDigest(env, t)
    ensures |w.inputs| == N_IN
    ensures InputNf(env.s, w.sk, w.inputs[0]) == t.nf[0] && InputNf(env.s, w.sk, w.inputs[1]) == t.nf[1]
  {
    hide GoodQueries, InputNf, StatementDigest, InputOk, OutputOk, SpendCovered, OriginQueries, TreePairs, WitnessStmt;
    StatementBinds(env, q, pub, w, t, anchored);
  }

  lemma SpentInSnoc(env: Env, x: Extractor, dep: Deployment, l: Ledger, h: nat, txs: seq<(nat, Carrier.Tx)>, nf: nat)
    requires txs != []
    ensures var n := |txs| - 1;
      SpentIn(env, x, dep, l, h, txs, nf) <==>
        SpentIn(env, x, dep, l, h, txs[..n], nf)
        || SpentBy(env, x, dep, ReplayTxs(env, dep, l, h, txs[..n]), h, txs[n], nf)
  {
    hide SpentBy, ReplayTxs;
    var n := |txs| - 1;
    forall k | 0 <= k <= n ensures txs[..n][..k] == txs[..k] {
    }
    if SpentIn(env, x, dep, l, h, txs[..n], nf) {
      var k :| 0 <= k < n && SpentBy(env, x, dep, ReplayTxs(env, dep, l, h, txs[..n][..k]), h, txs[..n][k], nf);
      assert SpentBy(env, x, dep, ReplayTxs(env, dep, l, h, txs[..k]), h, txs[k], nf);
    }
    if SpentIn(env, x, dep, l, h, txs, nf) {
      var k :| 0 <= k < |txs| && SpentBy(env, x, dep, ReplayTxs(env, dep, l, h, txs[..k]), h, txs[k], nf);
      if k < n {
        assert SpentBy(env, x, dep, ReplayTxs(env, dep, l, h, txs[..n][..k]), h, txs[..n][k], nf);
      }
    }
  }

  lemma {:induction false} TxsNullifiers(env: Env, x: Extractor, q: Queries, dep: Deployment, l: Ledger, h: nat,
                                         txs: seq<(nat, Carrier.Tx)>, nf: nat)
    requires Conservation.Sound(env, x) && GoodQueries(env.s, q) && TxsCovered(env, x, q, dep, l, h, txs)
    ensures nf in ReplayTxs(env, dep, l, h, txs).nullifiers <==>
      nf in l.nullifiers || SpentIn(env, x, dep, l, h, txs, nf)
    decreases |txs|
  {
    hide GoodQueries, TxCovered, ReplayTx, SpentBy, Conservation.Sound, SpentIn;
    if txs == [] {
      NoneSpent(env, x, dep, l, h, nf);
    } else {
      var n := |txs| - 1;
      forall i | 0 <= i < n ensures TxCovered(env, x, q, dep, ReplayTxs(env, dep, l, h, txs[..n][..i]), h,
        txs[..n][i]) {
        assert txs[..n][..i] == txs[..i];
      }
      TxsNullifiers(env, x, q, dep, l, h, txs[..n], nf);
      TxNullifiers(env, x, q, dep, ReplayTxs(env, dep, l, h, txs[..n]), h, txs[n], nf);
      SpentInSnoc(env, x, dep, l, h, txs, nf);
    }
  }

  lemma NoneSpent(env: Env, x: Extractor, dep: Deployment, l: Ledger, h: nat, nf: nat)
    ensures !SpentIn(env, x, dep, l, h, [], nf)
  {
    hide SpentBy;
  }

  /** Some input of a transfer accepted in the run has this nullifier. */
  ghost predicate HasInput(env: Env, x: Extractor, dep: Deployment, bs: seq<Block>, nf: nat) {
    exists p :: SpentInRun(env, x, dep, bs, p) && InputNf(env.s, p.sk, p.inp) == nf
  }

  lemma HasInputSnoc(env: Env, x: Extractor, dep: Deployment, bs: seq<Block>, nf: nat)
    requires bs != []
    ensures var n := |bs| - 1;
      var l := ReplayAll(env, dep, bs[..n]);
      HasInput(env, x, dep, bs, nf) <==>
        HasInput(env, x, dep, bs[..n], nf) || SpentIn(env, x, dep, l, l.height + 1, bs[n].txs, nf)
  {
    hide InputOf, InputNf, ReplayTxs, ReplayAll;
    var n := |bs| - 1;
    var l := ReplayAll(env, dep, bs[..n]);
    forall i | 0 <= i <= n ensures bs[..n][..i] == bs[..i] {
    }
    if HasInput(env, x, dep, bs[..n], nf) {
      var p :| SpentInRun(env, x, dep, bs[..n], p) && InputNf(env.s, p.sk, p.inp) == nf;
      var i: nat, k: nat, a: nat :| SpentAt(env, x, dep, bs[..n], i, k, a, p);
      assert SpentAt(env, x, dep, bs, i, k, a, p);
    }
    if SpentIn(env, x, dep, l, l.height + 1, bs[n].txs, nf) {
      var txs := bs[n].txs;
      var k: nat :| k < |txs|
        && SpentBy(env, x, dep, ReplayTxs(env, dep, l, l.height + 1, txs[..k]), l.height + 1, txs[k], nf);
      var a: nat, p :| InputOf(env, x, dep, ReplayTxs(env, dep, l, l.height + 1, txs[..k]), l.height + 1, txs[k], a, p)
        && InputNf(env.s, p.sk, p.inp) == nf;
      assert SpentAt(env, x, dep, bs, n, k, a, p);
    }
    if HasInput(env, x, dep, bs, nf) {
      var p :| SpentInRun(env, x, dep, bs, p) && InputNf(env.s, p.sk, p.inp) == nf;
      var i: nat, k: nat, a: nat :| SpentAt(env, x, dep, bs, i, k, a, p);
      if i < n {
        assert SpentAt(env, x, dep, bs[..n], i, k, a, p);
      } else {
        assert InputOf(env, x, dep, ReplayTxs(env, dep, l, l.height + 1, bs[n].txs[..k]), l.height + 1, bs[n].txs[k],
            a, p);
      }
    }
  }

  /** A nullifier is in a replayed state's set exactly when it is that of an input
      of a transfer the run accepted. */
  lemma {:induction false} NullifierIff(env: Env, x: Extractor, q: Queries, dep: Deployment, bs: seq<Block>, nf: nat)
    requires Conservation.Sound(env, x) && GoodQueries(env.s, q) && RunCovered(env, x, q, dep, bs)
    ensures nf in ReplayAll(env, dep, bs).nullifiers <==> HasInput(env, x, dep, bs, nf)
    decreases |bs|
  {
    hide GoodQueries, TxsCovered, ReplayTxs, Conservation.Sound, SpentIn, HasInput, Root, RunCovered;
    if bs == [] {
      NoInputs(env, x, dep, nf);
    } else {
      var n := |bs| - 1;
      RunPrefix(env, x, q, dep, bs);
      NullifierIff(env, x, q, dep, bs[..n], nf);
      var l := ReplayAll(env, dep, bs[..n]);
      TxsNullifiers(env, x, q, dep, l, l.height + 1, bs[n].txs, nf);
      HasInputSnoc(env, x, dep, bs, nf);
    }
  }

  lemma NoInputs(env: Env, x: Extractor, dep: Deployment, nf: nat)
    ensures !HasInput(env, x, dep, [], nf)
  {
  }

  // -------------------------------------------------------- one note at a time

  /** Every nullifier derived by an accepted transfer's prover is covered. */
  ghost predicate InputsCovered(env: Env, x: Extractor, q: Queries, dep: Deployment, bs: seq<Block>) {
    forall p :: SpentInRun(env, x, dep, bs, p) ==> NfQueries(env.s, q, p.sk, p.inp.rSeed, p.inp.pos)
  }

  /** A note in the tree, the queries of its nullifier covered. */
  ghost predicate NoteNf(w: Who, q: Queries, n: OwnedNote) {
    n.pos < Pow2(DEPTH) && NfQueries(w.env.s, q, w.keys.sk, n.rSeed, n.pos)
  }

  lemma InputFits(env: Env, x: Extractor, dep: Deployment, bs: seq<Block>, p: Spend)
    requires Conservation.Sound(env, x) && SpentInRun(env, x, dep, bs, p)
    ensures p.inp.pos < Pow2(DEPTH)
  {
    hide Pow2, GadgetBase, PathRoot, Root, ReplayAll, ReplayTxs, RequestOf, StatementDigest, CircuitLeaf, WitnessStmt;
    var i: nat, k: nat, a: nat :| SpentAt(env, x, dep, bs, i, k, a, p);
  }

  /** An own note's nullifier is in the set exactly when an accepted transfer had
      an input of that note's own key, seed and position: whatever else is
      spent, by whomever, leaves it out. */
  lemma SpentOnlyByItself(w: Who, x: Extractor, q: Queries, dep: Deployment, bs: seq<Block>, n: OwnedNote)
    requires ValidSuite(w.env.s) && Conservation.Sound(w.env, x) && GoodQueries(w.env.s, q)
    requires RunCovered(w.env, x, q, dep, bs) && InputsCovered(w.env, x, q, dep, bs)
    requires NoteNf(w, q, n)
    ensures OwnNf(w, n) in ReplayAll(w.env, dep, bs).nullifiers <==>
      exists p :: SpentInRun(w.env, x, dep, bs, p)
        && p.sk == w.keys.sk && p.inp.rSeed == n.rSeed && p.inp.pos == n.pos
  {
    hide ValidSuite, Conservation.Sound, GoodQueries, RunCovered, ReplayAll, SpentInRun, NullifierOf, Pow2, NfQueries;
    NullifierIff(w.env, x, q, dep, bs, OwnNf(w, n));
    PositionFits(w.env.s, n.pos);
    forall p | SpentInRun(w.env, x, dep, bs, p)
      ensures InputNf(w.env.s, p.sk, p.inp) == OwnNf(w, n)
              <==> p.sk == w.keys.sk && p.inp.rSeed == n.rSeed && p.inp.pos == n.pos
    {
      InputFits(w.env, x, dep, bs, p);
      PositionFits(w.env.s, p.inp.pos);
      NullifierFixes(w.env.s, q, p.sk, p.inp.rSeed, p.inp.pos, w.keys.sk, n.rSeed, n.pos);
    }
  }

  /** What the wallet's own transfer adds to the set: of all its notes exactly
      the chosen ones, unless the dummy input has a note's seed and position. */
  lemma SpendsChosen(w: Who, q: Queries, l: Ledger, notes: seq<OwnedNote>, chosen: seq<nat>, to: Address, amount: nat,
                     seeds: Seeds, wit: NativeWitness, t: Transfer, h: nat, txid: nat, payload: seq<byte>, m: nat)
    requires ValidSuite(w.env.s) && GoodQueries(w.env.s, q) && PositionsDiffer(notes) && m < |notes|
    requires Says(w, l, notes, chosen, to, amount, seeds, wit, t) && |chosen| <= N_IN
    requires forall i :: 0 <= i < |notes| ==> NoteNf(w, q, notes[i])
    requires NfQueries(w.env.s, q, w.keys.sk, seeds.dummy, 0)
    ensures OwnNf(w, notes[m]) in ApplyTransfer(w.env, l, h, txid, t, payload).nullifiers <==>
        OwnNf(w, notes[m]) in l.nullifiers || m in chosen
          || (|chosen| < N_IN && notes[m].rSeed == seeds.dummy && notes[m].pos == 0)
  {
    hide ValidSuite, GoodQueries, NullifierOf, Pow2, NfQueries, S.Total, Encrypt, OutputLeaf, PathRoot, Root,
      InputLeaf;
    PositionFits(w.env.s, notes[m].pos);
    assert 0 < w.env.s.c.f.p by { PositionFits(w.env.s, notes[m].pos); }
    forall k | 0 <= k < N_IN
      ensures t.nf[k] == OwnNf(w, notes[m]) <==>
        if k < |chosen| then chosen[k] == m else notes[m].rSeed == seeds.dummy && notes[m].pos == 0
    {
      InputNullifier(w, q, l, notes, chosen, seeds.dummy, wit, t.nf, k, m);
    }
  }

  lemma InputNullifier(w: Who, q: Queries, l: Ledger, notes: seq<OwnedNote>, chosen: seq<nat>, dummy: nat,
                       wit: NativeWitness, nf: seq<nat>, k: nat, m: nat)
    requires ValidSuite(w.env.s) && GoodQueries(w.env.s, q) && PositionsDiffer(notes) && m < |notes|
    requires S.Indices(notes, chosen) && TwoByTwo(wit) && wit.sk == w.keys.sk && k < N_IN == |nf|
    requires InputsOk(w, AnchoredLeaves(l), notes, chosen, dummy, wit.inputs)
    requires nf[k] == NullifierOf(w.env.s, wit.sk, wit.inputs[k].rSeed, wit.inputs[k].pos)
    requires forall i :: 0 <= i < |notes| ==> NoteNf(w, q, notes[i])
    requires NfQueries(w.env.s, q, w.keys.sk, dummy, 0)
    ensures nf[k] == OwnNf(w, notes[m]) <==>
      if k < |chosen| then chosen[k] == m else notes[m].rSeed == dummy && notes[m].pos == 0
  {
    hide ValidSuite, GoodQueries, NullifierOf, Pow2, NfQueries, PathRoot, Root, InputLeaf, AnchoredLeaves;
    var n := notes[m];
    PositionFits(w.env.s, n.pos);
    if k < |chosen| {
      var c := notes[chosen[k]];
      assert SpendsNote(w, AnchoredLeaves(l), c, wit.inputs[k]);
      PositionFits(w.env.s, c.pos);
      NullifierFixes(w.env.s, q, w.keys.sk, c.rSeed, c.pos, w.keys.sk, n.rSeed, n.pos);
    } else {
      NullifierFixes(w.env.s, q, w.keys.sk, dummy, 0, w.keys.sk, n.rSeed, n.pos);
    }
  }
}
