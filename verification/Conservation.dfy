/** No inflation: over every run, what the leaves not yet spent are worth is
    exactly what was deposited by the accepted mints, and no position is spent
    twice. */
module Conservation {
  import opened Bytes
  import opened Field
  import opened Wrappers
  import opened Edwards
  import PointCodec
  import opened Wire
  import opened Merkle
  import opened Note
  import opened Circuit
  import opened Binding
  import opened Replay
  import Carrier

  /** What a valid environment provides: the curve and hash facts, and one
      field throughout. */
  ghost predicate ValidEnv(env: Env) {
    ValidSuite(env.s) && SoundCodec(env.cd) && env.cd.f == env.s.c.f
  }

  type Extractor = (PublicInputs, seq<byte>) -> TransferWitness

  /** Knowledge soundness: an accepted proof has a witness. */
  ghost predicate Sound(env: Env, x: Extractor) {
    forall pub, proof :: env.verify(pub, proof) ==> Satisfies(env.s, pub, x(pub, proof))
  }

  datatype Spend = Spend(sk: nat, inp: InputWitness)

  /** The books kept beside a ledger: how every leaf was created, and every
      spend by an enabled input. */
  datatype Books = Books(origins: seq<Origin>, spends: seq<Spend>)

  function Enabled(w: TransferWitness, i: nat): seq<Spend>
    requires i < |w.inputs|
  {
    if w.inputs[i].enabled then [Spend(w.sk, w.inputs[i])] else []
  }

  function BookTransfer(env: Env, w: TransferWitness, t: Transfer, g: Books): Books
    requires |w.inputs| == N_IN && |w.outputs| == N_OUT
  {
    var hBody := HBody(env, t);
    Books(g.origins + [FromOutput(w.outputs[0], hBody, 0)] + [FromOutput(w.outputs[1], hBody, 1)],
          g.spends + Enabled(w, 0) + Enabled(w, 1))
  }

  function Witness(env: Env, x: Extractor, l: Ledger, t: Transfer): TransferWitness
    requires Arity(t) && t.hAnchor in l.roots
  {
    x(PublicOf(env, l, t), t.proof)
  }

  ghost function BookTx(env: Env, x: Extractor, dep: Deployment, l: Ledger, h: nat, tx: (nat, Carrier.Tx),
                        g: Books): Books
    requires Sound(env, x)
  {
    hide RequestOf, StmtOf, HBody, InputOk, OutputOk, WitnessStmt, Fp.Add;
    var r := RequestOf(env.cd, dep.vault, tx.1);
    if Refusal(env, l, h, r).Some? then g
    else match r
      case Move(t, _) => BookTransfer(env, Witness(env, x, l, t), t, g)
      case Deposit(m, _, value) => g.(origins := g.origins + [FromMint(value, Le(m.d), m.pkD, m.rSeed)])
      case _ => g
  }

  ghost function BookTxs(env: Env, x: Extractor, dep: Deployment, l: Ledger, h: nat, txs: seq<(nat, Carrier.Tx)>,
                         g: Books): Books
    requires Sound(env, x)
  {
    if txs == [] then g
    else
      var n := |txs| - 1;
      BookTx(env, x, dep, ReplayTxs(env, dep, l, h, txs[..n]), h, txs[n], BookTxs(env, x, dep, l, h, txs[..n], g))
  }

  ghost function BookAll(env: Env, x: Extractor, dep: Deployment, bs: seq<Block>): Books
    requires Sound(env, x)
  {
    if bs == [] then Books([], [])
    else
      var n := |bs| - 1;
      var l := ReplayAll(env, dep, bs[..n]);
      BookTxs(env, x, dep, l, l.height + 1, bs[n].txs, BookAll(env, x, dep, bs[..n]))
  }

  // ------------------------------------------------------------ worth and spent

  function Positions(spends: seq<Spend>): set<nat> {
    if spends == [] then {} else Positions(spends[..|spends| - 1]) + {spends[|spends| - 1].inp.pos}
  }

  /** The sum of the values of the leaves whose position is not in spent. */
  function Worth(origins: seq<Origin>, spent: set<nat>): nat {
    if origins == [] then 0
    else
      var n := |origins| - 1;
      Worth(origins[..n], spent) + if n in spent then 0 else OriginValue(origins[n])
  }

  /** The sum of the values of the accepted mints. */
  function Minted(events: seq<Event>): nat {
    if events == [] then 0
    else
      var n := |events| - 1;
      Minted(events[..n]) + if events[n].MintEvent? then events[n].value else 0
  }

  lemma {:induction false} WorthSpend(origins: seq<Origin>, spent: set<nat>, p: nat)
    ensures p < |origins| && p !in spent ==>
      Worth(origins, spent) == Worth(origins, spent + {p}) + OriginValue(origins[p])
    ensures p >= |origins| ==> Worth(origins, spent) == Worth(origins, spent + {p})
  {
    if origins != [] {
      WorthSpend(origins[..|origins| - 1], spent, p);
    }
  }

  lemma WorthCreate(origins: seq<Origin>, spent: set<nat>, g: Origin)
    requires |origins| !in spent
    ensures Worth(origins + [g], spent) == Worth(origins, spent) + OriginValue(g)
  {
    assert (origins + [g])[..|origins|] == origins;
  }

  lemma MintedStep(events: seq<Event>, e: Event)
    ensures Minted(events + [e]) == Minted(events) + if e.MintEvent? then e.value else 0
  {
    assert (events + [e])[..|events|] == events;
  }

  lemma PositionsStep(spends: seq<Spend>, s: Spend)
    ensures Positions(spends + [s]) == Positions(spends) + {s.inp.pos}
  {
    assert (spends + [s])[..|spends|] == spends;
  }

  lemma {:induction false} PositionsIff(spends: seq<Spend>, p: nat)
    ensures p in Positions(spends) <==> exists k :: 0 <= k < |spends| && spends[k].inp.pos == p
  {
    if spends != [] {
      var n := |spends| - 1;
      PositionsIff(spends[..n], p);
      assert forall k :: 0 <= k < n ==> spends[..n][k] == spends[k];
    }
  }

  // ---------------------------------------------------------------- invariant

  ghost predicate RootsOk(env: Env, l: Ledger) {
    forall k :: k in l.roots ==>
      k in l.leafCounts && l.leafCounts[k] <= |l.leaves|
      && l.roots[k] == Root(NodeOf(env.s), l.leaves[..l.leafCounts[k]])
  }

  ghost predicate LeavesOk(env: Env, q: Queries, l: Ledger, g: Books) {
    && |g.origins| == |l.leaves|
    && forall i :: 0 <= i < |l.leaves| ==>
       OriginOk(env.s, q, g.origins[i]) && OriginLeaf(env.s, g.origins[i]) == l.leaves[i]
  }

  /** A booked spend opens the leaf at its position for the value that leaf was
      created with, and its nullifier is in the set. */
  ghost predicate SpendOk(env: Env, q: Queries, l: Ledger, g: Books, p: Spend) {
    && p.inp.pos < |l.leaves| && p.inp.pos < |g.origins|
    && Opening(env.s, q, p.sk, p.inp)
    && CircuitLeaf(env.s, p.sk, p.inp) == l.leaves[p.inp.pos]
    && OriginValue(g.origins[p.inp.pos]) == p.inp.v
    && InputNf(env.s, p.sk, p.inp) in l.nullifiers
  }

  ghost predicate SpendsOk(env: Env, q: Queries, l: Ledger, g: Books) {
    && (forall k :: 0 <= k < |g.spends| ==> SpendOk(env, q, l, g, g.spends[k]))
    && (forall i, k :: 0 <= i < k < |g.spends| ==> g.spends[i].inp.pos != g.spends[k].inp.pos)
  }

  ghost predicate Balanced(l: Ledger, g: Books) {
    Worth(g.origins, Positions(g.spends)) == Minted(l.events)
  }

  ghost predicate Sane(env: Env, q: Queries, l: Ledger, g: Books) {
    RootsOk(env, l) && LeavesOk(env, q, l, g) && SpendsOk(env, q, l, g)
  }

  ghost predicate Inv(env: Env, q: Queries, l: Ledger, g: Books) {
    Sane(env, q, l, g) && Balanced(l, g)
  }

  // ----------------------------------------------------------- what a run hashes

  ghost function NodeQueries(q: Queries): iset<(nat, nat)> {
    iset a: nat, b: nat | (NODE, [a, b]) in q :: (a, b)
  }

  ghost predicate SpendCovered(env: Env, q: Queries, sk: nat, inp: InputWitness) {
    inp.enabled ==>
      OpeningQueries(env.s, q, sk, inp)
      && PathPairs(NodeOf(env.s), CircuitLeaf(env.s, sk, inp), inp.pos, inp.siblings, NodeQueries(q))
  }

  /** Every query made by an accepted transfer and its witness is in q. */
  ghost predicate TransferCovered(env: Env, q: Queries, w: TransferWitness, t: Transfer, anchored: seq<nat>)
    requires Arity(t)
  {
    && |w.inputs| == N_IN && |w.outputs| == N_OUT
    && (STMT, StmtOf(env, t)) in q && (STMT, WitnessStmt(env.s, w)) in q
    && SpendCovered(env, q, w.sk, w.inputs[0]) && SpendCovered(env, q, w.sk, w.inputs[1])
    && TreePairs(NodeOf(env.s), anchored, NodeQueries(q))
    && OriginQueries(env.s, q, FromOutput(w.outputs[0], HBody(env, t), 0))
    && OriginQueries(env.s, q, FromOutput(w.outputs[1], HBody(env, t), 1))
  }

  function Anchored(l: Ledger, k: nat): seq<nat> {
    if k in l.leafCounts && l.leafCounts[k] <= |l.leaves| then l.leaves[..l.leafCounts[k]] else l.leaves
  }

  ghost predicate TxCovered(env: Env, x: Extractor, q: Queries, dep: Deployment, l: Ledger, h: nat,
                            tx: (nat, Carrier.Tx)) {
    var r := RequestOf(env.cd, dep.vault, tx.1);
    Refusal(env, l, h, r).None? ==>
      match r
      case Move(t, _) => TransferCovered(env, q, Witness(env, x, l, t), t, Anchored(l, t.hAnchor))
      case Deposit(m, _, value) => OriginQueries(env.s, q, FromMint(value, Le(m.d), m.pkD, m.rSeed))
      case _ => true
  }

  ghost predicate TxsCovered(env: Env, x: Extractor, q: Queries, dep: Deployment, l: Ledger, h: nat,
                             txs: seq<(nat, Carrier.Tx)>) {
    forall i :: 0 <= i < |txs| ==> TxCovered(env, x, q, dep, ReplayTxs(env, dep, l, h, txs[..i]), h, txs[i])
  }

  /** Every query of the run, prover's side included, is in q. */
  ghost predicate RunCovered(env: Env, x: Extractor, q: Queries, dep: Deployment, bs: seq<Block>) {
    forall i :: 0 <= i < |bs| ==>
      var l := ReplayAll(env, dep, bs[..i]);
      TxsCovered(env, x, q, dep, l, l.height + 1, bs[i].txs)
  }

  // ------------------------------------------------------------ one transfer

  /** The digest binds the statement: the witness speaks of the nullifiers and
      ciphertexts that were published. */
  lemma StatementBinds(env: Env, q: Queries, pub: PublicInputs, w: TransferWitness, t: Transfer, anchored: seq<nat>)
    requires GoodQueries(env.s, q) && Arity(t) && TransferCovered(env, q, w, t, anchored)
    requires Satisfies(env.s, pub, w) && pub.digest == StatementDigest(env, t)
    ensures forall i :: 0 <= i < N_IN ==> InputNf(env.s, w.sk, w.inputs[i]) == t.nf[i]
    ensures forall j :: 0 <= j < N_OUT ==> OutputCt(env.s, w.outputs[j]) == (t.pkEph[j], t.ct[j])
  {
    hide GoodQueries, OutputCt, InputNf, HBody, SpendCovered, TreePairs, OriginQueries, InputOk, OutputOk, Fp.Add;
    var a, b := WitnessStmt(env.s, w), StmtOf(env, t);
    SameQuery(env.s, q, STMT, a, STMT, b);
    StmtFields(env.s, w, t, HBody(env, t));
  }

  lemma StmtFields(s: Suite, w: TransferWitness, t: Transfer, hBody: nat)
    requires |w.inputs| == N_IN && |w.outputs| == N_OUT && Arity(t)
    requires WitnessStmt(s, w) == StmtInputs(hBody, t.nf[0], t.nf[1], t.pkEph[0], t.pkEph[1], t.ct[0], t.ct[1])
    ensures forall i :: 0 <= i < N_IN ==> InputNf(s, w.sk, w.inputs[i]) == t.nf[i]
    ensures forall j :: 0 <= j < N_OUT ==> OutputCt(s, w.outputs[j]) == (t.pkEph[j], t.ct[j])
  {
    hide OutputCt, InputNf;
    var a, b := WitnessStmt(s, w), StmtInputs(hBody, t.nf[0], t.nf[1], t.pkEph[0], t.pkEph[1], t.ct[0], t.ct[1]);
    assert a[3] == b[3] && a[4] == b[4];
    assert a[5] == b[5] && a[6] == b[6] && a[7] == b[7] && a[8] == b[8];
    assert a[9] == b[9] && a[10] == b[10] && a[11] == b[11];
    assert a[12] == b[12] && a[13] == b[13] && a[14] == b[14];
  }

  lemma NodesDontCollide(s: Suite, q: Queries)
    requires GoodQueries(s, q)
    ensures CollisionFree(NodeOf(s), NodeQueries(q))
  {
    var n := NodeQueries(q);
    forall a, b, c, d | (a, b) in n && (c, d) in n && NodeOf(s)(a, b) == NodeOf(s)(c, d) ensures a == c && b == d {
      SameQuery(s, q, NODE, [a, b], NODE, [c, d]);
      assert [a, b][0] == [c, d][0] && [a, b][1] == [c, d][1];
    }
  }

  /** An enabled input of a proved statement spends a leaf of the ledger, for
      its own value, at a position not spent before. */
  lemma SpendIsGood(env: Env, q: Queries, l: Ledger, g: Books, k: nat, p: Spend, nf: nat)
    requires ValidEnv(env) && GoodQueries(env.s, q) && Sane(env, q, l, g) && k in l.roots
    requires p.inp.enabled && InputOk(env.s, p.sk, p.inp, l.roots[k]) && SpendCovered(env, q, p.sk, p.inp)
    requires TreePairs(NodeOf(env.s), Anchored(l, k), NodeQueries(q))
    requires nf == InputNf(env.s, p.sk, p.inp) && nf !in l.nullifiers
    ensures SpendOk(env, q, l.(nullifiers := l.nullifiers + {nf}), g, p)
    ensures p.inp.pos !in Positions(g.spends)
  {
    hide GoodQueries, ValidSuite, OpeningQueries, GadgetBase, PathRoot, Root, TreePairs, PathPairs, CircuitLeaf,
      Binary.Pow2, Pow256, InputNf, OriginOk, OriginLeaf, SoundCodec;
    var leaf := CircuitLeaf(env.s, p.sk, p.inp);
    NodesDontCollide(env.s, q);
    PathSound(NodeOf(env.s), Anchored(l, k), NodeQueries(q), leaf, p.inp.pos, p.inp.siblings);
    OpeningNotEmpty(env.s, q, p.sk, p.inp);
    assert p.inp.pos < |Anchored(l, k)| && leaf == l.leaves[p.inp.pos];
    ValueBinds(env.s, q, g.origins[p.inp.pos], p.sk, p.inp);
    PositionsIff(g.spends, p.inp.pos);
    if p.inp.pos in Positions(g.spends) {
      var i :| 0 <= i < |g.spends| && g.spends[i].inp.pos == p.inp.pos;
      SameNullifier(env, q, l, g, g.spends[i], p);
    }
  }

  lemma SameNullifier(env: Env, q: Queries, l: Ledger, g: Books, a: Spend, p: Spend)
    requires ValidEnv(env) && GoodQueries(env.s, q) && SpendOk(env, q, l, g, a)
    requires Opening(env.s, q, p.sk, p.inp) && a.inp.pos == p.inp.pos
    requires CircuitLeaf(env.s, p.sk, p.inp) == l.leaves[p.inp.pos]
    ensures InputNf(env.s, p.sk, p.inp) in l.nullifiers
  {
    hide GoodQueries, ValidSuite, Opening, CircuitLeaf, InputNf, SoundCodec;
    NullifierBinds(env.s, q, a.sk, a.inp, p.sk, p.inp);
  }

  /** Booking one spend takes its value out of what is unspent. */
  lemma BookSpend(env: Env, q: Queries, l: Ledger, g: Books, p: Spend)
    requires SpendsOk(env, q, l, g) && SpendOk(env, q, l, g, p) && p.inp.pos !in Positions(g.spends)
    ensures var g' := g.(spends := g.spends + [p]);
      && SpendsOk(env, q, l, g')
      && Worth(g.origins, Positions(g.spends)) == Worth(g.origins, Positions(g'.spends)) + p.inp.v
  {
    hide SpendOk;
    var g' := g.(spends := g.spends + [p]);
    PositionsStep(g.spends, p);
    WorthOf(env, q, l, g, p);
    forall k | 0 <= k < |g'.spends| ensures SpendOk(env, q, l, g', g'.spends[k]) {
      SpendOkBooks(env, q, l, g, g', g'.spends[k]);
    }
    forall i | 0 <= i < |g.spends| ensures g.spends[i].inp.pos != p.inp.pos {
      PositionsIff(g.spends, g.spends[i].inp.pos);
    }
  }

  lemma WorthOf(env: Env, q: Queries, l: Ledger, g: Books, p: Spend)
    requires SpendOk(env, q, l, g, p) && p.inp.pos !in Positions(g.spends)
    ensures Worth(g.origins, Positions(g.spends)) == Worth(g.origins, Positions(g.spends) + {p.inp.pos}) + p.inp.v
  {
    hide Opening, CircuitLeaf, InputNf;
    WorthSpend(g.origins, Positions(g.spends), p.inp.pos);
  }

  /** A good spend stays good as leaves and nullifiers are added. */
  lemma SpendOkBooks(env: Env, q: Queries, l: Ledger, g: Books, g': Books, p: Spend)
    requires SpendOk(env, q, l, g, p) && g.origins == g'.origins
    ensures SpendOk(env, q, l, g', p)
  {
    hide Opening, CircuitLeaf, InputNf;
  }

  lemma SpendOkGrows(env: Env, q: Queries, l: Ledger, g: Books, l': Ledger, g': Books, p: Spend)
    requires SpendOk(env, q, l, g, p) && l.leaves <= l'.leaves && l.nullifiers <= l'.nullifiers
      && g.origins <= g'.origins
    ensures SpendOk(env, q, l', g', p)
  {
    hide Opening, CircuitLeaf, InputNf;
  }

  lemma SpendsOkGrows(env: Env, q: Queries, l: Ledger, g: Books, l': Ledger, g': Books)
    requires SpendsOk(env, q, l, g) && l.leaves <= l'.leaves && l.nullifiers <= l'.nullifiers && g.origins <= g'.origins
    requires g.spends == g'.spends
    ensures SpendsOk(env, q, l', g')
  {
    hide SpendOk;
    forall k | 0 <= k < |g.spends| ensures SpendOk(env, q, l', g', g.spends[k]) {
      SpendOkGrows(env, q, l, g, l', g', g.spends[k]);
    }
  }

  /** Creating one leaf adds its value to what is unspent. */
  lemma BookOrigin(env: Env, q: Queries, l: Ledger, g: Books, o: Origin)
    requires LeavesOk(env, q, l, g) && SpendsOk(env, q, l, g) && OriginOk(env.s, q, o)
    ensures var l' := l.(leaves := l.leaves + [OriginLeaf(env.s, o)]);
      var g' := g.(origins := g.origins + [o]);
      && LeavesOk(env, q, l', g') && SpendsOk(env, q, l', g')
      && Worth(g'.origins, Positions(g.spends)) == Worth(g.origins, Positions(g.spends)) + OriginValue(o)
  {
    hide OriginOk, OriginLeaf, OriginValue, SpendOk;
    var l' := l.(leaves := l.leaves + [OriginLeaf(env.s, o)]);
    var g' := g.(origins := g.origins + [o]);
    SpendsOkGrows(env, q, l, g, l', g');
    PositionsIff(g.spends, |g.origins|);
    InRange(env, q, l, g);
    WorthCreate(g.origins, Positions(g.spends), o);
  }

  lemma InRange(env: Env, q: Queries, l: Ledger, g: Books)
    requires SpendsOk(env, q, l, g)
    ensures forall k :: 0 <= k < |g.spends| ==> g.spends[k].inp.pos < |g.origins|
  {
    hide Opening, CircuitLeaf, InputNf;
  }

  /** One input of a proved statement: its nullifier goes into the set, and its
      value out of what is unspent. */
  lemma BookInput(env: Env, q: Queries, l: Ledger, g: Books, k: nat, w: TransferWitness, i: nat, nf: nat)
    requires ValidEnv(env) && GoodQueries(env.s, q) && Sane(env, q, l, g) && k in l.roots && i < |w.inputs|
    requires InputOk(env.s, w.sk, w.inputs[i], l.roots[k]) && SpendCovered(env, q, w.sk, w.inputs[i])
    requires w.inputs[i].enabled || w.inputs[i].v == 0
    requires TreePairs(NodeOf(env.s), Anchored(l, k), NodeQueries(q))
    requires nf == InputNf(env.s, w.sk, w.inputs[i]) && nf !in l.nullifiers
    ensures var l' := l.(nullifiers := l.nullifiers + {nf});
      var g' := g.(spends := g.spends + Enabled(w, i));
      && Sane(env, q, l', g')
      && Worth(g.origins, Positions(g.spends)) == Worth(g.origins, Positions(g'.spends)) + w.inputs[i].v
  {
    hide GoodQueries, ValidEnv, InputOk, SpendCovered, TreePairs, InputNf, SpendsOk, SpendOk, Root, OriginOk,
      OriginLeaf;
    var l' := l.(nullifiers := l.nullifiers + {nf});
    SpendsOkGrows(env, q, l, g, l', g);
    if w.inputs[i].enabled {
      var p := Spend(w.sk, w.inputs[i]);
      SpendIsGood(env, q, l, g, k, p, nf);
      BookSpend(env, q, l', g, p);
    } else {
      assert g.spends + Enabled(w, i) == g.spends;
    }
  }

  lemma OutputIsOrigin(env: Env, q: Queries, w: TransferWitness, t: Transfer, j: nat)
    requires ValidEnv(env) && Arity(t) && j < N_OUT && |w.outputs| == N_OUT
    requires OutputOk(env.s, w.outputs[j]) && OutputCt(env.s, w.outputs[j]) == (t.pkEph[j], t.ct[j])
    requires OriginQueries(env.s, q, FromOutput(w.outputs[j], HBody(env, t), j))
    ensures var o := FromOutput(w.outputs[j], HBody(env, t), j);
      OriginOk(env.s, q, o) && OriginLeaf(env.s, o) == OutputLeaf(env, t, j) && OriginValue(o) == w.outputs[j].v
  {
    hide ValidEnv, HBody, OutputCt, OriginQueries, GadgetBase, Pow256, PointCodec.InSubgroup, CtLeaf;
  }

  /** An accepted transfer moves value and creates none. */
  lemma TransferConserves(env: Env, q: Queries, l: Ledger, h: nat, txid: nat, t: Transfer, payload: seq<byte>,
                          w: TransferWitness, g: Books)
    requires ValidEnv(env) && GoodQueries(env.s, q) && Inv(env, q, l, g)
    requires Arity(t) && Judge(env, l, h, t).None? && Satisfies(env.s, PublicOf(env, l, t), w)
    requires TransferCovered(env, q, w, t, Anchored(l, t.hAnchor))
    ensures Inv(env, q, ApplyTransfer(env, l, h, txid, t, payload), BookTransfer(env, w, t, g))
  {
    hide GoodQueries, ValidSuite, SoundCodec, InputOk, OutputOk, SpendCovered, TreePairs, InputNf, OutputCt, SpendsOk,
      SpendOk, Root, OriginOk, OriginLeaf, OriginQueries, LeavesOk, Worth, Positions, Minted, HBody, StatementDigest,
      OutputLeaf, Fp.Add, OriginValue;
    StatementBinds(env, q, PublicOf(env, l, t), w, t, Anchored(l, t.hAnchor));
    Conserves(env.s, PublicOf(env, l, t), w);
    BookInput(env, q, l, g, t.hAnchor, w, 0, t.nf[0]);
    var l1 := l.(nullifiers := l.nullifiers + {t.nf[0]});
    var g1 := g.(spends := g.spends + Enabled(w, 0));
    BookInput(env, q, l1, g1, t.hAnchor, w, 1, t.nf[1]);
    var l2 := l1.(nullifiers := l1.nullifiers + {t.nf[1]});
    var g2 := g1.(spends := g1.spends + Enabled(w, 1));
    var o0, o1 := FromOutput(w.outputs[0], HBody(env, t), 0), FromOutput(w.outputs[1], HBody(env, t), 1);
    OutputIsOrigin(env, q, w, t, 0);
    OutputIsOrigin(env, q, w, t, 1);
    BookOrigin(env, q, l2, g2, o0);
    var l3 := l2.(leaves := l2.leaves + [OriginLeaf(env.s, o0)]);
    var g3 := g2.(origins := g2.origins + [o0]);
    BookOrigin(env, q, l3, g3, o1);
    var l4, g4 := ApplyTransfer(env, l, h, txid, t, payload), BookTransfer(env, w, t, g);
    assert g4 == g3.(origins := g3.origins + [o1]);
    assert l4.leaves == l3.leaves + [OriginLeaf(env.s, o1)] && l4.nullifiers == l2.nullifiers;
    Carry(env, q, l3.(leaves := l4.leaves), g4, l4);
    GrowRoots(env, l, l4);
    MintedStep(l.events, TransferEvent(txid, h, payload, [|l.leaves|, |l.leaves| + 1]));
  }

  /** Leaves and spends do not look at the other fields of the ledger. */
  lemma Carry(env: Env, q: Queries, l: Ledger, g: Books, l': Ledger)
    requires LeavesOk(env, q, l, g) && SpendsOk(env, q, l, g) && l.leaves == l'.leaves && l.nullifiers == l'.nullifiers
    ensures LeavesOk(env, q, l', g) && SpendsOk(env, q, l', g)
  {
    hide OriginOk, OriginLeaf, SpendsOk;
    SpendsOkGrows(env, q, l, g, l', g);
  }

  lemma GrowRoots(env: Env, l: Ledger, l': Ledger)
    requires RootsOk(env, l) && l.leaves <= l'.leaves && l.roots == l'.roots && l.leafCounts == l'.leafCounts
    ensures RootsOk(env, l')
  {
    hide Root;
    forall k | k in l'.roots ensures l'.leaves[..l.leafCounts[k]] == l.leaves[..l.leafCounts[k]] {
    }
  }

  /** An accepted mint creates exactly what was paid to the vault. */
  lemma MintConserves(env: Env, q: Queries, l: Ledger, h: nat, txid: nat, m: Mint, payload: seq<byte>, value: nat,
                      g: Books)
    requires Inv(env, q, l, g) && OriginQueries(env.s, q, FromMint(value, Le(m.d), m.pkD, m.rSeed))
    ensures Inv(env, q, ApplyMint(env, l, h, txid, m, payload, value),
                g.(origins := g.origins + [FromMint(value, Le(m.d), m.pkD, m.rSeed)]))
  {
    hide SpendsOk, Root, LeavesOk, Worth, Positions, Minted, Le, MintInputs;
    var o := FromMint(value, Le(m.d), m.pkD, m.rSeed);
    BookOrigin(env, q, l, g, o);
    var l' := ApplyMint(env, l, h, txid, m, payload, value);
    var g' := g.(origins := g.origins + [o]);
    Carry(env, q, l.(leaves := l'.leaves), g', l');
    GrowRoots(env, l, l');
    MintedStep(l.events, MintEvent(txid, h, payload, value, |l.leaves|));
  }

  // ------------------------------------------------------------------ whole runs

  lemma TxConserves(env: Env, x: Extractor, q: Queries, dep: Deployment, l: Ledger, h: nat, tx: (nat, Carrier.Tx),
                    g: Books)
    requires ValidEnv(env) && Sound(env, x) && GoodQueries(env.s, q) && Inv(env, q, l, g)
    requires TxCovered(env, x, q, dep, l, h, tx)
    ensures Inv(env, q, ReplayTx(env, dep, l, h, tx), BookTx(env, x, dep, l, h, tx, g))
  {
    hide GoodQueries, ValidEnv, Inv, RequestOf, Satisfies, TransferCovered, OriginQueries, ApplyTransfer, ApplyMint,
      BookTransfer, StatementDigest;
    var r := RequestOf(env.cd, dep.vault, tx.1);
    if Refusal(env, l, h, r).Some? {
      Reject(env, q, l, g, ReplayTx(env, dep, l, h, tx));
    } else {
      match r {
        case Move(t, payload) =>
          TransferConserves(env, q, l, h, tx.0, t, payload, Witness(env, x, l, t), g);
        case Deposit(m, payload, value) =>
          MintConserves(env, q, l, h, tx.0, m, payload, value, g);
        case _ =>
      }
    }
  }

  lemma Reject(env: Env, q: Queries, l: Ledger, g: Books, l': Ledger)
    requires Inv(env, q, l, g) && l' == l.(rejections := l'.rejections)
    ensures Inv(env, q, l', g)
  {
    hide SpendsOk, Root, LeavesOk, Worth, Positions, Minted;
    Carry(env, q, l, g, l');
    GrowRoots(env, l, l');
  }

  lemma {:induction false} TxsConserve(env: Env, x: Extractor, q: Queries, dep: Deployment, l: Ledger, h: nat,
                                       txs: seq<(nat, Carrier.Tx)>, g: Books)
    requires ValidEnv(env) && Sound(env, x) && GoodQueries(env.s, q) && Inv(env, q, l, g)
    requires TxsCovered(env, x, q, dep, l, h, txs)
    ensures Inv(env, q, ReplayTxs(env, dep, l, h, txs), BookTxs(env, x, dep, l, h, txs, g))
  {
    hide GoodQueries, ValidEnv, Inv, TxCovered, ReplayTx, BookTx, Sound;
    if txs != [] {
      var n := |txs| - 1;
      forall i | 0 <= i < n ensures TxCovered(env, x, q, dep, ReplayTxs(env, dep, l, h, txs[..n][..i]), h,
        txs[..n][i]) {
        assert txs[..n][..i] == txs[..i];
      }
      TxsConserve(env, x, q, dep, l, h, txs[..n], g);
      TxConserves(env, x, q, dep, ReplayTxs(env, dep, l, h, txs[..n]), h, txs[n],
        BookTxs(env, x, dep, l, h, txs[..n], g));
    }
  }

  /** Closing and pruning a block moves no value. */
  lemma CloseConserves(env: Env, q: Queries, dep: Deployment, l: Ledger, g: Books, h: nat, hash: nat)
    requires Inv(env, q, l, g)
    ensures Inv(env, q, Prune(dep, Close(env, l, h, hash)), g)
  {
    hide SpendsOk, Root, LeavesOk, Worth, Positions, Minted;
    var l' := Prune(dep, Close(env, l, h, hash));
    Carry(env, q, l, g, l');
    assert l.leaves[..|l.leaves|] == l.leaves;
  }

  lemma {:induction false} RunConserves(env: Env, x: Extractor, q: Queries, dep: Deployment, bs: seq<Block>)
    requires ValidEnv(env) && Sound(env, x) && GoodQueries(env.s, q) && RunCovered(env, x, q, dep, bs)
    ensures Inv(env, q, ReplayAll(env, dep, bs), BookAll(env, x, dep, bs))
  {
    hide GoodQueries, ValidEnv, Inv, TxsCovered, ReplayTxs, BookTxs, Sound, Prune, Close, RunCovered, Fresh;
    if bs == [] {
      FreshInv(env, q, dep);
    } else {
      var n := |bs| - 1;
      RunPrefix(env, x, q, dep, bs);
      RunConserves(env, x, q, dep, bs[..n]);
      var l, g := ReplayAll(env, dep, bs[..n]), BookAll(env, x, dep, bs[..n]);
      var h := l.height + 1;
      TxsConserve(env, x, q, dep, l, h, bs[n].txs, g);
      CloseConserves(env, q, dep, ReplayTxs(env, dep, l, h, bs[n].txs), BookTxs(env, x, dep, l, h, bs[n].txs, g), h,
        bs[n].hash);
    }
  }

  lemma RunPrefix(env: Env, x: Extractor, q: Queries, dep: Deployment, bs: seq<Block>)
    requires bs != [] && RunCovered(env, x, q, dep, bs)
    ensures var n := |bs| - 1;
      var l := ReplayAll(env, dep, bs[..n]);
      RunCovered(env, x, q, dep, bs[..n]) && TxsCovered(env, x, q, dep, l, l.height + 1, bs[n].txs)
  {
    hide TxsCovered, ReplayAll;
    var n := |bs| - 1;
    forall i | 0 <= i < n
      ensures var l := ReplayAll(env, dep, bs[..n][..i]); TxsCovered(env, x, q, dep, l, l.height + 1, bs[..n][i].txs)
    {
      assert bs[..n][..i] == bs[..i];
    }
  }

  lemma FreshInv(env: Env, q: Queries, dep: Deployment)
    ensures Inv(env, q, Fresh(env, dep), Books([], []))
  {
    hide Root;
    assert Fresh(env, dep).leaves[..0] == [];
  }

  /** After any run: every leaf has a recorded creation; every spend by an
      enabled input opened the leaf at its position for the value it was created
      with; no position was spent twice; and the values of the leaves never
      spent sum exactly to the values of the accepted mints. */
  lemma NoInflation(env: Env, x: Extractor, q: Queries, dep: Deployment, bs: seq<Block>)
    requires ValidEnv(env) && Sound(env, x) && GoodQueries(env.s, q) && RunCovered(env, x, q, dep, bs)
    ensures var l, g := ReplayAll(env, dep, bs), BookAll(env, x, dep, bs);
      && |g.origins| == |l.leaves|
      && (forall i :: 0 <= i < |l.leaves| ==> OriginLeaf(env.s, g.origins[i]) == l.leaves[i])
      && (forall k :: 0 <= k < |g.spends| ==> SpendOk(env, q, l, g, g.spends[k]))
      && (forall i, k :: 0 <= i < k < |g.spends| ==> g.spends[i].inp.pos != g.spends[k].inp.pos)
      && Worth(g.origins, Positions(g.spends)) == Minted(l.events)
  {
    hide SpendOk, OriginOk, OriginLeaf, RunCovered, ReplayAll, BookAll, Worth, Positions, Minted, RootsOk, GoodQueries,
      ValidEnv;
    RunConserves(env, x, q, dep, bs);
  }

  // ------------------------------------------------------------- against the vault

  /** Everything the transactions of a block pay to the vault. */
  function DepositedTxs(vault: seq<byte>, txs: seq<(nat, Carrier.Tx)>): nat {
    if txs == [] then 0
    else DepositedTxs(vault, txs[..|txs| - 1]) + VaultValue(vault, txs[|txs| - 1].1.outputs)
  }

  function Deposited(vault: seq<byte>, bs: seq<Block>): nat {
    if bs == [] then 0 else Deposited(vault, bs[..|bs| - 1]) + DepositedTxs(vault, bs[|bs| - 1].txs)
  }

  /** What a run deposits is what each of its transactions pays the vault, added
      up. */
  lemma DepositedMore(vault: seq<byte>, bs: seq<Block>, hash: nat, txs: seq<(nat, Carrier.Tx)>, tx: (nat, Carrier.Tx))
    ensures Deposited(vault, []) == 0 && Deposited(vault, bs + [Block(hash, [])]) == Deposited(vault, bs)
    ensures Deposited(vault, bs + [Block(hash, txs + [tx])])
         == Deposited(vault, bs + [Block(hash, txs)]) + VaultValue(vault, tx.1.outputs)
  {
    hide VaultValue;
    assert (bs + [Block(hash, [])])[..|bs|] == bs && (bs + [Block(hash, txs)])[..|bs|] == bs;
    assert (bs + [Block(hash, txs + [tx])])[..|bs|] == bs && (txs + [tx])[..|txs|] == txs;
  }

  lemma TxDeposits(env: Env, dep: Deployment, l: Ledger, h: nat, tx: (nat, Carrier.Tx))
    ensures Minted(ReplayTx(env, dep, l, h, tx).events) <= Minted(l.events) + VaultValue(dep.vault, tx.1.outputs)
  {
    hide Carrier.OpReturnPayload, Parse, Judge, OutputLeaf, MintLeaf, Le, Minted, VaultValue;
    var m := ReplayTx(env, dep, l, h, tx);
    if m.events != l.events {
      MintedStep(l.events, m.events[|l.events|]);
    }
  }

  lemma {:induction false} TxsDeposit(env: Env, dep: Deployment, l: Ledger, h: nat, txs: seq<(nat, Carrier.Tx)>)
    ensures Minted(ReplayTxs(env, dep, l, h, txs).events) <= Minted(l.events) + DepositedTxs(dep.vault, txs)
    decreases |txs|
  {
    hide ReplayTx, Minted, VaultValue;
    if txs != [] {
      var n := |txs| - 1;
      TxsDeposit(env, dep, l, h, txs[..n]);
      TxDeposits(env, dep, ReplayTxs(env, dep, l, h, txs[..n]), h, txs[n]);
    }
  }

  /** What the unspent leaves are worth was paid to the vault, by transactions
      of the replayed blocks. */
  lemma {:induction false} MintedIsDeposited(env: Env, dep: Deployment, bs: seq<Block>)
    ensures Minted(ReplayAll(env, dep, bs).events) <= Deposited(dep.vault, bs)
    decreases |bs|
  {
    hide ReplayTxs, Root, DepositedTxs;
    if bs != [] {
      var n := |bs| - 1;
      var l := ReplayAll(env, dep, bs[..n]);
      MintedIsDeposited(env, dep, bs[..n]);
      TxsDeposit(env, dep, l, l.height + 1, bs[n].txs);
    }
  }
}
