/** Building a transfer: inputs under the anchor, the native statement, and the
    proof, checked before it is returned. */
module Building {
  import opened Binary
  import opened Bytes
  import opened Wrappers
  import opened Edwards
  import opened Wire
  import opened Merkle
  import opened Note
  import opened Circuit
  import opened Replay
  import opened Indexer
  import opened Scanning
  import S = Selection

  const K_WALLET: nat := 2

  datatype NativeInput = NativeInput(
    enabled: bool, isMint: bool, v: nat, d: seq<byte>, rSeed: nat, hBody: nat, j: nat, pos: nat, siblings: seq<nat>)

  datatype NativeOutput = NativeOutput(v: nat, d: seq<byte>, rSeed: nat, pkD: Point)

  datatype NativeWitness = NativeWitness(sk: nat, hBody: nat, inputs: seq<NativeInput>, outputs: seq<NativeOutput>)

  datatype Statement = Statement(nf: seq<nat>, pkEph: seq<Point>, ct: seq<Ciphertext>)

  /** The proving key, and the sender's recovery encryption. */
  datatype Prover = Prover(
    prove: (PublicInputs, NativeWitness) -> Option<seq<byte>>,
    seal: (seq<(Point, nat)>, Transfer) -> seq<byte>)

  datatype BuildError =
    | ZeroAmount | HeightOverflow | NoRoot(anchor: nat) | AnchorMismatch(anchor: nat)
    | InsufficientBalance(available: nat, needed: nat) | AmountOverflow
    | NotInTree(pos: nat) | StaleNote(pos: nat) | NoDiversifiedBase
    | SharedNullifier | NullifierReplayed | CtOutLength | ProveFailed | OwnProofInvalid

  datatype Build = Built(t: Transfer, inputs: seq<nat>) | NotBuilt(error: BuildError)

  /** Fresh randomness: the dummy input's seed and the two outputs'. */
  datatype Seeds = Seeds(dummy: nat, out0: nat, out1: nat)

  function AnchorAt(height: nat): nat {
    Below(height + 1, K_WALLET)
  }

  function PlainOf(o: NativeOutput): Plain {
    Plain(o.v, o.d, o.rSeed)
  }

  predicate TwoByTwo(w: NativeWitness) {
    |w.inputs| == N_IN && |w.outputs| == N_OUT
  }

  /** The statement a witness proves: its nullifiers and its ciphertexts. */
  predicate Evaluates(s: Suite, w: NativeWitness, st: Statement)
    requires TwoByTwo(w)
  {
    && |st.nf| == N_IN && |st.pkEph| == N_OUT && |st.ct| == N_OUT
    && (forall i :: 0 <= i < N_IN ==> st.nf[i] == NullifierOf(s, w.sk, w.inputs[i].rSeed, w.inputs[i].pos))
    && (forall j :: 0 <= j < N_OUT ==>
       Encrypt(s, PlainOf(w.outputs[j]), w.outputs[j].pkD) == Some((st.pkEph[j], st.ct[j])))
  }

  /** circuit::evaluate: fails when an output diversifier has no base. */
  method Evaluate(s: Suite, w: NativeWitness) returns (r: Option<Statement>)
    requires TwoByTwo(w)
    ensures r.Some? ==> Evaluates(s, w, r.value)
    ensures r.None? <==> exists j :: 0 <= j < N_OUT && GD(s, Le(w.outputs[j].d)).None?
  {
    hide Encrypt, NullifierOf, Le, GD;
    var nf: seq<nat> := [];
    for i := 0 to N_IN
      invariant |nf| == i && forall k :: 0 <= k < i ==>
        nf[k] == NullifierOf(s, w.sk, w.inputs[k].rSeed, w.inputs[k].pos)
    {
      nf := nf + [NullifierOf(s, w.sk, w.inputs[i].rSeed, w.inputs[i].pos)];
    }
    var pkEph: seq<Point> := [];
    var ct: seq<Ciphertext> := [];
    for j := 0 to N_OUT
      invariant |pkEph| == j && |ct| == j
      invariant forall k :: 0 <= k < j ==> GD(s, Le(w.outputs[k].d)).Some?
      invariant forall k :: 0 <= k < j ==>
        Encrypt(s, PlainOf(w.outputs[k]), w.outputs[k].pkD) == Some((pkEph[k], ct[k]))
    {
      var e := Encrypt(s, PlainOf(w.outputs[j]), w.outputs[j].pkD);
      NoBase(s, PlainOf(w.outputs[j]), w.outputs[j].pkD);
      if e.None? {
        return None;
      }
      pkEph := pkEph + [e.value.0];
      ct := ct + [e.value.1];
    }
    return Some(Statement(nf, pkEph, ct));
  }

  lemma NoBase(s: Suite, n: Plain, pkD: Point)
    ensures Encrypt(s, n, pkD).None? <==> GD(s, Le(n.d)).None?
  {
    hide Seal, PackVd, Le, GD;
  }

  // ------------------------------------------------------------------- inputs

  function NativeNote(n: OwnedNote, siblings: seq<nat>): NativeInput {
    NativeInput(true, n.isMint, n.v, n.d, n.rSeed, n.hBody, n.j, n.pos, siblings)
  }

  function Dummy(own: Address, seed: nat): NativeInput {
    NativeInput(false, false, 0, own.d, seed, 0, 0, 0, seq(DEPTH, _ => 0))
  }

  /** inp spends note n, whose leaf is in the tree over anchored. */
  predicate SpendsNote(w: Who, anchored: seq<nat>, n: OwnedNote, inp: NativeInput) {
    && inp == NativeNote(n, inp.siblings) && |inp.siblings| == DEPTH
    && n.pos < |anchored| && RebuiltLeaf(w, n) == Some(anchored[n.pos])
    && PathRoot(NodeOf(w.env.s), anchored[n.pos], n.pos, inp.siblings) == Root(NodeOf(w.env.s), anchored)
  }

  predicate InputsOk(w: Who, anchored: seq<nat>, notes: seq<OwnedNote>, chosen: seq<nat>, seed: nat,
                     inputs: seq<NativeInput>)
    requires S.Indices(notes, chosen)
  {
    && |chosen| <= |inputs|
    && (forall k :: 0 <= k < |chosen| ==> SpendsNote(w, anchored, notes[chosen[k]], inputs[k]))
    && (forall k :: |chosen| <= k < |inputs| ==> inputs[k] == Dummy(w.keys.own, seed))
  }

  datatype Gathered = Inputs(inputs: seq<NativeInput>) | Missing(error: BuildError)

  /** A chosen note whose record no longer describes the accepted leaf. */
  predicate Stale(w: Who, leaves: seq<nat>, n: OwnedNote) {
    n.pos < |leaves| && RebuiltLeaf(w, n) != Some(leaves[n.pos])
  }

  /** Why a chosen note cannot be spent. */
  predicate Unfit(w: Who, anchored: seq<nat>, n: OwnedNote, e: BuildError) {
    if n.pos >= |anchored| then e == NotInTree(n.pos) else e == StaleNote(n.pos) && Stale(w, anchored, n)
  }

  method GatherInputs(w: Who, anchored: MerkleTree, state: State, notes: seq<OwnedNote>, chosen: seq<nat>, seed: nat)
    returns (r: Gathered)
    requires state.Valid() && w.env == state.env && anchored.Valid() && anchored.node == NodeOf(w.env.s)
    requires anchored.contents <= state.tree.contents && S.Indices(notes, chosen) && |chosen| <= N_IN
    ensures r.Inputs? ==> |r.inputs| == N_IN && InputsOk(w, anchored.contents, notes, chosen, seed, r.inputs)
    ensures r.Missing? ==> exists k :: 0 <= k < |chosen| && Unfit(w, anchored.contents, notes[chosen[k]], r.error)
  {
    hide InputLeaf, Tables, LevelOk, Root, PathRoot, Pow2, IsPath;
    var inputs: seq<NativeInput> := [];
    for i := 0 to |chosen|
      invariant |inputs| == i
      invariant forall k :: 0 <= k < i ==> SpendsNote(w, anchored.contents, notes[chosen[k]], inputs[k])
    {
      var n := notes[chosen[i]];
      var path := anchored.Path(n.pos);
      if path.None? {
        assert Unfit(w, anchored.contents, n, NotInTree(n.pos));
        return Missing(NotInTree(n.pos));
      }
      var leaf := RebuiltLeaf(w, n);
      if leaf.None? || state.tree.Leaf(n.pos) != leaf {
        assert Stale(w, anchored.contents, n) && Unfit(w, anchored.contents, n, StaleNote(n.pos));
        return Missing(StaleNote(n.pos));
      }
      PathLength(anchored.node, anchored.contents, n.pos, path.value.siblings);
      inputs := inputs + [NativeNote(n, path.value.siblings)];
    }
    while |inputs| < N_IN
      invariant |chosen| <= |inputs| <= N_IN && InputsOk(w, anchored.contents, notes, chosen, seed, inputs)
      decreases N_IN - |inputs|
    {
      inputs := inputs + [Dummy(w.keys.own, seed)];
    }
    return Inputs(inputs);
  }

  lemma PathLength(node: Merkle.Node, leaves: seq<nat>, pos: nat, siblings: seq<nat>)
    requires IsPath(node, leaves, pos, siblings)
    ensures |siblings| == DEPTH
  {
  }

  // ---------------------------------------------------------------- the transfer

  /** The tree prefix a transfer built on l is anchored in. */
  function AnchoredLeaves(l: Ledger): seq<nat> {
    var a := AnchorAt(l.height);
    if a in l.leafCounts && l.leafCounts[a] <= |l.leaves| then l.leaves[..l.leafCounts[a]] else l.leaves
  }

  /** What replay will look at: the transfer is anchored in l, publishes two
      fresh nullifiers, and its proof verifies. */
  predicate Ready(env: Env, l: Ledger, t: Transfer) {
    && Arity(t) && t.hAnchor == AnchorAt(l.height) && t.hAnchor in l.roots
    && t.nf[0] != t.nf[1] && t.nf[0] !in l.nullifiers && t.nf[1] !in l.nullifiers
    && |t.ctOut| == CT_OUT_LEN && env.verify(PublicOf(env, l, t), t.proof)
  }

  /** What it says: the chosen notes, or dummies, in; the amount and the change
      out. */
  predicate Says(w: Who, l: Ledger, notes: seq<OwnedNote>, chosen: seq<nat>, to: Address, amount: nat, seeds: Seeds,
                 wit: NativeWitness, t: Transfer)
  {
    && S.Indices(notes, chosen) && TwoByTwo(wit) && wit.sk == w.keys.sk && Arity(t)
    && amount <= S.Total(notes, chosen)
    && InputsOk(w, AnchoredLeaves(l), notes, chosen, seeds.dummy, wit.inputs)
    && wit.outputs == [NativeOutput(amount, to.d, seeds.out0, to.pkD),
                       NativeOutput(S.Total(notes, chosen) - amount, w.keys.own.d, seeds.out1, w.keys.own.pkD)]
    && Evaluates(w.env.s, wit, Statement(t.nf, t.pkEph, t.ct))
  }

  /** The notes a transfer on l may spend. */
  function Depth(l: Ledger): nat {
    var a := AnchorAt(l.height);
    if a in l.leafCounts then l.leafCounts[a] else 0
  }

  /** Some spendable note cannot be spent after all. */
  predicate Misfit(w: Who, l: Ledger, notes: seq<OwnedNote>, e: BuildError) {
    exists i :: 0 <= i < |notes| && S.Spendable(notes[i], Depth(l)) && Unfit(w, AnchoredLeaves(l), notes[i], e)
  }

  /** The leaves do not rebuild the root retained at the anchor. */
  predicate Mismatch(env: Env, l: Ledger, anchor: nat) {
    anchor == AnchorAt(l.height) && anchor in l.roots && Root(NodeOf(env.s), AnchoredLeaves(l)) != l.roots[anchor]
  }

  /** The anchor's root is retained and the leaves rebuild it. */
  predicate Anchorable(env: Env, l: Ledger) {
    AnchorAt(l.height) in l.roots && AnchorAt(l.height) in l.leafCounts && !Mismatch(env, l, AnchorAt(l.height))
  }

  /** One or two spendable notes under the anchor cover the amount. */
  predicate Affordable(notes: seq<OwnedNote>, l: Ledger, amount: nat) {
    S.CoveredByOne(notes, Depth(l), amount) || S.CoveredByTwo(notes, Depth(l), amount)
  }

  /** The chosen inputs are a sound choice under the anchor. */
  predicate SelectedOn(notes: seq<OwnedNote>, l: Ledger, amount: nat, inputs: seq<nat>) {
    S.Indices(notes, inputs) && S.Selected(notes, Depth(l), amount, inputs, S.Total(notes, inputs))
  }

  datatype Prepared = Prepared(anchor: nat, rAnchor: nat, chosen: seq<nat>, total: nat, inputs: seq<NativeInput>)
    | Unprepared(error: BuildError)

  /** The inputs a transfer of amount on l would have. */
  predicate InputsFor(w: Who, l: Ledger, notes: seq<OwnedNote>, amount: nat, seed: nat, p: Prepared)
    requires p.Prepared?
  {
    && p.anchor == AnchorAt(l.height) && p.anchor in l.roots && l.roots[p.anchor] == p.rAnchor
    && Root(NodeOf(w.env.s), AnchoredLeaves(l)) == p.rAnchor
    && S.Selected(notes, Depth(l), amount, p.chosen, p.total)
    && |p.inputs| == N_IN && InputsOk(w, AnchoredLeaves(l), notes, p.chosen, seed, p.inputs)
  }

  /** Why a transfer of amount cannot be built on l. */
  ghost predicate Explained(w: Who, l: Ledger, notes: seq<OwnedNote>, amount: nat, e: BuildError) {
    match e
    case InsufficientBalance(_, needed) => needed == amount && !Affordable(notes, l, amount)
    case AmountOverflow => S.CoveredByOne(notes, Depth(l), U64) || S.CoveredByTwo(notes, Depth(l), U64)
    case NoRoot(anchor) => anchor == AnchorAt(l.height) && (anchor !in l.roots || anchor !in l.leafCounts)
    case AnchorMismatch(anchor) => Mismatch(w.env, l, anchor)
    case NotInTree(_) => Misfit(w, l, notes, e)
    case StaleNote(_) => Misfit(w, l, notes, e)
    case _ => false
  }

  /** Selection under the anchor, with a membership path for each chosen note. */
  method PrepareInputs(w: Who, notes: seq<OwnedNote>, state: State, amount: nat, seed: nat) returns (r: Prepared)
    requires state.Valid() && w.env == state.env && 0 < amount < U64
    ensures r.Prepared? ==> InputsFor(w, state.View(), notes, amount, seed, r)
    ensures r.Unprepared? ==> Explained(w, state.View(), notes, amount, r.error)
    ensures r.Unprepared? && r.error.InsufficientBalance? <==>
      Anchorable(w.env, state.View()) && !Affordable(notes, state.View(), amount)
  {
    hide InputLeaf, Tables, LevelOk, Root, PathRoot, Pow2, IsPath, S.CoveredByOne, S.CoveredByTwo, Stale, SpendsNote,
      S.Total;
    ghost var l := state.View();
    var anchor := Below(state.height + 1, K_WALLET);
    if anchor !in state.roots || anchor !in state.leafCounts {
      return Unprepared(NoRoot(anchor));
    }
    var len := state.leafCounts[anchor];
    var anchored := state.tree.Prefix(len);
    assert anchored.contents == AnchoredLeaves(l);
    if anchored.RootHash() != state.roots[anchor] {
      return Unprepared(AnchorMismatch(anchor));
    }
    var choice := S.SelectInputs(notes, len, amount);
    if choice.Overflow? {
      return Unprepared(AmountOverflow);
    }
    if choice.Insufficient? {
      return Unprepared(InsufficientBalance(choice.available, amount));
    }
    var gathered := GatherInputs(w, anchored, state, notes, choice.inputs, seed);
    if gathered.Missing? {
      assert Misfit(w, l, notes, gathered.error);
      return Unprepared(gathered.error);
    }
    return Prepared(anchor, state.roots[anchor], choice.inputs, choice.total, gathered.inputs);
  }

  function NfOf(s: Suite, wit: NativeWitness, i: nat): nat
    requires TwoByTwo(wit) && i < N_IN
  {
    NullifierOf(s, wit.sk, wit.inputs[i].rSeed, wit.inputs[i].pos)
  }

  /** The prover proves whatever transfer says what the witness says, and its
      proofs verify. */
  ghost predicate Proves(env: Env, prover: Prover, wit: NativeWitness, rAnchor: nat)
    requires TwoByTwo(wit)
  {
    forall t: Transfer :: Arity(t) && Evaluates(env.s, wit, Statement(t.nf, t.pkEph, t.ct)) ==>
      var pub := PublicInputs(rAnchor, StatementDigest(env, t));
      var proof := prover.prove(pub, wit.(hBody := HBody(env, t)));
      proof.Some? && env.verify(pub, proof.value)
  }

  ghost predicate Seals(prover: Prover) {
    forall records, t :: |prover.seal(records, t)| == CT_OUT_LEN
  }

  /** Why a witness with its inputs gathered gives no transfer. */
  ghost predicate Fails(env: Env, prover: Prover, wit: NativeWitness, nullifiers: set<nat>, rAnchor: nat, e: BuildError)
    requires TwoByTwo(wit)
  {
    match e
    case NoDiversifiedBase => exists j :: 0 <= j < N_OUT && GD(env.s, Le(wit.outputs[j].d)).None?
    case SharedNullifier => NfOf(env.s, wit, 0) == NfOf(env.s, wit, 1)
    case NullifierReplayed => NfOf(env.s, wit, 0) in nullifiers || NfOf(env.s, wit, 1) in nullifiers
    case CtOutLength => !Seals(prover)
    case ProveFailed => !Proves(env, prover, wit, rAnchor)
    case OwnProofInvalid => !Proves(env, prover, wit, rAnchor)
    case _ => false
  }

  /** What the sender keeps for itself: of each output the address key and the
      ephemeral scalar. */
  function Records(s: Suite, wit: NativeWitness): seq<(Point, nat)>
    requires TwoByTwo(wit)
  {
    seq(N_OUT, j requires 0 <= j < N_OUT => (wit.outputs[j].pkD, SkEph(s, wit.outputs[j].rSeed)))
  }

  /** t's recovery ciphertext seals those records to the rest of t. */
  predicate Recoverable(s: Suite, prover: Prover, wit: NativeWitness, t: Transfer)
    requires TwoByTwo(wit)
  {
    t.ctOut == prover.seal(Records(s, wit), t.(ctOut := [], proof := []))
  }

  /** The proved transfer for a native witness anchored at (anchor, rAnchor). */
  method ProveTransfer(env: Env, wit: NativeWitness, nullifiers: set<nat>, anchor: nat, rAnchor: nat, prover: Prover,
                       payout: Option<Payout>)
    returns (r: Proved)
    requires TwoByTwo(wit)
    ensures r.Proved? ==> Arity(r.t) && r.t.hAnchor == anchor && r.t.payout == payout && |r.t.ctOut| == CT_OUT_LEN
    ensures r.Proved? ==> r.t.nf[0] != r.t.nf[1] && r.t.nf[0] !in nullifiers && r.t.nf[1] !in nullifiers
    ensures r.Proved? ==> Evaluates(env.s, wit, Statement(r.t.nf, r.t.pkEph, r.t.ct))
    ensures r.Proved? ==> var pub := PublicInputs(rAnchor, StatementDigest(env, r.t));
      env.verify(pub, r.t.proof) && prover.prove(pub, wit.(hBody := HBody(env, r.t))) == Some(r.t.proof)
    ensures r.Proved? ==> Recoverable(env.s, prover, wit, r.t)
    ensures r.Unproved? ==> Fails(env, prover, wit, nullifiers, rAnchor, r.error)
  {
    hide Encrypt, NullifierOf, StatementDigest, HBody, GD, Le, Proves, Seals, Fails, Recoverable, Evaluates, Records;
    FailsParts(env, prover, wit, nullifiers, rAnchor);
    var st := Evaluate(env.s, wit);
    if st.None? {
      return Unproved(NoDiversifiedBase);
    }
    EvaluatesParts(env.s, wit, st.value);
    if st.value.nf[0] == st.value.nf[1] {
      return Unproved(SharedNullifier);
    }
    if st.value.nf[0] in nullifiers || st.value.nf[1] in nullifiers {
      return Unproved(NullifierReplayed);
    }
    var records := [(wit.outputs[0].pkD, SkEph(env.s, wit.outputs[0].rSeed)),
      (wit.outputs[1].pkD, SkEph(env.s, wit.outputs[1].rSeed))];
    RecordsAre(env.s, wit);
    var t := Transfer(anchor, st.value.nf, st.value.pkEph, st.value.ct, [], payout, []);
    t := t.(ctOut := prover.seal(records, t));
    SealLength(prover, records, t.(ctOut := []));
    if |t.ctOut| != CT_OUT_LEN {
      return Unproved(CtOutLength);
    }
    var public := PublicInputs(rAnchor, StatementDigest(env, t));
    var proof := prover.prove(public, wit.(hBody := HBody(env, t)));
    ProofOf(env, prover, wit, rAnchor, t);
    if proof.None? {
      return Unproved(ProveFailed);
    }
    ProofUnbound(env, t, proof.value);
    SealIs(env.s, prover, wit, t, proof.value);
    t := t.(proof := proof.value);
    if !env.verify(public, t.proof) {
      return Unproved(OwnProofInvalid);
    }
    return Proved(t);
  }

  lemma FailsParts(env: Env, prover: Prover, wit: NativeWitness, nullifiers: set<nat>, rAnchor: nat)
    requires TwoByTwo(wit)
    ensures (exists j :: 0 <= j < N_OUT && GD(env.s, Le(wit.outputs[j].d)).None?) ==>
      Fails(env, prover, wit, nullifiers, rAnchor, NoDiversifiedBase)
    ensures NfOf(env.s, wit, 0) == NfOf(env.s, wit, 1) ==>
      Fails(env, prover, wit, nullifiers, rAnchor, SharedNullifier)
    ensures NfOf(env.s, wit, 0) in nullifiers || NfOf(env.s, wit, 1) in nullifiers ==>
      Fails(env, prover, wit, nullifiers, rAnchor, NullifierReplayed)
    ensures !Seals(prover) ==> Fails(env, prover, wit, nullifiers, rAnchor, CtOutLength)
    ensures !Proves(env, prover, wit, rAnchor) ==>
      Fails(env, prover, wit, nullifiers, rAnchor, ProveFailed)
      && Fails(env, prover, wit, nullifiers, rAnchor, OwnProofInvalid)
  {
    hide Proves, Seals, GD, Le, NfOf;
  }

  lemma EvaluatesParts(s: Suite, wit: NativeWitness, st: Statement)
    requires TwoByTwo(wit) && Evaluates(s, wit, st)
    ensures |st.nf| == N_IN && |st.pkEph| == N_OUT && |st.ct| == N_OUT
    ensures st.nf[0] == NfOf(s, wit, 0) && st.nf[1] == NfOf(s, wit, 1)
  {
    hide Encrypt, NullifierOf;
  }

  lemma RecordsAre(s: Suite, wit: NativeWitness)
    requires TwoByTwo(wit)
    ensures Records(s, wit) == [(wit.outputs[0].pkD, SkEph(s, wit.outputs[0].rSeed)),
                                (wit.outputs[1].pkD, SkEph(s, wit.outputs[1].rSeed))]
  {
    hide SkEph;
  }

  lemma SealLength(prover: Prover, records: seq<(Point, nat)>, t: Transfer)
    ensures |prover.seal(records, t)| != CT_OUT_LEN ==> !Seals(prover)
  {
  }

  lemma ProofOf(env: Env, prover: Prover, wit: NativeWitness, rAnchor: nat, t: Transfer)
    requires TwoByTwo(wit) && Arity(t) && Evaluates(env.s, wit, Statement(t.nf, t.pkEph, t.ct))
    ensures var pub := PublicInputs(rAnchor, StatementDigest(env, t));
      var proof := prover.prove(pub, wit.(hBody := HBody(env, t)));
      proof.None? || !env.verify(pub, proof.value) ==> !Proves(env, prover, wit, rAnchor)
  {
    hide Evaluates, StatementDigest, HBody;
  }

  lemma SealIs(s: Suite, prover: Prover, wit: NativeWitness, t: Transfer, proof: seq<byte>)
    requires TwoByTwo(wit) && t.proof == [] && t.ctOut == prover.seal(Records(s, wit), t.(ctOut := []))
    ensures Recoverable(s, prover, wit, t.(proof := proof))
  {
    hide Records;
    assert t.(proof := proof).(ctOut := [], proof := []) == t.(ctOut := []);
  }

  datatype Proved = Proved(t: Transfer) | Unproved(error: BuildError)

  /** The witness of a transfer of amount with the inputs prepared. */
  function WitnessFor(keys: Keys, p: Prepared, to: Address, amount: nat, seeds: Seeds): NativeWitness
    requires p.Prepared? && amount <= p.total
  {
    NativeWitness(keys.sk, 0, p.inputs,
                  [NativeOutput(amount, to.d, seeds.out0, to.pkD),
                   NativeOutput(p.total - amount, keys.own.d, seeds.out1, keys.own.pkD)])
  }

  /** Why a transfer of amount to an address is not built on l. */
  ghost predicate Unbuilt(env: Env, keys: Keys, l: Ledger, notes: seq<OwnedNote>, prover: Prover, to: Address,
                          amount: nat, seeds: Seeds, e: BuildError)
  {
    var me := Who(env, keys, false);
    match e
    case ZeroAmount => amount == 0
    case HeightOverflow => l.height + 1 >= 0x1_0000_0000
    case _ =>
      Explained(me, l, notes, amount, e) || exists p: Prepared ::
        p.Prepared? && InputsFor(me, l, notes, amount, seeds.dummy, p)
        && Fails(env, prover, WitnessFor(keys, p, to, amount, seeds), l.nullifiers, p.rAnchor, e)
  }

  method BuildTransfer(keys: Keys, notes: seq<OwnedNote>, state: State, prover: Prover, to: Address, amount: nat,
                       payout: Option<Payout>, seeds: Seeds)
    returns (r: Build, ghost wit: NativeWitness)
    requires state.Valid() && amount < U64
    ensures r.Built? ==> Ready(state.env, state.View(), r.t) && r.t.payout == payout
    ensures r.Built? ==> Arity(r.t) && r.t.hAnchor in state.roots
    ensures r.Built? ==> Says(Who(state.env, keys, false), state.View(), notes, r.inputs, to, amount, seeds, wit, r.t)
    ensures r.Built? ==> SelectedOn(notes, state.View(), amount, r.inputs)
    ensures r.Built? ==> prover.prove(PublicOf(state.env, state.View(), r.t), wit) == Some(r.t.proof)
    ensures r.Built? ==> Recoverable(state.env.s, prover, wit, r.t)
    ensures r.NotBuilt? ==> Unbuilt(state.env, keys, state.View(), notes, prover, to, amount, seeds, r.error)
    ensures amount > 0 && state.height + 1 < 0x1_0000_0000 && Anchorable(state.env, state.View()) ==>
      (r.NotBuilt? && r.error.InsufficientBalance? <==> !Affordable(notes, state.View(), amount))
  {
    hide InputLeaf, Tables, LevelOk, Root, PathRoot, Pow2, IsPath, Encrypt, NullifierOf, StatementDigest, HBody,
      Evaluates, S.CoveredByOne, S.CoveredByTwo, S.Total, InputsOk, Misfit;
    wit := NativeWitness(0, 0, [], []);
    if amount == 0 {
      return NotBuilt(ZeroAmount), wit;
    }
    if state.height + 1 >= 0x1_0000_0000 {
      return NotBuilt(HeightOverflow), wit;
    }
    var me := Who(state.env, keys, false);
    var p := PrepareInputs(me, notes, state, amount, seeds.dummy);
    if p.Unprepared? {
      return NotBuilt(p.error), wit;
    }
    var outputs := [NativeOutput(amount, to.d, seeds.out0, to.pkD),
                    NativeOutput(p.total - amount, keys.own.d, seeds.out1, keys.own.pkD)];
    var w := NativeWitness(keys.sk, 0, p.inputs, outputs);
    assert w == WitnessFor(keys, p, to, amount, seeds);
    var q := ProveTransfer(state.env, w, state.nullifiers, p.anchor, p.rAnchor, prover, payout);
    if q.Unproved? {
      return NotBuilt(q.error), wit;
    }
    wit := w.(hBody := HBody(state.env, q.t));
    BodyAside(state.env.s, w, HBody(state.env, q.t), Statement(q.t.nf, q.t.pkEph, q.t.ct));
    return Built(q.t, p.chosen), wit;
  }

  lemma BodyAside(s: Suite, w: NativeWitness, h: nat, st: Statement)
    requires TwoByTwo(w) && Evaluates(s, w, st)
    ensures TwoByTwo(w.(hBody := h)) && Evaluates(s, w.(hBody := h), st)
  {
    hide Encrypt, NullifierOf;
  }

  /** The statement does not depend on the proof. */
  lemma ProofUnbound(env: Env, t: Transfer, proof: seq<byte>)
    requires Arity(t)
    ensures HBody(env, t.(proof := proof)) == HBody(env, t)
    ensures StatementDigest(env, t.(proof := proof)) == StatementDigest(env, t)
  {
  }
}
