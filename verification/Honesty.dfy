/** A wallet that tracks a reachable state can always anchor and open the notes
    it selects, and the witness it hands the prover meets the relation. */
module Honesty {
  import opened Binary
  import opened Bytes
  import opened Field
  import opened Wrappers
  import opened Edwards
  import opened Group
  import PointCodec
  import opened Diversify
  import opened Wire
  import opened Merkle
  import opened Note
  import opened Circuit
  import opened Replay
  import opened Pruning
  import opened EventLog
  import opened Scanning
  import opened Resume
  import opened Building
  import opened Plaintexts
  import S = Selection

  /** Once a block has been replayed the anchor's root is retained, the leaves
      rebuild it, and every spendable note under it opens its leaf; its nullifier
      is not spent. */
  lemma TrackedCanBuild(w: Who, dep: Deployment, bs: seq<Block>, f: WalletFile, e: BuildError)
    requires ValidWho(w) && Tracks(w, f, ReplayAll(w.env, dep, bs).events)
    requires |bs| > 0 || InitialHeight(dep) == 0
    ensures var l := ReplayAll(w.env, dep, bs);
      Anchorable(w.env, l) && !Misfit(w, l, f.notes, e) && FreshUnder(w, l, f.notes)
  {
    hide *;
    var l := ReplayAll(w.env, dep, bs);
    AnchorKept(w.env, dep, bs);
    TrackedNotes(w, dep, bs, f);
    AllFit(w, l, f.notes, e);
  }

  /** No spendable note's nullifier is spent. */
  ghost predicate FreshUnder(w: Who, l: Ledger, notes: seq<OwnedNote>) {
    forall i :: 0 <= i < |notes| && S.Spendable(notes[i], Depth(l)) ==> OwnNf(w, notes[i]) !in l.nullifiers
  }

  /** A tracked note opens its leaf, and is unspent only while its nullifier is
      not in the set. */
  ghost predicate Sound(w: Who, l: Ledger, n: OwnedNote) {
    StillThere(w, l.leaves, n) && (!n.spent ==> OwnNf(w, n) !in l.nullifiers)
  }

  lemma TrackedNotes(w: Who, dep: Deployment, bs: seq<Block>, f: WalletFile)
    requires ValidWho(w) && Tracks(w, f, ReplayAll(w.env, dep, bs).events)
    ensures forall i :: 0 <= i < |f.notes| ==> Sound(w, ReplayAll(w.env, dep, bs), f.notes[i])
  {
    hide ReplayAll, SeeAll, LogOk, LeavesOf, ValidWho, NfsOf, OwnNf, RebuiltLeaf;
    var l := ReplayAll(w.env, dep, bs);
    ReplayLogged(w.env, dep, bs);
    var base := SeeAll(w, NOTHING, l.events);
    FromNothing(w, l.events, |l.events|);
    assert l.events[..|l.events|] == l.events;
    TrackedMatch(w, l.leaves, f, base, l.nullifiers);
    forall i | 0 <= i < |f.notes| ensures Sound(w, l, f.notes[i]) {
      assert TracksNote(w, f.notes[i], base.notes[i], l.nullifiers);
      SameBare(w, f.notes[i], base.notes[i]);
    }
  }

  lemma AllFit(w: Who, l: Ledger, notes: seq<OwnedNote>, e: BuildError)
    requires forall i :: 0 <= i < |notes| ==> Sound(w, l, notes[i])
    requires |AnchoredLeaves(l)| == Depth(l) && AnchoredLeaves(l) <= l.leaves
    ensures !Misfit(w, l, notes, e) && FreshUnder(w, l, notes)
  {
    hide RebuiltLeaf, OwnNf, AnchoredLeaves, Depth, Unfit;
    forall i | 0 <= i < |notes| && S.Spendable(notes[i], Depth(l)) ensures !Unfit(w, AnchoredLeaves(l), notes[i], e) {
      Fit(w, l, notes[i], e);
    }
  }

  lemma Fit(w: Who, l: Ledger, n: OwnedNote, e: BuildError)
    requires Sound(w, l, n) && S.Spendable(n, Depth(l))
    requires |AnchoredLeaves(l)| == Depth(l) && AnchoredLeaves(l) <= l.leaves
    ensures !Unfit(w, AnchoredLeaves(l), n, e)
  {
    hide RebuiltLeaf, OwnNf, AnchoredLeaves, Depth;
  }

  lemma AnchorKept(env: Env, dep: Deployment, bs: seq<Block>)
    ensures var l := ReplayAll(env, dep, bs);
      (Anchorable(env, l) <==> |bs| > 0 || InitialHeight(dep) == 0)
        && (AnchorAt(l.height) in l.roots ==> Anchorable(env, l))
    ensures var l := ReplayAll(env, dep, bs);
      Anchorable(env, l) ==> |AnchoredLeaves(l)| == Depth(l) && AnchoredLeaves(l) <= l.leaves
  {
    hide ReplayAll, Root;
    var l := ReplayAll(env, dep, bs);
    RetainedMaps(env, dep, bs);
    var a := AnchorAt(l.height);
    assert Kept(dep, l.height, a) <==> |bs| > 0 || InitialHeight(dep) == 0;
    if a in l.roots {
      assert RootOfPrefix(env, dep, bs, a);
    }
  }

  // ------------------------------------------------------- the circuit's witness

  /** A diversifier with a base has a gadget assignment yielding it. */
  lemma CellsFor(s: Suite, d: nat) returns (cells: seq<Cell>)
    requires ValidSuite(s) && GD(s, d).Some?
    ensures GadgetBase(s, d, cells, GD(s, d).value)
  {
    hide Selects, ValidCells, Fold, Pow256, Pow2, ScalarModulus;
    var h := s.hash(DIVERSIFY, [d]);
    SatisfiableIff(s.c, h);
    cells :| Satisfiable(s.c, h, cells);
    var k :| Selects(s.c, h, cells, k);
    GadgetSound(s.c, h, cells, k);
    SelectedBelow(s.c, h, cells, k);
    assert SelectsPoint(s.c, h, cells, k, GD(s, d).value);
  }

  lemma SelectedBelow(c: Curve, h: nat, cells: seq<Cell>, k: nat)
    requires ValidCells(c, cells) && Selects(c, h, cells, k)
    ensures k < TRIES
  {
  }

  function CircuitInput(inp: NativeInput, cells: seq<Cell>, gd: Point): InputWitness {
    InputWitness(inp.enabled, inp.isMint, inp.v, Le(inp.d), inp.rSeed, inp.hBody, inp.j, inp.pos, inp.siblings, cells,
      gd)
  }

  function CircuitOutput(o: NativeOutput, cells: seq<Cell>, gd: Point): OutputWitness {
    OutputWitness(o.v, Le(o.d), o.rSeed, o.pkD, cells, gd)
  }

  /** The ranges the source's types give an input. */
  predicate InputRanges(s: Suite, inp: NativeInput) {
    PlainOk(s, Plain(inp.v, inp.d, inp.rSeed)) && inp.pos < Pow2(DEPTH)
  }

  lemma SpentInputOk(w: Who, anchored: seq<nat>, n: OwnedNote, inp: NativeInput) returns (c: InputWitness)
    requires ValidSuite(w.env.s) && SpendsNote(w, anchored, n, inp) && InputRanges(w.env.s, inp)
    ensures InputOk(w.env.s, w.keys.sk, c, Root(NodeOf(w.env.s), anchored))
    ensures c.v == inp.v && InputNf(w.env.s, w.keys.sk, c) == NullifierOf(w.env.s, w.keys.sk, inp.rSeed, inp.pos)
  {
    hide ValidSuite, GadgetBase, PathRoot, Root, Pow256, Pow2, Le, CircuitLeaf, NullifierOf, GD;
    var s := w.env.s;
    HasBase(s, w.keys.sk, inp.isMint, Plain(inp.v, inp.d, inp.rSeed), inp.hBody, inp.j);
    var cells := CellsFor(s, Le(inp.d));
    var gd := GD(s, Le(inp.d)).value;
    c := CircuitInput(inp, cells, gd);
    CircuitLeafIsInputLeaf(s, w.keys.sk, c, Plain(inp.v, inp.d, inp.rSeed));
    LeBound(inp.d);
    MulZero(s.c.f, inp.v);
  }

  lemma HasBase(s: Suite, sk: nat, isMint: bool, n: Plain, hBody: nat, j: nat)
    requires InputLeaf(s, sk, isMint, n, hBody, j).Some?
    ensures GD(s, Le(n.d)).Some?
  {
    hide GD, Le, MintLeaf, Encrypt, CtLeaf;
  }

  lemma DummyInputOk(w: Who, seed: nat, root: nat) returns (c: InputWitness)
    requires ValidSuite(w.env.s) && GD(w.env.s, Le(w.keys.own.d)).Some?
    requires |w.keys.own.d| == DIVERSIFIER_LEN && seed < w.env.s.c.f.p
    ensures InputOk(w.env.s, w.keys.sk, c, root)
    ensures c.v == 0 && InputNf(w.env.s, w.keys.sk, c) == NullifierOf(w.env.s, w.keys.sk, seed, 0)
  {
    hide ValidSuite, GadgetBase, PathRoot, Pow256, Pow2, Le, CircuitLeaf, NullifierOf, GD;
    var s := w.env.s;
    var cells := CellsFor(s, Le(w.keys.own.d));
    c := CircuitInput(Dummy(w.keys.own, seed), cells, GD(s, Le(w.keys.own.d)).value);
    LeBound(w.keys.own.d);
    MulZero(s.c.f, 1);
    TwoFit(s);
  }

  lemma OutputCircuit(s: Suite, o: NativeOutput) returns (c: OutputWitness)
    requires ValidSuite(s) && PlainOk(s, PlainOf(o)) && PointCodec.InSubgroup(s.c, o.pkD)
      && Encrypt(s, PlainOf(o), o.pkD).Some?
    ensures OutputOk(s, c) && c.v == o.v
    ensures Some(OutputCt(s, c)) == Encrypt(s, PlainOf(o), o.pkD)
  {
    hide ValidSuite, GadgetBase, PointCodec.InSubgroup, Pow256, Le, GD, EncryptVar;
    var cells := CellsFor(s, Le(o.d));
    c := CircuitOutput(o, cells, GD(s, Le(o.d)).value);
    EncryptVarIsEncrypt(s, c.gd, PlainOf(o), o.pkD);
    LeBound(o.d);
  }

  lemma AnyInputOk(w: Who, anchored: seq<nat>, notes: seq<OwnedNote>, chosen: seq<nat>, seed: nat,
                   inputs: seq<NativeInput>, i: nat)
    returns (c: InputWitness)
    requires ValidSuite(w.env.s) && GD(w.env.s, Le(w.keys.own.d)).Some?
    requires |w.keys.own.d| == DIVERSIFIER_LEN && seed < w.env.s.c.f.p
    requires S.Indices(notes, chosen) && InputsOk(w, anchored, notes, chosen, seed, inputs) && i < |inputs|
    requires i < |chosen| ==> InputRanges(w.env.s, inputs[i])
    ensures InputOk(w.env.s, w.keys.sk, c, Root(NodeOf(w.env.s), anchored)) && c.v == inputs[i].v
    ensures InputNf(w.env.s, w.keys.sk, c) == NullifierOf(w.env.s, w.keys.sk, inputs[i].rSeed, inputs[i].pos)
  {
    hide ValidSuite, InputOk, Root, SpendsNote, InputRanges, NullifierOf, InputNf, GD, Le;
    if i < |chosen| {
      c := SpentInputOk(w, anchored, notes[chosen[i]], inputs[i]);
    } else {
      c := DummyInputOk(w, seed, Root(NodeOf(w.env.s), anchored));
    }
  }

  /** The values in are the values out. */
  lemma ValuesMeet(w: Who, anchored: seq<nat>, notes: seq<OwnedNote>, chosen: seq<nat>, seed: nat,
                   inputs: seq<NativeInput>)
    requires S.Indices(notes, chosen) && 1 <= |chosen| <= N_IN && |inputs| == N_IN
    requires InputsOk(w, anchored, notes, chosen, seed, inputs)
    ensures inputs[0].v + inputs[1].v == S.Total(notes, chosen)
  {
    hide RebuiltLeaf, Root, PathRoot;
    assert SpendsNote(w, anchored, notes[chosen[0]], inputs[0]);
    assert S.Total(notes, chosen[..1]) == S.Total(notes, chosen[..1][..0]) + notes[chosen[0]].v;
    if |chosen| == 1 {
      assert chosen[..1] == chosen;
      assert inputs[1] == Dummy(w.keys.own, seed);
    } else {
      assert SpendsNote(w, anchored, notes[chosen[1]], inputs[1]);
    }
  }

  /** A witness of inputs and outputs in range satisfies the relation for the
      public inputs replay will verify against. */
  lemma WitnessSatisfies(w: Who, l: Ledger, notes: seq<OwnedNote>, chosen: seq<nat>, to: Address, amount: nat,
                         seeds: Seeds, wit: NativeWitness, t: Transfer) returns (c: TransferWitness)
    requires ValidSuite(w.env.s) && Ready(w.env, l, t) && Says(w, l, notes, chosen, to, amount, seeds, wit, t)
    requires !Mismatch(w.env, l, t.hAnchor) && 1 <= |chosen| <= N_IN
    requires forall i :: 0 <= i < |chosen| ==> InputRanges(w.env.s, wit.inputs[i])
    requires forall j :: 0 <= j < N_OUT ==>
      PlainOk(w.env.s, PlainOf(wit.outputs[j])) && PointCodec.InSubgroup(w.env.s.c, wit.outputs[j].pkD)
    requires |w.keys.own.d| == DIVERSIFIER_LEN && seeds.dummy < w.env.s.c.f.p
    ensures Satisfies(w.env.s, PublicOf(w.env, l, t), c)
  {
    hide ValidSuite, InputOk, OutputOk, Root, SpendsNote, InputRanges, NullifierOf, InputNf, GD, Le, PlainOk,
      PointCodec.InSubgroup, OutputCt, InputsOk, HBody, S.Total, AnchoredLeaves, Fp.Add;
    var s := w.env.s;
    var anchored := AnchoredLeaves(l);
    ChangeHasBase(s, wit.outputs[1], w.keys.own.d);
    var i0 := AnyInputOk(w, anchored, notes, chosen, seeds.dummy, wit.inputs, 0);
    var i1 := AnyInputOk(w, anchored, notes, chosen, seeds.dummy, wit.inputs, 1);
    var o0 := OutputCircuit(s, wit.outputs[0]);
    var o1 := OutputCircuit(s, wit.outputs[1]);
    ValuesMeet(w, anchored, notes, chosen, seeds.dummy, wit.inputs);
    c := TransferWitness(w.keys.sk, HBody(w.env, t), [i0, i1], [o0, o1]);
    assert WitnessStmt(s, c) == StmtOf(w.env, t);
    SameSums(s.c.f, i0.v, i1.v, o0.v, o1.v);
  }

  lemma ChangeHasBase(s: Suite, o: NativeOutput, d: seq<byte>)
    requires Encrypt(s, PlainOf(o), o.pkD).Some? && o.d == d
    ensures GD(s, Le(d)).Some?
  {
    hide Seal, PackVd, Le, GD;
  }

  lemma SameSums(f: Fp, a: nat, b: nat, c: nat, d: nat)
    requires a + b == c + d
    ensures f.Add(a, b) == f.Add(c, d)
  {
  }

  // -------------------------------------------------------------- tracked wallets

  /** An address as decoding yields it. */
  predicate AddressOk(s: Suite, a: Address) {
    |a.d| == DIVERSIFIER_LEN && PointCodec.InSubgroup(s.c, a.pkD)
  }

  predicate SeedsOk(s: Suite, seeds: Seeds) {
    seeds.dummy < s.c.f.p && seeds.out0 < s.c.f.p && seeds.out1 < s.c.f.p
  }

  lemma InputInRange(w: Who, anchored: seq<nat>, n: OwnedNote, inp: NativeInput)
    requires NotePlain(w, n) && SpendsNote(Who(w.env, w.keys, false), anchored, n, inp) && |anchored| <= Pow2(DEPTH)
    ensures InputRanges(w.env.s, inp)
  {
    hide PlainOk, RebuiltLeaf, PathRoot, Root, Pow2;
  }

  lemma OutputsInRange(w: Who, l: Ledger, notes: seq<OwnedNote>, chosen: seq<nat>, to: Address, amount: nat,
                       seeds: Seeds, wit: NativeWitness, t: Transfer)
    requires Says(Who(w.env, w.keys, false), l, notes, chosen, to, amount, seeds, wit, t)
      && S.Total(notes, chosen) < U64
    requires AddressOk(w.env.s, to) && AddressOk(w.env.s, w.keys.own) && SeedsOk(w.env.s, seeds)
    ensures forall j :: 0 <= j < N_OUT ==>
      PlainOk(w.env.s, PlainOf(wit.outputs[j])) && PointCodec.InSubgroup(w.env.s.c, wit.outputs[j].pkD)
  {
    hide InputsOk, Evaluates, S.Total, PointCodec.InSubgroup, Pow256;
    U64Is();
  }

  /** Every transfer a tracking wallet builds on a reachable state has a witness
      satisfying the relation: the ranges follow from what the wallet scanned. */
  lemma HonestWitness(w: Who, dep: Deployment, bs: seq<Block>, f: WalletFile, chosen: seq<nat>, to: Address,
                      amount: nat, seeds: Seeds, wit: NativeWitness, t: Transfer, l: Ledger)
    returns (c: TransferWitness)
    requires ValidWho(w) && l == ReplayAll(w.env, dep, bs) && Tracks(w, f, l.events)
    requires BlocksFit(w.env, dep, bs) && |l.leaves| <= Pow2(DEPTH)
    requires Ready(w.env, l, t) && Says(Who(w.env, w.keys, false), l, f.notes, chosen, to, amount, seeds, wit, t)
    requires 1 <= |chosen| <= N_IN && S.Total(f.notes, chosen) < U64
    requires AddressOk(w.env.s, to) && AddressOk(w.env.s, w.keys.own) && SeedsOk(w.env.s, seeds)
    ensures Satisfies(w.env.s, PublicOf(w.env, l, t), c)
  {
    hide ValidSuite, SoundCodec, ReplayAll, Tracks, BlocksFit, MintsFit, Pow2, InputRanges, Evaluates, S.Total, PlainOk,
      NotePlain, PointCodec.InSubgroup, SpendsNote, StatementDigest, HBody, Satisfies, Root, AnchoredLeaves;
    var w0 := Who(w.env, w.keys, false);
    AnchorKept(w.env, dep, bs);
    ReplayMintsFit(w.env, dep, bs);
    TrackedPlain(w, f, l.events);
    forall i | 0 <= i < |chosen| ensures InputRanges(w.env.s, wit.inputs[i]) {
      assert NotePlain(w, f.notes[chosen[i]]);
      InputInRange(w, AnchoredLeaves(l), f.notes[chosen[i]], wit.inputs[i]);
    }
    OutputsInRange(w, l, f.notes, chosen, to, amount, seeds, wit, t);
    c := WitnessSatisfies(w0, l, f.notes, chosen, to, amount, seeds, wit, t);
  }
}
