/** A wallet's balance is backed: what it can spend never exceeds what is
    unspent in the tree, hence what was paid to the vault. */
module Solvency {
  import opened Binary
  import opened Bytes
  import opened Wrappers
  import opened Edwards
  import opened Wire
  import opened Merkle
  import opened Note
  import opened Circuit
  import opened Diversify
  import opened Binding
  import opened Replay
  import opened EventLog
  import opened Conservation
  import opened Scanning
  import opened Resume
  import opened Plaintexts
  import Completeness
  import Honesty
  import Wallet

  // --------------------------------------------------------- distinct positions

  ghost predicate PositionsDiffer(notes: seq<OwnedNote>) {
    forall i, k :: 0 <= i < k < |notes| ==> notes[i].pos != notes[k].pos
  }

  lemma RecordDiffers(w: Who, acc: Acc, n: OwnedNote)
    requires PositionsDiffer(acc.notes)
    ensures PositionsDiffer(Record(w, acc, n).notes)
  {
    hide OwnNf;
  }

  lemma OutputDiffers(w: Who, acc: Acc, t: Transfer, txid: nat, pos: nat, j: nat)
    requires Arity(t) && j < N_OUT && PositionsDiffer(acc.notes)
    ensures PositionsDiffer(SeeOutput(w, acc, t, txid, pos, j).notes)
  {
    hide DecryptAsRecipient, Record, OutputNote, PositionsDiffer;
    var r := DecryptAsRecipient(w.env.s, t.ct[j], t.pkEph[j], ViewOf(w.env.s, w.keys.sk));
    if r.Some? {
      RecordDiffers(w, acc, OutputNote(w, r.value, t, txid, pos, j));
    }
  }

  lemma SeeDiffers(w: Who, acc: Acc, e: Event)
    requires PositionsDiffer(acc.notes)
    ensures PositionsDiffer(See(w, acc, e).notes)
  {
    hide Parse, SeeSpend, SeeOutput, Record, AddressKey, Le, PositionsDiffer;
    match Parse(w.env.cd, e.bytes) {
      case Accepted(MintEnvelope(m)) =>
        if e.MintEvent? {
          RecordDiffers(w, acc, MintNote(m, e.txid, e.value, e.pos));
        }
      case Accepted(TransferEnvelope(t)) =>
        if e.TransferEvent? && |e.positions| == N_OUT {
          ParseArity(w.env.cd, e.bytes);
          OutputDiffers(w, acc, t, e.txid, e.positions[0], 0);
          var acc' := SeeOutput(w, acc, t, e.txid, e.positions[0], 0);
          OutputDiffers(w, acc', t, e.txid, e.positions[1], 1);
          Completeness.SpendKeepsNotes(w, SeeOutput(w, acc', t, e.txid, e.positions[1], 1), t, e.txid);
        }
      case _ =>
    }
  }

  lemma {:induction false} ScanDiffers(w: Who, acc: Acc, events: seq<Event>)
    requires PositionsDiffer(acc.notes)
    ensures PositionsDiffer(SeeAll(w, acc, events).notes)
    decreases |events|
  {
    hide See, PositionsDiffer;
    if events != [] {
      var n := |events| - 1;
      ScanDiffers(w, acc, events[..n]);
      SeeDiffers(w, SeeAll(w, acc, events[..n]), events[n]);
    }
  }

  lemma TrackedDiffer(w: Who, f: WalletFile, events: seq<Event>)
    requires Tracks(w, f, events)
    ensures PositionsDiffer(f.notes)
  {
    hide SeeAll, NfsOf, OwnNf, Bare;
    var base := SeeAll(w, NOTHING, events);
    ScanDiffers(w, NOTHING, events);
    forall i | 0 <= i < |f.notes| ensures f.notes[i].pos == base.notes[i].pos {
      assert TracksNote(w, f.notes[i], base.notes[i], NfsOf(w.env, events));
      SameBare(w, f.notes[i], base.notes[i]);
    }
  }

  // ----------------------------------------------------------------- one note

  /** The note as a spend of it would put it to the circuit. */
  function Opened(n: OwnedNote, cells: seq<Cell>, gd: Point): InputWitness {
    InputWitness(true, n.isMint, n.v, Le(n.d), n.rSeed, n.hBody, n.j, n.pos, [], cells, gd)
  }

  /** The queries of opening the note with the wallet's key are in q. */
  ghost predicate NoteCovered(w: Who, q: Queries, n: OwnedNote) {
    forall cells, gd :: GD(w.env.s, Le(n.d)) == Some(gd) ==> OpeningQueries(w.env.s, q, w.keys.sk, Opened(n, cells, gd))
  }

  /** A tracked unspent note is worth what its leaf was created with, and its
      position was never spent. */
  lemma NoteIsBacked(w: Who, q: Queries, l: Ledger, g: Books, n: OwnedNote)
    requires ValidEnv(w.env) && GoodQueries(w.env.s, q) && LeavesOk(w.env, q, l, g) && SpendsOk(w.env, q, l, g)
    requires Honesty.Sound(w, l, n) && !n.spent && NotePlain(w, n) && NoteCovered(w, q, n)
    ensures n.pos < |g.origins| && OriginValue(g.origins[n.pos]) == n.v && n.pos !in Positions(g.spends)
  {
    hide GoodQueries, ValidSuite, SoundCodec, SpendsOk, OpeningQueries, GadgetBase, GD, Le, CircuitLeaf, InputLeaf,
      OriginOk, OriginLeaf, NullifierOf, Pow256, PlainOk;
    var s := w.env.s;
    Honesty.HasBase(s, w.keys.sk, n.isMint, Plain(n.v, n.d, n.rSeed), n.hBody, n.j);
    var cells := Honesty.CellsFor(s, Le(n.d));
    var gd := GD(s, Le(n.d)).value;
    var inp := Opened(n, cells, gd);
    CircuitLeafIsInputLeaf(s, w.keys.sk, inp, Plain(n.v, n.d, n.rSeed));
    NoteRanges(s, n);
    assert Opening(s, q, w.keys.sk, inp);
    ValueBinds(s, q, g.origins[n.pos], w.keys.sk, inp);
    Unspent(w, q, l, g, inp);
  }

  lemma NoteRanges(s: Suite, n: OwnedNote)
    requires PlainOk(s, Plain(n.v, n.d, n.rSeed))
    ensures Ranges(s, n.v, Le(n.d), n.rSeed)
  {
    hide Pow256, Le;
    LeBound(n.d);
  }

  /** A position whose opening's nullifier is not in the set was not spent. */
  lemma Unspent(w: Who, q: Queries, l: Ledger, g: Books, inp: InputWitness)
    requires ValidEnv(w.env) && GoodQueries(w.env.s, q) && SpendsOk(w.env, q, l, g)
    requires Opening(w.env.s, q, w.keys.sk, inp) && inp.pos < |l.leaves|
    requires CircuitLeaf(w.env.s, w.keys.sk, inp) == l.leaves[inp.pos]
    requires InputNf(w.env.s, w.keys.sk, inp) !in l.nullifiers
    ensures inp.pos !in Positions(g.spends)
  {
    hide GoodQueries, ValidEnv, SpendOk, Opening, CircuitLeaf, InputNf;
    PositionsIff(g.spends, inp.pos);
    if inp.pos in Positions(g.spends) {
      var i :| 0 <= i < |g.spends| && g.spends[i].inp.pos == inp.pos;
      SameNullifier(w.env, q, l, g, g.spends[i], Spend(w.keys.sk, inp));
    }
  }

  // --------------------------------------------------------------- the balance

  ghost predicate Backed(g: Books, spent: set<nat>, n: OwnedNote) {
    n.pos < |g.origins| && OriginValue(g.origins[n.pos]) == n.v && n.pos !in spent
  }

  function Held(notes: seq<OwnedNote>): set<nat> {
    if notes == [] then {}
    else
      var n := |notes| - 1;
      Held(notes[..n]) + if notes[n].spent || notes[n].lockedBy.Some? then {} else {notes[n].pos}
  }

  lemma {:induction false} NotHeld(notes: seq<OwnedNote>, p: nat)
    requires forall i :: 0 <= i < |notes| ==> notes[i].pos != p
    ensures p !in Held(notes)
    decreases |notes|
  {
    if notes != [] {
      NotHeld(notes[..|notes| - 1], p);
    }
  }

  /** Taking the spendable notes out of the unspent leaves takes out exactly
      their sum. */
  lemma {:induction false} SpendableOf(g: Books, spent: set<nat>, notes: seq<OwnedNote>)
    requires PositionsDiffer(notes)
    requires forall i :: 0 <= i < |notes| && !notes[i].spent && notes[i].lockedBy.None? ==> Backed(g, spent, notes[i])
    ensures Worth(g.origins, spent) == Worth(g.origins, spent + Held(notes)) + Wallet.Spendable(notes)
    decreases |notes|
  {
    hide OriginValue, Worth;
    if notes == [] {
      assert spent + {} == spent;
    } else {
      var n := |notes| - 1;
      SpendableOf(g, spent, notes[..n]);
      if !notes[n].spent && notes[n].lockedBy.None? {
        assert Backed(g, spent, notes[n]);
        NotHeld(notes[..n], notes[n].pos);
        WorthSpend(g.origins, spent + Held(notes[..n]), notes[n].pos);
        assert spent + Held(notes) == spent + Held(notes[..n]) + {notes[n].pos};
      } else {
        assert Held(notes) == Held(notes[..n]);
      }
    }
  }

  /** On any reachable state the balance of a wallet tracking it is at most the
      accepted mints, and so at most what was paid to the vault. */
  lemma BalanceIsBacked(w: Who, x: Extractor, q: Queries, dep: Deployment, bs: seq<Block>, f: WalletFile)
    requires ValidEnv(w.env) && Conservation.Sound(w.env, x) && GoodQueries(w.env.s, q)
      && RunCovered(w.env, x, q, dep, bs)
    requires Tracks(w, f, ReplayAll(w.env, dep, bs).events)
    requires BlocksFit(w.env, dep, bs) && forall i :: 0 <= i < |f.notes| ==> NoteCovered(w, q, f.notes[i])
    ensures Wallet.Spendable(f.notes) <= Minted(ReplayAll(w.env, dep, bs).events) <= Deposited(dep.vault, bs)
  {
    hide GoodQueries, ValidSuite, SoundCodec, Conservation.Sound, RunCovered, ReplayAll, BookAll, Tracks, NotePlain,
      NoteCovered, MintsFit, BlocksFit, Worth, Minted, Deposited, Positions, LeavesOk, SpendsOk, RootsOk, Honesty.Sound,
      Backed, PositionsDiffer;
    var l, g := ReplayAll(w.env, dep, bs), BookAll(w.env, x, dep, bs);
    RunConserves(w.env, x, q, dep, bs);
    Honesty.TrackedNotes(w, dep, bs, f);
    TrackedDiffer(w, f, l.events);
    ReplayMintsFit(w.env, dep, bs);
    TrackedPlain(w, f, l.events);
    forall i | 0 <= i < |f.notes| && !f.notes[i].spent ensures Backed(g, Positions(g.spends), f.notes[i]) {
      assert NotePlain(w, f.notes[i]);
      NoteIsBacked(w, q, l, g, f.notes[i]);
      BackedIs(g, Positions(g.spends), f.notes[i]);
    }
    SpendableOf(g, Positions(g.spends), f.notes);
    MintedIsDeposited(w.env, dep, bs);
  }

  lemma BackedIs(g: Books, spent: set<nat>, n: OwnedNote)
    requires n.pos < |g.origins| && OriginValue(g.origins[n.pos]) == n.v && n.pos !in spent
    ensures Backed(g, spent, n)
  {
  }
}
