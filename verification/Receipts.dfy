/** What a wallet makes of the log: which of its notes count as spent, and what a
    payment adds to what it can spend. */
module Receipts {
  import opened Binary
  import opened Bytes
  import opened Wrappers
  import opened Merkle
  import opened Wire
  import opened Note
  import opened Circuit
  import opened Binding
  import opened Replay
  import opened EventLog
  import opened Conservation
  import opened Scanning
  import opened Resume
  import opened Completeness
  import opened Nullifiers
  import Wallet

  // ------------------------------------------------------------------ spent notes

  /** n is the burned output of the peg-out request e, and this the operator. */
  predicate BurnedBy(w: Who, e: Event, n: OwnedNote) {
    && w.operator && e.TransferEvent? && |e.positions| > 0 && n.pos == e.positions[0]
    && var r := Parse(w.env.cd, e.bytes);
       r.Accepted? && r.e.TransferEnvelope? && r.e.t.payout.Some?
  }

  ghost predicate Burned(w: Who, events: seq<Event>, n: OwnedNote) {
    exists i :: 0 <= i < |events| && BurnedBy(w, events[i], n)
  }

  lemma BurnedSnoc(w: Who, init: seq<Event>, e: Event, n: OwnedNote)
    ensures Burned(w, init + [e], n) <==> Burned(w, init, n) || BurnedBy(w, e, n)
  {
    hide BurnedBy;
    if Burned(w, init, n) {
      var i :| 0 <= i < |init| && BurnedBy(w, init[i], n);
      assert (init + [e])[i] == init[i];
    }
    if BurnedBy(w, e, n) {
      assert (init + [e])[|init|] == e;
    }
  }

  lemma BurnBelow(w: Who, events: seq<Event>, n: OwnedNote)
    requires LogOk(w.env, events) && Burned(w, events, n)
    ensures n.pos < |LeavesOf(w.env, events)|
  {
    hide LogOk, LeavesOf, Parse, OutputLeaf, MintLeaf, Le;
    var i :| 0 <= i < |events| && BurnedBy(w, events[i], n);
    EventLeaves(w.env, events, i);
  }

  lemma FoundFlag(w: Who, e: Event, at: nat, n: OwnedNote)
    requires EventAt(w.env, at, e) && n in FoundBy(w, e)
    ensures n.pos >= at && (n.spent <==> BurnedBy(w, e, n))
  {
    hide Parse, DecryptAsRecipient, AddressKey, Le, HBody;
  }

  /** Of the wallet's notes the log flags as spent exactly the burned ones. */
  lemma {:induction false} FoundSpent(w: Who, events: seq<Event>, n: OwnedNote)
    requires LogOk(w.env, events) && n in FoundIn(w, events)
    ensures n.spent <==> Burned(w, events, n)
    decreases |events|
  {
    hide FoundBy, BurnedBy, Burned, LeavesOf, LeavesBy, EventAt, Firsts, SeeAll;
    var init, e := events[..|events| - 1], events[|events| - 1];
    assert events == init + [e];
    BurnedSnoc(w, init, e, n);
    ScanRecords(w, init);
    if n in FoundBy(w, e) {
      FoundFlag(w, e, |LeavesOf(w.env, init)|, n);
      if Burned(w, init, n) {
        BurnBelow(w, init, n);
      }
    } else {
      FoundSpent(w, init, n);
      BurnsLater(w, e, |LeavesOf(w.env, init)|, n);
    }
  }

  lemma BurnsLater(w: Who, e: Event, at: nat, n: OwnedNote)
    requires EventAt(w.env, at, e) && n.pos < at
    ensures !BurnedBy(w, e, n)
  {
    hide Parse;
  }

  /** A tracked note is spent exactly when its nullifier was published, or it is
      the output burned by a peg-out request and this is the operator. */
  lemma SpentIff(w: Who, f: WalletFile, events: seq<Event>)
    requires LogOk(w.env, events) && Tracks(w, f, events)
    ensures forall n :: n in f.notes ==>
      (n.spent <==> OwnNf(w, n) in NfsOf(w.env, events) || Burned(w, events, n))
  {
    hide LogOk, SeeAll, NfsOf, OwnNf, Burned, FoundIn, Firsts, Bare;
    var base := SeeAll(w, NOTHING, events);
    ScanRecords(w, events);
    FirstsAmong(FoundIn(w, events));
    forall i | 0 <= i < |f.notes|
      ensures f.notes[i].spent <==> OwnNf(w, f.notes[i]) in NfsOf(w.env, events) || Burned(w, events, f.notes[i])
    {
      assert TracksNote(w, f.notes[i], base.notes[i], NfsOf(w.env, events));
      assert base.notes[i] in FoundIn(w, events);
      FoundSpent(w, events, base.notes[i]);
      SameBare(w, f.notes[i], base.notes[i]);
      BurnedAt(w, events, f.notes[i], base.notes[i]);
    }
  }

  lemma BurnedAt(w: Who, events: seq<Event>, a: OwnedNote, b: OwnedNote)
    requires a.pos == b.pos
    ensures Burned(w, events, a) <==> Burned(w, events, b)
  {
    hide Parse;
    forall i | 0 <= i < |events| ensures BurnedBy(w, events[i], a) <==> BurnedBy(w, events[i], b) {
    }
  }

  /** On a reachable state: exactly when an accepted transfer had an input of the
      note's own key, seed and position, or it was burned. */
  lemma SpentExactly(w: Who, x: Extractor, q: Queries, dep: Deployment, bs: seq<Block>, f: WalletFile, n: OwnedNote)
    requires ValidSuite(w.env.s) && Conservation.Sound(w.env, x) && GoodQueries(w.env.s, q)
    requires RunCovered(w.env, x, q, dep, bs) && InputsCovered(w.env, x, q, dep, bs)
    requires Tracks(w, f, ReplayAll(w.env, dep, bs).events) && n in f.notes && NoteNf(w, q, n)
    ensures n.spent <==>
      Burned(w, ReplayAll(w.env, dep, bs).events, n)
      || exists p :: SpentInRun(w.env, x, dep, bs, p)
           && p.sk == w.keys.sk && p.inp.rSeed == n.rSeed && p.inp.pos == n.pos
  {
    hide ValidSuite, Conservation.Sound, GoodQueries, RunCovered, ReplayAll, SpentInRun, OwnNf, NoteNf, LogOk, Tracks,
      Burned, InputsCovered;
    ReplayLogged(w.env, dep, bs);
    SpentIff(w, f, ReplayAll(w.env, dep, bs).events);
    SpentOnlyByItself(w, x, q, dep, bs, n);
  }

  // -------------------------------------------------------------- what is received

  lemma {:induction false} SpendableConcat(a: seq<OwnedNote>, b: seq<OwnedNote>)
    ensures Wallet.Spendable(a + b) == Wallet.Spendable(a) + Wallet.Spendable(b)
    decreases |b|
  {
    if b == [] {
      assert a + b == a;
    } else {
      var n := |b| - 1;
      assert (a + b)[..|a + b| - 1] == a + b[..n];
      SpendableConcat(a, b[..n]);
    }
  }

  /** A note is worth its value to the balance when it is neither spent nor
      locked. */
  lemma SpendableSplit(notes: seq<OwnedNote>, i: nat)
    requires i < |notes| && !notes[i].spent && notes[i].lockedBy.None?
    ensures Wallet.Spendable(notes) == Wallet.Spendable(notes[..i] + notes[i + 1..]) + notes[i].v
  {
    hide Wallet.Spendable;
    var a, b := notes[..i], notes[i + 1..];
    assert notes == a + ([notes[i]] + b);
    SpendableConcat(a, [notes[i]] + b);
    SpendableConcat([notes[i]], b);
    SpendableConcat(a, b);
    SpendableOne(notes[i]);
  }

  lemma SpendableOne(n: OwnedNote)
    ensures Wallet.Spendable([n]) == if !n.spent && n.lockedBy.None? then n.v else 0
  {
    assert Wallet.Spendable([n][..0]) == 0;
  }

  lemma {:induction false} FoundPart(w: Who, events: seq<Event>, k: nat, n: OwnedNote)
    requires k < |events| && n in FoundBy(w, events[k])
    ensures n in FoundIn(w, events)
    decreases |events|
  {
    hide FoundBy;
    if k + 1 < |events| {
      FoundPart(w, events[..|events| - 1], k, n);
    }
  }

  /** A note of a later event is not among those found before. */
  lemma FoundLater(w: Who, events: seq<Event>, s: nat, k: nat, n: OwnedNote)
    requires s <= k < |events| && LogOk(w.env, events) && n in FoundBy(w, events[k])
    ensures n !in SeeAll(w, NOTHING, events[..s]).notes
  {
    hide FoundBy, LogOk, LeavesOf, LeavesBy, EventAt, FoundIn, Firsts, SeeAll, NfsOf;
    var past := events[..s];
    LogPrefix(w.env, events, s);
    ScanRecords(w, past);
    FirstsAmong(FoundIn(w, past));
    EventLeaves(w.env, events, k);
    LogPrefix(w.env, events[..k], s);
    assert events[..k][..s] == past;
    FoundFlag(w, events[k], |LeavesOf(w.env, events[..k])|, n);
  }

  lemma ScanExtends(w: Who, events: seq<Event>, s: nat)
    requires s <= |events|
    ensures SeeAll(w, NOTHING, events[..s]).notes <= SeeAll(w, NOTHING, events).notes
  {
    hide SeeAll;
    var past := events[..s];
    ScanConcat(w, NOTHING, past, events[s..]);
    assert past + events[s..] == events;
    var base := SeeAll(w, NOTHING, past);
    BesideSelf(base);
    ScanBeside(w, base, base, |base.notes|, events[s..]);
  }

  /** n is in the file as it came, and the rest of the file is worth n.v less. */
  ghost predicate Received(f: WalletFile, n: OwnedNote) {
    exists i :: 0 <= i < |f.notes| && f.notes[i] == n
      && Wallet.Spendable(f.notes) == Wallet.Spendable(f.notes[..i] + f.notes[i + 1..]) + n.v
  }

  lemma PastPrefix(past: seq<OwnedNote>, all: seq<OwnedNote>, i: nat)
    requires past <= all && i < |all| && all[i] !in past
    ensures i >= |past|
  {
  }

  lemma FoundIsReceived(w: Who, dep: Deployment, f: WalletFile, scanned: seq<Event>, bs: seq<Block>, k: nat,
                        n: OwnedNote)
    requires ValidWho(w) && Tracks(w, f, scanned) && scanned <= ReplayAll(w.env, dep, bs).events
    requires DistinctTxids(ReplayAll(w.env, dep, bs).events)
    requires |scanned| <= k < |ReplayAll(w.env, dep, bs).events|
    requires n in FoundBy(w, ReplayAll(w.env, dep, bs).events[k])
    requires !n.spent && n.lockedBy.None? && n.lockAnchor.None? && OwnNf(w, n) !in ReplayAll(w.env, dep, bs).nullifiers
    ensures Received(ScanFile(w, f, ReplayAll(w.env, dep, bs)), n)
  {
    hide ValidWho, ReplayAll, FoundBy, FoundIn, SeeAll, LogOk, DistinctTxids, OwnNf, ScanFile, NfsOf, LeavesOf;
    var l := ReplayAll(w.env, dep, bs);
    var all, g := SeeAll(w, NOTHING, l.events).notes, ScanFile(w, f, l).notes;
    ReplayLogged(w.env, dep, bs);
    NothingMissed(w, dep, bs);
    FoundPart(w, l.events, k, n);
    FoundLater(w, l.events, |scanned|, k, n);
    ScanExtends(w, l.events, |scanned|);
    assert l.events[..|scanned|] == scanned;
    ScanAdds(w, dep, f, scanned, bs);
    var i :| 0 <= i < |all| && all[i] == n;
    PastPrefix(SeeAll(w, NOTHING, scanned).notes, all, i);
    assert g[i] == n;
    SpendableSplit(g, i);
  }

  /** A payment of n.v to this wallet, in output j of a transfer it had not
      scanned yet, adds n.v to what the wallet can spend, once scanned and while
      its nullifier is not published, unless the operator burns it. */
  lemma PaymentIsReceived(w: Who, dep: Deployment, f: WalletFile, scanned: seq<Event>, bs: seq<Block>, k: nat,
                          t: Transfer, j: nat, n: Plain)
    requires ValidWho(w) && Tracks(w, f, scanned) && scanned <= ReplayAll(w.env, dep, bs).events
    requires DistinctTxids(ReplayAll(w.env, dep, bs).events)
    requires |scanned| <= k < |ReplayAll(w.env, dep, bs).events| && ReplayAll(w.env, dep, bs).events[k].TransferEvent?
    requires var e := ReplayAll(w.env, dep, bs).events[k];
      Parse(w.env.cd, e.bytes) == Accepted(TransferEnvelope(t)) && Arity(t) && j < N_OUT == |e.positions|
      && NullifierOf(w.env.s, w.keys.sk, n.rSeed, e.positions[j]) !in ReplayAll(w.env, dep, bs).nullifiers
    requires DecryptAsRecipient(w.env.s, t.ct[j], t.pkEph[j], ViewOf(w.env.s, w.keys.sk)) == Some(n) && n.v > 0
    requires !(w.operator && j == 0 && t.payout.Some?)
    ensures var l := ReplayAll(w.env, dep, bs);
      Received(ScanFile(w, f, l),
               OwnedNote(n.v, n.d, n.rSeed, false, HBody(w.env, t), j, l.events[k].positions[j], l.events[k].txid,
                         false, None, None))
  {
    hide ValidWho, ReplayAll, Received, Tracks, DistinctTxids, DecryptAsRecipient, HBody, NullifierOf, Parse;
    var l := ReplayAll(w.env, dep, bs);
    var e := l.events[k];
    var x := OwnedNote(n.v, n.d, n.rSeed, false, HBody(w.env, t), j, e.positions[j], e.txid, false, None, None);
    assert x in FoundBy(w, e);
    FoundIsReceived(w, dep, f, scanned, bs, k, x);
  }

  /** And so does a mint to one of its addresses, for exactly what was paid to the
      vault. */
  lemma MintIsReceived(w: Who, dep: Deployment, f: WalletFile, scanned: seq<Event>, bs: seq<Block>, k: nat, m: Mint)
    requires ValidWho(w) && Tracks(w, f, scanned) && scanned <= ReplayAll(w.env, dep, bs).events
    requires DistinctTxids(ReplayAll(w.env, dep, bs).events)
    requires |scanned| <= k < |ReplayAll(w.env, dep, bs).events| && ReplayAll(w.env, dep, bs).events[k].MintEvent?
    requires var e := ReplayAll(w.env, dep, bs).events[k];
      Parse(w.env.cd, e.bytes) == Accepted(MintEnvelope(m))
      && NullifierOf(w.env.s, w.keys.sk, m.rSeed, e.pos) !in ReplayAll(w.env, dep, bs).nullifiers
    requires AddressKey(w.env.s, ViewOf(w.env.s, w.keys.sk), Le(m.d)) == Some(m.pkD)
    ensures var l := ReplayAll(w.env, dep, bs);
      var e := l.events[k];
      Received(ScanFile(w, f, l), OwnedNote(e.value, m.d, m.rSeed, true, 0, 0, e.pos, e.txid, false, None, None))
  {
    hide ValidWho, ReplayAll, Received, Tracks, DistinctTxids, AddressKey, NullifierOf, Parse, LogOk, LeavesOf, Le,
      LeavesBy;
    var l := ReplayAll(w.env, dep, bs);
    var e := l.events[k];
    ReplayLogged(w.env, dep, bs);
    EventLeaves(w.env, l.events, k);
    var x := OwnedNote(e.value, m.d, m.rSeed, true, 0, 0, e.pos, e.txid, false, None, None);
    assert x in FoundBy(w, e);
    FoundIsReceived(w, dep, f, scanned, bs, k, x);
  }
}
