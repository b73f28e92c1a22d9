/** The operator's payouts together: what all attempts ask for never exceeds the
    accepted mints, so never what was paid to the vault. */
module Treasury {
  import opened Bytes
  import opened Wrappers
  import opened Edwards
  import opened Wire
  import opened Note
  import opened Circuit
  import opened Binding
  import opened Replay
  import opened EventLog
  import opened Conservation
  import opened Scanning
  import opened Resume
  import opened Plaintexts
  import opened Solvency
  import opened Payouts
  import opened Wallet
  import Carrier
  import Completeness
  import Honesty
  import Pruning
  import S = Selection

  /** The transfer an event carries. */
  function TransferOf(env: Env, e: Event): Option<Transfer> {
    match Parse(env.cd, e.bytes)
    case Accepted(TransferEnvelope(t)) => if e.TransferEvent? then Some(t) else None
    case _ => None
  }

  /** What the request in an event asks for. */
  function Asked(env: Env, e: Event): nat {
    var t := TransferOf(env, e);
    if t.Some? && t.value.payout.Some? then t.value.payout.value.amount else 0
  }

  function AskedAll(env: Env, events: seq<Event>, requests: seq<nat>): nat
    requires forall k :: 0 <= k < |requests| ==> requests[k] < |events|
  {
    if requests == [] then 0
    else
      var n := |requests| - 1;
      AskedAll(env, events, requests[..n]) + Asked(env, events[requests[n]])
  }

  /** What the attempts pay the requesters. */
  function PaidOut(attempts: seq<Attempt>): nat {
    if attempts == [] then 0
    else
      var n := |attempts| - 1;
      PaidOut(attempts[..n]) + if |attempts[n].tx.outputs| > 0 then attempts[n].tx.outputs[0].value else 0
  }

  /** What the attempts keep for the miners' fees. */
  function Fees(attempts: seq<Attempt>): nat {
    if attempts == [] then 0 else Fees(attempts[..|attempts| - 1]) + attempts[|attempts| - 1].fee
  }

  /** e is a request addressed to the wallet, for no more than was burned. */
  ghost predicate Burns(w: Who, e: Event) {
    var t := TransferOf(w.env, e);
    && t.Some? && Arity(t.value) && t.value.payout.Some? && |e.positions| == N_OUT
    && var n := DecryptAsRecipient(w.env.s, t.value.ct[0], t.value.pkEph[0], ViewOf(w.env.s, w.keys.sk));
       n.Some? && t.value.payout.value.amount <= n.value.v
  }

  /** The burned note of a request, as if it were unspent. */
  ghost function Burned(w: Who, e: Event): OwnedNote {
    if !Burns(w, e) then OwnedNote(0, [], 0, false, 0, 0, 0, e.txid, false, None, None)
    else
      var t := TransferOf(w.env, e).value;
      var n := DecryptAsRecipient(w.env.s, t.ct[0], t.pkEph[0], ViewOf(w.env.s, w.keys.sk)).value;
      OutputNote(w, n, t, e.txid, e.positions[0], 0).(spent := false)
  }

  /** A request's burned note opens its leaf and is in range. */
  lemma BurnedIsSound(w: Who, l: Ledger, i: nat)
    requires ValidWho(w) && Logged(w.env, l) && i < |l.events| && Burns(w, l.events[i])
    requires OwnNf(w, Burned(w, l.events[i])) !in l.nullifiers
    ensures Honesty.Sound(w, l, Burned(w, l.events[i])) && NotePlain(w, Burned(w, l.events[i]))
      && !Burned(w, l.events[i]).spent
    ensures Burned(w, l.events[i]).v >= Asked(w.env, l.events[i])
    ensures Burned(w, l.events[i]).pos == |LeavesOf(w.env, l.events[..i])|
  {
    hide Parse, ValidSuite, SoundCodec, DecryptAsRecipient, HBody, OwnNf, LeavesOf, LogOk, CtLeaf, Open, PlainOk,
      InputLeaf, CtCanonical;
    var e := l.events[i];
    var t := TransferOf(w.env, e).value;
    EventLeaves(w.env, l.events, i);
    CtsCanonical(w.env, e.bytes);
    var s, view := w.env.s, ViewOf(w.env.s, w.keys.sk);
    var n := DecryptAsRecipient(s, t.ct[0], t.pkEph[0], view).value;
    FoundNoteRebuildsLeaf(s, w.keys.sk, t.ct[0], t.pkEph[0], HBody(w.env, t), 0);
    RangeOfFound(s, t.ct[0], t.pkEph[0], view);
    assert Plain(n.v, n.d, n.rSeed) == n;
    FirstLeaf(w.env, l.leaves, LeavesOf(w.env, l.events[..i]), e, t);
  }

  lemma RangeOfFound(s: Suite, ct: Ciphertext, pkEph: Point, view: nat)
    requires ValidSuite(s) && DecryptAsRecipient(s, ct, pkEph, view).Some?
    ensures PlainOk(s, DecryptAsRecipient(s, ct, pkEph, view).value)
  {
    hide ValidSuite, Open, PlainOk, Fold;
    DecryptsOk(s, NoteKey(s, Fold(s.c, view, pkEph), pkEph), ct, pkEph);
  }

  lemma FirstLeaf(env: Env, leaves: seq<nat>, past: seq<nat>, e: Event, t: Transfer)
    requires e.TransferEvent? && Parse(env.cd, e.bytes) == Accepted(TransferEnvelope(t)) && Arity(t)
    requires past + LeavesBy(env, e) <= leaves
    ensures LeafAt(leaves, |past|) == Some(OutputLeaf(env, t, 0))
  {
    hide Parse, OutputLeaf;
    assert (past + LeavesBy(env, e))[|past|] == OutputLeaf(env, t, 0);
  }

  // ------------------------------------------------------------ all the attempts

  /** Request k of the log is what attempt k pays. */
  ghost predicate Pays(w: Who, events: seq<Event>, requests: seq<nat>, attempts: seq<Attempt>) {
    && |requests| == |attempts| && Within(events, requests)
    && forall k :: 0 <= k < |requests| ==> PaysFor(w, events[requests[k]], attempts[k])
  }

  ghost predicate PaysFor(w: Who, e: Event, a: Attempt) {
    Requests(w.env, w.keys, e, a.nf, a.tx, a.fee)
  }

  predicate Within(events: seq<Event>, requests: seq<nat>) {
    forall k :: 0 <= k < |requests| ==> requests[k] < |events|
  }

  predicate Distinct(attempts: seq<Attempt>) {
    forall i, k :: 0 <= i < k < |attempts| ==> attempts[i].nf != attempts[k].nf
  }

  lemma {:induction false} FindRequests(w: Who, events: seq<Event>, attempts: seq<Attempt>) returns (requests: seq<nat>)
    requires forall k :: 0 <= k < |attempts| ==> Claimed(w.env, w.keys, events, attempts[k])
    ensures Pays(w, events, requests, attempts)
    decreases |attempts|
  {
    hide Requests;
    if attempts == [] {
      requests := [];
    } else {
      var n := |attempts| - 1;
      var rest := FindRequests(w, events, attempts[..n]);
      assert Claimed(w.env, w.keys, events, attempts[n]);
      var i: nat :| i < |events| && Requests(w.env, w.keys, events[i], attempts[n].nf, attempts[n].tx, attempts[n].fee);
      assert PaysFor(w, events[i], attempts[n]);
      requests := rest + [i];
    }
  }

  lemma RequestBurns(w: Who, e: Event, nf: nat, tx: Carrier.Tx, fee: nat)
    requires Requests(w.env, w.keys, e, nf, tx, fee) && |e.positions| == N_OUT
    ensures Burns(w, e)
  {
    hide Parse, PaysRequest, DecryptAsRecipient, FrBytes;
  }

  lemma RequestAsks(w: Who, e: Event, nf: nat, tx: Carrier.Tx, fee: nat)
    requires Requests(w.env, w.keys, e, nf, tx, fee)
    ensures TransferOf(w.env, e).Some? && |TransferOf(w.env, e).value.nf| > 0 && TransferOf(w.env, e).value.nf[0] == nf
    ensures |tx.outputs| > 0 && tx.outputs[0].value + fee == Asked(w.env, e)
  {
    hide Parse, PaysRequest, DecryptAsRecipient, FrBytes;
    var t := Parse(w.env.cd, e.bytes).e.t;
    PaidAtMost(t.payout.value, tx, FrBytes(nf), fee);
  }

  lemma TwoPositions(env: Env, events: seq<Event>, i: nat)
    requires LogOk(env, events) && i < |events| && events[i].TransferEvent?
    ensures |events[i].positions| == N_OUT
  {
    hide Parse, LeavesOf, LogOk, LeavesBy;
    EventLeaves(env, events, i);
  }

  lemma OneRequest(w: Who, events: seq<Event>, i: nat, a: Attempt)
    requires LogOk(w.env, events) && i < |events| && PaysFor(w, events[i], a)
    ensures Burns(w, events[i])
    ensures |a.tx.outputs| > 0 && a.tx.outputs[0].value + a.fee == Asked(w.env, events[i])
  {
    hide RequestPaid, Burns, Asked, LogOk, Parse;
    TwoPositions(w.env, events, i);
    RequestBurns(w, events[i], a.nf, a.tx, a.fee);
    RequestAsks(w, events[i], a.nf, a.tx, a.fee);
  }

  /** Two requests of the log burned notes at different positions. */
  lemma LaterPosition(env: Env, events: seq<Event>, i: nat, k: nat)
    requires LogOk(env, events) && i < k < |events| && TransferOf(env, events[i]).Some?
    ensures |LeavesOf(env, events[..i])| < |LeavesOf(env, events[..k])|
  {
    hide Parse, LeavesOf, LogOk, OutputLeaf;
    LogPrefix(env, events, k);
    EventLeaves(env, events[..k], i);
    assert events[..k][..i] == events[..i] && events[..k][i] == events[i];
  }

  /** The wallet never spent a note burned to it, and the queries of opening
      those notes are in q. */
  ghost predicate BurnsKept(w: Who, q: Queries, l: Ledger) {
    forall i :: 0 <= i < |l.events| && Burns(w, l.events[i]) ==>
      OwnNf(w, Burned(w, l.events[i])) !in l.nullifiers && NoteCovered(w, q, Burned(w, l.events[i]))
  }

  lemma BurnedIsBacked(w: Who, q: Queries, l: Ledger, g: Books, i: nat)
    requires ValidWho(w) && ValidEnv(w.env) && GoodQueries(w.env.s, q) && LeavesOk(w.env, q, l, g)
      && SpendsOk(w.env, q, l, g)
    requires Logged(w.env, l) && BurnsKept(w, q, l) && i < |l.events| && Burns(w, l.events[i])
    ensures Backed(g, Positions(g.spends), Burned(w, l.events[i]))
    ensures Burned(w, l.events[i]).pos == |LeavesOf(w.env, l.events[..i])|
    ensures Burned(w, l.events[i]).v >= Asked(w.env, l.events[i])
  {
    hide ValidWho, ValidEnv, GoodQueries, LeavesOk, SpendsOk, Logged, Burns, Burned, NoteCovered, OwnNf, LeavesOf,
      NotePlain, Honesty.Sound, Asked, Positions, Backed, OriginValue, CtCanonical, PlainOk;
    BurnedIsSound(w, l, i);
    NoteIsBacked(w, q, l, g, Burned(w, l.events[i]));
    BackedIs(g, Positions(g.spends), Burned(w, l.events[i]));
  }

  ghost function BurnedBy(w: Who, events: seq<Event>, requests: seq<nat>): (r: seq<OwnedNote>)
    requires Within(events, requests)
    ensures |r| == |requests| && forall k :: 0 <= k < |r| ==> r[k] == Burned(w, events[requests[k]])
  {
    seq(|requests|, k requires 0 <= k < |requests| => Burned(w, events[requests[k]]))
  }

  /** Attempts for different nullifiers answer requests with different notes. */
  lemma NotesDiffer(w: Who, events: seq<Event>, requests: seq<nat>, attempts: seq<Attempt>)
    requires LogOk(w.env, events) && Pays(w, events, requests, attempts) && Distinct(attempts)
    requires forall k :: 0 <= k < |requests| ==>
      Burned(w, events[requests[k]]).pos == |LeavesOf(w.env, events[..requests[k]])|
    ensures PositionsDiffer(BurnedBy(w, events, requests))
  {
    hide LogOk, LeavesOf, PaysFor, Burned, TransferOf;
    var notes := BurnedBy(w, events, requests);
    forall i, k | 0 <= i < k < |notes| ensures notes[i].pos != notes[k].pos {
      assert PaysFor(w, events[requests[i]], attempts[i]) && PaysFor(w, events[requests[k]], attempts[k]);
      TwoRequests(w, events, requests[i], requests[k], attempts[i], attempts[k]);
    }
  }

  lemma TwoRequests(w: Who, events: seq<Event>, i: nat, k: nat, a: Attempt, b: Attempt)
    requires LogOk(w.env, events) && i < |events| && k < |events| && a.nf != b.nf
    requires PaysFor(w, events[i], a) && PaysFor(w, events[k], b)
    ensures |LeavesOf(w.env, events[..i])| != |LeavesOf(w.env, events[..k])|
  {
    hide LogOk, LeavesOf, TransferOf, Requests;
    RequestAsks(w, events[i], a.nf, a.tx, a.fee);
    RequestAsks(w, events[k], b.nf, b.tx, b.fee);
    if i < k {
      LaterPosition(w.env, events, i, k);
    } else {
      assert i != k;
      LaterPosition(w.env, events, k, i);
    }
  }

  lemma NothingBurned(w: Who, events: seq<Event>, requests: seq<nat>)
    requires requests == []
    ensures Within(events, requests) && Spendable(BurnedBy(w, events, requests)) == 0
  {
    hide Burned;
  }

  lemma BurnedSnoc(w: Who, events: seq<Event>, requests: seq<nat>)
    requires requests != [] && Within(events, requests)
    requires var n := Burned(w, events[requests[|requests| - 1]]); !n.spent && n.lockedBy.None?
    ensures Spendable(BurnedBy(w, events, requests))
         == Spendable(BurnedBy(w, events, requests[..|requests| - 1])) + Burned(w, events[requests[|requests| - 1]]).v
  {
    hide Burned;
    var n := |requests| - 1;
    assert BurnedBy(w, events, requests)[..n] == BurnedBy(w, events, requests[..n]);
  }

  lemma {:induction false} PaidIsBurned(w: Who, events: seq<Event>, requests: seq<nat>, attempts: seq<Attempt>)
    requires LogOk(w.env, events) && Pays(w, events, requests, attempts)
    requires forall k :: 0 <= k < |requests| ==>
      var n := Burned(w, events[requests[k]]);
      n.v >= Asked(w.env, events[requests[k]]) && !n.spent && n.lockedBy.None?
    ensures PaidOut(attempts) + Fees(attempts) == AskedAll(w.env, events, requests)
    ensures AskedAll(w.env, events, requests) <= Spendable(BurnedBy(w, events, requests))
    decreases |attempts|
  {
    hide LogOk, PaysFor, Burned, Asked, Burns, BurnedBy, Spendable;
    if attempts == [] {
      NothingBurned(w, events, requests);
    } else {
      var n := |attempts| - 1;
      BurnedSnoc(w, events, requests);
      assert PaysFor(w, events[requests[n]], attempts[n]);
      OneRequest(w, events, requests[n], attempts[n]);
      PaidIsBurned(w, events, requests[..n], attempts[..n]);
    }
  }

  /** On any reachable state, whatever was paid out by attempts that answer its
      accepted requests, one for each nullifier, is with the fees exactly what
      those requests asked for, so at most the accepted mints, so at most what was
      paid to the vault. */
  lemma PayoutsAreBacked(w: Who, x: Extractor, q: Queries, dep: Deployment, bs: seq<Block>, attempts: seq<Attempt>)
    returns (requests: seq<nat>)
    requires ValidWho(w) && ValidEnv(w.env) && Conservation.Sound(w.env, x) && GoodQueries(w.env.s, q)
    requires RunCovered(w.env, x, q, dep, bs) && BurnsKept(w, q, ReplayAll(w.env, dep, bs)) && Distinct(attempts)
    requires forall k :: 0 <= k < |attempts| ==> Claimed(w.env, w.keys, ReplayAll(w.env, dep, bs).events, attempts[k])
    ensures Pays(w, ReplayAll(w.env, dep, bs).events, requests, attempts)
    ensures PaidOut(attempts) + Fees(attempts) == AskedAll(w.env, ReplayAll(w.env, dep, bs).events, requests)
    ensures AskedAll(w.env, ReplayAll(w.env, dep, bs).events, requests) <= Minted(ReplayAll(w.env, dep, bs).events)
    ensures Minted(ReplayAll(w.env, dep, bs).events) <= Deposited(dep.vault, bs)
  {
    hide ValidWho, ValidEnv, GoodQueries, Conservation.Sound, RunCovered, ReplayAll, BookAll, LeavesOk, SpendsOk,
      RootsOk, LogOk, Claimed, PaysFor, BurnsKept, Burns, Burned, Asked, LeavesOf, Worth, Minted, Deposited, Positions,
      Backed, PositionsDiffer;
    var l, g := ReplayAll(w.env, dep, bs), BookAll(w.env, x, dep, bs);
    RunConserves(w.env, x, q, dep, bs);
    ReplayLogged(w.env, dep, bs);
    MintedIsDeposited(w.env, dep, bs);
    requests := FindRequests(w, l.events, attempts);
    var notes := BurnedBy(w, l.events, requests);
    forall k | 0 <= k < |requests| ensures GoodBurn(w, g, l.events, requests[k]) {
      assert PaysFor(w, l.events[requests[k]], attempts[k]);
      OneRequest(w, l.events, requests[k], attempts[k]);
      BurnedIsBacked(w, q, l, g, requests[k]);
      BurnedFree(w, l.events[requests[k]]);
    }
    assert forall k :: 0 <= k < |requests| ==> GoodBurn(w, g, l.events, requests[k]);
    NotesDiffer(w, l.events, requests, attempts);
    PaidIsBurned(w, l.events, requests, attempts);
    SpendableOf(g, Positions(g.spends), notes);
  }

  ghost predicate GoodBurn(w: Who, g: Books, events: seq<Event>, i: nat)
    requires i < |events|
  {
    var n := Burned(w, events[i]);
    && Backed(g, Positions(g.spends), n) && n.pos == |LeavesOf(w.env, events[..i])|
    && n.v >= Asked(w.env, events[i]) && !n.spent && n.lockedBy.None?
  }

  lemma BurnedFree(w: Who, e: Event)
    ensures !Burned(w, e).spent && Burned(w, e).lockedBy.None?
  {
    hide Burns, TransferOf, DecryptAsRecipient;
  }

  /** What an earlier run's attempt answered is still in the log of every longer
      chain, so attempts may be gathered over all runs. */
  lemma {:induction false} ClaimStays(w: Who, dep: Deployment, bs: seq<Block>, more: seq<Block>, a: Attempt)
    requires Claimed(w.env, w.keys, ReplayAll(w.env, dep, bs).events, a)
    ensures Claimed(w.env, w.keys, ReplayAll(w.env, dep, bs + more).events, a)
    decreases |more|
  {
    hide *;
    if more == [] {
      assert bs + more == bs;
    } else {
      var n := |more| - 1;
      ClaimStays(w, dep, bs, more[..n], a);
      assert bs + more == (bs + more[..n]) + [more[n]];
      OneMoreBlock(w.env, dep, bs + more[..n], more[n]);
      ClaimGrows(w, ReplayAll(w.env, dep, bs + more[..n]).events, ReplayAll(w.env, dep, bs + more).events, a);
    }
  }

  lemma OneMoreBlock(env: Env, dep: Deployment, bs: seq<Block>, b: Block)
    ensures ReplayAll(env, dep, bs).events <= ReplayAll(env, dep, bs + [b]).events
  {
    hide ReplayTxs, ReplayAll, ReplayBlock;
    var l := ReplayAll(env, dep, bs);
    ReplaySnoc(env, dep, bs, b);
    BlockEvents(env, dep, l, b);
    Pruning.TxsGrow(env, dep, l, l.height + 1, b.txs);
  }

  lemma ClaimGrows(w: Who, events: seq<Event>, longer: seq<Event>, a: Attempt)
    requires Claimed(w.env, w.keys, events, a) && events <= longer
    ensures Claimed(w.env, w.keys, longer, a)
  {
    hide Requests;
    var i :| 0 <= i < |events| && Requests(w.env, w.keys, events[i], a.nf, a.tx, a.fee);
    assert longer[i] == events[i];
  }

  // --------------------------------------------- the wallet leaves burned notes be

  /** A note of one event sits at its first position or above, and there only
      if it is the event's first output. */
  lemma FoundAt(w: Who, e: Event, n: nat, x: OwnedNote)
    requires EventAt(w.env, n, e) && x in Completeness.FoundBy(w, e)
    ensures x.pos >= n
    ensures x.pos == n && w.operator && Burns(w, e) ==> x.spent
  {
    hide Parse, DecryptAsRecipient, AddressKey, HBody, Le;
  }

  lemma {:induction false} FoundIsSpent(w: Who, events: seq<Event>, i: nat, x: OwnedNote)
    requires w.operator && LogOk(w.env, events) && i < |events| && Burns(w, events[i])
    requires x in Completeness.FoundIn(w, events) && x.pos == |LeavesOf(w.env, events[..i])|
    ensures x.spent
    decreases |events|
  {
    hide Completeness.FoundBy, EventAt, Burns, LeavesBy, SeeAll, Completeness.Firsts;
    var k := |events| - 1;
    if x in Completeness.FoundBy(w, events[k]) {
      FoundAt(w, events[k], |LeavesOf(w.env, events[..k])|, x);
      if i < k {
        BurnsIsTransfer(w, events[i]);
        LaterPosition(w.env, events, i, k);
      }
    } else {
      Completeness.ScanRecords(w, events[..k]);
      if i < k {
        assert events[..k][..i] == events[..i];
        FoundIsSpent(w, events[..k], i, x);
      }
    }
  }

  lemma BurnsIsTransfer(w: Who, e: Event)
    requires Burns(w, e)
    ensures TransferOf(w.env, e).Some?
  {
    hide TransferOf, DecryptAsRecipient;
  }

  /** An operator wallet tracking a log holds every note burned to it as spent,
      so it never puts one into a transfer. */
  lemma BurnedNeverSpendable(w: Who, f: WalletFile, events: seq<Event>, i: nat, k: nat, depth: nat)
    requires w.operator && LogOk(w.env, events) && Tracks(w, f, events)
    requires i < |events| && Burns(w, events[i]) && k < |f.notes|
    requires f.notes[k].pos == |LeavesOf(w.env, events[..i])|
    ensures f.notes[k].spent && !S.Spendable(f.notes[k], depth)
  {
    hide SeeAll, LogOk, Burns, LeavesOf, Completeness.FoundIn, Completeness.Firsts, NfsOf, OwnNf;
    var base := SeeAll(w, NOTHING, events);
    Completeness.ScanRecords(w, events);
    Completeness.FirstsAmong(Completeness.FoundIn(w, events));
    assert TracksNote(w, f.notes[k], base.notes[k], NfsOf(w.env, events));
    SameBare(w, f.notes[k], base.notes[k]);
    assert base.notes[k] in Completeness.Firsts(Completeness.FoundIn(w, events));
    FoundIsSpent(w, events, i, base.notes[k]);
  }
}
