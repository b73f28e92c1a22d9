/** The sender's side of a scan: which payments the wallet lists as its own. */
module SentRecords {
  import opened Bytes
  import opened Wrappers
  import opened Edwards
  import opened Wire
  import opened Note
  import opened Circuit
  import opened Replay
  import opened EventLog
  import opened Scanning
  import opened Resume
  import opened Completeness
  import opened Building
  import S = Selection
  import Acceptance

  /** One of the wallet's notes has this nullifier. */
  predicate OwnsNf(w: Who, notes: seq<OwnedNote>, nf: nat) {
    exists i :: 0 <= i < |notes| && OwnNf(w, notes[i]) == nf
  }

  /** t spends one of the notes, its recovery ciphertext opens to the wallet, and r
      is what it says of output j. */
  predicate Recovers(w: Who, notes: seq<OwnedNote>, t: Transfer, txid: nat, r: SentRecord, j: nat)
    requires Arity(t)
  {
    && (OwnsNf(w, notes, t.nf[0]) || OwnsNf(w, notes, t.nf[1]))
    && var records := w.keys.recover(t);
       records.Some? && j < N_OUT && j < |records.value| &&
       var (pkD, e) := records.value[j];
       var n := DecryptAsSender(w.env.s, t.ct[j], t.pkEph[j], pkD, e);
       n.Some? && r == SentRecord(txid, n.value.v, w.keys.text(Address(n.value.d, pkD)), j)
  }

  /** r is a payment of the transfer recorded by e. */
  ghost predicate SentIn(w: Who, notes: seq<OwnedNote>, e: Event, r: SentRecord) {
    var p := Parse(w.env.cd, e.bytes);
    && e.TransferEvent? && |e.positions| == N_OUT && p.Accepted? && p.e.TransferEnvelope? && Arity(p.e.t)
    && exists j :: 0 <= j < N_OUT && Recovers(w, notes, p.e.t, e.txid, r, j)
  }

  /** r is a payment of some event's transfer, which spends a note known by then. */
  ghost predicate Listed(w: Who, events: seq<Event>, r: SentRecord) {
    exists k :: 0 <= k < |events| && SentIn(w, SeeAll(w, NOTHING, events[..k + 1]).notes, events[k], r)
  }

  lemma RecoverOne(w: Who, acc: Acc, t: Transfer, txid: nat, records: seq<(Point, nat)>, j: nat, r: SentRecord)
    requires Arity(t) && j < N_OUT && !Sent(acc.sent, txid, j)
    ensures var n := if j < |records| then DecryptAsSender(w.env.s, t.ct[j], t.pkEph[j], records[j].0, records[j].1)
                     else None;
      r in SeeRecovered(w, acc, t, txid, records, j).sent <==>
        r in acc.sent
        || (n.Some? && r == SentRecord(txid, n.value.v, w.keys.text(Address(n.value.d, records[j].0)), j))
    ensures SeeRecovered(w, acc, t, txid, records, j).notes == acc.notes
    ensures SeeRecovered(w, acc, t, txid, records, j).nfs == acc.nfs
    ensures forall i :: i != j && !Sent(acc.sent, txid, i) ==>
      !Sent(SeeRecovered(w, acc, t, txid, records, j).sent, txid, i)
  {
    hide DecryptAsSender;
  }

  /** One transfer lists exactly what it recovers. */
  lemma SpendLists(w: Who, acc: Acc, t: Transfer, txid: nat, r: SentRecord)
    requires Arity(t) && acc.nfs == NfSet(w, acc.notes) && forall x :: x in acc.sent ==> x.txid != txid
    ensures r in SeeSpend(w, acc, t, txid).sent <==>
      r in acc.sent || exists j :: 0 <= j < N_OUT && Recovers(w, acc.notes, t, txid, r, j)
  {
    hide DecryptAsSender, SeeRecovered, OwnNf, Sent;
    NoneSent(acc.sent, txid);
    var records := w.keys.recover(t);
    if records.Some? {
      RecoverOne(w, acc, t, txid, records.value, 0, r);
      RecoverOne(w, SeeRecovered(w, acc, t, txid, records.value, 0), t, txid, records.value, 1, r);
    }
    RecoversParts(w, acc.notes, t, txid, r);
  }

  lemma NoneSent(sent: seq<SentRecord>, txid: nat)
    requires forall x :: x in sent ==> x.txid != txid
    ensures forall j :: !Sent(sent, txid, j)
  {
  }

  lemma RecoversParts(w: Who, notes: seq<OwnedNote>, t: Transfer, txid: nat, r: SentRecord)
    requires Arity(t)
    ensures (exists j :: 0 <= j < N_OUT && Recovers(w, notes, t, txid, r, j)) <==>
      Recovers(w, notes, t, txid, r, 0) || Recovers(w, notes, t, txid, r, 1)
  {
    hide Recovers;
  }

  lemma OutputsKeepSent(w: Who, acc: Acc, t: Transfer, txid: nat, pos: nat, j: nat)
    requires Arity(t) && j < N_OUT && acc.nfs == NfSet(w, acc.notes)
    ensures var a := SeeOutput(w, acc, t, txid, pos, j); a.sent == acc.sent && a.nfs == NfSet(w, a.notes)
  {
    hide DecryptAsRecipient, OutputNote, NfSet;
    var r := DecryptAsRecipient(w.env.s, t.ct[j], t.pkEph[j], ViewOf(w.env.s, w.keys.sk));
    if r.Some? {
      RecordNfs(w, acc, OutputNote(w, r.value, t, txid, pos, j));
    }
  }

  lemma RecordNfs(w: Who, acc: Acc, n: OwnedNote)
    requires acc.nfs == NfSet(w, acc.notes)
    ensures var a := Record(w, acc, n); a.sent == acc.sent && a.nfs == NfSet(w, a.notes)
  {
    hide Known, OwnNf;
    var notes := acc.notes + [n];
    forall x ensures x in NfSet(w, notes) <==> x in NfSet(w, acc.notes) + {OwnNf(w, n)} {
      if x in NfSet(w, acc.notes) {
        var i :| 0 <= i < |acc.notes| && OwnNf(w, acc.notes[i]) == x;
        assert notes[i] == acc.notes[i];
      }
      assert notes[|acc.notes|] == n;
    }
  }

  lemma MintKeepsSent(w: Who, acc: Acc, m: Mint, txid: nat, value: nat, pos: nat)
    requires acc.nfs == NfSet(w, acc.notes)
    ensures var a := SeeMint(w, acc, m, txid, value, pos); a.sent == acc.sent && a.nfs == NfSet(w, a.notes)
  {
    hide AddressKey, NfSet, Le;
    RecordNfs(w, acc, MintNote(m, txid, value, pos));
  }

  lemma SpendKeepsNfs(w: Who, acc: Acc, t: Transfer, txid: nat)
    requires Arity(t)
    ensures SeeSpend(w, acc, t, txid).nfs == acc.nfs && SeeSpend(w, acc, t, txid).notes == acc.notes
  {
    hide DecryptAsSender, Sent;
  }

  lemma SeeLists(w: Who, acc: Acc, e: Event, r: SentRecord)
    requires acc.nfs == NfSet(w, acc.notes) && forall x :: x in acc.sent ==> x.txid != e.txid
    ensures var a := See(w, acc, e);
      (r in a.sent <==> r in acc.sent || SentIn(w, a.notes, e, r)) && a.nfs == NfSet(w, a.notes)
  {
    hide Parse, SeeSpend, SeeOutput, SeeMint, NfSet, Recovers, OwnNf;
    match Parse(w.env.cd, e.bytes) {
      case Accepted(MintEnvelope(m)) =>
        if e.MintEvent? {
          MintKeepsSent(w, acc, m, e.txid, e.value, e.pos);
        }
      case Accepted(TransferEnvelope(t)) =>
        if e.TransferEvent? && |e.positions| == N_OUT {
          ParseArity(w.env.cd, e.bytes);
          OutputsKeepSent(w, acc, t, e.txid, e.positions[0], 0);
          var one := SeeOutput(w, acc, t, e.txid, e.positions[0], 0);
          OutputsKeepSent(w, one, t, e.txid, e.positions[1], 1);
          var two := SeeOutput(w, one, t, e.txid, e.positions[1], 1);
          SpendLists(w, two, t, e.txid, r);
          SpendKeepsNfs(w, two, t, e.txid);
        }
      case _ =>
    }
  }

  lemma ListedSnoc(w: Who, init: seq<Event>, e: Event, r: SentRecord)
    ensures Listed(w, init + [e], r) <==>
      Listed(w, init, r) || SentIn(w, SeeAll(w, NOTHING, init + [e]).notes, e, r)
  {
    hide SentIn, SeeAll;
    var all := init + [e];
    forall k | 0 <= k < |init| ensures all[..k + 1] == init[..k + 1] && all[k] == init[k] {
    }
    assert all[..|init| + 1] == all && all[|init|] == e;
    if Listed(w, init, r) {
      var k :| 0 <= k < |init| && SentIn(w, SeeAll(w, NOTHING, init[..k + 1]).notes, init[k], r);
      assert SentIn(w, SeeAll(w, NOTHING, all[..k + 1]).notes, all[k], r);
    }
    if SentIn(w, SeeAll(w, NOTHING, all).notes, e, r) {
      assert SentIn(w, SeeAll(w, NOTHING, all[..|init| + 1]).notes, all[|init|], r);
    }
  }

  lemma ListedTxid(w: Who, events: seq<Event>, r: SentRecord)
    requires Listed(w, events, r)
    ensures exists k :: 0 <= k < |events| && events[k].txid == r.txid
  {
    hide Parse, SeeAll, OwnNf, DecryptAsSender;
    var k :| 0 <= k < |events| && SentIn(w, SeeAll(w, NOTHING, events[..k + 1]).notes, events[k], r);
  }

  lemma {:induction false} ScanLists(w: Who, events: seq<Event>)
    requires DistinctTxids(events)
    ensures SeeAll(w, NOTHING, events).nfs == NfSet(w, SeeAll(w, NOTHING, events).notes)
    ensures forall r :: r in SeeAll(w, NOTHING, events).sent <==> Listed(w, events, r)
    decreases |events|
  {
    hide See, SentIn, NfSet, Listed;
    if events == [] {
      NothingListed(w);
    } else {
      var init, e := events[..|events| - 1], events[|events| - 1];
      assert events == init + [e];
      ScanLists(w, init);
      var acc := SeeAll(w, NOTHING, init);
      forall x | x in acc.sent ensures x.txid != e.txid {
        ListedTxid(w, init, x);
      }
      forall r ensures r in SeeAll(w, NOTHING, events).sent <==> Listed(w, events, r) {
        SeeLists(w, acc, e, r);
        ListedSnoc(w, init, e, r);
      }
      SeeLists(w, acc, e, SentRecord(0, 0, [], 0));
    }
  }

  lemma NothingListed(w: Who)
    ensures SeeAll(w, NOTHING, []).nfs == NfSet(w, SeeAll(w, NOTHING, []).notes)
    ensures forall r :: r in SeeAll(w, NOTHING, []).sent <==> Listed(w, [], r)
  {
    hide SentIn;
  }

  /** A tracking wallet lists as sent exactly the payments recovered from
      transfers that spend its notes. */
  lemma SentIff(w: Who, f: WalletFile, events: seq<Event>, r: SentRecord)
    requires DistinctTxids(events) && Tracks(w, f, events)
    ensures r in f.sent <==> Listed(w, events, r)
  {
    hide SeeAll, Listed, NfsOf, DistinctTxids;
    ScanLists(w, events);
  }

  // ---------------------------------------------------------- one's own transfers

  /** The sealed records of a transfer's witness open each of its outputs. */
  lemma RecordOpens(s: Suite, wit: NativeWitness, t: Transfer, j: nat)
    requires ValidSuite(s) && TwoByTwo(wit) && Evaluates(s, wit, Statement(t.nf, t.pkEph, t.ct)) && j < N_OUT
    requires PlainOk(s, PlainOf(wit.outputs[j]))
    ensures DecryptAsSender(s, t.ct[j], t.pkEph[j], Records(s, wit)[j].0, Records(s, wit)[j].1)
         == Some(PlainOf(wit.outputs[j]))
  {
    hide ValidSuite, PlainOk, CtCanonical, Encrypt, EncryptWith, DecryptAsSender, NullifierOf, Edwards.Fold;
    Acceptance.EphemeralInSubgroup(s, PlainOf(wit.outputs[j]), wit.outputs[j].pkD);
    SenderIff(s, t.ct[j], t.pkEph[j], wit.outputs[j].pkD, PlainOf(wit.outputs[j]),
      SkEph(s, wit.outputs[j].rSeed));
  }

  /** A wallet that built a transfer, and can open its recovery ciphertext, lists
      it once it scanned it: the amount, to whom, and its own change. */
  lemma OwnTransferListed(w: Who, f: WalletFile, events: seq<Event>, k: nat, l: Ledger, notes: seq<OwnedNote>,
                          chosen: seq<nat>, to: Address, amount: nat, seeds: Seeds, wit: NativeWitness, t: Transfer)
    requires ValidSuite(w.env.s) && DistinctTxids(events) && Tracks(w, f, events) && k < |events|
    requires Says(w, l, notes, chosen, to, amount, seeds, wit, t)
    requires PlainOk(w.env.s, PlainOf(wit.outputs[0])) && PlainOk(w.env.s, PlainOf(wit.outputs[1]))
    requires w.keys.recover(t) == Some(Records(w.env.s, wit))
    requires events[k].TransferEvent? && |events[k].positions| == N_OUT
    requires Parse(w.env.cd, events[k].bytes) == Accepted(TransferEnvelope(t))
    requires OwnsNf(w, SeeAll(w, NOTHING, events[..k + 1]).notes, t.nf[0])
    ensures SentRecord(events[k].txid, amount, w.keys.text(to), 0) in f.sent
    ensures SentRecord(events[k].txid, S.Total(notes, chosen) - amount, w.keys.text(w.keys.own), 1) in f.sent
  {
    hide ValidSuite, PlainOk, CtCanonical, Parse, SeeAll, Tracks, DistinctTxids, DecryptAsSender, Records, OwnsNf,
      InputsOk, Evaluates, S.Total, Listed;
    var e := events[k];
    var a, b := SentRecord(e.txid, amount, w.keys.text(to), 0),
                SentRecord(e.txid, S.Total(notes, chosen) - amount, w.keys.text(w.keys.own), 1);
    RecordOpens(w.env.s, wit, t, 0);
    RecordOpens(w.env.s, wit, t, 1);
    RecordsAre(w.env.s, wit);
    var mine := SeeAll(w, NOTHING, events[..k + 1]).notes;
    assert Recovers(w, mine, t, e.txid, a, 0);
    assert Recovers(w, mine, t, e.txid, b, 1);
    IsListed(w, events, k, a);
    IsListed(w, events, k, b);
    SentIff(w, f, events, a);
    SentIff(w, f, events, b);
  }

  lemma IsListed(w: Who, events: seq<Event>, k: nat, r: SentRecord)
    requires k < |events| && SentIn(w, SeeAll(w, NOTHING, events[..k + 1]).notes, events[k], r)
    ensures Listed(w, events, r)
  {
    hide SentIn, SeeAll;
  }
}
