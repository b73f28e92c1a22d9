/** The ranges of recorded notes: every note a scan records has a 64-bit value,
    an 11-byte diversifier and a reduced seed. */
module Plaintexts {
  import opened Bytes
  import opened Wrappers
  import opened Wire
  import opened Note
  import opened Circuit
  import opened Replay
  import opened EventLog
  import opened Scanning
  import opened Resume
  import Carrier
  import Completeness
  import Edwards
  import Merkle
  import Rooms
  import WireLaws

  ghost predicate NotePlain(w: Who, n: OwnedNote) {
    PlainOk(w.env.s, Plain(n.v, n.d, n.rSeed))
  }

  ghost predicate NotesPlain(w: Who, notes: seq<OwnedNote>) {
    forall i :: 0 <= i < |notes| ==> NotePlain(w, notes[i])
  }

  /** Minted values fit 64 bits. */
  predicate MintsFit(events: seq<Event>) {
    forall i :: 0 <= i < |events| ==> events[i].MintEvent? ==> events[i].value < U64
  }

  lemma RecordPlain(w: Who, acc: Acc, n: OwnedNote)
    requires NotesPlain(w, acc.notes) && NotePlain(w, n)
    ensures NotesPlain(w, Record(w, acc, n).notes)
  {
    hide NotePlain, OwnNf, Known;
  }

  lemma OutputPlain(w: Who, acc: Acc, t: Transfer, txid: nat, pos: nat, j: nat)
    requires ValidSuite(w.env.s) && Arity(t) && j < N_OUT && NotesPlain(w, acc.notes)
    ensures NotesPlain(w, SeeOutput(w, acc, t, txid, pos, j).notes)
  {
    hide ValidSuite, NotesPlain, Record, Open, NoteKey, HBody, PlainOk;
    var s, view := w.env.s, ViewOf(w.env.s, w.keys.sk);
    var r := DecryptAsRecipient(s, t.ct[j], t.pkEph[j], view);
    if r.Some? {
      DecryptsOk(s, NoteKey(s, Edwards.Fold(s.c, view, t.pkEph[j]), t.pkEph[j]), t.ct[j], t.pkEph[j]);
      var n := OutputNote(w, r.value, t, txid, pos, j);
      assert Plain(n.v, n.d, n.rSeed) == r.value;
      RecordPlain(w, acc, n);
    }
  }

  lemma MintPlain(w: Who, acc: Acc, b: seq<byte>, txid: nat, value: nat, pos: nat)
    requires ValidWho(w) && NotesPlain(w, acc.notes) && value < U64
    requires Parse(w.env.cd, b).Accepted? && Parse(w.env.cd, b).e.MintEnvelope?
    ensures NotesPlain(w, SeeMint(w, acc, Parse(w.env.cd, b).e.m, txid, value, pos).notes)
  {
    hide Parse, ValidSuite, SoundCodec, NotesPlain, Record, AddressKey, Le, Pow256, Encodable, ToBytes;
    var m := Parse(w.env.cd, b).e.m;
    WireLaws.ParseIff(w.env.cd, b, MintEnvelope(m));
    U64Is();
    assert NotePlain(w, MintNote(m, txid, value, pos));
    if AddressKey(w.env.s, ViewOf(w.env.s, w.keys.sk), Le(m.d)) == Some(m.pkD) {
      RecordPlain(w, acc, MintNote(m, txid, value, pos));
    }
  }

  lemma SeePlain(w: Who, acc: Acc, e: Event)
    requires ValidWho(w) && NotesPlain(w, acc.notes) && (e.MintEvent? ==> e.value < U64)
    ensures NotesPlain(w, See(w, acc, e).notes)
  {
    hide Parse, SeeSpend, SeeOutput, SeeMint, NotesPlain, ValidSuite, SoundCodec;
    match Parse(w.env.cd, e.bytes) {
      case Accepted(MintEnvelope(m)) =>
        if e.MintEvent? {
          MintPlain(w, acc, e.bytes, e.txid, e.value, e.pos);
        }
      case Accepted(TransferEnvelope(t)) =>
        if e.TransferEvent? && |e.positions| == N_OUT {
          ParseArity(w.env.cd, e.bytes);
          OutputPlain(w, acc, t, e.txid, e.positions[0], 0);
          var acc' := SeeOutput(w, acc, t, e.txid, e.positions[0], 0);
          OutputPlain(w, acc', t, e.txid, e.positions[1], 1);
          Completeness.SpendKeepsNotes(w, SeeOutput(w, acc', t, e.txid, e.positions[1], 1), t, e.txid);
        }
      case _ =>
    }
  }

  lemma {:induction false} ScanPlain(w: Who, acc: Acc, events: seq<Event>)
    requires ValidWho(w) && NotesPlain(w, acc.notes) && MintsFit(events)
    ensures NotesPlain(w, SeeAll(w, acc, events).notes)
    decreases |events|
  {
    hide See, NotesPlain, ValidWho;
    if events != [] {
      var n := |events| - 1;
      ScanPlain(w, acc, events[..n]);
      SeePlain(w, SeeAll(w, acc, events[..n]), events[n]);
    }
  }

  /** Every note of a tracking wallet is in range. */
  lemma TrackedPlain(w: Who, f: WalletFile, events: seq<Event>)
    requires ValidWho(w) && Tracks(w, f, events) && MintsFit(events)
    ensures NotesPlain(w, f.notes)
  {
    hide SeeAll, NfsOf, OwnNf, ValidWho, PlainOk;
    var base := SeeAll(w, NOTHING, events);
    ScanPlain(w, NOTHING, events);
    forall i | 0 <= i < |f.notes| ensures NotePlain(w, f.notes[i]) {
      assert TracksNote(w, f.notes[i], base.notes[i], NfsOf(w.env, events));
      SamePlain(f.notes[i], base.notes[i]);
      assert NotePlain(w, base.notes[i]);
    }
  }

  lemma SamePlain(a: OwnedNote, b: OwnedNote)
    requires Bare(a) == Bare(b)
    ensures Plain(a.v, a.d, a.rSeed) == Plain(b.v, b.d, b.rSeed) && a.pos == b.pos
  {
    assert a.v == Bare(a).v && a.d == Bare(a).d && a.rSeed == Bare(a).rSeed && a.pos == Bare(a).pos;
    assert b.v == Bare(b).v && b.d == Bare(b).d && b.rSeed == Bare(b).rSeed && b.pos == Bare(b).pos;
  }

  // ------------------------------------------------------- mints of replayed blocks

  lemma TxMintsFit(env: Env, dep: Deployment, l: Ledger, h: nat, tx: (nat, Carrier.Tx))
    requires MintsFit(l.events) && Rooms.DepositFits(env.cd, dep.vault, tx.1)
    ensures MintsFit(ReplayTx(env, dep, l, h, tx).events)
  {
    hide RequestOf, Judge, OutputLeaf, MintLeaf, Le;
  }

  lemma {:induction false} TxsMintsFit(env: Env, dep: Deployment, l: Ledger, h: nat, txs: seq<(nat, Carrier.Tx)>)
    requires MintsFit(l.events) && Rooms.DepositsFit(env.cd, dep.vault, txs)
    ensures MintsFit(ReplayTxs(env, dep, l, h, txs).events)
    decreases |txs|
  {
    hide ReplayTx, MintsFit, Rooms.DepositFits;
    if txs != [] {
      var n := |txs| - 1;
      TxsMintsFit(env, dep, l, h, txs[..n]);
      TxMintsFit(env, dep, ReplayTxs(env, dep, l, h, txs[..n]), h, txs[n]);
    }
  }

  /** No amount deposited in the blocks overflows 64 bits. */
  ghost predicate BlocksFit(env: Env, dep: Deployment, bs: seq<Block>) {
    forall i :: 0 <= i < |bs| ==> Rooms.DepositsFit(env.cd, dep.vault, bs[i].txs)
  }

  lemma {:induction false} ReplayMintsFit(env: Env, dep: Deployment, bs: seq<Block>)
    requires BlocksFit(env, dep, bs)
    ensures MintsFit(ReplayAll(env, dep, bs).events)
    decreases |bs|
  {
    hide ReplayTxs, Merkle.Root, Rooms.DepositsFit;
    if bs != [] {
      var n := |bs| - 1;
      assert forall i :: 0 <= i < n ==> bs[..n][i] == bs[i];
      ReplayMintsFit(env, dep, bs[..n]);
      var l := ReplayAll(env, dep, bs[..n]);
      TxsMintsFit(env, dep, l, l.height + 1, bs[n].txs);
    }
  }
}
