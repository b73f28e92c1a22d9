/** Wallet scanning as a fold over the event log, and why it can be resumed. */
module Scanning {
  import opened Bytes
  import opened Wrappers
  import opened Edwards
  import opened Wire
  import WireLaws
  import opened Note
  import opened Circuit
  import opened Replay
  import opened EventLog

  datatype Address = Address(d: seq<byte>, pkD: Point)

  /** The wallet's spending key, its own address, how addresses are written, and
      the opaque opening of a transfer's recovery ciphertext. */
  datatype Keys = Keys(sk: nat, own: Address, text: Address -> string, recover: Transfer -> Option<seq<(Point, nat)>>)

  datatype OwnedNote = OwnedNote(
    v: nat, d: seq<byte>, rSeed: nat, isMint: bool, hBody: nat, j: nat, pos: nat, txid: nat,
    spent: bool, lockedBy: Option<nat>, lockAnchor: Option<nat>)

  datatype SentRecord = SentRecord(txid: nat, v: nat, to: string, j: nat)

  /** Why a peg-out request was refused for good. */
  datatype Denial =
    | PayoutExceedsBurn(amount: nat, burned: nat) | PayoutBelowDust(amount: nat) | NonStandardPayout
    | PayoutBelowFee(amount: nat, fee: nat) | FeeOverflow

  datatype WalletFile = WalletFile(
    notes: seq<OwnedNote>, sent: seq<SentRecord>, scannedEvents: nat, scannedTxid: Option<nat>,
    paidPayouts: seq<string>, failedPayouts: map<string, Denial>, payoutTxids: seq<nat>)

  datatype ScanError = CorruptEvent(txid: nat) | LeafMismatch(pos: nat)

  /** Who scans: environment, keys, and whether this is the operator. */
  datatype Who = Who(env: Env, keys: Keys, operator: bool)

  function OwnNf(w: Who, n: OwnedNote): nat {
    NullifierOf(w.env.s, w.keys.sk, n.rSeed, n.pos)
  }

  function RebuiltLeaf(w: Who, n: OwnedNote): Option<nat> {
    InputLeaf(w.env.s, w.keys.sk, n.isMint, Plain(n.v, n.d, n.rSeed), n.hBody, n.j)
  }

  function LeafAt(leaves: seq<nat>, pos: nat): Option<nat> {
    if pos < |leaves| then Some(leaves[pos]) else None
  }

  /** What scanning has gathered: notes, sent records, and the nullifiers of the
      notes. */
  datatype Acc = Acc(notes: seq<OwnedNote>, sent: seq<SentRecord>, nfs: set<nat>)

  predicate Known(notes: seq<OwnedNote>, n: OwnedNote) {
    exists i :: 0 <= i < |notes| && (notes[i].pos == n.pos || (notes[i].txid == n.txid && notes[i].j == n.j))
  }

  /** record: a note is added unless it is empty or already known. */
  function Record(w: Who, acc: Acc, n: OwnedNote): Acc {
    if n.v == 0 || Known(acc.notes, n) then acc
    else acc.(notes := acc.notes + [n], nfs := acc.nfs + {OwnNf(w, n)})
  }

  function MintNote(m: Mint, txid: nat, value: nat, pos: nat): OwnedNote {
    OwnedNote(value, m.d, m.rSeed, true, 0, 0, pos, txid, false, None, None)
  }

  function SeeMint(w: Who, acc: Acc, m: Mint, txid: nat, value: nat, pos: nat): Acc {
    if AddressKey(w.env.s, ViewOf(w.env.s, w.keys.sk), Le(m.d)) == Some(m.pkD)
    then Record(w, acc, MintNote(m, txid, value, pos))
    else acc
  }

  function OutputNote(w: Who, n: Plain, t: Transfer, txid: nat, pos: nat, j: nat): OwnedNote {
    OwnedNote(n.v, n.d, n.rSeed, false, HBody(w.env, t), j, pos, txid,
              w.operator && j == 0 && t.payout.Some?, None, None)
  }

  function SeeOutput(w: Who, acc: Acc, t: Transfer, txid: nat, pos: nat, j: nat): Acc
    requires Arity(t) && j < N_OUT
  {
    match DecryptAsRecipient(w.env.s, t.ct[j], t.pkEph[j], ViewOf(w.env.s, w.keys.sk))
    case None => acc
    case Some(n) => Record(w, acc, OutputNote(w, n, t, txid, pos, j))
  }

  predicate Sent(sent: seq<SentRecord>, txid: nat, j: nat) {
    exists i :: 0 <= i < |sent| && sent[i].txid == txid && sent[i].j == j
  }

  function SeeRecovered(w: Who, acc: Acc, t: Transfer, txid: nat, records: seq<(Point, nat)>, j: nat): Acc
    requires Arity(t) && j < N_OUT
  {
    if j >= |records| then acc
    else match DecryptAsSender(w.env.s, t.ct[j], t.pkEph[j], records[j].0, records[j].1)
      case None => acc
      case Some(n) =>
        if Sent(acc.sent, txid, j) then acc
        else acc.(sent := acc.sent + [SentRecord(txid, n.v, w.keys.text(Address(n.d, records[j].0)), j)])
  }

  /** The sender's side, only for transfers that spend one of our notes. */
  function SeeSpend(w: Who, acc: Acc, t: Transfer, txid: nat): Acc
    requires Arity(t)
  {
    if t.nf[0] !in acc.nfs && t.nf[1] !in acc.nfs then acc
    else match w.keys.recover(t)
      case None => acc
      case Some(records) => SeeRecovered(w, SeeRecovered(w, acc, t, txid, records, 0), t, txid, records, 1)
  }

  function SeeTransfer(w: Who, acc: Acc, t: Transfer, txid: nat, positions: seq<nat>): Acc
    requires Arity(t) && |positions| == N_OUT
  {
    SeeSpend(w, SeeOutput(w, SeeOutput(w, acc, t, txid, positions[0], 0), t, txid, positions[1], 1), t, txid)
  }

  /** One event of a well-kept log. */
  function See(w: Who, acc: Acc, e: Event): Acc {
    match Parse(w.env.cd, e.bytes)
    case Accepted(MintEnvelope(m)) => if e.MintEvent? then SeeMint(w, acc, m, e.txid, e.value, e.pos) else acc
    case Accepted(TransferEnvelope(t)) =>
      if e.TransferEvent? && |e.positions| == N_OUT then
        ParseArity(w.env.cd, e.bytes);
        SeeTransfer(w, acc, t, e.txid, e.positions)
      else acc
    case _ => acc
  }

  function SeeAll(w: Who, acc: Acc, events: seq<Event>): Acc {
    if events == [] then acc
    else See(w, SeeAll(w, acc, events[..|events| - 1]), events[|events| - 1])
  }

  /** What the checks in front of an event report. */
  function Trouble(w: Who, leaves: seq<nat>, e: Event): Option<ScanError> {
    match e
    case MintEvent(txid, _, bytes, value, pos) =>
      (match Parse(w.env.cd, bytes)
       case Accepted(MintEnvelope(m)) =>
         if LeafAt(leaves, pos) != Some(MintLeaf(w.env.s, value, Le(m.d), m.pkD, m.rSeed)) then Some(LeafMismatch(pos))
         else None
       case _ => Some(CorruptEvent(txid)))
    case TransferEvent(txid, _, bytes, positions) =>
      (match Parse(w.env.cd, bytes)
       case Accepted(TransferEnvelope(t)) =>
         ParseArity(w.env.cd, bytes);
         if |positions| != N_OUT then Some(CorruptEvent(txid))
         else if LeafAt(leaves, positions[0]) != Some(OutputLeaf(w.env, t, 0)) then Some(LeafMismatch(positions[0]))
         else if LeafAt(leaves, positions[1]) != Some(OutputLeaf(w.env, t, 1)) then Some(LeafMismatch(positions[1]))
         else None
       case _ => Some(CorruptEvent(txid)))
  }

  /** The first failing event, if any. */
  function FirstTrouble(w: Who, leaves: seq<nat>, events: seq<Event>): Option<(nat, ScanError)> {
    if events == [] then None
    else
      var n := |events| - 1;
      match FirstTrouble(w, leaves, events[..n])
      case Some(x) => Some(x)
      case None =>
        match Trouble(w, leaves, events[n])
        case None => None
        case Some(err) => Some((n, err))
  }

  // ------------------------------------------------------- a reachable log scans

  lemma NoTrouble(w: Who, leaves: seq<nat>, n: nat, e: Event)
    requires EventAt(w.env, n, e) && n + |LeavesBy(w.env, e)| <= |leaves|
    requires leaves[n..n + |LeavesBy(w.env, e)|] == LeavesBy(w.env, e)
    ensures Trouble(w, leaves, e) == None
  {
    hide Parse, OutputLeaf, MintLeaf, Le;
    var added := LeavesBy(w.env, e);
    var part := leaves[n..n + |added|];
    if |added| > 0 {
      assert part[0] == leaves[n];
    }
    if |added| > 1 {
      assert part[1] == leaves[n + 1];
    }
  }

  /** No scan of a reachable state reports a corrupt event or a leaf mismatch. */
  lemma {:induction false} LogScans(w: Who, leaves: seq<nat>, events: seq<Event>, k: nat)
    requires k <= |events| && LogOk(w.env, events) && leaves == LeavesOf(w.env, events)
    ensures FirstTrouble(w, leaves, events[k..]) == None
  {
    hide Trouble, LogOk, LeavesOf, EventAt, LeavesBy;
    forall i | k <= i < |events| ensures Trouble(w, leaves, events[i]) == None {
      EventLeaves(w.env, events, i);
      NoTrouble(w, leaves, |LeavesOf(w.env, events[..i])|, events[i]);
    }
    NoneFails(w, leaves, events[k..]);
  }

  lemma {:induction false} NoneFails(w: Who, leaves: seq<nat>, events: seq<Event>)
    requires forall i :: 0 <= i < |events| ==> Trouble(w, leaves, events[i]) == None
    ensures FirstTrouble(w, leaves, events) == None
    decreases |events|
  {
    hide Trouble;
    if events != [] {
      NoneFails(w, leaves, events[..|events| - 1]);
    }
  }

  // ------------------------------------------------- notes up to flags and locks

  function Bare(n: OwnedNote): OwnedNote {
    n.(spent := false, lockedBy := None, lockAnchor := None)
  }

  /** Two note lists that differ at most in the flags of their first k notes. */
  ghost predicate Beside(a: seq<OwnedNote>, b: seq<OwnedNote>, k: nat) {
    && |a| == |b| && k <= |a|
    && (forall i :: 0 <= i < |a| ==> Bare(a[i]) == Bare(b[i]))
    && (forall i :: k <= i < |a| ==> a[i] == b[i])
  }

  ghost predicate AccBeside(a: Acc, b: Acc, k: nat) {
    Beside(a.notes, b.notes, k) && a.sent == b.sent && a.nfs == b.nfs
  }

  lemma KnownBeside(a: seq<OwnedNote>, b: seq<OwnedNote>, k: nat, n: OwnedNote)
    requires Beside(a, b, k)
    ensures Known(a, n) == Known(b, n)
  {
    forall i | 0 <= i < |a| ensures a[i].pos == b[i].pos && a[i].txid == b[i].txid && a[i].j == b[i].j {
      assert Bare(a[i]) == Bare(b[i]);
    }
  }

  lemma RecordBeside(w: Who, a: Acc, b: Acc, k: nat, n: OwnedNote)
    requires AccBeside(a, b, k)
    ensures AccBeside(Record(w, a, n), Record(w, b, n), k)
    ensures a.notes <= Record(w, a, n).notes
  {
    hide Known, OwnNf;
    KnownBeside(a.notes, b.notes, k, n);
  }

  lemma OutputBeside(w: Who, a: Acc, b: Acc, k: nat, t: Transfer, txid: nat, pos: nat, j: nat)
    requires Arity(t) && j < N_OUT && AccBeside(a, b, k)
    ensures AccBeside(SeeOutput(w, a, t, txid, pos, j), SeeOutput(w, b, t, txid, pos, j), k)
    ensures a.notes <= SeeOutput(w, a, t, txid, pos, j).notes
  {
    hide DecryptAsRecipient, Record, OutputNote, AccBeside;
    var r := DecryptAsRecipient(w.env.s, t.ct[j], t.pkEph[j], ViewOf(w.env.s, w.keys.sk));
    if r.Some? {
      RecordBeside(w, a, b, k, OutputNote(w, r.value, t, txid, pos, j));
    }
  }

  lemma SpendBeside(w: Who, a: Acc, b: Acc, k: nat, t: Transfer, txid: nat)
    requires Arity(t) && AccBeside(a, b, k)
    ensures AccBeside(SeeSpend(w, a, t, txid), SeeSpend(w, b, t, txid), k)
    ensures SeeSpend(w, a, t, txid).notes == a.notes
  {
    hide DecryptAsSender, Sent, Beside;
  }

  lemma SeeBeside(w: Who, a: Acc, b: Acc, k: nat, e: Event)
    requires AccBeside(a, b, k)
    ensures AccBeside(See(w, a, e), See(w, b, e), k)
    ensures a.notes <= See(w, a, e).notes
  {
    hide Parse, SeeSpend, SeeOutput, Record, AddressKey, Le, AccBeside;
    match Parse(w.env.cd, e.bytes) {
      case Accepted(MintEnvelope(m)) =>
        if e.MintEvent? {
          RecordBeside(w, a, b, k, MintNote(m, e.txid, e.value, e.pos));
        }
      case Accepted(TransferEnvelope(t)) =>
        if e.TransferEvent? && |e.positions| == N_OUT {
          ParseArity(w.env.cd, e.bytes);
          OutputBeside(w, a, b, k, t, e.txid, e.positions[0], 0);
          var a', b' := SeeOutput(w, a, t, e.txid, e.positions[0], 0), SeeOutput(w, b, t, e.txid, e.positions[0], 0);
          OutputBeside(w, a', b', k, t, e.txid, e.positions[1], 1);
          SpendBeside(w, SeeOutput(w, a', t, e.txid, e.positions[1], 1), SeeOutput(w, b', t, e.txid, e.positions[1], 1),
            k, t, e.txid);
        }
      case _ =>
    }
  }

  /** Scanning more events neither looks at flags and locks nor touches the
      notes already held. */
  lemma {:induction false} ScanBeside(w: Who, a: Acc, b: Acc, k: nat, events: seq<Event>)
    requires AccBeside(a, b, k)
    ensures AccBeside(SeeAll(w, a, events), SeeAll(w, b, events), k)
    ensures a.notes <= SeeAll(w, a, events).notes
    decreases |events|
  {
    hide See, AccBeside;
    if events != [] {
      var n := |events| - 1;
      ScanBeside(w, a, b, k, events[..n]);
      SeeBeside(w, SeeAll(w, a, events[..n]), SeeAll(w, b, events[..n]), k, events[n]);
    }
  }

  lemma {:induction false} ScanConcat(w: Who, acc: Acc, a: seq<Event>, b: seq<Event>)
    ensures SeeAll(w, acc, a + b) == SeeAll(w, SeeAll(w, acc, a), b)
    decreases |b|
  {
    hide See;
    if b == [] {
      assert a + b == a;
    } else {
      var n := |b| - 1;
      assert (a + b)[..|a + b| - 1] == a + b[..n];
      ScanConcat(w, acc, a, b[..n]);
    }
  }

  // ------------------------------------------------------------- scan invariants

  function NfSet(w: Who, notes: seq<OwnedNote>): set<nat> {
    set i | 0 <= i < |notes| :: OwnNf(w, notes[i])
  }

  /** Every note rebuilds the leaf at its position. */
  ghost predicate Match(w: Who, leaves: seq<nat>, notes: seq<OwnedNote>) {
    forall i :: 0 <= i < |notes| ==>
      RebuiltLeaf(w, notes[i]).Some? && LeafAt(leaves, notes[i].pos) == RebuiltLeaf(w, notes[i])
  }

  ghost predicate AccOk(w: Who, leaves: seq<nat>, acc: Acc) {
    Match(w, leaves, acc.notes) && acc.nfs == NfSet(w, acc.notes)
  }

  lemma RecordOk(w: Who, leaves: seq<nat>, acc: Acc, n: OwnedNote)
    requires AccOk(w, leaves, acc) && RebuiltLeaf(w, n).Some? && LeafAt(leaves, n.pos) == RebuiltLeaf(w, n)
    ensures AccOk(w, leaves, Record(w, acc, n))
  {
    hide Known, OwnNf, RebuiltLeaf;
    var notes := acc.notes + [n];
    forall x ensures x in NfSet(w, notes) <==> x in NfSet(w, acc.notes) + {OwnNf(w, n)} {
      if x in NfSet(w, acc.notes) {
        var i :| 0 <= i < |acc.notes| && OwnNf(w, acc.notes[i]) == x;
        assert notes[i] == acc.notes[i];
      }
      assert notes[|acc.notes|] == n;
    }
  }

  /** The output found by decryption is the note behind the replayed leaf. */
  lemma OutputMatches(w: Who, leaves: seq<nat>, acc: Acc, t: Transfer, txid: nat, pos: nat, j: nat)
    requires ValidSuite(w.env.s) && Arity(t) && j < N_OUT && AccOk(w, leaves, acc) && CtCanonical(w.env.s, t.ct[j])
    requires LeafAt(leaves, pos) == Some(OutputLeaf(w.env, t, j))
    ensures AccOk(w, leaves, SeeOutput(w, acc, t, txid, pos, j))
  {
    hide DecryptAsRecipient, Record, ValidSuite, AccOk, HBody, InputLeaf, CtCanonical, CtLeaf;
    var r := DecryptAsRecipient(w.env.s, t.ct[j], t.pkEph[j], ViewOf(w.env.s, w.keys.sk));
    if r.Some? {
      FoundNoteRebuildsLeaf(w.env.s, w.keys.sk, t.ct[j], t.pkEph[j], HBody(w.env, t), j);
      var n := OutputNote(w, r.value, t, txid, pos, j);
      assert Plain(n.v, n.d, n.rSeed) == r.value;
      RecordOk(w, leaves, acc, n);
    }
  }

  lemma MintMatches(w: Who, leaves: seq<nat>, acc: Acc, m: Mint, txid: nat, value: nat, pos: nat)
    requires AccOk(w, leaves, acc) && LeafAt(leaves, pos) == Some(MintLeaf(w.env.s, value, Le(m.d), m.pkD, m.rSeed))
    ensures AccOk(w, leaves, SeeMint(w, acc, m, txid, value, pos))
  {
    hide Record, AccOk, AddressKey, Le, MintLeaf;
    if AddressKey(w.env.s, ViewOf(w.env.s, w.keys.sk), Le(m.d)) == Some(m.pkD) {
      RecordOk(w, leaves, acc, MintNote(m, txid, value, pos));
    }
  }

  lemma SpendMatches(w: Who, leaves: seq<nat>, acc: Acc, t: Transfer, txid: nat)
    requires Arity(t) && AccOk(w, leaves, acc)
    ensures AccOk(w, leaves, SeeSpend(w, acc, t, txid))
  {
    hide DecryptAsSender, Sent, Match, NfSet;
  }

  lemma SeeOk(w: Who, leaves: seq<nat>, acc: Acc, e: Event)
    requires ValidSuite(w.env.s) && SoundCodec(w.env.cd) && w.env.cd.f == w.env.s.c.f
    requires AccOk(w, leaves, acc) && Trouble(w, leaves, e) == None
    ensures AccOk(w, leaves, See(w, acc, e))
  {
    hide Parse, SeeSpend, SeeOutput, SeeMint, AccOk, ValidSuite, OutputLeaf, MintLeaf, Le, LeafAt, SoundCodec,
      WellFormed;
    match Parse(w.env.cd, e.bytes) {
      case Accepted(MintEnvelope(m)) =>
        if e.MintEvent? {
          MintMatches(w, leaves, acc, m, e.txid, e.value, e.pos);
        }
      case Accepted(TransferEnvelope(t)) =>
        if e.TransferEvent? {
          ParseArity(w.env.cd, e.bytes);
          CtsCanonical(w.env, e.bytes);
          OutputMatches(w, leaves, acc, t, e.txid, e.positions[0], 0);
          var acc' := SeeOutput(w, acc, t, e.txid, e.positions[0], 0);
          OutputMatches(w, leaves, acc', t, e.txid, e.positions[1], 1);
          SpendMatches(w, leaves, SeeOutput(w, acc', t, e.txid, e.positions[1], 1), t, e.txid);
        }
      case _ =>
    }
  }

  lemma CtsCanonical(env: Env, b: seq<byte>)
    requires SoundCodec(env.cd) && env.cd.f == env.s.c.f
    requires Parse(env.cd, b).Accepted? && Parse(env.cd, b).e.TransferEnvelope? && Arity(Parse(env.cd, b).e.t)
    ensures CtCanonical(env.s, Parse(env.cd, b).e.t.ct[0]) && CtCanonical(env.s, Parse(env.cd, b).e.t.ct[1])
  {
    hide Parse, SoundCodec, ToBytes, PayoutOk, Pow256;
    WireLaws.ParseIff(env.cd, b, Parse(env.cd, b).e);
    var t := Parse(env.cd, b).e.t;
    assert CtOk(env.cd, t.ct[0]) && CtOk(env.cd, t.ct[1]) by {
      assert t.ct[0] in t.ct && t.ct[1] in t.ct;
    }
  }

  /** A scan of a well-kept log holds only notes that rebuild their replayed
      leaves, and exactly their nullifiers. */
  lemma {:induction false} ScanOk(w: Who, leaves: seq<nat>, acc: Acc, events: seq<Event>)
    requires ValidSuite(w.env.s) && SoundCodec(w.env.cd) && w.env.cd.f == w.env.s.c.f
    requires AccOk(w, leaves, acc) && FirstTrouble(w, leaves, events) == None
    ensures AccOk(w, leaves, SeeAll(w, acc, events))
    decreases |events|
  {
    hide See, AccOk, Trouble, ValidSuite, SoundCodec;
    if events != [] {
      var n := |events| - 1;
      ScanOk(w, leaves, acc, events[..n]);
      SeeOk(w, leaves, SeeAll(w, acc, events[..n]), events[n]);
    }
  }
}
