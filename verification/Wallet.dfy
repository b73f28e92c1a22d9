/** The wallet in place: its file in memory and on disk, scanning, balance,
    locks. */
module Wallet {
  import opened Bytes
  import Binary
  import opened Wrappers
  import opened Edwards
  import opened Wire
  import opened WireIo
  import opened Merkle
  import opened Note
  import opened Circuit
  import opened Replay
  import opened Chain
  import opened MockChain
  import opened Indexer
  import opened Scanning
  import opened Resume
  import opened Building
  import opened Minting
  import opened Payouts
  import opened Sorting
  import S = Selection
  import Acceptance
  import EventLog
  import Carrier

  /** What becomes of one save: the file may or may not have been replaced, the
      call may report an error, and the process may die there. */
  datatype SaveFate = Written | Failing(replaced: bool) | Dying(replaced: bool)

  /** The file on disk is replaced. */
  predicate Lands(saves: seq<SaveFate>) {
    saves == [] ||
    match saves[0]
    case Written => true
    case Failing(replaced) => replaced
    case Dying(replaced) => replaced
  }

  datatype SaveResult = Saved | SaveError | Died

  datatype ScanResult = Found(notes: nat) | Halted(error: ScanError) | NotSaved(r: SaveResult)

  datatype UnlockResult = Unlocked(notes: nat) | CarrierPresent | NoAnswer | UnlockNotSaved(s: SaveResult)

  datatype SendResult =
    | Published(txid: nat, t: Transfer, paid: nat) | NotSent(error: BuildError) | NoFunding(why: Carrier.BuildError)
    | NoFundingKey | SendFailed | PublishedNotSaved(txid: nat, t: Transfer, s: SaveResult)

  datatype Published = Out(txid: nat, paid: nat) | Stuck(why: SendResult)

  /** A transfer on its way: what was built, from which notes, its carrier, and
      the fee that pays. */
  datatype Outgoing = Outgoing(t: Transfer, inputs: seq<nat>, wit: NativeWitness, tx: Carrier.Tx, paid: nat)

  const NO_TRANSFER: Transfer := Transfer(0, [], [], [], [], None, [])

  /** One payout handed to the network: for which nullifier and request, at what
      fee to the requester and paid by the transaction, whether it got there, and
      whether that was answered. */
  datatype Attempt = Attempt(nf: nat, tx: Carrier.Tx, request: nat, fee: nat, paid: nat, reached: bool, answered: bool)

  datatype Payment = Payment(request: nat, value: nat, fee: nat, txid: nat)

  datatype PayoutRun = Done(payments: seq<Payment>) | Unsupervised | NoVaultKey | ChainTrouble
    | BadEvent(txid: nat) | NoSuchRequest(txid: nat) | Interrupted(s: SaveResult)

  class Wallet {
    const keys: Keys
    /** The scripts of the funding and vault keys, when the file has them. */
    const funding: Option<seq<byte>>
    const vault: Option<seq<byte>>
    /** Signed size of a carrier, by its shape. */
    const vsize: Carrier.Tx -> nat
    /** How nullifiers and txids are written in the payout lists. */
    const hex: seq<byte> -> string
    const idText: nat -> string
    var file: WalletFile
    /** The file as last replaced on disk. */
    var disk: WalletFile
    /** The fates of the saves to come; a save past the end succeeds. */
    var saves: seq<SaveFate>
    /** Every payout this wallet ever handed to the network. */
    ghost var attempts: seq<Attempt>

    constructor (keys: Keys, funding: Option<seq<byte>>, vault: Option<seq<byte>>, vsize: Carrier.Tx -> nat,
                 hex: seq<byte> -> string, idText: nat -> string)
      ensures this.keys == keys && this.funding == funding && this.vault == vault && this.vsize == vsize
      ensures this.hex == hex && this.idText == idText
      ensures disk == file && saves == [] && attempts == [] && Once()
      ensures forall env, operator :: Tracks(Who(env, keys, operator), file, [])
    {
      this.keys := keys;
      this.funding := funding;
      this.vault := vault;
      this.vsize := vsize;
      this.hex := hex;
      this.idText := idText;
      attempts := [];
      file := NEW_FILE;
      disk := NEW_FILE;
      saves := [];
    }

    ghost function Now(nfs: set<nat>): Acc
      reads `file
    {
      Acc(file.notes, file.sent, nfs)
    }

    /** Who scans: the operator is the one whose own address is the operator's. */
    function Me(state: State): (w: Who)
      ensures w.env == state.env && w.keys == keys
      ensures w.operator <==> keys.text(keys.own) == state.dep.operatorAddress
    {
      Who(state.env, keys, keys.text(keys.own) == state.dep.operatorAddress)
    }

    /** At most one payout was ever handed to the network for a nullifier, and
        the file, in memory and on disk, knows of each. */
    ghost predicate Once()
      reads `attempts, `file, `disk
    {
      OneEach(hex, attempts, file.paidPayouts) && OneEach(hex, attempts, disk.paidPayouts)
    }

    /** Replaces the file on disk as a whole or not at all. */
    method Save() returns (r: SaveResult)
      modifies `disk, `saves
      ensures disk == if Lands(old(saves)) then file else old(disk)
      ensures r == Saved ==> Lands(old(saves))
      ensures old(saves) == [] ==> r == Saved && saves == []
    {
      if saves == [] {
        disk := file;
        return Saved;
      }
      var fate := saves[0];
      saves := saves[1..];
      match fate {
        case Written =>
          disk := file;
          return Saved;
        case Failing(replaced) =>
          if replaced {
            disk := file;
          }
          return SaveError;
        case Dying(replaced) =>
          if replaced {
            disk := file;
          }
          return Died;
      }
    }

    /** The process starts again from the file on disk. */
    method Reopen()
      modifies `file
      ensures file == disk && (old(Once()) ==> Once())
    {
      file := disk;
    }

    // ------------------------------------------------------------------- scan

    method Record(w: Who, nfs: set<nat>, n: OwnedNote) returns (all: set<nat>)
      requires w.keys == keys
      modifies `file
      ensures Now(all) == Scanning.Record(w, old(Now(nfs)), n)
      ensures file == old(file).(notes := file.notes)
    {
      hide NullifierOf;
      if n.v == 0 {
        return nfs;
      }
      for i := 0 to |file.notes|
        invariant file == old(file)
        invariant forall k :: 0 <= k < i ==>
          !(file.notes[k].pos == n.pos || (file.notes[k].txid == n.txid && file.notes[k].j == n.j))
      {
        if file.notes[i].pos == n.pos || (file.notes[i].txid == n.txid && file.notes[i].j == n.j) {
          return nfs;
        }
      }
      all := nfs + {OwnNf(w, n)};
      file := file.(notes := file.notes + [n]);
    }

    method ScanMint(w: Who, nfs: set<nat>, m: Mint, txid: nat, value: nat, pos: nat) returns (all: set<nat>)
      requires w.keys == keys
      modifies `file
      ensures Now(all) == SeeMint(w, old(Now(nfs)), m, txid, value, pos)
      ensures file == old(file).(notes := file.notes)
    {
      hide Scanning.Record, AddressKey, Le;
      all := nfs;
      var pkD := AddressKey(w.env.s, ViewOf(w.env.s, keys.sk), Le(m.d));
      if pkD == Some(m.pkD) {
        all := Record(w, nfs, OwnedNote(value, m.d, m.rSeed, true, 0, 0, pos, txid, false, None, None));
      }
    }

    method ScanOutputs(w: Who, nfs: set<nat>, t: Transfer, txid: nat, positions: seq<nat>) returns (all: set<nat>)
      requires w.keys == keys && Arity(t) && |positions| == N_OUT
      modifies `file
      ensures Now(all) == SeeOutput(w, SeeOutput(w, old(Now(nfs)), t, txid, positions[0], 0), t, txid, positions[1], 1)
      ensures file == old(file).(notes := file.notes)
    {
      hide Scanning.Record, DecryptAsRecipient, HBody, SeeOutput;
      all := nfs;
      var hBody := HBody(w.env, t);
      for j := 0 to N_OUT
        modifies `file
        invariant file == old(file).(notes := file.notes)
        invariant Now(all) == Outputs(w, old(Now(nfs)), t, txid, positions, j)
      {
        var found := DecryptAsRecipient(w.env.s, t.ct[j], t.pkEph[j], ViewOf(w.env.s, keys.sk));
        SeeFound(w, Now(all), t, txid, positions[j], j);
        if found.Some? {
          var burned := w.operator && j == 0 && t.payout.Some?;
          var n := found.value;
          all := Record(w, all, OwnedNote(n.v, n.d, n.rSeed, false, hBody, j, positions[j], txid, burned, None, None));
        }
      }
    }

    method ScanRecovered(w: Who, t: Transfer, txid: nat, records: seq<(Point, nat)>, ghost nfs: set<nat>)
      requires w.keys == keys && Arity(t)
      modifies `file
      ensures Now(nfs) == SeeRecovered(w, SeeRecovered(w, old(Now(nfs)), t, txid, records, 0), t, txid, records, 1)
      ensures file == old(file).(sent := file.sent)
    {
      hide DecryptAsSender, Sent, SeeRecovered;
      var i := 0;
      while i < |records| && i < N_OUT
        modifies `file
        invariant i <= N_OUT
        invariant file == old(file).(sent := file.sent)
        invariant Now(nfs) == Recovered(w, old(Now(nfs)), t, txid, records, i)
      {
        var (pkD, e) := records[i];
        RecoverStep(w, Now(nfs), t, txid, records, i);
        var n := DecryptAsSender(w.env.s, t.ct[i], t.pkEph[i], pkD, e);
        if n.Some? {
          var known := AlreadySent(txid, i);
          if !known {
            file := file.(sent := file.sent + [SentRecord(txid, n.value.v, keys.text(Address(n.value.d, pkD)), i)]);
          }
        }
        i := i + 1;
      }
      RecoverRest(w, old(Now(nfs)), t, txid, records, i);
    }

    method AlreadySent(txid: nat, j: nat) returns (b: bool)
      ensures b == Sent(file.sent, txid, j)
    {
      for i := 0 to |file.sent|
        invariant forall k :: 0 <= k < i ==> !(file.sent[k].txid == txid && file.sent[k].j == j)
      {
        if file.sent[i].txid == txid && file.sent[i].j == j {
          return true;
        }
      }
      return false;
    }

    method ScanTransfer(w: Who, nfs: set<nat>, t: Transfer, txid: nat, positions: seq<nat>) returns (all: set<nat>)
      requires w.keys == keys && Arity(t) && |positions| == N_OUT
      modifies `file
      ensures Now(all) == SeeTransfer(w, old(Now(nfs)), t, txid, positions)
      ensures file == old(file).(notes := file.notes, sent := file.sent)
    {
      hide SeeOutput, SeeRecovered;
      all := ScanOutputs(w, nfs, t, txid, positions);
      if t.nf[0] in all || t.nf[1] in all {
        var records := keys.recover(t);
        if records.Some? {
          ScanRecovered(w, t, txid, records.value, all);
        }
      }
    }

    /** One event: its checks, then what it means to this wallet. */
    method ScanEvent(w: Who, state: State, nfs: set<nat>, e: Event) returns (trouble: Option<ScanError>, all: set<nat>)
      requires w.keys == keys && state.Valid() && w.env == state.env
      modifies `file
      ensures trouble == Trouble(w, state.tree.contents, e)
      ensures Now(all) == if trouble.None? then See(w, old(Now(nfs)), e) else old(Now(nfs))
      ensures file == old(file).(notes := file.notes, sent := file.sent)
    {
      hide Parse, SeeTransfer, SeeMint, OutputLeaf, MintLeaf, Le, Tables, LevelOk;
      all := nfs;
      var parsed := ParseBytes(w.env.cd, e.bytes);
      match e {
        case MintEvent(txid, _, _, value, pos) =>
          if !parsed.Accepted? || !parsed.e.MintEnvelope? {
            return Some(CorruptEvent(txid)), nfs;
          }
          var m := parsed.e.m;
          if state.tree.Leaf(pos) != Some(MintLeaf(w.env.s, value, Le(m.d), m.pkD, m.rSeed)) {
            return Some(LeafMismatch(pos)), nfs;
          }
          all := ScanMint(w, nfs, m, txid, value, pos);
        case TransferEvent(txid, _, _, positions) =>
          if !parsed.Accepted? || !parsed.e.TransferEnvelope? || |positions| != N_OUT {
            return Some(CorruptEvent(txid)), nfs;
          }
          var t := parsed.e.t;
          ParseArity(w.env.cd, e.bytes);
          for j := 0 to N_OUT
            invariant forall i: nat :: i < j ==>
              LeafAt(state.tree.contents, positions[i]) == Some(OutputLeaf(w.env, t, i))
          {
            if state.tree.Leaf(positions[j]) != Some(OutputLeaf(w.env, t, j)) {
              return Some(LeafMismatch(positions[j])), nfs;
            }
          }
          all := ScanTransfer(w, nfs, t, txid, positions);
      }
      return None, all;
    }

    /** Starts over when history changed, and drops records whose leaf is gone. */
    method Tidy(w: Who, state: State)
      requires w.keys == keys && state.Valid() && w.env == state.env
      modifies `file
      ensures file == Cleaned(w, old(file), state.View()) && file.scannedEvents <= |state.events|
      ensures file.paidPayouts == old(file).paidPayouts
    {
      hide KeptNotes, Tables, LevelOk, Sub, Binary.Pow2;
      var cursor := file.scannedEvents;
      var anchored := file.scannedTxid.Some? && 0 < cursor <= |state.events|
        && state.events[cursor - 1].txid == file.scannedTxid.value;
      if cursor > 0 && !anchored {
        file := file.(notes := [], sent := [], scannedEvents := 0);
      }
      var before := |file.notes|;
      var kept := KeepNotes(w, state);
      file := file.(notes := kept, scannedEvents := if |kept| < before then 0 else file.scannedEvents);
    }

    method KeepNotes(w: Who, state: State) returns (kept: seq<OwnedNote>)
      requires w.keys == keys && state.Valid() && w.env == state.env
      ensures kept == KeptNotes(w, state.tree.contents, file.notes)
    {
      hide InputLeaf, Tables, LevelOk, Sub, Binary.Pow2;
      kept := [];
      for i := 0 to |file.notes|
        invariant kept == KeptNotes(w, state.tree.contents, file.notes[..i])
      {
        var n := file.notes[i];
        assert file.notes[..i + 1][..i] == file.notes[..i];
        var leaf := RebuiltLeaf(w, n);
        if leaf.Some? && state.tree.Leaf(n.pos) == leaf {
          kept := kept + [n];
        }
      }
      assert file.notes[..|file.notes|] == file.notes;
    }

    /** Spent flags from the nullifier set; stale locks lapse. */
    method MarkSpent(w: Who, nullifiers: set<nat>, height: nat)
      requires w.keys == keys
      modifies `file
      ensures file == old(file).(notes := MarkedAll(w, old(file).notes, nullifiers, height))
    {
      hide NullifierOf;
      var notes := file.notes;
      for i := 0 to |notes|
        invariant |notes| == |file.notes|
        invariant forall k :: 0 <= k < i ==> notes[k] == Marked(w, file.notes[k], nullifiers, height)
        invariant forall k :: i <= k < |notes| ==> notes[k] == file.notes[k]
      {
        var n := notes[i];
        if OwnNf(w, n) in nullifiers {
          n := n.(spent := true, lockedBy := None, lockAnchor := None);
        } else if n.lockAnchor.Some? && height > n.lockAnchor.value + WINDOW_W {
          n := n.(lockedBy := None, lockAnchor := None);
        }
        notes := notes[i := n];
      }
      file := file.(notes := notes);
    }

    /** Looks at the pending events in order, stopping at the first trouble. */
    method ScanPending(w: Who, state: State) returns (trouble: Option<ScanError>)
      requires w.keys == keys && state.Valid() && w.env == state.env && file.scannedEvents <= |state.events|
      modifies `file
      ensures file == old(file).(notes := file.notes, sent := file.sent)
      ensures var l := state.View();
        var pending := l.events[old(file).scannedEvents..];
        match trouble
        case Some(err) =>
          FirstTrouble(w, l.leaves, pending).Some? && FirstTrouble(w, l.leaves, pending).value.1 == err
        case None =>
          var acc := SeeAll(w, Acc(old(file).notes, old(file).sent, NfSet(w, old(file).notes)), pending);
          FirstTrouble(w, l.leaves, pending) == None
          && file.notes == acc.notes && file.sent == acc.sent && |acc.notes| >= |old(file).notes|
    {
      hide See, SeeAll, Scanning.Trouble, NfSet, OwnNf, FirstTrouble, Tables, LevelOk;
      ghost var leaves := state.tree.contents;
      var nfs := CollectNfs(w);
      ghost var start := Now(nfs);
      var events := state.events[file.scannedEvents..];
      EmptyFold(w, leaves, start, events);
      for i := 0 to |events|
        modifies `file
        invariant file == old(file).(notes := file.notes, sent := file.sent)
        invariant Now(nfs) == SeeAll(w, start, events[..i])
        invariant FirstTrouble(w, leaves, events[..i]) == None
      {
        FoldStep(w, leaves, start, events, i);
        var err, all := ScanEvent(w, state, nfs, events[i]);
        if err.Some? {
          TroubleStays(w, leaves, events, i);
          return err;
        }
        nfs := all;
      }
      assert events[..|events|] == events;
      ScanBesideSelf(w, start, events);
      return None;
    }

    /** Scans the accepted history from the cursor. On success the file is what
        ScanFile says, in memory and on disk. */
    method Scan(state: State) returns (r: ScanResult)
      requires state.Valid()
      modifies `file, `disk, `saves
      ensures disk == file || disk == old(disk)
      ensures var trouble := FirstTrouble(Me(state), state.View().leaves, Pending(Me(state), old(file), state.View()));
        (r.Halted? <==> trouble.Some?) && (r.Halted? ==> trouble.value.1 == r.error && disk == old(disk))
      ensures !r.Halted? ==> file == ScanFile(Me(state), old(file), state.View())
      ensures r.Found? ==> disk == file && |file.notes| == |Cleaned(Me(state), old(file), state.View()).notes| + r.notes
      ensures old(saves) == [] ==> !r.NotSaved?
      ensures file.paidPayouts == old(file).paidPayouts && (old(Once()) ==> Once())
    {
      hide SeeAll, Cleaned, NfSet, FirstTrouble, Tables, LevelOk, MarkedAll, LastTxid, OneEach;
      var w := Me(state);
      Tidy(w, state);
      ghost var start := file;
      var before := |file.notes|;
      var trouble := ScanPending(w, state);
      if trouble.Some? {
        return Halted(trouble.value);
      }
      var found := |file.notes| - before;
      file := file.(scannedEvents := |state.events|, scannedTxid := LastTxid(state.events));
      MarkSpent(w, state.nullifiers, state.height);
      ghost var acc := SeeAll(w, Acc(start.notes, start.sent, NfSet(w, start.notes)),
        state.events[start.scannedEvents..]);
      FinalFile(w, old(file), state.View(), start, acc);
      assert file == Finished(w, start, acc, state.View());
      var saved := Save();
      return if saved == Saved then Found(found) else NotSaved(saved);
    }

    method CollectNfs(w: Who) returns (nfs: set<nat>)
      requires w.keys == keys
      ensures nfs == NfSet(w, file.notes)
    {
      hide OwnNf;
      nfs := {};
      for i := 0 to |file.notes|
        invariant nfs == set k | 0 <= k < i :: OwnNf(w, file.notes[k])
      {
        nfs := nfs + {OwnNf(w, file.notes[i])};
      }
    }

    // ---------------------------------------------------------- balance and locks

    /** The sum of the notes neither spent nor locked; None when it overflows. */
    method Balance() returns (r: Option<nat>)
      ensures r.Some? ==> r.value == Spendable(file.notes)
      ensures r.None? <==> Spendable(file.notes) >= U64
    {
      var acc := 0;
      for i := 0 to |file.notes|
        invariant acc == Spendable(file.notes[..i]) < U64
      {
        var n := file.notes[i];
        assert file.notes[..i + 1][..i] == file.notes[..i];
        if !n.spent && n.lockedBy.None? {
          if acc + n.v >= U64 {
            SpendableMonotone(file.notes, i + 1);
            return None;
          }
          acc := acc + n.v;
        }
      }
      assert file.notes[..|file.notes|] == file.notes;
      return Some(acc);
    }

    static method ReleaseNotes(all: seq<OwnedNote>, txid: nat) returns (notes: seq<OwnedNote>, n: nat)
      ensures notes == Released(all, txid) && n == LockedCount(all, txid)
    {
      notes := [];
      n := 0;
      for i := 0 to |all|
        invariant notes == Released(all[..i], txid) && n == LockedCount(all[..i], txid)
      {
        assert all[..i + 1][..i] == all[..i];
        var note := all[i];
        if note.lockedBy == Some(txid) {
          note := note.(lockedBy := None, lockAnchor := None);
          n := n + 1;
        }
        notes := notes + [note];
      }
      assert all[..|all|] == all;
    }

    /** Releases the notes locked by a carrier, unless the chain still knows it
        and the caller does not insist. */
    method Unlock(client: MockChain, txid: nat, force: bool) returns (r: UnlockResult)
      requires client.Valid()
      modifies `file, `disk, `saves, client`outages
      ensures r == CarrierPresent ==> !force && exists t :: Knows(client.hs, client.View(), client.mempool, txid, t)
      ensures r == CarrierPresent || r == NoAnswer ==> file == old(file) && disk == old(disk)
      ensures r.Unlocked? || r.UnlockNotSaved? ==>
        (force || forall t :: !Knows(client.hs, client.View(), client.mempool, txid, t))
        && file == old(file).(notes := Released(old(file).notes, txid))
      ensures r.Unlocked? ==> disk == file && r.notes == LockedCount(old(file).notes, txid)
      ensures old(Once()) ==> Once()
      ensures old(client.outages) == [] ==>
        (r == CarrierPresent <==> !force && exists t :: Knows(client.hs, client.View(), client.mempool, txid, t))
        && r != NoAnswer
      ensures old(saves) == [] ==> !r.UnlockNotSaved?
    {
      hide Knows, OneEach;
      if !force {
        var t := client.Transaction(txid);
        if t.Got? {
          return CarrierPresent;
        }
        if t == Unreachable {
          return NoAnswer;
        }
      }
      var notes, n := ReleaseNotes(file.notes, txid);
      file := file.(notes := notes);
      var saved := Save();
      return if saved == Saved then Unlocked(n) else UnlockNotSaved(saved);
    }

    // ------------------------------------------------------------------- send

    /** Why nothing was reported out: no funding key, coins that cannot pay, or
        trouble on the way, which while the source answers is only a lost reply. */
    ghost predicate StuckFor(client: MockChain, why: SendResult, pool: seq<Carrier.Tx>, relayed: seq<Carrier.Tx>,
                             outages: seq<bool>, rate: nat, payload: seq<byte>, extra: seq<Carrier.TxOut>)
      requires Started(client.View())
      reads client, client`blocks, client`relayed
    {
      && (why == NoFundingKey ==> funding.None?)
      && (why.NoFunding? && funding.Some? ==>
          !Fundable(client.hs, client.View(), pool, funding.value, vsize, rate, extra, payload))
      && (why == SendFailed && outages == [] ==> client.relayed != relayed)
    }

    /** Funds, builds and broadcasts a carrier: extra outputs first, then payload,
        and change back to the funding key. What was relayed is reported as out
        exactly when the server's reply arrived. */
    method Fund(client: MockChain, rate: nat, payload: seq<byte>, extra: seq<Carrier.TxOut>)
      returns (r: Published, ghost tx: Carrier.Tx, ghost paid: nat)
      requires client.Valid() && |payload| > 1 && forall o :: o in extra ==> !Carrier.IsOpReturn(o.script)
      requires funding.Some? ==> !Carrier.IsOpReturn(funding.value)
      modifies client`outages, client`mempool, client`relayed, client`dropNextBroadcastReply
      ensures client.relayed == old(client.relayed) || client.relayed == old(client.relayed) + [tx]
      ensures client.relayed != old(client.relayed) ==>
        Carrier.OpReturnPayload(tx) == Carrier.Carried(payload) && extra <= tx.outputs
      ensures client.relayed != old(client.relayed) ==>
        funding.Some? && Funded(client.hs, client.View(), old(client.mempool), funding.value, vsize, rate,
                                extra, payload, tx, paid)
      ensures client.relayed != old(client.relayed) ==> (r.Out? <==> !old(client.dropNextBroadcastReply))
      ensures r.Out? ==> client.relayed != old(client.relayed) && r.txid == client.hs.txid(tx) && r.paid == paid
      ensures r.Stuck? ==> r.why.NoFunding? || r.why.NoFundingKey? || r.why.SendFailed?
      ensures r.Stuck? ==>
        StuckFor(client, r.why, old(client.mempool), old(client.relayed), old(client.outages), rate, payload, extra)
    {
      hide AllOf, Carrier.OpReturnPayload, Carrier.OpReturnScript, Carrier.IsOpReturn, Listed, Committing,
        Carrier.Balanced, Carrier.Made, Carrier.Settles, Unspent, Sorted, Descending;
      tx, paid := Carrier.Tx([], []), 0;
      if funding.None? {
        return Stuck(NoFundingKey), tx, paid;
      }
      var listed := client.ListUnspent(funding.value);
      if !listed.Got? {
        return Stuck(SendFailed), tx, paid;
      }
      var utxos := SortDescending(listed.value, ValueOf);
      var carrier := Carrier.BuildCarrier(vsize, utxos, payload, extra, rate, funding.value);
      if carrier.Err? {
        return Stuck(NoFunding(carrier.error)), tx, paid;
      }
      Carrier.MadePays(Carrier.Order(vsize, extra, Carrier.OpReturnScript(payload), rate, funding.value), utxos,
        carrier.tx, carrier.paid);
      CarrierCarries(utxos, extra, payload, funding.value, carrier.tx, carrier.paid);
      tx, paid := carrier.tx, carrier.paid;
      var reply := client.Broadcast(carrier.tx);
      r := if reply.Got? then Out(reply.value, carrier.paid) else Stuck(SendFailed);
    }

    /** Funds and broadcasts the carrier of a built transfer. */
    method Publish(client: MockChain, cd: Codec, rate: nat, t: Transfer)
      returns (r: Published, ghost tx: Carrier.Tx, ghost paid: nat)
      requires client.Valid() && (funding.Some? ==> !Carrier.IsOpReturn(funding.value))
      modifies client`outages, client`mempool, client`relayed, client`dropNextBroadcastReply
      ensures client.relayed == old(client.relayed) || client.relayed == old(client.relayed) + [tx]
      ensures client.relayed != old(client.relayed) ==> Carries(cd, t, tx)
      ensures client.relayed != old(client.relayed) ==>
        funding.Some? && Funded(client.hs, client.View(), old(client.mempool), funding.value, vsize, rate,
                                [], ToBytes(cd, TransferEnvelope(t)), tx, paid)
      ensures client.relayed != old(client.relayed) ==> (r.Out? <==> !old(client.dropNextBroadcastReply))
      ensures r.Out? ==> client.relayed != old(client.relayed) && r.txid == client.hs.txid(tx) && r.paid == paid
      ensures r.Stuck? ==> r.why.NoFunding? || r.why.NoFundingKey? || r.why.SendFailed?
      ensures r.Stuck? ==>
        StuckFor(client, r.why, old(client.mempool), old(client.relayed), old(client.outages), rate,
                 ToBytes(cd, TransferEnvelope(t)), [])
    {
      hide ToBytes, Carrier.OpReturnPayload, Carrier.IsOpReturn, MockChain.Valid, Funded;
      Acceptance.LongPayload(cd, TransferEnvelope(t));
      r, tx, paid := Fund(client, rate, ToBytes(cd, TransferEnvelope(t)), []);
    }

    /** Peg-in: pays amount to the vault and publishes a mint to the wallet's own
        address in the same carrier, worth exactly that to replay unless change
        goes to the vault as well. */
    method Mint(client: MockChain, cd: Codec, dep: Deployment, amount: nat, rSeed: nat)
      returns (r: Published, ghost tx: Carrier.Tx, ghost paid: nat)
      requires client.Valid() && !Carrier.IsOpReturn(dep.vault)
      requires funding.Some? ==> !Carrier.IsOpReturn(funding.value)
      modifies client`outages, client`mempool, client`relayed, client`dropNextBroadcastReply
      ensures client.relayed == old(client.relayed) || client.relayed == old(client.relayed) + [tx]
      ensures client.relayed != old(client.relayed) ==>
        amount > 0 && VaultValue(dep.vault, tx.outputs) >= amount
        && Mints(cd, dep.vault, OwnMint(keys, rSeed), VaultValue(dep.vault, tx.outputs), tx)
      ensures client.relayed != old(client.relayed) && funding != Some(dep.vault) ==>
        Mints(cd, dep.vault, OwnMint(keys, rSeed), amount, tx)
      ensures client.relayed != old(client.relayed) ==>
        funding.Some? && Funded(client.hs, client.View(), old(client.mempool), funding.value, vsize, dep.feeRate,
                                [Carrier.TxOut(amount, dep.vault)],
                                ToBytes(cd, MintEnvelope(OwnMint(keys, rSeed))), tx, paid)
      ensures client.relayed != old(client.relayed) ==> (r.Out? <==> !old(client.dropNextBroadcastReply))
      ensures r.Out? ==> client.relayed != old(client.relayed) && r.txid == client.hs.txid(tx) && r.paid == paid
      ensures r == Stuck(NotSent(ZeroAmount)) <==> amount == 0
      ensures amount > 0 && r.Stuck? ==>
        StuckFor(client, r.why, old(client.mempool), old(client.relayed), old(client.outages), dep.feeRate,
                 ToBytes(cd, MintEnvelope(OwnMint(keys, rSeed))), [Carrier.TxOut(amount, dep.vault)])
    {
      hide ToBytes, Carrier.OpReturnPayload, Carrier.IsOpReturn, VaultValue, Carrier.Made, CoinsOf,
        Carrier.OpReturnScript, Carrier.Balanced;
      if amount == 0 {
        return Stuck(NotSent(ZeroAmount)), Carrier.Tx([], []), 0;
      }
      var e := MintEnvelope(OwnMint(keys, rSeed));
      Acceptance.LongPayload(cd, e);
      r, tx, paid := Fund(client, dep.feeRate, ToBytes(cd, e), [Carrier.TxOut(amount, dep.vault)]);
      if client.relayed != old(client.relayed) {
        FirstPays(dep.vault, amount, tx.outputs);
        if funding != Some(dep.vault) {
          ghost var us := CoinsOf(client.hs, client.View(), old(client.mempool), funding.value);
          Carrier.MadePays(Carrier.Order(vsize, [Carrier.TxOut(amount, dep.vault)],
            Carrier.OpReturnScript(ToBytes(cd, e)), dep.feeRate, funding.value), us, tx, paid);
          PaysOnce(us, dep.vault, amount, ToBytes(cd, e), funding.value, tx, paid);
        }
      }
    }

    /** o's carrier is made of the funding key's coins, at the rate. */
    ghost predicate PaidFor(hs: Hashing, c: Blocks, mempool: seq<Carrier.Tx>, rate: nat, cd: Codec, o: Outgoing)
      requires Started(c)
    {
      funding.Some? && Funded(hs, c, mempool, funding.value, vsize, rate,
                              [], ToBytes(cd, TransferEnvelope(o.t)), o.tx, o.paid)
    }

    method LockInputs(inputs: seq<nat>, txid: nat, anchor: nat)
      requires S.Indices(file.notes, inputs)
      modifies `file
      ensures file == old(file).(notes := Locked(old(file).notes, inputs, txid, anchor))
    {
      hide Locked;
      var notes := file.notes;
      LockNone(file.notes, txid, anchor);
      for i := 0 to |inputs|
        invariant file == old(file) && |notes| == |file.notes|
        invariant notes == Locked(file.notes, inputs[..i], txid, anchor)
      {
        var k := inputs[i];
        LockStep(file.notes, inputs, i, txid, anchor);
        notes := notes[k := notes[k].(lockedBy := Some(txid), lockAnchor := Some(anchor))];
      }
      assert inputs[..|inputs|] == inputs;
      file := file.(notes := notes);
    }

    /** Builds, proves and publishes a transfer, then locks its inputs. Of a
        transfer that reached the network the inputs are locked exactly when the
        server's reply arrived. */
    method Send(client: MockChain, state: State, prover: Prover, to: Address, amount: nat, payout: Option<Payout>,
                seeds: Seeds)
      returns (r: SendResult, ghost o: Outgoing)
      requires state.Valid() && client.Valid() && amount < U64
      requires funding.Some? ==> !Carrier.IsOpReturn(funding.value)
      modifies `file, `disk, `saves, client`outages, client`mempool, client`relayed, client`dropNextBroadcastReply
      ensures client.relayed == old(client.relayed) || client.relayed == old(client.relayed) + [o.tx]
      ensures client.relayed != old(client.relayed) ==>
        Sends(state.env, keys, state.View(), old(file).notes, to, amount, payout, seeds, prover, o)
      ensures client.relayed != old(client.relayed) ==>
        PaidFor(client.hs, client.View(), old(client.mempool), state.dep.feeRate, state.env.cd, o)
      ensures r.Published? ==> r.paid == o.paid
      ensures client.relayed != old(client.relayed) ==>
        (r.Published? || r.PublishedNotSaved? <==> !old(client.dropNextBroadcastReply))
      ensures r.Published? || r.PublishedNotSaved? ==>
        client.relayed != old(client.relayed) && r.t == o.t && r.txid == client.hs.txid(o.tx)
        && file == old(file).(notes := Locked(old(file).notes, o.inputs, r.txid, o.t.hAnchor))
      ensures !r.Published? && !r.PublishedNotSaved? ==> file == old(file) && disk == old(disk)
      ensures client.relayed != old(client.relayed) ==>
        disk == if Lands(old(saves)) && !old(client.dropNextBroadcastReply) then file else old(disk)
      ensures r.Published? ==> disk == file
      ensures old(Once()) ==> Once()
      ensures r.NotSent? ==>
        Unbuilt(state.env, keys, state.View(), old(file).notes, prover, to, amount, seeds, r.error)
      ensures !r.NotSent? && !r.Published? && !r.PublishedNotSaved? ==>
        StuckFor(client, r, old(client.mempool), old(client.relayed), old(client.outages), state.dep.feeRate,
                 ToBytes(state.env.cd, TransferEnvelope(o.t)), [])
    {
      hide Tables, LevelOk, Ready, Explained, ToBytes, Carrier.OpReturnPayload, OneEach, Says, Sends, SelectedOn,
        Carrier.IsOpReturn, Locked, Carries, StatementDigest, Funded, Unbuilt, Recoverable, StuckFor, MockChain.Valid;
      o := Outgoing(NO_TRANSFER, [], NativeWitness(0, 0, [], []), Carrier.Tx([], []), 0);
      var built, wit := BuildTransfer(keys, file.notes, state, prover, to, amount, payout, seeds);
      if built.NotBuilt? {
        return NotSent(built.error), o;
      }
      var out, tx, paid := Publish(client, state.env.cd, state.dep.feeRate, built.t);
      o := Outgoing(built.t, built.inputs, wit, tx, paid);
      Selected(file.notes, state.View(), amount, built.inputs);
      if Carries(state.env.cd, o.t, o.tx) {
        MakesSend(state.env, keys, state.View(), file.notes, to, amount, payout, seeds, prover, o);
      }
      if out.Stuck? {
        return out.why, o;
      }
      LockInputs(built.inputs, out.txid, built.t.hAnchor);
      var saved := Save();
      if saved == Saved {
        r := SendResult.Published(out.txid, built.t, out.paid);
      } else {
        r := PublishedNotSaved(out.txid, built.t, saved);
      }
    }

    /** With the reply to be lost, whatever a send relays leaves every input as it
        was, free to be selected again. */
    method SendUnanswered(client: MockChain, state: State, prover: Prover, to: Address, amount: nat,
                          payout: Option<Payout>, seeds: Seeds) returns (ghost o: Outgoing)
      requires state.Valid() && client.Valid() && amount < U64 && client.dropNextBroadcastReply
      requires funding.Some? ==> !Carrier.IsOpReturn(funding.value)
      modifies `file, `disk, `saves, client`outages, client`mempool, client`relayed, client`dropNextBroadcastReply
      ensures file == old(file) && disk == old(disk)
      ensures client.relayed != old(client.relayed) ==>
        client.relayed == old(client.relayed) + [o.tx] && Carries(state.env.cd, o.t, o.tx)
        && Picked(file.notes, o.inputs, state.View())
    {
      hide Sends, Carries, Picked, Tables, LevelOk;
      var r;
      r, o := Send(client, state, prover, to, amount, payout, seeds);
      if client.relayed != old(client.relayed) {
        SendsParts(state.env, keys, state.View(), old(file).notes, to, amount, payout, seeds, prover, o);
      }
    }

    /** With a save that will not land, the process that starts next finds every
        input free, answered or not. */
    method SendUnsaved(client: MockChain, state: State, prover: Prover, to: Address, amount: nat,
                       payout: Option<Payout>, seeds: Seeds) returns (ghost o: Outgoing)
      requires state.Valid() && client.Valid() && amount < U64 && !Lands(saves) && file == disk
      requires funding.Some? ==> !Carrier.IsOpReturn(funding.value)
      modifies `file, `disk, `saves, client`outages, client`mempool, client`relayed, client`dropNextBroadcastReply
      ensures file == old(file) && disk == old(disk)
      ensures client.relayed != old(client.relayed) ==>
        client.relayed == old(client.relayed) + [o.tx] && Carries(state.env.cd, o.t, o.tx)
        && Picked(file.notes, o.inputs, state.View())
    {
      hide Sends, Carries, Picked, Tables, LevelOk, OneEach, Lands;
      var r;
      r, o := Send(client, state, prover, to, amount, payout, seeds);
      if client.relayed != old(client.relayed) {
        SendsParts(state.env, keys, state.View(), old(file).notes, to, amount, payout, seeds, prover, o);
      }
      Reopen();
    }

    // ---------------------------------------------------------------- payouts

    method Fail(key: string, why: Denial) returns (s: SaveResult)
      requires Once()
      modifies `file, `disk, `saves
      ensures Once() && file == old(file).(failedPayouts := old(file).failedPayouts[key := why])
      ensures old(saves) == [] ==> s == Saved && saves == []
    {
      hide OneEach;
      file := file.(failedPayouts := file.failedPayouts[key := why]);
      s := Save();
    }

    /** Notes a request as paid; nothing reaches the network. */
    method MarkPaid(key: string, ids: seq<nat>) returns (s: SaveResult)
      requires Once()
      modifies `file, `disk, `saves
      ensures Once() && (s == Saved ==> disk == file)
      ensures old(saves) == [] ==> s == Saved && saves == []
      ensures file == old(file).(paidPayouts := old(file).paidPayouts + [key],
                                    payoutTxids := old(file).payoutTxids + ids)
      ensures ids == [] ==> file == old(file).(paidPayouts := old(file).paidPayouts + [key])
    {
      hide OneEach;
      OneMoreKey(hex, attempts, file.paidPayouts, key);
      file := file.(paidPayouts := file.paidPayouts + [key], payoutTxids := file.payoutTxids + ids);
      s := Save();
    }

    /** Marks the request as paid, saves, and only then broadcasts; a mark once
        saved is never taken back. */
    method HandOver(client: MockChain, nf: nat, tx: Carrier.Tx, ghost a: Attempt) returns (s: SaveResult, replied: bool)
      requires client.Valid() && Once() && hex(FrBytes(nf)) !in file.paidPayouts && a.nf == nf && a.tx == tx
      modifies `file, `disk, `saves, `attempts, client`outages, client`mempool, client`relayed,
        client`dropNextBroadcastReply
      ensures client.Valid() && Once()
      ensures file == old(file).(paidPayouts := old(file).paidPayouts + [hex(FrBytes(nf))],
                                    payoutTxids := old(file).payoutTxids + [client.hs.txid(tx)])
      ensures s == Saved ==> disk == file
      ensures s == Saved ==>
        attempts == old(attempts) + [Tried(a, client.relayed != old(client.relayed), replied)]
      ensures s != Saved ==> attempts == old(attempts) && !replied
      ensures client.relayed == old(client.relayed) + Reached(attempts[|old(attempts)|..])
      ensures old(client.mempool) <= client.mempool
      ensures old(saves) == [] ==> s == Saved && saves == []
      ensures old(client.outages) == [] ==> client.outages == []
      ensures replied <==> client.relayed != old(client.relayed) && !old(client.dropNextBroadcastReply)
    {
      hide OneEach, FrBytes, Reached, Committing, HashAt;
      ReachedNone();
      replied := false;
      var key := hex(FrBytes(nf));
      ghost var paid := file.paidPayouts;
      s := MarkPaid(key, [client.hs.txid(tx)]);
      if s != Saved {
        return s, false;
      }
      var reply := client.Broadcast(tx);
      replied := reply.Got?;
      ghost var made := Tried(a, client.relayed != old(client.relayed), replied);
      OneMore(hex, attempts, paid, made);
      attempts := attempts + [made];
      ReachedOne(old(attempts), made);
    }

    /** Every query will be answered and every save will land. */
    ghost predicate Quiet(client: MockChain)
      reads `saves, client`outages
    {
      saves == [] && client.outages == []
    }

    /** The request of t, in transaction txid, is valid, and neither the file nor
        the vault's history has it. */
    ghost predicate Due(env: Env, f: WalletFile, txid: nat, t: Transfer, onChain: set<seq<byte>>) {
      ValidRequest(env, keys, t) && !Noted(f, hex(FrBytes(t.nf[0])), txid) && FrBytes(t.nf[0]) !in onChain
    }

    lemma DueIff(env: Env, txid: nat, t: Transfer, onChain: set<seq<byte>>)
      requires Arity(t) && t.payout.Some?
      ensures var n := DecryptAsRecipient(env.s, t.ct[0], t.pkEph[0], ViewOf(env.s, keys.sk));
        Due(env, file, txid, t, onChain) <==>
        n.Some? && ValidatePayout(t.payout.value, n.value.v).None? && FrBytes(t.nf[0]) !in onChain
        && !Noted(file, hex(FrBytes(t.nf[0])), txid)
    {
      hide DecryptAsRecipient, FrBytes, StandardScript;
    }

    /** The file has the request of txid t for a nullifier written key down as paid
        or refused. */
    predicate Noted(f: WalletFile, key: string, txid: nat) {
      key in f.paidPayouts || idText(txid) in f.paidPayouts || key in f.failedPayouts
    }

    /** Hands one payout over, and reports it when it was answered. */
    method Pay(client: MockChain, nf: nat, request: nat, tx: Carrier.Tx, paid: nat, ghost a: Attempt)
      returns (s: SaveResult, done: Option<Payment>)
      requires client.Valid() && Once() && hex(FrBytes(nf)) !in file.paidPayouts && |tx.outputs| > 0
      requires a.nf == nf && a.tx == tx && a.request == request && a.paid == paid
      modifies `file, `disk, `saves, `attempts, client`outages, client`mempool, client`relayed,
        client`dropNextBroadcastReply
      ensures client.Valid() && Once()
      ensures file.notes == old(file).notes && file.sent == old(file).sent
      ensures file.paidPayouts == old(file).paidPayouts + [hex(FrBytes(nf))]
        && file.failedPayouts == old(file).failedPayouts
      ensures s == Saved ==>
        attempts == old(attempts) + [Tried(a, client.relayed != old(client.relayed), done.Some?)]
      ensures s != Saved ==> attempts == old(attempts) && done.None?
      ensures client.relayed == old(client.relayed) + Reached(attempts[|old(attempts)|..])
      ensures s == Saved ==>
        (if done.Some? then [done.value] else []) == PaymentsOf(client.hs, attempts[|old(attempts)|..])
      ensures done.Some? <==>
        s == Saved && client.relayed != old(client.relayed) && !old(client.dropNextBroadcastReply)
      ensures old(client.mempool) <= client.mempool && NotesOnly(old(file), file, hex(FrBytes(nf)))
      ensures old(Quiet(client)) ==> Quiet(client) && s == Saved
    {
      hide OneEach, FrBytes, Reached, Committing, HashAt, MockChain.Valid;
      var replied;
      s, replied := HandOver(client, nf, tx, a);
      done := if replied then Some(Payment(request, tx.outputs[0].value, paid, client.hs.txid(tx))) else None;
      if s == Saved {
        OnePayment(client.hs, old(attempts), attempts[|old(attempts)|]);
      }
    }

    /** What one request does to the file and the attempts: only its key is noted,
        at most one attempt is made, for it, at its price, if it was due; and if
        nothing is disturbed one is made exactly when the vault's coins can pay. */
    ghost predicate Handles(hs: Hashing, c: Blocks, pool: seq<Carrier.Tx>, vaultScript: seq<byte>, rate: nat,
                            onChain: set<seq<byte>>, env: Env, txid: nat, t: Transfer, f: WalletFile, g: WalletFile,
                            before: seq<Attempt>, after: seq<Attempt>, quiet: bool)
      requires Started(c)
    {
      && Arity(t) && t.payout.Some? && NotesOnly(f, g, hex(FrBytes(t.nf[0])))
      && before <= after && |after| <= |before| + 1
      && (|after| > |before| ==>
          after[|before|].nf == t.nf[0] && Due(env, f, txid, t, onChain)
          && Priced(hs, c, pool, vaultScript, vsize, rate, txid, t, after[|before|]))
      && (quiet && Due(env, f, txid, t, onChain) ==>
          (|after| > |before|
           <==> Payable(hs, c, pool, vaultScript, vsize, rate, t.payout.value, FrBytes(t.nf[0]))))
    }

    /** What one request does to the file: nothing if it is noted already or not
        addressed here, a mark if the vault's history shows it paid, the reason if
        it is invalid; and a mark if it is attempted. */
    ghost predicate Files(env: Env, f: WalletFile, g: WalletFile, txid: nat, t: Transfer, onChain: set<seq<byte>>,
                          tried: bool)
    {
      && Arity(t) && t.payout.Some?
      && var key := hex(FrBytes(t.nf[0]));
         var n := DecryptAsRecipient(env.s, t.ct[0], t.pkEph[0], ViewOf(env.s, keys.sk));
         if Noted(f, key, txid) || n.None? then g == f
         else if FrBytes(t.nf[0]) in onChain then g == f.(paidPayouts := f.paidPayouts + [key])
         else match ValidatePayout(t.payout.value, n.value.v)
           case Some(why) => g == f.(failedPayouts := f.failedPayouts[key := why])
           case None => tried ==> g.paidPayouts == f.paidPayouts + [key] && g.failedPayouts == f.failedPayouts
    }

    lemma FilesParts(env: Env, f: WalletFile, txid: nat, t: Transfer, onChain: set<seq<byte>>)
      requires Arity(t) && t.payout.Some?
      ensures var key := hex(FrBytes(t.nf[0]));
        var n := DecryptAsRecipient(env.s, t.ct[0], t.pkEph[0], ViewOf(env.s, keys.sk));
        && (Noted(f, key, txid) || n.None? ==> Files(env, f, f, txid, t, onChain, false))
        && (!Noted(f, key, txid) && n.Some? ==>
            && (FrBytes(t.nf[0]) in onChain ==>
                Files(env, f, f.(paidPayouts := f.paidPayouts + [key]), txid, t, onChain, false))
            && (FrBytes(t.nf[0]) !in onChain ==>
                var denied := ValidatePayout(t.payout.value, n.value.v);
                denied.Some? ==>
                Files(env, f, f.(failedPayouts := f.failedPayouts[key := denied.value]), txid, t, onChain, false)))
    {
      hide DecryptAsRecipient, FrBytes, StandardScript, Noted;
    }

    lemma FilesDue(env: Env, f: WalletFile, g: WalletFile, txid: nat, t: Transfer, onChain: set<seq<byte>>, tried: bool)
      requires Arity(t) && t.payout.Some? && Due(env, f, txid, t, onChain)
      requires tried ==>
        g.paidPayouts == f.paidPayouts + [hex(FrBytes(t.nf[0]))] && g.failedPayouts == f.failedPayouts
      ensures Files(env, f, g, txid, t, onChain, tried)
    {
      hide DecryptAsRecipient, FrBytes, StandardScript, Noted;
    }

    /** One request: paid, marked as paid, refused, or left for later. With every
        query answered and every save landing it is left only if the vault's coins
        cannot pay it. */
    method PayOne(client: MockChain, state: State, e: Event, t: Transfer, onChain: set<seq<byte>>,
                  vaultScript: seq<byte>)
      returns (s: SaveResult, done: Option<Payment>)
      requires client.Valid() && Once() && !Carrier.IsOpReturn(vaultScript)
      requires e in state.events && e.TransferEvent? && t.payout.Some? && Arity(t)
      requires Parse(state.env.cd, e.bytes) == Accepted(TransferEnvelope(t))
      modifies `file, `disk, `saves, `attempts, client`outages, client`mempool, client`relayed,
        client`dropNextBroadcastReply
      ensures client.Valid() && Once()
      ensures file.notes == old(file).notes && file.sent == old(file).sent
      ensures old(attempts) <= attempts && |attempts| <= |old(attempts)| + 1
      ensures client.relayed == old(client.relayed) + Reached(attempts[|old(attempts)|..])
      ensures |attempts| > |old(attempts)| ==> Owed(state.env, keys, state.events, attempts[|old(attempts)|], onChain)
      ensures |attempts| > |old(attempts)| ==>
        SpendsFrom(client.hs, client.View(), old(client.mempool), attempts[|old(attempts)|].tx, vaultScript)
      ensures s == Saved ==>
        (if done.Some? then [done.value] else []) == PaymentsOf(client.hs, attempts[|old(attempts)|..])
      ensures old(client.mempool) <= client.mempool
      ensures old(Quiet(client)) ==> Quiet(client) && s == Saved
      ensures Handles(client.hs, client.View(), old(client.mempool), vaultScript, state.dep.feeRate, onChain, state.env,
                      e.txid, t, old(file), file, old(attempts), attempts, old(Quiet(client)))
      ensures Files(state.env, old(file), file, e.txid, t, onChain, |attempts| > |old(attempts)|)
    {
      hide Parse, AllOf, DecryptAsRecipient, PaysRequest, SpendsFrom, Tables, LevelOk, StandardScript, FrBytes, OneEach,
        Requests, HashAt, Reached, Committing, Carrier.IsOpReturn, Owed, Claimed, ViewOf, MockChain.Valid, Payable,
        PricedOut, PayoutMade, Priced, Tried, Due, Files;
      FilesParts(state.env, file, e.txid, t, onChain);
      ReachedNone();
      ChainStarted(client);
      NoPayments(client.hs, attempts);
      var p := t.payout.value;
      var nf := FrBytes(t.nf[0]);
      var key := hex(nf);
      DueIff(state.env, e.txid, t, onChain);
      if key in file.paidPayouts || idText(e.txid) in file.paidPayouts || key in file.failedPayouts {
        return Saved, None;
      }
      var n := DecryptAsRecipient(state.env.s, t.ct[0], t.pkEph[0], ViewOf(state.env.s, keys.sk));
      if n.None? {
        return Saved, None;
      }
      if nf in onChain {
        s := MarkPaid(key, []);
        return s, None;
      }
      var denied := ValidatePayout(p, n.value.v);
      if denied.Some? {
        s := Fail(key, denied.value);
        return s, None;
      }
      FrLength(t.nf[0]);
      var plan, fee := BuildPayout(client, vsize, vaultScript, p, nf, state.dep.feeRate);
      ghost var was := file;
      if plan.Deferred? {
        FilesDue(state.env, was, file, e.txid, t, onChain, false);
        return Saved, None;
      }
      if plan.Denied? {
        s := Fail(key, plan.why);
        FilesDue(state.env, was, file, e.txid, t, onChain, false);
        return s, None;
      }
      IsOwed(state.env, keys, e, t, n.value, plan.tx, fee);
      PaidAtMost(p, plan.tx, nf, fee);
      ghost var a := Attempt(t.nf[0], plan.tx, e.txid, fee, plan.paid, false, false);
      IsPriced(client.hs, client.View(), old(client.mempool), vaultScript, vsize, state.dep.feeRate, e.txid, t, a);
      IsAttempt(state.env, keys, state.events, e, a, onChain);
      TriedIs(a);
      s, done := Pay(client, t.nf[0], e.txid, plan.tx, plan.paid, a);
      FilesDue(state.env, was, file, e.txid, t, onChain, |attempts| > |old(attempts)|);
    }

    /** One request of a round. */
    method PayEvent(client: MockChain, state: State, i: nat, t: Transfer, onChain: set<seq<byte>>,
                    vaultScript: seq<byte>, ghost run: Round, ghost from: Beginning, ghost quiet: bool)
      returns (s: SaveResult, done: Option<Payment>)
      requires client.Valid() && Once() && !Carrier.IsOpReturn(vaultScript) && Started(run.c)
      requires i < |state.events| && Named(run.env, state.events[i], run.only)
      requires t == TransferIn(run.env, state.events[i]) && run.env == state.env && run.events == state.events
      requires run.rate == state.dep.feeRate && run.hs == client.hs
      requires run.c == client.View() && run.vault == vaultScript && run.onChain == onChain
      requires (quiet ==> Quiet(client)) && Stands(run, from, file, client.mempool, client.relayed, attempts, i, quiet)
      modifies `file, `disk, `saves, `attempts, client`outages, client`mempool, client`relayed,
        client`dropNextBroadcastReply
      ensures client.Valid() && Once() && (quiet ==> Quiet(client) && s == Saved)
      ensures s == Saved ==>
        PaymentsSince(run.hs, from, attempts)
        == PaymentsSince(run.hs, from, old(attempts)) + if done.Some? then [done.value] else []
      ensures Stands(run, from, file, client.mempool, client.relayed, attempts, i + 1, quiet)
    {
      hide Parse, FrBytes, OneEach, Reached, Committing, HashAt, Carrier.IsOpReturn, MockChain.Valid, Named, TransferIn,
        Handles, RoundAt, Owed, PaymentsOf, PaymentsSince, SpendsFrom, Quiet;
      var e := state.events[i];
      ghost var before, pool, noted, calm := attempts, client.mempool, file, Quiet(client);
      ghost var sent := client.relayed;
      NamedParts(run.env, e, run.only, t);
      s, done := PayOne(client, state, e, t, onChain, vaultScript);
      PaidStep(run, from.file, noted, file, pool, client.mempool, from.attempts, before, attempts, i, quiet, calm);
      StandsOn(run, from, noted, file, pool, client.mempool, sent, client.relayed, before, attempts, i, quiet);
      MoreSince(run.hs, from, before, attempts);
    }

    /** Every query will be answered and every save will land, the vault's key is
        there, every known transaction's inputs are known, and the log is well
        kept. */
    ghost predicate Undisturbed(client: MockChain, state: State, only: Option<nat>)
      reads `saves, client`outages, client`blocks, client`mempool, client, state
    {
      && Quiet(client) && vault.Some? && (only.Some? || !state.dep.mainnet) && client.base >= 1
      && Rooted(client.hs, client.View(), client.mempool) && EventLog.LogOk(state.env, state.events)
    }

    lemma CalmIs(client: MockChain, state: State, only: Option<nat>)
      ensures Quiet(client) ==> client.outages == []
      ensures Undisturbed(client, state, only) ==>
        Quiet(client) && vault.Some? && (only.Some? || !state.dep.mainnet) && Started(client.View())
        && Rooted(client.hs, client.View(), client.mempool) && EventLog.LogOk(state.env, state.events)
    {
      hide Rooted, EventLog.LogOk;
    }

    /** No two requests of the log are noted under one key. */
    ghost predicate OwnKeys(env: Env, events: seq<Event>) {
      forall i, k ::
        0 <= i < |events| && 0 <= k < |events| && i != k
        && Named(env, events[i], None) && Named(env, events[k], None) ==>
        KeyOf(env, events[i]) != KeyOf(env, events[k]) && KeyOf(env, events[i]) != idText(events[k].txid)
    }

    function KeyOf(env: Env, e: Event): string {
      var t := TransferIn(env, e);
      if Arity(t) then hex(FrBytes(t.nf[0])) else []
    }

    /** If event i holds a request that is due, and the vault could pay it all
        along, then one of the attempts is for it. */
    ghost predicate Answers(run: Round, f: WalletFile, last: seq<Carrier.Tx>, made: seq<Attempt>, i: nat)
      requires Started(run.c) && i < |run.events|
    {
      var e := run.events[i];
      var t := TransferIn(run.env, e);
      Named(run.env, e, run.only) && Due(run.env, f, e.txid, t, run.onChain)
      && PayableUpTo(run, vsize, last, t.payout.value, FrBytes(t.nf[0])) ==>
      Attempted(made, t.nf[0])
    }

    ghost predicate AnswersBelow(run: Round, f: WalletFile, last: seq<Carrier.Tx>, made: seq<Attempt>, n: nat)
      requires Started(run.c) && n <= |run.events|
    {
      forall i :: 0 <= i < n ==> Answers(run, f, last, made, i)
    }

    /** The requests from event n on are noted in f as they were in f0. */
    ghost predicate Untouched(run: Round, f0: WalletFile, f: WalletFile, n: nat) {
      forall i :: n <= i < |run.events| && Named(run.env, run.events[i], None) ==>
        SameNote(run.env, run.events[i], f0, f)
    }

    ghost predicate SameNote(env: Env, e: Event, f0: WalletFile, f: WalletFile) {
      Noted(f, KeyOf(env, e), e.txid) <==> Noted(f0, KeyOf(env, e), e.txid)
    }

    lemma StillUntouched(run: Round, f0: WalletFile, f: WalletFile, g: WalletFile, n: nat)
      requires n < |run.events| && OwnKeys(run.env, run.events) && Named(run.env, run.events[n], None)
      requires Untouched(run, f0, f, n) && NotesOnly(f, g, KeyOf(run.env, run.events[n]))
      ensures Untouched(run, f0, g, n + 1)
    {
      hide Named, KeyOf;
      forall i | n + 1 <= i < |run.events| && Named(run.env, run.events[i], None)
        ensures SameNote(run.env, run.events[i], f0, g)
      {
        assert SameNote(run.env, run.events[i], f0, f);
        assert KeyOf(run.env, run.events[i]) != KeyOf(run.env, run.events[n]);
        assert KeyOf(run.env, run.events[n]) != idText(run.events[i].txid);
      }
    }

    lemma NextUntouched(run: Round, f0: WalletFile, f: WalletFile, n: nat)
      requires n < |run.events| && Untouched(run, f0, f, n)
      ensures Untouched(run, f0, f, n + 1)
    {
      hide Named, SameNote;
    }

    lemma AnswersMore(run: Round, f: WalletFile, last: seq<Carrier.Tx>, made: seq<Attempt>, last': seq<Carrier.Tx>,
                      made': seq<Attempt>, n: nat)
      requires Started(run.c) && n <= |run.events| && last <= last' && made <= made'
      requires AnswersBelow(run, f, last, made, n)
      ensures AnswersBelow(run, f, last', made', n)
    {
      hide Named, Due, Payable, FrBytes;
      forall i | 0 <= i < n ensures Answers(run, f, last', made', i) {
        assert Answers(run, f, last, made, i);
      }
    }

    lemma AnswersNext(run: Round, f: WalletFile, last: seq<Carrier.Tx>, made: seq<Attempt>, n: nat)
      requires Started(run.c) && n < |run.events| && AnswersBelow(run, f, last, made, n)
        && Answers(run, f, last, made, n)
      ensures AnswersBelow(run, f, last, made, n + 1)
    {
      hide Answers;
    }

    /** The requests of the log, one after the other. */
    method PayAll(client: MockChain, state: State, only: Option<nat>, onChain: set<seq<byte>>, vaultScript: seq<byte>,
                  ghost run: Round, ghost from: Beginning, ghost quiet: bool)
      returns (r: PayoutRun, ghost n: nat)
      requires client.Valid() && Once() && !Carrier.IsOpReturn(vaultScript) && Started(run.c)
      requires run == Round(state.env, state.events, state.dep.feeRate, client.hs, client.View(), vaultScript,
                            client.mempool, onChain, only)
      requires (quiet ==> Quiet(client)) && from.attempts == attempts
      requires Stands(run, from, file, client.mempool, client.relayed, attempts, 0, quiet)
      modifies `file, `disk, `saves, `attempts, client`outages, client`mempool, client`relayed,
        client`dropNextBroadcastReply
      ensures client.Valid() && Once() && n <= |run.events|
      ensures Stands(run, from, file, client.mempool, client.relayed, attempts, n, quiet)
      ensures r.Done? ==> n == |run.events| && r.payments == PaymentsSince(run.hs, from, attempts)
      ensures r.NoSuchRequest? ==> only == Some(r.txid) && forall e :: e in run.events ==> !Named(run.env, e, only)
      ensures r.Done? || r.NoSuchRequest? || r.BadEvent? || r.Interrupted?
      ensures quiet && EventLog.LogOk(run.env, run.events) ==> r.Done? || r.NoSuchRequest?
    {
      hide Parse, FrBytes, OneEach, Committing, HashAt, Carrier.IsOpReturn, MockChain.Valid, Named, TransferIn,
        EventLog.LogOk, PaymentsOf, PaymentsSince, Stands, Quiet, Tables, LevelOk;
      var payments: seq<Payment> := [];
      var seen := false;
      ghost var events := state.events;
      NonePaid(client.hs, from);
      for i := 0 to |state.events|
        modifies `file, `disk, `saves, `attempts, client`outages, client`mempool, client`relayed,
          client`dropNextBroadcastReply
        invariant client.Valid() && Once() && state.events == events && (quiet ==> Quiet(client))
        invariant Stands(run, from, file, client.mempool, client.relayed, attempts, i, quiet)
        invariant payments == PaymentsSince(client.hs, from, attempts)
        invariant !seen ==> forall k :: 0 <= k < i ==> !Named(state.env, events[k], only)
      {
        var e := state.events[i];
        NotNamed(state.env, e, only);
        if !e.TransferEvent? || (only.Some? && only.value != e.txid) {
          SkipStands(run, from, file, client.mempool, client.relayed, attempts, i, quiet);
          continue;
        }
        var parsed := ParseBytes(state.env.cd, e.bytes);
        if !parsed.Accepted? || !parsed.e.TransferEnvelope? {
          NoBadEvent(state.env, events, i);
          return BadEvent(e.txid), i;
        }
        if parsed.e.t.payout.None? {
          SkipStands(run, from, file, client.mempool, client.relayed, attempts, i, quiet);
          continue;
        }
        seen := true;
        IsNamed(state.env, e, only, parsed.e.t);
        var s, done := PayEvent(client, state, i, parsed.e.t, onChain, vaultScript, run, from, quiet);
        if s != Saved {
          return Interrupted(s), i + 1;
        }
        if done.Some? {
          payments := payments + [done.value];
        }
      }
      if only.Some? && !seen {
        return NoSuchRequest(only.value), |events|;
      }
      return Done(payments), |events|;
    }

    /** Pays every accepted request addressed to this wallet and not paid yet, or
        only the one named. */
    method ProcessPayouts(client: MockChain, state: State, only: Option<nat>)
      returns (r: PayoutRun, ghost onChain: set<seq<byte>>)
      requires client.Valid() && Once()
      requires vault.Some? ==> !Carrier.IsOpReturn(vault.value)
      modifies `file, `disk, `saves, `attempts, client`outages, client`mempool, client`relayed,
        client`dropNextBroadcastReply
      ensures client.Valid() && Once() && old(attempts) <= attempts
      ensures file.notes == old(file).notes && file.sent == old(file).sent
      ensures client.relayed == old(client.relayed) + Reached(attempts[|old(attempts)|..])
      ensures |attempts| > |old(attempts)| ==> vault.Some? && forall b ::
        b in onChain <==>
        PaidUnder(client.hs, client.View(), old(client.mempool), vault.value, old(file).payoutTxids, b)
      ensures forall i :: |old(attempts)| <= i < |attempts| ==>
        Owed(state.env, keys, state.events, attempts[i], onChain)
      ensures vault.Some? ==>
        var run := Round(state.env, state.events, state.dep.feeRate, client.hs, client.View(), vault.value,
                         old(client.mempool), onChain, only);
        AllPriced(run, vsize, client.mempool, attempts[|old(attempts)|..])
      ensures r.Done? ==> r.payments == PaymentsOf(client.hs, attempts[|old(attempts)|..])
      ensures only.None? && state.dep.mainnet ==> r == Unsupervised && attempts == old(attempts)
      ensures r.NoSuchRequest? ==> only == Some(r.txid) && forall e :: e in state.events ==> !Named(state.env, e, only)
      ensures old(Undisturbed(client, state, only)) ==> r.Done? || r.NoSuchRequest?
      ensures old(Quiet(client)) && r.Done? && vault.Some? && OwnKeys(state.env, state.events) ==>
        var run := Round(state.env, state.events, state.dep.feeRate, client.hs, client.View(), vault.value,
                         old(client.mempool), onChain, only);
        AnswersBelow(run, old(file), client.mempool, attempts[|old(attempts)|..], |state.events|)
    {
      hide Parse, AllOf, Tables, LevelOk, PaidUnder, Owed, FrBytes, OneEach, Reached, Committing, SpendsFrom, HashAt,
        Carrier.IsOpReturn, MockChain.Valid, Named, TransferIn, Priced, AllPriced, Due, Payable, Untouched,
        AnswersBelow, OwnKeys, NotesOnly, Rooted, EventLog.LogOk, PaymentsOf, RoundAt, Handles,
        Quiet, Undisturbed;
      onChain := {};
      ghost var quiet, calm := Quiet(client), Undisturbed(client, state, only);
      CalmIs(client, state, only);
      ReachedNone();
      NoPayments(client.hs, attempts);
      NonePriced(vsize, client.mempool, attempts);
      ChainStarted(client);
      if only.None? && state.dep.mainnet {
        return Unsupervised, onChain;
      }
      if vault.None? {
        return NoVaultKey, onChain;
      }
      var paid := PaidPayloads(client, vault.value, file.payoutTxids);
      if paid.None? {
        return ChainTrouble, onChain;
      }
      onChain := paid.value;
      ghost var run := Round(state.env, state.events, state.dep.feeRate, client.hs, client.View(), vault.value,
                             client.mempool, onChain, only);
      ghost var from := Beginning(file, attempts, client.relayed);
      FirstRound(run, file, client.mempool, attempts, quiet);
      FirstStands(run, from, quiet);
      ghost var n;
      r, n := PayAll(client, state, only, paid.value, vault.value, run, from, quiet);
      RoundEnds(run, from, file, client.mempool, client.relayed, attempts, n, quiet);
    }

    /** Where a round stands before event i. */
    ghost predicate RoundAt(run: Round, f0: WalletFile, f: WalletFile, last: seq<Carrier.Tx>, made: seq<Attempt>,
                            i: nat, quiet: bool)
      requires Started(run.c) && i <= |run.events|
    {
      && AllPriced(run, vsize, last, made)
      && (OwnKeys(run.env, run.events) ==> Untouched(run, f0, f, i))
      && (quiet && OwnKeys(run.env, run.events) ==> AnswersBelow(run, f0, last, made, i))
    }

    lemma FirstRound(run: Round, f: WalletFile, last: seq<Carrier.Tx>, attempts: seq<Attempt>, quiet: bool)
      requires Started(run.c)
      ensures RoundAt(run, f, f, last, attempts[|attempts|..], 0, quiet)
    {
      hide Named, Noted;
    }

    lemma SkipStep(run: Round, f0: WalletFile, f: WalletFile, last: seq<Carrier.Tx>, made: seq<Attempt>, i: nat,
                   quiet: bool)
      requires Started(run.c) && i < |run.events| && !Named(run.env, run.events[i], run.only)
      requires RoundAt(run, f0, f, last, made, i, quiet)
      ensures RoundAt(run, f0, f, last, made, i + 1, quiet)
    {
      hide Named, SameNote, Due, PayableUpTo, FrBytes, OwnKeys, AllPriced, Untouched, AnswersBelow;
      if OwnKeys(run.env, run.events) {
        NextUntouched(run, f0, f, i);
        if quiet {
          AnswersNext(run, f0, last, made, i);
        }
      }
    }

    /** What event i's request does. */
    ghost predicate OnePaid(run: Round, f: WalletFile, g: WalletFile, pool: seq<Carrier.Tx>, before: seq<Attempt>,
                            after: seq<Attempt>, i: nat, quiet: bool)
      requires Started(run.c) && i < |run.events|
    {
      var e := run.events[i];
      Handles(run.hs, run.c, pool, run.vault, run.rate, run.onChain, run.env, e.txid, TransferIn(run.env, e), f, g,
              before, after, quiet)
    }

    lemma PaidStep(run: Round, f0: WalletFile, f: WalletFile, g: WalletFile, pool: seq<Carrier.Tx>,
                   last: seq<Carrier.Tx>, start: seq<Attempt>, before: seq<Attempt>, after: seq<Attempt>, i: nat,
                   quiet: bool, calm: bool)
      requires Started(run.c) && i < |run.events| && Named(run.env, run.events[i], run.only) && (quiet ==> calm)
      requires run.first <= pool <= last && start <= before && OnePaid(run, f, g, pool, before, after, i, calm)
      requires RoundAt(run, f0, f, pool, before[|start|..], i, quiet)
      ensures start <= after && RoundAt(run, f0, g, last, after[|start|..], i + 1, quiet)
    {
      hide Named, FrBytes, Payable, ValidRequest, NotesOnly, Untouched, AnswersBelow, TransferIn, Noted, AllPriced,
        Priced, Due, OwnKeys;
      NamedAny(run.env, run.events[i], run.only);
      StillPriced(run, vsize, pool, last, start, before, after, i);
      if OwnKeys(run.env, run.events) {
        KeyIs(run.env, run.events[i]);
        StillUntouched(run, f0, f, g, i);
        if quiet {
          assert after[|start|..] == before[|start|..] + after[|before|..];
          AnswersMore(run, f0, pool, before[|start|..], last, after[|start|..], i);
          AnswersHere(run, f0, f, pool, last, start, before, after, i);
          AnswersNext(run, f0, last, after[|start|..], i);
        }
      }
    }

    lemma KeyIs(env: Env, e: Event)
      requires Arity(TransferIn(env, e))
      ensures KeyOf(env, e) == hex(FrBytes(TransferIn(env, e).nf[0]))
    {
      hide TransferIn, FrBytes;
    }

    /** Where the wallet and the network stand before event i of a run: what was
        relayed and what was attempted since the beginning, and the round. */
    ghost predicate Stands(run: Round, from: Beginning, f: WalletFile, pool: seq<Carrier.Tx>, relayed: seq<Carrier.Tx>,
                           tries: seq<Attempt>, i: nat, quiet: bool)
      requires Started(run.c) && i <= |run.events|
    {
      && from.attempts <= tries && run.first <= pool
      && f.notes == from.file.notes && f.sent == from.file.sent
      && relayed == from.relayed + Reached(tries[|from.attempts|..])
      && (forall k :: |from.attempts| <= k < |tries| ==> Owed(run.env, keys, run.events, tries[k], run.onChain))
      && RoundAt(run, from.file, f, pool, tries[|from.attempts|..], i, quiet)
    }

    lemma FirstStands(run: Round, from: Beginning, quiet: bool)
      requires Started(run.c)
      requires RoundAt(run, from.file, from.file, run.first, from.attempts[|from.attempts|..], 0, quiet)
      ensures Stands(run, from, from.file, run.first, from.relayed, from.attempts, 0, quiet)
    {
      hide RoundAt, Owed, Reached;
      ReachedNone();
    }

    lemma SkipStands(run: Round, from: Beginning, f: WalletFile, pool: seq<Carrier.Tx>, relayed: seq<Carrier.Tx>,
                     tries: seq<Attempt>, i: nat, quiet: bool)
      requires Started(run.c) && i < |run.events| && !Named(run.env, run.events[i], run.only)
      requires Stands(run, from, f, pool, relayed, tries, i, quiet)
      ensures Stands(run, from, f, pool, relayed, tries, i + 1, quiet)
    {
      hide RoundAt, Owed, Reached, Named;
      SkipStep(run, from.file, f, pool, tries[|from.attempts|..], i, quiet);
    }

    lemma StandsOn(run: Round, from: Beginning, f: WalletFile, g: WalletFile, pool: seq<Carrier.Tx>,
                   last: seq<Carrier.Tx>, relayed: seq<Carrier.Tx>, now: seq<Carrier.Tx>, before: seq<Attempt>,
                   after: seq<Attempt>, i: nat, quiet: bool)
      requires Started(run.c) && i < |run.events| && from.attempts <= before <= after && |after| <= |before| + 1
      requires pool <= last && g.notes == f.notes && g.sent == f.sent
      requires Stands(run, from, f, pool, relayed, before, i, quiet)
      requires now == relayed + Reached(after[|before|..])
      requires |after| > |before| ==> Owed(run.env, keys, run.events, after[|before|], run.onChain)
      requires RoundAt(run, from.file, g, last, after[|from.attempts|..], i + 1, quiet)
      ensures Stands(run, from, g, last, now, after, i + 1, quiet)
    {
      hide RoundAt, Owed, Reached;
      MoreReached(from.attempts, before, after);
      StillOwed(run.env, keys, run.events, from.attempts, before, after, run.onChain);
    }

    /** What a finished round shows. */
    lemma RoundEnds(run: Round, from: Beginning, f: WalletFile, pool: seq<Carrier.Tx>, relayed: seq<Carrier.Tx>,
                    tries: seq<Attempt>, i: nat, quiet: bool)
      requires Started(run.c) && i <= |run.events| && Stands(run, from, f, pool, relayed, tries, i, quiet)
      ensures from.attempts <= tries && f.notes == from.file.notes && f.sent == from.file.sent
      ensures relayed == from.relayed + Reached(tries[|from.attempts|..])
      ensures forall k :: |from.attempts| <= k < |tries| ==> Owed(run.env, keys, run.events, tries[k], run.onChain)
      ensures AllPriced(run, vsize, pool, tries[|from.attempts|..])
      ensures quiet && OwnKeys(run.env, run.events) ==>
        AnswersBelow(run, from.file, pool, tries[|from.attempts|..], i)
    {
      hide AllPriced, OwnKeys, Untouched, AnswersBelow, Owed, Reached;
    }

    lemma AnswersHere(run: Round, f0: WalletFile, f: WalletFile, pool: seq<Carrier.Tx>, last: seq<Carrier.Tx>,
                      start: seq<Attempt>, before: seq<Attempt>, after: seq<Attempt>, i: nat)
      requires Started(run.c) && i < |run.events| && Named(run.env, run.events[i], None)
      requires run.first <= pool <= last && start <= before <= after && |after| <= |before| + 1
      requires var e := run.events[i];
        var t := TransferIn(run.env, e);
        && Arity(t) && (|after| > |before| ==> after[|before|].nf == t.nf[0])
        && (Due(run.env, f, e.txid, t, run.onChain)
            && Payable(run.hs, run.c, pool, run.vault, vsize, run.rate, t.payout.value, FrBytes(t.nf[0])) ==>
            |after| > |before|)
      requires Untouched(run, f0, f, i)
      ensures Answers(run, f0, last, after[|start|..], i)
    {
      hide FrBytes, Payable, ValidRequest, Noted;
      var e := run.events[i];
      var t := TransferIn(run.env, e);
      assert SameNote(run.env, e, f0, f);
      if |after| > |before| {
        assert after[|start|..][|before| - |start|] == after[|before|];
      }
    }
  }

  // ---------------------------------------------------------------- the loops' folds

  function Outputs(w: Who, acc: Acc, t: Transfer, txid: nat, positions: seq<nat>, j: nat): Acc
    requires Arity(t) && |positions| == N_OUT && j <= N_OUT
  {
    if j == 0 then acc else SeeOutput(w, Outputs(w, acc, t, txid, positions, j - 1), t, txid, positions[j - 1], j - 1)
  }

  lemma SeeFound(w: Who, acc: Acc, t: Transfer, txid: nat, pos: nat, j: nat)
    requires Arity(t) && j < N_OUT
    ensures var r := DecryptAsRecipient(w.env.s, t.ct[j], t.pkEph[j], ViewOf(w.env.s, w.keys.sk));
      SeeOutput(w, acc, t, txid, pos, j) ==
        if r.None? then acc else Record(w, acc, OutputNote(w, r.value, t, txid, pos, j))
  {
    hide DecryptAsRecipient, Record, OutputNote;
  }

  function Recovered(w: Who, acc: Acc, t: Transfer, txid: nat, records: seq<(Point, nat)>, j: nat): Acc
    requires Arity(t) && j <= N_OUT
  {
    if j == 0 then acc else SeeRecovered(w, Recovered(w, acc, t, txid, records, j - 1), t, txid, records, j - 1)
  }

  lemma RecoverStep(w: Who, acc: Acc, t: Transfer, txid: nat, records: seq<(Point, nat)>, j: nat)
    requires Arity(t) && j < N_OUT && j < |records|
    ensures var r := DecryptAsSender(w.env.s, t.ct[j], t.pkEph[j], records[j].0, records[j].1);
      SeeRecovered(w, acc, t, txid, records, j) ==
        if r.None? || Sent(acc.sent, txid, j) then acc
        else acc.(sent := acc.sent + [SentRecord(txid, r.value.v, w.keys.text(Address(r.value.d, records[j].0)), j)])
  {
    hide DecryptAsSender, Sent;
  }

  lemma RecoverRest(w: Who, acc: Acc, t: Transfer, txid: nat, records: seq<(Point, nat)>, i: nat)
    requires Arity(t) && i <= N_OUT && (i == N_OUT || i >= |records|)
    ensures Recovered(w, acc, t, txid, records, i)
         == SeeRecovered(w, SeeRecovered(w, acc, t, txid, records, 0), t, txid, records, 1)
  {
    hide DecryptAsSender, Sent;
    assert Recovered(w, acc, t, txid, records, 1)
      == SeeRecovered(w, Recovered(w, acc, t, txid, records, 0), t, txid, records, 0);
  }

  lemma EmptyFold(w: Who, leaves: seq<nat>, acc: Acc, events: seq<Event>)
    ensures SeeAll(w, acc, events[..0]) == acc && FirstTrouble(w, leaves, events[..0]) == None
  {
  }

  lemma FoldStep(w: Who, leaves: seq<nat>, acc: Acc, events: seq<Event>, i: nat)
    requires i < |events| && FirstTrouble(w, leaves, events[..i]) == None
    ensures SeeAll(w, acc, events[..i + 1]) == See(w, SeeAll(w, acc, events[..i]), events[i])
    ensures FirstTrouble(w, leaves, events[..i + 1])
         == if Trouble(w, leaves, events[i]).None? then None else Some((i, Trouble(w, leaves, events[i]).value))
  {
    hide See, Trouble;
    assert events[..i + 1][..i] == events[..i];
  }

  lemma {:induction false} TroubleStays(w: Who, leaves: seq<nat>, events: seq<Event>, i: nat)
    requires i < |events| && FirstTrouble(w, leaves, events[..i + 1]).Some?
    ensures FirstTrouble(w, leaves, events) == FirstTrouble(w, leaves, events[..i + 1])
    decreases |events|
  {
    hide Trouble;
    if i + 1 == |events| {
      assert events[..i + 1] == events;
    } else {
      var n := |events| - 1;
      assert events[..n][..i + 1] == events[..i + 1];
      TroubleStays(w, leaves, events[..n], i);
    }
  }

  lemma ScanBesideSelf(w: Who, acc: Acc, events: seq<Event>)
    ensures |SeeAll(w, acc, events).notes| >= |acc.notes|
  {
    hide SeeAll;
    BesideSelf(acc);
    ScanBeside(w, acc, acc, |acc.notes|, events);
  }

  lemma FinalFile(w: Who, f: WalletFile, l: Ledger, start: WalletFile, acc: Acc)
    requires start == Cleaned(w, f, l) && start.scannedEvents <= |l.events|
    requires acc == SeeAll(w, Acc(start.notes, start.sent, NfSet(w, start.notes)), l.events[start.scannedEvents..])
    ensures Finished(w, start, acc, l) == ScanFile(w, f, l)
  {
    hide SeeAll, KeptNotes, MarkedAll, NfSet, LastTxid, Finished;
    var pending := Pending(w, f, l);
    assert pending == l.events[start.scannedEvents..];
    assert pending[..|pending|] == pending;
    SameFinish(w, f, start, acc, l);
  }

  lemma SameFinish(w: Who, f: WalletFile, g: WalletFile, acc: Acc, l: Ledger)
    requires g == f.(notes := g.notes, sent := g.sent, scannedEvents := g.scannedEvents)
    ensures Finished(w, g, acc, l) == Finished(w, f, acc, l)
  {
  }

  function Spendable(notes: seq<OwnedNote>): nat {
    if notes == [] then 0
    else
      var n := |notes| - 1;
      Spendable(notes[..n]) + if !notes[n].spent && notes[n].lockedBy.None? then notes[n].v else 0
  }

  lemma {:induction false} SpendableMonotone(notes: seq<OwnedNote>, i: nat)
    requires i <= |notes|
    ensures Spendable(notes[..i]) <= Spendable(notes)
    decreases |notes|
  {
    if i == |notes| {
      assert notes[..i] == notes;
    } else {
      var n := |notes| - 1;
      assert notes[..n][..i] == notes[..i];
      SpendableMonotone(notes[..n], i);
    }
  }

  function Locked(notes: seq<OwnedNote>, inputs: seq<nat>, txid: nat, anchor: nat): (r: seq<OwnedNote>)
    ensures |r| == |notes|
    ensures forall i :: 0 <= i < |r| ==>
      r[i] == if i in inputs then notes[i].(lockedBy := Some(txid), lockAnchor := Some(anchor)) else notes[i]
  {
    seq(|notes|, i requires 0 <= i < |notes| =>
      if i in inputs then notes[i].(lockedBy := Some(txid), lockAnchor := Some(anchor)) else notes[i])
  }

  lemma LockNone(notes: seq<OwnedNote>, txid: nat, anchor: nat)
    ensures forall inputs: seq<nat> :: inputs == [] ==> Locked(notes, inputs, txid, anchor) == notes
  {
  }

  /** Distinct spendable notes. */
  predicate Picked(notes: seq<OwnedNote>, inputs: seq<nat>, l: Ledger) {
    S.Indices(notes, inputs) && forall i :: 0 <= i < |inputs| ==> S.Spendable(notes[inputs[i]], Depth(l))
  }

  lemma LockStep(notes: seq<OwnedNote>, inputs: seq<nat>, i: nat, txid: nat, anchor: nat)
    requires S.Indices(notes, inputs) && i < |inputs|
    ensures var some := Locked(notes, inputs[..i], txid, anchor);
      Locked(notes, inputs[..i + 1], txid, anchor)
        == some[inputs[i] := some[inputs[i]].(lockedBy := Some(txid), lockAnchor := Some(anchor))]
  {
    assert inputs[..i + 1] == inputs[..i] + [inputs[i]];
    assert inputs[i] !in inputs[..i];
  }

  lemma CountRelease(notes: seq<OwnedNote>, k: nat, n: OwnedNote, txid: nat)
    requires k < |notes| && notes[k].lockedBy != Some(txid) && n.lockedBy == Some(txid)
    ensures LockedCount(notes[k := n], txid) == LockedCount(notes, txid) + 1
    decreases |notes|
  {
    var last := |notes| - 1;
    if k < last {
      assert notes[k := n][..last] == notes[..last][k := n];
      CountRelease(notes[..last], k, n, txid);
    } else {
      assert notes[k := n][..last] == notes[..last];
    }
  }

  lemma {:induction false} CountNone(notes: seq<OwnedNote>, txid: nat)
    requires forall n :: n in notes ==> n.lockedBy != Some(txid)
    ensures LockedCount(notes, txid) == 0
    decreases |notes|
  {
    if notes != [] {
      CountNone(notes[..|notes| - 1], txid);
    }
  }

  lemma {:induction false} CountLocked(notes: seq<OwnedNote>, inputs: seq<nat>, i: nat, txid: nat, anchor: nat)
    requires S.Indices(notes, inputs) && i <= |inputs| && forall n :: n in notes ==> n.lockedBy != Some(txid)
    ensures LockedCount(Locked(notes, inputs[..i], txid, anchor), txid) == i
    decreases i
  {
    hide LockedCount;
    if i == 0 {
      LockNone(notes, txid, anchor);
      CountNone(notes, txid);
    } else {
      CountLocked(notes, inputs, i - 1, txid, anchor);
      LockStep(notes, inputs, i - 1, txid, anchor);
      var some := Locked(notes, inputs[..i - 1], txid, anchor);
      var k := inputs[i - 1];
      assert k !in inputs[..i - 1];
      assert some[k] == notes[k] && notes[k] in notes;
      CountRelease(some, k, some[k].(lockedBy := Some(txid), lockAnchor := Some(anchor)), txid);
    }
  }

  /** Locked inputs cannot be selected again, and releasing them gives back the
      notes as they were and counts exactly the inputs. */
  lemma LockThenRelease(notes: seq<OwnedNote>, inputs: seq<nat>, l: Ledger, txid: nat, anchor: nat)
    requires Picked(notes, inputs, l) && forall n :: n in notes ==> n.lockedBy != Some(txid)
    requires forall n :: n in notes && n.lockedBy.None? ==> n.lockAnchor.None?
    ensures Released(Locked(notes, inputs, txid, anchor), txid) == notes
    ensures LockedCount(Locked(notes, inputs, txid, anchor), txid) == |inputs|
    ensures forall i, depth :: 0 <= i < |notes| ==>
      (S.Spendable(Locked(notes, inputs, txid, anchor)[i], depth) <==>
       S.Spendable(notes[i], depth) && i !in inputs)
  {
    hide LockedCount;
    var locked := Locked(notes, inputs, txid, anchor);
    forall i | 0 <= i < |notes| ensures Released(locked, txid)[i] == notes[i] {
      assert notes[i] in notes;
      if i in inputs {
        var k :| 0 <= k < |inputs| && inputs[k] == i;
        assert S.Spendable(notes[inputs[k]], Depth(l));
      }
    }
    CountLocked(notes, inputs, |inputs|, txid, anchor);
    assert inputs[..|inputs|] == inputs;
  }

  /** Locking and releasing leave a wallet tracking what it tracked. */
  lemma LocksAside(w: Who, f: WalletFile, events: seq<Event>, inputs: seq<nat>, txid: nat, anchor: nat)
    requires Tracks(w, f, events)
    ensures Tracks(w, f.(notes := Locked(f.notes, inputs, txid, anchor)), events)
    ensures Tracks(w, f.(notes := Released(f.notes, txid)), events)
  {
    hide SeeAll, EventLog.NfsOf, OwnNf;
    var base := SeeAll(w, NOTHING, events);
    forall i | 0 <= i < |f.notes|
      ensures TracksNote(w, Locked(f.notes, inputs, txid, anchor)[i], base.notes[i], EventLog.NfsOf(w.env, events))
      ensures TracksNote(w, Released(f.notes, txid)[i], base.notes[i], EventLog.NfsOf(w.env, events))
    {
      assert TracksNote(w, f.notes[i], base.notes[i], EventLog.NfsOf(w.env, events));
    }
  }

  /** tx carries t's bytes. */
  ghost predicate Carries(cd: Codec, t: Transfer, tx: Carrier.Tx) {
    Carrier.OpReturnPayload(tx) == Carrier.Carried(ToBytes(cd, TransferEnvelope(t)))
  }

  /** o is a transfer of amount built on l from the wallet's notes, and its
      carrier carries it. */
  ghost predicate Sends(env: Env, keys: Keys, l: Ledger, notes: seq<OwnedNote>, to: Address, amount: nat,
                        payout: Option<Payout>, seeds: Seeds, prover: Prover, o: Outgoing)
  {
    && Ready(env, l, o.t) && o.t.payout == payout && Picked(notes, o.inputs, l)
    && Says(Who(env, keys, false), l, notes, o.inputs, to, amount, seeds, o.wit, o.t)
    && prover.prove(PublicOf(env, l, o.t), o.wit) == Some(o.t.proof)
    && Carries(env.cd, o.t, o.tx)
  }

  lemma Selected(notes: seq<OwnedNote>, l: Ledger, amount: nat, inputs: seq<nat>)
    requires SelectedOn(notes, l, amount, inputs)
    ensures S.Indices(notes, inputs) && Picked(notes, inputs, l)
  {
    hide S.Spendable, S.CoveredByOne, S.Total, Depth;
  }

  lemma MakesSend(env: Env, keys: Keys, l: Ledger, notes: seq<OwnedNote>, to: Address, amount: nat,
                  payout: Option<Payout>, seeds: Seeds, prover: Prover, o: Outgoing)
    requires Ready(env, l, o.t) && o.t.payout == payout && Picked(notes, o.inputs, l) && Carries(env.cd, o.t, o.tx)
    requires Says(Who(env, keys, false), l, notes, o.inputs, to, amount, seeds, o.wit, o.t)
    requires prover.prove(PublicOf(env, l, o.t), o.wit) == Some(o.t.proof)
    ensures Sends(env, keys, l, notes, to, amount, payout, seeds, prover, o)
  {
    hide Picked, Carries, Says, StatementDigest;
  }

  lemma SendsParts(env: Env, keys: Keys, l: Ledger, notes: seq<OwnedNote>, to: Address, amount: nat,
                   payout: Option<Payout>, seeds: Seeds, prover: Prover, o: Outgoing)
    requires Sends(env, keys, l, notes, to, amount, payout, seeds, prover, o)
    ensures Picked(notes, o.inputs, l) && Carries(env.cd, o.t, o.tx)
    ensures Ready(env, l, o.t) && o.t.payout == payout && prover.prove(PublicOf(env, l, o.t), o.wit) == Some(o.t.proof)
    ensures TwoByTwo(o.wit) && Evaluates(env.s, o.wit, Statement(o.t.nf, o.t.pkEph, o.t.ct))
  {
    hide Ready, Picked, Carries, InputsOk, Evaluates, S.Total, StatementDigest;
  }

  /** What a send relays on a reachable state is accepted: its carrier, answered
      or not, moves the notes in every block of the window that has not seen its
      nullifiers. */
  lemma SentIsAccepted(w: Who, dep: Deployment, bs: seq<Block>, more: seq<Block>, before: seq<(nat, Carrier.Tx)>,
                       notes: seq<OwnedNote>, to: Address, amount: nat, payout: Option<Payout>, seeds: Seeds,
                       prover: Prover, o: Outgoing, txid: nat, h: nat, m: Ledger)
    requires ValidSuite(w.env.s) && Acceptance.FullCodec(w.env) && InitialHeight(dep) + |bs| < Pow256(4) && |more| < 99
    requires Sends(w.env, w.keys, ReplayAll(w.env, dep, bs), notes, to, amount, payout, seeds, prover, o)
    requires PayoutOk(payout) && forall pub, wit :: prover.prove(pub, wit).Some? ==>
      |prover.prove(pub, wit).value| == PROOF_LEN
    requires h == InitialHeight(dep) + |bs| + |more| + 1
    requires m == ReplayTxs(w.env, dep, ReplayAll(w.env, dep, bs + more), h, before)
    requires Arity(o.t) && o.t.nf[0] !in m.nullifiers && o.t.nf[1] !in m.nullifiers
    ensures ReplayTx(w.env, dep, m, h, (txid, o.tx))
         == ApplyTransfer(w.env, m, h, txid, o.t, ToBytes(w.env.cd, TransferEnvelope(o.t)))
  {
    hide ValidSuite, Acceptance.FullCodec, Pow256, Sends, PayoutOk, ReplayTxs, ReplayAll, ReplayTx, ApplyTransfer,
      ToBytes, Ready, Evaluates, Carrier.OpReturnPayload, StatementDigest;
    SendsParts(w.env, w.keys, ReplayAll(w.env, dep, bs), notes, to, amount, payout, seeds, prover, o);
    Acceptance.BuiltCarrierMoves(w, dep, bs, more, before, o.wit, o.t, txid, o.tx, h, m,
      ToBytes(w.env.cd, TransferEnvelope(o.t)));
  }

  lemma CarrierCarries(utxos: seq<Carrier.Utxo>, extra: seq<Carrier.TxOut>, payload: seq<byte>, change: seq<byte>,
                       tx: Carrier.Tx, paid: nat)
    requires 1 < |payload| < 0x1_0000_0000 && !Carrier.IsOpReturn(change)
    requires forall o :: o in extra ==> !Carrier.IsOpReturn(o.script)
    requires exists f: nat, n: nat ::
      Carrier.Balanced(utxos, extra, Carrier.OpReturnScript(payload), change, tx, paid, f, n)
    ensures Carrier.OpReturnPayload(tx) == Carrier.Carried(payload) && extra <= tx.outputs
  {
    hide Carrier.OpReturnScript, Carrier.OpReturnPayload, Carrier.TotalIn, Carrier.TotalOut, Carrier.Shortest;
    var f: nat, n: nat :|
      Carrier.Balanced(utxos, extra, Carrier.OpReturnScript(payload), change, tx, paid, f, n);
    var mid := Carrier.TxOut(0, Carrier.OpReturnScript(payload));
    var rest := tx.outputs[|extra| + 1..];
    assert tx.outputs == extra + [mid] + rest;
    Carrier.CarrierDelivers(tx.inputs, extra, payload, 0, rest);
  }

  /** A first output paying the vault counts in full. */
  lemma {:induction false} FirstPays(vault: seq<byte>, amount: nat, outputs: seq<Carrier.TxOut>)
    requires [Carrier.TxOut(amount, vault)] <= outputs
    ensures VaultValue(vault, outputs) >= amount
    decreases |outputs|
  {
    var n := |outputs| - 1;
    if n > 0 {
      assert outputs[..n][0] == outputs[0];
      FirstPays(vault, amount, outputs[..n]);
    }
  }

  /** One attempt per nullifier, each with its key among paid. */
  ghost predicate OneEach(hex: seq<byte> -> string, attempts: seq<Attempt>, paid: seq<string>) {
    && (forall i, k :: 0 <= i < k < |attempts| ==> attempts[i].nf != attempts[k].nf)
    && (forall i :: 0 <= i < |attempts| ==> hex(FrBytes(attempts[i].nf)) in paid)
  }

  lemma OneMoreKey(hex: seq<byte> -> string, attempts: seq<Attempt>, paid: seq<string>, key: string)
    requires OneEach(hex, attempts, paid)
    ensures OneEach(hex, attempts, paid + [key])
  {
    hide FrBytes;
  }

  lemma OneMore(hex: seq<byte> -> string, attempts: seq<Attempt>, paid: seq<string>, a: Attempt)
    requires OneEach(hex, attempts, paid) && hex(FrBytes(a.nf)) !in paid
    ensures OneEach(hex, attempts + [a], paid + [hex(FrBytes(a.nf))])
  {
    hide FrBytes;
  }

  /** The transactions of the attempts that got through. */
  ghost function Reached(attempts: seq<Attempt>): seq<Carrier.Tx> {
    if attempts == [] then []
    else
      var n := |attempts| - 1;
      Reached(attempts[..n]) + if attempts[n].reached then [attempts[n].tx] else []
  }

  lemma StillOwed(env: Env, keys: Keys, events: seq<Event>, start: seq<Attempt>, a: seq<Attempt>, b: seq<Attempt>,
                  onChain: set<seq<byte>>)
    requires start <= a <= b && |b| <= |a| + 1
    requires forall k :: |start| <= k < |a| ==> Owed(env, keys, events, a[k], onChain)
    requires |b| > |a| ==> Owed(env, keys, events, b[|a|], onChain)
    ensures forall k :: |start| <= k < |b| ==> Owed(env, keys, events, b[k], onChain)
  {
    hide Owed;
  }

  lemma ReachedNone()
    ensures forall a: seq<Attempt> :: Reached(a[|a|..]) == []
  {
  }

  lemma ReachedOne(attempts: seq<Attempt>, a: Attempt)
    ensures Reached((attempts + [a])[|attempts|..]) == if a.reached then [a.tx] else []
  {
    assert (attempts + [a])[|attempts|..] == [a];
  }

  lemma {:induction false} ReachedConcat(a: seq<Attempt>, b: seq<Attempt>)
    ensures Reached(a + b) == Reached(a) + Reached(b)
    decreases |b|
  {
    if b == [] {
      assert a + b == a;
    } else {
      var n := |b| - 1;
      assert (a + b)[..|a + b| - 1] == a + b[..n];
      ReachedConcat(a, b[..n]);
    }
  }

  lemma MoreReached(start: seq<Attempt>, a: seq<Attempt>, b: seq<Attempt>)
    requires start <= a <= b
    ensures Reached(b[|start|..]) == Reached(a[|start|..]) + Reached(b[|a|..])
  {
    assert b[|start|..] == a[|start|..] + b[|a|..];
    ReachedConcat(a[|start|..], b[|a|..]);
  }

  /** e is an accepted request for nf addressed to the wallet, and tx pays it
      less fee, no more than was burned. */
  ghost predicate Requests(env: Env, keys: Keys, e: Event, nf: nat, tx: Carrier.Tx, fee: nat) {
    var r := Parse(env.cd, e.bytes);
    e.TransferEvent? && r.Accepted? && r.e.TransferEnvelope? && RequestPaid(env, keys, r.e.t, nf, tx, fee)
  }

  ghost predicate RequestPaid(env: Env, keys: Keys, t: Transfer, nf: nat, tx: Carrier.Tx, fee: nat) {
    && Arity(t) && t.payout.Some? && t.nf[0] == nf
    && PaysRequest(tx, t.payout.value, FrBytes(nf), fee)
    && var n := DecryptAsRecipient(env.s, t.ct[0], t.pkEph[0], ViewOf(env.s, keys.sk));
       n.Some? && t.payout.value.amount <= n.value.v
  }

  /** a pays some request in the log addressed to this wallet, less the fee, at
      most what was burned. */
  ghost predicate Claimed(env: Env, keys: Keys, events: seq<Event>, a: Attempt) {
    exists i :: 0 <= i < |events| && Requests(env, keys, events[i], a.nf, a.tx, a.fee)
  }

  /** What an attempt must be: it pays such a request, and the vault's history
      did not show it paid. */
  ghost predicate Owed(env: Env, keys: Keys, events: seq<Event>, a: Attempt, onChain: set<seq<byte>>) {
    FrBytes(a.nf) !in onChain && Claimed(env, keys, events, a)
  }

  /** a is the payout of transfer t's request, in transaction txid, made of the
      vault's coins at the rate. */
  ghost predicate Priced(hs: Hashing, c: Blocks, mempool: seq<Carrier.Tx>, vault: seq<byte>, vsize: Carrier.Tx -> nat,
                         rate: nat, txid: nat, t: Transfer, a: Attempt)
    requires Started(c)
  {
    && t.payout.Some? && a.request == txid
    && PayoutMade(hs, c, mempool, vault, vsize, rate, t.payout.value, FrBytes(a.nf), a.tx, a.paid, a.fee)
  }

  function Tried(a: Attempt, reached: bool, answered: bool): Attempt {
    a.(reached := reached, answered := answered)
  }

  lemma TriedIs(a: Attempt)
    ensures forall reached, answered ::
      var b := Tried(a, reached, answered);
      b.nf == a.nf && b.tx == a.tx && b.request == a.request && b.fee == a.fee && b.paid == a.paid
  {
  }

  lemma ChainStarted(client: MockChain)
    requires client.Valid()
    ensures Started(client.View())
  {
  }

  lemma IsPriced(hs: Hashing, c: Blocks, mempool: seq<Carrier.Tx>, vault: seq<byte>, vsize: Carrier.Tx -> nat,
                 rate: nat, txid: nat, t: Transfer, a: Attempt)
    requires Started(c) && t.payout.Some? && a.request == txid
    requires PayoutMade(hs, c, mempool, vault, vsize, rate, t.payout.value, FrBytes(a.nf), a.tx, a.paid, a.fee)
    ensures forall reached, answered ::
      Priced(hs, c, mempool, vault, vsize, rate, txid, t, Tried(a, reached, answered))
  {
    hide PayoutMade, FrBytes;
  }

  /** One run over the requests of a log: the log, the rate, the chain and the
      vault, the mempool at the start, what the vault's history showed paid, and
      the one request looked for. */
  datatype Round = Round(
    env: Env, events: seq<Event>, rate: nat, hs: Hashing, c: Blocks, vault: seq<byte>, first: seq<Carrier.Tx>,
    onChain: set<seq<byte>>, only: Option<nat>)

  /** The file, the attempts and what was relayed when a run began. */
  datatype Beginning = Beginning(file: WalletFile, attempts: seq<Attempt>, relayed: seq<Carrier.Tx>)

  predicate Attempted(made: seq<Attempt>, nf: nat) {
    exists k :: 0 <= k < |made| && made[k].nf == nf
  }

  /** The vault can pay p at every state of the mempool up to last. */
  ghost predicate PayableUpTo(run: Round, vsize: Carrier.Tx -> nat, last: seq<Carrier.Tx>, p: Payout, nf: seq<byte>)
    requires Started(run.c)
  {
    forall mempool :: run.first <= mempool <= last ==>
      Payable(run.hs, run.c, mempool, run.vault, vsize, run.rate, p, nf)
  }

  ghost predicate AllPriced(run: Round, vsize: Carrier.Tx -> nat, last: seq<Carrier.Tx>, made: seq<Attempt>)
    requires Started(run.c)
  {
    forall i :: 0 <= i < |made| ==> PricedIn(run, vsize, last, made[i])
  }

  lemma NonePriced(vsize: Carrier.Tx -> nat, last: seq<Carrier.Tx>, attempts: seq<Attempt>)
    ensures forall run: Round :: Started(run.c) ==> AllPriced(run, vsize, last, attempts[|attempts|..])
  {
  }

  lemma StillPriced(run: Round, vsize: Carrier.Tx -> nat, pool: seq<Carrier.Tx>, last: seq<Carrier.Tx>,
                    start: seq<Attempt>, before: seq<Attempt>, after: seq<Attempt>, i: nat)
    requires Started(run.c) && i < |run.events| && Named(run.env, run.events[i], None)
    requires run.first <= pool <= last && start <= before <= after && |after| <= |before| + 1
    requires AllPriced(run, vsize, pool, before[|start|..])
    requires |after| > |before| ==> Priced(run.hs, run.c, pool, run.vault, vsize, run.rate, run.events[i].txid,
                                           TransferIn(run.env, run.events[i]), after[|before|])
    ensures AllPriced(run, vsize, last, after[|start|..])
  {
    hide Priced, Named, TransferIn;
    var made := after[|start|..];
    forall k | 0 <= k < |made| ensures PricedIn(run, vsize, last, made[k]) {
      if k < |before| - |start| {
        assert made[k] == before[|start|..][k];
        assert PricedIn(run, vsize, pool, made[k]);
      } else {
        assert made[k] == after[|before|] && run.events[i] in run.events;
      }
    }
  }

  lemma NamedAny(env: Env, e: Event, only: Option<nat>)
    requires Named(env, e, only)
    ensures Named(env, e, None)
  {
    hide Parse;
  }

  lemma NotNamed(env: Env, e: Event, only: Option<nat>)
    ensures !e.TransferEvent? || (only.Some? && only.value != e.txid) ==> !Named(env, e, only)
    ensures var r := Parse(env.cd, e.bytes);
      r.Accepted? && r.e.TransferEnvelope? && r.e.t.payout.None? ==> !Named(env, e, only)
  {
    hide Parse;
  }

  lemma IsNamed(env: Env, e: Event, only: Option<nat>, t: Transfer)
    requires e.TransferEvent? && (only.None? || only.value == e.txid)
    requires Parse(env.cd, e.bytes) == Accepted(TransferEnvelope(t)) && t.payout.Some?
    ensures Named(env, e, only) && Named(env, e, None) && TransferIn(env, e) == t
  {
    hide Parse;
  }

  lemma NamedParts(env: Env, e: Event, only: Option<nat>, t: Transfer)
    requires Named(env, e, only) && t == TransferIn(env, e)
    ensures e.TransferEvent? && t.payout.Some? && Arity(t) && Parse(env.cd, e.bytes) == Accepted(TransferEnvelope(t))
  {
    hide Parse;
    ParseArity(env.cd, e.bytes);
  }

  /** A well-kept log holds no unreadable transfer. */
  lemma NoBadEvent(env: Env, events: seq<Event>, i: nat)
    requires i < |events| && events[i].TransferEvent?
    requires !Parse(env.cd, events[i].bytes).Accepted? || !Parse(env.cd, events[i].bytes).e.TransferEnvelope?
    ensures !EventLog.LogOk(env, events)
  {
    hide Parse, EventLog.LogOk, EventLog.LeavesOf, EventLog.LeavesBy;
    if EventLog.LogOk(env, events) {
      EventLog.EventLeaves(env, events, i);
    }
  }

  /** Priced for an event of the log, at some state of the mempool up to last. */
  ghost predicate PricedIn(run: Round, vsize: Carrier.Tx -> nat, last: seq<Carrier.Tx>, a: Attempt)
    requires Started(run.c)
  {
    exists e, mempool :: e in run.events && run.first <= mempool <= last && Named(run.env, e, None)
      && Priced(run.hs, run.c, mempool, run.vault, vsize, run.rate, e.txid, TransferIn(run.env, e), a)
  }

  /** e holds a peg-out request, and the one looked for. */
  predicate Named(env: Env, e: Event, only: Option<nat>) {
    var r := Parse(env.cd, e.bytes);
    && e.TransferEvent? && (only.None? || only.value == e.txid)
    && r.Accepted? && r.e.TransferEnvelope? && r.e.t.payout.Some?
  }

  function TransferIn(env: Env, e: Event): Transfer {
    var r := Parse(env.cd, e.bytes);
    if r.Accepted? && r.e.TransferEnvelope? then r.e.t else NO_TRANSFER
  }

  /** t's first output is the wallet's, so a request is addressed to it. */
  predicate Requested(env: Env, keys: Keys, t: Transfer) {
    Arity(t) && DecryptAsRecipient(env.s, t.ct[0], t.pkEph[0], ViewOf(env.s, keys.sk)).Some?
  }

  /** And the request is one that may be paid. */
  predicate ValidRequest(env: Env, keys: Keys, t: Transfer) {
    && Requested(env, keys, t) && t.payout.Some?
    && var n := DecryptAsRecipient(env.s, t.ct[0], t.pkEph[0], ViewOf(env.s, keys.sk)).value;
       ValidatePayout(t.payout.value, n.v).None?
  }

  /** Nothing noted is forgotten, and only key may be noted anew. */
  predicate NotesOnly(f: WalletFile, g: WalletFile, key: string) {
    && (g.paidPayouts == f.paidPayouts || g.paidPayouts == f.paidPayouts + [key])
    && (forall k :: k in f.failedPayouts ==> k in g.failedPayouts)
    && (forall k :: k in g.failedPayouts ==> k in f.failedPayouts || k == key)
  }

  /** What the answered attempts pay out, in order. */
  function PaymentsOf(hs: Hashing, attempts: seq<Attempt>): seq<Payment> {
    if attempts == [] then []
    else
      var n := |attempts| - 1;
      PaymentsOf(hs, attempts[..n]) + if attempts[n].answered then [PaymentOf(hs, attempts[n])] else []
  }

  function PaymentOf(hs: Hashing, a: Attempt): Payment {
    Payment(a.request, if |a.tx.outputs| > 0 then a.tx.outputs[0].value else 0, a.paid, hs.txid(a.tx))
  }

  lemma NoPayments(hs: Hashing, attempts: seq<Attempt>)
    ensures PaymentsOf(hs, attempts[|attempts|..]) == []
  {
  }

  lemma OnePayment(hs: Hashing, before: seq<Attempt>, a: Attempt)
    ensures PaymentsOf(hs, (before + [a])[|before|..]) == if a.answered then [PaymentOf(hs, a)] else []
  {
    assert (before + [a])[|before|..] == [a];
    assert [a][..0] == [];
  }

  lemma {:induction false} PaymentsConcat(hs: Hashing, a: seq<Attempt>, b: seq<Attempt>)
    ensures PaymentsOf(hs, a + b) == PaymentsOf(hs, a) + PaymentsOf(hs, b)
    decreases |b|
  {
    if b == [] {
      assert a + b == a;
    } else {
      var n := |b| - 1;
      assert (a + b)[..|a + b| - 1] == a + b[..n];
      PaymentsConcat(hs, a, b[..n]);
    }
  }

  /** What was paid since the beginning. */
  function PaymentsSince(hs: Hashing, from: Beginning, tries: seq<Attempt>): seq<Payment> {
    if |from.attempts| <= |tries| then PaymentsOf(hs, tries[|from.attempts|..]) else []
  }

  lemma NonePaid(hs: Hashing, from: Beginning)
    ensures PaymentsSince(hs, from, from.attempts) == []
  {
    NoPayments(hs, from.attempts);
  }

  lemma MoreSince(hs: Hashing, from: Beginning, a: seq<Attempt>, b: seq<Attempt>)
    requires from.attempts <= a <= b
    ensures PaymentsSince(hs, from, b) == PaymentsSince(hs, from, a) + PaymentsOf(hs, b[|a|..])
  {
    hide PaymentsOf;
    MorePayments(hs, from.attempts, a, b);
  }

  lemma MorePayments(hs: Hashing, start: seq<Attempt>, a: seq<Attempt>, b: seq<Attempt>)
    requires start <= a <= b
    ensures PaymentsOf(hs, b[|start|..]) == PaymentsOf(hs, a[|start|..]) + PaymentsOf(hs, b[|a|..])
  {
    assert b[|start|..] == a[|start|..] + b[|a|..];
    PaymentsConcat(hs, a[|start|..], b[|a|..]);
  }

  /** Every transaction known at the first state is known at the second. */
  ghost predicate StillKnown(hs: Hashing, c: Blocks, mempool: seq<Carrier.Tx>, c': Blocks, mempool': seq<Carrier.Tx>)
    requires Started(c) && Started(c')
  {
    forall id, t :: Knows(hs, c, mempool, id, t) ==> Knows(hs, c', mempool', id, t)
  }

  lemma StillSpends(hs: Hashing, c: Blocks, mempool: seq<Carrier.Tx>, c': Blocks, mempool': seq<Carrier.Tx>,
                    tx: Carrier.Tx, vault: seq<byte>)
    requires Started(c) && Started(c') && StillKnown(hs, c, mempool, c', mempool')
      && SpendsFrom(hs, c, mempool, tx, vault)
    ensures SpendsFrom(hs, c', mempool', tx, vault)
  {
    hide Knows;
    var k, p :| 0 <= k < |tx.inputs| && SpendsOutput(hs, c, mempool, tx.inputs[k], p, vault);
    assert SpendsOutput(hs, c', mempool', tx.inputs[k], p, vault);
  }

  /** A payout that confirmed, or that is pending and listed in the wallet file, is
      never paid again: a later run that reads the vault's history, from any other
      wallet file and however many blocks later, makes no attempt for its
      nullifier. */
  lemma PaidNeverAgain(env: Env, keys: Keys, events: seq<Event>, later: seq<Event>, hs: Hashing, vault: seq<byte>,
                       c: Blocks, mempool: seq<Carrier.Tx>, a: Attempt, before: set<seq<byte>>, c': Blocks,
                       mempool': seq<Carrier.Tx>, own: seq<nat>, a': Attempt, onChain: set<seq<byte>>, h: nat)
    requires Started(c) && Started(c') && StillKnown(hs, c, mempool, c', mempool')
    requires Owed(env, keys, events, a, before) && SpendsFrom(hs, c, mempool, a.tx, vault) && !IsCoinbase(a.tx)
    requires (h > 0 || hs.txid(a.tx) in own) && (a.tx, h) in AllOf(c', mempool')
    requires forall b :: b in onChain <==> PaidUnder(hs, c', mempool', vault, own, b)
    requires Owed(env, keys, later, a', onChain)
    ensures a'.nf != a.nf
  {
    hide StillKnown, SpendsFrom, AllOf, PaidUnder, PaysRequest, FrBytes, DecryptAsRecipient, Parse;
    StillSpends(hs, c, mempool, c', mempool', a.tx, vault);
    var i :| 0 <= i < |events| && Requests(env, keys, events[i], a.nf, a.tx, a.fee);
    var p := Parse(env.cd, events[i].bytes).e.t.payout.value;
    PayoutRecognised(hs, c', mempool', vault, own, a.tx, p, FrBytes(a.nf), a.fee, h);
  }

  lemma IsOwed(env: Env, keys: Keys, e: Event, t: Transfer, n: Plain, tx: Carrier.Tx, fee: nat)
    requires e.TransferEvent? && Parse(env.cd, e.bytes) == Accepted(TransferEnvelope(t)) && Arity(t)
    requires t.payout.Some? && PaysRequest(tx, t.payout.value, FrBytes(t.nf[0]), fee)
    requires DecryptAsRecipient(env.s, t.ct[0], t.pkEph[0], ViewOf(env.s, keys.sk)) == Some(n)
      && t.payout.value.amount <= n.v
    ensures Requests(env, keys, e, t.nf[0], tx, fee)
  {
    hide Parse, DecryptAsRecipient, PaysRequest, FrBytes;
  }

  lemma IsAttempt(env: Env, keys: Keys, events: seq<Event>, e: Event, a: Attempt, onChain: set<seq<byte>>)
    requires e in events && Requests(env, keys, e, a.nf, a.tx, a.fee) && FrBytes(a.nf) !in onChain
    ensures forall reached, answered :: Owed(env, keys, events, Tried(a, reached, answered), onChain)
  {
    hide Requests, FrBytes;
    var i :| 0 <= i < |events| && events[i] == e;
    forall reached, answered ensures Owed(env, keys, events, Tried(a, reached, answered), onChain) {
      assert Requests(env, keys, events[i], Tried(a, reached, answered).nf, a.tx, a.fee);
    }
  }

  /** The requester's output: the amount asked less the fee, so at most what was
      burned. */
  lemma PaidAtMost(p: Payout, tx: Carrier.Tx, nf: seq<byte>, fee: nat)
    requires PaysRequest(tx, p, nf, fee)
    ensures |tx.outputs| > 0 && tx.outputs[0].value + fee == p.amount
  {
    hide Carrier.OpReturnPayload;
  }

  lemma FrLength(x: nat)
    ensures |FrBytes(x)| == 32
  {
  }

  function Released(notes: seq<OwnedNote>, txid: nat): (r: seq<OwnedNote>)
    ensures |r| == |notes|
    ensures forall i :: 0 <= i < |r| ==>
      r[i] == if notes[i].lockedBy == Some(txid) then notes[i].(lockedBy := None, lockAnchor := None) else notes[i]
  {
    seq(|notes|, i requires 0 <= i < |notes| =>
      if notes[i].lockedBy == Some(txid) then notes[i].(lockedBy := None, lockAnchor := None) else notes[i])
  }

  function LockedCount(notes: seq<OwnedNote>, txid: nat): nat {
    if notes == [] then 0
    else
      var n := |notes| - 1;
      LockedCount(notes[..n], txid) + if notes[n].lockedBy == Some(txid) then 1 else 0
  }
}
