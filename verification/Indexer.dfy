/** The replayed state in place: blocks fetched from a chain source, replayed
    transaction by transaction, with reorganisation detection by tip hash. */
module Indexer {
  import opened Binary
  import opened Bytes
  import opened Wrappers
  import opened Wire
  import opened WireIo
  import opened Merkle
  import opened Note
  import opened Circuit
  import opened Carrier
  import opened Replay
  import opened Pruning
  import opened Chain
  import opened MockChain
  import opened Rooms

  datatype SyncError = Failed | BlockChanged(height: nat) | WrongChain(expected: nat, got: nat)

  datatype Synced = Processed(blocks: nat) | Stopped(error: SyncError)

  /** The state file: leaves instead of a tree. */
  datatype StateFile = StateFile(
    dep: Deployment, height: nat, leaves: seq<nat>, nullifiers: set<nat>,
    roots: map<nat, nat>, leafCounts: map<nat, nat>, blockHashes: map<nat, nat>,
    events: seq<Event>, rejections: seq<Rejection>)

  /** A source that answers everything and does not change while it does. */
  predicate Calm(client: MockChain)
    reads client
  {
    client.outages == [] && client.afterTxids.None?
  }

  datatype Fetched = Whole(block: Block) | Lost(error: SyncError)

  /** What the source's chain may have become during a call: itself, or, when
      its hook ran, what the hook made of it. */
  twostate predicate Hooked(client: MockChain)
    reads client
  {
    && (client.View() == old(client.View())
        || (old(client.afterTxids).Some? && Runs(client.base, |old(client.blocks)|, old(client.afterTxids).value)
            && client.View() == DoAll(old(client.View()), old(client.afterTxids).value)))
    && (old(client.afterTxids).None? ==> client.View() == old(client.View()) && client.afterTxids.None?)
  }

  /** One block's hash and transactions, provided its hash did not move while
      they were fetched. */
  method Fetch(client: MockChain, h: nat) returns (r: Fetched)
    requires client.Valid()
    modifies client`outages, client`blocks, client`hashes, client`mempool, client`afterTxids
    ensures client.Valid() && Hooked(client)
    ensures r.Whole? ==> client.afterTxids.None? && h <= Tip(old(client.View())) && h <= Tip(client.View())
    ensures r.Whole? ==> HashAt(client.hs, client.View(), h) == HashAt(client.hs, old(client.View()), h)
    ensures r.Whole? ==> r.block == BlockAt(client.hs, old(client.View()), h)
    ensures r.Lost? ==> r.error == Failed || r.error == BlockChanged(h)
    ensures old(client.outages) == [] ==> client.outages == []
    ensures old(client.outages) == [] && old(client.afterTxids).None? && h <= Tip(old(client.View())) ==> r.Whole?
  {
    hide HashAt, Committing, Knows, TxsAt, Tip;
    ghost var was := client.View();
    var hash := client.BlockHash(h);
    if !hash.Got? {
      return Lost(Failed);
    }
    var ids := client.BlockTxids(h);
    if !ids.Got? {
      return Lost(Failed);
    }
    ghost var block := TxsAt(was, h);
    var txs: seq<(nat, Tx)> := [];
    for i := 0 to |ids.value|
      modifies client`outages
      invariant txs == WithIds(client.hs, block[..i])
      invariant old(client.outages) == [] ==> client.outages == []
    {
      var tx := client.Transaction(ids.value[i]);
      if !tx.Got? {
        if old(client.outages) == [] && old(client.afterTxids).None? {
          BlockKnown(client.hs, was, client.mempool, h, i);
        }
        return Lost(Failed);
      }
      SameTx(client.hs, client.View(), client.mempool, ids.value[i], tx.value, block[i]);
      txs := txs + [(ids.value[i], tx.value)];
    }
    assert block[..|ids.value|] == block;
    var again := client.BlockHash(h);
    if !again.Got? {
      return Lost(Failed);
    }
    if again.value != hash.value {
      return Lost(BlockChanged(h));
    }
    return Whole(Block(hash.value, txs));
  }

  class State {
    const env: Env
    const dep: Deployment
    var height: nat
    var tree: MerkleTree
    var nullifiers: set<nat>
    var roots: map<nat, nat>
    var leafCounts: map<nat, nat>
    var blockHashes: map<nat, nat>
    var events: seq<Event>
    var rejections: seq<Rejection>
    /** The chain this state was last replayed from. */
    ghost var seen: Blocks

    ghost predicate Valid()
      reads this, tree
    {
      tree.Valid() && tree.node == NodeOf(env.s)
    }

    ghost function View(): Ledger
      reads this, tree
    {
      Ledger(height, tree.contents, nullifiers, roots, leafCounts, blockHashes, events, rejections)
    }

    /** The state is a replay from activation of the chain seen, up to its
        height. */
    ghost predicate Faithful(hs: Hashing)
      reads this, tree
    {
      Valid() && ReplayOf(env, dep, hs, seen, View())
    }

    constructor Fresh(env: Env, dep: Deployment, seen: Blocks)
      requires Started(seen)
      ensures fresh(tree) && this.env == env && this.dep == dep && this.seen == seen
      ensures Valid() && View() == Replay.Fresh(env, dep)
    {
      hide Sub;
      this.env := env;
      this.dep := dep;
      this.seen := seen;
      height := InitialHeight(dep);
      nullifiers := {};
      roots := map[];
      leafCounts := map[InitialHeight(dep) := 0];
      blockHashes := map[];
      events := [];
      rejections := [];
      var t := new MerkleTree(NodeOf(env.s));
      tree := t;
      new;
      roots := roots[height := tree.RootHash()];
    }

    /** The state a file describes, with its tree rebuilt. */
    constructor Restored(env: Env, f: StateFile, tree: MerkleTree, seen: Blocks)
      requires tree.Valid() && tree.node == NodeOf(env.s) && tree.contents == f.leaves
      ensures this.env == env && this.dep == f.dep && this.seen == seen && this.tree == tree
      ensures Valid() && View() == LedgerOf(f)
    {
      hide Tables, LevelOk, Pow2;
      this.env := env;
      this.dep := f.dep;
      this.seen := seen;
      this.tree := tree;
      height := f.height;
      nullifiers := f.nullifiers;
      roots := f.roots;
      leafCounts := f.leafCounts;
      blockHashes := f.blockHashes;
      events := f.events;
      rejections := f.rejections;
    }

    /** self = fresh(deployment). */
    method Reset()
      modifies this
      ensures fresh(tree) && Valid() && View() == Replay.Fresh(env, dep) && seen == old(seen)
    {
      hide Sub, Root, Tables, LevelOk, Pow2, EmptyAt;
      height := InitialHeight(dep);
      nullifiers := {};
      leafCounts := map[height := 0];
      blockHashes := map[];
      events := [];
      rejections := [];
      tree := new MerkleTree(NodeOf(env.s));
      roots := map[height := tree.RootHash()];
    }

    // ----------------------------------------------------------- one envelope

    method AcceptTransfer(h: nat, txid: nat, t: Transfer, payload: seq<byte>) returns (r: Option<Reason>)
      requires Valid() && Arity(t) && (Judge(env, View(), h, t).None? ==> tree.len + 2 <= Pow2(DEPTH))
      modifies this`nullifiers, this`events, tree
      ensures Valid() && r == Judge(env, old(View()), h, t)
      ensures View() == if r.None? then ApplyTransfer(env, old(View()), h, txid, t, payload) else old(View())
    {
      hide Pow2, HBody, StmtOf, CtLeaf, OutputLeaf, StatementDigest, Tables, LevelOk, Root;
      if t.hAnchor + WINDOW_W < h || t.hAnchor + K_MIN > h {
        return Some(AnchorOutsideWindow(t.hAnchor, h));
      }
      if t.hAnchor !in roots {
        return Some(NoRetainedRoot(t.hAnchor));
      }
      var rAnchor := roots[t.hAnchor];
      if t.nf[0] == t.nf[1] {
        return Some(DuplicateNullifier);
      }
      for i := 0 to N_IN
        invariant forall k :: 0 <= k < i ==> t.nf[k] !in nullifiers
      {
        if t.nf[i] in nullifiers {
          return Some(NullifierSpent(t.nf[i]));
        }
      }
      var public := PublicInputs(rAnchor, StatementDigest(env, t));
      if !env.verify(public, t.proof) {
        return Some(ProofInvalid);
      }
      var p0 := tree.Append(OutputLeaf(env, t, 0));
      var p1 := tree.Append(OutputLeaf(env, t, 1));
      for i := 0 to N_IN
        modifies this`nullifiers
        invariant nullifiers == old(nullifiers) + (set k | 0 <= k < i :: t.nf[k])
      {
        nullifiers := nullifiers + {t.nf[i]};
      }
      events := events + [TransferEvent(txid, h, payload, [p0, p1])];
      return None;
    }

    method AcceptMint(h: nat, txid: nat, m: Mint, payload: seq<byte>, value: nat) returns (r: Option<Reason>)
      requires Valid() && (value > 0 ==> tree.len < Pow2(DEPTH))
      modifies this`events, tree
      ensures Valid() && r == if value == 0 then Some(MintUnfunded) else None
      ensures View() == if r.None? then ApplyMint(env, old(View()), h, txid, m, payload, value) else old(View())
    {
      hide Pow2, Le, MintInputs, Tables, LevelOk;
      if value == 0 {
        return Some(MintUnfunded);
      }
      var pos := tree.Append(MintLeaf(env.s, value, Le(m.d), m.pkD, m.rSeed));
      events := events + [MintEvent(txid, h, payload, value, pos)];
      return None;
    }

    method ToVault(tx: Tx) returns (value: nat)
      requires VaultValue(dep.vault, tx.outputs) < U64
      ensures value == VaultValue(dep.vault, tx.outputs)
    {
      value := 0;
      for i := 0 to |tx.outputs|
        invariant value == VaultValue(dep.vault, tx.outputs[..i])
      {
        assert tx.outputs[..i + 1][..i] == tx.outputs[..i];
        if tx.outputs[i].script == dep.vault {
          value := value + tx.outputs[i].value;
        }
      }
      assert tx.outputs[..|tx.outputs|] == tx.outputs;
    }

    /** None when the transaction carries no envelope or its envelope was
        accepted; otherwise the reason to record. */
    method ReplayTx(h: nat, txid: nat, tx: Tx) returns (r: Option<Reason>)
      requires Valid() && TxRoom(env, dep, View(), h, (txid, tx))
      modifies this`nullifiers, this`events, tree
      ensures Valid()
      ensures r == Refusal(env, old(View()), h, RequestOf(env.cd, dep.vault, tx))
      ensures View() == if r.None? then Grant(env, old(View()), h, txid, RequestOf(env.cd, dep.vault, tx))
                         else old(View())
    {
      hide Pow2, Parse, OpReturnPayload, HBody, StmtOf, CtLeaf, Le, MintInputs, Tables, LevelOk, VaultValue, Judge;
      match OpReturnPayload(tx) {
        case NoPayload => return None;
        case Faulty(why) => return Some(CarrierFault(why));
        case Carried(payload) =>
          var parsed := ParseBytes(env.cd, payload);
          match parsed {
            case NotEnvelope => return None;
            case Rejected(e) => return Some(ParseError(e));
            case Accepted(TransferEnvelope(t)) =>
              ParseArity(env.cd, payload);
              r := AcceptTransfer(h, txid, t, payload);
            case Accepted(MintEnvelope(m)) =>
              var value := ToVault(tx);
              r := AcceptMint(h, txid, m, payload, value);
          }
      }
    }

    // -------------------------------------------------------------- one block

    method ReplayAllTxs(h: nat, txs: seq<(nat, Tx)>)
      requires Valid() && RoomFor(env, dep, View(), h, txs)
      modifies this`nullifiers, this`events, this`rejections, tree
      ensures Valid() && View() == ReplayTxs(env, dep, old(View()), h, txs)
    {
      hide Pow2, Refusal, Grant, RequestOf, VaultValue, Tables, LevelOk, RoomFor, TxRoom, ReplayTxs;
      ghost var was := View();
      NoneReplayed(env, dep, was, h, txs);
      for i := 0 to |txs|
        modifies this`nullifiers, this`events, this`rejections, tree
        invariant Valid() && View() == ReplayTxs(env, dep, was, h, txs[..i])
      {
        NextRoom(env, dep, was, h, txs, i);
        var r := ReplayTx(h, txs[i].0, txs[i].1);
        if r.Some? {
          rejections := rejections + [Rejection(txs[i].0, h, r.value)];
        }
      }
      assert txs[..|txs|] == txs;
    }

    /** Seals the block: root, leaf count and hash at h, then pruning. */
    method CloseBlock(h: nat, hash: nat)
      requires Valid()
      modifies this`height, this`roots, this`leafCounts, this`blockHashes, this`rejections
      ensures Valid() && View() == Prune(dep, Close(env, old(View()), h, hash))
    {
      hide Root, Tables, LevelOk, Pow2, Retained, Recent;
      roots := roots[h := tree.RootHash()];
      leafCounts := leafCounts[h := tree.len];
      blockHashes := blockHashes[h := hash];
      height := h;
      var keepFrom := Below(h, WINDOW_W + 10);
      var initial := Below(dep.activation, 1);
      roots := Retained(roots, keepFrom, initial);
      leafCounts := Retained(leafCounts, keepFrom, initial);
      blockHashes := Recent(blockHashes, keepFrom);
      rejections := rejections[Below(|rejections|, MAX_REJECTIONS)..];
    }

    /** One block, all or nothing: when a query fails, or the hash at this height
        is another by the time the transactions are here, no field changes. */
    method ReplayBlock(client: MockChain, h: nat) returns (r: Option<SyncError>)
      requires Valid() && client.Valid() && h == height + 1
      requires h <= Tip(client.View()) ==> RoomFor(env, dep, View(), h, WithIds(client.hs, TxsAt(client.View(), h)))
      modifies this`height, this`nullifiers, this`roots, this`leafCounts, this`blockHashes, this`events, this`rejections
      modifies tree, client`outages, client`blocks, client`hashes, client`mempool, client`afterTxids
      ensures Valid() && client.Valid() && Hooked(client)
      ensures r.None? ==> client.afterTxids.None? && h <= Tip(old(client.View())) && h <= Tip(client.View())
      ensures r.None? ==> HashAt(client.hs, client.View(), h) == HashAt(client.hs, old(client.View()), h)
      ensures r.None? ==> View() == Replay.ReplayBlock(env, dep, old(View()), BlockAt(client.hs, old(client.View()), h))
      ensures r.Some? ==> View() == old(View()) && (r.value == Failed || r.value == BlockChanged(h))
      ensures old(client.outages) == [] ==> client.outages == []
      ensures old(client.outages) == [] && old(client.afterTxids).None? && h <= Tip(old(client.View())) ==> r.None?
    {
      hide HashAt, Committing, Pow2, Tables, LevelOk, ReplayTxs, Close, Prune, TxsAt, WithIds, RoomFor;
      var fetched := Fetch(client, h);
      if fetched.Lost? {
        return Some(fetched.error);
      }
      ReplayAllTxs(h, fetched.block.txs);
      CloseBlock(h, fetched.block.hash);
      return None;
    }

    // ------------------------------------------------------------------- sync

    /** A server on another chain is refused. */
    method CheckChain(client: MockChain) returns (e: Option<SyncError>)
      requires client.Valid()
      modifies client`outages
      ensures e.None? ==> RightChain(dep, client.hs, client.View())
      ensures e.Some? && e.value.WrongChain? ==>
        dep.activationHash == Some(e.value.expected) && e.value.got != e.value.expected
      ensures e.Some? ==> e.value == Failed || e.value.WrongChain?
      ensures old(Calm(client)) ==> Calm(client) && (RightChain(dep, client.hs, client.View()) ==> e.None?)
    {
      hide HashAt, Committing;
      if dep.activationHash.Some? && dep.activation > 0 {
        var got := client.BlockHash(dep.activation - 1);
        if !got.Got? {
          return Some(Failed);
        }
        if got.value != dep.activationHash.value {
          return Some(WrongChain(dep.activationHash.value, got.value));
        }
      }
      return None;
    }

    /** Compares the stored tip hash with the source's and starts over when they
        differ: afterwards the state is a replay of the source's chain. */
    method Rejoin(client: MockChain) returns (ok: bool)
      requires Faithful(client.hs) && client.Valid()
      modifies this, client`outages
      ensures Faithful(client.hs)
      ensures tree == old(tree) || fresh(tree)
      ensures !ok ==> View() == old(View()) && seen == old(seen) && tree == old(tree)
      ensures ok ==> seen == client.View() && height == HeightKept(dep, client.hs, client.View(), old(View()))
      ensures old(Calm(client)) ==> Calm(client) && (height <= Tip(client.View()) ==> ok)
    {
      hide HashAt, Committing, ReplayOf, Tables, LevelOk, Root, Replay.Fresh, Pow2;
      if height in blockHashes {
        var now := client.BlockHash(height);
        if !now.Got? {
          return false;
        }
        if now.value != blockHashes[height] {
          Reset();
          FreshReplay(env, dep, client.hs, client.View());
        } else {
          TipMatches(env, dep, client.hs, seen, client.View(), View());
        }
      } else {
        NoTip(env, dep, client.hs, seen, client.View(), View());
      }
      seen := client.View();
      return true;
    }

    /** Replays block after block up to tip. */
    method CatchUp(client: MockChain, tip: nat) returns (r: Synced)
      requires Faithful(client.hs) && client.Valid() && seen == client.View() && tip <= Tip(client.View())
      requires Roomy(env, dep, client.hs, client.View(), tip) && height <= Later(tip, InitialHeight(dep))
      requires client.afterTxids.Some? ==>
        Roomy(env, dep, client.hs, DoAll(client.View(), client.afterTxids.value), tip)
      modifies this`height, this`nullifiers, this`roots, this`leafCounts, this`blockHashes, this`events, this`rejections
      modifies this`seen, tree, client`outages, client`blocks, client`hashes, client`mempool, client`afterTxids
      ensures Faithful(client.hs) && client.Valid() && Hooked(client)
      ensures r.Processed? ==> seen == client.View() && height == Later(tip, InitialHeight(dep))
      ensures r.Processed? ==> height == old(height) + r.blocks
      ensures r.Stopped? ==> r.error == Failed || r.error == BlockChanged(height + 1)
      ensures r.Stopped? ==> seen == client.View() || seen == old(client.View())
      ensures old(Calm(client)) ==> r.Processed?
    {
      hide HashAt, Committing, Pow2, Roomy, ReplayOf, Tables, LevelOk, Root, Span, RoomFor, Replay.ReplayBlock, BlockAt,
        TxsAt, Do;
      ReplayHeight(env, dep, client.hs, seen, View());
      var n := 0;
      while height < tip
        invariant Faithful(client.hs) && client.Valid() && Roomy(env, dep, client.hs, client.View(), tip)
          && Hooked(client)
        invariant seen == client.View() && tip <= Tip(client.View())
        invariant InitialHeight(dep) <= height <= Later(tip, InitialHeight(dep)) && height == old(height) + n
        invariant client.afterTxids.None?
          || (client.View() == old(client.View()) && client.afterTxids == old(client.afterTxids))
        invariant old(Calm(client)) ==> Calm(client)
        decreases tip - height
      {
        label Before:
        RoomForNext(env, dep, client.hs, client.View(), View(), tip);
        var e := ReplayBlock(client, height + 1);
        if e.Some? {
          return Stopped(e.value);
        }
        seen := client.View();
        NextReplay(env, dep, client.hs, old@Before(client.View()), client.View(), old@Before(View()), View());
        BlockHeight(env, dep, old@Before(View()),
          BlockAt(client.hs, old@Before(client.View()), old@Before(height) + 1));
        n := n + 1;
      }
      return Processed(n);
    }

    /** Replays every block up to the tip read at the start. On success the
        state is what replay from activation of the source's present chain
        gives, and the count is of the blocks replayed; on failure it is still such a replay, of a prefix. */
    method Sync(client: MockChain) returns (r: Synced)
      requires Faithful(client.hs) && client.Valid()
      requires Roomy(env, dep, client.hs, client.View(), Tip(client.View()))
      requires client.afterTxids.Some? ==>
        Roomy(env, dep, client.hs, DoAll(client.View(), client.afterTxids.value), Tip(client.View()))
      modifies this, tree, client`outages, client`blocks, client`hashes, client`mempool, client`afterTxids
      ensures Faithful(client.hs) && client.Valid() && Hooked(client)
      ensures tree == old(tree) || fresh(tree)
      ensures r.Processed? ==> seen == client.View() && height == Later(Tip(old(client.View())), InitialHeight(dep))
      ensures r.Processed? ==> RightChain(dep, client.hs, old(client.View()))
      ensures r.Processed? ==> height == HeightKept(dep, client.hs, old(client.View()), old(View())) + r.blocks
      ensures r.Stopped? && r.error.WrongChain? ==>
        View() == old(View()) && dep.activationHash == Some(r.error.expected) && r.error.got != r.error.expected
      ensures r.Stopped? && r.error.BlockChanged? ==> r.error.height == height + 1
      ensures r.Stopped? ==> View() == old(View()) || seen == client.View() || seen == old(client.View())
      ensures old(Calm(client) && height <= Tip(client.View()) && RightChain(dep, client.hs, client.View())) ==>
        r.Processed?
    {
      hide HashAt, Committing, Pow2, Roomy, ReplayOf, Tables, LevelOk, Root, RightChain, TxsAt;
      var wrong := CheckChain(client);
      if wrong.Some? {
        return Stopped(wrong.value);
      }
      var tip := client.TipHeight();
      if !tip.Got? {
        return Stopped(Failed);
      }
      var ok := Rejoin(client);
      if !ok {
        return Stopped(Failed);
      }
      ReplayHeight(env, dep, client.hs, seen, View());
      r := CatchUp(client, tip.value);
    }

    // ------------------------------------------------------------ save and load

    method Save() returns (f: StateFile)
      requires Valid()
      ensures f.dep == dep && LedgerOf(f) == View()
    {
      var leaves := tree.Leaves();
      f := StateFile(dep, height, leaves, nullifiers, roots, leafCounts, blockHashes, events, rejections);
    }
  }

  /** A file whose height precedes activation is refused; any other is restored
      field by field. */
  method Load(env: Env, f: StateFile, seen: Blocks) returns (r: Option<State>)
    requires Started(seen) && |f.leaves| <= Pow2(DEPTH)
    ensures r.None? <==> f.height < InitialHeight(f.dep)
    ensures r.Some? ==> fresh(r.value) && fresh(r.value.tree) && r.value.Valid() && r.value.env == env
    ensures r.Some? ==> r.value.seen == seen && r.value.dep == f.dep && r.value.View() == LedgerOf(f)
  {
    hide Pow2, Tables, LevelOk, Root, Sub, EmptyAt;
    if f.height < InitialHeight(f.dep) {
      return None;
    }
    var tree := new MerkleTree(NodeOf(env.s));
    for i := 0 to |f.leaves|
      modifies tree
      invariant tree.Valid() && tree.node == NodeOf(env.s) && tree.contents == f.leaves[..i]
    {
      var _ := tree.Append(f.leaves[i]);
    }
    var s := new State.Restored(env, f, tree, seen);
    return Some(s);
  }

  lemma NoneReplayed(env: Env, dep: Deployment, l: Ledger, h: nat, txs: seq<(nat, Tx)>)
    ensures ReplayTxs(env, dep, l, h, txs[..0]) == l
  {
  }

  function LedgerOf(f: StateFile): Ledger {
    Ledger(f.height, f.leaves, f.nullifiers, f.roots, f.leafCounts, f.blockHashes, f.events, f.rejections)
  }
}
