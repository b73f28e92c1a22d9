/** Replay of a chain: what it means for a ledger to be one, how the tip hash
    decides it, and why the note tree has room for it. */
module Rooms {
  import opened Binary
  import opened Bytes
  import opened Wrappers
  import opened Wire
  import opened Merkle
  import opened Note
  import opened Circuit
  import opened Carrier
  import opened Replay
  import opened Pruning
  import opened Chain

  function Later(a: nat, b: nat): nat {
    if a < b then b else a
  }

  /** The amount a mint's carrier pays the vault fits 64 bits, as Bitcoin's
      supply ensures; the sum is formed for mints only. */
  predicate DepositFits(cd: Codec, vault: seq<byte>, tx: Tx) {
    var r := RequestOf(cd, vault, tx);
    r.Deposit? ==> r.value < U64
  }

  predicate DepositsFit(cd: Codec, vault: seq<byte>, txs: seq<(nat, Tx)>) {
    forall i :: 0 <= i < |txs| ==> DepositFits(cd, vault, txs[i].1)
  }

  /** Replaying tx on l neither overflows an amount nor fills the note tree. */
  ghost predicate TxRoom(env: Env, dep: Deployment, l: Ledger, h: nat, tx: (nat, Tx)) {
    DepositFits(env.cd, dep.vault, tx.1) && |ReplayTx(env, dep, l, h, tx).leaves| <= Pow2(DEPTH)
  }

  /** Nor does replaying all of txs. */
  ghost predicate RoomFor(env: Env, dep: Deployment, l: Ledger, h: nat, txs: seq<(nat, Tx)>) {
    DepositsFit(env.cd, dep.vault, txs) && |ReplayTxs(env, dep, l, h, txs).leaves| <= Pow2(DEPTH)
  }

  /** The chain carries the deployment's activation hash, when it names one. */
  ghost predicate RightChain(dep: Deployment, hs: Hashing, c: Blocks)
    requires Started(c)
  {
    dep.activation > 0 && dep.activationHash.Some? ==>
      dep.activation - 1 <= Tip(c) && HashAt(hs, c, dep.activation - 1) == dep.activationHash.value
  }

  /** Replay of c up to height k appends at most 2^32 leaves and sums no amount
      past 64 bits: exactly when the program replays it without a panic. */
  ghost predicate Roomy(env: Env, dep: Deployment, hs: Hashing, c: Blocks, k: nat) {
    k > InitialHeight(dep) ==>
      Started(c) && k <= Tip(c)
      && |ReplayAll(env, dep, Span(hs, c, InitialHeight(dep), k)).leaves| <= Pow2(DEPTH)
      && forall j: nat :: InitialHeight(dep) < j <= k ==> DepositsFit(env.cd, dep.vault, WithIds(hs, TxsAt(c, j)))
  }

  /** l is what replay from activation gives on the blocks of c up to l.height. */
  ghost predicate ReplayOf(env: Env, dep: Deployment, hs: Hashing, c: Blocks, l: Ledger) {
    && Started(c) && l.height >= InitialHeight(dep)
    && (l.height == InitialHeight(dep) || l.height <= Tip(c))
    && l == ReplayAll(env, dep, Span(hs, c, InitialHeight(dep), l.height))
  }

  lemma ReplayHeight(env: Env, dep: Deployment, hs: Hashing, c: Blocks, l: Ledger)
    requires ReplayOf(env, dep, hs, c, l)
    ensures Started(c) && l.height >= InitialHeight(dep) && (l.height == InitialHeight(dep) || l.height <= Tip(c))
  {
    hide ReplayAll, Span;
  }

  lemma FreshReplay(env: Env, dep: Deployment, hs: Hashing, c: Blocks)
    requires Started(c)
    ensures ReplayOf(env, dep, hs, c, Fresh(env, dep))
    ensures Fresh(env, dep).height == InitialHeight(dep)
  {
    hide Root;
  }

  /** A state whose stored tip hash is the chain's own is a replay of that
      chain, whatever chain it was replayed from. */
  lemma TipMatches(env: Env, dep: Deployment, hs: Hashing, was: Blocks, now: Blocks, l: Ledger)
    requires Committing(hs) && ReplayOf(env, dep, hs, was, l) && Started(now)
    requires l.height in l.blockHashes && l.height <= Tip(now) && l.blockHashes[l.height] == HashAt(hs, now, l.height)
    ensures ReplayOf(env, dep, hs, now, l)
  {
    hide ReplayAll, HashAt, Committing, RootOfPrefix;
    var from := InitialHeight(dep);
    RetainedMaps(env, dep, Span(hs, was, from, l.height));
    assert l.blockHashes[l.height] == Span(hs, was, from, l.height)[l.height - from - 1].hash;
    SpanCommits(hs, was, now, from, l.height, l.height);
  }

  /** Only a state at activation - 1 has no tip hash, and it is a replay of any
      chain. */
  lemma NoTip(env: Env, dep: Deployment, hs: Hashing, was: Blocks, now: Blocks, l: Ledger)
    requires ReplayOf(env, dep, hs, was, l) && Started(now) && l.height !in l.blockHashes
    ensures ReplayOf(env, dep, hs, now, l) && l.height == InitialHeight(dep)
  {
    hide ReplayAll, HashAt, RootOfPrefix;
    RetainedMaps(env, dep, Span(hs, was, InitialHeight(dep), l.height));
  }

  /** The height replay goes on from over the source's chain c: the state's own
      while its tip hash is still there, otherwise that before activation. */
  function HeightKept(dep: Deployment, hs: Hashing, c: Blocks, l: Ledger): nat
    requires Started(c)
  {
    if l.height !in l.blockHashes || (l.height <= Tip(c) && HashAt(hs, c, l.height) == l.blockHashes[l.height])
    then l.height
    else InitialHeight(dep)
  }

  /** What was replayed is kept exactly when it is what the present chain
      replays to. */
  lemma KeptIff(env: Env, dep: Deployment, hs: Hashing, was: Blocks, now: Blocks, l: Ledger)
    requires Committing(hs) && ReplayOf(env, dep, hs, was, l) && Started(now)
    ensures HeightKept(dep, hs, now, l) == l.height <==> ReplayOf(env, dep, hs, now, l)
  {
    hide ReplayAll, HashAt, Committing, RootOfPrefix, Span;
    if l.height !in l.blockHashes {
      NoTip(env, dep, hs, was, now, l);
    } else {
      TipHash(env, dep, hs, was, l);
      if ReplayOf(env, dep, hs, now, l) {
        TipHash(env, dep, hs, now, l);
      } else if l.height <= Tip(now) && HashAt(hs, now, l.height) == l.blockHashes[l.height] {
        TipMatches(env, dep, hs, was, now, l);
      }
    }
  }

  lemma TipHash(env: Env, dep: Deployment, hs: Hashing, c: Blocks, l: Ledger)
    requires ReplayOf(env, dep, hs, c, l) && l.height in l.blockHashes
    ensures InitialHeight(dep) < l.height <= Tip(c) && l.blockHashes[l.height] == HashAt(hs, c, l.height)
  {
    hide ReplayAll, HashAt, Committing, RootOfPrefix;
    var from := InitialHeight(dep);
    RetainedMaps(env, dep, Span(hs, c, from, l.height));
    assert l.height > from;
    assert l.blockHashes[l.height] == Span(hs, c, from, l.height)[l.height - from - 1].hash;
  }

  /** One more block, on a chain that may have moved above it. */
  lemma NextReplay(env: Env, dep: Deployment, hs: Hashing, was: Blocks, now: Blocks, l: Ledger, m: Ledger)
    requires Committing(hs) && ReplayOf(env, dep, hs, was, l) && Started(now)
    requires l.height + 1 <= Tip(was) && l.height + 1 <= Tip(now)
    requires HashAt(hs, was, l.height + 1) == HashAt(hs, now, l.height + 1)
    requires m == ReplayBlock(env, dep, l, BlockAt(hs, was, l.height + 1))
    ensures ReplayOf(env, dep, hs, now, m)
  {
    hide ReplayBlock, HashAt, Committing, BlockAt;
    var from, h := InitialHeight(dep), l.height + 1;
    BlockHeight(env, dep, l, BlockAt(hs, was, h));
    var s := Span(hs, was, from, h);
    assert s[..|s| - 1] == Span(hs, was, from, l.height) && s[|s| - 1] == BlockAt(hs, was, h);
    assert m == ReplayAll(env, dep, s);
    SpanCommits(hs, was, now, from, h, h);
  }

  lemma BlockHeight(env: Env, dep: Deployment, l: Ledger, b: Block)
    ensures ReplayBlock(env, dep, l, b).height == l.height + 1
  {
    hide ReplayTxs, Root;
  }

  // --------------------------------------------------------------------- room

  /** Transactions only add leaves, so each fits where all of them do. */
  lemma {:induction false} TxsRoom(env: Env, dep: Deployment, l: Ledger, h: nat, txs: seq<(nat, Tx)>, i: nat)
    requires i <= |txs|
    ensures ReplayTxs(env, dep, l, h, txs[..i]).leaves <= ReplayTxs(env, dep, l, h, txs).leaves
    decreases |txs|
  {
    hide ReplayTx;
    if i == |txs| {
      assert txs[..i] == txs;
    } else {
      var n := |txs| - 1;
      TxsRoom(env, dep, l, h, txs[..n], i);
      assert txs[..n][..i] == txs[..i];
      TxGrows(env, dep, ReplayTxs(env, dep, l, h, txs[..n]), h, txs[n]);
    }
  }

  lemma NextRoom(env: Env, dep: Deployment, l: Ledger, h: nat, txs: seq<(nat, Tx)>, i: nat)
    requires RoomFor(env, dep, l, h, txs) && i < |txs|
    ensures TxRoom(env, dep, ReplayTxs(env, dep, l, h, txs[..i]), h, txs[i])
    ensures ReplayTxs(env, dep, l, h, txs[..i + 1])
      == ReplayTx(env, dep, ReplayTxs(env, dep, l, h, txs[..i]), h, txs[i])
  {
    hide ReplayTx, DepositFits, Pow2;
    TxsRoom(env, dep, l, h, txs, i + 1);
    assert txs[..i + 1][..i] == txs[..i];
  }

  lemma BlockLeaves(env: Env, dep: Deployment, l: Ledger, b: Block)
    ensures ReplayBlock(env, dep, l, b).leaves == ReplayTxs(env, dep, l, l.height + 1, b.txs).leaves
    ensures l.leaves <= ReplayBlock(env, dep, l, b).leaves
  {
    hide ReplayTxs, Root;
    TxsGrow(env, dep, l, l.height + 1, b.txs);
  }

  lemma SpanSplit(env: Env, dep: Deployment, hs: Hashing, c: Blocks, from: nat, k: nat)
    requires Started(c) && from < k <= Tip(c)
    ensures ReplayAll(env, dep, Span(hs, c, from, k))
         == ReplayBlock(env, dep, ReplayAll(env, dep, Span(hs, c, from, k - 1)), BlockAt(hs, c, k))
  {
    hide ReplayBlock, HashAt, BlockAt;
    var s := Span(hs, c, from, k);
    assert s[..|s| - 1] == Span(hs, c, from, k - 1) && s[|s| - 1] == BlockAt(hs, c, k);
  }

  /** Replaying further only adds leaves. */
  lemma {:induction false} SpanGrows(env: Env, dep: Deployment, hs: Hashing, c: Blocks, from: nat, k: nat, n: nat)
    requires Started(c) && from <= k <= n && (from < n ==> n <= Tip(c))
    ensures ReplayAll(env, dep, Span(hs, c, from, k)).leaves <= ReplayAll(env, dep, Span(hs, c, from, n)).leaves
    decreases n
  {
    hide ReplayAll, ReplayBlock, Span, BlockAt;
    if k < n {
      SpanGrows(env, dep, hs, c, from, k, n - 1);
      SpanSplit(env, dep, hs, c, from, n);
      BlockLeaves(env, dep, ReplayAll(env, dep, Span(hs, c, from, n - 1)), BlockAt(hs, c, n));
    }
  }

  lemma RoomForNext(env: Env, dep: Deployment, hs: Hashing, c: Blocks, l: Ledger, tip: nat)
    requires Roomy(env, dep, hs, c, tip) && ReplayOf(env, dep, hs, c, l) && l.height + 1 <= tip
    ensures Started(c) && l.height + 1 <= Tip(c)
    ensures RoomFor(env, dep, l, l.height + 1, WithIds(hs, TxsAt(c, l.height + 1)))
  {
    hide ReplayAll, ReplayBlock, HashAt, Span, Pow2, DepositsFit, ReplayTxs;
    var h, from := l.height + 1, InitialHeight(dep);
    SpanSplit(env, dep, hs, c, from, h);
    BlockLeaves(env, dep, l, BlockAt(hs, c, h));
    SpanGrows(env, dep, hs, c, from, h, tip);
  }

  // ----------------------------------------------------------------- fetching

  lemma BlockKnown(hs: Hashing, c: Blocks, mempool: seq<Tx>, h: nat, i: nat)
    requires Started(c) && h <= Tip(c) && i < |TxsAt(c, h)|
    ensures Knows(hs, c, mempool, hs.txid(TxsAt(c, h)[i]), TxsAt(c, h)[i])
  {
    var t := TxsAt(c, h)[i];
    ConfirmedIff(c, |c.blocks|, t, h);
    assert (t, h) in AllOf(c, mempool);
  }
}
