/** What the pruned state still knows: after any run it is exactly the full
    history cut to the window, and the cut never changes a decision. */
module Pruning {
  import opened Wrappers
  import opened Wire
  import opened Merkle
  import opened Note
  import opened Circuit
  import opened Replay

  // ------------------------------------------------------- what replay only adds

  ghost predicate Grows(l: Ledger, m: Ledger) {
    && l.leaves <= m.leaves && l.events <= m.events && l.nullifiers <= m.nullifiers
    && l.rejections <= m.rejections
    && l.height == m.height && l.roots == m.roots && l.leafCounts == m.leafCounts && l.blockHashes == m.blockHashes
  }

  lemma TxGrows(env: Env, dep: Deployment, l: Ledger, h: nat, tx: (nat, Carrier.Tx))
    ensures Grows(l, ReplayTx(env, dep, l, h, tx))
  {
    hide RequestOf, Judge, OutputLeaf, MintLeaf;
  }

  lemma {:induction false} TxsGrow(env: Env, dep: Deployment, l: Ledger, h: nat, txs: seq<(nat, Carrier.Tx)>)
    ensures Grows(l, ReplayTxs(env, dep, l, h, txs))
  {
    hide ReplayTx;
    if txs != [] {
      var n := |txs| - 1;
      TxsGrow(env, dep, l, h, txs[..n]);
      TxGrows(env, dep, ReplayTxs(env, dep, l, h, txs[..n]), h, txs[n]);
    }
  }

  // --------------------------------------------------------- the full history

  /** Replay that never forgets. */
  function FullBlock(env: Env, dep: Deployment, l: Ledger, b: Block): Ledger {
    Close(env, ReplayTxs(env, dep, l, l.height + 1, b.txs), l.height + 1, b.hash)
  }

  function FullAll(env: Env, dep: Deployment, bs: seq<Block>): Ledger {
    if bs == [] then Fresh(env, dep)
    else
      var n := |bs| - 1;
      FullBlock(env, dep, FullAll(env, dep, bs[..n]), bs[n])
  }

  /** A retained ledger p beside a full one f while block h is replayed. */
  ghost predicate Alike(p: Ledger, f: Ledger, h: nat) {
    && p.height == f.height && p.leaves == f.leaves && p.nullifiers == f.nullifiers && p.events == f.events
    && (forall k :: k in p.roots ==> k in f.roots && p.roots[k] == f.roots[k])
    && (forall k :: InWindow(k, h) && k in f.roots ==> k in p.roots)
    && Tail(p.rejections, f.rejections)
  }

  /** p ends f, and is all of f or long enough that cutting forgets the rest. */
  ghost predicate Tail(p: seq<Rejection>, f: seq<Rejection>) {
    |p| <= |f| && p == f[|f| - |p|..] && (|p| == |f| || |p| >= MAX_REJECTIONS)
  }

  lemma AlikeJudges(env: Env, p: Ledger, f: Ledger, h: nat, r: Request)
    requires Alike(p, f, h) && (r.Move? ==> Arity(r.t))
    ensures Refusal(env, p, h, r) == Refusal(env, f, h, r)
  {
    hide StatementDigest;
    if r.Move? && InWindow(r.t.hAnchor, h) {
      assert r.t.hAnchor in p.roots <==> r.t.hAnchor in f.roots;
    }
  }

  lemma AlikeTx(env: Env, dep: Deployment, p: Ledger, f: Ledger, h: nat, tx: (nat, Carrier.Tx))
    requires Alike(p, f, h)
    ensures Alike(ReplayTx(env, dep, p, h, tx), ReplayTx(env, dep, f, h, tx), h)
  {
    hide RequestOf, Refusal, Grant, Alike;
    var r := RequestOf(env.cd, dep.vault, tx.1);
    AlikeJudges(env, p, f, h, r);
    match Refusal(env, p, h, r) {
      case None => AlikeGrant(env, p, f, h, tx.0, r);
      case Some(reason) => AlikeReject(p, f, h, Rejection(tx.0, h, reason));
    }
  }

  lemma AlikeGrant(env: Env, p: Ledger, f: Ledger, h: nat, txid: nat, r: Request)
    requires Alike(p, f, h) && (r.Move? ==> Arity(r.t))
    ensures Alike(Grant(env, p, h, txid, r), Grant(env, f, h, txid, r), h)
  {
    hide OutputLeaf, MintLeaf, Tail;
  }

  lemma AlikeReject(p: Ledger, f: Ledger, h: nat, x: Rejection)
    requires Alike(p, f, h)
    ensures Alike(p.(rejections := p.rejections + [x]), f.(rejections := f.rejections + [x]), h)
  {
    TailSnoc(p.rejections, f.rejections, x);
  }

  lemma TailSnoc(p: seq<Rejection>, f: seq<Rejection>, x: Rejection)
    requires Tail(p, f)
    ensures Tail(p + [x], f + [x])
  {
    assert (f + [x])[|f| - |p|..] == f[|f| - |p|..] + [x];
  }

  /** Mid-block, after any transactions, the retained state and the full
      history still agree. */
  lemma {:induction false} AlikeTxs(env: Env, dep: Deployment, p: Ledger, f: Ledger, h: nat,
                                    txs: seq<(nat, Carrier.Tx)>)
    requires Alike(p, f, h)
    ensures Alike(ReplayTxs(env, dep, p, h, txs), ReplayTxs(env, dep, f, h, txs), h)
  {
    hide ReplayTx, Alike;
    if txs != [] {
      var n := |txs| - 1;
      AlikeTxs(env, dep, p, f, h, txs[..n]);
      AlikeTx(env, dep, ReplayTxs(env, dep, p, h, txs[..n]), ReplayTxs(env, dep, f, h, txs[..n]), h, txs[n]);
    }
  }

  lemma PrunedIsAlike(dep: Deployment, f: Ledger)
    ensures Alike(Prune(dep, f), f, f.height + 1)
  {
  }

  lemma CutTail(p: seq<Rejection>, f: seq<Rejection>)
    requires Tail(p, f)
    ensures LastOf(p, MAX_REJECTIONS) == LastOf(f, MAX_REJECTIONS)
  {
  }

  lemma BlockCommutes(env: Env, dep: Deployment, f: Ledger, b: Block)
    ensures ReplayBlock(env, dep, Prune(dep, f), b) == Prune(dep, FullBlock(env, dep, f, b))
  {
    hide ReplayTxs, Close, Prune;
    var h := f.height + 1;
    var p := Prune(dep, f);
    PrunedIsAlike(dep, f);
    AlikeTxs(env, dep, p, f, h, b.txs);
    TxsGrow(env, dep, p, h, b.txs);
    TxsGrow(env, dep, f, h, b.txs);
    CloseCommutes(env, dep, f, p, ReplayTxs(env, dep, f, h, b.txs), ReplayTxs(env, dep, p, h, b.txs), b.hash);
  }

  /** f after some transactions and its pruned self p after the same ones close
      and prune alike. */
  lemma CloseCommutes(env: Env, dep: Deployment, f: Ledger, p: Ledger, f': Ledger, p': Ledger, hash: nat)
    requires p == Prune(dep, f) && Alike(p', f', f.height + 1) && Grows(f, f') && Grows(p, p')
    ensures Prune(dep, Close(env, p', f.height + 1, hash)) == Prune(dep, Close(env, f', f.height + 1, hash))
  {
    hide Root, Retained, Recent, LastOf;
    var h := f.height + 1;
    CutTail(p'.rejections, f'.rejections);
    RetainTwice(f.roots, h, Root(NodeOf(env.s), f'.leaves), KeepFrom(f.height), KeepFrom(h), InitialHeight(dep));
    RetainTwice(f.leafCounts, h, |f'.leaves|, KeepFrom(f.height), KeepFrom(h), InitialHeight(dep));
    RecentTwice(f.blockHashes, h, hash, KeepFrom(f.height), KeepFrom(h));
  }

  lemma RetainTwice(m: map<nat, nat>, k: nat, v: nat, from: nat, to: nat, also: nat)
    requires from <= to
    ensures Retained(Retained(m, from, also)[k := v], to, also) == Retained(m[k := v], to, also)
  {
  }

  lemma RecentTwice(m: map<nat, nat>, k: nat, v: nat, from: nat, to: nat)
    requires from <= to
    ensures Recent(Recent(m, from)[k := v], to) == Recent(m[k := v], to)
  {
  }

  /** Pruning after every block is pruning the full history once. */
  lemma {:induction false} PruningInvisible(env: Env, dep: Deployment, bs: seq<Block>)
    ensures ReplayAll(env, dep, bs) == Prune(dep, FullAll(env, dep, bs))
  {
    hide ReplayBlock, FullBlock;
    if bs == [] {
      FreshPruned(env, dep);
    } else {
      var n := |bs| - 1;
      PruningInvisible(env, dep, bs[..n]);
      BlockCommutes(env, dep, FullAll(env, dep, bs[..n]), bs[n]);
    }
  }

  lemma FreshPruned(env: Env, dep: Deployment)
    ensures Prune(dep, Fresh(env, dep)) == Fresh(env, dep)
  {
    hide Root;
  }

  /** No accept or reject decision of the next block, whatever precedes it in
      the block, depends on what was pruned. */
  lemma DecisionsUnchanged(env: Env, dep: Deployment, bs: seq<Block>, before: seq<(nat, Carrier.Tx)>, r: Request)
    requires r.Move? ==> Arity(r.t)
    ensures var h := InitialHeight(dep) + |bs| + 1;
      Refusal(env, ReplayTxs(env, dep, ReplayAll(env, dep, bs), h, before), h, r)
      == Refusal(env, ReplayTxs(env, dep, FullAll(env, dep, bs), h, before), h, r)
  {
    hide Refusal, Alike, Prune, ReplayTxs, FullAll, ReplayAll, RequestOf;
    var h := InitialHeight(dep) + |bs| + 1;
    PruningInvisible(env, dep, bs);
    var f := FullAll(env, dep, bs);
    PrunedIsAlike(dep, f);
    Heights(env, dep, bs);
    AlikeTxs(env, dep, Prune(dep, f), f, h, before);
    AlikeJudges(env, ReplayTxs(env, dep, Prune(dep, f), h, before), ReplayTxs(env, dep, f, h, before), h, r);
  }

  lemma {:induction false} Heights(env: Env, dep: Deployment, bs: seq<Block>)
    ensures FullAll(env, dep, bs).height == ReplayAll(env, dep, bs).height == InitialHeight(dep) + |bs|
  {
    hide ReplayTxs, Root;
    if bs != [] {
      Heights(env, dep, bs[..|bs| - 1]);
    }
  }

  // ------------------------------------------------------ exactly what is kept

  /** The blocks at heights up to k. */
  function Upto(dep: Deployment, bs: seq<Block>, k: nat): seq<Block>
    requires InitialHeight(dep) <= k <= InitialHeight(dep) + |bs|
  {
    bs[..k - InitialHeight(dep)]
  }

  predicate Kept(dep: Deployment, height: nat, k: nat) {
    InitialHeight(dep) <= k <= height && (k + WINDOW_W + 10 >= height || k == InitialHeight(dep))
  }

  /** Every height from activation - 1 has its root and count in the full
      history, and they are those of replay up to that height. */
  ghost predicate FullRecord(env: Env, dep: Deployment, bs: seq<Block>, f: Ledger) {
    && f.height == InitialHeight(dep) + |bs|
    && (forall k :: k in f.roots <==> InitialHeight(dep) <= k <= f.height)
    && (forall k :: k in f.leafCounts <==> InitialHeight(dep) <= k <= f.height)
    && (forall k :: k in f.blockHashes <==> InitialHeight(dep) < k <= f.height)
    && (forall k: nat :: InitialHeight(dep) <= k <= f.height ==> Recorded(env, dep, bs, f, k))
    && (forall k :: k in f.blockHashes ==> f.blockHashes[k] == bs[k - InitialHeight(dep) - 1].hash)
  }

  ghost predicate Recorded(env: Env, dep: Deployment, bs: seq<Block>, f: Ledger, k: nat)
    requires InitialHeight(dep) <= k <= InitialHeight(dep) + |bs| && k in f.roots && k in f.leafCounts
  {
    var past := FullAll(env, dep, Upto(dep, bs, k)).leaves;
    past <= f.leaves && f.leafCounts[k] == |past| && f.roots[k] == Root(NodeOf(env.s), past)
  }

  lemma RecordStep(env: Env, dep: Deployment, bs: seq<Block>, g: Ledger, f: Ledger)
    requires bs != [] && g == FullAll(env, dep, bs[..|bs| - 1]) && FullRecord(env, dep, bs[..|bs| - 1], g)
    requires f == FullAll(env, dep, bs) && f == FullBlock(env, dep, g, bs[|bs| - 1])
    ensures FullRecord(env, dep, bs, f)
  {
    hide ReplayTxs, Root, FullAll, Recorded;
    var n := |bs| - 1;
    TxsGrow(env, dep, g, g.height + 1, bs[n].txs);
    forall k: nat | InitialHeight(dep) <= k <= f.height ensures Recorded(env, dep, bs, f, k) {
      RecordedStep(env, dep, bs, g, f, k);
    }
  }

  lemma RecordedStep(env: Env, dep: Deployment, bs: seq<Block>, g: Ledger, f: Ledger, k: nat)
    requires bs != [] && g == FullAll(env, dep, bs[..|bs| - 1]) && FullRecord(env, dep, bs[..|bs| - 1], g)
    requires f == FullAll(env, dep, bs) && f == FullBlock(env, dep, g, bs[|bs| - 1])
    requires InitialHeight(dep) <= k <= InitialHeight(dep) + |bs|
    ensures k in f.roots && k in f.leafCounts && Recorded(env, dep, bs, f, k)
  {
    hide ReplayTxs, Root, FullAll;
    var n := |bs| - 1;
    TxsGrow(env, dep, g, g.height + 1, bs[n].txs);
    if k <= g.height {
      assert Recorded(env, dep, bs[..n], g, k);
      assert Upto(dep, bs[..n], k) == Upto(dep, bs, k);
    } else {
      assert Upto(dep, bs, k) == bs;
    }
  }

  lemma {:induction false} FullRecords(env: Env, dep: Deployment, bs: seq<Block>)
    ensures FullRecord(env, dep, bs, FullAll(env, dep, bs))
  {
    hide FullBlock, Root, FullRecord;
    if bs == [] {
      FreshRecord(env, dep);
    } else {
      var n := |bs| - 1;
      FullRecords(env, dep, bs[..n]);
      RecordStep(env, dep, bs, FullAll(env, dep, bs[..n]), FullAll(env, dep, bs));
    }
  }

  lemma FreshRecord(env: Env, dep: Deployment)
    ensures FullRecord(env, dep, [], FullAll(env, dep, []))
  {
    hide Root;
    assert Upto(dep, [], InitialHeight(dep)) == [];
  }

  /** The retained maps, entry by entry: which heights are kept, and that each
      kept root is the root of the first leafCounts[k] leaves, as they stood
      after block k. */
  lemma RetainedMaps(env: Env, dep: Deployment, bs: seq<Block>)
    ensures var l := ReplayAll(env, dep, bs);
      && l.height == InitialHeight(dep) + |bs|
      && (forall k: nat :: k in l.roots <==> Kept(dep, l.height, k))
      && (forall k: nat :: k in l.leafCounts <==> Kept(dep, l.height, k))
      && (forall k: nat :: k in l.blockHashes <==>
         Kept(dep, l.height, k) && k > InitialHeight(dep) && k + WINDOW_W + 10 >= l.height)
      && (forall k :: k in l.blockHashes ==> l.blockHashes[k] == bs[k - InitialHeight(dep) - 1].hash)
    ensures forall k: nat :: k in ReplayAll(env, dep, bs).roots ==> RootOfPrefix(env, dep, bs, k)
  {
    hide FullAll, Root, ReplayBlock, ReplayAll, Recorded, RootOfPrefix;
    PruningInvisible(env, dep, bs);
    FullRecords(env, dep, bs);
    forall k: nat | k in ReplayAll(env, dep, bs).roots ensures RootOfPrefix(env, dep, bs, k) {
      KeptRoot(env, dep, bs, k);
    }
  }

  lemma Unfold(env: Env, dep: Deployment, bs: seq<Block>, k: nat)
    requires FullRecord(env, dep, bs, FullAll(env, dep, bs)) && InitialHeight(dep) <= k <= InitialHeight(dep) + |bs|
    ensures var f := FullAll(env, dep, bs);
      var past := FullAll(env, dep, Upto(dep, bs, k)).leaves;
      k in f.roots && k in f.leafCounts
      && past <= f.leaves && f.leafCounts[k] == |past| && f.roots[k] == Root(NodeOf(env.s), past)
  {
    hide FullAll, Root;
    assert Recorded(env, dep, bs, FullAll(env, dep, bs), k);
  }

  lemma KeptRoot(env: Env, dep: Deployment, bs: seq<Block>, k: nat)
    requires FullRecord(env, dep, bs, FullAll(env, dep, bs))
    requires ReplayAll(env, dep, bs) == Prune(dep, FullAll(env, dep, bs)) && k in ReplayAll(env, dep, bs).roots
    ensures RootOfPrefix(env, dep, bs, k)
  {
    hide FullAll, Root, ReplayBlock, ReplayAll, Recorded;
    Unfold(env, dep, bs, k);
    PruningInvisible(env, dep, Upto(dep, bs, k));
  }

  ghost predicate RootOfPrefix(env: Env, dep: Deployment, bs: seq<Block>, k: nat) {
    var l := ReplayAll(env, dep, bs);
    && InitialHeight(dep) <= k <= InitialHeight(dep) + |bs|
    && k in l.roots && k in l.leafCounts && l.leafCounts[k] <= |l.leaves|
    && l.leaves[..l.leafCounts[k]] == ReplayAll(env, dep, Upto(dep, bs, k)).leaves
    && l.roots[k] == Root(NodeOf(env.s), l.leaves[..l.leafCounts[k]])
  }
}
