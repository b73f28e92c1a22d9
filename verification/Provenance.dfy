/** Where a state's events come from: what each transaction adds, and to which
    transaction each event belongs. */
module Provenance {
  import opened Bytes
  import opened Wrappers
  import opened Wire
  import Merkle
  import Note
  import opened Replay
  import opened Carrier

  /** The transaction claims nothing: no payload, or one without the magic. */
  predicate Silent(tx: Tx) {
    var p := OpReturnPayload(tx);
    p.NoPayload? || (p.Carried? && !(|p.bytes| >= 6 && MAGIC <= p.bytes))
  }

  /** e records the payload of a transaction of block h; of a mint also what it
      pays the vault. */
  predicate RecordsTx(vault: seq<byte>, e: Event, h: nat, tx: (nat, Tx)) {
    && e.txid == tx.0 && e.height == h && OpReturnPayload(tx.1) == Carried(e.bytes)
    && (e.MintEvent? ==> e.value == VaultValue(vault, tx.1.outputs) > 0)
  }

  /** m is l with one event more, for the transaction. */
  predicate AddsEvent(vault: seq<byte>, l: Ledger, m: Ledger, h: nat, tx: (nat, Tx)) {
    && |m.events| == |l.events| + 1 && m.events[..|l.events|] == l.events
    && RecordsTx(vault, m.events[|l.events|], h, tx) && m.rejections == l.rejections
  }

  /** m is l with one rejection more, for the transaction, and nothing else. */
  predicate AddsRejection(l: Ledger, m: Ledger, h: nat, tx: (nat, Tx)) {
    && |m.rejections| == |l.rejections| + 1 && m == l.(rejections := m.rejections)
    && m.rejections[..|l.rejections|] == l.rejections
    && m.rejections[|l.rejections|].txid == tx.0 && m.rejections[|l.rejections|].height == h
  }

  lemma NoEnvelope(cd: Codec, b: seq<byte>)
    ensures Parse(cd, b).NotEnvelope? <==> !(|b| >= 6 && MAGIC <= b)
  {
    hide ReadEnvelope, ToBytes;
  }

  /** A transaction that claims nothing changes nothing; any other leaves one
      event or one rejection, in its name and its block's. */
  lemma TxOutcome(env: Env, dep: Deployment, l: Ledger, h: nat, tx: (nat, Tx))
    ensures var m := ReplayTx(env, dep, l, h, tx);
      if Silent(tx.1) then m == l else AddsEvent(dep.vault, l, m, h, tx) || AddsRejection(l, m, h, tx)
  {
    hide Parse, OpReturnPayload, Judge, OutputLeaf, Note.MintLeaf, Le, VaultValue;
    var p := OpReturnPayload(tx.1);
    if p.Carried? {
      NoEnvelope(env.cd, p.bytes);
    }
  }

  /** e belongs to transaction k of block i. */
  predicate SourceAt(dep: Deployment, bs: seq<Block>, e: Event, i: nat, k: nat) {
    i < |bs| && k < |bs[i].txs| && RecordsTx(dep.vault, e, InitialHeight(dep) + i + 1, bs[i].txs[k])
  }

  ghost predicate HasSource(dep: Deployment, bs: seq<Block>, e: Event) {
    exists i: nat, k: nat :: SourceAt(dep, bs, e, i, k)
  }

  lemma {:induction false} TxsSources(env: Env, dep: Deployment, l: Ledger, h: nat, txs: seq<(nat, Tx)>, e: Event)
    requires e in ReplayTxs(env, dep, l, h, txs).events
    ensures e in l.events || exists k :: 0 <= k < |txs| && RecordsTx(dep.vault, e, h, txs[k])
    decreases |txs|
  {
    hide ReplayTx, RecordsTx;
    if txs != [] {
      var n := |txs| - 1;
      var past := ReplayTxs(env, dep, l, h, txs[..n]);
      LastSource(env, dep, past, h, txs[n], e);
      if e in past.events {
        TxsSources(env, dep, l, h, txs[..n], e);
      }
    }
  }

  lemma LastSource(env: Env, dep: Deployment, l: Ledger, h: nat, tx: (nat, Tx), e: Event)
    requires e in ReplayTx(env, dep, l, h, tx).events
    ensures e in l.events || RecordsTx(dep.vault, e, h, tx)
  {
    hide ReplayTx, RecordsTx, Silent;
    var m := ReplayTx(env, dep, l, h, tx);
    TxOutcome(env, dep, l, h, tx);
    var i :| 0 <= i < |m.events| && m.events[i] == e;
    if i < |l.events| && m.events[..|l.events|] == l.events {
      assert m.events[..|l.events|][i] == e;
    }
  }

  lemma {:induction false} RunHeight(env: Env, dep: Deployment, bs: seq<Block>)
    ensures ReplayAll(env, dep, bs).height == InitialHeight(dep) + |bs|
    decreases |bs|
  {
    hide ReplayTxs, Merkle.Root;
    if bs != [] {
      RunHeight(env, dep, bs[..|bs| - 1]);
    }
  }

  /** Every event of a reachable state records the payload of a transaction of one
      of its blocks, under that transaction's id and that block's height. */
  lemma {:induction false} EventHasSource(env: Env, dep: Deployment, bs: seq<Block>, e: Event)
    requires e in ReplayAll(env, dep, bs).events
    ensures HasSource(dep, bs, e)
    decreases |bs|
  {
    hide ReplayTxs, Merkle.Root, RecordsTx;
    if bs != [] {
      var n := |bs| - 1;
      var l := ReplayAll(env, dep, bs[..n]);
      RunHeight(env, dep, bs[..n]);
      TxsSources(env, dep, l, l.height + 1, bs[n].txs, e);
      if e in l.events {
        EventHasSource(env, dep, bs[..n], e);
        var i: nat, k: nat :| SourceAt(dep, bs[..n], e, i, k);
        assert SourceAt(dep, bs, e, i, k);
      } else {
        var k :| 0 <= k < |bs[n].txs| && RecordsTx(dep.vault, e, l.height + 1, bs[n].txs[k]);
        assert SourceAt(dep, bs, e, n, k);
      }
    }
  }
}
