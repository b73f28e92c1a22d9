/** The in-memory chain source, in place: a vector of blocks with their hashes,
    a mempool, and answers that may fail or trigger a change of the chain. */
module MockChain {
  import opened Bytes
  import opened Wrappers
  import opened Carrier
  import opened Replay
  import opened Chain
  import opened Sorting

  class MockChain {
    const hs: Hashing
    const base: nat
    var blocks: seq<seq<Tx>>
    var hashes: seq<nat>
    var mempool: seq<Tx>
    /** Runs once, after the next reply to BlockTxids has been computed. */
    var afterTxids: Option<seq<ChainOp>>
    /** The next broadcast reaches the mempool but is answered with an error. */
    var dropNextBroadcastReply: bool
    /** The connection: each query uses one entry, true meaning it is down. */
    var outages: seq<bool>
    /** Every transaction that reached the network through Broadcast. */
    ghost var relayed: seq<Tx>

    ghost predicate Valid()
      reads `blocks, `hashes, `afterTxids
    {
      && Committing(hs) && base >= 1 && HashesUpto(|blocks|) && |hashes| == |blocks|
      && (afterTxids.Some? ==> Runs(base, |blocks|, afterTxids.value))
    }

    ghost predicate HashesUpto(n: nat)
      reads `blocks, `hashes
    {
      && base >= 1 && n <= |hashes| && n <= |blocks|
      && forall i :: 0 <= i < n ==> hashes[i] == HashAt(hs, View(), base + i)
    }

    function View(): (c: Blocks)
      reads `blocks
      ensures base >= 1 ==> Started(c)
    {
      Blocks(base, blocks)
    }

    constructor (hs: Hashing, tip: nat)
      requires Committing(hs)
      ensures Valid() && this.hs == hs && base == tip + 1 && blocks == [] && mempool == [] && relayed == []
      ensures afterTxids.None? && !dropNextBroadcastReply && outages == []
    {
      this.hs := hs;
      base := tip + 1;
      blocks := [];
      hashes := [];
      mempool := [];
      afterTxids := None;
      dropNextBroadcastReply := false;
      outages := [];
      relayed := [];
    }

    // --------------------------------------------------------------- changes

    method Rehash(start: nat)
      requires Committing(hs) && HashesUpto(start)
      modifies `hashes
      ensures HashesUpto(|blocks|) && |hashes| == |blocks|
    {
      hide HashAt, Ids;
      hashes := hashes[..start];
      for i := start to |blocks|
        modifies `hashes
        invariant |hashes| == i && HashesUpto(i)
      {
        var prev := if i == 0 then hs.empty(base - 1) else hashes[i - 1];
        ChainStep(hs, View(), i);
        hashes := hashes + [hs.link(prev, base + i, Ids(hs, blocks[i]))];
      }
    }

    method Mine(txs: seq<Tx>) returns (height: nat)
      requires Valid()
      modifies `blocks, `hashes, `mempool
      ensures Valid() && View() == Do(old(View()), ChainOp.Mine(txs)) && height == Tip(View())
      ensures forall t :: t in mempool <==> t in old(mempool) && hs.txid(t) !in Ids(hs, txs)
    {
      hide HashAt, Ids, Committing;
      var ids := Ids(hs, txs);
      mempool := Without(hs, mempool, ids);
      blocks := blocks + [txs];
      SameBelow(hs, old(View()), View(), |blocks| - 1);
      Rehash(|blocks| - 1);
      if afterTxids.Some? {
        RunsMore(base, |blocks| - 1, |blocks|, afterTxids.value);
      }
      height := base - 1 + |blocks|;
    }

    /** Only stored blocks can be replaced. */
    method Replace(height: nat, txs: seq<Tx>)
      requires Valid() && base <= height < base + |blocks|
      modifies `blocks, `hashes
      ensures Valid() && View() == Do(old(View()), ChainOp.Replace(height, txs))
    {
      hide HashAt, Ids, Committing;
      var i := height - base;
      blocks := blocks[i := txs];
      SameBelow(hs, old(View()), View(), i);
      Rehash(i);
    }

    method Apply(ops: seq<ChainOp>)
      requires Valid() && Runs(base, |blocks|, ops) && afterTxids.None?
      modifies `blocks, `hashes, `mempool
      ensures Valid() && View() == DoAll(old(View()), ops)
      decreases |ops|
    {
      hide HashAt, Ids, Committing, HashesUpto;
      if ops != [] {
        match ops[0] {
          case Mine(txs) => var _ := Mine(txs);
          case Replace(h, txs) => Replace(h, txs);
        }
        Apply(ops[1..]);
      }
    }

    // --------------------------------------------------------------- answers

    method Reached() returns (up: bool)
      modifies `outages
      ensures old(outages) == [] ==> up && outages == []
    {
      if outages == [] {
        return true;
      }
      up := !outages[0];
      outages := outages[1..];
    }

    method TipHeight() returns (r: Reply<nat>)
      requires Valid()
      modifies `outages
      ensures r.Got? ==> r.value == Tip(View())
      ensures r != Rpc && (old(outages) == [] ==> r.Got? && outages == [])
    {
      var up := Reached();
      r := if up then Got(base - 1 + |blocks|) else Unreachable;
    }

    method BlockHash(height: nat) returns (r: Reply<nat>)
      requires Valid()
      modifies `outages
      ensures r.Got? ==> height <= Tip(View()) && r.value == HashAt(hs, View(), height)
      ensures r == Rpc ==> height > Tip(View())
      ensures old(outages) == [] ==> r != Unreachable && outages == []
    {
      var up := Reached();
      if !up {
        return Unreachable;
      }
      if height > base - 1 + |blocks| {
        return Rpc;
      }
      r := if height >= base then Got(hashes[height - base]) else Got(hs.empty(height));
    }

    method BlockTxids(height: nat) returns (r: Reply<seq<nat>>)
      requires Valid()
      modifies `outages, `blocks, `hashes, `mempool, `afterTxids
      ensures Valid()
      ensures r.Got? ==> height <= Tip(old(View())) && r.value == Ids(hs, TxsAt(old(View()), height))
      ensures r.Got? ==> afterTxids == None
      ensures !r.Got? ==> afterTxids == old(afterTxids)
      ensures View() == if r.Got? && old(afterTxids).Some? then DoAll(old(View()), old(afterTxids).value)
                         else old(View())
      ensures r == Rpc ==> height > Tip(View())
      ensures old(outages) == [] ==> r != Unreachable && outages == []
    {
      hide HashAt, Committing, HashesUpto;
      var up := Reached();
      if !up {
        return Unreachable;
      }
      if height > base - 1 + |blocks| {
        return Rpc;
      }
      r := if height >= base then Got(Ids(hs, blocks[height - base])) else Got(Ids(hs, []));
      if afterTxids.Some? {
        var ops := afterTxids.value;
        afterTxids := None;
        Apply(ops);
      }
    }

    method All() returns (all: seq<(Tx, nat)>)
      requires Valid()
      ensures all == AllOf(View(), mempool)
    {
      hide HashAt, Committing, HashesUpto;
      all := [];
      for i := 0 to |blocks|
        invariant all == Confirmed(View(), i)
      {
        all := all + At(blocks[i], base + i);
      }
      all := all + At(mempool, 0);
    }

    method Find(txid: nat) returns (r: Option<Tx>)
      requires Valid()
      ensures r.Some? ==> Knows(hs, View(), mempool, txid, r.value)
      ensures r.None? ==> forall t :: !Knows(hs, View(), mempool, txid, t)
    {
      hide HashAt, Committing, HashesUpto, AllOf;
      var all := All();
      for i := 0 to |all|
        invariant forall k :: 0 <= k < i ==> hs.txid(all[k].0) != txid
      {
        if hs.txid(all[i].0) == txid {
          assert all[i] in all && all[i] == (all[i].0, all[i].1);
          return Some(all[i].0);
        }
      }
      return None;
    }

    method Transaction(txid: nat) returns (r: Reply<Tx>)
      requires Valid()
      modifies `outages
      ensures r.Got? ==> Knows(hs, View(), mempool, txid, r.value)
      ensures r == Rpc ==> forall t :: !Knows(hs, View(), mempool, txid, t)
      ensures old(outages) == [] ==> r != Unreachable && outages == []
    {
      var up := Reached();
      if !up {
        return Unreachable;
      }
      var t := Find(txid);
      r := if t.Some? then Got(t.value) else Rpc;
    }

    /** A transaction either reaches the mempool or not; an error reply does not
        say which. */
    method Broadcast(tx: Tx) returns (r: Reply<nat>)
      requires Valid()
      modifies `outages, `mempool, `relayed, `dropNextBroadcastReply
      ensures (relayed == old(relayed) + [tx] && mempool == old(mempool) + [tx])
           || (relayed == old(relayed) && mempool == old(mempool) && r == Unreachable)
      ensures r.Got? ==> r.value == hs.txid(tx)
      ensures relayed != old(relayed) ==> r != Unreachable && (r.Got? <==> !old(dropNextBroadcastReply))
      ensures old(outages) == [] ==> relayed == old(relayed) + [tx] && outages == []
    {
      var up := Reached();
      if !up {
        return Unreachable;
      }
      mempool := mempool + [tx];
      relayed := relayed + [tx];
      var dropped := dropNextBroadcastReply;
      dropNextBroadcastReply := false;
      r := if dropped then Rpc else Got(hs.txid(tx));
    }

    method Spent(op: OutPoint) returns (spent: bool)
      requires Valid()
      ensures spent <==> Gone(View(), mempool, op)
    {
      hide HashAt, Committing, HashesUpto, AllOf;
      var all := All();
      for i := 0 to |all|
        invariant forall k :: 0 <= k < i ==> op !in all[k].0.inputs
      {
        if op in all[i].0.inputs {
          assert all[i] in all && all[i] == (all[i].0, all[i].1);
          return true;
        }
      }
      return false;
    }

    method ListUnspent(spk: seq<byte>) returns (r: Reply<seq<Utxo>>)
      requires Valid()
      modifies `outages
      ensures r.Got? ==> forall u :: u in r.value <==> Listed(hs, View(), mempool, spk, u)
      ensures r.Got? ==> r.value == Unspent(hs, View(), mempool, spk)
      ensures r != Rpc && (old(outages) == [] ==> r.Got? && outages == [])
    {
      hide HashAt, Committing, HashesUpto, AllOf, Listed, OutputsTo;
      var up := Reached();
      if !up {
        return Unreachable;
      }
      var all := All();
      var out: seq<Utxo> := [];
      for i := 0 to |all|
        invariant old(outages) == [] ==> outages == []
        invariant out == UnspentOf(hs, View(), mempool, spk, all[..i])
        invariant forall u :: u in out ==> Listed(hs, View(), mempool, spk, u)
        invariant forall u: Utxo, k ::
          0 <= k < i && Listed(hs, View(), mempool, spk, u) && u.outpoint.txid == hs.txid(all[k].0) ==> u in out
      {
        assert all[..i + 1][..i] == all[..i];
        out := ListOutputs(spk, all[i].0, all[i].1, out);
      }
      assert all[..|all|] == all;
      forall u: Utxo | Listed(hs, View(), mempool, spk, u) ensures u in out {
        ListedKnown(hs, View(), mempool, spk, u);
        var t, h :| (t, h) in AllOf(View(), mempool) && hs.txid(t) == u.outpoint.txid;
        var k :| 0 <= k < |all| && all[k] == (t, h);
      }
      return Got(out);
    }

    /** Adds the unspent outputs of one known transaction that pay spk. */
    method ListOutputs(spk: seq<byte>, t: Tx, h: nat, before: seq<Utxo>) returns (out: seq<Utxo>)
      requires Valid() && (t, h) in AllOf(View(), mempool)
      requires forall u :: u in before ==> Listed(hs, View(), mempool, spk, u)
      ensures out == before + OutputsTo(hs, View(), mempool, spk, t, |t.outputs|)
      ensures forall u :: u in before ==> u in out
      ensures forall u :: u in out ==> Listed(hs, View(), mempool, spk, u)
      ensures forall u: Utxo :: Listed(hs, View(), mempool, spk, u) && u.outpoint.txid == hs.txid(t) ==> u in out
    {
      hide HashAt, Committing, HashesUpto, AllOf, Listed, Gone;
      out := before;
      for vout := 0 to |t.outputs|
        invariant out == before + OutputsTo(hs, View(), mempool, spk, t, vout)
        invariant forall u :: u in before ==> u in out
        invariant forall u :: u in out ==> Listed(hs, View(), mempool, spk, u)
        invariant forall u: Utxo ::
          Listed(hs, View(), mempool, spk, u) && u.outpoint.txid == hs.txid(t) && u.outpoint.vout < vout ==> u in out
      {
        var u := Utxo(OutPoint(hs.txid(t), vout), t.outputs[vout].value);
        var gone := Spent(u.outpoint);
        ListedIff(hs, View(), mempool, spk, t, h, vout);
        if t.outputs[vout].script == spk && !gone {
          out := out + [u];
        }
      }
      forall u: Utxo | Listed(hs, View(), mempool, spk, u) && u.outpoint.txid == hs.txid(t)
        ensures u.outpoint.vout < |t.outputs| {
        ListedInRange(hs, View(), mempool, spk, t, h, u);
      }
    }

    /** The ids and heights of the transactions paying spk or spending from it. */
    method History(spk: seq<byte>) returns (r: Reply<seq<(nat, nat)>>)
      requires Valid()
      modifies `outages
      ensures r.Got? ==> forall t, h :: (t, h) in AllOf(View(), mempool) && Touches(hs, View(), mempool, t, spk) ==>
        (hs.txid(t), h) in r.value
      ensures r.Got? ==> forall id, h :: (id, h) in r.value ==>
        exists t :: (t, h) in AllOf(View(), mempool) && hs.txid(t) == id && Touches(hs, View(), mempool, t, spk)
      ensures r != Rpc && (old(outages) == [] ==> r.Got? && outages == [])
    {
      hide HashAt, Committing, HashesUpto, AllOf, Touches;
      var up := Reached();
      if !up {
        return Unreachable;
      }
      var all := All();
      var out: seq<(nat, nat)> := [];
      for i := 0 to |all|
        invariant old(outages) == [] ==> outages == []
        invariant forall k :: 0 <= k < i && Touches(hs, View(), mempool, all[k].0, spk) ==>
          (hs.txid(all[k].0), all[k].1) in out
        invariant forall id, h :: (id, h) in out ==>
          exists t :: (t, h) in all && hs.txid(t) == id && Touches(hs, View(), mempool, t, spk)
      {
        var touches := TouchesScript(all[i].0, spk);
        assert (all[i].0, all[i].1) in all;
        if touches {
          out := out + [(hs.txid(all[i].0), all[i].1)];
        }
      }
      r := Got(out);
    }

    method TouchesScript(t: Tx, spk: seq<byte>) returns (b: bool)
      requires Valid()
      ensures b <==> Touches(hs, View(), mempool, t, spk)
    {
      hide HashAt, HashesUpto, AllOf, Knows;
      for i := 0 to |t.outputs|
        invariant forall k :: 0 <= k < i ==> t.outputs[k].script != spk
      {
        if t.outputs[i].script == spk {
          return true;
        }
      }
      for i := 0 to |t.inputs|
        invariant forall k, p :: 0 <= k < i ==> !SpendsOutput(hs, View(), mempool, t.inputs[k], p, spk)
      {
        var o := t.inputs[i];
        var p := Find(o.txid);
        if p.Some? && o.vout < |p.value.outputs| && p.value.outputs[o.vout].script == spk {
          assert SpendsOutput(hs, View(), mempool, o, p.value, spk);
          return true;
        }
        OnlyCandidate(hs, View(), mempool, o, p, spk);
      }
      return false;
    }
  }

  lemma OnlyCandidate(hs: Hashing, c: Blocks, mempool: seq<Tx>, o: OutPoint, p: Option<Tx>, spk: seq<byte>)
    requires Committing(hs) && Started(c)
    requires p.Some? ==> Knows(hs, c, mempool, o.txid, p.value)
    requires p.None? ==> forall t :: !Knows(hs, c, mempool, o.txid, t)
    requires !(p.Some? && o.vout < |p.value.outputs| && p.value.outputs[o.vout].script == spk)
    ensures forall t :: !SpendsOutput(hs, c, mempool, o, t, spk)
  {
    hide AllOf, Committing;
    forall t ensures !SpendsOutput(hs, c, mempool, o, t, spk) {
      if Knows(hs, c, mempool, o.txid, t) && p.Some? {
        SameTx(hs, c, mempool, o.txid, t, p.value);
      }
    }
  }

  /** An unspent output of a known transaction, paying spk. */
  ghost predicate Listed(hs: Hashing, c: Blocks, mempool: seq<Tx>, spk: seq<byte>, u: Utxo)
    requires Started(c)
  {
    && (exists p :: SpendsOutput(hs, c, mempool, u.outpoint, p, spk) && p.outputs[u.outpoint.vout].value == u.value)
    && !Gone(c, mempool, u.outpoint)
  }

  ghost predicate Gone(c: Blocks, mempool: seq<Tx>, o: OutPoint)
    requires Started(c)
  {
    exists t, h :: (t, h) in AllOf(c, mempool) && o in t.inputs
  }

  /** The unspent ones among the first n outputs of t that pay spk, in order. */
  ghost function OutputsTo(hs: Hashing, c: Blocks, mempool: seq<Tx>, spk: seq<byte>, t: Tx, n: nat): seq<Utxo>
    requires Started(c) && n <= |t.outputs|
  {
    if n == 0 then []
    else
      var o := OutPoint(hs.txid(t), n - 1);
      OutputsTo(hs, c, mempool, spk, t, n - 1) +
        if t.outputs[n - 1].script == spk && !Gone(c, mempool, o) then [Utxo(o, t.outputs[n - 1].value)] else []
  }

  ghost function UnspentOf(hs: Hashing, c: Blocks, mempool: seq<Tx>, spk: seq<byte>, all: seq<(Tx, nat)>): seq<Utxo>
    requires Started(c)
  {
    if all == [] then []
    else
      var n := |all| - 1;
      UnspentOf(hs, c, mempool, spk, all[..n])
        + OutputsTo(hs, c, mempool, spk, all[n].0, |all[n].0.outputs|)
  }

  /** Every known transaction's unspent outputs paying spk, in order. */
  ghost function Unspent(hs: Hashing, c: Blocks, mempool: seq<Tx>, spk: seq<byte>): seq<Utxo>
    requires Started(c)
  {
    UnspentOf(hs, c, mempool, spk, AllOf(c, mempool))
  }

  function ValueOf(u: Utxo): nat {
    u.value
  }

  /** The same, largest first: what a carrier draws on. */
  ghost function CoinsOf(hs: Hashing, c: Blocks, mempool: seq<Tx>, spk: seq<byte>): seq<Utxo>
    requires Started(c)
  {
    Sorted(Unspent(hs, c, mempool, spk), ValueOf)
  }

  /** tx is the carrier of payload build_carrier makes of spk's coins at rate,
      extra outputs first and change back to spk, and pays the fee paid. */
  ghost predicate Funded(hs: Hashing, c: Blocks, mempool: seq<Tx>, spk: seq<byte>, vsize: Tx -> nat, rate: nat,
                         extra: seq<TxOut>, payload: seq<byte>, tx: Tx, paid: nat)
    requires Started(c)
  {
    Made(Order(vsize, extra, OpReturnScript(payload), rate, spk), CoinsOf(hs, c, mempool, spk), tx, paid)
  }

  /** build_carrier can make such a carrier at all. */
  ghost predicate Fundable(hs: Hashing, c: Blocks, mempool: seq<Tx>, spk: seq<byte>, vsize: Tx -> nat, rate: nat,
                           extra: seq<TxOut>, payload: seq<byte>)
    requires Started(c)
  {
    && |payload| < 0x1_0000_0000
    && Settles(Order(vsize, extra, OpReturnScript(payload), rate, spk), CoinsOf(hs, c, mempool, spk))
  }

  /** What listing an output of a known transaction means. */
  lemma ListedIff(hs: Hashing, c: Blocks, mempool: seq<Tx>, spk: seq<byte>, t: Tx, h: nat, vout: nat)
    requires Committing(hs) && Started(c) && (t, h) in AllOf(c, mempool) && vout < |t.outputs|
    ensures forall u: Utxo :: u.outpoint == OutPoint(hs.txid(t), vout) ==>
      (Listed(hs, c, mempool, spk, u) <==>
        u.value == t.outputs[vout].value && t.outputs[vout].script == spk
        && !Gone(c, mempool, u.outpoint))
  {
    hide AllOf, Committing;
    forall u: Utxo | u.outpoint == OutPoint(hs.txid(t), vout)
      ensures forall p :: SpendsOutput(hs, c, mempool, u.outpoint, p, spk) <==> p == t && t.outputs[vout].script == spk
    {
      OutputOf(hs, c, mempool, spk, t, h, u.outpoint);
    }
  }

  lemma OutputOf(hs: Hashing, c: Blocks, mempool: seq<Tx>, spk: seq<byte>, t: Tx, h: nat, o: OutPoint)
    requires Committing(hs) && Started(c) && (t, h) in AllOf(c, mempool) && o.txid == hs.txid(t)
    ensures forall p :: SpendsOutput(hs, c, mempool, o, p, spk) <==>
      p == t && o.vout < |t.outputs| && t.outputs[o.vout].script == spk
  {
    hide AllOf;
  }

  lemma ListedKnown(hs: Hashing, c: Blocks, mempool: seq<Tx>, spk: seq<byte>, u: Utxo)
    requires Started(c) && Listed(hs, c, mempool, spk, u)
    ensures exists t, h :: (t, h) in AllOf(c, mempool) && hs.txid(t) == u.outpoint.txid
  {
    hide AllOf;
  }

  lemma ListedInRange(hs: Hashing, c: Blocks, mempool: seq<Tx>, spk: seq<byte>, t: Tx, h: nat, u: Utxo)
    requires Committing(hs) && Started(c) && (t, h) in AllOf(c, mempool) && u.outpoint.txid == hs.txid(t)
    requires Listed(hs, c, mempool, spk, u)
    ensures u.outpoint.vout < |t.outputs|
  {
    hide AllOf, Committing;
    OutputOf(hs, c, mempool, spk, t, h, u.outpoint);
  }

  ghost predicate Touches(hs: Hashing, c: Blocks, mempool: seq<Tx>, t: Tx, spk: seq<byte>)
    requires Started(c)
  {
    Pays(t, spk) || SpendsFrom(hs, c, mempool, t, spk)
  }

  function Without(hs: Hashing, txs: seq<Tx>, ids: seq<nat>): (r: seq<Tx>)
    ensures forall t :: t in r <==> t in txs && hs.txid(t) !in ids
  {
    if txs == [] then []
    else
      var n := |txs| - 1;
      assert txs == txs[..n] + [txs[n]];
      Without(hs, txs[..n], ids) + if hs.txid(txs[n]) in ids then [] else [txs[n]]
  }

  lemma ChainStep(hs: Hashing, c: Blocks, i: nat)
    requires Started(c) && i < |c.blocks|
    ensures HashAt(hs, c, c.base + i)
         == hs.link(if i == 0 then hs.empty(c.base - 1) else HashAt(hs, c, c.base + i - 1),
                    c.base + i, Ids(hs, c.blocks[i]))
  {
    hide Ids;
  }

  /** The hash at a height depends on no later block. */
  lemma {:induction false} HashBelow(hs: Hashing, a: Blocks, b: Blocks, i: nat)
    requires Started(a) && a.base == b.base && i < |a.blocks| && i < |b.blocks|
    requires forall k :: 0 <= k <= i ==> a.blocks[k] == b.blocks[k]
    ensures HashAt(hs, a, a.base + i) == HashAt(hs, b, a.base + i)
  {
    hide Ids, HashAt;
    ChainStep(hs, a, i);
    ChainStep(hs, b, i);
    if i > 0 {
      HashBelow(hs, a, b, i - 1);
    }
  }

  lemma SameBelow(hs: Hashing, a: Blocks, b: Blocks, n: nat)
    requires Started(a) && a.base == b.base && n <= |a.blocks| && n <= |b.blocks|
    requires forall k :: 0 <= k < n ==> a.blocks[k] == b.blocks[k]
    ensures forall k: nat :: a.base <= k < a.base + n ==> HashAt(hs, a, k) == HashAt(hs, b, k)
  {
    hide HashAt;
    forall k: nat | a.base <= k < a.base + n ensures HashAt(hs, a, k) == HashAt(hs, b, k) {
      HashBelow(hs, a, b, k - a.base);
    }
  }

  /** A transaction can reach the network and still be answered with an error. */
  method RelayedUnanswered(hs: Hashing, tip: nat, tx: Tx) returns (client: MockChain, r: Reply<nat>)
    requires Committing(hs)
    ensures fresh(client) && client.relayed == [tx] && r == Rpc
  {
    client := new MockChain(hs, tip);
    client.dropNextBroadcastReply := true;
    r := client.Broadcast(tx);
  }
}
