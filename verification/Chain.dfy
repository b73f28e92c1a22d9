/** The chain replay reads from, on values: blocks of transactions under a hash
    chain, how it changes, and what its hashes commit to. */
module Chain {
  import opened Wrappers
  import opened Bytes
  import opened Carrier
  import opened Replay

  /** Transaction ids and block hashes, as functions of what they commit to. */
  datatype Hashing = Hashing(txid: Tx -> nat, link: (nat, nat, seq<nat>) -> nat, empty: nat -> nat)

  ghost predicate Committing(hs: Hashing) {
    && (forall a, b :: hs.txid(a) == hs.txid(b) ==> a == b)
    && (forall p, h, ids, p', h', ids' :: hs.link(p, h, ids) == hs.link(p', h', ids') ==>
       p == p' && h == h' && ids == ids')
    && (forall a, b :: hs.empty(a) == hs.empty(b) ==> a == b)
    && (forall p, h, ids, k :: hs.link(p, h, ids) != hs.empty(k))
  }

  /** Stored blocks from height base; every height below is an empty block. */
  datatype Blocks = Blocks(base: nat, blocks: seq<seq<Tx>>)

  predicate Started(c: Blocks) {
    c.base >= 1
  }

  function Tip(c: Blocks): nat
    requires Started(c)
  {
    c.base - 1 + |c.blocks|
  }

  function TxsAt(c: Blocks, k: nat): seq<Tx>
    requires Started(c) && k <= Tip(c)
  {
    if k < c.base then [] else c.blocks[k - c.base]
  }

  function Ids(hs: Hashing, txs: seq<Tx>): (ids: seq<nat>)
    ensures |ids| == |txs| && forall i :: 0 <= i < |txs| ==> ids[i] == hs.txid(txs[i])
  {
    seq(|txs|, i requires 0 <= i < |txs| => hs.txid(txs[i]))
  }

  function HashAt(hs: Hashing, c: Blocks, k: nat): nat
    requires Started(c) && k <= Tip(c)
  {
    if k < c.base then hs.empty(k) else hs.link(HashAt(hs, c, k - 1), k, Ids(hs, TxsAt(c, k)))
  }

  function WithIds(hs: Hashing, txs: seq<Tx>): (r: seq<(nat, Tx)>)
    ensures |r| == |txs| && forall i :: 0 <= i < |txs| ==> r[i] == (hs.txid(txs[i]), txs[i])
  {
    seq(|txs|, i requires 0 <= i < |txs| => (hs.txid(txs[i]), txs[i]))
  }

  function BlockAt(hs: Hashing, c: Blocks, k: nat): Block
    requires Started(c) && k <= Tip(c)
  {
    Block(HashAt(hs, c, k), WithIds(hs, TxsAt(c, k)))
  }

  /** The blocks at heights from + 1 to to. */
  function Span(hs: Hashing, c: Blocks, from: nat, to: nat): (r: seq<Block>)
    requires Started(c) && from <= to && (from < to ==> to <= Tip(c))
    ensures |r| == to - from
  {
    if from == to then [] else Span(hs, c, from, to - 1) + [BlockAt(hs, c, to)]
  }

  // ------------------------------------------------------- hashes commit to history

  lemma IdsInjective(hs: Hashing, a: seq<Tx>, b: seq<Tx>)
    requires Committing(hs) && Ids(hs, a) == Ids(hs, b)
    ensures a == b
  {
    forall i | 0 <= i < |a| ensures a[i] == b[i] {
      assert Ids(hs, a)[i] == Ids(hs, b)[i];
    }
  }

  /** Equal hashes at one height mean equal blocks at every height below it. */
  lemma {:induction false} HashCommits(hs: Hashing, a: Blocks, b: Blocks, k: nat, j: nat)
    requires Committing(hs) && Started(a) && Started(b) && j <= k <= Tip(a) && k <= Tip(b)
    requires HashAt(hs, a, k) == HashAt(hs, b, k)
    ensures BlockAt(hs, a, j) == BlockAt(hs, b, j)
  {
    hide Ids, WithIds, HashAt, Committing, TxsAt;
    if k >= a.base && k >= b.base {
      LastBlock(hs, a, b, k);
      if j < k {
        HashCommits(hs, a, b, k - 1, j);
      }
    } else {
      BothEmpty(hs, a, b, k, j);
    }
  }

  lemma LastBlock(hs: Hashing, a: Blocks, b: Blocks, k: nat)
    requires Committing(hs) && Started(a) && Started(b) && a.base <= k <= Tip(a) && b.base <= k <= Tip(b)
    requires HashAt(hs, a, k) == HashAt(hs, b, k)
    ensures HashAt(hs, a, k - 1) == HashAt(hs, b, k - 1) && TxsAt(a, k) == TxsAt(b, k)
  {
    hide Ids, TxsAt, Committing;
    LinkInjective(hs, HashAt(hs, a, k - 1), k, Ids(hs, TxsAt(a, k)), HashAt(hs, b, k - 1), k, Ids(hs, TxsAt(b, k)));
    IdsInjective(hs, TxsAt(a, k), TxsAt(b, k));
  }

  lemma LinkInjective(hs: Hashing, p: nat, h: nat, ids: seq<nat>, p': nat, h': nat, ids': seq<nat>)
    requires Committing(hs) && hs.link(p, h, ids) == hs.link(p', h', ids')
    ensures p == p' && ids == ids'
  {
  }

  lemma BothEmpty(hs: Hashing, a: Blocks, b: Blocks, k: nat, j: nat)
    requires Committing(hs) && Started(a) && Started(b) && j <= k <= Tip(a) && k <= Tip(b)
    requires (k < a.base || k < b.base) && HashAt(hs, a, k) == HashAt(hs, b, k)
    ensures BlockAt(hs, a, j) == BlockAt(hs, b, j)
  {
    hide Ids;
  }

  lemma {:induction false} SpanCommits(hs: Hashing, a: Blocks, b: Blocks, from: nat, to: nat, k: nat)
    requires Committing(hs) && Started(a) && Started(b) && from <= to <= k <= Tip(a) && k <= Tip(b)
    requires HashAt(hs, a, k) == HashAt(hs, b, k)
    ensures Span(hs, a, from, to) == Span(hs, b, from, to)
  {
    hide BlockAt;
    if from < to {
      SpanCommits(hs, a, b, from, to - 1, k);
      HashCommits(hs, a, b, k, to);
    }
  }

  lemma {:induction false} SpanAt(hs: Hashing, c: Blocks, from: nat, to: nat, i: nat)
    requires Started(c) && from <= to <= Tip(c) && i < to - from
    ensures Span(hs, c, from, to)[i] == BlockAt(hs, c, from + 1 + i)
    ensures Span(hs, c, from, to)[..i] == Span(hs, c, from, from + i)
  {
    hide BlockAt;
    if i < to - from - 1 {
      SpanAt(hs, c, from, to - 1, i);
      assert Span(hs, c, from, to)[..i] == Span(hs, c, from, to - 1)[..i];
    } else {
      assert Span(hs, c, from, to)[..i] == Span(hs, c, from, to - 1);
    }
  }

  // ---------------------------------------------------------- changing the chain

  datatype ChainOp = Mine(txs: seq<Tx>) | Replace(height: nat, txs: seq<Tx>)

  /** Replacements name stored blocks. */
  predicate Runs(base: nat, n: nat, ops: seq<ChainOp>)
    decreases |ops|
  {
    ops == [] ||
    match ops[0]
    case Mine(_) => Runs(base, n + 1, ops[1..])
    case Replace(h, _) => base <= h < base + n && Runs(base, n, ops[1..])
  }

  function Do(c: Blocks, op: ChainOp): Blocks
    requires Runs(c.base, |c.blocks|, [op])
  {
    match op
    case Mine(txs) => c.(blocks := c.blocks + [txs])
    case Replace(h, txs) => c.(blocks := c.blocks[h - c.base := txs])
  }

  function DoAll(c: Blocks, ops: seq<ChainOp>): (r: Blocks)
    requires Runs(c.base, |c.blocks|, ops)
    ensures r.base == c.base && |r.blocks| >= |c.blocks|
    decreases |ops|
  {
    if ops == [] then c else DoAll(Do(c, ops[0]), ops[1..])
  }

  lemma {:induction false} RunsMore(base: nat, n: nat, m: nat, ops: seq<ChainOp>)
    requires Runs(base, n, ops) && n <= m
    ensures Runs(base, m, ops)
    decreases |ops|
  {
    if ops != [] {
      match ops[0] {
        case Mine(_) => RunsMore(base, n + 1, m + 1, ops[1..]);
        case Replace(_, _) => RunsMore(base, n, m, ops[1..]);
      }
    }
  }

  /** What a query came back with: an answer, a refusal by the server, or no
      reply at all. */
  datatype Reply<+T> = Got(value: T) | Rpc | Unreachable

  /** Confirmed transactions with their heights, then the mempool at 0. */
  function AllOf(c: Blocks, mempool: seq<Tx>): seq<(Tx, nat)>
    requires Started(c)
  {
    Confirmed(c, |c.blocks|) + At(mempool, 0)
  }

  function Confirmed(c: Blocks, n: nat): seq<(Tx, nat)>
    requires n <= |c.blocks|
  {
    if n == 0 then [] else Confirmed(c, n - 1) + At(c.blocks[n - 1], c.base + n - 1)
  }

  function At(txs: seq<Tx>, h: nat): (r: seq<(Tx, nat)>)
    ensures |r| == |txs| && forall i :: 0 <= i < |txs| ==> r[i] == (txs[i], h)
  {
    seq(|txs|, i requires 0 <= i < |txs| => (txs[i], h))
  }

  lemma {:induction false} ConfirmedIff(c: Blocks, n: nat, t: Tx, h: nat)
    requires n <= |c.blocks|
    ensures (t, h) in Confirmed(c, n) <==> c.base <= h < c.base + n && t in c.blocks[h - c.base]
  {
    if n > 0 {
      ConfirmedIff(c, n - 1, t, h);
      var last := At(c.blocks[n - 1], c.base + n - 1);
      if h == c.base + n - 1 && t in c.blocks[n - 1] {
        var i :| 0 <= i < |c.blocks[n - 1]| && c.blocks[n - 1][i] == t;
        assert last[i] == (t, h);
      }
    }
  }

  /** The transaction with this id, confirmed or pending. */
  ghost predicate Knows(hs: Hashing, c: Blocks, mempool: seq<Tx>, id: nat, t: Tx)
    requires Started(c)
  {
    hs.txid(t) == id && exists h :: (t, h) in AllOf(c, mempool)
  }

  /** A known transaction is the one transaction with its id. */
  lemma SameTx(hs: Hashing, c: Blocks, mempool: seq<Tx>, id: nat, t: Tx, t': Tx)
    requires Committing(hs) && Started(c) && Knows(hs, c, mempool, id, t) && hs.txid(t') == id
    ensures t == t'
  {
  }

  /** Whether t has an output paying spk. */
  predicate Pays(t: Tx, spk: seq<byte>) {
    exists i :: 0 <= i < |t.outputs| && t.outputs[i].script == spk
  }

  /** Whether t spends an output of a known transaction paying spk. */
  ghost predicate SpendsFrom(hs: Hashing, c: Blocks, mempool: seq<Tx>, t: Tx, spk: seq<byte>)
    requires Started(c)
  {
    exists i, p :: 0 <= i < |t.inputs| && SpendsOutput(hs, c, mempool, t.inputs[i], p, spk)
  }

  ghost predicate SpendsOutput(hs: Hashing, c: Blocks, mempool: seq<Tx>, o: OutPoint, p: Tx, spk: seq<byte>)
    requires Started(c)
  {
    Knows(hs, c, mempool, o.txid, p) && o.vout < |p.outputs| && p.outputs[o.vout].script == spk
  }
}
