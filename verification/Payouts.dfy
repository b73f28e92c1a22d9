/** Peg-out requests: which are valid, what pays them, and how the chain says
    that one was paid already. */
module Payouts {
  import opened Bytes
  import opened Wrappers
  import opened Wire
  import opened Carrier
  import opened Replay
  import opened Chain
  import opened MockChain
  import opened Scanning
  import opened Sorting

  // --------------------------------------------------------------- validation

  predicate StandardScript(s: seq<byte>) {
    || (|s| == 22 && s[0] == 0x00 && s[1] == 0x14)
    || (|s| == 34 && s[0] == 0x51 && s[1] == 0x20)
    || (|s| == 23 && s[0] == 0xa9 && s[1] == 0x14 && s[22] == 0x87)
    || (|s| == 25 && s[0] == 0x76 && s[1] == 0xa9 && s[2] == 0x14 && s[23] == 0x88 && s[24] == 0xac)
  }

  /** The first of the three reasons that applies; a request is valid exactly
      when none does. */
  function ValidatePayout(p: Payout, burned: nat): (r: Option<Denial>)
    ensures r.None? <==> DUST <= p.amount <= burned && StandardScript(p.script)
    ensures r == Some(NonStandardPayout) <==> DUST <= p.amount <= burned && !StandardScript(p.script)
    ensures r == Some(PayoutBelowDust(p.amount)) <==> p.amount <= burned && p.amount < DUST
    ensures r == Some(PayoutExceedsBurn(p.amount, burned)) <==> p.amount > burned
    ensures StandardScript(p.script) ==> !IsOpReturn(p.script)
  {
    if p.amount > burned then Some(PayoutExceedsBurn(p.amount, burned))
    else if p.amount < DUST then Some(PayoutBelowDust(p.amount))
    else if !StandardScript(p.script) then Some(NonStandardPayout)
    else None
  }

  // ------------------------------------------------------------------ the payout

  /** A payout transaction for p: it spends vault outputs, pays the requester
      the amount less the fee, and publishes nf. */
  ghost predicate PaysRequest(tx: Tx, p: Payout, nf: seq<byte>, fee: nat) {
    && fee + DUST <= p.amount && |tx.outputs| > 0 && tx.outputs[0] == TxOut(p.amount - fee, p.script)
    && OpReturnPayload(tx) == Carried(nf)
  }

  datatype Plan = Pay(tx: Tx, paid: nat) | Deferred | Denied(why: Denial)

  function CostOf(vsize: Tx -> nat, rate: nat, tx: Tx): nat {
    vsize(tx) * rate
  }

  /** full is the payout that would pay p in full. */
  ghost predicate FullPayout(hs: Hashing, c: Blocks, mempool: seq<Tx>, vault: seq<byte>, vsize: Tx -> nat, rate: nat,
                             p: Payout, nf: seq<byte>, full: Tx, paid: nat)
    requires Started(c)
  {
    Funded(hs, c, mempool, vault, vsize, rate, [TxOut(p.amount, p.script)], nf, full, paid)
  }

  /** tx is the payout of p: made of the vault's coins, with change to the vault,
      it pays p less the fee of the payout that would pay it in full. */
  ghost predicate PayoutMade(hs: Hashing, c: Blocks, mempool: seq<Tx>, vault: seq<byte>, vsize: Tx -> nat, rate: nat,
                             p: Payout, nf: seq<byte>, tx: Tx, paid: nat, fee: nat)
    requires Started(c)
  {
    && (exists full, whole :: FullPayout(hs, c, mempool, vault, vsize, rate, p, nf, full, whole)
                              && fee == CostOf(vsize, rate, full))
    && fee + DUST < U64 && fee + DUST <= p.amount
    && Funded(hs, c, mempool, vault, vsize, rate, [TxOut(p.amount - fee, p.script)], nf, tx, paid)
  }

  ghost predicate Payable(hs: Hashing, c: Blocks, mempool: seq<Tx>, vault: seq<byte>, vsize: Tx -> nat, rate: nat,
                          p: Payout, nf: seq<byte>)
    requires Started(c)
  {
    exists tx, paid, fee :: PayoutMade(hs, c, mempool, vault, vsize, rate, p, nf, tx, paid, fee)
  }

  /** Why a fee leaves nothing to pay. */
  predicate TooDear(amount: nat, fee: nat, why: Denial) {
    if fee + DUST >= U64 then why == FeeOverflow else amount < fee + DUST && why == PayoutBelowFee(amount, fee)
  }

  ghost predicate PricedOut(hs: Hashing, c: Blocks, mempool: seq<Tx>, vault: seq<byte>, vsize: Tx -> nat, rate: nat,
                            p: Payout, nf: seq<byte>, why: Denial)
    requires Started(c)
  {
    exists full, whole :: FullPayout(hs, c, mempool, vault, vsize, rate, p, nf, full, whole)
                          && TooDear(p.amount, CostOf(vsize, rate, full), why)
  }

  /** build_payout: the fee is that of a payout of the full amount, and comes out
      of the request. */
  method BuildPayout(client: MockChain, vsize: Tx -> nat, vault: seq<byte>, p: Payout, nf: seq<byte>, rate: nat)
    returns (r: Plan, ghost fee: nat)
    requires client.Valid() && !IsOpReturn(p.script) && !IsOpReturn(vault) && 1 < |nf| < 0x1_0000_0000
    modifies client`outages
    ensures r.Pay? ==> PaysRequest(r.tx, p, nf, fee)
    ensures r.Pay? ==> SpendsFrom(client.hs, client.View(), client.mempool, r.tx, vault)
    ensures r.Pay? ==>
      PayoutMade(client.hs, client.View(), client.mempool, vault, vsize, rate, p, nf, r.tx, r.paid, fee)
    ensures r.Denied? ==> PricedOut(client.hs, client.View(), client.mempool, vault, vsize, rate, p, nf, r.why)
    ensures old(client.outages) == [] ==> client.outages == []
    ensures old(client.outages) == [] ==>
      (r.Pay? <==> Payable(client.hs, client.View(), client.mempool, vault, vsize, rate, p, nf))
    ensures old(client.outages) == [] ==> forall why ::
      r == Denied(why) <==> PricedOut(client.hs, client.View(), client.mempool, vault, vsize, rate, p, nf, why)
  {
    hide Made, Settles, Balanced, AllOf, OpReturnScript, Listed, SpendsFrom, OpReturnPayload, IsOpReturn, Committing,
      Unspent, Sorted, Descending, PaysRequest;
    fee := 0;
    ghost var hs, c, mempool := client.hs, client.View(), client.mempool;
    var listed := client.ListUnspent(vault);
    if !listed.Got? {
      return Deferred, 0;
    }
    var utxos := SortDescending(listed.value, ValueOf);
    MembersSame(listed.value, utxos);
    var full := BuildCarrier(vsize, utxos, nf, [TxOut(p.amount, p.script)], rate, vault);
    if full.Err? {
      NoFull(hs, c, mempool, vault, vsize, rate, p, nf);
      return Deferred, 0;
    }
    var cost := vsize(full.tx) * rate;
    OneFull(hs, c, mempool, vault, vsize, rate, p, nf, full.tx, full.paid);
    if cost >= U64 || cost + DUST >= U64 {
      return Denied(FeeOverflow), 0;
    }
    if p.amount < cost + DUST {
      return Denied(PayoutBelowFee(p.amount, cost)), 0;
    }
    var built := BuildCarrier(vsize, utxos, nf, [TxOut(p.amount - cost, p.script)], rate, vault);
    if built.Err? {
      NoNet(hs, c, mempool, vault, vsize, rate, p, nf, cost);
      return Deferred, 0;
    }
    fee := cost;
    MadePays(Order(vsize, [TxOut(p.amount - cost, p.script)], OpReturnScript(nf), rate, vault), utxos, built.tx,
      built.paid);
    CarrierShape(utxos, [TxOut(p.amount - cost, p.script)], p, nf, vault, cost, built.tx, built.paid);
    SpendsListed(client.hs, client.View(), client.mempool, vault, utxos, built.tx);
    assert PayoutMade(hs, c, mempool, vault, vsize, rate, p, nf, built.tx, built.paid, cost);
    return Pay(built.tx, built.paid), fee;
  }

  lemma NoFull(hs: Hashing, c: Blocks, mempool: seq<Tx>, vault: seq<byte>, vsize: Tx -> nat, rate: nat, p: Payout,
               nf: seq<byte>)
    requires Started(c)
    requires !Settles(Order(vsize, [TxOut(p.amount, p.script)], OpReturnScript(nf), rate, vault),
                      CoinsOf(hs, c, mempool, vault))
    ensures forall full, whole :: !FullPayout(hs, c, mempool, vault, vsize, rate, p, nf, full, whole)
  {
    hide Made, Settles, CoinsOf, OpReturnScript;
    forall full, whole ensures !FullPayout(hs, c, mempool, vault, vsize, rate, p, nf, full, whole) {
      if FullPayout(hs, c, mempool, vault, vsize, rate, p, nf, full, whole) {
        MadeSettles(Order(vsize, [TxOut(p.amount, p.script)], OpReturnScript(nf), rate, vault),
          CoinsOf(hs, c, mempool, vault), full, whole);
      }
    }
  }

  lemma NoNet(hs: Hashing, c: Blocks, mempool: seq<Tx>, vault: seq<byte>, vsize: Tx -> nat, rate: nat, p: Payout,
              nf: seq<byte>, fee: nat)
    requires Started(c) && fee <= p.amount
    requires !Settles(Order(vsize, [TxOut(p.amount - fee, p.script)], OpReturnScript(nf), rate, vault),
                      CoinsOf(hs, c, mempool, vault))
    ensures forall tx, paid :: !PayoutMade(hs, c, mempool, vault, vsize, rate, p, nf, tx, paid, fee)
  {
    hide Made, Settles, CoinsOf, OpReturnScript, FullPayout;
    forall tx, paid ensures !PayoutMade(hs, c, mempool, vault, vsize, rate, p, nf, tx, paid, fee) {
      if PayoutMade(hs, c, mempool, vault, vsize, rate, p, nf, tx, paid, fee) {
        MadeSettles(Order(vsize, [TxOut(p.amount - fee, p.script)], OpReturnScript(nf), rate, vault),
          CoinsOf(hs, c, mempool, vault), tx, paid);
      }
    }
  }

  lemma OneFull(hs: Hashing, c: Blocks, mempool: seq<Tx>, vault: seq<byte>, vsize: Tx -> nat, rate: nat, p: Payout,
                nf: seq<byte>, full: Tx, whole: nat)
    requires Started(c) && FullPayout(hs, c, mempool, vault, vsize, rate, p, nf, full, whole)
    ensures forall tx, paid :: FullPayout(hs, c, mempool, vault, vsize, rate, p, nf, tx, paid) ==> tx == full
  {
    hide Made, CoinsOf, OpReturnScript;
    forall tx, paid | FullPayout(hs, c, mempool, vault, vsize, rate, p, nf, tx, paid) ensures tx == full {
      MadeOnce(Order(vsize, [TxOut(p.amount, p.script)], OpReturnScript(nf), rate, vault),
        CoinsOf(hs, c, mempool, vault), full, whole, tx, paid);
    }
  }

  lemma CarrierShape(utxos: seq<Utxo>, extra: seq<TxOut>, p: Payout, nf: seq<byte>, vault: seq<byte>, cost: nat, tx: Tx,
                     paid: nat)
    requires cost + DUST <= p.amount && !IsOpReturn(p.script) && !IsOpReturn(vault) && 1 < |nf| < 0x1_0000_0000
    requires extra == [TxOut(p.amount - cost, p.script)]
    requires exists f: nat, n: nat :: Balanced(utxos, extra, OpReturnScript(nf), vault, tx, paid, f, n)
    ensures PaysRequest(tx, p, nf, cost)
    ensures |tx.inputs| > 0 && AmongListed(utxos, tx.inputs)
  {
    hide OpReturnScript, OpReturnPayload, TotalIn;
    var f: nat, n: nat :| Balanced(utxos, extra, OpReturnScript(nf), vault, tx, paid, f, n);
    var first, mid := TxOut(p.amount - cost, p.script), TxOut(0, OpReturnScript(nf));
    var rest := tx.outputs[2..];
    assert tx.outputs == [first] + [mid] + rest;
    CarrierDelivers(tx.inputs, [first], nf, 0, rest);
    InputTaken(utxos, n, tx.outputs, paid);
    forall i | 0 <= i < |tx.inputs| ensures utxos[i].outpoint == tx.inputs[i] {
      assert Outpoints(utxos[..n])[i] == utxos[..n][i].outpoint;
    }
  }

  /** The inputs are the first listed outputs. */
  predicate AmongListed(utxos: seq<Utxo>, inputs: seq<OutPoint>) {
    |inputs| <= |utxos| && forall i :: 0 <= i < |inputs| ==> utxos[i].outpoint == inputs[i]
  }

  lemma InputTaken(utxos: seq<Utxo>, n: nat, outs: seq<TxOut>, paid: nat)
    requires n <= |utxos| && TotalIn(utxos[..n]) == TotalOut(outs) + paid && |outs| > 0 && outs[0].value > 0
    ensures n > 0
  {
    NothingIn(utxos);
  }

  lemma NothingIn(utxos: seq<Utxo>)
    ensures TotalIn(utxos[..0]) == 0
  {
  }

  lemma SpendsListed(hs: Hashing, c: Blocks, mempool: seq<Tx>, vault: seq<byte>, utxos: seq<Utxo>, tx: Tx)
    requires Started(c) && |tx.inputs| > 0 && AmongListed(utxos, tx.inputs)
    requires forall u :: u in utxos ==> Listed(hs, c, mempool, vault, u)
    ensures SpendsFrom(hs, c, mempool, tx, vault)
  {
    hide SpendsOutput, AllOf;
    var u := utxos[0];
    assert u in utxos && Listed(hs, c, mempool, vault, u);
    var p :| SpendsOutput(hs, c, mempool, u.outpoint, p, vault);
    assert SpendsOutput(hs, c, mempool, tx.inputs[0], p, vault);
  }

  // ------------------------------------------------------- what was paid already

  predicate IsCoinbase(tx: Tx) {
    tx.inputs == [OutPoint(0, 0xffff_ffff)]
  }

  /** The chain, or a pending transaction of this wallet, spends the vault under
      payload b. */
  ghost predicate PaidUnder(hs: Hashing, c: Blocks, mempool: seq<Tx>, vault: seq<byte>, own: seq<nat>, b: seq<byte>)
    requires Started(c)
  {
    exists t, h :: (t, h) in AllOf(c, mempool) && PaidBy(hs, c, mempool, vault, own, b, t, h)
  }

  ghost predicate PaidBy(hs: Hashing, c: Blocks, mempool: seq<Tx>, vault: seq<byte>, own: seq<nat>, b: seq<byte>, t: Tx,
                         h: nat)
    requires Started(c)
  {
    && (h > 0 || hs.txid(t) in own) && OpReturnPayload(t) == Carried(b)
    && !IsCoinbase(t) && SpendsFrom(hs, c, mempool, t, vault)
  }

  /** Every transaction tx spends from is known. */
  ghost predicate InputsKnown(hs: Hashing, c: Blocks, mempool: seq<Tx>, tx: Tx)
    requires Started(c)
  {
    forall i :: 0 <= i < |tx.inputs| ==> exists p :: Knows(hs, c, mempool, tx.inputs[i].txid, p)
  }

  /** Only coinbase transactions spend from nowhere. */
  ghost predicate Rooted(hs: Hashing, c: Blocks, mempool: seq<Tx>)
    requires Started(c)
  {
    forall t, h :: (t, h) in AllOf(c, mempool) && !IsCoinbase(t) ==> InputsKnown(hs, c, mempool, t)
  }

  /** Transactions fetched so far, by id. */
  class Cache {
    var fetched: map<nat, Tx>

    ghost predicate Sound(client: MockChain)
      reads this, client`blocks, client`mempool
    {
      client.base >= 1 && forall id :: id in fetched ==>
        Knows(client.hs, client.View(), client.mempool, id, fetched[id])
    }

    constructor (client: MockChain)
      requires client.Valid()
      ensures Sound(client)
    {
      fetched := map[];
    }

    method Fetch(client: MockChain, id: nat) returns (r: Option<Tx>)
      requires client.Valid() && Sound(client)
      modifies this, client`outages
      ensures Sound(client)
      ensures r.Some? ==> Knows(client.hs, client.View(), client.mempool, id, r.value)
      ensures old(client.outages) == [] ==> client.outages == []
      ensures old(client.outages) == [] && r.None? ==>
        forall t :: !Knows(client.hs, client.View(), client.mempool, id, t)
    {
      hide Knows;
      if id in fetched {
        return Some(fetched[id]);
      }
      var tx := client.Transaction(id);
      if !tx.Got? {
        return None;
      }
      fetched := fetched[id := tx.value];
      return Some(tx.value);
    }

    /** Whether tx spends an output paying vault; None when a query fails. */
    method SpendsVault(client: MockChain, tx: Tx, vault: seq<byte>) returns (r: Option<bool>)
      requires client.Valid() && Sound(client)
      modifies this, client`outages
      ensures Sound(client)
      ensures r.Some? ==> (r.value <==>
        !IsCoinbase(tx) && SpendsFrom(client.hs, client.View(), client.mempool, tx, vault))
      ensures old(client.outages) == [] ==> client.outages == []
      ensures old(client.outages) == [] && r.None? ==>
        !IsCoinbase(tx) && !InputsKnown(client.hs, client.View(), client.mempool, tx)
    {
      hide Knows, Committing;
      if IsCoinbase(tx) {
        return Some(false);
      }
      for i := 0 to |tx.inputs|
        modifies this, client`outages
        invariant Sound(client) && (old(client.outages) == [] ==> client.outages == [])
        invariant forall k, p :: 0 <= k < i ==>
          !SpendsOutput(client.hs, client.View(), client.mempool, tx.inputs[k], p, vault)
      {
        var o := tx.inputs[i];
        var p := Fetch(client, o.txid);
        if p.None? {
          return None;
        }
        if o.vout < |p.value.outputs| && p.value.outputs[o.vout].script == vault {
          assert SpendsOutput(client.hs, client.View(), client.mempool, o, p.value, vault);
          return Some(true);
        }
        OnlyCandidate(client.hs, client.View(), client.mempool, o, p, vault);
      }
      return Some(false);
    }
  }

  /** The payloads the vault's own history says were paid; None when a query
      fails. */
  method PaidPayloads(client: MockChain, vault: seq<byte>, own: seq<nat>) returns (r: Option<set<seq<byte>>>)
    requires client.Valid()
    modifies client`outages
    ensures r.Some? ==> forall b :: b in r.value <==> PaidUnder(client.hs, client.View(), client.mempool, vault, own, b)
    ensures old(client.outages) == [] ==> client.outages == []
    ensures old(client.outages) == [] && Rooted(client.hs, client.View(), client.mempool) ==> r.Some?
  {
    hide Knows, Committing, AllOf, SpendsFrom, Touches, OpReturnPayload, IsCoinbase, InputsKnown;
    var cache := new Cache(client);
    var history := client.History(vault);
    if !history.Got? {
      return None;
    }
    var list := history.value;
    var paid: set<seq<byte>> := {};
    ghost var hs, c, mempool := client.hs, client.View(), client.mempool;
    for i := 0 to |list|
      modifies cache, client`outages
      invariant cache.Sound(client) && (old(client.outages) == [] ==> client.outages == [])
      invariant forall b :: b in paid ==> PaidUnder(hs, c, mempool, vault, own, b)
      invariant forall k :: 0 <= k < i ==> Accounted(hs, c, mempool, vault, own, paid, list[k])
    {
      var (txid, height) := list[i];
      assert (txid, height) in list;
      ghost var t :| (t, height) in AllOf(c, mempool) && hs.txid(t) == txid;
      if height <= 0 && txid !in own {
        assert Accounted(hs, c, mempool, vault, own, paid, list[i]);
        continue;
      }
      InAll(hs, c, mempool, t, height);
      var tx := cache.Fetch(client, txid);
      if tx.None? {
        return None;
      }
      SameTx(hs, c, mempool, txid, tx.value, t);
      OnlyOne(hs, c, mempool, vault, own, list[i], t);
      var payload := OpReturnPayload(tx.value);
      if payload.Carried? {
        var spends := cache.SpendsVault(client, tx.value, vault);
        if spends.None? {
          return None;
        }
        if spends.value {
          assert PaidBy(hs, c, mempool, vault, own, payload.bytes, t, height);
          paid := paid + {payload.bytes};
        }
      }
    }
    forall b | PaidUnder(hs, c, mempool, vault, own, b) ensures b in paid {
      var t, h :| (t, h) in AllOf(c, mempool) && PaidBy(hs, c, mempool, vault, own, b, t, h);
      InHistory(hs, c, mempool, t, vault);
      assert (hs.txid(t), h) in list;
      var k :| 0 <= k < |list| && list[k] == (hs.txid(t), h);
    }
    return Some(paid);
  }

  lemma InAll(hs: Hashing, c: Blocks, mempool: seq<Tx>, t: Tx, h: nat)
    requires Started(c) && (t, h) in AllOf(c, mempool)
    ensures Knows(hs, c, mempool, hs.txid(t), t)
  {
  }

  /** Every payload the transaction of a history entry pays under is in paid. */
  ghost predicate Accounted(hs: Hashing, c: Blocks, mempool: seq<Tx>, vault: seq<byte>, own: seq<nat>,
                            paid: set<seq<byte>>, entry: (nat, nat))
    requires Started(c)
  {
    forall b, t :: hs.txid(t) == entry.0 && PaidBy(hs, c, mempool, vault, own, b, t, entry.1) ==> b in paid
  }

  lemma OnlyOne(hs: Hashing, c: Blocks, mempool: seq<Tx>, vault: seq<byte>, own: seq<nat>, entry: (nat, nat), t: Tx)
    requires Committing(hs) && Started(c) && hs.txid(t) == entry.0
    ensures forall b, t' :: hs.txid(t') == entry.0 && PaidBy(hs, c, mempool, vault, own, b, t', entry.1) ==> t' == t
  {
    hide PaidBy;
  }

  lemma InHistory(hs: Hashing, c: Blocks, mempool: seq<Tx>, t: Tx, vault: seq<byte>)
    requires Started(c) && SpendsFrom(hs, c, mempool, t, vault)
    ensures Touches(hs, c, mempool, t, vault)
  {
    hide SpendsFrom;
  }

  /** A payout transaction is found under its nullifier once it has confirmed,
      and before that if its id is among the wallet's own. */
  lemma PayoutRecognised(hs: Hashing, c: Blocks, mempool: seq<Tx>, vault: seq<byte>, own: seq<nat>, tx: Tx, p: Payout,
                         nf: seq<byte>, fee: nat, h: nat)
    requires Started(c) && PaysRequest(tx, p, nf, fee) && !IsCoinbase(tx) && (h > 0 || hs.txid(tx) in own)
    requires SpendsFrom(hs, c, mempool, tx, vault) && (tx, h) in AllOf(c, mempool)
    ensures PaidUnder(hs, c, mempool, vault, own, nf)
  {
    hide SpendsFrom, AllOf, OpReturnPayload;
    assert PaidBy(hs, c, mempool, vault, own, nf, tx, h);
  }

  /** Of all known transactions only tx, and it only as pending, publishes nf. */
  ghost predicate OnlyPending(c: Blocks, mempool: seq<Tx>, nf: seq<byte>, tx: Tx)
    requires Started(c)
  {
    forall t, h :: (t, h) in AllOf(c, mempool) && OpReturnPayload(t) == Carried(nf) ==> t == tx && h == 0
  }

  /** A pending payout is recognised exactly when the wallet file lists its id. */
  lemma PendingIff(hs: Hashing, c: Blocks, mempool: seq<Tx>, vault: seq<byte>, own: seq<nat>, tx: Tx, p: Payout,
                   nf: seq<byte>, fee: nat)
    requires Started(c) && PaysRequest(tx, p, nf, fee) && !IsCoinbase(tx)
    requires SpendsFrom(hs, c, mempool, tx, vault) && (tx, 0) in AllOf(c, mempool) && OnlyPending(c, mempool, nf, tx)
    ensures PaidUnder(hs, c, mempool, vault, own, nf) <==> hs.txid(tx) in own
  {
    hide SpendsFrom, AllOf, OpReturnPayload;
    if hs.txid(tx) in own {
      PayoutRecognised(hs, c, mempool, vault, own, tx, p, nf, fee, 0);
    }
    if PaidUnder(hs, c, mempool, vault, own, nf) {
      var t, h :| (t, h) in AllOf(c, mempool) && PaidBy(hs, c, mempool, vault, own, nf, t, h);
      assert t == tx && h == 0;
    }
  }
}
