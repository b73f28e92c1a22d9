/** Peg-ins: a carrier that pays the vault and publishes a mint note to the
    wallet's own address is granted by replay and found by the next scan. */
module Minting {
  import opened Bytes
  import opened Wrappers
  import opened Wire
  import opened Note
  import opened Replay
  import opened EventLog
  import opened Scanning
  import opened Resume
  import opened Completeness
  import Acceptance
  import Carrier
  import Honesty
  import PointCodec
  import Pruning

  /** tx publishes m and pays the vault amount. */
  ghost predicate Mints(cd: Codec, vault: seq<byte>, m: Mint, amount: nat, tx: Carrier.Tx) {
    && Carrier.OpReturnPayload(tx) == Carrier.Carried(ToBytes(cd, MintEnvelope(m)))
    && VaultValue(vault, tx.outputs) == amount
  }

  /** A balanced carrier that pays the vault first, and its change elsewhere, pays
      the vault exactly that. */
  lemma PaysOnce(us: seq<Carrier.Utxo>, vault: seq<byte>, amount: nat, payload: seq<byte>, change: seq<byte>,
                 tx: Carrier.Tx, paid: nat)
    requires vault != change && !Carrier.IsOpReturn(vault)
    requires exists fee: nat, n: nat :: Carrier.Balanced(us, [Carrier.TxOut(amount, vault)],
      Carrier.OpReturnScript(payload), change, tx, paid, fee, n)
    ensures VaultValue(vault, tx.outputs) == amount
  {
    hide VaultValue, Carrier.TotalIn, Carrier.TotalOut, Carrier.Shortest, Carrier.Outpoints;
    var first := [Carrier.TxOut(amount, vault)];
    assert tx.outputs == first + tx.outputs[1..];
    assert tx.outputs[1].script == Carrier.OpReturnScript(payload);
    forall o | o in tx.outputs[1..] ensures o.script != vault {
    }
    VaultConcat(vault, first, tx.outputs[1..]);
    VaultOne(vault, amount);
    VaultNothing(vault, tx.outputs[1..]);
  }

  /** The note of a mint to the wallet's own address. */
  function OwnMint(keys: Keys, rSeed: nat): Mint {
    Mint(keys.own.d, keys.own.pkD, rSeed)
  }

  /** The wallet's address is well formed and the key of its viewing key. */
  ghost predicate OwnAddress(w: Who) {
    && Honesty.AddressOk(w.env.s, w.keys.own)
    && AddressKey(w.env.s, ViewOf(w.env.s, w.keys.sk), Le(w.keys.own.d)) == Some(w.keys.own.pkD)
  }

  lemma OwnWellFormed(w: Who, rSeed: nat)
    requires Acceptance.FullCodec(w.env) && OwnAddress(w) && rSeed < w.env.s.c.f.p
    ensures WellFormed(w.env.cd, MintEnvelope(OwnMint(w.keys, rSeed)))
  {
    hide AddressKey, PointCodec.InSubgroup, Encodable, Pow256, Le;
  }

  /** Replay grants such a carrier wherever it appears, for all it pays. */
  lemma MintGranted(w: Who, dep: Deployment, l: Ledger, h: nat, txid: nat, tx: Carrier.Tx, rSeed: nat, amount: nat)
    requires ValidWho(w) && Acceptance.FullCodec(w.env) && OwnAddress(w) && rSeed < w.env.s.c.f.p && amount > 0
    requires Mints(w.env.cd, dep.vault, OwnMint(w.keys, rSeed), amount, tx)
    ensures var m := OwnMint(w.keys, rSeed);
      && RequestOf(w.env.cd, dep.vault, tx) == Deposit(m, ToBytes(w.env.cd, MintEnvelope(m)), amount)
      && ReplayTx(w.env, dep, l, h, (txid, tx))
         == ApplyMint(w.env, l, h, txid, m, ToBytes(w.env.cd, MintEnvelope(m)), amount)
  {
    hide Carrier.OpReturnPayload, VaultValue, Parse, ToBytes, WellFormed, SoundCodec, ValidSuite, OwnAddress,
      Acceptance.FullCodec, MintLeaf, Le, RequestOf;
    var m := OwnMint(w.keys, rSeed);
    OwnWellFormed(w, rSeed);
    DepositIff(w.env.cd, dep.vault, tx, ToBytes(w.env.cd, MintEnvelope(m)), m, amount);
  }

  lemma {:induction false} LaterTxs(env: Env, dep: Deployment, l: Ledger, h: nat, txs: seq<(nat, Carrier.Tx)>, i: nat)
    requires i <= |txs|
    ensures ReplayTxs(env, dep, l, h, txs[..i]).events <= ReplayTxs(env, dep, l, h, txs).events
    decreases |txs|
  {
    hide ReplayTx;
    if i == |txs| {
      assert txs[..i] == txs;
    } else {
      var n := |txs| - 1;
      LaterTxs(env, dep, l, h, txs[..n], i);
      assert txs[..n][..i] == txs[..i];
      Pruning.TxGrows(env, dep, ReplayTxs(env, dep, l, h, txs[..n]), h, txs[n]);
    }
  }

  lemma {:induction false} FoundAmong(w: Who, events: seq<Event>, j: nat, n: OwnedNote)
    requires j < |events| && n in FoundBy(w, events[j])
    ensures n in FoundIn(w, events)
    decreases |events|
  {
    hide FoundBy;
    var k := |events| - 1;
    if j < k {
      FoundAmong(w, events[..k], j, n);
    }
  }

  /** The event of transaction i of block b. */
  lemma MintEventOf(w: Who, dep: Deployment, bs: seq<Block>, b: Block, i: nat, rSeed: nat, amount: nat) returns (j: nat)
    requires ValidWho(w) && Acceptance.FullCodec(w.env) && OwnAddress(w) && rSeed < w.env.s.c.f.p && amount > 0
    requires i < |b.txs| && Mints(w.env.cd, dep.vault, OwnMint(w.keys, rSeed), amount, b.txs[i].1)
    ensures var events := ReplayAll(w.env, dep, bs + [b]).events;
      && j < |events| && events[j].MintEvent? && events[j].txid == b.txs[i].0
      && events[j].bytes == ToBytes(w.env.cd, MintEnvelope(OwnMint(w.keys, rSeed)))
      && events[j].value == amount
  {
    hide *;
    var l := ReplayAll(w.env, dep, bs);
    var h, txs := l.height + 1, b.txs;
    var m := ReplayTxs(w.env, dep, l, h, txs[..i]);
    var n := ReplayTxs(w.env, dep, l, h, txs[..i + 1]);
    MintGranted(w, dep, m, h, txs[i].0, txs[i].1, rSeed, amount);
    assert txs[i] == (txs[i].0, txs[i].1);
    TxsSnoc(w.env, dep, l, h, txs, i);
    MintEventAdded(w.env, m, h, txs[i].0, OwnMint(w.keys, rSeed),
      ToBytes(w.env.cd, MintEnvelope(OwnMint(w.keys, rSeed))), amount);
    LaterTxs(w.env, dep, l, h, txs, i + 1);
    ReplaySnoc(w.env, dep, bs, b);
    BlockEvents(w.env, dep, l, b);
    j := |m.events|;
  }

  lemma TxsSnoc(env: Env, dep: Deployment, l: Ledger, h: nat, txs: seq<(nat, Carrier.Tx)>, i: nat)
    requires i < |txs|
    ensures ReplayTxs(env, dep, l, h, txs[..i + 1])
      == ReplayTx(env, dep, ReplayTxs(env, dep, l, h, txs[..i]), h, txs[i])
  {
    hide ReplayTx;
    assert txs[..i + 1][..i] == txs[..i];
  }

  lemma MintEventAdded(env: Env, l: Ledger, h: nat, txid: nat, m: Mint, payload: seq<byte>, value: nat)
    ensures ApplyMint(env, l, h, txid, m, payload, value).events
         == l.events + [MintEvent(txid, h, payload, value, |l.leaves|)]
  {
    hide MintLeaf, Le;
  }

  /** Once its block is replayed, every wallet that has scanned the state holds
      the minted note, for exactly what the carrier paid the vault. */
  lemma MintIsRecorded(w: Who, dep: Deployment, bs: seq<Block>, b: Block, i: nat, rSeed: nat, amount: nat,
                       f: WalletFile) returns (k: nat)
    requires ValidWho(w) && Acceptance.FullCodec(w.env) && OwnAddress(w) && rSeed < w.env.s.c.f.p && amount > 0
    requires i < |b.txs| && Mints(w.env.cd, dep.vault, OwnMint(w.keys, rSeed), amount, b.txs[i].1)
    requires DistinctTxids(ReplayAll(w.env, dep, bs + [b]).events)
    requires Tracks(w, f, ReplayAll(w.env, dep, bs + [b]).events)
    ensures k < |f.notes| && f.notes[k].v == amount
    ensures Bare(f.notes[k]) == MintNote(OwnMint(w.keys, rSeed), b.txs[i].0, amount, f.notes[k].pos)
  {
    hide *;
    var events := ReplayAll(w.env, dep, bs + [b]).events;
    var m, tx := OwnMint(w.keys, rSeed), b.txs[i].1;
    var j := MintEventOf(w, dep, bs, b, i, rSeed, amount);
    MintGranted(w, dep, ReplayAll(w.env, dep, bs), 0, b.txs[i].0, tx, rSeed, amount);
    OwnKey(w, rSeed);
    MintFound(w, dep, tx, m, ToBytes(w.env.cd, MintEnvelope(m)), amount, events[j]);
    FoundAmong(w, events, j, MintNote(m, b.txs[i].0, amount, events[j].pos));
    NothingMissed(w, dep, bs + [b]);
    k := HeldNote(w, f, events, MintNote(m, b.txs[i].0, amount, events[j].pos));
    MintNoteParts(m, b.txs[i].0, amount, events[j].pos, f.notes[k]);
  }

  lemma OwnKey(w: Who, rSeed: nat)
    requires OwnAddress(w)
    ensures var m := OwnMint(w.keys, rSeed); AddressKey(w.env.s, ViewOf(w.env.s, w.keys.sk), Le(m.d)) == Some(m.pkD)
  {
    hide AddressKey, Le;
  }

  lemma HeldNote(w: Who, f: WalletFile, events: seq<Event>, n: OwnedNote) returns (k: nat)
    requires Tracks(w, f, events) && n in SeeAll(w, NOTHING, events).notes
    ensures k < |f.notes| && Bare(f.notes[k]) == Bare(n)
  {
    hide SeeAll, NfsOf, OwnNf, Bare;
    var base := SeeAll(w, NOTHING, events);
    k :| 0 <= k < |base.notes| && base.notes[k] == n;
    assert TracksNote(w, f.notes[k], base.notes[k], NfsOf(w.env, events));
  }

  lemma MintNoteParts(m: Mint, txid: nat, value: nat, pos: nat, n: OwnedNote)
    requires Bare(n) == Bare(MintNote(m, txid, value, pos))
    ensures n.v == value && n.pos == pos && Bare(n) == MintNote(m, txid, value, pos)
  {
    assert n.v == Bare(n).v && n.pos == Bare(n).pos;
  }
}
