/** Deterministic replay of carrier transactions into shielded state: the rules,
    as functions on values. The Indexer module runs them in place. */
module Replay {
  import opened Bytes
  import opened Field
  import opened Wrappers
  import opened Edwards
  import opened Wire
  import opened WireLaws
  import opened Merkle
  import opened Note
  import opened Circuit
  import opened Carrier

  const WINDOW_W: nat := 100
  const K_MIN: nat := 1
  const MAX_REJECTIONS: nat := 1000

  /** Everything replay computes with: curve and hash, point codec, and the
      proof system's verifier. */
  datatype Env = Env(s: Suite, cd: Codec, verify: (PublicInputs, seq<byte>) -> bool)

  datatype Deployment = Deployment(
    mainnet: bool, feeRate: nat, activation: nat, activationHash: Option<nat>,
    vault: seq<byte>, operatorAddress: string)

  datatype Reason =
    | CarrierFault(why: Fault) | ParseError(error: Error)
    | AnchorOutsideWindow(anchor: nat, height: nat) | NoRetainedRoot(anchor: nat)
    | DuplicateNullifier | NullifierSpent(nf: nat) | ProofInvalid | MintUnfunded

  datatype Event =
    | TransferEvent(txid: nat, height: nat, bytes: seq<byte>, positions: seq<nat>)
    | MintEvent(txid: nat, height: nat, bytes: seq<byte>, value: nat, pos: nat)

  datatype Rejection = Rejection(txid: nat, height: nat, reason: Reason)

  datatype Ledger = Ledger(
    height: nat, leaves: seq<nat>, nullifiers: set<nat>,
    roots: map<nat, nat>, leafCounts: map<nat, nat>, blockHashes: map<nat, nat>,
    events: seq<Event>, rejections: seq<Rejection>)

  /** A block as fetched: its hash, and its transactions with their ids. */
  datatype Block = Block(hash: nat, txs: seq<(nat, Tx)>)

  function Below(a: nat, b: nat): nat {
    if a < b then 0 else a - b
  }

  function InitialHeight(dep: Deployment): nat {
    Below(dep.activation, 1)
  }

  function Fresh(env: Env, dep: Deployment): Ledger {
    hide Sub;
    var h := InitialHeight(dep);
    Ledger(h, [], {}, map[h := Root(NodeOf(env.s), [])], map[h := 0], map[], [], [])
  }

  // ------------------------------------------------------------- one envelope

  predicate Arity(t: Transfer) {
    |t.nf| == N_IN && |t.pkEph| == N_OUT && |t.ct| == N_OUT
  }

  lemma ParseArity(cd: Codec, b: seq<byte>)
    requires Parse(cd, b).Accepted? && Parse(cd, b).e.TransferEnvelope?
    ensures Arity(Parse(cd, b).e.t)
  {
    hide ToBytes, ReadMany, Take, CompactSize, ReadPayout, ReadMint;
  }

  function HBody(env: Env, t: Transfer): nat {
    env.s.hash(BODY, HashElems(env.cd.f, CONST_SALT + BodyBytes(env.cd, t)))
  }

  function StmtOf(env: Env, t: Transfer): seq<nat>
    requires Arity(t)
  {
    StmtInputs(HBody(env, t), t.nf[0], t.nf[1], t.pkEph[0], t.pkEph[1], t.ct[0], t.ct[1])
  }

  function StatementDigest(env: Env, t: Transfer): nat
    requires Arity(t)
  {
    env.s.hash(STMT, StmtOf(env, t))
  }

  function OutputLeaf(env: Env, t: Transfer, j: nat): nat
    requires Arity(t) && j < N_OUT
  {
    CtLeaf(env.s, HBody(env, t), j, t.pkEph[j], t.ct[j])
  }

  function PublicOf(env: Env, l: Ledger, t: Transfer): PublicInputs
    requires Arity(t) && t.hAnchor in l.roots
  {
    PublicInputs(l.roots[t.hAnchor], StatementDigest(env, t))
  }

  predicate InWindow(anchor: nat, h: nat) {
    h <= anchor + WINDOW_W && anchor + K_MIN <= h
  }

  /** Why a transfer is refused in block h, in the order the checks are made. */
  function Judge(env: Env, l: Ledger, h: nat, t: Transfer): Option<Reason>
    requires Arity(t)
  {
    if !InWindow(t.hAnchor, h) then Some(AnchorOutsideWindow(t.hAnchor, h))
    else if t.hAnchor !in l.roots then Some(NoRetainedRoot(t.hAnchor))
    else if t.nf[0] == t.nf[1] then Some(DuplicateNullifier)
    else if t.nf[0] in l.nullifiers then Some(NullifierSpent(t.nf[0]))
    else if t.nf[1] in l.nullifiers then Some(NullifierSpent(t.nf[1]))
    else if !env.verify(PublicOf(env, l, t), t.proof) then Some(ProofInvalid)
    else None
  }

  function ApplyTransfer(env: Env, l: Ledger, h: nat, txid: nat, t: Transfer, payload: seq<byte>): Ledger
    requires Arity(t)
  {
    var n := |l.leaves|;
    l.(leaves := l.leaves + [OutputLeaf(env, t, 0)] + [OutputLeaf(env, t, 1)],
       nullifiers := l.nullifiers + {t.nf[0]} + {t.nf[1]},
       events := l.events + [TransferEvent(txid, h, payload, [n, n + 1])])
  }

  function ApplyMint(env: Env, l: Ledger, h: nat, txid: nat, m: Mint, payload: seq<byte>, value: nat): Ledger {
    l.(leaves := l.leaves + [MintLeaf(env.s, value, Le(m.d), m.pkD, m.rSeed)],
       events := l.events + [MintEvent(txid, h, payload, value, |l.leaves|)])
  }

  function VaultValue(vault: seq<byte>, outputs: seq<TxOut>): nat {
    if outputs == [] then 0
    else
      var n := |outputs| - 1;
      VaultValue(vault, outputs[..n]) + if outputs[n].script == vault then outputs[n].value else 0
  }

  /** Outputs that pay others add nothing. */
  lemma {:induction false} VaultNothing(vault: seq<byte>, outputs: seq<TxOut>)
    requires forall o :: o in outputs ==> o.script != vault
    ensures VaultValue(vault, outputs) == 0
    decreases |outputs|
  {
    if outputs != [] {
      VaultNothing(vault, outputs[..|outputs| - 1]);
    }
  }

  /** An output paying the vault adds its value. */
  lemma VaultOne(vault: seq<byte>, value: nat)
    ensures VaultValue(vault, [TxOut(value, vault)]) == value
  {
    assert VaultValue(vault, [TxOut(value, vault)][..0]) == 0;
  }

  lemma {:induction false} VaultConcat(vault: seq<byte>, a: seq<TxOut>, b: seq<TxOut>)
    ensures VaultValue(vault, a + b) == VaultValue(vault, a) + VaultValue(vault, b)
    decreases |b|
  {
    if b == [] {
      assert a + b == a;
    } else {
      var n := |b| - 1;
      assert (a + b)[..|a + b| - 1] == a + b[..n];
      VaultConcat(vault, a, b[..n]);
    }
  }

  // ---------------------------------------------------- transactions and blocks

  /** What one transaction asks of the ledger. */
  datatype Request =
    | Nothing | Refused(reason: Reason)
    | Move(t: Transfer, payload: seq<byte>) | Deposit(m: Mint, payload: seq<byte>, value: nat)

  function RequestOf(cd: Codec, vault: seq<byte>, tx: Tx): (r: Request)
    ensures r.Move? ==> Arity(r.t)
  {
    match OpReturnPayload(tx)
    case NoPayload => Nothing
    case Faulty(why) => Refused(CarrierFault(why))
    case Carried(payload) =>
      match Parse(cd, payload)
      case NotEnvelope => Nothing
      case Rejected(e) => Refused(ParseError(e))
      case Accepted(MintEnvelope(m)) => Deposit(m, payload, VaultValue(vault, tx.outputs))
      case Accepted(TransferEnvelope(t)) =>
        ParseArity(cd, payload);
        Move(t, payload)
  }

  /** The reason to record, if the request is not granted. */
  function Refusal(env: Env, l: Ledger, h: nat, r: Request): Option<Reason>
    requires r.Move? ==> Arity(r.t)
  {
    match r
    case Nothing => None
    case Refused(reason) => Some(reason)
    case Move(t, _) => Judge(env, l, h, t)
    case Deposit(_, _, value) => if value == 0 then Some(MintUnfunded) else None
  }

  function Grant(env: Env, l: Ledger, h: nat, txid: nat, r: Request): Ledger
    requires r.Move? ==> Arity(r.t)
  {
    match r
    case Move(t, payload) => ApplyTransfer(env, l, h, txid, t, payload)
    case Deposit(m, payload, value) => ApplyMint(env, l, h, txid, m, payload, value)
    case _ => l
  }

  function ReplayTx(env: Env, dep: Deployment, l: Ledger, h: nat, tx: (nat, Tx)): Ledger {
    var r := RequestOf(env.cd, dep.vault, tx.1);
    match Refusal(env, l, h, r)
    case None => Grant(env, l, h, tx.0, r)
    case Some(reason) => l.(rejections := l.rejections + [Rejection(tx.0, h, reason)])
  }

  function ReplayTxs(env: Env, dep: Deployment, l: Ledger, h: nat, txs: seq<(nat, Tx)>): Ledger {
    if txs == [] then l
    else
      var n := |txs| - 1;
      ReplayTx(env, dep, ReplayTxs(env, dep, l, h, txs[..n]), h, txs[n])
  }

  function Close(env: Env, l: Ledger, h: nat, hash: nat): Ledger {
    l.(roots := l.roots[h := Root(NodeOf(env.s), l.leaves)],
       leafCounts := l.leafCounts[h := |l.leaves|],
       blockHashes := l.blockHashes[h := hash],
       height := h)
  }

  function KeepFrom(h: nat): nat {
    Below(h, WINDOW_W + 10)
  }

  function Retained(m: map<nat, nat>, from: nat, also: nat): map<nat, nat> {
    map k | k in m && (k >= from || k == also) :: m[k]
  }

  function Recent(m: map<nat, nat>, from: nat): map<nat, nat> {
    map k | k in m && k >= from :: m[k]
  }

  function LastOf<T>(xs: seq<T>, n: nat): seq<T> {
    xs[Below(|xs|, n)..]
  }

  function Prune(dep: Deployment, l: Ledger): Ledger {
    var from := KeepFrom(l.height);
    l.(roots := Retained(l.roots, from, InitialHeight(dep)),
       leafCounts := Retained(l.leafCounts, from, InitialHeight(dep)),
       blockHashes := Recent(l.blockHashes, from),
       rejections := LastOf(l.rejections, MAX_REJECTIONS))
  }

  function ReplayBlock(env: Env, dep: Deployment, l: Ledger, b: Block): Ledger {
    Prune(dep, Close(env, ReplayTxs(env, dep, l, l.height + 1, b.txs), l.height + 1, b.hash))
  }

  /** Replay from activation. */
  function ReplayAll(env: Env, dep: Deployment, bs: seq<Block>): Ledger {
    if bs == [] then Fresh(env, dep)
    else
      var n := |bs| - 1;
      ReplayBlock(env, dep, ReplayAll(env, dep, bs[..n]), bs[n])
  }
}
