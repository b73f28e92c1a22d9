/** The event log determines the note tree and the nullifier set. */
module EventLog {
  import opened Bytes
  import opened Wrappers
  import opened Wire
  import opened Note
  import opened Circuit
  import opened Replay
  import Carrier
  import WireLaws

  /** The leaves an event appended. */
  function LeavesBy(env: Env, e: Event): seq<nat> {
    match Parse(env.cd, e.bytes)
    case Accepted(TransferEnvelope(t)) =>
      if e.TransferEvent? then
        ParseArity(env.cd, e.bytes);
        [OutputLeaf(env, t, 0)] + [OutputLeaf(env, t, 1)]
      else []
    case Accepted(MintEnvelope(m)) =>
      if e.MintEvent? then [MintLeaf(env.s, e.value, Le(m.d), m.pkD, m.rSeed)] else []
    case _ => []
  }

  /** The nullifiers an event published. */
  function NfsBy(env: Env, e: Event): set<nat> {
    match Parse(env.cd, e.bytes)
    case Accepted(TransferEnvelope(t)) =>
      if e.TransferEvent? then
        ParseArity(env.cd, e.bytes);
        {t.nf[0]} + {t.nf[1]}
      else {}
    case _ => {}
  }

  function LeavesOf(env: Env, events: seq<Event>): seq<nat> {
    if events == [] then [] else LeavesOf(env, events[..|events| - 1]) + LeavesBy(env, events[|events| - 1])
  }

  function NfsOf(env: Env, events: seq<Event>): set<nat> {
    if events == [] then {} else NfsOf(env, events[..|events| - 1]) + NfsBy(env, events[|events| - 1])
  }

  /** e holds the envelope it claims, and the positions its leaves took in a
      tree of n leaves. */
  predicate EventAt(env: Env, n: nat, e: Event) {
    var r := Parse(env.cd, e.bytes);
    r.Accepted? &&
    match e
    case TransferEvent(_, _, _, positions) => r.e.TransferEnvelope? && positions == [n, n + 1]
    case MintEvent(_, _, _, value, pos) => r.e.MintEnvelope? && pos == n && value > 0
  }

  predicate LogOk(env: Env, events: seq<Event>) {
    events == [] ||
    var n := |events| - 1;
    LogOk(env, events[..n]) && EventAt(env, |LeavesOf(env, events[..n])|, events[n])
  }

  ghost predicate Logged(env: Env, l: Ledger) {
    LogOk(env, l.events) && l.leaves == LeavesOf(env, l.events) && l.nullifiers == NfsOf(env, l.events)
  }

  lemma LogStep(env: Env, l: Ledger, m: Ledger, e: Event)
    requires Logged(env, l) && EventAt(env, |l.leaves|, e) && m.events == l.events + [e]
    requires m.leaves == l.leaves + LeavesBy(env, e) && m.nullifiers == l.nullifiers + NfsBy(env, e)
    ensures Logged(env, m)
  {
    hide EventAt, LeavesBy, NfsBy;
    assert m.events[..|l.events|] == l.events;
  }

  /** What RequestOf asks for was carried in the payload. */
  lemma RequestParsed(cd: Codec, vault: seq<byte>, tx: Carrier.Tx)
    ensures var r := RequestOf(cd, vault, tx);
      && (r.Move? ==> Parse(cd, r.payload) == Accepted(TransferEnvelope(r.t)))
      && (r.Deposit? ==> Parse(cd, r.payload) == Accepted(MintEnvelope(r.m)))
  {
    hide Parse, Carrier.OpReturnPayload, VaultValue;
  }

  /** A transaction asks for a transfer exactly when it carries the one encoding
      of a well-formed transfer. */
  lemma MoveIff(cd: Codec, vault: seq<byte>, tx: Carrier.Tx, payload: seq<byte>, t: Transfer)
    requires SoundCodec(cd)
    ensures RequestOf(cd, vault, tx) == Move(t, payload) <==>
      Carrier.OpReturnPayload(tx) == Carrier.Carried(payload)
      && WellFormed(cd, TransferEnvelope(t)) && payload == ToBytes(cd, TransferEnvelope(t))
  {
    hide Parse, ToBytes, WellFormed, SoundCodec, Carrier.OpReturnPayload, VaultValue;
    WireLaws.ParseIff(cd, payload, TransferEnvelope(t));
  }

  /** And for a mint of what it pays the vault exactly when it carries the one
      encoding of a well-formed mint. */
  lemma DepositIff(cd: Codec, vault: seq<byte>, tx: Carrier.Tx, payload: seq<byte>, m: Mint, value: nat)
    requires SoundCodec(cd)
    ensures RequestOf(cd, vault, tx) == Deposit(m, payload, value) <==>
      Carrier.OpReturnPayload(tx) == Carrier.Carried(payload) && value == VaultValue(vault, tx.outputs)
      && WellFormed(cd, MintEnvelope(m)) && payload == ToBytes(cd, MintEnvelope(m))
  {
    hide Parse, ToBytes, WellFormed, SoundCodec, Carrier.OpReturnPayload, VaultValue;
    WireLaws.ParseIff(cd, payload, MintEnvelope(m));
  }

  lemma TxLogged(env: Env, dep: Deployment, l: Ledger, h: nat, tx: (nat, Carrier.Tx))
    requires Logged(env, l)
    ensures Logged(env, ReplayTx(env, dep, l, h, tx))
  {
    hide Parse, RequestOf, Judge, OutputLeaf, MintLeaf, Le, LogOk, LeavesOf, NfsOf;
    var r := RequestOf(env.cd, dep.vault, tx.1);
    RequestParsed(env.cd, dep.vault, tx.1);
    var n := |l.leaves|;
    var m := ReplayTx(env, dep, l, h, tx);
    if Refusal(env, l, h, r).None? {
      match r {
        case Move(t, payload) => LogStep(env, l, m, TransferEvent(tx.0, h, payload, [n, n + 1]));
        case Deposit(_, payload, value) => LogStep(env, l, m, MintEvent(tx.0, h, payload, value, n));
        case _ =>
      }
    }
  }

  lemma {:induction false} TxsLogged(env: Env, dep: Deployment, l: Ledger, h: nat, txs: seq<(nat, Carrier.Tx)>)
    requires Logged(env, l)
    ensures Logged(env, ReplayTxs(env, dep, l, h, txs))
    decreases |txs|
  {
    hide ReplayTx, Logged;
    if txs != [] {
      var n := |txs| - 1;
      TxsLogged(env, dep, l, h, txs[..n]);
      TxLogged(env, dep, ReplayTxs(env, dep, l, h, txs[..n]), h, txs[n]);
    }
  }

  /** Every reachable state's tree and nullifier set are those its event log
      spells out. */
  lemma {:induction false} ReplayLogged(env: Env, dep: Deployment, bs: seq<Block>)
    ensures Logged(env, ReplayAll(env, dep, bs))
    decreases |bs|
  {
    hide ReplayTxs, Merkle.Root, LogOk;
    if bs == [] {
      assert LogOk(env, []) by { EmptyLog(env); }
    } else {
      var n := |bs| - 1;
      ReplayLogged(env, dep, bs[..n]);
      var l := ReplayAll(env, dep, bs[..n]);
      TxsLogged(env, dep, l, l.height + 1, bs[n].txs);
    }
  }

  lemma ReplaySnoc(env: Env, dep: Deployment, bs: seq<Block>, b: Block)
    ensures ReplayAll(env, dep, bs + [b]) == Replay.ReplayBlock(env, dep, ReplayAll(env, dep, bs), b)
  {
    hide Replay.ReplayBlock;
    assert (bs + [b])[..|bs|] == bs;
  }

  /** Closing and pruning leave the log alone. */
  lemma BlockEvents(env: Env, dep: Deployment, l: Ledger, b: Block)
    ensures Replay.ReplayBlock(env, dep, l, b).events == ReplayTxs(env, dep, l, l.height + 1, b.txs).events
  {
    hide ReplayTxs, Merkle.Root, Retained, Recent, LastOf;
  }

  lemma EmptyLog(env: Env)
    ensures LogOk(env, [])
  {
  }

  /** Longer logs only add. */
  lemma {:induction false} LogPrefix(env: Env, events: seq<Event>, k: nat)
    requires k <= |events|
    ensures LeavesOf(env, events[..k]) <= LeavesOf(env, events)
    ensures NfsOf(env, events[..k]) <= NfsOf(env, events)
    ensures LogOk(env, events) ==> LogOk(env, events[..k])
    decreases |events|
  {
    hide LeavesBy, NfsBy, EventAt;
    if k == |events| {
      assert events[..k] == events;
    } else {
      var n := |events| - 1;
      LogPrefix(env, events[..n], k);
      assert events[..n][..k] == events[..k];
    }
  }

  /** In a well-kept log, each event's leaves are where it says. */
  lemma EventLeaves(env: Env, events: seq<Event>, i: nat)
    requires LogOk(env, events) && i < |events|
    ensures EventAt(env, |LeavesOf(env, events[..i])|, events[i])
    ensures LeavesOf(env, events[..i]) + LeavesBy(env, events[i]) <= LeavesOf(env, events)
  {
    hide LeavesBy, EventAt;
    LogPrefix(env, events, i + 1);
    assert events[..i + 1][..i] == events[..i];
  }
}
