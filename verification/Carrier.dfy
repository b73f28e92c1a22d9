/** Carrier transactions: the OP_RETURN payload, and the loop that selects
    inputs and settles the fee. */
module Carrier {
  import opened Bytes
  import opened Wrappers
  import Field
  import Wire

  datatype OutPoint = OutPoint(txid: nat, vout: nat)
  datatype TxOut = TxOut(value: nat, script: seq<byte>)
  datatype Tx = Tx(inputs: seq<OutPoint>, outputs: seq<TxOut>)

  const OP_RETURN: byte := 0x6a

  // ------------------------------------------------------------ instructions

  datatype Instr = End | Push(data: seq<byte>, rest: seq<byte>) | Op(rest: seq<byte>) | Broken

  function TakePush(b: seq<byte>, n: nat, minimal: bool): Instr {
    if n > |b| || !minimal then Broken else Push(b[..n], b[n..])
  }

  /** A one-byte push that an opcode of its own would express. */
  predicate SmallNumber(data: seq<byte>) {
    |data| == 1 && (data[0] == 0x81 || 1 <= data[0] <= 16)
  }

  /** The next script instruction; with strict set, a push that is not in its
      shortest form is an error. */
  function Next(b: seq<byte>, strict: bool): Instr {
    if b == [] then End
    else
      var op, b := b[0], b[1..];
      if op > 0x4e then Op(b)
      else if op < 0x4c then
        if op > |b| || (strict && SmallNumber(b[..op])) then Broken else Push(b[..op], b[op..])
      else
        var w := if op == 0x4c then 1 else if op == 0x4d then 2 else 4;
        if w > |b| then Broken
        else
          var n := Le(b[..w]);
          TakePush(b[w..], n, !strict || n >= (if w == 1 then 0x4c else if w == 2 then 0x100 else 0x1_0000))
  }

  predicate IsOpReturn(script: seq<byte>) {
    |script| > 0 && script[0] == OP_RETURN
  }

  datatype Fault = ManyOpReturns | NonMinimalPush | NoPush | ExtraData

  datatype Payload = NoPayload | Carried(bytes: seq<byte>) | Faulty(why: Fault)

  function OpReturns(outputs: seq<TxOut>): seq<seq<byte>> {
    if outputs == [] then []
    else (if IsOpReturn(outputs[0].script) then [outputs[0].script] else []) + OpReturns(outputs[1..])
  }

  predicate Claims(script: seq<byte>) {
    IsOpReturn(script) &&
    match Next(script[1..], false)
    case Push(data, _) => Wire.MAGIC <= data
    case _ => false
  }

  /** The payload of a transaction: its one OP_RETURN output's one minimal
      push. Deviations are faults only when an output claims the magic. */
  function OpReturnPayload(tx: Tx): Payload {
    var outs := OpReturns(tx.outputs);
    var claims := exists i :: 0 <= i < |outs| && Claims(outs[i]);
    if |outs| == 0 then NoPayload
    else if |outs| > 1 then (if claims then Faulty(ManyOpReturns) else NoPayload)
    else if !IsOpReturn(outs[0]) then NoPayload
    else match Next(outs[0][1..], true)
      case Push(data, rest) =>
        if rest != [] then (if claims then Faulty(ExtraData) else NoPayload) else Carried(data)
      case Broken => if claims then Faulty(NonMinimalPush) else NoPayload
      case _ => if claims then Faulty(NoPush) else NoPayload
  }

  /** ScriptBuf::new_op_return. */
  function OpReturnScript(data: seq<byte>): seq<byte> {
    var n := |data|;
    [OP_RETURN] + (
      if n < 0x4c then [n]
      else if n < 0x100 then [0x4c] + ToLe(n, 1)
      else if n < 0x1_0000 then [0x4d] + ToLe(n, 2)
      else [0x4e] + ToLe(n, 4)) + data
  }

  /** The push written for a payload reads back as that payload; read strictly,
      unless it is a single byte that should have been an opcode. */
  lemma PushRoundTrip(data: seq<byte>)
    requires |data| < 0x1_0000_0000
    ensures IsOpReturn(OpReturnScript(data))
    ensures Next(OpReturnScript(data)[1..], true) == if SmallNumber(data) then Broken else Push(data, [])
    ensures Next(OpReturnScript(data)[1..], false) == Push(data, [])
  {
    hide ToLe, Le, Pow256;
    SmallPowers();
    var n := |data|;
    var b := OpReturnScript(data)[1..];
    if n < 0x4c {
      assert b == [n] + data;
      assert b[1..][..n] == data && b[1..][n..] == [];
    } else {
      var w := if n < 0x100 then 1 else if n < 0x1_0000 then 2 else 4;
      LeToLe(n, w);
      assert b[1..] == ToLe(n, w) + data;
      assert b[1..][..w] == ToLe(n, w) && b[1..][w..] == data;
      assert data[..n] == data && data[n..] == [];
    }
  }

  lemma {:induction false} OneOpReturn(before: seq<TxOut>, mid: TxOut, after: seq<TxOut>)
    requires forall o :: o in before || o in after ==> !IsOpReturn(o.script)
    requires IsOpReturn(mid.script)
    ensures OpReturns(before + [mid] + after) == [mid.script]
  {
    var all := before + [mid] + after;
    if before == [] {
      assert all[0] == mid && all[1..] == after;
      NoOpReturn(after);
    } else {
      assert all[0] == before[0] && all[1..] == before[1..] + [mid] + after;
      OneOpReturn(before[1..], mid, after);
    }
  }

  lemma {:induction false} NoOpReturn(outs: seq<TxOut>)
    requires forall o :: o in outs ==> !IsOpReturn(o.script)
    ensures OpReturns(outs) == []
  {
    if outs != [] {
      NoOpReturn(outs[1..]);
    }
  }

  /** A carrier whose only OP_RETURN holds the payload delivers exactly it. */
  lemma CarrierDelivers(ins: seq<OutPoint>, before: seq<TxOut>, data: seq<byte>, v: nat, after: seq<TxOut>)
    requires |data| < 0x1_0000_0000 && !SmallNumber(data)
    requires forall o :: o in before || o in after ==> !IsOpReturn(o.script)
    ensures OpReturnPayload(Tx(ins, before + [TxOut(v, OpReturnScript(data))] + after)) == Carried(data)
  {
    hide OpReturns, OpReturnScript, Next, Claims;
    PushRoundTrip(data);
    OneOpReturn(before, TxOut(v, OpReturnScript(data)), after);
  }

  // ------------------------------------------------------- what is a payload

  /** Script is that of one output, the only OP_RETURN of the transaction. */
  predicate OnlyOpReturn(tx: Tx, script: seq<byte>) {
    IsOpReturn(script) && exists i :: 0 <= i < |tx.outputs| && tx.outputs[i].script == script && AloneAt(tx.outputs, i)
  }

  predicate AloneAt(outputs: seq<TxOut>, i: nat) {
    forall k :: 0 <= k < |outputs| && k != i ==> !IsOpReturn(outputs[k].script)
  }

  /** A script that is one minimal push is the one written for what it pushes. */
  lemma PushOnly(s: seq<byte>, data: seq<byte>)
    requires Next(s, true) == Push(data, [])
    ensures [OP_RETURN] + s == OpReturnScript(data) && !SmallNumber(data) && |data| < 0x1_0000_0000
  {
    hide ToLe, Le, Pow256, OpReturnScript;
    var op, b := s[0], s[1..];
    assert s == [op] + b;
    if op < 0x4c {
      assert b[..op] + b[op..] == b;
      ShortScript(data);
    } else {
      LongPush(b, if op == 0x4c then 1 else if op == 0x4d then 2 else 4, data);
      assert [OP_RETURN] + s == [OP_RETURN] + ([op] + b);
    }
  }

  lemma ShortScript(data: seq<byte>)
    requires |data| < 0x4c
    ensures OpReturnScript(data) == [OP_RETURN] + ([|data|] + data)
  {
  }

  /** A length of w bytes, no shorter form fitting, and that many bytes. */
  lemma LongPush(b: seq<byte>, w: nat, data: seq<byte>)
    requires (w == 1 || w == 2 || w == 4) && w <= |b|
    requires b[w..] == data && Le(b[..w]) == |data|
    requires |data| >= if w == 1 then 0x4c else if w == 2 then 0x100 else 0x1_0000
    ensures |data| < 0x1_0000_0000
    ensures OpReturnScript(data)
         == [OP_RETURN] + ([if w == 1 then 0x4c else if w == 2 then 0x4d else 0x4e] + b)
  {
    hide ToLe, Le, Pow256;
    SmallPowers();
    LeBound(b[..w]);
    ToLeLe(b[..w]);
    assert b == ToLe(|data|, w) + data;
  }

  lemma {:induction false} OpReturnsOne(outputs: seq<TxOut>) returns (i: nat)
    requires |OpReturns(outputs)| == 1
    ensures i < |outputs| && outputs[i].script == OpReturns(outputs)[0] && IsOpReturn(outputs[i].script)
    ensures AloneAt(outputs, i)
    decreases |outputs|
  {
    if IsOpReturn(outputs[0].script) {
      i := 0;
      NoneLeft(outputs[1..]);
      assert forall k :: 0 < k < |outputs| ==> outputs[k] == outputs[1..][k - 1];
    } else {
      var k := OpReturnsOne(outputs[1..]);
      i := k + 1;
      assert forall n :: 0 < n < |outputs| ==> outputs[n] == outputs[1..][n - 1];
    }
  }

  lemma {:induction false} NoneLeft(outputs: seq<TxOut>)
    requires OpReturns(outputs) == []
    ensures forall k :: 0 <= k < |outputs| ==> !IsOpReturn(outputs[k].script)
    decreases |outputs|
  {
    if outputs != [] {
      NoneLeft(outputs[1..]);
      assert forall k :: 0 < k < |outputs| ==> outputs[k] == outputs[1..][k - 1];
    }
  }

  lemma AloneReturns(outputs: seq<TxOut>, i: nat)
    requires i < |outputs| && IsOpReturn(outputs[i].script) && AloneAt(outputs, i)
    ensures OpReturns(outputs) == [outputs[i].script]
  {
    hide OpReturns;
    forall o | o in outputs[..i] || o in outputs[i + 1..] ensures !IsOpReturn(o.script) {
    }
    assert outputs == outputs[..i] + [outputs[i]] + outputs[i + 1..];
    OneOpReturn(outputs[..i], outputs[i], outputs[i + 1..]);
  }

  /** A transaction carries b exactly when its one OP_RETURN output is the
      script written for b, b not being a one-byte number. */
  lemma CarriedIff(tx: Tx, b: seq<byte>)
    ensures OpReturnPayload(tx) == Carried(b) <==>
      OnlyOpReturn(tx, OpReturnScript(b)) && !SmallNumber(b) && |b| < 0x1_0000_0000
  {
    hide OpReturns, OpReturnScript, Next, Claims, AloneAt;
    if OpReturnPayload(tx) == Carried(b) {
      var i := OpReturnsOne(tx.outputs);
      var s := tx.outputs[i].script;
      assert s == [OP_RETURN] + s[1..];
      PushOnly(s[1..], b);
    }
    if OnlyOpReturn(tx, OpReturnScript(b)) && !SmallNumber(b) && |b| < 0x1_0000_0000 {
      var i :| 0 <= i < |tx.outputs| && tx.outputs[i].script == OpReturnScript(b) && AloneAt(tx.outputs, i);
      AloneReturns(tx.outputs, i);
      PushRoundTrip(b);
    }
  }

  /** Some OP_RETURN output starts with a push of the magic. */
  ghost predicate SomeClaim(tx: Tx) {
    exists o :: o in tx.outputs && Claims(o.script)
  }

  lemma {:induction false} InOpReturns(outputs: seq<TxOut>, script: seq<byte>)
    ensures script in OpReturns(outputs) <==> IsOpReturn(script) && exists o :: o in outputs && o.script == script
    decreases |outputs|
  {
    if outputs != [] {
      InOpReturns(outputs[1..], script);
      assert outputs == [outputs[0]] + outputs[1..];
    }
  }

  /** Whatever is not carried is a fault exactly when some output claims the
      magic, and otherwise nothing. */
  lemma FaultyIff(tx: Tx)
    ensures OpReturnPayload(tx).Faulty? <==> SomeClaim(tx) && !OpReturnPayload(tx).Carried?
  {
    hide OpReturns, Next;
    var outs := OpReturns(tx.outputs);
    if SomeClaim(tx) {
      var o :| o in tx.outputs && Claims(o.script);
      InOpReturns(tx.outputs, o.script);
      var i :| 0 <= i < |outs| && outs[i] == o.script;
    }
    if i :| 0 <= i < |outs| && Claims(outs[i]) {
      InOpReturns(tx.outputs, outs[i]);
    }
  }

  /** A written script claims the magic exactly when its payload starts with it. */
  lemma ClaimsIff(b: seq<byte>)
    requires |b| < 0x1_0000_0000
    ensures Claims(OpReturnScript(b)) <==> Wire.MAGIC <= b
  {
    hide ToLe, Le, Pow256;
    PushRoundTrip(b);
  }

  // -------------------------------------------------------------- build_carrier

  datatype Utxo = Utxo(outpoint: OutPoint, value: nat)

  datatype BuildError = InsufficientFunds(have: nat, need: nat) | FeeDidNotConverge | Overflow | PayloadTooLong

  datatype Built = Ok(tx: Tx, paid: nat) | Err(error: BuildError)

  const DUST: nat := 546

  function TotalOut(outs: seq<TxOut>): nat {
    if outs == [] then 0 else outs[0].value + TotalOut(outs[1..])
  }

  function TotalIn(us: seq<Utxo>): nat {
    if us == [] then 0 else us[0].value + TotalIn(us[1..])
  }

  lemma {:induction false} TotalOutConcat(a: seq<TxOut>, b: seq<TxOut>)
    ensures TotalOut(a + b) == TotalOut(a) + TotalOut(b)
  {
    if a == [] {
      assert a + b == b;
    } else {
      assert (a + b)[1..] == a[1..] + b;
      TotalOutConcat(a[1..], b);
    }
  }

  lemma {:induction false} TotalInSnoc(us: seq<Utxo>, u: Utxo)
    ensures TotalIn(us + [u]) == TotalIn(us) + u.value
  {
    if us == [] {
      assert us + [u] == [u];
    } else {
      assert (us + [u])[1..] == us[1..] + [u];
      TotalInSnoc(us[1..], u);
    }
  }

  lemma {:induction false} TotalInMonotone(us: seq<Utxo>, i: nat, j: nat)
    requires i <= j <= |us|
    ensures TotalIn(us[..i]) <= TotalIn(us[..j])
  {
    if i < j {
      assert us[..j] == us[..j - 1] + [us[j - 1]];
      TotalInSnoc(us[..j - 1], us[j - 1]);
      TotalInMonotone(us, i, j - 1);
    }
  }

  function Outpoints(us: seq<Utxo>): seq<OutPoint> {
    seq(|us|, i requires 0 <= i < |us| => us[i].outpoint)
  }

  /** n is the length of the shortest prefix reaching target, or of the whole
      list when no prefix does. */
  predicate Shortest(us: seq<Utxo>, n: nat, target: nat) {
    && n <= |us|
    && (forall i :: 0 < i < n ==> TotalIn(us[..i]) < target)
    && (TotalIn(us[..n]) >= target || n == |us|)
    && (us != [] ==> n > 0)
  }

  /** No prefix shorter than k + 1 outputs reaches target. */
  predicate Short(us: seq<Utxo>, k: nat, target: nat)
    requires k <= |us|
  {
    forall i :: 0 < i <= k ==> TotalIn(us[..i]) < target
  }

  lemma TakeOne(us: seq<Utxo>, k: nat, target: nat)
    requires k < |us| && Short(us, k, target)
    ensures TotalIn(us[..k + 1]) == TotalIn(us[..k]) + us[k].value
    ensures TotalIn(us[..k + 1]) >= target ==> Shortest(us, k + 1, target)
    ensures TotalIn(us[..k + 1]) < target ==> Short(us, k + 1, target)
  {
    hide TotalIn;
    assert us[..k + 1] == us[..k] + [us[k]];
    TotalInSnoc(us[..k], us[k]);
  }

  /** One input-selection pass: inputs are taken until their total reaches the
      target. None on overflow. */
  method Select(us: seq<Utxo>, target: nat) returns (n: Option<nat>)
    ensures n.Some? ==> n.value <= |us| && Shortest(us, n.value, target) && TotalIn(us[..n.value]) < U64
    ensures n.None? ==> TotalIn(us) >= U64
    ensures n.None? && target < U64 ==> exists k: nat :: k <= |us| && Shortest(us, k, target) && TotalIn(us[..k]) >= U64
  {
    hide TotalIn, Shortest, Short;
    NoneTaken(us, target);
    var k, total := 0, 0;
    while k < |us|
      invariant 0 <= k <= |us| && total == TotalIn(us[..k]) && total < U64 && Short(us, k, target)
    {
      TakeOne(us, k, target);
      if total + us[k].value >= U64 {
        TotalInMonotone(us, k + 1, |us|);
        assert us[..|us|] == us;
        return None;
      }
      total := total + us[k].value;
      k := k + 1;
      if total >= target {
        return Some(k);
      }
    }
    AllTaken(us, target);
    return Some(k);
  }

  lemma NoneTaken(us: seq<Utxo>, target: nat)
    ensures Short(us, 0, target) && TotalIn(us[..0]) == 0
  {
  }

  lemma AllTaken(us: seq<Utxo>, target: nat)
    requires Short(us, |us|, target)
    ensures Shortest(us, |us|, target)
  {
    hide TotalIn;
  }

  /** What an accepted carrier is: the extra outputs, the payload, and change
      only when it clears dust, over the inputs the last pass selected. */
  predicate Balanced(us: seq<Utxo>, extra: seq<TxOut>, script: seq<byte>, change: seq<byte>, tx: Tx, paid: nat,
                     fee: nat, n: nat) {
    && Shortest(us, n, TotalOut(extra) + fee + DUST)
    && tx.inputs == Outpoints(us[..n])
    && TotalIn(us[..n]) == TotalOut(tx.outputs) + paid
    && paid >= fee
    && (tx.outputs == extra + [TxOut(0, script)]
        || (|tx.outputs| == |extra| + 2 && tx.outputs[..|extra| + 1] == extra + [TxOut(0, script)]
            && tx.outputs[|extra| + 1].script == change && tx.outputs[|extra| + 1].value >= DUST && paid == fee))
    && (paid > fee ==> paid - fee < DUST)
  }

  /** The transaction of a pass at fee over the first n outputs. */
  function PassTx(us: seq<Utxo>, extra: seq<TxOut>, script: seq<byte>, change: seq<byte>, fee: nat, n: nat): Tx
    requires n <= |us|
  {
    var left := TotalIn(us[..n]) - TotalOut(extra) - fee;
    Tx(Outpoints(us[..n]), extra + [TxOut(0, script)] + if left >= DUST then [TxOut(left, change)] else [])
  }

  /** What a carrier is built from, but for its inputs. */
  datatype Order = Order(vsize: Tx -> nat, extra: seq<TxOut>, script: seq<byte>, rate: nat, change: seq<byte>)

  /** The pass at fee can be paid for over n inputs, and asks for a higher fee. */
  predicate RisesOver(o: Order, us: seq<Utxo>, n: nat, fee: nat, next: nat) {
    var need := TotalOut(o.extra) + fee;
    && Shortest(us, n, need + DUST) && need + DUST < U64 && need <= TotalIn(us[..n]) < U64
    && next == o.vsize(PassTx(us, o.extra, o.script, o.change, fee, n)) * o.rate && fee < next < U64
  }

  /** The pass at fee can be paid for over n inputs, and asks for no more. */
  predicate AcceptsOver(o: Order, us: seq<Utxo>, n: nat, fee: nat) {
    var need := TotalOut(o.extra) + fee;
    && Shortest(us, n, need + DUST) && need + DUST < U64 && need <= TotalIn(us[..n]) < U64
    && o.vsize(PassTx(us, o.extra, o.script, o.change, fee, n)) * o.rate <= fee < U64
  }

  predicate Accepts(o: Order, us: seq<Utxo>, fee: nat) {
    exists n :: 0 <= n <= |us| && AcceptsOver(o, us, n, fee)
  }

  predicate Rises(o: Order, us: seq<Utxo>, fee: nat, next: nat) {
    exists n :: 0 <= n <= |us| && RisesOver(o, us, n, fee, next)
  }

  predicate RisesAt(o: Order, us: seq<Utxo>, fees: seq<nat>, i: nat)
    requires i + 1 < |fees|
  {
    Rises(o, us, fees[i], fees[i + 1])
  }

  /** The fees of passes each of which asked for more than the one before. */
  predicate Rising(o: Order, us: seq<Utxo>, fees: seq<nat>) {
    |fees| > 0 && fees[0] == 0 && forall i :: 0 <= i < |fees| - 1 ==> RisesAt(o, us, fees, i)
  }

  /** The fee rises on each of the six passes. */
  ghost predicate Unsettled(o: Order, us: seq<Utxo>) {
    exists fees: seq<nat> :: |fees| == 7 && Rising(o, us, fees)
  }

  /** Within six passes the fee rises to one that a pass accepts over n inputs. */
  ghost predicate SettlesAt(o: Order, us: seq<Utxo>, fees: seq<nat>, n: nat) {
    0 < |fees| <= 6 && n <= |us| && Rising(o, us, fees) && AcceptsOver(o, us, n, fees[|fees| - 1])
  }

  /** No sum overflows, the funds suffice, and the fee settles. */
  ghost predicate Settles(o: Order, us: seq<Utxo>) {
    exists fees: seq<nat>, n: nat :: SettlesAt(o, us, fees, n)
  }

  /** tx is the transaction of the accepting pass, and paid its inputs less its
      outputs. */
  ghost predicate Made(o: Order, us: seq<Utxo>, tx: Tx, paid: nat) {
    exists fees: seq<nat>, n: nat :: MadeAt(o, us, fees, n, tx, paid)
  }

  ghost predicate MadeAt(o: Order, us: seq<Utxo>, fees: seq<nat>, n: nat, tx: Tx, paid: nat) {
    && |fees| > 0 && n <= |us| && SettlesAt(o, us, fees, n)
    && tx == PassTx(us, o.extra, o.script, o.change, fees[|fees| - 1], n)
    && Balanced(us, o.extra, o.script, o.change, tx, paid, fees[|fees| - 1], n)
  }

  lemma OneShortest(us: seq<Utxo>, target: nat, n: nat, k: nat)
    requires Shortest(us, n, target) && Shortest(us, k, target)
    ensures n == k
  {
    hide TotalIn;
  }

  lemma OneRise(o: Order, us: seq<Utxo>, fee: nat, next: nat, next': nat)
    requires Rises(o, us, fee, next) && Rises(o, us, fee, next')
    ensures next == next'
  {
    hide Shortest, TotalIn, TotalOut, PassTx;
    var n :| 0 <= n <= |us| && RisesOver(o, us, n, fee, next);
    var k :| 0 <= k <= |us| && RisesOver(o, us, k, fee, next');
    OneShortest(us, TotalOut(o.extra) + fee + DUST, n, k);
  }

  lemma RisingSnoc(o: Order, us: seq<Utxo>, fees: seq<nat>, next: nat)
    requires Rising(o, us, fees) && Rises(o, us, fees[|fees| - 1], next)
    ensures Rising(o, us, fees + [next])
  {
    hide Rises;
    var more := fees + [next];
    forall i | 0 <= i < |more| - 1 ensures RisesAt(o, us, more, i) {
      assert i + 1 < |fees| ==> RisesAt(o, us, fees, i);
    }
  }

  lemma RisingInit(o: Order, us: seq<Utxo>, fees: seq<nat>)
    requires Rising(o, us, fees) && |fees| > 1
    ensures Rising(o, us, fees[..|fees| - 1])
  {
    hide Rises;
    var n := |fees| - 1;
    forall i | 0 <= i < n - 1 ensures RisesAt(o, us, fees[..n], i) {
      assert RisesAt(o, us, fees, i);
    }
  }

  lemma {:induction false} OneRising(o: Order, us: seq<Utxo>, fees: seq<nat>, more: seq<nat>)
    requires 0 < |fees| <= |more| && Rising(o, us, fees) && Rising(o, us, more)
    ensures fees[|fees| - 1] == more[|fees| - 1]
    decreases |fees|
  {
    hide Rises;
    if |fees| > 1 {
      var n := |fees| - 1;
      RisingInit(o, us, fees);
      OneRising(o, us, fees[..n], more);
      assert RisesAt(o, us, fees, n - 1) && RisesAt(o, us, more, n - 1);
      OneRise(o, us, fees[n - 1], fees[n], more[n]);
    }
  }

  lemma StepRises(o: Order, us: seq<Utxo>, fees: seq<nat>, i: nat)
    requires Rising(o, us, fees) && i + 1 < |fees|
    ensures Rises(o, us, fees[i], fees[i + 1])
  {
    hide Rises;
    assert RisesAt(o, us, fees, i);
  }

  ghost predicate Stops(o: Order, us: seq<Utxo>, fee: nat) {
    forall next: nat :: !Rises(o, us, fee, next)
  }

  lemma RiseOrAccept(o: Order, us: seq<Utxo>, fee: nat, next: nat)
    requires Rises(o, us, fee, next)
    ensures !Accepts(o, us, fee)
  {
    hide Shortest, TotalIn, TotalOut, PassTx;
    if Accepts(o, us, fee) {
      var n :| 0 <= n <= |us| && AcceptsOver(o, us, n, fee);
      var k :| 0 <= k <= |us| && RisesOver(o, us, k, fee, next);
      OneShortest(us, TotalOut(o.extra) + fee + DUST, n, k);
    }
  }

  lemma MadeSettles(o: Order, us: seq<Utxo>, tx: Tx, paid: nat)
    requires Made(o, us, tx, paid)
    ensures Settles(o, us)
  {
    hide SettlesAt, Balanced;
  }

  lemma SettlesOnce(o: Order, us: seq<Utxo>, fees: seq<nat>, n: nat, fees': seq<nat>, n': nat)
    requires SettlesAt(o, us, fees, n) && SettlesAt(o, us, fees', n') && |fees| <= |fees'|
    ensures fees[|fees| - 1] == fees'[|fees'| - 1] && n == n'
  {
    hide Rises, Rising, Shortest, TotalIn, TotalOut, PassTx;
    OneRising(o, us, fees, fees');
    assert Accepts(o, us, fees[|fees| - 1]);
    if |fees| < |fees'| {
      StepRises(o, us, fees', |fees| - 1);
      RiseOrAccept(o, us, fees[|fees| - 1], fees'[|fees|]);
    }
    OneShortest(us, TotalOut(o.extra) + fees[|fees| - 1] + DUST, n, n');
  }

  /** At most one carrier is made of given outputs. */
  lemma MadeOnce(o: Order, us: seq<Utxo>, tx: Tx, paid: nat, tx': Tx, paid': nat)
    requires Made(o, us, tx, paid) && Made(o, us, tx', paid')
    ensures tx == tx' && paid == paid'
  {
    hide SettlesAt, Shortest, TotalIn, TotalOut, PassTx, Outpoints;
    var fees: seq<nat>, n: nat :| MadeAt(o, us, fees, n, tx, paid);
    var fees': seq<nat>, n': nat :| MadeAt(o, us, fees', n', tx', paid');
    if |fees| <= |fees'| {
      SettlesOnce(o, us, fees, n, fees', n');
    } else {
      SettlesOnce(o, us, fees', n', fees, n);
    }
  }

  /** What a made carrier pays covers its size at the rate. */
  lemma MadePays(o: Order, us: seq<Utxo>, tx: Tx, paid: nat)
    requires Made(o, us, tx, paid)
    ensures paid >= o.vsize(tx) * o.rate
    ensures exists fee: nat, n: nat :: Balanced(us, o.extra, o.script, o.change, tx, paid, fee, n)
  {
    hide Rising, Shortest, TotalIn, TotalOut, PassTx, Outpoints;
  }

  /** A pass that neither rises nor accepts ends everything. */
  lemma NeverSettles(o: Order, us: seq<Utxo>, fees: seq<nat>)
    requires 0 < |fees| <= 7 && Rising(o, us, fees)
    requires |fees| == 7 || (Stops(o, us, fees[|fees| - 1]) && !Accepts(o, us, fees[|fees| - 1]))
    ensures !Settles(o, us)
  {
    hide Rises, Rising, AcceptsOver;
    if Settles(o, us) {
      var more: seq<nat>, n: nat :| SettlesAt(o, us, more, n);
      assert Accepts(o, us, more[|more| - 1]);
      if |more| < |fees| {
        OneRising(o, us, more, fees);
        StepRises(o, us, fees, |more| - 1);
        RiseOrAccept(o, us, fees[|more| - 1], fees[|more|]);
      } else {
        OneRising(o, us, fees, more);
        if |more| > |fees| {
          StepRises(o, us, more, |fees| - 1);
        }
      }
    }
  }

  /** A pass that does not rise ends the rising. */
  lemma Settled(o: Order, us: seq<Utxo>, fees: seq<nat>)
    requires 0 < |fees| <= 6 && Rising(o, us, fees) && Stops(o, us, fees[|fees| - 1])
    ensures !Unsettled(o, us)
  {
    hide Rises, Rising;
    if Unsettled(o, us) {
      var more: seq<nat> :| |more| == 7 && Rising(o, us, more);
      OneRising(o, us, fees, more);
      StepRises(o, us, more, |fees| - 1);
    }
  }

  /** FundingKey::build_carrier. vsize is the signed size as a function of the
      transaction's shape; rate is in sat per virtual byte. */
  method BuildCarrier(vsize: Tx -> nat, us: seq<Utxo>, payload: seq<byte>, extra: seq<TxOut>, rate: nat,
                      change: seq<byte>)
    returns (r: Built)
    ensures r.Ok? ==> exists fee: nat, n: nat ::
      && Balanced(us, extra, OpReturnScript(payload), change, r.tx, r.paid, fee, n)
      && fee >= vsize(r.tx) * rate
    ensures r.Ok? ==> |payload| < 0x1_0000_0000
    ensures r.Err? && r.error.InsufficientFunds? ==>
      r.error.have == TotalIn(us) < r.error.need && TotalOut(extra) <= r.error.need
    ensures r.Err? && r.error == PayloadTooLong ==> |payload| >= 0x1_0000_0000
    ensures r.Ok? <==>
      |payload| < 0x1_0000_0000 && Settles(Order(vsize, extra, OpReturnScript(payload), rate, change), us)
    ensures r.Ok? ==> Made(Order(vsize, extra, OpReturnScript(payload), rate, change), us, r.tx, r.paid)
    ensures r == Err(FeeDidNotConverge) <==>
      |payload| < 0x1_0000_0000 && Unsettled(Order(vsize, extra, OpReturnScript(payload), rate, change), us)
  {
    hide OpReturnScript, TotalIn, TotalOut, Rising, Unsettled, Shortest, Rises, RisesOver, PassTx, Outpoints,
      Stops, Balanced, Settles, SettlesAt,
      Accepts, AcceptsOver;
    var extraTotal := TotalOut(extra);
    ghost var o := Order(vsize, extra, OpReturnScript(payload), rate, change);
    ghost var fees: seq<nat> := [0];
    FirstPass(o, us);
    if extraTotal >= U64 {
      NoRise(o, us, 0);
      Settled(o, us, [0]);
      NeverSettles(o, us, [0]);
      return Err(Overflow);
    }
    if |payload| >= 0x1_0000_0000 {
      return Err(PayloadTooLong);
    }
    var opReturn := TxOut(0, OpReturnScript(payload));
    var fee: nat := 0;
    for i := 0 to 6
      invariant fee < U64 && |fees| == i + 1 && fees[i] == fee && Rising(o, us, fees)
    {
      var need := extraTotal + fee;
      var target := need + DUST;
      if target >= U64 {
        NoRise(o, us, fee);
        Settled(o, us, fees);
        NeverSettles(o, us, fees);
        return Err(Overflow);
      }
      var sel := Select(us, target);
      if sel.None? {
        ghost var k: nat :| k <= |us| && Shortest(us, k, target) && TotalIn(us[..k]) >= U64;
        NoRiseOver(o, us, k, fee);
        Settled(o, us, fees);
        NeverSettles(o, us, fees);
        return Err(Overflow);
      }
      var selected := us[..sel.value];
      var total := TotalIn(selected);
      if total < need {
        WholeList(us, sel.value, target);
        NoRiseOver(o, us, sel.value, fee);
        Settled(o, us, fees);
        NeverSettles(o, us, fees);
        return Err(InsufficientFunds(total, need));
      }
      var outputs := extra + [opReturn];
      var left := total - extraTotal - fee;
      var paid := total - extraTotal;
      if left >= DUST {
        outputs := outputs + [TxOut(left, change)];
        paid := fee;
      }
      var tx := Tx(Outpoints(selected), outputs);
      PassIs(us, extra, o.script, change, fee, sel.value);
      var want := vsize(tx) * rate;
      if want >= U64 {
        NoRiseOver(o, us, sel.value, fee);
        Settled(o, us, fees);
        NeverSettles(o, us, fees);
        return Err(Overflow);
      }
      if fee >= want {
        NoRiseOver(o, us, sel.value, fee);
        Settled(o, us, fees);
        PassBalances(us, extra, o.script, change, fee, sel.value);
        AnAccept(o, us, fees, sel.value);
        assert MadeAt(o, us, fees, sel.value, tx, paid);
        return Ok(tx, paid);
      }
      ARise(o, us, sel.value, fee, want);
      RisingSnoc(o, us, fees, want);
      fees := fees + [want];
      fee := want;
    }
    assert Unsettled(o, us) by { SixRises(o, us, fees); }
    NeverSettles(o, us, fees);
    return Err(FeeDidNotConverge);
  }

  lemma PassIs(us: seq<Utxo>, extra: seq<TxOut>, script: seq<byte>, change: seq<byte>, fee: nat, n: nat)
    requires n <= |us|
    ensures var left, outs := TotalIn(us[..n]) - TotalOut(extra) - fee, extra + [TxOut(0, script)];
      PassTx(us, extra, script, change, fee, n)
        == Tx(Outpoints(us[..n]), if left >= DUST then outs + [TxOut(left, change)] else outs)
  {
    hide TotalIn, TotalOut, Outpoints;
  }

  lemma FirstPass(o: Order, us: seq<Utxo>)
    ensures Rising(o, us, [0])
  {
  }

  lemma SixRises(o: Order, us: seq<Utxo>, fees: seq<nat>)
    requires |fees| == 7 && Rising(o, us, fees)
    ensures Unsettled(o, us)
  {
    hide Rising;
  }

  lemma ARise(o: Order, us: seq<Utxo>, n: nat, fee: nat, next: nat)
    requires n <= |us| && Shortest(us, n, TotalOut(o.extra) + fee + DUST) && TotalOut(o.extra) + fee + DUST < U64
    requires TotalOut(o.extra) + fee <= TotalIn(us[..n]) < U64 && fee < next < U64
    requires next == o.vsize(PassTx(us, o.extra, o.script, o.change, fee, n)) * o.rate
    ensures Rises(o, us, fee, next)
  {
    hide TotalIn, TotalOut, PassTx;
    assert RisesOver(o, us, n, fee, next);
  }

  /** What an accepting pass returns is balanced. */
  lemma PassBalances(us: seq<Utxo>, extra: seq<TxOut>, script: seq<byte>, change: seq<byte>, fee: nat, n: nat)
    requires n <= |us| && Shortest(us, n, TotalOut(extra) + fee + DUST) && TotalOut(extra) + fee <= TotalIn(us[..n])
    ensures var over := TotalIn(us[..n]) - TotalOut(extra);
      Balanced(us, extra, script, change, PassTx(us, extra, script, change, fee, n),
               if over - fee >= DUST then fee else over, fee, n)
  {
    hide TotalIn, TotalOut, Shortest, Outpoints, PassTx;
    var last := TxOut(TotalIn(us[..n]) - TotalOut(extra) - fee, change);
    PassIs(us, extra, script, change, fee, n);
    SumOutputs(extra, TxOut(0, script), last);
    var outs := extra + [TxOut(0, script)];
    if last.value >= DUST {
      assert (outs + [last])[..|extra| + 1] == outs && (outs + [last])[|extra| + 1] == last;
    }
  }

  lemma AnAccept(o: Order, us: seq<Utxo>, fees: seq<nat>, n: nat)
    requires 0 < |fees| <= 6 && Rising(o, us, fees) && n <= |us|
    requires Shortest(us, n, TotalOut(o.extra) + fees[|fees| - 1] + DUST)
    requires TotalOut(o.extra) + fees[|fees| - 1] + DUST < U64
    requires TotalOut(o.extra) + fees[|fees| - 1] <= TotalIn(us[..n]) < U64
    requires o.vsize(PassTx(us, o.extra, o.script, o.change, fees[|fees| - 1], n)) * o.rate <= fees[|fees| - 1] < U64
    ensures SettlesAt(o, us, fees, n) && Settles(o, us)
  {
    hide TotalIn, TotalOut, PassTx, Rising, Shortest;
    assert AcceptsOver(o, us, n, fees[|fees| - 1]);
    assert SettlesAt(o, us, fees, n);
  }

  lemma NoRise(o: Order, us: seq<Utxo>, fee: nat)
    requires TotalOut(o.extra) + fee + DUST >= U64
    ensures Stops(o, us, fee) && !Accepts(o, us, fee)
  {
    hide TotalOut, TotalIn, Shortest, PassTx;
  }

  lemma NoRiseOver(o: Order, us: seq<Utxo>, n: nat, fee: nat)
    requires n <= |us| && Shortest(us, n, TotalOut(o.extra) + fee + DUST)
    requires !(TotalOut(o.extra) + fee <= TotalIn(us[..n]) < U64)
          || !(fee < o.vsize(PassTx(us, o.extra, o.script, o.change, fee, n)) * o.rate < U64)
    ensures Stops(o, us, fee)
    ensures !(TotalOut(o.extra) + fee <= TotalIn(us[..n]) < U64) ==> !Accepts(o, us, fee)
    ensures o.vsize(PassTx(us, o.extra, o.script, o.change, fee, n)) * o.rate > fee ==> !Accepts(o, us, fee)
  {
    hide TotalOut, TotalIn, Shortest, PassTx;
    forall next: nat ensures !Rises(o, us, fee, next) {
      if Rises(o, us, fee, next) {
        var k :| 0 <= k <= |us| && RisesOver(o, us, k, fee, next);
        OneShortest(us, TotalOut(o.extra) + fee + DUST, n, k);
      }
    }
    if Accepts(o, us, fee) {
      var k :| 0 <= k <= |us| && AcceptsOver(o, us, k, fee);
      OneShortest(us, TotalOut(o.extra) + fee + DUST, n, k);
    }
  }

  lemma WholeList(us: seq<Utxo>, n: nat, target: nat)
    requires Shortest(us, n, target) && TotalIn(us[..n]) < target
    ensures us[..n] == us
  {
  }

  // --------------------------------------------------------- when the fee settles

  /** The size does not grow while the inputs stay as many and outputs are only
      dropped from the end. */
  ghost predicate ByShape(vsize: Tx -> nat) {
    forall t: Tx, t': Tx :: |t.inputs| == |t'.inputs| && FewerOutputs(t, t') ==> vsize(t) <= vsize(t')
  }

  predicate FewerOutputs(t: Tx, t': Tx) {
    |t.outputs| <= |t'.outputs| && forall i :: 0 <= i < |t.outputs| ==> t.outputs[i].script == t'.outputs[i].script
  }

  lemma HigherTarget(us: seq<Utxo>, n: nat, k: nat, target: nat, higher: nat)
    requires Shortest(us, n, target) && Shortest(us, k, higher) && target <= higher
    ensures n <= k
  {
    hide TotalIn;
  }

  /** Over the same inputs a higher fee only drops the change. */
  lemma SmallerPass(us: seq<Utxo>, extra: seq<TxOut>, script: seq<byte>, change: seq<byte>, fee: nat, next: nat, n: nat)
    requires n <= |us| && fee <= next
    ensures FewerOutputs(PassTx(us, extra, script, change, next, n), PassTx(us, extra, script, change, fee, n))
  {
    hide TotalIn, TotalOut, Outpoints;
  }

  /** A second rise needs more inputs than the first. */
  lemma RiseAddsInput(o: Order, us: seq<Utxo>, n: nat, k: nat, fee: nat, next: nat, last: nat)
    requires n <= |us| && k <= |us|
    requires ByShape(o.vsize) && RisesOver(o, us, n, fee, next) && RisesOver(o, us, k, next, last)
    ensures n < k
  {
    hide TotalIn, TotalOut, Shortest, FewerOutputs;
    HigherTarget(us, n, k, TotalOut(o.extra) + fee + DUST, TotalOut(o.extra) + next + DUST);
    if n == k {
      var t, t' := PassTx(us, o.extra, o.script, o.change, fee, n), PassTx(us, o.extra, o.script, o.change, next, n);
      SmallerPass(us, o.extra, o.script, o.change, fee, next, n);
      assert |t.inputs| == |t'.inputs|;
      Field.MulMonotone(o.vsize(t'), o.vsize(t), o.rate);
    }
  }

  /** Each rise takes another input. */
  lemma {:induction false} InputsForRises(o: Order, us: seq<Utxo>, fees: seq<nat>) returns (n: nat)
    requires ByShape(o.vsize) && us != [] && |fees| > 1 && Rising(o, us, fees)
    ensures |fees| - 1 <= n <= |us| && RisesOver(o, us, n, fees[|fees| - 2], fees[|fees| - 1])
    decreases |fees|
  {
    hide RisesOver, ByShape;
    var last := |fees| - 1;
    assert RisesAt(o, us, fees, last - 1);
    n :| 0 <= n <= |us| && RisesOver(o, us, n, fees[last - 1], fees[last]);
    if last > 1 {
      RisingInit(o, us, fees);
      var k := InputsForRises(o, us, fees[..last]);
      RiseAddsInput(o, us, k, n, fees[last - 2], fees[last - 1], fees[last]);
    } else {
      SomeInput(o, us, n, fees[0], fees[1]);
    }
  }

  lemma SomeInput(o: Order, us: seq<Utxo>, n: nat, fee: nat, next: nat)
    requires us != [] && RisesOver(o, us, n, fee, next)
    ensures n > 0
  {
    hide TotalIn, TotalOut, PassTx;
  }

  lemma TwoRises(o: Order, us: seq<Utxo>, fee: nat, next: nat, last: nat)
    requires ByShape(o.vsize) && Rises(o, us, fee, next) && Rises(o, us, next, last)
    ensures us != []
  {
    hide RisesOver, ByShape;
    var n: nat :| n <= |us| && RisesOver(o, us, n, fee, next);
    var k: nat :| k <= |us| && RisesOver(o, us, k, next, last);
    RiseAddsInput(o, us, n, k, fee, next, last);
  }

  /** With at most five outputs to spend, six passes settle the fee. */
  lemma FewInputsSettle(o: Order, us: seq<Utxo>)
    requires ByShape(o.vsize) && |us| <= 5
    ensures !Unsettled(o, us)
  {
    hide RisesOver, ByShape;
    if Unsettled(o, us) {
      var fees: seq<nat> :| |fees| == 7 && Rising(o, us, fees);
      if us == [] {
        assert RisesAt(o, us, fees, 0) && RisesAt(o, us, fees, 1);
        TwoRises(o, us, fees[0], fees[1], fees[2]);
      } else {
        var n := InputsForRises(o, us, fees);
      }
    }
  }

  /** Six small outputs. */
  function Coins(): seq<Utxo> {
    seq(6, i requires 0 <= i < 6 => Utxo(OutPoint(i, 0), if i == 0 then 546 else 100))
  }

  lemma {:induction false} CoinsTotal(n: nat)
    requires n <= 6
    ensures TotalIn(Coins()[..n]) == if n == 0 then 0 else 446 + 100 * n
  {
    if n > 0 {
      CoinsTotal(n - 1);
      assert Coins()[..n] == Coins()[..n - 1] + [Coins()[n - 1]];
      TotalInSnoc(Coins()[..n - 1], Coins()[n - 1]);
    }
  }

  /** With six it may not: each pass takes one more coin, and a seventh would
      have settled. */
  lemma SixCoinsUnsettled(script: seq<byte>, change: seq<byte>)
    ensures var o := Order((t: Tx) => 100 * |t.inputs|, [], script, 1, change);
      ByShape(o.vsize) && Unsettled(o, Coins())
      && Shortest(Coins(), 6, 600 + DUST) && TotalIn(Coins()[..6]) > 600
      && o.vsize(PassTx(Coins(), [], script, change, 600, 6)) == 600
  {
    hide TotalIn, Coins, Shortest;
    var o := Order((t: Tx) => 100 * |t.inputs|, [], script, 1, change);
    var fees: seq<nat> := [0, 100, 200, 300, 400, 500, 600];
    forall i | 0 <= i < 6 ensures RisesAt(o, Coins(), fees, i) {
      assert fees[i] == 100 * i && fees[i + 1] == 100 * i + 100;
      CoinPass(o, i);
    }
    SixRises(o, Coins(), fees);
    CoinsShortest(6, 1146);
    CoinsTotal(6);
  }

  lemma CoinsShortest(n: nat, target: nat)
    requires 0 < n <= 6 && (target == 446 + 100 * n || (n == 6 && target == 1146))
    ensures |Coins()| == 6 && Shortest(Coins(), n, target)
  {
    hide TotalIn, Coins;
    CoinsCount();
    CoinsTotal(n);
    forall i | 0 < i < n ensures TotalIn(Coins()[..i]) < target {
      CoinsTotal(i);
    }
  }

  lemma CoinsCount()
    ensures |Coins()| == 6
  {
  }

  lemma CoinPass(o: Order, i: nat)
    requires o.extra == [] && o.rate == 1 && (forall t: Tx :: o.vsize(t) == 100 * |t.inputs|) && i < 6
    ensures Rises(o, Coins(), 100 * i, 100 * i + 100)
  {
    hide TotalIn, Coins, Shortest;
    CoinsShortest(i + 1, 546 + 100 * i);
    CoinsTotal(i + 1);
    var t := PassTx(Coins(), o.extra, o.script, o.change, 100 * i, i + 1);
    assert |t.inputs| == i + 1;
    assert RisesOver(o, Coins(), i + 1, 100 * i, 100 * i + 100);
  }

  lemma SumOutputs(extra: seq<TxOut>, a: TxOut, b: TxOut)
    ensures TotalOut(extra + [a]) == TotalOut(extra) + a.value
    ensures TotalOut(extra + [a] + [b]) == TotalOut(extra) + a.value + b.value
  {
    TotalOutConcat(extra, [a]);
    TotalOutConcat(extra + [a], [b]);
  }
}
