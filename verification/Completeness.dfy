/** What a scan finds: exactly the outputs and mints of the log that are the
    wallet's, the first of each source and index. */
module Completeness {
  import opened Bytes
  import opened Wrappers
  import opened Wire
  import opened Note
  import opened Circuit
  import opened Replay
  import opened EventLog
  import opened Scanning
  import opened Resume
  import Carrier

  /** The nonempty notes of one transfer output that the wallet can decrypt. */
  function FoundOutput(w: Who, t: Transfer, txid: nat, pos: nat, j: nat): seq<OwnedNote>
    requires Arity(t) && j < N_OUT
  {
    match DecryptAsRecipient(w.env.s, t.ct[j], t.pkEph[j], ViewOf(w.env.s, w.keys.sk))
    case None => []
    case Some(n) => if n.v == 0 then [] else [OutputNote(w, n, t, txid, pos, j)]
  }

  /** A mint to one of the wallet's addresses. */
  function FoundMint(w: Who, m: Mint, txid: nat, value: nat, pos: nat): seq<OwnedNote> {
    if value > 0 && AddressKey(w.env.s, ViewOf(w.env.s, w.keys.sk), Le(m.d)) == Some(m.pkD)
    then [MintNote(m, txid, value, pos)] else []
  }

  function FoundBy(w: Who, e: Event): seq<OwnedNote> {
    match Parse(w.env.cd, e.bytes)
    case Accepted(MintEnvelope(m)) => if e.MintEvent? then FoundMint(w, m, e.txid, e.value, e.pos) else []
    case Accepted(TransferEnvelope(t)) =>
      if e.TransferEvent? && |e.positions| == N_OUT then
        ParseArity(w.env.cd, e.bytes);
        FoundOutput(w, t, e.txid, e.positions[0], 0) + FoundOutput(w, t, e.txid, e.positions[1], 1)
      else []
    case _ => []
  }

  /** Every note of the log that is the wallet's, in order. */
  function FoundIn(w: Who, events: seq<Event>): seq<OwnedNote> {
    if events == [] then [] else FoundIn(w, events[..|events| - 1]) + FoundBy(w, events[|events| - 1])
  }

  predicate SameSource(a: OwnedNote, b: OwnedNote) {
    a.txid == b.txid && a.j == b.j
  }

  predicate HasSource(notes: seq<OwnedNote>, n: OwnedNote) {
    exists i :: 0 <= i < |notes| && SameSource(notes[i], n)
  }

  /** The first note of each source and index. */
  function Firsts(notes: seq<OwnedNote>): seq<OwnedNote> {
    if notes == [] then []
    else
      var n := |notes| - 1;
      var past := Firsts(notes[..n]);
      past + if HasSource(past, notes[n]) then [] else [notes[n]]
  }

  lemma FirstsSnoc(notes: seq<OwnedNote>, n: OwnedNote)
    ensures Firsts(notes + [n]) == Firsts(notes) + if HasSource(Firsts(notes), n) then [] else [n]
  {
    hide HasSource;
    assert (notes + [n])[..|notes|] == notes;
  }

  lemma {:induction false} FirstsAmong(notes: seq<OwnedNote>)
    ensures forall n :: n in Firsts(notes) ==> n in notes
    ensures forall n :: n in notes ==> HasSource(Firsts(notes), n)
    decreases |notes|
  {
    if notes != [] {
      var k := |notes| - 1;
      FirstsAmong(notes[..k]);
      FirstsSnoc(notes[..k], notes[k]);
      assert notes == notes[..k] + [notes[k]];
      forall n | n in notes ensures HasSource(Firsts(notes), n) {
        SourceKept(Firsts(notes[..k]), if HasSource(Firsts(notes[..k]), notes[k]) then [] else [notes[k]], n);
      }
    }
  }

  lemma SourceKept(a: seq<OwnedNote>, b: seq<OwnedNote>, n: OwnedNote)
    ensures HasSource(a, n) ==> HasSource(a + b, n)
    ensures b == [n] ==> HasSource(a + b, n)
  {
    if HasSource(a, n) {
      var i :| 0 <= i < |a| && SameSource(a[i], n);
      assert (a + b)[i] == a[i];
    }
    if b == [n] {
      assert (a + b)[|a|] == n;
    }
  }

  // ------------------------------------------------------------ one record at a time

  /** All of the notes sit below position bound. */
  ghost predicate BelowPos(notes: seq<OwnedNote>, bound: nat) {
    forall i :: 0 <= i < |notes| ==> notes[i].pos < bound
  }

  /** Where positions only grow, the one test that can refuse a nonempty note is
      that of its source and index. */
  lemma RecordFirsts(w: Who, acc: Acc, found: seq<OwnedNote>, n: OwnedNote)
    requires acc.notes == Firsts(found) && BelowPos(found, n.pos) && n.v != 0
    ensures Record(w, acc, n).notes == Firsts(found + [n])
  {
    hide OwnNf, Firsts;
    FirstsSnoc(found, n);
    FirstsAmong(found);
    forall i | 0 <= i < |acc.notes| ensures acc.notes[i].pos != n.pos {
      assert acc.notes[i] in found;
    }
  }

  lemma OutputFirsts(w: Who, acc: Acc, found: seq<OwnedNote>, t: Transfer, txid: nat, pos: nat, j: nat)
    requires Arity(t) && j < N_OUT && acc.notes == Firsts(found) && BelowPos(found, pos)
    ensures SeeOutput(w, acc, t, txid, pos, j).notes == Firsts(found + FoundOutput(w, t, txid, pos, j))
    ensures BelowPos(found + FoundOutput(w, t, txid, pos, j), pos + 1)
  {
    hide DecryptAsRecipient, Firsts, HBody;
    var r := DecryptAsRecipient(w.env.s, t.ct[j], t.pkEph[j], ViewOf(w.env.s, w.keys.sk));
    if r.Some? && r.value.v != 0 {
      RecordFirsts(w, acc, found, OutputNote(w, r.value, t, txid, pos, j));
    } else {
      assert found + [] == found;
    }
  }

  lemma MintFirsts(w: Who, acc: Acc, found: seq<OwnedNote>, m: Mint, txid: nat, value: nat, pos: nat)
    requires acc.notes == Firsts(found) && BelowPos(found, pos)
    ensures SeeMint(w, acc, m, txid, value, pos).notes == Firsts(found + FoundMint(w, m, txid, value, pos))
    ensures BelowPos(found + FoundMint(w, m, txid, value, pos), pos + 1)
  {
    hide AddressKey, Firsts, Le;
    if value > 0 && AddressKey(w.env.s, ViewOf(w.env.s, w.keys.sk), Le(m.d)) == Some(m.pkD) {
      RecordFirsts(w, acc, found, MintNote(m, txid, value, pos));
    } else {
      assert found + [] == found;
    }
  }

  lemma SeeFirsts(w: Who, acc: Acc, found: seq<OwnedNote>, e: Event, n: nat)
    requires acc.notes == Firsts(found) && BelowPos(found, n) && EventAt(w.env, n, e)
    ensures See(w, acc, e).notes == Firsts(found + FoundBy(w, e))
    ensures BelowPos(found + FoundBy(w, e), n + |LeavesBy(w.env, e)|)
  {
    hide Parse, SeeSpend, SeeOutput, SeeMint, FoundOutput, FoundMint, Firsts, OutputLeaf, MintLeaf, Le;
    match Parse(w.env.cd, e.bytes).e {
      case MintEnvelope(m) => MintFirsts(w, acc, found, m, e.txid, e.value, e.pos);
      case TransferEnvelope(t) =>
        ParseArity(w.env.cd, e.bytes);
        OutputFirsts(w, acc, found, t, e.txid, n, 0);
        var acc' := SeeOutput(w, acc, t, e.txid, n, 0);
        var found' := found + FoundOutput(w, t, e.txid, n, 0);
        OutputFirsts(w, acc', found', t, e.txid, n + 1, 1);
        SpendKeepsNotes(w, SeeOutput(w, acc', t, e.txid, n + 1, 1), t, e.txid);
        assert found' + FoundOutput(w, t, e.txid, n + 1, 1) == found + FoundBy(w, e);
    }
  }

  lemma SpendKeepsNotes(w: Who, acc: Acc, t: Transfer, txid: nat)
    requires Arity(t)
    ensures SeeSpend(w, acc, t, txid).notes == acc.notes
  {
    hide DecryptAsSender, Sent;
  }

  // ------------------------------------------------------------------ whole logs

  /** Of any well-kept log a scan from activation records exactly the wallet's
      notes, except those whose source and index an earlier one has. */
  lemma {:induction false} ScanRecords(w: Who, events: seq<Event>)
    requires LogOk(w.env, events)
    ensures SeeAll(w, NOTHING, events).notes == Firsts(FoundIn(w, events))
    ensures BelowPos(FoundIn(w, events), |LeavesOf(w.env, events)|)
    decreases |events|
  {
    hide See, Firsts, FoundBy, LeavesBy, EventAt;
    if events == [] {
      NoFirsts();
    } else {
      var n := |events| - 1;
      ScanRecords(w, events[..n]);
      SeeFirsts(w, SeeAll(w, NOTHING, events[..n]), FoundIn(w, events[..n]), events[n], |LeavesOf(w.env, events[..n])|);
    }
  }

  lemma NoFirsts()
    ensures Firsts([]) == []
  {
  }

  ghost predicate SourcesDiffer(notes: seq<OwnedNote>) {
    forall i, k :: 0 <= i < k < |notes| ==> !SameSource(notes[i], notes[k])
  }

  lemma SourcesSnoc(init: seq<OwnedNote>, n: OwnedNote)
    ensures SourcesDiffer(init + [n]) <==> SourcesDiffer(init) && !HasSource(init, n)
  {
    hide SameSource;
    var notes := init + [n];
    assert forall i :: 0 <= i < |init| ==> notes[i] == init[i];
    if HasSource(init, n) {
      var i :| 0 <= i < |init| && SameSource(init[i], n);
      assert SameSource(notes[i], notes[|init|]);
    }
    if !SourcesDiffer(init) {
      var i, k :| 0 <= i < k < |init| && SameSource(init[i], init[k]);
      assert SameSource(notes[i], notes[k]);
    }
  }

  lemma {:induction false} FirstsOfDistinct(notes: seq<OwnedNote>)
    ensures |Firsts(notes)| <= |notes|
    ensures Firsts(notes) == notes <==> SourcesDiffer(notes)
    decreases |notes|
  {
    hide Firsts, SourcesDiffer, HasSource;
    if notes == [] {
      NoFirsts();
      NoSources();
    } else {
      var init, n := notes[..|notes| - 1], notes[|notes| - 1];
      FirstsOfDistinct(init);
      FirstsSnoc(init, n);
      SourcesSnoc(init, n);
      assert notes == init + [n];
      if Firsts(notes) == notes {
        PrefixFirsts(Firsts(init), init, n);
      }
    }
  }

  lemma PrefixFirsts(past: seq<OwnedNote>, init: seq<OwnedNote>, n: OwnedNote)
    requires |past| <= |init|
    requires past + (if HasSource(past, n) then [] else [n]) == init + [n]
    ensures past == init && !HasSource(init, n)
  {
    hide HasSource;
    var r := past + if HasSource(past, n) then [] else [n];
    assert |r| == |init| + 1;
    assert r[..|init|] == (init + [n])[..|init|];
  }

  /** The scan is complete, every output of the log that decrypts to a positive
      value and every mint to the wallet recorded at its position, exactly when no
      two of them share a transaction and an index. */
  lemma ScanComplete(w: Who, events: seq<Event>)
    requires LogOk(w.env, events)
    ensures SeeAll(w, NOTHING, events).notes == FoundIn(w, events) <==> SourcesDiffer(FoundIn(w, events))
  {
    hide SeeAll, FoundIn, Firsts, LogOk;
    ScanRecords(w, events);
    FirstsOfDistinct(FoundIn(w, events));
  }

  // ---------------------------------------------------------------- distinct txids

  ghost predicate DistinctTxids(events: seq<Event>) {
    forall i, k :: 0 <= i < k < |events| ==> events[i].txid != events[k].txid
  }

  /** The notes of an event carry its txid and, in order, growing indices. */
  lemma FoundByOne(w: Who, e: Event)
    ensures SourcesDiffer(FoundBy(w, e)) && forall n :: n in FoundBy(w, e) ==> n.txid == e.txid
  {
    hide Parse, DecryptAsRecipient, AddressKey, Le, HBody;
  }

  lemma {:induction false} FoundSources(w: Who, events: seq<Event>)
    requires DistinctTxids(events)
    ensures SourcesDiffer(FoundIn(w, events))
    ensures forall n :: n in FoundIn(w, events) ==> exists i :: 0 <= i < |events| && events[i].txid == n.txid
    decreases |events|
  {
    hide FoundBy, SourcesDiffer;
    if events == [] {
      assert SourcesDiffer([]) by { NoSources(); }
    } else {
      var k := |events| - 1;
      var init := events[..k];
      FoundSources(w, init);
      FoundByOne(w, events[k]);
      forall n | n in FoundIn(w, init)
        ensures (exists i :: 0 <= i < |events| && events[i].txid == n.txid) && n.txid != events[k].txid {
        var i :| 0 <= i < |init| && init[i].txid == n.txid;
        assert events[i].txid == n.txid;
      }
      SourcesConcat(FoundIn(w, init), FoundBy(w, events[k]), events[k].txid);
    }
  }

  lemma NoSources()
    ensures SourcesDiffer([])
  {
  }

  lemma SourcesConcat(a: seq<OwnedNote>, b: seq<OwnedNote>, txid: nat)
    requires SourcesDiffer(a) && SourcesDiffer(b)
    requires forall n :: n in a ==> n.txid != txid
    requires forall n :: n in b ==> n.txid == txid
    ensures SourcesDiffer(a + b)
  {
    forall i, k | 0 <= i < k < |a + b| ensures !SameSource((a + b)[i], (a + b)[k]) {
      if i < |a| <= k {
        assert a[i] in a && b[k - |a|] in b;
      }
    }
  }

  /** Transaction ids being distinct, as on Bitcoin, nothing is missed. */
  lemma NothingMissed(w: Who, dep: Deployment, bs: seq<Block>)
    requires DistinctTxids(ReplayAll(w.env, dep, bs).events)
    ensures var events := ReplayAll(w.env, dep, bs).events;
      SeeAll(w, NOTHING, events).notes == FoundIn(w, events)
  {
    hide ReplayAll, SeeAll, FoundIn, LogOk, DistinctTxids, SourcesDiffer;
    ReplayLogged(w.env, dep, bs);
    ScanComplete(w, ReplayAll(w.env, dep, bs).events);
    FoundSources(w, ReplayAll(w.env, dep, bs).events);
  }

  // -------------------------------------------------------- a note that is missed

  lemma OneTxBlock(env: Env, dep: Deployment, bs: seq<Block>, hash: nat, tx: (nat, Carrier.Tx))
    ensures var l := ReplayAll(env, dep, bs);
      var n := ReplayAll(env, dep, bs + [Block(hash, [tx])]);
      n.events == ReplayTx(env, dep, l, l.height + 1, tx).events
  {
    hide ReplayTx, ReplayAll, ReplayBlock;
    var l := ReplayAll(env, dep, bs);
    ReplaySnoc(env, dep, bs, Block(hash, [tx]));
    BlockEvents(env, dep, l, Block(hash, [tx]));
    assert ReplayTxs(env, dep, l, l.height + 1, [tx][..0]) == l;
  }

  /** A funded mint adds one event. */
  lemma MintAdds(env: Env, dep: Deployment, l: Ledger, h: nat, txid: nat, tx: Carrier.Tx, m: Mint, payload: seq<byte>,
                 value: nat)
    requires RequestOf(env.cd, dep.vault, tx) == Deposit(m, payload, value) && value > 0
    ensures ReplayTx(env, dep, l, h, (txid, tx)).events
         == l.events + [MintEvent(txid, h, payload, value, |l.leaves|)]
  {
    hide RequestOf, MintLeaf, Le;
  }

  /** A mint event whose note is the wallet's yields exactly that note. */
  lemma MintFound(w: Who, dep: Deployment, tx: Carrier.Tx, m: Mint, payload: seq<byte>, value: nat, e: Event)
    requires RequestOf(w.env.cd, dep.vault, tx) == Deposit(m, payload, value) && value > 0
    requires AddressKey(w.env.s, ViewOf(w.env.s, w.keys.sk), Le(m.d)) == Some(m.pkD)
    requires e.MintEvent? && e.bytes == payload && e.value == value
    ensures FoundBy(w, e) == [MintNote(m, e.txid, value, e.pos)]
  {
    hide RequestOf, AddressKey, Le, Parse;
    RequestParsed(w.env.cd, dep.vault, tx);
  }

  /** One funded mint carrier in two blocks: replay makes two notes of it, and
      the scan records only the first. */
  lemma MintedTwice(w: Who, dep: Deployment, a: nat, b: nat, txid: nat, tx: Carrier.Tx, m: Mint, payload: seq<byte>,
                    value: nat)
    requires RequestOf(w.env.cd, dep.vault, tx) == Deposit(m, payload, value) && value > 0
    requires AddressKey(w.env.s, ViewOf(w.env.s, w.keys.sk), Le(m.d)) == Some(m.pkD)
    ensures var events := ReplayAll(w.env, dep, [Block(a, [(txid, tx)]), Block(b, [(txid, tx)])]).events;
      |FoundIn(w, events)| == 2 && SeeAll(w, NOTHING, events).notes == FoundIn(w, events)[..1]
  {
    hide RequestOf, AddressKey, Le, Parse, ReplayTx, ReplayAll, SeeAll, LogOk, FoundBy, Firsts;
    var one, two := [Block(a, [(txid, tx)])], [Block(a, [(txid, tx)]), Block(b, [(txid, tx)])];
    assert one == [] + one && two == one + [Block(b, [(txid, tx)])];
    var l0, l1, l2 := ReplayAll(w.env, dep, []), ReplayAll(w.env, dep, one), ReplayAll(w.env, dep, two);
    OneTxBlock(w.env, dep, [], a, (txid, tx));
    OneTxBlock(w.env, dep, one, b, (txid, tx));
    MintAdds(w.env, dep, l0, l0.height + 1, txid, tx, m, payload, value);
    MintAdds(w.env, dep, l1, l1.height + 1, txid, tx, m, payload, value);
    NoEvents(w.env, dep);
    var e, e' := l2.events[0], l2.events[1];
    MintFound(w, dep, tx, m, payload, value, e);
    MintFound(w, dep, tx, m, payload, value, e');
    FoundTwo(w, l2.events);
    ReplayLogged(w.env, dep, two);
    ScanRecords(w, l2.events);
    FirstOfTwo(MintNote(m, txid, value, e.pos), MintNote(m, txid, value, e'.pos));
  }

  lemma NoEvents(env: Env, dep: Deployment)
    ensures ReplayAll(env, dep, []).events == []
  {
  }

  lemma FoundTwo(w: Who, events: seq<Event>)
    requires |events| == 2
    ensures FoundIn(w, events) == FoundBy(w, events[0]) + FoundBy(w, events[1])
  {
    hide FoundBy;
    assert events[..1] == [events[0]];
    assert FoundIn(w, [events[0]]) == FoundIn(w, []) + FoundBy(w, events[0]);
  }

  lemma FirstOfTwo(n: OwnedNote, n': OwnedNote)
    requires SameSource(n, n')
    ensures Firsts([n] + [n']) == [n]
  {
    hide Firsts;
    NoFirsts();
    FirstsSnoc([], n);
    assert [] + [n] == [n];
    FirstsSnoc([n], n');
    assert SameSource([n][0], n');
  }
}
