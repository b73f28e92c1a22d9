/** The wallet file across scans: a resumed scan leaves what one scan from
    activation would. */
module Resume {
  import opened Bytes
  import opened Wrappers
  import opened Wire
  import opened Note
  import opened Circuit
  import opened Replay
  import opened EventLog
  import opened Scanning

  const NOTHING: Acc := Acc([], [], {})

  function LastTxid(events: seq<Event>): Option<nat> {
    if events == [] then None else Some(events[|events| - 1].txid)
  }

  /** The event under the cursor is the one last scanned. */
  predicate CursorHolds(f: WalletFile, l: Ledger) {
    f.scannedTxid.Some? && 0 < f.scannedEvents <= |l.events|
    && l.events[f.scannedEvents - 1].txid == f.scannedTxid.value
  }

  /** A wallet whose history changed under it starts over. */
  function Rewound(f: WalletFile, l: Ledger): WalletFile {
    if f.scannedEvents > 0 && !CursorHolds(f, l) then f.(notes := [], sent := [], scannedEvents := 0) else f
  }

  predicate StillThere(w: Who, leaves: seq<nat>, n: OwnedNote) {
    RebuiltLeaf(w, n).Some? && LeafAt(leaves, n.pos) == RebuiltLeaf(w, n)
  }

  function KeptNotes(w: Who, leaves: seq<nat>, notes: seq<OwnedNote>): seq<OwnedNote> {
    if notes == [] then []
    else
      var n := |notes| - 1;
      KeptNotes(w, leaves, notes[..n]) + if StillThere(w, leaves, notes[n]) then [notes[n]] else []
  }

  /** The file once stale records are dropped; dropping one rescans. */
  function Cleaned(w: Who, f: WalletFile, l: Ledger): WalletFile {
    var g := Rewound(f, l);
    var kept := KeptNotes(w, l.leaves, g.notes);
    g.(notes := kept, scannedEvents := if |kept| < |g.notes| then 0 else g.scannedEvents)
  }

  function Marked(w: Who, n: OwnedNote, nullifiers: set<nat>, height: nat): OwnedNote {
    if OwnNf(w, n) in nullifiers then n.(spent := true, lockedBy := None, lockAnchor := None)
    else if n.lockAnchor.Some? && height > n.lockAnchor.value + WINDOW_W then n.(lockedBy := None, lockAnchor := None)
    else n
  }

  function MarkedAll(w: Who, notes: seq<OwnedNote>, nullifiers: set<nat>, height: nat): (r: seq<OwnedNote>)
    ensures |r| == |notes| && forall i :: 0 <= i < |r| ==> r[i] == Marked(w, notes[i], nullifiers, height)
  {
    seq(|notes|, i requires 0 <= i < |notes| => Marked(w, notes[i], nullifiers, height))
  }

  /** The events a scan of l still has to look at. */
  function Pending(w: Who, f: WalletFile, l: Ledger): seq<Event> {
    var g := Cleaned(w, f, l);
    if g.scannedEvents <= |l.events| then l.events[g.scannedEvents..] else []
  }

  /** What scanning has gathered when it reaches the k-th pending event. */
  function Gathered(w: Who, f: WalletFile, l: Ledger, k: nat): Acc
    requires k <= |Pending(w, f, l)|
  {
    var g := Cleaned(w, f, l);
    SeeAll(w, Acc(g.notes, g.sent, NfSet(w, g.notes)), Pending(w, f, l)[..k])
  }

  /** The file once acc has been gathered from all of l's events. */
  function Finished(w: Who, f: WalletFile, acc: Acc, l: Ledger): WalletFile {
    f.(notes := MarkedAll(w, acc.notes, l.nullifiers, l.height), sent := acc.sent,
       scannedEvents := |l.events|, scannedTxid := LastTxid(l.events))
  }

  /** The file after a scan that met no trouble. */
  function ScanFile(w: Who, f: WalletFile, l: Ledger): WalletFile {
    Finished(w, f, Gathered(w, f, l, |Pending(w, f, l)|), l)
  }

  /** The file is what scanning exactly these events from activation gives,
      locks aside. */
  ghost predicate Tracks(w: Who, f: WalletFile, events: seq<Event>) {
    var base := SeeAll(w, NOTHING, events);
    && f.scannedEvents == |events| && f.scannedTxid == LastTxid(events)
    && f.sent == base.sent && |f.notes| == |base.notes|
    && forall i :: 0 <= i < |f.notes| ==> TracksNote(w, f.notes[i], base.notes[i], NfsOf(w.env, events))
  }

  ghost predicate TracksNote(w: Who, n: OwnedNote, b: OwnedNote, nullifiers: set<nat>) {
    Bare(n) == Bare(b) && (n.spent <==> b.spent || OwnNf(w, b) in nullifiers)
  }

  ghost predicate ValidWho(w: Who) {
    ValidSuite(w.env.s) && SoundCodec(w.env.cd) && w.env.cd.f == w.env.s.c.f
  }

  /** Equal but for locks. */
  ghost predicate SameButLocks(f: WalletFile, g: WalletFile) {
    && f.sent == g.sent && f.scannedEvents == g.scannedEvents && f.scannedTxid == g.scannedTxid
    && |f.notes| == |g.notes|
    && forall i :: 0 <= i < |f.notes| ==>
         f.notes[i].(lockedBy := None, lockAnchor := None) == g.notes[i].(lockedBy := None, lockAnchor := None)
  }

  lemma TracksDetermines(w: Who, f: WalletFile, g: WalletFile, events: seq<Event>)
    requires Tracks(w, f, events) && Tracks(w, g, events)
    ensures SameButLocks(f, g)
  {
    hide SeeAll, NfsOf, OwnNf;
    var base := SeeAll(w, NOTHING, events);
    forall i | 0 <= i < |f.notes|
      ensures f.notes[i].(lockedBy := None, lockAnchor := None) == g.notes[i].(lockedBy := None, lockAnchor := None)
    {
      assert TracksNote(w, f.notes[i], base.notes[i], NfsOf(w.env, events));
      assert TracksNote(w, g.notes[i], base.notes[i], NfsOf(w.env, events));
      SameNote(f.notes[i], g.notes[i]);
    }
  }

  lemma SameNote(a: OwnedNote, b: OwnedNote)
    requires Bare(a) == Bare(b) && a.spent == b.spent
    ensures a.(lockedBy := None, lockAnchor := None) == b.(lockedBy := None, lockAnchor := None)
  {
    assert a.(lockedBy := None, lockAnchor := None) == Bare(a).(spent := a.spent);
    assert b.(lockedBy := None, lockAnchor := None) == Bare(b).(spent := b.spent);
  }

  // --------------------------------------------------------- nothing is dropped

  /** Tidying drops a note exactly when the tree no longer holds the leaf it
      rebuilds. */
  lemma {:induction false} KeptIff(w: Who, leaves: seq<nat>, notes: seq<OwnedNote>, n: OwnedNote)
    ensures n in KeptNotes(w, leaves, notes) <==> n in notes && StillThere(w, leaves, n)
    decreases |notes|
  {
    hide StillThere;
    if notes != [] {
      var k := |notes| - 1;
      KeptIff(w, leaves, notes[..k], n);
      assert notes == notes[..k] + [notes[k]];
    }
  }

  lemma {:induction false} AllKept(w: Who, leaves: seq<nat>, notes: seq<OwnedNote>)
    requires forall i :: 0 <= i < |notes| ==> StillThere(w, leaves, notes[i])
    ensures KeptNotes(w, leaves, notes) == notes
    decreases |notes|
  {
    hide StillThere;
    if notes != [] {
      AllKept(w, leaves, notes[..|notes| - 1]);
    }
  }

  lemma SameBare(w: Who, a: OwnedNote, b: OwnedNote)
    requires Bare(a) == Bare(b)
    ensures RebuiltLeaf(w, a) == RebuiltLeaf(w, b) && OwnNf(w, a) == OwnNf(w, b) && a.pos == b.pos
  {
    hide InputLeaf;
    var c := Bare(a);
    assert a.v == c.v && a.d == c.d && a.rSeed == c.rSeed && a.isMint == c.isMint && a.hBody == c.hBody && a.j == c.j
      && a.pos == c.pos;
    assert b.v == c.v && b.d == c.d && b.rSeed == c.rSeed && b.isMint == c.isMint && b.hBody == c.hBody && b.j == c.j
      && b.pos == c.pos;
  }

  /** Scanning a well-kept log from nothing. */
  lemma FromNothing(w: Who, events: seq<Event>, k: nat)
    requires ValidWho(w) && LogOk(w.env, events) && k <= |events|
    ensures AccOk(w, LeavesOf(w.env, events), SeeAll(w, NOTHING, events[..k]))
  {
    hide SeeAll, LogOk, LeavesOf, ValidSuite, SoundCodec, FirstTrouble, RebuiltLeaf, OwnNf;
    var past := events[..k];
    LogPrefix(w.env, events, k);
    LogScans(w, LeavesOf(w.env, past), past, 0);
    assert past[0..] == past;
    assert NfSet(w, []) == {};
    ScanOk(w, LeavesOf(w.env, past), NOTHING, past);
    MatchGrows(w, LeavesOf(w.env, past), LeavesOf(w.env, events), SeeAll(w, NOTHING, past).notes);
  }

  lemma MatchGrows(w: Who, a: seq<nat>, b: seq<nat>, notes: seq<OwnedNote>)
    requires a <= b && Match(w, a, notes)
    ensures Match(w, b, notes)
  {
    hide RebuiltLeaf;
  }

  lemma TrackedMatch(w: Who, leaves: seq<nat>, f: WalletFile, base: Acc, nullifiers: set<nat>)
    requires |f.notes| == |base.notes| && AccOk(w, leaves, base)
    requires forall i :: 0 <= i < |f.notes| ==> TracksNote(w, f.notes[i], base.notes[i], nullifiers)
    ensures forall i :: 0 <= i < |f.notes| ==> StillThere(w, leaves, f.notes[i])
    ensures NfSet(w, f.notes) == base.nfs
  {
    hide RebuiltLeaf, OwnNf, Bare;
    forall i | 0 <= i < |f.notes|
      ensures StillThere(w, leaves, f.notes[i]) && OwnNf(w, f.notes[i]) == OwnNf(w, base.notes[i])
    {
      assert TracksNote(w, f.notes[i], base.notes[i], nullifiers);
      SameBare(w, f.notes[i], base.notes[i]);
    }
    SameNfs(w, f.notes, base.notes);
  }

  lemma SameNfs(w: Who, a: seq<OwnedNote>, b: seq<OwnedNote>)
    requires |a| == |b| && forall i :: 0 <= i < |a| ==> OwnNf(w, a[i]) == OwnNf(w, b[i])
    ensures NfSet(w, a) == NfSet(w, b)
  {
    hide OwnNf;
    forall x ensures x in NfSet(w, a) <==> x in NfSet(w, b) {
      if x in NfSet(w, a) {
        var i :| 0 <= i < |a| && OwnNf(w, a[i]) == x;
        assert OwnNf(w, b[i]) == x;
      }
      if x in NfSet(w, b) {
        var i :| 0 <= i < |b| && OwnNf(w, b[i]) == x;
        assert OwnNf(w, a[i]) == x;
      }
    }
  }

  // ------------------------------------------------------------------- marking

  lemma MarkTracks(w: Who, n: OwnedNote, b: OwnedNote, some: set<nat>, all: set<nat>, height: nat)
    requires TracksNote(w, n, b, some) && some <= all
    ensures TracksNote(w, Marked(w, n, all, height), b, all)
  {
    hide OwnNf, Bare, Marked;
    SameBare(w, n, b);
    MarkedSpent(w, n, all, height);
  }

  lemma MarkedSpent(w: Who, n: OwnedNote, nullifiers: set<nat>, height: nat)
    ensures var m := Marked(w, n, nullifiers, height);
      Bare(m) == Bare(n) && (m.spent <==> n.spent || OwnNf(w, n) in nullifiers)
  {
    hide OwnNf;
  }

  lemma MarkTwice(w: Who, n: OwnedNote, nullifiers: set<nat>, height: nat)
    ensures Marked(w, Marked(w, n, nullifiers, height), nullifiers, height) == Marked(w, n, nullifiers, height)
  {
    hide NullifierOf;
  }

  // -------------------------------------------------------------------- resuming

  /** The notes after the first k are those of all. */
  ghost predicate NewFrom(notes: seq<OwnedNote>, all: seq<OwnedNote>, k: nat) {
    |notes| == |all| && forall i :: k <= i < |notes| ==> notes[i] == all[i]
  }

  /** Continuing from a tracked prefix of a well-kept log. */
  lemma Continue(w: Who, f: WalletFile, events: seq<Event>, k: nat, nullifiers: set<nat>, height: nat)
    requires ValidWho(w) && LogOk(w.env, events) && k <= |events| && Tracks(w, f, events[..k])
    requires nullifiers == NfsOf(w.env, events)
    ensures KeptNotes(w, LeavesOf(w.env, events), f.notes) == f.notes
    ensures var acc := SeeAll(w, Acc(f.notes, f.sent, NfSet(w, f.notes)), events[k..]);
      Tracks(w, f.(notes := MarkedAll(w, acc.notes, nullifiers, height), sent := acc.sent,
                   scannedEvents := |events|, scannedTxid := LastTxid(events)), events)
      && f.notes <= acc.notes
      && NewFrom(acc.notes, SeeAll(w, NOTHING, events).notes, |f.notes|)
  {
    hide SeeAll, LogOk, LeavesOf, ValidWho, NfsOf, OwnNf, RebuiltLeaf, AccOk, Bare, Marked;
    var leaves := LeavesOf(w.env, events);
    var base := SeeAll(w, NOTHING, events[..k]);
    FromNothing(w, events, k);
    TrackedMatch(w, leaves, f, base, NfsOf(w.env, events[..k]));
    AllKept(w, leaves, f.notes);
    var mine := Acc(f.notes, f.sent, NfSet(w, f.notes));
    TrackedBeside(w, f, base, NfsOf(w.env, events[..k]));
    ScanBeside(w, mine, base, |f.notes|, events[k..]);
    BesideSelf(base);
    ScanBeside(w, base, base, |base.notes|, events[k..]);
    ScanConcat(w, NOTHING, events[..k], events[k..]);
    assert events[..k] + events[k..] == events;
    LogPrefix(w.env, events, k);
    var acc, all := SeeAll(w, mine, events[k..]), SeeAll(w, base, events[k..]);
    forall i | 0 <= i < |acc.notes|
      ensures TracksNote(w, Marked(w, acc.notes[i], nullifiers, height), all.notes[i], nullifiers) {
      if i < |f.notes| {
        assert TracksNote(w, f.notes[i], base.notes[i], NfsOf(w.env, events[..k]));
        MarkTracks(w, acc.notes[i], all.notes[i], NfsOf(w.env, events[..k]), nullifiers, height);
      } else {
        MarkNew(w, acc.notes[i], nullifiers, height);
      }
    }
  }

  lemma BesideSelf(a: Acc)
    ensures AccBeside(a, a, |a.notes|)
  {
  }

  lemma MarkNew(w: Who, n: OwnedNote, nullifiers: set<nat>, height: nat)
    ensures TracksNote(w, Marked(w, n, nullifiers, height), n, nullifiers)
  {
    hide OwnNf;
  }

  lemma TrackedBeside(w: Who, f: WalletFile, base: Acc, nullifiers: set<nat>)
    requires |f.notes| == |base.notes| && f.sent == base.sent && NfSet(w, f.notes) == base.nfs
    requires forall i :: 0 <= i < |f.notes| ==> TracksNote(w, f.notes[i], base.notes[i], nullifiers)
    ensures AccBeside(Acc(f.notes, f.sent, NfSet(w, f.notes)), base, |f.notes|)
  {
    hide OwnNf, Bare;
    forall i | 0 <= i < |f.notes| ensures Bare(f.notes[i]) == Bare(base.notes[i]) {
      assert TracksNote(w, f.notes[i], base.notes[i], nullifiers);
    }
  }

  /** The wallet may resume at l: what it scanned is a prefix of l's events, or
      the event under its cursor has another txid. */
  ghost predicate Resumable(f: WalletFile, scanned: seq<Event>, l: Ledger) {
    scanned <= l.events || !CursorHolds(f, l)
  }

  /** Scanning a reachable state never fails, drops nothing it should keep, and
      leaves the wallet tracking exactly the state's events: the same notes,
      spent flags and sent records as one scan from activation. */
  lemma ScanResumes(w: Who, dep: Deployment, f: WalletFile, scanned: seq<Event>, bs: seq<Block>)
    requires ValidWho(w) && Tracks(w, f, scanned) && Resumable(f, scanned, ReplayAll(w.env, dep, bs))
    ensures var l := ReplayAll(w.env, dep, bs);
      FirstTrouble(w, l.leaves, Pending(w, f, l)) == None && Tracks(w, ScanFile(w, f, l), l.events)
  {
    hide ReplayAll, SeeAll, LogOk, LeavesOf, ValidWho, NfsOf, KeptNotes, FirstTrouble, Tracks, MarkedAll;
    var l := ReplayAll(w.env, dep, bs);
    ReplayLogged(w.env, dep, bs);
    var k: nat := Rewound(f, l).scannedEvents;
    var g := Rewound(f, l).(scannedTxid := LastTxid(l.events[..k]));
    RewoundTracks(w, f, scanned, l);
    Continue(w, g, l.events, k, l.nullifiers, l.height);
    LogScans(w, l.leaves, l.events, k);
    assert Cleaned(w, f, l) == Rewound(f, l);
    assert Pending(w, f, l)[..|Pending(w, f, l)|] == l.events[k..];
    var acc := SeeAll(w, Acc(g.notes, g.sent, NfSet(w, g.notes)), l.events[k..]);
    var h := g.(notes := MarkedAll(w, acc.notes, l.nullifiers, l.height), sent := acc.sent,
                scannedEvents := |l.events|, scannedTxid := LastTxid(l.events));
    assert ScanFile(w, f, l) == h;
  }

  /** Resuming, a scan keeps every note it had, lock and all, but for spent flags
      and lapsed locks; and a note new to the file is as one scan from activation
      records it. */
  lemma ScanAdds(w: Who, dep: Deployment, f: WalletFile, scanned: seq<Event>, bs: seq<Block>)
    requires ValidWho(w) && Tracks(w, f, scanned) && scanned <= ReplayAll(w.env, dep, bs).events
    ensures var l := ReplayAll(w.env, dep, bs);
      var all := SeeAll(w, NOTHING, l.events).notes;
      && NewFrom(ScanFile(w, f, l).notes, MarkedAll(w, all, l.nullifiers, l.height), |f.notes|)
      && MarkedAll(w, f.notes, l.nullifiers, l.height) <= ScanFile(w, f, l).notes
  {
    hide ReplayAll, SeeAll, LogOk, LeavesOf, ValidWho, NfsOf, KeptNotes, Tracks, Marked;
    var l := ReplayAll(w.env, dep, bs);
    var k := |scanned|;
    ReplayLogged(w.env, dep, bs);
    TracksCursor(w, f, scanned, l);
    assert l.events[..k] == scanned;
    Continue(w, f, l.events, k, l.nullifiers, l.height);
    assert Cleaned(w, f, l) == f;
    assert Pending(w, f, l)[..|Pending(w, f, l)|] == l.events[k..];
  }

  lemma TracksCursor(w: Who, f: WalletFile, scanned: seq<Event>, l: Ledger)
    requires Tracks(w, f, scanned) && scanned <= l.events
    ensures Rewound(f, l) == f && f.scannedEvents == |scanned|
  {
    hide SeeAll, NfsOf;
  }

  const NEW_FILE: WalletFile := WalletFile([], [], 0, None, [], map[], [])

  /** Locks are no part of tracking. */
  lemma TracksUpToLocks(w: Who, f: WalletFile, g: WalletFile, events: seq<Event>)
    requires Tracks(w, f, events) && SameButLocks(f, g)
    ensures Tracks(w, g, events)
  {
    hide SeeAll, NfsOf, OwnNf;
    var base := SeeAll(w, NOTHING, events);
    forall i | 0 <= i < |g.notes| ensures TracksNote(w, g.notes[i], base.notes[i], NfsOf(w.env, events)) {
      assert TracksNote(w, f.notes[i], base.notes[i], NfsOf(w.env, events));
      assert f.notes[i].(lockedBy := None, lockAnchor := None) == g.notes[i].(lockedBy := None, lockAnchor := None);
      SameFlags(f.notes[i], g.notes[i]);
    }
  }

  lemma SameFlags(a: OwnedNote, b: OwnedNote)
    requires a.(lockedBy := None, lockAnchor := None) == b.(lockedBy := None, lockAnchor := None)
    ensures Bare(a) == Bare(b) && a.spent == b.spent
  {
    var c := a.(lockedBy := None, lockAnchor := None);
    assert Bare(a) == Bare(c) && Bare(b) == Bare(b.(lockedBy := None, lockAnchor := None));
    assert a.spent == c.spent && b.spent == c.spent;
  }

  /** A new wallet that scans one reachable state, locks and unlocks notes at
      will, and then scans another whose events extend the first's, or whose
      event under the cursor has another txid, holds what a new wallet scanning
      only the second holds: the same notes, spent flags, sent records and
      cursor, locks aside. */
  lemma TwoScansAreOne(w: Who, dep: Deployment, bs: seq<Block>, bs': seq<Block>, g: WalletFile)
    requires ValidWho(w) && SameButLocks(ScanFile(w, NEW_FILE, ReplayAll(w.env, dep, bs)), g)
    requires Resumable(g, ReplayAll(w.env, dep, bs).events, ReplayAll(w.env, dep, bs'))
    ensures SameButLocks(ScanFile(w, g, ReplayAll(w.env, dep, bs')), ScanFile(w, NEW_FILE, ReplayAll(w.env, dep, bs')))
  {
    hide ReplayAll, ScanFile, Tracks, ValidWho, SameButLocks, Resumable;
    var l, m := ReplayAll(w.env, dep, bs), ReplayAll(w.env, dep, bs');
    NewTracks(w, l);
    NewTracks(w, m);
    ScanResumes(w, dep, NEW_FILE, [], bs);
    TracksUpToLocks(w, ScanFile(w, NEW_FILE, l), g, l.events);
    ScanResumes(w, dep, g, l.events, bs');
    ScanResumes(w, dep, NEW_FILE, [], bs');
    TracksDetermines(w, ScanFile(w, g, m), ScanFile(w, NEW_FILE, m), m.events);
  }

  lemma NewTracks(w: Who, l: Ledger)
    ensures Tracks(w, NEW_FILE, []) && Resumable(NEW_FILE, [], l)
  {
  }

  lemma RewoundTracks(w: Who, f: WalletFile, scanned: seq<Event>, l: Ledger)
    requires Tracks(w, f, scanned) && Resumable(f, scanned, l)
    ensures var g := Rewound(f, l);
      g.scannedEvents <= |l.events|
      && Tracks(w, g.(scannedTxid := LastTxid(l.events[..g.scannedEvents])), l.events[..g.scannedEvents])
  {
    hide See, NfsOf;
    if f.scannedEvents > 0 && CursorHolds(f, l) {
      assert l.events[..|scanned|] == scanned;
    } else if f.scannedEvents > 0 {
      assert l.events[..0] == [];
    } else {
      assert scanned == [] && l.events[..0] == [];
    }
  }

  /** A second scan of the same state changes nothing. */
  lemma ScanTwice(w: Who, dep: Deployment, f: WalletFile, scanned: seq<Event>, bs: seq<Block>)
    requires ValidWho(w) && Tracks(w, f, scanned) && Resumable(f, scanned, ReplayAll(w.env, dep, bs))
    ensures var l := ReplayAll(w.env, dep, bs);
      ScanFile(w, ScanFile(w, f, l), l) == ScanFile(w, f, l)
  {
    hide ReplayAll, SeeAll, LogOk, LeavesOf, ValidWho, NfsOf, KeptNotes, FirstTrouble, Tracks, Marked;
    var l := ReplayAll(w.env, dep, bs);
    var g := ScanFile(w, f, l);
    ScanResumes(w, dep, f, scanned, bs);
    ReplayLogged(w.env, dep, bs);
    RewoundTracks(w, g, l.events, l);
    StaysPut(w, g, l);
    assert l.events[..|l.events|] == l.events;
    Continue(w, g, l.events, |l.events|, l.nullifiers, l.height);
    assert l.events[|l.events|..] == [];
    assert Cleaned(w, g, l) == g;
    EmptyScan(w, Acc(g.notes, g.sent, NfSet(w, g.notes)));
    var first := Gathered(w, f, l, |Pending(w, f, l)|).notes;
    forall i | 0 <= i < |g.notes| ensures Marked(w, g.notes[i], l.nullifiers, l.height) == g.notes[i] {
      MarkTwice(w, first[i], l.nullifiers, l.height);
    }
    assert MarkedAll(w, g.notes, l.nullifiers, l.height) == g.notes;
  }

  lemma EmptyScan(w: Who, acc: Acc)
    ensures SeeAll(w, acc, []) == acc
  {
  }

  lemma StaysPut(w: Who, g: WalletFile, l: Ledger)
    requires g.scannedEvents == |l.events| && g.scannedTxid == LastTxid(l.events)
    ensures Rewound(g, l) == g && LastTxid(l.events[..|l.events|]) == g.scannedTxid
  {
    assert l.events[..|l.events|] == l.events;
  }

  /** A lock lapses only when no block above the replayed height can accept a
      transfer under the lock's anchor. */
  lemma LapseIsSafe(w: Who, n: OwnedNote, l: Ledger, m: Ledger, h: nat, t: Transfer)
    requires Arity(t) && n.lockAnchor == Some(t.hAnchor) && OwnNf(w, n) !in l.nullifiers
    requires Marked(w, n, l.nullifiers, l.height).lockAnchor == None && h > l.height
    ensures Judge(w.env, m, h, t) == Some(AnchorOutsideWindow(t.hAnchor, h))
    ensures Marked(w, n, l.nullifiers, l.height).lockedBy == None
      && Marked(w, n, l.nullifiers, l.height).spent == n.spent
  {
    hide OwnNf, StatementDigest;
  }

  /** Some block from height from on can accept a transfer under this anchor. */
  ghost predicate CanAccept(anchor: nat, from: nat) {
    exists h: nat :: h >= from && InWindow(anchor, h)
  }

  lemma CanAcceptIff(anchor: nat, from: nat)
    ensures CanAccept(anchor, from) <==> from <= anchor + WINDOW_W
  {
    if from <= anchor + WINDOW_W {
      var h := if from > anchor then from else anchor + K_MIN;
      assert InWindow(anchor, h);
    }
  }

  /** A scan at height releases a spent note and marks it so, keeps the lock of an
      unspent one while a block from that height on can accept its anchor, and
      lets it lapse after. */
  lemma LapseIff(w: Who, n: OwnedNote, nullifiers: set<nat>, height: nat, anchor: nat)
    requires n.lockAnchor == Some(anchor)
    ensures Marked(w, n, nullifiers, height) ==
      if OwnNf(w, n) in nullifiers then n.(spent := true, lockedBy := None, lockAnchor := None)
      else if CanAccept(anchor, height) then n
      else n.(lockedBy := None, lockAnchor := None)
  {
    hide OwnNf, CanAccept;
    CanAcceptIff(anchor, height);
  }

  /** The scan's own block is behind it, so the lock could lapse as soon as no
      later block can accept the anchor. It does so exactly when that, except at
      one height, the last of the window. */
  lemma LapsesOnTimeIff(w: Who, n: OwnedNote, nullifiers: set<nat>, height: nat, anchor: nat)
    requires n.lockAnchor == Some(anchor) && OwnNf(w, n) !in nullifiers
    ensures (Marked(w, n, nullifiers, height).lockAnchor == None <==> !CanAccept(anchor, height + 1))
            <==> height != anchor + WINDOW_W
  {
    hide OwnNf, CanAccept;
    CanAcceptIff(anchor, height + 1);
  }

  /** At height 600 a lock anchored at 500 stays, though block 601 refuses the
      anchor and so does every later one. */
  lemma LapsesLate(w: Who, n: OwnedNote, nullifiers: set<nat>)
    requires n.lockAnchor == Some(500) && OwnNf(w, n) !in nullifiers
    ensures !CanAccept(500, 601) && Marked(w, n, nullifiers, 600) == n
  {
    hide OwnNf, CanAccept;
    CanAcceptIff(500, 601);
  }
}
