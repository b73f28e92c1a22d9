/** The append-only note tree: a sparse table of nodes updated along one path
    per append, refining the recursive zero-padded Merkle root. */
module Merkle {
  import opened Binary
  import opened Field
  import opened Wrappers

  const DEPTH: nat := 32

  type Node = (nat, nat) -> nat

  // ------------------------------------------------------------ specification

  /** The hash of the subtree of height level at index idx, absent leaves being
      zero. */
  function Sub(node: Node, leaves: seq<nat>, level: nat, idx: nat): nat {
    if level == 0 then (if idx < |leaves| then leaves[idx] else 0)
    else node(Sub(node, leaves, level - 1, 2 * idx), Sub(node, leaves, level - 1, 2 * idx + 1))
  }

  function Root(node: Node, leaves: seq<nat>): nat {
    Sub(node, leaves, DEPTH, 0)
  }

  function EmptyAt(node: Node, level: nat): nat {
    if level == 0 then 0 else node(EmptyAt(node, level - 1), EmptyAt(node, level - 1))
  }

  /** Folding a leaf up a path: the position's bits say which side it is on. */
  function PathRoot(node: Node, cur: nat, pos: nat, siblings: seq<nat>): nat
    decreases |siblings|
  {
    if siblings == [] then cur
    else
      var up := if pos % 2 == 0 then node(cur, siblings[0]) else node(siblings[0], cur);
      PathRoot(node, up, pos / 2, siblings[1..])
  }

  function Sibling(idx: nat): nat {
    if idx % 2 == 0 then idx + 1 else idx - 1
  }

  /** pos >> l. */
  function Shr(pos: nat, l: nat): nat {
    if l == 0 then pos else Shr(pos, l - 1) / 2
  }

  lemma ShrStep(pos: nat, l: nat)
    ensures Shr(pos, 0) == pos && Shr(pos, l + 1) == Shr(pos, l) / 2
  {
  }

  lemma {:induction false} ShrBelow(pos: nat, l: nat, k: nat)
    requires pos < k * Pow2(l)
    ensures Shr(pos, l) < k
  {
    if l > 0 {
      assert k * Pow2(l) == (2 * k) * Pow2(l - 1);
      ShrBelow(pos, l - 1, 2 * k);
    }
  }

  lemma {:induction false} ShrNext(n: nat, l: nat)
    requires n > 0
    ensures Shr(n - 1, l) <= Shr(n, l) <= Shr(n - 1, l) + 1
  {
    if l > 0 {
      ShrNext(n, l - 1);
    }
  }

  lemma {:induction false} ShrZero(l: nat)
    ensures Shr(0, l) == 0
  {
    if l > 0 {
      ShrZero(l - 1);
    }
  }

  // -------------------------------------------------------------- subtrees

  /** Whether any of the first n positions lies under node idx of a level. */
  predicate Begun(n: nat, level: nat, idx: nat) {
    n > 0 && idx <= Shr(n - 1, level)
  }

  lemma SubSplits(node: Node, leaves: seq<nat>, l: nat, i: nat)
    ensures Sub(node, leaves, l + 1, i) == node(Sub(node, leaves, l, 2 * i), Sub(node, leaves, l, 2 * i + 1))
  {
  }

  lemma {:induction false} SubEmpty(node: Node, leaves: seq<nat>, level: nat, idx: nat)
    requires !Begun(|leaves|, level, idx)
    ensures Sub(node, leaves, level, idx) == EmptyAt(node, level)
  {
    if level > 0 {
      SubEmpty(node, leaves, level - 1, 2 * idx);
      SubEmpty(node, leaves, level - 1, 2 * idx + 1);
    }
  }

  /** Appending changes only the subtrees above the new position. */
  lemma {:induction false} SubUnchanged(node: Node, leaves: seq<nat>, x: nat, level: nat, idx: nat)
    requires idx != Shr(|leaves|, level)
    ensures Sub(node, leaves + [x], level, idx) == Sub(node, leaves, level, idx)
  {
    if level > 0 {
      SubUnchanged(node, leaves, x, level - 1, 2 * idx);
      SubUnchanged(node, leaves, x, level - 1, 2 * idx + 1);
    }
  }

  /** With one more leaf the only subtree that may begin is the one over it. */
  lemma BegunNext(n: nat, level: nat, idx: nat)
    ensures Begun(n + 1, level, idx) <==> Begun(n, level, idx) || idx == Shr(n, level)
  {
    if n == 0 {
      ShrZero(level);
    } else {
      ShrNext(n, level);
    }
  }

  function LeafOr0(leaves: seq<nat>, i: nat): nat {
    if i < |leaves| then leaves[i] else 0
  }

  // ------------------------------------------------------------------- paths

  /** A path carries the siblings of pos in the tree over leaves. */
  predicate IsPath(node: Node, leaves: seq<nat>, pos: nat, siblings: seq<nat>) {
    && |siblings| == DEPTH
    && forall l: nat :: l < DEPTH ==> siblings[l] == Sub(node, leaves, l, Sibling(Shr(pos, l)))
  }

  lemma {:induction false} PathClimbs(node: Node, leaves: seq<nat>, pos: nat, siblings: seq<nat>, l: nat)
    requires IsPath(node, leaves, pos, siblings) && l <= DEPTH && pos < Pow2(DEPTH)
    ensures PathRoot(node, Sub(node, leaves, l, Shr(pos, l)), Shr(pos, l), siblings[l..]) == Root(node, leaves)
    decreases DEPTH - l
  {
    hide Pow2, Sub, Shr;
    ShrStep(pos, l);
    if l == DEPTH {
      ShrBelow(pos, DEPTH, 1);
      assert siblings[l..] == [];
    } else {
      var idx := Shr(pos, l);
      SubSplits(node, leaves, l, idx / 2);
      PathClimbs(node, leaves, pos, siblings, l + 1);
      assert siblings[l..][0] == siblings[l] == Sub(node, leaves, l, Sibling(idx));
      assert siblings[l..][1..] == siblings[l + 1..];
    }
  }

  /** The path of a position, folded from its leaf, reaches the root. */
  lemma PathReachesRoot(node: Node, leaves: seq<nat>, pos: nat, siblings: seq<nat>)
    requires IsPath(node, leaves, pos, siblings) && pos < Pow2(DEPTH)
    ensures PathRoot(node, LeafOr0(leaves, pos), pos, siblings) == Root(node, leaves)
  {
    PathClimbs(node, leaves, pos, siblings, 0);
    assert siblings[0..] == siblings;
  }

  /** node has no collision among the argument pairs in q. */
  ghost predicate CollisionFree(node: Node, q: iset<(nat, nat)>) {
    forall a, b, c, d :: (a, b) in q && (c, d) in q && node(a, b) == node(c, d) ==> a == c && b == d
  }

  /** Every pair hashed in the tree over leaves is in q. */
  ghost predicate TreePairs(node: Node, leaves: seq<nat>, q: iset<(nat, nat)>) {
    forall l: nat, i: nat :: l < DEPTH ==> (Sub(node, leaves, l, 2 * i), Sub(node, leaves, l, 2 * i + 1)) in q
  }

  /** Every pair hashed in folding the path is in q. */
  ghost predicate PathPairs(node: Node, cur: nat, pos: nat, siblings: seq<nat>, q: iset<(nat, nat)>)
    decreases |siblings|
  {
    siblings != [] ==>
      var s := siblings[0];
      if pos % 2 == 0 then (cur, s) in q && PathPairs(node, node(cur, s), pos / 2, siblings[1..], q)
      else (s, cur) in q && PathPairs(node, node(s, cur), pos / 2, siblings[1..], q)
  }

  lemma {:induction false} PathDescends(node: Node, leaves: seq<nat>, q: iset<(nat, nat)>,
                                        cur: nat, pos: nat, siblings: seq<nat>, l: nat)
    requires CollisionFree(node, q) && TreePairs(node, leaves, q) && PathPairs(node, cur, pos, siblings, q)
    requires l + |siblings| == DEPTH && pos < Pow2(|siblings|)
    requires PathRoot(node, cur, pos, siblings) == Root(node, leaves)
    ensures cur == Sub(node, leaves, l, pos)
    decreases |siblings|
  {
    hide Sub;
    if siblings == [] {
      assert pos == 0;
    } else {
      var s := siblings[0];
      var up := if pos % 2 == 0 then node(cur, s) else node(s, cur);
      PathDescends(node, leaves, q, up, pos / 2, siblings[1..], l + 1);
      SubSplits(node, leaves, l, pos / 2);
      assert (Sub(node, leaves, l, 2 * (pos / 2)), Sub(node, leaves, l, 2 * (pos / 2) + 1)) in q;
    }
  }

  /** Any path for a position below 2^32 that reaches the root was folded from
      the leaf the tree holds there. */
  lemma PathSound(node: Node, leaves: seq<nat>, q: iset<(nat, nat)>, leaf: nat, pos: nat, siblings: seq<nat>)
    requires CollisionFree(node, q) && TreePairs(node, leaves, q) && PathPairs(node, leaf, pos, siblings, q)
    requires |siblings| == DEPTH && pos < Pow2(DEPTH)
    requires PathRoot(node, leaf, pos, siblings) == Root(node, leaves)
    ensures leaf == LeafOr0(leaves, pos)
  {
    PathDescends(node, leaves, q, leaf, pos, siblings, 0);
  }

  // ------------------------------------------------------- the sparse table

  /** m holds exactly the nodes of a level whose subtree has begun to fill. */
  ghost predicate LevelOk(node: Node, leaves: seq<nat>, m: map<nat, nat>, level: nat) {
    && (forall i: nat :: i in m <==> Begun(|leaves|, level, i))
    && (forall i: nat :: i in m ==> m[i] == Sub(node, leaves, level, i))
  }

  lemma LevelStep(node: Node, leaves: seq<nat>, x: nat, m: map<nat, nat>, level: nat)
    requires LevelOk(node, leaves, m, level)
    ensures var at := Shr(|leaves|, level);
      LevelOk(node, leaves + [x], m[at := Sub(node, leaves + [x], level, at)], level)
  {
    hide Begun, Sub, Shr;
    var at := Shr(|leaves|, level);
    var m' := m[at := Sub(node, leaves + [x], level, at)];
    assert |leaves + [x]| == |leaves| + 1;
    forall i: nat ensures i in m' <==> Begun(|leaves + [x]|, level, i) {
      BegunNext(|leaves|, level, i);
      assert i in m' <==> i in m || i == at;
    }
    forall i: nat | i in m' ensures m'[i] == Sub(node, leaves + [x], level, i) {
      if i != at {
        assert i in m;
        SubUnchanged(node, leaves, x, level, i);
      }
    }
  }

  /** A stored node, or the level's empty subtree. */
  function Lookup(nodes: seq<map<nat, nat>>, empty: seq<nat>, level: nat, idx: nat): nat
    requires level < |nodes| == |empty|
  {
    if idx in nodes[level] then nodes[level][idx] else empty[level]
  }

  ghost predicate Tables(node: Node, nodes: seq<map<nat, nat>>, empty: seq<nat>) {
    && |nodes| == DEPTH + 1 && |empty| == DEPTH + 1
    && forall l: nat :: l <= DEPTH ==> empty[l] == EmptyAt(node, l)
  }

  /** Levels up to and including level hold the tree over after, the others
      still the tree over before. */
  ghost predicate Updating(node: Node, nodes: seq<map<nat, nat>>, before: seq<nat>, after: seq<nat>, level: nat)
    requires |nodes| == DEPTH + 1
  {
    && (forall l: nat :: l <= level && l <= DEPTH ==> LevelOk(node, after, nodes[l], l))
    && (forall l: nat :: level < l <= DEPTH ==> LevelOk(node, before, nodes[l], l))
  }

  lemma LookupIsSub(node: Node, nodes: seq<map<nat, nat>>, empty: seq<nat>, leaves: seq<nat>, level: nat, idx: nat)
    requires Tables(node, nodes, empty) && level <= DEPTH && LevelOk(node, leaves, nodes[level], level)
    ensures Lookup(nodes, empty, level, idx) == Sub(node, leaves, level, idx)
  {
    hide Sub, EmptyAt, Begun;
    if idx !in nodes[level] {
      SubEmpty(node, leaves, level, idx);
    }
  }

  /** Recomputing one parent brings the next level up to date. */
  lemma UpdateLevel(node: Node, nodes: seq<map<nat, nat>>, empty: seq<nat>, before: seq<nat>, x: nat, level: nat,
                    row: map<nat, nat>)
    requires Tables(node, nodes, empty) && level < DEPTH && Updating(node, nodes, before, before + [x], level)
    requires var parent := Shr(|before|, level) / 2;
      row == nodes[level + 1][parent :=
        node(Lookup(nodes, empty, level, 2 * parent), Lookup(nodes, empty, level, 2 * parent + 1))]
    ensures Updating(node, nodes[level + 1 := row], before, before + [x], level + 1)
  {
    hide Sub, LevelOk, Lookup;
    var parent := Shr(|before|, level) / 2;
    LookupIsSub(node, nodes, empty, before + [x], level, 2 * parent);
    LookupIsSub(node, nodes, empty, before + [x], level, 2 * parent + 1);
    SubSplits(node, before + [x], level, parent);
    LevelStep(node, before, x, nodes[level + 1], level + 1);
  }

  lemma UpdateLeaves(node: Node, nodes: seq<map<nat, nat>>, before: seq<nat>, x: nat, row: map<nat, nat>)
    requires |nodes| == DEPTH + 1 && forall l: nat :: l <= DEPTH ==> LevelOk(node, before, nodes[l], l)
    requires row == nodes[0][|before| := x]
    ensures Updating(node, nodes[0 := row], before, before + [x], 0)
  {
    LevelStep(node, before, x, nodes[0], 0);
  }

  class MerklePath {
    const node: Node
    const pos: nat
    const siblings: seq<nat>

    constructor (node: Node, pos: nat, siblings: seq<nat>)
      ensures this.node == node && this.pos == pos && this.siblings == siblings
    {
      this.node := node;
      this.pos := pos;
      this.siblings := siblings;
    }

    /** MerklePath::root. */
    method FoldRoot(leaf: nat) returns (cur: nat)
      ensures cur == PathRoot(node, leaf, pos, siblings)
    {
      cur := leaf;
      var idx := pos;
      for l := 0 to |siblings|
        invariant PathRoot(node, cur, idx, siblings[l..]) == PathRoot(node, leaf, pos, siblings)
      {
        assert siblings[l..][0] == siblings[l] && siblings[l..][1..] == siblings[l + 1..];
        cur := if idx % 2 == 0 then node(cur, siblings[l]) else node(siblings[l], cur);
        idx := idx / 2;
      }
    }
  }

  lemma EmptyLevel(node: Node, level: nat)
    ensures LevelOk(node, [], map[], level)
  {
  }

  class MerkleTree {
    const node: Node
    var nodes: seq<map<nat, nat>>
    var empty: seq<nat>
    var len: nat
    ghost var contents: seq<nat>

    ghost predicate Valid()
      reads this
    {
      && Tables(node, nodes, empty)
      && len == |contents| && len <= Pow2(DEPTH)
      && (forall l: nat :: l <= DEPTH ==> LevelOk(node, contents, nodes[l], l))
    }

    constructor (node: Node)
      ensures Valid() && contents == [] && this.node == node
    {
      hide LevelOk, Pow2;
      this.node := node;
      nodes := [];
      empty := [0];
      len := 0;
      contents := [];
      new;
      for i := 1 to DEPTH + 1
        modifies this`empty
        invariant |empty| == i
        invariant forall l: nat :: l < i ==> empty[l] == EmptyAt(node, l)
      {
        var prev := empty[i - 1];
        empty := empty + [node(prev, prev)];
      }
      nodes := seq(DEPTH + 1, i => map[]);
      forall l: nat | l <= DEPTH ensures LevelOk(node, contents, nodes[l], l) {
        EmptyLevel(node, l);
      }
    }

    /** The stored node, or the level's empty subtree: always the recursive
        subtree hash. */
    function Get(level: nat, idx: nat): (r: nat)
      requires Valid() && level <= DEPTH
      reads this
      ensures r == Sub(node, contents, level, idx)
    {
      LookupIsSub(node, nodes, empty, contents, level, idx);
      Lookup(nodes, empty, level, idx)
    }

    function RootHash(): (r: nat)
      requires Valid()
      reads this
      ensures r == Root(node, contents)
    {
      Get(DEPTH, 0)
    }

    /** append asserts that the tree is not full. */
    method Append(leaf: nat) returns (pos: nat)
      requires Valid() && len < Pow2(DEPTH)
      modifies this
      ensures Valid() && pos == old(len) && contents == old(contents) + [leaf]
    {
      hide LevelOk, Sub, Lookup, Shr, Pow2, EmptyAt;
      pos := len;
      ghost var before := contents;
      ghost var after := contents + [leaf];
      len := len + 1;
      var row: map<nat, nat> := nodes[0][pos := leaf];
      UpdateLeaves(node, nodes, before, leaf, row);
      nodes := nodes[0 := row];
      var idx := pos;
      ShrStep(pos, 0);
      for level := 0 to DEPTH
        modifies this`nodes
        invariant Tables(node, nodes, empty) && idx == Shr(pos, level)
        invariant Updating(node, nodes, before, after, level)
      {
        var parent := idx / 2;
        var l := Lookup(nodes, empty, level, 2 * parent);
        var r := Lookup(nodes, empty, level, 2 * parent + 1);
        row := nodes[level + 1][parent := node(l, r)];
        UpdateLevel(node, nodes, empty, before, leaf, level, row);
        ShrStep(pos, level);
        nodes := nodes[level + 1 := row];
        idx := parent;
      }
      contents := after;
    }

    function Leaf(pos: nat): (r: Option<nat>)
      requires Valid()
      reads this
      ensures r == if pos < |contents| then Some(contents[pos]) else None
    {
      LeafLevel(node, contents, nodes[0], pos);
      if pos in nodes[0] then Some(nodes[0][pos]) else None
    }

    method Path(pos: nat) returns (r: Option<MerklePath>)
      requires Valid()
      ensures r.None? <==> pos >= |contents|
      ensures r.Some? ==> fresh(r.value) && r.value.node == node && r.value.pos == pos
      ensures r.Some? ==> IsPath(node, contents, pos, r.value.siblings)
      ensures r.Some? ==> PathRoot(node, contents[pos], pos, r.value.siblings) == Root(node, contents)
    {
      hide LevelOk, Sub, Lookup, Shr, Pow2, EmptyAt;
      if pos >= len {
        return None;
      }
      var siblings: seq<nat> := [];
      var idx := pos;
      ShrStep(pos, 0);
      for level := 0 to DEPTH
        invariant |siblings| == level && idx == Shr(pos, level)
        invariant forall l: nat :: l < level ==> siblings[l] == Sub(node, contents, l, Sibling(Shr(pos, l)))
      {
        ShrStep(pos, level);
        siblings := siblings + [Get(level, Sibling(idx))];
        idx := idx / 2;
      }
      PathReachesRoot(node, contents, pos, siblings);
      var p := new MerklePath(node, pos, siblings);
      return Some(p);
    }

    method Leaves() returns (r: seq<nat>)
      requires Valid()
      ensures r == contents
    {
      r := [];
      for i := 0 to len
        invariant r == contents[..i]
      {
        r := r + [Get(0, i)];
      }
    }

    /** The tree as it was when it held its first n leaves (all of them when
        there are fewer). */
    method Prefix(n: nat) returns (t: MerkleTree)
      requires Valid()
      ensures fresh(t) && t.Valid() && t.node == node
      ensures t.contents == if n < |contents| then contents[..n] else contents
    {
      hide LevelOk, Sub, Lookup, Tables, Pow2, EmptyAt;
      t := new MerkleTree(node);
      var m := if n < len then n else len;
      for i := 0 to m
        invariant fresh(t) && t.Valid() && t.node == node
        invariant t.contents == contents[..i]
      {
        SubLeaf(node, contents, i);
        var _ := t.Append(Get(0, i));
      }
    }
  }

  lemma SubLeaf(node: Node, leaves: seq<nat>, i: nat)
    ensures Sub(node, leaves, 0, i) == LeafOr0(leaves, i)
  {
  }

  lemma LeafLevel(node: Node, leaves: seq<nat>, m: map<nat, nat>, pos: nat)
    requires LevelOk(node, leaves, m, 0)
    ensures pos in m <==> pos < |leaves|
    ensures pos in m ==> m[pos] == leaves[pos]
  {
  }
}
