/** Input selection: the largest spendable notes under the anchor, two at most. */
module Selection {
  import opened Bytes
  import opened Wrappers
  import opened Wire
  import opened Scanning
  import opened Sorting

  predicate Spendable(n: OwnedNote, len: nat) {
    !n.spent && n.lockedBy.None? && n.pos < len
  }

  /** The indices below n of spendable notes. */
  function Candidates(notes: seq<OwnedNote>, len: nat, n: nat): (r: seq<nat>)
    requires n <= |notes|
    ensures forall i :: i in r <==> 0 <= i < n && Spendable(notes[i], len)
    ensures forall i, k :: 0 <= i < k < |r| ==> r[i] != r[k]
  {
    if n == 0 then []
    else if Spendable(notes[n - 1], len) then Candidates(notes, len, n - 1) + [n - 1]
    else Candidates(notes, len, n - 1)
  }

  predicate Indices(notes: seq<OwnedNote>, order: seq<nat>) {
    && (forall i :: 0 <= i < |order| ==> order[i] < |notes|)
    && (forall i, k :: 0 <= i < k < |order| ==> order[i] != order[k])
  }

  predicate Descending(notes: seq<OwnedNote>, order: seq<nat>)
    requires Indices(notes, order)
  {
    forall i, k :: 0 <= i < k < |order| ==> notes[order[i]].v >= notes[order[k]].v
  }

  function ValueOf(notes: seq<OwnedNote>): nat -> nat {
    (i: nat) => if i < |notes| then notes[i].v else 0
  }

  /** The candidates, most valuable first. */
  method SortDesc(notes: seq<OwnedNote>, cands: seq<nat>) returns (order: seq<nat>)
    requires Indices(notes, cands)
    ensures Indices(notes, order) && Descending(notes, order)
    ensures forall i :: i in order <==> i in cands
  {
    order := SortDescending(cands, ValueOf(notes));
    MembersSame(cands, order);
    DistinctSame(cands, order);
    forall i | 0 <= i < |order| ensures order[i] < |notes| {
      assert order[i] in cands;
    }
    assert Indices(notes, order);
    forall i, k | 0 <= i < k < |order| ensures notes[order[i]].v >= notes[order[k]].v {
      assert ValueOf(notes)(order[i]) >= ValueOf(notes)(order[k]);
    }
  }

  /** One spendable note covers the amount, or two together do. */
  predicate CoveredByOne(notes: seq<OwnedNote>, len: nat, amount: nat) {
    exists i :: 0 <= i < |notes| && Spendable(notes[i], len) && notes[i].v >= amount
  }

  predicate CoveredByTwo(notes: seq<OwnedNote>, len: nat, amount: nat) {
    exists i, k :: 0 <= i < k < |notes| && Spendable(notes[i], len) && Spendable(notes[k], len)
                   && notes[i].v + notes[k].v >= amount
  }

  function Total(notes: seq<OwnedNote>, inputs: seq<nat>): nat
    requires forall i :: 0 <= i < |inputs| ==> inputs[i] < |notes|
  {
    if inputs == [] then 0
    else
      var n := |inputs| - 1;
      Total(notes, inputs[..n]) + notes[inputs[n]].v
  }

  datatype Choice = Chosen(inputs: seq<nat>, total: nat) | Insufficient(available: nat) | Overflow

  /** What two of the order at most add up to. */
  function Reach(notes: seq<OwnedNote>, order: seq<nat>): nat
    requires Indices(notes, order)
  {
    if |order| == 0 then 0 else notes[order[0]].v + if |order| == 1 then 0 else notes[order[1]].v
  }

  /** The first one or two of the order, two only when one falls short. */
  predicate Taken(notes: seq<OwnedNote>, order: seq<nat>, amount: nat, inputs: seq<nat>, total: nat)
    requires Indices(notes, order)
  {
    && 1 <= |inputs| <= N_IN && |inputs| <= |order| && inputs == order[..|inputs|]
    && total == Total(notes, inputs) && amount <= total < U64
    && (|inputs| == 2 ==> notes[order[0]].v < amount)
    && (|inputs| == 1 ==> notes[order[0]].v >= amount)
    && total <= Reach(notes, order)
  }

  /** Takes candidates in order until they cover the amount or two are taken. */
  method TakeInputs(notes: seq<OwnedNote>, order: seq<nat>, amount: nat) returns (r: Choice)
    requires Indices(notes, order) && amount > 0
    ensures r.Chosen? ==> Taken(notes, order, amount, r.inputs, r.total)
    ensures r.Insufficient? ==> r.available == Reach(notes, order) < amount
    ensures r.Overflow? ==> |order| > 0 && Reach(notes, order) >= U64
  {
    hide Total;
    var chosen: seq<nat> := [];
    var total := 0;
    TotalNone(notes);
    while |chosen| < |order| && total < amount && |chosen| < N_IN
      invariant |chosen| <= |order| && |chosen| <= N_IN && chosen == order[..|chosen|]
      invariant total == Total(notes, chosen) == FirstOnes(notes, order, |chosen|) < U64
      invariant |chosen| == 2 ==> notes[order[0]].v < amount
    {
      var i := |chosen|;
      TotalSnoc(notes, chosen, order[i]);
      chosen := chosen + [order[i]];
      if total + notes[order[i]].v >= U64 {
        return Overflow;
      }
      total := total + notes[order[i]].v;
    }
    if total < amount {
      return Insufficient(total);
    }
    return Chosen(chosen, total);
  }

  /** What the first k of the order add up to, k at most two. */
  function FirstOnes(notes: seq<OwnedNote>, order: seq<nat>, k: nat): nat
    requires Indices(notes, order) && k <= |order|
  {
    if k == 0 then 0 else if k == 1 then notes[order[0]].v else Reach(notes, order)
  }

  lemma TotalNone(notes: seq<OwnedNote>)
    ensures Total(notes, []) == 0
  {
  }

  lemma TotalSnoc(notes: seq<OwnedNote>, inputs: seq<nat>, i: nat)
    requires i < |notes| && forall k :: 0 <= k < |inputs| ==> inputs[k] < |notes|
    ensures Total(notes, inputs + [i]) == Total(notes, inputs) + notes[i].v
  {
    assert (inputs + [i])[..|inputs|] == inputs;
  }

  /** A sound choice of inputs: distinct spendable notes covering the amount,
      one only when one suffices. */
  predicate Selected(notes: seq<OwnedNote>, len: nat, amount: nat, inputs: seq<nat>, total: nat) {
    && Indices(notes, inputs) && 1 <= |inputs| <= N_IN
    && (forall i :: 0 <= i < |inputs| ==> Spendable(notes[inputs[i]], len))
    && total == Total(notes, inputs) && amount <= total < U64
    && (|inputs| == 1 <==> CoveredByOne(notes, len, amount))
  }

  /** The whole selection. It fails for want of balance exactly when no one or
      two spendable notes cover the amount, and uses one when one suffices. */
  method SelectInputs(notes: seq<OwnedNote>, len: nat, amount: nat) returns (r: Choice)
    requires 0 < amount < U64
    ensures r.Chosen? ==> Selected(notes, len, amount, r.inputs, r.total)
    ensures r.Insufficient? <==> !CoveredByOne(notes, len, amount) && !CoveredByTwo(notes, len, amount)
    ensures r.Overflow? ==> CoveredByOne(notes, len, U64) || CoveredByTwo(notes, len, U64)
  {
    hide Spendable, Candidates, Total;
    var cands := Candidates(notes, len, |notes|);
    CandidatesAreIndices(notes, len);
    var order := SortDesc(notes, cands);
    OnlySpendable(notes, len, order);
    r := TakeInputs(notes, order, amount);
    BestCovers(notes, len, order, amount);
    if r.Overflow? {
      BestCovers(notes, len, order, U64);
    }
  }

  lemma CandidatesAreIndices(notes: seq<OwnedNote>, len: nat)
    ensures Indices(notes, Candidates(notes, len, |notes|))
  {
    hide Spendable;
    var c := Candidates(notes, len, |notes|);
    forall i | 0 <= i < |c| ensures c[i] < |notes| {
      assert c[i] in c;
    }
  }

  lemma OnlySpendable(notes: seq<OwnedNote>, len: nat, order: seq<nat>)
    requires forall i :: i in order <==> i in Candidates(notes, len, |notes|)
    ensures forall i :: 0 <= i < |notes| ==> (i in order <==> Spendable(notes[i], len))
  {
    hide Spendable;
  }

  /** The first one or two of the sorted candidates cover whatever any one or
      two do. */
  lemma BestCovers(notes: seq<OwnedNote>, len: nat, order: seq<nat>, amount: nat)
    requires Indices(notes, order) && Descending(notes, order)
    requires forall i :: 0 <= i < |notes| ==> (i in order <==> Spendable(notes[i], len))
    ensures CoveredByOne(notes, len, amount) <==> |order| > 0 && notes[order[0]].v >= amount
    ensures CoveredByTwo(notes, len, amount) <==> |order| > 1 && notes[order[0]].v + notes[order[1]].v >= amount
  {
    hide CoveredByOne, CoveredByTwo, Spendable;
    BestOne(notes, len, order, amount);
    BestTwo(notes, len, order, amount);
  }

  lemma BestOne(notes: seq<OwnedNote>, len: nat, order: seq<nat>, amount: nat)
    requires Indices(notes, order) && Descending(notes, order)
    requires forall i :: 0 <= i < |notes| ==> (i in order <==> Spendable(notes[i], len))
    ensures CoveredByOne(notes, len, amount) <==> |order| > 0 && notes[order[0]].v >= amount
  {
    hide Spendable;
    if CoveredByOne(notes, len, amount) {
      var i :| 0 <= i < |notes| && Spendable(notes[i], len) && notes[i].v >= amount;
      var a :| 0 <= a < |order| && order[a] == i;
    }
    if |order| > 0 {
      assert order[0] in order;
    }
  }

  lemma BestTwo(notes: seq<OwnedNote>, len: nat, order: seq<nat>, amount: nat)
    requires Indices(notes, order) && Descending(notes, order)
    requires forall i :: 0 <= i < |notes| ==> (i in order <==> Spendable(notes[i], len))
    ensures CoveredByTwo(notes, len, amount) <==> |order| > 1 && notes[order[0]].v + notes[order[1]].v >= amount
  {
    hide Spendable, CoveredByTwo;
    if CoveredByTwo(notes, len, amount) {
      SomeTwo(notes, len, order, amount);
    }
    if |order| > 1 {
      FirstTwo(notes, len, order, amount);
    }
  }

  /** Whatever two notes cover, the first two of the order do. */
  lemma SomeTwo(notes: seq<OwnedNote>, len: nat, order: seq<nat>, amount: nat)
    requires Indices(notes, order) && Descending(notes, order) && CoveredByTwo(notes, len, amount)
    requires forall i :: 0 <= i < |notes| ==> (i in order <==> Spendable(notes[i], len))
    ensures |order| > 1 && notes[order[0]].v + notes[order[1]].v >= amount
  {
    hide Spendable, Descending;
    var i, k :| 0 <= i < k < |notes| && Spendable(notes[i], len) && Spendable(notes[k], len)
                && notes[i].v + notes[k].v >= amount;
    var a :| 0 <= a < |order| && order[a] == i;
    var b :| 0 <= b < |order| && order[b] == k;
    TopTwo(notes, order, if a < b then a else b, if a < b then b else a);
  }

  lemma FirstTwo(notes: seq<OwnedNote>, len: nat, order: seq<nat>, amount: nat)
    requires Indices(notes, order) && |order| > 1
    requires forall i :: 0 <= i < |notes| ==> (i in order <==> Spendable(notes[i], len))
    ensures notes[order[0]].v + notes[order[1]].v >= amount ==> CoveredByTwo(notes, len, amount)
  {
    hide Spendable;
    var i, k := order[0], order[1];
    assert i in order && k in order && i != k;
    assert Spendable(notes[i], len) && Spendable(notes[k], len);
  }

  lemma TopTwo(notes: seq<OwnedNote>, order: seq<nat>, a: nat, b: nat)
    requires Indices(notes, order) && Descending(notes, order) && a < b < |order|
    ensures notes[order[0]].v + notes[order[1]].v >= notes[order[a]].v + notes[order[b]].v
  {
  }
}
