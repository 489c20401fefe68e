/**
 gen_permutation.py: two shuffles of the nodes are paired up, one left-to-right pass of neighbour swaps removes the
 self-flows, and one flow is written per pair.
 */
module Permutation {

  datatype Connection = Connection(src: nat, dst: nat, id: nat, start: int)

  datatype Emitted = Written(flows: seq<Connection>) | IndexError(flows: seq<Connection>)

  predicate IsShuffle(s: seq<nat>) {
    && (forall i :: 0 <= i < |s| ==> s[i] < |s|)
    && (forall i, j :: 0 <= i < j < |s| ==> s[i] != s[j])
  }

  function Swap(s: seq<nat>, i: nat, j: nat): (r: seq<nat>)
    requires i < |s| && j < |s|
    ensures |r| == |s|
  {
    s[i := s[j]][j := s[i]]
  }

  function Next(n: nat, nodes: nat): (i: nat)
    requires n < nodes
    ensures i < nodes && (n + 1 < nodes ==> i == n + 1) && (n + 1 == nodes ==> i == 0)
  {
    (n + 1) % nodes
  }

  /** The destinations after the first `n` steps of the pass. */
  function Repaired(srcs: seq<nat>, dsts: seq<nat>, n: nat): (r: seq<nat>)
    requires |srcs| == |dsts| && n <= |srcs|
    ensures |r| == |dsts|
  {
    if n == 0 then dsts
    else
      var d := Repaired(srcs, dsts, n - 1);
      if srcs[n - 1] == d[n - 1] then Swap(d, n - 1, Next(n - 1, |srcs|)) else d
  }

  method Repair(srcs: seq<nat>, dsts: array<nat>)
    requires |srcs| == dsts.Length
    modifies dsts
    ensures dsts[..] == Repaired(srcs, old(dsts[..]), |srcs|)
  {
    for n := 0 to |srcs|
      invariant dsts[..] == Repaired(srcs, old(dsts[..]), n)
    {
      ghost var before := dsts[..];
      if srcs[n] == dsts[n] {
        var i := Next(n, |srcs|);
        var tmp := dsts[n];
        dsts[n] := dsts[i];
        dsts[i] := tmp;
        assert dsts[..] == Swap(before, n, i);
      }
    }
  }

  /** The lines of the file; writing stops with an index error when more connections than nodes are asked for. */
  method Write(srcs: seq<nat>, dsts: array<nat>, conns: nat, start: int) returns (r: Emitted)
    requires |srcs| == dsts.Length
    ensures r.Written? <==> conns <= |srcs|
    ensures |r.flows| == if conns <= |srcs| then conns else |srcs|
    ensures forall n :: 0 <= n < |r.flows| ==> r.flows[n] == Connection(srcs[n], dsts[n], n + 1, start)
  {
    var flows := [];
    for n := 0 to conns
      invariant |flows| == n <= |srcs|
      invariant forall k :: 0 <= k < n ==> flows[k] == Connection(srcs[k], dsts[k], k + 1, start)
    {
      if n >= |srcs| {
        return IndexError(flows);
      }
      flows := flows + [Connection(srcs[n], dsts[n], n + 1, start)];
    }
    r := Written(flows);
  }

  /** The whole script, for any two shuffles. */
  method Generate(srcs: seq<nat>, dsts: array<nat>, conns: nat, start: int) returns (r: Emitted)
    requires IsShuffle(srcs) && IsShuffle(dsts[..]) && |srcs| == dsts.Length
    modifies dsts
    ensures r.Written? <==> conns <= |srcs|
    ensures |r.flows| == if conns <= |srcs| then conns else |srcs|
    ensures forall m, n :: 0 <= m < n < |r.flows| ==>
              r.flows[m].src != r.flows[n].src && r.flows[m].dst != r.flows[n].dst
    ensures forall n :: 0 <= n < |r.flows| ==>
              r.flows[n].src < |srcs| && r.flows[n].dst < |srcs| && r.flows[n].id == n + 1
    ensures (forall n :: 0 <= n < |r.flows| ==> r.flows[n].src != r.flows[n].dst) <==> |srcs| != 1 || conns == 0
  {
    Repair(srcs, dsts);
    RepairedShuffles(srcs, old(dsts[..]), |srcs|);
    if |srcs| >= 2 {
      RepairedHasNoSelfFlow(srcs, old(dsts[..]));
    }
    assert forall k :: 0 <= k < |srcs| ==> dsts[k] == dsts[..][k];
    r := Write(srcs, dsts, conns, start);
  }

  /** A swap permutes. */
  lemma SwapShuffles(s: seq<nat>, i: nat, j: nat)
    requires IsShuffle(s) && i < |s| && j < |s|
    ensures IsShuffle(Swap(s, i, j)) && multiset(Swap(s, i, j)) == multiset(s)
  {
    var r := Swap(s, i, j);
    forall a, b | 0 <= a < b < |r| ensures r[a] != r[b] {
      var x, y := if a == j then i else if a == i then j else a, if b == j then i else if b == i then j else b;
      assert r[a] == s[x] && r[b] == s[y] && x != y;
    }
  }

  /** The pass only permutes the destinations. */
  lemma {:induction false} RepairedShuffles(srcs: seq<nat>, dsts: seq<nat>, n: nat)
    requires |srcs| == |dsts| && n <= |srcs| && IsShuffle(dsts)
    ensures IsShuffle(Repaired(srcs, dsts, n)) && multiset(Repaired(srcs, dsts, n)) == multiset(dsts)
  {
    if n > 0 {
      RepairedShuffles(srcs, dsts, n - 1);
      var d, i := Repaired(srcs, dsts, n - 1), Next(n - 1, |srcs|);
      if srcs[n - 1] == d[n - 1] {
        SwapShuffles(d, n - 1, i);
        assert Repaired(srcs, dsts, n) == Swap(d, n - 1, i);
      }
    }
  }

  /** After `n` steps the first `n` pairs are no self-flows, and what lies beyond position `n` is untouched. */
  lemma {:induction false} PrefixRepaired(srcs: seq<nat>, dsts: seq<nat>, n: nat)
    requires |srcs| == |dsts| && n <= |srcs| && |srcs| >= 2 && IsShuffle(srcs) && IsShuffle(dsts)
    ensures var d := Repaired(srcs, dsts, n);
            && (forall k :: 0 <= k < n ==> d[k] != srcs[k])
            && (forall k :: n < k < |srcs| ==> d[k] == dsts[k])
  {
    if n > 0 {
      PrefixRepaired(srcs, dsts, n - 1);
      RepairedShuffles(srcs, dsts, n - 1);
    }
  }

  lemma RepairedHasNoSelfFlow(srcs: seq<nat>, dsts: seq<nat>)
    requires |srcs| == |dsts| >= 2 && IsShuffle(srcs) && IsShuffle(dsts)
    ensures forall k :: 0 <= k < |srcs| ==> Repaired(srcs, dsts, |srcs|)[k] != srcs[k]
  {
    PrefixRepaired(srcs, dsts, |srcs|);
  }

  /** Step `k` swaps when the shuffles pair node and self at `k` and the step before did not swap. */
  predicate Swaps(srcs: seq<nat>, dsts: seq<nat>, k: nat)
    requires |srcs| == |dsts|
  {
    k < |srcs| && srcs[k] == dsts[k] && (k == 0 || !Swaps(srcs, dsts, k - 1))
  }

  /** The destination at place `k` after `n` disjoint swaps of neighbours. */
  function Placed(srcs: seq<nat>, dsts: seq<nat>, n: nat, k: nat): nat
    requires |srcs| == |dsts| && n < |srcs| && k < |srcs|
  {
    if k < n && Swaps(srcs, dsts, k) then dsts[k + 1]
    else if 0 < k <= n && Swaps(srcs, dsts, k - 1) then dsts[k - 1]
    else dsts[k]
  }

  /** The pass in closed form: no swap follows a swap, so every destination moves by one place at most ... */
  lemma {:induction false} SwapsAreDisjoint(srcs: seq<nat>, dsts: seq<nat>, n: nat, k: nat)
    requires |srcs| == |dsts| >= 2 && IsShuffle(srcs) && IsShuffle(dsts) && n < |srcs| && k < |srcs|
    ensures Repaired(srcs, dsts, n)[k] == Placed(srcs, dsts, n, k)
  {
    if n > 0 {
      SwapsAreDisjoint(srcs, dsts, n - 1, k);
      SwapsAreDisjoint(srcs, dsts, n - 1, n - 1);
      PrefixRepaired(srcs, dsts, n - 1);
    }
  }

  /** ... but for the last step, which swaps the last place with what has come to the first. */
  lemma WholePass(srcs: seq<nat>, dsts: seq<nat>, k: nat)
    requires |srcs| == |dsts| >= 2 && IsShuffle(srcs) && IsShuffle(dsts) && k < |srcs|
    ensures var last := |srcs| - 1;
            Repaired(srcs, dsts, |srcs|)[k] ==
            if !Swaps(srcs, dsts, last) || 0 < k < last then Placed(srcs, dsts, last, k)
            else if k == last then Placed(srcs, dsts, last, 0)
            else dsts[last]
  {
    var last := |srcs| - 1;
    SwapsAreDisjoint(srcs, dsts, last, k);
    SwapsAreDisjoint(srcs, dsts, last, 0);
    SwapsAreDisjoint(srcs, dsts, last, last);
    LastStep(srcs, dsts);
  }

  lemma LastStep(srcs: seq<nat>, dsts: seq<nat>)
    requires |srcs| == |dsts| >= 2 && IsShuffle(srcs) && IsShuffle(dsts)
    ensures var last, d := |srcs| - 1, Repaired(srcs, dsts, |srcs| - 1);
            && (srcs[last] == d[last] <==> Swaps(srcs, dsts, last))
            && Repaired(srcs, dsts, |srcs|) == if srcs[last] == d[last] then d[last := d[0]][0 := d[last]] else d
  {
    var last := |srcs| - 1;
    SwapsAreDisjoint(srcs, dsts, last, last);
    PrefixRepaired(srcs, dsts, last);
  }
}
