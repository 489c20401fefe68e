/**
 Erasure recovery (parse_offline_ec.py): packets come in stripes of eight, and six of a stripe restore the other two.
 */
module Erasure {
  import opened Sets

  function Members(s: set<nat>, stripe: nat): set<nat> {
    set x | x in s && x / 8 == stripe
  }

  function Whole(stripe: nat): (r: set<nat>)
    ensures |r| == 8 && forall x :: x in r <==> x / 8 == stripe
  {
    Interval(8 * stripe, 8)
  }

  predicate Restorable(s: set<nat>, stripe: nat) {
    |Members(s, stripe)| >= 6
  }

  predicate Closed(s: set<nat>) {
    forall x | x in s :: Restorable(s, x / 8) ==> Whole(x / 8) <= s
  }

  /** A number beyond all stripes of the set. */
  ghost function Bound(s: set<nat>): (b: nat)
    ensures forall x :: x in s ==> x / 8 * 8 + 8 <= b
  {
    if s == {} then 0
    else
      var x :| x in s;
      var b := Bound(s - {x});
      assert forall y :: y in s ==> y == x || y in s - {x};
      if x / 8 * 8 + 8 <= b then b else x / 8 * 8 + 8
  }

  ghost function Recovered(s: set<nat>): set<nat> {
    set x | 0 <= x < Bound(s) && (x in s || Restorable(s, x / 8))
  }

  lemma InRecovered(s: set<nat>)
    ensures forall x: nat :: x in Recovered(s) <==> x in s || Restorable(s, x / 8)
  {
    forall x: nat | Restorable(s, x / 8) ensures x < Bound(s) {
      var y :| y in Members(s, x / 8);
    }
  }

  /** A stripe after recovery is whole or as it was. */
  lemma StripeAfter(s: set<nat>, j: nat)
    ensures Members(Recovered(s), j) == if Restorable(s, j) then Whole(j) else Members(s, j)
  {
    InRecovered(s);
  }

  /** Recovery yields the smallest set that holds the received packets and is closed under the 6-of-8 rule. */
  lemma RecoveredIsClosure(s: set<nat>, t: set<nat>)
    ensures s <= Recovered(s) && Closed(Recovered(s))
    ensures s <= t && Closed(t) ==> Recovered(s) <= t
  {
    InRecovered(s);
    forall x | x in Recovered(s) && Restorable(Recovered(s), x / 8) ensures Whole(x / 8) <= Recovered(s) {
      StripeAfter(s, x / 8);
    }
    if s <= t && Closed(t) {
      forall x | x in Recovered(s) ensures x in t {
        if x !in s {
          SubsetCount(Members(s, x / 8), Members(t, x / 8));
          var y :| y in Members(s, x / 8);
          assert y in t && y / 8 == x / 8 && x in Whole(y / 8);
        }
      }
    }
  }

  /** Recovering twice gains nothing, and more received packets never recover less. */
  lemma RecoveredIsStable(s: set<nat>, t: set<nat>)
    ensures Recovered(Recovered(s)) == Recovered(s)
    ensures s <= t ==> Recovered(s) <= Recovered(t) && |s| <= |Recovered(s)| <= |Recovered(t)|
  {
    RecoveredIsClosure(s, Recovered(t));
    RecoveredIsClosure(t, t);
    RecoveredIsClosure(Recovered(s), Recovered(s));
    if s <= t {
      SubsetCount(s, Recovered(s));
      SubsetCount(Recovered(s), Recovered(t));
    }
  }

  /** Up to five packets of a stripe stay what they are, six or more become all eight. */
  lemma SixOfEight(s: set<nat>, j: nat)
    requires s <= Whole(j)
    ensures |s| <= 5 ==> Recovered(s) == s
    ensures |s| >= 6 ==> Recovered(s) == Whole(j)
  {
    InRecovered(s);
    assert Members(s, j) == s;
    forall x: nat | x / 8 != j ensures x !in Recovered(s) {
      assert Members(s, x / 8) == {};
    }
  }

  predicate Distinct(psn: seq<nat>) {
    forall i, j :: 0 <= i < j < |psn| ==> psn[i] != psn[j]
  }

  function Received(psn: seq<nat>): set<nat> {
    set x | x in psn
  }

  /** The packets recovered in some of the stripes. */
  ghost function Part(s: set<nat>, stripes: set<nat>): set<nat> {
    set x | x in Recovered(s) && x / 8 in stripes
  }

  lemma PartGrows(s: set<nat>, stripes: set<nat>, j: nat)
    requires j !in stripes
    ensures |Part(s, stripes + {j})| == |Part(s, stripes)| + if Restorable(s, j) then 8 else |Members(s, j)|
  {
    StripeAfter(s, j);
    assert Part(s, stripes + {j}) == Part(s, stripes) + Members(Recovered(s), j);
  }

  /** How many entries of the list fall into a stripe. */
  function Tally(psn: seq<nat>, j: nat): nat {
    if psn == [] then 0 else Tally(psn[..|psn| - 1], j) + if psn[|psn| - 1] / 8 == j then 1 else 0
  }

  lemma MembersWith(s: set<nat>, x: nat, j: nat)
    ensures |Members(s + {x}, j)| == |Members(s, j)| + if x / 8 == j && x !in s then 1 else 0
    ensures x / 8 == j ==> x in Members(s + {x}, j)
  {
    var before, after := Members(s, j), Members(s + {x}, j);
    assert x in before <==> x in s && x / 8 == j;
    if x / 8 == j {
      assert after == before + {x};
    } else {
      assert after == before;
    }
  }

  lemma ReceivedSnoc(psn: seq<nat>)
    requires psn != []
    ensures Received(psn) == Received(psn[..|psn| - 1]) + {psn[|psn| - 1]}
    ensures Distinct(psn) ==> Distinct(psn[..|psn| - 1]) && psn[|psn| - 1] !in Received(psn[..|psn| - 1])
  {
    var init, x := psn[..|psn| - 1], psn[|psn| - 1];
    assert psn == init + [x];
    assert forall y :: y in psn <==> y in init || y == x;
    if Distinct(psn) {
      forall i | 0 <= i < |init| ensures init[i] != x {
        assert init[i] == psn[i];
      }
    }
  }

  lemma {:induction false} TallyAtLeast(psn: seq<nat>, j: nat)
    ensures |Members(Received(psn), j)| <= Tally(psn, j)
    ensures Distinct(psn) ==> |Members(Received(psn), j)| == Tally(psn, j)
    ensures Tally(psn, j) > 0 <==> |Members(Received(psn), j)| > 0
  {
    if psn != [] {
      var init := psn[..|psn| - 1];
      TallyAtLeast(init, j);
      ReceivedSnoc(psn);
      MembersWith(Received(init), psn[|psn| - 1], j);
    }
  }

  lemma {:induction false} DistinctSize(psn: seq<nat>)
    requires Distinct(psn)
    ensures |Received(psn)| == |psn|
  {
    if psn == [] {
      assert Received(psn) == {};
    } else {
      ReceivedSnoc(psn);
      DistinctSize(psn[..|psn| - 1]);
    }
  }

  /** All packets of the list belong to stripes below `n`. */
  predicate Below(psn: seq<nat>, n: nat) {
    forall x :: x in psn ==> x / 8 < n
  }

  function Gain(packets: nat): nat {
    if packets >= 6 then 8 else packets
  }

  /** What the stripes below `n` among `done` contribute. */
  function SumOver(psn: seq<nat>, done: set<nat>, n: nat): nat {
    if n == 0 then 0 else SumOver(psn, done, n - 1) + if n - 1 in done then Gain(Tally(psn, n - 1)) else 0
  }

  /** What all stripes below `n` contribute. */
  function Total(psn: seq<nat>, n: nat): nat {
    if n == 0 then 0 else Total(psn, n - 1) + Gain(Tally(psn, n - 1))
  }

  lemma {:induction false} SumGrows(psn: seq<nat>, done: set<nat>, j: nat, n: nat)
    requires j !in done
    ensures SumOver(psn, done + {j}, n) == SumOver(psn, done, n) + if j < n then Gain(Tally(psn, j)) else 0
  {
    if n > 0 {
      SumGrows(psn, done, j, n - 1);
    }
  }

  lemma {:induction false} SumIsTotal(psn: seq<nat>, done: set<nat>, n: nat)
    requires forall j :: j in done <==> Tally(psn, j) > 0
    ensures SumOver(psn, done, n) == Total(psn, n)
  {
    if n > 0 {
      SumIsTotal(psn, done, n - 1);
    }
  }

  /** The script's sum for packets of one stripe only: five are five, six or more are eight. */
  lemma OneStripe(psn: seq<nat>, j: nat)
    requires forall x :: x in psn ==> x / 8 == j
    ensures Below(psn, j + 1) && Total(psn, j + 1) == if |psn| >= 6 then 8 else |psn|
  {
    TallyOfOne(psn, j, j);
    NothingBelow(psn, j, j);
  }

  lemma {:induction false} TallyOfOne(psn: seq<nat>, j: nat, i: nat)
    requires forall x :: x in psn ==> x / 8 == j
    ensures Tally(psn, i) == if i == j then |psn| else 0
  {
    if psn != [] {
      var init := psn[..|psn| - 1];
      assert forall x :: x in init ==> x in psn;
      assert psn[|psn| - 1] in psn;
      TallyOfOne(init, j, i);
    }
  }

  lemma {:induction false} NothingBelow(psn: seq<nat>, j: nat, n: nat)
    requires n <= j && forall x :: x in psn ==> x / 8 == j
    ensures Total(psn, n) == 0
  {
    if n > 0 {
      NothingBelow(psn, j, n - 1);
      TallyOfOne(psn, j, n - 1);
    }
  }

  lemma {:induction false} TallyBelow(psn: seq<nat>, n: nat, j: nat)
    requires Below(psn, n) && j >= n
    ensures Tally(psn, j) == 0
  {
    if psn != [] {
      var init := psn[..|psn| - 1];
      assert forall x :: x in init ==> x in psn;
      assert psn[|psn| - 1] in psn;
      TallyBelow(init, n, j);
    }
  }

  /** A number below which all stripes are. */
  function Top(psn: seq<nat>): (n: nat)
    ensures Below(psn, n)
  {
    if psn == [] then 0
    else
      var init, x := psn[..|psn| - 1], psn[|psn| - 1];
      var n := Top(init);
      assert psn == init + [x];
      if x / 8 < n then n else x / 8 + 1
  }

  /** How often the numbers `first` to `first + k - 1` occur. */
  function CountRun(m: multiset<nat>, first: nat, k: nat): nat {
    if k == 0 then 0 else CountRun(m, first, k - 1) + m[first + k - 1]
  }

  lemma {:induction false} CountRunPlus(m: multiset<nat>, x: nat, first: nat, k: nat)
    ensures CountRun(m + multiset{x}, first, k) == CountRun(m, first, k) + if first <= x < first + k then 1 else 0
  {
    if k > 0 {
      CountRunPlus(m, x, first, k - 1);
    }
  }

  lemma {:induction false} CountRunNone(first: nat, k: nat)
    ensures CountRun(multiset{}, first, k) == 0
  {
    if k > 0 {
      CountRunNone(first, k - 1);
    }
  }

  lemma {:induction false} TallyOfMultiset(psn: seq<nat>, j: nat)
    ensures Tally(psn, j) == CountRun(multiset(psn), 8 * j, 8)
  {
    if psn == [] {
      CountRunNone(8 * j, 8);
    } else {
      var init, x := psn[..|psn| - 1], psn[|psn| - 1];
      TallyOfMultiset(init, j);
      CountRunPlus(multiset(init), x, 8 * j, 8);
      assert psn == init + [x];
      assert multiset(psn) == multiset(init) + multiset{x};
    }
  }

  lemma {:induction false} TotalOfMultiset(psn: seq<nat>, other: seq<nat>, n: nat)
    requires multiset(psn) == multiset(other)
    ensures Total(psn, n) == Total(other, n)
  {
    if n > 0 {
      TotalOfMultiset(psn, other, n - 1);
      TallyOfMultiset(psn, n - 1);
      TallyOfMultiset(other, n - 1);
    }
  }

  /** The order in which packets are listed does not matter: for a list with the same packets, each as often, the
      script's sum is the same, and so are the recovered set and whether numbers repeat. */
  lemma OrderIrrelevant(psn: seq<nat>, other: seq<nat>, n: nat)
    requires multiset(psn) == multiset(other)
    ensures (Below(psn, n) <==> Below(other, n)) && Total(psn, n) == Total(other, n)
    ensures Recovered(Received(psn)) == Recovered(Received(other)) && (Distinct(psn) <==> Distinct(other))
  {
    assert forall x :: (x in psn <==> x in multiset(psn)) && (x in other <==> x in multiset(other));
    assert Received(psn) == Received(other);
    TotalOfMultiset(psn, other, n);
    DistinctIsOnce(psn);
    DistinctIsOnce(other);
  }

  lemma {:induction false} DistinctIsOnce(psn: seq<nat>)
    ensures Distinct(psn) <==> forall x :: multiset(psn)[x] <= 1
  {
    if psn != [] {
      var init, x := psn[..|psn| - 1], psn[|psn| - 1];
      DistinctIsOnce(init);
      ReceivedSnoc(psn);
      assert psn == init + [x];
      assert multiset(psn) == multiset(init) + multiset{x};
      if x in init {
        assert x in multiset(init);
        assert !(multiset(psn)[x] <= 1);
        var i :| 0 <= i < |init| && init[i] == x;
        assert psn[i] == psn[|psn| - 1];
      } else {
        assert forall y :: y != x ==> multiset(psn)[y] == multiset(init)[y];
        assert multiset(init)[x] == 0;
        assert Distinct(init) ==> Distinct(psn);
      }
    }
  }

  /** Only in stripes that are whole again may packet numbers repeat. */
  predicate Unrepeated(psn: seq<nat>, j: nat) {
    Restorable(Received(psn), j) || Tally(psn, j) == |Members(Received(psn), j)|
  }

  /** The script's sum over a set of stripes is at least what is recovered in them, and equal if and only if no packet
      number repeats in a stripe that stays incomplete. */
  ghost predicate Sums(psn: seq<nat>, done: set<nat>, total: nat) {
    var s := Received(psn);
    total >= |Part(s, done)| && (total == |Part(s, done)| <==> forall j | j in done :: Unrepeated(psn, j))
  }

  lemma SumsGrow(psn: seq<nat>, done: set<nat>, total: nat, j: nat)
    requires j !in done && Sums(psn, done, total)
    ensures Sums(psn, done + {j}, total + Gain(Tally(psn, j)))
  {
    PartGrows(Received(psn), done, j);
    TallyAtLeast(psn, j);
    assert forall i :: i in done + {j} <==> i in done || i == j;
    StripeSize(Received(psn), j);
  }

  lemma StripeSize(s: set<nat>, j: nat)
    ensures |Members(s, j)| <= 8
  {
    SubsetCount(Members(s, j), Whole(j));
  }

  method CountStripes(psn: seq<nat>) returns (stripes: map<nat, nat>)
    ensures forall j :: j in stripes <==> Tally(psn, j) > 0
    ensures forall j :: j in stripes ==> stripes[j] == Tally(psn, j)
  {
    stripes := map[];
    for k := 0 to |psn|
      invariant forall j :: j in stripes <==> Tally(psn[..k], j) > 0
      invariant forall j :: j in stripes ==> stripes[j] == Tally(psn[..k], j)
    {
      var id := psn[k];
      assert psn[..k + 1][..k] == psn[..k];
      if id / 8 !in stripes {
        stripes := stripes[id / 8 := 0];
      }
      stripes := stripes[id / 8 := stripes[id / 8] + 1];
    }
    assert psn[..|psn|] == psn;
  }

  method SumStripes(ghost psn: seq<nat>, stripes: map<nat, nat>, ghost top: nat) returns (recovered: nat)
    requires Below(psn, top) && forall j :: j in stripes ==> stripes[j] == Tally(psn, j)
    ensures Sums(psn, stripes.Keys, recovered) && recovered == SumOver(psn, stripes.Keys, top)
  {
    recovered := 0;
    var left := stripes.Keys;
    ghost var done: set<nat> := {};
    NothingDone(psn, top);
    while left != {}
      invariant left + done == stripes.Keys && left !! done
      invariant Sums(psn, done, recovered) && recovered == SumOver(psn, done, top)
    {
      var j :| j in left;
      OneMoreStripe(psn, done, recovered, j, top);
      recovered := recovered + if stripes[j] >= 6 then 8 else stripes[j];
      left, done := left - {j}, done + {j};
    }
    assert done == stripes.Keys;
  }

  lemma OneMoreStripe(psn: seq<nat>, done: set<nat>, total: nat, j: nat, top: nat)
    requires Below(psn, top) && j !in done && Sums(psn, done, total) && total == SumOver(psn, done, top)
    ensures var total' := total + Gain(Tally(psn, j));
            Sums(psn, done + {j}, total') && total' == SumOver(psn, done + {j}, top)
  {
    SumsGrow(psn, done, total, j);
    SumGrows(psn, done, j, top);
    if j >= top { TallyBelow(psn, top, j); }
  }

  /** The exact sum, and what it says about recovery. */
  method FindRecoveredPkts(psn: seq<nat>) returns (recovered: nat)
    ensures forall n :: Below(psn, n) ==> recovered == Total(psn, n)
    ensures recovered >= |Recovered(Received(psn))|
    ensures recovered == |Recovered(Received(psn))| <==> forall j :: Unrepeated(psn, j)
    ensures Distinct(psn) ==> recovered == |Recovered(Received(psn))| >= |psn|
  {
    var stripes := CountStripes(psn);
    recovered := SumStripes(psn, stripes, Top(psn));
    AllStripes(psn, stripes.Keys);
    SumIsTotal(psn, stripes.Keys, Top(psn));
    AnyTop(psn, Top(psn));
    RecoveredIsStable(Received(psn), Received(psn));
    if Distinct(psn) {
      DistinctSize(psn);
    }
  }

  lemma {:induction false} NothingDone(psn: seq<nat>, n: nat)
    ensures SumOver(psn, {}, n) == 0 && Sums(psn, {}, 0)
  {
    assert Part(Received(psn), {}) == {};
    if n > 0 {
      NothingDone(psn, n - 1);
    }
  }

  lemma AnyTop(psn: seq<nat>, top: nat)
    requires Below(psn, top)
    ensures forall n :: Below(psn, n) ==> Total(psn, n) == Total(psn, top)
  {
    forall n: nat | Below(psn, n) ensures Total(psn, n) == Total(psn, top) {
      if n <= top { TotalStays(psn, n, top); } else { TotalStays(psn, top, n); }
    }
  }

  lemma {:induction false} TotalStays(psn: seq<nat>, m: nat, n: nat)
    requires m <= n && Below(psn, m)
    ensures Total(psn, m) == Total(psn, n)
  {
    if m < n {
      TotalStays(psn, m, n - 1);
      TallyBelow(psn, m, n - 1);
    }
  }

  lemma AllStripes(psn: seq<nat>, stripes: set<nat>)
    requires forall j :: j in stripes <==> Tally(psn, j) > 0
    ensures Part(Received(psn), stripes) == Recovered(Received(psn))
    ensures forall j :: j !in stripes ==> Unrepeated(psn, j)
    ensures Distinct(psn) ==> forall j :: Unrepeated(psn, j)
  {
    var s := Received(psn);
    forall j ensures j !in stripes || Distinct(psn) ==> Unrepeated(psn, j) {
      TallyAtLeast(psn, j);
    }
    InRecovered(s);
    forall x | x in Recovered(s) ensures x / 8 in stripes {
      TallyAtLeast(psn, x / 8);
      if x in s { assert x in Members(s, x / 8); }
    }
  }
}
