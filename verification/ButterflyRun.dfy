/**
 What the butterfly file does when it runs: which flow wakes which, that it never deadlocks, and when the
 all-reduce is complete.  Node `v` is rank `v % Pow2(k)` of group `v / Pow2(k)`.
 */
module ButterflyRun {
  import opened Arith
  import opened Blocks
  import opened TriggerGraph
  import opened Butterfly

  // ---------------------------------------------------------------- where a flow stands in the file

  /** Position in the file of the flow that node `v` sends at step `d`. */
  function IndexOf(k: nat, d: nat, v: nat): nat {
    FlowsBefore(k, Quot(v, Pow2(k)), d) + Place(Pow2(d), Rem(v, Pow2(k)))
  }

  /** Trigger that this flow fires when received. */
  function TriggerOf(k: nat, d: nat, v: nat): nat {
    FiredBefore(k, Quot(v, Pow2(k)), d) + Place(Pow2(d), Rem(v, Pow2(k))) + 1
  }

  function ExpectedFlow(k: nat, size: int, d: nat, v: nat): Flow {
    Flow(v, Partner(Pow2(d), v), IndexOf(k, d, v) + 1,
         if d == 0 then At(0) else OnTrigger(TriggerOf(k, d - 1, Partner(Pow2(d - 1), v))),
         size, if d + 1 == k then Quiet else RecvDone(TriggerOf(k, d, v)))
  }

  predicate IsNode(k: nat, groups: nat, v: nat) {
    Quot(v, Pow2(k)) < groups
  }

  /** Partners are in the same group, at partner ranks. */
  lemma PartnerInGroup(k: nat, d: nat, v: nat)
    requires d < k
    ensures Quot(Partner(Pow2(d), v), Pow2(k)) == Quot(v, Pow2(k))
    ensures Rem(Partner(Pow2(d), v), Pow2(k)) == Partner(Pow2(d), Rem(v, Pow2(k)))
  {
    var w, G, m := Pow2(d), Pow2(k), Pow2(k - d - 1);
    var group, x := Quot(v, G), Rem(v, G);
    Pow2Split(d, k);
    PartnerStays(d, k, x);
    QuotIs(v, G);
    Regroup(group, m, w, G);
    PartnerShift(w, group * m, x);
    QuotForm(group, G, Partner(w, x));
  }

  lemma Regroup(a: nat, m: nat, w: nat, G: nat)
    requires G == m * (2 * w)
    ensures a * G == (a * m) * (2 * w) && G * a == a * G
  {
  }

  lemma {:induction false} FlowIn(k: nat, size: int, d: nat, v: nat, group: nat, e: nat)
    requires d < k && e <= k && (Quot(v, Pow2(k)) < group || (Quot(v, Pow2(k)) == group && d < e))
    ensures IndexOf(k, d, v) < |UpTo(k, size, group, e)|
    ensures UpTo(k, size, group, e)[IndexOf(k, d, v)] == ExpectedFlow(k, size, d, v)
    decreases group, e
  {
    if e == 0 {
      FlowIn(k, size, d, v, group - 1, k);
    } else if Quot(v, Pow2(k)) == group && d == e - 1 {
      FlowJustAdded(k, size, d, v);
    } else {
      FlowIn(k, size, d, v, group, e - 1);
    }
  }

  lemma FlowJustAdded(k: nat, size: int, d: nat, v: nat)
    requires d < k
    ensures IndexOf(k, d, v) < |UpTo(k, size, Quot(v, Pow2(k)), d + 1)|
    ensures UpTo(k, size, Quot(v, Pow2(k)), d + 1)[IndexOf(k, d, v)] == ExpectedFlow(k, size, d, v)
  {
    var group := Quot(v, Pow2(k));
    UpToLength(k, size, group, d);
    LineOf(k, size, d, v);
    IndexInSecond(UpTo(k, size, group, d), StepLines(k, size, group, d), Place(Pow2(d), Rem(v, Pow2(k))));
  }

  lemma IndexInSecond<T>(a: seq<T>, b: seq<T>, i: nat)
    requires i < |b|
    ensures (a + b)[|a| + i] == b[i]
  {
  }

  lemma LineOf(k: nat, size: int, d: nat, v: nat)
    requires d < k
    ensures var lines, i := StepLines(k, size, Quot(v, Pow2(k)), d), Place(Pow2(d), Rem(v, Pow2(k)));
            i < |lines| && lines[i] == ExpectedFlow(k, size, d, v)
  {
    var s := StepOf(k, size, Quot(v, Pow2(k)), d);
    StepValid(k, size, Quot(v, Pow2(k)), d);
    LinesAt(s, Rem(v, Pow2(k)), Pow2(k));
    FlowFromIs(k, size, d, v);
  }

  /** Every flow of every node stands at its place. */
  ghost predicate Layout(flows: seq<Flow>, k: nat, groups: nat, size: int) {
    && k >= 1 && |flows| == FlowsBefore(k, groups, 0)
    && forall d, v {:trigger ExpectedFlow(k, size, d, v)} :: 0 <= d < k && IsNode(k, groups, v) ==>
         IndexOf(k, d, v) < |flows| && flows[IndexOf(k, d, v)] == ExpectedFlow(k, size, d, v)
  }

  lemma FileLayout(k: nat, groups: nat, size: int)
    requires k >= 1
    ensures Layout(FileOf(k, groups, size).flows, k, groups, size)
  {
    UpToLength(k, size, groups, 0);
    forall d, v | 0 <= d < k && IsNode(k, groups, v)
      ensures IndexOf(k, d, v) < |UpTo(k, size, groups, 0)|
              && UpTo(k, size, groups, 0)[IndexOf(k, d, v)] == ExpectedFlow(k, size, d, v)
    {
      FlowIn(k, size, d, v, groups, 0);
    }
  }

  lemma FlowIs(flows: seq<Flow>, k: nat, groups: nat, size: int, d: nat, v: nat)
    requires Layout(flows, k, groups, size) && d < k && IsNode(k, groups, v)
    ensures IndexOf(k, d, v) < |flows| && flows[IndexOf(k, d, v)] == ExpectedFlow(k, size, d, v)
  {
  }

  lemma MemberIs(k: nat, v: nat)
    ensures Members(k, Quot(v, Pow2(k)))[Rem(v, Pow2(k))] == v
  {
    QuotIs(v, Pow2(k));
  }

  lemma TriggersAre(k: nat, size: int, d: nat, v: nat)
    requires d < k
    ensures var s, x := StepOf(k, size, Quot(v, Pow2(k)), d), Rem(v, Pow2(k));
            && Fired(s, Partner(Pow2(d), x)) == TriggerOf(k, d, v)
            && (d > 0 ==> Awaited(s, x) == TriggerOf(k, d - 1, Partner(Pow2(d - 1), v)))
  {
    PartnerSymmetric(Pow2(d), Rem(v, Pow2(k)));
    if d > 0 {
      PartnerInGroup(k, d - 1, v);
      assert Pow2(d) / 2 == Pow2(d - 1);
    }
  }

  lemma FlowFromIs(k: nat, size: int, d: nat, v: nat)
    requires d < k
    ensures ValidStep(StepOf(k, size, Quot(v, Pow2(k)), d))
    ensures FlowFrom(StepOf(k, size, Quot(v, Pow2(k)), d), Rem(v, Pow2(k))) == ExpectedFlow(k, size, d, v)
  {
    StepValid(k, size, Quot(v, Pow2(k)), d);
    PartnerInGroup(k, d, v);
    MemberIs(k, v);
    MemberIs(k, Partner(Pow2(d), v));
    TriggersAre(k, size, d, v);
  }

  lemma NodeAt(G: nat, group: nat, x: nat) returns (v: nat)
    requires x < G
    ensures Quot(v, G) == group && Rem(v, G) == x
  {
    QuotForm(group, G, x);
    v := group * G + x;
  }

  lemma PlaceReached(k: nat, d: nat, p: nat) returns (x: nat)
    requires d < k && p < Pow2(k)
    ensures x < Pow2(k) && Place(Pow2(d), x) == p
  {
    StepValid(k, 0, 0, d);
    GroupOpeners(d, k);
    x := PlaceSurjective(StepOf(k, 0, 0, d), p, Pow2(k));
  }

  lemma {:induction false} Locate(k: nat, group: nat, d: nat, i: nat) returns (e: nat, v: nat)
    requires d <= k && i < FlowsBefore(k, group, d)
    ensures e < k && (Quot(v, Pow2(k)) < group || (Quot(v, Pow2(k)) == group && e < d)) && i == IndexOf(k, e, v)
    decreases group, d
  {
    if d == 0 {
      e, v := Locate(k, group - 1, k, i);
    } else if i < FlowsBefore(k, group, d - 1) {
      e, v := Locate(k, group, d - 1, i);
    } else {
      e := d - 1;
      var x := PlaceReached(k, e, i - FlowsBefore(k, group, e));
      v := NodeAt(Pow2(k), group, x);
    }
  }

  /** Every line of the file is one of the expected flows. */
  lemma EveryFlow(flows: seq<Flow>, k: nat, groups: nat, size: int, i: nat) returns (d: nat, v: nat)
    requires Layout(flows, k, groups, size)
    requires i < |flows|
    ensures d < k && IsNode(k, groups, v) && i == IndexOf(k, d, v)
    ensures flows[i] == ExpectedFlow(k, size, d, v)
  {
    UpToLength(k, size, groups, 0);
    d, v := Locate(k, groups, 0, i);
    FlowIs(flows, k, groups, size, d, v);
  }

  lemma {:induction false} CountsGrow(k: nat, group: nat, d: nat, group': nat, d': nat)
    requires d < k && d' <= k && (group < group' || (group == group' && d < d'))
    ensures FlowsBefore(k, group, d) + Pow2(k) <= FlowsBefore(k, group', d')
    ensures d + 1 < k ==> FiredBefore(k, group, d) + Pow2(k) <= FiredBefore(k, group', d')
    decreases group', d'
  {
    if d' > 0 && (group < group' || d < d' - 1) {
      CountsGrow(k, group, d, group', d' - 1);
    } else if d' == 0 {
      if group == group' - 1 {
        FromTo(k, group, d + 1);
      } else {
        CountsGrow(k, group, d, group' - 1, k);
      }
    }
  }

  lemma {:induction false} FromTo(k: nat, group: nat, d: nat)
    requires d <= k
    ensures FlowsBefore(k, group, d) <= FlowsBefore(k, group, k) && FiredBefore(k, group, d) <= FiredBefore(k, group, k)
    decreases k - d
  {
    if d < k {
      FromTo(k, group, d + 1);
    }
  }

  lemma IndexInjective(k: nat, d: nat, v: nat, d': nat, v': nat)
    requires d < k && d' < k
    ensures IndexOf(k, d, v) == IndexOf(k, d', v') ==> d == d' && v == v'
    ensures d + 1 < k && d' + 1 < k && TriggerOf(k, d, v) == TriggerOf(k, d', v') ==> d == d' && v == v'
  {
    var G := Pow2(k);
    PlaceInRange(d, k, Rem(v, G));
    PlaceInRange(d', k, Rem(v', G));
    if Quot(v, G) < Quot(v', G) || (Quot(v, G) == Quot(v', G) && d < d') {
      CountsGrow(k, Quot(v, G), d, Quot(v', G), d');
    } else if Quot(v', G) < Quot(v, G) || (Quot(v', G) == Quot(v, G) && d' < d) {
      CountsGrow(k, Quot(v', G), d', Quot(v, G), d);
    } else {
      if Place(Pow2(d), Rem(v, G)) == Place(Pow2(d), Rem(v', G)) {
        PlaceInjective(Pow2(d), Rem(v, G), Rem(v', G));
      }
      QuotIs(v, G);
      QuotIs(v', G);
    }
  }

  // ---------------------------------------------------------------- which flow wakes which

  lemma ExpectedWakes(k: nat, size: int, d: nat, v: nat, e: nat, u: nat)
    requires d < k && e < k
    ensures var f, g := ExpectedFlow(k, size, d, v), ExpectedFlow(k, size, e, u);
            f.begin.OnTrigger? && Fires(g, f.begin.awaited) <==> d > 0 && e == d - 1 && u == Partner(Pow2(d - 1), v)
  {
    if d > 0 && e + 1 < k {
      IndexInjective(k, e, u, d - 1, Partner(Pow2(d - 1), v));
    }
  }

  /** The flow that node `v` sends at step `d` waits for the flow that `v` received at step `d - 1`, and for no other.
      */
  lemma Wakes(flows: seq<Flow>, k: nat, groups: nat, size: int, d: nat, v: nat, j: nat)
    requires Layout(flows, k, groups, size)
    requires d < k && IsNode(k, groups, v) && j < |flows|
    ensures IndexOf(k, d, v) < |flows|
    ensures WokenBy(flows, IndexOf(k, d, v), j) <==>
              d > 0 && j == IndexOf(k, d - 1, Partner(Pow2(d - 1), v))
  {
    FlowIs(flows, k, groups, size, d, v);
    var e, u := EveryFlow(flows, k, groups, size, j);
    ExpectedWakes(k, size, d, v, e, u);
    if d > 0 {
      IndexInjective(k, e, u, d - 1, Partner(Pow2(d - 1), v));
    }
  }

  /** A flow of an earlier step stands earlier in the file when both are in one group. */
  lemma EarlierStep(k: nat, d: nat, v: nat, e: nat, u: nat)
    requires e < d < k && Quot(u, Pow2(k)) == Quot(v, Pow2(k))
    ensures IndexOf(k, e, u) < IndexOf(k, d, v)
  {
    CountsGrow(k, Quot(u, Pow2(k)), e, Quot(v, Pow2(k)), d);
    PlaceInRange(e, k, Rem(u, Pow2(k)));
  }

  lemma WakerIsEarlier(flows: seq<Flow>, k: nat, groups: nat, size: int, i: nat, j: nat)
    requires Layout(flows, k, groups, size)
    requires i < |flows| && j < |flows| && WokenBy(flows, i, j)
    ensures j < i
  {
    var d, v := EveryFlow(flows, k, groups, size, i);
    Wakes(flows, k, groups, size, d, v, j);
    PartnerInGroup(k, d - 1, v);
    EarlierStep(k, d, v, d - 1, Partner(Pow2(d - 1), v));
  }

  lemma WakerExists(flows: seq<Flow>, k: nat, groups: nat, size: int, i: nat) returns (j: nat)
    requires Layout(flows, k, groups, size)
    requires i < |flows| && flows[i].begin.OnTrigger?
    ensures j < |flows| && WokenBy(flows, i, j)
    ensures forall j' :: 0 <= j' < |flows| && WokenBy(flows, i, j') ==> j' == j
  {
    var d, v := EveryFlow(flows, k, groups, size, i);
    PartnerInGroup(k, d - 1, v);
    FlowIs(flows, k, groups, size, d - 1, Partner(Pow2(d - 1), v));
    j := IndexOf(k, d - 1, Partner(Pow2(d - 1), v));
    forall j' | 0 <= j' < |flows| ensures WokenBy(flows, i, j') <==> j' == j {
      Wakes(flows, k, groups, size, d, v, j');
    }
  }

  /** The flow that `v` sends at step `d` wakes its receiver's next flow. */
  lemma NextFlow(flows: seq<Flow>, k: nat, groups: nat, size: int, d: nat, v: nat, i: nat)
    requires Layout(flows, k, groups, size) && d + 1 < k && IsNode(k, groups, v)
             && i == IndexOf(k, d + 1, Partner(Pow2(d), v))
    ensures IndexOf(k, d, v) < i < |flows| && WokenBy(flows, i, IndexOf(k, d, v))
    ensures flows[i].src == Partner(Pow2(d), v) && Quot(flows[i].dst, Pow2(k)) == Quot(v, Pow2(k))
  {
    var u := Partner(Pow2(d), v);
    PartnerInGroup(k, d, v);
    PartnerInGroup(k, d + 1, u);
    PartnerSymmetric(Pow2(d), v);
    FlowIs(flows, k, groups, size, d + 1, u);
    FlowIs(flows, k, groups, size, d, v);
    EarlierStep(k, d + 1, u, d, v);
  }

  lemma WokenFlow(flows: seq<Flow>, k: nat, groups: nat, size: int, j: nat) returns (i: nat)
    requires Layout(flows, k, groups, size)
    requires j < |flows| && !flows[j].ending.Quiet?
    ensures i < |flows| && WokenBy(flows, i, j)
    ensures flows[i].src == flows[j].dst && Quot(flows[i].dst, Pow2(k)) == Quot(flows[j].src, Pow2(k))
    ensures forall i' :: 0 <= i' < |flows| && WokenBy(flows, i', j) ==> i' == i
  {
    var d, v := EveryFlow(flows, k, groups, size, j);
    i := IndexOf(k, d + 1, Partner(Pow2(d), v));
    NextFlow(flows, k, groups, size, d, v, i);
    forall i' | 0 <= i' < |flows| && WokenBy(flows, i', j) ensures i' == i {
      OnlyWoken(flows, k, groups, size, d, v, i');
    }
  }

  lemma OnlyWoken(flows: seq<Flow>, k: nat, groups: nat, size: int, d: nat, v: nat, i: nat)
    requires Layout(flows, k, groups, size)
    requires d < k && IsNode(k, groups, v) && i < |flows| && IndexOf(k, d, v) < |flows|
    requires WokenBy(flows, i, IndexOf(k, d, v))
    ensures i == IndexOf(k, d + 1, Partner(Pow2(d), v))
  {
    var e, u := EveryFlow(flows, k, groups, size, i);
    Wakes(flows, k, groups, size, e, u, IndexOf(k, d, v));
    PartnerSymmetric(Pow2(e - 1), u);
    IndexInjective(k, d, v, e - 1, Partner(Pow2(e - 1), u));
  }

  /** Every trigger is fired by one flow and awaited by one flow, which leaves the node the firing flow went to
      and stays in its group. */
  lemma TriggersPair(flows: seq<Flow>, k: nat, groups: nat, size: int, j: nat)
    requires Layout(flows, k, groups, size)
    requires k >= 1 && j < |flows| && !flows[j].ending.Quiet?
    ensures var t := flows[j].ending.fired;
            && Firers(flows, t) == {j}
            && exists i :: 0 <= i < |flows| && Targets(flows, t) == [i]
                           && flows[i].src == flows[j].dst && Quot(flows[i].dst, Pow2(k)) == Quot(flows[j].src, Pow2(k))
  {
    var t := flows[j].ending.fired;
    var i := WokenFlow(flows, k, groups, size, j);
    forall i' | i' in Targets(flows, t) ensures i' == i { assert WokenBy(flows, i', j); }
    assert i in Targets(flows, t);
    OnlyTarget(flows, t, i);
    var j0 := WakerExists(flows, k, groups, size, i);
    forall j' | j' in Firers(flows, t) ensures j' == j { assert WokenBy(flows, i, j'); }
    assert j in Firers(flows, t);
  }

  lemma FilePairedUp(flows: seq<Flow>, k: nat, groups: nat, size: int)
    requires Layout(flows, k, groups, size)
    requires k >= 1
    ensures PairedUp(flows)
  {
    forall i: nat | i < |flows| && flows[i].begin.OnTrigger? ensures Firers(flows, flows[i].begin.awaited) != {} {
      var j := WakerExists(flows, k, groups, size, i);
      assert j in Firers(flows, flows[i].begin.awaited);
    }
    forall j: nat | j < |flows| && !flows[j].ending.Quiet?
      ensures Firers(flows, flows[j].ending.fired) == {j} && Targets(flows, flows[j].ending.fired) != []
    {
      TriggersPair(flows, k, groups, size, j);
    }
  }

  lemma FileWellFormed(flows: seq<Flow>, k: nat, groups: nat, size: int)
    requires Layout(flows, k, groups, size)
    requires k >= 1
    ensures WellFormed(Plan(OneShot, flows))
  {
    FilePairedUp(flows, k, groups, size);
    forall i, j | 0 <= i < |flows| && 0 <= j < |flows| && WokenBy(flows, i, j) ensures j < i {
      WakerIsEarlier(flows, k, groups, size, i, j);
    }
  }

  /** The simulation of the file can always go on until every flow is done, and never aborts. */
  lemma NeverDeadlocks(k: nat, groups: nat, size: int, run: seq<nat>)
    requires k >= 1 && IsRun(FileOf(k, groups, size), run)
    ensures var p := FileOf(k, groups, size);
            !After(p, run).aborted && (|run| == |p.flows| || exists i :: Enabled(p, After(p, run), i))
  {
    FileLayout(k, groups, size);
    FileWellFormed(FileOf(k, groups, size).flows, k, groups, size);
    NeverStuck(FileOf(k, groups, size), run);
  }

  // ---------------------------------------------------------------- what the nodes hold

  /** When the flow that `v` sends at step `d` starts and is done. */
  function SentAt(k: nat, at: seq<Span>, d: nat, v: nat): Span {
    if IndexOf(k, d, v) < |at| then at[IndexOf(k, d, v)] else Span(0, 0)
  }

  /** A contribution that is not the node's own came from a partner, who held it when its flow started. */
  lemma HoldsVia(flows: seq<Flow>, k: nat, groups: nat, size: int, at: seq<Span>, v: nat, t: nat, o: nat)
    returns (d: nat, u: nat)
    requires Layout(flows, k, groups, size)
    requires |at| == |flows| && IsNode(k, groups, v) && o != v
    requires Holds(flows, at, v, t, o)
    ensures d < k && u == Partner(Pow2(d), v) && v == Partner(Pow2(d), u) && IsNode(k, groups, u)
    ensures SentAt(k, at, d, u).start < SentAt(k, at, d, u).done <= t
    ensures Holds(flows, at, u, SentAt(k, at, d, u).start, o)
  {
    var i :| 0 <= i < |flows| && i < |at| && Arrived(flows[i], at[i], v, t)
        && Holds(flows, at, flows[i].src, at[i].start, o);
    d, u := EveryFlow(flows, k, groups, size, i);
    PartnerSymmetric(Pow2(d), u);
  }

  lemma HoldsBy(flows: seq<Flow>, k: nat, groups: nat, size: int, at: seq<Span>, v: nat, t: nat, o: nat, d: nat)
    requires Layout(flows, k, groups, size)
    requires |at| == |flows| && IsNode(k, groups, v) && d < k
    requires var u := Partner(Pow2(d), v);
             SentAt(k, at, d, u).start < SentAt(k, at, d, u).done <= t
             && Holds(flows, at, u, SentAt(k, at, d, u).start, o)
    ensures Holds(flows, at, v, t, o)
  {
    var u := Partner(Pow2(d), v);
    PartnerInGroup(k, d, v);
    PartnerSymmetric(Pow2(d), v);
    FlowIs(flows, k, groups, size, d, u);
    assert Arrived(flows[IndexOf(k, d, u)], at[IndexOf(k, d, u)], v, t);
  }

  lemma Lasts(flows: seq<Flow>, k: nat, groups: nat, size: int, at: seq<Span>, d: nat, v: nat)
    requires Layout(flows, k, groups, size)
    requires Timetable(flows, at) && d < k && IsNode(k, groups, v)
    ensures SentAt(k, at, d, v).start < SentAt(k, at, d, v).done
  {
    FlowIs(flows, k, groups, size, d, v);
  }

  /** Every node waits for what it receives at earlier steps before it sends at a later one. */
  ghost predicate InStepOrder(k: nat, groups: nat, at: seq<Span>) {
    forall d, e, v :: 0 <= e < d < k && IsNode(k, groups, v) ==>
      SentAt(k, at, e, Partner(Pow2(e), v)).done <= SentAt(k, at, d, v).start
  }

  /** All flows of a step are received before any flow of a later step starts. */
  ghost predicate Barrier(k: nat, groups: nat, at: seq<Span>) {
    forall d, e, u, v :: 0 <= e < d < k && IsNode(k, groups, u) && IsNode(k, groups, v) ==>
      SentAt(k, at, e, u).done <= SentAt(k, at, d, v).start
  }

  lemma BarrierIsOrder(k: nat, groups: nat, at: seq<Span>)
    requires Barrier(k, groups, at)
    ensures InStepOrder(k, groups, at)
  {
    forall d, e, v | 0 <= e < d < k && IsNode(k, groups, v)
      ensures SentAt(k, at, e, Partner(Pow2(e), v)).done <= SentAt(k, at, d, v).start
    {
      PartnerInGroup(k, e, v);
    }
  }

  /** Node `v` has received its flows of the steps before `d` by time `t`. */
  ghost predicate Received(k: nat, at: seq<Span>, d: nat, v: nat, t: nat) {
    forall e :: 0 <= e < d ==> SentAt(k, at, e, Partner(Pow2(e), v)).done <= t
  }

  lemma ReceivedBeforeSending(k: nat, groups: nat, at: seq<Span>, d: nat, v: nat)
    requires InStepOrder(k, groups, at) && d < k && IsNode(k, groups, v)
    ensures Received(k, at, d, v, SentAt(k, at, d, v).start)
  {
  }

  /** In step order, a node that has received its flows of the steps before `d` holds its whole block of `Pow2(d)`. */
  lemma {:induction false} HoldsBlock(flows: seq<Flow>, k: nat, groups: nat, size: int, at: seq<Span>, d: nat, v: nat,
                                      t: nat, o: nat)
    requires Layout(flows, k, groups, size)
    requires Timetable(flows, at) && InStepOrder(k, groups, at)
    requires d <= k && IsNode(k, groups, v) && InBlock(Pow2(d), v, o) && Received(k, at, d, v, t)
    ensures Holds(flows, at, v, t, o)
    decreases d, 0
  {
    if d == 0 {
      QuotIs(v, 1);
      QuotIs(o, 1);
    } else {
      BlockSplit(Pow2(d - 1), v, o);
      if InBlock(Pow2(d - 1), v, o) {
        HoldsBlock(flows, k, groups, size, at, d - 1, v, t, o);
      } else {
        HoldsFromPartner(flows, k, groups, size, at, d - 1, v, t, o);
      }
    }
  }

  lemma {:induction false} HoldsFromPartner(flows: seq<Flow>, k: nat, groups: nat, size: int, at: seq<Span>, d: nat,
                                            v: nat, t: nat, o: nat)
    requires Layout(flows, k, groups, size)
    requires Timetable(flows, at) && InStepOrder(k, groups, at)
    requires d < k && IsNode(k, groups, v) && InBlock(Pow2(d), Partner(Pow2(d), v), o) && Received(k, at, d + 1, v, t)
    ensures Holds(flows, at, v, t, o)
    decreases d, 1
  {
    var u := Partner(Pow2(d), v);
    PartnerInGroup(k, d, v);
    ReceivedBeforeSending(k, groups, at, d, u);
    HoldsBlock(flows, k, groups, size, at, d, u, SentAt(k, at, d, u).start, o);
    Lasts(flows, k, groups, size, at, d, u);
    HoldsBy(flows, k, groups, size, at, v, t, o, d);
  }

  /** With a barrier, as long as only flows of steps before `d` are done, nobody holds more than its block of
      `Pow2(d)`. */
  lemma {:induction false} HoldsOnlyBlock(flows: seq<Flow>, k: nat, groups: nat, size: int, at: seq<Span>, d: nat,
                                          v: nat, t: nat, o: nat)
    requires Layout(flows, k, groups, size)
    requires Timetable(flows, at) && Barrier(k, groups, at)
    requires d <= k && IsNode(k, groups, v) && Holds(flows, at, v, t, o)
    requires forall e, u :: 0 <= e < k && IsNode(k, groups, u) && SentAt(k, at, e, u).done <= t ==> e < d
    ensures InBlock(Pow2(d), v, o)
    decreases t
  {
    if o != v {
      var e, u := HoldsVia(flows, k, groups, size, at, v, t, o);
      var start := SentAt(k, at, e, u).start;
      forall e', u' | 0 <= e' < k && IsNode(k, groups, u') && SentAt(k, at, e', u').done <= start ensures e' < e + 1 {
        Lasts(flows, k, groups, size, at, e', u');
      }
      HoldsOnlyBlock(flows, k, groups, size, at, e + 1, u, start, o);
      PartnerSymmetric(Pow2(e), u);
      BlockGrows(e + 1, d, v, o);
    }
  }

  /** Between the steps of a run with barriers every node holds exactly its aligned block of contributors. */
  lemma BarrierExact(flows: seq<Flow>, k: nat, groups: nat, size: int, at: seq<Span>, d: nat, t: nat, v: nat, o: nat)
    requires Layout(flows, k, groups, size)
    requires Timetable(flows, at) && Barrier(k, groups, at)
    requires d <= k && IsNode(k, groups, v)
    requires forall e, u :: 0 <= e < k && IsNode(k, groups, u) ==> (SentAt(k, at, e, u).done <= t <==> e < d)
    ensures Holds(flows, at, v, t, o) <==> InBlock(Pow2(d), v, o)
  {
    if Holds(flows, at, v, t, o) {
      HoldsOnlyBlock(flows, k, groups, size, at, d, v, t, o);
    }
    if InBlock(Pow2(d), v, o) {
      BarrierIsOrder(k, groups, at);
      forall e | 0 <= e < d ensures SentAt(k, at, e, Partner(Pow2(e), v)).done <= t { PartnerInGroup(k, e, v); }
      assert Received(k, at, d, v, t);
      HoldsBlock(flows, k, groups, size, at, d, v, t, o);
    }
  }

  /** Once every flow is done, every node holds the contributions of its whole group. */
  ghost predicate AllReduced(k: nat, groups: nat, flows: seq<Flow>, at: seq<Span>) {
    forall v, o, t :: IsNode(k, groups, v) && InBlock(Pow2(k), v, o) && AllDone(at, t) ==> Holds(flows, at, v, t, o)
  }

  predicate AllDone(at: seq<Span>, t: nat) {
    forall i :: 0 <= i < |at| ==> at[i].done <= t
  }

  lemma StepOrderReduces(flows: seq<Flow>, k: nat, groups: nat, size: int, at: seq<Span>)
    requires Layout(flows, k, groups, size)
    requires Timetable(flows, at) && InStepOrder(k, groups, at)
    ensures AllReduced(k, groups, flows, at)
  {
    forall v, o, t | IsNode(k, groups, v) && InBlock(Pow2(k), v, o) && AllDone(at, t)
      ensures Holds(flows, at, v, t, o)
    {
      HoldsBlock(flows, k, groups, size, at, k, v, t, o);
    }
  }

  /** With at most two steps the triggers alone keep step order. */
  lemma TwoStepsInOrder(flows: seq<Flow>, k: nat, groups: nat, size: int, at: seq<Span>)
    requires Layout(flows, k, groups, size)
    requires k <= 2 && Timetable(flows, at)
    ensures InStepOrder(k, groups, at)
  {
    forall d, e, v | 0 <= e < d < k && IsNode(k, groups, v)
      ensures SentAt(k, at, e, Partner(Pow2(e), v)).done <= SentAt(k, at, d, v).start
    {
      var u := Partner(Pow2(e), v);
      PartnerInGroup(k, e, v);
      FlowIs(flows, k, groups, size, e, u);
      Wakes(flows, k, groups, size, d, v, IndexOf(k, e, u));
    }
  }

  // ---------------------------------------------------------------- a run that loses a contribution

  /** Step and sender of flow `i`. */
  ghost function Whence(k: nat, i: nat): (r: (nat, nat))
    ensures (exists d, v :: 0 <= d < k && i == IndexOf(k, d, v)) ==> r.0 < k && i == IndexOf(k, r.0, r.1)
  {
    if d: nat, v: nat :| d < k && i == IndexOf(k, d, v) then (d, v) else (0, 0)
  }

  /** The chain 1->0, 0->2, 2->6, 6->14, ...: each of its flows wakes the next. */
  predicate Late(d: nat, v: nat) {
    Partner(Pow2(d), v) == 2 * Pow2(d) - 2
  }

  /** Flows of step `d` take one unit from time `d`, except that 1->0 is so slow that the chain behind it comes last. */
  function SlowSpan(k: nat, d: nat, v: nat): Span {
    if !Late(d, v) then Span(d, d + 1)
    else Span(if d == 0 then 0 else k + d, k + d + 1)
  }

  ghost function SlowTimes(k: nat, n: nat): seq<Span> {
    seq(n, i requires 0 <= i < n => SlowSpan(k, Whence(k, i).0, Whence(k, i).1))
  }

  lemma SlowSentAt(flows: seq<Flow>, k: nat, groups: nat, size: int, d: nat, v: nat)
    requires Layout(flows, k, groups, size)
    requires d < k && IsNode(k, groups, v)
    ensures SentAt(k, SlowTimes(k, |flows|), d, v) == SlowSpan(k, d, v)
  {
    FlowIs(flows, k, groups, size, d, v);
    var w := Whence(k, IndexOf(k, d, v));
    IndexInjective(k, d, v, w.0, w.1);
  }

  lemma LateChain(d: nat, v: nat)
    requires d > 0
    ensures Late(d, v) <==> Late(d - 1, Partner(Pow2(d - 1), v))
  {
    var w := Pow2(d);
    PartnerSymmetric(w, v);
    PartnerSymmetric(Pow2(d - 1), v);
    assert Partner(w, w - 2) == 2 * w - 2;
    PartnerSymmetric(w, w - 2);
  }

  lemma SlowChain(k: nat, d: nat, v: nat)
    requires 0 < d < k
    ensures SlowSpan(k, d - 1, Partner(Pow2(d - 1), v)).done == SlowSpan(k, d, v).start
  {
    LateChain(d, v);
  }

  lemma SlowStarts(flows: seq<Flow>, k: nat, groups: nat, size: int, d: nat, v: nat)
    requires Layout(flows, k, groups, size)
    requires 0 < d < k && IsNode(k, groups, v)
    ensures var at := SlowTimes(k, |flows|);
            SentAt(k, at, d - 1, Partner(Pow2(d - 1), v)).done == SentAt(k, at, d, v).start
  {
    PartnerInGroup(k, d - 1, v);
    SlowMeets(flows, k, groups, size, d, v, Partner(Pow2(d - 1), v));
  }

  lemma SlowMeets(flows: seq<Flow>, k: nat, groups: nat, size: int, d: nat, v: nat, u: nat)
    requires Layout(flows, k, groups, size) && 0 < d < k && IsNode(k, groups, v) && IsNode(k, groups, u)
    requires u == Partner(Pow2(d - 1), v)
    ensures var at := SlowTimes(k, |flows|); SentAt(k, at, d - 1, u).done == SentAt(k, at, d, v).start
  {
    SlowSentAt(flows, k, groups, size, d, v);
    SlowSentAt(flows, k, groups, size, d - 1, u);
    SlowChain(k, d, v);
  }

  lemma SlowLawful(flows: seq<Flow>, k: nat, groups: nat, size: int)
    requires Layout(flows, k, groups, size)
    requires k >= 1
    ensures var at := SlowTimes(k, |flows|);
            Timetable(flows, at) && Eager(flows, at)
  {
    var at := SlowTimes(k, |flows|);
    forall i: nat | i < |flows| ensures at[i].start < at[i].done && (flows[i].begin.At? ==> at[i].start == 0) {
      var d, v := EveryFlow(flows, k, groups, size, i);
      SlowSentAt(flows, k, groups, size, d, v);
    }
    forall i: nat, j: nat | i < |flows| && j < |flows| && WokenBy(flows, i, j) ensures at[j].done == at[i].start {
      var d, v := EveryFlow(flows, k, groups, size, i);
      Wakes(flows, k, groups, size, d, v, j);
      SlowStarts(flows, k, groups, size, d, v);
    }
    FileWellFormed(flows, k, groups, size);
    forall i: nat | i < |flows| && flows[i].begin.OnTrigger?
      ensures exists j :: 0 <= j < |flows| && Fires(flows[j], flows[i].begin.awaited) && at[j].done == at[i].start
    {
      var j := HasWaker(Plan(OneShot, flows), i);
      assert at[j].done == at[i].start;
    }
  }

  /** Until time `k` the slow run looks like one with barriers. */
  lemma {:induction false} SlowBlock(flows: seq<Flow>, k: nat, groups: nat, size: int, v: nat, t: nat, o: nat)
    requires Layout(flows, k, groups, size)
    requires k >= 1 && t <= k && IsNode(k, groups, v)
    requires Holds(flows, SlowTimes(k, |flows|), v, t, o)
    ensures InBlock(Pow2(t), v, o)
    decreases t
  {
    if o != v {
      var d, u := HoldsVia(flows, k, groups, size, SlowTimes(k, |flows|), v, t, o);
      SlowSentAt(flows, k, groups, size, d, u);
      SlowBlock(flows, k, groups, size, u, d, o);
      BlockSplit(Pow2(d), v, o);
      BlockGrows(d + 1, t, v, o);
    }
  }

  lemma ZeroLacksOne(flows: seq<Flow>, k: nat, groups: nat, size: int)
    requires Layout(flows, k, groups, size)
    requires k >= 3 && groups >= 1
    ensures !Holds(flows, SlowTimes(k, |flows|), 0, 2, 1)
  {
    if Holds(flows, SlowTimes(k, |flows|), 0, 2, 1) {
      var d, u := HoldsVia(flows, k, groups, size, SlowTimes(k, |flows|), 0, 2, 1);
      SlowSentAt(flows, k, groups, size, d, u);
      assert d == 1;
      SlowBlock(flows, k, groups, size, 2, 1, 1);
    }
  }

  /** Node 4 never learns the contribution of node 1. */
  lemma FourLacksOne(flows: seq<Flow>, k: nat, groups: nat, size: int, t: nat)
    requires Layout(flows, k, groups, size)
    requires k >= 3 && groups >= 1
    ensures !Holds(flows, SlowTimes(k, |flows|), 4, t, 1)
  {
    SmallNode(k, groups);
    if Holds(flows, SlowTimes(k, |flows|), 4, t, 1) {
      var d, u := HoldsVia(flows, k, groups, size, SlowTimes(k, |flows|), 4, t, 1);
      SlowSentAt(flows, k, groups, size, d, u);
      assert !Late(d, u) by { assert Pow2(d) != 3; }
      if d == 2 {
        ZeroLacksOne(flows, k, groups, size);
      } else {
        SlowBlock(flows, k, groups, size, u, d, 1);
        FarFromOne(d);
      }
    }
  }

  lemma SmallNode(k: nat, groups: nat)
    requires k >= 3 && groups >= 1
    ensures Pow2(k) >= 8 && IsNode(k, groups, 4) && InBlock(Pow2(k), 4, 1)
  {
    BlockGrows(3, k, 4, 1);
    if k > 3 { Pow2Split(3, k); }
  }

  lemma FarFromOne(d: nat)
    requires d != 2
    ensures !InBlock(Pow2(d), Partner(Pow2(d), 4), 1)
  {
    if d >= 3 {
      if d > 3 { Pow2Split(3, d); }
      assert Pow2(d) >= 8;
      assert Partner(Pow2(d), 4) == 4 + Pow2(d);
    } else if d == 0 {
      QuotIs(5, 1);
      QuotIs(1, 1);
    } else {
      QuotIs(6, 2);
      QuotIs(1, 2);
    }
  }

  lemma SlowEnds(flows: seq<Flow>, k: nat, groups: nat, size: int)
    requires Layout(flows, k, groups, size)
    ensures AllDone(SlowTimes(k, |flows|), 2 * k + 1)
  {
    var at := SlowTimes(k, |flows|);
    forall i | 0 <= i < |flows| ensures at[i].done <= 2 * k + 1 {
      var d, v := EveryFlow(flows, k, groups, size, i);
      SlowSentAt(flows, k, groups, size, d, v);
    }
  }

  /** The timetable that loses a contribution. */
  lemma SlowTimesFail(flows: seq<Flow>, k: nat, groups: nat, size: int)
    requires Layout(flows, k, groups, size) && k >= 3 && groups >= 1
    ensures var at := SlowTimes(k, |flows|);
            Timetable(flows, at) && Eager(flows, at) && !AllReduced(k, groups, flows, at)
  {
    SlowLawful(flows, k, groups, size);
    SlowEnds(flows, k, groups, size);
    SmallNode(k, groups);
    FourLacksOne(flows, k, groups, size, 2 * k + 1);
  }

  /** The run of the state machine that loses a contribution: the flows complete in the order of that timetable. */
  lemma SlowRunFails(flows: seq<Flow>, k: nat, groups: nat, size: int) returns (run: seq<nat>)
    requires Layout(flows, k, groups, size) && k >= 3 && groups >= 1
    ensures IsRun(Plan(OneShot, flows), run) && |run| == |flows|
    ensures !AllReduced(k, groups, flows, TimetableOf(flows, run))
  {
    var p, at := Plan(OneShot, flows), SlowTimes(k, |flows|);
    FileWellFormed(flows, k, groups, size);
    SlowLawful(flows, k, groups, size);
    run := RunInOrder(p, at, |flows|);
    var at' := TimetableOf(flows, run);
    SlowEnds(flows, k, groups, size);
    RunEnds(p, run);
    SmallNode(k, groups);
    FourLacksOne(flows, k, groups, size, 2 * k + 1);
    if Holds(flows, at', 4, |flows|, 1) {
      RunHoldsNoMore(p, at, run, 4, |flows|, 2 * k + 1, 1);
    }
  }

  lemma RunEnds(p: Plan, run: seq<nat>)
    requires WellFormed(p) && IsRun(p, run) && |run| == |p.flows|
    ensures AllDone(TimetableOf(p.flows, run), |p.flows|)
  {
    forall i: nat | i < |p.flows| ensures SpanOf(p.flows, run, i).done <= |p.flows| {
      EveryoneRuns(p, run, i);
      DoneWhen(p, run, i);
    }
  }

  lemma InOrderReduces(flows: seq<Flow>, k: nat, groups: nat, size: int, at: seq<Span>)
    requires Layout(flows, k, groups, size) && k <= 2 && Timetable(flows, at)
    ensures AllReduced(k, groups, flows, at)
  {
    TwoStepsInOrder(flows, k, groups, size, at);
    StepOrderReduces(flows, k, groups, size, at);
  }

  /**
   The main result.  The triggers alone make the file an all-reduce in every complete run exactly for groups of at most
   four nodes.
   */
  lemma AllReduceIff(k: nat, groups: nat, size: int)
    requires k >= 1 && groups >= 1
    ensures var p := FileOf(k, groups, size);
            (forall run :: IsRun(p, run) && |run| == |p.flows| ==>
               AllReduced(k, groups, p.flows, TimetableOf(p.flows, run)))
            <==> k <= 2
  {
    var p := FileOf(k, groups, size);
    FileLayout(k, groups, size);
    FileWellFormed(p.flows, k, groups, size);
    if k <= 2 {
      forall run | IsRun(p, run) && |run| == |p.flows|
        ensures AllReduced(k, groups, p.flows, TimetableOf(p.flows, run))
      {
        RunIsTimetable(p, run);
        InOrderReduces(p.flows, k, groups, size, TimetableOf(p.flows, run));
      }
    } else {
      var run := SlowRunFails(p.flows, k, groups, size);
    }
  }

  /** The same for timetables, where flows may take any time, and start at any moment after their trigger has fired or
      at that very moment. */
  lemma AnyTimesIff(k: nat, groups: nat, size: int)
    requires k >= 1 && groups >= 1
    ensures var flows := FileOf(k, groups, size).flows;
            (forall at :: Timetable(flows, at) ==> AllReduced(k, groups, flows, at)) <==> k <= 2
    ensures var flows := FileOf(k, groups, size).flows;
            (forall at :: Timetable(flows, at) && Eager(flows, at) ==> AllReduced(k, groups, flows, at)) <==> k <= 2
  {
    var flows := FileOf(k, groups, size).flows;
    FileLayout(k, groups, size);
    if k <= 2 {
      forall at | Timetable(flows, at) ensures AllReduced(k, groups, flows, at) {
        InOrderReduces(flows, k, groups, size, at);
      }
    } else {
      SlowTimesFail(flows, k, groups, size);
    }
  }
}
