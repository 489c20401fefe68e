/**
 Recursive-doubling all-reduce (gen_allreduce_butterfly.py): the file the script emits.  A group of
 `Pow2(steps)` nodes exchanges data in `steps` steps; at step `d` every node trades with its partner
 `Pow2(d)` away.
 */
module Butterfly {
  import opened Arith
  import opened Blocks
  import opened TriggerGraph

  // ---------------------------------------------------------------- one step of one group

  /** How many of the local ranks below `n` open an exchange. */
  function Openers(w: nat, n: nat): nat
    requires w >= 1
  {
    if n == 0 then 0 else Openers(w, n - 1) + if Opens(w, n - 1) then 1 else 0
  }

  /** Place of the flow sent by local rank `x` among the flows of its step. */
  function Place(w: nat, x: nat): nat
    requires w >= 1
  {
    if Opens(w, x) then 2 * Openers(w, x) else 2 * Openers(w, Partner(w, x)) + 1
  }

  /** One step of one group: its members, the distance `w` to a partner, the number of flows and triggers emitted
      before it, and the number of triggers emitted before the step it waits for. */
  datatype Step = Step(members: seq<nat>, w: nat, size: int, first: bool, last: bool,
                       flowsBefore: nat, firedBefore: nat, awaitedBefore: nat)

  ghost predicate ValidStep(s: Step) {
    && s.w >= 1
    && (s.first <==> s.w == 1)
    && forall x: nat :: x < |s.members| ==> Partner(s.w, x) < |s.members|
  }

  /** Trigger fired by the flow that rank `x` receives in this step, and in the step before. */
  function Fired(s: Step, x: nat): nat
    requires s.w >= 1
  {
    s.firedBefore + Place(s.w, Partner(s.w, x)) + 1
  }

  function Awaited(s: Step, x: nat): nat
    requires s.w >= 2
  {
    s.awaitedBefore + Place(s.w / 2, Partner(s.w / 2, x)) + 1
  }

  function FlowFrom(s: Step, x: nat): Flow
    requires ValidStep(s) && x < |s.members|
  {
    var y := Partner(s.w, x);
    Flow(s.members[x], s.members[y], s.flowsBefore + Place(s.w, x) + 1,
         if s.first then At(0) else OnTrigger(Awaited(s, x)), s.size, if s.last then Quiet else RecvDone(Fired(s, y)))
  }

  /** The lines printed for the ranks below `src`. */
  function Lines(s: Step, src: nat): seq<Flow>
    requires ValidStep(s) && src <= |s.members|
  {
    if src == 0 then []
    else Lines(s, src - 1)
         + if Opens(s.w, src - 1) then [FlowFrom(s, src - 1), FlowFrom(s, Partner(s.w, src - 1))] else []
  }

  lemma OpenerPair(w: nat, x: nat)
    requires w >= 1 && Opens(w, x)
    ensures Partner(w, x) == x + w && !Opens(w, x + w) && Partner(w, x + w) == x
    ensures Place(w, x) == 2 * Openers(w, x) && Place(w, x + w) == 2 * Openers(w, x) + 1
  {
  }

  /** The flow into rank `x` has been emitted when `src` is next: the earlier of the two partners has been passed. */
  ghost predicate Served(w: nat, x: nat, src: nat)
    requires w >= 1
  {
    x < src || Partner(w, x) < src
  }

  /** The row of the step before names the trigger every rank waits for. */
  ghost predicate Readable(s: Step, prev: seq<int>)
    requires ValidStep(s)
  {
    !s.first ==> |prev| >= |s.members| && forall x :: 0 <= x < |s.members| ==> prev[x] == Awaited(s, x)
  }

  /** The body of the innermost loop: the two flows of the exchange opened by `src`. */
  method EmitExchange(groupsrcs: seq<nat>, flowsize: int, step: nat, firstStep: bool, lastStep: bool,
                      id0: nat, trigId0: nat, prev: seq<int>, row0: seq<int>, src: nat, ghost s: Step)
    returns (id: nat, trigId: nat, row: seq<int>, there: Flow, back: Flow)
    requires ValidStep(s) && s.w == step && src < |groupsrcs| && Opens(step, src)
    requires s.members == groupsrcs && s.size == flowsize && s.first == firstStep && s.last == lastStep
    requires id0 == s.flowsBefore + 2 * Openers(step, src)
    requires !lastStep ==> trigId0 == s.firedBefore + 2 * Openers(step, src)
    requires |row0| >= |groupsrcs| && (!lastStep ==> RowFilled(s, row0, src))
    requires Readable(s, prev)
    ensures there == FlowFrom(s, src) && back == FlowFrom(s, Partner(step, src))
    ensures id == id0 + 2 && trigId == trigId0 + if lastStep then 0 else 2
    ensures |row| == |row0| && (!lastStep ==> RowFilled(s, row, src + 1))
  {
    id, trigId, row := id0, trigId0, row0;
    var dst := src + step;
    OpenerPair(step, src);
    assert Partner(s.w, src) < |s.members|;
    id := id + 1;
    if !lastStep {
      trigId := trigId + 1;
      row := row[dst := trigId];
    }
    var begin := if firstStep then At(0) else OnTrigger(prev[src] as nat);
    there := Flow(groupsrcs[src], groupsrcs[dst], id, begin, flowsize, if lastStep then Quiet else RecvDone(trigId));
    id := id + 1;
    if !lastStep {
      trigId := trigId + 1;
      row := row[src := trigId];
      FillPair(s, row0, row, src);
    }
    begin := if firstStep then At(0) else OnTrigger(prev[dst] as nat);
    back := Flow(groupsrcs[dst], groupsrcs[src], id, begin, flowsize, if lastStep then Quiet else RecvDone(trigId));
  }

  /** The script's own test for the lower rank of a pair. */
  method TestOpens(step: nat, src: nat) returns (opens: bool)
    requires step >= 1
    ensures opens <==> Opens(step, src)
  {
    OpensIsEven(step, src);
    opens := (src / step) % 2 == 0;
  }

  /** The innermost loop of the script, with the two rows of the trigger table it uses: `row[x]` is to name the
      trigger fired by the flow into local rank `x`. */
  method EmitStep(groupsrcs: seq<nat>, flowsize: int, step: nat, firstStep: bool, lastStep: bool,
                  id0: nat, trigId0: nat, prev: seq<int>, row0: seq<int>, ghost s: Step)
    returns (id: nat, trigId: nat, row: seq<int>, lines: seq<Flow>)
    requires ValidStep(s) && |row0| >= |groupsrcs|
    requires s == Step(groupsrcs, step, flowsize, firstStep, lastStep, id0, trigId0, s.awaitedBefore)
    requires Readable(s, prev)
    ensures lines == Lines(s, |groupsrcs|)
    ensures |lines| == 2 * Openers(step, |groupsrcs|)
    ensures id == id0 + |lines|
    ensures trigId == trigId0 + if lastStep then 0 else |lines|
    ensures |row| == |row0| && (!lastStep ==> RowFilled(s, row, |groupsrcs|))
  {
    id, trigId, row, lines := id0, trigId0, row0, [];
    for src := 0 to |groupsrcs|
      invariant lines == Lines(s, src)
      invariant |lines| == 2 * Openers(step, src)
      invariant id == id0 + |lines|
      invariant trigId == trigId0 + if lastStep then 0 else |lines|
      invariant |row| == |row0|
      invariant !lastStep ==> RowFilled(s, row, src)
    {
      var opens := TestOpens(step, src);
      if opens {
        var there, back;
        id, trigId, row, there, back := EmitExchange(groupsrcs, flowsize, step, firstStep, lastStep,
                                                     id, trigId, prev, row, src, s);
        lines := lines + [there, back];
      } else {
        SkipFollower(s, row, src);
      }
    }
  }

  /** The table row is filled in for every rank whose incoming flow has been emitted. */
  ghost predicate RowFilled(s: Step, row: seq<int>, src: nat)
    requires s.w >= 1
  {
    |row| >= |s.members| && forall x :: 0 <= x < |s.members| && Served(s.w, x, src) ==> row[x] == Fired(s, x)
  }

  lemma FillPair(s: Step, before: seq<int>, row: seq<int>, src: nat)
    requires ValidStep(s) && src < |s.members| && Opens(s.w, src) && RowFilled(s, before, src)
    requires src + s.w < |s.members|
    requires row == before[src + s.w := Fired(s, src + s.w)][src := Fired(s, src)]
    ensures RowFilled(s, row, src + 1)
  {
    OpenerPair(s.w, src);
    OnlyPartner(s.w, src);
  }

  lemma SkipFollower(s: Step, row: seq<int>, src: nat)
    requires ValidStep(s) && src < |s.members| && !Opens(s.w, src)
    ensures RowFilled(s, row, src) ==> RowFilled(s, row, src + 1)
  {
    OnlyPartner(s.w, src);
  }

  lemma OnlyPartner(w: nat, x: nat)
    requires w >= 1
    ensures forall y: nat :: Partner(w, y) == x ==> y == Partner(w, x)
  {
  }

  // ---------------------------------------------------------------- counting the places of a step

  lemma {:induction false} OpenersGrow(w: nat, m: nat, n: nat)
    requires w >= 1 && m <= n
    ensures Openers(w, m) <= Openers(w, n)
    ensures m < n && Opens(w, m) ==> Openers(w, m) < Openers(w, n)
    decreases n
  {
    if m < n {
      OpenersGrow(w, m, n - 1);
    }
  }

  /** In every block of `2w` ranks the lower half opens. */
  lemma OpensInBlock(w: nat, m: nat, r: nat)
    requires r < 2 * w
    ensures Opens(w, m * (2 * w) + r) <==> r < w
  {
    Halves(w, m * (2 * w) + r, m, r);
    OpensIsEven(w, m * (2 * w) + r);
  }

  lemma {:induction false} BlockOpeners(w: nat, m: nat, r: nat)
    requires w >= 1 && r <= 2 * w
    ensures Openers(w, m * (2 * w) + r) == Openers(w, m * (2 * w)) + Min(r, w)
  {
    if r > 0 {
      BlockOpeners(w, m, r - 1);
      OpensInBlock(w, m, r - 1);
    }
  }

  /** So exactly half of the ranks in a run of `m` blocks open. */
  lemma {:induction false} HalfOpen(w: nat, m: nat)
    requires w >= 1
    ensures Openers(w, m * (2 * w)) == m * w
  {
    if m > 0 {
      HalfOpen(w, m - 1);
      BlockOpeners(w, m - 1, 2 * w);
      Distribute(m - 1, 1, 2 * w);
      Distribute(m - 1, 1, w);
    }
  }

  lemma BlocksOpeners(w: nat, m: nat)
    requires w >= 1
    ensures 2 * Openers(w, m * (2 * w)) == m * (2 * w)
  {
    HalfOpen(w, m);
    assert m * (2 * w) == 2 * (m * w);
  }

  lemma GroupOpeners(d: nat, k: nat)
    requires d < k
    ensures 2 * Openers(Pow2(d), Pow2(k)) == Pow2(k)
  {
    Pow2Split(d, k);
    BlocksOpeners(Pow2(d), Pow2(k - d - 1));
  }

  /** The places of a step are exactly those of the members of the group, each once. */
  lemma PlaceInRange(d: nat, k: nat, x: nat)
    requires d < k && x < Pow2(k)
    ensures Place(Pow2(d), x) < Pow2(k)
  {
    var w := Pow2(d);
    GroupOpeners(d, k);
    OpenersGrow(w, if Opens(w, x) then x else x - w, Pow2(k));
  }

  lemma PlaceInjective(w: nat, x: nat, y: nat)
    requires w >= 1 && Place(w, x) == Place(w, y)
    ensures x == y
  {
    var x', y' := if Opens(w, x) then x else x - w, if Opens(w, y) then y else y - w;
    if x' < y' { OpenersGrow(w, x', y'); } else { OpenersGrow(w, y', x'); }
  }

  lemma {:induction false} PlaceSurjective(s: Step, p: nat, n: nat) returns (x: nat)
    requires ValidStep(s) && n <= |s.members| && p < 2 * Openers(s.w, n)
    ensures x < |s.members| && Place(s.w, x) == p
  {
    if Opens(s.w, n - 1) && p >= 2 * Openers(s.w, n - 1) {
      OpenerPair(s.w, n - 1);
      assert Partner(s.w, n - 1) < |s.members|;
      x := if p == 2 * Openers(s.w, n - 1) then n - 1 else Partner(s.w, n - 1);
    } else {
      x := PlaceSurjective(s, p, n - 1);
    }
  }

  lemma {:induction false} LinesLength(s: Step, n: nat)
    requires ValidStep(s) && n <= |s.members|
    ensures |Lines(s, n)| == 2 * Openers(s.w, n)
  {
    if n > 0 {
      LinesLength(s, n - 1);
    }
  }

  lemma {:induction false} LinesAt(s: Step, x: nat, n: nat)
    requires ValidStep(s) && n <= |s.members| && x < |s.members| && Served(s.w, x, n)
    ensures Place(s.w, x) < |Lines(s, n)| && Lines(s, n)[Place(s.w, x)] == FlowFrom(s, x)
  {
    var last := n - 1;
    LinesLength(s, last);
    OnlyPartner(s.w, last);
    if Opens(s.w, last) && (x == last || x == last + s.w) {
      OpenerPair(s.w, last);
    } else {
      LinesAt(s, x, last);
    }
  }

  // ---------------------------------------------------------------- the whole file

  function FlowsBefore(k: nat, group: nat, d: nat): nat
    decreases group, d
  {
    if d > 0 then FlowsBefore(k, group, d - 1) + Pow2(k)
    else if group > 0 then FlowsBefore(k, group - 1, k)
    else 0
  }

  /** The last step of a group fires no triggers. */
  function FiredBefore(k: nat, group: nat, d: nat): nat
    decreases group, d
  {
    if d > 0 then FiredBefore(k, group, d - 1) + (if d == k then 0 else Pow2(k))
    else if group > 0 then FiredBefore(k, group - 1, k)
    else 0
  }

  lemma {:induction false} FlowsBeforeIs(k: nat, group: nat, d: nat)
    ensures FlowsBefore(k, group, d) == (group * k + d) * Pow2(k)
    decreases group, d
  {
    if d > 0 {
      FlowsBeforeIs(k, group, d - 1);
      assert (group * k + d) * Pow2(k) == (group * k + (d - 1)) * Pow2(k) + Pow2(k);
    } else if group > 0 {
      FlowsBeforeIs(k, group - 1, k);
      assert (group - 1) * k + k == group * k;
    }
  }

  lemma {:induction false} FiredBeforeIs(k: nat, group: nat, d: nat)
    requires k >= 1 && d <= k
    ensures FiredBefore(k, group, d) == (group * (k - 1) + Min(d, k - 1)) * Pow2(k)
    decreases group, d
  {
    if d > 0 {
      FiredBeforeIs(k, group, d - 1);
      assert (group * (k - 1) + d) * Pow2(k) == (group * (k - 1) + (d - 1)) * Pow2(k) + Pow2(k);
    } else if group > 0 {
      FiredBeforeIs(k, group - 1, k);
      assert (group - 1) * (k - 1) + (k - 1) == group * (k - 1);
    }
  }

  function Members(k: nat, group: nat): (r: seq<nat>)
    ensures |r| == Pow2(k) && forall n :: 0 <= n < |r| ==> r[n] == group * Pow2(k) + n
  {
    seq(Pow2(k), n requires 0 <= n => group * Pow2(k) + n)
  }

  function StepOf(k: nat, size: int, group: nat, d: nat): Step
    requires d < k
  {
    Step(Members(k, group), Pow2(d), size, d == 0, d == k - 1, FlowsBefore(k, group, d), FiredBefore(k, group, d),
         if d == 0 then 0 else FiredBefore(k, group, d - 1))
  }

  lemma StepValid(k: nat, size: int, group: nat, d: nat)
    requires d < k
    ensures ValidStep(StepOf(k, size, group, d))
    ensures |Lines(StepOf(k, size, group, d), Pow2(k))| == Pow2(k)
  {
    forall x: nat | x < Pow2(k) ensures Partner(Pow2(d), x) < Pow2(k) {
      PartnerStays(d, k, x);
    }
    LinesLength(StepOf(k, size, group, d), Pow2(k));
    GroupOpeners(d, k);
  }

  function StepLines(k: nat, size: int, group: nat, d: nat): (r: seq<Flow>)
    requires d < k
    ensures |r| == Pow2(k)
  {
    StepValid(k, size, group, d);
    Lines(StepOf(k, size, group, d), Pow2(k))
  }

  /** Everything emitted before step `d` of `group`. */
  function UpTo(k: nat, size: int, group: nat, d: nat): seq<Flow>
    requires d <= k
    decreases group, d
  {
    if d > 0 then UpTo(k, size, group, d - 1) + StepLines(k, size, group, d - 1)
    else if group > 0 then UpTo(k, size, group - 1, k)
    else []
  }

  function FileOf(k: nat, groups: nat, size: int): Plan {
    Plan(OneShot, UpTo(k, size, groups, 0))
  }

  lemma {:induction false} UpToLength(k: nat, size: int, group: nat, d: nat)
    requires d <= k
    ensures |UpTo(k, size, group, d)| == FlowsBefore(k, group, d)
    decreases group, d
  {
    if d > 0 {
      UpToLength(k, size, group, d - 1);
    } else if group > 0 {
      UpToLength(k, size, group - 1, k);
    }
  }

  /** The two counts at the head of the file are the numbers of flows and triggers emitted after it, except that
      groups of one node make the trigger count negative. */
  method Header(groups: nat, groupsize: nat, steps: nat) returns (connections: int, triggers: int)
    requires groupsize == Pow2(steps)
    ensures connections == FlowsBefore(steps, groups, 0)
    ensures steps >= 1 ==> triggers == FiredBefore(steps, groups, 0)
    ensures steps == 0 ==> triggers == 0 - groups && FiredBefore(steps, groups, 0) == 0
  {
    connections := groups * groupsize * steps;
    triggers := connections - groupsize * groups;
    FlowsBeforeIs(steps, groups, 0);
    if steps >= 1 {
      FiredBeforeIs(steps, groups, 0);
      HeaderCounts(groups, groupsize, steps);
    } else {
      NoSteps(groups);
    }
  }

  method GroupMembers(srcs: seq<nat>, groups: nat, groupsize: nat, group: nat, ghost k: nat)
    returns (groupsrcs: seq<nat>)
    requires groupsize == Pow2(k) && group < groups && groups * groupsize <= |srcs|
    requires forall n :: 0 <= n < |srcs| ==> srcs[n] == n
    ensures groupsrcs == Members(k, group) && |groupsrcs| <= |srcs|
  {
    groupsrcs := [];
    RowFits(group, groups, groupsize, |srcs|);
    var start := group * groupsize;
    for n := 0 to groupsize
      invariant |groupsrcs| == n && forall m :: 0 <= m < n ==> groupsrcs[m] == start + m
    {
      groupsrcs := groupsrcs + [srcs[start + n]];
    }
  }

  /** The steps of one group. */
  function GroupLines(k: nat, size: int, group: nat, d: nat): seq<Flow>
    requires d <= k
  {
    if d == 0 then [] else GroupLines(k, size, group, d - 1) + StepLines(k, size, group, d - 1)
  }

  lemma {:induction false} UpToGroup(k: nat, size: int, group: nat, d: nat)
    requires d <= k
    ensures UpTo(k, size, group, d) == UpTo(k, size, group, 0) + GroupLines(k, size, group, d)
  {
    if d > 0 {
      UpToGroup(k, size, group, d - 1);
    }
  }

  /** The loop over the steps.  The trigger table `triggerIds` has one row a step; a row is appended for every group
      and step, but only the first `steps` of them are ever used, so each group overwrites those of the group before. */
  method EmitGroup(group: nat, groupsrcs: seq<nat>, nodes: nat, flowsize: int, steps: nat, id0: nat, trigId0: nat,
                   table: seq<seq<int>>)
    returns (id: nat, trigId: nat, triggerIds: seq<seq<int>>, lines: seq<Flow>)
    requires groupsrcs == Members(steps, group) && |groupsrcs| <= nodes
    requires id0 == FlowsBefore(steps, group, 0) && trigId0 == FiredBefore(steps, group, 0)
    ensures lines == GroupLines(steps, flowsize, group, steps)
    ensures id == FlowsBefore(steps, group, steps) && trigId == FiredBefore(steps, group, steps)
  {
    id, trigId, triggerIds, lines := id0, trigId0, table, [];
    for d := 0 to steps
      invariant lines == GroupLines(steps, flowsize, group, d)
      invariant id == FlowsBefore(steps, group, d) && trigId == FiredBefore(steps, group, d)
      invariant |triggerIds| >= d
      invariant d > 0 ==> RowReady(triggerIds[d - 1], steps, flowsize, group, d)
    {
      var step := Pow2(d);
      triggerIds := triggerIds + [[]];
      triggerIds := triggerIds[d := triggerIds[d] + seq(nodes, _ => -1)];
      var lastStep := d == steps - 1;
      ghost var s := StepOf(steps, flowsize, group, d);
      StepValid(steps, flowsize, group, d);
      GroupOpeners(d, steps);
      var out, row;
      id, trigId, row, out := EmitStep(groupsrcs, flowsize, step, d == 0, lastStep, id, trigId,
                                       if d == 0 then [] else triggerIds[d - 1], triggerIds[d], s);
      RowForNext(row, steps, flowsize, group, d);
      triggerIds := triggerIds[d := row];
      lines := lines + out;
    }
  }

  /**
   The whole script: header counts, flows, and the number of triggers declared at the end.
   The group size must be a power of two and the groups must fit the nodes: the script indexes out of range otherwise.
   */
  method Emit(nodes: nat, groups: nat, groupsize: nat, flowsize: int, steps: nat)
    returns (connections: int, triggers: int, flows: seq<Flow>, trigId: nat)
    requires groupsize == Pow2(steps) && groups * groupsize <= nodes
    ensures flows == FileOf(steps, groups, flowsize).flows
    ensures connections == |flows|
    ensures triggers == trigId <==> steps >= 1 || groups == 0
  {
    connections, triggers := Header(groups, groupsize, steps);
    flows := [];
    trigId := 0;
    var id := 0;
    var triggerIds: seq<seq<int>> := [];
    var srcs := seq(nodes, n requires 0 <= n => n);
    for group := 0 to groups
      invariant flows == UpTo(steps, flowsize, group, 0) && id == FlowsBefore(steps, group, 0)
      invariant trigId == FiredBefore(steps, group, 0)
    {
      var groupsrcs := GroupMembers(srcs, groups, groupsize, group, steps);
      var lines;
      id, trigId, triggerIds, lines := EmitGroup(group, groupsrcs, nodes, flowsize, steps, id, trigId, triggerIds);
      flows := flows + lines;
      UpToGroup(steps, flowsize, group, steps);
    }
    UpToLength(steps, flowsize, groups, 0);
  }

  /** `prev` names the triggers step `d` waits for. */
  ghost predicate RowReady(prev: seq<int>, k: nat, size: int, group: nat, d: nat) {
    0 < d < k ==> |prev| >= Pow2(k) && forall x :: 0 <= x < Pow2(k) ==> prev[x] == Awaited(StepOf(k, size, group, d), x)
  }

  lemma RowForNext(row: seq<int>, k: nat, size: int, group: nat, d: nat)
    requires d < k && (d + 1 < k ==> RowFilled(StepOf(k, size, group, d), row, Pow2(k)))
    ensures RowReady(row, k, size, group, d + 1)
  {
    if d + 1 < k {
      var s, s' := StepOf(k, size, group, d), StepOf(k, size, group, d + 1);
      forall x: nat | x < Pow2(k) ensures row[x] == Awaited(s', x) {
        assert Served(s.w, x, Pow2(k));
      }
    }
  }

  lemma {:induction false} NoSteps(groups: nat)
    ensures FiredBefore(0, groups, 0) == 0
  {
    if groups > 0 {
      NoSteps(groups - 1);
    }
  }

  lemma HeaderCounts(groups: nat, G: nat, k: nat)
    requires k >= 1
    ensures groups * G * k == (groups * k) * G
    ensures groups * G * k - G * groups == groups * (k - 1) * G
  {
    assert groups * G * k == groups * k * G;
    assert groups * (k - 1) * G == groups * k * G - groups * G;
  }
}
