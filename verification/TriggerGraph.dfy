/**
 A connection file is a list of flows.  A flow starts at a given time or when a trigger releases it, and it
 may activate a trigger when it completes.  This module gives such a list its meaning twice:
 as a state machine that completes one flow at a time (`Complete`), following the two trigger classes of the
 simulator, and as a timetable that says when each flow starts and is done (`Timetable`).
 */
module TriggerGraph {
  import opened Arith
  import opened Sets

  datatype Begin = At(ps: int) | OnTrigger(awaited: nat)

  datatype Ending = Quiet | SendDone(fired: nat) | RecvDone(fired: nat)

  datatype Flow = Flow(src: nat, dst: nat, id: nat, begin: Begin, size: int, ending: Ending)

  datatype Kind = OneShot | MultiShot

  datatype Plan = Plan(kind: Kind, flows: seq<Flow>)

  predicate Waits(f: Flow, t: nat) {
    f.begin == OnTrigger(t)
  }

  predicate Fires(f: Flow, t: nat) {
    !f.ending.Quiet? && f.ending.fired == t
  }

  /** Flow `i` waits on the trigger that flow `j` fires. */
  predicate WokenBy(flows: seq<Flow>, i: nat, j: nat)
    requires i < |flows| && j < |flows|
  {
    flows[i].begin.OnTrigger? && Fires(flows[j], flows[i].begin.awaited)
  }

  /** Positions of the flows that wait on `t`, in file order: the order in which they are added as targets. */
  function Targets(flows: seq<Flow>, t: nat): (r: seq<nat>)
    ensures forall i :: i in r <==> 0 <= i < |flows| && Waits(flows[i], t)
  {
    if flows == [] then []
    else
      var rest := Targets(flows[..|flows| - 1], t);
      if Waits(flows[|flows| - 1], t) then rest + [|flows| - 1] else rest
  }

  lemma {:induction false} TargetsAscend(flows: seq<Flow>, t: nat)
    ensures forall m, n :: 0 <= m < n < |Targets(flows, t)| ==> Targets(flows, t)[m] < Targets(flows, t)[n]
  {
    if flows != [] {
      TargetsAscend(flows[..|flows| - 1], t);
      var rest := Targets(flows[..|flows| - 1], t);
      assert forall m :: 0 <= m < |rest| ==> rest[m] in rest;
    }
  }

  lemma OnlyTarget(flows: seq<Flow>, t: nat, i: nat)
    requires i in Targets(flows, t) && forall i' :: i' in Targets(flows, t) ==> i' == i
    ensures Targets(flows, t) == [i]
  {
    TargetsAscend(flows, t);
    var r := Targets(flows, t);
    assert r[0] in r && r[|r| - 1] in r;
  }

  function Firers(flows: seq<Flow>, t: nat): set<nat> {
    set j | 0 <= j < |flows| && Fires(flows[j], t)
  }

  // ---------------------------------------------------------------- the state machine

  /** `shots[t]` is how many times trigger `t` has been activated to some effect. */
  datatype State = State(started: set<nat>, done: set<nat>, shots: map<nat, nat>, aborted: bool)

  function Shots(s: State, t: nat): nat {
    if t in s.shots then s.shots[t] else 0
  }

  function Initial(p: Plan): State {
    State(set i | 0 <= i < |p.flows| && p.flows[i].begin.At?, {}, map[], false)
  }

  /** A one-shot trigger starts all its targets and aborts on a second activation or without targets;
      a multi-shot trigger starts the next target and ignores activations once all have been started. */
  function Activate(p: Plan, s: State, t: nat): State {
    var targets := Targets(p.flows, t);
    match p.kind
    case OneShot =>
      if Shots(s, t) > 0 || targets == [] then s.(aborted := true)
      else s.(started := s.started + (set i | i in targets), shots := s.shots[t := 1])
    case MultiShot =>
      var next := Shots(s, t);
      if next >= |targets| then s
      else s.(started := s.started + {targets[next]}, shots := s.shots[t := next + 1])
  }

  function Complete(p: Plan, s: State, i: nat): State
    requires i < |p.flows|
  {
    var s' := s.(done := s.done + {i});
    if p.flows[i].ending.Quiet? then s' else Activate(p, s', p.flows[i].ending.fired)
  }

  predicate Enabled(p: Plan, s: State, i: nat) {
    i < |p.flows| && i in s.started && i !in s.done && !s.aborted
  }

  /** The state after the flows of `run` have completed in that order. */
  function After(p: Plan, run: seq<nat>): State {
    if run == [] then Initial(p)
    else
      var s := After(p, run[..|run| - 1]);
      if run[|run| - 1] < |p.flows| then Complete(p, s, run[|run| - 1]) else s
  }

  ghost predicate IsRun(p: Plan, run: seq<nat>) {
    forall n :: 0 <= n < |run| ==> Enabled(p, After(p, run[..n]), run[n])
  }

  lemma IsRunPrefix(p: Plan, run: seq<nat>, n: nat)
    requires IsRun(p, run) && n <= |run|
    ensures IsRun(p, run[..n])
  {
    forall m | 0 <= m < n ensures Enabled(p, After(p, run[..n][..m]), run[..n][m]) {
      assert run[..n][..m] == run[..m];
    }
  }

  /** Some flow of `run` fires `t`. */
  predicate FiredBy(p: Plan, run: seq<nat>, t: nat) {
    exists l :: 0 <= l < |run| && run[l] < |p.flows| && Fires(p.flows[run[l]], t)
  }

  /** A run of any plan ends in an abort exactly when its last flow fires a one-shot trigger that has no target or that
      an earlier flow of the run has fired; multi-shot triggers never abort. */
  lemma AbortsIff(p: Plan, run: seq<nat>, i: nat)
    requires IsRun(p, run) && Enabled(p, After(p, run), i)
    ensures After(p, run + [i]).aborted <==>
              && p.kind == OneShot && !p.flows[i].ending.Quiet?
              && var t := p.flows[i].ending.fired;
                 (forall j :: 0 <= j < |p.flows| ==> !Waits(p.flows[j], t)) || FiredBy(p, run, t)
  {
    assert (run + [i])[..|run|] == run;
    if p.kind == OneShot && !p.flows[i].ending.Quiet? {
      var targets := Targets(p.flows, p.flows[i].ending.fired);
      assert targets != [] ==> targets[0] in targets;
      ShotIff(p, run, p.flows[i].ending.fired);
    }
  }

  lemma {:induction false} ShotIff(p: Plan, run: seq<nat>, t: nat)
    requires p.kind == OneShot && IsRun(p, run) && !After(p, run).aborted
    ensures Shots(After(p, run), t) > 0 <==> FiredBy(p, run, t)
  {
    if run != [] {
      var n := |run| - 1;
      RunStep(p, run);
      IsRunPrefix(p, run, n);
      ShotIff(p, run[..n], t);
      FiredBySnoc(p, run, t);
    }
  }

  lemma FiredBySnoc(p: Plan, run: seq<nat>, t: nat)
    requires run != [] && run[|run| - 1] < |p.flows|
    ensures var n := |run| - 1; FiredBy(p, run, t) <==> FiredBy(p, run[..n], t) || Fires(p.flows[run[n]], t)
  {
    var n := |run| - 1;
    if FiredBy(p, run[..n], t) {
      var l :| 0 <= l < n && run[..n][l] < |p.flows| && Fires(p.flows[run[..n][l]], t);
      assert run[l] == run[..n][l];
    }
    if l :| 0 <= l < n && run[l] < |p.flows| && Fires(p.flows[run[l]], t) {
      assert run[..n][l] == run[l];
    }
  }

  /** A waiter comes after everything that fires its trigger. */
  ghost predicate FirersFirst(flows: seq<Flow>) {
    forall i, j :: 0 <= i < |flows| && 0 <= j < |flows| && WokenBy(flows, i, j) ==> j < i
  }

  /** A one-shot trigger somebody waits on is fired, by one flow only, and every fired one has a target. */
  ghost predicate PairedUp(flows: seq<Flow>) {
    && (forall i :: 0 <= i < |flows| && flows[i].begin.OnTrigger? ==> Firers(flows, flows[i].begin.awaited) != {})
    && (forall j :: 0 <= j < |flows| && !flows[j].ending.Quiet? ==>
          Firers(flows, flows[j].ending.fired) == {j} && Targets(flows, flows[j].ending.fired) != [])
  }

  /** A multi-shot trigger is activated at least as often as it has targets. */
  ghost predicate EnoughShots(flows: seq<Flow>) {
    forall i :: 0 <= i < |flows| && flows[i].begin.OnTrigger? ==>
      |Targets(flows, flows[i].begin.awaited)| <= |Firers(flows, flows[i].begin.awaited)|
  }

  /** What a generator must guarantee. */
  ghost predicate WellFormed(p: Plan) {
    FirersFirst(p.flows) && match p.kind case OneShot => PairedUp(p.flows) case MultiShot => EnoughShots(p.flows)
  }

  /** How many activations of `t` have had an effect. */
  ghost function Effective(p: Plan, done: set<nat>, t: nat): nat {
    var fired := |done * Firers(p.flows, t)|;
    match p.kind
    case OneShot => fired
    case MultiShot => Min(fired, |Targets(p.flows, t)|)
  }

  /** How many targets of `t` have been released once the flows in `done` are complete. */
  ghost function Released(p: Plan, done: set<nat>, t: nat): nat {
    match p.kind
    case OneShot => if Effective(p, done, t) > 0 then |Targets(p.flows, t)| else 0
    case MultiShot => Effective(p, done, t)
  }

  ghost predicate IsReleased(p: Plan, done: set<nat>, i: nat)
    requires i < |p.flows|
  {
    p.flows[i].begin.OnTrigger? ==>
      var t := p.flows[i].begin.awaited; i in Targets(p.flows, t)[..Released(p, done, t)]
  }

  ghost predicate Consistent(p: Plan, s: State) {
    && !s.aborted
    && s.done <= s.started
    && (forall i :: i in s.started ==> i < |p.flows|)
    && (forall i :: 0 <= i < |p.flows| ==> (i in s.started <==> IsReleased(p, s.done, i)))
    && (forall t: nat :: Shots(s, t) == Effective(p, s.done, t))
  }

  lemma FiredCount(flows: seq<Flow>, done: set<nat>, i: nat, t: nat)
    requires i < |flows| && i !in done
    ensures |(done + {i}) * Firers(flows, t)| == |done * Firers(flows, t)| + if Fires(flows[i], t) then 1 else 0
  {
    if Fires(flows[i], t) {
      assert (done + {i}) * Firers(flows, t) == done * Firers(flows, t) + {i};
    } else {
      assert (done + {i}) * Firers(flows, t) == done * Firers(flows, t);
    }
  }

  /** Activating `t` moves its released targets one step on, or all the way, and no other trigger's. */
  lemma FireReleases(p: Plan, s: State, t: nat, j: nat)
    requires CanFire(p, s, t) && j < |p.flows| && (j in s.started <==> IsReleased(p, s.done, j))
    ensures Waits(p.flows[j], t) ==>
              (j in Activate(p, s, t).started <==> j in Targets(p.flows, t)[..AfterFire(p, s.done, t)])
    ensures !Waits(p.flows[j], t) ==> (j in Activate(p, s, t).started <==> j in s.started)
  {
    var targets := Targets(p.flows, t);
    match p.kind
    case OneShot =>
      assert targets[..|targets|] == targets;
    case MultiShot =>
      var next := Shots(s, t);
      if next < |targets| {
        assert targets[next] in targets;
        assert targets[..next + 1] == targets[..next] + [targets[next]];
      }
  }

  /** How many targets of `t` are released after one more activation. */
  ghost function AfterFire(p: Plan, done: set<nat>, t: nat): (r: nat)
    ensures r <= |Targets(p.flows, t)|
  {
    match p.kind
    case OneShot => |Targets(p.flows, t)|
    case MultiShot => Min(Effective(p, done, t) + 1, |Targets(p.flows, t)|)
  }

  lemma ReleasedAfter(p: Plan, done: set<nat>, i: nat, t: nat)
    requires i < |p.flows| && i !in done
    ensures Released(p, done + {i}, t) == if Fires(p.flows[i], t) then AfterFire(p, done, t) else Released(p, done, t)
  {
    FiredCount(p.flows, done, i, t);
  }

  /** Completing flow `i` starts exactly the targets that become released. */
  lemma CompleteReleases(p: Plan, s: State, i: nat, j: nat)
    requires i < |p.flows| && i !in s.done && j < |p.flows|
    requires j in s.started <==> IsReleased(p, s.done, j)
    requires !p.flows[i].ending.Quiet? ==> CanFire(p, s, p.flows[i].ending.fired)
    ensures j in Complete(p, s, i).started <==> IsReleased(p, s.done + {i}, j)
  {
    if p.flows[j].begin.OnTrigger? {
      ReleasedAfter(p, s.done, i, p.flows[j].begin.awaited);
    }
    if !p.flows[i].ending.Quiet? {
      var t := p.flows[i].ending.fired;
      FireReleases(p, s, t, j);
      assert Complete(p, s, i).started == Activate(p, s, t).started;
    }
  }

  lemma CompleteStarts(p: Plan, s: State, i: nat, j: nat)
    requires i < |p.flows| && j in Complete(p, s, i).started
    ensures j in s.started || j < |p.flows|
  {
    if p.kind == MultiShot && !p.flows[i].ending.Quiet? {
      var targets := Targets(p.flows, p.flows[i].ending.fired);
      assert forall m :: 0 <= m < |targets| ==> targets[m] in targets;
    }
  }

  lemma CompleteDone(p: Plan, s: State, i: nat)
    requires i < |p.flows|
    ensures s.started <= Complete(p, s, i).started && Complete(p, s, i).done == s.done + {i}
  {
  }

  ghost predicate CanFire(p: Plan, s: State, t: nat) {
    && Shots(s, t) == Effective(p, s.done, t)
    && (p.kind == OneShot ==> Shots(s, t) == 0 && Targets(p.flows, t) != [])
  }

  lemma CompleteShots(p: Plan, s: State, i: nat, t: nat)
    requires i < |p.flows| && i !in s.done
    requires Shots(s, t) == Effective(p, s.done, t)
    requires !p.flows[i].ending.Quiet? ==> CanFire(p, s, p.flows[i].ending.fired)
    ensures Shots(Complete(p, s, i), t) == Effective(p, s.done + {i}, t)
    ensures !s.aborted ==> !Complete(p, s, i).aborted
  {
    FiredCount(p.flows, s.done, i, t);
  }

  lemma EnabledCanFire(p: Plan, s: State, i: nat)
    requires WellFormed(p) && Consistent(p, s) && Enabled(p, s, i) && !p.flows[i].ending.Quiet?
    ensures CanFire(p, s, p.flows[i].ending.fired)
  {
    if p.kind == OneShot {
      assert Firers(p.flows, p.flows[i].ending.fired) == {i};
      assert s.done * Firers(p.flows, p.flows[i].ending.fired) == {};
    }
  }

  /** Completing one flow never aborts a well-formed plan and keeps the released flows exactly the started ones. */
  lemma CompleteKeepsConsistent(p: Plan, s: State, i: nat)
    requires WellFormed(p) && Consistent(p, s) && Enabled(p, s, i)
    ensures Consistent(p, Complete(p, s, i))
  {
    var s' := Complete(p, s, i);
    CompleteDone(p, s, i);
    if !p.flows[i].ending.Quiet? {
      EnabledCanFire(p, s, i);
      CompleteShots(p, s, i, p.flows[i].ending.fired);
    }
    forall j | j in s'.started ensures j < |p.flows| {
      CompleteStarts(p, s, i, j);
    }
    forall j | 0 <= j < |p.flows| ensures j in s'.started <==> IsReleased(p, s'.done, j) {
      CompleteReleases(p, s, i, j);
    }
    forall t: nat ensures Shots(s', t) == Effective(p, s'.done, t) {
      CompleteShots(p, s, i, t);
    }
  }

  lemma RunStep(p: Plan, run: seq<nat>)
    requires run != [] && IsRun(p, run)
    ensures var n := |run| - 1;
            Enabled(p, After(p, run[..n]), run[n]) && After(p, run) == Complete(p, After(p, run[..n]), run[n])
  {
  }

  lemma SnocMembers(run: seq<nat>)
    requires run != []
    ensures forall i :: i in run <==> i in run[..|run| - 1] || i == run[|run| - 1]
  {
    assert run == run[..|run| - 1] + [run[|run| - 1]];
  }

  lemma {:induction false} RunConsistent(p: Plan, run: seq<nat>)
    requires WellFormed(p) && IsRun(p, run)
    ensures Consistent(p, After(p, run))
    ensures forall i :: i in After(p, run).done <==> i in run
    ensures |After(p, run).done| == |run|
  {
    if run == [] {
      InitialConsistent(p);
    } else {
      var n := |run| - 1;
      var s := After(p, run[..n]);
      IsRunPrefix(p, run, n);
      RunConsistent(p, run[..n]);
      RunStep(p, run);
      CompleteKeepsConsistent(p, s, run[n]);
      CompleteDone(p, s, run[n]);
      SnocMembers(run);
    }
  }

  lemma InitialConsistent(p: Plan)
    ensures Consistent(p, Initial(p))
  {
  }

  /** Every flow, in file order, ends up done when nothing that was started is still outstanding. */
  lemma {:induction false} StartedAllTheWay(p: Plan, s: State, i: nat)
    requires WellFormed(p) && Consistent(p, s) && s.started <= s.done
    requires i < |p.flows|
    ensures i in s.done
    decreases i
  {
    if p.flows[i].begin.OnTrigger? {
      var t := p.flows[i].begin.awaited;
      forall j | j in Firers(p.flows, t) ensures j in s.done {
        assert WokenBy(p.flows, i, j);
        StartedAllTheWay(p, s, j);
      }
      assert s.done * Firers(p.flows, t) == Firers(p.flows, t);
      assert Targets(p.flows, t)[..|Targets(p.flows, t)|] == Targets(p.flows, t);
    }
    assert IsReleased(p, s.done, i);
  }

  /** No deadlock: in every reachable state either all flows are done or some flow is still running. */
  lemma NeverStuck(p: Plan, run: seq<nat>)
    requires WellFormed(p) && IsRun(p, run)
    ensures !After(p, run).aborted
    ensures |run| <= |p.flows|
    ensures |run| < |p.flows| ==> exists i :: Enabled(p, After(p, run), i)
    ensures |run| == |p.flows| ==> forall i :: 0 <= i < |p.flows| ==> i in After(p, run).done
  {
    RunConsistent(p, run);
    var s := After(p, run);
    var all := Interval(0, |p.flows|);
    assert s.done <= all;
    SubsetCount(s.done, all);
    if !exists i :: Enabled(p, s, i) {
      forall i | i in all ensures i in s.done {
        assert s.started <= s.done by {
          forall j | j in s.started ensures j in s.done { assert Enabled(p, s, j) || j in s.done; }
        }
        StartedAllTheWay(p, s, i);
      }
      assert s.done == all;
    }
  }

  // ---------------------------------------------------------------- timetables and what nodes hold

  datatype Span = Span(start: nat, done: nat)

  /** Every flow takes some time and starts no earlier than its trigger has been fired. */
  ghost predicate Timetable(flows: seq<Flow>, at: seq<Span>) {
    && |at| == |flows|
    && (forall i :: 0 <= i < |at| ==> at[i].start < at[i].done)
    && (forall i, j :: 0 <= i < |at| && 0 <= j < |at| && WokenBy(flows, i, j) ==> at[j].done <= at[i].start)
  }

  /** As in the simulator, a flow starts the moment its trigger is fired, or at time 0. */
  ghost predicate Eager(flows: seq<Flow>, at: seq<Span>)
    requires |at| == |flows|
  {
    forall i :: 0 <= i < |at| ==>
      match flows[i].begin
      case At(_) => at[i].start == 0
      case OnTrigger(t) => exists j :: 0 <= j < |at| && Fires(flows[j], t) && at[j].done == at[i].start
  }

  /** `node` holds the contribution of `origin` at time `t`: it is its own, or a flow done by then brought it,
      carrying what its source held when the flow started. */
  ghost predicate Holds(flows: seq<Flow>, at: seq<Span>, node: nat, t: nat, origin: nat)
    decreases t
  {
    || origin == node
    || exists i :: 0 <= i < |flows| && i < |at| && Arrived(flows[i], at[i], node, t)
        && Holds(flows, at, flows[i].src, at[i].start, origin)
  }

  predicate Arrived(f: Flow, span: Span, node: nat, t: nat) {
    f.dst == node && span.start < span.done <= t
  }

  ghost function Position(run: seq<nat>, i: nat): (n: nat)
    ensures i in run ==> n < |run| && run[n] == i
  {
    if n: nat :| n < |run| && run[n] == i then n else 0
  }

  ghost function SpanOf(flows: seq<Flow>, run: seq<nat>, i: nat): Span
    requires i < |flows|
  {
    var done := Position(run, i) + 1;
    if exists j :: 0 <= j < |flows| && WokenBy(flows, i, j)
    then var j :| 0 <= j < |flows| && WokenBy(flows, i, j); Span(Position(run, j) + 1, done)
    else Span(0, done)
  }

  lemma OneWaker(p: Plan, i: nat, j: nat, j': nat)
    requires WellFormed(p) && p.kind == OneShot && i < |p.flows| && j < |p.flows| && j' < |p.flows|
    requires WokenBy(p.flows, i, j) && WokenBy(p.flows, i, j')
    ensures j == j'
  {
    assert j' in Firers(p.flows, p.flows[j].ending.fired);
  }

  /** A flow completes after the flow that woke it. */
  lemma WakerCompletesFirst(p: Plan, run: seq<nat>, i: nat, j: nat)
    requires WellFormed(p) && p.kind == OneShot && IsRun(p, run)
    requires i < |p.flows| && j < |p.flows| && WokenBy(p.flows, i, j) && i in run
    ensures j in run && Position(run, j) < Position(run, i)
  {
    var n := Position(run, i);
    IsRunPrefix(p, run, n);
    RunConsistent(p, run[..n]);
    var s := After(p, run[..n]);
    assert Enabled(p, s, run[n]);
    assert IsReleased(p, s.done, i);
    var t := p.flows[i].begin.awaited;
    assert s.done * Firers(p.flows, t) != {};
    var j' :| j' in s.done * Firers(p.flows, t);
    OneWaker(p, i, j, j');
    var m :| 0 <= m < n && run[..n][m] == j;
    CompletesOnce(p, run, m, Position(run, j));
  }

  lemma CompletesOnce(p: Plan, run: seq<nat>, m: nat, n: nat)
    requires WellFormed(p) && IsRun(p, run) && m < |run| && n < |run| && run[m] == run[n]
    ensures m == n
  {
    var hi := Max(m, n);
    IsRunPrefix(p, run, hi);
    RunConsistent(p, run[..hi]);
    assert Enabled(p, After(p, run[..hi]), run[hi]);
    assert run[hi] !in run[..hi];
  }

  ghost function TimetableOf(flows: seq<Flow>, run: seq<nat>): seq<Span> {
    seq(|flows|, i requires 0 <= i < |flows| => SpanOf(flows, run, i))
  }

  lemma StartsWhenWoken(p: Plan, run: seq<nat>, i: nat, j: nat)
    requires WellFormed(p) && p.kind == OneShot && IsRun(p, run)
    requires i < |p.flows| && j < |p.flows| && WokenBy(p.flows, i, j) && i in run
    ensures SpanOf(p.flows, run, j).done == SpanOf(p.flows, run, i).start < SpanOf(p.flows, run, i).done
  {
    WakerCompletesFirst(p, run, i, j);
    forall j' | 0 <= j' < |p.flows| && WokenBy(p.flows, i, j') ensures j' == j { OneWaker(p, i, j, j'); }
  }

  lemma TakesTime(p: Plan, run: seq<nat>, i: nat)
    requires WellFormed(p) && p.kind == OneShot && IsRun(p, run) && i < |p.flows| && i in run
    ensures SpanOf(p.flows, run, i).start < SpanOf(p.flows, run, i).done
  {
    if j: nat :| j < |p.flows| && WokenBy(p.flows, i, j) {
      StartsWhenWoken(p, run, i, j);
    }
  }

  lemma HasWaker(p: Plan, i: nat) returns (j: nat)
    requires WellFormed(p) && p.kind == OneShot && i < |p.flows| && p.flows[i].begin.OnTrigger?
    ensures j < |p.flows| && WokenBy(p.flows, i, j)
  {
    j :| j in Firers(p.flows, p.flows[i].begin.awaited);
  }

  /** A complete run of a one-shot plan, read as a timetable, is eager and lawful: whatever holds in every
      timetable holds in every run of the state machine. */
  lemma RunIsTimetable(p: Plan, run: seq<nat>)
    requires WellFormed(p) && p.kind == OneShot && IsRun(p, run) && |run| == |p.flows|
    ensures Timetable(p.flows, TimetableOf(p.flows, run)) && Eager(p.flows, TimetableOf(p.flows, run))
  {
    var flows, at := p.flows, TimetableOf(p.flows, run);
    forall i: nat | i < |flows| ensures i in run && at[i] == SpanOf(flows, run, i) {
      EveryoneRuns(p, run, i);
    }
    forall i: nat | i < |flows| ensures at[i].start < at[i].done {
      TakesTime(p, run, i);
    }
    forall i: nat, j: nat | i < |flows| && j < |flows| && WokenBy(flows, i, j) ensures at[j].done == at[i].start {
      StartsWhenWoken(p, run, i, j);
    }
    forall i: nat | i < |flows| && flows[i].begin.OnTrigger?
      ensures exists j :: 0 <= j < |flows| && Fires(flows[j], flows[i].begin.awaited) && at[j].done == at[i].start
    {
      var j := HasWaker(p, i);
      assert at[j].done == at[i].start;
    }
    forall i: nat | i < |flows| && flows[i].begin.At? ensures at[i].start == 0 {
      assert !exists j :: 0 <= j < |flows| && WokenBy(flows, i, j);
    }
  }

  /** A flow is done by time `t` in the timetable of a complete run when it is among the first `t` completions. */
  lemma DoneWithin(p: Plan, run: seq<nat>, i: nat, t: nat)
    requires WellFormed(p) && IsRun(p, run) && |run| == |p.flows| && i < |p.flows| && t <= |run|
    ensures TimetableOf(p.flows, run)[i].done <= t <==> i in run[..t]
  {
    EveryoneRuns(p, run, i);
    DoneWhen(p, run, i);
    if Position(run, i) < t {
      assert run[..t][Position(run, i)] == i;
    }
    if i in run[..t] {
      var m: nat :| m < t && run[..t][m] == i;
      CompletesOnce(p, run, m, Position(run, i));
    }
  }

  // ---------------------------------------------------------------- from timetables back to runs

  /** `run` completes flows by order of their times, none of the others being done earlier. */
  ghost predicate InOrderOf(at: seq<Span>, run: seq<nat>) {
    && (forall m :: 0 <= m < |run| ==> run[m] < |at|)
    && (forall m, n :: 0 <= m < n < |run| ==> at[run[m]].done <= at[run[n]].done)
    && (forall m, j :: 0 <= m < |run| && 0 <= j < |at| && j !in run ==> at[run[m]].done <= at[j].done)
  }

  /** Among the flows from `n` on that are not in the run, one is done first. */
  lemma {:induction false} FirstOutside(at: seq<Span>, run: seq<nat>, n: nat) returns (i: nat)
    requires n <= |at| && exists j :: n <= j < |at| && j !in run
    ensures n <= i < |at| && i !in run && forall j :: n <= j < |at| && j !in run ==> at[i].done <= at[j].done
    decreases |at| - n
  {
    i := n;
    if exists j :: n + 1 <= j < |at| && j !in run {
      var later := FirstOutside(at, run, n + 1);
      if n in run || at[later].done < at[n].done {
        i := later;
      }
    }
    forall j | n <= j < |at| && j !in run ensures at[i].done <= at[j].done {
      assert j == n || n + 1 <= j;
    }
  }

  function MembersOf(run: seq<nat>): (r: set<nat>)
    ensures |r| <= |run| && forall i :: i in r <==> i in run
  {
    if run == [] then {}
    else
      SnocMembers(run);
      MembersOf(run[..|run| - 1]) + {run[|run| - 1]}
  }

  lemma OneIsOutside(run: seq<nat>, all: set<nat>)
    requires |run| < |all|
    ensures exists j :: j in all && j !in run
  {
    if forall j :: j in all ==> j in run {
      SubsetCount(all, MembersOf(run));
    }
  }

  /** The flow that is done first among the rest can complete next. */
  lemma FirstIsEnabled(p: Plan, at: seq<Span>, run: seq<nat>, i: nat)
    requires WellFormed(p) && p.kind == OneShot && IsRun(p, run) && Timetable(p.flows, at)
    requires i < |at| && i !in run && forall j :: 0 <= j < |at| && j !in run ==> at[i].done <= at[j].done
    ensures Enabled(p, After(p, run), i)
  {
    RunConsistent(p, run);
    if p.flows[i].begin.OnTrigger? {
      var j := HasWaker(p, i);
      assert j in After(p, run).done * Firers(p.flows, p.flows[i].begin.awaited);
      var targets := Targets(p.flows, p.flows[i].begin.awaited);
      assert targets[..|targets|] == targets;
    }
    assert IsReleased(p, After(p, run).done, i);
  }

  lemma RunSnoc(p: Plan, run: seq<nat>, i: nat)
    requires IsRun(p, run) && Enabled(p, After(p, run), i)
    ensures IsRun(p, run + [i])
  {
    var r := run + [i];
    forall n | 0 <= n < |r| ensures Enabled(p, After(p, r[..n]), r[n]) {
      assert r[..n] == if n < |run| then run[..n] else run;
    }
  }

  lemma OrderSnoc(at: seq<Span>, run: seq<nat>, i: nat)
    requires InOrderOf(at, run) && i < |at| && i !in run
    requires forall j :: 0 <= j < |at| && j !in run ==> at[i].done <= at[j].done
    ensures InOrderOf(at, run + [i])
  {
    var r := run + [i];
    forall j | 0 <= j < |at| && j !in r ensures j !in run && at[i].done <= at[j].done {
      assert r[|run|] == i;
      assert j in run ==> j in r;
    }
  }

  /** Every timetable of a one-shot plan is the order of a complete run. */
  lemma {:induction false} RunInOrder(p: Plan, at: seq<Span>, n: nat) returns (run: seq<nat>)
    requires WellFormed(p) && p.kind == OneShot && Timetable(p.flows, at) && n <= |p.flows|
    ensures IsRun(p, run) && |run| == n && InOrderOf(at, run)
  {
    if n == 0 {
      run := [];
    } else {
      run := RunInOrder(p, at, n - 1);
      OneIsOutside(run, Interval(0, |at|));
      var i := FirstOutside(at, run, 0);
      FirstIsEnabled(p, at, run, i);
      RunSnoc(p, run, i);
      OrderSnoc(at, run, i);
      run := run + [i];
    }
  }

  lemma SoonerIsSooner(at: seq<Span>, run: seq<nat>, j: nat, w: nat)
    requires InOrderOf(at, run) && j in run && w in run && Position(run, j) <= Position(run, w)
    ensures j < |at| && w < |at| && at[j].done <= at[w].done
  {
    var m, n := Position(run, j), Position(run, w);
    assert run[m] == j && run[n] == w;
  }

  /** What has arrived before a flow starts in the run has arrived before it starts in the timetable. */
  lemma ArrivedBefore(p: Plan, at: seq<Span>, run: seq<nat>, i: nat, j: nat)
    requires WellFormed(p) && p.kind == OneShot && Timetable(p.flows, at)
    requires IsRun(p, run) && |run| == |p.flows| && InOrderOf(at, run) && i < |at| && j < |at|
    requires SpanOf(p.flows, run, j).done <= SpanOf(p.flows, run, i).start
    ensures at[j].done <= at[i].start
  {
    EveryoneRuns(p, run, i);
    EveryoneRuns(p, run, j);
    if w: nat :| w < |p.flows| && WokenBy(p.flows, i, w) {
      EveryoneRuns(p, run, w);
      StartsWhenWoken(p, run, i, w);
      DoneWhen(p, run, j);
      DoneWhen(p, run, w);
      SoonerIsSooner(at, run, j, w);
    } else {
      DoneWhen(p, run, j);
    }
  }

  lemma EveryoneRuns(p: Plan, run: seq<nat>, i: nat)
    requires WellFormed(p) && IsRun(p, run) && |run| == |p.flows| && i < |p.flows|
    ensures i in run
  {
    NeverStuck(p, run);
    RunConsistent(p, run);
  }

  lemma DoneWhen(p: Plan, run: seq<nat>, i: nat)
    requires i < |p.flows|
    ensures SpanOf(p.flows, run, i).done == Position(run, i) + 1
  {
  }

  /** A node never holds more in the run than in the timetable it follows: a contribution that the timetable loses is
      lost by the run. */
  lemma {:induction false} RunHoldsNoMore(p: Plan, at: seq<Span>, run: seq<nat>, node: nat, t': nat, t: nat,
                                          origin: nat)
    requires WellFormed(p) && p.kind == OneShot && Timetable(p.flows, at)
    requires IsRun(p, run) && |run| == |p.flows| && InOrderOf(at, run)
    requires var at' := TimetableOf(p.flows, run); forall j :: 0 <= j < |at'| && at'[j].done <= t' ==> at[j].done <= t
    requires Holds(p.flows, TimetableOf(p.flows, run), node, t', origin)
    ensures Holds(p.flows, at, node, t, origin)
    decreases t'
  {
    var flows, at' := p.flows, TimetableOf(p.flows, run);
    if origin != node {
      var i :| 0 <= i < |flows| && i < |at'| && Arrived(flows[i], at'[i], node, t')
          && Holds(flows, at', flows[i].src, at'[i].start, origin);
      DoneBefore(p, at, run, i);
      RunHoldsNoMore(p, at, run, flows[i].src, at'[i].start, at[i].start, origin);
      assert Arrived(flows[i], at[i], node, t);
    }
  }

  /** What is done in the run when a flow starts is done in the timetable when it starts. */
  lemma DoneBefore(p: Plan, at: seq<Span>, run: seq<nat>, i: nat)
    requires WellFormed(p) && p.kind == OneShot && Timetable(p.flows, at) && i < |p.flows|
    requires IsRun(p, run) && |run| == |p.flows| && InOrderOf(at, run)
    ensures var at' := TimetableOf(p.flows, run);
            forall j :: 0 <= j < |at'| && at'[j].done <= at'[i].start ==> at[j].done <= at[i].start
  {
    var flows, at' := p.flows, TimetableOf(p.flows, run);
    forall j | 0 <= j < |at'| && at'[j].done <= at'[i].start ensures at[j].done <= at[i].start {
      assert at'[j] == SpanOf(flows, run, j) && at'[i] == SpanOf(flows, run, i);
      ArrivedBefore(p, at, run, i, j);
    }
  }

  // ---------------------------------------------------------------- bounded concurrency

  /** Flows of `node` that have started and are not done. */
  ghost function Outstanding(p: Plan, s: State, node: nat): set<nat> {
    set i | i in s.started && i !in s.done && i < |p.flows| && p.flows[i].src == node
  }

  /** A trigger fired by a flow of some source only releases flows of that source. */
  ghost predicate StaysAtSource(flows: seq<Flow>) {
    forall i, j :: 0 <= i < |flows| && 0 <= j < |flows| && WokenBy(flows, i, j) ==> flows[i].src == flows[j].src
  }

  /** With multi-shot triggers a completion frees one slot at its source and fills at most that one. */
  lemma CompleteKeepsOutstanding(p: Plan, s: State, i: nat, node: nat)
    requires p.kind == MultiShot && StaysAtSource(p.flows) && Enabled(p, s, i)
    ensures |Outstanding(p, Complete(p, s, i), node)| <= |Outstanding(p, s, node)|
  {
    var before, after := Outstanding(p, s, node), Outstanding(p, Complete(p, s, i), node);
    CompleteDone(p, s, i);
    var started := Complete(p, s, i).started - s.started;
    if started == {} || p.flows[i].src != node {
      assert after <= before by {
        forall x | x in after ensures x in before {
          if x !in s.started { NewlyStarted(p, s, i, x); }
        }
      }
      SubsetCount(after, before);
    } else {
      var x :| x in started;
      forall y | y in started ensures y == x { NewlyStarted(p, s, i, y); NewlyStarted(p, s, i, x); }
      assert after <= (before - {i}) + {x};
      SubsetCount(after, (before - {i}) + {x});
    }
  }

  lemma NewlyStarted(p: Plan, s: State, i: nat, x: nat)
    requires p.kind == MultiShot && StaysAtSource(p.flows) && Enabled(p, s, i)
    requires x in Complete(p, s, i).started && x !in s.started
    ensures x < |p.flows| && p.flows[x].src == p.flows[i].src
    ensures var targets := Targets(p.flows, p.flows[i].ending.fired);
            && !p.flows[i].ending.Quiet? && Shots(s, p.flows[i].ending.fired) < |targets|
            && x == targets[Shots(s, p.flows[i].ending.fired)]
  {
    var targets := Targets(p.flows, p.flows[i].ending.fired);
    assert x in targets;
    assert WokenBy(p.flows, x, i);
  }

  lemma {:induction false} RunKeepsOutstanding(p: Plan, run: seq<nat>, node: nat)
    requires p.kind == MultiShot && StaysAtSource(p.flows) && IsRun(p, run)
    ensures |Outstanding(p, After(p, run), node)| <= |Outstanding(p, Initial(p), node)|
  {
    if run == [] {
    } else {
      var n := |run| - 1;
      IsRunPrefix(p, run, n);
      RunKeepsOutstanding(p, run[..n], node);
      RunStep(p, run);
      CompleteKeepsOutstanding(p, After(p, run[..n]), run[n], node);
    }
  }
}
