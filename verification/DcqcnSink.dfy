/**
 The receiving end of DCQCN (dcqcn.cpp): a congestion notification (CNP) answers a marked packet at once when the last
 one is old enough, and otherwise from a timer set when the last one was sent.
 */
module DcqcnSink {

  const INTERVAL: nat := 50_000_000        // _cnp_interval: 50 us in ps
  const UINT32: nat := 0x1_0000_0000
  const UINT64: nat := 0x1_0000_0000_0000_0000
  const NEVER: nat := UINT64 - 1

  datatype Input =
    | Arrival(time: nat, marked: bool)
    | Timer(time: nat)

  /** What matters of a sink: the CNPs it sent, the marked packets since the last of them, its pending timers. */
  datatype State = State(now: nat, cnps: seq<nat>, unanswered: seq<nat>, timers: multiset<nat>, end: nat)

  function Initial(end: nat): State {
    State(0, [], [], multiset{}, end)
  }

  /** The event list refuses timers at or after the end of the simulation; 0 stands for no end. */
  predicate Before(time: nat, end: nat) {
    end == 0 || time < end
  }

  predicate Due(s: State, time: nat) {
    s.cnps == [] || time >= s.cnps[|s.cnps| - 1] + INTERVAL
  }

  function Send(s: State): State {
    Arm(s.(cnps := s.cnps + [s.now], unanswered := []))
  }

  function Arm(s: State): State {
    if Before(s.now + INTERVAL, s.end) then s.(timers := s.timers + multiset{s.now + INTERVAL}) else s
  }

  function Wait(s: State): State {
    s.(unanswered := s.unanswered + [s.now])
  }

  function Arrive(s: State, marked: bool): State {
    if !marked then s else if Due(s, s.now) then Send(s) else Wait(s)
  }

  function Wrap(n: nat): (r: nat)
    ensures r < UINT32 && (n < UINT32 ==> r == n)
  {
    n % UINT32
  }

  lemma WrapNext(n: nat)
    ensures Wrap(Wrap(n) + 1) == Wrap(n + 1)
  {
  }

  /** The count of marked packets is 32 bits wide: the timer sees none of them when there are exactly 2^32. */
  function Fire(s: State): State {
    if s.cnps != [] && Due(s, s.now) && Wrap(|s.unanswered|) > 0 then Send(s) else s
  }

  function Step(s: State, e: Input): State {
    match e
    case Arrival(time, marked) => Arrive(s.(now := time), marked)
    case Timer(time) => Fire(s.(now := time, timers := s.timers - multiset{time}))
  }

  /** Time never runs backwards, and the event list fires every timer at the time it was set for. */
  predicate Enabled(s: State, e: Input) {
    && s.now <= e.time
    && (forall t :: t in s.timers ==> e.time <= t)
    && (e.Timer? ==> e.time in s.timers)
    && Before(e.time, s.end) && e.time + INTERVAL < NEVER
  }

  function Init(trace: seq<Input>): (r: seq<Input>)
    requires trace != []
    ensures |r| == |trace| - 1
  {
    trace[..|trace| - 1]
  }

  function Last(trace: seq<Input>): Input
    requires trace != []
  {
    trace[|trace| - 1]
  }

  function After(trace: seq<Input>, end: nat): State {
    if trace == [] then Initial(end) else Step(After(Init(trace), end), Last(trace))
  }

  predicate IsRun(trace: seq<Input>, end: nat) {
    trace == [] || (IsRun(Init(trace), end) && Enabled(After(Init(trace), end), Last(trace)))
  }

  // ---------------------------------------------------------------- the class

  /** `a - b` in 64 unsigned bits. */
  function Sub64(a: nat, b: nat): (r: nat)
    requires a < UINT64 && b < UINT64
    ensures r < UINT64 && (r == a - b || r == a - b + UINT64)
  {
    if a >= b then a - b else a + UINT64 - b
  }

  class Sink {
    var lastCnpSentTime: nat
    var markedPacketsSinceLastCnp: nat
    var timers: multiset<nat>              // entries of this sink in the event list
    var sent: seq<nat>                     // times at which CNPs left
    const endTime: nat
    ghost var state: State

    ghost predicate Valid()
      reads this
    {
      && lastCnpSentTime == (if sent == [] then NEVER else sent[|sent| - 1])
      && (forall i :: 0 <= i < |sent| ==> sent[i] < NEVER && sent[i] <= state.now)
      && markedPacketsSinceLastCnp == Wrap(|state.unanswered|)
      && timers == state.timers && sent == state.cnps && endTime == state.end
      && (sent == [] ==> state.unanswered == [])
    }

    constructor (end: nat)
      ensures Valid() && state == Initial(end)
    {
      lastCnpSentTime, markedPacketsSinceLastCnp := NEVER, 0;
      timers, sent, endTime, state := multiset{}, [], end, Initial(end);
    }

    method SendCnp(now: nat)
      requires Valid() && now == state.now < NEVER
      modifies this`sent, this`lastCnpSentTime, this`markedPacketsSinceLastCnp, this`state
      ensures Valid() && state == old(state).(cnps := old(state.cnps) + [now], unanswered := [])
    {
      sent := sent + [now];
      lastCnpSentTime := now;
      markedPacketsSinceLastCnp := 0;
      state := state.(cnps := sent, unanswered := []);
    }

    method SourceIsPendingRel(now: nat)
      requires Valid() && now == state.now
      modifies this`timers, this`state
      ensures Valid() && state == Arm(old(state))
    {
      if endTime == 0 || now + INTERVAL < endTime {
        timers := timers + multiset{now + INTERVAL};
      }
      state := Arm(state);
    }

    method ReceivePacket(now: nat, ecnMarked: bool)
      requires Valid() && Enabled(state, Arrival(now, ecnMarked))
      modifies this
      ensures Valid() && state == Step(old(state), Arrival(now, ecnMarked))
    {
      state := state.(now := now);
      ArrivalTest(state, lastCnpSentTime);
      if ecnMarked {
        if lastCnpSentTime == NEVER || Sub64(now, lastCnpSentTime) >= INTERVAL {
          SendCnp(now);
          SourceIsPendingRel(now);
        } else {
          WrapNext(|state.unanswered|);
          markedPacketsSinceLastCnp := Wrap(markedPacketsSinceLastCnp + 1);
          state := Wait(state);
        }
      }
    }

    /** Runs once the event list has taken the timer out. */
    method DoNextEvent(now: nat)
      requires Valid() && Enabled(state, Timer(now))
      modifies this
      ensures Valid() && state == Step(old(state), Timer(now))
    {
      timers := timers - multiset{now};
      state := state.(now := now, timers := timers);
      assert Step(old(state), Timer(now)) == Fire(state);
      TimerTest(state, lastCnpSentTime, markedPacketsSinceLastCnp);
      if Sub64(now, lastCnpSentTime) >= INTERVAL && markedPacketsSinceLastCnp > 0 {
        SendCnp(now);
        SourceIsPendingRel(now);
      }
    }
  }

  /** The test for an arrival, in the unsigned arithmetic of the fields. */
  lemma ArrivalTest(s: State, last: nat)
    requires s.now < NEVER && (s.cnps == [] ==> last == NEVER)
    requires s.cnps != [] ==> last == s.cnps[|s.cnps| - 1] <= s.now
    ensures last < UINT64 && (last == NEVER || Sub64(s.now, last) >= INTERVAL <==> Due(s, s.now))
  {
  }

  /** The test of the timer, in the unsigned arithmetic of the fields. */
  lemma TimerTest(s: State, last: nat, count: nat)
    requires s.now < NEVER && last < UINT64 && count == Wrap(|s.unanswered|) && (s.cnps == [] ==> s.unanswered == [])
    requires s.cnps != [] ==> last == s.cnps[|s.cnps| - 1] <= s.now
    ensures Sub64(s.now, last) >= INTERVAL && count > 0 <==> s.cnps != [] && Due(s, s.now) && count > 0
  {
  }

  // ---------------------------------------------------------------- what a step keeps

  /** When the last CNP is old enough for the next one. */
  function Deadline(s: State): nat
    requires s.cnps != []
  {
    s.cnps[|s.cnps| - 1] + INTERVAL
  }

  ghost predicate Spaced(s: State) {
    && (forall i :: 0 <= i < |s.cnps| - 1 ==> s.cnps[i] + INTERVAL <= s.cnps[i + 1])
    && (s.cnps == [] ==> s.unanswered == [] && |s.timers| == 0)
  }

  /** No timer is overdue or set beyond the deadline, and the timer for the deadline is set once, until it fires. */
  ghost predicate Armed(s: State)
    requires s.cnps != []
  {
    && s.now + INTERVAL >= Deadline(s)
    && (forall t :: t in s.timers ==> s.now <= t <= Deadline(s))
    && s.timers[Deadline(s)] <= 1
    && (s.now < Deadline(s) ==> Expected(s))
    && (forall i :: 0 <= i < |s.unanswered| ==> s.unanswered[i] < Deadline(s) <= s.unanswered[i] + INTERVAL)
  }

  /** The timer for the deadline is pending, unless the simulation ends before. */
  ghost predicate Expected(s: State)
    requires s.cnps != []
  {
    Deadline(s) in s.timers || !Before(Deadline(s), s.end)
  }

  /** Marked packets wait in the order they came. */
  ghost predicate Queued(s: State) {
    && (forall i, j :: 0 <= i < j < |s.unanswered| ==> s.unanswered[i] <= s.unanswered[j])
    && (forall i :: 0 <= i < |s.unanswered| ==> s.unanswered[i] <= s.now)
  }

  ghost predicate Regular(s: State) {
    Spaced(s) && (s.cnps != [] ==> Armed(s)) && Queued(s) && Before(s.now, s.end)
  }

  /** While marked packets wait, a timer for the deadline is pending. */
  ghost predicate Guarded(s: State) {
    s.unanswered != [] ==> s.cnps != [] && Expected(s)
  }

  /** A timer that finds packets waiting whose count has wrapped round to 0. */
  predicate Overlooks(s: State, e: Input) {
    e.Timer? && s.cnps != [] && e.time >= Deadline(s) && s.unanswered != [] && |s.unanswered| % UINT32 == 0
  }

  lemma SendKeepsRegular(s: State)
    requires Spaced(s) && Due(s, s.now) && Before(s.now, s.end) && forall t :: t in s.timers ==> s.now <= t <= s.now
    ensures Regular(Send(s)) && Send(s).unanswered == []
  {
  }

  lemma ArriveKeepsRegular(s: State, time: nat, marked: bool)
    requires Enabled(s, Arrival(time, marked)) && Regular(s)
    ensures Regular(Step(s, Arrival(time, marked)))
    ensures Guarded(Step(s, Arrival(time, marked))) <==> Guarded(s) || marked
  {
    var s1 := s.(now := time);
    if marked && Due(s, time) {
      SendKeepsRegular(s1);
    } else if s.cnps != [] {
      assert Deadline(Arrive(s1, marked)) == Deadline(s);
      assert Armed(s1);
    }
  }

  lemma PendingTimerGuards(s: State)
    requires Regular(s) && |s.timers| > 0
    ensures s.cnps != [] && Expected(s)
  {
    var t :| t in s.timers;
  }

  lemma FireKeepsRegular(s: State, time: nat)
    requires Enabled(s, Timer(time)) && Regular(s)
    ensures Regular(Step(s, Timer(time))) && Guarded(s)
    ensures Guarded(Step(s, Timer(time))) <==> !Overlooks(s, Timer(time))
  {
    assert time in s.timers;
    PendingTimerGuards(s);
    var s1 := s.(now := time, timers := s.timers - multiset{time});
    assert forall t :: t in s1.timers ==> t in s.timers;
    if Due(s1, time) && Wrap(|s.unanswered|) > 0 {
      SendKeepsRegular(s1);
    } else {
      assert Fire(s1) == s1;
      assert Deadline(s1) == Deadline(s);
      assert s1.timers[Deadline(s)] == s.timers[Deadline(s)] - if time == Deadline(s) then 1 else 0;
      assert Armed(s1);
    }
  }

  lemma StepKeepsRegular(s: State, e: Input)
    requires Enabled(s, e) && Regular(s)
    ensures Regular(Step(s, e))
    ensures Guarded(Step(s, e)) <==> if e.Arrival? then Guarded(s) || e.marked else !Overlooks(s, e)
    ensures e.Timer? ==> Guarded(s)
  {
    match e {
      case Arrival(time, marked) => ArriveKeepsRegular(s, time, marked);
      case Timer(time) => FireKeepsRegular(s, time);
    }
  }

  /** A CNP sent while the timer is pending is in time for everyone who waits; one sent later takes a marked packet. */
  lemma StepSends(s: State, e: Input)
    requires Enabled(s, e) && Regular(s) && s.unanswered != [] && |Step(s, e).cnps| != |s.cnps|
    ensures Step(s, e).cnps == s.cnps + [e.time] && !Overlooks(s, e)
    ensures Guarded(s) ==> forall u :: u in s.unanswered ==> e.time <= u + INTERVAL
    ensures !Guarded(s) ==> IsMarked(e)
  {
    StepKeepsRegular(s, e);
  }

  lemma StepSilent(s: State, e: Input)
    requires Enabled(s, e) && Regular(s) && s.unanswered != [] && |Step(s, e).cnps| == |s.cnps|
    ensures Step(s, e).cnps == s.cnps && s.unanswered <= Step(s, e).unanswered
    ensures !Guarded(s) ==> !IsMarked(e)
  {
    StepKeepsRegular(s, e);
  }

  predicate IsMarked(e: Input) {
    e.Arrival? && e.marked
  }

  // ---------------------------------------------------------------- every run

  /** No timer of the run overlooks waiting packets. */
  predicate Faithful(trace: seq<Input>, end: nat) {
    trace == [] || (Faithful(Init(trace), end) && !Overlooks(After(Init(trace), end), Last(trace)))
  }

  /** After every prefix of the run, waiting packets are guarded by a pending timer. */
  ghost predicate AlwaysGuarded(trace: seq<Input>, end: nat) {
    var s := After(trace, end);
    Spaced(s) && Guarded(s) && (trace == [] || AlwaysGuarded(Init(trace), end))
  }

  lemma {:induction false} RunRegular(trace: seq<Input>, end: nat)
    requires IsRun(trace, end)
    ensures Regular(After(trace, end)) && After(trace, end).end == end
    ensures Faithful(trace, end) ==> Guarded(After(trace, end))
  {
    if trace != [] {
      RunRegular(Init(trace), end);
      StepKeepsRegular(After(Init(trace), end), Last(trace));
    }
  }

  /** Until a CNP is an interval old, its timer is pending if and only if it fires before the simulation ends; no
      timer is pending for the end or later. */
  lemma PendingIff(trace: seq<Input>, end: nat)
    requires IsRun(trace, end) && After(trace, end).cnps != [] && After(trace, end).now < Deadline(After(trace, end))
    ensures var s := After(trace, end); Deadline(s) in s.timers <==> end == 0 || Deadline(s) < end
    ensures forall t :: t in After(trace, end).timers ==> end == 0 || t < end
  {
    RunRegular(trace, end);
    TimersEnd(trace, end);
  }

  lemma {:induction false} TimersEnd(trace: seq<Input>, end: nat)
    ensures After(trace, end).end == end
    ensures forall t :: t in After(trace, end).timers ==> end == 0 || t < end
  {
    if trace != [] {
      TimersEnd(Init(trace), end);
      var s, e := After(Init(trace), end), Last(trace);
      assert forall t :: t in Step(s, e).timers ==> t in s.timers || (t == e.time + INTERVAL && Before(t, end));
    }
  }

  /** The guard holds throughout a run if and only if no timer of the run overlooks a count that has wrapped to 0. */
  lemma {:induction false} GuardedIff(trace: seq<Input>, end: nat)
    requires IsRun(trace, end)
    ensures AlwaysGuarded(trace, end) <==> Faithful(trace, end)
  {
    if trace != [] {
      GuardedIff(Init(trace), end);
      if Faithful(Init(trace), end) {
        RunRegular(Init(trace), end);
        StepKeepsRegular(After(Init(trace), end), Last(trace));
      }
    }
  }

  lemma {:induction false} RunSpaced(trace: seq<Input>, end: nat)
    requires IsRun(trace, end)
    ensures var s := After(trace, end); Spaced(s) && (s.cnps != [] ==> Deadline(s) <= s.now + INTERVAL)
  {
    if trace != [] {
      RunSpaced(Init(trace), end);
      StepKeepsSpaced(After(Init(trace), end), Last(trace));
    }
  }

  lemma StepKeepsSpaced(s: State, e: Input)
    requires Enabled(s, e) && Spaced(s) && (s.cnps != [] ==> Deadline(s) <= s.now + INTERVAL)
    ensures var s' := Step(s, e); Spaced(s') && (s'.cnps != [] ==> Deadline(s') <= s'.now + INTERVAL)
  {
    var s1, s' := s.(now := e.time), Step(s, e);
    if |s'.cnps| > |s.cnps| {
      SendKeepsSpaced(s1);
    } else {
      assert s'.cnps == s.cnps;
    }
  }

  lemma SendKeepsSpaced(s: State)
    requires Spaced(s) && Due(s, s.now)
    ensures var cnps := s.cnps + [s.now]; forall i :: 0 <= i < |cnps| - 1 ==> cnps[i] + INTERVAL <= cnps[i + 1]
  {
  }

  /** CNPs are at least one interval apart in every run: `m` of them after one take at least `m` intervals. */
  lemma {:induction false} Pacing(trace: seq<Input>, end: nat, i: nat, j: nat)
    requires IsRun(trace, end) && i <= j < |After(trace, end).cnps|
    ensures var cnps := After(trace, end).cnps; cnps[i] + (j - i) * INTERVAL <= cnps[j]
    decreases j
  {
    if i < j {
      Pacing(trace, end, i, j - 1);
      RunSpaced(trace, end);
      var k := j - 1;
      assert After(trace, end).cnps[k] + INTERVAL <= After(trace, end).cnps[k + 1];
    }
  }

  // ---------------------------------------------------------------- bounded response

  /** The states a run goes through: `h[m]` is the one before input `m`. */
  function States(trace: seq<Input>, end: nat): (h: seq<State>)
    ensures |h| == |trace| + 1 && h[|trace|] == After(trace, end)
  {
    if trace == [] then [Initial(end)] else States(Init(trace), end) + [After(trace, end)]
  }

  ghost predicate IsHistory(h: seq<State>, trace: seq<Input>) {
    |h| == |trace| + 1 && forall m :: 0 <= m < |trace| ==> FollowsAt(h, trace, m)
  }

  ghost predicate FollowsAt(h: seq<State>, trace: seq<Input>, m: nat)
    requires m < |trace| && |h| == |trace| + 1
  {
    Follows(h[m], trace[m], h[m + 1])
  }

  ghost predicate Follows(s: State, e: Input, s': State) {
    Regular(s) && Regular(s') && Enabled(s, e) && s' == Step(s, e)
  }

  lemma {:induction false} RunHasHistory(trace: seq<Input>, end: nat)
    requires IsRun(trace, end)
    ensures IsHistory(States(trace, end), trace) && States(trace, end)[0] == Initial(end)
    ensures forall m :: 0 <= m < |trace| && Faithful(trace, end) ==> !Overlooks(States(trace, end)[m], trace[m])
  {
    if trace != [] {
      var h, init := States(trace, end), States(Init(trace), end);
      RunHasHistory(Init(trace), end);
      RunRegular(Init(trace), end);
      RunRegular(trace, end);
      forall m | 0 <= m < |trace|
        ensures FollowsAt(h, trace, m) && (Faithful(trace, end) ==> !Overlooks(h[m], trace[m]))
      {
        if m < |trace| - 1 {
          StepAt(init, Init(trace), m);
          assert h[m] == init[m] && h[m + 1] == init[m + 1] && trace[m] == Init(trace)[m];
        }
      }
    }
  }

  lemma StepAt(h: seq<State>, trace: seq<Input>, m: nat)
    requires IsHistory(h, trace) && m < |trace|
    ensures Follows(h[m], trace[m], h[m + 1])
  {
    assert FollowsAt(h, trace, m);
  }

  /** What one step does to the CNPs and the clock. */
  lemma StepLater(h: seq<State>, trace: seq<Input>, m: nat)
    requires IsHistory(h, trace) && m < |trace|
    ensures h[m].cnps <= h[m + 1].cnps && h[m].now <= trace[m].time == h[m + 1].now
  {
    StepAt(h, trace, m);
  }

  lemma PrefixOfPrefix(a: seq<nat>, b: seq<nat>, c: seq<nat>)
    requires a <= b <= c
    ensures a <= c
  {
  }

  lemma {:induction false} Later(h: seq<State>, trace: seq<Input>, m: nat, n: nat)
    requires IsHistory(h, trace) && m <= n < |h|
    ensures h[m].cnps <= h[n].cnps && h[m].now <= h[n].now
    decreases n
  {
    if m < n {
      Later(h, trace, m, n - 1);
      StepLater(h, trace, n - 1);
      PrefixOfPrefix(h[m].cnps, h[n - 1].cnps, h[n].cnps);
    }
  }

  lemma TimesRise(h: seq<State>, trace: seq<Input>, m: nat, n: nat)
    requires IsHistory(h, trace) && m <= n < |trace|
    ensures trace[m].time <= trace[n].time
  {
    if m < n {
      StepLater(h, trace, m);
      Later(h, trace, m + 1, n);
      StepLater(h, trace, n);
    }
  }

  /** Packet `n` is followed by a CNP within one interval: the first CNP sent at its arrival or after it is in time. */
  predicate Answered(h: seq<State>, trace: seq<Input>, n: nat)
    requires |h| == |trace| + 1 && n < |trace|
  {
    var before, cnps := |h[n].cnps|, h[|trace|].cnps;
    before < |cnps| && trace[n].time <= cnps[before] <= trace[n].time + INTERVAL
  }

  /** No CNP has been sent since the marked packet `n`. */
  predicate StillWaits(h: seq<State>, trace: seq<Input>, n: nat, m: nat)
    requires n < m < |h| && n < |trace|
  {
    IsMarked(trace[n]) && |h[m].cnps| == |h[n].cnps|
  }

  /** If packet `n` still waits, its interval is over: the run has passed it, or no timer up to its end is left. */
  predicate Decided(h: seq<State>, trace: seq<Input>, n: nat)
    requires |h| == |trace| + 1 && n < |trace|
  {
    StillWaits(h, trace, n, |trace|) ==> Past(h[|trace|], trace[n].time + INTERVAL)
  }

  predicate Past(s: State, bound: nat) {
    Before(bound, s.end) && (s.now > bound || forall t :: t in s.timers ==> t > bound)
  }

  /** From input `m` on, a marked packet arrives by the given time. */
  predicate MarkedBy(trace: seq<Input>, m: nat, bound: nat) {
    exists n :: m <= n < |trace| && IsMarked(trace[n]) && trace[n].time <= bound
  }

  /** If the timer at `m` overlooks packet `n`, a marked packet comes in time to have it answered. */
  predicate Rescued(h: seq<State>, trace: seq<Input>, n: nat, m: nat)
    requires |h| == |trace| + 1 && n < m < |trace|
  {
    StillWaits(h, trace, n, m) && Overlooks(h[m], trace[m]) ==> MarkedBy(trace, m + 1, trace[n].time + INTERVAL)
  }

  predicate RescuedFrom(h: seq<State>, trace: seq<Input>, n: nat, m: nat)
    requires |h| == |trace| + 1 && n < m
  {
    forall i :: m <= i < |trace| ==> Rescued(h, trace, n, i)
  }

  lemma ArrivesInQueue(h: seq<State>, trace: seq<Input>, n: nat)
    requires IsHistory(h, trace) && n < |trace| && StillWaits(h, trace, n, n + 1)
    ensures trace[n].time in h[n + 1].unanswered
  {
    StepAt(h, trace, n);
    assert h[n + 1].unanswered == h[n].unanswered + [trace[n].time];
  }

  lemma StaysInQueue(h: seq<State>, trace: seq<Input>, m: nat, u: nat)
    requires IsHistory(h, trace) && m < |trace| && |h[m].cnps| == |h[m + 1].cnps| && u in h[m].unanswered
    ensures u in h[m + 1].unanswered
  {
    StepAt(h, trace, m);
    StepSilent(h[m], trace[m]);
    var i :| 0 <= i < |h[m].unanswered| && h[m].unanswered[i] == u;
    assert h[m + 1].unanswered[i] == u;
  }

  lemma {:induction false} WaitsInQueue(h: seq<State>, trace: seq<Input>, n: nat, m: nat)
    requires IsHistory(h, trace) && n < m < |h| && StillWaits(h, trace, n, m)
    ensures trace[n].time in h[m].unanswered
    decreases m
  {
    if n < m - 1 {
      Later(h, trace, n, m - 1);
      StepLater(h, trace, m - 1);
      WaitsInQueue(h, trace, n, m - 1);
      StaysInQueue(h, trace, m - 1, trace[n].time);
    } else {
      ArrivesInQueue(h, trace, n);
    }
  }

  lemma NoGuardAtEnd(s: State, u: nat)
    requires Regular(s) && u in s.unanswered && Past(s, u + INTERVAL)
    ensures !Guarded(s)
  {
    var i :| 0 <= i < |s.unanswered| && s.unanswered[i] == u;
    assert Deadline(s) <= u + INTERVAL;
  }

  lemma MarkedByStep(h: seq<State>, trace: seq<Input>, m: nat, bound: nat)
    requires IsHistory(h, trace) && m < |trace|
    ensures MarkedBy(trace, m, bound) <==>
              (IsMarked(trace[m]) && trace[m].time <= bound) || MarkedBy(trace, m + 1, bound)
    ensures MarkedBy(trace, m, bound) ==> trace[m].time <= bound
  {
    if MarkedBy(trace, m, bound) {
      var n :| m <= n < |trace| && IsMarked(trace[n]) && trace[n].time <= bound;
      TimesRise(h, trace, m, n);
      assert n == m || m + 1 <= n;
    }
  }

  lemma NotWaitingLater(h: seq<State>, trace: seq<Input>, n: nat, m: nat)
    requires IsHistory(h, trace) && n < m < |h| && |h[m].cnps| > |h[n].cnps|
    ensures RescuedFrom(h, trace, n, m)
  {
    forall i | m <= i < |trace| ensures Rescued(h, trace, n, i) {
      Later(h, trace, m, i);
    }
  }

  lemma RescuedStep(h: seq<State>, trace: seq<Input>, n: nat, m: nat)
    requires |h| == |trace| + 1 && n < m < |trace|
    ensures RescuedFrom(h, trace, n, m) <==> Rescued(h, trace, n, m) && RescuedFrom(h, trace, n, m + 1)
  {
    if Rescued(h, trace, n, m) && RescuedFrom(h, trace, n, m + 1) {
      forall i | m <= i < |trace| ensures Rescued(h, trace, n, i) {
        if i > m { assert m + 1 <= i; }
      }
    }
  }

  /** Input `m` sends the CNP that packet `n` waits for. */
  lemma SentAt(h: seq<State>, trace: seq<Input>, n: nat, m: nat)
    requires IsHistory(h, trace) && n < m < |trace| && StillWaits(h, trace, n, m) && !StillWaits(h, trace, n, m + 1)
    ensures Answered(h, trace, n) <==> Guarded(h[m]) || MarkedBy(trace, m, trace[n].time + INTERVAL)
    ensures RescuedFrom(h, trace, n, m)
  {
    WaitsInQueue(h, trace, n, m);
    SendAt(h, trace, m, trace[n].time);
    TimesRise(h, trace, n, m);
    Later(h, trace, m + 1, |trace|);
    MarkedByStep(h, trace, m, trace[n].time + INTERVAL);
    NotWaitingLater(h, trace, n, m + 1);
    RescuedStep(h, trace, n, m);
  }

  lemma SendAt(h: seq<State>, trace: seq<Input>, m: nat, u: nat)
    requires IsHistory(h, trace) && m < |trace| && |h[m].cnps| != |h[m + 1].cnps| && u in h[m].unanswered
    ensures h[m + 1].cnps == h[m].cnps + [trace[m].time] && !Overlooks(h[m], trace[m])
    ensures if Guarded(h[m]) then trace[m].time <= u + INTERVAL else IsMarked(trace[m])
  {
    StepAt(h, trace, m);
    StepSends(h[m], trace[m]);
  }

  lemma {:induction false} AnsweredFrom(h: seq<State>, trace: seq<Input>, n: nat, m: nat)
    requires IsHistory(h, trace) && n < m < |h| && StillWaits(h, trace, n, m) && Decided(h, trace, n)
    ensures Answered(h, trace, n) <==>
            (Guarded(h[m]) || MarkedBy(trace, m, trace[n].time + INTERVAL)) && RescuedFrom(h, trace, n, m)
    decreases |trace| - m
  {
    if m == |trace| {
      WaitsInQueue(h, trace, n, m);
      StepAt(h, trace, m - 1);
      NoGuardAtEnd(h[m], trace[n].time);
    } else if StillWaits(h, trace, n, m + 1) {
      AnsweredFrom(h, trace, n, m + 1);
      SilentAt(h, trace, n, m);
      RescuedStep(h, trace, n, m);
    } else {
      SentAt(h, trace, n, m);
    }
  }

  /** Input `m` sends no CNP: the guard is lost exactly if the input is a timer that overlooks the packet. */
  lemma SilentAt(h: seq<State>, trace: seq<Input>, n: nat, m: nat)
    requires IsHistory(h, trace) && n < m < |trace| && StillWaits(h, trace, n, m) && StillWaits(h, trace, n, m + 1)
    ensures var bound := trace[n].time + INTERVAL;
            Guarded(h[m + 1]) || MarkedBy(trace, m + 1, bound)
            <==> (Guarded(h[m]) || MarkedBy(trace, m, bound)) && Rescued(h, trace, n, m)
  {
    WaitsInQueue(h, trace, n, m);
    GuardAt(h, trace, m);
    MarkedByStep(h, trace, m, trace[n].time + INTERVAL);
  }

  lemma GuardAt(h: seq<State>, trace: seq<Input>, m: nat)
    requires IsHistory(h, trace) && m < |trace| && |h[m].cnps| == |h[m + 1].cnps| && h[m].unanswered != []
    ensures Guarded(h[m + 1]) <==> Guarded(h[m]) && !Overlooks(h[m], trace[m])
    ensures Guarded(h[m]) || (!IsMarked(trace[m]) && !Overlooks(h[m], trace[m]))
  {
    StepAt(h, trace, m);
    StepSilent(h[m], trace[m]);
    StepKeepsRegular(h[m], trace[m]);
  }

  /** Exactly when a marked packet is followed by a CNP within one interval, once that interval is over: every timer
      that overlooks it must be followed by a marked packet before the interval ends. */
  lemma PacketAnsweredIff(h: seq<State>, trace: seq<Input>, n: nat)
    requires IsHistory(h, trace) && n < |trace| && IsMarked(trace[n]) && Decided(h, trace, n)
    ensures Answered(h, trace, n) <==> forall m :: n < m < |trace| ==> Rescued(h, trace, n, m)
  {
    assert (forall m :: n < m < |trace| ==> Rescued(h, trace, n, m)) <==> RescuedFrom(h, trace, n, n + 1);
    if StillWaits(h, trace, n, n + 1) {
      AnsweredFrom(h, trace, n, n + 1);
      GuardAtArrival(h, trace, n);
    } else {
      SentAtOnce(h, trace, n);
      Later(h, trace, n + 1, |trace|);
      NotWaitingLater(h, trace, n, n + 1);
    }
  }

  lemma GuardAtArrival(h: seq<State>, trace: seq<Input>, n: nat)
    requires IsHistory(h, trace) && n < |trace| && IsMarked(trace[n])
    ensures Guarded(h[n + 1])
  {
    StepAt(h, trace, n);
    StepKeepsRegular(h[n], trace[n]);
  }

  lemma SentAtOnce(h: seq<State>, trace: seq<Input>, n: nat)
    requires IsHistory(h, trace) && n < |trace| && IsMarked(trace[n]) && |h[n + 1].cnps| != |h[n].cnps|
    ensures h[n + 1].cnps == h[n].cnps + [trace[n].time]
  {
    StepAt(h, trace, n);
  }

  /** The packet at the head of the queue. */
  lemma {:induction false} HeadOfQueue(h: seq<State>, trace: seq<Input>, m: nat) returns (n: nat)
    requires IsHistory(h, trace) && m < |h| && h[m].unanswered != [] && h[0].unanswered == []
    ensures n < m && StillWaits(h, trace, n, m) && trace[n].time == h[m].unanswered[0]
  {
    n := m - 1;
    QueueStep(h, trace, n);
    if h[n].unanswered != [] {
      n := HeadOfQueue(h, trace, n);
    }
  }

  lemma QueueStep(h: seq<State>, trace: seq<Input>, m: nat)
    requires IsHistory(h, trace) && m < |trace| && h[m + 1].unanswered != []
    ensures |h[m + 1].cnps| == |h[m].cnps|
    ensures if h[m].unanswered == [] then IsMarked(trace[m]) && h[m + 1].unanswered[0] == trace[m].time
            else h[m + 1].unanswered[0] == h[m].unanswered[0]
  {
    StepAt(h, trace, m);
  }

  ghost predicate AllDecided(h: seq<State>, trace: seq<Input>)
    requires |h| == |trace| + 1
  {
    forall n :: 0 <= n < |trace| && IsMarked(trace[n]) ==> Decided(h, trace, n)
  }

  /** Every marked packet is followed by a CNP within one interval. */
  ghost predicate AllAnswered(h: seq<State>, trace: seq<Input>)
    requires |h| == |trace| + 1
  {
    forall n :: 0 <= n < |trace| && IsMarked(trace[n]) ==> Answered(h, trace, n)
  }

  /** Every timer that overlooks waiting packets is followed by a marked packet within one interval of the earliest. */
  ghost predicate AllRescued(h: seq<State>, trace: seq<Input>)
    requires |h| == |trace| + 1
  {
    forall m :: 0 <= m < |trace| && Overlooks(h[m], trace[m]) ==> MarkedBy(trace, m + 1, h[m].unanswered[0] + INTERVAL)
  }

  /** The exact condition for the whole run. */
  lemma ResponseIff(trace: seq<Input>, end: nat)
    requires IsRun(trace, end) && AllDecided(States(trace, end), trace)
    ensures AllAnswered(States(trace, end), trace) <==> AllRescued(States(trace, end), trace)
  {
    var h := States(trace, end);
    RunHasHistory(trace, end);
    if AllAnswered(h, trace) {
      forall m | 0 <= m < |trace| && Overlooks(h[m], trace[m])
        ensures MarkedBy(trace, m + 1, h[m].unanswered[0] + INTERVAL)
      {
        var n := HeadOfQueue(h, trace, m);
        PacketAnsweredIff(h, trace, n);
        assert Rescued(h, trace, n, m);
      }
    }
    if AllRescued(h, trace) {
      forall n | 0 <= n < |trace| && IsMarked(trace[n]) ensures Answered(h, trace, n) {
        RescuedMeansAnswered(h, trace, n);
      }
    }
  }

  lemma RescuedMeansAnswered(h: seq<State>, trace: seq<Input>, n: nat)
    requires IsHistory(h, trace) && AllRescued(h, trace) && n < |trace| && IsMarked(trace[n]) && Decided(h, trace, n)
    ensures Answered(h, trace, n)
  {
    forall m | n < m < |trace| ensures Rescued(h, trace, n, m) {
      if StillWaits(h, trace, n, m) && Overlooks(h[m], trace[m]) {
        RescuedWithHead(h, trace, n, m);
      }
    }
    PacketAnsweredIff(h, trace, n);
  }

  lemma RescuedWithHead(h: seq<State>, trace: seq<Input>, n: nat, m: nat)
    requires IsHistory(h, trace) && n < m < |trace| && StillWaits(h, trace, n, m) && h[m].unanswered != []
    requires MarkedBy(trace, m + 1, h[m].unanswered[0] + INTERVAL)
    ensures MarkedBy(trace, m + 1, trace[n].time + INTERVAL)
  {
    WaitsInQueue(h, trace, n, m);
    StepAt(h, trace, m);
    HeadIsFirst(h[m], trace[n].time);
    var i :| m + 1 <= i < |trace| && IsMarked(trace[i]) && trace[i].time <= h[m].unanswered[0] + INTERVAL;
    assert trace[i].time <= trace[n].time + INTERVAL;
  }

  lemma HeadIsFirst(s: State, u: nat)
    requires Regular(s) && u in s.unanswered
    ensures s.unanswered[0] <= u
  {
    var i :| 0 <= i < |s.unanswered| && s.unanswered[i] == u;
  }

  /** In particular every marked packet is answered in a run without overlooking timers. */
  lemma BoundedResponse(trace: seq<Input>, end: nat, n: nat)
    requires IsRun(trace, end) && Faithful(trace, end) && n < |trace| && IsMarked(trace[n])
    requires Decided(States(trace, end), trace, n)
    ensures Answered(States(trace, end), trace, n)
  {
    RunHasHistory(trace, end);
    PacketAnsweredIff(States(trace, end), trace, n);
  }

  function Marked(trace: seq<Input>): nat {
    if trace == [] then 0
    else Marked(Init(trace)) + if Last(trace).Arrival? && Last(trace).marked then 1 else 0
  }

  /** No CNP without a cause: every one answers at least one marked packet of its own. */
  lemma {:induction false} NoIdleCnp(trace: seq<Input>, end: nat)
    ensures |After(trace, end).cnps| + |After(trace, end).unanswered| <= Marked(trace)
  {
    if trace != [] {
      NoIdleCnp(Init(trace), end);
    }
  }

  // ---------------------------------------------------------------- the 32-bit count

  /** A packet that is answered at once, then `n` that wait. */
  function Burst(n: nat): (trace: seq<Input>)
    ensures |trace| == n + 1
  {
    if n == 0 then [Arrival(0, true)] else Burst(n - 1) + [Arrival(1, true)]
  }

  ghost predicate Bursting(s: State, n: nat) {
    && s.now <= 1 && s.cnps == [0] && s.timers == multiset{INTERVAL} && s.end == 0
    && |s.unanswered| == n && (n > 0 ==> s.unanswered[0] == 1)
  }

  lemma {:induction false} BurstWaits(n: nat)
    ensures IsRun(Burst(n), 0) && Bursting(After(Burst(n), 0), n)
  {
    var trace := Burst(n);
    if n > 0 {
      BurstWaits(n - 1);
      assert Init(trace) == Burst(n - 1);
      BurstStep(After(Burst(n - 1), 0), n - 1);
    } else {
      assert Init(trace) == [];
      BurstStarts();
    }
  }

  lemma BurstStarts()
    ensures Enabled(Initial(0), Arrival(0, true)) && Bursting(Step(Initial(0), Arrival(0, true)), 0)
  {
  }

  lemma BurstStep(s: State, n: nat)
    requires Bursting(s, n)
    ensures Enabled(s, Arrival(1, true)) && Bursting(Step(s, Arrival(1, true)), n + 1)
  {
  }

  lemma {:induction false} BurstAt(n: nat)
    ensures n > 0 ==> Burst(n)[1] == Arrival(1, true)
    ensures States(Burst(n), 0)[1].cnps == [0]
  {
    if n > 0 {
      BurstAt(n - 1);
      assert Init(Burst(n)) == Burst(n - 1);
    } else {
      BurstWaits(0);
    }
  }

  /** 2^32 waiting packets are forgotten: their timer fires, sends nothing and leaves no timer behind. */
  lemma FullCountIsOverlooked()
    ensures var trace := Burst(UINT32) + [Timer(INTERVAL)];
            var h := States(trace, 0);
            && IsRun(trace, 0) && IsMarked(trace[1]) && Decided(h, trace, 1)
            && Overlooks(h[UINT32 + 1], trace[UINT32 + 1]) && !Answered(h, trace, 1)
  {
    var burst := Burst(UINT32);
    var trace := burst + [Timer(INTERVAL)];
    BurstWaits(UINT32);
    BurstAt(UINT32);
    assert Init(trace) == burst;
    var s := After(burst, 0);
    assert Wrap(|s.unanswered|) == 0;
    assert States(trace, 0)[UINT32 + 1] == s && States(trace, 0)[1] == States(burst, 0)[1];
    assert After(trace, 0).cnps == [0] && After(trace, 0).timers == multiset{};
  }
}
