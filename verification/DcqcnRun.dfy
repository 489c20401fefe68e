/**
 Runs of many DCQCN sources in any interleaving: what always holds of their rates, how fast a rate recovers from a
 congestion notification (CNP), and what the counters that drive the recovery really count.
 */
module DcqcnRun {
  import opened Arith
  import opened Blocks
  import opened DcqcnSource

  datatype World = World(srcs: seq<Src>, shared: Shared)

  datatype Event =
    | Build(rate: nat)
    | Cnp(i: nat, now: nat)
    | Tick(i: nat, now: nat, highest: nat)
    | Nack(i: nat, ackno: nat)

  ghost predicate WorldSound(w: World) {
    SharedSound(w.shared) && forall i :: 0 <= i < |w.srcs| ==> Sound(w.srcs[i].r) && Fits(w.srcs[i])
  }

  predicate Legal(w: World, e: Event) {
    match e
    case Build(rate) => rate < MAXRATE
    case Cnp(i, _) => i < |w.srcs|
    case Tick(i, _, highest) => i < |w.srcs| && highest < UINT64
    case Nack(i, ackno) => i < |w.srcs| && ackno < UINT64
  }

  /** The methods of class Source, on the values of all sources. */
  function Step(w: World, e: Event): World
    requires WorldSound(w) && Legal(w, e)
  {
    match e
    case Build(rate) =>
      World(w.srcs + [Built(rate)], w.shared.(steps := StepsAt(rate)))
    case Cnp(i, now) =>
      World(w.srcs[i := Notified(w.srcs[i], w.shared.alpha, now)], w.shared.(alpha := (1.0 - G) * w.shared.alpha + G))
    case Tick(i, now, highest) =>
      World(w.srcs[i := Ticked(w.srcs[i], now, highest, w.shared.steps)],
            w.shared.(alpha := Decayed(w.shared.alpha, w.srcs[i], now)))
    case Nack(i, ackno) =>
      World(w.srcs[i := w.srcs[i].(highest := ackno)], w.shared)
  }

  // ---------------------------------------------------------------- invariants over any interleaving

  lemma TickKeepsSound(s: Src, now: nat, highest: nat, g: Steps)
    requires Sound(s.r) && Fits(s) && StepsSound(g) && highest < UINT64
    ensures var s' := Ticked(s, now, highest, g);
            Sound(s'.r) && Fits(s') && s'.bytes < B && s'.r.rc >= s.r.rc && s'.r.rt >= s.r.rt && s'.r.link == s.r.link
  {
    AfterGrows(s.r, ByteCalls(s, highest), g);
    AfterGrows(After(s.r, ByteCalls(s, highest), g), TimerCalls(s, now), g);
  }

  lemma {:induction false} AfterGrows(r: Rates, calls: seq<Cause>, g: Steps)
    requires Sound(r) && StepsSound(g)
    ensures var r' := After(r, calls, g); Sound(r') && r'.rc >= r.rc && r'.rt >= r.rt && r'.link == r.link
  {
    if calls != [] {
      var init := After(r, calls[..|calls| - 1], g);
      AfterGrows(r, calls[..|calls| - 1], g);
      IncreaseKeepsSound(Bump(init, calls[|calls| - 1]), g);
    }
  }

  /** One step of any source keeps alpha within [0, 1] and every rate below line rate and target, and a target
      below twice the line rate while there is room. */
  lemma StepKeepsSound(w: World, e: Event)
    requires WorldSound(w) && Legal(w, e)
    ensures WorldSound(Step(w, e))
  {
    AlphaStays(w.shared.alpha);
    if e.Tick? {
      TickKeepsSound(w.srcs[e.i], e.now, e.highest, w.shared.steps);
    }
  }

  ghost function Next(w: World, e: Event): (w': World)
    requires WorldSound(w) && Legal(w, e)
    ensures w' == Step(w, e) && WorldSound(w')
  {
    StepKeepsSound(w, e);
    Step(w, e)
  }

  /** Only a CNP to a source lowers its rate: by half of the share alpha, rounded up, so never below half (rounded
      down). */
  lemma OnlyCnpLowers(w: World, e: Event, j: nat)
    requires WorldSound(w) && Legal(w, e) && j < |w.srcs|
    ensures j < |Step(w, e).srcs|
    ensures var r, r' := w.srcs[j].r, Step(w, e).srcs[j].r;
            && r'.link == r.link
            && (if e.Cnp? && e.i == j then r.rc / 2 <= r'.rc <= r.rc == r'.rt else r'.rc >= r.rc && r'.rt >= r.rt)
    ensures e.Cnp? && e.i == j ==>
              var rc, share := w.srcs[j].r.rc, w.shared.alpha * w.srcs[j].r.rc as real;
              share <= 2.0 * (rc - Step(w, e).srcs[j].r.rc) as real < share + 2.0
  {
    if e.Cnp? && e.i == j {
      CutIs(w.srcs[j].r.rc, w.shared.alpha);
    }
    if e.Tick? {
      TickKeepsSound(w.srcs[e.i], e.now, e.highest, w.shared.steps);
    }
  }

  ghost predicate IsRun(w: World, events: seq<Event>)
    requires WorldSound(w)
    decreases |events|
  {
    events == [] || (Legal(w, events[0]) && IsRun(Next(w, events[0]), events[1..]))
  }

  ghost function RunOf(w: World, events: seq<Event>): (w': World)
    requires WorldSound(w) && IsRun(w, events)
    ensures WorldSound(w') && |w'.srcs| >= |w.srcs|
    decreases |events|
  {
    if events == [] then w
    else RunOf(Next(w, events[0]), events[1..])
  }

  const NO_SOURCES: World := World([], Shared(1.0, Steps(0, 0)))

  /** In every run, whatever the interleaving. */
  lemma AlwaysSound(events: seq<Event>, j: nat)
    requires IsRun(NO_SOURCES, events) && j < |RunOf(NO_SOURCES, events).srcs|
    ensures var w := RunOf(NO_SOURCES, events); var r := w.srcs[j].r;
            && 0.0 <= w.shared.alpha <= 1.0
            && r.rc <= r.link && r.rc <= r.rt && (r.rc < r.link ==> r.rt < 2 * r.link)
  {
    assert WorldSound(RunOf(NO_SOURCES, events));
  }

  // ---------------------------------------------------------------- fast recovery

  function CountOf(calls: seq<Cause>, c: Cause): nat {
    if calls == [] then 0
    else CountOf(calls[..|calls| - 1], c) + if calls[|calls| - 1] == c then 1 else 0
  }

  lemma {:induction false} CountsAddUp(calls: seq<Cause>)
    ensures CountOf(calls, Bytes) + CountOf(calls, Timer) == |calls|
  {
    if calls != [] {
      CountsAddUp(calls[..|calls| - 1]);
    }
  }

  /** Half of the gap, rounded up, `k` times. */
  function Halved(gap: nat, k: nat): (h: nat)
    ensures h <= gap
  {
    if k == 0 then gap else (Halved(gap, k - 1) + 1) / 2
  }

  lemma RoundUp(gap: nat, h: nat, h1: nat, p: nat)
    requires h == (h1 + 1) / 2 && gap <= h1 * p < gap + p
    ensures gap <= h * (2 * p) < gap + 2 * p
  {
    MulMonotone(h1, 2 * h, p);
    MulMonotone(2 * h, h1 + 1, p);
    Distribute(h1, 1, p);
    assert h * (2 * p) == (2 * h) * p;
  }

  /** ... which is `gap / 2^k`, rounded up. */
  lemma {:induction false} HalvedIsCeil(gap: nat, k: nat)
    ensures Halved(gap, k) * Pow2(k) < gap + Pow2(k) && gap <= Halved(gap, k) * Pow2(k)
  {
    if k > 0 {
      HalvedIsCeil(gap, k - 1);
      RoundUp(gap, Halved(gap, k), Halved(gap, k - 1), Pow2(k - 1));
    }
  }

  /** The counters count the calls, in 16 bits. */
  lemma {:induction false} CountersWrap(r: Rates, calls: seq<Cause>, g: Steps)
    requires r.t < UINT16 && r.bc < UINT16
    ensures After(r, calls, g).t == (r.t + CountOf(calls, Timer)) % UINT16
    ensures After(r, calls, g).bc == (r.bc + CountOf(calls, Bytes)) % UINT16
    ensures After(r, calls, g).link == r.link
  {
    if calls != [] {
      var rest := calls[..|calls| - 1];
      CountersWrap(r, rest, g);
      NextWraps(r.t + CountOf(rest, Timer));
      NextWraps(r.bc + CountOf(rest, Bytes));
    }
  }

  lemma NextWraps(n: nat)
    ensures Next16(n % UINT16) == (n + 1) % UINT16
  {
  }

  lemma CountersCount(r: Rates, calls: seq<Cause>, g: Steps)
    requires r.t == r.bc == 0 && |calls| < UINT16
    ensures After(r, calls, g).t == CountOf(calls, Timer) && After(r, calls, g).bc == CountOf(calls, Bytes)
    ensures After(r, calls, g).link == r.link
  {
    CountsAddUp(calls);
    CountersWrap(r, calls, g);
  }

  /** While neither counter has passed F, `k` increases leave exactly the gap rounded up over 2^k, below the rate the
      source had at the CNP; there are at most 2F of them. */
  lemma {:induction false} FastRecovery(r: Rates, calls: seq<Cause>, g: Steps)
    requires r.t == r.bc == 0 && r.rc <= r.rt <= r.link
    requires CountOf(calls, Bytes) <= F && CountOf(calls, Timer) <= F
    ensures |calls| <= 2 * F
    ensures After(r, calls, g)
            == r.(rc := r.rt - Halved(r.rt - r.rc, |calls|), t := CountOf(calls, Timer), bc := CountOf(calls, Bytes))
  {
    CountsAddUp(calls);
    if calls != [] {
      FastRecovery(r, calls[..|calls| - 1], g);
    }
  }

  // ---------------------------------------------------------------- back to line rate

  /** The exact effect of an increase below line rate, `timed` and `counted` being how often the timer and the byte
      counter have called since the CNP: the target rises by nothing while neither has passed F, by `rai` when one
      has, and by `rhai` for every step beyond F of the one that is behind when both have.  The rate then moves half
      way to the target, up to line rate. */
  ghost predicate Gains(before: Rates, after: Rates, timed: nat, counted: nat, g: Steps) {
    && (timed <= F && counted <= F ==> after.rt == before.rt)
    && (timed <= F < counted || counted <= F < timed ==> after.rt == before.rt + g.rai)
    && (F < timed <= counted ==> after.rt == before.rt + (timed - F) * g.rhai)
    && (F < counted <= timed ==> after.rt == before.rt + (counted - F) * g.rhai)
    && (after.rt + before.rc <= 2 * before.link + 1 ==> after.rc == (after.rt + before.rc) / 2)
    && (after.rt + before.rc >= 2 * before.link ==> after.rc == before.link)
  }

  lemma TargetGain(r: Rates, calls: seq<Cause>, cause: Cause, g: Steps)
    requires r.t == r.bc == 0 && |calls| + 1 < UINT16 && After(r, calls, g).rc < r.link
    ensures var all := calls + [cause];
            Gains(After(r, calls, g), After(r, all, g), CountOf(all, Timer), CountOf(all, Bytes), g)
  {
    var all, before := calls + [cause], After(r, calls, g);
    CallsSnoc(r, calls, cause, g);
    CountersCount(r, calls, g);
    CountersCount(r, all, g);
    var b := Bump(before, cause);
    GainOf(b, g);
    GainsOfBump(before, b, Increased(b, g), g);
  }

  lemma CallsSnoc(r: Rates, calls: seq<Cause>, cause: Cause, g: Steps)
    ensures After(r, calls + [cause], g) == Increased(Bump(After(r, calls, g), cause), g)
  {
    assert (calls + [cause])[..|calls|] == calls;
  }

  lemma GainsOfBump(before: Rates, b: Rates, after: Rates, g: Steps)
    requires b.rc == before.rc && b.rt == before.rt && b.link == before.link && Gains(b, after, b.t, b.bc, g)
    ensures Gains(before, after, b.t, b.bc, g)
  {
  }

  lemma GainOf(r: Rates, g: Steps)
    requires r.rc < r.link
    ensures Gains(r, Increased(r, g), r.t, r.bc, g)
  {
    if F < r.t && F < r.bc {
      TimesIs(Min(r.t, r.bc) - F, g.rhai);
    }
  }

  /** Past 2F increases every further one lifts the target by at least `rai`, until the rate is the line rate. */
  lemma {:induction false} TargetClimbs(r: Rates, calls: seq<Cause>, g: Steps)
    requires Sound(r) && StepsSound(g) && r.t == r.bc == 0 && 2 * F <= |calls| < UINT16
    ensures var r' := After(r, calls, g); r'.rc < r'.link ==> r'.rt >= Times(|calls| - 2 * F, g.rai)
  {
    if |calls| > 2 * F {
      var init, last := calls[..|calls| - 1], calls[|calls| - 1];
      TargetClimbs(r, init, g);
      CountersCount(r, calls, g);
      CountersCount(r, init, g);
      CountsAddUp(calls);
      AfterGrows(r, init, g);
      var b := Bump(After(r, init, g), last);
      IncreaseKeepsSound(b, g);
      RaiseAtLeast(b, g);
    }
  }

  lemma RaiseAtLeast(r: Rates, g: Steps)
    requires StepsSound(g) && r.t + r.bc > 2 * F
    ensures Raise(r, g) >= g.rai
  {
  }

  /** Enough increases after a CNP restore the line rate, and it then stays. */
  lemma {:induction false} LineRate(r: Rates, calls: seq<Cause>, g: Steps, n: nat)
    requires Sound(r) && StepsSound(g) && r.t == r.bc == 0
    requires 2 * F <= n < UINT16 && Times(n - 2 * F, g.rai) >= 2 * r.link && |calls| >= n
    ensures After(r, calls, g).rc == r.link
    decreases |calls|
  {
    AfterGrows(r, calls, g);
    if |calls| == n {
      TargetClimbs(r, calls, g);
    } else {
      var init := calls[..|calls| - 1];
      LineRate(r, init, g, n);
      AfterGrows(r, init, g);
      IncreaseKeepsSound(Bump(After(r, init, g), calls[|calls| - 1]), g);
    }
  }

  /** With equal links of at least 20 bit/s, 2F + 78 increases are enough. */
  lemma EqualLinks(link: nat)
    requires link >= 20
    ensures Times(78, link / 20) >= 2 * link
  {
    TimesIs(78, link / 20);
  }

  function TimerOnly(n: nat): (calls: seq<Cause>)
    ensures |calls| == n
  {
    if n == 0 then [] else TimerOnly(n - 1) + [Timer]
  }

  /** Below 20 bit/s the increment is 0, and a source raised by its timer alone never gets back. */
  lemma {:induction false} NoIncrementNoRecovery(r: Rates, g: Steps, n: nat)
    requires Stuck(r, r.rt, r.link) && g.rai == 0
    ensures Stuck(After(r, TimerOnly(n), g), r.rt, r.link)
  {
    if n == 0 {
      AfterNone(r, g);
    } else {
      var r1 := After(r, TimerOnly(n - 1), g);
      NoIncrementNoRecovery(r, g, n - 1);
      AfterTimerOnly(r, g, n, r1);
      NoIncrementNoGain(r1, r.rt, r.link, g);
    }
  }

  /** Below line rate, with no byte counted, and no target to rise to. */
  predicate Stuck(r: Rates, rt: nat, link: nat) {
    r.bc == 0 && r.rc <= r.rt == rt <= link == r.link && r.rc < link
  }

  lemma AfterNone(r: Rates, g: Steps)
    ensures After(r, TimerOnly(0), g) == r
  {
  }

  lemma AfterTimerOnly(r: Rates, g: Steps, n: nat, r1: Rates)
    requires n > 0 && r1 == After(r, TimerOnly(n - 1), g)
    ensures After(r, TimerOnly(n), g) == Called(r1, Timer, g)
  {
    assert TimerOnly(n)[..n - 1] == TimerOnly(n - 1);
  }

  lemma NoIncrementNoGain(r: Rates, rt: nat, link: nat, g: Steps)
    requires Stuck(r, rt, link) && g.rai == 0
    ensures Stuck(Called(r, Timer, g), rt, link)
  {
    assert Raise(Bump(r, Timer), g) == 0;
  }

  /** A rate cut by a CNP is certain to be back at line rate within a bounded number of increases exactly when the
      increment is positive. */
  lemma RecoversIff(r: Rates, g: Steps, n: nat)
    requires Sound(r) && StepsSound(g) && r.t == r.bc == 0 && r.rc < r.link && r.rt <= r.link
    requires 2 * F <= n < UINT16 && (g.rai > 0 ==> Times(n - 2 * F, g.rai) >= 2 * r.link)
    ensures (forall calls: seq<Cause> :: |calls| >= n ==> After(r, calls, g).rc == r.link) <==> g.rai > 0
  {
    if g.rai > 0 {
      forall calls: seq<Cause> | |calls| >= n ensures After(r, calls, g).rc == r.link {
        LineRate(r, calls, g, n);
      }
    } else {
      NoIncrementNoRecovery(r, g, n);
      assert After(r, TimerOnly(n), g).rc < r.link;
    }
  }

  // ---------------------------------------------------------------- one source in a run of many

  /** No CNP to source `j`, and no source built at a rate that would change the shared increments. */
  predicate LeavesAlone(events: seq<Event>, j: nat, g: Steps) {
    NoCnp(events, j) && forall n :: 0 <= n < |events| && events[n].Build? ==> StepsAt(events[n].rate) == g
  }

  predicate NoCnp(events: seq<Event>, j: nat) {
    forall n :: 0 <= n < |events| ==> !(events[n].Cnp? && events[n].i == j)
  }

  /** The increments that a source of this rate leaves behind when it is built. */
  function StepsAt(rate: nat): Steps {
    Steps(rate / 20, rate / 10)
  }

  /** The increases of source `j` during a run. */
  ghost function CallsOf(w: World, events: seq<Event>, j: nat): seq<Cause>
    requires WorldSound(w) && IsRun(w, events) && j < |w.srcs|
    decreases |events|
  {
    if events == [] then []
    else
      var e, s := events[0], w.srcs[j];
      (if e.Tick? && e.i == j then ByteCalls(s, e.highest) + TimerCalls(s, e.now) else [])
      + CallsOf(Next(w, e), events[1..], j)
  }

  lemma {:induction false} AfterConcat(r: Rates, a: seq<Cause>, b: seq<Cause>, g: Steps)
    ensures After(r, a + b, g) == After(After(r, a, g), b, g)
    decreases |b|
  {
    if b == [] {
      assert a + b == a;
    } else {
      var init := b[..|b| - 1];
      AfterConcat(r, a, init, g);
      assert (a + b)[..|a + b| - 1] == a + init;
    }
  }

  /** Between CNPs to it, a source's rates depend on its own increases alone, whatever the other sources do. */
  lemma {:induction false} RatesFollow(w: World, events: seq<Event>, j: nat)
    requires WorldSound(w) && IsRun(w, events) && j < |w.srcs| && LeavesAlone(events, j, w.shared.steps)
    ensures var w' := RunOf(w, events);
            j < |w'.srcs| && w'.srcs[j].r == After(w.srcs[j].r, CallsOf(w, events, j), w.shared.steps)
    decreases |events|
  {
    if events != [] {
      var e, s := events[0], w.srcs[j];
      var w1 := Next(w, e);
      RatesFollow(w1, events[1..], j);
      var calls := if e.Tick? && e.i == j then ByteCalls(s, e.highest) + TimerCalls(s, e.now) else [];
      if e.Tick? && e.i == j {
        AfterConcat(s.r, ByteCalls(s, e.highest), TimerCalls(s, e.now), w.shared.steps);
      }
      AfterConcat(s.r, calls, CallsOf(w1, events[1..], j), w.shared.steps);
    }
  }

  /** A CNP to source `j`, then any run without another: the rate closes in on the old one by halves while neither
      counter has passed F, and after 2F + 78 increases it is the line rate. */
  lemma RecoveryInAnyRun(w: World, j: nat, now: nat, events: seq<Event>)
    requires WorldSound(w) && j < |w.srcs| && LeavesAlone(events, j, w.shared.steps)
    requires IsRun(Next(w, Cnp(j, now)), events)
    ensures var w0 := Next(w, Cnp(j, now));
            var calls, before, cut, r := CallsOf(w0, events, j), w.srcs[j].r, w0.srcs[j].r, RunOf(w0, events).srcs[j].r;
            && before.rc / 2 <= cut.rc <= before.rc
            && (CountOf(calls, Bytes) <= F && CountOf(calls, Timer) <= F ==>
                  |calls| <= 2 * F && r.rt == before.rc && r.rc == before.rc - Halved(before.rc - cut.rc, |calls|))
            && (before.link >= 20 && w.shared.steps.rai == before.link / 20 && |calls| >= 2 * F + 78 ==> r.rc == r.link)
  {
    var w0 := Next(w, Cnp(j, now));
    var calls := CallsOf(w0, events, j);
    RatesFollow(w0, events, j);
    CutThenRaised(w.srcs[j].r, w0.srcs[j].r, calls, w.shared.steps);
  }

  lemma CutThenRaised(before: Rates, cut: Rates, calls: seq<Cause>, g: Steps)
    requires Sound(before) && Sound(cut) && StepsSound(g)
    requires cut.t == cut.bc == 0 && cut.link == before.link && cut.rt == before.rc
    ensures CountOf(calls, Bytes) <= F && CountOf(calls, Timer) <= F ==>
              && |calls| <= 2 * F && After(cut, calls, g).rt == before.rc
              && After(cut, calls, g).rc == before.rc - Halved(before.rc - cut.rc, |calls|)
    ensures before.link >= 20 && g.rai == before.link / 20 && |calls| >= 2 * F + 78 ==>
              After(cut, calls, g).rc == After(cut, calls, g).link
  {
    if CountOf(calls, Bytes) <= F && CountOf(calls, Timer) <= F {
      FastRecovery(cut, calls, g);
    }
    if before.link >= 20 && g.rai == before.link / 20 && |calls| >= 2 * F + 78 {
      EqualLinks(cut.link);
      AfterGrows(cut, calls, g);
      LineRate(cut, calls, g, 2 * F + 78);
    }
  }

  /** Building a source adds it at line rate and leaves a 20th and a 10th of its rate, truncated, as everybody's
      increments. */
  lemma BuildSetsSteps(w: World, rate: nat)
    requires WorldSound(w) && rate < MAXRATE
    ensures var w', g := Next(w, Build(rate)), Next(w, Build(rate)).shared.steps;
            && |w'.srcs| == |w.srcs| + 1 && w'.srcs[|w.srcs|] == Src(Rates(rate, rate, rate, 0, 0), 0, 0, 0, 0, 0)
            && (forall i :: 0 <= i < |w.srcs| ==> w'.srcs[i] == w.srcs[i]) && w'.shared.alpha == w.shared.alpha
            && 20 * g.rai <= rate < 20 * g.rai + 20 && 10 * g.rhai <= rate < 10 * g.rhai + 10
  {
  }

  /** When one tick makes both calls, the byte counter's comes first: with the timer at F and the byte counter below,
      that one still leaves the target alone and only the timer's raises it. */
  lemma BytesComeFirst(s: Src, now: nat, highest: nat, g: Steps)
    requires Sound(s.r) && Fits(s) && s.r.t == F && s.r.bc < F && s.r.rt < s.r.link
    requires s.oldHighest + B <= highest < UINT64 - s.bytes && s.lastCc + PERIOD <= now
    ensures var s' := Ticked(s, now, highest, g);
            s'.r.t == F + 1 && s'.r.bc == s.r.bc + 1 && s'.r.rt == s.r.rt + g.rai && s'.bytes == 0 && s'.lastCc == now
  {
    OneCall(s.r, Bytes, g);
    OneCall(After(s.r, [Bytes], g), Timer, g);
  }

  lemma OneCall(r: Rates, cause: Cause, g: Steps)
    ensures After(r, [cause], g) == Called(r, cause, g)
  {
    assert [cause][..0] == [];
    assert After(r, [], g) == r;
  }

  /** How many ticks of source `j`, taken greedily, are a period after the one before, the first one after `last`. */
  function PeriodTicks(events: seq<Event>, j: nat, last: nat): nat {
    if events == [] then 0
    else if events[0].Tick? && events[0].i == j && events[0].now >= last + PERIOD then
      1 + PeriodTicks(events[1..], j, events[0].now)
    else PeriodTicks(events[1..], j, last)
  }

  lemma {:induction false} CountConcat(a: seq<Cause>, b: seq<Cause>, c: Cause)
    ensures CountOf(a + b, c) == CountOf(a, c) + CountOf(b, c)
    decreases |b|
  {
    if b == [] {
      assert a + b == a;
    } else {
      var init := b[..|b| - 1];
      CountConcat(a, init, c);
      assert (a + b)[..|a + b| - 1] == a + init;
    }
  }

  /** The timer raises the rate of a source exactly that often between its CNPs, whatever happens to the others. */
  lemma {:induction false} TimerCallsAre(w: World, events: seq<Event>, j: nat)
    requires WorldSound(w) && IsRun(w, events) && j < |w.srcs| && NoCnp(events, j)
    ensures CountOf(CallsOf(w, events, j), Timer) == PeriodTicks(events, j, w.srcs[j].lastCc)
    decreases |events|
  {
    if events != [] {
      var e, w1 := events[0], Next(w, events[0]);
      TimerCallsAre(w1, events[1..], j);
      if e.Tick? && e.i == j {
        TickTimes(w.srcs[j], e.now, e.highest, w.shared.steps);
        CountConcat(ByteCalls(w.srcs[j], e.highest) + TimerCalls(w.srcs[j], e.now), CallsOf(w1, events[1..], j), Timer);
      } else {
        CountConcat([], CallsOf(w1, events[1..], j), Timer);
      }
    }
  }

  lemma TickTimes(s: Src, now: nat, highest: nat, g: Steps)
    requires Fits(s) && highest < UINT64
    ensures CountOf(ByteCalls(s, highest) + TimerCalls(s, now), Timer) == if now >= s.lastCc + PERIOD then 1 else 0
    ensures Ticked(s, now, highest, g).lastCc == if now >= s.lastCc + PERIOD then now else s.lastCc
  {
    var none: seq<Cause> := [];
    assert [Bytes][..0] == none && [Timer][..0] == none;
    CountConcat(ByteCalls(s, highest), TimerCalls(s, now), Timer);
  }

  /** In time: a source with enough ticks a period apart after its CNP is back at line rate. */
  lemma RecoveryInTime(w: World, j: nat, now: nat, events: seq<Event>)
    requires WorldSound(w) && j < |w.srcs| && LeavesAlone(events, j, w.shared.steps)
    requires IsRun(Next(w, Cnp(j, now)), events)
    requires w.srcs[j].r.link >= 20 && w.shared.steps.rai == w.srcs[j].r.link / 20
    requires PeriodTicks(events, j, now) >= 2 * F + 78
    ensures RunOf(Next(w, Cnp(j, now)), events).srcs[j].r.rc == w.srcs[j].r.link
  {
    var w0 := Next(w, Cnp(j, now));
    TimerCallsAre(w0, events, j);
    CountsAddUp(CallsOf(w0, events, j));
    RecoveryInAnyRun(w, j, now, events);
    LinkStays(w0, events, j);
  }

  lemma LinkStays(w: World, events: seq<Event>, j: nat)
    requires WorldSound(w) && IsRun(w, events) && j < |w.srcs| && LeavesAlone(events, j, w.shared.steps)
    ensures j < |RunOf(w, events).srcs| && RunOf(w, events).srcs[j].r.link == w.srcs[j].r.link
  {
    RatesFollow(w, events, j);
    AfterGrows(w.srcs[j].r, CallsOf(w, events, j), w.shared.steps);
  }

  // ---------------------------------------------------------------- what the counters count

  /** Since the CNP at time `since`, the byte counter claims at most `limit` packets and the timer no more than the time
      that has passed. */
  predicate Honest(s: Src, limit: int, since: nat) {
    && s.r.bc * B + s.bytes <= limit && s.bytes < B
    && s.r.t * PERIOD <= s.lastCc - since
  }

  /** The packets sent when `_highest_sent` moves on to `highest`; a retransmission counts as sent. */
  function Forward(s: Src, highest: nat): nat {
    if highest >= s.highest then highest - s.highest else 0
  }

  function SentBy(w: World, e: Event, j: nat): nat
    requires j < |w.srcs|
  {
    if e.Tick? && e.i == j then Forward(w.srcs[j], e.highest) else 0
  }

  /** The byte counter would go below zero. */
  predicate Underflows(s: Src, highest: nat) {
    s.bytes + highest < s.oldHighest
  }

  /** The byte counter calls for an increase when B has been sent, and also whenever it would go below zero. */
  lemma FiresIff(s: Src, highest: nat)
    requires s.bytes < B && s.oldHighest <= UINT64 - B && highest < UINT64 - B
    ensures ByteCalls(s, highest) == [Bytes] <==> s.bytes + highest - s.oldHighest >= B || Underflows(s, highest)
  {
  }

  lemma CnpStartsHonest(s: Src, alpha: real, now: nat)
    requires 0.0 <= alpha <= 1.0
    ensures Honest(Notified(s, alpha, now), 0, now)
  {
  }

  lemma CalledCounts(r: Rates, calls: seq<Cause>, g: Steps)
    requires |calls| <= 1
    ensures var r' := After(r, calls, g);
            if calls == [] then r' == r
            else if calls[0].Bytes? then r'.t == r.t && r'.bc == Next16(r.bc) else r'.t == Next16(r.t) && r'.bc == r.bc
  {
    if calls != [] {
      assert calls[..|calls| - 1] == [];
    }
  }

  /** An underflow is covered: the extra step of the byte counter claims no more than was sent. */
  predicate Covered(s: Src, highest: nat, sent: nat) {
    !Underflows(s, highest) || Next16(s.r.bc) * B <= sent
  }

  /** What a tick does to the counters. */
  lemma TickCounts(s: Src, now: nat, highest: nat, g: Steps)
    requires Fits(s) && highest < UINT64 && s.bytes < B
    ensures var s', fires := Ticked(s, now, highest, g), Counted(s, highest) >= B;
            && s'.r.bc == (if fires then Next16(s.r.bc) else s.r.bc)
            && s'.bytes == (if fires then 0 else Counted(s, highest))
            && s'.r.t == (if now - s.lastCc >= PERIOD then Next16(s.r.t) else s.r.t)
            && s'.oldHighest == s'.highest == highest
  {
    CalledCounts(s.r, ByteCalls(s, highest), g);
    CalledCounts(After(s.r, ByteCalls(s, highest), g), TimerCalls(s, now), g);
  }

  /** A tick without underflow claims at most the advance of `_highest_sent` more. */
  lemma TickClaims(s: Src, now: nat, highest: nat, g: Steps, limit: int, since: nat)
    requires Fits(s) && highest < UINT64 && Honest(s, limit, since) && !Underflows(s, highest)
    ensures Honest(Ticked(s, now, highest, g), limit + highest - s.oldHighest, since)
  {
    TickCounts(s, now, highest, g);
  }

  /** A tick keeps the counters honest exactly when it does not underflow or the underflow is covered by what has been
      sent, this tick included. */
  lemma TickHonestIff(s: Src, now: nat, highest: nat, g: Steps, sent: nat, since: nat)
    requires Fits(s) && highest < UINT64 && s.highest <= s.oldHighest <= UINT64 - B && Honest(s, sent, since)
    ensures var sent' := sent + Forward(s, highest);
            Honest(Ticked(s, now, highest, g), sent', since) <==> Covered(s, highest, sent')
  {
    TickCounts(s, now, highest, g);
  }

  /** The byte counter of source `j` claims no more than what was sent, and the timer no more than the time passed,
      before and after every event of the run; `sent` packets were sent before it. */
  ghost predicate AlwaysHonest(w: World, events: seq<Event>, j: nat, sent: nat, since: nat)
    requires WorldSound(w) && IsRun(w, events) && j < |w.srcs|
    decreases |events|
  {
    && Honest(w.srcs[j], sent, since)
    && (events == []
        || AlwaysHonest(Next(w, events[0]), events[1..], j, sent + SentBy(w, events[0], j), since))
  }

  ghost predicate AlwaysCovered(w: World, events: seq<Event>, j: nat, sent: nat)
    requires WorldSound(w) && IsRun(w, events) && j < |w.srcs|
    decreases |events|
  {
    events == []
    || (var sent' := sent + SentBy(w, events[0], j);
        && (events[0].Tick? && events[0].i == j ==> Covered(w.srcs[j], events[0].highest, sent'))
        && AlwaysCovered(Next(w, events[0]), events[1..], j, sent'))
  }

  /** A NACK to source `j` acknowledges no more than was sent last, so it goes back. */
  ghost predicate NacksGoBack(w: World, events: seq<Event>, j: nat)
    requires WorldSound(w) && IsRun(w, events) && j < |w.srcs|
    decreases |events|
  {
    events == []
    || (&& (events[0].Nack? && events[0].i == j ==> events[0].ackno <= w.srcs[j].highest)
        && NacksGoBack(Next(w, events[0]), events[1..], j))
  }

  /** No tick of source `j` in the run makes its byte counter go below zero. */
  ghost predicate NoUnderflow(w: World, events: seq<Event>, j: nat)
    requires WorldSound(w) && IsRun(w, events) && j < |w.srcs|
    decreases |events|
  {
    events == []
    || (&& (events[0].Tick? && events[0].i == j ==> !Underflows(w.srcs[j], events[0].highest))
        && NoUnderflow(Next(w, events[0]), events[1..], j))
  }

  /** Sequence numbers leave room for one more `B` in 64 bits. */
  predicate LeavesRoom(events: seq<Event>) {
    forall n :: 0 <= n < |events| && events[n].Tick? ==> events[n].highest <= UINT64 - B
  }

  lemma {:induction false} HonestFrom(w: World, events: seq<Event>, j: nat, sent: nat, since: nat)
    requires WorldSound(w) && IsRun(w, events) && j < |w.srcs| && NoCnp(events, j)
    requires NacksGoBack(w, events, j) && LeavesRoom(events)
    requires w.srcs[j].highest <= w.srcs[j].oldHighest <= UINT64 - B && Honest(w.srcs[j], sent, since)
    ensures AlwaysHonest(w, events, j, sent, since) <==> AlwaysCovered(w, events, j, sent)
    decreases |events|
  {
    if events != [] {
      var e, w1, sent' := events[0], Next(w, events[0]), sent + SentBy(w, events[0], j);
      if e.Tick? && e.i == j {
        TickHonestIff(w.srcs[j], e.now, e.highest, w.shared.steps, sent, since);
      }
      if Honest(w1.srcs[j], sent', since) {
        HonestFrom(w1, events[1..], j, sent', since);
      }
    }
  }

  /** From a CNP to source `j` to the next one, in any run: the byte counter never claims more than was sent since the
      CNP, retransmissions included, and the timer never more than the time passed, if and only if every underflow of
      the byte counter is covered by what was sent. */
  lemma CountersHonestIff(w: World, j: nat, now: nat, events: seq<Event>)
    requires WorldSound(w) && j < |w.srcs| && IsRun(Next(w, Cnp(j, now)), events) && NoCnp(events, j)
    requires NacksGoBack(Next(w, Cnp(j, now)), events, j)
    requires w.srcs[j].highest <= UINT64 - B && LeavesRoom(events)
    ensures var w0 := Next(w, Cnp(j, now)); AlwaysHonest(w0, events, j, 0, now) <==> AlwaysCovered(w0, events, j, 0)
  {
    CnpStartsHonest(w.srcs[j], w.shared.alpha, now);
    HonestFrom(Next(w, Cnp(j, now)), events, j, 0, now);
  }

  /** The byte counter claims no more than `_highest_sent` has advanced since it was `start`, throughout the run. */
  ghost predicate AlwaysWithinAdvance(w: World, events: seq<Event>, j: nat, start: nat, since: nat)
    requires WorldSound(w) && IsRun(w, events) && j < |w.srcs|
    decreases |events|
  {
    && Honest(w.srcs[j], w.srcs[j].oldHighest - start, since)
    && (events == [] || AlwaysWithinAdvance(Next(w, events[0]), events[1..], j, start, since))
  }

  lemma {:induction false} WithinAdvance(w: World, events: seq<Event>, j: nat, start: nat, since: nat)
    requires WorldSound(w) && IsRun(w, events) && j < |w.srcs| && NoCnp(events, j) && NoUnderflow(w, events, j)
    requires Honest(w.srcs[j], w.srcs[j].oldHighest - start, since)
    ensures AlwaysWithinAdvance(w, events, j, start, since)
    decreases |events|
  {
    if events != [] {
      var e, s := events[0], w.srcs[j];
      if e.Tick? && e.i == j && !Underflows(s, e.highest) {
        TickClaims(s, e.now, e.highest, w.shared.steps, s.oldHighest - start, since);
        TickCounts(s, e.now, e.highest, w.shared.steps);
      }
      WithinAdvance(Next(w, e), events[1..], j, start, since);
    }
  }

  /** Without underflow the claim is even within the net advance of `_highest_sent`, whatever the NACKs and the sequence
      numbers. */
  lemma CountersHonest(w: World, j: nat, now: nat, events: seq<Event>)
    requires WorldSound(w) && j < |w.srcs| && IsRun(Next(w, Cnp(j, now)), events) && NoCnp(events, j)
    requires NoUnderflow(Next(w, Cnp(j, now)), events, j)
    ensures AlwaysWithinAdvance(Next(w, Cnp(j, now)), events, j, w.srcs[j].highest, now)
  {
    CnpStartsHonest(w.srcs[j], w.shared.alpha, now);
    WithinAdvance(Next(w, Cnp(j, now)), events, j, w.srcs[j].highest, now);
  }

  /** Going back after a CNP underflows: with nothing sent since, the next tick counts a full B and raises the rate. */
  lemma GoBackRaisesRate(s: Src, alpha: real, now: nat, ackno: nat, g: Steps)
    requires 0.0 <= alpha <= 1.0 && Sound(s.r) && Fits(s) && ackno < s.highest < UINT64 - B
    ensures var back := Notified(s, alpha, now).(highest := ackno);
            var s' := Ticked(back, now, ackno, g);
            && s'.r.bc == 1 && Forward(back, ackno) == 0 && !Honest(s', 0, now)
            && (back.r.rc + 1 < back.r.rt ==> s'.r.rc > back.r.rc)
  {
    var back := Notified(s, alpha, now).(highest := ackno);
    FiresIff(back, ackno);
    assert TimerCalls(back, now) == [];
    assert [Bytes][..0] == [];
    assert After(back.r, [Bytes], g) == Called(back.r, Bytes, g);
  }

  /** All packets that source `j` sent during a run. */
  ghost function SentIn(w: World, events: seq<Event>, j: nat): nat
    requires WorldSound(w) && IsRun(w, events) && j < |w.srcs|
    decreases |events|
  {
    if events == [] then 0 else SentBy(w, events[0], j) + SentIn(Next(w, events[0]), events[1..], j)
  }

  /** The run takes world `w` to `w'`, and source 0 sends `sent` packets on the way. */
  ghost predicate Leads(w: World, events: seq<Event>, w': World, sent: nat) {
    WorldSound(w) && |w.srcs| > 0 && IsRun(w, events) && RunOf(w, events) == w' && SentIn(w, events, 0) == sent
  }

  lemma LeadsNowhere(w: World)
    requires WorldSound(w) && |w.srcs| > 0
    ensures Leads(w, [], w, 0)
  {
  }

  lemma LeadsCons(w: World, e: Event, w1: World, rest: seq<Event>, w': World, sent: nat)
    requires WorldSound(w) && |w.srcs| > 0 && Legal(w, e) && w1 == Next(w, e) && Leads(w1, rest, w', sent)
    ensures Leads(w, [e] + rest, w', SentBy(w, e, 0) + sent)
  {
    var events := [e] + rest;
    assert events[0] == e && events[1..] == rest;
  }

  lemma {:induction false} LeadsOn(w: World, a: seq<Event>, m: World, n: nat, b: seq<Event>, w': World, sent: nat)
    requires Leads(w, a, m, n) && Leads(m, b, w', sent)
    ensures Leads(w, a + b, w', n + sent)
    decreases |a|
  {
    if a == [] {
      assert a + b == b;
    } else {
      var w1 := Next(w, a[0]);
      LeadsOn(w1, a[1..], m, n - SentBy(w, a[0], 0), b, w', sent);
      LeadsCons(w, a[0], w1, a[1..] + b, w', n - SentBy(w, a[0], 0) + sent);
      assert a + b == [a[0]] + (a[1..] + b);
    }
  }

  /** The counters of source 0 at time `now`, the time of its CNP. */
  ghost predicate At(w: World, now: nat, bc: nat, bytes: nat, oldHighest: nat, highest: nat) {
    && WorldSound(w) && |w.srcs| > 0 && w.srcs[0].r.bc == bc && w.srcs[0].bytes == bytes
    && w.srcs[0].oldHighest == oldHighest && w.srcs[0].highest == highest
    && w.srcs[0].r.t == 0 && w.srcs[0].lastCc == now
  }

  lemma NackTo(w: World, now: nat, bc: nat, bytes: nat, oldHighest: nat, highest: nat, ackno: nat) returns (w': World)
    requires At(w, now, bc, bytes, oldHighest, highest) && ackno < UINT64
    ensures Leads(w, [Nack(0, ackno)], w', 0) && At(w', now, bc, bytes, oldHighest, ackno)
  {
    w' := Next(w, Nack(0, ackno));
    LeadsNowhere(w');
    LeadsCons(w, Nack(0, ackno), w', [], w', 0);
    assert [Nack(0, ackno)] + [] == [Nack(0, ackno)];
  }

  lemma TickTo(w: World, now: nat, bc: nat, bytes: nat, oldHighest: nat, highest: nat, to: nat) returns (w': World)
    requires At(w, now, bc, bytes, oldHighest, highest)
    requires highest <= to < UINT64 - B && bytes < B && oldHighest < UINT64 - B
    ensures Leads(w, [Tick(0, now, to)], w', to - highest)
    ensures if bytes + to - oldHighest >= B || bytes + to < oldHighest then At(w', now, Next16(bc), 0, to, to)
            else At(w', now, bc, bytes + to - oldHighest, to, to)
  {
    var e := Tick(0, now, to);
    TickCounts(w.srcs[0], now, to, w.shared.steps);
    w' := Next(w, e);
    LeadsNowhere(w');
    LeadsCons(w, e, w', [], w', 0);
    assert [e] + [] == [e];
  }

  /** A covered underflow.  Source 0 is at packet 1000 at the CNP and goes back twice.  Its last tick underflows and
      counts a second B although `_highest_sent` has advanced by less than one, but 20_000_001 packets were sent: the
      byte counter does not claim too much. */
  lemma CoveredUnderflow(w: World, now: nat) returns (w0: World, w': World, w'': World)
    requires WorldSound(w) && |w.srcs| > 0 && w.srcs[0].highest == 1_000
    ensures w0 == Next(w, Cnp(0, now))
    ensures Leads(w0, [Tick(0, now, 9_001_000), Nack(0, 1_000), Tick(0, now, 1_001), Tick(0, now, 9_001_000),
                       Tick(0, now, 10_001_000), Tick(0, now, 11_001_000), Nack(0, 9_501_000)], w', 20_000_000)
    ensures Leads(w', [Tick(0, now, 9_501_001)], w'', 1) && Underflows(w'.srcs[0], 9_501_001)
    ensures var s := w''.srcs[0];
            s.oldHighest - 1_000 < B && s.r.bc * B + s.bytes == 20_000_000 && Honest(s, 20_000_001, now)
  {
    w0 := Next(w, Cnp(0, now));
    var w3 := FirstBack(w0, now);
    w' := SecondBack(w3, now);
    w'' := TickTo(w', now, 1, 1_000_000, 11_001_000, 9_501_000, 9_501_001);
    var a, b := [Tick(0, now, 9_001_000), Nack(0, 1_000), Tick(0, now, 1_001)],
                [Tick(0, now, 9_001_000), Tick(0, now, 10_001_000), Tick(0, now, 11_001_000), Nack(0, 9_501_000)];
    LeadsOn(w0, a, w3, 9_000_001, b, w', 10_999_999);
    assert a + b == [Tick(0, now, 9_001_000), Nack(0, 1_000), Tick(0, now, 1_001), Tick(0, now, 9_001_000),
                     Tick(0, now, 10_001_000), Tick(0, now, 11_001_000), Nack(0, 9_501_000)];
  }

  lemma FirstBack(w: World, now: nat) returns (w': World)
    requires At(w, now, 0, 0, 1_000, 1_000)
    ensures Leads(w, [Tick(0, now, 9_001_000), Nack(0, 1_000), Tick(0, now, 1_001)], w', 9_000_001)
    ensures At(w', now, 0, 1, 1_001, 1_001)
  {
    var a, b, c := Tick(0, now, 9_001_000), Nack(0, 1_000), Tick(0, now, 1_001);
    var w1 := TickTo(w, now, 0, 0, 1_000, 1_000, 9_001_000);
    var w2 := NackTo(w1, now, 0, 9_000_000, 9_001_000, 9_001_000, 1_000);
    w' := TickTo(w2, now, 0, 9_000_000, 9_001_000, 1_000, 1_001);
    LeadsOn(w, [a], w1, 9_000_000, [b], w2, 0);
    LeadsOn(w, [a] + [b], w2, 9_000_000, [c], w', 1);
    assert [a] + [b] + [c] == [a, b, c];
  }

  lemma SecondBack(w: World, now: nat) returns (w': World)
    requires At(w, now, 0, 1, 1_001, 1_001)
    ensures Leads(w, [Tick(0, now, 9_001_000), Tick(0, now, 10_001_000), Tick(0, now, 11_001_000), Nack(0, 9_501_000)],
                  w', 10_999_999)
    ensures At(w', now, 1, 1_000_000, 11_001_000, 9_501_000)
  {
    var a, b, c, d := Tick(0, now, 9_001_000), Tick(0, now, 10_001_000), Tick(0, now, 11_001_000), Nack(0, 9_501_000);
    var w1 := TickTo(w, now, 0, 1, 1_001, 1_001, 9_001_000);
    var w2 := TickTo(w1, now, 0, 9_000_000, 9_001_000, 9_001_000, 10_001_000);
    var w3 := TickTo(w2, now, 1, 0, 10_001_000, 10_001_000, 11_001_000);
    w' := NackTo(w3, now, 1, 1_000_000, 11_001_000, 11_001_000, 9_501_000);
    LeadsOn(w, [a], w1, 8_999_999, [b], w2, 1_000_000);
    LeadsOn(w, [a] + [b], w2, 9_999_999, [c], w3, 1_000_000);
    LeadsOn(w, [a] + [b] + [c], w3, 10_999_999, [d], w', 0);
    assert [a] + [b] + [c] + [d] == [a, b, c, d];
  }

  // ---------------------------------------------------------------- the decay of alpha

  function Power(n: nat): real {
    if n == 0 then 1.0 else Power(n - 1) * (1.0 - G)
  }

  /** A tick at least one period after the last CNP to its source. */
  predicate IsLate(w: World, e: Event) {
    e.Tick? && e.i < |w.srcs| && e.now >= w.srcs[e.i].lastAlpha + PERIOD
  }

  ghost function LateTicks(w: World, events: seq<Event>): nat
    requires WorldSound(w) && IsRun(w, events)
    decreases |events|
  {
    if events == [] then 0 else (if IsLate(w, events[0]) then 1 else 0) + LateTicks(Next(w, events[0]), events[1..])
  }

  /** `n` decays, one by one ... */
  function DecayBy(alpha: real, n: nat): real
    decreases n
  {
    if n == 0 then alpha else DecayBy((1.0 - G) * alpha, n - 1)
  }

  /** ... multiply alpha by `(1 - g)^n`. */
  lemma {:induction false} DecayIsPower(alpha: real, n: nat)
    ensures DecayBy(alpha, n) == alpha * Power(n)
    decreases n
  {
    if n > 0 {
      DecayIsPower((1.0 - G) * alpha, n - 1);
      Regroup(alpha, 1.0 - G, Power(n - 1));
    }
  }

  lemma Regroup(a: real, g: real, p: real)
    ensures (g * a) * p == a * (p * g)
  {
  }

  /** Between CNPs, whatever the interleaving, alpha has decayed once for every late tick of any source. */
  lemma {:induction false} AlphaDecaysEveryEvent(w: World, events: seq<Event>)
    requires WorldSound(w) && IsRun(w, events) && forall n :: 0 <= n < |events| ==> !events[n].Cnp?
    ensures RunOf(w, events).shared.alpha == DecayBy(w.shared.alpha, LateTicks(w, events))
    decreases |events|
  {
    if events != [] {
      AlphaAfter(w, events[0]);
      AlphaDecaysEveryEvent(Next(w, events[0]), events[1..]);
    }
  }

  lemma AlphaAfter(w: World, e: Event)
    requires WorldSound(w) && Legal(w, e) && !e.Cnp?
    ensures Next(w, e).shared.alpha == if IsLate(w, e) then (1.0 - G) * w.shared.alpha else w.shared.alpha
  {
  }

  /** The events of a run that move alpha: CNPs are true, late ticks of any source false. */
  ghost function Signals(w: World, events: seq<Event>): seq<bool>
    requires WorldSound(w) && IsRun(w, events)
    decreases |events|
  {
    if events == [] then []
    else
      (if events[0].Cnp? then [true] else if IsLate(w, events[0]) then [false] else [])
      + Signals(Next(w, events[0]), events[1..])
  }

  /** Each CNP weighs g, decayed once for every signal after it. */
  function Weight(signals: seq<bool>): real {
    if signals == [] then 0.0
    else (if signals[0] then DecayBy(G, |signals| - 1) else 0.0) + Weight(signals[1..])
  }

  function Blended(alpha: real, cnp: bool): real {
    (1.0 - G) * alpha + if cnp then G else 0.0
  }

  /** Alpha after some signals, one by one ... */
  function Blend(alpha: real, signals: seq<bool>): real
    decreases |signals|
  {
    if signals == [] then alpha else Blend(Blended(alpha, signals[0]), signals[1..])
  }

  /** ... is the exponentially weighted average of what it was and the signals since. */
  lemma {:induction false} BlendIsAverage(alpha: real, signals: seq<bool>)
    ensures Blend(alpha, signals) == DecayBy(alpha, |signals|) + Weight(signals)
    decreases |signals|
  {
    if signals != [] {
      BlendIsAverage(Blended(alpha, signals[0]), signals[1..]);
      DecayAdds((1.0 - G) * alpha, G, |signals| - 1);
    }
  }

  lemma {:induction false} DecayAdds(a: real, b: real, n: nat)
    ensures DecayBy(a + b, n) == DecayBy(a, n) + DecayBy(b, n)
    decreases n
  {
    if n > 0 {
      DecayAdds((1.0 - G) * a, (1.0 - G) * b, n - 1);
    }
  }

  /** In every run, CNPs included, alpha follows the signals. */
  lemma {:induction false} AlphaFollows(w: World, events: seq<Event>)
    requires WorldSound(w) && IsRun(w, events)
    ensures RunOf(w, events).shared.alpha == Blend(w.shared.alpha, Signals(w, events))
    decreases |events|
  {
    if events != [] {
      var e, w1 := events[0], Next(w, events[0]);
      AlphaFollows(w1, events[1..]);
      AlphaMoves(w, e);
      if e.Cnp? || IsLate(w, e) {
        assert Signals(w, events)[1..] == Signals(w1, events[1..]);
      } else {
        assert Signals(w, events) == Signals(w1, events[1..]);
      }
    }
  }

  lemma AlphaMoves(w: World, e: Event)
    requires WorldSound(w) && Legal(w, e)
    ensures Next(w, e).shared.alpha
            == if e.Cnp? || IsLate(w, e) then Blended(w.shared.alpha, e.Cnp?) else w.shared.alpha
  {
  }

  /** So `n` CNPs without late ticks between leave a share of (1 - g)^n of what was missing to 1. */
  lemma {:induction false} OnlyCnps(alpha: real, signals: seq<bool>)
    requires forall i :: 0 <= i < |signals| ==> signals[i]
    ensures 1.0 - Blend(alpha, signals) == DecayBy(1.0 - alpha, |signals|)
    decreases |signals|
  {
    if signals != [] {
      OnlyCnps(Blended(alpha, true), signals[1..]);
      assert 1.0 - Blended(alpha, true) == (1.0 - G) * (1.0 - alpha);
    }
  }

  /** The times at which a tick of source `j` changes alpha. */
  ghost function DecaysOf(w: World, events: seq<Event>, j: nat): seq<nat>
    requires WorldSound(w) && IsRun(w, events) && j < |w.srcs|
    decreases |events|
  {
    if events == [] then []
    else
      var e, w1 := events[0], Next(w, events[0]);
      (if e.Tick? && e.i == j && w1.shared.alpha != w.shared.alpha then [e.now] else []) + DecaysOf(w1, events[1..], j)
  }

  /** The times of the ticks of source `j` from `from` on. */
  function TicksFrom(events: seq<Event>, j: nat, from: nat): seq<nat> {
    if events == [] then []
    else
      (if events[0].Tick? && events[0].i == j && events[0].now >= from then [events[0].now] else [])
      + TicksFrom(events[1..], j, from)
  }

  predicate OncePerPeriod(times: seq<nat>) {
    forall m, n :: 0 <= m < n < |times| ==> times[m] + PERIOD <= times[n]
  }

  lemma AlphaStaysPositive(w: World, e: Event)
    requires WorldSound(w) && Legal(w, e) && w.shared.alpha > 0.0
    ensures Next(w, e).shared.alpha > 0.0
    ensures e.Tick? ==> (Next(w, e).shared.alpha != w.shared.alpha <==> IsLate(w, e))
  {
  }

  lemma {:induction false} DecaysAreLateTicks(w: World, events: seq<Event>, j: nat)
    requires WorldSound(w) && IsRun(w, events) && j < |w.srcs| && w.shared.alpha > 0.0 && NoCnp(events, j)
    ensures DecaysOf(w, events, j) == TicksFrom(events, j, w.srcs[j].lastAlpha + PERIOD)
    decreases |events|
  {
    if events != [] {
      AlphaStaysPositive(w, events[0]);
      assert Next(w, events[0]).srcs[j].lastAlpha == w.srcs[j].lastAlpha;
      DecaysAreLateTicks(Next(w, events[0]), events[1..], j);
    }
  }

  /** From a CNP to source `j` to the next one, in any run of any sources: the source decays alpha at most once a
      period if and only if no two of its ticks later than a period after the CNP are closer than a period. */
  lemma OncePerPeriodIff(w: World, j: nat, now: nat, events: seq<Event>)
    requires WorldSound(w) && j < |w.srcs| && IsRun(Next(w, Cnp(j, now)), events) && NoCnp(events, j)
    ensures OncePerPeriod(DecaysOf(Next(w, Cnp(j, now)), events, j))
            <==> OncePerPeriod(TicksFrom(events, j, now + PERIOD))
  {
    var w0 := Next(w, Cnp(j, now));
    AlphaStays(w.shared.alpha);
    assert w0.shared.alpha > 0.0;
    DecaysAreLateTicks(w0, events, j);
  }

  /** Two events one picosecond apart, a period after the CNP, decay alpha twice. */
  lemma TwiceInAPeriod(w: World, now: nat)
    requires WorldSound(w) && |w.srcs| > 0
    ensures var w0 := Next(w, Cnp(0, now));
            var events := [Tick(0, now + PERIOD, 0), Tick(0, now + PERIOD + 1, 0)];
            && IsRun(w0, events) && DecaysOf(w0, events, 0) == [now + PERIOD, now + PERIOD + 1]
            && !OncePerPeriod(DecaysOf(w0, events, 0))
  {
    var w0 := Next(w, Cnp(0, now));
    var a, b := Tick(0, now + PERIOD, 0), Tick(0, now + PERIOD + 1, 0);
    var w1 := Next(w0, a);
    var w2 := Next(w1, b);
    LeadsNowhere(w2);
    LeadsCons(w1, b, w2, [], w2, 0);
    LeadsCons(w0, a, w1, [b] + [], w2, SentBy(w1, b, 0) + 0);
    assert [a] + ([b] + []) == [a, b];
    AlphaStays(w.shared.alpha);
    assert w0.shared.alpha > 0.0 && w0.srcs[0].lastAlpha == now;
    DecaysAreLateTicks(w0, [a, b], 0);
    TwoTicks(a, b, now + PERIOD);
    TooClose(a.now, b.now);
  }

  lemma TooClose(a: nat, b: nat)
    requires b < a + PERIOD
    ensures !OncePerPeriod([a, b])
  {
    var times := [a, b];
    assert times[0] + PERIOD > times[1];
  }

  lemma TwoTicks(a: Event, b: Event, from: nat)
    requires a.Tick? && b.Tick? && a.i == b.i == 0 && from <= a.now && from <= b.now
    ensures TicksFrom([a, b], 0, from) == [a.now, b.now]
  {
    assert [a, b][1..] == [b] && [b][1..] == [];
    assert TicksFrom([b], 0, from) == [b.now] + TicksFrom([], 0, from);
  }
}
