/**
 Ring all-reduce (gen_allreduce.py).  Chunk `s` of a group of `g` nodes travels round the ring in a chain of
 `2g - 1` flows, each started by a one-shot trigger that the flow before it fires when it is done.
 */
module Ring {
  import opened Arith
  import opened Rows
  import opened TriggerGraph

  // ---------------------------------------------------------------- the emitted file

  /** The chain of one chunk: its group, the member it starts at, and the flows and triggers emitted before it. */
  datatype Chain = Chain(members: seq<nat>, s: nat, size: int, flowsBefore: nat, firedBefore: nat)

  ghost predicate ValidChain(c: Chain) {
    && c.s < |c.members|
    && forall i, j :: 0 <= i < j < |c.members| ==> c.members[i] != c.members[j]
  }

  /** The node `x` places round the ring from the start. */
  function Stop(c: Chain, x: nat): nat
    requires |c.members| >= 1
  {
    c.members[Rem(c.s + x, |c.members|)]
  }

  function ChainFlow(c: Chain, d: nat): Flow
    requires |c.members| >= 1 && d >= 1
  {
    Flow(Stop(c, d - 1), Stop(c, d), c.flowsBefore + d,
         if d == 1 then At(0) else OnTrigger(c.firedBefore + d - 1),
         c.size,
         if d == 2 * |c.members| - 1 then Quiet else SendDone(c.firedBefore + d))
  }

  /** All flows of a chunk. */
  function ChunkFlows(c: Chain): (lines: seq<Flow>)
    requires |c.members| >= 1
    ensures |lines| == 2 * |c.members| - 1
  {
    seq(2 * |c.members| - 1, i requires 0 <= i => ChainFlow(c, i + 1))
  }

  /** `members` lists the nodes of each group in ring order, after the shuffle and the optional sort. */
  ghost predicate Placed(members: seq<seq<nat>>, g: nat) {
    g >= 1 && forall k :: 0 <= k < |members| ==> |members[k]| == g
  }

  function ChainCount(members: seq<seq<nat>>, g: nat): nat {
    Times(|members|, g)
  }

  /** Chain `r` of the file is chunk `r % g` of group `r / g`. */
  function ChainOf(members: seq<seq<nat>>, g: nat, size: int, r: nat): (c: Chain)
    requires Placed(members, g) && r < ChainCount(members, g)
    ensures |c.members| == g && c.s < g && c.size == size
    ensures c.flowsBefore == Times(r, 2 * g - 1) && c.firedBefore == Times(r, 2 * g - 2)
  {
    RowInGroups(r, |members|, g);
    Chain(members[Quot(r, g)], Rem(r, g), size, Times(r, 2 * g - 1), Times(r, 2 * g - 2))
  }

  function FlowCount(members: seq<seq<nat>>, g: nat): nat
    requires g >= 1
  {
    Times(ChainCount(members, g), 2 * g - 1)
  }

  /** Flow `i` of the file: `2g - 1` flows a chain. */
  function FlowNo(members: seq<seq<nat>>, g: nat, size: int, i: nat): Flow
    requires Placed(members, g) && i < FlowCount(members, g)
  {
    RowInGroups(i, ChainCount(members, g), 2 * g - 1);
    ChainFlow(ChainOf(members, g, size, Quot(i, 2 * g - 1)), Rem(i, 2 * g - 1) + 1)
  }

  function FlowsOf(members: seq<seq<nat>>, g: nat, size: int): (flows: seq<Flow>)
    requires Placed(members, g)
    ensures |flows| == FlowCount(members, g)
  {
    seq(FlowCount(members, g), i requires 0 <= i < FlowCount(members, g) => FlowNo(members, g, size, i))
  }

  function FileOf(members: seq<seq<nat>>, g: nat, size: int): Plan
    requires Placed(members, g)
  {
    Plan(OneShot, FlowsOf(members, g, size))
  }

  /** Position of flow `d` of chain `r`. */
  function IndexOf(g: nat, r: nat, d: nat): nat
    requires g >= 1 && d >= 1
  {
    Times(r, 2 * g - 1) + (d - 1)
  }

  lemma FlowNoIs(members: seq<seq<nat>>, g: nat, size: int, r: nat, d: nat)
    requires Placed(members, g) && r < ChainCount(members, g) && 1 <= d <= 2 * g - 1
    ensures IndexOf(g, r, d) < FlowCount(members, g)
    ensures FlowNo(members, g, size, IndexOf(g, r, d)) == ChainFlow(ChainOf(members, g, size, r), d)
  {
    RowOfGroup(r, 2 * g - 1, d - 1);
    GroupInRange(r, ChainCount(members, g), 2 * g - 1, d - 1);
  }

  /** The two counts at the head of the file, and the number of groups. */
  method Header(conns: nat, groupsize: nat) returns (connections: int, triggers: int, groups: nat)
    requires groupsize >= 1
    ensures groups == conns / groupsize
    ensures connections == Times(Times(groups, groupsize), 2 * groupsize - 1) <==> conns % groupsize == 0
    ensures triggers == Times(Times(groups, groupsize), 2 * groupsize - 2) <==> conns % groupsize == 0 || groupsize == 1
  {
    connections := conns * (2 * groupsize - 1);
    triggers := conns * (2 * groupsize - 2);
    groups := conns / groupsize;
    TimesIs(groups, groupsize);
    TimesIs(groups * groupsize, 2 * groupsize - 1);
    TimesIs(groups * groupsize, 2 * groupsize - 2);
    HeaderIff(conns, groupsize, groups);
  }

  lemma HeaderIff(conns: nat, g: nat, groups: nat)
    requires g >= 1 && groups == conns / g
    ensures conns * (2 * g - 1) == (groups * g) * (2 * g - 1) <==> conns % g == 0
    ensures conns * (2 * g - 2) == (groups * g) * (2 * g - 2) <==> conns % g == 0 || g == 1
  {
    var r := conns % g;
    assert conns == groups * g + r;
    Distribute(groups * g, r, 2 * g - 1);
    Distribute(groups * g, r, 2 * g - 2);
    if r > 0 {
      MulMonotone(1, r, 2 * g - 1);
      MulMonotone(1, r, 2 * g - 2);
    }
  }

  method Modulo(a: nat, n: nat) returns (r: nat)
    requires n >= 1
    ensures r == Rem(a, n)
  {
    QuotIs(a, n);
    r := a % n;
  }

  /** The lines emitted so far are the first of the file. */
  ghost predicate IsPrefix(flows: seq<Flow>, members: seq<seq<nat>>, g: nat, size: int)
    requires Placed(members, g)
  {
    |flows| <= FlowCount(members, g) && forall i :: 0 <= i < |flows| ==> flows[i] == FlowNo(members, g, size, i)
  }

  ghost predicate IsChain(lines: seq<Flow>, c: Chain, n: nat)
    requires |c.members| >= 1
  {
    |lines| == n && forall i :: 0 <= i < n ==> lines[i] == ChainFlow(c, i + 1)
  }

  lemma AppendChain(flows: seq<Flow>, lines: seq<Flow>, members: seq<seq<nat>>, g: nat, size: int, r: nat)
    requires Placed(members, g) && r < ChainCount(members, g)
    requires IsPrefix(flows, members, g, size) && |flows| == Times(r, 2 * g - 1)
    requires IsChain(lines, ChainOf(members, g, size, r), 2 * g - 1)
    ensures IsPrefix(flows + lines, members, g, size)
  {
    forall i: nat | i < |lines|
      ensures |flows| + i < FlowCount(members, g) && lines[i] == FlowNo(members, g, size, |flows| + i)
    {
      FlowNoIs(members, g, size, r, i + 1);
    }
    FlowNoIs(members, g, size, r, 2 * g - 1);
    forall i | 0 <= i < |flows + lines| ensures (flows + lines)[i] == FlowNo(members, g, size, i) {
      if i >= |flows| {
        assert (flows + lines)[i] == lines[i - |flows|];
      }
    }
  }

  /** The emission loops, given the groups in ring order; `trigId` ends one past the last trigger declared. */
  method Emit(members: seq<seq<nat>>, groupsize: nat, flowsize: int) returns (flows: seq<Flow>, trigId: nat)
    requires Placed(members, groupsize)
    ensures flows == FlowsOf(members, groupsize, flowsize)
    ensures trigId - 1 == Times(ChainCount(members, groupsize), 2 * groupsize - 2)
  {
    flows := [];
    var id := 0;
    trigId := 1;
    ghost var r := 0;
    for group := 0 to |members|
      invariant r == Times(group, groupsize) <= ChainCount(members, groupsize)
      invariant IsPrefix(flows, members, groupsize, flowsize) && id == |flows| == Times(r, 2 * groupsize - 1)
      invariant trigId == Times(r, 2 * groupsize - 2) + 1
    {
      RowsGrow(group, |members|, groupsize);
      var groupsrcs := members[group];
      for s := 0 to groupsize
        invariant r == Times(group, groupsize) + s
        invariant IsPrefix(flows, members, groupsize, flowsize) && id == |flows| == Times(r, 2 * groupsize - 1)
        invariant trigId == Times(r, 2 * groupsize - 2) + 1
      {
        RowOfGroup(group, groupsize, s);
        var lines;
        id, trigId, lines := EmitChain(groupsrcs, s, flowsize, id, trigId, ChainOf(members, groupsize, flowsize, r));
        AppendChain(flows, lines, members, groupsize, flowsize, r);
        flows := flows + lines;
        r := r + 1;
      }
    }
  }

  /** The innermost loop: the chain of one chunk. */
  method EmitChain(groupsrcs: seq<nat>, s: nat, flowsize: int, id0: nat, trigId0: nat, ghost c: Chain)
    returns (id: nat, trigId: nat, lines: seq<Flow>)
    requires |groupsrcs| >= 1 && trigId0 >= 1 && c == Chain(groupsrcs, s, flowsize, id0, trigId0 - 1)
    ensures IsChain(lines, c, 2 * |groupsrcs| - 1)
    ensures id == id0 + 2 * |groupsrcs| - 1 && trigId == trigId0 + 2 * |groupsrcs| - 2
  {
    id, trigId, lines := id0, trigId0, [];
    for d := 1 to 2 * |groupsrcs|
      invariant IsChain(lines, c, d - 1)
      invariant id == id0 + d - 1 && trigId == trigId0 + if d == 1 then 0 else d - 2
    {
      var line;
      id, trigId, line := EmitFlow(groupsrcs, s, flowsize, d, id, trigId, c);
      lines := lines + [line];
    }
  }

  /** The body of the innermost loop. */
  method EmitFlow(groupsrcs: seq<nat>, s: nat, flowsize: int, d: nat, id0: nat, trigId0: nat, ghost c: Chain)
    returns (id: nat, trigId: nat, line: Flow)
    requires |groupsrcs| >= 1 && d >= 1 && c.members == groupsrcs && c.s == s && c.size == flowsize
    requires id0 == c.flowsBefore + d - 1 && trigId0 == c.firedBefore + if d == 1 then 1 else d - 1
    ensures line == ChainFlow(c, d)
    ensures id == id0 + 1 && trigId == c.firedBefore + d
  {
    id, trigId := id0 + 1, trigId0;
    var groupsize := |groupsrcs|;
    var src := Modulo(s + d - 1, groupsize);
    var dst := Modulo(s + d, groupsize);
    var begin := At(0);
    if d != 1 {
      begin := OnTrigger(trigId);
      trigId := trigId + 1;
    }
    var ending := if d != 2 * groupsize - 1 then SendDone(trigId) else Quiet;
    line := Flow(groupsrcs[src], groupsrcs[dst], id, begin, flowsize, ending);
  }

  // ---------------------------------------------------------------- which flow wakes which

  ghost predicate InFile(members: seq<seq<nat>>, g: nat, r: nat, d: nat) {
    Placed(members, g) && r < ChainCount(members, g) && 1 <= d <= 2 * g - 1
  }

  /** Every flow of every chain stands at its place. */
  ghost predicate Layout(flows: seq<Flow>, members: seq<seq<nat>>, g: nat, size: int) {
    && Placed(members, g) && |flows| == FlowCount(members, g)
    && forall r, d :: InFile(members, g, r, d) ==>
         IndexOf(g, r, d) < |flows| && flows[IndexOf(g, r, d)] == ChainFlow(ChainOf(members, g, size, r), d)
  }

  lemma FileLayout(members: seq<seq<nat>>, g: nat, size: int)
    requires Placed(members, g)
    ensures Layout(FlowsOf(members, g, size), members, g, size)
  {
    forall r, d | InFile(members, g, r, d)
      ensures IndexOf(g, r, d) < FlowCount(members, g)
      ensures FlowsOf(members, g, size)[IndexOf(g, r, d)] == ChainFlow(ChainOf(members, g, size, r), d)
    {
      FlowNoIs(members, g, size, r, d);
    }
  }

  lemma FlowIs(flows: seq<Flow>, members: seq<seq<nat>>, g: nat, size: int, r: nat, d: nat)
    requires Layout(flows, members, g, size) && InFile(members, g, r, d)
    ensures IndexOf(g, r, d) < |flows|
    ensures flows[IndexOf(g, r, d)] == ChainFlow(ChainOf(members, g, size, r), d)
  {
  }

  lemma EveryFlow(flows: seq<Flow>, members: seq<seq<nat>>, g: nat, size: int, i: nat) returns (r: nat, d: nat)
    requires Layout(flows, members, g, size) && i < |flows|
    ensures InFile(members, g, r, d) && i == IndexOf(g, r, d)
    ensures flows[i] == ChainFlow(ChainOf(members, g, size, r), d)
  {
    RowInGroups(i, ChainCount(members, g), 2 * g - 1);
    GroupOfRow(i, 2 * g - 1);
    r, d := Quot(i, 2 * g - 1), Rem(i, 2 * g - 1) + 1;
    FlowIs(flows, members, g, size, r, d);
  }

  /** A flow waits for its predecessor in the chain, and for no other. */
  lemma Wakes(flows: seq<Flow>, members: seq<seq<nat>>, g: nat, size: int, r: nat, d: nat, j: nat)
    requires Layout(flows, members, g, size) && InFile(members, g, r, d) && j < |flows|
    ensures IndexOf(g, r, d) < |flows|
    ensures WokenBy(flows, IndexOf(g, r, d), j) <==> d > 1 && j == IndexOf(g, r, d - 1)
  {
    FlowIs(flows, members, g, size, r, d);
    var r', d' := EveryFlow(flows, members, g, size, j);
    if WokenBy(flows, IndexOf(g, r, d), j) {
      CellUnique(r', d' - 1, r, d - 2, 2 * g - 2);
    }
    if d > 1 && j == IndexOf(g, r, d - 1) {
      CellUnique(r', d' - 1, r, d - 2, 2 * g - 1);
    }
  }

  lemma OnlyNext(flows: seq<Flow>, members: seq<seq<nat>>, g: nat, size: int, r: nat, d: nat, i: nat)
    requires Layout(flows, members, g, size) && InFile(members, g, r, d) && d < 2 * g - 1
    requires i < |flows| && IndexOf(g, r, d) < |flows| && WokenBy(flows, i, IndexOf(g, r, d))
    ensures i == IndexOf(g, r, d + 1)
  {
    var r', d' := EveryFlow(flows, members, g, size, i);
    Wakes(flows, members, g, size, r', d', IndexOf(g, r, d));
    CellUnique(r', d' - 2, r, d - 1, 2 * g - 1);
  }

  /** Every trigger is fired by one flow and awaited by one, the next of the chain. */
  lemma TriggersPair(flows: seq<Flow>, members: seq<seq<nat>>, g: nat, size: int, r: nat, d: nat, t: nat)
    requires Layout(flows, members, g, size) && InFile(members, g, r, d) && d < 2 * g - 1
             && t == Times(r, 2 * g - 2) + d
    ensures Firers(flows, t) == {IndexOf(g, r, d)} && Targets(flows, t) == [IndexOf(g, r, d + 1)]
  {
    var i, j := IndexOf(g, r, d + 1), IndexOf(g, r, d);
    FlowIs(flows, members, g, size, r, d);
    FlowIs(flows, members, g, size, r, d + 1);
    forall j' | j' in Firers(flows, t) ensures j' == j {
      Wakes(flows, members, g, size, r, d + 1, j');
    }
    assert j in Firers(flows, t);
    forall i' | i' in Targets(flows, t) ensures i' == i {
      OnlyNext(flows, members, g, size, r, d, i');
    }
    assert i in Targets(flows, t);
    OnlyTarget(flows, t, i);
  }

  lemma FlowPairs(flows: seq<Flow>, members: seq<seq<nat>>, g: nat, size: int, i: nat)
    requires Layout(flows, members, g, size) && i < |flows|
    ensures flows[i].begin.OnTrigger? ==> Firers(flows, flows[i].begin.awaited) != {}
    ensures !flows[i].ending.Quiet? ==>
              Firers(flows, flows[i].ending.fired) == {i} && Targets(flows, flows[i].ending.fired) != []
  {
    var r, d := EveryFlow(flows, members, g, size, i);
    if d > 1 { TriggersPair(flows, members, g, size, r, d - 1, flows[i].begin.awaited); }
    if d < 2 * g - 1 { TriggersPair(flows, members, g, size, r, d, flows[i].ending.fired); }
  }

  lemma FileWellFormed(flows: seq<Flow>, members: seq<seq<nat>>, g: nat, size: int)
    requires Layout(flows, members, g, size)
    ensures WellFormed(Plan(OneShot, flows))
  {
    forall i, j | 0 <= i < |flows| && 0 <= j < |flows| && WokenBy(flows, i, j) ensures j < i {
      var r, d := EveryFlow(flows, members, g, size, i);
      Wakes(flows, members, g, size, r, d, j);
    }
    forall i | 0 <= i < |flows|
      ensures flows[i].begin.OnTrigger? ==> Firers(flows, flows[i].begin.awaited) != {}
      ensures !flows[i].ending.Quiet? ==>
                Firers(flows, flows[i].ending.fired) == {i} && Targets(flows, flows[i].ending.fired) != []
    {
      FlowPairs(flows, members, g, size, i);
    }
  }

  /** The simulation of the file can always go on until every flow is done, and never aborts. */
  lemma NeverDeadlocks(members: seq<seq<nat>>, g: nat, size: int, run: seq<nat>)
    requires Placed(members, g) && IsRun(FileOf(members, g, size), run)
    ensures var p := FileOf(members, g, size);
            !After(p, run).aborted && (|run| == |p.flows| || exists i :: Enabled(p, After(p, run), i))
  {
    FileLayout(members, g, size);
    FileWellFormed(FlowsOf(members, g, size), members, g, size);
    NeverStuck(FileOf(members, g, size), run);
  }

  // ---------------------------------------------------------------- what the nodes hold of one chunk

  /** `flows` are those of chunk `c`, in order. */
  ghost predicate IsChunk(flows: seq<Flow>, c: Chain) {
    && ValidChain(c) && |flows| == 2 * |c.members| - 1
    && forall d {:trigger ChainFlow(c, d)} :: 1 <= d <= |flows| ==> flows[d - 1] == ChainFlow(c, d)
  }

  lemma ChunkFlowsAre(c: Chain)
    requires ValidChain(c)
    ensures IsChunk(ChunkFlows(c), c)
  {
  }

  lemma FlowOf(flows: seq<Flow>, c: Chain, d: nat)
    requires IsChunk(flows, c) && 1 <= d <= |flows|
    ensures flows[d - 1] == ChainFlow(c, d)
  {
  }

  /** A timetable of the file restricted to the flows of one chunk, the only ones that carry it, is a timetable of the
      chunk. */
  lemma ChunkTimetable(flows: seq<Flow>, members: seq<seq<nat>>, g: nat, size: int, r: nat, at: seq<Span>)
    requires Layout(flows, members, g, size) && r < ChainCount(members, g) && Timetable(flows, at)
    ensures var n := Times(r, 2 * g - 1);
            && n + (2 * g - 1) <= |at|
            && Timetable(ChunkFlows(ChainOf(members, g, size, r)), at[n..n + (2 * g - 1)])
  {
    var part, n := ChunkFlows(ChainOf(members, g, size, r)), Times(r, 2 * g - 1);
    FlowIs(flows, members, g, size, r, 2 * g - 1);
    forall i | 0 <= i < |part| ensures flows[n + i] == part[i] {
      FlowIs(flows, members, g, size, r, i + 1);
    }
    Restrict(flows, at, part, n);
  }

  lemma Restrict(flows: seq<Flow>, at: seq<Span>, part: seq<Flow>, n: nat)
    requires Timetable(flows, at) && n + |part| <= |at|
    requires forall i :: 0 <= i < |part| ==> flows[n + i] == part[i]
    ensures Timetable(part, at[n..n + |part|])
  {
    forall i, j | 0 <= i < |part| && 0 <= j < |part| && WokenBy(part, i, j) ensures at[n + j].done <= at[n + i].start {
      assert flows[n + i] == part[i] && flows[n + j] == part[j];
      assert WokenBy(flows, n + i, n + j);
    }
  }

  /** In every timetable the flows of a chunk follow one another. */
  lemma {:induction false} ChainInOrder(flows: seq<Flow>, c: Chain, at: seq<Span>, d: nat, e: nat)
    requires IsChunk(flows, c) && Timetable(flows, at) && 1 <= d < e <= |at|
    ensures at[d - 1].done <= at[e - 1].start
    decreases e
  {
    FlowOf(flows, c, e);
    FlowOf(flows, c, e - 1);
    assert WokenBy(flows, e - 1, e - 2);
    if d < e - 1 {
      ChainInOrder(flows, c, at, d, e - 1);
    }
  }

  /** Stops less than one round apart are different nodes; one round on, it is the same node. */
  lemma StopsApart(c: Chain, j: nat, e: nat)
    requires ValidChain(c) && j < |c.members| && e < 2 * |c.members|
    ensures Stop(c, e) == Stop(c, j) <==> e == j || e == j + |c.members|
  {
    var g := |c.members|;
    RemTwice(c.s, j, g);
    RemTwice(c.s, e, g);
    if e >= g { RemTwice(c.s, e - g, g); }
  }

  lemma RemTwice(s: nat, x: nat, g: nat)
    requires s < g && x < 2 * g
    ensures Rem(s + x, g) == if s + x < g then s + x else if s + x < 2 * g then s + x - g else s + x - 2 * g
  {
    if s + x >= g {
      assert Rem(s + x, g) == Rem(s + x - g, g);
    }
  }

  /** Node `j` holds the contribution of node `i`: it is its own, or an arrived flow had passed `i` before. */
  ghost predicate Gathered(g: nat, at: seq<Span>, j: nat, t: nat, i: nat)
    requires j < g && |at| == 2 * g - 1
  {
    || i == j
    || (i + 1 <= j && at[j - 1].done <= t)
    || (i + 1 <= j + g <= 2 * g - 1 && at[j + g - 1].done <= t)
  }

  /** Flow `d` arrives at node `j` only for `d == j` and `d == j + g`. */
  lemma Arrivals(flows: seq<Flow>, c: Chain, at: seq<Span>, j: nat, t: nat, d: nat)
    requires IsChunk(flows, c) && Timetable(flows, at) && j < |c.members| && 1 <= d <= |at|
    ensures Arrived(flows[d - 1], at[d - 1], Stop(c, j), t) <==> at[d - 1].done <= t && (d == j || d == j + |c.members|)
  {
    FlowOf(flows, c, d);
    StopsApart(c, j, d);
  }

  /** What node `j` holds of the chunk at time `t`, exactly. */
  lemma {:induction false} HoldsExactly(flows: seq<Flow>, c: Chain, at: seq<Span>, j: nat, t: nat, i: nat)
    requires IsChunk(flows, c) && Timetable(flows, at) && i < |c.members| && j < |c.members|
    ensures Holds(flows, at, Stop(c, j), t, Stop(c, i)) <==> Gathered(|c.members|, at, j, t, i)
    decreases t, 0
  {
    var g := |c.members|;
    StopsApart(c, j, i);
    if Holds(flows, at, Stop(c, j), t, Stop(c, i)) && i != j {
      var n :| 0 <= n < |flows| && Arrived(flows[n], at[n], Stop(c, j), t)
          && Holds(flows, at, flows[n].src, at[n].start, Stop(c, i));
      Arrivals(flows, c, at, j, t, n + 1);
      CarriesExactly(flows, c, at, n + 1, i);
    }
    if Gathered(g, at, j, t, i) && i != j {
      var n := if i + 1 <= j && at[j - 1].done <= t then j - 1 else j + g - 1;
      Arrivals(flows, c, at, j, t, n + 1);
      CarriesExactly(flows, c, at, n + 1, i);
    }
  }

  /** Flow `d` sets out with exactly the contributions of the first `d` nodes. */
  lemma {:induction false} CarriesExactly(flows: seq<Flow>, c: Chain, at: seq<Span>, d: nat, i: nat)
    requires IsChunk(flows, c) && Timetable(flows, at) && i < |c.members| && 1 <= d <= |at|
    ensures Holds(flows, at, flows[d - 1].src, at[d - 1].start, Stop(c, i)) <==> i <= d - 1
    decreases at[d - 1].start, 1
  {
    var g, start := |c.members|, at[d - 1].start;
    FlowOf(flows, c, d);
    var j := if d - 1 < g then d - 1 else d - 1 - g;
    StopsApart(c, j, d - 1);
    HoldsExactly(flows, c, at, j, start, i);
    DoneByStart(flows, c, at, d, j);
    DoneByStart(flows, c, at, d, j + g);
  }

  lemma DoneByStart(flows: seq<Flow>, c: Chain, at: seq<Span>, d: nat, e: nat)
    requires IsChunk(flows, c) && Timetable(flows, at) && 1 <= d <= |at|
    ensures 1 <= e <= |at| ==> (at[e - 1].done <= at[d - 1].start <==> e < d)
  {
    if 1 <= e < d { ChainInOrder(flows, c, at, e, d); }
    if d < e <= |at| { ChainInOrder(flows, c, at, d, e); }
  }

  /** The chunk is reduced at the last node before the start as soon as `g - 1` flows are done, and no sooner. */
  lemma ReducedIff(flows: seq<Flow>, c: Chain, at: seq<Span>, t: nat)
    requires IsChunk(flows, c) && Timetable(flows, at) && |c.members| >= 2
    ensures var g := |c.members|;
            (forall i :: 0 <= i < g ==> Holds(flows, at, Stop(c, g - 1), t, Stop(c, i))) <==> at[g - 2].done <= t
  {
    var g := |c.members|;
    if at[g - 2].done <= t {
      forall i | 0 <= i < g ensures Holds(flows, at, Stop(c, g - 1), t, Stop(c, i)) {
        HoldsExactly(flows, c, at, g - 1, t, i);
      }
    } else {
      ChainInOrder(flows, c, at, g - 1, 2 * g - 1);
      HoldsExactly(flows, c, at, g - 1, t, 0);
    }
  }

  /** Every node of the group holds all contributions to the chunk exactly when `2g - 2` of its `2g - 1` flows are
      done. */
  lemma AllReduceIff(flows: seq<Flow>, c: Chain, at: seq<Span>, t: nat)
    requires IsChunk(flows, c) && Timetable(flows, at) && |c.members| >= 2
    ensures var g := |c.members|;
            (forall i, j :: 0 <= i < g && 0 <= j < g ==> Holds(flows, at, Stop(c, j), t, Stop(c, i)))
            <==> at[2 * g - 3].done <= t
  {
    var g := |c.members|;
    if at[2 * g - 3].done <= t {
      forall i, j | 0 <= i < g && 0 <= j < g ensures Holds(flows, at, Stop(c, j), t, Stop(c, i)) {
        HoldsExactly(flows, c, at, j, t, i);
        if j + g < 2 * g - 2 { ChainInOrder(flows, c, at, j + g, 2 * g - 2); }
        if 1 <= j < 2 * g - 2 { ChainInOrder(flows, c, at, j, 2 * g - 2); }
      }
    } else {
      HoldsExactly(flows, c, at, g - 2, t, g - 1);
    }
  }

  // ---------------------------------------------------------------- the emitted file

  /** The members of a group are different nodes. */
  ghost predicate DistinctNodes(members: seq<seq<nat>>) {
    forall k :: 0 <= k < |members| ==> Distinct(members[k])
  }

  ghost predicate Distinct(nodes: seq<nat>) {
    forall i, j :: 0 <= i < j < |nodes| ==> nodes[i] != nodes[j]
  }

  /** The lines of the file that carry chunk `r`, or the times of these lines. */
  function PartOf<T>(all: seq<T>, g: nat, r: nat): (part: seq<T>)
    requires g >= 1 && Times(r, 2 * g - 1) + (2 * g - 1) <= |all|
    ensures |part| == 2 * g - 1
    ensures forall d :: 1 <= d <= |part| ==> IndexOf(g, r, d) < |all| && part[d - 1] == all[IndexOf(g, r, d)]
  {
    all[Times(r, 2 * g - 1)..Times(r, 2 * g - 1) + (2 * g - 1)]
  }

  lemma PartFits(members: seq<seq<nat>>, g: nat, r: nat)
    requires g >= 1 && r < ChainCount(members, g)
    ensures Times(r, 2 * g - 1) + (2 * g - 1) <= FlowCount(members, g)
  {
    RowsGrow(r, ChainCount(members, g), 2 * g - 1);
  }

  lemma PartIsChunk(flows: seq<Flow>, members: seq<seq<nat>>, g: nat, size: int, r: nat)
    requires Layout(flows, members, g, size) && DistinctNodes(members) && r < ChainCount(members, g)
    ensures Times(r, 2 * g - 1) + (2 * g - 1) <= |flows|
    ensures var c := ChainOf(members, g, size, r);
            PartOf(flows, g, r) == ChunkFlows(c) && IsChunk(ChunkFlows(c), c)
  {
    PartFits(members, g, r);
    var c := ChainOf(members, g, size, r);
    RowInGroups(r, |members|, g);
    assert Distinct(members[Quot(r, g)]);
    ChunkFlowsAre(c);
    forall i | 0 <= i < 2 * g - 1 ensures PartOf(flows, g, r)[i] == ChunkFlows(c)[i] {
      FlowIs(flows, members, g, size, r, i + 1);
    }
  }

  lemma ChunkInFile(flows: seq<Flow>, members: seq<seq<nat>>, g: nat, size: int, r: nat, at: seq<Span>)
    requires Placed(members, g) && DistinctNodes(members) && r < ChainCount(members, g)
    requires Layout(flows, members, g, size) && Timetable(flows, at)
    ensures |at| == |flows| && Times(r, 2 * g - 1) + (2 * g - 1) <= |at|
    ensures IsChunk(PartOf(flows, g, r), ChainOf(members, g, size, r))
    ensures Timetable(PartOf(flows, g, r), PartOf(at, g, r))
  {
    PartIsChunk(flows, members, g, size, r);
    ChunkTimetable(flows, members, g, size, r, at);
  }

  lemma StopReached(c: Chain, x: nat) returns (j: nat)
    requires ValidChain(c) && x in c.members
    ensures j < |c.members| && Stop(c, j) == x
  {
    var m: nat :| m < |c.members| && c.members[m] == x;
    var g := |c.members|;
    if m >= c.s {
      j := m - c.s;
      assert Rem(m, g) == m;
    } else {
      j := m + g - c.s;
      assert Rem(m + g, g) == Rem(m, g) == m;
    }
  }

  /** Every member holds what every member contributes. */
  ghost predicate HeldByAll(flows: seq<Flow>, at: seq<Span>, group: seq<nat>, t: nat) {
    forall x, y :: x in group && y in group ==> Holds(flows, at, x, t, y)
  }

  lemma HeldByAllIff(flows: seq<Flow>, c: Chain, at: seq<Span>, t: nat)
    requires IsChunk(flows, c) && Timetable(flows, at) && |c.members| >= 2
    ensures HeldByAll(flows, at, c.members, t) <==> at[2 * |c.members| - 3].done <= t
  {
    var g := |c.members|;
    AllReduceIff(flows, c, at, t);
    if at[2 * g - 3].done <= t {
      forall x, y | x in c.members && y in c.members ensures Holds(flows, at, x, t, y) {
        var j := StopReached(c, x);
        var i := StopReached(c, y);
      }
    } else {
      var i, j :| 0 <= i < g && 0 <= j < g && !Holds(flows, at, Stop(c, j), t, Stop(c, i));
      assert Stop(c, j) in c.members && Stop(c, i) in c.members;
    }
  }

  /** At time `t` every member of the group of chunk `r` holds what every member contributes to the chunk. */
  ghost predicate Reduced(flows: seq<Flow>, members: seq<seq<nat>>, g: nat, r: nat, at: seq<Span>, t: nat)
    requires Placed(members, g) && r < ChainCount(members, g)
    requires |at| == |flows| && Times(r, 2 * g - 1) + (2 * g - 1) <= |at|
  {
    HeldByAll(PartOf(flows, g, r), PartOf(at, g, r), ChainOf(members, g, 0, r).members, t)
  }

  /** Flows are numbered from 1 in the order of the file and have the size asked for. */
  lemma NumberedInOrder(flows: seq<Flow>, members: seq<seq<nat>>, g: nat, size: int, i: nat)
    requires Layout(flows, members, g, size) && i < |flows|
    ensures flows[i].id == i + 1 && flows[i].size == size
  {
    var r, d := EveryFlow(flows, members, g, size, i);
  }

  /** Flow `d` of chunk `s` of group `k` goes from place `s + d - 1` of the ring to the next; the first one starts at
      0 and all others wait, the last one fires nothing. */
  lemma LineIs(flows: seq<Flow>, members: seq<seq<nat>>, g: nat, size: int, k: nat, s: nat, d: nat)
    requires Layout(flows, members, g, size) && k < |members| && s < g && 1 <= d <= 2 * g - 1
    ensures var i := (k * g + s) * (2 * g - 1) + (d - 1);
            && 0 <= i < |flows|
            && flows[i].src == members[k][(s + d - 1) % g] && flows[i].dst == members[k][(s + d) % g]
            && (if d == 1 then flows[i].begin == At(0) else flows[i].begin.OnTrigger?)
            && (flows[i].ending == Quiet <==> d == 2 * g - 1)
  {
    var r := k * g + s;
    TimesIs(k, g);
    GroupInRange(k, |members|, g, s);
    RowOfGroup(k, g, s);
    TimesIs(r, 2 * g - 1);
    QuotIs(s + d - 1, g);
    QuotIs(s + d, g);
    FlowIs(flows, members, g, size, r, d);
  }

  /** In every timetable of the emitted file, whose layout `FileLayout` gives, the chunk is reduced at all members of
      its group exactly when `2g - 2` of its `2g - 1` flows are done. */
  lemma FileReducedIff(flows: seq<Flow>, members: seq<seq<nat>>, g: nat, size: int, r: nat, at: seq<Span>, t: nat)
    requires Placed(members, g) && DistinctNodes(members) && g >= 2 && r < ChainCount(members, g)
    requires Layout(flows, members, g, size) && Timetable(flows, at)
    ensures IndexOf(g, r, 2 * g - 2) < |at| && Times(r, 2 * g - 1) + (2 * g - 1) <= |at|
    ensures Reduced(flows, members, g, r, at, t) <==> at[IndexOf(g, r, 2 * g - 2)].done <= t
  {
    ChunkInFile(flows, members, g, size, r, at);
    HeldByAllIff(PartOf(flows, g, r), ChainOf(members, g, size, r), PartOf(at, g, r), t);
    assert PartOf(at, g, r)[2 * g - 3] == at[IndexOf(g, r, 2 * g - 2)];
  }

  /** ... and at the last node before the start already when `g - 1` of them are. */
  lemma FileFirstReducedIff(flows: seq<Flow>, members: seq<seq<nat>>, g: nat, size: int, r: nat, at: seq<Span>, t: nat)
    requires Placed(members, g) && DistinctNodes(members) && g >= 2 && r < ChainCount(members, g)
    requires Layout(flows, members, g, size) && Timetable(flows, at)
    ensures IndexOf(g, r, g - 1) < |at| && Times(r, 2 * g - 1) + (2 * g - 1) <= |at|
    ensures FirstReduced(flows, members, g, size, r, at, t) <==> at[IndexOf(g, r, g - 1)].done <= t
  {
    ChunkInFile(flows, members, g, size, r, at);
    FirstHoldsIff(PartOf(flows, g, r), ChainOf(members, g, size, r), PartOf(at, g, r), t);
    assert PartOf(at, g, r)[g - 2] == at[IndexOf(g, r, g - 1)];
  }

  /** The last node before the start holds what every member contributes. */
  ghost predicate HoldsAll(flows: seq<Flow>, at: seq<Span>, c: Chain, t: nat)
    requires |c.members| >= 1
  {
    forall y :: y in c.members ==> Holds(flows, at, Stop(c, |c.members| - 1), t, y)
  }

  ghost predicate FirstReduced(flows: seq<Flow>, members: seq<seq<nat>>, g: nat, size: int, r: nat, at: seq<Span>,
                               t: nat)
    requires Placed(members, g) && r < ChainCount(members, g)
    requires |at| == |flows| && Times(r, 2 * g - 1) + (2 * g - 1) <= |at|
  {
    HoldsAll(PartOf(flows, g, r), PartOf(at, g, r), ChainOf(members, g, size, r), t)
  }

  lemma FirstHoldsIff(flows: seq<Flow>, c: Chain, at: seq<Span>, t: nat)
    requires IsChunk(flows, c) && Timetable(flows, at) && |c.members| >= 2
    ensures HoldsAll(flows, at, c, t) <==> at[|c.members| - 2].done <= t
  {
    var g := |c.members|;
    ReducedIff(flows, c, at, t);
    if at[g - 2].done <= t {
      forall y | y in c.members ensures Holds(flows, at, Stop(c, g - 1), t, y) {
        var i := StopReached(c, y);
      }
    } else {
      var i :| 0 <= i < g && !Holds(flows, at, Stop(c, g - 1), t, Stop(c, i));
      assert Stop(c, i) in c.members;
    }
  }

  /** The same for complete runs of the state machine: after `t` completions chunk `r` is reduced everywhere exactly
      when the last flow but one of its chain is among them. */
  lemma RunReducedIff(members: seq<seq<nat>>, g: nat, size: int, run: seq<nat>, r: nat, t: nat)
    requires Placed(members, g) && DistinctNodes(members) && g >= 2 && r < ChainCount(members, g)
    requires var p := FileOf(members, g, size); IsRun(p, run) && |run| == |p.flows| && t <= |run|
    ensures Times(r, 2 * g - 1) + (2 * g - 1) <= FlowCount(members, g)
    ensures var flows := FlowsOf(members, g, size);
            Reduced(flows, members, g, r, TimetableOf(flows, run), t) <==> IndexOf(g, r, 2 * g - 2) in run[..t]
  {
    PartFits(members, g, r);
    var p, i := FileOf(members, g, size), IndexOf(g, r, 2 * g - 2);
    FileLayout(members, g, size);
    FileWellFormed(p.flows, members, g, size);
    RunIsTimetable(p, run);
    FileReducedIff(p.flows, members, g, size, r, TimetableOf(p.flows, run), t);
    DoneWithin(p, run, i, t);
  }
}
