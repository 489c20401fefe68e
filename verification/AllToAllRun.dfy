/** What the batched all-to-all file does when it runs. */
module AllToAllRun {
  import opened Arith
  import opened Rows
  import opened Sets
  import opened TriggerGraph
  import opened AllToAll

  // ---------------------------------------------------------------- where a flow stands in the file

  ghost predicate InFile(j: Job, r: nat, d: nat, crt: nat) {
    ValidJob(j) && r < SenderCount(j) && InBatch(j.shape, d, crt)
  }

  /** Every flow of every batch stands at its place. */
  ghost predicate Layout(flows: seq<Flow>, j: Job) {
    && ValidJob(j) && |flows| == FlowCount(j)
    && forall r, d, crt :: InFile(j, r, d, crt) ==>
         && BatchAt(j.shape, r, d) + crt < |flows|
         && flows[BatchAt(j.shape, r, d) + crt] == BatchFlow(SenderOf(j, r), d, crt)
  }

  lemma FileLayout(j: Job)
    requires ValidJob(j)
    ensures Layout(FlowsOf(j), j)
  {
    forall r, d, crt | InFile(j, r, d, crt)
      ensures BatchAt(j.shape, r, d) + crt < FlowCount(j)
              && FlowsOf(j)[BatchAt(j.shape, r, d) + crt] == BatchFlow(SenderOf(j, r), d, crt)
    {
      FlowNoIs(j, r, d, crt);
    }
  }

  lemma FlowIs(flows: seq<Flow>, j: Job, r: nat, d: nat, crt: nat)
    requires Layout(flows, j) && InFile(j, r, d, crt)
    ensures BatchAt(j.shape, r, d) + crt < |flows|
    ensures flows[BatchAt(j.shape, r, d) + crt] == BatchFlow(SenderOf(j, r), d, crt)
  {
  }

  lemma PlaceInBatch(h: Shape, pos: nat)
    requires ValidShape(h) && pos < h.g - 1
    ensures InBatch(h, Quot(pos, h.p) + 1, Rem(pos, h.p)) && pos == Times(Quot(pos, h.p), h.p) + Rem(pos, h.p)
  {
    GroupOfRow(pos, h.p);
    if Quot(pos, h.p) > h.half {
      RowsGrow(h.half, Quot(pos, h.p), h.p);
    }
  }

  /** Every line of the file is a flow of some batch of some sender. */
  lemma EveryFlow(flows: seq<Flow>, j: Job, i: nat) returns (r: nat, d: nat, crt: nat)
    requires Layout(flows, j) && i < |flows|
    ensures InFile(j, r, d, crt) && i == BatchAt(j.shape, r, d) + crt
    ensures flows[i] == BatchFlow(SenderOf(j, r), d, crt)
  {
    var w := j.shape.g - 1;
    RowInGroups(i, SenderCount(j), w);
    GroupOfRow(i, w);
    PlaceInBatch(j.shape, Rem(i, w));
    r, d, crt := Quot(i, w), Quot(Rem(i, w), j.shape.p) + 1, Rem(Rem(i, w), j.shape.p);
    FlowIs(flows, j, r, d, crt);
  }

  /** Different flows stand at different positions ... */
  lemma PositionsApart(h: Shape, r: nat, d: nat, crt: nat, r': nat, d': nat, crt': nat)
    requires ValidShape(h) && InBatch(h, d, crt) && InBatch(h, d', crt')
    requires BatchAt(h, r, d) + crt == BatchAt(h, r', d') + crt'
    ensures r == r' && d == d' && crt == crt'
  {
    BatchInSender(h, d, crt);
    BatchInSender(h, d', crt');
    CellUnique(r, Times(d - 1, h.p) + crt, r', Times(d' - 1, h.p) + crt', h.g - 1);
    CellUnique(d - 1, crt, d' - 1, crt', h.p);
  }

  /** ... and different batches fire different triggers. */
  lemma TriggersApart(h: Shape, r: nat, d: nat, r': nat, d': nat)
    requires d >= 1 && d' >= 1 && BatchFires(h, d) && BatchFires(h, d')
    requires Times(r, TriggersOf(h)) + d == Times(r', TriggersOf(h)) + d'
    ensures r == r' && d == d'
  {
    CellUnique(r, d - 1, r', d' - 1, TriggersOf(h));
  }

  // ---------------------------------------------------------------- every pair once

  lemma HalfIs(h: Shape)
    requires ValidShape(h)
    ensures h.half >= 1 <==> h.p <= h.g - 1
  {
    TimesIs(h.half, h.p);
    if h.half >= 1 { MulMonotone(1, h.half, h.p); }
  }

  /** The offsets of a sender's flows are exactly `1 .. g - 1`. */
  lemma OffsetInRange(h: Shape, d: nat, crt: nat)
    requires ValidShape(h) && InBatch(h, d, crt)
    ensures 1 <= Offset(h, d, crt) <= h.g - 1
  {
    TimesIs(crt, h.half);
    TimesIs(h.p, h.half);
    TimesIs(h.half, h.p);
    if d <= h.half {
      RowInRange(crt, h.p, h.half, d - 1);
    }
  }

  lemma OffsetInjective(h: Shape, d: nat, crt: nat, d': nat, crt': nat)
    requires ValidShape(h) && InBatch(h, d, crt) && InBatch(h, d', crt') && Offset(h, d, crt) == Offset(h, d', crt')
    ensures d == d' && crt == crt'
  {
    TimesIs(crt, h.half);
    TimesIs(crt', h.half);
    TimesIs(h.p, h.half);
    if d <= h.half {
      RowInRange(crt, h.p, h.half, d - 1);
      DivModUnique(crt * h.half + (d - 1), h.half, crt, d - 1);
    }
    if d' <= h.half {
      RowInRange(crt', h.p, h.half, d' - 1);
      DivModUnique(crt' * h.half + (d' - 1), h.half, crt', d' - 1);
    }
  }

  lemma OffsetReached(h: Shape, off: nat) returns (d: nat, crt: nat)
    requires ValidShape(h) && 1 <= off <= h.g - 1
    ensures InBatch(h, d, crt) && Offset(h, d, crt) == off
  {
    TimesIs(h.p, h.half);
    TimesIs(h.half, h.p);
    if off - 1 < h.p * h.half {
      RowOf(off - 1, h.p, h.half);
      TimesIs((off - 1) / h.half, h.half);
      d, crt := (off - 1) % h.half + 1, (off - 1) / h.half;
    } else {
      d, crt := h.half + 1, off - 1 - h.p * h.half;
    }
  }

  lemma RemShift(s: nat, off: nat, g: nat)
    requires s < g && 1 <= off <= g - 1
    ensures Rem(s + off, g) == if s + off < g then s + off else s + off - g
  {
  }

  lemma DestinationIs(j: Job, r: nat, d: nat, crt: nat)
    requires InFile(j, r, d, crt)
    ensures var g, off, c := j.shape.g, Offset(j.shape, d, crt), SenderOf(j, r);
            && Quot(r, g) < |j.members| && c.members == j.members[Quot(r, g)] && c.s == Rem(r, g)
            && 1 <= off <= g - 1 && Rem(c.s + off, g) == if c.s + off < g then c.s + off else c.s + off - g
  {
    RowInGroups(r, |j.members|, j.shape.g);
    OffsetInRange(j.shape, d, crt);
    RemShift(Rem(r, j.shape.g), Offset(j.shape, d, crt), j.shape.g);
  }

  /** Each ordered pair of distinct members of a group gets a flow. */
  lemma PairHasFlow(flows: seq<Flow>, j: Job, k: nat, s: nat, y: nat) returns (i: nat)
    requires Layout(flows, j) && k < |j.members| && s < j.shape.g && y < j.shape.g && s != y
    ensures i < |flows| && flows[i].src == j.members[k][s] && flows[i].dst == j.members[k][y]
  {
    var g := j.shape.g;
    var r := Times(k, g) + s;
    var off := if s < y then y - s else y + g - s;
    var d, crt := OffsetReached(j.shape, off);
    RowOfGroup(k, g, s);
    GroupInRange(k, |j.members|, g, s);
    DestinationIs(j, r, d, crt);
    FlowIs(flows, j, r, d, crt);
    i := BatchAt(j.shape, r, d) + crt;
  }

  /** And no pair gets two. */
  lemma PairOnlyOnce(flows: seq<Flow>, j: Job, i: nat, i': nat)
    requires Layout(flows, j) && DistinctNodes(j) && i < |flows| && i' < |flows|
    requires flows[i].src == flows[i'].src && flows[i].dst == flows[i'].dst
    ensures i == i'
  {
    var r, d, crt := EveryFlow(flows, j, i);
    var r', d', crt' := EveryFlow(flows, j, i');
    EndsApart(j, r, d, crt, r', d', crt');
  }

  /** Flows at different places go between different nodes. */
  lemma EndsApart(j: Job, r: nat, d: nat, crt: nat, r': nat, d': nat, crt': nat)
    requires DistinctNodes(j) && InFile(j, r, d, crt) && InFile(j, r', d', crt')
    requires BatchFlow(SenderOf(j, r), d, crt).src == BatchFlow(SenderOf(j, r'), d', crt').src
    requires BatchFlow(SenderOf(j, r), d, crt).dst == BatchFlow(SenderOf(j, r'), d', crt').dst
    ensures r == r' && d == d' && crt == crt'
  {
    DestinationIs(j, r, d, crt);
    DestinationIs(j, r', d', crt');
    GroupOfRow(r, j.shape.g);
    GroupOfRow(r', j.shape.g);
    OffsetInjective(j.shape, d, crt, d', crt');
  }

  /** The flows of the file are exactly the ordered pairs of distinct members of a group. */
  lemma EveryPairOnce(flows: seq<Flow>, j: Job, x: nat, y: nat)
    requires Layout(flows, j) && DistinctNodes(j)
    ensures (exists i :: 0 <= i < |flows| && flows[i].src == x && flows[i].dst == y) <==>
            exists k :: 0 <= k < |j.members| && x in j.members[k] && y in j.members[k] && x != y
    ensures forall i, i' ::
              (0 <= i < |flows| && 0 <= i' < |flows| && flows[i].src == flows[i'].src == x &&
               flows[i].dst == flows[i'].dst == y) ==> i == i'
  {
    forall i | 0 <= i < |flows| && flows[i].src == x && flows[i].dst == y
      ensures exists k :: 0 <= k < |j.members| && x in j.members[k] && y in j.members[k] && x != y
    {
      var r, d, crt := EveryFlow(flows, j, i);
      DestinationIs(j, r, d, crt);
      var k := Quot(r, j.shape.g);
      assert x in j.members[k] && y in j.members[k] && x != y;
    }
    if k: nat :| k < |j.members| && x in j.members[k] && y in j.members[k] && x != y {
      var s: nat :| s < |j.members[k]| && j.members[k][s] == x;
      var r: nat :| r < |j.members[k]| && j.members[k][r] == y;
      var i := PairHasFlow(flows, j, k, s, r);
    }
    forall i, i' | 0 <= i < |flows| && 0 <= i' < |flows| && flows[i].src == flows[i'].src == x &&
              flows[i].dst == flows[i'].dst == y ensures i == i'
    {
      PairOnlyOnce(flows, j, i, i');
    }
  }

  // ---------------------------------------------------------------- which flow wakes which

  /** A flow waits for its sender's previous batch, and for nothing else. */
  lemma Wakes(flows: seq<Flow>, j: Job, r: nat, d: nat, crt: nat, i: nat)
    requires Layout(flows, j) && InFile(j, r, d, crt) && i < |flows| && j.shape.p <= j.shape.g - 1
    ensures BatchAt(j.shape, r, d) + crt < |flows|
    ensures WokenBy(flows, BatchAt(j.shape, r, d) + crt, i) <==>
              d > 1 && BatchAt(j.shape, r, d - 1) <= i < BatchAt(j.shape, r, d - 1) + j.shape.p
  {
    FlowIs(flows, j, r, d, crt);
    HalfIs(j.shape);
    var r', d', crt' := EveryFlow(flows, j, i);
    if WokenBy(flows, BatchAt(j.shape, r, d) + crt, i) {
      TriggersApart(j.shape, r, d - 1, r', d');
    }
    if d > 1 && BatchAt(j.shape, r, d - 1) <= i < BatchAt(j.shape, r, d - 1) + j.shape.p {
      PositionsApart(j.shape, r, d - 1, i - BatchAt(j.shape, r, d - 1), r', d', crt');
    }
  }

  lemma CountFirers(flows: seq<Flow>, t: nat, a: nat, n: nat)
    requires a + n <= |flows|
    requires forall i :: 0 <= i < |flows| ==> (TriggerGraph.Fires(flows[i], t) <==> a <= i < a + n)
    ensures |Firers(flows, t)| == n
  {
    assert Firers(flows, t) == Interval(a, n);
  }

  lemma CountTargets(flows: seq<Flow>, t: nat, a: nat, n: nat)
    requires a + n <= |flows|
    requires forall i :: 0 <= i < |flows| ==> (Waits(flows[i], t) <==> a <= i < a + n)
    ensures |Targets(flows, t)| == n
  {
    TargetsAscend(flows, t);
    AscendingCount(Targets(flows, t), Interval(a, n));
  }

  /** Trigger `t` is the one fired by batch `d` of sender `r`. */
  ghost predicate IsTrigger(j: Job, r: nat, d: nat, t: nat) {
    InFile(j, r, d, 0) && j.shape.p <= j.shape.g - 1 && BatchFires(j.shape, d) && t == Times(r, TriggersOf(j.shape)) + d
  }

  /** It is fired by all `p` flows of that batch and nobody else ... */
  lemma FirerIff(flows: seq<Flow>, j: Job, r: nat, d: nat, t: nat, a: nat, i: nat)
    requires Layout(flows, j) && IsTrigger(j, r, d, t) && a == BatchAt(j.shape, r, d) && i < |flows|
    ensures TriggerGraph.Fires(flows[i], t) <==> a <= i < a + j.shape.p
  {
    FlowIs(flows, j, r, d + 1, 0);
    Wakes(flows, j, r, d + 1, 0, i);
  }

  lemma FirersAre(flows: seq<Flow>, j: Job, r: nat, d: nat, t: nat)
    requires Layout(flows, j) && IsTrigger(j, r, d, t)
    ensures |Firers(flows, t)| == j.shape.p
  {
    var a := BatchAt(j.shape, r, d);
    FlowIs(flows, j, r, d, j.shape.p - 1);
    forall i | 0 <= i < |flows| ensures TriggerGraph.Fires(flows[i], t) <==> a <= i < a + j.shape.p {
      FirerIff(flows, j, r, d, t, a, i);
    }
    CountFirers(flows, t, a, j.shape.p);
  }

  /** ... and awaited by the flows of the next batch of the same sender: at least one and at most `p`. */
  lemma TargetIff(flows: seq<Flow>, j: Job, r: nat, d: nat, t: nat, a: nat, i: nat)
    requires Layout(flows, j) && IsTrigger(j, r, d, t) && a == BatchAt(j.shape, r, d + 1) && i < |flows|
    ensures Waits(flows[i], t) <==> a <= i < a + Width(j.shape, d + 1)
  {
    var b := BatchAt(j.shape, r, d);
    FlowIs(flows, j, r, d, 0);
    var r', d', crt' := EveryFlow(flows, j, i);
    if Waits(flows[i], t) {
      Wakes(flows, j, r', d', crt', b);
      PositionsApart(j.shape, r, d, 0, r', d' - 1, b - BatchAt(j.shape, r', d' - 1));
    }
    if a <= i < a + Width(j.shape, d + 1) {
      PositionsApart(j.shape, r, d + 1, i - a, r', d', crt');
    }
  }

  lemma TargetsAre(flows: seq<Flow>, j: Job, r: nat, d: nat, t: nat)
    requires Layout(flows, j) && IsTrigger(j, r, d, t)
    ensures |Targets(flows, t)| == Width(j.shape, d + 1) && 1 <= Width(j.shape, d + 1) <= j.shape.p
  {
    var a, w := BatchAt(j.shape, r, d + 1), Width(j.shape, d + 1);
    FlowIs(flows, j, r, d + 1, w - 1);
    forall i | 0 <= i < |flows| ensures Waits(flows[i], t) <==> a <= i < a + w {
      TargetIff(flows, j, r, d, t, a, i);
    }
    CountTargets(flows, t, a, w);
  }

  lemma {:induction false} AscendingCount(r: seq<nat>, members: set<nat>)
    requires forall i :: i in r <==> i in members
    requires forall m, n :: 0 <= m < n < |r| ==> r[m] < r[n]
    ensures |r| == |members|
  {
    if r == [] {
      assert members == {};
    } else {
      var last := r[|r| - 1];
      var rest := r[..|r| - 1];
      assert r == rest + [last];
      assert last in r;
      forall i ensures i in rest <==> i in members - {last} {
        assert i in rest ==> i in r && i != last;
      }
      AscendingCount(rest, members - {last});
    }
  }

  lemma WakerBefore(flows: seq<Flow>, j: Job, i: nat, i': nat)
    requires Layout(flows, j) && j.shape.p <= j.shape.g - 1 && i < |flows| && i' < |flows| && WokenBy(flows, i, i')
    ensures i' < i && flows[i].src == flows[i'].src
  {
    var r, d, crt := EveryFlow(flows, j, i);
    Wakes(flows, j, r, d, crt, i');
    FlowIs(flows, j, r, d - 1, i' - BatchAt(j.shape, r, d - 1));
  }

  lemma EnoughFirers(flows: seq<Flow>, j: Job, i: nat)
    requires Layout(flows, j) && j.shape.p <= j.shape.g - 1 && i < |flows| && flows[i].begin.OnTrigger?
    ensures |Targets(flows, flows[i].begin.awaited)| <= |Firers(flows, flows[i].begin.awaited)|
  {
    var r, d, crt := EveryFlow(flows, j, i);
    HalfIs(j.shape);
    FirersAre(flows, j, r, d - 1, flows[i].begin.awaited);
    TargetsAre(flows, j, r, d - 1, flows[i].begin.awaited);
  }

  lemma FileWellFormed(flows: seq<Flow>, j: Job)
    requires Layout(flows, j) && j.shape.p <= j.shape.g - 1
    ensures WellFormed(Plan(MultiShot, flows)) && StaysAtSource(flows)
  {
    forall i, i' | 0 <= i < |flows| && 0 <= i' < |flows| && WokenBy(flows, i, i')
      ensures i' < i && flows[i].src == flows[i'].src
    {
      WakerBefore(flows, j, i, i');
    }
    forall i | 0 <= i < |flows| && flows[i].begin.OnTrigger?
      ensures |Targets(flows, flows[i].begin.awaited)| <= |Firers(flows, flows[i].begin.awaited)|
    {
      EnoughFirers(flows, j, i);
    }
  }

  // ---------------------------------------------------------------- the lines, field by field

  /** Flows are numbered from 1 in the order of the file and have the size asked for. */
  lemma NumberedInOrder(flows: seq<Flow>, j: Job, i: nat)
    requires Layout(flows, j) && i < |flows|
    ensures flows[i].id == i + 1 && flows[i].size == j.size
  {
    var r, d, crt := EveryFlow(flows, j, i);
  }

  /** Flow `crt` of full batch `d` of sender `s` of group `k` goes `d + crt * half` places round the group; the first
      batch starts at the given time. */
  lemma FullBatchLine(flows: seq<Flow>, j: Job, k: nat, s: nat, d: nat, crt: nat)
    requires Layout(flows, j) && k < |j.members| && s < j.shape.g && 1 <= d <= j.shape.half && crt < j.shape.p
    ensures var h, i := j.shape, (k * j.shape.g + s) * (j.shape.g - 1) + (d - 1) * j.shape.p + crt;
            && 0 <= i < |flows| && flows[i].src == j.members[k][s]
            && flows[i].dst == j.members[k][(s + d + crt * h.half) % h.g]
            && (if d == 1 then flows[i].begin == At(j.start) else flows[i].begin.OnTrigger?)
            && (flows[i].ending == Quiet <==> d == h.half && h.left == 0)
  {
    SenderIs(j, k, s);
    LineAt(flows, j, k * j.shape.g + s, d, crt);
    TimesIs(crt, j.shape.half);
    QuotIs(s + d + crt * j.shape.half, j.shape.g);
  }

  /** The leftover flows of a sender go to the remaining members; they all wait. */
  lemma LeftoverLine(flows: seq<Flow>, j: Job, k: nat, s: nat, crt: nat)
    requires Layout(flows, j) && k < |j.members| && s < j.shape.g && crt < j.shape.left
    ensures var h, i := j.shape, (k * j.shape.g + s) * (j.shape.g - 1) + j.shape.half * j.shape.p + crt;
            && 0 <= i < |flows| && flows[i].src == j.members[k][s]
            && flows[i].dst == j.members[k][(s + h.p * h.half + crt + 1) % h.g]
            && flows[i].begin.OnTrigger? && flows[i].ending == Quiet
  {
    SenderIs(j, k, s);
    LineAt(flows, j, k * j.shape.g + s, j.shape.half + 1, crt);
    TimesIs(j.shape.p, j.shape.half);
    QuotIs(s + j.shape.p * j.shape.half + crt + 1, j.shape.g);
  }

  /** Member `s` of group `k` is sender `k * g + s` of the file. */
  lemma SenderIs(j: Job, k: nat, s: nat)
    requires ValidJob(j) && k < |j.members| && s < j.shape.g
    ensures var r := k * j.shape.g + s;
            && 0 <= r < SenderCount(j) && SenderOf(j, r).members == j.members[k] && SenderOf(j, r).s == s
  {
    TimesIs(k, j.shape.g);
    GroupInRange(k, |j.members|, j.shape.g, s);
    RowOfGroup(k, j.shape.g, s);
  }

  lemma LineAt(flows: seq<Flow>, j: Job, r: nat, d: nat, crt: nat)
    requires Layout(flows, j) && InFile(j, r, d, crt)
    ensures var i := r * (j.shape.g - 1) + (d - 1) * j.shape.p + crt;
            0 <= i < |flows| && flows[i] == BatchFlow(SenderOf(j, r), d, crt)
  {
    StartIs(j.shape, r, d);
    FlowIs(flows, j, r, d, crt);
  }

  lemma StartIs(h: Shape, r: nat, d: nat)
    requires h.g >= 1 && d >= 1
    ensures BatchAt(h, r, d) == r * (h.g - 1) + (d - 1) * h.p
  {
    TimesIs(r, h.g - 1);
    TimesIs(d - 1, h.p);
  }

  // ---------------------------------------------------------------- runs

  /** In every run, at every moment, no node has more than `p` flows outstanding. */
  lemma BoundedConcurrency(flows: seq<Flow>, j: Job, run: seq<nat>, node: nat)
    requires Layout(flows, j) && DistinctNodes(j) && j.shape.p <= j.shape.g - 1 && IsRun(Plan(MultiShot, flows), run)
    ensures |Outstanding(Plan(MultiShot, flows), After(Plan(MultiShot, flows), run), node)| <= j.shape.p
  {
    FileWellFormed(flows, j);
    RunKeepsOutstanding(Plan(MultiShot, flows), run, node);
    var first := Outstanding(Plan(MultiShot, flows), Initial(Plan(MultiShot, flows)), node);
    if i: nat :| i in first {
      var r, d, crt := EveryFlow(flows, j, i);
      var a := BatchAt(j.shape, r, 1);
      forall i' | i' in first ensures i' in Interval(a, j.shape.p) {
        SameSource(flows, j, i, i', r, d, crt, node);
      }
      SubsetCount(first, Interval(a, j.shape.p));
    }
  }

  lemma SameSource(flows: seq<Flow>, j: Job, i: nat, i': nat, r: nat, d: nat, crt: nat, node: nat)
    requires Layout(flows, j) && DistinctNodes(j) && i < |flows| && i' < |flows|
    requires flows[i].src == flows[i'].src == node && flows[i'].begin.At?
    requires InFile(j, r, d, crt) && i == BatchAt(j.shape, r, d) + crt
    ensures BatchAt(j.shape, r, 1) <= i' < BatchAt(j.shape, r, 1) + j.shape.p
  {
    FlowIs(flows, j, r, d, crt);
    var r', d', crt' := EveryFlow(flows, j, i');
    DestinationIs(j, r, d, crt);
    DestinationIs(j, r', d', crt');
    GroupOfRow(r, j.shape.g);
    GroupOfRow(r', j.shape.g);
  }

  /** When a batch is larger than the number of peers, the only batch is the leftover, which waits on a trigger
      nobody fires. */
  lemma NothingStarts(flows: seq<Flow>, j: Job)
    requires Layout(flows, j) && j.shape.p > j.shape.g - 1
    ensures Initial(Plan(MultiShot, flows)).started == {}
  {
    HalfIs(j.shape);
    forall i: nat | i < |flows| ensures !flows[i].begin.At? {
      var r, d, crt := EveryFlow(flows, j, i);
    }
  }

  /** Every run can be carried on until all flows are done. */
  ghost predicate AlwaysFinishes(p: Plan) {
    forall run :: IsRun(p, run) && |run| < |p.flows| ==> CanGoOn(p, run)
  }

  ghost predicate CanGoOn(p: Plan, run: seq<nat>) {
    exists i :: Enabled(p, After(p, run), i)
  }

  lemma FinishesWhenWellFormed(p: Plan)
    requires WellFormed(p)
    ensures AlwaysFinishes(p)
  {
    forall run | IsRun(p, run) && |run| < |p.flows| ensures CanGoOn(p, run) {
      NeverStuck(p, run);
    }
  }

  lemma StuckAtStart(p: Plan)
    requires Initial(p).started == {} && p.flows != []
    ensures !AlwaysFinishes(p)
  {
    var run: seq<nat> := [];
    assert IsRun(p, run) && !CanGoOn(p, run);
  }

  /** The file never deadlocks exactly when a batch fits among the `g - 1` peers. */
  lemma DeadlockFreeIff(flows: seq<Flow>, j: Job)
    requires Layout(flows, j) && |j.members| >= 1
    ensures AlwaysFinishes(Plan(MultiShot, flows)) <==> j.shape.p <= j.shape.g - 1
  {
    if j.shape.p <= j.shape.g - 1 {
      FileWellFormed(flows, j);
      FinishesWhenWellFormed(Plan(MultiShot, flows));
    } else {
      NothingStarts(flows, j);
      var i := PairHasFlow(flows, j, 0, 0, 1);
      StuckAtStart(Plan(MultiShot, flows));
    }
  }
}
