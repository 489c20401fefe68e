/**
 Batched all-to-all (gen_serialn_alltoall.py).  Every member of a group sends one flow to every other member,
 `parallel` at a time: the flows of a batch fire a multi-shot trigger when done, and each firing starts one
 flow of the sender's next batch.  What does not fill a batch goes into one last, shorter batch.
 */
module AllToAll {
  import opened Arith
  import opened Rows
  import opened TriggerGraph

  // ---------------------------------------------------------------- one sender

  /** `g - 1 == half * p + left`: `half` full batches of `p` flows and `left` leftover flows. */
  datatype Shape = Shape(g: nat, p: nat, half: nat, left: nat)

  ghost predicate ValidShape(h: Shape) {
    h.g >= 2 && h.left < h.p && h.g - 1 == Times(h.half, h.p) + h.left
  }

  /** Batches are numbered from 1; batch `half + 1` holds the leftover. */
  function Width(h: Shape, d: nat): nat {
    if d <= h.half then h.p else h.left
  }

  ghost predicate InBatch(h: Shape, d: nat, crt: nat) {
    1 <= d <= h.half + 1 && crt < Width(h, d)
  }

  /** How far round the group the destination of flow `crt` of batch `d` is. */
  function Offset(h: Shape, d: nat, crt: nat): nat {
    if d <= h.half then d + Times(crt, h.half) else Times(h.p, h.half) + crt + 1
  }

  predicate BatchFires(h: Shape, d: nat) {
    d < h.half || (d == h.half && h.left > 0)
  }

  /** How many triggers a sender uses: one for each batch but the last. */
  function TriggersOf(h: Shape): nat {
    if h.left > 0 then h.half else if h.half > 0 then h.half - 1 else 0
  }

  /** A sender: its group, its rank, and the flows and triggers emitted before it. */
  datatype Sender = Sender(members: seq<nat>, s: nat, shape: Shape, start: int, size: int, flowsBefore: nat,
                           firedBefore: nat)

  ghost predicate ValidSender(c: Sender) {
    |c.members| == c.shape.g && c.s < c.shape.g
  }

  function BatchFlow(c: Sender, d: nat, crt: nat): Flow
    requires ValidSender(c) && d >= 1
  {
    Flow(c.members[c.s], c.members[Rem(c.s + Offset(c.shape, d, crt), c.shape.g)],
         c.flowsBefore + Times(d - 1, c.shape.p) + crt + 1,
         if d == 1 && d <= c.shape.half then At(c.start) else OnTrigger(c.firedBefore + d - 1),
         c.size,
         if BatchFires(c.shape, d) then SendDone(c.firedBefore + d) else Quiet)
  }

  // ---------------------------------------------------------------- the whole file

  /** What the command line fixes: the groups (after the shuffle), the shape of each sender, start time, flow size. */
  datatype Job = Job(members: seq<seq<nat>>, shape: Shape, start: int, size: int)

  ghost predicate ValidJob(j: Job) {
    && ValidShape(j.shape)
    && (forall k :: 0 <= k < |j.members| ==> |j.members[k]| == j.shape.g)
  }

  /** Every node is in one group, once. */
  ghost predicate DistinctNodes(j: Job) {
    forall k, s, k', s' ::
      (0 <= k < |j.members| && 0 <= s < |j.members[k]| && 0 <= k' < |j.members| && 0 <= s' < |j.members[k']| &&
       j.members[k][s] == j.members[k'][s']) ==> k == k' && s == s'
  }

  function SenderCount(j: Job): nat {
    Times(|j.members|, j.shape.g)
  }

  function FlowCount(j: Job): nat
    requires j.shape.g >= 1
  {
    Times(SenderCount(j), j.shape.g - 1)
  }

  /** Sender `r` of the file is member `r % g` of group `r / g`. */
  function SenderOf(j: Job, r: nat): (c: Sender)
    requires ValidJob(j) && r < SenderCount(j)
    ensures ValidSender(c) && c.shape == j.shape && c.start == j.start && c.size == j.size
    ensures c.flowsBefore == Times(r, j.shape.g - 1) && c.firedBefore == Times(r, TriggersOf(j.shape))
  {
    RowInGroups(r, |j.members|, j.shape.g);
    Sender(j.members[Quot(r, j.shape.g)], Rem(r, j.shape.g), j.shape, j.start, j.size,
           Times(r, j.shape.g - 1), Times(r, TriggersOf(j.shape)))
  }

  /** Flow `i` of the file: `g - 1` flows a sender, `p` flows a batch. */
  function FlowNo(j: Job, i: nat): Flow
    requires ValidJob(j) && i < FlowCount(j)
  {
    var w, p := j.shape.g - 1, j.shape.p;
    RowInGroups(i, SenderCount(j), w);
    BatchFlow(SenderOf(j, Quot(i, w)), Quot(Rem(i, w), p) + 1, Rem(Rem(i, w), p))
  }

  function FlowsOf(j: Job): (flows: seq<Flow>)
    requires ValidJob(j)
    ensures |flows| == FlowCount(j)
  {
    seq(FlowCount(j), i requires 0 <= i < FlowCount(j) => FlowNo(j, i))
  }

  function FileOf(j: Job): Plan
    requires ValidJob(j)
  {
    Plan(MultiShot, FlowsOf(j))
  }

  /** Position of the first flow of batch `d` of sender `r`. */
  function BatchAt(h: Shape, r: nat, d: nat): nat
    requires h.g >= 1 && d >= 1
  {
    Times(r, h.g - 1) + Times(d - 1, h.p)
  }

  lemma BatchInSender(h: Shape, d: nat, crt: nat)
    requires ValidShape(h) && InBatch(h, d, crt)
    ensures Times(d - 1, h.p) + crt < h.g - 1 && crt < h.p
  {
    if d <= h.half {
      RowsGrow(d - 1, h.half, h.p);
    }
  }

  lemma FlowNoIs(j: Job, r: nat, d: nat, crt: nat)
    requires ValidJob(j) && r < SenderCount(j) && InBatch(j.shape, d, crt)
    ensures BatchAt(j.shape, r, d) + crt < FlowCount(j)
    ensures FlowNo(j, BatchAt(j.shape, r, d) + crt) == BatchFlow(SenderOf(j, r), d, crt)
  {
    PlaceIs(j.shape, SenderCount(j), r, d, crt, BatchAt(j.shape, r, d) + crt);
  }

  /** Sender, batch and flow can be read off the position in the file. */
  lemma PlaceIs(h: Shape, senders: nat, r: nat, d: nat, crt: nat, i: nat)
    requires ValidShape(h) && r < senders && InBatch(h, d, crt) && i == BatchAt(h, r, d) + crt
    ensures i < Times(senders, h.g - 1)
    ensures Quot(i, h.g - 1) == r && Quot(Rem(i, h.g - 1), h.p) == d - 1 && Rem(Rem(i, h.g - 1), h.p) == crt
  {
    var pos := Times(d - 1, h.p) + crt;
    BatchInSender(h, d, crt);
    GroupInRange(r, senders, h.g - 1, pos);
    RowOfGroup(r, h.g - 1, pos);
    RowOfGroup(d - 1, h.p, crt);
  }

  // ---------------------------------------------------------------- the emission loops

  /** The lines emitted so far are the first of the file. */
  ghost predicate IsPrefix(flows: seq<Flow>, j: Job)
    requires ValidJob(j)
  {
    |flows| <= FlowCount(j) && forall i :: 0 <= i < |flows| ==> flows[i] == FlowNo(j, i)
  }

  ghost predicate IsBatch(out: seq<Flow>, c: Sender, d: nat, n: nat)
    requires ValidSender(c) && d >= 1
  {
    |out| == n && forall crt :: 0 <= crt < n ==> out[crt] == BatchFlow(c, d, crt)
  }

  lemma AppendBatch(flows: seq<Flow>, out: seq<Flow>, j: Job, r: nat, d: nat)
    requires ValidJob(j) && r < SenderCount(j) && 1 <= d <= j.shape.half + 1
    requires IsPrefix(flows, j) && |flows| == BatchAt(j.shape, r, d)
    requires IsBatch(out, SenderOf(j, r), d, Width(j.shape, d))
    ensures IsPrefix(flows + out, j)
  {
    forall crt: nat | crt < |out| ensures |flows| + crt < FlowCount(j) && out[crt] == FlowNo(j, |flows| + crt) {
      FlowNoIs(j, r, d, crt);
    }
    if |out| > 0 { FlowNoIs(j, r, d, |out| - 1); }
    forall i | 0 <= i < |flows + out| ensures (flows + out)[i] == FlowNo(j, i) {
      if i >= |flows| {
        assert (flows + out)[i] == out[i - |flows|];
      }
    }
  }

  method Emit(groups: seq<seq<nat>>, groupsize: nat, parallel: nat, startPs: int, flowsize: int)
    returns (flows: seq<Flow>, trigId: nat, ghost j: Job)
    requires groupsize >= 1 && parallel >= 1
    requires forall k :: 0 <= k < |groups| ==> |groups[k]| == groupsize
    ensures groupsize == 1 ==> flows == [] && trigId == 0
    ensures j == Job(groups, ShapeOf(groupsize, parallel), startPs, flowsize)
    ensures groupsize >= 2 ==>
              ValidJob(j) && flows == FlowsOf(j) && trigId == Times(SenderCount(j), TriggersOf(j.shape))
  {
    flows := [];
    trigId := 0;
    var id := 0;
    var half, left := Batches(groupsize, parallel);
    j := Job(groups, Shape(groupsize, parallel, half, left), startPs, flowsize);
    if groupsize == 1 {
      return;
    }
    ghost var r := 0;
    for group := 0 to |groups|
      invariant r == Times(group, groupsize) <= SenderCount(j)
      invariant IsPrefix(flows, j) && id == |flows| == Times(r, groupsize - 1)
      invariant trigId == Times(r, TriggersOf(j.shape))
    {
      RowsGrow(group, |groups|, groupsize);
      var groupsrcs := groups[group];
      for s := 0 to groupsize
        invariant r == Times(group, groupsize) + s
        invariant IsPrefix(flows, j) && id == |flows| == Times(r, groupsize - 1)
        invariant trigId == Times(r, TriggersOf(j.shape))
      {
        RowOfGroup(group, groupsize, s);
        id, trigId, flows := EmitSender(groupsrcs, s, parallel, half, left, startPs, flowsize, id, trigId, flows, j, r);
        r := r + 1;
      }
    }
  }

  method Batches(groupsize: nat, parallel: nat) returns (half: nat, left: nat)
    requires groupsize >= 1 && parallel >= 1
    ensures half == (groupsize - 1) / parallel && left == (groupsize - 1) % parallel
    ensures left < parallel && groupsize - 1 == Times(half, parallel) + left
  {
    half, left := (groupsize - 1) / parallel, (groupsize - 1) % parallel;
    TimesIs(half, parallel);
  }

  /** Triggers allocated for the full batches before `d`. */
  function TriggersUpTo(h: Shape, d: nat): nat
    requires d >= 1
  {
    if d == h.half + 1 then TriggersOf(h) else d - 1
  }

  /** The two loops over one sender's batches. */
  method EmitSender(groupsrcs: seq<nat>, s: nat, parallel: nat, half: nat, left: nat, startPs: int, flowsize: int,
                    id0: nat, trigId0: nat, flows0: seq<Flow>, ghost j: Job, ghost r: nat)
    returns (id: nat, trigId: nat, flows: seq<Flow>)
    requires ValidJob(j) && r < SenderCount(j) && j.shape == Shape(|groupsrcs|, parallel, half, left)
    requires SenderOf(j, r) == Sender(groupsrcs, s, j.shape, startPs, flowsize, id0, trigId0)
    requires IsPrefix(flows0, j) && id0 == |flows0|
    ensures IsPrefix(flows, j) && id == |flows| == id0 + |groupsrcs| - 1
    ensures trigId == trigId0 + TriggersOf(j.shape)
  {
    id, trigId, flows := id0, trigId0, flows0;
    ghost var c := SenderOf(j, r);
    for d := 1 to half + 1
      invariant IsPrefix(flows, j) && id == |flows| == BatchAt(j.shape, r, d)
      invariant trigId == trigId0 + TriggersUpTo(j.shape, d)
    {
      var stTrigger := trigId;
      if d != half || left > 0 {
        trigId := trigId + 1;
      }
      var begin := if d == 1 then At(startPs) else OnTrigger(stTrigger);
      var ending := if d != half || left > 0 then SendDone(trigId) else Quiet;
      var out := EmitBatch(groupsrcs, s, parallel, half, flowsize, d, begin, ending, id, c);
      AppendBatch(flows, out, j, r, d);
      id, flows := id + parallel, flows + out;
    }
    if left > 0 {
      var out := EmitLeft(groupsrcs, s, parallel, half, left, flowsize, trigId, id, c);
      AppendBatch(flows, out, j, r, half + 1);
      id, flows := id + left, flows + out;
    }
  }

  method EmitBatch(groupsrcs: seq<nat>, s: nat, parallel: nat, half: nat, flowsize: int, d: nat, begin: Begin,
                   ending: Ending,
                   id0: nat, ghost c: Sender)
    returns (out: seq<Flow>)
    requires ValidSender(c) && c.members == groupsrcs && c.s == s && c.shape.half == half && c.size == flowsize
             && c.shape.p == parallel
    requires 1 <= d <= half && id0 == c.flowsBefore + Times(d - 1, parallel)
    requires begin == if d == 1 then At(c.start) else OnTrigger(c.firedBefore + d - 1)
    requires ending == if BatchFires(c.shape, d) then SendDone(c.firedBefore + d) else Quiet
    ensures IsBatch(out, c, d, parallel)
  {
    out := [];
    var id := id0;
    for crt := 0 to parallel
      invariant IsBatch(out, c, d, crt) && id == id0 + crt
    {
      id := id + 1;
      var dst := Destination(s + d, crt, half, |groupsrcs|);
      out := out + [Flow(groupsrcs[s], groupsrcs[dst], id, begin, flowsize, ending)];
    }
  }

  method EmitLeft(groupsrcs: seq<nat>, s: nat, parallel: nat, half: nat, left: nat, flowsize: int, stTrigger: nat,
                  id0: nat, ghost c: Sender)
    returns (out: seq<Flow>)
    requires ValidSender(c) && c.members == groupsrcs && c.s == s && c.size == flowsize
    requires c.shape.half == half && c.shape.p == parallel && c.shape.left == left
    requires id0 == c.flowsBefore + Times(half, parallel) && stTrigger == c.firedBefore + half
    ensures IsBatch(out, c, half + 1, left)
  {
    out := [];
    var id := id0;
    for crt := 0 to left
      invariant IsBatch(out, c, half + 1, crt) && id == id0 + crt
    {
      id := id + 1;
      var dst := Destination(s + crt + 1, parallel, half, |groupsrcs|);
      out := out + [Flow(groupsrcs[s], groupsrcs[dst], id, OnTrigger(stTrigger), flowsize, Quiet)];
    }
  }

  method Destination(from: nat, n: nat, half: nat, groupsize: nat) returns (dst: nat)
    requires groupsize >= 1
    ensures dst == Rem(from + Times(n, half), groupsize)
  {
    TimesIs(n, half);
    QuotIs(from + n * half, groupsize);
    dst := (from + n * half) % groupsize;
  }

  // ---------------------------------------------------------------- the counts at the head of the file

  function ShapeOf(g: nat, p: nat): Shape
    requires g >= 1 && p >= 1
  {
    Shape(g, p, (g - 1) / p, (g - 1) % p)
  }

  /** When the trigger count at the head of the file is the one of the triggers in it. */
  predicate CountsRight(conns: nat, g: nat, p: nat)
    requires g >= 1 && p >= 1
  {
    var groups := conns / g;
    if g == 1 then 2 <= conns <= p + 1 else groups >= 1 && groups * ((g - 2) % p) + 2 * (groups - 1) < p
  }

  /** `triggers` are counted from `conns` although triggers are emitted for each group apart. */
  method Header(conns: nat, groupsize: nat, parallel: nat) returns (ok: bool, connections: int, triggers: int)
    requires groupsize >= 1 && parallel >= 1
    ensures ok <==> conns % groupsize == 0
    ensures ok ==> connections == Times(conns, groupsize - 1)
    ensures ok ==>
              (triggers == Times(conns, TriggersOf(ShapeOf(groupsize, parallel)))
               <==> CountsRight(conns, groupsize, parallel))
  {
    if conns % groupsize != 0 {
      return false, 0, 0;
    }
    ok := true;
    connections := conns * (groupsize - 1);
    if (conns - 1) % parallel == 0 {
      triggers := groupsize * ((conns - 1) / parallel - 1);
    } else {
      triggers := groupsize * ((conns - 1) / parallel);
    }
    BatchesBelow(conns, parallel);
    TimesIs(conns, groupsize - 1);
    HeaderTriggers(conns, groupsize, parallel);
  }

  lemma BatchesBelow(n: nat, p: nat)
    requires p >= 1
    ensures (n - 2) / p == if (n - 1) % p == 0 then (n - 1) / p - 1 else (n - 1) / p
  {
    var q, r := (n - 1) / p, (n - 1) % p;
    assert n - 1 == p * q + r;
    if r == 0 {
      Distribute(q - 1, 1, p);
      DivModUnique(n - 2, p, q - 1, p - 1);
    } else {
      DivModUnique(n - 2, p, q, r - 1);
    }
  }

  lemma HeaderTriggers(conns: nat, g: nat, p: nat)
    requires g >= 1 && p >= 1 && conns % g == 0
    ensures g * ((conns - 2) / p) == Times(conns, TriggersOf(ShapeOf(g, p))) <==> CountsRight(conns, g, p)
  {
    TimesIs(conns, TriggersOf(ShapeOf(g, p)));
    if conns == 0 {
      NoConnections(g, p);
    } else if g == 1 {
      OneNodeGroups(conns, p);
    } else {
      ManyNodeGroups(conns, g, p);
    }
  }

  lemma NoConnections(g: nat, p: nat)
    requires g >= 1 && p >= 1
    ensures g * ((0 - 2) / p) < 0 && !CountsRight(0, g, p)
  {
    DivModUnique(-2, p, if p == 1 then -2 else -1, if p == 1 then 0 else p - 2);
    DivModUnique(0, g, 0, 0);
    MulMonotone(1, g, 1);
  }

  lemma OneNodeGroups(conns: nat, p: nat)
    requires p >= 1 && conns >= 1
    ensures TriggersOf(ShapeOf(1, p)) == 0
    ensures (conns - 2) / p == 0 <==> CountsRight(conns, 1, p)
  {
    SmallQuotient(conns, p);
    DivModUnique(0, p, 0, 0);
  }

  lemma ManyNodeGroups(conns: nat, g: nat, p: nat)
    requires g >= 2 && p >= 1 && conns >= 1 && conns % g == 0
    ensures g * ((conns - 2) / p) == conns * TriggersOf(ShapeOf(g, p)) <==> CountsRight(conns, g, p)
  {
    var groups := conns / g;
    assert conns == g * groups + 0;
    ShapeTriggers(g, p);
    HeaderIff(groups, g, p, conns);
  }

  lemma SmallQuotient(n: nat, p: nat)
    requires p >= 1 && n >= 1
    ensures (n - 2) / p == 0 <==> 2 <= n <= p + 1
  {
    if n == 1 {
      DivModUnique(-1, p, -1, p - 1);
    } else if n <= p + 1 {
      DivModUnique(n - 2, p, 0, n - 2);
    }
  }

  lemma ShapeTriggers(g: nat, p: nat)
    requires g >= 2 && p >= 1
    ensures TriggersOf(ShapeOf(g, p)) == (g - 2) / p
  {
    BatchesBelow(g, p);
    RowOf(g - 1, g, p);
    if g - 1 < p {
      DivModUnique(g - 1, p, 0, g - 1);
    }
  }

  /** The header counts `g * floor((conns - 2) / p)` triggers, the file has `groups * g * floor((g - 2) / p)`. */
  lemma HeaderIff(groups: nat, g: nat, p: nat, conns: nat)
    requires groups >= 1 && g >= 2 && p >= 1 && conns == groups * g
    ensures g * ((conns - 2) / p) == (groups * g) * ((g - 2) / p) <==> groups * ((g - 2) % p) + 2 * (groups - 1) < p
  {
    var q, r := (g - 2) / p, (g - 2) % p;
    var rest := groups * r + 2 * (groups - 1);
    var e := rest / p;
    GroupsTotal(groups, g, p, q, r);
    assert rest == p * e + rest % p;
    Distribute(groups * q, e, p);
    DivModUnique(conns - 2, p, groups * q + e, rest % p);
    assert (groups * g) * q == g * (groups * q);
    assert g * (groups * q + e) == g * (groups * q) + g * e;
    if rest < p {
      DivModUnique(rest, p, 0, rest);
    } else {
      MulMonotone(1, e, g);
    }
  }

  lemma GroupsTotal(groups: nat, g: nat, p: nat, q: nat, r: nat)
    requires groups >= 1 && g - 2 == p * q + r
    ensures groups * g - 2 == (groups * q) * p + groups * r + 2 * (groups - 1)
  {
    assert groups * g == groups * (p * q) + groups * r + 2 * groups;
    assert groups * (p * q) == (groups * q) * p;
  }
}
