/**
 What the event loop of plot_trace.py computes from a packet trace, flow by flow: which packets are in flight,
 which losses are still undetected, which retransmission requests were spurious.
 */
module Trace {

  /** One parsed line of the trace; `tracked` packets are those of type data or rtx. */
  datatype Event =
    | Send(flow: nat, psn: nat, time: real, tracked: bool)
    | Trim(flow: nat, psn: nat, time: real)
    | Drop(flow: nat, psn: nat, time: real, tracked: bool)
    | Receive(flow: nat, psn: nat, time: real, tracked: bool)
    | Requeue(flow: nat, psn: nat, time: real)

  /** A lost packet and a retransmission request, each with the place in the trace that recorded it. */
  datatype Loss = Loss(psn: nat, time: real, at: nat)
  datatype Request = Request(psn: nat, time: real, at: nat)

  /** A request that met a recorded loss. */
  datatype Detection = Detection(loss: Loss, time: real)

  /** The lists kept for one flow. */
  datatype Book = Book(flying: seq<nat>, losses: seq<Loss>, spurious: seq<Request>, found: seq<Detection>)

  // ---------------------------------------------------------------- list operations

  function FirstIndex(s: seq<nat>, x: nat): (i: nat)
    requires x in s
    ensures i < |s| && s[i] == x && forall m :: 0 <= m < i ==> s[m] != x
  {
    if s[0] == x then 0 else FirstIndex(s[1..], x) + 1
  }

  function RemoveAt<T>(s: seq<T>, i: nat): (r: seq<T>)
    requires i < |s|
    ensures |r| == |s| - 1
  {
    s[..i] + s[i + 1..]
  }

  function RemoveFirst(s: seq<nat>, x: nat): seq<nat>
    requires x in s
  {
    RemoveAt(s, FirstIndex(s, x))
  }

  function PsnsOf(losses: seq<Loss>): (r: seq<nat>)
    ensures |r| == |losses| && forall i :: 0 <= i < |r| ==> r[i] == losses[i].psn
  {
    seq(|losses|, i requires 0 <= i < |losses| => losses[i].psn)
  }

  function TimesOf(losses: seq<Loss>): (r: seq<real>)
    ensures |r| == |losses| && forall i :: 0 <= i < |r| ==> r[i] == losses[i].time
  {
    seq(|losses|, i requires 0 <= i < |losses| => losses[i].time)
  }

  function RequestPsns(reqs: seq<Request>): (r: seq<nat>)
    ensures |r| == |reqs| && forall i :: 0 <= i < |r| ==> r[i] == reqs[i].psn
  {
    seq(|reqs|, i requires 0 <= i < |reqs| => reqs[i].psn)
  }

  function RequestTimes(reqs: seq<Request>): (r: seq<real>)
    ensures |r| == |reqs| && forall i :: 0 <= i < |r| ==> r[i] == reqs[i].time
  {
    seq(|reqs|, i requires 0 <= i < |reqs| => reqs[i].time)
  }

  function Count(s: seq<nat>, p: nat): nat {
    multiset(s)[p]
  }

  lemma CountSnoc(s: seq<nat>, x: nat, p: nat)
    ensures Count(s + [x], p) == Count(s, p) + if x == p then 1 else 0
  {
  }

  lemma CountRemoveAt(s: seq<nat>, i: nat, p: nat)
    requires i < |s|
    ensures Count(RemoveAt(s, i), p) + (if s[i] == p then 1 else 0) == Count(s, p)
  {
    assert s == s[..i] + [s[i]] + s[i + 1..];
  }

  // ---------------------------------------------------------------- the event loop

  /** The effect of an event of the flow, recorded at position `n` of the trace. */
  function Post(b: Book, e: Event, n: nat): Book {
    match e
    case Send(_, psn, _, tracked) =>
      if tracked then b.(flying := b.flying + [psn]) else b
    case Trim(_, psn, time) => Lose(b, psn, time, n)
    case Drop(_, psn, time, tracked) => if tracked then Lose(b, psn, time, n) else b
    case Receive(_, psn, _, tracked) =>
      if tracked && psn in b.flying then b.(flying := RemoveFirst(b.flying, psn)) else b
    case Requeue(_, psn, time) =>
      if psn !in PsnsOf(b.losses) then b.(spurious := b.spurious + [Request(psn, time, n)])
      else
        var i := FirstIndex(PsnsOf(b.losses), psn);
        b.(losses := RemoveAt(b.losses, i), found := b.found + [Detection(b.losses[i], time)])
  }

  function Lose(b: Book, psn: nat, time: real, n: nat): Book {
    if psn !in b.flying then b
    else b.(flying := RemoveFirst(b.flying, psn), losses := b.losses + [Loss(psn, time, n)])
  }

  function BookOf(trace: seq<Event>, f: nat): Book {
    if trace == [] then Book([], [], [], [])
    else
      var n := |trace| - 1;
      var b := BookOf(trace[..n], f);
      if trace[n].flow == f then Post(b, trace[n], n) else b
  }

  /** Flow `f` has a list of packets in flight: it sent a tracked packet. */
  predicate Known(trace: seq<Event>, f: nat) {
    exists n :: 0 <= n < |trace| && trace[n].Send? && trace[n].tracked && trace[n].flow == f
  }

  /** The script looks the flow of a trimmed packet up without a guard, so a trim needs an earlier send. */
  predicate Fails(trace: seq<Event>, e: Event) {
    e.Trim? && !Known(trace, e.flow)
  }

  /** So the script gets through a trace if and only if every trim comes after a tracked send of its flow. */
  lemma NoFailureIff(trace: seq<Event>)
    ensures (forall n :: 0 <= n < |trace| ==> !Fails(trace[..n], trace[n])) <==>
              forall n :: 0 <= n < |trace| && trace[n].Trim? ==>
                exists m :: 0 <= m < n && trace[m].Send? && trace[m].tracked && trace[m].flow == trace[n].flow
  {
    forall n | 0 <= n < |trace|
      ensures Known(trace[..n], trace[n].flow) <==>
                exists m :: 0 <= m < n && trace[m].Send? && trace[m].tracked && trace[m].flow == trace[n].flow
    {
      KnownBefore(trace, n, trace[n].flow);
    }
  }

  lemma KnownBefore(trace: seq<Event>, n: nat, f: nat)
    requires n < |trace|
    ensures Known(trace[..n], f) <==>
              exists m :: 0 <= m < n && trace[m].Send? && trace[m].tracked && trace[m].flow == f
  {
    if m :| 0 <= m < n && trace[m].Send? && trace[m].tracked && trace[m].flow == f {
      assert trace[..n][m] == trace[m];
    }
    if m :| 0 <= m < n && trace[..n][m].Send? && trace[..n][m].tracked && trace[..n][m].flow == f {
      assert trace[..n][m] == trace[m];
    }
  }

  predicate Outstanding(trace: seq<Event>, f: nat, psn: nat) {
    psn in PsnsOf(BookOf(trace, f).losses)
  }

  /** Detection times, over all flows, in the order of the trace. */
  function DetectionTimes(trace: seq<Event>): seq<real> {
    if trace == [] then []
    else
      var n := |trace| - 1;
      var rest, e := trace[..n], trace[n];
      var losses := BookOf(rest, e.flow).losses;
      if e.Requeue? && e.psn in PsnsOf(losses) then
        DetectionTimes(rest) + [e.time - losses[FirstIndex(PsnsOf(losses), e.psn)].time]
      else DetectionTimes(rest)
  }

  /** Times of all spurious requests. */
  function SpuriousTimes(trace: seq<Event>): seq<real> {
    if trace == [] then []
    else
      var n := |trace| - 1;
      var rest, e := trace[..n], trace[n];
      if e.Requeue? && !Outstanding(rest, e.flow, e.psn) then SpuriousTimes(rest) + [e.time] else SpuriousTimes(rest)
  }

  // ---------------------------------------------------------------- conservation

  /** The same bookkeeping for one packet number of one flow, with counters instead of lists. */
  datatype Tally = Tally(sent: nat, flying: nat, received: nat, lost: nat, open: nat, found: nat, asked: nat,
                         spurious: nat)

  function Tick(t: Tally, e: Event): Tally {
    match e
    case Send(_, _, _, tracked) => if tracked then t.(sent := t.sent + 1, flying := t.flying + 1) else t
    case Trim(_, _, _) => TickLost(t)
    case Drop(_, _, _, tracked) => if tracked then TickLost(t) else t
    case Receive(_, _, _, tracked) =>
      if tracked && t.flying > 0 then t.(flying := t.flying - 1, received := t.received + 1) else t
    case Requeue(_, _, _) =>
      if t.open > 0 then t.(asked := t.asked + 1, open := t.open - 1, found := t.found + 1)
      else t.(asked := t.asked + 1, spurious := t.spurious + 1)
  }

  function TickLost(t: Tally): Tally {
    if t.flying > 0 then t.(flying := t.flying - 1, lost := t.lost + 1, open := t.open + 1) else t
  }

  function TallyOf(trace: seq<Event>, f: nat, p: nat): Tally {
    if trace == [] then Tally(0, 0, 0, 0, 0, 0, 0, 0)
    else
      var n := |trace| - 1;
      var t := TallyOf(trace[..n], f, p);
      if trace[n].flow == f && trace[n].psn == p then Tick(t, trace[n]) else t
  }

  function FoundPsns(found: seq<Detection>): (r: seq<nat>)
    ensures |r| == |found| && forall i :: 0 <= i < |r| ==> r[i] == found[i].loss.psn
  {
    seq(|found|, i requires 0 <= i < |found| => found[i].loss.psn)
  }

  ghost predicate Agrees(b: Book, t: Tally, p: nat) {
    && Count(b.flying, p) == t.flying
    && Count(PsnsOf(b.losses), p) == t.open
    && Count(RequestPsns(b.spurious), p) == t.spurious
    && Count(FoundPsns(b.found), p) == t.found
  }

  lemma PostAgrees(b: Book, t: Tally, e: Event, n: nat, p: nat)
    requires Agrees(b, t, p)
    ensures Agrees(Post(b, e, n), if e.psn == p then Tick(t, e) else t, p)
  {
    match e
    case Send(_, psn, _, _) =>
      CountSnoc(b.flying, psn, p);
    case Trim(_, psn, time) =>
      LoseAgrees(b, t, psn, time, n, p);
    case Drop(_, psn, time, tracked) =>
      LoseAgrees(b, t, psn, time, n, p);
    case Receive(_, psn, _, _) =>
      if psn in b.flying { CountRemoveAt(b.flying, FirstIndex(b.flying, psn), p); }
    case Requeue(_, psn, time) =>
      RequeueAgrees(b, t, e, n, p);
  }

  lemma RequeueAgrees(b: Book, t: Tally, e: Event, n: nat, p: nat)
    requires Agrees(b, t, p) && e.Requeue?
    ensures Agrees(Post(b, e, n), if e.psn == p then Tick(t, e) else t, p)
  {
    if e.psn in PsnsOf(b.losses) {
      StrikeCounts(b, FirstIndex(PsnsOf(b.losses), e.psn), e.time, p);
    } else {
      SpuriousCounts(b, e, n, p);
    }
  }

  lemma StrikeCounts(b: Book, i: nat, time: real, p: nat)
    requires i < |b.losses|
    ensures var one, found := if b.losses[i].psn == p then 1 else 0, b.found + [Detection(b.losses[i], time)];
            && Count(PsnsOf(RemoveAt(b.losses, i)), p) + one == Count(PsnsOf(b.losses), p)
            && Count(FoundPsns(found), p) == Count(FoundPsns(b.found), p) + one
  {
    var psn := b.losses[i].psn;
    CountRemoveAt(PsnsOf(b.losses), i, p);
    assert PsnsOf(RemoveAt(b.losses, i)) == RemoveAt(PsnsOf(b.losses), i);
    CountSnoc(FoundPsns(b.found), psn, p);
    assert FoundPsns(b.found + [Detection(b.losses[i], time)]) == FoundPsns(b.found) + [psn];
  }

  lemma SpuriousCounts(b: Book, e: Event, n: nat, p: nat)
    ensures Count(RequestPsns(b.spurious + [Request(e.psn, e.time, n)]), p)
            == Count(RequestPsns(b.spurious), p) + if e.psn == p then 1 else 0
  {
    CountSnoc(RequestPsns(b.spurious), e.psn, p);
    assert RequestPsns(b.spurious + [Request(e.psn, e.time, n)]) == RequestPsns(b.spurious) + [e.psn];
  }

  lemma LoseAgrees(b: Book, t: Tally, psn: nat, time: real, n: nat, p: nat)
    requires Agrees(b, t, p)
    ensures Agrees(Lose(b, psn, time, n), if psn == p then TickLost(t) else t, p)
  {
    if psn in b.flying {
      CountRemoveAt(b.flying, FirstIndex(b.flying, psn), p);
      CountSnoc(PsnsOf(b.losses), psn, p);
      assert PsnsOf(b.losses + [Loss(psn, time, n)]) == PsnsOf(b.losses) + [psn];
    }
  }

  /** The lists of a flow hold each packet number exactly as often as the counters say. */
  lemma {:induction false} BookAgrees(trace: seq<Event>, f: nat, p: nat)
    ensures Agrees(BookOf(trace, f), TallyOf(trace, f, p), p)
  {
    if trace != [] {
      var n := |trace| - 1;
      BookAgrees(trace[..n], f, p);
      if trace[n].flow == f {
        PostAgrees(BookOf(trace[..n], f), TallyOf(trace[..n], f, p), trace[n], n, p);
      }
    }
  }

  function Sends(trace: seq<Event>, f: nat, p: nat): nat {
    |set n | 0 <= n < |trace| && trace[n].Send? && trace[n].tracked && trace[n].flow == f && trace[n].psn == p|
  }

  function Requests(trace: seq<Event>, f: nat, p: nat): nat {
    |set n | 0 <= n < |trace| && trace[n].Requeue? && trace[n].flow == f && trace[n].psn == p|
  }

  /** Receipts of packets that were in flight. */
  function Receipts(trace: seq<Event>, f: nat, p: nat): nat {
    |set n | 0 <= n < |trace| && IsReceipt(trace, f, p, n)|
  }

  predicate IsReceipt(trace: seq<Event>, f: nat, p: nat, n: nat)
    requires n < |trace|
  {
    && trace[n].Receive? && trace[n].tracked && trace[n].flow == f && trace[n].psn == p
    && p in BookOf(trace[..n], f).flying
  }

  lemma ReceiptsStep(trace: seq<Event>, f: nat, p: nat)
    requires trace != []
    ensures var n := |trace| - 1;
            Receipts(trace, f, p) == Receipts(trace[..n], f, p) + if IsReceipt(trace, f, p, n) then 1 else 0
  {
    var last := |trace| - 1;
    var rest := trace[..last];
    forall n | 0 <= n < last ensures IsReceipt(trace, f, p, n) <==> IsReceipt(rest, f, p, n) {
      assert rest[..n] == trace[..n];
    }
    var before := set n | 0 <= n < |rest| && IsReceipt(rest, f, p, n);
    var all := set n | 0 <= n < |trace| && IsReceipt(trace, f, p, n);
    assert all == before + if IsReceipt(trace, f, p, last) then {last} else {};
  }

  lemma {:induction false} TallyReceives(trace: seq<Event>, f: nat, p: nat)
    ensures TallyOf(trace, f, p).received == Receipts(trace, f, p)
  {
    if trace != [] {
      var rest := trace[..|trace| - 1];
      TallyReceives(rest, f, p);
      ReceiptsStep(trace, f, p);
      BookAgrees(rest, f, p);
    }
  }

  /** Drops and trims of packets that were in flight. */
  function Losses(trace: seq<Event>, f: nat, p: nat): nat {
    |set n | 0 <= n < |trace| && IsLoss(trace, f, p, n)|
  }

  predicate IsLoss(trace: seq<Event>, f: nat, p: nat, n: nat)
    requires n < |trace|
  {
    && (trace[n].Trim? || (trace[n].Drop? && trace[n].tracked)) && trace[n].flow == f && trace[n].psn == p
    && p in BookOf(trace[..n], f).flying
  }

  lemma LossesStep(trace: seq<Event>, f: nat, p: nat)
    requires trace != []
    ensures var n := |trace| - 1;
            Losses(trace, f, p) == Losses(trace[..n], f, p) + if IsLoss(trace, f, p, n) then 1 else 0
  {
    var last := |trace| - 1;
    var rest := trace[..last];
    forall n | 0 <= n < last ensures IsLoss(trace, f, p, n) <==> IsLoss(rest, f, p, n) {
      assert rest[..n] == trace[..n];
    }
    var before := set n | 0 <= n < |rest| && IsLoss(rest, f, p, n);
    var all := set n | 0 <= n < |trace| && IsLoss(trace, f, p, n);
    assert all == before + if IsLoss(trace, f, p, last) then {last} else {};
  }

  lemma {:induction false} TallyLoses(trace: seq<Event>, f: nat, p: nat)
    ensures TallyOf(trace, f, p).lost == Losses(trace, f, p)
  {
    if trace != [] {
      var rest := trace[..|trace| - 1];
      TallyLoses(rest, f, p);
      LossesStep(trace, f, p);
      BookAgrees(rest, f, p);
    }
  }

  lemma SendsSnoc(trace: seq<Event>, e: Event, f: nat, p: nat)
    ensures Sends(trace + [e], f, p)
            == Sends(trace, f, p) + if e.Send? && e.tracked && e.flow == f && e.psn == p then 1 else 0
  {
    var before := set n | 0 <= n < |trace| && trace[n].Send? && trace[n].tracked && trace[n].flow == f
        && trace[n].psn == p;
    var all := set n | 0 <= n < |trace + [e]| && (trace + [e])[n].Send? && (trace + [e])[n].tracked
                       && (trace + [e])[n].flow == f && (trace + [e])[n].psn == p;
    assert all == before + if e.Send? && e.tracked && e.flow == f && e.psn == p then {|trace|} else {};
  }

  lemma RequestsSnoc(trace: seq<Event>, e: Event, f: nat, p: nat)
    ensures Requests(trace + [e], f, p)
            == Requests(trace, f, p) + if e.Requeue? && e.flow == f && e.psn == p then 1 else 0
  {
    var before := set n | 0 <= n < |trace| && trace[n].Requeue? && trace[n].flow == f && trace[n].psn == p;
    var all := set n | 0 <= n < |trace + [e]| && (trace + [e])[n].Requeue? && (trace + [e])[n].flow == f
        && (trace + [e])[n].psn == p;
    assert all == before + if e.Requeue? && e.flow == f && e.psn == p then {|trace|} else {};
  }

  lemma {:induction false} TallyCounts(trace: seq<Event>, f: nat, p: nat)
    ensures TallyOf(trace, f, p).sent == Sends(trace, f, p) && TallyOf(trace, f, p).asked == Requests(trace, f, p)
  {
    if trace != [] {
      var rest, e := trace[..|trace| - 1], trace[|trace| - 1];
      TallyCounts(rest, f, p);
      SendsSnoc(rest, e, f, p);
      RequestsSnoc(rest, e, f, p);
      assert trace == rest + [e];
    }
  }

  lemma {:induction false} TallyBalances(trace: seq<Event>, f: nat, p: nat)
    ensures var t := TallyOf(trace, f, p);
            t.sent == t.flying + t.received + t.lost && t.lost == t.open + t.found && t.asked == t.found + t.spurious
  {
    if trace != [] {
      TallyBalances(trace[..|trace| - 1], f, p);
    }
  }

  /** After every prefix of a trace, for every flow and packet number: what was sent is in flight, received, lost and
      not asked for, or lost and detected; and every request either detected a loss or was spurious. */
  lemma Conservation(trace: seq<Event>, f: nat, p: nat)
    ensures var b := BookOf(trace, f);
            && Sends(trace, f, p) == Count(b.flying, p) + Receipts(trace, f, p)
                                     + Count(PsnsOf(b.losses), p) + Count(FoundPsns(b.found), p)
            && Losses(trace, f, p) == Count(PsnsOf(b.losses), p) + Count(FoundPsns(b.found), p)
            && Requests(trace, f, p) == Count(FoundPsns(b.found), p) + Count(RequestPsns(b.spurious), p)
  {
    BookAgrees(trace, f, p);
    TallyCounts(trace, f, p);
    TallyReceives(trace, f, p);
    TallyLoses(trace, f, p);
    TallyBalances(trace, f, p);
  }

  function AllRequests(trace: seq<Event>): nat {
    |set n | 0 <= n < |trace| && trace[n].Requeue?|
  }

  lemma AllRequestsStep(trace: seq<Event>)
    requires trace != []
    ensures var n := |trace| - 1; AllRequests(trace) == AllRequests(trace[..n]) + if trace[n].Requeue? then 1 else 0
  {
    var n := |trace| - 1;
    var rest := trace[..n];
    var before := set m | 0 <= m < |rest| && rest[m].Requeue?;
    var all := set m | 0 <= m < |trace| && trace[m].Requeue?;
    assert all == before + if trace[n].Requeue? then {n} else {};
  }

  /** Over all flows, detections and spurious requests add up to the requests. */
  lemma {:induction false} RequestsAddUp(trace: seq<Event>)
    ensures |DetectionTimes(trace)| + |SpuriousTimes(trace)| == AllRequests(trace)
  {
    if trace == [] {
      assert AllRequests([]) == 0;
    } else {
      RequestsAddUp(trace[..|trace| - 1]);
      AllRequestsStep(trace);
    }
  }

  // ---------------------------------------------------------------- which loss a request meets

  ghost predicate Ordered(trace: seq<Event>) {
    forall m, n :: 0 <= m < n < |trace| ==> trace[m].time <= trace[n].time
  }

  /** Losses are listed in the order of the trace, after every spurious request for the same packet; detected losses
      came before the request that found them. */
  ghost predicate InOrder(b: Book, trace: seq<Event>) {
    Recorded(b, trace) && Sorted(b)
  }

  ghost predicate Recorded(b: Book, trace: seq<Event>) {
    && (forall i :: 0 <= i < |b.losses| ==> b.losses[i].at < |trace| && b.losses[i].time == trace[b.losses[i].at].time)
    && (forall i :: 0 <= i < |b.spurious| ==>
          b.spurious[i].at < |trace| && b.spurious[i].time == trace[b.spurious[i].at].time)
  }

  ghost predicate Sorted(b: Book) {
    && (forall i, k :: 0 <= i < k < |b.losses| ==> b.losses[i].at < b.losses[k].at)
    && (forall i, k :: 0 <= i < |b.spurious| && 0 <= k < |b.losses| && b.spurious[i].psn == b.losses[k].psn ==>
          b.spurious[i].at < b.losses[k].at)
  }

  lemma LoseInOrder(b: Book, trace: seq<Event>, e: Event)
    requires InOrder(b, trace)
    ensures InOrder(Lose(b, e.psn, e.time, |trace|), trace + [e])
  {
  }

  lemma RequeueInOrder(b: Book, trace: seq<Event>, e: Event)
    requires InOrder(b, trace) && e.Requeue?
    ensures InOrder(Post(b, e, |trace|), trace + [e])
  {
    if e.psn !in PsnsOf(b.losses) {
      assert forall k :: 0 <= k < |b.losses| ==> PsnsOf(b.losses)[k] != e.psn;
      assert Sorted(Post(b, e, |trace|));
    } else {
      RemoveKeepsSorted(b, FirstIndex(PsnsOf(b.losses), e.psn));
    }
  }

  lemma RemoveKeepsSorted(b: Book, i: nat)
    requires Sorted(b) && i < |b.losses|
    ensures Sorted(b.(losses := RemoveAt(b.losses, i)))
  {
  }

  lemma PostInOrder(b: Book, trace: seq<Event>, e: Event)
    requires InOrder(b, trace)
    ensures InOrder(b, trace + [e]) && InOrder(Post(b, e, |trace|), trace + [e])
  {
    if e.Requeue? {
      RequeueInOrder(b, trace, e);
    } else {
      LoseInOrder(b, trace, e);
    }
  }

  lemma {:induction false} BookInOrder(trace: seq<Event>, f: nat)
    ensures InOrder(BookOf(trace, f), trace)
  {
    if trace != [] {
      var rest, e := trace[..|trace| - 1], trace[|trace| - 1];
      BookInOrder(rest, f);
      PostInOrder(BookOf(rest, f), rest, e);
      assert trace == rest + [e];
    }
  }

  /** A request that detects a loss meets the oldest outstanding one of its packet number. */
  lemma DetectsOldest(trace: seq<Event>, f: nat, psn: nat, k: nat)
    requires Outstanding(trace, f, psn)
    requires k < |BookOf(trace, f).losses| && BookOf(trace, f).losses[k].psn == psn
    ensures var losses := BookOf(trace, f).losses;
            losses[FirstIndex(PsnsOf(losses), psn)].at <= losses[k].at
  {
    BookInOrder(trace, f);
    var losses := BookOf(trace, f).losses;
    assert PsnsOf(losses)[k] == psn;
  }

  /** Entry `k` is the first one of the packet number. */
  predicate IsFirst(psns: seq<nat>, psn: nat, k: nat) {
    k < |psns| && psns[k] == psn && forall m :: 0 <= m < k ==> psns[m] != psn
  }

  /** The time it records is measured from the oldest outstanding loss of its packet number, which is moved to the
      detections. */
  lemma DetectionMeasured(trace: seq<Event>, e: Event) returns (k: nat)
    requires e.Requeue? && Outstanding(trace, e.flow, e.psn)
    ensures var b, b' := BookOf(trace, e.flow), BookOf(trace + [e], e.flow);
            && IsFirst(PsnsOf(b.losses), e.psn, k)
            && DetectionTimes(trace + [e]) == DetectionTimes(trace) + [e.time - b.losses[k].time]
            && b'.found == b.found + [Detection(b.losses[k], e.time)] && b'.losses == b.losses[..k] + b.losses[k + 1..]
            && b'.spurious == b.spurious && SpuriousTimes(trace + [e]) == SpuriousTimes(trace)
  {
    assert (trace + [e])[..|trace|] == trace;
    k := FirstIndex(PsnsOf(BookOf(trace, e.flow).losses), e.psn);
  }

  /** A request without outstanding loss is spurious at its own time, and no other event records a time. */
  lemma NothingMeasured(trace: seq<Event>, e: Event)
    requires !e.Requeue? || !Outstanding(trace, e.flow, e.psn)
    ensures DetectionTimes(trace + [e]) == DetectionTimes(trace)
    ensures SpuriousTimes(trace + [e]) == SpuriousTimes(trace) + if e.Requeue? then [e.time] else []
    ensures BookOf(trace + [e], e.flow).found == BookOf(trace, e.flow).found
  {
    assert (trace + [e])[..|trace|] == trace;
  }

  /** So on a time-ordered trace no detection time is negative. */
  lemma {:induction false} DetectionsNotNegative(trace: seq<Event>)
    requires Ordered(trace)
    ensures forall i :: 0 <= i < |DetectionTimes(trace)| ==> DetectionTimes(trace)[i] >= 0.0
  {
    if trace != [] {
      var n := |trace| - 1;
      DetectionsNotNegative(trace[..n]);
      BookInOrder(trace[..n], trace[n].flow);
    }
  }

  // ---------------------------------------------------------------- the pass over spurious requests

  /** Each request, in order, takes the oldest remaining loss of its packet number, if there is one. */
  function Remaining(losses: seq<Loss>, reqs: seq<Request>): seq<Loss>
    decreases |reqs|
  {
    if reqs == [] then losses
    else
      var rest := Remaining(losses, reqs[..|reqs| - 1]);
      var psn := reqs[|reqs| - 1].psn;
      if psn in PsnsOf(rest) then RemoveAt(rest, FirstIndex(PsnsOf(rest), psn)) else rest
  }

  function Matched(losses: seq<Loss>, reqs: seq<Request>): seq<Request>
    decreases |reqs|
  {
    if reqs == [] then []
    else
      var last := reqs[|reqs| - 1];
      var before := Matched(losses, reqs[..|reqs| - 1]);
      if last.psn in PsnsOf(Remaining(losses, reqs[..|reqs| - 1])) then before + [last] else before
  }

  lemma MatchStep(rest: seq<Loss>, matched: seq<Request>, last: Request, p: nat)
    ensures Count(RequestPsns(matched + [last]), p) == Count(RequestPsns(matched), p) + if last.psn == p then 1 else 0
    ensures last.psn in PsnsOf(rest) ==>
              Count(PsnsOf(RemoveAt(rest, FirstIndex(PsnsOf(rest), last.psn))), p) + (if last.psn == p then 1 else 0)
              == Count(PsnsOf(rest), p)
  {
    assert RequestPsns(matched + [last]) == RequestPsns(matched) + [last.psn];
    CountSnoc(RequestPsns(matched), last.psn, p);
    if last.psn in PsnsOf(rest) {
      var i := FirstIndex(PsnsOf(rest), last.psn);
      CountRemoveAt(PsnsOf(rest), i, p);
      assert PsnsOf(RemoveAt(rest, i)) == RemoveAt(PsnsOf(rest), i);
    }
  }

  /** For every packet number the pass matches as many requests as possible: the minimum of requests and losses. */
  lemma {:induction false} MatchesMinimum(losses: seq<Loss>, reqs: seq<Request>, p: nat)
    ensures var wanted, had := Count(RequestPsns(reqs), p), Count(PsnsOf(losses), p);
            var matched := Count(RequestPsns(Matched(losses, reqs)), p);
            && matched == (if wanted <= had then wanted else had)
            && Count(PsnsOf(Remaining(losses, reqs)), p) + matched == had
    decreases |reqs|
  {
    if reqs == [] {
    } else {
      var init, last := reqs[..|reqs| - 1], reqs[|reqs| - 1];
      MatchesMinimum(losses, init, p);
      assert reqs == init + [last];
      MatchStep(Remaining(losses, init), init, last, p);
      MatchStep(Remaining(losses, init), Matched(losses, init), last, p);
    }
  }

  function LossesOf(losses: seq<Loss>, p: nat): (r: seq<Loss>) {
    if losses == [] then []
    else (if losses[0].psn == p then [losses[0]] else []) + LossesOf(losses[1..], p)
  }

  function RequestsOf(reqs: seq<Request>, p: nat): (r: seq<Request>) {
    if reqs == [] then []
    else
      var n := |reqs| - 1;
      RequestsOf(reqs[..n], p) + if reqs[n].psn == p then [reqs[n]] else []
  }

  /** And of each packet number the earliest ones: the first `m` requests take the first `m` losses, and the later ones
      of whichever there are more stay. */
  lemma {:induction false} MatchesEarliest(losses: seq<Loss>, reqs: seq<Request>, p: nat)
    ensures var wanted, had := RequestsOf(reqs, p), LossesOf(losses, p);
            var m := if |wanted| <= |had| then |wanted| else |had|;
            RequestsOf(Matched(losses, reqs), p) == wanted[..m] && LossesOf(Remaining(losses, reqs), p) == had[m..]
    decreases |reqs|
  {
    if reqs != [] {
      var init, last := reqs[..|reqs| - 1], reqs[|reqs| - 1];
      MatchesEarliest(losses, init, p);
      var rest := Remaining(losses, init);
      RequestsOfSnoc(Matched(losses, init), last, p);
      NoneLeft(rest, last.psn);
      if last.psn in PsnsOf(rest) {
        FirstTaken(rest, last.psn, p);
      }
    }
  }

  lemma RequestsOfSnoc(reqs: seq<Request>, last: Request, p: nat)
    ensures RequestsOf(reqs + [last], p) == RequestsOf(reqs, p) + if last.psn == p then [last] else []
  {
    assert (reqs + [last])[..|reqs|] == reqs;
  }

  lemma {:induction false} NoneLeft(losses: seq<Loss>, p: nat)
    ensures p in PsnsOf(losses) <==> LossesOf(losses, p) != []
  {
    if losses != [] {
      NoneLeft(losses[1..], p);
      assert PsnsOf(losses) == [losses[0].psn] + PsnsOf(losses[1..]);
    }
  }

  lemma FirstTaken(losses: seq<Loss>, psn: nat, p: nat)
    requires psn in PsnsOf(losses)
    ensures LossesOf(losses, psn) != []
    ensures LossesOf(RemoveAt(losses, FirstIndex(PsnsOf(losses), psn)), p)
            == LossesOf(losses, p)[if p == psn then 1 else 0..]
  {
    var k := FirstIndex(PsnsOf(losses), psn);
    assert forall m :: 0 <= m < k ==> PsnsOf(losses)[m] != psn;
    NoneLeft(losses, psn);
    TakenAt(losses, k, p);
  }

  lemma {:induction false} TakenAt(losses: seq<Loss>, k: nat, p: nat)
    requires k < |losses| && forall m :: 0 <= m < k ==> losses[m].psn != losses[k].psn
    ensures p == losses[k].psn ==> LossesOf(losses, p) != []
    ensures LossesOf(RemoveAt(losses, k), p) == LossesOf(losses, p)[if p == losses[k].psn then 1 else 0..]
  {
    var rest := losses[1..];
    if k == 0 {
      assert RemoveAt(losses, 0) == rest;
    } else {
      TakenAt(rest, k - 1, p);
      LossesCons(losses[0], RemoveAt(rest, k - 1), p);
      assert RemoveAt(losses, k) == [losses[0]] + RemoveAt(rest, k - 1);
    }
  }

  lemma LossesCons(first: Loss, rest: seq<Loss>, p: nat)
    ensures LossesOf([first] + rest, p) == (if first.psn == p then [first] else []) + LossesOf(rest, p)
  {
    assert ([first] + rest)[1..] == rest;
  }

  /** Everything the pass can consume was lost after every spurious request for that packet: the requests it credits
      were for future losses. */
  lemma CreditsOnlyFutureLosses(trace: seq<Event>, f: nat, i: nat, k: nat)
    requires var b := BookOf(trace, f); i < |b.spurious| && k < |b.losses| && b.spurious[i].psn == b.losses[k].psn
    ensures var b := BookOf(trace, f);
            b.spurious[i].at < b.losses[k].at && (Ordered(trace) ==> b.spurious[i].time <= b.losses[k].time)
  {
    BookInOrder(trace, f);
  }
}
