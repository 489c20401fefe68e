/** The mutable state of `parse_output_file` in plot_trace.py: dictionaries of lists, one entry a flow. */
module Reconciler {
  import opened Trace

  /** The five lists kept for a flow; a flow without an entry in a dictionary has an empty list there. */
  datatype Lists = Lists(flying: seq<nat>, lostPsns: seq<nat>, lostTimes: seq<real>, askedPsns: seq<nat>,
                         askedTimes: seq<real>)

  function Listing(b: Book): Lists {
    Lists(b.flying, PsnsOf(b.losses), TimesOf(b.losses), RequestPsns(b.spurious), RequestTimes(b.spurious))
  }

  function At<T>(m: map<nat, seq<T>>, f: nat): seq<T> {
    if f in m then m[f] else []
  }

  class Parser {
    var flying: map<nat, seq<nat>>             // flying_packet
    var lostPsns: map<nat, seq<nat>>           // drop_trim_packet
    var lostTimes: map<nat, seq<real>>         // drop_trim_packet_timestamps
    var lossDetectionTime: seq<real>
    var askedTimes: map<nat, seq<real>>        // spurious_rtx_packet[...]['time']
    var askedPsns: map<nat, seq<nat>>          // spurious_rtx_packet[...]['psn']
    var spuriousAll: seq<real>                 // sender_rtx_enqueue_data['spurious rtx']['all']['time']
    var future: map<nat, seq<real>>            // sender_rtx_enqueue_data['spurious rtx for future loss'][...]['time']
    ghost var trace: seq<Event>

    /** The dictionaries hold the books of the trace read so far. */
    ghost predicate Valid()
      reads this
    {
      && Paired()
      && (forall f :: f in flying <==> Known(trace, f))
      && (forall f :: Listed(f, BookOf(trace, f)))
      && lossDetectionTime == DetectionTimes(trace)
      && spuriousAll == SpuriousTimes(trace)
      && future == map[]
    }

    /** The lists of packet numbers and of times have entries for the same flows. */
    predicate Paired()
      reads this
    {
      lostPsns.Keys == lostTimes.Keys && askedPsns.Keys == askedTimes.Keys
    }

    function ListsOf(f: nat): Lists
      reads this
    {
      Lists(At(flying, f), At(lostPsns, f), At(lostTimes, f), At(askedPsns, f), At(askedTimes, f))
    }

    constructor ()
      ensures Valid() && trace == []
    {
      flying, lostPsns, lostTimes, lossDetectionTime := map[], map[], map[], [];
      askedTimes, askedPsns, spuriousAll, future := map[], map[], [], map[];
      trace := [];
    }

    ghost predicate Listed(f: nat, b: Book)
      reads this
    {
      ListsOf(f) == Listing(b)
    }

    method Launch(flow: nat, psn: nat)
      modifies this`flying
      ensures ListsOf(flow) == old(ListsOf(flow)).(flying := old(At(flying, flow)) + [psn])
      ensures forall g :: g != flow ==> ListsOf(g) == old(ListsOf(g))
      ensures flying.Keys == old(flying.Keys) + {flow}
    {
      if flow !in flying {
        flying := flying[flow := []];
      }
      flying := flying[flow := flying[flow] + [psn]];
    }

    method Land(flow: nat, psn: nat) returns (found: bool)
      modifies this`flying
      ensures found == old(psn in At(flying, flow))
      ensures !found ==> ListsOf(flow) == old(ListsOf(flow))
      ensures found ==> ListsOf(flow) == old(ListsOf(flow)).(flying := RemoveFirst(old(At(flying, flow)), psn))
      ensures forall g :: g != flow ==> ListsOf(g) == old(ListsOf(g))
      ensures flying.Keys == old(flying.Keys)
    {
      found := flow in flying && psn in flying[flow];
      if found {
        flying := flying[flow := RemoveFirst(flying[flow], psn)];
      }
    }

    /** Drops and trims: the packet stops flying and is noted as lost, if it was flying. */
    method Lose(flow: nat, psn: nat, time: real, ghost b: Book, ghost n: nat)
      requires Paired() && Listed(flow, b)
      modifies this`flying, this`lostPsns, this`lostTimes
      ensures Paired() && Listed(flow, Trace.Lose(b, psn, time, n))
      ensures forall g :: g != flow ==> ListsOf(g) == old(ListsOf(g))
      ensures flying.Keys == old(flying.Keys)
    {
      var found := Land(flow, psn);
      if found {
        if flow !in lostPsns {
          lostPsns := lostPsns[flow := [psn]];
          lostTimes := lostTimes[flow := [time]];
        } else {
          lostPsns := lostPsns[flow := lostPsns[flow] + [psn]];
          lostTimes := lostTimes[flow := lostTimes[flow] + [time]];
        }
        assert old(At(lostPsns, flow)) == [] ==> old(At(lostPsns, flow)) + [psn] == [psn];
        assert old(At(lostTimes, flow)) == [] ==> old(At(lostTimes, flow)) + [time] == [time];
        LoseLists(b, psn, time, n);
      }
    }

    /** A retransmission request that meets no outstanding loss. */
    method NoteSpurious(flow: nat, psn: nat, time: real)
      requires Paired()
      modifies this`askedPsns, this`askedTimes, this`spuriousAll
      ensures Paired()
      ensures ListsOf(flow) == old(ListsOf(flow)).(askedPsns := old(At(askedPsns, flow)) + [psn],
                                                   askedTimes := old(At(askedTimes, flow)) + [time])
      ensures forall g :: g != flow ==> ListsOf(g) == old(ListsOf(g))
      ensures spuriousAll == old(spuriousAll) + [time]
    {
      if flow !in askedPsns {
        askedTimes := askedTimes[flow := []];
        askedPsns := askedPsns[flow := []];
      }
      askedTimes := askedTimes[flow := askedTimes[flow] + [time]];
      askedPsns := askedPsns[flow := askedPsns[flow] + [psn]];
      spuriousAll := spuriousAll + [time];
    }

    /** The first outstanding loss of the packet is taken off both lists. */
    method Strike(flow: nat, psn: nat, ghost time: real) returns (lostAt: real)
      requires Paired() && psn in At(lostPsns, flow) && |At(lostPsns, flow)| == |At(lostTimes, flow)|
      modifies this`lostPsns, this`lostTimes
      ensures Paired()
      ensures [time - lostAt] == Detected(old(ListsOf(flow)), psn, time)
      ensures ListsOf(flow) == Asked(old(ListsOf(flow)), psn, time)
      ensures forall g :: g != flow ==> ListsOf(g) == old(ListsOf(g))
    {
      var psnIdx := FirstIndex(lostPsns[flow], psn);
      lostAt := lostTimes[flow][psnIdx];
      lostPsns := lostPsns[flow := RemoveAt(lostPsns[flow], psnIdx)];
      lostTimes := lostTimes[flow := RemoveAt(lostTimes[flow], psnIdx)];
    }

    /** A retransmission request: spurious unless it meets an outstanding loss. */
    method Ask(flow: nat, psn: nat, time: real)
      requires Paired() && |At(lostPsns, flow)| == |At(lostTimes, flow)|
      modifies this`lostPsns, this`lostTimes, this`lossDetectionTime, this`askedPsns, this`askedTimes, this`spuriousAll
      ensures Paired() && ListsOf(flow) == Asked(old(ListsOf(flow)), psn, time)
      ensures forall g :: g != flow ==> ListsOf(g) == old(ListsOf(g))
      ensures lossDetectionTime == old(lossDetectionTime) + Detected(old(ListsOf(flow)), psn, time)
      ensures spuriousAll == old(spuriousAll) + if psn in old(At(lostPsns, flow)) then [] else [time]
    {
      if flow !in lostPsns || psn !in lostPsns[flow] {
        NoteSpurious(flow, psn, time);
      } else {
        var lostAt := Strike(flow, psn, time);
        lossDetectionTime := lossDetectionTime + [time - lostAt];
      }
    }

    /** The branches of the loop. */
    method Apply(e: Event, ghost b: Book, ghost n: nat)
      requires Paired() && Listed(e.flow, b) && (e.Trim? ==> e.flow in flying)
      modifies this`flying, this`lostPsns, this`lostTimes, this`lossDetectionTime, this`askedPsns, this`askedTimes,
               this`spuriousAll
      ensures Paired() && Listed(e.flow, Post(b, e, n))
      ensures forall g :: g != e.flow ==> ListsOf(g) == old(ListsOf(g))
      ensures flying.Keys == old(flying.Keys) + if e.Send? && e.tracked then {e.flow} else {}
      ensures lossDetectionTime == old(lossDetectionTime)
              + if e.Requeue? then Detected(Listing(b), e.psn, e.time) else []
      ensures spuriousAll == old(spuriousAll) + if e.Requeue? && e.psn !in PsnsOf(b.losses) then [e.time] else []
    {
      match e {
        case Send(flow, psn, _, tracked) =>
          if tracked {
            Launch(flow, psn);
          }
        case Trim(flow, psn, time) =>
          Lose(flow, psn, time, b, n);
        case Drop(flow, psn, time, tracked) =>
          if tracked {
            Lose(flow, psn, time, b, n);
          }
        case Receive(flow, psn, _, tracked) =>
          if tracked {
            var _ := Land(flow, psn);
          }
        case Requeue(flow, psn, time) =>
          AskLists(b, e, n);
          Ask(flow, psn, time);
      }
    }

    /** One line of the trace.  It fails, changing nothing, exactly when a trimmed packet's flow has no entry yet. */
    method Process(e: Event) returns (ok: bool)
      requires Valid()
      modifies this
      ensures Valid()
      ensures ok <==> !Fails(old(trace), e)
      ensures trace == if ok then old(trace) + [e] else old(trace)
    {
      if e.Trim? && e.flow !in flying {
        return false;
      }
      Apply(e, BookOf(trace, e.flow), |trace|);
      trace := trace + [e];
      ok := true;
      TimesExtended(old(trace), e);
      forall f ensures Listed(f, BookOf(trace, f)) {
        BookExtended(old(trace), e, f);
        assert old(ListsOf(f)) == Listing(BookOf(old(trace), f));
      }
      forall f ensures f in flying <==> Known(trace, f) {
        KnownExtended(old(trace), e, f);
      }
    }

    /** The whole event loop; it stops at the first failing line. */
    method Parse(events: seq<Event>) returns (ok: bool)
      requires Valid() && trace == []
      modifies this
      ensures Valid() && trace <= events
      ensures ok <==> trace == events
      ensures ok <==> forall n :: 0 <= n < |events| ==> !Fails(events[..n], events[n])
      ensures !ok ==> |trace| < |events| && Fails(trace, events[|trace|])
    {
      for n := 0 to |events|
        invariant Valid() && trace == events[..n]
        invariant forall m :: 0 <= m < n ==> !Fails(events[..m], events[m])
      {
        ok := Process(events[n]);
        if !ok {
          return;
        }
        assert events[..n + 1] == events[..n] + [events[n]];
      }
      ok := true;
    }

    /** The pass over the spurious requests of one flow. */
    method MatchFlow(f: nat, ghost b: Book)
      requires Paired() && f in askedPsns && f !in future && Listed(f, b)
      modifies this`lostPsns, this`lostTimes, this`future
      ensures Paired() && Passed(f, b)
      ensures future.Keys <= old(future.Keys) + {f}
      ensures forall g :: g != f ==> ListsOf(g) == old(ListsOf(g)) && At(future, g) == old(At(future, g))
    {
      for i := 0 to |askedPsns[f]|
        invariant Paired() && Credited(f, b, i)
        invariant future.Keys <= old(future.Keys) + {f}
        invariant forall g :: g != f ==> ListsOf(g) == old(ListsOf(g)) && At(future, g) == old(At(future, g))
      {
        CreditNext(f, b, i);
      }
      assert b.spurious[..|b.spurious|] == b.spurious;
    }

    method CreditNext(f: nat, ghost b: Book, i: nat)
      requires Paired() && i < |b.spurious| && Credited(f, b, i)
      modifies this`lostPsns, this`lostTimes, this`future
      ensures Paired() && Credited(f, b, i + 1)
      ensures future.Keys <= old(future.Keys) + {f}
      ensures forall g :: g != f ==> ListsOf(g) == old(ListsOf(g)) && At(future, g) == old(At(future, g))
    {
      MatchLists(b.losses, b.spurious, i);
      var time, psn := askedTimes[f][i], askedPsns[f][i];
      if f in lostPsns && psn in lostPsns[f] {
        var _ := Strike(f, psn, time);
        NoteFuture(f, time);
      }
    }

    method NoteFuture(f: nat, time: real)
      modifies this`future
      ensures At(future, f) == old(At(future, f)) + [time] && future.Keys == old(future.Keys) + {f}
      ensures forall g :: g != f ==> At(future, g) == old(At(future, g))
    {
      if f !in future {
        future := future[f := []];
      }
      future := future[f := future[f] + [time]];
    }

    /** Where the pass over flow `f` stands after its first `i` spurious requests. */
    ghost predicate Credited(f: nat, b: Book, i: nat)
      reads this
    {
      && i <= |b.spurious| && At(askedPsns, f) == RequestPsns(b.spurious)
      && At(askedTimes, f) == RequestTimes(b.spurious)
      && At(lostPsns, f) == PsnsOf(Remaining(b.losses, b.spurious[..i]))
      && At(lostTimes, f) == TimesOf(Remaining(b.losses, b.spurious[..i]))
      && At(future, f) == RequestTimes(Matched(b.losses, b.spurious[..i]))
    }

    ghost predicate Passed(f: nat, b: Book)
      reads this
    {
      && At(lostPsns, f) == PsnsOf(Remaining(b.losses, b.spurious))
      && At(lostTimes, f) == TimesOf(Remaining(b.losses, b.spurious))
      && At(future, f) == RequestTimes(Matched(b.losses, b.spurious))
    }

    /** The pass over all flows, in any order: credits spurious requests with losses recorded after them. */
    method MatchSpurious()
      requires Valid()
      modifies this`lostPsns, this`lostTimes, this`future
      ensures forall f :: Passed(f, BookOf(trace, f))
    {
      var flows := askedPsns.Keys;
      NothingPassed();
      while flows != {}
        invariant Halfway(flows)
        decreases flows
      {
        var f :| f in flows;
        MatchNext(f, flows);
        flows := flows - {f};
      }
    }

    /** The pass has been everywhere but at these flows. */
    ghost predicate Halfway(flows: set<nat>)
      reads this
    {
      && flows <= askedPsns.Keys && Paired() && future.Keys !! flows
      && (forall f :: f in flows ==> Listed(f, BookOf(trace, f)))
      && (forall f :: f !in flows ==> Passed(f, BookOf(trace, f)))
    }

    lemma NothingPassed()
      requires Valid()
      ensures Halfway(askedPsns.Keys)
    {
      forall f | f !in askedPsns ensures Passed(f, BookOf(trace, f)) {
        assert Listed(f, BookOf(trace, f));
        NothingAsked(BookOf(trace, f));
      }
    }

    method MatchNext(f: nat, ghost flows: set<nat>)
      requires f in flows && Halfway(flows)
      modifies this`lostPsns, this`lostTimes, this`future
      ensures Halfway(flows - {f})
    {
      MatchFlow(f, BookOf(trace, f));
    }
  }

  lemma NothingAsked(b: Book)
    requires RequestPsns(b.spurious) == []
    ensures Remaining(b.losses, b.spurious) == b.losses && Matched(b.losses, b.spurious) == []
  {
    assert |b.spurious| == 0;
  }

  function Asked(l: Lists, psn: nat, time: real): Lists
    requires |l.lostPsns| == |l.lostTimes|
  {
    if psn !in l.lostPsns then l.(askedPsns := l.askedPsns + [psn], askedTimes := l.askedTimes + [time])
    else
      var i := FirstIndex(l.lostPsns, psn);
      l.(lostPsns := RemoveAt(l.lostPsns, i), lostTimes := RemoveAt(l.lostTimes, i))
  }

  /** The time a request took to meet the oldest outstanding loss of its packet, if there is one. */
  function Detected(l: Lists, psn: nat, time: real): seq<real>
    requires |l.lostPsns| == |l.lostTimes|
  {
    if psn in l.lostPsns then [time - l.lostTimes[FirstIndex(l.lostPsns, psn)]] else []
  }

  /** It is measured from the first loss of that packet number in the lists, which is what is struck off both. */
  lemma DetectedFromFirst(l: Lists, psn: nat, time: real) returns (k: nat)
    requires |l.lostPsns| == |l.lostTimes| && psn in l.lostPsns
    ensures IsFirst(l.lostPsns, psn, k) && Detected(l, psn, time) == [time - l.lostTimes[k]]
    ensures Asked(l, psn, time) == l.(lostPsns := l.lostPsns[..k] + l.lostPsns[k + 1..],
                                      lostTimes := l.lostTimes[..k] + l.lostTimes[k + 1..])
  {
    k := FirstIndex(l.lostPsns, psn);
  }

  // ---------------------------------------------------------------- one more event

  lemma KnownExtended(trace: seq<Event>, e: Event, f: nat)
    ensures Known(trace + [e], f) <==> Known(trace, f) || (e.Send? && e.tracked && e.flow == f)
  {
    if Known(trace, f) {
      var n :| 0 <= n < |trace| && trace[n].Send? && trace[n].tracked && trace[n].flow == f;
      assert (trace + [e])[n] == trace[n];
    }
    if e.Send? && e.tracked && e.flow == f {
      assert (trace + [e])[|trace|] == e;
    }
  }

  lemma BookExtended(trace: seq<Event>, e: Event, f: nat)
    ensures BookOf(trace + [e], f) == if e.flow == f then Post(BookOf(trace, f), e, |trace|) else BookOf(trace, f)
  {
    assert (trace + [e])[..|trace|] == trace;
  }

  lemma TimesExtended(trace: seq<Event>, e: Event)
    ensures DetectionTimes(trace + [e]) ==
              DetectionTimes(trace) + if e.Requeue? then Detected(Listing(BookOf(trace, e.flow)), e.psn, e.time) else []
    ensures SpuriousTimes(trace + [e]) ==
              SpuriousTimes(trace)
              + if e.Requeue? && e.psn !in PsnsOf(BookOf(trace, e.flow).losses) then [e.time] else []
  {
    assert (trace + [e])[..|trace|] == trace;
  }

  lemma LoseLists(b: Book, psn: nat, time: real, n: nat)
    requires psn in b.flying
    ensures var ls := b.losses + [Loss(psn, time, n)];
            PsnsOf(ls) == PsnsOf(b.losses) + [psn] && TimesOf(ls) == TimesOf(b.losses) + [time]
  {
  }

  /** A request changes the book as `Asked` changes the lists. */
  lemma AskLists(b: Book, e: Event, n: nat)
    requires e.Requeue?
    ensures Listing(Post(b, e, n)) == Asked(Listing(b), e.psn, e.time)
  {
    var b' := Post(b, e, n);
    if e.psn in PsnsOf(b.losses) {
      var i := FirstIndex(PsnsOf(b.losses), e.psn);
      assert PsnsOf(b'.losses) == RemoveAt(PsnsOf(b.losses), i);
      assert TimesOf(b'.losses) == RemoveAt(TimesOf(b.losses), i);
    } else {
      assert RequestPsns(b'.spurious) == RequestPsns(b.spurious) + [e.psn];
      assert RequestTimes(b'.spurious) == RequestTimes(b.spurious) + [e.time];
    }
  }

  /** One more request of the pass, in terms of the lists. */
  lemma MatchLists(losses: seq<Loss>, reqs: seq<Request>, i: nat)
    requires i < |reqs|
    ensures var rest, rest' := Remaining(losses, reqs[..i]), Remaining(losses, reqs[..i + 1]);
            var m, m' := Matched(losses, reqs[..i]), Matched(losses, reqs[..i + 1]);
            if reqs[i].psn in PsnsOf(rest) then
              var k := FirstIndex(PsnsOf(rest), reqs[i].psn);
              && PsnsOf(rest') == RemoveAt(PsnsOf(rest), k) && TimesOf(rest') == RemoveAt(TimesOf(rest), k)
              && RequestTimes(m') == RequestTimes(m) + [reqs[i].time]
            else rest' == rest && m' == m
  {
    assert reqs[..i + 1][..i] == reqs[..i];
    var rest, r := Remaining(losses, reqs[..i]), reqs[i];
    if r.psn in PsnsOf(rest) {
      var k := FirstIndex(PsnsOf(rest), r.psn);
      assert PsnsOf(RemoveAt(rest, k)) == RemoveAt(PsnsOf(rest), k);
      assert TimesOf(RemoveAt(rest, k)) == RemoveAt(TimesOf(rest), k);
      var m := Matched(losses, reqs[..i]);
      assert RequestTimes(m + [r]) == RequestTimes(m) + [r.time];
    }
  }
}
