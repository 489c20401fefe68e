/**
 The token-bucket meter (meter.cpp): credit grows by one byte every `psPerByte` picoseconds, four or two times slower
 during a penalty, and a packet is green when the credit covers it.  All divisions truncate.
 */
module Meter {
  import opened Arith

  const PSBITS: nat := 8_000_000_000_000   // 10^12 ps a second times 8 bits a byte

  datatype Params = Params(maxsize: nat, ps: nat)
  datatype Verdict = Green | Red | DivisionByZero

  datatype State = State(credit: nat, last: nat, endPesi: nat, endSemi: nat)

  datatype Event =
    | Packet(now: nat, size: nat)
    | Trim(now: nat, n: nat, packetSize: nat)

  // ---------------------------------------------------------------- what the methods compute

  function Factor(s: State, now: nat): nat {
    if now < s.endPesi then 4 else if now < s.endSemi then 2 else 1
  }

  /** `delta / rate`, truncated. */
  function Refill(delta: nat, rate: nat): (r: nat)
    requires rate > 0
    ensures r * rate <= delta < (r + 1) * rate
  {
    assert delta == rate * (delta / rate) + delta % rate;
    Distribute(delta / rate, 1, rate);
    delta / rate
  }

  function Refilled(p: Params, s: State, now: nat): State
    requires p.ps > 0 && s.last <= now
  {
    s.(credit := Min(s.credit + Refill(now - s.last, Factor(s, now) * p.ps), p.maxsize), last := now)
  }

  predicate IsGreen(p: Params, s: State, e: Event)
    requires p.ps > 0 && s.last <= e.now
  {
    e.Packet? && e.size <= Refilled(p, s, e.now).credit
  }

  function Trimmed(p: Params, e: Event): State
    requires e.Trim?
  {
    var drain := e.packetSize * p.ps;
    State(0, e.now, e.now + e.n * drain, e.now + 4 * e.n * drain)
  }

  function Step(p: Params, s: State, e: Event): State
    requires p.ps > 0 && s.last <= e.now
  {
    if e.Trim? then Trimmed(p, e)
    else
      var r := Refilled(p, s, e.now);
      if IsGreen(p, s, e) then r.(credit := r.credit - e.size) else r
  }

  // ---------------------------------------------------------------- the class

  class Meter {
    const bitrate: nat
    const maxsize: nat
    const psPerByte: nat
    var credit: nat
    var lastUpdate: nat
    var endPesiTrim: nat
    var endSemiPesiTrim: nat

    ghost predicate Valid()
      reads this
    {
      credit <= maxsize && psPerByte * bitrate <= PSBITS < (psPerByte + 1) * bitrate
    }

    function Value(): State
      reads this
    {
      State(credit, lastUpdate, endPesiTrim, endSemiPesiTrim)
    }

    constructor (bitrate: nat, maxsize: nat)
      requires bitrate > 0
      ensures Valid() && this.bitrate == bitrate && this.maxsize == maxsize && Value() == State(maxsize, 0, 0, 0)
    {
      this.bitrate, this.maxsize, credit := bitrate, maxsize, maxsize;
      psPerByte := Refill(PSBITS, bitrate);
      lastUpdate, endPesiTrim, endSemiPesiTrim := 0, 0, 0;
    }

    /** Above 8 Tbit/s a byte takes no time, and the refill divides by zero. */
    method Execute(now: nat, size: nat) returns (r: Verdict)
      requires Valid() && lastUpdate <= now
      modifies this
      ensures Valid() && (r == DivisionByZero <==> bitrate > PSBITS)
      ensures r == DivisionByZero ==> Value() == old(Value())
      ensures r != DivisionByZero ==>
                var p, e := Params(maxsize, psPerByte), Packet(now, size);
                p.ps > 0 && (r == Green <==> IsGreen(p, old(Value()), e)) && Value() == Step(p, old(Value()), e)
    {
      NoTime(psPerByte, bitrate);
      var serviceRate := psPerByte;
      if now < endPesiTrim {
        serviceRate := serviceRate * 4;
      } else if now < endSemiPesiTrim {
        serviceRate := serviceRate * 2;
      }
      var delta := now - lastUpdate;
      if serviceRate == 0 {
        return DivisionByZero;
      }
      credit := credit + Refill(delta, serviceRate);
      if credit >= maxsize {
        credit := maxsize;
      }
      lastUpdate := now;
      if size > credit {
        return Red;
      }
      credit := credit - size;
      r := Green;
    }

    method TrimPesiTime(now: nat, n: nat, packetSize: nat)
      requires Valid() && lastUpdate <= now
      modifies this
      ensures Valid() && Value() == Trimmed(Params(maxsize, psPerByte), Trim(now, n, packetSize))
    {
      endPesiTrim := now + n * (packetSize * psPerByte);
      endSemiPesiTrim := now + 4 * n * (packetSize * psPerByte);
      lastUpdate := now;
      credit := 0;
    }
  }

  lemma NoTime(ps: nat, bitrate: nat)
    requires ps * bitrate <= PSBITS < (ps + 1) * bitrate
    ensures ps == 0 <==> bitrate > PSBITS
  {
    if ps > 0 {
      MulMonotone(1, ps, bitrate);
    }
  }

  // ---------------------------------------------------------------- the penalty, and red packets

  /** After a trim of `n` packets of `size` bytes, a packet of `bytes` bytes at `t` picoseconds later is green exactly
      when it fits the bucket and has been paid for: at four times the time per byte until the `n` packets could have
      been sent, at twice that time until four times as many could, and at the plain time after. */
  lemma PenaltyExact(p: Params, s: State, now: nat, n: nat, size: nat, t: nat, bytes: nat)
    requires p.ps > 0 && s.last <= now
    ensures var s' := Step(p, s, Trim(now, n, size));
            var m := if t < n * (size * p.ps) then 4 else if t < 4 * (n * (size * p.ps)) then 2 else 1;
            s'.last <= now + t
            && (IsGreen(p, s', Packet(now + t, bytes)) <==> bytes <= p.maxsize && bytes * (m * p.ps) <= t)
  {
    var s' := Step(p, s, Trim(now, n, size));
    var drain := n * (size * p.ps);
    assert 4 * n * (size * p.ps) == 4 * drain;
    var rate := (if t < drain then 4 else if t < 4 * drain then 2 else 1) * p.ps;
    Affordable(t, rate, bytes);
  }

  lemma Affordable(t: nat, rate: nat, bytes: nat)
    requires rate > 0
    ensures bytes <= Refill(t, rate) <==> bytes * rate <= t
  {
    var r := Refill(t, rate);
    if bytes <= r {
      MulMonotone(bytes, r, rate);
    } else {
      MulMonotone(r + 1, bytes, rate);
    }
  }

  /** A red packet costs nothing: at the same time, the next one is judged as if it had been the first. */
  lemma RedCostsNothing(p: Params, s: State, red: Event, e: Event)
    requires p.ps > 0 && s.last <= red.now == e.now && s.credit <= p.maxsize && red.Packet? && !IsGreen(p, s, red)
    ensures IsGreen(p, Step(p, s, red), e) <==> IsGreen(p, s, e)
  {
    RefillIs(0, Factor(s, e.now) * p.ps, 0);
  }

  /** A green packet costs its size: at the same time, what is green next is what would have been green together
      with it. */
  lemma GreenCostsItsSize(p: Params, s: State, green: Event, bytes: nat)
    requires p.ps > 0 && s.last <= green.now && s.credit <= p.maxsize && IsGreen(p, s, green)
    ensures IsGreen(p, Step(p, s, green), Packet(green.now, bytes))
            <==> IsGreen(p, s, Packet(green.now, green.size + bytes))
  {
    RefillIs(0, Factor(s, green.now) * p.ps, 0);
  }

  // ---------------------------------------------------------------- conformance over a window of calls

  predicate Ordered(p: Params, s: State, events: seq<Event>)
    requires p.ps > 0
    decreases |events|
  {
    events == [] || (s.last <= events[0].now && Ordered(p, Step(p, s, events[0]), events[1..]))
  }

  function GreenBytes(p: Params, s: State, events: seq<Event>): nat
    requires p.ps > 0 && Ordered(p, s, events)
    decreases |events|
  {
    if events == [] then 0
    else (if IsGreen(p, s, events[0]) then events[0].size else 0) + GreenBytes(p, Step(p, s, events[0]), events[1..])
  }

  function After(p: Params, s: State, events: seq<Event>): State
    requires p.ps > 0 && Ordered(p, s, events)
    decreases |events|
  {
    if events == [] then s else After(p, Step(p, s, events[0]), events[1..])
  }

  /** Every packet of the window meets at least a `k`-fold penalty. */
  predicate Slowed(p: Params, s: State, events: seq<Event>, k: nat)
    requires p.ps > 0 && Ordered(p, s, events)
    decreases |events|
  {
    events == [] || ((events[0].Packet? ==> Factor(s, events[0].now) >= k)
        && Slowed(p, Step(p, s, events[0]), events[1..], k))
  }

  /** One packet: what it takes plus the credit left is at most the credit before plus the time passed, at rate `u`. */
  lemma PacketBound(p: Params, s: State, e: Event, k: nat, u: nat)
    requires p.ps > 0 && s.last <= e.now && e.Packet? && k >= 1 && Factor(s, e.now) >= k && u == k * p.ps
    ensures var taken, left := if IsGreen(p, s, e) then e.size else 0, Step(p, s, e).credit;
            (taken + left) * u <= s.credit * u + (e.now - s.last) && taken + left <= p.maxsize
  {
    var f := Factor(s, e.now);
    var r := Refill(e.now - s.last, f * p.ps);
    MulMonotone(k, f, p.ps);
    assert r * u <= r * (f * p.ps);
    var taken, left := if IsGreen(p, s, e) then e.size else 0, Step(p, s, e).credit;
    MulMonotone(taken + left, s.credit + r, u);
    Distribute(s.credit, r, u);
  }

  lemma {:induction false} GreenFrom(p: Params, s: State, events: seq<Event>, k: nat, u: nat)
    requires p.ps > 0 && Ordered(p, s, events) && k >= 1 && Slowed(p, s, events, k) && u == k * p.ps
    ensures GreenBytes(p, s, events) * u <= s.credit * u + (After(p, s, events).last - s.last)
    ensures After(p, s, events).last >= s.last
    decreases |events|
  {
    if events != [] {
      var e := events[0];
      var s1 := Step(p, s, e);
      GreenFrom(p, s1, events[1..], k, u);
      var rest := GreenBytes(p, s1, events[1..]);
      if e.Packet? {
        PacketBound(p, s, e, k, u);
        var taken := if IsGreen(p, s, e) then e.size else 0;
        Distribute(taken, rest, u);
        Distribute(taken, s1.credit, u);
      }
    }
  }

  /** Over any window of calls, from any reachable state, the green bytes exceed the bucket by at most one byte for
      every `k * psPerByte` between its first and last call, where `k` is the smallest penalty a packet of the window
      met. */
  lemma WindowBound(p: Params, s: State, events: seq<Event>, k: nat)
    requires p.ps > 0 && s.credit <= p.maxsize && events != [] && Ordered(p, s, events) && k >= 1
             && Slowed(p, s, events, k)
    ensures (GreenBytes(p, s, events) - p.maxsize) * (k * p.ps) <= After(p, s, events).last - events[0].now
  {
    var e := events[0];
    var s1 := Step(p, s, e);
    var u, rest := k * p.ps, GreenBytes(p, s1, events[1..]);
    GreenFrom(p, s1, events[1..], k, u);
    if e.Packet? {
      PacketBound(p, s, e, k, u);
      var taken := if IsGreen(p, s, e) then e.size else 0;
      MulMonotone(taken + rest - p.maxsize, rest - s1.credit, u);
      Distribute(rest - s1.credit, s1.credit, u);
    } else {
      MulMonotone(rest - p.maxsize, rest, u);
    }
  }

  // ---------------------------------------------------------------- against an exact bucket

  /** The bucket that refills continuously and is debited by the same packets. */
  function Exact(p: Params, s: State, x: real, events: seq<Event>): real
    requires p.ps > 0 && Ordered(p, s, events)
    decreases |events|
  {
    if events == [] then x
    else
      var e := events[0];
      var full := x + (e.now - s.last) as real / (Factor(s, e.now) * p.ps) as real;
      var capped := if full >= p.maxsize as real then p.maxsize as real else full;
      var x' := if e.Trim? then 0.0 else if IsGreen(p, s, e) then capped - e.size as real else capped;
      Exact(p, Step(p, s, e), x', events[1..])
  }

  lemma RefillBelow(delta: nat, rate: nat)
    requires rate > 0
    ensures Refill(delta, rate) as real <= delta as real / rate as real
  {
    var r := Refill(delta, rate);
    assert (r * rate) as real == r as real * rate as real;
  }

  /** Truncation only loses credit. */
  lemma {:induction false} NeverAboveExact(p: Params, s: State, x: real, events: seq<Event>)
    requires p.ps > 0 && Ordered(p, s, events) && s.credit as real <= x && s.credit <= p.maxsize
    ensures After(p, s, events).credit as real <= Exact(p, s, x, events)
    ensures After(p, s, events).credit <= p.maxsize
    decreases |events|
  {
    if events != [] {
      var e := events[0];
      RefillBelow(e.now - s.last, Factor(s, e.now) * p.ps);
      var full := x + (e.now - s.last) as real / (Factor(s, e.now) * p.ps) as real;
      var capped := if full >= p.maxsize as real then p.maxsize as real else full;
      var x' := if e.Trim? then 0.0 else if IsGreen(p, s, e) then capped - e.size as real else capped;
      NeverAboveExact(p, Step(p, s, e), x', events[1..]);
    }
  }

  // ---------------------------------------------------------------- against the configured bit rate

  /** Green traffic of a run from a full bucket at time 0 stays within the bucket plus the configured rate. */
  predicate Conforms(p: Params, bitrate: nat, events: seq<Event>)
    requires p.ps > 0 && Ordered(p, State(p.maxsize, 0, 0, 0), events)
  {
    var s := State(p.maxsize, 0, 0, 0);
    GreenBytes(p, s, events) * PSBITS <= p.maxsize * PSBITS + After(p, s, events).last * bitrate
  }

  /** The truncated time per byte makes the meter too fast: it keeps to the configured rate on every run exactly when
      that rate divides 8 * 10^12 (or the bucket is empty). */
  lemma ConformsIff(p: Params, bitrate: nat)
    requires p.ps > 0 && p.ps * bitrate <= PSBITS < (p.ps + 1) * bitrate
    ensures (forall events | Ordered(p, State(p.maxsize, 0, 0, 0), events) :: Conforms(p, bitrate, events))
            <==> p.maxsize == 0 || p.ps * bitrate == PSBITS
  {
    var s := State(p.maxsize, 0, 0, 0);
    if p.maxsize == 0 || p.ps * bitrate == PSBITS {
      forall events | Ordered(p, s, events) ensures Conforms(p, bitrate, events) {
        if p.maxsize == 0 {
          NothingGreen(p, s, events);
        } else {
          DividingConforms(p, bitrate, events);
        }
      }
    } else {
      TooFast(p, bitrate);
    }
  }

  lemma {:induction false} NothingGreen(p: Params, s: State, events: seq<Event>)
    requires p.ps > 0 && Ordered(p, s, events) && p.maxsize == 0 && s.credit == 0
    ensures GreenBytes(p, s, events) == 0
    decreases |events|
  {
    if events != [] {
      NothingGreen(p, Step(p, s, events[0]), events[1..]);
    }
  }

  lemma {:induction false} AlwaysSlowedOnce(p: Params, s: State, events: seq<Event>)
    requires p.ps > 0 && Ordered(p, s, events)
    ensures Slowed(p, s, events, 1)
    decreases |events|
  {
    if events != [] {
      AlwaysSlowedOnce(p, Step(p, s, events[0]), events[1..]);
    }
  }

  lemma DividingConforms(p: Params, bitrate: nat, events: seq<Event>)
    requires p.ps > 0 && p.ps * bitrate == PSBITS && Ordered(p, State(p.maxsize, 0, 0, 0), events)
    ensures Conforms(p, bitrate, events)
  {
    var s := State(p.maxsize, 0, 0, 0);
    AlwaysSlowedOnce(p, s, events);
    GreenFrom(p, s, events, 1, p.ps);
    var g, t := GreenBytes(p, s, events), After(p, s, events).last;
    MulMonotone(g * p.ps, p.maxsize * p.ps + t, bitrate);
    Exchange(g, p.ps, bitrate);
    Exchange(p.maxsize, p.ps, bitrate);
    Distribute(p.maxsize * p.ps, t, bitrate);
  }

  lemma Exchange(a: nat, ps: nat, bitrate: nat)
    requires ps * bitrate == PSBITS
    ensures a * ps * bitrate == a * PSBITS
  {
    assert a * ps * bitrate == a * (ps * bitrate);
  }

  /** One byte as often as the meter allows it. */
  function Drip(p: Params, t: nat, n: nat): seq<Event>
    decreases n
  {
    if n == 0 then [] else [Packet(t + p.ps, 1)] + Drip(p, t + p.ps, n - 1)
  }

  lemma {:induction false} DripIsGreen(p: Params, s: State, n: nat)
    requires p.ps > 0 && p.maxsize > 0 && s == State(0, s.last, 0, 0)
    ensures Ordered(p, s, Drip(p, s.last, n)) && GreenBytes(p, s, Drip(p, s.last, n)) == n
    ensures After(p, s, Drip(p, s.last, n)).last == s.last + Times(n, p.ps)
    decreases n
  {
    if n > 0 {
      var e := Packet(s.last + p.ps, 1);
      var s1 := Step(p, s, e);
      RefillIs(p.ps, p.ps, 1);
      assert IsGreen(p, s, e) && s1 == State(0, s.last + p.ps, 0, 0);
      DripIsGreen(p, s1, n - 1);
      assert Drip(p, s.last, n)[0] == e && Drip(p, s.last, n)[1..] == Drip(p, s1.last, n - 1);
    }
  }

  /** A full bucket at once, then `n` single bytes. */
  function Burst(p: Params, n: nat): seq<Event> {
    [Packet(0, p.maxsize)] + Drip(p, 0, n)
  }

  lemma BurstIsGreen(p: Params, n: nat)
    requires p.ps > 0 && p.maxsize > 0
    ensures var s := State(p.maxsize, 0, 0, 0);
            && Ordered(p, s, Burst(p, n)) && GreenBytes(p, s, Burst(p, n)) == p.maxsize + n
            && After(p, s, Burst(p, n)).last == Times(n, p.ps)
  {
    var s, e := State(p.maxsize, 0, 0, 0), Packet(0, p.maxsize);
    RefillIs(0, p.ps, 0);
    assert IsGreen(p, s, e) && Step(p, s, e) == State(0, 0, 0, 0);
    DripIsGreen(p, State(0, 0, 0, 0), n);
    assert Burst(p, n)[0] == e && Burst(p, n)[1..] == Drip(p, 0, n);
  }

  /** What a run sends beyond the bucket and the configured rate, in bytes times PSBITS. */
  function Excess(p: Params, bitrate: nat, events: seq<Event>): int
    requires p.ps > 0 && Ordered(p, State(p.maxsize, 0, 0, 0), events)
  {
    var s := State(p.maxsize, 0, 0, 0);
    GreenBytes(p, s, events) * PSBITS - (p.maxsize * PSBITS + After(p, s, events).last * bitrate)
  }

  lemma BurstExcess(p: Params, bitrate: nat, n: nat)
    requires p.ps > 0 && p.maxsize > 0
    ensures Ordered(p, State(p.maxsize, 0, 0, 0), Burst(p, n))
    ensures Excess(p, bitrate, Burst(p, n)) == n * (PSBITS - p.ps * bitrate)
  {
    BurstIsGreen(p, n);
    TimesIs(n, p.ps);
    Difference(n, p.maxsize, p.ps, bitrate);
  }

  lemma Difference(n: nat, m: nat, ps: nat, bitrate: nat)
    ensures (m + n) * PSBITS - (m * PSBITS + (n * ps) * bitrate) == n * (PSBITS - ps * bitrate)
  {
    assert (n * ps) * bitrate == n * (ps * bitrate);
  }

  lemma TooFast(p: Params, bitrate: nat)
    requires p.ps > 0 && p.ps * bitrate < PSBITS && p.maxsize > 0
    ensures Ordered(p, State(p.maxsize, 0, 0, 0), Burst(p, 1)) && !Conforms(p, bitrate, Burst(p, 1))
  {
    BurstExcess(p, bitrate, 1);
  }

  /** Some run exceeds the bucket and the configured rate by more than `bytes`. */
  ghost predicate Exceeds(p: Params, bitrate: nat, bytes: nat)
    requires p.ps > 0
  {
    exists events :: Ordered(p, State(p.maxsize, 0, 0, 0), events) && Excess(p, bitrate, events) > bytes * PSBITS
  }

  /** When the meter is too fast at all, what it lets through exceeds every bound. */
  lemma ExceedsEveryBoundIff(p: Params, bitrate: nat)
    requires p.ps > 0 && p.ps * bitrate <= PSBITS < (p.ps + 1) * bitrate
    ensures (forall bytes: nat :: Exceeds(p, bitrate, bytes)) <==> p.maxsize > 0 && p.ps * bitrate != PSBITS
  {
    if p.maxsize > 0 && p.ps * bitrate != PSBITS {
      forall bytes: nat ensures Exceeds(p, bitrate, bytes) {
        var n := bytes * PSBITS + 1;
        BurstExcess(p, bitrate, n);
        MulMonotone(1, PSBITS - p.ps * bitrate, n);
      }
    } else {
      ConformsIff(p, bitrate);
      forall events | Ordered(p, State(p.maxsize, 0, 0, 0), events) ensures Excess(p, bitrate, events) <= 0 {
        assert Conforms(p, bitrate, events);
      }
      assert !Exceeds(p, bitrate, 0);
    }
  }

  lemma RefillIs(delta: nat, rate: nat, r: nat)
    requires rate > 0 && delta == r * rate
    ensures Refill(delta, rate) == r && Refill(delta, 1 * rate) == r
  {
    DivModUnique(delta, rate, r, 0);
  }
}
