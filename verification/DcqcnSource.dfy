/**
 The sending end of DCQCN (dcqcn.cpp): a congestion notification (CNP) cuts the rate, a byte counter and a timer raise
 it again.  All sources share the congestion estimate alpha and the increments of the source built last.
 */
module DcqcnSource {
  import opened Arith
  import opened Blocks

  const PERIOD: nat := 55_000_000          // _cc_update_period: 55 us in ps
  const B: nat := 10_000_000               // _B
  const F: nat := 5                        // _F
  const G: real := 0.00390625              // _g
  const UINT16: nat := 0x1_0000
  const UINT64: nat := 0x1_0000_0000_0000_0000
  const MAXRATE: nat := 0x1_0000_0000_0000 // rates below 2^48 bit/s: sums fit 64 bits, doubles hold them exactly

  /** The fields that decide the sending rate: line rate, current and target rate, timer and byte-counter stage. */
  datatype Rates = Rates(link: nat, rc: nat, rt: nat, t: nat, bc: nat)

  /** A source; `highest` belongs to RoceSrc. */
  datatype Src = Src(r: Rates, bytes: nat, oldHighest: nat, highest: nat, lastCc: nat, lastAlpha: nat)

  /** The static members. */
  datatype Shared = Shared(alpha: real, steps: Steps)
  datatype Steps = Steps(rai: nat, rhai: nat)

  // ---------------------------------------------------------------- what the methods compute

  function Built(rate: nat): Src {
    Src(Rates(rate, rate, rate, 0, 0), 0, 0, 0, 0, 0)
  }

  function Cut(rc: nat, alpha: real): (r: nat)
    requires 0.0 <= alpha <= 1.0
    ensures rc / 2 <= r <= rc
  {
    var x, factor := rc as real, 1.0 - alpha / 2.0;
    var cut := x * factor;
    Scaled(x, factor, cut);
    FloorOfHalf(rc, x, cut);
    cut.Floor
  }

  /** The cut takes half of the share alpha off the rate, rounded up: the whole of it halves the rate, none
      leaves it. */
  lemma CutIs(rc: nat, alpha: real)
    requires 0.0 <= alpha <= 1.0
    ensures alpha * rc as real <= 2.0 * (rc - Cut(rc, alpha)) as real < alpha * rc as real + 2.0
    ensures Cut(rc, 1.0) == rc / 2 && Cut(rc, 0.0) == rc
  {
    var x := rc as real;
    var cut, share := x * (1.0 - alpha / 2.0), alpha * x;
    TakenOff(x, alpha, cut, share);
    FloorTakes(rc, x, cut, share);
    HalfFloor(rc, x);
  }

  lemma TakenOff(x: real, alpha: real, cut: real, share: real)
    requires cut == x * (1.0 - alpha / 2.0) && share == alpha * x
    ensures 2.0 * cut == 2.0 * x - share
  {
  }

  lemma FloorTakes(rc: nat, x: real, cut: real, share: real)
    requires x == rc as real && 2.0 * cut == 2.0 * x - share
    ensures share <= 2.0 * (rc - cut.Floor) as real < share + 2.0
  {
  }

  lemma HalfFloor(rc: nat, x: real)
    requires x == rc as real
    ensures (x * (1.0 - 1.0 / 2.0)).Floor == rc / 2 && (x * (1.0 - 0.0 / 2.0)).Floor == rc
  {
    if rc % 2 == 0 {
      assert x == 2.0 * (rc / 2) as real;
    } else {
      assert x == 2.0 * (rc / 2) as real + 1.0;
    }
  }

  lemma FloorOfHalf(rc: nat, x: real, cut: real)
    requires x == rc as real && 0.5 * x <= cut <= x
    ensures rc / 2 <= cut.Floor <= rc
  {
    HalfInReals(rc);
    FloorBetween(cut, rc / 2, rc);
  }

  lemma Scaled(x: real, factor: real, cut: real)
    requires x >= 0.0 && 0.5 <= factor <= 1.0 && cut == x * factor
    ensures 0.5 * x <= cut <= x
  {
    assert x * (factor - 0.5) >= 0.0;
    assert x * (1.0 - factor) >= 0.0;
  }

  lemma HalfInReals(n: nat)
    ensures (n / 2) as real <= 0.5 * (n as real)
  {
  }

  lemma FloorBetween(x: real, a: int, b: int)
    requires a as real <= x <= b as real
    ensures a <= x.Floor <= b
  {
  }

  function Notified(s: Src, alpha: real, now: nat): Src
    requires 0.0 <= alpha <= 1.0
  {
    Src(s.r.(rt := s.r.rc, rc := Cut(s.r.rc, alpha), t := 0, bc := 0), 0, s.highest, s.highest, now, now)
  }

  /** By how much the target rises before the rate moves half way to it. */
  function Raise(r: Rates, g: Steps): nat {
    if Max(r.t, r.bc) <= F then 0
    else if Min(r.t, r.bc) > F then Times(Min(r.t, r.bc) - F, g.rhai)
    else g.rai
  }

  function Increased(r: Rates, g: Steps): Rates {
    if r.rc >= r.link then r
    else
      var rt := r.rt + Raise(r, g);
      r.(rt := rt, rc := Min((rt + r.rc) / 2, r.link))
  }

  /** The two reasons for an increase. */
  datatype Cause = Bytes | Timer

  function Next16(n: nat): nat {
    if n + 1 == UINT16 then 0 else n + 1
  }

  function Bump(r: Rates, cause: Cause): Rates {
    if cause.Bytes? then r.(bc := Next16(r.bc)) else r.(t := Next16(r.t))
  }

  function Called(r: Rates, cause: Cause, g: Steps): Rates {
    Increased(Bump(r, cause), g)
  }

  /** `bytes + (highest - oldHighest)` in unsigned 64-bit arithmetic. */
  function Counted(s: Src, highest: nat): int {
    var sum := s.bytes + highest - s.oldHighest;
    if sum < 0 then sum + UINT64 else if sum < UINT64 then sum else sum - UINT64
  }

  function ByteCalls(s: Src, highest: nat): seq<Cause> {
    if Counted(s, highest) >= B then [Bytes] else []
  }

  function TimerCalls(s: Src, now: nat): seq<Cause> {
    if now - s.lastCc >= PERIOD then [Timer] else []
  }

  /** The rates after a sequence of increases. */
  function After(r: Rates, calls: seq<Cause>, g: Steps): Rates {
    if calls == [] then r else Called(After(r, calls[..|calls| - 1], g), calls[|calls| - 1], g)
  }

  predicate Fits(s: Src) {
    && s.r.link < MAXRATE && s.r.rt < UINT64 && s.r.rc < UINT64
    && s.r.t < UINT16 && s.r.bc < UINT16
    && s.bytes < UINT64 && s.oldHighest < UINT64 && s.highest < UINT64
  }

  /** `doNextEvent`, after RoceSrc has moved `_highest_sent` to `highest`. */
  function Ticked(s: Src, now: nat, highest: nat, g: Steps): Src
    requires Fits(s) && highest < UINT64
  {
    var counted := Counted(s, highest);
    Src(After(After(s.r, ByteCalls(s, highest), g), TimerCalls(s, now), g),
        if counted >= B then 0 else counted, highest, highest,
        if now - s.lastCc >= PERIOD then now else s.lastCc, s.lastAlpha)
  }

  function Decayed(alpha: real, s: Src, now: nat): real {
    if now - s.lastAlpha >= PERIOD then (1.0 - G) * alpha else alpha
  }

  // ---------------------------------------------------------------- what every reachable source satisfies

  ghost predicate Sound(r: Rates) {
    && r.rc <= r.link < MAXRATE && r.rc <= r.rt < MAXRATE * 0x2000
    && r.t < UINT16 && r.bc < UINT16
    && (r.rc < r.link ==> r.rt < 2 * r.link)
  }

  predicate StepsSound(g: Steps) {
    g.rai <= g.rhai <= MAXRATE / 10
  }

  predicate SharedSound(g: Shared) {
    0.0 <= g.alpha <= 1.0 && StepsSound(g.steps)
  }

  lemma RaiseFits(r: Rates, g: Steps)
    requires Sound(r) && StepsSound(g)
    ensures Raise(r, g) <= 6554 * MAXRATE
  {
    if Max(r.t, r.bc) > F && Min(r.t, r.bc) > F {
      TimesIs(Min(r.t, r.bc) - F, g.rhai);
      MulMonotone(Min(r.t, r.bc) - F, UINT16, g.rhai);
    }
  }

  lemma IncreaseKeepsSound(r: Rates, g: Steps)
    requires Sound(r) && StepsSound(g)
    ensures var r' := Increased(r, g);
            && Sound(r') && r'.rc >= r.rc && r'.rt >= r.rt && r'.link == r.link && r'.t == r.t && r'.bc == r.bc
            && (r.rc < r.link ==> r.rt + Raise(r, g) + r.rc < UINT64)
  {
    RaiseFits(r, g);
  }

  // ---------------------------------------------------------------- the class

  class Statics {
    var alpha: real
    var rai: nat
    var rhai: nat

    constructor ()
      ensures Value() == Shared(1.0, Steps(0, 0))
    {
      alpha, rai, rhai := 1.0, 0, 0;
    }

    function Value(): Shared
      reads this
    {
      Shared(alpha, Steps(rai, rhai))
    }
  }

  class Source {
    const link: nat
    const statics: Statics
    var rc: nat
    var rt: nat
    var t: nat
    var bc: nat
    var byteCounter: nat
    var oldHighestSent: nat
    var highestSent: nat
    var lastCcUpdate: nat
    var lastAlphaUpdate: nat

    function RatesNow(): Rates
      reads this
    {
      Rates(link, rc, rt, t, bc)
    }

    function Value(): Src
      reads this
    {
      Src(RatesNow(), byteCounter, oldHighestSent, highestSent, lastCcUpdate, lastAlphaUpdate)
    }

    ghost predicate Valid()
      reads this, statics
    {
      Sound(RatesNow()) && SharedSound(statics.Value()) && Fits(Value())
    }

    /** Building a source overwrites the increments of all sources. */
    constructor (statics: Statics, rate: nat)
      requires rate < MAXRATE && SharedSound(statics.Value())
      modifies statics
      ensures Valid() && this.statics == statics && Value() == Built(rate)
      ensures statics.Value() == Shared(old(statics.alpha), Steps(rate / 20, rate / 10))
    {
      this.statics, link, rc, rt := statics, rate, rate, rate;
      t, bc, byteCounter, oldHighestSent, highestSent, lastCcUpdate, lastAlphaUpdate := 0, 0, 0, 0, 0, 0, 0;
      new;
      statics.rai := rate / 20;
      statics.rhai := rate / 10;
    }

    method ProcessCnp(now: nat)
      requires Valid()
      modifies this, statics
      ensures Valid() && Value() == Notified(old(Value()), old(statics.alpha), now)
      ensures statics.Value() == old(statics.Value()).(alpha := (1.0 - G) * old(statics.alpha) + G)
    {
      rt := rc;
      rc := Cut(rc, statics.alpha);
      AlphaStays(statics.alpha);
      statics.alpha := (1.0 - G) * statics.alpha + G;
      t := 0;
      bc := 0;
      byteCounter := 0;
      oldHighestSent := highestSent;
      lastCcUpdate := now;
      lastAlphaUpdate := now;
    }

    method IncreaseRate()
      requires Valid()
      modifies this`rc, this`rt
      ensures Valid() && RatesNow() == Increased(old(RatesNow()), statics.Value().steps)
    {
      ghost var r, g := RatesNow(), statics.Value().steps;
      IncreaseKeepsSound(r, g);
      if rc >= link {
        return;
      }
      if Max(t, bc) > F {
        rt := rt + if Min(t, bc) > F then Times(Min(t, bc) - F, statics.rhai) else statics.rai;
      }
      assert rt == r.rt + Raise(r, g);
      rc := (rt + rc) / 2;
      if rc > link {
        rc := link;
      }
      assert RatesNow() == Increased(r, g);
    }

    /** `highest` is what RoceSrc makes of `_highest_sent` in its own part of the event.  Time does not run backwards,
        so the unsigned differences of times are exact. */
    method DoNextEvent(now: nat, highest: nat)
      requires Valid() && highest < UINT64
      modifies this, statics`alpha
      ensures Valid() && Value() == Ticked(old(Value()), now, highest, old(statics.Value().steps))
      ensures statics.Value() == old(statics.Value()).(alpha := Decayed(old(statics.alpha), old(Value()), now))
    {
      highestSent := highest;
      CountBytes();
      AlphaStays(statics.alpha);
      if now - lastAlphaUpdate >= PERIOD {
        statics.alpha := (1.0 - G) * statics.alpha;
      }
      CountTime(now);
    }

    method CountBytes()
      requires Valid()
      modifies this`byteCounter, this`oldHighestSent, this`bc, this`rc, this`rt
      ensures Valid() && oldHighestSent == highestSent
      ensures var s := old(Value());
              && RatesNow() == After(s.r, ByteCalls(s, highestSent), statics.Value().steps)
              && byteCounter == if Counted(s, highestSent) >= B then 0 else Counted(s, highestSent)
    {
      byteCounter := Counted(Value(), highestSent);
      oldHighestSent := highestSent;
      if byteCounter >= B {
        byteCounter := 0;
        bc := Next16(bc);
        IncreaseRate();
      }
    }

    method CountTime(now: nat)
      requires Valid()
      modifies this`lastCcUpdate, this`t, this`rc, this`rt
      ensures Valid() && RatesNow() == After(old(RatesNow()), TimerCalls(old(Value()), now), statics.Value().steps)
      ensures lastCcUpdate == if now - old(lastCcUpdate) >= PERIOD then now else old(lastCcUpdate)
    {
      if now - lastCcUpdate >= PERIOD {
        lastCcUpdate := now;
        t := Next16(t);
        IncreaseRate();
      }
    }

    /** RoceSrc goes back to the first packet that was not acknowledged. */
    method ProcessNack(ackno: nat)
      requires Valid() && ackno < UINT64
      modifies this`highestSent
      ensures Valid() && Value() == old(Value()).(highest := ackno)
    {
      highestSent := ackno;
    }
  }

  lemma AlphaStays(alpha: real)
    requires 0.0 <= alpha <= 1.0
    ensures 0.0 <= (1.0 - G) * alpha <= alpha && (1.0 - G) * alpha + G <= 1.0
  {
  }
}
