/**
 The flow sizes of the convergence experiment (run_experiment.py): flows that arrive one interval apart and share a link
 equally finish in reverse order, one interval apart.  Floats are exact reals.
 */
module Convergence {

  datatype Flow = Flow(src: nat, dst: int, id: nat, start: int, size: int)

  /** Python's `int` of a number that is not negative. */
  function Truncated(x: real): (r: int)
    requires x >= 0.0
    ensures 0 <= r && r as real <= x < r as real + 1.0
  {
    x.Floor
  }

  /** `w/1 + w/2 + ... + w/m`. */
  function Harmonic(w: real, m: nat): real {
    if m == 0 then 0.0 else Harmonic(w, m - 1) + w / m as real
  }

  lemma {:induction false} HarmonicGrows(w: real, m: nat, n: nat)
    requires w >= 0.0 && m <= n
    ensures Harmonic(w, m) <= Harmonic(w, n) && (w > 0.0 && m < n ==> Harmonic(w, m) < Harmonic(w, n))
  {
    if m < n {
      HarmonicGrows(w, m, n - 1);
      Quotient(w, n);
    }
  }

  lemma Quotient(w: real, n: nat)
    requires n > 0
    ensures n as real * (w / n as real) == w && (w >= 0.0 ==> w / n as real >= 0.0) && (w > 0.0 ==> w / n as real > 0.0)
  {
  }

  /** What the link carries in one interval, in bytes, for nanoseconds and Gbit/s. */
  function Unit(interval: real, gbps: nat): (w: real)
    requires interval >= 0.0
    ensures w >= 0.0
  {
    interval * gbps as real / 8.0
  }

  /** The size of flow `i`: two shares with `x` flows for every `x` from `i + 1` to `n`. */
  function Size(w: real, n: nat, i: nat): real {
    2.0 * (Harmonic(w, n) - Harmonic(w, i))
  }

  /** `rest` is what is left of the running size after the loop. */
  method Generate(nodes: nat, n: nat, interval: real, gbps: nat)
    returns (flows: seq<Flow>, first: int, rest: real)
    requires interval >= 0.0
    ensures |flows| == n
    ensures forall i :: 0 <= i < n ==>
              && flows[i].src == i && flows[i].dst == nodes - 1 && flows[i].id == i + 1
              && flows[i].start == (i as real * (interval * 1000.0)).Floor
              && var size := Size(Unit(interval, gbps), n, i);
                 flows[i].size as real <= size < flows[i].size as real + 1.0
    ensures first as real <= Size(Unit(interval, gbps), n, 0) < first as real + 1.0
    ensures rest == 0.0
    ensures var bits := 2.0 * n as real * (interval * gbps as real);
            8.0 * Sum(flows, n) as real <= bits && (n > 0 ==> bits < 8.0 * Sum(flows, n) as real + 8.0 * n as real)
  {
    var w := Unit(interval, gbps);
    var sum := 0.0;
    for x := 1 to n + 1
      invariant sum == Harmonic(w, x - 1)
    {
      sum := sum + w / x as real;
    }
    HarmonicGrows(w, 0, n);
    first := Truncated(2.0 * sum);
    flows := [];
    var msgSize, start := 2.0 * sum, 0.0;
    for i := 0 to n
      invariant |flows| == i
      invariant msgSize == Size(w, n, i) && start == i as real * (interval * 1000.0)
      invariant forall k :: 0 <= k < i ==>
                  && flows[k].src == k && flows[k].dst == nodes - 1 && flows[k].id == k + 1
                  && flows[k].start == (k as real * (interval * 1000.0)).Floor
                  && var size := Size(w, n, k); flows[k].size as real <= size < flows[k].size as real + 1.0
    {
      HarmonicGrows(w, i, n);
      flows := flows + [Flow(i, nodes - 1, i + 1, start.Floor, Truncated(msgSize))];
      start := start + interval * 1000.0;
      msgSize := msgSize - 2.0 * (w / (i + 1) as real);
    }
    rest := msgSize;
    SumsTo(flows, w, n, n);
    SumInBits(n, interval, gbps, Sum(flows, n));
  }

  /** The sizes of the first `m` flows together. */
  function Sum(flows: seq<Flow>, m: nat): int
    requires m <= |flows|
  {
    if m == 0 then 0 else Sum(flows, m - 1) + flows[m - 1].size
  }

  lemma {:induction false} SumsTo(flows: seq<Flow>, w: real, n: nat, m: nat)
    requires m <= |flows|
    requires forall i :: 0 <= i < m ==> flows[i].size as real <= Size(w, n, i) < flows[i].size as real + 1.0
    ensures Sum(flows, m) as real <= Total(w, n, m)
    ensures m > 0 ==> Total(w, n, m) < Sum(flows, m) as real + m as real
  {
    if m > 0 {
      SumsTo(flows, w, n, m - 1);
    }
  }

  lemma SumInBits(n: nat, interval: real, gbps: nat, sum: int)
    requires interval >= 0.0
    requires var total := Total(Unit(interval, gbps), n, n);
             sum as real <= total && (n > 0 ==> total < sum as real + n as real)
    ensures var bits := 2.0 * n as real * (interval * gbps as real);
            8.0 * sum as real <= bits && (n > 0 ==> bits < 8.0 * sum as real + 8.0 * n as real)
  {
    BitsAddUp(interval, gbps, n);
  }

  // ---------------------------------------------------------------- the equal-share fluid model

  predicate Active(left: seq<real>, k: nat, i: nat) {
    i < |left| && i <= k && left[i] > 0.0
  }

  /** How many of the first `m` flows have arrived by interval `k` and are not finished. */
  function ActiveCount(left: seq<real>, k: nat, m: nat): (c: nat)
    requires m <= |left|
    ensures c <= m && ((exists i :: 0 <= i < m && Active(left, k, i)) ==> c > 0)
  {
    if m == 0 then 0 else ActiveCount(left, k, m - 1) + if Active(left, k, m - 1) then 1 else 0
  }

  /** What a flow is still to receive at the start of interval `k`, when `w` is shared equally in every interval. */
  function Left(sizes: seq<real>, w: real, k: nat): (left: seq<real>)
    ensures |left| == |sizes|
  {
    if k == 0 then sizes
    else
      var before := Left(sizes, w, k - 1);
      var c := ActiveCount(before, k - 1, |sizes|);
      seq(|sizes|, i requires 0 <= i < |sizes| =>
        if Active(before, k - 1, i) && c > 0 then before[i] - w / c as real else before[i])
  }

  function Sizes(w: real, n: nat): (s: seq<real>)
    ensures |s| == n && forall i :: 0 <= i < n ==> s[i] == Size(w, n, i)
  {
    seq(n, i requires 0 <= i < n => Size(w, n, i))
  }

  /** The closed form of `Left`. */
  function Expected(w: real, n: nat, k: nat, i: nat): real
  {
    if k <= i then Size(w, n, i)
    else if k <= n then 2.0 * Harmonic(w, n) - Harmonic(w, k) - Harmonic(w, i)
    else if k <= 2 * n - i then Harmonic(w, 2 * n - k) - Harmonic(w, i)
    else 0.0
  }

  /** In interval `k` the flows from 0 to this one share the link. */
  function Sharing(n: nat, k: nat): nat {
    if k >= 2 * n then 0 else if k + 1 <= 2 * n - k then k + 1 else 2 * n - k
  }

  lemma ExpectedPositive(w: real, n: nat, k: nat, i: nat)
    requires w > 0.0 && i < n
    ensures i <= k ==> (Expected(w, n, k, i) > 0.0 <==> k < 2 * n - i)
  {
    HarmonicGrows(w, i, n);
    if i < k <= n {
      HarmonicGrows(w, k, n);
    } else if n < k <= 2 * n - i {
      HarmonicGrows(w, i, 2 * n - k);
    }
  }

  lemma ExpectedStep(w: real, n: nat, k: nat, i: nat)
    requires w > 0.0 && i <= k < 2 * n - i
    ensures Sharing(n, k) > 0 && Expected(w, n, k + 1, i) == Expected(w, n, k, i) - w / Sharing(n, k) as real
  {
    if k < n {
      assert Harmonic(w, k + 1) == Harmonic(w, k) + w / (k + 1) as real;
    } else {
      assert Harmonic(w, 2 * n - k) == Harmonic(w, 2 * n - k - 1) + w / (2 * n - k) as real;
    }
  }

  lemma {:induction false} CountIs(left: seq<real>, k: nat, m: nat, c: nat)
    requires m <= |left| && forall i :: 0 <= i < m ==> (Active(left, k, i) <==> i < c)
    ensures ActiveCount(left, k, m) == if m <= c then m else c
  {
    if m > 0 {
      CountIs(left, k, m - 1, c);
    }
  }

  lemma {:induction false} LeftIs(w: real, n: nat, k: nat)
    requires w > 0.0
    ensures forall i :: 0 <= i < n ==> Left(Sizes(w, n), w, k)[i] == Expected(w, n, k, i)
  {
    if k > 0 {
      LeftIs(w, n, k - 1);
      SharingIs(w, n, k - 1);
      forall i | 0 <= i < n ensures Left(Sizes(w, n), w, k)[i] == Expected(w, n, k, i) {
        ExpectedPositive(w, n, k - 1, i);
        if i < k <= 2 * n - i {
          ExpectedStep(w, n, k - 1, i);
        }
      }
    }
  }

  lemma SharingIs(w: real, n: nat, k: nat)
    requires w > 0.0 && forall i :: 0 <= i < n ==> Left(Sizes(w, n), w, k)[i] == Expected(w, n, k, i)
    ensures ActiveCount(Left(Sizes(w, n), w, k), k, n) == Sharing(n, k)
    ensures forall i :: 0 <= i < n ==> (Active(Left(Sizes(w, n), w, k), k, i) <==> i < Sharing(n, k))
  {
    var left := Left(Sizes(w, n), w, k);
    forall i | 0 <= i < n ensures Active(left, k, i) <==> i < Sharing(n, k) {
      ExpectedPositive(w, n, k, i);
    }
    CountIs(left, k, n, Sharing(n, k));
  }

  /** Sharing the link equally, flow `i` is active exactly from interval `i` to interval `2n - i - 1` and has received
      exactly its size then: flows finish in reverse order of arrival, one interval apart. */
  lemma FinishTimes(w: real, n: nat, i: nat, k: nat)
    requires w > 0.0 && i < n
    ensures Active(Left(Sizes(w, n), w, k), k, i) <==> i <= k < 2 * n - i
    ensures Left(Sizes(w, n), w, 2 * n - i)[i] == 0.0
  {
    LeftIs(w, n, k);
    LeftIs(w, n, 2 * n - i);
    ExpectedPositive(w, n, k, i);
  }

  /** No flow finishes inside an interval: every active one still needs its full share, so the shares do stay equal
      throughout the interval and the link is never idle before the end. */
  lemma FullShares(w: real, n: nat, i: nat, k: nat)
    requires w > 0.0 && i < n && Active(Left(Sizes(w, n), w, k), k, i)
    ensures var c := ActiveCount(Left(Sizes(w, n), w, k), k, n);
            c == Sharing(n, k) > 0 && Left(Sizes(w, n), w, k)[i] >= w / c as real
  {
    LeftIs(w, n, k);
    LeftIs(w, n, k + 1);
    SharingIs(w, n, k);
    FinishTimes(w, n, i, k);
    ExpectedStep(w, n, k, i);
    ExpectedPositive(w, n, k + 1, i);
  }

  function Total(w: real, n: nat, m: nat): real {
    if m == 0 then 0.0 else Total(w, n, m - 1) + Size(w, n, m - 1)
  }

  /** The sizes add up to what the link carries in `2n` intervals. */
  lemma {:induction false} SizesAddUp(w: real, n: nat)
    ensures Total(w, n, n) == 2.0 * n as real * w
  {
    if n > 0 {
      SizesAddUp(w, n - 1);
      TotalGrows(w, n, n - 1);
      Quotient(w, n);
    }
  }

  /** In bits, for an interval in nanoseconds and a link in Gbit/s: exactly what the link carries in `2n` intervals. */
  lemma BitsAddUp(interval: real, gbps: nat, n: nat)
    requires interval >= 0.0
    ensures 8.0 * Total(Unit(interval, gbps), n, n) == 2.0 * n as real * (interval * gbps as real)
  {
    var bits := interval * gbps as real;
    SizesAddUp(Unit(interval, gbps), n);
    EightTimes(2.0 * n as real, bits, Unit(interval, gbps));
  }

  lemma EightTimes(a: real, bits: real, w: real)
    requires w == bits / 8.0
    ensures 8.0 * (a * w) == a * bits
  {
  }

  lemma {:induction false} TotalGrows(w: real, n: nat, m: nat)
    requires n > 0
    ensures Total(w, n, m) == Total(w, n - 1, m) + 2.0 * m as real * (w / n as real)
  {
    if m > 0 {
      TotalGrows(w, n, m - 1);
      OneMore(m, w / n as real);
    }
  }

  lemma OneMore(m: nat, d: real)
    requires m > 0
    ensures 2.0 * m as real * d == 2.0 * (m - 1) as real * d + 2.0 * d
  {
  }
}
