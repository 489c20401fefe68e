/**
 The piecewise linear distribution of custom_random_number_generator.py: its validity, its two lookups, its mean.
 Numbers are exact reals.
 */
module Cdf {
  import opened RealArith

  datatype Point = Point(value: real, perc: real)
  datatype Option<T> = None | Some(value: T)
  datatype Outcome<T> = Returned(value: T) | IndexError

  // ---------------------------------------------------------------- specification

  predicate Rising(c: seq<Point>) {
    forall i :: 0 <= i < |c| - 1 ==> c[i].value < c[i + 1].value && c[i].perc < c[i + 1].perc
  }

  predicate ValidCdf(c: seq<Point>) {
    c != [] && Rising(c) && c[0].perc == 0.0 && c[|c| - 1].perc == 100.0
  }

  predicate Below(a: Point, b: Point) {
    a.value < b.value && a.perc < b.perc
  }

  function Slope(a: Point, b: Point): real
    requires Below(a, b)
  {
    (b.value - a.value) / (b.perc - a.perc)
  }

  /** The line through two points: the value at a percentile and the percentile at a value. */
  function ValueOn(a: Point, b: Point, p: real): real
    requires Below(a, b)
  {
    a.value + (p - a.perc) * Slope(a, b)
  }

  function PercOn(a: Point, b: Point, v: real): real
    requires Below(a, b)
  {
    a.perc + (b.perc - a.perc) / (b.value - a.value) * (v - a.value)
  }

  function ValueAt(c: seq<Point>, p: real): Option<real>
    requires Rising(c)
  {
    if |c| < 2 then None
    else if p <= c[1].perc then Some(ValueOn(c[0], c[1], p))
    else ValueAt(c[1..], p)
  }

  function PercAt(c: seq<Point>, v: real): Option<real>
    requires Rising(c)
  {
    if |c| < 2 then None
    else if v <= c[1].value then Some(PercOn(c[0], c[1], v))
    else PercAt(c[1..], v)
  }

  function Piece(a: Point, b: Point): real {
    (b.value + a.value) / 2.0 * (b.perc - a.perc)
  }

  function Area(c: seq<Point>): real {
    if |c| < 2 then 0.0 else Piece(c[0], c[1]) + Area(c[1..])
  }

  function Average(c: seq<Point>): real {
    Area(c) / 100.0
  }

  /** `get_percentile_from_value`: -1 for negative values and beyond the last value.  Values from 0 up to the first
      one are not treated as out of range but extrapolated along the first segment. */
  function PercentileFromValue(c: seq<Point>, v: real): Outcome<Option<real>>
    requires Rising(c)
  {
    if v < 0.0 then Returned(Some(-1.0))
    else if c == [] then IndexError
    else if v > c[|c| - 1].value then Returned(Some(-1.0))
    else Returned(PercAt(c, v))
  }

  // ---------------------------------------------------------------- the class

  class Generator {
    var cdf: seq<Point>

    predicate Valid()
      reads this
    {
      cdf == [] || ValidCdf(cdf)
    }

    constructor ()
      ensures Valid() && cdf == []
    {
      cdf := [];
    }

    method IsValidCdf(input: seq<Point>) returns (r: Outcome<bool>)
      ensures r == if input == [] then IndexError else Returned(ValidCdf(input))
    {
      if input == [] {
        return IndexError;
      }
      if input[0].perc != 0.0 || input[|input| - 1].perc != 100.0 {
        return Returned(false);
      }
      for i := 1 to |input|
        invariant forall k :: 0 <= k < i - 1 ==>
                    input[k].value < input[k + 1].value && input[k].perc < input[k + 1].perc
      {
        var curr, prev := input[i], input[i - 1];
        if curr.perc <= prev.perc || curr.value <= prev.value {
          return Returned(false);
        }
      }
      r := Returned(true);
    }

    method SetCdf(input: seq<Point>) returns (r: Outcome<bool>)
      requires Valid()
      modifies this
      ensures Valid() && r == if input == [] then IndexError else Returned(ValidCdf(input))
      ensures cdf == if input != [] && ValidCdf(input) then input else old(cdf)
    {
      r := IsValidCdf(input);
      if r == Returned(true) {
        cdf := input;
      }
    }

    method CalculateAverageValue() returns (r: Outcome<real>)
      requires Valid()
      ensures r == if cdf == [] then IndexError else Returned(Average(cdf))
    {
      if cdf == [] {
        return IndexError;
      }
      var totalAverage, prev := 0.0, cdf[0];
      for i := 1 to |cdf|
        invariant prev == cdf[i - 1] && totalAverage + Area(cdf[i - 1..]) == Area(cdf)
      {
        var curr := cdf[i];
        totalAverage := totalAverage + (curr.value + prev.value) / 2.0 * (curr.perc - prev.perc);
        prev := curr;
      }
      r := Returned(totalAverage / 100.0);
    }

    method GetValueFromPercentile(percentile: real) returns (r: Option<real>)
      requires Valid()
      ensures r == ValueAt(cdf, percentile)
    {
      var i := 1;
      while i < |cdf|
        invariant 1 <= i <= |cdf| + 1 && Rising(cdf[i - 1..])
        invariant ValueAt(cdf[i - 1..], percentile) == ValueAt(cdf, percentile)
      {
        var lower, upper := cdf[i - 1], cdf[i];
        ValueFromTail(cdf, i, percentile);
        if percentile <= upper.perc {
          return Some(ValueOn(lower, upper, percentile));
        }
        i := i + 1;
      }
      r := None;
    }

    method GetPercentileFromValue(value: real) returns (r: Outcome<Option<real>>)
      requires Valid()
      ensures r == PercentileFromValue(cdf, value)
    {
      if value < 0.0 {
        return Returned(Some(-1.0));
      }
      if cdf == [] {
        return IndexError;
      }
      if value > cdf[|cdf| - 1].value {
        return Returned(Some(-1.0));
      }
      var i := 1;
      while i < |cdf|
        invariant 1 <= i <= |cdf| && Rising(cdf[i - 1..])
        invariant PercAt(cdf[i - 1..], value) == PercAt(cdf, value)
      {
        var lower, upper := cdf[i - 1], cdf[i];
        PercFromTail(cdf, i, value);
        if value <= upper.value {
          return Returned(Some(PercOn(lower, upper, value)));
        }
        i := i + 1;
      }
      r := Returned(None);
    }

    /** `draw` is what the random generator returns. */
    method GenerateRandomNumber(draw: real) returns (r: Option<real>)
      requires Valid() && 0.0 <= draw < 1.0
      ensures if cdf == [] then r == None else r.Some? && cdf[0].value <= r.value < cdf[|cdf| - 1].value
    {
      r := GetValueFromPercentile(draw * 100.0);
      if cdf != [] {
        ValueThenPerc(cdf, draw * 100.0);
      }
    }
  }

  lemma ValueFromTail(c: seq<Point>, i: nat, p: real)
    requires Rising(c) && 1 <= i < |c|
    ensures Rising(c[i - 1..]) && Rising(c[i..]) && Below(c[i - 1], c[i])
    ensures ValueAt(c[i - 1..], p) == if p <= c[i].perc then Some(ValueOn(c[i - 1], c[i], p)) else ValueAt(c[i..], p)
  {
    var tail := c[i - 1..];
    assert Below(c[i - 1], c[i - 1 + 1]);
    assert tail[0] == c[i - 1] && tail[1] == c[i] && tail[1..] == c[i..];
  }

  lemma PercFromTail(c: seq<Point>, i: nat, v: real)
    requires Rising(c) && 1 <= i < |c|
    ensures Rising(c[i - 1..]) && Rising(c[i..]) && Below(c[i - 1], c[i])
    ensures PercAt(c[i - 1..], v) == if v <= c[i].value then Some(PercOn(c[i - 1], c[i], v)) else PercAt(c[i..], v)
  {
    var tail := c[i - 1..];
    assert Below(c[i - 1], c[i - 1 + 1]);
    assert tail[0] == c[i - 1] && tail[1] == c[i] && tail[1..] == c[i..];
  }

  // ---------------------------------------------------------------- one segment

  lemma OnLine(a: Point, b: Point, p: real)
    requires Below(a, b)
    ensures Slope(a, b) > 0.0 && (b.perc - a.perc) * Slope(a, b) == b.value - a.value
    ensures PercOn(a, b, ValueOn(a, b, p)) == p
    ensures p <= b.perc <==> ValueOn(a, b, p) <= b.value
    ensures p < b.perc <==> ValueOn(a, b, p) < b.value
    ensures a.perc <= p <==> a.value <= ValueOn(a, b, p)
    ensures a.perc < p <==> a.value < ValueOn(a, b, p)
  {
    var dp, dv, s := b.perc - a.perc, b.value - a.value, Slope(a, b);
    var rise, short := (p - a.perc) * s, (p - b.perc) * s;
    SlopeIs(dp, dv, s);
    assert ValueOn(a, b, p) == a.value + rise;
    RiseAndShort(p - a.perc, p - b.perc, dp, dv, s, rise, short);
    BackAlong(dp, dv, s, p - a.perc, rise);
    assert PercOn(a, b, ValueOn(a, b, p)) == a.perc + dp / dv * rise;
  }

  lemma SlopeIs(dp: real, dv: real, s: real)
    requires dp > 0.0 && dv > 0.0 && s == dv / dp
    ensures s > 0.0 && dp * s == dv
  {
  }

  /** Where the line stands against its two ends. */
  lemma RiseAndShort(x: real, y: real, dp: real, dv: real, s: real, rise: real, short: real)
    requires s > 0.0 && dp * s == dv && rise == x * s && short == y * s && x == y + dp
    ensures rise == short + dv
    ensures (x < 0.0 <==> rise < 0.0) && (x > 0.0 <==> rise > 0.0)
    ensures (y < 0.0 <==> short < 0.0) && (y > 0.0 <==> short > 0.0)
  {
    Sign(x, s);
    Sign(y, s);
    assert (y + dp) * s == y * s + dp * s;
  }

  lemma BackAlong(dp: real, dv: real, s: real, x: real, rise: real)
    requires dp > 0.0 && dv > 0.0 && dp * s == dv && rise == x * s
    ensures dp / dv * rise == x
  {
    var back := dp / dv;
    assert back * s == 1.0;
    assert back * (x * s) == x * (back * s);
  }

  lemma RisesOnLine(a: Point, b: Point, p: real, q: real)
    requires Below(a, b) && p < q
    ensures ValueOn(a, b, p) < ValueOn(a, b, q)
  {
    OnLine(a, b, p);
    ScaleStrictly(p - a.perc, q - a.perc, Slope(a, b));
  }

  lemma OnLineBack(a: Point, b: Point, v: real)
    requires Below(a, b)
    ensures ValueOn(a, b, PercOn(a, b, v)) == v
  {
    var dp, dv := b.perc - a.perc, b.value - a.value;
    assert (dp / dv * (v - a.value)) * (dv / dp) == v - a.value by {
      assert dp / dv * (dv / dp) == 1.0;
    }
  }

  // ---------------------------------------------------------------- which lists are accepted

  /** A list is accepted exactly when it runs from 0 to 100 percent and any two of its points rise in both values. */
  lemma ValidIff(c: seq<Point>)
    ensures ValidCdf(c) <==>
              && c != [] && c[0].perc == 0.0 && c[|c| - 1].perc == 100.0
              && forall i, j :: 0 <= i < j < |c| ==> c[i].value < c[j].value && c[i].perc < c[j].perc
  {
    if Rising(c) {
      forall i, j | 0 <= i < j < |c| ensures c[i].value < c[j].value && c[i].perc < c[j].perc {
        RisesTo(c, i, j);
      }
    }
  }

  lemma {:induction false} RisesTo(c: seq<Point>, i: nat, j: nat)
    requires Rising(c) && i < j < |c|
    ensures c[i].value < c[j].value && c[i].perc < c[j].perc
  {
    if i < j - 1 {
      RisesTo(c, i, j - 1);
    }
    assert c[j - 1].value < c[j - 1 + 1].value && c[j - 1].perc < c[j - 1 + 1].perc;
  }

  /** Two points make a distribution, with any first value, 0 and negative ones included, and any larger second one. */
  lemma TwoPoints(v: real, w: real)
    ensures ValidCdf([Point(v, 0.0), Point(w, 100.0)]) <==> v < w
  {
    ValidIff([Point(v, 0.0), Point(w, 100.0)]);
  }

  // ---------------------------------------------------------------- the two lookups invert each other

  lemma {:induction false} LastIsLargest(c: seq<Point>, i: nat)
    requires Rising(c) && i < |c|
    ensures c[i].value <= c[|c| - 1].value && c[i].perc <= c[|c| - 1].perc
    ensures i < |c| - 1 ==> Below(c[i], c[|c| - 1])
    decreases |c| - i
  {
    if i < |c| - 1 {
      assert Below(c[i], c[i + 1]);
      LastIsLargest(c, i + 1);
    }
  }

  /** Every percentile between the first and the last has a value, in range, whose percentile it is. */
  lemma {:induction false} ValueThenPerc(c: seq<Point>, p: real)
    requires Rising(c) && |c| >= 2 && c[0].perc <= p <= c[|c| - 1].perc
    ensures ValueAt(c, p).Some? && c[0].value <= ValueAt(c, p).value <= c[|c| - 1].value
    ensures c[0].perc < p ==> c[0].value < ValueAt(c, p).value
    ensures p < c[|c| - 1].perc ==> ValueAt(c, p).value < c[|c| - 1].value
    ensures PercAt(c, ValueAt(c, p).value) == Some(p)
  {
    LastIsLargest(c, 1);
    assert Below(c[0], c[1]);
    if p <= c[1].perc {
      OnLine(c[0], c[1], p);
    } else {
      ValueThenPerc(c[1..], p);
    }
  }

  /** ... and the other way round. */
  lemma {:induction false} PercThenValue(c: seq<Point>, v: real)
    requires Rising(c) && |c| >= 2 && c[0].value <= v <= c[|c| - 1].value
    ensures PercAt(c, v).Some? && c[0].perc <= PercAt(c, v).value <= c[|c| - 1].perc
    ensures c[0].value < v ==> c[0].perc < PercAt(c, v).value
    ensures ValueAt(c, PercAt(c, v).value) == Some(v)
  {
    LastIsLargest(c, 1);
    assert Below(c[0], c[1]);
    if v <= c[1].value {
      OnLineBack(c[0], c[1], v);
      OnLine(c[0], c[1], PercOn(c[0], c[1], v));
    } else {
      PercThenValue(c[1..], v);
    }
  }

  /** Larger percentiles have larger values, across segment boundaries too. */
  lemma {:induction false} StrictlyIncreasing(c: seq<Point>, p: real, q: real)
    requires Rising(c) && |c| >= 2 && p < q <= c[|c| - 1].perc
    ensures ValueAt(c, p).Some? && ValueAt(c, q).Some? && ValueAt(c, p).value < ValueAt(c, q).value
  {
    assert Below(c[0], c[1]);
    if q <= c[1].perc {
      RisesOnLine(c[0], c[1], p, q);
    } else if p <= c[1].perc {
      OnLine(c[0], c[1], p);
      ValueThenPerc(c[1..], q);
    } else {
      StrictlyIncreasing(c[1..], p, q);
    }
  }

  /** The percentile of the value at `p` is `p` again. */
  predicate Survives(c: seq<Point>, p: real)
    requires Rising(c)
  {
    ValueAt(c, p).Some? && PercentileFromValue(c, ValueAt(c, p).value) == Returned(Some(p))
  }

  /** The percentile of the value of a percentile is that percentile, for all of 0 to 100, if and only if the smallest
      value is not negative. */
  lemma RoundTripIff(c: seq<Point>)
    requires ValidCdf(c)
    ensures (forall p: real :: 0.0 <= p <= 100.0 ==> Survives(c, p)) <==> c[0].value >= 0.0
  {
    if c[0].value >= 0.0 {
      forall p: real | 0.0 <= p <= 100.0
        ensures Survives(c, p)
      {
        ValueThenPerc(c, p);
      }
    } else {
      assert Below(c[0], c[1]);
      AtFirst(c[0], c[1]);
      assert ValueAt(c, 0.0) == Some(c[0].value);
      assert !Survives(c, 0.0);
    }
  }

  /** What is answered between 0 and the first value: a negative percentile, by extrapolation. */
  lemma BelowFirst(c: seq<Point>, v: real)
    requires ValidCdf(c) && 0.0 <= v < c[0].value
    ensures Below(c[0], c[1]) && PercentileFromValue(c, v) == Returned(Some(PercOn(c[0], c[1], v)))
    ensures PercOn(c[0], c[1], v) < 0.0
  {
    assert Below(c[0], c[1]);
    LastIsLargest(c, 1);
    PercRises(c[0], c[1], v, c[0].value);
  }

  lemma PercRises(a: Point, b: Point, v: real, w: real)
    requires Below(a, b) && v < w
    ensures PercOn(a, b, v) < PercOn(a, b, w)
    ensures PercOn(a, b, a.value) == a.perc
  {
    var slope := (b.perc - a.perc) / (b.value - a.value);
    assert slope > 0.0;
    PercIs(a, b, v, slope, (v - a.value) * slope);
    PercIs(a, b, w, slope, (w - a.value) * slope);
    ScaleStrictly(v - a.value, w - a.value, slope);
  }

  lemma PercIs(a: Point, b: Point, v: real, slope: real, rise: real)
    requires Below(a, b) && slope == (b.perc - a.perc) / (b.value - a.value) && rise == (v - a.value) * slope
    ensures PercOn(a, b, v) == a.perc + rise
  {
  }

  /** With values from 10 to 20, the value 5 has percentile -50. */
  lemma FiveIsMinusFifty()
    ensures var c := [Point(10.0, 0.0), Point(20.0, 100.0)];
            ValidCdf(c) && PercentileFromValue(c, 5.0) == Returned(Some(-50.0))
  {
    var a, b := Point(10.0, 0.0), Point(20.0, 100.0);
    assert PercOn(a, b, 5.0) == 0.0 + 10.0 * (5.0 - 10.0);
  }

  /** A value outside the distribution is answered -1. */
  predicate RefusedOutside(c: seq<Point>, v: real)
    requires ValidCdf(c)
  {
    v < c[0].value || v > c[|c| - 1].value ==> PercentileFromValue(c, v) == Returned(Some(-1.0))
  }

  /** All values outside the distribution are answered -1, as documented, if and only if the first value is not
      positive. */
  lemma RefusedOutsideIff(c: seq<Point>)
    requires ValidCdf(c)
    ensures (forall v: real :: RefusedOutside(c, v)) <==> c[0].value <= 0.0
  {
    if c[0].value > 0.0 {
      var half := c[0].value / 2.0;
      BelowFirst(c, 0.0);
      BelowFirst(c, half);
      PercRises(c[0], c[1], 0.0, half);
      assert !RefusedOutside(c, 0.0) || !RefusedOutside(c, half);
    } else {
      LastIsLargest(c, 0);
    }
  }

  // ---------------------------------------------------------------- the mean does not depend on the points chosen

  predicate Between(a: Point, x: Point, b: Point) {
    Below(a, b) && a.perc < x.perc < b.perc && x.value == ValueOn(a, b, x.perc)
  }

  lemma SplitSegment(a: Point, x: Point, b: Point, p: real)
    requires Between(a, x, b)
    ensures Below(a, x) && Below(x, b)
    ensures ValueOn(a, x, p) == ValueOn(a, b, p) == ValueOn(x, b, p)
    ensures Piece(a, x) + Piece(x, b) == Piece(a, b)
  {
    OnLine(a, b, x.perc);
    var s, h, k := Slope(a, b), x.perc - a.perc, b.perc - x.perc;
    assert x.value == a.value + h * s;
    assert b.value == a.value + h * s + k * s by {
      assert (h + k) * s == h * s + k * s;
    }
    SameSlope(h, s);
    SameSlope(k, s);
    assert (p - a.perc) * s == h * s + (p - x.perc) * s;
    PieceSum(a.value, h, k, s);
  }

  function Insert(c: seq<Point>, i: nat, x: Point): seq<Point>
    requires i <= |c|
  {
    c[..i] + [x] + c[i..]
  }

  lemma RisingMeans(c: seq<Point>)
    ensures Rising(c) <==> forall i :: 0 <= i < |c| - 1 ==> Below(c[i], c[i + 1])
  {
    if Rising(c) {
      forall i | 0 <= i < |c| - 1 ensures Below(c[i], c[i + 1]) {
      }
    } else {
      var i :| 0 <= i < |c| - 1 && !(c[i].value < c[i + 1].value && c[i].perc < c[i + 1].perc);
      assert !Below(c[i], c[i + 1]);
    }
  }

  lemma InsertRises(c: seq<Point>, i: nat, x: Point)
    requires Rising(c) && 0 < i < |c| && Between(c[i - 1], x, c[i])
    ensures var d := Insert(c, i, x); Rising(d) && d[0] == c[0] && d[|d| - 1] == c[|c| - 1]
  {
    SplitSegment(c[i - 1], x, c[i], 0.0);
    var d := Insert(c, i, x);
    RisingMeans(c);
    RisingMeans(d);
    forall k | 0 <= k < |d| - 1 ensures Below(d[k], d[k + 1]) {
      if k < i - 1 {
        assert d[k] == c[k] && d[k + 1] == c[k + 1];
      } else if k > i {
        assert d[k] == c[k - 1] && d[k + 1] == c[k];
        assert Below(c[k - 1], c[k - 1 + 1]);
      }
    }
  }

  /** A point on the first segment. */
  lemma InsertFirst(c: seq<Point>, x: Point, p: real)
    requires Rising(c) && |c| >= 2 && Between(c[0], x, c[1])
    ensures var e := [x] + c[1..];
            && Rising(e) && Rising([c[0]] + e) && Area(c) == Piece(c[0], x) + Area(e)
            && (p > x.perc ==> ValueAt(e, p) == ValueAt(c, p))
            && ValueAt([c[0]] + e, p) == ValueAt(c, p)
  {
    SplitSegment(c[0], x, c[1], p);
    InsertRises(c, 1, x);
    var e := [x] + c[1..];
    var d := [c[0]] + e;
    assert d == Insert(c, 1, x);
    assert d[1..] == e && e[1..] == c[1..];
  }

  lemma {:induction false} InsertKeeps(c: seq<Point>, i: nat, x: Point, p: real)
    requires Rising(c) && 0 < i < |c| && Between(c[i - 1], x, c[i]) && Rising(Insert(c, i, x))
    ensures ValueAt(Insert(c, i, x), p) == ValueAt(c, p) && Area(Insert(c, i, x)) == Area(c)
  {
    if i == 1 {
      InsertAtOne(c, x, p);
    } else {
      var d, tail := Insert(c, i, x), c[1..];
      assert d[1..] == Insert(tail, i - 1, x) && tail[i - 2] == c[i - 1] && tail[i - 1] == c[i];
      InsertKeeps(tail, i - 1, x, p);
      SameTails(c, d, p);
    }
  }

  lemma InsertAtOne(c: seq<Point>, x: Point, p: real)
    requires Rising(c) && |c| >= 2 && Between(c[0], x, c[1]) && Rising(Insert(c, 1, x))
    ensures ValueAt(Insert(c, 1, x), p) == ValueAt(c, p) && Area(Insert(c, 1, x)) == Area(c)
  {
    InsertFirst(c, x, p);
    var e := [x] + c[1..];
    assert Insert(c, 1, x) == [c[0]] + e;
    AreaCons(c[0], e);
  }

  lemma AreaCons(a: Point, c: seq<Point>)
    requires c != []
    ensures Area([a] + c) == Piece(a, c[0]) + Area(c)
  {
    assert ([a] + c)[1..] == c;
  }

  lemma SameTails(c: seq<Point>, d: seq<Point>, p: real)
    requires Rising(c) && Rising(d) && |c| >= 2 && |d| >= 2 && c[0] == d[0] && c[1] == d[1]
    requires ValueAt(c[1..], p) == ValueAt(d[1..], p) && Area(c[1..]) == Area(d[1..])
    ensures ValueAt(c, p) == ValueAt(d, p) && Area(c) == Area(d)
  {
    assert Below(c[0], c[1]);
  }

  /** Writing down an interpolated point changes neither the values nor the mean. */
  lemma InsertChangesNothing(c: seq<Point>, i: nat, x: Point, p: real)
    requires ValidCdf(c) && 0 < i < |c| && Between(c[i - 1], x, c[i])
    ensures var d := Insert(c, i, x); ValidCdf(d) && ValueAt(d, p) == ValueAt(c, p) && Average(d) == Average(c)
  {
    InsertRises(c, i, x);
    InsertKeeps(c, i, x, p);
  }

  ghost predicate SameValues(c: seq<Point>, d: seq<Point>)
    requires Rising(c) && Rising(d) && c != []
  {
    forall p: real :: c[0].perc <= p <= c[|c| - 1].perc ==> ValueAt(c, p) == ValueAt(d, p)
  }

  lemma AtFirst(a: Point, b: Point)
    requires Below(a, b)
    ensures ValueOn(a, b, a.perc) == a.value && ValueOn(a, b, b.perc) == b.value
  {
    OnLine(a, b, a.perc);
  }

  lemma TailValues(c: seq<Point>, p: real)
    requires Rising(c) && |c| >= 3 && p >= c[1].perc
    ensures Rising(c[1..]) && ValueAt(c, p) == ValueAt(c[1..], p)
  {
    assert Below(c[0], c[1]) && Below(c[1], c[1 + 1]);
    AtFirst(c[0], c[1]);
    AtFirst(c[1], c[2]);
  }

  /** Two curves with the same values have the same area under them, whatever points describe them. */
  lemma {:induction false} SameValuesSameArea(c: seq<Point>, d: seq<Point>)
    requires Rising(c) && Rising(d) && c != [] && d != [] && c[0] == d[0] && c[|c| - 1].perc == d[|d| - 1].perc
             && SameValues(c, d)
    ensures Area(c) == Area(d)
    decreases |c| + |d|, 1
  {
    LastIsLargest(c, 0);
    LastIsLargest(d, 0);
    if |c| >= 2 {
      LastIsLargest(c, 1);
      LastIsLargest(d, 1);
      if c[1].perc == d[1].perc {
        SameFirst(c, d);
      } else if c[1].perc < d[1].perc {
        ShorterFirst(c, d);
      } else {
        assert SameValues(d, c);
        ShorterFirst(d, c);
      }
    }
  }

  lemma {:induction false} SameFirst(c: seq<Point>, d: seq<Point>)
    requires Rising(c) && Rising(d) && |c| >= 2 && |d| >= 2 && c[0] == d[0] && c[|c| - 1].perc == d[|d| - 1].perc
             && SameValues(c, d)
    requires c[1].perc == d[1].perc
    ensures Area(c) == Area(d)
    decreases |c| + |d|, 0
  {
    assert Below(c[0], c[1]) && Below(d[0], d[1]);
    LastIsLargest(c, 1);
    LastIsLargest(d, 1);
    AtFirst(c[0], c[1]);
    AtFirst(d[0], d[1]);
    assert ValueAt(c, c[1].perc) == ValueAt(d, c[1].perc);
    forall p: real | c[1].perc <= p <= c[|c| - 1].perc ensures ValueAt(c[1..], p) == ValueAt(d[1..], p) {
      if |c| >= 3 {
        TailValues(c, p);
        TailValues(d, p);
      }
    }
    SameValuesSameArea(c[1..], d[1..]);
  }

  /** The first segment of `c` is the shorter one: cut the other at its end. */
  lemma {:induction false} ShorterFirst(c: seq<Point>, d: seq<Point>)
    requires Rising(c) && Rising(d) && |c| >= 2 && |d| >= 2 && c[0] == d[0] && c[|c| - 1].perc == d[|d| - 1].perc
             && SameValues(c, d)
    requires c[1].perc < d[1].perc
    ensures Area(c) == Area(d)
    decreases |c| + |d|, 0
  {
    var x := c[1];
    assert Below(c[0], c[1]) && Below(d[0], d[1]);
    LastIsLargest(d, 1);
    AtFirst(c[0], x);
    assert ValueAt(c, x.perc) == ValueAt(d, x.perc);
    var e := [x] + d[1..];
    InsertFirst(d, x, x.perc);
    forall p: real | x.perc <= p <= c[|c| - 1].perc ensures ValueAt(c[1..], p) == ValueAt(e, p) {
      TailValues(c, p);
      InsertFirst(d, x, p);
      if p == x.perc {
        SplitSegment(d[0], x, d[1], p);
        AtFirst(x, d[1]);
      }
    }
    SameValuesSameArea(c[1..], e);
  }

  /** Two valid distributions with the same values have the same mean. */
  lemma MeanIsOfTheCurve(c: seq<Point>, d: seq<Point>)
    requires ValidCdf(c) && ValidCdf(d)
    requires forall p: real :: 0.0 <= p <= 100.0 ==> ValueAt(c, p) == ValueAt(d, p)
    ensures Average(c) == Average(d)
  {
    assert Below(c[0], c[1]) && Below(d[0], d[1]);
    AtFirst(c[0], c[1]);
    AtFirst(d[0], d[1]);
    assert ValueAt(c, 0.0) == ValueAt(d, 0.0);
    SameValuesSameArea(c, d);
  }

  /** The distance between the percentiles of a point's neighbours, at the ends that of the point to its neighbour. */
  function Reach(c: seq<Point>, i: nat): real
    requires i < |c|
  {
    c[if i + 1 < |c| then i + 1 else i].perc - c[if i > 0 then i - 1 else i].perc
  }

  /** The mean is linear in the values: moving a point's value moves it by half the distance of its neighbours'
      percentiles, in hundredths; with all values 0 it is 0. */
  lemma MeanMoves(c: seq<Point>, i: nat, v: real)
    requires i < |c|
    ensures 200.0 * (Average(c[i := Point(v, c[i].perc)]) - Average(c)) == (v - c[i].value) * Reach(c, i)
    ensures (forall k :: 0 <= k < |c| ==> c[k].value == 0.0) ==> Average(c) == 0.0
  {
    AreaMoves(c, i, v);
    if forall k :: 0 <= k < |c| ==> c[k].value == 0.0 {
      AreaOfZero(c);
    }
  }

  lemma {:induction false} AreaOfZero(c: seq<Point>)
    requires forall k :: 0 <= k < |c| ==> c[k].value == 0.0
    ensures Area(c) == 0.0
  {
    if |c| >= 2 {
      AreaOfZero(c[1..]);
    }
  }

  lemma {:induction false} AreaMoves(c: seq<Point>, i: nat, v: real)
    requires i < |c|
    ensures 2.0 * (Area(c[i := Point(v, c[i].perc)]) - Area(c)) == (v - c[i].value) * Reach(c, i)
    decreases |c|
  {
    var d := c[i := Point(v, c[i].perc)];
    if |c| >= 2 {
      if i == 0 {
        assert d[1..] == c[1..];
        PieceMoves(c[0], d[0], c[1]);
      } else {
        assert d[1..] == c[1..][i - 1 := d[i]];
        AreaMoves(c[1..], i - 1, v);
        if i == 1 {
          PieceMoves(c[1], d[1], c[0]);
          Shared(v - c[1].value, Reach(c[1..], 0), c[1].perc - c[0].perc);
        }
      }
    }
  }

  lemma PieceMoves(a: Point, d: Point, b: Point)
    requires d.perc == a.perc
    ensures 2.0 * (Piece(d, b) - Piece(a, b)) == (d.value - a.value) * (b.perc - a.perc)
    ensures 2.0 * (Piece(b, d) - Piece(b, a)) == (d.value - a.value) * (a.perc - b.perc)
  {
  }

  lemma Shared(x: real, a: real, b: real)
    ensures x * a + x * b == x * (a + b)
  {
  }

  /** The mean lies strictly between the first and the last value. */
  lemma MeanInRange(c: seq<Point>)
    requires ValidCdf(c)
    ensures c[0].value < Average(c) < c[|c| - 1].value
  {
    AreaInRange(c, 100.0, c[0].value, c[|c| - 1].value);
    Hundredth(c[0].value, Area(c), c[|c| - 1].value);
  }

  ghost predicate AreaWithin(c: seq<Point>, lo: real, hi: real, span: real) {
    lo * span <= Area(c) <= hi * span
  }

  lemma {:induction false} AreaInRange(c: seq<Point>, span: real, lo: real, hi: real)
    requires Rising(c) && |c| >= 2 && span == c[|c| - 1].perc - c[0].perc && lo == c[0].value && hi == c[|c| - 1].value
    ensures AreaWithin(c, lo, hi, span) && lo * span < Area(c) < hi * span
    decreases |c|, 1
  {
    var k := c[|c| - 1].perc - c[1].perc;
    assert Below(c[0], c[1]);
    LastIsLargest(c, 1);
    TailWithin(c, k, c[1].value, hi);
    PieceThen(c[0], c[1], hi, k, span, Area(c[1..]));
  }

  lemma {:induction false} TailWithin(c: seq<Point>, k: real, lo: real, hi: real)
    requires Rising(c) && |c| >= 2 && k == c[|c| - 1].perc - c[1].perc && lo == c[1].value && hi == c[|c| - 1].value
    ensures AreaWithin(c[1..], lo, hi, k)
    decreases |c|, 0
  {
    if |c| > 2 {
      AreaInRange(c[1..], k, lo, hi);
    } else {
      NoSpan(lo, hi, k);
    }
  }

  lemma PieceThen(a: Point, b: Point, z: real, k: real, span: real, rest: real)
    requires Below(a, b) && b.value <= z && k >= 0.0 && b.value * k <= rest <= z * k && span == b.perc - a.perc + k
    ensures a.value * span < Piece(a, b) + rest < z * span
  {
    var h, mid := b.perc - a.perc, (b.value + a.value) / 2.0;
    AtLeast(a.value, b.value, h, k, mid, rest);
    AtMost(b.value, z, h, k, mid, rest);
  }
}
