/** Facts about products of reals that the solver does not find by itself. */
module RealArith {

  lemma Sign(x: real, s: real)
    requires s > 0.0
    ensures (x * s < 0.0 <==> x < 0.0) && (x * s > 0.0 <==> x > 0.0)
  {
  }

  lemma ScaleStrictly(v: real, w: real, h: real)
    requires v < w && h > 0.0
    ensures v * h < w * h
  {
    Sign(w - v, h);
    assert w * h - v * h == (w - v) * h;
  }

  lemma Scale(v: real, w: real, h: real)
    requires v <= w && h >= 0.0
    ensures v * h <= w * h
  {
  }

  /** A segment of width `h` and height `mid`, and what follows over a width of `k`, from below and from above. */
  lemma AtLeast(v: real, w: real, h: real, k: real, mid: real, rest: real)
    requires v < mid && v <= w && h > 0.0 && k >= 0.0 && w * k <= rest
    ensures v * (h + k) < mid * h + rest
  {
    ScaleStrictly(v, mid, h);
    Scale(v, w, k);
  }

  lemma AtMost(w: real, z: real, h: real, k: real, mid: real, rest: real)
    requires mid < z && w <= z && h > 0.0 && k >= 0.0 && rest <= z * k
    ensures mid * h + rest < z * (h + k)
  {
    ScaleStrictly(mid, z, h);
  }

  lemma SameSlope(h: real, s: real)
    requires h > 0.0
    ensures h * s / h == s
  {
  }

  lemma PieceSum(v: real, h: real, k: real, s: real)
    ensures ((v + h * s) + v) / 2.0 * h + ((v + h * s + k * s) + (v + h * s)) / 2.0 * k
            == ((v + h * s + k * s) + v) / 2.0 * (h + k)
  {
    assert (h * s) * k == (k * s) * h;
  }

  lemma Hundredth(v: real, area: real, w: real)
    requires v * 100.0 < area < w * 100.0
    ensures v < area / 100.0 < w
  {
  }

  lemma NoSpan(w: real, z: real, k: real)
    requires k == 0.0
    ensures w * k == 0.0 == z * k
  {
  }
}
