/** Aligned blocks of a power-of-two group, and the partner a member exchanges data with at each step. */
module Blocks {
  import opened Arith

  function Pow2(d: nat): (r: nat)
    ensures r >= 1
  {
    if d == 0 then 1 else 2 * Pow2(d - 1)
  }

  lemma {:induction false} Pow2Split(d: nat, k: nat)
    requires d < k
    ensures Pow2(k) == Pow2(k - d - 1) * (2 * Pow2(d))
    decreases k
  {
    if k == d + 1 {
    } else {
      Pow2Split(d, k - 1);
      var m := Pow2(k - 1 - d - 1);
      assert 2 * (m * (2 * Pow2(d))) == (2 * m) * (2 * Pow2(d));
    }
  }

  predicate InBlock(w: nat, x: nat, y: nat)
    requires w >= 1
  {
    Quot(x, w) == Quot(y, w)
  }

  /** The lower rank of a pair of partners opens their exchange: ranks alternate in runs of `w`. */
  predicate Opens(w: nat, x: nat)
    requires w >= 1
    decreases x
  {
    x < w || !Opens(w, x - w)
  }

  function Partner(w: nat, x: nat): (y: nat)
    requires w >= 1
  {
    if Opens(w, x) then x + w else x - w
  }

  /** The test the script makes. */
  lemma {:induction false} OpensIsEven(w: nat, x: nat)
    requires w >= 1
    ensures Opens(w, x) <==> (x / w) % 2 == 0
    decreases x
  {
    if x < w {
      DivModUnique(x, w, 0, x);
    } else {
      OpensIsEven(w, x - w);
      DivModUnique(x, w, (x - w) / w + 1, (x - w) % w);
    }
  }

  /** Writing `x` as `q * 2w + r` shows the low half and the high half of its block. */
  lemma Halves(w: nat, x: nat, q: nat, r: nat)
    requires r < 2 * w && x == q * (2 * w) + r
    ensures x / (2 * w) == q && x % (2 * w) == r
    ensures r < w ==> x / w == 2 * q
    ensures r >= w ==> x / w == 2 * q + 1
  {
    DivModUnique(x, 2 * w, q, r);
    assert q * (2 * w) == (2 * q) * w;
    if r < w {
      DivModUnique(x, w, 2 * q, r);
    } else {
      assert (2 * q + 1) * w == (2 * q) * w + w;
      DivModUnique(x, w, 2 * q + 1, r - w);
    }
  }

  lemma HalvesOf(w: nat, x: nat) returns (q: nat, r: nat)
    requires w >= 1
    ensures r < 2 * w && x == q * (2 * w) + r && q == x / (2 * w) && r == x % (2 * w)
    ensures r < w ==> x / w == 2 * q && Partner(w, x) == q * (2 * w) + (r + w)
    ensures r >= w ==> x / w == 2 * q + 1 && Partner(w, x) == q * (2 * w) + (r - w)
  {
    q, r := x / (2 * w), x % (2 * w);
    assert x == (2 * w) * (x / (2 * w)) + x % (2 * w);
    Halves(w, x, q, r);
    OpensIsEven(w, x);
  }

  /** Being partners is symmetric, and partners share the next larger block. */
  lemma PartnerSymmetric(w: nat, x: nat)
    requires w >= 1
    ensures Partner(w, Partner(w, x)) == x && Partner(w, x) != x
    ensures InBlock(2 * w, x, Partner(w, x))
  {
    QuotIs(x, 2 * w); QuotIs(Partner(w, x), 2 * w);
    var q, r := HalvesOf(w, x);
    if r < w {
      Halves(w, Partner(w, x), q, r + w);
    } else {
      Halves(w, Partner(w, x), q, r - w);
    }
  }

  /** A block of twice the width is one's own block and the partner's. */
  lemma BlockSplit(w: nat, x: nat, y: nat)
    requires w >= 1
    ensures InBlock(2 * w, x, y) <==> InBlock(w, x, y) || InBlock(w, Partner(w, x), y)
  {
    QuotIs(x, w); QuotIs(y, w); QuotIs(Partner(w, x), w); QuotIs(x, 2 * w); QuotIs(y, 2 * w);
    var q, r := HalvesOf(w, x);
    var q', r' := HalvesOf(w, y);
    PartnerSymmetric(w, x);
    var q'', r'' := HalvesOf(w, Partner(w, x));
  }

  lemma {:induction false} BlockGrows(d: nat, e: nat, x: nat, y: nat)
    requires d <= e && InBlock(Pow2(d), x, y)
    ensures InBlock(Pow2(e), x, y)
    decreases e
  {
    if d < e {
      BlockGrows(d, e - 1, x, y);
      BlockSplit(Pow2(e - 1), x, y);
    }
  }

  /** Shifting by whole multiples of the larger block keeps partners. */
  lemma PartnerShift(w: nat, m: nat, x: nat)
    requires w >= 1
    ensures Partner(w, m * (2 * w) + x) == m * (2 * w) + Partner(w, x)
  {
    var q, r := HalvesOf(w, x);
    Distribute(m, q, 2 * w);
    Halves(w, m * (2 * w) + x, m + q, r);
    OpensIsEven(w, m * (2 * w) + x);
  }

  lemma PartnerStays(d: nat, k: nat, x: nat)
    requires d < k && x < Pow2(k)
    ensures Partner(Pow2(d), x) < Pow2(k)
  {
    var w := Pow2(d);
    Pow2Split(d, k);
    var q, r := HalvesOf(w, x);
    RowOf(x, Pow2(k - d - 1), 2 * w);
    RowInRange(q, Pow2(k - d - 1), 2 * w, if r < w then r + w else r - w);
  }
}
