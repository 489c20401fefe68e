/**
 A file is written row by row, every row equally long: cell `p` of row `r` stands at `r * w + p`.  The arithmetic of
 these positions.
 */
module Rows {
  import opened Arith

  lemma {:induction false} RowsGrow(r: nat, r': nat, w: nat)
    requires r < r'
    ensures Times(r, w) + w <= Times(r', w)
  {
    if r < r' - 1 {
      RowsGrow(r, r' - 1, w);
    }
  }

  lemma CellUnique(r: nat, p: nat, r': nat, p': nat, w: nat)
    requires p < w && p' < w && Times(r, w) + p == Times(r', w) + p'
    ensures r == r' && p == p'
  {
    if r < r' {
      RowsGrow(r, r', w);
    } else if r' < r {
      RowsGrow(r', r, w);
    }
  }

  lemma {:induction false} CellOf(i: nat, n: nat, w: nat) returns (r: nat, p: nat)
    requires i < Times(n, w)
    ensures r < n && p < w && i == Times(r, w) + p
  {
    if i < Times(n - 1, w) {
      r, p := CellOf(i, n - 1, w);
    } else {
      r, p := n - 1, i - Times(n - 1, w);
    }
  }

  /** Row `q * n + x` is row `x` of group `q` when every group has `n` rows. */
  lemma {:induction false} RowOfGroup(q: nat, n: nat, x: nat)
    requires x < n
    ensures Quot(Times(q, n) + x, n) == q && Rem(Times(q, n) + x, n) == x
  {
    if q > 0 {
      RowOfGroup(q - 1, n, x);
    }
  }

  lemma {:induction false} GroupOfRow(r: nat, n: nat)
    requires n >= 1
    ensures r == Times(Quot(r, n), n) + Rem(r, n)
    decreases r
  {
    if r >= n {
      GroupOfRow(r - n, n);
    }
  }

  lemma GroupInRange(q: nat, groups: nat, n: nat, x: nat)
    requires x < n
    ensures Times(q, n) + x < Times(groups, n) <==> q < groups
  {
    if q < groups {
      RowsGrow(q, groups, n);
    } else if groups < q {
      RowsGrow(groups, q, n);
    }
  }

  lemma RowInGroups(r: nat, groups: nat, n: nat)
    requires n >= 1 && r < Times(groups, n)
    ensures Quot(r, n) < groups
  {
    GroupOfRow(r, n);
    GroupInRange(Quot(r, n), groups, n, Rem(r, n));
  }
}
