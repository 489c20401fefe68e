/**
 The parameter algebra of `PartialParams` (common.py): merging dictionaries, products and unions of lists of them.
 Dictionaries are maps: the order of their keys is not modelled.
 */
module Params {

  type Params = map<string, string>

  /** What `consolidate` takes: parameters, or an iterable of such things. */
  datatype Nested = One(params: Params) | Many(items: seq<Nested>)

  /** `reduce(operator.ior, l, {})`. */
  function Merge(l: seq<Params>): Params {
    if l == [] then map[] else Merge(l[..|l| - 1]) + l[|l| - 1]
  }

  /** `itertools.product`: the last list varies fastest. */
  function Tuples(l: seq<seq<Params>>): seq<seq<Params>> {
    if l == [] then [[]] else Prefixed(l[0], Tuples(l[1..]))
  }

  function Prefixed(first: seq<Params>, tails: seq<seq<Params>>): seq<seq<Params>> {
    if first == [] then []
    else seq(|tails|, i requires 0 <= i < |tails| => [first[0]] + tails[i]) + Prefixed(first[1..], tails)
  }

  function MergeAll(tuples: seq<seq<Params>>): (r: seq<Params>)
    ensures |r| == |tuples| && forall i :: 0 <= i < |r| ==> r[i] == Merge(tuples[i])
  {
    seq(|tuples|, i requires 0 <= i < |tuples| => Merge(tuples[i]))
  }

  function Product(l: seq<seq<Params>>): seq<Params> {
    MergeAll(Tuples(l))
  }

  function Flatten(items: seq<Nested>): seq<Params> {
    if items == [] then []
    else FlattenItem(items[0]) + Flatten(items[1..])
  }

  function FlattenItem(item: Nested): seq<Params> {
    match item
    case One(p) => [p]
    case Many(inner) => Flatten(inner)
  }

  lemma FlattenFrom(l: seq<Nested>, i: nat)
    requires i < |l|
    ensures Flatten(l[i..]) == FlattenItem(l[i]) + Flatten(l[i + 1..])
  {
    assert l[i..][1..] == l[i + 1..];
  }

  method Consolidate(l: seq<Nested>) returns (ret: seq<Params>)
    ensures ret == Flatten(l)
    decreases l
  {
    ret := [];
    for i := 0 to |l|
      invariant ret + Flatten(l[i..]) == Flatten(l)
    {
      ghost var before := ret;
      FlattenFrom(l, i);
      match l[i] {
        case One(p) =>
          ret := ret + [p];
        case Many(items) =>
          var inner := Consolidate(items);
          ret := ret + inner;
      }
      ConcatAssociative(before, FlattenItem(l[i]), Flatten(l[i + 1..]));
    }
  }

  // ---------------------------------------------------------------- merging

  lemma UnionLaws(x: Params, y: Params, z: Params)
    ensures (x + y) + z == x + (y + z) && map[] + x == x && x + map[] == x
  {
  }

  /** Later dictionaries win, and merging in groups is merging at once. */
  lemma {:induction false} MergeConcat(a: seq<Params>, b: seq<Params>)
    ensures Merge(a + b) == Merge(a) + Merge(b)
    decreases |b|
  {
    if b == [] {
      assert a + b == a;
      UnionLaws(Merge(a), map[], map[]);
    } else {
      var init, last := b[..|b| - 1], b[|b| - 1];
      var all := a + b;
      MergeConcat(a, init);
      assert all[..|all| - 1] == a + init && all[|all| - 1] == last;
      UnionLaws(Merge(a), Merge(init), last);
    }
  }

  lemma {:induction false} MergeTakesLast(l: seq<Params>, k: string)
    ensures k in Merge(l) <==> exists i :: 0 <= i < |l| && k in l[i]
    ensures forall i :: 0 <= i < |l| && k in l[i] && (forall j :: i < j < |l| ==> k !in l[j]) ==> Merge(l)[k] == l[i][k]
  {
    if l != [] {
      var init := l[..|l| - 1];
      MergeTakesLast(init, k);
      assert l == init + [l[|l| - 1]];
    }
  }

  // ---------------------------------------------------------------- products

  function Row(x: Params, b: seq<Params>): (r: seq<Params>)
    ensures |r| == |b| && forall i :: 0 <= i < |r| ==> r[i] == x + b[i]
  {
    seq(|b|, i requires 0 <= i < |b| => x + b[i])
  }

  /** The product of two lists, row by row. */
  function Combine(a: seq<Params>, b: seq<Params>): seq<Params> {
    if a == [] then [] else Row(a[0], b) + Combine(a[1..], b)
  }

  lemma {:induction false} MergePrefixed(first: seq<Params>, tails: seq<seq<Params>>)
    ensures MergeAll(Prefixed(first, tails)) == Combine(first, MergeAll(tails))
  {
    if first != [] {
      MergePrefixed(first[1..], tails);
      var row := seq(|tails|, i requires 0 <= i < |tails| => [first[0]] + tails[i]);
      forall i | 0 <= i < |tails| ensures Merge(row[i]) == first[0] + Merge(tails[i]) {
        MergeConcat([first[0]], tails[i]);
        assert Merge([first[0]]) == map[] + first[0];
      }
      assert MergeAll(row + Prefixed(first[1..], tails)) == MergeAll(row) + MergeAll(Prefixed(first[1..], tails));
      assert MergeAll(row) == Row(first[0], MergeAll(tails));
    }
  }

  lemma ProductStep(l: seq<seq<Params>>)
    ensures Product(l) == if l == [] then [map[]] else Combine(l[0], Product(l[1..]))
  {
    if l != [] {
      MergePrefixed(l[0], Tuples(l[1..]));
    }
  }

  lemma CombineCons(x: Params, rest: seq<Params>, c: seq<Params>)
    ensures Combine([x] + rest, c) == Row(x, c) + Combine(rest, c)
  {
    assert ([x] + rest)[1..] == rest;
  }

  lemma RowConcat(x: Params, a: seq<Params>, b: seq<Params>)
    ensures Row(x, a + b) == Row(x, a) + Row(x, b)
  {
  }

  lemma ConcatAssociative<T>(a: seq<T>, b: seq<T>, c: seq<T>)
    ensures (a + b) + c == a + (b + c)
  {
  }

  lemma {:induction false} CombineLeft(a: seq<Params>, b: seq<Params>, c: seq<Params>)
    ensures Combine(a + b, c) == Combine(a, c) + Combine(b, c)
  {
    if a == [] {
      assert a + b == b;
      assert [] + Combine(b, c) == Combine(b, c);
    } else {
      var x, rest := a[0], a[1..];
      CombineLeft(rest, b, c);
      CombineCons(x, rest + b, c);
      CombineCons(x, rest, c);
      assert a == [x] + rest;
      assert a + b == [x] + (rest + b);
      ConcatAssociative(Row(x, c), Combine(rest, c), Combine(b, c));
    }
  }

  lemma RowRow(x: Params, y: Params, c: seq<Params>)
    ensures Row(x + y, c) == Row(x, Row(y, c))
  {
    forall i | 0 <= i < |c| ensures (x + y) + c[i] == x + (y + c[i]) {
      UnionLaws(x, y, c[i]);
    }
  }

  lemma {:induction false} RowCombine(x: Params, b: seq<Params>, c: seq<Params>)
    ensures Combine(Row(x, b), c) == Row(x, Combine(b, c))
  {
    if b != [] {
      RowCombine(x, b[1..], c);
      assert Row(x, b) == [x + b[0]] + Row(x, b[1..]);
      CombineCons(x + b[0], Row(x, b[1..]), c);
      RowRow(x, b[0], c);
      RowConcat(x, Row(b[0], c), Combine(b[1..], c));
    }
  }

  lemma {:induction false} CombineAssociative(a: seq<Params>, b: seq<Params>, c: seq<Params>)
    ensures Combine(Combine(a, b), c) == Combine(a, Combine(b, c))
  {
    if a != [] {
      CombineAssociative(a[1..], b, c);
      CombineLeft(Row(a[0], b), Combine(a[1..], b), c);
      RowCombine(a[0], b, c);
    }
  }

  lemma CombineUnit(b: seq<Params>)
    ensures Combine([map[]], b) == b
  {
    forall i | 0 <= i < |b| ensures map[] + b[i] == b[i] {
      UnionLaws(b[i], map[], map[]);
    }
    assert Row(map[], b) == b;
  }

  lemma {:induction false} CombineWithUnit(a: seq<Params>)
    ensures Combine(a, [map[]]) == a
  {
    if a != [] {
      CombineWithUnit(a[1..]);
      UnionLaws(a[0], map[], map[]);
      assert Row(a[0], [map[]]) == [a[0]];
    }
  }

  lemma {:induction false} ProductConcat(a: seq<seq<Params>>, b: seq<seq<Params>>)
    ensures Product(a + b) == Combine(Product(a), Product(b))
  {
    ProductStep(a);
    ProductStep(a + b);
    if a == [] {
      assert a + b == b;
      CombineUnit(Product(b));
    } else {
      assert (a + b)[1..] == a[1..] + b;
      ProductConcat(a[1..], b);
      CombineAssociative(a[0], Product(a[1..]), Product(b));
    }
  }

  lemma ProductOfTwo(a: seq<Params>, b: seq<Params>)
    ensures Product([a, b]) == Combine(a, b)
  {
    ProductStep([a, b]);
    ProductStep([b]);
    ProductStep([]);
    CombineWithUnit(b);
    assert [a, b][1..] == [b] && [b][1..] == [];
  }

  /** Products may be nested freely: the product of two products is the product of all lists, in the same order. */
  lemma ProductAssociative(a: seq<seq<Params>>, b: seq<seq<Params>>)
    ensures Product([Product(a), Product(b)]) == Product(a + b)
  {
    ProductConcat(a, b);
    ProductOfTwo(Product(a), Product(b));
  }

  /** A union on the left can be taken out of a product, in the same order. */
  lemma ProductDistributes(a: seq<Params>, b: seq<Params>, rest: seq<seq<Params>>)
    ensures Product([a + b] + rest) == Product([a] + rest) + Product([b] + rest)
  {
    ProductStep([a + b] + rest);
    ProductStep([a] + rest);
    ProductStep([b] + rest);
    assert ([a + b] + rest)[1..] == rest && ([a] + rest)[1..] == rest && ([b] + rest)[1..] == rest;
    CombineLeft(a, b, Product(rest));
  }

  function Choices(l: seq<seq<Params>>): nat {
    if l == [] then 1 else |l[0]| * Choices(l[1..])
  }

  lemma {:induction false} CombineLength(a: seq<Params>, b: seq<Params>)
    ensures |Combine(a, b)| == |a| * |b|
  {
    if a != [] {
      CombineLength(a[1..], b);
    }
  }

  lemma {:induction false} ProductLength(l: seq<seq<Params>>)
    ensures |Product(l)| == Choices(l)
  {
    ProductStep(l);
    if l != [] {
      ProductLength(l[1..]);
      CombineLength(l[0], Product(l[1..]));
    }
  }

  // ---------------------------------------------------------------- unions

  lemma FlattenCons(x: Nested, rest: seq<Nested>)
    ensures Flatten([x] + rest) == Flatten([x]) + Flatten(rest)
  {
    assert ([x] + rest)[1..] == rest && [x][1..] == [];
  }

  lemma {:induction false} FlattenConcat(a: seq<Nested>, b: seq<Nested>)
    ensures Flatten(a + b) == Flatten(a) + Flatten(b)
    decreases |a|
  {
    if a == [] {
      assert a + b == b;
      assert [] + Flatten(b) == Flatten(b);
    } else {
      var x, rest := a[0], a[1..];
      FlattenConcat(rest, b);
      FlattenCons(x, rest + b);
      FlattenCons(x, rest);
      assert a == [x] + rest;
      assert a + b == [x] + (rest + b);
      ConcatAssociative(Flatten([x]), Flatten(rest), Flatten(b));
    }
  }

  function Leaves(l: seq<Params>): (r: seq<Nested>)
    ensures |r| == |l| && forall i :: 0 <= i < |r| ==> r[i] == One(l[i])
  {
    seq(|l|, i requires 0 <= i < |l| => One(l[i]))
  }

  lemma {:induction false} FlattenLeaves(l: seq<Params>)
    ensures Flatten(Leaves(l)) == l
  {
    if l != [] {
      FlattenLeaves(l[1..]);
      assert Leaves(l)[1..] == Leaves(l[1..]);
    }
  }

  /** Every list consolidated by itself. */
  function EachFlattened(l: seq<seq<Nested>>): (r: seq<Nested>)
    ensures |r| == |l| && forall i :: 0 <= i < |r| ==> r[i] == Many(Leaves(Flatten(l[i])))
  {
    seq(|l|, i requires 0 <= i < |l| => Many(Leaves(Flatten(l[i]))))
  }

  function Concat(l: seq<seq<Nested>>): seq<Nested> {
    if l == [] then [] else l[0] + Concat(l[1..])
  }

  /** Consolidating any number of lists that were consolidated before is consolidating what is in them: nesting does not
      matter. */
  lemma {:induction false} FlattenNested(l: seq<seq<Nested>>)
    ensures Flatten(EachFlattened(l)) == Flatten(Concat(l))
  {
    if l != [] {
      FlattenNested(l[1..]);
      FlattenConcat(l[0], Concat(l[1..]));
      FlattenLeaves(Flatten(l[0]));
      assert EachFlattened(l) == [Many(Leaves(Flatten(l[0])))] + EachFlattened(l[1..]);
      FlattenCons(Many(Leaves(Flatten(l[0]))), EachFlattened(l[1..]));
      FlattenOne(Leaves(Flatten(l[0])));
    }
  }

  lemma FlattenOne(items: seq<Nested>)
    ensures Flatten([Many(items)]) == Flatten(items)
  {
    assert [Many(items)][1..] == [];
    assert Flatten([Many(items)]) == Flatten(items) + Flatten([]);
  }
}
