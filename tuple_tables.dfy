/** Enumeration of the allowed tuples of the binary not-equal constraints and
    of the column-sum constraints: the pairs of unequal values drawn from two
    domains, the Cartesian product of a list of domains (as itertools.product
    produces it), and the filter that keeps the combinations with a given sum. */
module TupleTables {

  /** [0, 1, ..., k - 1], as Python's range(k). */
  function Range(k: nat): seq<int>
  {
    seq(k, i => i)
  }

  /** The full domain of an empty cell, [0, 1, ..., 9]. */
  function Digits(): seq<int>
  {
    [0, 1, 2, 3, 4, 5, 6, 7, 8, 9]
  }

  // ---------------------------------------------------------------------
  // Not-equal pairs

  /** The pairs [v, w], w running over d in order, that have v != w. */
  function PairsWith(v: int, d: seq<int>): seq<seq<int>>
  {
    if d == [] then []
    else PairsWith(v, d[..|d| - 1]) + (if v != d[|d| - 1] then [[v, d[|d| - 1]]] else [])
  }

  /** The pairs [v, w] with v from d1 (outer loop), w from d2 (inner loop) and
      v != w, in loop order. */
  function UnequalPairs(d1: seq<int>, d2: seq<int>): seq<seq<int>>
  {
    if d1 == [] then []
    else UnequalPairs(d1[..|d1| - 1], d2) + PairsWith(d1[|d1| - 1], d2)
  }

  lemma {:induction false} PairsWithMembers(v: int, d: seq<int>, t: seq<int>)
    ensures t in PairsWith(v, d) <==> |t| == 2 && t[0] == v && t[1] in d && t[0] != t[1]
  {
    if d != [] {
      var init := d[..|d| - 1];
      PairsWithMembers(v, init, t);
      assert d == init + [d[|d| - 1]];
      assert |t| == 2 ==> (t[1] in d <==> t[1] in init || t[1] == d[|d| - 1]);
      if |t| == 2 && t[0] == v && t[1] == d[|d| - 1] {
        assert t == [v, d[|d| - 1]];
      }
    }
  }

  /** The not-equal table holds exactly the unequal pairs drawn from the two
      domains. */
  lemma {:induction false} UnequalPairsMembers(d1: seq<int>, d2: seq<int>, t: seq<int>)
    ensures t in UnequalPairs(d1, d2) <==> |t| == 2 && t[0] in d1 && t[1] in d2 && t[0] != t[1]
  {
    if d1 != [] {
      var init := d1[..|d1| - 1];
      UnequalPairsMembers(init, d2, t);
      PairsWithMembers(d1[|d1| - 1], d2, t);
      assert d1 == init + [d1[|d1| - 1]];
    }
  }

  /** The nested loops that collect the tuples of a binary not-equal
      constraint between two variables with domains d1 and d2. */
  method NotEqualTuples(d1: seq<int>, d2: seq<int>) returns (tuples: seq<seq<int>>)
    ensures tuples == UnequalPairs(d1, d2)
  {
    tuples := [];
    var a := 0;
    while a < |d1|
      invariant 0 <= a <= |d1|
      invariant tuples == UnequalPairs(d1[..a], d2)
    {
      var val1 := d1[a];
      var b := 0;
      while b < |d2|
        invariant 0 <= b <= |d2|
        invariant tuples == UnequalPairs(d1[..a], d2) + PairsWith(val1, d2[..b])
      {
        var val2 := d2[b];
        if val1 != val2 {
          tuples := tuples + [[val1, val2]];
        }
        assert d2[..b + 1][..b] == d2[..b];
        b := b + 1;
      }
      assert d2[..b] == d2;
      assert d1[..a + 1][..a] == d1[..a];
      a := a + 1;
    }
    assert d1[..a] == d1;
  }

  // ---------------------------------------------------------------------
  // Cartesian product

  /** [x] + p for every p of ps, in order. */
  function Cons(x: int, ps: seq<seq<int>>): seq<seq<int>>
  {
    seq(|ps|, i requires 0 <= i < |ps| => [x] + ps[i])
  }

  /** For every x of d (outer) and every p of ps (inner): [x] + p. */
  function Prepend(d: seq<int>, ps: seq<seq<int>>): seq<seq<int>>
  {
    if d == [] then [] else Prepend(d[..|d| - 1], ps) + Cons(d[|d| - 1], ps)
  }

  /** The Cartesian product of a list of domains, any number of factors, in
      itertools.product order (the first factor varies slowest). */
  function Product(ds: seq<seq<int>>): seq<seq<int>>
    decreases |ds|
  {
    if ds == [] then [[]] else Prepend(ds[0], Product(ds[1..]))
  }

  lemma {:induction false} PrependMembers(d: seq<int>, ps: seq<seq<int>>, t: seq<int>)
    ensures t in Prepend(d, ps) <==> |t| > 0 && t[0] in d && t[1..] in ps
  {
    if d != [] {
      var init := d[..|d| - 1];
      var x := d[|d| - 1];
      PrependMembers(init, ps, t);
      assert d == init + [x];
      if t in Cons(x, ps) {
        var i :| 0 <= i < |ps| && Cons(x, ps)[i] == t;
        assert t[1..] == ps[i];
      }
      if |t| > 0 && t[0] == x && t[1..] in ps {
        var i :| 0 <= i < |ps| && ps[i] == t[1..];
        assert Cons(x, ps)[i] == t;
      }
    }
  }

  /** A tuple is in the product exactly when it has one value per factor and
      each value is drawn from its factor. */
  lemma {:induction false} ProductMembers(ds: seq<seq<int>>, t: seq<int>)
    ensures t in Product(ds) <==>
      |t| == |ds| && forall k :: 0 <= k < |ds| ==> t[k] in ds[k]
    decreases |ds|
  {
    if ds == [] {
    } else {
      PrependMembers(ds[0], Product(ds[1..]), t);
      if |t| > 0 {
        ProductMembers(ds[1..], t[1..]);
        if |t| == |ds| && forall k :: 0 <= k < |ds| ==> t[k] in ds[k] {
          forall k | 0 <= k < |ds| - 1 ensures t[1..][k] in ds[1..][k] {
            assert t[1..][k] == t[k + 1];
          }
        }
        if t[0] in ds[0] && t[1..] in Product(ds[1..]) {
          forall k | 0 <= k < |ds| ensures t[k] in ds[k] {
            if k > 0 {
              assert t[k] == t[1..][k - 1];
            }
          }
        }
      }
    }
  }

  // ---------------------------------------------------------------------
  // Column sums

  /** Python's sum of a tuple. */
  function Sum(t: seq<int>): int
  {
    if t == [] then 0 else Sum(t[..|t| - 1]) + t[|t| - 1]
  }

  /** The tuples of ps whose sum is target, in order. */
  function SumFilter(ps: seq<seq<int>>, target: int): seq<seq<int>>
  {
    if ps == [] then []
    else
      var last := ps[|ps| - 1];
      SumFilter(ps[..|ps| - 1], target) + (if Sum(last) == target then [last] else [])
  }

  /** The table of a column-sum constraint: the combinations of the column's
      domains, in product order, that add up to target. */
  function SumTable(ds: seq<seq<int>>, target: int): seq<seq<int>>
  {
    SumFilter(Product(ds), target)
  }

  lemma {:induction false} SumFilterMembers(ps: seq<seq<int>>, target: int, t: seq<int>)
    ensures t in SumFilter(ps, target) <==> t in ps && Sum(t) == target
  {
    if ps != [] {
      var init := ps[..|ps| - 1];
      SumFilterMembers(init, target, t);
      assert ps == init + [ps[|ps| - 1]];
    }
  }

  /** The column table holds exactly the tuples with one value from each
      domain whose values add up to target. */
  lemma SumTableMembers(ds: seq<seq<int>>, target: int, t: seq<int>)
    ensures t in SumTable(ds, target) <==>
      |t| == |ds| && (forall k :: 0 <= k < |ds| ==> t[k] in ds[k]) && Sum(t) == target
  {
    SumFilterMembers(Product(ds), target, t);
    ProductMembers(ds, t);
  }

  /** The loop that walks the product of a column's domains and keeps the
      combinations whose sum is the column's target. */
  method SumTuples(ds: seq<seq<int>>, target: int) returns (tuples: seq<seq<int>>)
    ensures tuples == SumTable(ds, target)
  {
    var combos := Product(ds);
    tuples := [];
    var k := 0;
    while k < |combos|
      invariant 0 <= k <= |combos|
      invariant tuples == SumFilter(combos[..k], target)
    {
      var t := combos[k];
      if Sum(t) == target {
        tuples := tuples + [t];
      }
      assert combos[..k + 1][..k] == combos[..k];
      k := k + 1;
    }
    assert combos[..k] == combos;
  }

  // ---------------------------------------------------------------------
  // The fixed-arity product with zero padding, as the source writes it

  /** Python's t[:n]. */
  function Prefix(t: seq<int>, n: nat): seq<int>
  {
    if n <= |t| then t[..n] else t
  }

  /** (8 - len(ds)) * [[0]]: as many singleton [0] domains as ds is short of 8
      (none when it is not short). */
  function ZeroPadding(count: int): seq<seq<int>>
  {
    if count <= 0 then [] else seq(count, _ => [0])
  }

  /** The tuples of ps whose sum is target, each cut to its first n values. */
  function SumFilterPrefix(ps: seq<seq<int>>, target: int, n: nat): seq<seq<int>>
  {
    if ps == [] then []
    else
      var last := ps[|ps| - 1];
      SumFilterPrefix(ps[..|ps| - 1], target, n) + (if Sum(last) == target then [Prefix(last, n)] else [])
  }

  /** The source's column enumeration: pad the domains to eight with [0], take
      the eight-factor product, keep the combinations summing to target and
      cut each back to the real number of rows. */
  function PaddedSumTable(ds: seq<seq<int>>, target: int): seq<seq<int>>
  {
    var padded := ds + ZeroPadding(8 - |ds|);
    SumFilterPrefix(Product(padded[..8]), target, |ds|)
  }

  /** k zeros. */
  function ZeroTuple(k: nat): seq<int>
  {
    seq(k, _ => 0)
  }

  /** p + z for every p of ps. */
  function AppendEach(ps: seq<seq<int>>, z: seq<int>): seq<seq<int>>
  {
    seq(|ps|, i requires 0 <= i < |ps| => ps[i] + z)
  }

  lemma {:induction false} ProductOfZeros(k: nat)
    ensures Product(seq(k, _ => [0])) == [ZeroTuple(k)]
  {
    if k > 0 {
      var zs: seq<seq<int>> := seq(k, _ => [0]);
      assert zs[1..] == seq(k - 1, _ => [0]);
      ProductOfZeros(k - 1);
      assert zs[0] == [0];
      assert Product(zs) == Prepend([0], [ZeroTuple(k - 1)]);
      assert [0][..0] == [];
      assert Prepend([0], [ZeroTuple(k - 1)]) == Cons(0, [ZeroTuple(k - 1)]);
      assert [0] + ZeroTuple(k - 1) == ZeroTuple(k);
    } else {
      assert seq(k, _ => [0]) == [];
      assert ZeroTuple(k) == [];
    }
  }

  lemma {:induction false} PrependAppendEach(d: seq<int>, ps: seq<seq<int>>, z: seq<int>)
    ensures Prepend(d, AppendEach(ps, z)) == AppendEach(Prepend(d, ps), z)
  {
    if d != [] {
      var init := d[..|d| - 1];
      var x := d[|d| - 1];
      PrependAppendEach(init, ps, z);
      assert Cons(x, AppendEach(ps, z)) == AppendEach(Cons(x, ps), z) by {
        forall i | 0 <= i < |ps| ensures [x] + (ps[i] + z) == ([x] + ps[i]) + z { }
      }
      var a := Prepend(init, ps);
      var b := Cons(x, ps);
      assert AppendEach(a + b, z) == AppendEach(a, z) + AppendEach(b, z);
    }
  }

  /** Extending the factor list by k singleton [0] domains appends k zeros to
      every tuple of the product and changes nothing else. */
  lemma {:induction false} ProductZeroPadded(ds: seq<seq<int>>, k: nat)
    ensures Product(ds + seq(k, _ => [0])) == AppendEach(Product(ds), ZeroTuple(k))
    decreases |ds|
  {
    var zs: seq<seq<int>> := seq(k, _ => [0]);
    if ds == [] {
      assert ds + zs == zs;
      ProductOfZeros(k);
      assert [] + ZeroTuple(k) == ZeroTuple(k);
    } else {
      assert (ds + zs)[1..] == ds[1..] + zs;
      assert (ds + zs)[0] == ds[0];
      ProductZeroPadded(ds[1..], k);
      PrependAppendEach(ds[0], Product(ds[1..]), ZeroTuple(k));
    }
  }

  lemma {:induction false} SumZeroPadded(t: seq<int>, k: nat)
    ensures Sum(t + ZeroTuple(k)) == Sum(t)
  {
    if k > 0 {
      SumZeroPadded(t, k - 1);
      var u := t + ZeroTuple(k);
      assert u[..|u| - 1] == t + ZeroTuple(k - 1);
    } else {
      assert t + ZeroTuple(k) == t;
    }
  }

  lemma {:induction false} CutPaddedFilter(ps: seq<seq<int>>, target: int, n: nat, k: nat)
    requires forall p :: p in ps ==> |p| == n
    ensures SumFilterPrefix(AppendEach(ps, ZeroTuple(k)), target, n) == SumFilter(ps, target)
  {
    if ps != [] {
      var init := ps[..|ps| - 1];
      var last := ps[|ps| - 1];
      var qs := AppendEach(ps, ZeroTuple(k));
      assert qs[..|qs| - 1] == AppendEach(init, ZeroTuple(k));
      CutPaddedFilter(init, target, n, k);
      SumZeroPadded(last, k);
      assert Prefix(last + ZeroTuple(k), n) == last;
    }
  }

  /** The zero padding is transparent: for up to eight rows, the source's
      padded, fixed-arity enumeration yields the very same tuple list as the
      variable-arity product. */
  lemma PaddingIsTransparent(ds: seq<seq<int>>, target: int)
    requires |ds| <= 8
    ensures PaddedSumTable(ds, target) == SumTable(ds, target)
  {
    var k := 8 - |ds|;
    var padded := ds + ZeroPadding(k);
    if k > 0 {
      assert ZeroPadding(k) == seq(k, _ => [0]);
    } else {
      assert ZeroPadding(k) == [] == seq(k, _ => [0]);
    }
    assert padded[..8] == padded;
    forall p | p in Product(ds) ensures |p| == |ds| {
      ProductMembers(ds, p);
    }
    ProductZeroPadded(ds, k);
    CutPaddedFilter(Product(ds), target, |ds|, k);
  }
}
