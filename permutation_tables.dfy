/** Enumeration of the allowed tuples of a row all-different constraint: the
    permutations of 0..9 (as itertools.permutations produces them) that agree
    with the row's preset cells. */
module PermutationTables {
  import opened TupleTables

  /** s without its element at position k. */
  function RemoveAt(s: seq<int>, k: nat): (r: seq<int>)
    requires k < |s|
    ensures |r| == |s| - 1
  {
    s[..k] + s[k + 1..]
  }

  lemma RemoveAtMultiset(s: seq<int>, k: nat)
    requires k < |s|
    ensures multiset(s) == multiset(RemoveAt(s, k)) + multiset{s[k]}
  {
    assert s == s[..k] + [s[k]] + s[k + 1..];
  }

  /** itertools.permutations(s): every arrangement of the elements of s, in
      lexicographic order of their positions. */
  function Permutations(s: seq<int>): seq<seq<int>>
    decreases |s|, 1
  {
    if s == [] then [[]] else PermsLeading(s, |s|)
  }

  /** The permutations of s that start with s[i] for some i < m, grouped by i. */
  function PermsLeading(s: seq<int>, m: nat): seq<seq<int>>
    requires m <= |s|
    decreases |s|, 0, m
  {
    if m == 0 then []
    else PermsLeading(s, m - 1) + Cons(s[m - 1], Permutations(RemoveAt(s, m - 1)))
  }

  /** Every permutation in the first m groups starts with some s[k], k < m,
      followed by a permutation of the rest of s. */
  lemma {:induction false} PermsLeadingWitness(s: seq<int>, m: nat, t: seq<int>) returns (k: nat)
    requires m <= |s| && t in PermsLeading(s, m)
    ensures k < m && |t| > 0 && t[0] == s[k] && t[1..] in Permutations(RemoveAt(s, k))
  {
    var tails := Permutations(RemoveAt(s, m - 1));
    var block := Cons(s[m - 1], tails);
    if t in block {
      var i :| 0 <= i < |tails| && block[i] == t;
      assert t[1..] == tails[i];
      k := m - 1;
    } else {
      k := PermsLeadingWitness(s, m - 1, t);
    }
  }

  /** Conversely, s[k] followed by any permutation of the rest of s is in
      the groups up to any m > k. */
  lemma {:induction false} PermsLeadingComplete(s: seq<int>, m: nat, k: nat, t: seq<int>)
    requires k < m <= |s|
    requires |t| > 0 && t[0] == s[k] && t[1..] in Permutations(RemoveAt(s, k))
    ensures t in PermsLeading(s, m)
  {
    if k == m - 1 {
      var tails := Permutations(RemoveAt(s, k));
      var i :| 0 <= i < |tails| && tails[i] == t[1..];
      assert Cons(s[k], tails)[i] == t;
    } else {
      PermsLeadingComplete(s, m - 1, k, t);
    }
  }

  lemma {:induction false} PermutationsSound(s: seq<int>, t: seq<int>)
    requires t in Permutations(s)
    ensures multiset(t) == multiset(s)
    decreases |s|
  {
    if s != [] {
      var k := PermsLeadingWitness(s, |s|, t);
      PermutationsSound(RemoveAt(s, k), t[1..]);
      RemoveAtMultiset(s, k);
      assert t == [t[0]] + t[1..];
    }
  }

  lemma {:induction false} PermutationsComplete(s: seq<int>, t: seq<int>)
    requires multiset(t) == multiset(s)
    ensures t in Permutations(s)
    decreases |s|
  {
    assert |t| == |multiset(t)| == |s|;
    if s == [] {
      assert t == [];
    } else {
      assert t == [t[0]] + t[1..];
      assert t[0] in multiset(s);
      var k :| 0 <= k < |s| && s[k] == t[0];
      RemoveAtMultiset(s, k);
      assert multiset(t) == multiset{t[0]} + multiset(t[1..]);
      assert multiset(t[1..]) == multiset(t) - multiset{t[0]};
      assert multiset(t[1..]) == multiset(RemoveAt(s, k));
      PermutationsComplete(RemoveAt(s, k), t[1..]);
      PermsLeadingComplete(s, |s|, k, t);
    }
  }

  /** The permutation table of s holds exactly the sequences with the same
      elements as s, counted with multiplicity. */
  lemma PermutationsMembers(s: seq<int>, t: seq<int>)
    ensures t in Permutations(s) <==> multiset(t) == multiset(s)
  {
    if t in Permutations(s) {
      PermutationsSound(s, t);
    }
    if multiset(t) == multiset(s) {
      PermutationsComplete(s, t);
    }
  }

  /** Every permutation of s is as long as s. */
  lemma PermutationLength(s: seq<int>, t: seq<int>)
    requires t in Permutations(s)
    ensures |t| == |s|
  {
    PermutationsSound(s, t);
    assert |t| == |multiset(t)| == |multiset(s)| == |s|;
  }

  // ---------------------------------------------------------------------
  // All-different and permutations of the digits

  /** No value occurs twice. */
  predicate AllDifferent(t: seq<int>)
  {
    forall i, j :: 0 <= i < j < |t| ==> t[i] != t[j]
  }

  /** t is an arrangement of the ten digits 0..9. */
  predicate IsDigitPermutation(t: seq<int>)
  {
    multiset(t) == multiset(Digits())
  }

  lemma {:induction false} AllDifferentCounts(s: seq<int>)
    ensures AllDifferent(s) <==> forall x :: multiset(s)[x] <= 1
  {
    if s != [] {
      var a, r := s[0], s[1..];
      assert s == [a] + r;
      AllDifferentCounts(r);
      if AllDifferent(s) {
        assert AllDifferent(r) by {
          forall i, j | 0 <= i < j < |r| ensures r[i] != r[j] {
            assert r[i] == s[i + 1] && r[j] == s[j + 1];
          }
        }
        forall j | 0 <= j < |r| ensures r[j] != a {
          assert r[j] == s[j + 1];
        }
      }
      if forall x :: multiset(s)[x] <= 1 {
        assert forall x :: multiset(r)[x] <= 1 by {
          forall x ensures multiset(r)[x] <= 1 {
            assert multiset(s)[x] <= 1;
          }
        }
        assert a !in r by {
          assert multiset(s)[a] <= 1;
        }
        forall i, j | 0 <= i < j < |s| ensures s[i] != s[j] {
          if i == 0 {
            assert s[j] == r[j - 1];
          } else {
            assert s[i] == r[i - 1] && s[j] == r[j - 1];
          }
        }
      }
    }
  }

  lemma DigitsCounts(x: int)
    ensures multiset(Digits())[x] == if 0 <= x < 10 then 1 else 0
  {
    var d := Digits();
    assert d == Range(10);
    assert AllDifferent(d);
    AllDifferentCounts(d);
    if 0 <= x < 10 {
      assert d[x] == x;
    }
  }

  /** Being an arrangement of the ten digits is the same as being ten
      pairwise different digits: the all-different constraint of a row says
      nothing more than ten distinct values in 0..9. */
  lemma DigitPermutationIff(t: seq<int>)
    ensures IsDigitPermutation(t) <==>
      |t| == 10 && AllDifferent(t) && forall k :: 0 <= k < |t| ==> 0 <= t[k] < 10
  {
    var d := multiset(Digits());
    assert |d| == |Digits()| == 10;
    forall x ensures d[x] == if 0 <= x < 10 then 1 else 0 {
      DigitsCounts(x);
    }
    DigitCountsIff(t, d);
  }

  /** The same, for any multiset holding each digit once and nothing else. */
  lemma DigitCountsIff(t: seq<int>, d: multiset<int>)
    requires |d| == 10 && forall x :: d[x] == if 0 <= x < 10 then 1 else 0
    ensures multiset(t) == d <==>
      |t| == 10 && AllDifferent(t) && forall k :: 0 <= k < |t| ==> 0 <= t[k] < 10
  {
    var m := multiset(t);
    AllDifferentCounts(t);
    if m == d {
      assert |t| == |m| == 10;
      forall k | 0 <= k < |t| ensures 0 <= t[k] < 10 {
        assert t[k] in m;
      }
    }
    if |t| == 10 && AllDifferent(t) && forall k :: 0 <= k < |t| ==> 0 <= t[k] < 10 {
      assert m <= d by {
        forall x ensures m[x] <= d[x] {
          if m[x] > 0 {
            assert x in t;
          }
        }
      }
      assert |m| == 10;
      SubMultisetOfSameSize(m, d);
    }
  }

  /** A sub-multiset as large as the whole is the whole. */
  lemma SubMultisetOfSameSize(m: multiset<int>, d: multiset<int>)
    requires m <= d && |m| == |d|
    ensures m == d
  {
    assert d == m + (d - m);
    assert |d - m| == 0;
  }

  // ---------------------------------------------------------------------
  // Agreement with a row's preset cells

  /** At every preset position j, t holds the preset value. */
  predicate Agrees(t: seq<int>, presets: map<int, int>)
  {
    forall j :: j in presets ==> 0 <= j < |t| && t[j] == presets[j]
  }

  /** The tuples of ps that agree with the presets, in order. */
  function AgreeFilter(ps: seq<seq<int>>, presets: map<int, int>): seq<seq<int>>
  {
    if ps == [] then []
    else
      var last := ps[|ps| - 1];
      AgreeFilter(ps[..|ps| - 1], presets) + (if Agrees(last, presets) then [last] else [])
  }

  /** The table of a row all-different constraint over a row of the given
      width: the permutations of range(width), in itertools order, that agree
      with the row's presets. */
  function PresetTable(width: nat, presets: map<int, int>): seq<seq<int>>
  {
    AgreeFilter(Permutations(Range(width)), presets)
  }

  lemma {:induction false} AgreeFilterMembers(ps: seq<seq<int>>, presets: map<int, int>, t: seq<int>)
    ensures t in AgreeFilter(ps, presets) <==> t in ps && Agrees(t, presets)
  {
    if ps != [] {
      var init := ps[..|ps| - 1];
      AgreeFilterMembers(init, presets, t);
      assert ps == init + [ps[|ps| - 1]];
    }
  }

  /** The row table holds exactly the arrangements of range(width) that agree
      with the presets. */
  lemma PresetTableMembers(width: nat, presets: map<int, int>, t: seq<int>)
    ensures t in PresetTable(width, presets) <==>
      multiset(t) == multiset(Range(width)) && Agrees(t, presets)
  {
    AgreeFilterMembers(Permutations(Range(width)), presets, t);
    PermutationsMembers(Range(width), t);
  }

  /** The check of one permutation against the presets. The preset
      dictionary is filled in increasing position order and a dictionary is
      iterated in insertion order, so the positions are visited in increasing
      order; the check stops at the first mismatch. */
  method CheckPresets(t: seq<int>, presets: map<int, int>) returns (satisfied: bool)
    requires forall j :: j in presets ==> 0 <= j < |t|
    ensures satisfied == Agrees(t, presets)
  {
    satisfied := true;
    var index := 0;
    while index < |t|
      invariant 0 <= index <= |t|
      invariant satisfied
      invariant forall j :: j in presets && j < index ==> t[j] == presets[j]
    {
      if index in presets && t[index] != presets[index] {
        satisfied := false;
        break;
      }
      index := index + 1;
    }
  }

  /** The loop that walks the permutations of range(width) and keeps those
      whose value at every preset position is the preset value; the inner
      loop visits the preset positions in any order and stops at the first
      mismatch. */
  method AgreeingPermutations(width: nat, presets: map<int, int>) returns (tuples: seq<seq<int>>)
    requires forall j :: j in presets ==> 0 <= j < width
    ensures tuples == PresetTable(width, presets)
  {
    var perms := Permutations(Range(width));
    tuples := [];
    var k := 0;
    while k < |perms|
      invariant 0 <= k <= |perms|
      invariant tuples == AgreeFilter(perms[..k], presets)
    {
      var t := perms[k];
      PermutationLength(Range(width), t);
      var satisfied := CheckPresets(t, presets);
      if satisfied {
        tuples := tuples + [t];
      }
      assert perms[..k + 1][..k] == perms[..k];
      k := k + 1;
    }
    assert perms[..k] == perms;
  }
}
