/** What the two Tenner Grid models say: the variable grid they share, exactly
    which constraints each adds and how many, what the tuples of each
    constraint are, that every tuple fits its scope's domains, and that on
    boards whose cells are -1 or a digit the two models have the same
    solutions. */
module TennerProperties {
  import opened CspBase
  import opened TupleTables
  import opened PermutationTables
  import opened TennerCsp

  // ---------------------------------------------------------------------
  // Variables

  /** A preset cell's variable has exactly the preset value in its domain, an
      empty cell's variable exactly the digits 0..9. */
  lemma CellDomainMembers(cell: int, x: int)
    ensures x in CellDomain(cell) <==> if cell == -1 then 0 <= x < 10 else x == cell
  {
    if cell == -1 && 0 <= x < 10 {
      assert Digits()[x] == x;
    }
  }

  lemma {:induction false} DecimalStringShape(k: nat)
    ensures |DecimalString(k)| >= 1 && (k >= 10 ==> |DecimalString(k)| >= 2)
    ensures DecimalString(k)[|DecimalString(k)| - 1] == DigitChar(k % 10)
    decreases k
  {
    if k >= 10 {
      DecimalStringShape(k / 10);
    }
  }

  /** str(k) determines k. */
  lemma {:induction false} DecimalStringInjective(a: nat, b: nat)
    ensures DecimalString(a) == DecimalString(b) <==> a == b
    decreases a
  {
    if DecimalString(a) == DecimalString(b) {
      var s := DecimalString(a);
      DecimalStringShape(a);
      DecimalStringShape(b);
      assert DigitChar(a % 10) == DigitChar(b % 10);
      if a >= 10 && b >= 10 {
        assert DecimalString(a / 10) == s[..|s| - 1] == DecimalString(b / 10);
        DecimalStringInjective(a / 10, b / 10);
      }
    }
  }

  /** The name str(i) + str(j) of a cell, j a column 0..9, determines the
      cell. */
  lemma CellNameInjective(i1: nat, j1: nat, i2: nat, j2: nat)
    requires j1 < 10 && j2 < 10
    ensures CellName(i1, j1) == CellName(i2, j2) <==> i1 == i2 && j1 == j2
  {
    if CellName(i1, j1) == CellName(i2, j2) {
      var s := CellName(i1, j1);
      assert s == DecimalString(i1) + [DigitChar(j1)];
      assert s == DecimalString(i2) + [DigitChar(j2)];
      assert DecimalString(i1) == s[..|s| - 1] == DecimalString(i2);
      DecimalStringInjective(i1, i2);
    }
  }

  /** Every cell of the board gets a variable of its own: two cells share a
      variable only if they are the same cell. */
  lemma VariablesDistinct(grid: seq<seq<int>>, V: seq<seq<Variable>>, i1: nat, j1: nat, i2: nat, j2: nat)
    requires IsVariableGrid(grid, V)
    requires i1 < |V| && j1 < 10 && i2 < |V| && j2 < 10
    ensures V[i1][j1] == V[i2][j2] <==> i1 == i2 && j1 == j2
  {
    CellNameInjective(i1, j1, i2, j2);
  }

  /** The variable array of a board is determined by the board: the two
      builders, which both return one, return the same variables. */
  lemma VariableGridUnique(grid: seq<seq<int>>, V: seq<seq<Variable>>, W: seq<seq<Variable>>)
    requires IsVariableGrid(grid, V) && IsVariableGrid(grid, W)
    ensures V == W
  {
    forall i | 0 <= i < |V| ensures V[i] == W[i] {
      assert forall j :: 0 <= j < 10 ==> V[i][j] == W[i][j];
    }
  }

  /** The variables added to the CSP are the cells' variables in row-major
      order: ten per row, V[i][j] at position 10 * i + j. */
  lemma {:induction false} FlattenIndex(V: seq<seq<Variable>>)
    requires IsGrid(V)
    ensures |Flatten(V)| == 10 * |V|
    ensures forall i, j :: 0 <= i < |V| && 0 <= j < 10 ==> Flatten(V)[10 * i + j] == V[i][j]
  {
    if V != [] {
      var init := V[..|V| - 1];
      FlattenIndex(init);
      forall i, j | 0 <= i < |V| && 0 <= j < 10 ensures Flatten(V)[10 * i + j] == V[i][j] {
        if i < |V| - 1 {
          assert Flatten(V)[10 * i + j] == Flatten(init)[10 * i + j];
          assert init[i] == V[i];
        }
      }
    }
  }

  /** Every cell's variable is among the CSP's variables. */
  lemma CellVariableDeclared(V: seq<seq<Variable>>, i: nat, j: nat)
    requires IsGrid(V) && i < |V| && j < 10
    ensures V[i][j] in Flatten(V)
  {
    FlattenIndex(V);
    assert Flatten(V)[10 * i + j] == V[i][j];
  }

  // ---------------------------------------------------------------------
  // Model 1's row constraints

  lemma {:induction false} PairsFromLength(row: seq<Variable>, i: nat, j: nat)
    requires i < j <= |row|
    ensures |PairsFrom(row, i, j)| == j - i - 1
    decreases j
  {
    if j > i + 1 {
      PairsFromLength(row, i, j - 1);
    }
  }

  lemma PairCountStep(n: int, i: int)
    ensures (i - 1) * (2 * n - i) + 2 * (n - i) == i * (2 * n - i - 1)
  {
  }

  lemma {:induction false} RowPairsLength(row: seq<Variable>, i: nat)
    requires i <= |row|
    ensures 2 * |RowPairs(row, i)| == i * (2 * |row| - i - 1)
  {
    if i > 0 {
      var n := |row|;
      var before, added := RowPairs(row, i - 1), PairsFrom(row, i - 1, n);
      assert |RowPairs(row, i)| == |before| + |added|;
      RowPairsLength(row, i - 1);
      PairsFromLength(row, i - 1, n);
      assert 2 * |before| == (i - 1) * (2 * n - i);
      assert |added| == n - i;
      PairCountStep(n, i);
    }
  }

  lemma {:induction false} RowsNotEqualLength(V: seq<seq<Variable>>, r: nat)
    requires IsGrid(V) && r <= |V|
    ensures |RowsNotEqual(V, r)| == 45 * r
  {
    if r > 0 {
      RowsNotEqualLength(V, r - 1);
      RowPairsLength(V[r - 1], 10);
    }
  }

  /** Model 1 adds 45 row constraints per row, one per pair of columns. */
  lemma RowNotEqualCount(V: seq<seq<Variable>>)
    requires IsGrid(V)
    ensures |RowNotEqualConstraints(V)| == 45 * |V|
  {
    RowsNotEqualLength(V, |V|);
  }

  lemma {:induction false} PairsFromWitness(row: seq<Variable>, i: nat, j: nat, c: Constraint) returns (k: nat)
    requires i < j <= |row| && c in PairsFrom(row, i, j)
    ensures i < k < j && c == NotEqualConstraint(row[i], row[k])
    decreases j
  {
    if c == NotEqualConstraint(row[i], row[j - 1]) {
      k := j - 1;
    } else {
      k := PairsFromWitness(row, i, j - 1, c);
    }
  }

  lemma {:induction false} PairsFromComplete(row: seq<Variable>, i: nat, j: nat, k: nat)
    requires i < k < j <= |row|
    ensures NotEqualConstraint(row[i], row[k]) in PairsFrom(row, i, j)
    decreases j
  {
    if k < j - 1 {
      PairsFromComplete(row, i, j - 1, k);
    }
  }

  lemma {:induction false} RowPairsWitness(row: seq<Variable>, i: nat, c: Constraint) returns (a: nat, b: nat)
    requires i <= |row| && c in RowPairs(row, i)
    ensures a < i && a < b < |row| && c == NotEqualConstraint(row[a], row[b])
  {
    if c in PairsFrom(row, i - 1, |row|) {
      a := i - 1;
      b := PairsFromWitness(row, i - 1, |row|, c);
    } else {
      a, b := RowPairsWitness(row, i - 1, c);
    }
  }

  lemma InConcat<T>(x: T, s: seq<T>, t: seq<T>)
    ensures x in s + t <==> x in s || x in t
  {
  }

  lemma {:induction false} RowPairsComplete(row: seq<Variable>, i: nat, a: nat, b: nat)
    requires a < i <= |row| && a < b < |row|
    ensures NotEqualConstraint(row[a], row[b]) in RowPairs(row, i)
  {
    var c := NotEqualConstraint(row[a], row[b]);
    var before, added := RowPairs(row, i - 1), PairsFrom(row, i - 1, |row|);
    if a == i - 1 {
      PairsFromComplete(row, a, |row|, b);
    } else {
      RowPairsComplete(row, i - 1, a, b);
    }
    InConcat(c, before, added);
  }

  lemma {:induction false} RowsNotEqualWitness(V: seq<seq<Variable>>, r: nat, c: Constraint) returns (q: nat, a: nat, b: nat)
    requires r <= |V| && c in RowsNotEqual(V, r)
    ensures q < r && a < b < |V[q]| && c == NotEqualConstraint(V[q][a], V[q][b])
  {
    if c in RowPairs(V[r - 1], |V[r - 1]|) {
      q := r - 1;
      a, b := RowPairsWitness(V[q], |V[q]|, c);
    } else {
      q, a, b := RowsNotEqualWitness(V, r - 1, c);
    }
  }

  lemma {:induction false} RowsNotEqualComplete(V: seq<seq<Variable>>, r: nat, q: nat, a: nat, b: nat)
    requires q < r <= |V| && a < b < |V[q]|
    ensures NotEqualConstraint(V[q][a], V[q][b]) in RowsNotEqual(V, r)
  {
    if q == r - 1 {
      RowPairsComplete(V[q], |V[q]|, a, b);
    } else {
      RowsNotEqualComplete(V, r - 1, q, a, b);
    }
  }

  /** Every row constraint of model 1 is the not-equal constraint of two
      cells of one row, the left one first; none relates cells of different
      rows. */
  lemma RowNotEqualWitness(V: seq<seq<Variable>>, c: Constraint) returns (q: nat, a: nat, b: nat)
    requires c in RowNotEqualConstraints(V)
    ensures q < |V| && a < b < |V[q]| && c == NotEqualConstraint(V[q][a], V[q][b])
  {
    q, a, b := RowsNotEqualWitness(V, |V|, c);
  }

  /** Conversely, every two cells of one row, the left one first, have their
      not-equal constraint in model 1. */
  lemma RowNotEqualComplete(V: seq<seq<Variable>>, q: nat, a: nat, b: nat)
    requires q < |V| && a < b < |V[q]|
    ensures NotEqualConstraint(V[q][a], V[q][b]) in RowNotEqualConstraints(V)
  {
    RowsNotEqualComplete(V, |V|, q, a, b);
  }

  /** The tuples of a not-equal constraint are exactly the pairs of unequal
      values drawn from the two variables' domains. */
  lemma NotEqualMembers(v: Variable, w: Variable, t: seq<int>)
    ensures t in NotEqualConstraint(v, w).tuples <==>
      |t| == 2 && t[0] in v.domain && t[1] in w.domain && t[0] != t[1]
  {
    UnequalPairsMembers(v.domain, w.domain, t);
  }

  // ---------------------------------------------------------------------
  // Adjacency constraints

  /** The neighbour pairs the adjacency loops constrain, (j, i) the cell and
      (j2, i2) its neighbour: a cell of columns 0..8 with its right neighbour
      and, in a row above the last, with its lower and lower-right
      neighbours. */
  predicate ConstrainedNeighbours(n: nat, j: nat, i: nat, j2: nat, i2: nat)
  {
    j < n && i < 9 &&
    ((j2 == j && i2 == i + 1) || (j2 == j + 1 && j2 < n && (i2 == i || i2 == i + 1)))
  }

  lemma AdjacentAtWitness(V: seq<seq<Variable>>, j: nat, i: nat, c: Constraint) returns (j2: nat, i2: nat)
    requires IsGrid(V) && j < |V| && i < 9 && c in AdjacentAt(V, j, i)
    ensures ConstrainedNeighbours(|V|, j, i, j2, i2) && c == NotEqualConstraint(V[j][i], V[j2][i2])
  {
    if j < |V| - 1 {
      if c == NotEqualConstraint(V[j][i], V[j][i + 1]) {
        j2, i2 := j, i + 1;
      } else if c == NotEqualConstraint(V[j][i], V[j + 1][i]) {
        j2, i2 := j + 1, i;
      } else {
        j2, i2 := j + 1, i + 1;
      }
    } else {
      j2, i2 := j, i + 1;
    }
  }

  lemma {:induction false} AdjacentInColumnWitness(V: seq<seq<Variable>>, i: nat, j: nat, c: Constraint)
    returns (r: nat, j2: nat, i2: nat)
    requires IsGrid(V) && j <= |V| && i < 9 && c in AdjacentInColumn(V, i, j)
    ensures r < j && ConstrainedNeighbours(|V|, r, i, j2, i2) && c == NotEqualConstraint(V[r][i], V[j2][i2])
  {
    if c in AdjacentAt(V, j - 1, i) {
      r := j - 1;
      j2, i2 := AdjacentAtWitness(V, r, i, c);
    } else {
      r, j2, i2 := AdjacentInColumnWitness(V, i, j - 1, c);
    }
  }

  lemma {:induction false} AdjacentUpToWitness(V: seq<seq<Variable>>, k: nat, c: Constraint)
    returns (j: nat, i: nat, j2: nat, i2: nat)
    requires IsGrid(V) && k <= 9 && c in AdjacentUpTo(V, k)
    ensures i < k && ConstrainedNeighbours(|V|, j, i, j2, i2) && c == NotEqualConstraint(V[j][i], V[j2][i2])
  {
    if c in AdjacentInColumn(V, k - 1, |V|) {
      i := k - 1;
      j, j2, i2 := AdjacentInColumnWitness(V, i, |V|, c);
    } else {
      j, i, j2, i2 := AdjacentUpToWitness(V, k - 1, c);
    }
  }

  /** Every adjacency constraint is the not-equal constraint of a cell and
      one of the neighbours the loops visit, the cell first. */
  lemma AdjacencyWitness(V: seq<seq<Variable>>, c: Constraint) returns (j: nat, i: nat, j2: nat, i2: nat)
    requires IsGrid(V) && c in AdjacencyConstraints(V)
    ensures ConstrainedNeighbours(|V|, j, i, j2, i2) && c == NotEqualConstraint(V[j][i], V[j2][i2])
  {
    j, i, j2, i2 := AdjacentUpToWitness(V, 9, c);
  }

  lemma {:induction false} AdjacentInColumnComplete(V: seq<seq<Variable>>, i: nat, j: nat, r: nat, j2: nat, i2: nat)
    requires IsGrid(V) && j <= |V| && r < j && ConstrainedNeighbours(|V|, r, i, j2, i2)
    ensures NotEqualConstraint(V[r][i], V[j2][i2]) in AdjacentInColumn(V, i, j)
  {
    if r < j - 1 {
      AdjacentInColumnComplete(V, i, j - 1, r, j2, i2);
    } else {
      var group := AdjacentAt(V, r, i);
      if j2 == r {
        assert group[0] == NotEqualConstraint(V[r][i], V[j2][i2]);
      } else if i2 == i {
        assert group[1] == NotEqualConstraint(V[r][i], V[j2][i2]);
      } else {
        assert group[2] == NotEqualConstraint(V[r][i], V[j2][i2]);
      }
    }
  }

  lemma {:induction false} AdjacentUpToComplete(V: seq<seq<Variable>>, k: nat, j: nat, i: nat, j2: nat, i2: nat)
    requires IsGrid(V) && k <= 9 && i < k && ConstrainedNeighbours(|V|, j, i, j2, i2)
    ensures NotEqualConstraint(V[j][i], V[j2][i2]) in AdjacentUpTo(V, k)
  {
    if i < k - 1 {
      AdjacentUpToComplete(V, k - 1, j, i, j2, i2);
    } else {
      AdjacentInColumnComplete(V, i, |V|, j, j2, i2);
    }
  }

  /** Conversely, every cell and neighbour the loops visit have their
      not-equal constraint among the adjacency constraints. */
  lemma AdjacencyComplete(V: seq<seq<Variable>>, j: nat, i: nat, j2: nat, i2: nat)
    requires IsGrid(V) && ConstrainedNeighbours(|V|, j, i, j2, i2)
    ensures NotEqualConstraint(V[j][i], V[j2][i2]) in AdjacencyConstraints(V)
  {
    AdjacentUpToComplete(V, 9, j, i, j2, i2);
  }

  lemma {:induction false} AdjacentInColumnLength(V: seq<seq<Variable>>, i: nat, j: nat)
    requires IsGrid(V) && j <= |V| && i < 9
    ensures |AdjacentInColumn(V, i, j)| == if j == |V| && j > 0 then 3 * j - 2 else 3 * j
  {
    if j > 0 {
      AdjacentInColumnLength(V, i, j - 1);
    }
  }

  /** The number of adjacency constraints of one column of an n-row grid. */
  function ColumnAdjacencyCount(n: nat): nat
  {
    if n == 0 then 0 else 3 * n - 2
  }

  lemma AdjacentUpToStep(V: seq<seq<Variable>>, k: nat)
    requires IsGrid(V) && 0 < k <= 9
    ensures |AdjacentUpTo(V, k)| == |AdjacentUpTo(V, k - 1)| + ColumnAdjacencyCount(|V|)
  {
    AdjacentInColumnLength(V, k - 1, |V|);
  }

  lemma MultiplyStep(k: int, c: int)
    ensures k * c == (k - 1) * c + c
  {
  }

  lemma {:induction false} AdjacentUpToLength(V: seq<seq<Variable>>, k: nat)
    requires IsGrid(V) && k <= 9
    ensures |AdjacentUpTo(V, k)| == k * ColumnAdjacencyCount(|V|)
  {
    if k > 0 {
      AdjacentUpToLength(V, k - 1);
      AdjacentUpToStep(V, k);
      MultiplyStep(k, ColumnAdjacencyCount(|V|));
    }
  }

  /** Rows 0..n-2 get three adjacency constraints in each of columns 0..8 and
      the last row one: 3 * 9 * (n - 1) + 9 in all. */
  lemma AdjacencyCount(V: seq<seq<Variable>>)
    requires IsGrid(V)
    ensures |AdjacencyConstraints(V)| == if |V| == 0 then 0 else 27 * (|V| - 1) + 9
  {
    AdjacentUpToLength(V, 9);
  }

  // ---------------------------------------------------------------------
  // Column-sum constraints

  lemma {:induction false} ColumnSumsUpToLength(V: seq<seq<Variable>>, lastRow: seq<int>, k: nat)
    requires IsGrid(V) && k <= 10 <= |lastRow|
    ensures |ColumnSumsUpTo(V, lastRow, k)| == k
  {
    if k > 0 {
      ColumnSumsUpToLength(V, lastRow, k - 1);
    }
  }

  lemma {:induction false} ColumnSumsUpToAt(V: seq<seq<Variable>>, lastRow: seq<int>, k: nat, i: nat)
    requires IsGrid(V) && i < k <= 10 <= |lastRow|
    ensures |ColumnSumsUpTo(V, lastRow, k)| == k
    ensures ColumnSumsUpTo(V, lastRow, k)[i] == ColumnSumConstraint(V, i, lastRow[i])
  {
    ColumnSumsUpToLength(V, lastRow, k);
    var sums, prev := ColumnSumsUpTo(V, lastRow, k), ColumnSumsUpTo(V, lastRow, k - 1);
    var last := ColumnSumConstraint(V, k - 1, lastRow[k - 1]);
    ColumnSumsUpToLength(V, lastRow, k - 1);
    assert sums == prev + [last];
    if i < k - 1 {
      ColumnSumsUpToAt(V, lastRow, k - 1, i);
      assert sums[i] == prev[i];
    } else {
      assert sums[i] == last;
    }
  }

  /** One sum constraint per column, in column order, the i-th with target
      lastRow[i]. */
  lemma ColumnSumsIndex(V: seq<seq<Variable>>, lastRow: seq<int>)
    requires IsGrid(V) && |lastRow| == 10
    ensures |ColumnSumConstraints(V, lastRow)| == 10
    ensures forall i :: 0 <= i < 10 ==> ColumnSumConstraints(V, lastRow)[i] == ColumnSumConstraint(V, i, lastRow[i])
  {
    ColumnSumsUpToLength(V, lastRow, 10);
    forall i | 0 <= i < 10 ensures ColumnSumConstraints(V, lastRow)[i] == ColumnSumConstraint(V, i, lastRow[i]) {
      ColumnSumsUpToAt(V, lastRow, 10, i);
    }
  }

  /** The scope of column i's constraint is the column, top to bottom; its
      tuples are exactly the tuples with one value per row, each from that
      row's cell domain, adding up to the target. */
  lemma ColumnSumMembers(V: seq<seq<Variable>>, i: nat, target: int, t: seq<int>)
    requires IsGrid(V) && i < 10
    ensures |ColumnSumConstraint(V, i, target).scope| == |V|
    ensures forall j :: 0 <= j < |V| ==> ColumnSumConstraint(V, i, target).scope[j] == V[j][i]
    ensures t in ColumnSumConstraint(V, i, target).tuples <==>
      |t| == |V| && (forall j :: 0 <= j < |V| ==> t[j] in V[j][i].domain) && Sum(t) == target
  {
    SumTableMembers(Domains(Column(V, i)), target, t);
  }

  // ---------------------------------------------------------------------
  // Model 2's row constraints

  lemma {:induction false} RowsAllDifferentLength(grid: seq<seq<int>>, V: seq<seq<Variable>>, r: nat)
    requires r <= |V| == |grid|
    ensures |RowsAllDifferent(grid, V, r)| == r
  {
    if r > 0 {
      RowsAllDifferentLength(grid, V, r - 1);
    }
  }

  lemma {:induction false} RowsAllDifferentAt(grid: seq<seq<int>>, V: seq<seq<Variable>>, r: nat, i: nat)
    requires i < r <= |V| == |grid|
    ensures |RowsAllDifferent(grid, V, r)| == r
    ensures RowsAllDifferent(grid, V, r)[i] == RowAllDifferentConstraint(V[i], grid[i])
  {
    RowsAllDifferentLength(grid, V, r);
    var rows, prev := RowsAllDifferent(grid, V, r), RowsAllDifferent(grid, V, r - 1);
    var last := RowAllDifferentConstraint(V[r - 1], grid[r - 1]);
    RowsAllDifferentLength(grid, V, r - 1);
    assert rows == prev + [last];
    if i < r - 1 {
      RowsAllDifferentAt(grid, V, r - 1, i);
      assert rows[i] == prev[i];
    } else {
      assert rows[i] == last;
    }
  }

  /** Model 2 adds one row constraint per row, in row order, over that row's
      variables. */
  lemma RowAllDifferentIndex(grid: seq<seq<int>>, V: seq<seq<Variable>>)
    requires |V| == |grid|
    ensures |RowAllDifferentConstraints(grid, V)| == |V|
    ensures forall i :: 0 <= i < |V| ==> RowAllDifferentConstraints(grid, V)[i] == RowAllDifferentConstraint(V[i], grid[i])
  {
    RowsAllDifferentLength(grid, V, |V|);
    forall i | 0 <= i < |V| ensures RowAllDifferentConstraints(grid, V)[i] == RowAllDifferentConstraint(V[i], grid[i]) {
      RowsAllDifferentAt(grid, V, |V|, i);
    }
  }

  /** With w = 10, an arrangement of range(w) is ten pairwise different
      digits. The width stays a variable here so that the permutation table
      of the row is never unfolded on a literal. */
  lemma DigitsRange(w: nat)
    requires w == 10
    ensures Range(w) == Digits()
  {
    assert Digits() == Range(10);
  }

  lemma TenDigitArrangement(w: nat, t: seq<int>)
    requires w == 10
    ensures multiset(t) == multiset(Range(w)) <==>
      |t| == 10 && AllDifferent(t) && forall k :: 0 <= k < |t| ==> 0 <= t[k] < 10
  {
    DigitsRange(w);
    DigitPermutationIff(t);
  }

  /** The tuples of a row's all-different constraint are exactly the rows of
      ten pairwise different digits that hold every preset value at its
      position. */
  lemma RowAllDifferentMembers(row: seq<Variable>, cells: seq<int>, t: seq<int>)
    requires |row| == 10 && |cells| == 10
    ensures t in RowAllDifferentConstraint(row, cells).tuples <==>
      |t| == 10 && AllDifferent(t) && (forall k :: 0 <= k < 10 ==> 0 <= t[k] < 10) &&
      forall j :: 0 <= j < 10 && cells[j] != -1 ==> t[j] == cells[j]
  {
    var presets := Presets(cells);
    PresetTableMembers(|row|, presets, t);
    TenDigitArrangement(|row|, t);
    if |t| == 10 && forall j :: 0 <= j < 10 && cells[j] != -1 ==> t[j] == cells[j] {
      assert Agrees(t, presets);
    }
  }

  // ---------------------------------------------------------------------
  // Every constraint fits its scope

  /** Every variable of c's scope is one of vars. */
  predicate ScopeDeclared(c: Constraint, vars: seq<Variable>)
  {
    forall v :: v in c.scope ==> v in vars
  }

  lemma NotEqualWellFormed(v: Variable, w: Variable)
    ensures WellFormed(NotEqualConstraint(v, w))
  {
    forall t | t in NotEqualConstraint(v, w).tuples
      ensures |t| == 2 && t[0] in v.domain && t[1] in w.domain
    {
      UnequalPairsMembers(v.domain, w.domain, t);
    }
  }

  lemma ColumnSumWellFormed(V: seq<seq<Variable>>, i: nat, target: int)
    requires IsGrid(V) && i < 10
    ensures WellFormed(ColumnSumConstraint(V, i, target))
    ensures ScopeDeclared(ColumnSumConstraint(V, i, target), Flatten(V))
  {
    var c := ColumnSumConstraint(V, i, target);
    forall t | t in c.tuples ensures |t| == |c.scope| && forall k :: 0 <= k < |t| ==> t[k] in c.scope[k].domain {
      ColumnSumMembers(V, i, target, t);
    }
    forall v | v in c.scope ensures v in Flatten(V) {
      var j :| 0 <= j < |c.scope| && c.scope[j] == v;
      CellVariableDeclared(V, j, i);
    }
  }

  /** Ten digits that hold a row's preset values lie in the domains of the
      row's variables. */
  lemma DigitsFitRow(row: seq<Variable>, cells: seq<int>, t: seq<int>)
    requires |row| == 10 && |cells| == 10 && |t| == 10
    requires forall k :: 0 <= k < 10 ==> row[k].domain == CellDomain(cells[k])
    requires forall k :: 0 <= k < 10 ==> 0 <= t[k] < 10
    requires forall j :: 0 <= j < 10 && cells[j] != -1 ==> t[j] == cells[j]
    ensures forall k :: 0 <= k < 10 ==> t[k] in row[k].domain
  {
    forall k | 0 <= k < 10 ensures t[k] in row[k].domain {
      CellDomainMembers(cells[k], t[k]);
    }
  }

  lemma RowAllDifferentWellFormed(grid: seq<seq<int>>, V: seq<seq<Variable>>, r: nat)
    requires IsVariableGrid(grid, V) && r < |V|
    ensures WellFormed(RowAllDifferentConstraint(V[r], grid[r]))
    ensures ScopeDeclared(RowAllDifferentConstraint(V[r], grid[r]), Flatten(V))
  {
    var row, cells := V[r], grid[r];
    var c := RowAllDifferentConstraint(row, cells);
    forall t | t in c.tuples ensures |t| == |c.scope| && forall k :: 0 <= k < |t| ==> t[k] in c.scope[k].domain {
      RowAllDifferentMembers(row, cells, t);
      DigitsFitRow(row, cells, t);
    }
    forall v | v in c.scope ensures v in Flatten(V) {
      var j :| 0 <= j < |row| && row[j] == v;
      CellVariableDeclared(V, r, j);
    }
  }

  /** Each family of constraints fits: model 1's row pairs, ... */
  lemma RowNotEqualFit(V: seq<seq<Variable>>)
    requires IsGrid(V)
    ensures forall c :: c in RowNotEqualConstraints(V) ==> WellFormed(c) && ScopeDeclared(c, Flatten(V))
  {
    forall c | c in RowNotEqualConstraints(V) ensures WellFormed(c) && ScopeDeclared(c, Flatten(V)) {
      var q, a, b := RowNotEqualWitness(V, c);
      NotEqualWellFormed(V[q][a], V[q][b]);
      CellVariableDeclared(V, q, a);
      CellVariableDeclared(V, q, b);
    }
  }

  /** ... the adjacency constraints, ... */
  lemma AdjacencyFit(V: seq<seq<Variable>>)
    requires IsGrid(V)
    ensures forall c :: c in AdjacencyConstraints(V) ==> WellFormed(c) && ScopeDeclared(c, Flatten(V))
  {
    forall c | c in AdjacencyConstraints(V) ensures WellFormed(c) && ScopeDeclared(c, Flatten(V)) {
      var j, i, j2, i2 := AdjacencyWitness(V, c);
      NotEqualWellFormed(V[j][i], V[j2][i2]);
      CellVariableDeclared(V, j, i);
      CellVariableDeclared(V, j2, i2);
    }
  }

  /** ... the column sums, ... */
  lemma ColumnSumsFit(V: seq<seq<Variable>>, lastRow: seq<int>)
    requires IsGrid(V) && |lastRow| == 10
    ensures forall c :: c in ColumnSumConstraints(V, lastRow) ==> WellFormed(c) && ScopeDeclared(c, Flatten(V))
  {
    ColumnSumsIndex(V, lastRow);
    forall c | c in ColumnSumConstraints(V, lastRow) ensures WellFormed(c) && ScopeDeclared(c, Flatten(V)) {
      var i :| 0 <= i < 10 && ColumnSumConstraints(V, lastRow)[i] == c;
      ColumnSumWellFormed(V, i, lastRow[i]);
    }
  }

  /** ... and model 2's row all-different constraints. */
  lemma RowAllDifferentFit(grid: seq<seq<int>>, V: seq<seq<Variable>>)
    requires IsVariableGrid(grid, V)
    ensures forall c :: c in RowAllDifferentConstraints(grid, V) ==> WellFormed(c) && ScopeDeclared(c, Flatten(V))
  {
    RowAllDifferentIndex(grid, V);
    forall c | c in RowAllDifferentConstraints(grid, V) ensures WellFormed(c) && ScopeDeclared(c, Flatten(V)) {
      var r :| 0 <= r < |V| && RowAllDifferentConstraints(grid, V)[r] == c;
      RowAllDifferentWellFormed(grid, V, r);
    }
  }

  /** Every constraint of model 1 is over variables of the CSP and allows
      only tuples of its scope's arity drawn from the scope's domains. */
  lemma Model1ConstraintsFit(V: seq<seq<Variable>>, lastRow: seq<int>)
    requires IsGrid(V) && |lastRow| == 10
    ensures forall c :: c in Model1Constraints(V, lastRow) ==> WellFormed(c) && ScopeDeclared(c, Flatten(V))
  {
    RowNotEqualFit(V);
    AdjacencyFit(V);
    ColumnSumsFit(V, lastRow);
  }

  /** The same for model 2. */
  lemma Model2ConstraintsFit(grid: seq<seq<int>>, V: seq<seq<Variable>>, lastRow: seq<int>)
    requires IsVariableGrid(grid, V) && IsGrid(V) && |lastRow| == 10
    ensures forall c :: c in Model2Constraints(grid, V, lastRow) ==> WellFormed(c) && ScopeDeclared(c, Flatten(V))
  {
    RowAllDifferentFit(grid, V);
    AdjacencyFit(V);
    ColumnSumsFit(V, lastRow);
  }

  // ---------------------------------------------------------------------
  // Solutions

  /** Every cell of the board is -1 (empty) or a digit. */
  predicate CellsValid(grid: seq<seq<int>>)
  {
    forall i, j :: 0 <= i < |grid| && 0 <= j < |grid[i]| ==> -1 <= grid[i][j] <= 9
  }

  /** The assignment gives every cell's variable a value of its domain. */
  predicate Covers(asg: map<Variable, int>, V: seq<seq<Variable>>)
  {
    forall i, j :: 0 <= i < |V| && 0 <= j < |V[i]| ==> V[i][j] in asg && asg[V[i][j]] in V[i][j].domain
  }

  /** No two cells of one row have the same value. */
  predicate RowsDistinct(asg: map<Variable, int>, V: seq<seq<Variable>>)
    requires Covers(asg, V)
  {
    forall r, a, b :: 0 <= r < |V| && 0 <= a < b < |V[r]| ==> asg[V[r][a]] != asg[V[r][b]]
  }

  /** No cell has the value of a neighbour the adjacency loops visit. */
  ghost predicate NeighboursDistinct(asg: map<Variable, int>, V: seq<seq<Variable>>)
    requires IsGrid(V) && Covers(asg, V)
  {
    forall j: nat, i: nat, j2: nat, i2: nat :: ConstrainedNeighbours(|V|, j, i, j2, i2) ==> asg[V[j][i]] != asg[V[j2][i2]]
  }

  /** The values of column i, top to bottom. */
  function ColumnValues(asg: map<Variable, int>, V: seq<seq<Variable>>, i: nat): (vals: seq<int>)
    requires IsGrid(V) && Covers(asg, V) && i < 10
    ensures |vals| == |V| && forall j :: 0 <= j < |V| ==> vals[j] == asg[V[j][i]]
  {
    seq(|V|, j requires 0 <= j < |V| => asg[V[j][i]])
  }

  /** Every column adds up to its target. */
  predicate ColumnSumsMet(asg: map<Variable, int>, V: seq<seq<Variable>>, lastRow: seq<int>)
    requires IsGrid(V) && Covers(asg, V) && |lastRow| == 10
  {
    forall i :: 0 <= i < 10 ==> Sum(ColumnValues(asg, V, i)) == lastRow[i]
  }

  /** Giving every CSP variable a value of its domain is covering the grid. */
  lemma CoversIffDomains(asg: map<Variable, int>, V: seq<seq<Variable>>)
    requires IsGrid(V)
    ensures Covers(asg, V) <==> forall v :: v in Flatten(V) ==> v in asg && asg[v] in v.domain
  {
    FlattenIndex(V);
    if Covers(asg, V) {
      forall v | v in Flatten(V) ensures v in asg && asg[v] in v.domain {
        var p :| 0 <= p < |Flatten(V)| && Flatten(V)[p] == v;
        var i, j := p / 10, p % 10;
        assert p == 10 * i + j;
        assert Flatten(V)[10 * i + j] == V[i][j];
      }
    }
    if forall v :: v in Flatten(V) ==> v in asg && asg[v] in v.domain {
      forall i, j | 0 <= i < |V| && 0 <= j < |V[i]| ensures V[i][j] in asg && asg[V[i][j]] in V[i][j].domain {
        CellVariableDeclared(V, i, j);
      }
    }
  }

  /** A not-equal constraint holds exactly when its two values differ. */
  lemma NotEqualSatisfied(asg: map<Variable, int>, v: Variable, w: Variable)
    requires v in asg && w in asg && asg[v] in v.domain && asg[w] in w.domain
    ensures Satisfies(asg, NotEqualConstraint(v, w)) <==> asg[v] != asg[w]
  {
    var vals := ScopeValues([v, w], asg);
    assert vals == [asg[v], asg[w]];
    UnequalPairsMembers(v.domain, w.domain, vals);
  }

  /** Model 1's row constraints hold exactly when the rows are distinct. */
  lemma RowNotEqualSatisfied(asg: map<Variable, int>, V: seq<seq<Variable>>)
    requires IsGrid(V) && Covers(asg, V)
    ensures (forall c :: c in RowNotEqualConstraints(V) ==> Satisfies(asg, c)) <==> RowsDistinct(asg, V)
  {
    if forall c :: c in RowNotEqualConstraints(V) ==> Satisfies(asg, c) {
      forall r, a, b | 0 <= r < |V| && 0 <= a < b < |V[r]| ensures asg[V[r][a]] != asg[V[r][b]] {
        RowNotEqualComplete(V, r, a, b);
        NotEqualSatisfied(asg, V[r][a], V[r][b]);
      }
    }
    if RowsDistinct(asg, V) {
      forall c | c in RowNotEqualConstraints(V) ensures Satisfies(asg, c) {
        var q, a, b := RowNotEqualWitness(V, c);
        NotEqualSatisfied(asg, V[q][a], V[q][b]);
      }
    }
  }

  /** The adjacency constraints hold exactly when every visited neighbour
      pair differs. */
  lemma AdjacencySatisfied(asg: map<Variable, int>, V: seq<seq<Variable>>)
    requires IsGrid(V) && Covers(asg, V)
    ensures (forall c :: c in AdjacencyConstraints(V) ==> Satisfies(asg, c)) <==> NeighboursDistinct(asg, V)
  {
    if forall c :: c in AdjacencyConstraints(V) ==> Satisfies(asg, c) {
      forall j: nat, i: nat, j2: nat, i2: nat | ConstrainedNeighbours(|V|, j, i, j2, i2) ensures asg[V[j][i]] != asg[V[j2][i2]] {
        AdjacencyComplete(V, j, i, j2, i2);
        NotEqualSatisfied(asg, V[j][i], V[j2][i2]);
      }
    }
    if NeighboursDistinct(asg, V) {
      forall c | c in AdjacencyConstraints(V) ensures Satisfies(asg, c) {
        var j, i, j2, i2 := AdjacencyWitness(V, c);
        NotEqualSatisfied(asg, V[j][i], V[j2][i2]);
      }
    }
  }

  /** A column-sum constraint holds exactly when the column adds up to its
      target. */
  lemma ColumnSumSatisfied(asg: map<Variable, int>, V: seq<seq<Variable>>, i: nat, target: int)
    requires IsGrid(V) && Covers(asg, V) && i < 10
    ensures Satisfies(asg, ColumnSumConstraint(V, i, target)) <==> Sum(ColumnValues(asg, V, i)) == target
  {
    var c := ColumnSumConstraint(V, i, target);
    var vals := ColumnValues(asg, V, i);
    ColumnSumMembers(V, i, target, vals);
    assert forall v :: v in c.scope ==> v in asg;
    assert ScopeValues(c.scope, asg) == vals;
  }

  lemma ColumnSumsSatisfied(asg: map<Variable, int>, V: seq<seq<Variable>>, lastRow: seq<int>)
    requires IsGrid(V) && Covers(asg, V) && |lastRow| == 10
    ensures (forall c :: c in ColumnSumConstraints(V, lastRow) ==> Satisfies(asg, c)) <==> ColumnSumsMet(asg, V, lastRow)
  {
    ColumnSumsIndex(V, lastRow);
    var cs := ColumnSumConstraints(V, lastRow);
    forall i | 0 <= i < 10 ensures Satisfies(asg, cs[i]) <==> Sum(ColumnValues(asg, V, i)) == lastRow[i] {
      ColumnSumSatisfied(asg, V, i, lastRow[i]);
    }
  }

  /** On a row whose values are digits holding its preset values, the
      all-different constraint holds exactly when the values are pairwise
      different. */
  lemma RowAllDifferentSatisfiedBy(asg: map<Variable, int>, row: seq<Variable>, cells: seq<int>)
    requires |row| == 10 && |cells| == 10
    requires forall k :: 0 <= k < 10 ==> row[k] in asg && 0 <= asg[row[k]] < 10
    requires forall j :: 0 <= j < 10 && cells[j] != -1 ==> asg[row[j]] == cells[j]
    ensures Satisfies(asg, RowAllDifferentConstraint(row, cells)) <==>
      forall a, b :: 0 <= a < b < 10 ==> asg[row[a]] != asg[row[b]]
  {
    var vals := ScopeValues(row, asg);
    RowAllDifferentMembers(row, cells, vals);
  }

  /** Under a covering assignment of a board of valid cells, a row's values
      are digits and hold the row's preset values. */
  lemma CoveredRowDigits(asg: map<Variable, int>, grid: seq<seq<int>>, V: seq<seq<Variable>>, r: nat)
    requires IsVariableGrid(grid, V) && CellsValid(grid) && Covers(asg, V) && r < |V|
    ensures forall k :: 0 <= k < 10 ==> V[r][k] in asg && 0 <= asg[V[r][k]] < 10
    ensures forall j :: 0 <= j < 10 && grid[r][j] != -1 ==> asg[V[r][j]] == grid[r][j]
  {
    forall k | 0 <= k < 10 ensures 0 <= asg[V[r][k]] < 10 && (grid[r][k] != -1 ==> asg[V[r][k]] == grid[r][k]) {
      CellDomainMembers(grid[r][k], asg[V[r][k]]);
    }
  }

  /** Model 2's row constraints hold exactly when the rows are distinct. */
  lemma RowAllDifferentSatisfied(asg: map<Variable, int>, grid: seq<seq<int>>, V: seq<seq<Variable>>)
    requires IsVariableGrid(grid, V) && CellsValid(grid) && Covers(asg, V)
    ensures (forall c :: c in RowAllDifferentConstraints(grid, V) ==> Satisfies(asg, c)) <==> RowsDistinct(asg, V)
  {
    var cs := RowAllDifferentConstraints(grid, V);
    RowsAllDifferentLength(grid, V, |V|);
    forall r | 0 <= r < |V|
      ensures Satisfies(asg, cs[r]) <==> forall a, b :: 0 <= a < b < |V[r]| ==> asg[V[r][a]] != asg[V[r][b]]
    {
      RowDistinctAt(asg, grid, V, cs, r);
    }
    RowwiseSatisfied(asg, V, cs);
  }

  /** Row r's all-different constraint holds exactly when row r repeats no
      value. */
  lemma RowDistinctAt(asg: map<Variable, int>, grid: seq<seq<int>>, V: seq<seq<Variable>>, cs: seq<Constraint>, r: nat)
    requires IsVariableGrid(grid, V) && CellsValid(grid) && Covers(asg, V) && r < |V|
    requires cs == RowAllDifferentConstraints(grid, V) && |cs| == |V|
    ensures Satisfies(asg, cs[r]) <==>
      forall a, b :: 0 <= a < b < |V[r]| ==> asg[V[r][a]] != asg[V[r][b]]
  {
    RowAllDifferentIndex(grid, V);
    CoveredRowDigits(asg, grid, V, r);
    RowAllDifferentSatisfiedBy(asg, V[r], grid[r]);
  }

  /** One constraint per row, each holding exactly when its row repeats no
      value: all of them hold exactly when no row repeats a value. */
  lemma RowwiseSatisfied(asg: map<Variable, int>, V: seq<seq<Variable>>, cs: seq<Constraint>)
    requires Covers(asg, V) && |cs| == |V|
    requires forall r :: 0 <= r < |V| ==>
      (Satisfies(asg, cs[r]) <==> forall a, b :: 0 <= a < b < |V[r]| ==> asg[V[r][a]] != asg[V[r][b]])
    ensures (forall c :: c in cs ==> Satisfies(asg, c)) <==> RowsDistinct(asg, V)
  {
    if forall c :: c in cs ==> Satisfies(asg, c) {
      forall r | 0 <= r < |V| ensures Satisfies(asg, cs[r]) {
        assert cs[r] in cs;
      }
    }
    if RowsDistinct(asg, V) {
      forall c | c in cs ensures Satisfies(asg, c) {
        var r :| 0 <= r < |cs| && cs[r] == c;
      }
    }
  }

  /** A solution of a CSP whose constraints come in three families satisfies
      each family. */
  lemma SolutionOfParts(asg: map<Variable, int>, vars: seq<Variable>, a: seq<Constraint>, b: seq<Constraint>, c: seq<Constraint>)
    ensures IsSolution(asg, vars, a + b + c) <==>
      (forall v :: v in vars ==> v in asg && asg[v] in v.domain) &&
      (forall x :: x in a ==> Satisfies(asg, x)) &&
      (forall x :: x in b ==> Satisfies(asg, x)) &&
      (forall x :: x in c ==> Satisfies(asg, x))
  {
  }

  /** The solutions of model 1 are exactly the fillings of the grid that
      respect the cells' domains, repeat no value within a row, give every
      visited neighbour pair different values and meet every column's
      target. */
  lemma Model1Solutions(V: seq<seq<Variable>>, lastRow: seq<int>, asg: map<Variable, int>)
    requires IsGrid(V) && |lastRow| == 10
    ensures IsSolution(asg, Flatten(V), Model1Constraints(V, lastRow)) <==>
      Covers(asg, V) && RowsDistinct(asg, V) && NeighboursDistinct(asg, V) && ColumnSumsMet(asg, V, lastRow)
  {
    SolutionOfParts(asg, Flatten(V), RowNotEqualConstraints(V), AdjacencyConstraints(V), ColumnSumConstraints(V, lastRow));
    CoversIffDomains(asg, V);
    if Covers(asg, V) {
      RowNotEqualSatisfied(asg, V);
      AdjacencySatisfied(asg, V);
      ColumnSumsSatisfied(asg, V, lastRow);
    }
  }

  /** The solutions of model 2, on a board of valid cells, are the same
      fillings. */
  lemma Model2Solutions(grid: seq<seq<int>>, V: seq<seq<Variable>>, lastRow: seq<int>, asg: map<Variable, int>)
    requires IsVariableGrid(grid, V) && IsGrid(V) && CellsValid(grid) && |lastRow| == 10
    ensures IsSolution(asg, Flatten(V), Model2Constraints(grid, V, lastRow)) <==>
      Covers(asg, V) && RowsDistinct(asg, V) && NeighboursDistinct(asg, V) && ColumnSumsMet(asg, V, lastRow)
  {
    SolutionOfParts(asg, Flatten(V), RowAllDifferentConstraints(grid, V), AdjacencyConstraints(V), ColumnSumConstraints(V, lastRow));
    CoversIffDomains(asg, V);
    if Covers(asg, V) {
      RowAllDifferentSatisfied(asg, grid, V);
      AdjacencySatisfied(asg, V);
      ColumnSumsSatisfied(asg, V, lastRow);
    }
  }

  /** On a board of valid cells the two models, over the variable grid both
      builders return, have the same solutions. */
  lemma ModelsHaveSameSolutions(grid: seq<seq<int>>, V: seq<seq<Variable>>, lastRow: seq<int>, asg: map<Variable, int>)
    requires IsVariableGrid(grid, V) && IsGrid(V) && CellsValid(grid) && |lastRow| == 10
    ensures IsSolution(asg, Flatten(V), Model1Constraints(V, lastRow)) <==>
            IsSolution(asg, Flatten(V), Model2Constraints(grid, V, lastRow))
  {
    Model1Solutions(V, lastRow, asg);
    Model2Solutions(grid, V, lastRow, asg);
  }
}
