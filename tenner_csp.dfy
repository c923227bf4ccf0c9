/** The two Tenner Grid model builders. A board is n rows of ten cells (-1
    for an empty cell, otherwise the preset digit) and ten column targets.
    Both builders create one variable per cell and add to a fresh CSP:
    model 1 a binary not-equal constraint for every pair of cells in a row,
    model 2 one ten-ary all-different constraint per row; both then add the
    binary not-equal constraints between adjacent cells and one sum
    constraint per column. Each step is a method proved to produce exactly the
    constraint list that a specification function below describes. */
module TennerCsp {
  import opened CspBase
  import opened TupleTables
  import opened PermutationTables

  // ---------------------------------------------------------------------
  // Variables

  /** The character of a decimal digit. */
  function DigitChar(d: int): char
    requires 0 <= d < 10
  {
    (d + '0' as int) as char
  }

  /** Python's str(k) for a non-negative integer. */
  function DecimalString(k: nat): string
    decreases k
  {
    if k < 10 then [DigitChar(k)] else DecimalString(k / 10) + [DigitChar(k % 10)]
  }

  /** The name of the variable of cell (i, j): str(i) + str(j). */
  function CellName(i: nat, j: nat): string
  {
    DecimalString(i) + DecimalString(j)
  }

  /** The initial domain of a cell: the preset value alone, or all of 0..9
      for an empty cell (-1). */
  function CellDomain(cell: int): seq<int>
  {
    if cell != -1 then [cell] else Digits()
  }

  /** A board as the builders take it: at most eight rows (the column
      enumeration pads to eight), each of ten cells, and ten column targets. */
  predicate IsBoard(grid: seq<seq<int>>, lastRow: seq<int>)
  {
    |grid| <= 8 && (forall i :: 0 <= i < |grid| ==> |grid[i]| == 10) && |lastRow| == 10
  }

  /** Every row of a variable array has ten variables. */
  predicate IsGrid(V: seq<seq<Variable>>)
  {
    forall r :: 0 <= r < |V| ==> |V[r]| == 10
  }

  /** V is the variable array of grid: one row per grid row, ten variables
      per row, V[i][j] named str(i) + str(j) with the domain of cell (i, j). */
  predicate IsVariableGrid(grid: seq<seq<int>>, V: seq<seq<Variable>>)
  {
    |V| == |grid| &&
    forall i :: 0 <= i < |V| ==>
      |V[i]| == 10 && |grid[i]| == 10 &&
      forall j :: 0 <= j < 10 ==>
        V[i][j].name == CellName(i, j) && V[i][j].domain == CellDomain(grid[i][j])
  }

  /** The variables of V in row-major order. */
  function Flatten(V: seq<seq<Variable>>): seq<Variable>
  {
    if V == [] then [] else Flatten(V[..|V| - 1]) + V[|V| - 1]
  }

  /** Lines 74-86 of both builders: one variable per cell, row by row, each
      added to the CSP as it is made. */
  method BuildVariableGrid(csp: Csp, grid: seq<seq<int>>) returns (varArray: seq<seq<Variable>>)
    requires forall i :: 0 <= i < |grid| ==> |grid[i]| == 10
    modifies csp
    ensures IsVariableGrid(grid, varArray) && IsGrid(varArray)
    ensures csp.vars == old(csp.vars) + Flatten(varArray)
    ensures csp.cons == old(csp.cons) && csp.name == old(csp.name)
  {
    var domain := Digits();
    varArray := [];
    var i := 0;
    while i < |grid|
      invariant 0 <= i <= |grid| && |varArray| == i
      invariant forall r :: 0 <= r < i ==>
        |varArray[r]| == 10 &&
        forall j :: 0 <= j < 10 ==>
          varArray[r][j].name == CellName(r, j) && varArray[r][j].domain == CellDomain(grid[r][j])
      invariant csp.vars == old(csp.vars) + Flatten(varArray)
      invariant csp.cons == old(csp.cons) && csp.name == old(csp.name)
    {
      var varsI := AddRowVariables(csp, grid[i], i, domain);
      assert (varArray + [varsI])[..i] == varArray;
      varArray := varArray + [varsI];
      i := i + 1;
    }
  }

  /** Lines 76-85: the variables of row i, one per cell, each added to the
      CSP as it is made. */
  method AddRowVariables(csp: Csp, cells: seq<int>, i: nat, domain: seq<int>) returns (varsI: seq<Variable>)
    requires |cells| == 10 && domain == Digits()
    modifies csp
    ensures |varsI| == 10
    ensures forall j :: 0 <= j < 10 ==> varsI[j].name == CellName(i, j) && varsI[j].domain == CellDomain(cells[j])
    ensures csp.vars == old(csp.vars) + varsI
    ensures csp.cons == old(csp.cons) && csp.name == old(csp.name)
  {
    varsI := [];
    var j := 0;
    while j < 10
      invariant 0 <= j <= 10 && |varsI| == j
      invariant forall c :: 0 <= c < j ==>
        varsI[c].name == CellName(i, c) && varsI[c].domain == CellDomain(cells[c])
      invariant csp.vars == old(csp.vars) + varsI
      invariant csp.cons == old(csp.cons) && csp.name == old(csp.name)
    {
      var cell := cells[j];
      var name := CellName(i, j);
      var v;
      if cell != -1 {
        v := Variable(name, [cell]);
      } else {
        v := Variable(name, domain);
      }
      varsI := varsI + [v];
      csp.AddVar(v);
      j := j + 1;
    }
  }

  // ---------------------------------------------------------------------
  // Binary not-equal constraints

  /** The not-equal constraint between two variables: scope [v, w], tuples
      the unequal pairs of their domains. */
  function NotEqualConstraint(v: Variable, w: Variable): Constraint
  {
    Constraint([v, w], UnequalPairs(v.domain, w.domain))
  }

  /** The not-equal constraints between row[i] and each of row[i+1 .. j-1]. */
  function PairsFrom(row: seq<Variable>, i: nat, j: nat): seq<Constraint>
    requires i < j <= |row|
    decreases j
  {
    if j == i + 1 then [] else PairsFrom(row, i, j - 1) + [NotEqualConstraint(row[i], row[j - 1])]
  }

  /** The not-equal constraints of a row whose first cell is in columns
      0 .. i-1. */
  function RowPairs(row: seq<Variable>, i: nat): seq<Constraint>
    requires i <= |row|
  {
    if i == 0 then [] else RowPairs(row, i - 1) + PairsFrom(row, i - 1, |row|)
  }

  /** The row not-equal constraints of rows 0 .. r-1, row by row. */
  function RowsNotEqual(V: seq<seq<Variable>>, r: nat): seq<Constraint>
    requires r <= |V|
  {
    if r == 0 then [] else RowsNotEqual(V, r - 1) + RowPairs(V[r - 1], |V[r - 1]|)
  }

  /** Model 1's row constraints: for every row and every two columns i < j,
      a not-equal constraint between the two cells, in loop order. */
  function RowNotEqualConstraints(V: seq<seq<Variable>>): seq<Constraint>
  {
    RowsNotEqual(V, |V|)
  }

  /** The inner loop of lines 92-103: row[i] against each later cell. */
  method AddPairsFrom(csp: Csp, row: seq<Variable>, i: nat)
    requires i < |row|
    modifies csp
    ensures csp.cons == old(csp.cons) + PairsFrom(row, i, |row|)
    ensures csp.vars == old(csp.vars) && csp.name == old(csp.name)
  {
    var var1 := row[i];
    var j := i + 1;
    while j < |row|
      invariant i + 1 <= j <= |row|
      invariant csp.cons == old(csp.cons) + PairsFrom(row, i, j)
      invariant csp.vars == old(csp.vars) && csp.name == old(csp.name)
    {
      var var2 := row[j];
      var tuples := NotEqualTuples(var1.domain, var2.domain);
      csp.AddConstraint(Constraint([var1, var2], tuples));
      j := j + 1;
    }
  }

  /** Lines 90-103: the not-equal constraints of one row. */
  method AddRowPairs(csp: Csp, row: seq<Variable>)
    modifies csp
    ensures csp.cons == old(csp.cons) + RowPairs(row, |row|)
    ensures csp.vars == old(csp.vars) && csp.name == old(csp.name)
  {
    var i := 0;
    while i < |row|
      invariant 0 <= i <= |row|
      invariant csp.cons == old(csp.cons) + RowPairs(row, i)
      invariant csp.vars == old(csp.vars) && csp.name == old(csp.name)
    {
      AddPairsFrom(csp, row, i);
      i := i + 1;
    }
  }

  /** Lines 89-103 of model 1. */
  method AddRowNotEqual(csp: Csp, V: seq<seq<Variable>>)
    modifies csp
    ensures csp.cons == old(csp.cons) + RowNotEqualConstraints(V)
    ensures csp.vars == old(csp.vars) && csp.name == old(csp.name)
  {
    var r := 0;
    while r < |V|
      invariant 0 <= r <= |V|
      invariant csp.cons == old(csp.cons) + RowsNotEqual(V, r)
      invariant csp.vars == old(csp.vars) && csp.name == old(csp.name)
    {
      AddRowPairs(csp, V[r]);
      r := r + 1;
    }
  }

  // ---------------------------------------------------------------------
  // Adjacency constraints

  /** The adjacency constraints of cell (j, i), column i < 9: right, down and
      diagonal for a row above the last, only right for the last row. */
  function AdjacentAt(V: seq<seq<Variable>>, j: nat, i: nat): seq<Constraint>
    requires IsGrid(V) && j < |V| && i < 9
  {
    var v := V[j][i];
    if j < |V| - 1 then
      [NotEqualConstraint(v, V[j][i + 1]), NotEqualConstraint(v, V[j + 1][i]),
       NotEqualConstraint(v, V[j + 1][i + 1])]
    else
      [NotEqualConstraint(v, V[j][i + 1])]
  }

  /** The adjacency constraints of rows 0 .. j-1 of column i. */
  function AdjacentInColumn(V: seq<seq<Variable>>, i: nat, j: nat): seq<Constraint>
    requires IsGrid(V) && j <= |V| && i < 9
  {
    if j == 0 then [] else AdjacentInColumn(V, i, j - 1) + AdjacentAt(V, j - 1, i)
  }

  /** The adjacency constraints of columns 0 .. i-1, column by column. */
  function AdjacentUpTo(V: seq<seq<Variable>>, i: nat): seq<Constraint>
    requires IsGrid(V) && i <= 9
  {
    if i == 0 then [] else AdjacentUpTo(V, i - 1) + AdjacentInColumn(V, i - 1, |V|)
  }

  /** The adjacency constraints of both models, in loop order. */
  function AdjacencyConstraints(V: seq<seq<Variable>>): seq<Constraint>
    requires IsGrid(V)
  {
    AdjacentUpTo(V, 9)
  }

  /** The body of the adjacency loops for cell (j, i): lines 108-129 of
      model 1 for a row above the last, lines 131-140 for the last row. */
  method AddAdjacentAt(csp: Csp, V: seq<seq<Variable>>, j: nat, i: nat)
    requires IsGrid(V) && j < |V| && i < 9
    modifies csp
    ensures csp.cons == old(csp.cons) + AdjacentAt(V, j, i)
    ensures csp.vars == old(csp.vars) && csp.name == old(csp.name)
  {
    var n := |V|;
    if j < n - 1 {
      var v := V[j][i];
      var others := [V[j][i + 1], V[j + 1][i], V[j + 1][i + 1]];
      var allTuples: seq<seq<seq<int>>> := [];
      var k := 0;
      while k < 3
        invariant 0 <= k <= 3 && |allTuples| == k
        invariant forall m :: 0 <= m < k ==> allTuples[m] == UnequalPairs(v.domain, others[m].domain)
        invariant unchanged(csp)
      {
        var tuples := NotEqualTuples(v.domain, others[k].domain);
        allTuples := allTuples + [tuples];
        k := k + 1;
      }
      var group := [Constraint([v, others[0]], allTuples[0]),
                    Constraint([v, others[1]], allTuples[1]),
                    Constraint([v, others[2]], allTuples[2])];
      assert group == AdjacentAt(V, j, i);
      k := 0;
      while k < 3
        invariant 0 <= k <= 3
        invariant csp.cons == old(csp.cons) + group[..k]
        invariant csp.vars == old(csp.vars) && csp.name == old(csp.name)
      {
        csp.AddConstraint(group[k]);
        assert group[..k + 1] == group[..k] + [group[k]];
        k := k + 1;
      }
      assert group[..3] == group;
    } else {
      var v := V[j][i];
      var vRight := V[j][i + 1];
      var tuples := NotEqualTuples(v.domain, vRight.domain);
      csp.AddConstraint(Constraint([v, vRight], tuples));
    }
  }

  /** One pass of the inner adjacency loop: the cells of column i, top to
      bottom. */
  method AddAdjacentColumn(csp: Csp, V: seq<seq<Variable>>, i: nat)
    requires IsGrid(V) && i < 9
    modifies csp
    ensures csp.cons == old(csp.cons) + AdjacentInColumn(V, i, |V|)
    ensures csp.vars == old(csp.vars) && csp.name == old(csp.name)
  {
    var j := 0;
    while j < |V|
      invariant 0 <= j <= |V|
      invariant csp.cons == old(csp.cons) + AdjacentInColumn(V, i, j)
      invariant csp.vars == old(csp.vars) && csp.name == old(csp.name)
    {
      AddAdjacentAt(csp, V, j, i);
      j := j + 1;
    }
  }

  /** Lines 106-140 of model 1 and 251-285 of model 2. */
  method AddAdjacency(csp: Csp, V: seq<seq<Variable>>)
    requires IsGrid(V)
    modifies csp
    ensures csp.cons == old(csp.cons) + AdjacencyConstraints(V)
    ensures csp.vars == old(csp.vars) && csp.name == old(csp.name)
  {
    var i := 0;
    while i < 9
      invariant 0 <= i <= 9
      invariant csp.cons == old(csp.cons) + AdjacentUpTo(V, i)
      invariant csp.vars == old(csp.vars) && csp.name == old(csp.name)
    {
      AddAdjacentColumn(csp, V, i);
      i := i + 1;
    }
  }

  // ---------------------------------------------------------------------
  // Column-sum constraints

  /** The variables of column i, top to bottom. */
  function Column(V: seq<seq<Variable>>, i: nat): seq<Variable>
    requires IsGrid(V) && i < 10
  {
    seq(|V|, j requires 0 <= j < |V| => V[j][i])
  }

  /** The domains of a scope, in scope order. */
  function Domains(vs: seq<Variable>): seq<seq<int>>
  {
    seq(|vs|, k requires 0 <= k < |vs| => vs[k].domain)
  }

  /** The sum constraint of column i with the given target. */
  function ColumnSumConstraint(V: seq<seq<Variable>>, i: nat, target: int): Constraint
    requires IsGrid(V) && i < 10
  {
    var scope := Column(V, i);
    Constraint(scope, SumTable(Domains(scope), target))
  }

  /** The sum constraints of columns 0 .. i-1. */
  function ColumnSumsUpTo(V: seq<seq<Variable>>, lastRow: seq<int>, i: nat): seq<Constraint>
    requires IsGrid(V) && i <= 10 <= |lastRow|
  {
    if i == 0 then [] else ColumnSumsUpTo(V, lastRow, i - 1) + [ColumnSumConstraint(V, i - 1, lastRow[i - 1])]
  }

  /** The column-sum constraints of both models, one per column in order. */
  function ColumnSumConstraints(V: seq<seq<Variable>>, lastRow: seq<int>): seq<Constraint>
    requires IsGrid(V) && |lastRow| == 10
  {
    ColumnSumsUpTo(V, lastRow, 10)
  }

  /** Lines 143-162 of model 1 and 288-307 of model 2, with the column's
      tuples enumerated by a product of as many factors as there are rows. */
  method AddColumnSums(csp: Csp, V: seq<seq<Variable>>, lastRow: seq<int>)
    requires IsGrid(V) && |lastRow| == 10
    modifies csp
    ensures csp.cons == old(csp.cons) + ColumnSumConstraints(V, lastRow)
    ensures csp.vars == old(csp.vars) && csp.name == old(csp.name)
  {
    var n := |V|;
    var i := 0;
    while i < 10
      invariant 0 <= i <= 10
      invariant csp.cons == old(csp.cons) + ColumnSumsUpTo(V, lastRow, i)
      invariant csp.vars == old(csp.vars) && csp.name == old(csp.name)
    {
      var target := lastRow[i];
      var scope: seq<Variable> := [];
      var domains: seq<seq<int>> := [];
      var j := 0;
      while j < n
        invariant 0 <= j <= n && |scope| == j && |domains| == j
        invariant forall k :: 0 <= k < j ==> scope[k] == V[k][i] && domains[k] == V[k][i].domain
      {
        var v := V[j][i];
        scope := scope + [v];
        domains := domains + [v.domain];
        j := j + 1;
      }
      assert scope == Column(V, i);
      assert domains == Domains(scope);
      var tuples := SumTuples(domains, target);
      csp.AddConstraint(Constraint(scope, tuples));
      i := i + 1;
    }
  }

  // ---------------------------------------------------------------------
  // Row all-different constraints (model 2)

  /** The dictionary of a row's preset cells: position to preset value. */
  function Presets(cells: seq<int>): map<int, int>
  {
    map j | 0 <= j < |cells| && cells[j] != -1 :: cells[j]
  }

  /** The all-different constraint of a row: scope the row's variables,
      tuples the permutations of range(10) that agree with its presets. */
  function RowAllDifferentConstraint(row: seq<Variable>, cells: seq<int>): Constraint
  {
    Constraint(row, PresetTable(|row|, Presets(cells)))
  }

  /** The all-different constraints of rows 0 .. r-1. */
  function RowsAllDifferent(grid: seq<seq<int>>, V: seq<seq<Variable>>, r: nat): seq<Constraint>
    requires r <= |V| == |grid|
  {
    if r == 0 then [] else RowsAllDifferent(grid, V, r - 1) + [RowAllDifferentConstraint(V[r - 1], grid[r - 1])]
  }

  /** Model 2's row constraints: one all-different constraint per row. */
  function RowAllDifferentConstraints(grid: seq<seq<int>>, V: seq<seq<Variable>>): seq<Constraint>
    requires |V| == |grid|
  {
    RowsAllDifferent(grid, V, |V|)
  }

  /** One pass of the row loop of model 2 (lines 230-248): collect row i's
      scope and preset cells, then enumerate its table. */
  method AddRowAllDifferentAt(csp: Csp, grid: seq<seq<int>>, V: seq<seq<Variable>>, i: nat)
    requires IsVariableGrid(grid, V) && i < |grid|
    modifies csp
    ensures csp.cons == old(csp.cons) + [RowAllDifferentConstraint(V[i], grid[i])]
    ensures csp.vars == old(csp.vars) && csp.name == old(csp.name)
  {
    var row, cells := V[i], grid[i];
    var scope: seq<Variable> := [];
    var setValues: map<int, int> := map[];
    var j := 0;
    while j < 10
      invariant 0 <= j <= 10 && scope == row[..j]
      invariant setValues == map k | 0 <= k < j && cells[k] != -1 :: cells[k]
    {
      var value := cells[j];
      scope := scope + [row[j]];
      if value != -1 {
        setValues := setValues[j := value];
      }
      assert row[..j + 1] == row[..j] + [row[j]];
      j := j + 1;
    }
    assert scope == row;
    assert setValues == Presets(cells);
    var tuples := AgreeingPermutations(|scope|, setValues);
    csp.AddConstraint(Constraint(scope, tuples));
  }

  /** Lines 229-248 of model 2. */
  method AddRowAllDifferent(csp: Csp, grid: seq<seq<int>>, V: seq<seq<Variable>>)
    requires IsVariableGrid(grid, V)
    modifies csp
    ensures csp.cons == old(csp.cons) + RowAllDifferentConstraints(grid, V)
    ensures csp.vars == old(csp.vars) && csp.name == old(csp.name)
  {
    var i := 0;
    while i < |grid|
      invariant 0 <= i <= |grid|
      invariant csp.cons == old(csp.cons) + RowsAllDifferent(grid, V, i)
      invariant csp.vars == old(csp.vars) && csp.name == old(csp.name)
    {
      AddRowAllDifferentAt(csp, grid, V, i);
      i := i + 1;
    }
  }

  // ---------------------------------------------------------------------
  // The two builders

  /** The constraint list of model 1, in the order the builder adds it. */
  function Model1Constraints(V: seq<seq<Variable>>, lastRow: seq<int>): seq<Constraint>
    requires IsGrid(V) && |lastRow| == 10
  {
    RowNotEqualConstraints(V) + AdjacencyConstraints(V) + ColumnSumConstraints(V, lastRow)
  }

  /** The constraint list of model 2, in the order the builder adds it. */
  function Model2Constraints(grid: seq<seq<int>>, V: seq<seq<Variable>>, lastRow: seq<int>): seq<Constraint>
    requires IsGrid(V) && |V| == |grid| && |lastRow| == 10
  {
    RowAllDifferentConstraints(grid, V) + AdjacencyConstraints(V) + ColumnSumConstraints(V, lastRow)
  }

  /** tenner_csp_model_1: variables, row not-equal pairs, adjacency, column
      sums. */
  method TennerModel1(grid: seq<seq<int>>, lastRow: seq<int>) returns (csp: Csp, varArray: seq<seq<Variable>>)
    requires IsBoard(grid, lastRow)
    ensures fresh(csp) && csp.name == "tenner_csp"
    ensures IsVariableGrid(grid, varArray)
    ensures csp.vars == Flatten(varArray)
    ensures IsGrid(varArray) && csp.cons == Model1Constraints(varArray, lastRow)
  {
    csp := new Csp("tenner_csp");
    varArray := BuildVariableGrid(csp, grid);
    AddRowNotEqual(csp, varArray);
    ghost var rowCons := csp.cons;
    AddAdjacency(csp, varArray);
    AddColumnSums(csp, varArray, lastRow);
    assert rowCons == RowNotEqualConstraints(varArray);
  }

  /** tenner_csp_model_2: the same variables, row all-different, the same
      adjacency and column sums. */
  method TennerModel2(grid: seq<seq<int>>, lastRow: seq<int>) returns (csp: Csp, varArray: seq<seq<Variable>>)
    requires IsBoard(grid, lastRow)
    ensures fresh(csp) && csp.name == "tenner_csp"
    ensures IsVariableGrid(grid, varArray)
    ensures csp.vars == Flatten(varArray)
    ensures IsGrid(varArray) && csp.cons == Model2Constraints(grid, varArray, lastRow)
  {
    csp := new Csp("tenner_csp");
    varArray := BuildVariableGrid(csp, grid);
    AddRowAllDifferent(csp, grid, varArray);
    ghost var rowCons := csp.cons;
    AddAdjacency(csp, varArray);
    AddColumnSums(csp, varArray, lastRow);
    assert rowCons == RowAllDifferentConstraints(grid, varArray);
  }
}
