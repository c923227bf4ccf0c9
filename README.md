# Tenner Grid CSP models in Dafny

This project models `tenner_csp.py`, which compiles a Tenner Grid board into
a finite-domain constraint satisfaction problem (CSP) in which every
constraint is a table of allowed tuples. A board is `n` rows of ten cells
plus a last row of ten column totals. A cell holds `-1` when it is empty, or
its preset digit otherwise. The file has two builders:

- `tenner_csp_model_1` adds:
  - one variable per cell;
  - a binary not-equal constraint for every two cells of a row;
  - the binary not-equal constraints between neighbouring cells;
  - one n-ary sum constraint per column.
- `tenner_csp_model_2` builds the same variables. It replaces the row pairs
  with one ten-ary all-different constraint per row, whose tuples are the
  permutations of `0..9` that hold the row's preset values. It then adds the
  same neighbour and column constraints.

The project has five modules, one per file:

- `CspBase` (`csp_base.dfy`): the records the builders produce.
  - A variable is a name and a domain.
  - A constraint is a scope and its tuples.
  - `Csp` is a class whose `AddVar` and `AddConstraint` append to its lists.
- `TupleTables` (`tuple_tables.dfy`):
  - the unequal-pair tables;
  - `itertools.product`, as a recursive function;
  - the column-sum filter;
  - the source's pad-to-eight form of the column enumeration.
- `PermutationTables` (`permutation_tables.dfy`):
  - `itertools.permutations`, as a recursive function;
  - the check of a permutation against a row's preset cells.
- `TennerCsp` (`tenner_csp.dfy`): the two builders. Each loop of the source
  is a method that changes the `Csp` object. Each method is proved to
  append exactly the constraint list a specification function describes.
- `TennerProperties` (`tenner_properties.dfy`): what those lists contain.
  - Counts, and membership in both directions.
  - The exact tuples of each constraint.
  - Every tuple fits its scope's domains.
  - A characterisation of each model's solutions, and from it that the two
    models have the same solutions on boards whose cells are `-1` or a digit.

The neighbour constraints follow the source's loops exactly. For a cell in
columns 0..8, the loops constrain:

- its right neighbour;
- its lower and lower-right neighbours, when a row below exists.

So two kinds of touching pair are never constrained:

- vertically touching cells in column 9;
- lower-left diagonal pairs.

`ConstrainedNeighbours`, `AdjacencyWitness` and `AdjacencyComplete` state
this coverage exactly.

## Model

| member | source | states |
|---|---|---|
| CspBase.Csp.constructor | tenner_csp.py:72 | a new CSP has the given name, no variables and no constraints |
| CspBase.Csp.AddVar | tenner_csp.py:85 | the variable is appended to the CSP's variables; constraints and name are unchanged |
| CspBase.Csp.AddConstraint | tenner_csp.py:102 | the constraint is appended to the CSP's constraints; variables and name are unchanged |
| TupleTables.UnequalPairsMembers | tenner_csp.py:97-101 | a tuple is in the not-equal table exactly when it is a pair whose first value is from the first domain, whose second is from the second, and the two differ |
| TupleTables.NotEqualTuples | tenner_csp.py:97-101 | the nested loops over the two domains produce exactly the not-equal table, in loop order |
| TupleTables.ProductMembers | tenner_csp.py:156-158 | a tuple is in the product of a list of domains exactly when it has one value per domain, each drawn from its domain |
| TupleTables.SumTableMembers | tenner_csp.py:156-160 | a tuple is in a column table exactly when it has one value per domain, each from its domain, and its values add up to the target |
| TupleTables.SumTuples | tenner_csp.py:153-160 | the loop over the product keeps exactly the combinations with the target sum, in product order |
| TupleTables.PaddingIsTransparent | tenner_csp.py:154-160 | for at most eight domains, padding with `[0]` factors to eight, filtering by sum and cutting each tuple to its first `n` values gives the same tuple list as the product of the `n` domains |
| PermutationTables.PermutationsMembers | tenner_csp.py:239 | a sequence is a permutation of `s` exactly when it has the same elements as `s`, counted with multiplicity |
| PermutationTables.PermutationLength | tenner_csp.py:239 | every permutation of `s` is as long as `s` |
| PermutationTables.DigitPermutationIff | tenner_csp.py:239 | an arrangement of `0..9` is exactly a sequence of ten pairwise different digits |
| PermutationTables.PresetTableMembers | tenner_csp.py:239-246 | a tuple is in a row table exactly when it is an arrangement of `range(width)` that holds every preset value at its position |
| PermutationTables.CheckPresets | tenner_csp.py:240-244 | the check of one permutation returns true exactly when the permutation agrees with every preset position |
| PermutationTables.AgreeingPermutations | tenner_csp.py:238-246 | the loop over the permutations keeps exactly those that agree with the presets, in permutation order |
| TennerCsp.BuildVariableGrid | tenner_csp.py:74-86 | returns one row of ten variables per board row; variable (i, j) is named `str(i) + str(j)` and has domain `[cell]` or `0..9`; every variable is appended to the CSP in row-major order |
| TennerCsp.AddRowVariables | tenner_csp.py:76-85 | returns the ten variables of row i, variable j named `str(i) + str(j)` with domain `[cell]` or `0..9`, and appends them to the CSP in column order; constraints and name are unchanged |
| TennerCsp.AddPairsFrom | tenner_csp.py:92-103 | appends the not-equal constraints between `row[i]` and each later cell of the row, in order |
| TennerCsp.AddRowPairs | tenner_csp.py:90-103 | appends the not-equal constraints of every two cells of one row, in loop order |
| TennerCsp.AddRowNotEqual | tenner_csp.py:89-103 | appends model 1's row constraints for all rows, in loop order |
| TennerCsp.AddAdjacentAt | tenner_csp.py:108-140 | appends right, down and diagonal constraints for a cell above the last row, and only the right one for a cell of the last row |
| TennerCsp.AddAdjacentColumn | tenner_csp.py:107-140 | appends the adjacency constraints of one column's cells, top to bottom |
| TennerCsp.AddAdjacency | tenner_csp.py:106-140 | appends the adjacency constraints of columns 0..8, column by column |
| TennerCsp.AddColumnSums | tenner_csp.py:143-162 | appends one sum constraint per column, with scope the column and tuples the column table for that column's target |
| TennerCsp.AddRowAllDifferentAt | tenner_csp.py:230-248 | appends one row's all-different constraint, with scope the row and tuples the permutations agreeing with the row's preset cells |
| TennerCsp.AddRowAllDifferent | tenner_csp.py:229-248 | appends model 2's row constraints, one per row, in row order |
| TennerCsp.TennerModel1 | tenner_csp.py:68-164 | returns a fresh CSP named `tenner_csp` and the variable grid of the board; the CSP holds the grid's variables in row-major order, then the row pairs, adjacency constraints and column sums, in that order |
| TennerCsp.TennerModel2 | tenner_csp.py:208-309 | returns a fresh CSP named `tenner_csp` and the variable grid of the board; the CSP holds the grid's variables, then the row all-different constraints, adjacency constraints and column sums |
| TennerProperties.CellDomainMembers | tenner_csp.py:80-83 | a preset cell's domain holds exactly the preset value; an empty cell's domain holds exactly the digits 0..9 |
| TennerProperties.DecimalStringInjective | tenner_csp.py:79 | `str(k)` determines `k` |
| TennerProperties.CellNameInjective | tenner_csp.py:79 | the name `str(i) + str(j)` of a cell, for a column `j` in 0..9, determines the cell |
| TennerProperties.VariablesDistinct | tenner_csp.py:74-86 | two cells share a variable only when they are the same cell |
| TennerProperties.VariableGridUnique | tenner_csp.py:214-226 | the variable grid is determined by the board, so model 2's grid is model 1's |
| TennerProperties.FlattenIndex | tenner_csp.py:74-86 | the CSP's variables number ten per row, with the variable of cell (i, j) at position `10 * i + j` |
| TennerProperties.CellVariableDeclared | tenner_csp.py:85 | every cell's variable is among the CSP's variables |
| TennerProperties.RowNotEqualCount | tenner_csp.py:89-92 | model 1 adds 45 row constraints per row |
| TennerProperties.RowNotEqualWitness | tenner_csp.py:89-103 | every row constraint of model 1 relates two cells of one row, the left one first; none relates cells of different rows |
| TennerProperties.RowNotEqualComplete | tenner_csp.py:89-103 | every two cells of one row, the left one first, have their not-equal constraint |
| TennerProperties.NotEqualMembers | tenner_csp.py:94-102 | the tuples of a not-equal constraint are exactly the unequal pairs from the two variables' domains |
| TennerProperties.AdjacencyWitness | tenner_csp.py:106-140 | every adjacency constraint relates a cell of columns 0..8 to its right neighbour, or, above the last row, to its lower or lower-right neighbour |
| TennerProperties.AdjacencyComplete | tenner_csp.py:106-140 | every such cell and neighbour pair has its not-equal constraint |
| TennerProperties.AdjacencyCount | tenner_csp.py:106-140 | there are `3 * 9 * (n - 1) + 9` adjacency constraints for `n >= 1` rows, and none for an empty board |
| TennerProperties.ColumnSumsIndex | tenner_csp.py:143-144 | there are ten column constraints, the i-th for column i with target `last_row[i]` |
| TennerProperties.ColumnSumMembers | tenner_csp.py:146-160 | a column constraint's scope is the column, top to bottom; its tuples are exactly the tuples with one value per row, from that cell's domain, adding up to the target |
| TennerProperties.RowAllDifferentIndex | tenner_csp.py:229-248 | model 2 adds one row constraint per row, in row order |
| TennerProperties.RowAllDifferentMembers | tenner_csp.py:238-246 | a row constraint's tuples are exactly the rows of ten pairwise different digits that hold every preset value at its position |
| TennerProperties.Model1ConstraintsFit | tenner_csp.py:88-162 | every constraint of model 1 is over the CSP's variables; each of its tuples has the scope's arity and draws each value from that variable's domain |
| TennerProperties.Model2ConstraintsFit | tenner_csp.py:228-307 | the same for model 2 |
| TennerProperties.NotEqualSatisfied | tenner_csp.py:97-101 | an assignment within the domains satisfies a not-equal constraint exactly when the two values differ |
| TennerProperties.RowNotEqualSatisfied | tenner_csp.py:89-103 | model 1's row constraints hold exactly when no row repeats a value |
| TennerProperties.AdjacencySatisfied | tenner_csp.py:106-140 | the adjacency constraints hold exactly when every constrained neighbour pair has different values |
| TennerProperties.ColumnSumSatisfied | tenner_csp.py:143-162 | a column constraint holds exactly when the column's values add up to its target |
| TennerProperties.RowAllDifferentSatisfied | tenner_csp.py:229-248 | on a board whose cells are `-1` or a digit, model 2's row constraints hold exactly when no row repeats a value |
| TennerProperties.Model1Solutions | tenner_csp.py:68-164 | the solutions of model 1 are exactly the grid fillings that keep to the cells' domains, repeat no value in a row, separate every constrained neighbour pair and meet every column target |
| TennerProperties.Model2Solutions | tenner_csp.py:208-309 | on a board whose cells are `-1` or a digit, the solutions of model 2 are exactly the same fillings |
| TennerProperties.ModelsHaveSameSolutions | tenner_csp.py:229-248 | on such a board, the row all-different constraints that replace model 1's row pairs leave the set of solutions unchanged |

## Left out

- The `cspbase` module is not part of this model.
  - `Variable`, `Constraint` and `CSP` are reduced to records: a name and a domain; a scope and a tuple list; a name, a variable list and a constraint list.
  - Current-domain pruning and restoring are not modelled. While the builders run, `cur_domain()` is the initial domain, so the model reads the initial domain.
  - `add_satisfying_tuples` is folded into building the constraint value.
- Constraint name strings are not modelled. These are the `var_array.index`-based names of the row pairs, `"right"`, `"down"`, `"diagonal"`, the `"i: target"` column names and `"row" + str(n)`. They are only labels.
- The builders take the grid and the last row as two arguments instead of one pair. They return the CSP and the variable array as two results.
- Python tuples are modelled as sequences of integers.
- A dictionary is iterated in insertion order. So `CheckPresets` visits the preset positions in increasing order, the order in which they were inserted.
- Row permutations are taken over `range(|row|)`, not the literal `range(10)`. Every row has ten variables, so this is the same list.
- TennerCsp.TennerModel1: requires at most eight rows, ten cells per row and ten column targets.
  - With more than eight rows, the source's eight-factor product ignores rows 9 onward. The model does not reproduce that.
  - Shorter rows or a shorter last row make the source fail on an index. The model does not cover those inputs either.
- TennerCsp.TennerModel2: the same requirements as model 1, for the same reasons.
- The column tables of the builders use the variable-arity product. The source's pad-to-eight form is modelled as `PaddedSumTable`, and `PaddingIsTransparent` proves it gives the same list.
- TennerProperties.Model2Solutions: assumes every cell is `-1` or a digit. For another preset value, model 2's row table has no tuple matching the preset, while model 1's pairs can still be met.
- Loading boards, search, propagation and printing are outside `tenner_csp.py`, so they are not part of this model.
