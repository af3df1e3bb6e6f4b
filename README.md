# Takuzu solver drafts, modelled in Dafny

The repository holds three near-copies of a Takuzu (Binairo) solver: `versao_certa.py`, `fds.py` and
`takuzu.py`. Each works on an N×N grid of `0`, `1` and `2`, where `2` marks an undetermined cell.
Each draft defines four things:

- a `Board` class with accessors and constraint checks;
- a `TakuzuState` wrapper with a class-wide creation counter;
- a `Takuzu` problem class with `actions`, `result`, `goal_test` and `patch_illegal`;
- a tab-separated board printer, `__str__`.

The drafts differ in their details, so each has its own module. That module describes what its
code does, including the places where it departs from the puzzle's rules.

Modules:

- `Grid` (grid.dfy): the board as `seq<seq<int>>`.
  - `Undetermined` is the constant 2.
  - Columns, transposition, per-value counts and the one-cell write.
  - Python indexing, with negative indices and `IndexError`.
  - `get_number` and the two adjacency lookups, the same code in all three files up to the
    `-> (int, int)` return annotations that fds.py and takuzu.py add.
- `Text` (text.dfy): the decimal text of `str(int)`, joining with a separator, terminating with a
  separator, and character counts.
- `Problem` (problem.dfy): `TakuzuState`.
  - The class attribute `state_id` is a `StateCounter` object that every construction reads and
    bumps.
  - `Takuzu.result` is the same in all three drafts: copy the grid, write one cell, wrap it in a new
    state.
- `Checks` (checks.dfy): the checks of `versao_certa.py`; `fds.py` repeats them word for word.
  - `__contains__`, `check_lines`, `check_cols`, `check_adjacent`, `check_over_half`,
    `check_zero_one` and `full_board`.
  - Each loop is a method proved against a predicate.
  - Lemmas show which checks no solution of the puzzle can fail (`OverHalfSound`, `RunFreeSound`,
    `UniqueSound`, `SolvedZeroOne`). A solution (`Solved`) is stated by the puzzle's own rules, with
    the balance rule `EvenlyFilled` (equal counts for even N, counts one apart for odd N);
    `BalancedIsRule` shows the parity test of `check_zero_one` agrees with it on lines of 0s and 1s.
- `VersaoCerta` (versao_certa.dfy):
  - `generate_possibilities` picks a single cell, which is the first `2` of the last row holding a
    `2`, placed at the row index `list.index` finds.
  - `patch_illegal` filters actions with four checks.
  - `goal_test` tests fullness only.
  - `__str__` drops the trailing newline.
- `Fds` (fds.dfy):
  - the all-cells `generate_possibilities`;
  - a `patch_illegal` that keeps everything;
  - a fullness-only `goal_test`;
  - a `__str__` that terminates every cell and row.
- `Takuzu` (takuzu.dfy):
  - `__contains__` compares against whole rows.
  - `check_lines` and `check_cols` ask for whole-board distinctness.
  - `check_adjacent` scans rows twice and never columns.
  - `check_zero_one` is an exact test that ignores `2`s and never raises.
  - `goal_test` builds on these checks.
  - `patch_illegal` removes from the list it iterates over. Its test asks for a failing
    `check_zero_one`, so it removes writes that still lead to a solution
    (`RemovalPrunesSolvable`).
- `TestBoards` (examples.dfy): the boards of `tests.py`, stated on the `Checks` model.
  - `tests.py` calls `check_over_half` and expects `check_zero_one` to raise.
  - Only the `Board` of `versao_certa.py` and `fds.py` does both, so the tests are evidence for that
    class.

Conventions of the model:

- A Python exception is the `Raised` variant of `Outcome<T>`.
- A returned `None` is `Option.None`.
- An action `(row, col, val)` is `Action(row, col, val)`.
- `numpy.unique(..., return_counts=True)` followed by `(c == 1).all()` is modelled as "no line
  occurs twice". `Checks.CountsOfComplete` and `Takuzu.CountsAllOneIffDistinct` connect the two.

## Model

| member | source | states |
|---|---|---|
| Grid.SetCell | versao_certa.py:226-228 | the copy has the same shape, holds `val` at `(row, col)` and the parent's value in every other cell |
| Grid.GetNumber | versao_certa.py:45-47 | `board[row][col]` with Python's negative indices for the row and for the column; `IndexError` when either is out of range |
| Grid.AdjacentVertical | versao_certa.py:49-57 | `(below, above)` with `None` past the top or bottom edge for N ≥ 2; `IndexError` for N = 1 |
| Grid.AdjacentHorizontal | versao_certa.py:59-67 | `(left, right)` with `None` past the left or right edge for N ≥ 2; `IndexError` for N = 1 |
| Grid.TransposeTwice | versao_certa.py:151 | `zip(*board)` / `numpy.transpose` undone by itself: column i of the transpose is row i, and transposing twice gives the board back |
| Grid.Count | versao_certa.py:139-143 | the count dictionary entry of a value is at most the line length and is zero iff the value is absent |
| Problem.StateCounter.constructor | versao_certa.py:28 | the class counter starts at 0 |
| Problem.TakuzuState.constructor | versao_certa.py:30-33 | the new state takes the current counter value as its id and the counter goes up by one |
| Problem.TakuzuState.Less | versao_certa.py:35-36 | `__lt__` compares ids, so no state is below itself |
| Problem.LessIsStrict | versao_certa.py:35-36 | `__lt__` is a strict order: never both ways round, and transitive |
| Problem.CreationOrder | versao_certa.py:30-36 | of two states built in turn the first is `__lt__` the second and not the reverse, whatever their boards |
| Problem.SetCellSquare | versao_certa.py:226-228 | writing one in-range cell keeps an N×N board N×N |
| Problem.Result | versao_certa.py:221-229 | a fresh state whose board is the parent's with exactly `(row, col)` set to `val`; the counter goes up by one |
| Checks.RowsContaining | versao_certa.py:70 | the comprehension keeps exactly the rows that hold the value |
| Checks.Contains | versao_certa.py:69-70 | `v in board` iff some row holds `v` |
| Checks.CompleteLines | versao_certa.py:101-104 | `board_w` holds each line without a 2 as often as the board does, and no line with a 2 |
| Checks.TwiceIffTwoPositions | versao_certa.py:105-106 | a line has count ≥ 2 iff it sits at two different positions |
| Checks.CountsOfComplete | versao_certa.py:105-106 | all `unique` counts are 1 iff no two positions hold the same line without a 2 |
| Checks.CheckLines | versao_certa.py:100-106 | true iff no two different rows without a 2 are equal |
| Checks.CheckCols | versao_certa.py:109-116 | true iff no two different columns without a 2 are equal |
| Checks.CheckAdjacent | versao_certa.py:128-137 | true iff no row and no column has three consecutive equal values other than 2 |
| Checks.TallyLine | versao_certa.py:140-143 | the count loop yields the numbers of 0s and of 1s of the line |
| Checks.HalfBound | versao_certa.py:144-148 | the bound `len//2` (even) or `len//2 + 1` (odd) lies between N/2 and (N+1)/2 |
| Checks.ExceedsHalf | versao_certa.py:144-149 | the early-return test fires iff either count exceeds the bound |
| Checks.LinesWithinHalf | versao_certa.py:139-149 | the loop over a list of lines is true iff every line is within the bound |
| Checks.CheckOverHalf | versao_certa.py:138-163 | true iff every row and every column holds at most the bound of 0s and of 1s; 2s are not counted |
| Checks.ZeroOne | versao_certa.py:165-192 | rows first, then columns; the only exception it raises is `ValueError` |
| Checks.ZeroOneScan | versao_certa.py:165-192 | the only exception the scan can raise is `ValueError` |
| Checks.ScanTrue | versao_certa.py:165-192 | the scan answers True iff every line it visits is complete and balanced |
| Checks.ScanRaises | versao_certa.py:165-192 | the scan raises `ValueError` iff a line holding 2 comes with every earlier line complete and balanced |
| Checks.ScanFalse | versao_certa.py:165-192 | the scan answers False iff a complete unbalanced line comes with every earlier line complete and balanced |
| Checks.CompleteColumns | versao_certa.py:179-183 | on a board without 2s no column holds a 2 |
| Checks.BoardLines | versao_certa.py:166-179 | the lines visited are the N rows followed by the N columns |
| Checks.VisitedComplete | versao_certa.py:166-183 | on a board without 2s no visited line holds a 2 |
| Checks.GoodLinesOnComplete | versao_certa.py:166-190 | on a complete board every visited line passes iff every row and column is balanced |
| Checks.ZeroOneOnComplete | versao_certa.py:165-192 | on a complete board `check_zero_one` never raises and answers whether every row and column is balanced |
| Checks.ZeroOneNotTrueWhenIncomplete | versao_certa.py:169-170 | on a board holding a 2 `check_zero_one` never answers True |
| Checks.CountLine | versao_certa.py:167-172 | the count loop raises `ValueError` iff the line holds a 2, and otherwise yields its 0 and 1 counts |
| Checks.Unbalanced | versao_certa.py:173-177 | the parity test fires iff the line is not balanced |
| Checks.ScanLines | versao_certa.py:166-177 | the loop over a list of lines computes the scan |
| Checks.ScanAppend | versao_certa.py:165-192 | scanning rows then columns: the column scan runs only when the row scan answered True |
| Checks.CheckZeroOne | versao_certa.py:165-192 | the method computes the rows-then-columns scan of the board |
| Checks.FullBoard | versao_certa.py:203-207 | true iff no row holds a 2 |
| Checks.BalancedIsRule | versao_certa.py:173-177 | on a line of 0s and 1s the parity test is the puzzle's rule: equal counts for even N, counts one apart for odd N |
| Checks.SolvedBalanced | versao_certa.py:173-177 | every row and column of a solution passes the parity test |
| Checks.CountExtends | versao_certa.py:141-143 | filling in 2s never lowers the count of 0s or of 1s |
| Checks.CompleteLineExtends | versao_certa.py:103 | a line without 2s has only itself as a filling |
| Checks.ColumnExtends | versao_certa.py:151 | a column of a filled-in board fills in the column of the partial board |
| Checks.BalancedWithinHalf | versao_certa.py:144-149 | a balanced line of 0s and 1s is within the over-half bound |
| Checks.PartialWithinHalf | versao_certa.py:138-149 | a line that can be filled in to a balanced line is within the bound |
| Checks.OverHalfSound | versao_certa.py:138-163 | a board that can be filled in to a solution passes `check_over_half` |
| Checks.RunFreeSound | versao_certa.py:128-137 | a board that can be filled in to a solution passes `check_adjacent` |
| Checks.DistinctSound | versao_certa.py:100-106 | lines that can be filled in to pairwise different lines have no two equal complete ones |
| Checks.UniqueSound | versao_certa.py:100-116 | a board that can be filled in to a solution passes `check_lines` and `check_cols` |
| Checks.SolutionPasses | versao_certa.py:246-264 | a solution passes `check_over_half`, `check_adjacent`, `check_lines` and `check_cols` itself |
| Checks.SolvedZeroOne | versao_certa.py:165-192 | `check_zero_one` answers True on every solution |
| VersaoCerta.IndexOf | versao_certa.py:198 | `list.index`: the first position holding the value |
| VersaoCerta.LastRowWith | versao_certa.py:195-198 | the last row holding a 2, or none when no row does |
| VersaoCerta.Target | versao_certa.py:194-198 | none iff the board is full; otherwise a cell holding 2, the first 2 of its row, at the first row equal to the last row holding a 2 |
| VersaoCerta.GeneratePossibilities | versao_certa.py:194-201 | `UnboundLocalError` on a full board, else exactly `[(r,c,0),(r,c,1)]` for the target cell |
| VersaoCerta.TargetUsesFirstEqualRow | versao_certa.py:198 | with two equal rows the reported row is the first one, not the one scanned last |
| VersaoCerta.Legal | versao_certa.py:246-264 | the four checks on the result board; every write that completes a solution passes them |
| VersaoCerta.LegalOnly | versao_certa.py:268-272 | the in-order filter by the four checks never returns more actions than it was given |
| VersaoCerta.LegalOnlyMembers | versao_certa.py:268-272 | an action survives iff it was offered and its result board passes the four checks |
| VersaoCerta.LegalOnlyAppend | versao_certa.py:268-272 | the filter keeps the survivors of each part in their original order |
| VersaoCerta.AddIfFailed | versao_certa.py:249-264 | `temp += (action,)` after a failed check: temp holds only this action, and stays empty iff it was empty and the check passed |
| VersaoCerta.Copies | versao_certa.py:246-264 | a temp holding only copies of the action holds the action iff some check failed |
| VersaoCerta.Examine | versao_certa.py:246-264 | one pass adds to `temp` only this action, and only when some check on its result fails; one state is built |
| VersaoCerta.CollectIllegal | versao_certa.py:245-264 | after the first loop `temp` holds exactly the offered actions that fail a check; one state per action is built |
| VersaoCerta.KeepUnlisted | versao_certa.py:268-272 | the second loop keeps, in order, exactly the actions not in `temp`: the in-order filter by the four checks |
| VersaoCerta.PatchIllegal | versao_certa.py:242-272 | the result is the in-order filter of the actions by the four checks; one state per action is built |
| VersaoCerta.Actions | versao_certa.py:214-219 | `UnboundLocalError` without building a state on a full board, else the filtered pair of the target cell (two states built) |
| VersaoCerta.PruningSound | versao_certa.py:242-272 | an action whose result board can still be filled in to a solution is never removed |
| VersaoCerta.GoalTest | versao_certa.py:231-236 | the goal test holds iff no row holds a 2 |
| VersaoCerta.GoalIgnoresRules | versao_certa.py:236 | a full board of 1s is accepted though it is no solution |
| VersaoCerta.RenderRow | versao_certa.py:92-96 | the inner loop yields the row's cells joined with tabs and ended by a newline |
| VersaoCerta.RowSoFarInit | versao_certa.py:92-96 | before the cell at index len-1 the row text so far is each cell followed by a tab |
| VersaoCerta.RowSoFarAll | versao_certa.py:92-96 | after the last cell the row text is the cells joined by tabs and a newline |
| VersaoCerta.RowSoFarStep | versao_certa.py:93-96 | one more cell appends its text and a newline at index len-1, a tab elsewhere |
| VersaoCerta.RenderLines | versao_certa.py:90-96 | the outer loop yields every row's text followed by a newline |
| VersaoCerta.Render | versao_certa.py:89-97 | the string with the last character dropped is the rows joined with newlines |
| VersaoCerta.RenderNewlines | versao_certa.py:89-97 | the text of an N×N board holds N − 1 newlines |
| VersaoCerta.RenderTabs | versao_certa.py:89-97 | the text of an N×N board holds N·(N − 1) tabs |
| Fds.GeneratePossibilities | fds.py:226-229 | two actions per cell holding 2 (also takuzu.py:167-170) |
| Fds.RowHits | fds.py:227 | the 2s of one row in column order, one position per 2 |
| Fds.Hits | fds.py:227 | `argwhere(board == 2)`: exactly the positions holding 2, in row-major order |
| Fds.WriteAllMembers | fds.py:228 | an action is among the writes of one value iff it has that value and writes one of the positions |
| Fds.BothWrites | fds.py:228-229 | the 0-writes and then the 1-writes: two actions per position |
| Fds.BothHalves | fds.py:228-229 | action k writes 0 at position k and action N+k writes 1 at position k |
| Fds.ShapeOfWrites | fds.py:226-229 | of positions in row-major order: the first half writes 0, the second half repeats its cells with 1, both in row-major order |
| Fds.GenerateShape | fds.py:226-229 | twice as many actions as 2s; the second half repeats the cells of the first half with value 1, in row-major order |
| Fds.GenerateMember | fds.py:226-229 | an action is generated iff it writes 0 or 1 to an in-range cell holding 2 |
| Fds.WrittenFrom | fds.py:228-229 | every write in the list is a 0 or a 1 at one of the positions |
| Fds.WrittenTo | fds.py:228-229 | both writes of every position are in the list |
| Fds.GenerateMembers | fds.py:226-229 | the generated actions are exactly the 0/1 writes to cells holding 2 |
| Fds.GenerateEmpty | fds.py:226-229 | nothing is generated iff the board is full |
| Fds.GenerateDistinct | fds.py:226-229 | no action is generated twice |
| Fds.GeneratedInBounds | fds.py:226-229 | every generated action writes a cell that exists |
| Fds.PatchIllegal | fds.py:290-331 | the actions come back unchanged and in order; one state per action is still built |
| Fds.GoalTest | fds.py:259-282 | the goal test holds iff no row holds a 2 |
| Fds.Actions | fds.py:242-247 | the generated actions unchanged; two states built per 2 on the board |
| Fds.RenderRow | fds.py:105-106 | the inner loop yields every cell's text followed by a tab |
| Fds.Render | fds.py:102-108 | every row's text followed by a newline |
| Fds.RenderNewlines | fds.py:102-108 | the text holds exactly one newline per row |
| Fds.RenderTabs | fds.py:102-108 | the text of an N×N board holds N·N tabs |
| Takuzu.Contains | takuzu.py:69-70 | `x in board` iff `x` is a list equal to one of the rows |
| Takuzu.NeverContainsInt | takuzu.py:69-70 | an int is never in the board, so `2 in board` is always false |
| Takuzu.ContainsDiffers | takuzu.py:69-70 | a board with a 2 that this `__contains__` rejects and that of the other drafts accepts |
| Takuzu.CountsAllOneIffDistinct | takuzu.py:102-103 | every `unique` count is 1 iff the lines are pairwise different |
| Takuzu.CheckLines | takuzu.py:101-103 | true iff all rows are pairwise different, rows holding 2 included |
| Takuzu.CheckCols | takuzu.py:105-107 | true iff all columns are pairwise different, columns holding 2 included |
| Takuzu.CheckAdjacent | takuzu.py:118-128 | true iff no row has three consecutive equal values, 2 included; the second loop scans rows again, so columns are never checked |
| Takuzu.RescanRows | takuzu.py:124-127 | the second loop answers whether no row has three consecutive equal values: it indexes `board[col][line]`, a row |
| Takuzu.ColumnTripleUnnoticed | takuzu.py:124-127 | a column run of three 0s that the check lets through |
| Takuzu.ExactIffBalanced | takuzu.py:136-137 | on a line of 0s and 1s the exact test agrees with the balance test of the other drafts |
| Takuzu.BinaryComplete | takuzu.py:200 | a board of 0s and 1s holds no 2 |
| Takuzu.CheckZeroOne | takuzu.py:130-145 | true iff every row and every column meets the puzzle's rule on its 0s and 1s, the 2s left uncounted |
| Takuzu.ZeroOneAgrees | takuzu.py:130-145 | on a board of 0s and 1s `check_zero_one` answers as the raising version of the other drafts does |
| Takuzu.OddPartialFails | takuzu.py:137 | an odd line with a 2 fails the exact test though a filling of it passes |
| Takuzu.GoalTest | takuzu.py:195-202 | holds iff rows and columns are pairwise different, every line passes the exact test and no row has a run of three |
| Takuzu.GoalAcceptsSolved | takuzu.py:195-202 | every solution is a goal |
| Takuzu.SolvedColumnsDistinct | takuzu.py:105-107 | the columns of a solution are pairwise different |
| Takuzu.SolvedZeroOne | takuzu.py:130-145 | every line of a solution passes the exact test |
| Takuzu.SolvedNoRowTriple | takuzu.py:118-128 | no row of a solution has a run of three |
| Takuzu.GoalAcceptsIncomplete | takuzu.py:200-202 | a board still holding 2s that the goal test accepts |
| Takuzu.HalfFilledRows | takuzu.py:101-103 | the rows of that board are pairwise different |
| Takuzu.HalfFilledSymmetric | takuzu.py:106 | each column of that board is the row of the same index |
| Takuzu.HalfFilledColumns | takuzu.py:105-107 | the columns of that board are pairwise different |
| Takuzu.HalfFilledBalanced | takuzu.py:130-145 | every line of that board passes the exact test |
| Takuzu.HalfFilledRowBalanced | takuzu.py:136-138 | each row of that board passes the exact test |
| Takuzu.HalfFilledNoTriple | takuzu.py:118-128 | no row of that board has a run of three |
| Takuzu.Removable | takuzu.py:220 | `not` binds to `check_zero_one` alone; a removed write never leaves a solved board |
| Takuzu.RemovalPrunesSolvable | takuzu.py:220 | on the blank 2×2 board the write of 0 at (0, 0) is removed, though its board fills in to a solution |
| Takuzu.RemoveFirst | takuzu.py:222 | `list.remove` on an action that is in the list (absent, Python would raise `ValueError`; the loop only removes `cur[i]`): the result has one occurrence fewer of that action and nothing new |
| Takuzu.RemoveAfter | takuzu.py:222 | removing an action that first occurs right after a prefix drops exactly that position |
| Takuzu.DistinctDrop | takuzu.py:222 | dropping one position keeps a repeat-free list repeat-free |
| Takuzu.RemovalStep | takuzu.py:213-222 | at a removed action the loop goes on with the shortened list and the next index |
| Takuzu.KeepStep | takuzu.py:213-220 | at a kept action the loop goes on with the same list and the next index |
| Takuzu.Survivors | takuzu.py:213-225 | the loop over the shrinking list never adds an action: every survivor was in the list |
| Takuzu.SurvivorsSkip | takuzu.py:209-225 | on a repeat-free list the loop keeps the unremoved actions, and also the action right after each removal, unexamined |
| Takuzu.SurvivorsSkipAll | takuzu.py:209-225 | from the first index, on a repeat-free list, the loop keeps what the skip-after-removal reading keeps |
| Takuzu.SkipRemoved | takuzu.py:220-222 | the case of SurvivorsSkip where the next action is removed |
| Takuzu.RemovedLast | takuzu.py:220-222 | removing the last action of the list ends the loop with the prefix |
| Takuzu.SkipRemovedMore | takuzu.py:213-222 | after a removal the action that moved into the index is passed over unexamined |
| Takuzu.SkipKept | takuzu.py:220 | the case of SurvivorsSkip where the next action stays |
| Takuzu.RemovalSkipsNext | takuzu.py:213-222 | of two removable actions the second survives |
| Takuzu.SurvivorsKeep | takuzu.py:209-225 | the survivors are a sub-multiset of the input and every action that fails the removal test keeps all its occurrences |
| Takuzu.Examine | takuzu.py:214-220 | one pass builds one state and decides removal iff the result board fails `check_zero_one` but passes the three other checks |
| Takuzu.PatchIllegal | takuzu.py:209-225 | the list left by the mutating for loop; between \|res\| and \|res\| + 1 states are built |
| Takuzu.Actions | takuzu.py:177-182 | the survivors of the all-cells generator, as described by the skip-after-removal reading; between \|r\| and \|r\| + 1 states are built |
| TestBoards.TestIn | tests.py:5-10 | the mixed board holds 2, 1 and 0 |
| TestBoards.TestEqualRows | tests.py:12-14 | two equal complete rows fail `check_lines` |
| TestBoards.TestEqualCols | tests.py:16-18 | two equal complete columns fail `check_cols` |
| TestBoards.RepeatedColumn | tests.py:16-18 | two equal columns without a 2 make `check_cols` fail |
| TestBoards.TestMixedUnique | tests.py:20-22 | a board whose every line holds a 2 passes both uniqueness checks |
| TestBoards.Counts4 | tests.py:24-41 | the counts of a four-cell line, cell by cell |
| TestBoards.Counts5 | tests.py:61-79 | the counts of a five-cell line, cell by cell |
| TestBoards.TestOverRow | tests.py:25-27 | a row of four 1s fails `check_over_half` |
| TestBoards.TestOverCol | tests.py:28-30 | a column with three 1s fails `check_over_half` |
| TestBoards.LinesOf4 | tests.py:31-54 | a property of the eight lines of a 4×4 board holds of every row and column |
| TestBoards.WithinFour | tests.py:31-41 | a four-cell line with at most two 0s and two 1s is within the bound |
| TestBoards.WithinAllFour | tests.py:31-41 | a 4×4 board whose eight lines each hold at most two 0s and two 1s passes `check_over_half` |
| TestBoards.TestBlocks | tests.py:31-35 | the 2×2 block board passes `check_over_half` |
| TestBoards.TestBlankCol | tests.py:36-38 | a board with a column of 2s passes `check_over_half` |
| TestBoards.TestBlankRow | tests.py:39-41 | a board with a row of 2s passes `check_over_half` |
| TestBoards.FirstRowDecides | tests.py:43-59 | the scan stops at the first row: False when it is complete and unbalanced, `ValueError` when it holds a 2 |
| TestBoards.TestZeroOneRow | tests.py:44-46 | False at an unbalanced first row, before the 2s further down are reached |
| TestBoards.BalancedFour | tests.py:47-54 | a four-cell line is balanced iff it holds as many 0s as 1s |
| TestBoards.BalancedAllFour | tests.py:50-54 | every line of a 4×4 board whose eight lines split evenly is balanced |
| TestBoards.TestZeroOneStripes | tests.py:47-49 | balanced rows with an unbalanced column give False |
| TestBoards.TestZeroOneChecker | tests.py:50-54 | the checkerboard gives True |
| TestBoards.TestZeroOneHole | tests.py:55-59 | a 2 in the first row raises `ValueError` |
| TestBoards.LinesOf5 | tests.py:68-73 | a property of the ten lines of a 5×5 board holds of every row and column |
| TestBoards.BalancedFive | tests.py:61-79 | a five-cell line is balanced iff its 0s and 1s differ by at most one |
| TestBoards.BalancedAllFive | tests.py:68-73 | every line of a 5×5 board whose ten lines split nearly evenly is balanced |
| TestBoards.TestZeroOneOddRow | tests.py:62-64 | an odd board whose first row is unbalanced gives False |
| TestBoards.TestZeroOneOddFull | tests.py:68-73 | a complete 5×5 board whose lines differ by one gives True |
| TestBoards.TestZeroOneOddHole | tests.py:74-79 | a 2 in the first row of an odd board raises `ValueError` |

The `TakuzuState` class, `get_number` and the adjacency lookups are the same code in the other two
drafts (fds.py:27-67, takuzu.py:25-67) up to the `-> (int, int)` return annotations on the adjacency
lookups and a TODO comment in takuzu.py's `TakuzuState` (takuzu.py:36), and so does the one-cell `result` of takuzu.py:184-193. The
`result` of fds.py:249-257 has the same meaning: it copies the grid with `numpy.copy` (fds.py:255)
instead of `deepcopy`, which for a grid of integers makes the same fresh copy. So one member models
all three copies. `Takuzu.Actions` uses `Fds.GeneratePossibilities` for
takuzu.py:167-170, which is the same comprehension as fds.py:226-229. `Checks` models the checks of
fds.py:111-206, the same text as versao_certa.py:100-192. The `__str__` of takuzu.py:92-98 is that
of fds.py:102-108 (`Fds.Render`).

## Left out

- `parse_instance_from_stdin` (all three files): reads standard input and relies on `int()` and
  `str.split`. No input parsing is modelled.
- `print` calls and the `__main__` blocks: output and the entry point are not modelled.
- The `search` module (`depth_first_tree_search` and the rest), `Problem` and `Node`: an external
  framework whose source is not part of this model.
- `Takuzu.h`: an unimplemented placeholder that returns `None`.
- `check_row_and_col`: never called in any of the three files. In versao_certa.py:118 and fds.py:129
  its authors mark it wrong; in takuzu.py:109 it is unmarked, and only a commented-out line mentions it.
- `check_adjacent_v2` (fds.py:69-79): it prints, compares neighbours with the loop index, and is
  only referenced in commented-out code.
- `check_zero_one_v2` (fds.py:208-224): unused. Its meaning depends on whether rows are lists or
  numpy arrays.
- `check_zero_one_part` (takuzu.py:147-165): unused, and it fails on `row.size` for an int.
- numpy internals: only the mathematical meaning of `unique`, `argwhere`, `transpose`, `matrix` and
  `copy` is modelled, on integer sequences.
- Boards that are not square: the checks require an N×N board, so the 5×4 board of tests.py:65-67
  is not modelled.
- Takuzu.CheckCols and Takuzu.GoalTest: they require N ≥ 1. `numpy.unique` with `axis=1` fails on
  an empty board, and that failure is not modelled.
- Problem.Result, VersaoCerta.PatchIllegal, Fds.PatchIllegal and Takuzu.PatchIllegal: they require
  every action to write an existing cell. Out-of-range actions, and Python's negative indices inside
  `result`, are not modelled. Every generator here only produces in-range actions
  (`Fds.GeneratedInBounds`, `VersaoCerta.Target`).
- Aliasing: boards are values. "The parent board is left unchanged" holds because `result` builds a
  new sequence, not because of a deep copy.
- Takuzu.PatchIllegal and Takuzu.Actions: the number of states they build is stated only as lying
  between the survivor count and one more. That count equals the number of loop iterations, which the contract does not
  name.
- Takuzu.Actions: it is stated through the skip-after-removal reading (`Skip`), which needs a list
  without repeats. For a general list, the index-over-a-shrinking-list semantics
  (`Survivors`, `SurvivorsKeep`) is stated instead.
- Integer width: board values and indices are unbounded integers. The drafts only ever hold 0, 1 and
  2, so no overflow arises.
