/** The draft takuzu.py: whole-board uniqueness checks, a check_adjacent
    that only reads rows, an exact check_zero_one that never raises, and a
    patch_illegal that removes from the list it is iterating over. */
module Takuzu {
  import opened Grid
  import Checks
  import opened Problem
  import Fds

  // ---------------------------------------------------------------------
  // __contains__

  /** What `number in self.board` can be handed: an int or a list of ints. */
  datatype PyValue = PyInt(i: int) | PyList(items: seq<int>)

  /** Board.__contains__: `x in self.board` on a tuple of rows compares x with whole rows,
      and an int never equals a list. */
  function Contains(b: Board, x: PyValue): (r: bool)
    ensures r <==> x.PyList? && exists i :: 0 <= i < |b| && b[i] == x.items
  {
    match x
    case PyInt(_) => false
    case PyList(items) => items in b
  }

  /** The test `2 in board` of goal_test never holds, whatever the board. */
  lemma NeverContainsInt(b: Board, v: int)
    ensures !Contains(b, PyInt(v))
  {
  }

  /** ... while the row-wise __contains__ of the other drafts finds the same 2. */
  lemma ContainsDiffers()
    ensures !Contains([[2, 1], [1, 0]], PyInt(Undetermined))
    ensures Checks.Contains([[2, 1], [1, 0]], Undetermined)
  {
    var b := [[2, 1], [1, 0]];
    assert Undetermined in b[0];
  }

  // ---------------------------------------------------------------------
  // check_lines and check_cols

  /** All counts of numpy.unique are one exactly when no line repeats. */
  lemma CountsAllOneIffDistinct(lines: seq<seq<int>>)
    ensures Checks.CountsAllOne(lines) <==> Distinct(lines)
  {
    if !Distinct(lines) {
      var i, j :| 0 <= i < |lines| && 0 <= j < |lines| && i != j && lines[i] == lines[j];
      var x := lines[i];
      if i < j {
        assert lines[i] == x && lines[j] == x;
      } else {
        assert lines[j] == x && lines[i] == x;
      }
      Checks.TwiceIffTwoPositions(lines, x);
      assert x in multiset(lines);
    }
    if !Checks.CountsAllOne(lines) {
      var x :| x in multiset(lines) && multiset(lines)[x] != 1;
      Checks.TwiceIffTwoPositions(lines, x);
      var i, j :| 0 <= i < j < |lines| && lines[i] == x && lines[j] == x;
      assert !Distinct(lines);
    }
  }

  /** Board.check_lines: numpy.unique over the rows, all counts one. */
  function CheckLines(b: Board): (r: bool)
    ensures r <==> Distinct(b)
  {
    CountsAllOneIffDistinct(b);
    Checks.CountsAllOne(b)
  }

  /** The columns are pairwise different. */
  predicate ColumnsDistinct(b: Board)
    requires Square(b)
  {
    forall j, k :: 0 <= j < |b| && 0 <= k < |b| && j != k ==> Column(b, j) != Column(b, k)
  }

  /** Board.check_cols: numpy.unique over axis 1, all counts one. An empty board has no
      axis 1, so N >= 1. */
  function CheckCols(b: Board): (r: bool)
    requires Square(b) && |b| >= 1
    ensures r <==> ColumnsDistinct(b)
  {
    var t := Transpose(b);
    CountsAllOneIffDistinct(t);
    Checks.CountsAllOne(t)
  }

  // ---------------------------------------------------------------------
  // check_adjacent

  /** Row i holds three equal values from column j on; a 2 counts as a value. */
  predicate RowTriple(b: Board, i: int, j: int)
    requires Square(b) && 0 <= i < |b| && 0 <= j && j + 2 < |b|
  {
    b[i][j] == b[i][j + 1] == b[i][j + 2]
  }

  /** No row holds three equal consecutive values. */
  predicate NoRowTriple(b: Board)
    requires Square(b)
  {
    forall i, j :: 0 <= i < |b| && 0 <= j && j + 2 < |b| ==> !RowTriple(b, i, j)
  }

  /** Board.check_adjacent: the first loop scans the rows; the second indexes
      board[col][line], board[col][line + 1], board[col][line + 2] and so rescans them. */
  method CheckAdjacent(b: Board) returns (ok: bool)
    requires Square(b)
    ensures ok == NoRowTriple(b)
  {
    var n := |b|;
    var r := 0;
    while r < n
      invariant 0 <= r <= n
      invariant forall i, j :: 0 <= i < r && 0 <= j && j + 2 < n ==> !RowTriple(b, i, j)
    {
      var line := b[r];
      var i := 0;
      while i < n - 2
        invariant 0 <= i && (2 <= n ==> i <= n - 2)
        invariant forall i', j :: 0 <= i' < r && 0 <= j && j + 2 < n ==> !RowTriple(b, i', j)
        invariant forall j :: 0 <= j < i && j + 2 < n ==> !RowTriple(b, r, j)
      {
        if line[i] == line[i + 1] == line[i + 2] {
          assert RowTriple(b, r, i);
          return false;
        }
        i := i + 1;
      }
      r := r + 1;
    }
    ok := RescanRows(b);
  }

  /** The second loop of check_adjacent: board[col][line..line + 2] for every line and col,
      which is the row test again with the loops swapped. */
  method RescanRows(b: Board) returns (ok: bool)
    requires Square(b)
    ensures ok == NoRowTriple(b)
  {
    var n := |b|;
    var line := 0;
    while line < n - 2
      invariant 0 <= line && (2 <= n ==> line <= n - 2)
      invariant forall i, j :: 0 <= i < n && 0 <= j < line && j + 2 < n ==> !RowTriple(b, i, j)
    {
      var col := 0;
      while col < n
        invariant 0 <= col <= n
        invariant forall i, j :: 0 <= i < n && 0 <= j < line && j + 2 < n ==> !RowTriple(b, i, j)
        invariant forall i :: 0 <= i < col ==> !RowTriple(b, i, line)
      {
        if b[col][line] == b[col][line + 1] == b[col][line + 2] {
          assert RowTriple(b, col, line);
          return false;
        }
        col := col + 1;
      }
      line := line + 1;
    }
    return true;
  }

  /** A column of three equal values goes unnoticed. */
  lemma ColumnTripleUnnoticed()
    ensures NoRowTriple([[0, 1, 0], [0, 1, 1], [0, 0, 1]])
    ensures Checks.ColRun([[0, 1, 0], [0, 1, 1], [0, 0, 1]], 0, 0)
  {
  }

  // ---------------------------------------------------------------------
  // check_zero_one

  /** n = board[0].size: the length of the first row. */
  function Width(b: Board): nat
  {
    if b == [] then 0 else |b[0]|
  }

  /** The test of check_zero_one on one line: as many 0s as 1s for even n, one more of either
      for odd n; 2s are not counted. */
  predicate ExactBalanced(line: seq<int>, n: int)
  {
    var zeros, ones := Count(line, 0), Count(line, 1);
    !((n % 2 == 0 && zeros != ones) || (n % 2 != 0 && Checks.Abs(zeros - ones) != 1))
  }

  /** The exact test is the puzzle's balance rule, whatever the line holds besides 0s and 1s. */
  lemma ExactIsRule(n: int)
    ensures forall line :: ExactBalanced(line, n) <==> Checks.EvenlyFilled(line, n)
  {
  }

  /** Board.check_zero_one: every row and every column passes the exact test. */
  predicate CheckZeroOne(b: Board)
    requires Square(b)
    ensures CheckZeroOne(b) <==>
              forall i :: 0 <= i < |b| ==> Checks.EvenlyFilled(b[i], |b|) && Checks.EvenlyFilled(Column(b, i), |b|)
  {
    ExactIsRule(|b|);
    assert b != [] ==> |b[0]| == |b|;
    forall i :: 0 <= i < |b| ==> ExactBalanced(b[i], Width(b)) && ExactBalanced(Column(b, i), Width(b))
  }

  /** On a line of 0s and 1s of length n the exact test and the balance test of the other
      drafts agree. */
  lemma ExactIffBalanced(line: seq<int>, n: int)
    requires |line| == n
    requires forall k :: 0 <= k < |line| ==> line[k] == 0 || line[k] == 1
    ensures ExactBalanced(line, n) <==> Checks.Balanced(line, n)
  {
    BinaryCounts(line);
  }

  /** Cells of 0 and 1 only leave no undetermined cell. */
  lemma BinaryComplete(b: Board)
    requires Binary(b)
    ensures Complete(b)
  {
    forall i | 0 <= i < |b| ensures Undetermined !in b[i] {
      assert forall k :: 0 <= k < |b[i]| ==> b[i][k] != Undetermined;
    }
  }

  /** On a board of 0s and 1s check_zero_one answers as the raising check_zero_one of the
      other drafts does. */
  lemma ZeroOneAgrees(b: Board)
    requires Square(b) && Binary(b)
    ensures CheckZeroOne(b) <==> Checks.ZeroOne(b) == Ok(true)
  {
    BinaryComplete(b);
    Checks.ZeroOneOnComplete(b);
    forall i | 0 <= i < |b|
      ensures ExactBalanced(b[i], Width(b)) <==> Checks.Balanced(b[i], |b|)
      ensures ExactBalanced(Column(b, i), Width(b)) <==> Checks.Balanced(Column(b, i), |b|)
    {
      ExactIffBalanced(b[i], |b|);
      ExactIffBalanced(Column(b, i), |b|);
    }
  }

  /** An odd line with a 0, a 1 and a 2 fails the exact test though it can still be filled
      in to a balanced line: the check is not a pruning test. */
  lemma OddPartialFails()
    ensures !ExactBalanced([0, 1, 2], 3)
    ensures ExactBalanced([0, 1, 0], 3)
  {
    assert Count([0, 1, 2], 0) == 1 && Count([0, 1, 2], 1) == 1 by {
      assert [0, 1, 2][..2] == [0, 1] && [0, 1][..1] == [0] && [0][..0] == [];
    }
    assert Count([0, 1, 0], 0) == 2 && Count([0, 1, 0], 1) == 1 by {
      assert [0, 1, 0][..2] == [0, 1] && [0, 1][..1] == [0] && [0][..0] == [];
    }
  }

  // ---------------------------------------------------------------------
  // goal_test

  /** Takuzu.goal_test: the `2 in board` gate, then check_lines, check_cols, check_zero_one
      and check_adjacent. */
  method GoalTest(state: TakuzuState) returns (r: bool)
    requires Square(state.board) && |state.board| >= 1
    ensures r <==> Distinct(state.board) && ColumnsDistinct(state.board) &&
                   CheckZeroOne(state.board) && NoRowTriple(state.board)
  {
    var board := state.board;
    if Contains(board, PyInt(Undetermined)) {
      return false;
    }
    if !(CheckLines(board) && CheckCols(board) && CheckZeroOne(board)) {
      return false;
    }
    r := CheckAdjacent(board);
  }

  /** Every solved board is a goal. */
  lemma GoalAcceptsSolved(c: Board)
    requires Checks.Solved(c)
    ensures Distinct(c) && ColumnsDistinct(c) && CheckZeroOne(c) && NoRowTriple(c)
  {
    SolvedColumnsDistinct(c);
    SolvedZeroOne(c);
    SolvedNoRowTriple(c);
  }

  /** The distinct columns of a solution are distinct rows of its transpose. */
  lemma SolvedColumnsDistinct(c: Board)
    requires Checks.Solved(c)
    ensures ColumnsDistinct(c)
  {
    var t := Transpose(c);
    forall j, k | 0 <= j < |c| && 0 <= k < |c| && j != k ensures Column(c, j) != Column(c, k) {
      assert t[j] != t[k];
    }
  }

  /** Every line of a solution passes the exact test of check_zero_one. */
  lemma SolvedZeroOne(c: Board)
    requires Checks.Solved(c)
    ensures CheckZeroOne(c)
  {
  }

  /** A solution has no three equal cells in a row. */
  lemma SolvedNoRowTriple(c: Board)
    requires Checks.Solved(c)
    ensures NoRowTriple(c)
  {
    forall i, j | 0 <= i < |c| && 0 <= j && j + 2 < |c| ensures !RowTriple(c, i, j) {
      assert !Checks.RowRun(c, i, j);
    }
  }

  /** A symmetric 4x4 board whose lower right corner is still undetermined. */
  function HalfFilled(): Board {
    [[0, 1, 0, 1], [1, 0, 1, 0], [0, 1, 2, 2], [1, 0, 2, 2]]
  }

  /** The gate never fires, so a board that still holds 2s can be a goal. */
  lemma GoalAcceptsIncomplete()
    ensures Square(HalfFilled()) && !Complete(HalfFilled())
    ensures Distinct(HalfFilled()) && ColumnsDistinct(HalfFilled())
    ensures CheckZeroOne(HalfFilled()) && NoRowTriple(HalfFilled())
  {
    assert Undetermined in HalfFilled()[2];
    HalfFilledRows();
    HalfFilledColumns();
    HalfFilledBalanced();
    HalfFilledNoTriple();
  }

  /** The rows of HalfFilled are pairwise different. */
  lemma HalfFilledRows()
    ensures Distinct(HalfFilled())
  {
    var b := HalfFilled();
    forall i, j | 0 <= i < 4 && 0 <= j < 4 && i != j ensures b[i] != b[j] {
      assert b[i][0] != b[j][0] || b[i][2] != b[j][2];
    }
  }

  /** Each column of HalfFilled is the row of the same index. */
  lemma HalfFilledSymmetric()
    ensures Square(HalfFilled())
    ensures forall i :: 0 <= i < 4 ==> Column(HalfFilled(), i) == HalfFilled()[i]
  {
    var b := HalfFilled();
    assert Column(b, 0) == b[0];
    assert Column(b, 1) == b[1];
    assert Column(b, 2) == b[2];
    assert Column(b, 3) == b[3];
  }

  /** The columns of HalfFilled are pairwise different. */
  lemma HalfFilledColumns()
    ensures Square(HalfFilled()) && ColumnsDistinct(HalfFilled())
  {
    HalfFilledSymmetric();
    HalfFilledRows();
  }

  /** Every row and column of HalfFilled passes the exact test. */
  lemma HalfFilledBalanced()
    ensures Square(HalfFilled()) && CheckZeroOne(HalfFilled())
  {
    HalfFilledSymmetric();
    forall i | 0 <= i < 4 ensures ExactBalanced(HalfFilled()[i], 4) {
      HalfFilledRowBalanced(i);
    }
  }

  /** Row i of HalfFilled holds two 0s and two 1s, or one of each. */
  lemma HalfFilledRowBalanced(i: int)
    requires 0 <= i < 4
    ensures ExactBalanced(HalfFilled()[i], 4)
  {
    var r := HalfFilled()[i];
    CountOfFour(r[0], r[1], r[2], r[3], 0);
    CountOfFour(r[0], r[1], r[2], r[3], 1);
    assert r == [r[0], r[1], r[2], r[3]];
  }

  /** No row of HalfFilled holds three equal cells in a row. */
  lemma HalfFilledNoTriple()
    ensures Square(HalfFilled()) && NoRowTriple(HalfFilled())
  {
    var b := HalfFilled();
    forall i, j | 0 <= i < 4 && 0 <= j && j + 2 < 4 ensures !RowTriple(b, i, j) {
      assert b[i][j + 1] != b[i][j] || b[i][j + 2] != b[i][j + 1];
    }
  }

  // ---------------------------------------------------------------------
  // patch_illegal

  /** The condition under which patch_illegal removes an action: `not` binds to
      check_zero_one alone. */
  predicate Removable(b: Board, a: Action)
    requires Square(b)
    ensures Removable(b, a) ==> InBounds(b, a) && !Checks.Solved(SetCell(b, a.row, a.col, a.val))
  {
    InBounds(b, a) &&
    var c := SetCell(b, a.row, a.col, a.val);
    !CheckZeroOne(c) && CheckLines(c) && CheckCols(c) && NoRowTriple(c)
  }

  /** The blank 2x2 board. */
  function Blank(): Board {
    [[2, 2], [2, 2]]
  }

  /** The blank 2x2 board after writing 0 at (0, 0). */
  function FirstWrite(): Board {
    [[0, 2], [2, 2]]
  }

  /** The 2x2 board with 0s on the diagonal. */
  function Diagonal(): Board {
    [[0, 1], [1, 0]]
  }

  /** Because the test asks for a failing check_zero_one, it removes writes that lead to a
      solution: on the blank 2x2 board the write of 0 at (0, 0) is removed, although the
      board it makes fills in to a solved board. */
  lemma RemovalPrunesSolvable()
    ensures Removable(Blank(), Action(0, 0, 0))
    ensures Checks.Solved(Diagonal()) && Checks.Extends(Diagonal(), SetCell(Blank(), 0, 0, 0))
  {
    BlankWriteRemoved();
    DiagonalSolved();
  }

  /** On the blank 2x2 board the write of 0 at (0, 0) passes every check but check_zero_one. */
  lemma BlankWriteRemoved()
    ensures SetCell(Blank(), 0, 0, 0) == FirstWrite()
    ensures Removable(Blank(), Action(0, 0, 0))
  {
    var b, d := Blank(), FirstWrite();
    assert b[0][0 := 0] == d[0];
    assert SetCell(b, 0, 0, 0) == d;
    FirstWriteUnbalanced();
    FirstWriteDistinct();
  }

  /** The first row of the board of the first write holds one 0 and no 1. */
  lemma FirstWriteUnbalanced()
    ensures !CheckZeroOne(FirstWrite())
  {
    var d := FirstWrite();
    assert d[0][..1] == [0] && [0][..0] == [];
    assert Checks.EvenlyFilled(d[0], 2) ==> Count(d[0], 0) == Count(d[0], 1);
  }

  /** The rows and the columns of the board of the first write differ. */
  lemma FirstWriteDistinct()
    ensures CheckLines(FirstWrite()) && CheckCols(FirstWrite()) && NoRowTriple(FirstWrite())
  {
    var d := FirstWrite();
    assert Column(d, 0) == d[0] && Column(d, 1) == d[1];
  }

  /** The diagonal board is solved and fills in the board of the first write. */
  lemma DiagonalSolved()
    ensures Checks.Solved(Diagonal()) && Checks.Extends(Diagonal(), FirstWrite())
  {
    var c, d := Diagonal(), FirstWrite();
    DiagonalLines();
    assert Checks.LineExtends(c[0], d[0]) && Checks.LineExtends(c[1], d[1]);
  }

  /** Every line of the diagonal board holds one 0 and one 1, and the lines differ. */
  lemma DiagonalLines()
    ensures var c := Diagonal();
      && Binary(c) && Checks.RunFree(c) && Distinct(c) && Distinct(Transpose(c))
      && forall i :: 0 <= i < |c| ==> Checks.EvenlyFilled(c[i], |c|) && Checks.EvenlyFilled(Column(c, i), |c|)
  {
    var c := Diagonal();
    assert Column(c, 0) == c[0] && Column(c, 1) == c[1];
    assert Transpose(c) == c;
    assert c[1][..1] == [1] && c[0][..1] == [0] && [1][..0] == [];
  }

  /** The removal test of patch_illegal on the board b, as a predicate on actions. */
  function RemovalTest(b: Board): Action -> bool
  {
    a => Square(b) && Removable(b, a)
  }

  /** list.remove(x): drop the first occurrence of x. */
  function RemoveFirst(s: seq<Action>, x: Action): (r: seq<Action>)
    requires x in s
    ensures |r| == |s| - 1 && multiset(r) == multiset(s) - multiset{x}
    ensures forall y :: y in r ==> y in s
  {
    assert s == [s[0]] + s[1..];
    if s[0] == x then s[1..]
    else
      var rest := RemoveFirst(s[1..], x);
      assert forall y :: y in rest ==> y in s[1..];
      [s[0]] + rest
  }

  /** The list left by the for loop of patch_illegal once it has reached index i of cur:
      the loop stops when i passes the end of the current list, and a removal shifts the
      elements after it one place left under the advancing index. */
  function Survivors(removes: Action -> bool, cur: seq<Action>, i: nat): (r: seq<Action>)
    ensures forall x :: x in r ==> x in cur
    decreases |cur| - i
  {
    if i >= |cur| then cur
    else if removes(cur[i]) then Survivors(removes, RemoveFirst(cur, cur[i]), i + 1)
    else Survivors(removes, cur, i + 1)
  }

  /** The reference reading of the loop on a list without repeats: a removable action is
      dropped and the action right after it is kept without being examined. */
  function Skip(removes: Action -> bool, s: seq<Action>): seq<Action>
    decreases |s|
  {
    if s == [] then []
    else if removes(s[0]) then (if |s| == 1 then [] else [s[1]] + Skip(removes, s[2..]))
    else [s[0]] + Skip(removes, s[1..])
  }

  /** Removing a value that first occurs right after p. */
  lemma {:induction false} RemoveAfter(p: seq<Action>, s: seq<Action>)
    requires s != [] && s[0] !in p
    ensures RemoveFirst(p + s, s[0]) == p + s[1..]
  {
    if p != [] {
      assert (p + s)[0] == p[0] && (p + s)[1..] == p[1..] + s;
      RemoveAfter(p[1..], s);
    }
  }

  /** Dropping the element right after p keeps a list free of repeats. */
  lemma DistinctDrop(p: seq<Action>, s: seq<Action>)
    requires s != [] && Distinct(p + s)
    ensures Distinct(p + s[1..])
  {
    var u, v := p + s[1..], p + s;
    forall i, j | 0 <= i < |u| && 0 <= j < |u| && i != j ensures u[i] != u[j] {
      var i', j' := if i < |p| then i else i + 1, if j < |p| then j else j + 1;
      assert u[i] == v[i'] && u[j] == v[j'];
    }
  }

  /** The loop at a removable action that first occurs at index |p|. */
  lemma RemovalStep(removes: Action -> bool, p: seq<Action>, s: seq<Action>)
    requires s != [] && Distinct(p + s) && removes(s[0])
    ensures Survivors(removes, p + s, |p|) == Survivors(removes, p + s[1..], |p| + 1)
  {
    assert (p + s)[|p|] == s[0];
    forall k | 0 <= k < |p| ensures p[k] != s[0] {
      assert (p + s)[k] == p[k];
    }
    RemoveAfter(p, s);
  }

  /** The loop at an action that stays. */
  lemma KeepStep(removes: Action -> bool, p: seq<Action>, s: seq<Action>)
    requires s != [] && !removes(s[0])
    ensures Survivors(removes, p + s, |p|) == Survivors(removes, p + s, |p| + 1)
  {
    assert (p + s)[|p|] == s[0];
  }

  /** On a list without repeats the loop keeps exactly what Skip keeps. */
  lemma {:induction false} SurvivorsSkip(removes: Action -> bool, p: seq<Action>, s: seq<Action>)
    requires Distinct(p + s)
    ensures Survivors(removes, p + s, |p|) == p + Skip(removes, s)
    decreases |s|, 2
  {
    if s == [] {
      assert p + s == p;
    } else if removes(s[0]) {
      SkipRemoved(removes, p, s);
    } else {
      SkipKept(removes, p, s);
    }
  }

  /** The whole loop, from the first index, on a list without repeats. */
  lemma SurvivorsSkipAll(removes: Action -> bool, s: seq<Action>)
    requires Distinct(s)
    ensures Survivors(removes, s, 0) == Skip(removes, s)
  {
    assert [] + s == s;
    SurvivorsSkip(removes, [], s);
  }

  /** SurvivorsSkip when the first action of s is removed. */
  lemma {:induction false} SkipRemoved(removes: Action -> bool, p: seq<Action>, s: seq<Action>)
    requires Distinct(p + s) && s != [] && removes(s[0])
    ensures Survivors(removes, p + s, |p|) == p + Skip(removes, s)
    decreases |s|, 1
  {
    RemovalStep(removes, p, s);
    if |s| == 1 {
      RemovedLast(removes, p, s);
    } else {
      DistinctDrop(p, s);
      SkipRemovedMore(removes, p, s);
    }
  }

  /** The removed action is the last one: the loop stops right after it. */
  lemma RemovedLast(removes: Action -> bool, p: seq<Action>, s: seq<Action>)
    requires |s| == 1 && removes(s[0])
    ensures Survivors(removes, p + s[1..], |p| + 1) == p + Skip(removes, s)
  {
    assert p + s[1..] == p;
  }

  /** The removed action has a successor: that successor is kept unexamined. */
  lemma {:induction false} SkipRemovedMore(removes: Action -> bool, p: seq<Action>, s: seq<Action>)
    requires |s| >= 2 && Distinct(p + s[1..]) && removes(s[0])
    ensures Survivors(removes, p + s[1..], |p| + 1) == p + Skip(removes, s)
    decreases |s|, 0
  {
    var p', rest := p + [s[1]], s[2..];
    assert p + s[1..] == p' + rest;
    SurvivorsSkip(removes, p', rest);
    assert p' + Skip(removes, rest) == p + ([s[1]] + Skip(removes, rest));
  }

  /** SurvivorsSkip when the first action of s stays. */
  lemma {:induction false} SkipKept(removes: Action -> bool, p: seq<Action>, s: seq<Action>)
    requires Distinct(p + s) && s != [] && !removes(s[0])
    ensures Survivors(removes, p + s, |p|) == p + Skip(removes, s)
    decreases |s|, 0
  {
    KeepStep(removes, p, s);
    var p', rest := p + [s[0]], s[1..];
    assert p + s == p' + rest;
    assert |p'| == |p| + 1;
    SurvivorsSkip(removes, p', rest);
    assert Skip(removes, s) == [s[0]] + Skip(removes, rest);
    assert p' + Skip(removes, rest) == p + ([s[0]] + Skip(removes, rest));
  }

  /** A removal hides the next action from the test: of two removable actions the second
      survives. */
  lemma RemovalSkipsNext(removes: Action -> bool, x: Action, y: Action)
    requires x != y && removes(x) && removes(y)
    ensures Survivors(removes, [x, y], 0) == [y]
  {
    assert RemoveFirst([x, y], x) == [y];
  }

  /** The loop only removes removable actions: it keeps a sub-multiset of its input and
      every occurrence of an action that is not removable. */
  lemma {:induction false} SurvivorsKeep(removes: Action -> bool, cur: seq<Action>, i: nat)
    ensures multiset(Survivors(removes, cur, i)) <= multiset(cur)
    ensures forall x :: !removes(x) ==> multiset(Survivors(removes, cur, i))[x] == multiset(cur)[x]
    decreases |cur| - i
  {
    if i < |cur| {
      if removes(cur[i]) {
        assert cur[i] in cur;
        SurvivorsKeep(removes, RemoveFirst(cur, cur[i]), i + 1);
      } else {
        SurvivorsKeep(removes, cur, i + 1);
      }
    }
  }

  /** One pass of the loop of patch_illegal: the child state and the removal test. */
  method Examine(state: TakuzuState, action: Action, counter: StateCounter) returns (remove: bool)
    requires Square(state.board) && InBounds(state.board, action)
    modifies counter
    ensures remove == Removable(state.board, action)
    ensures counter.stateId == old(counter.stateId) + 1
  {
    var res := Result(state, action, counter);
    var boardRes := res.board;
    assert Square(boardRes);
    remove := false;
    if !CheckZeroOne(boardRes) && CheckLines(boardRes) && CheckCols(boardRes) {
      remove := CheckAdjacent(boardRes);
    }
  }

  /** Takuzu.patch_illegal: `for action in arr` with `arr.remove(action)` in the body, run
      as an index over the shrinking list. One child state is built per examined action. */
  method PatchIllegal(state: TakuzuState, arr: seq<Action>, counter: StateCounter) returns (res: seq<Action>)
    requires Square(state.board) && AllInBounds(state.board, arr)
    modifies counter
    ensures res == Survivors(RemovalTest(state.board), arr, 0)
    ensures |res| <= counter.stateId - old(counter.stateId) <= |res| + 1
  {
    var b := state.board;
    ghost var removes := RemovalTest(b);
    var cur := arr;
    var i := 0;
    while i < |cur|
      invariant 0 <= i <= |cur| + 1
      invariant AllInBounds(b, cur)
      invariant Survivors(removes, cur, i) == Survivors(removes, arr, 0)
      invariant counter.stateId == old(counter.stateId) + i
      decreases |cur| - i
    {
      var action := cur[i];
      var remove := Examine(state, action, counter);
      assert removes(action) == remove;
      if remove {
        assert action in cur;
        assert Survivors(removes, cur, i) == Survivors(removes, RemoveFirst(cur, action), i + 1);
        cur := RemoveFirst(cur, action);
        assert forall k :: 0 <= k < |cur| ==> cur[k] in cur;
      }
      i := i + 1;
    }
    res := cur;
  }

  /** Takuzu.actions: the writes of fds.py's generate_possibilities (the same text) that
      survive the loop; the generated list has no repeats, so Skip describes them. */
  method Actions(state: TakuzuState, counter: StateCounter) returns (r: seq<Action>)
    requires Square(state.board)
    modifies counter
    ensures r == Skip(RemovalTest(state.board), Fds.GeneratePossibilities(state.board))
    ensures |r| <= counter.stateId - old(counter.stateId) <= |r| + 1
  {
    var generated := Fds.GeneratePossibilities(state.board);
    Fds.GeneratedInBounds(state.board);
    Fds.GenerateDistinct(state.board);
    r := PatchIllegal(state, generated, counter);
    SurvivorsSkipAll(RemovalTest(state.board), generated);
  }
}
