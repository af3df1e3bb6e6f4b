/** The constraint checks of class Board as versao_certa.py and fds.py write
    them (the two files hold the same text for check_lines, check_cols,
    check_adjacent, check_over_half, check_zero_one, full_board and
    __contains__). Loops of the source are methods proved against the
    predicates next to them. */
module Checks {
  import opened Grid

  function Abs(x: int): nat
  {
    if x < 0 then -x else x
  }

  // ---------------------------------------------------------------------
  // __contains__

  /** [x for x in self.board if number in x] */
  function RowsContaining(b: Board, v: int): (r: Board)
    ensures forall x :: x in r <==> x in b && v in x
  {
    if b == [] then [] else (if v in b[0] then [b[0]] else []) + RowsContaining(b[1..], v)
  }

  /** Board.__contains__: some row holds v. */
  function Contains(b: Board, v: int): (r: bool)
    ensures r <==> exists i :: 0 <= i < |b| && v in b[i]
  {
    var rows := RowsContaining(b, v);
    assert |rows| > 0 ==> rows[0] in rows;
    |rows| > 0
  }

  // ---------------------------------------------------------------------
  // check_lines and check_cols

  /** The lines that hold no undetermined cell, in order (the board_w list). */
  function CompleteLines(lines: seq<seq<int>>): (r: seq<seq<int>>)
    ensures forall x :: multiset(r)[x] == if Undetermined in x then 0 else multiset(lines)[x]
  {
    if lines == [] then []
    else
      assert lines == [lines[0]] + lines[1..];
      (if Undetermined !in lines[0] then [lines[0]] else []) + CompleteLines(lines[1..])
  }

  /** numpy.unique(lines, axis=0, return_counts=True) answers every count with 1. */
  predicate CountsAllOne(lines: seq<seq<int>>)
  {
    forall x :: x in multiset(lines) ==> multiset(lines)[x] == 1
  }

  /** No two different positions hold the same line without undetermined cells. */
  predicate NoRepeatedComplete(lines: seq<seq<int>>)
  {
    forall i, j ::
      (0 <= i < |lines| && 0 <= j < |lines| && i != j &&
       Undetermined !in lines[i] && Undetermined !in lines[j]) ==> lines[i] != lines[j]
  }

  /** A line occurs at least twice exactly when two positions hold it. */
  lemma {:induction false} TwiceIffTwoPositions(s: seq<seq<int>>, x: seq<int>)
    ensures multiset(s)[x] >= 2 <==> exists i, j :: 0 <= i < j < |s| && s[i] == x && s[j] == x
  {
    if s != [] {
      var t := s[1..];
      assert s == [s[0]] + t;
      TwiceIffTwoPositions(t, x);
      if multiset(s)[x] >= 2 {
        if s[0] == x {
          assert multiset(t)[x] >= 1;
          var j :| 0 <= j < |t| && t[j] == x;
          assert s[0] == x && s[j + 1] == x;
        } else {
          var i, j :| 0 <= i < j < |t| && t[i] == x && t[j] == x;
          assert s[i + 1] == x && s[j + 1] == x;
        }
      }
      if exists i, j :: 0 <= i < j < |s| && s[i] == x && s[j] == x {
        var i, j :| 0 <= i < j < |s| && s[i] == x && s[j] == x;
        if i == 0 {
          assert t[j - 1] == x;
          assert multiset(t)[x] >= 1;
        } else {
          assert t[i - 1] == x && t[j - 1] == x;
        }
      }
    }
  }

  /** All counts of the complete lines are one iff no complete line repeats. */
  lemma CountsOfComplete(lines: seq<seq<int>>)
    ensures CountsAllOne(CompleteLines(lines)) <==> NoRepeatedComplete(lines)
  {
    var w := CompleteLines(lines);
    if CountsAllOne(w) {
      forall i, j | 0 <= i < |lines| && 0 <= j < |lines| && i != j &&
        Undetermined !in lines[i] && Undetermined !in lines[j]
        ensures lines[i] != lines[j]
      {
        if lines[i] == lines[j] {
          TwiceIffTwoPositions(lines, lines[i]);
          assert false;
        }
      }
    }
    if NoRepeatedComplete(lines) {
      forall x | x in multiset(w) ensures multiset(w)[x] == 1 {
        assert Undetermined !in x && multiset(lines)[x] >= 1;
        TwiceIffTwoPositions(lines, x);
        assert !exists i, j :: 0 <= i < j < |lines| && lines[i] == x && lines[j] == x;
      }
    }
  }

  /** Board.check_lines: no two rows without undetermined cells are equal. */
  function CheckLines(b: Board): (r: bool)
    ensures r <==> NoRepeatedComplete(b)
  {
    CountsOfComplete(b);
    CountsAllOne(CompleteLines(b))
  }

  /** Board.check_cols: no two columns without undetermined cells are equal. */
  function CheckCols(b: Board): (r: bool)
    requires Square(b)
    ensures r <==> forall j, k ::
              (0 <= j < |b| && 0 <= k < |b| && j != k &&
               Undetermined !in Column(b, j) && Undetermined !in Column(b, k)) ==> Column(b, j) != Column(b, k)
  {
    var t := Transpose(b);
    CountsOfComplete(t);
    CountsAllOne(CompleteLines(t))
  }

  // ---------------------------------------------------------------------
  // check_adjacent

  /** Row i has three equal determined values from column j on. */
  predicate RowRun(b: Board, i: int, j: int)
    requires Square(b) && 0 <= i < |b| && 0 <= j && j + 2 < |b|
  {
    b[i][j] != Undetermined && b[i][j] == b[i][j + 1] == b[i][j + 2]
  }

  /** Column j has three equal determined values from row i on. */
  predicate ColRun(b: Board, i: int, j: int)
    requires Square(b) && 0 <= i && i + 2 < |b| && 0 <= j < |b|
  {
    b[i][j] != Undetermined && b[i][j] == b[i + 1][j] == b[i + 2][j]
  }

  /** No row and no column has three consecutive equal determined values. */
  predicate RunFree(b: Board)
    requires Square(b)
  {
    && (forall i, j :: 0 <= i < |b| && 0 <= j && j + 2 < |b| ==> !RowRun(b, i, j))
    && (forall i, j :: 0 <= i && i + 2 < |b| && 0 <= j < |b| ==> !ColRun(b, i, j))
  }

  /** Board.check_adjacent: rows first, then columns, False at the first run. */
  method CheckAdjacent(b: Board) returns (ok: bool)
    requires Square(b)
    ensures ok == RunFree(b)
  {
    var n := |b|;
    var i := 0;
    while i < n
      invariant 0 <= i <= n
      invariant forall i', j :: 0 <= i' < i && 0 <= j && j + 2 < n ==> !RowRun(b, i', j)
    {
      var j := 0;
      while j < n - 2
        invariant 0 <= j && (2 <= n ==> j <= n - 2)
        invariant forall i', j' :: 0 <= i' < i && 0 <= j' && j' + 2 < n ==> !RowRun(b, i', j')
        invariant forall j' :: 0 <= j' < j && j' + 2 < n ==> !RowRun(b, i, j')
      {
        if b[i][j] != Undetermined && b[i][j] == b[i][j + 1] == b[i][j + 2] {
          assert RowRun(b, i, j);
          return false;
        }
        j := j + 1;
      }
      i := i + 1;
    }
    var j := 0;
    while j < n
      invariant 0 <= j <= n
      invariant forall i', j' :: 0 <= i' && i' + 2 < n && 0 <= j' < j ==> !ColRun(b, i', j')
    {
      i := 0;
      while i < n - 2
        invariant 0 <= i && (2 <= n ==> i <= n - 2)
        invariant forall i', j' :: 0 <= i' && i' + 2 < n && 0 <= j' < j ==> !ColRun(b, i', j')
        invariant forall i' :: 0 <= i' < i && i' + 2 < n ==> !ColRun(b, i', j)
      {
        if b[i][j] != Undetermined && b[i][j] == b[i + 1][j] == b[i + 2][j] {
          assert ColRun(b, i, j);
          return false;
        }
        i := i + 1;
      }
      j := j + 1;
    }
    return true;
  }

  // ---------------------------------------------------------------------
  // check_over_half

  /** The per-line bound: len//2 for even len, len//2 + 1 for odd len. */
  function HalfBound(n: int): (k: int)
    ensures 0 <= n ==> n <= 2 * k <= n + 1
  {
    if n % 2 != 0 then n / 2 + 1 else n / 2
  }

  /** Neither 0 nor 1 occurs more than HalfBound(n) times; other values are not counted. */
  predicate WithinHalf(line: seq<int>, n: int)
  {
    Count(line, 0) <= HalfBound(n) && Count(line, 1) <= HalfBound(n)
  }

  /** Every row and every column is within the bound. */
  predicate OverHalfOk(b: Board)
    requires Square(b)
  {
    forall i :: 0 <= i < |b| ==> WithinHalf(b[i], |b|) && WithinHalf(Column(b, i), |b|)
  }

  /** The count dictionary loop of check_over_half: how many 0s and 1s a line holds. */
  method TallyLine(line: seq<int>) returns (zeros: nat, ones: nat)
    ensures zeros == Count(line, 0) && ones == Count(line, 1)
  {
    zeros, ones := 0, 0;
    var k := 0;
    while k < |line|
      invariant 0 <= k <= |line|
      invariant zeros == Count(line[..k], 0) && ones == Count(line[..k], 1)
    {
      assert line[..k + 1][..k] == line[..k];
      var el := line[k];
      if el == 0 {
        zeros := zeros + 1;
      } else if el == 1 {
        ones := ones + 1;
      }
      k := k + 1;
    }
    assert line[..k] == line;
  }

  /** The verdict of check_over_half on the counts of one line. */
  function ExceedsHalf(zeros: int, ones: int, n: int): (r: bool)
    ensures r <==> zeros > HalfBound(n) || ones > HalfBound(n)
  {
    if n % 2 != 0 then ones > n / 2 + 1 || zeros > n / 2 + 1
    else ones > n / 2 || zeros > n / 2
  }

  /** One of the two loops of check_over_half: False at the first line over the bound. */
  method LinesWithinHalf(lines: seq<seq<int>>, n: int) returns (ok: bool)
    ensures ok <==> forall k :: 0 <= k < |lines| ==> WithinHalf(lines[k], n)
  {
    var i := 0;
    while i < |lines|
      invariant 0 <= i <= |lines|
      invariant forall k :: 0 <= k < i ==> WithinHalf(lines[k], n)
    {
      var zeros, ones := TallyLine(lines[i]);
      if ExceedsHalf(zeros, ones, n) {
        return false;
      }
      i := i + 1;
    }
    return true;
  }

  /** Board.check_over_half: the rows first, then the columns. */
  method CheckOverHalf(b: Board) returns (ok: bool)
    requires Square(b)
    ensures ok == OverHalfOk(b)
  {
    var n := |b|;
    ok := LinesWithinHalf(b, n);
    if !ok {
      return false;
    }
    var cols := Transpose(b);
    ok := LinesWithinHalf(cols, n);
    if !ok {
      var k :| 0 <= k < n && !WithinHalf(cols[k], n);
      assert !WithinHalf(Column(b, k), n);
    }
  }

  // ---------------------------------------------------------------------
  // check_zero_one

  /** The balance test of check_zero_one on one line of a board of side n. */
  predicate Balanced(line: seq<int>, n: int)
  {
    var d := Count(line, 0) - Count(line, 1);
    if n % 2 == 0 then !(Abs(d) > 0) else !(Abs(d) > 1)
  }

  /** A line the scan of check_zero_one passes over. */
  predicate Good(line: seq<int>, n: int)
  {
    Undetermined !in line && Balanced(line, n)
  }

  /** The scan of check_zero_one over lines in order: ValueError at a line holding 2,
      False at a complete line out of balance, True past the last line. */
  function ZeroOneScan(lines: seq<seq<int>>, n: int): (r: Outcome<bool>)
    ensures r.Raised? ==> r == Raised(ValueError)
  {
    if lines == [] then Ok(true)
    else if Undetermined in lines[0] then Raised(ValueError)
    else if !Balanced(lines[0], n) then Ok(false)
    else ZeroOneScan(lines[1..], n)
  }

  /** check_zero_one scans the rows, then the columns. */
  function ZeroOne(b: Board): (r: Outcome<bool>)
    requires Square(b)
    ensures r.Raised? ==> r == Raised(ValueError)
  {
    ZeroOneScan(b + Transpose(b), |b|)
  }

  /** The scan answers True iff every line passes. */
  lemma {:induction false} ScanTrue(lines: seq<seq<int>>, n: int)
    ensures ZeroOneScan(lines, n) == Ok(true) <==> forall k :: 0 <= k < |lines| ==> Good(lines[k], n)
  {
    if lines != [] {
      ScanTrue(lines[1..], n);
      if forall k :: 0 <= k < |lines| ==> Good(lines[k], n) {
        assert forall k :: 0 <= k < |lines| - 1 ==> lines[1..][k] == lines[k + 1];
      }
      if forall k :: 0 <= k < |lines[1..]| ==> Good(lines[1..][k], n) {
        if Good(lines[0], n) {
          forall k | 0 <= k < |lines| ensures Good(lines[k], n) {
            if k > 0 {
              assert lines[k] == lines[1..][k - 1];
            }
          }
        }
      }
    }
  }

  /** The scan raises ValueError iff a line holding 2 comes before any line that fails balance. */
  lemma {:induction false} ScanRaises(lines: seq<seq<int>>, n: int)
    ensures ZeroOneScan(lines, n) == Raised(ValueError) <==>
              exists k :: 0 <= k < |lines| && Undetermined in lines[k] &&
                forall m :: 0 <= m < k ==> Good(lines[m], n)
  {
    if lines != [] {
      var t := lines[1..];
      ScanRaises(t, n);
      if ZeroOneScan(lines, n) == Raised(ValueError) && Undetermined !in lines[0] {
        var k :| 0 <= k < |t| && Undetermined in t[k] && forall m :: 0 <= m < k ==> Good(t[m], n);
        assert Undetermined in lines[k + 1];
        forall m | 0 <= m < k + 1 ensures Good(lines[m], n) {
          if m > 0 {
            assert lines[m] == t[m - 1];
          }
        }
      }
      if exists k :: 0 <= k < |lines| && Undetermined in lines[k] &&
           forall m :: 0 <= m < k ==> Good(lines[m], n) {
        var k :| 0 <= k < |lines| && Undetermined in lines[k] && forall m :: 0 <= m < k ==> Good(lines[m], n);
        if k > 0 {
          assert Good(lines[0], n);
          assert Undetermined in t[k - 1];
          forall m | 0 <= m < k - 1 ensures Good(t[m], n) {
            assert t[m] == lines[m + 1];
          }
        }
      }
    }
  }

  /** The scan answers False iff a complete line out of balance comes before any line holding 2. */
  lemma {:induction false} ScanFalse(lines: seq<seq<int>>, n: int)
    ensures ZeroOneScan(lines, n) == Ok(false) <==>
              exists k :: 0 <= k < |lines| && Undetermined !in lines[k] && !Balanced(lines[k], n) &&
                forall m :: 0 <= m < k ==> Good(lines[m], n)
  {
    if lines != [] {
      var t := lines[1..];
      ScanFalse(t, n);
      if ZeroOneScan(lines, n) == Ok(false) && Good(lines[0], n) {
        var k :| 0 <= k < |t| && Undetermined !in t[k] && !Balanced(t[k], n) &&
          forall m :: 0 <= m < k ==> Good(t[m], n);
        assert lines[k + 1] == t[k];
        forall m | 0 <= m < k + 1 ensures Good(lines[m], n) {
          if m > 0 {
            assert lines[m] == t[m - 1];
          }
        }
      }
      if exists k :: 0 <= k < |lines| && Undetermined !in lines[k] && !Balanced(lines[k], n) &&
           forall m :: 0 <= m < k ==> Good(lines[m], n) {
        var k :| 0 <= k < |lines| && Undetermined !in lines[k] && !Balanced(lines[k], n) &&
          forall m :: 0 <= m < k ==> Good(lines[m], n);
        if k > 0 {
          assert Good(lines[0], n);
          assert t[k - 1] == lines[k];
          forall m | 0 <= m < k - 1 ensures Good(t[m], n) {
            assert t[m] == lines[m + 1];
          }
        }
      }
    }
  }

  /** A column of a board without undetermined cells has none either. */
  lemma CompleteColumns(b: Board)
    requires Square(b) && Complete(b)
    ensures forall j :: 0 <= j < |b| ==> Undetermined !in Column(b, j)
  {
    forall j | 0 <= j < |b| ensures Undetermined !in Column(b, j) {
      forall i | 0 <= i < |b| ensures Column(b, j)[i] != Undetermined {
        assert b[i][j] in b[i];
      }
    }
  }

  /** The lines check_zero_one visits: the rows, then the columns. */
  lemma BoardLines(b: Board, lines: seq<seq<int>>)
    requires Square(b) && lines == b + Transpose(b)
    ensures |lines| == 2 * |b|
    ensures forall k :: 0 <= k < |b| ==> lines[k] == b[k] && lines[|b| + k] == Column(b, k)
  {
  }

  /** On a complete board no visited line holds an undetermined cell. */
  lemma VisitedComplete(b: Board, lines: seq<seq<int>>)
    requires Square(b) && Complete(b) && lines == b + Transpose(b)
    ensures forall k :: 0 <= k < |lines| ==> Undetermined !in lines[k]
  {
    var n := |b|;
    BoardLines(b, lines);
    CompleteColumns(b);
    forall k | 0 <= k < |lines| ensures Undetermined !in lines[k] {
      if k >= n {
        assert lines[n + (k - n)] == Column(b, k - n);
      }
    }
  }

  /** On a complete board every visited line is good iff every row and column is balanced. */
  lemma GoodLinesOnComplete(b: Board, lines: seq<seq<int>>)
    requires Square(b) && Complete(b) && lines == b + Transpose(b)
    ensures (forall k :: 0 <= k < |lines| ==> Good(lines[k], |b|)) <==>
            (forall i :: 0 <= i < |b| ==> Balanced(b[i], |b|) && Balanced(Column(b, i), |b|))
  {
    var n := |b|;
    BoardLines(b, lines);
    VisitedComplete(b, lines);
    if forall i :: 0 <= i < n ==> Balanced(b[i], n) && Balanced(Column(b, i), n) {
      forall k | 0 <= k < |lines| ensures Good(lines[k], n) {
        if k >= n {
          assert lines[n + (k - n)] == Column(b, k - n);
        }
      }
    }
    if forall k :: 0 <= k < |lines| ==> Good(lines[k], n) {
      forall i | 0 <= i < n ensures Balanced(b[i], n) && Balanced(Column(b, i), n) {
        assert Good(lines[i], n) && Good(lines[n + i], n);
      }
    }
  }

  /** On a complete board check_zero_one never raises and answers whether every line is balanced. */
  lemma ZeroOneOnComplete(b: Board)
    requires Square(b) && Complete(b)
    ensures ZeroOne(b) == Ok(forall i :: 0 <= i < |b| ==> Balanced(b[i], |b|) && Balanced(Column(b, i), |b|))
  {
    var lines := b + Transpose(b);
    var n := |b|;
    VisitedComplete(b, lines);
    GoodLinesOnComplete(b, lines);
    ScanTrue(lines, n);
    ScanRaises(lines, n);
    var r := ZeroOneScan(lines, n);
    assert r != Raised(ValueError);
    if !(forall k :: 0 <= k < |lines| ==> Good(lines[k], n)) {
      assert r != Ok(true);
      assert r.Ok? && !r.value;
    }
  }

  /** On a board holding an undetermined cell check_zero_one never answers True. */
  lemma ZeroOneNotTrueWhenIncomplete(b: Board)
    requires Square(b) && !Complete(b)
    ensures ZeroOne(b) != Ok(true)
  {
    var lines := b + Transpose(b);
    ScanTrue(lines, |b|);
    var i :| 0 <= i < |b| && Undetermined in b[i];
    assert !Good(lines[i], |b|);
  }

  /** The count loop of check_zero_one: ValueError at the first 2, else the counts. */
  method CountLine(line: seq<int>) returns (r: Outcome<(nat, nat)>)
    ensures r.Raised? <==> Undetermined in line
    ensures r.Raised? ==> r.error == ValueError
    ensures r.Ok? ==> r.value == (Count(line, 0), Count(line, 1))
  {
    var zeros, ones := 0, 0;
    var k := 0;
    while k < |line|
      invariant 0 <= k <= |line|
      invariant Undetermined !in line[..k]
      invariant zeros == Count(line[..k], 0) && ones == Count(line[..k], 1)
    {
      assert line[..k + 1][..k] == line[..k];
      var el := line[k];
      if el == Undetermined {
        return Raised(ValueError);
      }
      if el == 0 {
        zeros := zeros + 1;
      } else if el == 1 {
        ones := ones + 1;
      }
      k := k + 1;
    }
    assert line[..k] == line;
    return Ok((zeros, ones));
  }

  /** The verdict of check_zero_one on the counts of one line. */
  function Unbalanced(zeros: int, ones: int, n: int): (r: bool)
    ensures forall line :: Count(line, 0) == zeros && Count(line, 1) == ones ==> (r <==> !Balanced(line, n))
  {
    if n % 2 == 0 then Abs(zeros - ones) > 0 else Abs(zeros - ones) > 1
  }

  /** One of the two loops of check_zero_one. */
  method ScanLines(lines: seq<seq<int>>, n: int) returns (r: Outcome<bool>)
    ensures r == ZeroOneScan(lines, n)
  {
    var i := 0;
    while i < |lines|
      invariant 0 <= i <= |lines|
      invariant ZeroOneScan(lines, n) == ZeroOneScan(lines[i..], n)
    {
      assert lines[i..][0] == lines[i] && lines[i..][1..] == lines[i + 1..];
      var counted := CountLine(lines[i]);
      if counted.Raised? {
        return Raised(ValueError);
      }
      var (zeros, ones) := counted.value;
      if Unbalanced(zeros, ones, n) {
        return Ok(false);
      }
      i := i + 1;
    }
    assert lines[i..] == [];
    return Ok(true);
  }

  /** Scanning two lists of lines one after the other. */
  lemma {:induction false} ScanAppend(a: seq<seq<int>>, c: seq<seq<int>>, n: int)
    ensures ZeroOneScan(a + c, n) == if ZeroOneScan(a, n) == Ok(true) then ZeroOneScan(c, n) else ZeroOneScan(a, n)
  {
    if a == [] {
      assert a + c == c;
    } else {
      assert (a + c)[0] == a[0] && (a + c)[1..] == a[1..] + c;
      ScanAppend(a[1..], c, n);
    }
  }

  /** Board.check_zero_one: the rows first, then the columns. */
  method CheckZeroOne(b: Board) returns (r: Outcome<bool>)
    requires Square(b)
    ensures r == ZeroOne(b)
  {
    var n := |b|;
    ScanAppend(b, Transpose(b), n);
    r := ScanLines(b, n);
    if r != Ok(true) {
      return r;
    }
    var cols := Transpose(b);
    r := ScanLines(cols, n);
  }

  // ---------------------------------------------------------------------
  // full_board

  /** Board.full_board: False at the first row holding 2. */
  method FullBoard(b: Board) returns (full: bool)
    ensures full == Complete(b)
  {
    var i := 0;
    while i < |b|
      invariant 0 <= i <= |b|
      invariant forall k :: 0 <= k < i ==> Undetermined !in b[k]
    {
      if Undetermined in b[i] {
        return false;
      }
      i := i + 1;
    }
    return true;
  }

  // ---------------------------------------------------------------------
  // The checks as pruning tests

  /** q fills in p: same length, every determined cell of p keeps its value. */
  predicate LineExtends(q: seq<int>, p: seq<int>)
  {
    |q| == |p| && forall k :: 0 <= k < |p| && p[k] != Undetermined ==> q[k] == p[k]
  }

  /** Board c fills in board b row by row. */
  predicate Extends(c: Board, b: Board)
  {
    |c| == |b| && forall i :: 0 <= i < |b| ==> LineExtends(c[i], b[i])
  }

  /** The puzzle's balance rule for a line of an n x n board: as many 0s as 1s when n is
      even, one more of either when n is odd. */
  predicate EvenlyFilled(line: seq<int>, n: int)
  {
    var zeros, ones := Count(line, 0), Count(line, 1);
    if n % 2 == 0 then zeros == ones else zeros == ones + 1 || ones == zeros + 1
  }

  /** On a line of n cells of 0 and 1 the balance test of check_zero_one is the puzzle's rule. */
  lemma BalancedIsRule(line: seq<int>, n: int)
    requires |line| == n
    requires forall k :: 0 <= k < |line| ==> line[k] == 0 || line[k] == 1
    ensures Balanced(line, n) <==> EvenlyFilled(line, n)
  {
    BinaryCounts(line);
  }

  /** A solved puzzle: only 0 and 1, every line evenly filled, no run of three,
      rows pairwise different and columns pairwise different. */
  predicate Solved(c: Board)
  {
    && Square(c) && Binary(c) && RunFree(c) && Distinct(c) && Distinct(Transpose(c))
    && forall i :: 0 <= i < |c| ==> EvenlyFilled(c[i], |c|) && EvenlyFilled(Column(c, i), |c|)
  }

  /** Every line of a solved board passes the balance test of check_zero_one. */
  lemma SolvedBalanced(c: Board)
    requires Solved(c)
    ensures forall i :: 0 <= i < |c| ==> Balanced(c[i], |c|) && Balanced(Column(c, i), |c|)
  {
    forall i | 0 <= i < |c| ensures Balanced(c[i], |c|) && Balanced(Column(c, i), |c|) {
      BalancedIsRule(c[i], |c|);
      BalancedIsRule(Column(c, i), |c|);
    }
  }

  /** Filling in a line never lowers the count of a determined value. */
  lemma {:induction false} CountExtends(q: seq<int>, p: seq<int>, v: int)
    requires LineExtends(q, p) && v != Undetermined
    ensures Count(p, v) <= Count(q, v)
  {
    if p != [] {
      var m := |p| - 1;
      assert LineExtends(q[..m], p[..m]);
      CountExtends(q[..m], p[..m], v);
    }
  }

  /** A filled-in line without undetermined cells is the line itself. */
  lemma CompleteLineExtends(q: seq<int>, p: seq<int>)
    requires LineExtends(q, p) && Undetermined !in p
    ensures q == p
  {
    forall k | 0 <= k < |p| ensures q[k] == p[k] {
      assert p[k] in p;
    }
  }

  /** The columns of a filled-in board fill in the columns. */
  lemma ColumnExtends(c: Board, b: Board, j: int)
    requires Square(c) && Square(b) && Extends(c, b) && 0 <= j < |b|
    ensures LineExtends(Column(c, j), Column(b, j))
  {
    forall k | 0 <= k < |b| && Column(b, j)[k] != Undetermined ensures Column(c, j)[k] == Column(b, j)[k] {
      assert LineExtends(c[k], b[k]);
    }
  }

  /** A balanced line of 0s and 1s is within the half bound. */
  lemma BalancedWithinHalf(line: seq<int>, n: int)
    requires |line| == n
    requires forall k :: 0 <= k < |line| ==> line[k] == 0 || line[k] == 1
    requires Balanced(line, n)
    ensures WithinHalf(line, n)
  {
    BinaryCounts(line);
  }

  /** A line that a solved line fills in is within the half bound. */
  lemma PartialWithinHalf(q: seq<int>, p: seq<int>)
    requires LineExtends(q, p) && Balanced(q, |q|)
    requires forall k :: 0 <= k < |q| ==> q[k] == 0 || q[k] == 1
    ensures WithinHalf(p, |p|)
  {
    BalancedWithinHalf(q, |q|);
    CountExtends(q, p, 0);
    CountExtends(q, p, 1);
  }

  /** check_over_half passes every board that a solved board fills in. */
  lemma OverHalfSound(c: Board, b: Board)
    requires Solved(c) && Square(b) && Extends(c, b)
    ensures OverHalfOk(b)
  {
    SolvedBalanced(c);
    forall i | 0 <= i < |b| ensures WithinHalf(b[i], |b|) && WithinHalf(Column(b, i), |b|) {
      assert LineExtends(c[i], b[i]);
      PartialWithinHalf(c[i], b[i]);
      ColumnExtends(c, b, i);
      PartialWithinHalf(Column(c, i), Column(b, i));
    }
  }

  /** check_adjacent passes every board that a solved board fills in. */
  lemma RunFreeSound(c: Board, b: Board)
    requires Solved(c) && Square(b) && Extends(c, b)
    ensures RunFree(b)
  {
    forall i, j | 0 <= i < |b| && 0 <= j && j + 2 < |b| ensures !RowRun(b, i, j) {
      assert LineExtends(c[i], b[i]);
      assert !RowRun(c, i, j);
    }
    forall i, j | 0 <= i && i + 2 < |b| && 0 <= j < |b| ensures !ColRun(b, i, j) {
      assert LineExtends(c[i], b[i]) && LineExtends(c[i + 1], b[i + 1]) && LineExtends(c[i + 2], b[i + 2]);
      assert !ColRun(c, i, j);
    }
  }

  /** Lines that distinct lines fill in have no repeated complete line. */
  lemma DistinctSound(q: seq<seq<int>>, p: seq<seq<int>>)
    requires |q| == |p| && Distinct(q)
    requires forall i :: 0 <= i < |p| ==> LineExtends(q[i], p[i])
    ensures NoRepeatedComplete(p)
  {
    forall i, j | 0 <= i < |p| && 0 <= j < |p| && i != j && Undetermined !in p[i] && Undetermined !in p[j]
      ensures p[i] != p[j]
    {
      CompleteLineExtends(q[i], p[i]);
      CompleteLineExtends(q[j], p[j]);
    }
  }

  /** check_lines and check_cols pass every board that a solved board fills in. */
  lemma UniqueSound(c: Board, b: Board)
    requires Solved(c) && Square(b) && Extends(c, b)
    ensures CheckLines(b) && CheckCols(b)
  {
    DistinctSound(c, b);
    var tc, tb := Transpose(c), Transpose(b);
    forall j | 0 <= j < |b| ensures LineExtends(tc[j], tb[j]) {
      ColumnExtends(c, b, j);
    }
    DistinctSound(tc, tb);
    forall j, k | 0 <= j < |b| && 0 <= k < |b| && j != k &&
      Undetermined !in Column(b, j) && Undetermined !in Column(b, k)
      ensures Column(b, j) != Column(b, k)
    {
      assert tb[j] == Column(b, j) && tb[k] == Column(b, k);
    }
  }

  /** A solved board passes the four pruning checks itself. */
  lemma SolutionPasses(c: Board)
    ensures Solved(c) ==> OverHalfOk(c) && RunFree(c) && CheckLines(c) && CheckCols(c)
  {
    if Solved(c) {
      assert Extends(c, c);
      OverHalfSound(c, c);
      UniqueSound(c, c);
    }
  }

  /** A solved board passes check_zero_one. */
  lemma SolvedZeroOne(c: Board)
    requires Solved(c)
    ensures ZeroOne(c) == Ok(true)
  {
    forall i | 0 <= i < |c| ensures Undetermined !in c[i] {
      assert forall k :: 0 <= k < |c[i]| ==> c[i][k] != Undetermined;
    }
    SolvedBalanced(c);
    ZeroOneOnComplete(c);
  }
}
