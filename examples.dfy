/** The boards of tests.py, whose checks (check_over_half among them) are the
    Board methods of versao_certa.py and fds.py, stated on their models. */
module TestBoards {
  import opened Grid
  import opened Checks

  function Mixed(): Board {
    [[2, 2, 1, 1], [1, 0, 2, 1], [0, 2, 1, 0], [1, 2, 1, 2]]
  }
  function EqualRows(): Board {
    [[1, 1, 1, 1], [1, 1, 1, 1], [0, 2, 1, 0], [1, 2, 1, 2]]
  }
  function EqualCols(): Board {
    [[1, 1, 1, 1], [1, 0, 1, 1], [1, 2, 1, 0], [1, 2, 1, 2]]
  }

  /** testIn: the board holds each of 2, 1 and 0. */
  lemma TestIn()
    ensures Contains(Mixed(), 2) && Contains(Mixed(), 1) && Contains(Mixed(), 0)
  {
    assert Mixed()[0][0] == 2 && Mixed()[0][2] == 1 && Mixed()[1][1] == 0;
  }

  /** testCols: two equal complete rows fail check_lines. */
  lemma TestEqualRows()
    ensures !CheckLines(EqualRows())
  {
    var b := EqualRows();
    assert Undetermined !in b[0] && Undetermined !in b[1] && b[0] == b[1];
  }

  /** testCols: two equal complete columns fail check_cols. */
  lemma TestEqualCols()
    ensures Square(EqualCols()) && !CheckCols(EqualCols())
  {
    var b := EqualCols();
    assert Column(b, 0) == [1, 1, 1, 1] == Column(b, 2);
    RepeatedColumn(b, 0, 2);
  }

  /** Two equal complete columns make check_cols fail. */
  lemma RepeatedColumn(b: Board, j: int, k: int)
    requires Square(b) && 0 <= j < k < |b|
    requires Undetermined !in Column(b, j) && Column(b, j) == Column(b, k)
    ensures !CheckCols(b)
  {
  }

  /** testCols: a board whose every line holds a 2 passes both checks. */
  lemma TestMixedUnique()
    ensures Square(Mixed()) && CheckLines(Mixed()) && CheckCols(Mixed())
  {
    var b := Mixed();
    assert forall i :: 0 <= i < 4 ==> Undetermined in b[i] by {
      assert b[0][0] == 2 && b[1][2] == 2 && b[2][1] == 2 && b[3][1] == 2;
    }
    assert Column(b, 0) == [2, 1, 0, 1] && Column(b, 1) == [2, 0, 2, 2];
    assert Column(b, 2) == [1, 2, 1, 1] && Column(b, 3) == [1, 1, 0, 2];
    assert forall j :: 0 <= j < 4 ==> Undetermined in Column(b, j);
  }

  /** The counts of a line of four cells, cell by cell. */
  lemma Counts4(line: seq<int>, v: int)
    requires |line| == 4
    ensures Count(line, v) == (if line[0] == v then 1 else 0) + (if line[1] == v then 1 else 0) +
                              (if line[2] == v then 1 else 0) + (if line[3] == v then 1 else 0)
  {
    assert line == [line[0], line[1], line[2], line[3]];
    CountOfFour(line[0], line[1], line[2], line[3], v);
  }

  /** The counts of a line of five cells, cell by cell. */
  lemma Counts5(line: seq<int>, v: int)
    requires |line| == 5
    ensures Count(line, v) == (if line[0] == v then 1 else 0) + (if line[1] == v then 1 else 0) +
                              (if line[2] == v then 1 else 0) + (if line[3] == v then 1 else 0) +
                              (if line[4] == v then 1 else 0)
  {
    assert line == [line[0], line[1], line[2], line[3], line[4]];
    CountOfFive(line[0], line[1], line[2], line[3], line[4], v);
  }

  // ---------------------------------------------------------------------
  // testOverHalf

  function OverRow(): Board {
    [[1, 1, 1, 1], [1, 1, 1, 1], [0, 2, 1, 0], [0, 2, 1, 2]]
  }
  function OverCol(): Board {
    [[1, 1, 0, 0], [1, 1, 0, 0], [0, 2, 1, 0], [1, 2, 1, 2]]
  }
  function Blocks(): Board {
    [[1, 1, 0, 0], [1, 1, 0, 0], [0, 0, 1, 1], [0, 0, 1, 1]]
  }
  function BlankCol(): Board {
    [[2, 1, 0, 0], [2, 1, 0, 0], [2, 0, 1, 1], [2, 0, 1, 1]]
  }
  function BlankRow(): Board {
    [[1, 1, 0, 0], [2, 2, 2, 2], [2, 0, 1, 1], [2, 0, 1, 1]]
  }

  /** testOverHalf: four 1s in a row of four. */
  lemma TestOverRow()
    ensures Square(OverRow()) && !OverHalfOk(OverRow())
  {
    Counts4(OverRow()[0], 1);
  }

  /** testOverHalf: three 1s in the first column. */
  lemma TestOverCol()
    ensures Square(OverCol()) && !OverHalfOk(OverCol())
  {
    assert Column(OverCol(), 0) == [1, 1, 0, 1];
    Counts4(Column(OverCol(), 0), 1);
  }

  /** A property of each of the eight lines of a 4x4 board holds of every line. */
  lemma LinesOf4(b: Board, P: seq<int> -> bool)
    requires Square(b) && |b| == 4
    requires P(b[0]) && P(b[1]) && P(b[2]) && P(b[3])
    requires P(Column(b, 0)) && P(Column(b, 1)) && P(Column(b, 2)) && P(Column(b, 3))
    ensures forall i :: 0 <= i < 4 ==> P(b[i]) && P(Column(b, i))
  {
    forall i | 0 <= i < 4 ensures P(b[i]) && P(Column(b, i)) {
      assert i == 0 || i == 1 || i == 2 || i == 3;
    }
  }

  /** At most two of the four cells of a line hold v. */
  predicate AtMostTwo(line: seq<int>, v: int)
    requires |line| == 4
  {
    (if line[0] == v then 1 else 0) + (if line[1] == v then 1 else 0) +
    (if line[2] == v then 1 else 0) + (if line[3] == v then 1 else 0) <= 2
  }

  /** A line of four with at most two 0s and at most two 1s is within the bound. */
  lemma WithinFour(line: seq<int>)
    requires |line| == 4 && AtMostTwo(line, 0) && AtMostTwo(line, 1)
    ensures WithinHalf(line, 4)
  {
    Counts4(line, 0);
    Counts4(line, 1);
    assert HalfBound(4) == 2;
  }

  /** check_over_half passes a 4x4 board whose eight lines each pass. */
  lemma WithinAllFour(b: Board)
    requires Square(b) && |b| == 4
    requires AtMostTwo(b[0], 0) && AtMostTwo(b[0], 1) && AtMostTwo(b[1], 0) && AtMostTwo(b[1], 1)
    requires AtMostTwo(b[2], 0) && AtMostTwo(b[2], 1) && AtMostTwo(b[3], 0) && AtMostTwo(b[3], 1)
    requires AtMostTwo(Column(b, 0), 0) && AtMostTwo(Column(b, 0), 1)
    requires AtMostTwo(Column(b, 1), 0) && AtMostTwo(Column(b, 1), 1)
    requires AtMostTwo(Column(b, 2), 0) && AtMostTwo(Column(b, 2), 1)
    requires AtMostTwo(Column(b, 3), 0) && AtMostTwo(Column(b, 3), 1)
    ensures OverHalfOk(b)
  {
    WithinFour(b[0]);
    WithinFour(b[1]);
    WithinFour(b[2]);
    WithinFour(b[3]);
    WithinFour(Column(b, 0));
    WithinFour(Column(b, 1));
    WithinFour(Column(b, 2));
    WithinFour(Column(b, 3));
    LinesOf4(b, line => WithinHalf(line, 4));
  }

  /** testOverHalf: two rows of 1 1 0 0 over two rows of 0 0 1 1 pass. */
  lemma TestBlocks()
    ensures Square(Blocks()) && OverHalfOk(Blocks())
  {
    WithinAllFour(Blocks());
  }

  /** testOverHalf: a blank first column passes. */
  lemma TestBlankCol()
    ensures Square(BlankCol()) && OverHalfOk(BlankCol())
  {
    WithinAllFour(BlankCol());
  }

  /** testOverHalf: a blank second row passes. */
  lemma TestBlankRow()
    ensures Square(BlankRow()) && OverHalfOk(BlankRow())
  {
    WithinAllFour(BlankRow());
  }

  // ---------------------------------------------------------------------
  // testZeroOnePair and testZeroOneOdd

  function Stripes(): Board {
    [[0, 0, 1, 1], [0, 0, 1, 1], [0, 0, 1, 1], [0, 0, 1, 1]]
  }
  function Checker(): Board {
    [[0, 1, 0, 1], [1, 0, 1, 0], [0, 1, 0, 1], [1, 0, 1, 0]]
  }
  function HoleFirst(): Board {
    [[0, 1, 2, 1], [1, 0, 1, 0], [0, 1, 0, 1], [1, 0, 1, 0]]
  }
  function OddOver(): Board {
    [[1, 1, 1, 0, 1], [1, 1, 1, 1, 1], [0, 2, 1, 0, 1], [0, 2, 1, 2, 1], [0, 0, 1, 1, 0]]
  }
  function OddFull(): Board {
    [[0, 1, 0, 1, 1], [1, 0, 1, 0, 1], [0, 1, 0, 1, 1], [1, 0, 1, 0, 0], [1, 0, 1, 0, 0]]
  }
  function OddHole(): Board {
    [[0, 1, 2, 1, 1], [1, 0, 1, 1, 0], [0, 1, 0, 1, 1], [1, 0, 1, 0, 1], [1, 0, 1, 0, 1]]
  }

  /** The scan stops at the first row: False when it is complete and out of balance,
      ValueError when it holds a 2. */
  lemma FirstRowDecides(b: Board)
    requires Square(b) && |b| > 0
    ensures Undetermined in b[0] ==> ZeroOne(b) == Raised(ValueError)
    ensures Undetermined !in b[0] && !Balanced(b[0], |b|) ==> ZeroOne(b) == Ok(false)
  {
    var lines := b + Transpose(b);
    assert lines[0] == b[0];
  }

  /** testZeroOnePair: a row of four 1s answers False. */
  lemma TestZeroOneRow()
    ensures Square(OverRow()) && ZeroOne(OverRow()) == Ok(false)
  {
    Counts4(OverRow()[0], 0);
    Counts4(OverRow()[0], 1);
    FirstRowDecides(OverRow());
  }

  /** As many 0s as 1s among the four cells of a line. */
  predicate EvenSplit(line: seq<int>)
    requires |line| == 4
  {
    (if line[0] == 0 then 1 else 0) + (if line[1] == 0 then 1 else 0) +
    (if line[2] == 0 then 1 else 0) + (if line[3] == 0 then 1 else 0) ==
    (if line[0] == 1 then 1 else 0) + (if line[1] == 1 then 1 else 0) +
    (if line[2] == 1 then 1 else 0) + (if line[3] == 1 then 1 else 0)
  }

  /** A line of four with as many 0s as 1s is balanced. */
  lemma BalancedFour(line: seq<int>)
    requires |line| == 4
    ensures Balanced(line, 4) <==> EvenSplit(line)
  {
    Counts4(line, 0);
    Counts4(line, 1);
  }

  /** Every line of a 4x4 board whose eight lines each split evenly is balanced. */
  lemma BalancedAllFour(b: Board)
    requires Square(b) && |b| == 4
    requires EvenSplit(b[0]) && EvenSplit(b[1]) && EvenSplit(b[2]) && EvenSplit(b[3])
    requires EvenSplit(Column(b, 0)) && EvenSplit(Column(b, 1))
    requires EvenSplit(Column(b, 2)) && EvenSplit(Column(b, 3))
    ensures forall i :: 0 <= i < 4 ==> Balanced(b[i], 4) && Balanced(Column(b, i), 4)
  {
    BalancedFour(b[0]);
    BalancedFour(b[1]);
    BalancedFour(b[2]);
    BalancedFour(b[3]);
    BalancedFour(Column(b, 0));
    BalancedFour(Column(b, 1));
    BalancedFour(Column(b, 2));
    BalancedFour(Column(b, 3));
    LinesOf4(b, line => Balanced(line, 4));
  }

  /** testZeroOnePair: balanced rows but a column of four 0s answer False. */
  lemma TestZeroOneStripes()
    ensures Square(Stripes()) && ZeroOne(Stripes()) == Ok(false)
  {
    var b := Stripes();
    assert Complete(b);
    ZeroOneOnComplete(b);
    BalancedFour(Column(b, 0));
  }

  /** testZeroOnePair: the checkerboard answers True. */
  lemma TestZeroOneChecker()
    ensures Square(Checker()) && ZeroOne(Checker()) == Ok(true)
  {
    var b := Checker();
    assert Complete(b);
    ZeroOneOnComplete(b);
    BalancedAllFour(b);
  }

  /** testZeroOnePair: a 2 in the first row raises ValueError. */
  lemma TestZeroOneHole()
    ensures Square(HoleFirst()) && ZeroOne(HoleFirst()) == Raised(ValueError)
  {
    assert HoleFirst()[0][2] == Undetermined;
    FirstRowDecides(HoleFirst());
  }

  /** A property of each of the ten lines of a 5x5 board holds of every line. */
  lemma LinesOf5(b: Board, P: seq<int> -> bool)
    requires Square(b) && |b| == 5
    requires P(b[0]) && P(b[1]) && P(b[2]) && P(b[3]) && P(b[4])
    requires P(Column(b, 0)) && P(Column(b, 1)) && P(Column(b, 2)) && P(Column(b, 3)) && P(Column(b, 4))
    ensures forall i :: 0 <= i < 5 ==> P(b[i]) && P(Column(b, i))
  {
    forall i | 0 <= i < 5 ensures P(b[i]) && P(Column(b, i)) {
      assert i == 0 || i == 1 || i == 2 || i == 3 || i == 4;
    }
  }

  /** The numbers of 0s and of 1s among the five cells of a line differ by at most one. */
  predicate NearSplit(line: seq<int>)
    requires |line| == 5
  {
    var zeros := (if line[0] == 0 then 1 else 0) + (if line[1] == 0 then 1 else 0) +
                 (if line[2] == 0 then 1 else 0) + (if line[3] == 0 then 1 else 0) +
                 (if line[4] == 0 then 1 else 0);
    var ones := (if line[0] == 1 then 1 else 0) + (if line[1] == 1 then 1 else 0) +
                (if line[2] == 1 then 1 else 0) + (if line[3] == 1 then 1 else 0) +
                (if line[4] == 1 then 1 else 0);
    -1 <= zeros - ones <= 1
  }

  /** A line of five is balanced iff its 0s and 1s differ by at most one. */
  lemma BalancedFive(line: seq<int>)
    requires |line| == 5
    ensures Balanced(line, 5) <==> NearSplit(line)
  {
    Counts5(line, 0);
    Counts5(line, 1);
  }

  /** Every line of a 5x5 board whose ten lines each split nearly evenly is balanced. */
  lemma BalancedAllFive(b: Board)
    requires Square(b) && |b| == 5
    requires NearSplit(b[0]) && NearSplit(b[1]) && NearSplit(b[2]) && NearSplit(b[3]) && NearSplit(b[4])
    requires NearSplit(Column(b, 0)) && NearSplit(Column(b, 1)) && NearSplit(Column(b, 2))
    requires NearSplit(Column(b, 3)) && NearSplit(Column(b, 4))
    ensures forall i :: 0 <= i < 5 ==> Balanced(b[i], 5) && Balanced(Column(b, i), 5)
  {
    BalancedFive(b[0]);
    BalancedFive(b[1]);
    BalancedFive(b[2]);
    BalancedFive(b[3]);
    BalancedFive(b[4]);
    BalancedFive(Column(b, 0));
    BalancedFive(Column(b, 1));
    BalancedFive(Column(b, 2));
    BalancedFive(Column(b, 3));
    BalancedFive(Column(b, 4));
    LinesOf5(b, line => Balanced(line, 5));
  }

  /** testZeroOneOdd: a complete first row with four 1s and one 0 answers False. */
  lemma TestZeroOneOddRow()
    ensures Square(OddOver()) && ZeroOne(OddOver()) == Ok(false)
  {
    Counts5(OddOver()[0], 0);
    Counts5(OddOver()[0], 1);
    Counts5(OddOver()[0], 2);
    FirstRowDecides(OddOver());
  }

  /** testZeroOneOdd: a complete 5x5 board whose lines differ by one answers True. */
  lemma TestZeroOneOddFull()
    ensures Square(OddFull()) && ZeroOne(OddFull()) == Ok(true)
  {
    var b := OddFull();
    assert Complete(b);
    ZeroOneOnComplete(b);
    BalancedAllFive(b);
  }

  /** testZeroOneOdd: a 2 in the first row raises ValueError. */
  lemma TestZeroOneOddHole()
    ensures Square(OddHole()) && ZeroOne(OddHole()) == Raised(ValueError)
  {
    assert OddHole()[0][2] == Undetermined;
    FirstRowDecides(OddHole());
  }
}
