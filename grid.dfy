/** Board values shared by the three Takuzu drafts: the N x N grid of 0, 1 and
    2 (2 marks an undetermined cell), Python-style indexing, and the read
    accessors of class Board. */
module Grid {

  /** The Python exceptions the drafts can raise on the paths the model keeps. */
  datatype Error = IndexError | ValueError | UnboundLocalError

  /** A Python call either returns a value or raises. */
  datatype Outcome<T> = Ok(value: T) | Raised(error: Error)

  /** Python's None next to a value. */
  datatype Option<T> = None | Some(value: T)

  /** A grid as the drafts hold it: a tuple (or list) of rows. */
  type Board = seq<seq<int>>

  /** The cell value that marks an undetermined cell. */
  const Undetermined: int := 2

  /** A board position, as numpy.argwhere reports it. */
  datatype Pos = Pos(row: int, col: int)

  /** An action (row, col, val): write `val` into cell (row, col). */
  datatype Action = Action(row: int, col: int, val: int)

  /** Every board the program builds has N rows of N cells. */
  predicate Square(b: Board)
  {
    forall i :: 0 <= i < |b| ==> |b[i]| == |b|
  }

  /** No row holds an undetermined cell. */
  predicate Complete(b: Board)
  {
    forall i :: 0 <= i < |b| ==> Undetermined !in b[i]
  }

  /** Every cell is 0 or 1. */
  predicate Binary(b: Board)
  {
    forall i, j :: 0 <= i < |b| && 0 <= j < |b[i]| ==> b[i][j] == 0 || b[i][j] == 1
  }

  /** Column j of a square board (a row of numpy.transpose or of zip(*board)). */
  function Column(b: Board, j: int): seq<int>
    requires Square(b) && 0 <= j < |b|
  {
    seq(|b|, i requires 0 <= i < |b| => b[i][j])
  }

  /** The columns of a square board, in order. */
  function Transpose(b: Board): (t: Board)
    requires Square(b)
    ensures |t| == |b| && Square(t)
    ensures forall j :: 0 <= j < |b| ==> t[j] == Column(b, j)
  {
    seq(|b|, j requires 0 <= j < |b| => Column(b, j))
  }

  /** Transposing twice gives the board back: column i of the transpose is row i. */
  lemma TransposeTwice(b: Board)
    requires Square(b)
    ensures forall i :: 0 <= i < |b| ==> Column(Transpose(b), i) == b[i]
    ensures Transpose(Transpose(b)) == b
  {
    var t := Transpose(b);
    forall i | 0 <= i < |b| ensures Column(t, i) == b[i] {
      forall k | 0 <= k < |b| ensures Column(t, i)[k] == b[i][k] {
        assert t[k] == Column(b, k);
      }
    }
  }

  /** Concatenation is associative; LegalOnlyAppend regroups the filtered prefix with it. */
  lemma AppendAssoc<T>(a: seq<T>, b: seq<T>, c: seq<T>)
    ensures (a + b) + c == a + (b + c)
  {
  }

  /** Number of occurrences of v in a line. */
  function Count(s: seq<int>, v: int): (c: nat)
    ensures c <= |s|
    ensures c == 0 <==> v !in s
  {
    if s == [] then 0
    else Count(s[..|s| - 1], v) + (if s[|s| - 1] == v then 1 else 0)
  }

  lemma {:induction false} CountAppend(s: seq<int>, t: seq<int>, v: int)
    ensures Count(s + t, v) == Count(s, v) + Count(t, v)
  {
    if t != [] {
      assert (s + t)[..|s + t| - 1] == s + t[..|t| - 1];
      CountAppend(s, t[..|t| - 1], v);
    } else {
      assert s + t == s;
    }
  }

  /** The count of v in a line of four cells. */
  lemma CountOfFour(w: int, x: int, y: int, z: int, v: int)
    ensures Count([w, x, y, z], v) == (if w == v then 1 else 0) + (if x == v then 1 else 0) +
                                       (if y == v then 1 else 0) + (if z == v then 1 else 0)
  {
    assert [w][..0] == [];
    assert Count([w], v) == (if w == v then 1 else 0);
    assert [w, x][..1] == [w];
    assert Count([w, x], v) == Count([w], v) + (if x == v then 1 else 0);
    assert [w, x, y][..2] == [w, x];
    assert Count([w, x, y], v) == Count([w, x], v) + (if y == v then 1 else 0);
    assert [w, x, y, z][..3] == [w, x, y];
  }

  /** The count of v in a line of five cells. */
  lemma CountOfFive(w: int, x: int, y: int, z: int, u: int, v: int)
    ensures Count([w, x, y, z, u], v) == (if w == v then 1 else 0) + (if x == v then 1 else 0) +
                                          (if y == v then 1 else 0) + (if z == v then 1 else 0) +
                                          (if u == v then 1 else 0)
  {
    CountOfFour(w, x, y, z, v);
    assert [w, x, y, z, u][..4] == [w, x, y, z];
  }

  /** A line of 0/1 cells splits its length between the two counts. */
  lemma {:induction false} BinaryCounts(s: seq<int>)
    requires forall k :: 0 <= k < |s| ==> s[k] == 0 || s[k] == 1
    ensures Count(s, 0) + Count(s, 1) == |s|
  {
    if s != [] {
      BinaryCounts(s[..|s| - 1]);
    }
  }

  /** The write of Takuzu.result: cell (row, col) becomes v, nothing else changes. */
  function SetCell(b: Board, row: int, col: int, v: int): (r: Board)
    requires 0 <= row < |b| && 0 <= col < |b[row]|
    ensures |r| == |b|
    ensures forall i :: 0 <= i < |b| ==> |r[i]| == |b[i]|
    ensures forall i, j :: 0 <= i < |b| && 0 <= j < |b[i]| ==>
              r[i][j] == (if i == row && j == col then v else b[i][j])
  {
    b[row := b[row][col := v]]
  }

  /** Python's s[i]: negative indices count from the end, others raise IndexError. */
  function Index<T>(s: seq<T>, i: int): Outcome<T>
  {
    if 0 <= i < |s| then Ok(s[i])
    else if -|s| <= i < 0 then Ok(s[|s| + i])
    else Raised(IndexError)
  }

  /** Board.get_number: self.board[row][col]. */
  function GetNumber(b: Board, row: int, col: int): (r: Outcome<int>)
    ensures 0 <= row < |b| && 0 <= col < |b[row]| ==> r == Ok(b[row][col])
    ensures -|b| <= row < 0 && 0 <= col < |b[|b| + row]| ==> r == Ok(b[|b| + row][col])
    ensures (row < -|b| || |b| <= row) ==> r == Raised(IndexError)
    ensures 0 <= row < |b| && -|b[row]| <= col < 0 ==> r == Ok(b[row][|b[row]| + col])
    ensures 0 <= row < |b| && (col < -|b[row]| || |b[row]| <= col) ==> r == Raised(IndexError)
  {
    match Index(b, row)
    case Raised(e) => Raised(e)
    case Ok(line) => Index(line, col)
  }

  /** The pair a Board adjacency lookup returns. */
  datatype Neighbours = Neighbours(first: Option<int>, second: Option<int>)

  /** Board.adjacent_vertical_numbers: (below, above). */
  function AdjacentVertical(b: Board, row: int, col: int): (r: Outcome<Neighbours>)
    ensures Square(b) && 2 <= |b| && 0 <= row < |b| && 0 <= col < |b| ==>
              r == Ok(Neighbours(if row + 1 < |b| then Some(b[row + 1][col]) else None,
                                 if 0 < row then Some(b[row - 1][col]) else None))
    ensures Square(b) && |b| == 1 ==> r == Raised(IndexError)
  {
    if row == 0 then
      match GetNumber(b, row + 1, col)
      case Raised(e) => Raised(e)
      case Ok(below) => Ok(Neighbours(Some(below), None))
    else if row == |b| - 1 then
      match GetNumber(b, row - 1, col)
      case Raised(e) => Raised(e)
      case Ok(above) => Ok(Neighbours(None, Some(above)))
    else
      match GetNumber(b, row + 1, col)
      case Raised(e) => Raised(e)
      case Ok(below) =>
        match GetNumber(b, row - 1, col)
        case Raised(e) => Raised(e)
        case Ok(above) => Ok(Neighbours(Some(below), Some(above)))
  }

  /** Board.adjacent_horizontal_numbers: (left, right). */
  function AdjacentHorizontal(b: Board, row: int, col: int): (r: Outcome<Neighbours>)
    ensures Square(b) && 2 <= |b| && 0 <= row < |b| && 0 <= col < |b| ==>
              r == Ok(Neighbours(if 0 < col then Some(b[row][col - 1]) else None,
                                 if col + 1 < |b| then Some(b[row][col + 1]) else None))
    ensures Square(b) && |b| == 1 ==> r == Raised(IndexError)
  {
    if col == 0 then
      match GetNumber(b, row, col + 1)
      case Raised(e) => Raised(e)
      case Ok(right) => Ok(Neighbours(None, Some(right)))
    else if col == |b| - 1 then
      match GetNumber(b, row, col - 1)
      case Raised(e) => Raised(e)
      case Ok(left) => Ok(Neighbours(Some(left), None))
    else
      match GetNumber(b, row, col - 1)
      case Raised(e) => Raised(e)
      case Ok(left) =>
        match GetNumber(b, row, col + 1)
        case Raised(e) => Raised(e)
        case Ok(right) => Ok(Neighbours(Some(left), Some(right)))
  }

  /** All elements pairwise different. */
  predicate Distinct<T(==)>(s: seq<T>)
  {
    forall i, j :: 0 <= i < |s| && 0 <= j < |s| && i != j ==> s[i] != s[j]
  }
}
