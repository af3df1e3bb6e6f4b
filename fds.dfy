/** The draft fds.py: every undetermined cell is branched on, patch_illegal
    has every check commented out, and goal_test only asks for a full board. */
module Fds {
  import opened Grid
  import opened Checks
  import opened Problem
  import opened Text

  // ---------------------------------------------------------------------
  // generate_possibilities

  /** Row-major order of positions. */
  predicate Before(p: Pos, q: Pos)
  {
    p.row < q.row || (p.row == q.row && p.col < q.col)
  }

  /** The positions of row i (a line `row`) that hold v, left to right. */
  function RowHits(row: seq<int>, i: int, v: int): (r: seq<Pos>)
    ensures |r| == Count(row, v)
    ensures forall p :: p in r <==> p.row == i && 0 <= p.col < |row| && row[p.col] == v
    ensures forall k :: 0 <= k < |r| ==> r[k].row == i
    ensures forall j, k :: 0 <= j < k < |r| ==> r[j].col < r[k].col
  {
    if row == [] then []
    else
      var init := RowHits(row[..|row| - 1], i, v);
      assert forall k :: 0 <= k < |init| ==> init[k] in init;
      init + (if row[|row| - 1] == v then [Pos(i, |row| - 1)] else [])
  }

  /** How many cells of the board hold v. */
  function CountBoard(b: Board, v: int): nat
  {
    if b == [] then 0 else CountBoard(b[..|b| - 1], v) + Count(b[|b| - 1], v)
  }

  /** numpy.argwhere(board == v): the positions holding v in row-major order. */
  function Hits(b: Board, v: int): (r: seq<Pos>)
    ensures |r| == CountBoard(b, v)
    ensures forall p :: p in r <==> 0 <= p.row < |b| && 0 <= p.col < |b[p.row]| && b[p.row][p.col] == v
    ensures forall k :: 0 <= k < |r| ==> 0 <= r[k].row < |b|
    ensures forall j, k :: 0 <= j < k < |r| ==> Before(r[j], r[k])
  {
    if b == [] then []
    else
      var n := |b| - 1;
      var init := Hits(b[..n], v);
      var last := RowHits(b[n], n, v);
      assert forall k :: 0 <= k < |last| ==> last[k] in last;
      init + last
  }

  /** The actions that write val at each of the positions, in order. */
  function WriteAll(h: seq<Pos>, val: int): (r: seq<Action>)
    ensures |r| == |h|
    ensures forall k :: 0 <= k < |h| ==> r[k] == Action(h[k].row, h[k].col, val)
  {
    seq(|h|, k requires 0 <= k < |h| => Action(h[k].row, h[k].col, val))
  }

  /** An action is among the writes iff it writes val at one of the positions. */
  lemma WriteAllMembers(h: seq<Pos>, val: int)
    ensures forall a :: a in WriteAll(h, val) <==> a.val == val && Pos(a.row, a.col) in h
  {
    var r := WriteAll(h, val);
    forall a: Action | a.val == val && Pos(a.row, a.col) in h ensures a in r {
      var k :| 0 <= k < |h| && h[k] == Pos(a.row, a.col);
      assert r[k] == a;
    }
    forall a: Action | a in r ensures a.val == val && Pos(a.row, a.col) in h {
      var k :| 0 <= k < |r| && r[k] == a;
      assert h[k] == Pos(a.row, a.col);
    }
  }

  /** Board.generate_possibilities: (row, col, y) for y in (0, 1) for every 2-cell. */
  function GeneratePossibilities(b: Board): (r: seq<Action>)
    ensures |r| == 2 * CountBoard(b, Undetermined)
  {
    BothWrites(Hits(b, Undetermined))
  }

  /** The 0-writes of the positions followed by their 1-writes. */
  function BothWrites(h: seq<Pos>): (r: seq<Action>)
    ensures |r| == 2 * |h|
  {
    WriteAll(h, 0) + WriteAll(h, 1)
  }

  /** The two writes of position k: the 0-write at k, the 1-write at |h| + k. */
  lemma BothHalves(h: seq<Pos>, k: int)
    requires 0 <= k < |h|
    ensures BothWrites(h)[k] == Action(h[k].row, h[k].col, 0)
    ensures BothWrites(h)[|h| + k] == Action(h[k].row, h[k].col, 1)
  {
    var w0, w1 := WriteAll(h, 0), WriteAll(h, 1);
    assert (w0 + w1)[k] == w0[k] && (w0 + w1)[|h| + k] == w1[k];
  }

  /** The writes of positions in row-major order: 0s first, then the same cells with 1,
      both in row-major order. */
  lemma ShapeOfWrites(h: seq<Pos>)
    requires forall j, k :: 0 <= j < k < |h| ==> Before(h[j], h[k])
    ensures var r, m := BothWrites(h), |h|;
      && (forall k :: 0 <= k < m ==> r[k].val == 0)
      && (forall j, k :: 0 <= k < m && j == m + k ==> r[j] == Action(r[k].row, r[k].col, 1))
      && (forall j, k :: 0 <= j < k < m ==> Before(Pos(r[j].row, r[j].col), Pos(r[k].row, r[k].col)))
  {
    var r := BothWrites(h);
    forall k | 0 <= k < |h| ensures r[k].val == 0 {
      BothHalves(h, k);
    }
    forall j, k | 0 <= k < |h| && j == |h| + k ensures r[j] == Action(r[k].row, r[k].col, 1) {
      BothHalves(h, k);
    }
    forall j, k | 0 <= j < k < |h| ensures Before(Pos(r[j].row, r[j].col), Pos(r[k].row, r[k].col)) {
      BothHalves(h, j);
      BothHalves(h, k);
      assert Before(h[j], h[k]);
    }
  }

  /** Two actions per undetermined cell: the 0-writes in row-major order, then the
      1-writes of the same cells in the same order. */
  lemma GenerateShape(b: Board)
    ensures var r, m := GeneratePossibilities(b), CountBoard(b, Undetermined);
      && |r| == 2 * m
      && (forall k :: 0 <= k < m ==> r[k].val == 0)
      && (forall j, k :: 0 <= k < m && j == m + k ==> r[j] == Action(r[k].row, r[k].col, 1))
      && (forall j, k :: 0 <= j < k < m ==> Before(Pos(r[j].row, r[j].col), Pos(r[k].row, r[k].col)))
  {
    var h := Hits(b, Undetermined);
    ShapeOfWrites(h);
    assert GeneratePossibilities(b) == BothWrites(h);
  }

  /** A write in the list comes from one of the positions and writes 0 or 1. */
  lemma WrittenFrom(h: seq<Pos>, a: Action)
    requires a in BothWrites(h)
    ensures Pos(a.row, a.col) in h && (a.val == 0 || a.val == 1)
  {
    var r := BothWrites(h);
    var k :| 0 <= k < |r| && r[k] == a;
    var i := if k < |h| then k else k - |h|;
    BothHalves(h, i);
    assert h[i] == Pos(a.row, a.col);
  }

  /** Both writes of every position are in the list. */
  lemma WrittenTo(h: seq<Pos>, a: Action)
    requires Pos(a.row, a.col) in h && (a.val == 0 || a.val == 1)
    ensures a in BothWrites(h)
  {
    var r := BothWrites(h);
    var k :| 0 <= k < |h| && h[k] == Pos(a.row, a.col);
    BothHalves(h, k);
    if a.val == 0 {
      assert r[k] == a;
    } else {
      assert r[|h| + k] == a;
    }
  }

  /** One action is generated iff it writes 0 or 1 into an undetermined cell. */
  lemma GenerateMember(b: Board, a: Action)
    ensures a in GeneratePossibilities(b) <==>
              InBounds(b, a) && b[a.row][a.col] == Undetermined && (a.val == 0 || a.val == 1)
  {
    var h := Hits(b, Undetermined);
    assert GeneratePossibilities(b) == BothWrites(h);
    if a in GeneratePossibilities(b) {
      WrittenFrom(h, a);
    }
    if InBounds(b, a) && b[a.row][a.col] == Undetermined && (a.val == 0 || a.val == 1) {
      assert Pos(a.row, a.col) in h;
      WrittenTo(h, a);
    }
  }

  /** An action is generated iff it writes 0 or 1 into an undetermined cell. */
  lemma GenerateMembers(b: Board)
    ensures forall a :: a in GeneratePossibilities(b) <==>
              InBounds(b, a) && b[a.row][a.col] == Undetermined && (a.val == 0 || a.val == 1)
  {
    forall a {
      GenerateMember(b, a);
    }
  }

  /** Nothing is generated exactly on a full board. */
  lemma GenerateEmpty(b: Board)
    ensures GeneratePossibilities(b) == [] <==> Complete(b)
  {
    var h := Hits(b, Undetermined);
    if h != [] {
      assert h[0] in h;
      assert Undetermined in b[h[0].row];
    }
    if !Complete(b) {
      var i :| 0 <= i < |b| && Undetermined in b[i];
      var j :| 0 <= j < |b[i]| && b[i][j] == Undetermined;
      assert Pos(i, j) in h;
    }
  }

  /** No action is generated twice. */
  lemma GenerateDistinct(b: Board)
    ensures Distinct(GeneratePossibilities(b))
  {
    var h := Hits(b, Undetermined);
    var r := GeneratePossibilities(b);
    var m := |h|;
    forall j, k | 0 <= j < |r| && 0 <= k < |r| && j != k ensures r[j] != r[k] {
      if (j < m) == (k < m) {
        var j', k' := if j < m then j else j - m, if k < m then k else k - m;
        if j' < k' {
          assert Before(h[j'], h[k']);
        } else {
          assert Before(h[k'], h[j']);
        }
      }
    }
  }

  // ---------------------------------------------------------------------
  // patch_illegal, goal_test, actions

  /** Takuzu.patch_illegal with every check commented out: a child state per action, temp
      stays empty, and every action is kept in order. */
  method PatchIllegal(state: TakuzuState, arr: seq<Action>, counter: StateCounter) returns (res: seq<Action>)
    requires AllInBounds(state.board, arr)
    modifies counter
    ensures res == arr
    ensures counter.stateId == old(counter.stateId) + |arr|
  {
    var temp: seq<Action> := [];
    var k := 0;
    while k < |arr|
      invariant 0 <= k <= |arr|
      invariant counter.stateId == old(counter.stateId) + k
    {
      var child := Result(state, arr[k], counter);
      k := k + 1;
    }
    res := [];
    k := 0;
    while k < |arr|
      invariant 0 <= k <= |arr|
      invariant res == arr[..k]
    {
      assert arr[..k + 1] == arr[..k] + [arr[k]];
      var item := arr[k];
      if item !in temp {
        res := res + [item];
      }
      k := k + 1;
    }
    assert arr[..k] == arr;
  }

  /** Takuzu.goal_test: full_board and nothing else. */
  method GoalTest(state: TakuzuState) returns (r: bool)
    ensures r <==> Complete(state.board)
  {
    var board := state.board;
    var full := FullBoard(board);
    if !full {
      return false;
    }
    return true;
  }

  /** The generated actions all write a cell that exists. */
  lemma GeneratedInBounds(b: Board)
    ensures AllInBounds(b, GeneratePossibilities(b))
  {
    GenerateMembers(b);
    var r := GeneratePossibilities(b);
    forall k | 0 <= k < |r| ensures InBounds(b, r[k]) {
      assert r[k] in r;
    }
  }

  /** Takuzu.actions: every write of every undetermined cell, unpruned. */
  method Actions(state: TakuzuState, counter: StateCounter) returns (r: seq<Action>)
    modifies counter
    ensures r == GeneratePossibilities(state.board)
    ensures counter.stateId == old(counter.stateId) + 2 * CountBoard(state.board, Undetermined)
  {
    var generated := GeneratePossibilities(state.board);
    GeneratedInBounds(state.board);
    GenerateShape(state.board);
    r := PatchIllegal(state, generated, counter);
  }

  // ---------------------------------------------------------------------
  // __str__

  /** The text of each row: every cell followed by a tab. */
  function RowTexts(b: Board): (parts: seq<string>)
    ensures |parts| == |b|
    ensures forall i :: 0 <= i < |b| ==> parts[i] == Terminated(CellTexts(b[i]), '\t')
  {
    seq(|b|, i requires 0 <= i < |b| => Terminated(CellTexts(b[i]), '\t'))
  }

  /** The inner loop of Board.__str__: each cell followed by a tab. */
  method RenderRow(row: seq<int>) returns (s: string)
    ensures s == Terminated(CellTexts(row), '\t')
  {
    var parts := CellTexts(row);
    s := "";
    var k := 0;
    while k < |row|
      invariant 0 <= k <= |row|
      invariant s == Terminated(parts[..k], '\t')
    {
      var piece := IntText(row[k]) + "\t";
      TerminatedStep(parts, k, s, piece, '\t');
      s := s + piece;
      k := k + 1;
    }
    assert parts[..k] == parts;
  }

  /** Board.__str__: every row followed by a newline, the last one included. */
  method Render(b: Board) returns (s: string)
    ensures s == Terminated(RowTexts(b), '\n')
  {
    var parts := RowTexts(b);
    s := "";
    var i := 0;
    while i < |b|
      invariant 0 <= i <= |b|
      invariant s == Terminated(parts[..i], '\n')
    {
      var line := RenderRow(b[i]);
      TerminatedStep(parts, i, s, line + "\n", '\n');
      s := s + line + "\n";
      i := i + 1;
    }
    assert parts[..i] == parts;
  }

  /** The text of a board of side N holds exactly N newlines, one after every row. */
  lemma RenderNewlines(b: Board)
    ensures CountChar(Terminated(RowTexts(b), '\n'), '\n') == |b|
  {
    var parts := RowTexts(b);
    forall i | 0 <= i < |b| ensures CountChar(parts[i], '\n') == 0 {
      CellTextsPlain(b[i], '\n');
      TerminatedCount(CellTexts(b[i]), '\t', '\n', 0);
    }
    TerminatedCount(parts, '\n', '\n', 0);
  }

  /** The text of a board of side N holds N tabs on each of its N rows. */
  lemma RenderTabs(b: Board)
    requires Square(b)
    ensures CountChar(Terminated(RowTexts(b), '\n'), '\t') == |b| * |b|
  {
    var parts := RowTexts(b);
    forall i | 0 <= i < |b| ensures CountChar(parts[i], '\t') == |b| {
      CellTextsPlain(b[i], '\t');
      TerminatedCount(CellTexts(b[i]), '\t', '\t', 0);
    }
    TerminatedCount(parts, '\n', '\t', |b|);
  }
}
