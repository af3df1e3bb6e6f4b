/** The draft versao_certa.py: one undetermined cell is branched on at a
    time, and patch_illegal prunes with check_over_half, check_adjacent,
    check_lines and check_cols. */
module VersaoCerta {
  import opened Grid
  import opened Checks
  import opened Problem
  import opened Text

  // ---------------------------------------------------------------------
  // generate_possibilities

  /** list.index(x): the first position that holds x. */
  function IndexOf<T(==)>(s: seq<T>, x: T): (k: nat)
    requires x in s
    ensures k < |s| && s[k] == x
    ensures forall m :: 0 <= m < k ==> s[m] != x
  {
    if s[0] == x then 0 else 1 + IndexOf(s[1..], x)
  }

  /** The last row that holds v, if any. */
  function LastRowWith(b: Board, v: int): (r: Option<nat>)
    ensures r.None? <==> forall i :: 0 <= i < |b| ==> v !in b[i]
    ensures r.Some? ==> r.value < |b| && v in b[r.value]
    ensures r.Some? ==> forall i :: r.value < i < |b| ==> v !in b[i]
  {
    if b == [] then None
    else if v in b[|b| - 1] then Some(|b| - 1)
    else LastRowWith(b[..|b| - 1], v)
  }

  /** What `result` holds once the loops are done, given the last row holding 2:
      (board.index(row), row.index(2)). */
  function CellOf(b: Board, last: Option<nat>): Option<Pos>
    requires last.Some? ==> last.value < |b| && Undetermined in b[last.value]
  {
    match last
    case None => None
    case Some(l) => Some(Pos(IndexOf(b, b[l]), IndexOf(b[l], Undetermined)))
  }

  /** The cell generate_possibilities branches on. */
  function Target(b: Board): (t: Option<Pos>)
    ensures t.None? <==> Complete(b)
    ensures t.Some? ==> 0 <= t.value.row < |b| && 0 <= t.value.col < |b[t.value.row]|
    ensures t.Some? ==> b[t.value.row][t.value.col] == Undetermined
    ensures t.Some? ==> forall k :: 0 <= k < t.value.col ==> b[t.value.row][k] != Undetermined
    ensures t.Some? ==> forall i :: 0 <= i < t.value.row ==> b[i] != b[t.value.row]
    ensures t.Some? ==> exists l :: t.value.row <= l < |b| && b[l] == b[t.value.row] &&
                          forall i :: l < i < |b| ==> Undetermined !in b[i]
  {
    var last := LastRowWith(b, Undetermined);
    if last.Some? then
      var l := last.value;
      assert IndexOf(b, b[l]) <= l && b[IndexOf(b, b[l])] == b[l];
      CellOf(b, last)
    else
      CellOf(b, last)
  }

  /** The two actions on a cell: write 0, write 1. */
  function BothValues(p: Pos): seq<Action>
  {
    [Action(p.row, p.col, 0), Action(p.row, p.col, 1)]
  }

  /** Board.generate_possibilities: UnboundLocalError without a 2, otherwise both values
      for the first 2 of the first row equal to the last row that holds a 2. */
  method GeneratePossibilities(b: Board) returns (r: Outcome<seq<Action>>)
    ensures Target(b).None? ==> r == Raised(UnboundLocalError)
    ensures Target(b).Some? ==> r == Ok(BothValues(Target(b).value))
  {
    var result: Option<Pos> := None;
    ghost var last: Option<nat> := None;
    var i := 0;
    while i < |b|
      invariant 0 <= i <= |b|
      invariant last == LastRowWith(b[..i], Undetermined)
      invariant result == CellOf(b, last)
    {
      assert b[..i + 1][..i] == b[..i] && b[..i + 1][i] == b[i];
      var row := b[i];
      var k := 0;
      while k < |row|
        invariant 0 <= k <= |row|
        invariant Undetermined in row[..k] ==> last == Some(i)
        invariant Undetermined !in row[..k] ==> last == LastRowWith(b[..i], Undetermined)
        invariant result == CellOf(b, last)
      {
        assert row[..k + 1] == row[..k] + [row[k]];
        var el := row[k];
        if el == Undetermined {
          result := Some(Pos(IndexOf(b, row), IndexOf(row, el)));
          last := Some(i);
        }
        k := k + 1;
      }
      assert row[..k] == row;
      i := i + 1;
    }
    assert b[..i] == b;
    if result.None? {
      return Raised(UnboundLocalError);
    }
    return Ok(BothValues(result.value));
  }

  /** The row that holds the last 2 is reported under the index of an earlier equal row. */
  lemma TargetUsesFirstEqualRow()
    ensures Target([[2, 1], [2, 1]]) == Some(Pos(0, 0))
  {
    var b := [[2, 1], [2, 1]];
    assert Undetermined in b[1];
    assert LastRowWith(b, Undetermined) == Some(1);
    assert b[0] == b[1];
  }

  // ---------------------------------------------------------------------
  // patch_illegal

  /** The action leads to a board that passes every pruning check patch_illegal runs. */
  predicate Legal(b: Board, a: Action)
    requires Square(b)
    ensures InBounds(b, a) && Solved(SetCell(b, a.row, a.col, a.val)) ==> Legal(b, a)
  {
    InBounds(b, a) &&
    var c := SetCell(b, a.row, a.col, a.val);
    SolutionPasses(c);
    OverHalfOk(c) && RunFree(c) && CheckLines(c) && CheckCols(c)
  }

  /** The legal actions of arr, in their order. */
  function LegalOnly(b: Board, arr: seq<Action>): (r: seq<Action>)
    requires Square(b)
    ensures |r| <= |arr|
  {
    if arr == [] then []
    else LegalOnly(b, arr[..|arr| - 1]) + (if Legal(b, arr[|arr| - 1]) then [arr[|arr| - 1]] else [])
  }

  /** An action survives iff it is in arr and legal. */
  lemma {:induction false} LegalOnlyMembers(b: Board, arr: seq<Action>)
    requires Square(b)
    ensures forall x :: x in LegalOnly(b, arr) <==> x in arr && Legal(b, x)
  {
    if arr != [] {
      var init := arr[..|arr| - 1];
      LegalOnlyMembers(b, init);
      assert arr == init + [arr[|arr| - 1]];
    }
  }

  /** Filtering keeps the relative order: it distributes over concatenation. */
  lemma {:induction false} LegalOnlyAppend(b: Board, s: seq<Action>, t: seq<Action>)
    requires Square(b)
    ensures LegalOnly(b, s + t) == LegalOnly(b, s) + LegalOnly(b, t)
  {
    if t == [] {
      assert s + t == s;
    } else {
      var init, x := t[..|t| - 1], t[|t| - 1];
      assert (s + t)[..|s + t| - 1] == s + init;
      assert (s + t)[|s + t| - 1] == x;
      LegalOnlyAppend(b, s, init);
      var tail := if Legal(b, x) then [x] else [];
      assert LegalOnly(b, t) == LegalOnly(b, init) + tail;
      assert LegalOnly(b, s + t) == LegalOnly(b, s + init) + tail;
      AppendAssoc(LegalOnly(b, s), LegalOnly(b, init), tail);
    }
  }

  /** One pass of the first loop of patch_illegal: build the child state and add the
      action to temp once per check its board fails. */
  method Examine(state: TakuzuState, action: Action, counter: StateCounter) returns (added: seq<Action>)
    requires Square(state.board) && InBounds(state.board, action)
    modifies counter
    ensures forall x :: x in added <==> x == action && !Legal(state.board, action)
    ensures counter.stateId == old(counter.stateId) + 1
  {
    var child := Result(state, action, counter);
    var boardRes := child.board;
    SetCellSquare(state.board, action);
    var overHalf := CheckOverHalf(boardRes);
    added := AddIfFailed([], action, overHalf);
    var adjacent := CheckAdjacent(boardRes);
    added := AddIfFailed(added, action, adjacent);
    added := AddIfFailed(added, action, CheckLines(boardRes));
    added := AddIfFailed(added, action, CheckCols(boardRes));
    Copies(added, action, Legal(state.board, action));
  }

  /** `if not passed: temp += (action,)` on a temp that holds only copies of action. */
  method AddIfFailed(temp: seq<Action>, action: Action, passed: bool) returns (r: seq<Action>)
    requires forall k :: 0 <= k < |temp| ==> temp[k] == action
    ensures forall k :: 0 <= k < |r| ==> r[k] == action
    ensures |r| == 0 <==> |temp| == 0 && passed
  {
    r := temp;
    if !passed {
      r := r + [action];
    }
  }

  /** A list of copies of one action, empty exactly when every check passed. */
  lemma Copies(added: seq<Action>, action: Action, passed: bool)
    requires forall k :: 0 <= k < |added| ==> added[k] == action
    requires |added| == 0 <==> passed
    ensures forall x :: x in added <==> x == action && !passed
  {
    if !passed {
      assert added[0] in added;
    }
  }

  /** Takuzu.patch_illegal: every action gets a child state; those whose board fails a
      check are collected in temp, and the actions not in temp are kept in order. */
  method PatchIllegal(state: TakuzuState, arr: seq<Action>, counter: StateCounter) returns (res: seq<Action>)
    requires Square(state.board) && AllInBounds(state.board, arr)
    modifies counter
    ensures res == LegalOnly(state.board, arr)
    ensures counter.stateId == old(counter.stateId) + |arr|
  {
    var temp := CollectIllegal(state, arr, counter);
    res := KeepUnlisted(state.board, arr, temp);
  }

  /** The first loop of patch_illegal: temp ends up holding exactly the illegal actions. */
  method CollectIllegal(state: TakuzuState, arr: seq<Action>, counter: StateCounter) returns (temp: seq<Action>)
    requires Square(state.board) && AllInBounds(state.board, arr)
    modifies counter
    ensures forall x :: x in temp <==> x in arr && !Legal(state.board, x)
    ensures counter.stateId == old(counter.stateId) + |arr|
  {
    var b := state.board;
    temp := [];
    var i := 0;
    while i < |arr|
      invariant 0 <= i <= |arr|
      invariant counter.stateId == old(counter.stateId) + i
      invariant forall x :: x in temp <==> x in arr[..i] && !Legal(b, x)
    {
      assert arr[..i + 1] == arr[..i] + [arr[i]];
      var added := Examine(state, arr[i], counter);
      temp := temp + added;
      i := i + 1;
    }
    assert arr[..i] == arr;
  }

  /** The second loop of patch_illegal: append, in order, the actions not in temp. */
  method KeepUnlisted(b: Board, arr: seq<Action>, temp: seq<Action>) returns (res: seq<Action>)
    requires Square(b)
    requires forall x :: x in temp <==> x in arr && !Legal(b, x)
    ensures res == LegalOnly(b, arr)
  {
    res := [];
    var i := 0;
    while i < |arr|
      invariant 0 <= i <= |arr|
      invariant res == LegalOnly(b, arr[..i])
    {
      assert arr[..i + 1] == arr[..i] + [arr[i]];
      assert arr[..i + 1][..i] == arr[..i];
      var item := arr[i];
      assert item in arr;
      if item !in temp {
        res := res + [item];
      }
      i := i + 1;
    }
    assert arr[..i] == arr;
  }

  /** Takuzu.actions: the two candidate writes, pruned. */
  method Actions(state: TakuzuState, counter: StateCounter) returns (r: Outcome<seq<Action>>)
    requires Square(state.board)
    modifies counter
    ensures Target(state.board).None? ==> r == Raised(UnboundLocalError)
    ensures Target(state.board).None? ==> counter.stateId == old(counter.stateId)
    ensures Target(state.board).Some? ==> r == Ok(LegalOnly(state.board, BothValues(Target(state.board).value)))
    ensures Target(state.board).Some? ==> counter.stateId == old(counter.stateId) + 2
  {
    var generated := GeneratePossibilities(state.board);
    if generated.Raised? {
      return generated;
    }
    var pruned := PatchIllegal(state, generated.value, counter);
    return Ok(pruned);
  }

  /** patch_illegal only ever removes actions that lead nowhere: an action whose board some
      solved board fills in survives. */
  lemma PruningSound(b: Board, a: Action, c: Board)
    requires Square(b) && InBounds(b, a)
    requires Solved(c) && Extends(c, SetCell(b, a.row, a.col, a.val))
    ensures a in LegalOnly(b, [a])
  {
    var d := SetCell(b, a.row, a.col, a.val);
    OverHalfSound(c, d);
    RunFreeSound(c, d);
    UniqueSound(c, d);
    LegalOnlyMembers(b, [a]);
  }

  // ---------------------------------------------------------------------
  // goal_test

  /** Takuzu.goal_test: `2 not in board`, that is, no row holds a 2. */
  function GoalTest(b: Board): (r: bool)
    ensures r <==> Complete(b)
  {
    !Contains(b, Undetermined)
  }

  /** goal_test checks fullness only: a full board that breaks every rule is a goal. */
  lemma GoalIgnoresRules()
    ensures GoalTest([[1, 1, 1], [1, 1, 1], [1, 1, 1]])
    ensures !Solved([[1, 1, 1], [1, 1, 1], [1, 1, 1]])
  {
    var b := [[1, 1, 1], [1, 1, 1], [1, 1, 1]];
    assert RowRun(b, 0, 0);
  }

  // ---------------------------------------------------------------------
  // __str__

  /** The text of each row: its cells joined by tabs. */
  function RowTexts(b: Board): (parts: seq<string>)
    ensures |parts| == |b|
    ensures forall i :: 0 <= i < |b| ==> parts[i] == Join(CellTexts(b[i]), '\t')
  {
    seq(|b|, i requires 0 <= i < |b| => Join(CellTexts(b[i]), '\t'))
  }

  /** The text after the given cells of a row of length len: a tab after each, except a
      newline after the cell at index len-1. */
  function RowSoFar(parts: seq<string>, len: int): string
  {
    if parts == [] then []
    else RowSoFar(parts[..|parts| - 1], len) + parts[|parts| - 1] +
         (if |parts| == len then "\n" else "\t")
  }

  /** Before the last cell, the text so far is the terminated prefix. */
  lemma {:induction false} RowSoFarInit(parts: seq<string>, len: int)
    requires |parts| < len
    ensures RowSoFar(parts, len) == Terminated(parts, '\t')
  {
    if parts != [] {
      RowSoFarInit(parts[..|parts| - 1], len);
    }
  }

  /** After the last cell, the text so far is the joined row and a newline. */
  lemma RowSoFarAll(parts: seq<string>)
    requires parts != []
    ensures RowSoFar(parts, |parts|) == Join(parts, '\t') + "\n"
  {
    RowSoFarInit(parts[..|parts| - 1], |parts|);
    JoinLast(parts, '\t');
  }

  /** One more cell of the row. */
  lemma RowSoFarStep(parts: seq<string>, i: int, len: int)
    requires 0 <= i < |parts|
    ensures RowSoFar(parts[..i + 1], len) ==
            RowSoFar(parts[..i], len) + parts[i] + (if i + 1 == len then "\n" else "\t")
  {
    assert parts[..i + 1][..i] == parts[..i];
  }

  /** The inner loop of Board.__str__: a tab after every cell but the one at index len-1,
      which gets a newline. */
  method RenderRow(row: seq<int>, len: int) returns (s: string)
    requires |row| == len && len >= 1
    ensures s == Join(CellTexts(row), '\t') + "\n"
  {
    var parts := CellTexts(row);
    s := "";
    var index := 0;
    while index < |row|
      invariant 0 <= index <= |row|
      invariant s == RowSoFar(parts[..index], len)
    {
      var element := row[index];
      var text := IntText(element);
      assert text == parts[index];
      RowSoFarStep(parts, index, len);
      if index == len - 1 {
        s := s + text + "\n";
      } else {
        s := s + text + "\t";
      }
      index := index + 1;
    }
    assert parts[..index] == parts;
    RowSoFarAll(parts);
  }

  /** The loop of Board.__str__: every row followed by a newline. */
  method RenderLines(b: Board) returns (text: string)
    requires Square(b)
    ensures text == Terminated(RowTexts(b), '\n')
  {
    var parts := RowTexts(b);
    text := "";
    var i := 0;
    while i < |b|
      invariant 0 <= i <= |b|
      invariant text == Terminated(parts[..i], '\n')
    {
      var line := RenderRow(b[i], |b|);
      TerminatedStep(parts, i, text, line, '\n');
      text := text + line;
      i := i + 1;
    }
    assert parts[..i] == parts;
  }

  /** Board.__str__: every cell followed by a tab or, at the end of a row, a newline;
      then the final newline is cut off. */
  method Render(b: Board) returns (s: string)
    requires Square(b)
    ensures s == Join(RowTexts(b), '\n')
  {
    var text := RenderLines(b);
    if |b| == 0 {
      s := text;
    } else {
      TerminatedIsJoinPlusSep(RowTexts(b), '\n');
      s := text[..|text| - 1];
      DropLast(Join(RowTexts(b), '\n'), text, '\n');
    }
  }

  /** The text of a board of side N holds N-1 newlines (no trailing one). */
  lemma RenderNewlines(b: Board)
    requires Square(b) && |b| >= 1
    ensures CountChar(Join(RowTexts(b), '\n'), '\n') == |b| - 1
  {
    var parts := RowTexts(b);
    forall i | 0 <= i < |b| ensures CountChar(parts[i], '\n') == 0 {
      CellTextsPlain(b[i], '\n');
      JoinCount(CellTexts(b[i]), '\t', '\n', 0);
    }
    JoinCount(parts, '\n', '\n', 0);
  }

  /** The text of a board of side N holds N-1 tabs on each of its N rows. */
  lemma RenderTabs(b: Board)
    requires Square(b) && |b| >= 1
    ensures CountChar(Join(RowTexts(b), '\n'), '\t') == |b| * (|b| - 1)
  {
    var parts := RowTexts(b);
    forall i | 0 <= i < |b| ensures CountChar(parts[i], '\t') == |b| - 1 {
      CellTextsPlain(b[i], '\t');
      JoinCount(CellTexts(b[i]), '\t', '\t', 0);
    }
    JoinCount(parts, '\n', '\t', |b| - 1);
  }
}
