/** The search-state wrapper and the one-cell transition that all three
    drafts share: class TakuzuState with its class-wide id counter, and
    Takuzu.result. */
module Problem {
  import opened Grid

  /** The class attribute TakuzuState.state_id, shared by every construction. */
  class StateCounter {
    var stateId: nat

    constructor ()
      ensures stateId == 0
    {
      stateId := 0;
    }
  }

  /** A search state: a board and the creation-order id taken from the counter. */
  class TakuzuState {
    const board: Board
    const id: nat

    /** TakuzuState.__init__: take the current counter value, then bump the counter. */
    constructor (board: Board, counter: StateCounter)
      modifies counter
      ensures this.board == board
      ensures id == old(counter.stateId)
      ensures counter.stateId == old(counter.stateId) + 1
    {
      this.board := board;
      this.id := counter.stateId;
      counter.stateId := counter.stateId + 1;
    }

    /** TakuzuState.__lt__: states compare by id alone. */
    predicate Less(other: TakuzuState)
      ensures Less(other) ==> other != this
    {
      id < other.id
    }
  }

  /** __lt__ is a strict order on states: never both ways, and transitive. */
  lemma LessIsStrict(s: TakuzuState, t: TakuzuState, u: TakuzuState)
    ensures s.Less(t) ==> !t.Less(s)
    ensures s.Less(t) && t.Less(u) ==> s.Less(u)
  {
  }

  /** Two states built one after the other are ordered by creation, whatever their boards. */
  method CreationOrder(first: Board, second: Board, counter: StateCounter)
    returns (s: TakuzuState, t: TakuzuState)
    modifies counter
    ensures fresh(s) && fresh(t)
    ensures s.Less(t) && !t.Less(s)
    ensures t.id == s.id + 1 && counter.stateId == old(counter.stateId) + 2
  {
    s := new TakuzuState(first, counter);
    t := new TakuzuState(second, counter);
  }

  /** The action writes a cell that exists. */
  predicate InBounds(b: Board, a: Action)
  {
    0 <= a.row < |b| && 0 <= a.col < |b[a.row]|
  }

  /** Every action of arr writes a cell that exists. */
  predicate AllInBounds(b: Board, arr: seq<Action>)
  {
    forall k :: 0 <= k < |arr| ==> InBounds(b, arr[k])
  }

  /** The write of Takuzu.result keeps a square board square. */
  lemma SetCellSquare(b: Board, a: Action)
    requires Square(b) && InBounds(b, a)
    ensures Square(SetCell(b, a.row, a.col, a.val))
  {
  }

  /** Takuzu.result: copy the grid, overwrite one cell, wrap the copy in a new state. */
  method Result(state: TakuzuState, action: Action, counter: StateCounter) returns (child: TakuzuState)
    requires InBounds(state.board, action)
    modifies counter
    ensures fresh(child)
    ensures child.board == SetCell(state.board, action.row, action.col, action.val)
    ensures child.id == old(counter.stateId)
    ensures counter.stateId == old(counter.stateId) + 1
  {
    var row, col, val := action.row, action.col, action.val;
    var resultBoard := state.board;
    resultBoard := resultBoard[row := resultBoard[row][col := val]];
    child := new TakuzuState(resultBoard, counter);
  }
}
