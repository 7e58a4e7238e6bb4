/**
 * The selection-and-turn logic of `handleClick` (script.js:43-64) as a
 * function on a session state, with the DOM calls stripped out.
 *
 * `isValidMove` is called by the source but defined nowhere in script.js;
 * it is a parameter here, a function chosen by the caller.
 */
module Session {
  import opened Wrappers
  import opened Pieces
  import opened Chessboard

  /** The board, the `selectedPiece` slot (null is `None`) and `turn`. */
  datatype State = State(board: Board, selected: Option<Selection>, turn: Color)

  /** The selection test of script.js:50: the clicked glyph belongs to the side to move. */
  predicate MayPick(turn: Color, piece: Cell) {
    (turn == White && IsWhite(piece)) || (turn == Black && IsBlack(piece))
  }

  /** The session before the first click. */
  const Start: State := State(InitialBoard, None, White)

  /** The selection is a square on the board. */
  predicate SelectionOnBoard(s: State) {
    s.selected.Some? ==> InBounds(Origin(s.selected.value))
  }

  /**
   * What a session keeps between clicks: a pending selection stands on the
   * board, still holds the glyph it recorded, and belongs to the side to move.
   */
  predicate Consistent(s: State) {
    s.selected.Some? ==>
      var sel := s.selected.value;
      InBounds(Origin(sel)) && At(s.board, Origin(sel)) == sel.piece && MayPick(s.turn, sel.piece)
  }

  /** One click on square (row, col). */
  function Click(s: State, row: int, col: int, isValidMove: (Selection, int, int) -> bool): (t: State)
    requires InBounds((row, col)) && SelectionOnBoard(s)
    ensures SelectionOnBoard(t)
  {
    var piece := At(s.board, (row, col));
    match s.selected
    case None =>
      if MayPick(s.turn, piece) then s.(selected := Some(Selection(row, col, piece))) else s
    case Some(sel) =>
      if isValidMove(sel, row, col) then State(Move(s.board, sel, (row, col)), None, Flip(s.turn))
      else s.(selected := None)
  }

  /** With no selection, a click selects exactly a piece of the side to move, and changes nothing else. */
  lemma SelectOnlyOwnPiece(s: State, row: int, col: int, isValidMove: (Selection, int, int) -> bool)
    requires InBounds((row, col)) && s.selected == None
    ensures var t := Click(s, row, col, isValidMove);
      && (t.selected.Some? <==> MayPick(s.turn, At(s.board, (row, col))))
      && (t.selected.Some? ==> t.selected.value == Selection(row, col, At(s.board, (row, col))))
      && t.board == s.board && t.turn == s.turn
  {
  }

  /** With a selection, every click, accepted or not, clears it. */
  lemma ClickClearsSelection(s: State, row: int, col: int, isValidMove: (Selection, int, int) -> bool)
    requires InBounds((row, col)) && SelectionOnBoard(s) && s.selected.Some?
    ensures Click(s, row, col, isValidMove).selected == None
  {
  }

  /**
   * The turn flips, and the board changes by `movePiece`, exactly when a
   * selection exists and `isValidMove` accepts the click.
   */
  lemma TurnFlipsOnAcceptedMove(s: State, row: int, col: int, isValidMove: (Selection, int, int) -> bool)
    requires InBounds((row, col)) && SelectionOnBoard(s)
    ensures var accepted := s.selected.Some? && isValidMove(s.selected.value, row, col);
      var t := Click(s, row, col, isValidMove);
      && (t.turn != s.turn <==> accepted)
      && (accepted ==> t.turn == Flip(s.turn) && t.board == Move(s.board, s.selected.value, (row, col)))
      && (!accepted ==> t.board == s.board)
  {
  }

  /** Clicks keep a session consistent. */
  lemma ClickPreservesConsistent(s: State, row: int, col: int, isValidMove: (Selection, int, int) -> bool)
    requires InBounds((row, col)) && Consistent(s)
    ensures SelectionOnBoard(s)
    ensures Consistent(Click(s, row, col, isValidMove))
  {
  }

  /** Whether a click commits a move: a selection is pending and `isValidMove` accepts. */
  predicate Commits(s: State, row: int, col: int, isValidMove: (Selection, int, int) -> bool) {
    s.selected.Some? && isValidMove(s.selected.value, row, col)
  }

  predicate AllOnBoard(clicks: seq<Square>) {
    forall i | 0 <= i < |clicks| :: InBounds(clicks[i])
  }

  /** A run of clicks, one after another. */
  function Run(s: State, clicks: seq<Square>, isValidMove: (Selection, int, int) -> bool): State
    requires SelectionOnBoard(s) && AllOnBoard(clicks)
    decreases |clicks|
  {
    if clicks == [] then s
    else Run(Click(s, clicks[0].0, clicks[0].1, isValidMove), clicks[1..], isValidMove)
  }

  /** How many clicks of a run commit a move. */
  function Committed(s: State, clicks: seq<Square>, isValidMove: (Selection, int, int) -> bool): nat
    requires SelectionOnBoard(s) && AllOnBoard(clicks)
    decreases |clicks|
  {
    if clicks == [] then 0
    else
      var t := Click(s, clicks[0].0, clicks[0].1, isValidMove);
      (if Commits(s, clicks[0].0, clicks[0].1, isValidMove) then 1 else 0) + Committed(t, clicks[1..], isValidMove)
  }

  /** A consistent session stays consistent over any run of clicks. */
  lemma {:induction false} RunPreservesConsistent(s: State, clicks: seq<Square>, isValidMove: (Selection, int, int) -> bool)
    requires Consistent(s) && AllOnBoard(clicks)
    ensures SelectionOnBoard(s)
    ensures Consistent(Run(s, clicks, isValidMove))
    decreases |clicks|
  {
    if clicks != [] {
      ClickPreservesConsistent(s, clicks[0].0, clicks[0].1, isValidMove);
      RunPreservesConsistent(Click(s, clicks[0].0, clicks[0].1, isValidMove), clicks[1..], isValidMove);
    }
  }

  /** The turn flips once per committed move: after a run it is the starting side iff an even number committed. */
  lemma {:induction false} TurnParity(s: State, clicks: seq<Square>, isValidMove: (Selection, int, int) -> bool)
    requires SelectionOnBoard(s) && AllOnBoard(clicks)
    ensures Run(s, clicks, isValidMove).turn ==
      if Committed(s, clicks, isValidMove) % 2 == 0 then s.turn else Flip(s.turn)
    decreases |clicks|
  {
    if clicks != [] {
      TurnFlipsOnAcceptedMove(s, clicks[0].0, clicks[0].1, isValidMove);
      TurnParity(Click(s, clicks[0].0, clicks[0].1, isValidMove), clicks[1..], isValidMove);
    }
  }
}
