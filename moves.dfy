/**
 * The move generator of script.js (`getValidMoves`, `getLinearMoves`,
 * script.js:85-140) as functions of a board snapshot; the properties the
 * generator promises are proved about them in `MoveProperties`.
 * `ChessGame.Game.ValidMoves` and its helpers compute the same lists with
 * the source's loops.
 *
 * The result is the source's `moves` array: an ordered list of squares, in
 * the order of the direction and offset lists.
 */
module Moves {
  import opened Wrappers
  import opened Pieces
  import opened Chessboard

  // ---------------------------------------------------------------------
  // Dispatch
  // ---------------------------------------------------------------------

  /**
   * The branch `getValidMoves` takes. Each test is
   * `piece.toLowerCase() === "<white glyph>".toLowerCase()`; `toLowerCase`
   * leaves the chess glyphs unchanged, so each test compares the piece's
   * glyph with a WHITE glyph, and no black glyph (nor "") selects a branch.
   */
  function Dispatch(piece: Cell): Option<Kind> {
    var g := Glyph(piece);
    if g == "♙" then Some(Pawn)
    else if g == "♖" then Some(Rook)
    else if g == "♘" then Some(Knight)
    else if g == "♗" then Some(Bishop)
    else if g == "♕" then Some(Queen)
    else if g == "♔" then Some(King)
    else None
  }

  lemma DispatchOnlyWhite(piece: Cell)
    ensures Dispatch(piece).Some? <==> piece.Piece? && piece.color == White
    ensures Dispatch(piece).Some? ==> Dispatch(piece).value == piece.kind
  {
    match piece
    case Empty =>
    case Piece(_, _) =>
  }

  // ---------------------------------------------------------------------
  // Fixed direction and offset lists (script.js:103, 106, 112, 114, 116)
  // ---------------------------------------------------------------------

  const RookDirs: seq<Square> := [(1, 0), (-1, 0), (0, 1), (0, -1)]
  const BishopDirs: seq<Square> := [(1, 1), (1, -1), (-1, 1), (-1, -1)]
  const QueenDirs: seq<Square> :=
    [(1, 0), (-1, 0), (0, 1), (0, -1), (1, 1), (1, -1), (-1, 1), (-1, -1)]
  const KnightOffsets: seq<Square> :=
    [(2, 1), (1, 2), (-1, 2), (-2, 1), (-2, -1), (-1, -2), (1, -2), (2, -1)]
  const KingOffsets: seq<Square> :=
    [(1, 0), (-1, 0), (0, 1), (0, -1), (1, 1), (1, -1), (-1, 1), (-1, -1)]

  /** A direction a sliding walk may take: one step in each coordinate at most, and not standing still. */
  predicate UnitDir(d: Square) {
    -1 <= d.0 <= 1 && -1 <= d.1 <= 1 && d != (0, 0)
  }

  predicate AllUnit(dirs: seq<Square>) {
    forall i | 0 <= i < |dirs| :: UnitDir(dirs[i])
  }

  // ---------------------------------------------------------------------
  // Pawns (script.js:88-100)
  // ---------------------------------------------------------------------

  function PawnDir(piece: Cell): int {
    if IsWhite(piece) then -1 else 1
  }

  /** The forward square, kept when it is on the board and empty (script.js:91-93). */
  function PawnForward(b: Board, row: int, col: int, piece: Cell): seq<Square> {
    var t := (row + PawnDir(piece), col);
    if InBounds(t) && At(b, t) == Empty then [t] else []
  }

  /**
   * The diagonal on `side` (-1 or +1), kept when it is on the board,
   * non-empty (the truthiness test) and an enemy (script.js:95-99).
   */
  function PawnCapture(b: Board, row: int, col: int, piece: Cell, side: int): seq<Square> {
    var t := (row + PawnDir(piece), col + side);
    if InBounds(t) && At(b, t) != Empty && IsEnemy(piece, At(b, t)) then [t] else []
  }

  /**
   * The forward step and the two diagonal captures. Off-board rows and
   * columns, which the source detects as the `undefined` of an
   * out-of-range index, are explicit bounds tests.
   */
  function PawnMoves(b: Board, row: int, col: int, piece: Cell): seq<Square> {
    PawnForward(b, row, col, piece) + PawnCapture(b, row, col, piece, -1) + PawnCapture(b, row, col, piece, 1)
  }

  // ---------------------------------------------------------------------
  // Sliding pieces (script.js:126-140)
  // ---------------------------------------------------------------------

  /** How many more squares a walk from square s along d can visit before it leaves the board. */
  function StepsLeft(s: Square, d: Square): nat
    requires UnitDir(d)
  {
    if !InBounds(s) then 0
    else if d.0 == 1 then 8 - s.0
    else if d.0 == -1 then s.0 + 1
    else if d.1 == 1 then 8 - s.1
    else s.1 + 1
  }

  /** Each step along a unit direction brings the walk closer to the edge. */
  lemma StepsLeftDecreases(s: Square, d: Square)
    requires UnitDir(d) && InBounds(s)
    ensures StepsLeft((s.0 + d.0, s.1 + d.1), d) < StepsLeft(s, d)
  {
  }

  /**
   * One iteration of the `while` loop of `getLinearMoves` and what follows
   * it: from square s, keep empty squares and step on; stop at the first
   * occupied square, keeping it only if it holds an enemy.
   */
  function Walk(b: Board, piece: Cell, s: Square, d: Square): seq<Square>
    requires UnitDir(d)
    decreases StepsLeft(s, d)
  {
    if !InBounds(s) then []
    else if At(b, s) == Empty then [s] + Walk(b, piece, (s.0 + d.0, s.1 + d.1), d)
    else if IsEnemy(piece, At(b, s)) then [s]
    else []
  }

  /** The walk of one direction, starting next to the origin. */
  function Ray(b: Board, row: int, col: int, piece: Cell, d: Square): seq<Square>
    requires UnitDir(d)
  {
    Walk(b, piece, (row + d.0, col + d.1), d)
  }

  /** One step of a walk, unfolded. */
  lemma WalkStep(b: Board, piece: Cell, s: Square, d: Square)
    requires UnitDir(d) && InBounds(s)
    ensures At(b, s) == Empty ==> Walk(b, piece, s, d) == [s] + Walk(b, piece, (s.0 + d.0, s.1 + d.1), d)
    ensures At(b, s) != Empty ==> Walk(b, piece, s, d) == if IsEnemy(piece, At(b, s)) then [s] else []
  {
  }

  /** The loop of `getLinearMoves` keeps an empty square and steps on: what is left to collect shrinks by that square. */
  lemma WalkKeepsEmpty(b: Board, piece: Cell, s: Square, d: Square, moves: seq<Square>, all: seq<Square>)
    requires UnitDir(d) && InBounds(s) && At(b, s) == Empty
    requires moves + Walk(b, piece, s, d) == all
    ensures (moves + [s]) + Walk(b, piece, (s.0 + d.0, s.1 + d.1), d) == all
    ensures StepsLeft((s.0 + d.0, s.1 + d.1), d) < StepsLeft(s, d)
  {
    var rest := Walk(b, piece, (s.0 + d.0, s.1 + d.1), d);
    WalkStep(b, piece, s, d);
    StepsLeftDecreases(s, d);
    assert moves + ([s] + rest) == (moves + [s]) + rest;
  }

  /** The loop of `getLinearMoves` stops at an occupied square, keeping it only if it is an enemy. */
  lemma WalkStopsAt(b: Board, piece: Cell, s: Square, d: Square, moves: seq<Square>, all: seq<Square>)
    requires UnitDir(d) && InBounds(s) && At(b, s) != Empty
    requires moves + Walk(b, piece, s, d) == all
    ensures (if IsEnemy(piece, At(b, s)) then moves + [s] else moves) == all
  {
    WalkStep(b, piece, s, d);
    assert moves + [] == moves;
  }

  /** `getLinearMoves`: the walks of all directions, concatenated in list order. */
  function LinearMoves(b: Board, row: int, col: int, piece: Cell, dirs: seq<Square>): seq<Square>
    requires AllUnit(dirs)
  {
    if |dirs| == 0 then []
    else
      var d := dirs[|dirs| - 1];
      LinearMoves(b, row, col, piece, dirs[..|dirs| - 1]) + Ray(b, row, col, piece, d)
  }

  // ---------------------------------------------------------------------
  // Knights and kings (script.js:106-110, 116-120)
  // ---------------------------------------------------------------------

  /** The `forEach` over an offset list: each target, in list order, kept if on the board and not friendly. */
  function OffsetMoves(b: Board, row: int, col: int, piece: Cell, offs: seq<Square>): seq<Square> {
    if |offs| == 0 then []
    else
      var o := offs[|offs| - 1];
      var t := (row + o.0, col + o.1);
      OffsetMoves(b, row, col, piece, offs[..|offs| - 1])
      + (if InBounds(t) && !IsFriend(piece, At(b, t)) then [t] else [])
  }

  // ---------------------------------------------------------------------
  // The generator
  // ---------------------------------------------------------------------

  /** The moves of each branch, given the branch. */
  function MovesFor(b: Board, row: int, col: int, piece: Cell, kind: Kind): seq<Square> {
    match kind
    case Pawn => PawnMoves(b, row, col, piece)
    case Rook => LinearMoves(b, row, col, piece, RookDirs)
    case Knight => OffsetMoves(b, row, col, piece, KnightOffsets)
    case Bishop => LinearMoves(b, row, col, piece, BishopDirs)
    case Queen => LinearMoves(b, row, col, piece, QueenDirs)
    case King => OffsetMoves(b, row, col, piece, KingOffsets)
  }

  /** `getValidMoves` as written: a glyph that selects no branch gets no moves. */
  function ValidMoves(b: Board, row: int, col: int, piece: Cell): seq<Square> {
    match Dispatch(piece)
    case None => []
    case Some(kind) => MovesFor(b, row, col, piece, kind)
  }

  /**
   * The generator with the dispatch the source evidently intends: by the
   * piece's kind, whatever its colour. Only `Dispatch` differs.
   */
  function IntendedMoves(b: Board, row: int, col: int, piece: Cell): seq<Square> {
    if piece.Empty? then [] else MovesFor(b, row, col, piece, piece.kind)
  }
}
