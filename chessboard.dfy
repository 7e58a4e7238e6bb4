/**
 * The 8x8 board as a value, the squares on it and the update `movePiece`
 * performs (script.js:8-17, 66-70).
 */
module Chessboard {
  import opened Pieces

  /** A (row, column) pair, as the source's `[r, c]` arrays; not necessarily on the board. */
  type Square = (int, int)

  predicate InBounds(s: Square) {
    0 <= s.0 < 8 && 0 <= s.1 < 8
  }

  predicate IsBoard(b: seq<seq<Cell>>) {
    |b| == 8 && forall r | 0 <= r < 8 :: |b[r]| == 8
  }

  /** A snapshot of `initialBoard`: eight rows of eight cells. */
  type Board = b: seq<seq<Cell>> | IsBoard(b) witness seq(8, _ => seq(8, _ => Empty))

  function At(b: Board, s: Square): Cell
    requires InBounds(s)
  {
    b[s.0][s.1]
  }

  /** The `selectedPiece` record `{ row, col, piece }`. */
  datatype Selection = Selection(row: int, col: int, piece: Cell)

  function Origin(sel: Selection): Square {
    (sel.row, sel.col)
  }

  const EmptyRow: seq<Cell> := seq(8, _ => Empty)
  const EmptyBoard: Board := seq(8, _ => EmptyRow)

  function BackRank(c: Color): seq<Cell> {
    [Piece(c, Rook), Piece(c, Knight), Piece(c, Bishop), Piece(c, Queen),
     Piece(c, King), Piece(c, Bishop), Piece(c, Knight), Piece(c, Rook)]
  }

  /** The starting layout: black on rows 0-1, white on rows 6-7. */
  const InitialBoard: Board :=
    [BackRank(Black), seq(8, _ => Piece(Black, Pawn)),
     EmptyRow, EmptyRow, EmptyRow, EmptyRow,
     seq(8, _ => Piece(White, Pawn)), BackRank(White)]

  /** The same kind in the other colour; an empty cell stays empty. */
  function Mirror(x: Cell): Cell {
    if x.Empty? then Empty else Piece(Flip(x.color), x.kind)
  }

  /**
   * The starting layout: rows 2-5 are empty, black holds rows 0-1 and white
   * rows 6-7, white's pawns fill row 6, the kings stand in column 4, and
   * each side is the other's mirror image across the middle of the board.
   */
  lemma InitialLayout()
    ensures forall r, c | 0 <= r < 8 && 0 <= c < 8 ::
      && (InitialBoard[r][c] == Empty <==> 2 <= r <= 5)
      && (InitialBoard[r][c].Piece? ==> (InitialBoard[r][c].color == White <==> r >= 6))
      && InitialBoard[7 - r][c] == Mirror(InitialBoard[r][c])
    ensures forall c | 0 <= c < 8 :: InitialBoard[6][c] == Piece(White, Pawn)
    ensures InitialBoard[7][4] == Piece(White, King) && InitialBoard[0][4] == Piece(Black, King)
  {
    forall r, c | 0 <= r < 8 && 0 <= c < 8
      ensures && (InitialBoard[r][c] == Empty <==> 2 <= r <= 5)
              && (InitialBoard[r][c].Piece? ==> (InitialBoard[r][c].color == White <==> r >= 6))
              && InitialBoard[7 - r][c] == Mirror(InitialBoard[r][c])
    {
      assert BackRank(White)[c] == Mirror(BackRank(Black)[c]);
      assert BackRank(Black)[c] == Mirror(BackRank(White)[c]);
    }
  }

  /** `b` with the cell at `s` overwritten by `x`. */
  function Put(b: Board, s: Square, x: Cell): (r: Board)
    requires InBounds(s)
    ensures At(r, s) == x
    ensures forall t | InBounds(t) && t != s :: At(r, t) == At(b, t)
  {
    b[s.0 := b[s.0][s.1 := x]]
  }

  /**
   * `movePiece`: the destination receives the moved glyph, then the origin
   * is cleared. Nothing is checked and a captured piece is simply overwritten.
   */
  function Move(b: Board, from: Selection, to: Square): (r: Board)
    requires InBounds(Origin(from)) && InBounds(to)
    ensures At(r, Origin(from)) == Empty
    ensures to != Origin(from) ==> At(r, to) == from.piece
    ensures forall t | InBounds(t) && t != to && t != Origin(from) :: At(r, t) == At(b, t)
  {
    Put(Put(b, to, from.piece), Origin(from), Empty)
  }
}
