/**
 * The page's global state (`initialBoard`, `selectedPiece`, `turn`) as one
 * object, and the functions of script.js that read and update it, written
 * as the source writes them: loops that push onto `moves`, and in-place
 * writes to the board.
 */
module ChessGame {
  import opened Wrappers
  import opened Pieces
  import opened Chessboard
  import Moves
  import Session

  /** The contents of an 8x8 array as a board value. */
  ghost function Contents(a: array2<Cell>): (cells: Board)
    requires a.Length0 == 8 && a.Length1 == 8
    reads a
    ensures forall r, c | 0 <= r < 8 && 0 <= c < 8 :: cells[r][c] == a[r, c]
  {
    seq(8, r reads a requires a.Length0 == 8 && a.Length1 == 8 && 0 <= r < 8 =>
      seq(8, c reads a requires a.Length0 == 8 && a.Length1 == 8 && 0 <= c < 8 => a[r, c]))
  }

  class Game {
    /** `initialBoard`: updated in place by `MovePiece`. */
    var board: array2<Cell>
    /** `selectedPiece`; `None` is null. */
    var selected: Option<Selection>
    var turn: Color

    ghost predicate Valid()
      reads this
    {
      board.Length0 == 8 && board.Length1 == 8
    }

    /** The board's contents as a value. */
    ghost function Cells(): (cells: Board)
      requires Valid()
      reads this, board
      ensures forall r, c | 0 <= r < 8 && 0 <= c < 8 :: cells[r][c] == board[r, c]
    {
      Contents(board)
    }

    ghost function Snapshot(): Session.State
      requires Valid()
      reads this, board
    {
      Session.State(Cells(), selected, turn)
    }

    /** The page as loaded: the starting layout, nothing selected, white to move. */
    constructor ()
      ensures Valid() && fresh(board)
      ensures Snapshot() == Session.Start
    {
      board := new Cell[8, 8]((r, c) => if InBounds((r, c)) then InitialBoard[r][c] else Empty);
      selected := None;
      turn := White;
      new;
      ghost var cells := Cells();
      assert forall r, c | 0 <= r < 8 && 0 <= c < 8 :: cells[r][c] == InitialBoard[r][c];
      assert forall r | 0 <= r < 8 :: cells[r] == InitialBoard[r];
    }

    /**
     * The `while` loop of `getLinearMoves` for one direction: step from
     * (r, c) while on the board, keeping empty squares; at the first
     * occupied square keep it if it is an enemy, and stop.
     */
    method Walk(r0: int, c0: int, piece: Cell, dx: int, dy: int) returns (moves: seq<Square>)
      requires Valid() && Moves.UnitDir((dx, dy))
      ensures moves == Moves.Walk(Cells(), piece, (r0, c0), (dx, dy))
    {
      ghost var cells, d := Cells(), (dx, dy);
      ghost var all := Moves.Walk(cells, piece, (r0, c0), d);
      moves := [];
      var r, c := r0, c0;
      while 0 <= r < 8 && 0 <= c < 8
        invariant moves + Moves.Walk(cells, piece, (r, c), d) == all
        decreases Moves.StepsLeft((r, c), d)
      {
        var cell := board[r, c];
        assert cell == At(cells, (r, c));
        if cell == Empty {
          Moves.WalkKeepsEmpty(cells, piece, (r, c), d, moves, all);
          moves := moves + [(r, c)];
        } else {
          Moves.WalkStopsAt(cells, piece, (r, c), d, moves, all);
          if IsEnemy(piece, cell) {
            moves := moves + [(r, c)];
          }
          break;
        }
        r, c := r + dx, c + dy;
      }
      assert moves == all;
    }

    /** `getLinearMoves`: one walk per direction, in list order. */
    method LinearMoves(row: int, col: int, piece: Cell, directions: seq<Square>) returns (moves: seq<Square>)
      requires Valid() && Moves.AllUnit(directions)
      ensures moves == Moves.LinearMoves(Cells(), row, col, piece, directions)
    {
      moves := [];
      for i := 0 to |directions|
        invariant moves == Moves.LinearMoves(Cells(), row, col, piece, directions[..i])
      {
        var (dx, dy) := directions[i];
        var ray := Walk(row + dx, col + dy, piece, dx, dy);
        moves := moves + ray;
        assert directions[..i + 1][..i] == directions[..i];
      }
      assert directions[..|directions|] == directions;
    }

    /** The `forEach` over a knight's or king's offset list: targets on the board and not friendly. */
    method OffsetMoves(row: int, col: int, piece: Cell, offsets: seq<Square>) returns (moves: seq<Square>)
      requires Valid()
      ensures moves == Moves.OffsetMoves(Cells(), row, col, piece, offsets)
    {
      moves := [];
      for i := 0 to |offsets|
        invariant moves == Moves.OffsetMoves(Cells(), row, col, piece, offsets[..i])
      {
        var (dx, dy) := offsets[i];
        var r, c := row + dx, col + dy;
        if r >= 0 && r < 8 && c >= 0 && c < 8 && !IsFriend(piece, board[r, c]) {
          moves := moves + [(r, c)];
        }
        assert offsets[..i + 1][..i] == offsets[..i];
      }
      assert offsets[..|offsets|] == offsets;
    }

    /** The pawn branch of `getValidMoves`: the forward step, then the two diagonal captures. */
    method PawnMoves(row: int, col: int, piece: Cell) returns (moves: seq<Square>)
      requires Valid()
      ensures moves == Moves.PawnMoves(Cells(), row, col, piece)
    {
      ghost var cells := Cells();
      moves := [];
      var dir := if IsWhite(piece) then -1 else 1;
      var r := row + dir;
      if 0 <= r < 8 && 0 <= col < 8 && board[r, col] == Empty {
        moves := moves + [(r, col)];
      }
      assert moves == Moves.PawnForward(cells, row, col, piece);
      ghost var forward := moves;
      if 0 <= r < 8 && 0 <= col - 1 < 8 && board[r, col - 1] != Empty && IsEnemy(piece, board[r, col - 1]) {
        moves := moves + [(r, col - 1)];
      }
      assert moves == forward + Moves.PawnCapture(cells, row, col, piece, -1);
      ghost var left := moves;
      if 0 <= r < 8 && 0 <= col + 1 < 8 && board[r, col + 1] != Empty && IsEnemy(piece, board[r, col + 1]) {
        moves := moves + [(r, col + 1)];
      }
      assert moves == left + Moves.PawnCapture(cells, row, col, piece, 1);
    }

    /**
     * `getValidMoves`. `Moves.Dispatch` is its chain of glyph tests, which
     * match the white glyphs only. It only reads the board.
     */
    method ValidMoves(row: int, col: int, piece: Cell) returns (moves: seq<Square>)
      requires Valid()
      ensures moves == Moves.ValidMoves(Cells(), row, col, piece)
    {
      match Moves.Dispatch(piece)
      case None =>
        moves := [];
      case Some(Pawn) =>
        moves := PawnMoves(row, col, piece);
      case Some(Rook) =>
        moves := LinearMoves(row, col, piece, Moves.RookDirs);
      case Some(Knight) =>
        moves := OffsetMoves(row, col, piece, Moves.KnightOffsets);
      case Some(Bishop) =>
        moves := LinearMoves(row, col, piece, Moves.BishopDirs);
      case Some(Queen) =>
        moves := LinearMoves(row, col, piece, Moves.QueenDirs);
      case Some(King) =>
        moves := OffsetMoves(row, col, piece, Moves.KingOffsets);
    }

    /** `movePiece`: write the destination, then clear the origin. */
    method MovePiece(from: Selection, toRow: int, toCol: int)
      requires Valid() && InBounds(Origin(from)) && InBounds((toRow, toCol))
      modifies board
      ensures Valid()
      ensures Cells() == Move(old(Cells()), from, (toRow, toCol))
    {
      ghost var was := Cells();
      board[toRow, toCol] := from.piece;
      board[from.row, from.col] := Empty;
      ghost var now, want := Cells(), Move(was, from, (toRow, toCol));
      forall r | 0 <= r < 8 ensures now[r] == want[r] {
        assert forall c | 0 <= c < 8 :: now[r][c] == want[r][c] by {
          forall c | 0 <= c < 8 ensures now[r][c] == want[r][c] {
            if (r, c) != Origin(from) && (r, c) != (toRow, toCol) {
              assert want[r][c] == At(was, (r, c));
            }
          }
        }
      }
    }

    /**
     * `handleClick` without its rendering: select a piece of the side to
     * move, or, with a piece selected, commit the move if `isValidMove`
     * accepts it and flip the turn; either way clear the selection.
     */
    method HandleClick(row: int, col: int, isValidMove: (Selection, int, int) -> bool)
      requires Valid() && Session.Consistent(Snapshot()) && InBounds((row, col))
      modifies this, board
      ensures Valid() && board == old(board)
      ensures Snapshot() == Session.Click(old(Snapshot()), row, col, isValidMove)
      ensures Session.Consistent(Snapshot())
    {
      ghost var s := Snapshot();
      ghost var t := Session.Click(s, row, col, isValidMove);
      Session.ClickPreservesConsistent(s, row, col, isValidMove);
      var piece := board[row, col];
      assert piece == At(s.board, (row, col));
      if selected == None {
        if (turn == White && IsWhite(piece)) || (turn == Black && IsBlack(piece)) {
          selected := Some(Selection(row, col, piece));
          assert t == s.(selected := Some(Selection(row, col, piece)));
        } else {
          assert t == s;
        }
        assert Contents(board) == s.board;
      } else {
        ghost var sel := selected.value;
        if isValidMove(selected.value, row, col) {
          MovePiece(selected.value, row, col);
          ghost var moved := Contents(board);
          turn := if turn == White then Black else White;
          selected := None;
          assert t == Session.State(moved, None, Flip(s.turn));
          assert Contents(board) == moved;
        } else {
          selected := None;
          assert t == s.(selected := None);
          assert Contents(board) == s.board;
        }
      }
    }
  }
}
