/**
 * Concrete positions, evaluated through the generator's definition.
 */
module Scenarios {
  import opened Wrappers
  import opened Pieces
  import opened Chessboard
  import opened Moves
  import opened MoveProperties

  const WhitePawn := Piece(White, Pawn)
  const BlackPawn := Piece(Black, Pawn)
  const WhiteKnight := Piece(White, Knight)
  const WhiteRook := Piece(White, Rook)

  /** On the start board the white pawn at (6,4) has the single move (5,4). */
  lemma StartPawnSingleStep()
    ensures ValidMoves(InitialBoard, 6, 4, WhitePawn) == [(5, 4)]
  {
  }

  /** A white pawn at (4,4) with black pieces at (3,3) and (3,5): the step, then both captures. */
  lemma PawnForkCaptures()
    ensures var b := Put(Put(Put(EmptyBoard, (4, 4), WhitePawn), (3, 3), BlackPawn), (3, 5), Piece(Black, Rook));
      ValidMoves(b, 4, 4, WhitePawn) == [(3, 4), (3, 3), (3, 5)]
  {
  }

  /** A white knight in the corner of an empty board has only two targets, in offset-list order. */
  lemma CornerKnight()
    ensures ValidMoves(Put(EmptyBoard, (0, 0), WhiteKnight), 0, 0, WhiteKnight) == [(2, 1), (1, 2)]
  {
    var b, k := Put(EmptyBoard, (0, 0), WhiteKnight), KnightOffsets;
    assert k[..0] == [];
    OffsetMovesPrefix(b, 0, 0, WhiteKnight, k, 0);
    OffsetMovesPrefix(b, 0, 0, WhiteKnight, k, 1);
    OffsetMovesPrefix(b, 0, 0, WhiteKnight, k, 2);
    OffsetMovesPrefix(b, 0, 0, WhiteKnight, k, 3);
    OffsetMovesPrefix(b, 0, 0, WhiteKnight, k, 4);
    OffsetMovesPrefix(b, 0, 0, WhiteKnight, k, 5);
    OffsetMovesPrefix(b, 0, 0, WhiteKnight, k, 6);
    OffsetMovesPrefix(b, 0, 0, WhiteKnight, k, 7);
    assert k[..8] == k;
  }

  const LoneRookBoard: Board := Put(EmptyBoard, (3, 3), WhiteRook)

  /** The lone rook's board holds the rook at (3,3) and nothing else. */
  lemma LoneRookCell(s: Square)
    requires InBounds(s)
    ensures At(LoneRookBoard, s) == if s == (3, 3) then WhiteRook else Empty
  {
  }

  lemma RookDown()
    ensures Ray(LoneRookBoard, 3, 3, WhiteRook, (1, 0)) == [(4, 3), (5, 3), (6, 3), (7, 3)]
  {
    var b, p, d := LoneRookBoard, WhiteRook, (1, 0);
    LoneRookCell((4, 3)); LoneRookCell((5, 3)); LoneRookCell((6, 3)); LoneRookCell((7, 3));
    assert Walk(b, p, (8, 3), d) == [];
    assert Walk(b, p, (7, 3), d) == [(7, 3)];
    assert Walk(b, p, (6, 3), d) == [(6, 3), (7, 3)];
    assert Walk(b, p, (5, 3), d) == [(5, 3), (6, 3), (7, 3)];
  }

  lemma RookUp()
    ensures Ray(LoneRookBoard, 3, 3, WhiteRook, (-1, 0)) == [(2, 3), (1, 3), (0, 3)]
  {
    var b, p, d := LoneRookBoard, WhiteRook, (-1, 0);
    LoneRookCell((0, 3)); LoneRookCell((1, 3)); LoneRookCell((2, 3));
    assert Walk(b, p, (-1, 3), d) == [];
    assert Walk(b, p, (0, 3), d) == [(0, 3)];
    assert Walk(b, p, (1, 3), d) == [(1, 3), (0, 3)];
  }

  lemma RookRight()
    ensures Ray(LoneRookBoard, 3, 3, WhiteRook, (0, 1)) == [(3, 4), (3, 5), (3, 6), (3, 7)]
  {
    var b, p, d := LoneRookBoard, WhiteRook, (0, 1);
    LoneRookCell((3, 4)); LoneRookCell((3, 5)); LoneRookCell((3, 6)); LoneRookCell((3, 7));
    assert Walk(b, p, (3, 8), d) == [];
    assert Walk(b, p, (3, 7), d) == [(3, 7)];
    assert Walk(b, p, (3, 6), d) == [(3, 6), (3, 7)];
    assert Walk(b, p, (3, 5), d) == [(3, 5), (3, 6), (3, 7)];
  }

  lemma RookLeft()
    ensures Ray(LoneRookBoard, 3, 3, WhiteRook, (0, -1)) == [(3, 2), (3, 1), (3, 0)]
  {
    var b, p, d := LoneRookBoard, WhiteRook, (0, -1);
    LoneRookCell((3, 0)); LoneRookCell((3, 1)); LoneRookCell((3, 2));
    assert Walk(b, p, (3, -1), d) == [];
    assert Walk(b, p, (3, 0), d) == [(3, 0)];
    assert Walk(b, p, (3, 1), d) == [(3, 1), (3, 0)];
  }

  /** Over four directions, the linear generator is the four walks in list order. */
  lemma FourRays(b: Board, row: int, col: int, p: Cell, ds: seq<Square>)
    requires AllUnit(ds) && |ds| == 4
    ensures LinearMoves(b, row, col, p, ds) ==
      Ray(b, row, col, p, ds[0]) + Ray(b, row, col, p, ds[1])
      + Ray(b, row, col, p, ds[2]) + Ray(b, row, col, p, ds[3])
  {
    var r0, r1, r2, r3 :=
      Ray(b, row, col, p, ds[0]), Ray(b, row, col, p, ds[1]),
      Ray(b, row, col, p, ds[2]), Ray(b, row, col, p, ds[3]);
    assert LinearMoves(b, row, col, p, ds[..1]) == r0 by {
      assert ds[..0] == [];
      LinearMovesPrefix(b, row, col, p, ds, 0);
    }
    assert LinearMoves(b, row, col, p, ds[..2]) == r0 + r1 by {
      LinearMovesPrefix(b, row, col, p, ds, 1);
    }
    assert LinearMoves(b, row, col, p, ds[..3]) == r0 + r1 + r2 by {
      LinearMovesPrefix(b, row, col, p, ds, 2);
    }
    assert LinearMoves(b, row, col, p, ds[..4]) == r0 + r1 + r2 + r3 by {
      LinearMovesPrefix(b, row, col, p, ds, 3);
    }
    assert ds[..4] == ds;
  }

  /** A rook's moves are its four rays, down, up, right, left. */
  lemma RookMovesAreRays(b: Board, row: int, col: int, p: Cell)
    ensures LinearMoves(b, row, col, p, RookDirs) ==
      Ray(b, row, col, p, (1, 0)) + Ray(b, row, col, p, (-1, 0))
      + Ray(b, row, col, p, (0, 1)) + Ray(b, row, col, p, (0, -1))
  {
    FourRays(b, row, col, p, RookDirs);
  }

  /** Only the rook branch applies to a white rook. */
  lemma RookDispatch(b: Board, row: int, col: int)
    ensures ValidMoves(b, row, col, WhiteRook) == LinearMoves(b, row, col, WhiteRook, RookDirs)
  {
    assert Dispatch(WhiteRook) == Some(Rook);
  }

  /** A lone rook at (3,3) reaches the 14 other squares of its row and column, direction by direction. */
  lemma LoneRook()
    ensures ValidMoves(LoneRookBoard, 3, 3, WhiteRook) ==
      [(4, 3), (5, 3), (6, 3), (7, 3)] + [(2, 3), (1, 3), (0, 3)]
      + [(3, 4), (3, 5), (3, 6), (3, 7)] + [(3, 2), (3, 1), (3, 0)]
  {
    var b, p := LoneRookBoard, WhiteRook;
    var down, up, right, left :=
      Ray(b, 3, 3, p, (1, 0)), Ray(b, 3, 3, p, (-1, 0)),
      Ray(b, 3, 3, p, (0, 1)), Ray(b, 3, 3, p, (0, -1));
    assert ValidMoves(b, 3, 3, p) == down + up + right + left by {
      RookDispatch(b, 3, 3);
      RookMovesAreRays(b, 3, 3, p);
    }
    RookDown(); RookUp(); RookRight(); RookLeft();
  }

  /**
   * As written, the black pawn at (1,0) on the start board gets no move,
   * although (2,0) is empty; the intended generator gives it (2,0).
   */
  lemma BlackPawnStuckAtStart()
    ensures ValidMoves(InitialBoard, 1, 0, BlackPawn) == []
    ensures IntendedMoves(InitialBoard, 1, 0, BlackPawn) == [(2, 0)]
  {
  }
}
