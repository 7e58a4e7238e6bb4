/**
 * What the move generator promises, proved about the functions of `Moves`.
 */
module MoveProperties {
  import opened Wrappers
  import opened Pieces
  import opened Chessboard
  import opened Moves

  // ---------------------------------------------------------------------
  // Sliding walks
  // ---------------------------------------------------------------------

  /** The square k steps from (row, col) along d. */
  function Step(row: int, col: int, d: Square, k: int): Square {
    (row + k * d.0, col + k * d.1)
  }

  /**
   * The independent description of one walk: the square k steps away is
   * reached when every square before it is on the board and empty, and it
   * is on the board and either empty or an enemy.
   */
  ghost predicate Reaches(b: Board, piece: Cell, row: int, col: int, d: Square, k: int) {
    && k >= 1
    && InBounds(Step(row, col, d, k))
    && (forall j | 1 <= j < k :: InBounds(Step(row, col, d, j)) && At(b, Step(row, col, d, j)) == Empty)
    && (At(b, Step(row, col, d, k)) == Empty || IsEnemy(piece, At(b, Step(row, col, d, k))))
  }

  lemma StepNext(row: int, col: int, d: Square, k: int)
    ensures Step(row, col, d, k + 1) == (Step(row, col, d, k).0 + d.0, Step(row, col, d, k).1 + d.1)
  {
  }

  /** Squares n, n+1, ... for n = k + 1 behind the square k steps away give squares k, k+1, ... */
  lemma ConsSteps(w: seq<Square>, rest: seq<Square>, row: int, col: int, d: Square, k: int, n: int)
    requires UnitDir(d) && n == k + 1
    requires w == [Step(row, col, d, k)] + rest
    requires forall i | 0 <= i < |rest| :: rest[i] == Step(row, col, d, n + i)
    ensures forall i | 0 <= i < |w| :: w[i] == Step(row, col, d, k + i)
  {
    forall i | 0 <= i < |w| ensures w[i] == Step(row, col, d, k + i) {
      if i > 0 {
        assert w[i] == rest[i - 1] == Step(row, col, d, n + (i - 1));
      }
    }
  }

  /** Past a square that is off the board or occupied, no later square is reached. */
  lemma BlockedBeyond(b: Board, piece: Cell, row: int, col: int, d: Square, k: int)
    requires k >= 1
    requires !InBounds(Step(row, col, d, k)) || At(b, Step(row, col, d, k)) != Empty
    ensures forall n | n > k :: !Reaches(b, piece, row, col, d, n)
  {
    forall n | n > k ensures !Reaches(b, piece, row, col, d, n) {
      assert 1 <= k < n;
    }
  }

  /** From an empty square k steps out, the squares of the walk from step n = k + 1 shift by one. */
  lemma WalkSquaresCons(b: Board, piece: Cell, row: int, col: int, d: Square, k: int, n: int)
    requires UnitDir(d) && n == k + 1
    requires InBounds(Step(row, col, d, k)) && At(b, Step(row, col, d, k)) == Empty
    requires forall i | 0 <= i < |Walk(b, piece, Step(row, col, d, n), d)| ::
      Walk(b, piece, Step(row, col, d, n), d)[i] == Step(row, col, d, n + i)
    ensures forall i | 0 <= i < |Walk(b, piece, Step(row, col, d, k), d)| ::
      Walk(b, piece, Step(row, col, d, k), d)[i] == Step(row, col, d, k + i)
  {
    var s := Step(row, col, d, k);
    StepNext(row, col, d, k);
    WalkStep(b, piece, s, d);
    ConsSteps(Walk(b, piece, s, d), Walk(b, piece, Step(row, col, d, n), d), row, col, d, k, n);
  }

  /** The walk that starts k steps out lists the squares k, k+1, ... steps away, in order. */
  lemma {:induction false} WalkSquares(b: Board, piece: Cell, row: int, col: int, d: Square, k: int)
    requires UnitDir(d)
    ensures forall i | 0 <= i < |Walk(b, piece, Step(row, col, d, k), d)| ::
      Walk(b, piece, Step(row, col, d, k), d)[i] == Step(row, col, d, k + i)
    decreases StepsLeft(Step(row, col, d, k), d)
  {
    var s := Step(row, col, d, k);
    if InBounds(s) && At(b, s) == Empty {
      StepNext(row, col, d, k);
      StepsLeftDecreases(s, d);
      var n := k + 1;
      WalkSquares(b, piece, row, col, d, n);
      WalkSquaresCons(b, piece, row, col, d, k, n);
    } else if InBounds(s) {
      WalkStep(b, piece, s, d);
      assert Step(row, col, d, k + 0) == s;
    }
  }

  /** The empty run before step k, and the empty square at step k, form the empty run before step n = k + 1. */
  lemma EmptyRunExtends(b: Board, row: int, col: int, d: Square, k: int, n: int)
    requires UnitDir(d) && n == k + 1
    requires forall j | 1 <= j < k :: InBounds(Step(row, col, d, j)) && At(b, Step(row, col, d, j)) == Empty
    requires InBounds(Step(row, col, d, k)) && At(b, Step(row, col, d, k)) == Empty
    ensures forall j | 1 <= j < n :: InBounds(Step(row, col, d, j)) && At(b, Step(row, col, d, j)) == Empty
  {
    forall j | 1 <= j < n ensures InBounds(Step(row, col, d, j)) && At(b, Step(row, col, d, j)) == Empty {
      if j < k {
        assert 1 <= j < k;
      }
    }
  }

  /** From an empty square k steps out, the reach of the walk from step n = k + 1 extends to step k. */
  lemma WalkReachesCons(b: Board, piece: Cell, row: int, col: int, d: Square, k: int, n: int)
    requires UnitDir(d) && k >= 1 && n == k + 1
    requires forall j | 1 <= j < k :: InBounds(Step(row, col, d, j)) && At(b, Step(row, col, d, j)) == Empty
    requires InBounds(Step(row, col, d, k)) && At(b, Step(row, col, d, k)) == Empty
    requires forall m | m >= n :: m < n + |Walk(b, piece, Step(row, col, d, n), d)| <==> Reaches(b, piece, row, col, d, m)
    ensures forall m | m >= k :: m < k + |Walk(b, piece, Step(row, col, d, k), d)| <==> Reaches(b, piece, row, col, d, m)
  {
    StepNext(row, col, d, k);
    WalkStep(b, piece, Step(row, col, d, k), d);
    assert Reaches(b, piece, row, col, d, k);
  }

  /** The walk that starts k steps out, when the squares before it are empty, reaches step n iff `Reaches` holds. */
  lemma {:induction false} WalkReaches(b: Board, piece: Cell, row: int, col: int, d: Square, k: int)
    requires UnitDir(d) && k >= 1
    requires forall j | 1 <= j < k :: InBounds(Step(row, col, d, j)) && At(b, Step(row, col, d, j)) == Empty
    ensures forall n | n >= k ::
      n < k + |Walk(b, piece, Step(row, col, d, k), d)| <==> Reaches(b, piece, row, col, d, n)
    decreases StepsLeft(Step(row, col, d, k), d)
  {
    var s := Step(row, col, d, k);
    if !InBounds(s) {
      BlockedBeyond(b, piece, row, col, d, k);
    } else if At(b, s) == Empty {
      StepNext(row, col, d, k);
      StepsLeftDecreases(s, d);
      var n := k + 1;
      EmptyRunExtends(b, row, col, d, k, n);
      WalkReaches(b, piece, row, col, d, n);
      WalkReachesCons(b, piece, row, col, d, k, n);
    } else {
      WalkStep(b, piece, s, d);
      BlockedBeyond(b, piece, row, col, d, k);
    }
  }

  /**
   * A walk from (row, col) along d returns the squares 1, 2, ... steps
   * away, in order, and returns the square k steps away exactly when the
   * walk reaches it.
   */
  lemma WalkCharacterized(b: Board, piece: Cell, row: int, col: int, d: Square)
    requires UnitDir(d)
    ensures forall i | 0 <= i < |Ray(b, row, col, piece, d)| :: Ray(b, row, col, piece, d)[i] == Step(row, col, d, i + 1)
    ensures forall k | k >= 1 :: k <= |Ray(b, row, col, piece, d)| <==> Reaches(b, piece, row, col, d, k)
  {
    assert Step(row, col, d, 1) == (row + d.0, col + d.1);
    WalkSquares(b, piece, row, col, d, 1);
    WalkReaches(b, piece, row, col, d, 1);
  }

  /**
   * Along one direction: a run of empty squares, optionally closed by one
   * enemy square; nothing follows the enemy.
   */
  lemma WalkIsEmptyRunThenCapture(b: Board, piece: Cell, row: int, col: int, d: Square)
    requires UnitDir(d)
    ensures forall i | 0 <= i < |Ray(b, row, col, piece, d)| ::
      && InBounds(Ray(b, row, col, piece, d)[i])
      && (At(b, Ray(b, row, col, piece, d)[i]) == Empty
          || (i == |Ray(b, row, col, piece, d)| - 1 && IsEnemy(piece, At(b, Ray(b, row, col, piece, d)[i]))))
  {
    var w := Ray(b, row, col, piece, d);
    WalkCharacterized(b, piece, row, col, d);
    forall i | 0 <= i < |w|
      ensures InBounds(w[i]) && (At(b, w[i]) == Empty || (i == |w| - 1 && IsEnemy(piece, At(b, w[i]))))
    {
      assert Reaches(b, piece, row, col, d, i + 1);
      if i < |w| - 1 {
        assert Reaches(b, piece, row, col, d, |w|);
        assert 1 <= i + 1 < |w|;
      }
    }
  }

  /** A friendly square k steps away, and everything past it, is never returned. */
  lemma FriendBlocksWalk(b: Board, piece: Cell, row: int, col: int, d: Square, k: int)
    requires UnitDir(d) && k >= 1
    requires InBounds(Step(row, col, d, k)) && IsFriend(piece, At(b, Step(row, col, d, k)))
    ensures |Ray(b, row, col, piece, d)| < k
  {
    var w := Ray(b, row, col, piece, d);
    WalkCharacterized(b, piece, row, col, d);
    EnemyFriendExclusive(piece, At(b, Step(row, col, d, k)));
    forall n | n >= k ensures !Reaches(b, piece, row, col, d, n) {
      if n > k {
        assert 1 <= k < n;
      }
    }
    if |w| > 0 {
      assert Reaches(b, piece, row, col, d, |w|);
    }
  }

  /** Processing one more direction appends its walk. */
  lemma LinearMovesPrefix(b: Board, row: int, col: int, piece: Cell, dirs: seq<Square>, i: int)
    requires AllUnit(dirs) && 0 <= i < |dirs|
    ensures LinearMoves(b, row, col, piece, dirs[..i + 1]) ==
      LinearMoves(b, row, col, piece, dirs[..i]) + Ray(b, row, col, piece, dirs[i])
  {
    assert dirs[..i + 1][..i] == dirs[..i];
  }

  /** `getLinearMoves` returns exactly the squares of its walks. */
  lemma {:induction false} LinearMovesMembership(b: Board, row: int, col: int, piece: Cell, dirs: seq<Square>, m: Square)
    requires AllUnit(dirs)
    ensures m in LinearMoves(b, row, col, piece, dirs) <==>
      exists i | 0 <= i < |dirs| :: m in Ray(b, row, col, piece, dirs[i])
  {
    if |dirs| > 0 {
      var front := dirs[..|dirs| - 1];
      LinearMovesMembership(b, row, col, piece, front, m);
      assert forall i | 0 <= i < |front| :: front[i] == dirs[i];
    }
  }

  /** Every square of a walk is on the board and free of friends. */
  lemma WalkSound(b: Board, piece: Cell, row: int, col: int, d: Square)
    requires UnitDir(d)
    ensures forall m | m in Ray(b, row, col, piece, d) :: InBounds(m) && !IsFriend(piece, At(b, m))
  {
    var w := Ray(b, row, col, piece, d);
    WalkIsEmptyRunThenCapture(b, piece, row, col, d);
    forall m | m in w ensures InBounds(m) && !IsFriend(piece, At(b, m)) {
      var j :| 0 <= j < |w| && w[j] == m;
      EnemyFriendExclusive(piece, At(b, w[j]));
    }
  }

  lemma LinearMovesInBounds(b: Board, row: int, col: int, piece: Cell, dirs: seq<Square>)
    requires AllUnit(dirs)
    ensures forall m | m in LinearMoves(b, row, col, piece, dirs) :: InBounds(m) && !IsFriend(piece, At(b, m))
  {
    forall m | m in LinearMoves(b, row, col, piece, dirs)
      ensures InBounds(m) && !IsFriend(piece, At(b, m))
    {
      LinearMovesMembership(b, row, col, piece, dirs, m);
      var i :| 0 <= i < |dirs| && m in Ray(b, row, col, piece, dirs[i]);
      WalkSound(b, piece, row, col, dirs[i]);
    }
  }

  // ---------------------------------------------------------------------
  // Knights and kings
  // ---------------------------------------------------------------------

  /**
   * An offset list yields exactly its targets that are on the board and
   * not friendly: empty and enemy targets are both kept.
   */
  lemma {:induction false} OffsetMovesMembership(b: Board, row: int, col: int, piece: Cell, offs: seq<Square>, m: Square)
    ensures m in OffsetMoves(b, row, col, piece, offs) <==>
      exists i | 0 <= i < |offs| ::
        m == (row + offs[i].0, col + offs[i].1) && InBounds(m) && !IsFriend(piece, At(b, m))
  {
    if |offs| > 0 {
      var front := offs[..|offs| - 1];
      OffsetMovesMembership(b, row, col, piece, front, m);
      assert forall i | 0 <= i < |front| :: front[i] == offs[i];
    }
  }

  /** Processing one more offset appends at most its target. */
  lemma OffsetMovesPrefix(b: Board, row: int, col: int, piece: Cell, offs: seq<Square>, i: int)
    requires 0 <= i < |offs|
    ensures var t := (row + offs[i].0, col + offs[i].1);
      OffsetMoves(b, row, col, piece, offs[..i + 1]) ==
        OffsetMoves(b, row, col, piece, offs[..i]) + (if InBounds(t) && !IsFriend(piece, At(b, t)) then [t] else [])
  {
    assert offs[..i + 1][..i] == offs[..i];
  }

  /** At most one square per offset. */
  lemma {:induction false} OffsetMovesLength(b: Board, row: int, col: int, piece: Cell, offs: seq<Square>)
    ensures |OffsetMoves(b, row, col, piece, offs)| <= |offs|
  {
    if |offs| > 0 {
      OffsetMovesLength(b, row, col, piece, offs[..|offs| - 1]);
    }
  }

  // ---------------------------------------------------------------------
  // Pawns
  // ---------------------------------------------------------------------

  /** A white pawn's squares are all on the next row up (towards row 0), at most one column aside. */
  lemma WhitePawnAdvancesUp(b: Board, row: int, col: int)
    ensures forall m | m in PawnMoves(b, row, col, Piece(White, Pawn)) ::
      m.0 == row - 1 && col - 1 <= m.1 <= col + 1
  {
    PawnMovesOnly(b, row, col, Piece(White, Pawn));
  }

  /** A black pawn's squares are all on the next row down (towards row 7), at most one column aside. */
  lemma BlackPawnAdvancesDown(b: Board, row: int, col: int)
    ensures forall m | m in PawnMoves(b, row, col, Piece(Black, Pawn)) ::
      m.0 == row + 1 && col - 1 <= m.1 <= col + 1
  {
    PawnMovesOnly(b, row, col, Piece(Black, Pawn));
  }

  /** The forward square is returned iff it is on the board and empty. */
  lemma PawnForwardRule(b: Board, row: int, col: int, piece: Cell)
    ensures var t := (row + PawnDir(piece), col);
      t in PawnMoves(b, row, col, piece) <==> InBounds(t) && At(b, t) == Empty
  {
  }

  /**
   * Each diagonal square is returned iff it is on the board, occupied and
   * an enemy; an empty diagonal is never returned.
   */
  lemma PawnCaptureRule(b: Board, row: int, col: int, piece: Cell, side: int)
    requires side == -1 || side == 1
    ensures var t := (row + PawnDir(piece), col + side);
      t in PawnMoves(b, row, col, piece) <==>
        InBounds(t) && At(b, t) != Empty && IsEnemy(piece, At(b, t))
  {
  }

  /** Nothing but those three squares, and only on the board. */
  lemma PawnMovesOnly(b: Board, row: int, col: int, piece: Cell)
    ensures var r := row + PawnDir(piece);
      && |PawnMoves(b, row, col, piece)| <= 3
      && forall m | m in PawnMoves(b, row, col, piece) ::
           InBounds(m) && !IsFriend(piece, At(b, m)) && (m == (r, col) || m == (r, col - 1) || m == (r, col + 1))
  {
    var r := row + PawnDir(piece);
    var f, left, right := PawnForward(b, row, col, piece), PawnCapture(b, row, col, piece, -1), PawnCapture(b, row, col, piece, 1);
    assert |f| <= 1 && |left| <= 1 && |right| <= 1;
    forall m | m in f + left + right
      ensures InBounds(m) && !IsFriend(piece, At(b, m)) && (m == (r, col) || m == (r, col - 1) || m == (r, col + 1))
    {
      if m in f {
        assert m == (r, col) && At(b, m) == Empty;
      } else if m in left {
        assert m == (r, col - 1);
        EnemyFriendExclusive(piece, At(b, m));
      } else {
        assert m in right && m == (r, col + 1);
        EnemyFriendExclusive(piece, At(b, m));
      }
    }
  }

  // ---------------------------------------------------------------------
  // The whole generator
  // ---------------------------------------------------------------------

  /** Every branch returns squares on the board, none of them holding a friend. */
  lemma MovesForSound(b: Board, row: int, col: int, piece: Cell, kind: Kind)
    ensures forall m | m in MovesFor(b, row, col, piece, kind) :: InBounds(m) && !IsFriend(piece, At(b, m))
  {
    match kind
    case Pawn => PawnMovesOnly(b, row, col, piece);
    case Rook => LinearMovesInBounds(b, row, col, piece, RookDirs);
    case Bishop => LinearMovesInBounds(b, row, col, piece, BishopDirs);
    case Queen => LinearMovesInBounds(b, row, col, piece, QueenDirs);
    case Knight =>
      forall m | m in MovesFor(b, row, col, piece, kind) ensures InBounds(m) && !IsFriend(piece, At(b, m)) {
        OffsetMovesMembership(b, row, col, piece, KnightOffsets, m);
      }
    case King =>
      forall m | m in MovesFor(b, row, col, piece, kind) ensures InBounds(m) && !IsFriend(piece, At(b, m)) {
        OffsetMovesMembership(b, row, col, piece, KingOffsets, m);
      }
  }

  /** `getValidMoves` never returns an off-board square or a friendly one. */
  lemma ValidMovesSound(b: Board, row: int, col: int, piece: Cell)
    ensures forall m | m in ValidMoves(b, row, col, piece) :: InBounds(m) && !IsFriend(piece, At(b, m))
  {
    match Dispatch(piece)
    case None =>
    case Some(kind) => MovesForSound(b, row, col, piece, kind);
  }

  /** As written, only white glyphs select a branch: black pieces and "" get no moves. */
  lemma NonWhiteHasNoMoves(b: Board, row: int, col: int, piece: Cell)
    requires !(piece.Piece? && piece.color == White)
    ensures ValidMoves(b, row, col, piece) == []
  {
    DispatchOnlyWhite(piece);
  }

  /** For white pieces the source's dispatch and the intended one agree. */
  lemma WhiteMovesAsIntended(b: Board, row: int, col: int, piece: Cell)
    requires piece.Piece? && piece.color == White
    ensures ValidMoves(b, row, col, piece) == IntendedMoves(b, row, col, piece)
  {
    DispatchOnlyWhite(piece);
  }

  /** The intended generator keeps the same guarantees, for both colours. */
  lemma IntendedMovesSound(b: Board, row: int, col: int, piece: Cell)
    ensures forall m | m in IntendedMoves(b, row, col, piece) :: InBounds(m) && !IsFriend(piece, At(b, m))
  {
    if piece.Piece? {
      MovesForSound(b, row, col, piece, piece.kind);
    }
  }
}
