/**
 * Pieces and the colour predicates of script.js.
 *
 * The board of script.js stores strings: either "" or one of twelve Unicode
 * chess glyphs. A `Cell` is that value as an enumerated type; `Glyph` gives
 * back the string, so that the predicates below can be written as the
 * source writes them, by list membership and string comparison.
 */
module Pieces {

  datatype Color = White | Black
  datatype Kind = Pawn | Rook | Knight | Bishop | Queen | King

  /** One cell of the board: `Empty` is the string "". */
  datatype Cell = Empty | Piece(color: Color, kind: Kind)

  function Flip(c: Color): (r: Color)
    ensures r != c
  {
    if c == White then Black else White
  }

  /** The string the source stores for a cell. */
  function Glyph(cell: Cell): string {
    match cell
    case Empty => ""
    case Piece(White, Pawn) => "♙"
    case Piece(White, Rook) => "♖"
    case Piece(White, Knight) => "♘"
    case Piece(White, Bishop) => "♗"
    case Piece(White, Queen) => "♕"
    case Piece(White, King) => "♔"
    case Piece(Black, Pawn) => "♟"
    case Piece(Black, Rook) => "♜"
    case Piece(Black, Knight) => "♞"
    case Piece(Black, Bishop) => "♝"
    case Piece(Black, Queen) => "♛"
    case Piece(Black, King) => "♚"
  }

  const WhiteGlyphs: seq<string> := ["♙", "♖", "♘", "♗", "♕", "♔"]
  const BlackGlyphs: seq<string> := ["♟", "♜", "♞", "♝", "♛", "♚"]

  /**
   * `isWhite`: the source tests membership of the glyph in the white list;
   * `WhiteListMatches` proves that this is the same test.
   */
  predicate IsWhite(piece: Cell) {
    piece.Piece? && piece.color == White
  }

  /** `isBlack`; `BlackListMatches` ties it to the black list. */
  predicate IsBlack(piece: Cell) {
    piece.Piece? && piece.color == Black
  }

  predicate IsEnemy(piece: Cell, target: Cell) {
    if piece == Empty || target == Empty then false
    else (IsWhite(piece) && IsBlack(target)) || (IsBlack(piece) && IsWhite(target))
  }

  predicate IsFriend(piece: Cell, target: Cell) {
    if piece == Empty || target == Empty then false
    else (IsWhite(piece) && IsWhite(target)) || (IsBlack(piece) && IsBlack(target))
  }

  /** Distinct cells have distinct glyphs, so comparing strings is comparing cells. */
  lemma GlyphInjective(a: Cell, b: Cell)
    ensures Glyph(a) == Glyph(b) <==> a == b
  {
    match a
    case Empty =>
    case Piece(_, _) =>
  }

  /** A glyph is in the white list exactly when it is a white piece. */
  lemma WhiteListMatches(piece: Cell)
    ensures Glyph(piece) in WhiteGlyphs <==> IsWhite(piece)
  {
    match piece
    case Empty =>
    case Piece(_, _) =>
  }

  /** A glyph is in the black list exactly when it is a black piece. */
  lemma BlackListMatches(piece: Cell)
    ensures Glyph(piece) in BlackGlyphs <==> IsBlack(piece)
  {
    match piece
    case Empty =>
    case Piece(_, _) =>
  }

  /** No glyph is in both lists, and "" is in neither. */
  lemma WhiteBlackDisjoint(piece: Cell)
    ensures !(Glyph(piece) in WhiteGlyphs && Glyph(piece) in BlackGlyphs)
    ensures piece == Empty ==> Glyph(piece) !in WhiteGlyphs && Glyph(piece) !in BlackGlyphs
  {
    WhiteListMatches(piece);
    BlackListMatches(piece);
  }

  /** `isEnemy` holds exactly of two pieces of different colours. */
  lemma IsEnemyMeans(piece: Cell, target: Cell)
    ensures IsEnemy(piece, target) <==>
      piece.Piece? && target.Piece? && piece.color != target.color
  {
  }

  /** `isFriend` holds exactly of two pieces of the same colour. */
  lemma IsFriendMeans(piece: Cell, target: Cell)
    ensures IsFriend(piece, target) <==>
      piece.Piece? && target.Piece? && piece.color == target.color
  {
  }

  /** Both relations are false when either side is "", and never hold together. */
  lemma EnemyFriendExclusive(piece: Cell, target: Cell)
    ensures piece == Empty || target == Empty ==> !IsEnemy(piece, target) && !IsFriend(piece, target)
    ensures !(IsEnemy(piece, target) && IsFriend(piece, target))
  {
  }
}
