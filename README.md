# Chess move generator — a Dafny model

This project models the logic of a small browser chess board (`script.js`):
the move generator `getValidMoves` with its sliding helper `getLinearMoves`,
the colour predicates `isWhite`, `isBlack`, `isEnemy` and `isFriend`, the
board update `movePiece`, and the selection-and-turn logic of `handleClick`.
Movement is the simplified kind the program implements: no check, castling,
en passant, double step or promotion.

Layout:

- `pieces.dfy` (`Pieces`): a cell is `Empty` (the string `""`) or a
  `Piece(color, kind)`; `Glyph` gives back the Unicode glyph the page stores.
  `IsWhite`/`IsBlack` are stated on colours, and lemmas prove each equal to
  the source's test, membership of the glyph in its colour's list.
- `chessboard.dfy` (`Chessboard`): `Board` (eight rows of eight cells),
  `Square`, the `selectedPiece` record `Selection`, the starting layout and
  `Move`, the value-level effect of `movePiece`.
- `moves.dfy` (`Moves`): the generator as functions of a board snapshot:
  `Dispatch`, `PawnMoves`, `Walk`/`Ray`/`LinearMoves`, `OffsetMoves`,
  `ValidMoves` (as written) and `IntendedMoves` (see Findings).
- `move_properties.dfy` (`MoveProperties`): what the generator promises,
  proved for every board and every origin.
- `scenarios.dfy` (`Scenarios`): concrete positions.
- `session.dfy` (`Session`): `handleClick` as a function `Click` on a session
  state, and runs of clicks.
- `game.dfy` (`ChessGame`): the page's globals as one `Game` object over an
  `array2<Cell>`; its methods are the source's loops and in-place writes,
  each proved equal to the corresponding function of `Moves`, `Chessboard`
  or `Session`.

Decisions where the code departs from the ordinary chess rules it aims at
(the model follows the code):

- Dispatch compares the glyph with the WHITE glyphs only
  (`piece.toLowerCase() === "♙".toLowerCase()`, and `toLowerCase` does not
  change chess glyphs). Black pieces and `""` therefore get no moves,
  whereas in chess both colours move, and line 90 computes a direction for
  black pawns. `Moves.ValidMoves` is the code as
  written; `Moves.IntendedMoves` is the symmetric version.
- The result is an ordered list built in direction and offset order, not a set.
- Off-board squares, which the pawn code detects through `undefined`
  array entries, are explicit bounds tests. The origin itself need not be on
  the board: every read of the generator is guarded.
- `isValidMove` is called by `handleClick` but defined nowhere in the
  file. `Session.Click` and `Game.HandleClick` take it as a parameter.

## Model

| member | source | states |
|---|---|---|
| Pieces.IsWhite | script.js:19-21 | `isWhite`: holds exactly of the white pieces; `Pieces.WhiteListMatches` proves this is the source's test, membership of the glyph in the white list |
| Pieces.IsBlack | script.js:23-25 | `isBlack`: holds exactly of the black pieces; `Pieces.BlackListMatches` proves this is membership of the glyph in the black list |
| Pieces.IsEnemy | script.js:142-145 | `isEnemy`: false when either cell is `""`, otherwise white against black or black against white; `Pieces.IsEnemyMeans` states its meaning |
| Pieces.IsFriend | script.js:147-150 | `isFriend`: false when either cell is `""`, otherwise two pieces of one colour; `Pieces.IsFriendMeans` states its meaning |
| Pieces.WhiteListMatches | script.js:19-21 | a glyph is in the white list iff it is a white piece, so `IsWhite` is the source's test |
| Pieces.BlackListMatches | script.js:23-25 | a glyph is in the black list iff it is a black piece, so `IsBlack` is the source's test |
| Pieces.WhiteBlackDisjoint | script.js:19-25 | no glyph is both white and black; `""` is neither |
| Pieces.GlyphInjective | script.js:88-121 | two cells have the same glyph iff they are the same cell, so the dispatch's string tests identify cells |
| Pieces.IsEnemyMeans | script.js:142-145 | `isEnemy` holds iff both are pieces of different colours |
| Pieces.IsFriendMeans | script.js:147-150 | `isFriend` holds iff both are pieces of the same colour |
| Pieces.EnemyFriendExclusive | script.js:142-150 | both are false when either side is `""`, and they never hold together |
| Pieces.Flip | script.js:58 | the turn switch always gives the other colour |
| Chessboard.Move | script.js:66-68 | the origin becomes empty, the destination holds the moved glyph unless it is the origin, every other cell is unchanged |
| Chessboard.InitialLayout | script.js:8-17 | the starting layout: rows 2-5 empty, black on rows 0-1 and white on rows 6-7, row 6 all white pawns, kings in column 4, and each side the mirror of the other |
| Moves.Dispatch | script.js:88-121 | the chain of glyph tests of `getValidMoves`: which branch, if any, a cell takes; `Moves.DispatchOnlyWhite` states which |
| Moves.PawnMoves | script.js:88-100 | the pawn branch: the forward square, then the left and the right capture; its rules are `MoveProperties.PawnForwardRule`, `PawnCaptureRule`, `PawnMovesOnly`, `WhitePawnAdvancesUp` and `BlackPawnAdvancesDown` |
| Moves.Walk | script.js:130-136 | the `while` loop of `getLinearMoves` from one start square; `MoveProperties.WalkSquares` and `WalkReaches` state what it collects |
| Moves.Ray | script.js:129-137 | one direction's walk, starting next to the origin; `MoveProperties.WalkCharacterized`, `WalkIsEmptyRunThenCapture`, `FriendBlocksWalk` and `WalkSound` state its promise |
| Moves.LinearMoves | script.js:126-140 | `getLinearMoves`: the walks of all directions in list order; `MoveProperties.LinearMovesPrefix`, `LinearMovesMembership` and `LinearMovesInBounds` state its promise |
| Moves.OffsetMoves | script.js:106-110 | the knight's `forEach` (and the king's, lines 116-120): each offset target in list order, kept if on the board and not friendly; `MoveProperties.OffsetMovesPrefix`, `OffsetMovesMembership` and `OffsetMovesLength` state its promise |
| Moves.MovesFor | script.js:88-121 | the branch body for each kind, with its direction or offset list; `MoveProperties.MovesForSound` states its promise |
| Moves.ValidMoves | script.js:85-124 | `getValidMoves` as written: the branch `Dispatch` picks, or `[]`; `MoveProperties.ValidMovesSound` and `NonWhiteHasNoMoves` state its promise |
| Moves.IntendedMoves | script.js:88-121 | the corrected generator: the branch of the piece's kind for both colours, `[]` for `""`; `MoveProperties.IntendedMovesSound` and `WhiteMovesAsIntended` state its promise |
| Moves.DispatchOnlyWhite | script.js:88-121 | a branch is taken iff the glyph is a white piece, and it is the branch of that piece's kind |
| MoveProperties.WalkSquares | script.js:129-137 | a walk started k steps out lists the squares k, k+1, ... steps away, in order |
| MoveProperties.WalkReaches | script.js:129-137 | a walk started k steps out past an empty run contains step n iff the independent `Reaches` description holds for n |
| MoveProperties.WalkCharacterized | script.js:126-140 | one direction's walk lists the squares 1, 2, ... steps away in order, and contains step k iff every earlier step is on the board and empty and step k is on the board and empty or an enemy |
| MoveProperties.WalkIsEmptyRunThenCapture | script.js:130-136 | a walk is a run of empty on-board squares, optionally closed by a single enemy square |
| MoveProperties.FriendBlocksWalk | script.js:131-134 | a friendly square k steps away and everything beyond it are never returned |
| MoveProperties.WalkSound | script.js:130-136 | every square of a walk is on the board and not friendly |
| MoveProperties.LinearMovesPrefix | script.js:128-138 | handling one more direction appends exactly its walk |
| MoveProperties.LinearMovesMembership | script.js:126-140 | a square is returned iff it lies on the walk of one of the directions |
| MoveProperties.LinearMovesInBounds | script.js:126-140 | every returned square is on the board and not friendly |
| MoveProperties.OffsetMovesPrefix | script.js:107-110 | handling one more offset appends its target iff it is on the board and not friendly |
| MoveProperties.OffsetMovesMembership | script.js:106-110 | a knight or king target is returned iff it is an offset of the list, on the board and not friendly (empty and enemy squares both included) |
| MoveProperties.OffsetMovesLength | script.js:116-120 | at most one square per offset |
| MoveProperties.WhitePawnAdvancesUp | script.js:90-99 | every square a white pawn gets is on the row above it (row - 1), in its own or an adjacent column |
| MoveProperties.BlackPawnAdvancesDown | script.js:90-99 | every square a black pawn's branch gives is on the row below it (row + 1), in its own or an adjacent column |
| MoveProperties.PawnForwardRule | script.js:91-93 | the forward square is returned iff it is on the board and empty |
| MoveProperties.PawnCaptureRule | script.js:94-99 | each diagonal is returned iff it is on the board, non-empty and an enemy; an empty diagonal never is |
| MoveProperties.PawnMovesOnly | script.js:88-100 | at most three squares, each the forward square or a diagonal, on the board and not friendly |
| MoveProperties.MovesForSound | script.js:101-121 | every branch returns only on-board squares that do not hold a friend |
| MoveProperties.ValidMovesSound | script.js:85-124 | `getValidMoves` never returns an off-board square or a friendly one |
| MoveProperties.NonWhiteHasNoMoves | script.js:88-123 | a black glyph or `""` gets the empty list |
| MoveProperties.WhiteMovesAsIntended | script.js:88-121 | for white pieces the written dispatch and the intended one give the same list |
| MoveProperties.IntendedMovesSound | script.js:85-124 | the corrected generator keeps the on-board and no-friend guarantees for both colours |
| Scenarios.StartPawnSingleStep | script.js:8-17 | the white pawn at (6,4) on the start board has the single move (5,4) |
| Scenarios.PawnForkCaptures | script.js:91-99 | a white pawn at (4,4) with black pieces at (3,3) and (3,5) gets (3,4), (3,3), (3,5) in that order |
| Scenarios.CornerKnight | script.js:106-110 | a white knight at (0,0) on an empty board gets (2,1) then (1,2) |
| Scenarios.FourRays | script.js:128-138 | over a list of four directions, the result is the four walks concatenated in list order |
| Scenarios.RookMovesAreRays | script.js:103 | a rook's list is its down, up, right and left walks concatenated |
| Scenarios.LoneRook | script.js:101-103 | a lone white rook at (3,3) gets the 14 other squares of its row and column: down, up, right, then left, each outward from the rook |
| Scenarios.BlackPawnStuckAtStart | script.js:88-100 | as written the black pawn at (1,0) on the start board gets nothing; the intended generator gives (2,0) |
| Session.MayPick | script.js:50 | the selection test: the side to move is white and the glyph white, or black and black; `Session.SelectOnlyOwnPiece` states what a click does with it |
| Session.Click | script.js:43-64 | after any click a pending selection is a square on the board |
| Session.SelectOnlyOwnPiece | script.js:49-53 | with no selection, a click selects iff the glyph belongs to the side to move, records that square and glyph, and changes neither board nor turn |
| Session.ClickClearsSelection | script.js:54-63 | with a selection, every click clears it |
| Session.TurnFlipsOnAcceptedMove | script.js:56-60 | the turn changes iff a selection exists and `isValidMove` accepts; then it flips and the board is `Move`d, otherwise the board is unchanged |
| Session.ClickPreservesConsistent | script.js:43-64 | a pending selection stays on the board, matches its cell and belongs to the side to move |
| Session.RunPreservesConsistent | script.js:43-64 | the same over any sequence of clicks |
| Session.TurnParity | script.js:56-58 | after a sequence of clicks the turn is the starting side iff an even number of moves were committed |
| ChessGame.Game.constructor | script.js:4-17 | the page starts with the starting layout, no selection and white to move |
| ChessGame.Game.Walk | script.js:129-137 | the `while` loop for one direction returns `Moves.Walk` of the current board from its start square |
| ChessGame.Game.PawnMoves | script.js:88-100 | the pawn branch returns `Moves.PawnMoves` of the current board: forward step, then left and right captures |
| ChessGame.Game.LinearMoves | script.js:126-140 | the loop returns `Moves.LinearMoves` of the current board |
| ChessGame.Game.OffsetMoves | script.js:106-110 | the `forEach` over an offset list returns `Moves.OffsetMoves` of the current board |
| ChessGame.Game.ValidMoves | script.js:85-124 | returns `Moves.ValidMoves` of the current board, and reads the board only |
| ChessGame.Game.MovePiece | script.js:66-68 | the board afterwards is `Move` of the board before |
| ChessGame.Game.HandleClick | script.js:43-63 | the new board, selection and turn are `Session.Click` of the old ones, and the session stays consistent |

## Left out

- `createBoard`, `clearHighlights`, `highlightMoves`, the status text and the event wiring (script.js:1-2, 27-41, 59, 61, 69, 72-83, 152): rendering and event plumbing with no logic. `highlightMoves` is the only caller of `getValidMoves`; its list only feeds the highlighting.
- `parseInt` of the clicked square's data attributes (script.js:44-45): `HandleClick` takes the row and column as integers on the board.
- The body of `isValidMove`: script.js does not define it, so as the file stands the call would raise a reference error and leave the selection set. The model takes it as a caller-supplied function instead of guessing a rule.
- Strings in general: a cell holds `""` or one of the twelve glyphs, as the board does; `toLowerCase` is taken as the identity on those glyphs.
- `MovePiece` with an off-board square, where a JavaScript array would grow or throw: both squares are required on the board, as `handleClick`'s clicks and selection guarantee.
- `HandleClick` requires the session invariant `Session.Consistent`, which the constructor establishes and every click preserves.

## Findings

| source | as written | input that shows it | evidently intended | confidence | as-written member | corrected member |
|---|---|---|---|---|---|---|
| script.js:88-121 | every dispatch test compares the glyph with a white glyph, so no black piece takes a branch | black pawn at (1,0) of the start board: `[]`, though (2,0) is empty | each test matches both colours of a kind (line 90 computes a direction for black pawns) | not executed | Scenarios.BlackPawnStuckAtStart | Moves.IntendedMoves |
