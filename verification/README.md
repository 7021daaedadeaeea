# Rules kernel of a two-player chess game

A Dafny model of the rules kernel of `chessGame.py`, a two-player chess
program built on an event-driven graphics framework. The kernel is:

- the six piece classes with their movement offsets (`posMoves`), capture
  offsets (`takeMoves`) and material values;
- move validation: the offset-and-bounds gate (`gameMode_isValidMove`,
  `rowColInBounds`) and the unit-step path walk that looks for blocking
  pieces (`gameMode_checkBlockingPieces`);
- move execution: a quiet move (`gameMode_makeMove`) and a capture
  (`gameMode_takePiece`), which update the 8x8 grid and the per-colour piece
  sets together, mark the piece moved, clear the selection and pass the turn;
- the starting position (`initializeBoard` and the game state set up by
  `appStarted`);
- the logic of a mouse click (`gameMode_mousePressed`): the pixel-to-square
  conversion (`inBoard`, `getRowCol`, `getDimensions`), then select,
  reselect, capture or move.

The model is functional. A `Game` record holds the grid
(`seq<seq<Option<PieceId>>>`), the table of piece records, the white and
black sets of live piece ids, the selected piece and the turn index. A piece
is identified by the square it was created on, as the program hashes a piece
by its construction-time row, column and colour. The program's floating-point
unit vector is the integer sign of each displacement component, and its
`eval` lookups of `whitePieces` / `blackPieces` are the colour-indexed
`Board.PiecesOf`.

The central invariant, `Board.Valid`, says that the grid and the colour sets
agree (every occupied square holds a live piece whose record names that
square, and every live piece stands where its record says) and that the
selected piece, if any, belongs to the player to move. It holds in the
starting position and every click preserves it.

Modules: `Wrappers` (the `Option` type), `Pieces` (kinds, colours, offset
sets, values), `Board` (the game record and its invariant), `Rules` (path
walk and validation), `Moves` (move and capture), `Setup` (starting
position), `Pixels` (pixel-to-square conversion, with `inBoard` as written
and corrected), `Events` (clicks and presses).

Behaviour that follows from the code as written and is stated as such:

- `takeMoves` is never consulted. A pawn's diagonal capture never validates,
  and a pawn captures an enemy piece straight ahead instead
  (`Rules.PawnDiagonalNeverValid`, `Rules.PawnForwardStep`).
- A knight's validity ignores what stands on the destination, so its jump
  onto a piece of its own colour is valid; the click handler then selects
  that piece instead of moving (`Rules.KnightIgnoresOccupancy`,
  `Events.OpeningClicks`).
- In the path walk, the third test (the destination row or column matches)
  is always true when it is reached, so it is modelled as the remaining case.
- `inBoard` lets a click on the board's right or bottom edge line through
  (see "## Findings"); `Events.Press` uses the corrected test.
- Check, checkmate, castling, the pawn's double step, promotion and en passant
  do not exist in this revision of the program and are not modelled.

## Model

| member | source | states |
|---|---|---|
| Pieces.TakeMoves | chessGame.py:19-145 | A pawn's capture offsets are disjoint from its move offsets; for every other kind they are the move offsets. |
| Pieces.ValueOrder | chessGame.py:19-145 | The material values rank pawn below knight and bishop (equal), then rook, queen and king, and no piece is worth less than a pawn. |
| Setup.StartingMaterial | chessGame.py:436-471 | Each side's starting pieces add up to 90 points, and the king alone outweighs the other fifteen together. |
| Pieces.PosMovesMatchRule | chessGame.py:47-145 | An offset is in a piece's `posMoves` exactly when it satisfies the arithmetic rule of its kind: one forward step for a pawn, a rank or file step of 1 to 7 for a rook, a diagonal of 1 to 7 for a bishop, a (1,2)/(2,1) jump for a knight, a neighbouring square for a king, and either line for a queen. |
| Pieces.KnightOffsetsExact | chessGame.py:97-108 | The knight's offset set is exactly the eight (±1,±2) and (±2,±1) jumps. |
| Pieces.OffsetGeometry | chessGame.py:47-145 | No offset set contains (0,0); every offset lies within seven squares on each axis; every offset of a piece other than the knight lies on a rank, a file or a diagonal. |
| Rules.SignStepsReach | chessGame.py:190-198 | For a non-zero line displacement, stepping by the signs of its components is a unit direction and reaches the displacement exactly after max(abs dRow, abs dCol) steps. |
| Rules.Walk | chessGame.py:198-226 | The walk's "takePiece" outcome only occurs when an enemy piece stands on the destination, and a walk started before the destination that reports clear has found the destination empty. |
| Rules.WalkMatchesLine | chessGame.py:198-226 | From any step, the walk reports blocked exactly when some square from there up to the one before the destination is occupied or the destination holds an own piece; otherwise it reports clear for an empty destination and "takePiece" for an enemy. |
| Rules.WalkStaysInBounds | chessGame.py:198-211 | Every square the walk reads, from the first step to the destination, is on the board. |
| Rules.CheckBlockingPieces | chessGame.py:185-226 | A knight's result is always clear; any other piece's result is blocked by a piece strictly between origin and destination or by an own piece on the destination, and otherwise clear or "takePiece" according to the destination. |
| Rules.IsValidMove | chessGame.py:171-183 | A move is valid exactly when the displacement is in the piece's `posMoves`, the destination is on the board and, for any piece but a knight, the squares strictly between are empty and the destination is not held by the mover's colour; a valid move never stays in place. |
| Rules.KnightIgnoresOccupancy | chessGame.py:171-226 | A knight's move is valid exactly when its offset is a knight jump and the destination is on the board, whatever stands anywhere else, including an own piece on the destination. |
| Rules.PawnDiagonalNeverValid | chessGame.py:171-177 | A pawn's diagonal capture offset never passes validation. |
| Rules.PawnForwardStep | chessGame.py:171-226 | A pawn's forward step is valid exactly when the square ahead is not held by its own colour, and onto an enemy piece the walk reports "takePiece". |
| Moves.MakeMove | chessGame.py:229-242 | An invalid move leaves the state unchanged. A valid one empties the origin, puts the mover on the destination with its row, column and moved flag updated, changes no other square and no colour-set membership, clears the selection and increases the turn index by one. |
| Moves.TakePiece | chessGame.py:245-258 | An invalid capture leaves the state unchanged. A valid one empties the origin, puts the mover on the destination, changes no other square, removes exactly the captured piece from its colour's set, leaves the other set alone, clears the selection and increases the turn index by one. |
| Moves.MakeMoveKeepsValid | chessGame.py:229-242 | A move onto an empty square keeps the grid and the colour sets in agreement. |
| Moves.TakePieceKeepsValid | chessGame.py:245-258 | A capture keeps the grid and the colour sets in agreement: the captured piece leaves both together. |
| Board.Place | chessGame.py:436-471 | Creating a piece on an empty square and adding it to its colour's set keeps the grid and the sets in agreement, grows that colour's set by one and changes nothing else. |
| Setup.PlacePawns | chessGame.py:437-442 | The pawn loop fills rows 1 and 6 with black and white pawns, leaves every other square empty and puts eight pieces in each colour's set. |
| Setup.PlaceBackRank | chessGame.py:444-471 | One pass of the back-row loop fills its row with that colour's starting pieces, keeps every other row, adds eight pieces to that colour's set and leaves the other set alone. |
| Setup.PlaceBackRanks | chessGame.py:444-471 | The back-row loop fills row 0 with black's and row 7 with white's pieces, eight more per colour. |
| Setup.InitializeBoard | chessGame.py:436-471 | From an empty board, `initializeBoard` fills exactly rows 0, 1, 6 and 7 with their starting pieces and gives each colour 16 live pieces. |
| Setup.StartingRows | chessGame.py:436-471 | In the full starting layout black's live pieces stand on rows 0 and 1, white's on rows 6 and 7, and the kings and queens stand on columns 3 and 4 as `initializeBoard` places them. |
| Setup.InitialGame | chessGame.py:474-500 | The starting state satisfies the invariant, has turn index 0 (white to move) and no selection, holds the starting layout square by square, 16 pieces per colour on their own two rows, black's king on column 3 and queen on column 4, white's queen on column 3 and king on column 4. |
| Events.Select | chessGame.py:288-300 | Selecting a live piece of the player to move keeps the invariant and changes nothing but the selection. |
| Events.Click | chessGame.py:272-307 | A click keeps the invariant; it passes the turn exactly when a piece is selected, the square is not held by the player to move and the move is valid, and then the mover stands there and no piece is selected; clicking a piece of the player to move selects it; a click with nothing selected on any other square changes nothing; an invalid move or capture with a piece selected changes nothing, the selection included; a click that passes the turn yields exactly the state of the capture (on an occupied square) or the move (on an empty one); a click that does not pass the turn leaves the position alone; the mover never loses a piece and no colour gains one. |
| Events.Run | chessGame.py:272-307 | Over any sequence of clicks on the board the invariant holds, the turn index advances by at most one per click, and no colour ever gains a piece. |
| Events.Press | chessGame.py:272-280 | A press off the board changes nothing; a press on the board names a square of the grid, acts exactly as a click on that square (selecting, reselecting, capturing or moving), and passes the turn exactly when a piece is selected, that square is not held by the player to move and the move is valid; the invariant holds afterwards and no colour gains a piece. |
| Events.RunPresses | chessGame.py:272-307 | Over any sequence of presses at arbitrary pixels the invariant holds, the turn index advances by at most one per press, and no colour ever gains a piece. |
| Pixels.EdgeClickOffBoard | chessGame.py:381-387 | `inBoard` as written accepts the pixel on the right edge line (x = 570), which `getRowCol` maps to column 8, off the grid. |
| Pixels.AsWrittenOvershoot | chessGame.py:381-387 | `inBoard` as written accepts exactly the corrected pixels plus the right and bottom edge lines, and every pixel it wrongly accepts maps to a square off the grid. |
| Pixels.InBoardMeansOnBoard | chessGame.py:381-407 | With the corrected board test, a pixel passes exactly when `getRowCol` maps it to a square of the grid. |
| Pixels.RowColMatchesCorners | chessGame.py:395-407 | `getRowCol` maps a pixel to (row, col) exactly when the pixel lies inside the rectangle `getDimensions` gives for that square, left and top edges included. |
| Events.OpeningClicks | chessGame.py:272-307 | From the starting position black's pieces cannot be selected, a white pawn steps one square but not two, a knight jumps over the pawns (and a jump onto an own pawn selects the pawn), and a rook is walled in by its pawn. |

## Left out

- Graphics and drawing (`cmu_112_graphics`, `runApp`, the `*_draw*` and `redrawAll` functions, chessGame.py:324-373 and 503-509): rendering only, no effect on the game state.
- Events.Run: takes clicks that are already squares and requires each to be on the grid; clicks given as pixel positions, including off-board ones, are covered by `Events.RunPresses`, which has no such requirement.
- Events.Press: a click on the right or bottom edge line (x or y equal to 570) passes `inBoard` as written, `getRowCol` maps it to row or column 8, and the program's grid read raises an index error; the model ignores such a click, as the corrected board test does, instead of modelling the crash (see "## Findings").
- Pixel positions are whole numbers, as mouse events deliver them; the floating-point square size 67.5 is replaced by exact integer arithmetic on twice or eight times the offset, which gives the same floor for every such position.
- The window size is fixed at the 600 by 600 pixels the program starts with (chessGame.py:509); resizing the window is not modelled.
- Empty stubs (the home-screen functions, `gameMode_timerFired`, `gameMode_keyPressed`, `gameMode_hasCheck`, `gameMode_hasCheckmate`): they have no behaviour.
- The floating-point unit vector of the path walk (`math.sqrt`, `math.ceil`): replaced by the integer sign of each component, which it equals for every non-zero displacement the walk receives.
- Object identity, `__hash__` and the `eval` string lookups: replaced by piece ids (the creation square) and a colour-indexed pair of sets.
- Moves.TakePiece: requires that a valid capture targets an occupied square; the program reads the captured piece's colour and would fail on an empty square, and its only caller invokes it on an occupied one.
- Moves.MakeMoveKeepsValid: requires an empty destination; `gameMode_makeMove` onto an occupied square would leave the overwritten piece in its colour's set, but its only caller invokes it on an empty square.
- The iteration order of Python sets in `initializeBoard` is fixed to ascending order; the final position does not depend on it.

## Findings

| source | as written | input that shows it | evidently intended | confidence | as-written member | corrected member |
|---|---|---|---|---|---|---|
| chessGame.py:381-387 | `inBoard` rejects only x or y strictly greater than 570, so the right and bottom edge lines pass | a click at x = 570, y = 300: `getRowCol` gives (4, 8) and the grid read in `gameMode_mousePressed` fails with an index error | a click on the edge line is outside the board (x and y below 570) | high, not executed | Pixels.EdgeClickOffBoard | Pixels.InBoardMeansOnBoard |
