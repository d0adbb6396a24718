# Chess engine of the town game area, in Dafny

This project models the server-side chess engine of a town game area and the client's view of
whose turn it is:

- **ChessGame** (`townService/src/town/games/Chess/ChessGame.ts`):
  - the seats: `_join` and `_leave`;
  - the checks `applyMove` runs, in its order: a piece on the origin, `_genericValidateMove`
    (turn, status, own piece on the destination), then the piece's own `validate_move`;
  - `_applyMove`: the in-place edit of the piece list, the new move appended to the state, then
    `_checkForGameEnding`, which counts the kings in two nested loops;
  - the starting board (`createNewBoard`) and its flattening (`boardToPieceList`).
- **The Bishop** (`ChessPieces/Bishop.ts`): `validate_move` and the `_isPathClear` walk.
- **The Rook**: the rule that `ChessPieces/Rook.test.ts` pins square by square.
- **ChessAreaController** (`frontend/src/classes/interactable/ChessAreaController.ts`):
  - the getters `moveCount`, `white`, `black`, `winner`, `whoseTurn`, `isOurTurn`,
    `gameColor`, `status` and `isActive`;
  - the check `makeMove` makes before sending a move;
  - when `_updateFrom` emits `turnChanged`.

Layout:

| file | module | contents |
|---|---|---|
| `types.dfy` | `ChessTypes` | colours, kinds, pieces, squares, cells, boards, moves, piece-list entries, `Option`/`Result`/`Outcome` |
| `board.dfy` | `ChessBoard` | the starting layout, the replay of moves, `boardToPieceList`, king counts |
| `pieces.dfy` | `ChessPieces` | the Bishop and Rook rules, the path walk, the Rook test scenarios |
| `game.dfy` | `Game` | the game state, joins and leaves, move validation, `_applyMove`, the end of the game, and the class `ChessGame` |
| `game_scenarios.dfy` | `GameScenarios` | the bishop opening of the white-win test, played move by move |
| `controller.dfy` | `AreaController` | the client's getters and the class `ChessAreaController` |
| `findings.dfy` | `Findings` | the lines of `ChessGame.ts` that differ from their tests, modelled as written |

How the model is built:

- **The board is derived.** It is always the standard starting position with the recorded moves
  replayed on it (`ChessBoard.Replay`), as the `_board` getter computes it. The class
  `Game.ChessGame` keeps a `board` field that its invariant ties to that replay. It also keeps the
  piece list that `_applyMove` edits in place, and the invariant ties that list, up to order, to
  `boardToPieceList` of the board.
- **Errors are typed.** Every `InvalidParametersError` is a `Fail`/`Err` value carrying one
  constructor of `Game.GameError`.
- **Other pieces are a parameter.** The Queen, Knight, King and Pawn rules are a function value
  `rules: OtherRules`, fixed when the game is created.

## Model

Source cells are relative to the repository root.

| member | source | states |
|---|---|---|
| ChessBoard.InitialBoard | townService/src/town/games/Chess/ChessPieces/Rook.test.ts:24-69 | every square of the starting board holds the standard piece: pawns on rows 1 and 6, rook-knight-bishop-queen-king-bishop-knight-rook on rows 0 and 7, White on rows 0-1 |
| ChessBoard.CreateNewBoard | townService/src/town/games/Chess/ChessGame.ts:328-365 | the pawn loop followed by the back-rank writes builds exactly the standard starting board |
| ChessBoard.Step | townService/src/town/games/Chess/ChessGame.ts:63-69 | replaying a move clears the origin, puts the piece from the origin on the destination (overwriting a capture) and leaves every other square as it was; with no piece on the origin, or a move onto its own square, the board is unchanged |
| ChessBoard.ReplayAppend | townService/src/town/games/Chess/ChessGame.ts:63-69 | replaying the moves plus one more is one more step on the replayed board |
| ChessBoard.PieceListContents | townService/src/town/games/Chess/ChessGame.ts:371-381 | the flattened list has an entry exactly for each occupied cell, carrying the cell's piece and coordinates, and its entries are in strictly increasing row-major order, so no cell appears twice |
| ChessBoard.PieceListMember | townService/src/town/games/Chess/ChessGame.ts:371-381 | an entry is in the flattened list if and only if the board holds that piece on that entry's square |
| ChessBoard.PieceListSetCell | townService/src/town/games/Chess/ChessGame.ts:371-381 | changing one cell changes the flattened list, as a multiset, by exactly that cell's old and new entries |
| ChessBoard.KingCountZero | townService/src/town/games/Chess/ChessGame.ts:80-101 | the king count of a colour is zero exactly when no square holds a king of that colour |
| ChessBoard.InitialBoardHasKings | townService/src/town/games/Chess/ChessPieces/Rook.test.ts:24-69 | the starting board has a king of each colour |
| ChessPieces.IsPathClear | townService/src/town/games/Chess/ChessPieces/Bishop.ts:54-75 | for a diagonal move the walk reports exactly whether every square strictly between the ends is empty; it inspects fewer squares than the distance, all strictly between the ends, and exactly distance - 1 when the path is clear |
| ChessPieces.IntermediateEnds | townService/src/town/games/Chess/ChessPieces/Bishop.ts:59-65 | along a line, step 0 is the origin and step `distance` is the destination, so the walk that starts one step out stops at the destination |
| ChessPieces.FirstStepIsNeighbour | townService/src/town/games/Chess/ChessPieces/Bishop.ts:59-63 | the first square inspected is a neighbour of the origin and differs from it |
| ChessPieces.CheckPieceRule | townService/src/town/games/Chess/ChessPieces/Bishop.ts:28-52 | running a piece's rule (the bishop through the path walk, the rook, or the rule of another piece) answers exactly the piece's rule predicate; it reads the board and changes nothing |
| ChessPieces.BishopVerdict | townService/src/town/games/Chess/ChessPieces/Bishop.ts:34-51 | staying put or moving along a row or column is refused; on a clear diagonal the move is refused exactly when the bishop's own colour holds the destination |
| ChessPieces.OccupiedSquareBlocks | townService/src/town/games/Chess/ChessPieces/Bishop.ts:65-69 | a piece of either colour on any square strictly between the ends blocks the move |
| ChessPieces.FirstStepOwnBlocks | townService/src/town/games/Chess/ChessPieces/Bishop.ts:40-48 | a line move whose first square holds a piece of the mover's colour is refused, as a blocked path or as an own-piece destination |
| ChessPieces.LinesOnEmptyBoard | townService/src/town/games/Chess/ChessPieces/Rook.test.ts:111-127 | on an empty board a rook accepts exactly the squares that share one coordinate with it, and a bishop exactly its diagonal squares; the origin itself is refused by both |
| ChessPieces.InitialRooksCannotMove | townService/src/town/games/Chess/ChessPieces/Rook.test.ts:71-92 | on the starting board no rook of either colour has any accepted destination |
| ChessPieces.BackRankBoxedIn | townService/src/town/games/Chess/ChessPieces/Rook.test.ts:71-92 | on the starting board no line move from either back rank has a clear path to an open destination |
| ChessPieces.InitialBishopsCannotMove | townService/src/town/games/Chess/ChessPieces/Bishop.ts:40-48 | on the starting board no bishop has any accepted destination |
| ChessPieces.WhiteRookCannotPass | townService/src/town/games/Chess/ChessPieces/Rook.test.ts:128-147 | the white rook on (3, 3) cannot pass the pieces around it, whatever their colour |
| ChessPieces.WhiteRookCapturesOnlyBlack | townService/src/town/games/Chess/ChessPieces/Rook.test.ts:148-167 | the white rook may move onto each of the four surrounding pieces exactly when they are Black |
| ChessPieces.BlackRookCannotPass | townService/src/town/games/Chess/ChessPieces/Rook.test.ts:185-204 | the black rook on (4, 4) cannot pass the pieces around it, whatever their colour |
| ChessPieces.BlackRookCapturesOnlyWhite | townService/src/town/games/Chess/ChessPieces/Rook.test.ts:205-224 | the black rook may move onto each of the four surrounding pieces exactly when they are White |
| Game.JoinResult | townService/src/town/games/Chess/ChessGame.ts:250-273 | a join fails exactly when the player already holds a seat (PlayerAlreadyInGame) or both seats are taken (GameFull); otherwise the player takes White's seat when it is free, else Black's; the seats already held, the moves, the winner and the piece list are kept; the status is kept while Black's seat is empty and becomes in progress once both seats are held |
| Game.LeaveResult | townService/src/town/games/Chess/ChessGame.ts:286-313 | a leave fails exactly when the player holds no seat (PlayerNotInGame); with the black seat empty the state is reset to a new game; otherwise the game is over, the other seat wins, and the seats, moves and pieces are kept |
| Game.JoinKeepsConsistent | townService/src/town/games/Chess/ChessGame.ts:250-273 | a join keeps the seats, status, winner and moves consistent: White seated first, in progress exactly when Black is seated, a winner exactly when over, no moves before Black is seated |
| Game.LeaveKeepsConsistent | townService/src/town/games/Chess/ChessGame.ts:286-313 | a leave keeps the same consistency |
| Game.TwoJoinsStartTheGame | townService/src/town/games/Chess/ChessGame.test.ts:29-70 | after one join into a new game the player holds White's seat, Black's is empty and the game still waits with no moves and no winner; after a second, different player joins, that player holds Black's seat, the game is in progress and has no moves |
| Game.NoThirdPlayer | townService/src/town/games/Chess/ChessGame.ts:264-266 | a game in progress refuses every further join |
| Game.GenericValidate | townService/src/town/games/Chess/ChessGame.ts:171-205 | the generic checks pass exactly when the player holds the seat of the colour to move, the moving piece is of that colour, the game is in progress and the destination holds no piece of the mover's colour; each failure carries the error of the first check it fails, in that order |
| Game.Validate | townService/src/town/games/Chess/ChessGame.ts:210-239 | the checks run in the source's order: an empty origin is refused with NoPieceAtOrigin; otherwise a failing generic check gives that check's error (turn, then status, then own piece); only then does a refusal by the piece's rule give InvalidMove; a move is accepted exactly when the game is in progress, it is the player's turn, a piece of the colour to move stands on the origin, the destination holds none of its colour and that piece's rule accepts the move |
| Game.NullMoveRefused | townService/src/town/games/Chess/ChessGame.test.ts:285-303 | a move to its own square is never accepted, and once the turn and status checks pass (the player's seat and the origin piece's colour both that of the colour to move) it is refused as taking one's own piece |
| Game.NotStartedRefusesMoves | townService/src/town/games/Chess/ChessGame.test.ts:136-155 | no move is accepted unless the game is in progress; a move from the player to move with a piece of the colour to move on the origin is refused with GameNotInProgress |
| Game.ForeignPieceRefused | townService/src/town/games/Chess/ChessGame.ts:174-176 | a move of a piece that is not of the colour to move is refused as out of turn, whoever sends it |
| Game.OverIsFinal | townService/src/town/games/Chess/ChessGame.ts:181-184 | a finished game accepts no move |
| Game.TurnPasses | townService/src/town/games/Chess/ChessGame.ts:173-180 | after one more recorded move with the same seats, the player who had the turn no longer has it |
| Game.NoTwoMovesInARow | townService/src/town/games/Chess/ChessGame.test.ts:193-265 | after an accepted move, any next move by the same player is refused |
| Game.EndCheck | townService/src/town/games/Chess/ChessGame.ts:102-114 | no black king ends the game with White's player as winner (checked first, so also when both kings are gone); otherwise no white king ends it with Black's player as winner; with both kings the state is untouched |
| Game.Advance | townService/src/town/games/Chess/ChessGame.ts:151-156 | an applied move appends exactly that move, publishes the piece list and keeps both seats; on the board after the move, no black king ends the game with White's player as winner, otherwise no white king ends it with Black's player as winner, and with both kings nothing else changes |
| Game.AdvanceKeepsConsistent | townService/src/town/games/Chess/ChessGame.ts:151-156 | applying a move to a game in progress keeps the state consistent |
| Game.CapturingLastBlackKingWins | townService/src/town/games/Chess/ChessGame.test.ts:402-463 | on any board, a white piece moving onto the only black king ends the game with White's player as winner |
| Game.CapturingLastWhiteKingWins | townService/src/town/games/Chess/ChessGame.test.ts:464-536 | on any board where Black keeps a king, a black piece moving onto the only white king ends the game with Black's player as winner |
| Game.FirstIndex | townService/src/town/games/Chess/ChessGame.ts:121-126 | findIndex: -1 exactly when the entry is absent, otherwise the position of its first occurrence |
| Game.FindIndex | townService/src/town/games/Chess/ChessGame.ts:135-140 | the search loop returns the first position of the entry, or -1 |
| Game.Remove | townService/src/town/games/Chess/ChessGame.ts:128-130 | splicing out a present entry removes exactly one copy of it; an absent entry leaves the list unchanged |
| Game.Replace | townService/src/town/games/Chess/ChessGame.ts:142-148 | overwriting a present entry swaps exactly one copy of it for the new entry; an absent entry leaves the list unchanged |
| Game.PieceListAfterTracksBoard | townService/src/town/games/Chess/ChessGame.ts:117-149 | if the list held the board's pieces, then after the capture removal and the mover rewrite it holds, up to order, exactly the pieces of the board after the move |
| Game.StepPieceList | townService/src/town/games/Chess/ChessGame.ts:63-69 | on the board side a move takes the mover's entry off the origin and any captured entry off the destination, and adds the mover's entry on the destination |
| Game.AfterCaptureBalance | townService/src/town/games/Chess/ChessGame.ts:118-131 | the captured piece's entry is in the list and is the one removed |
| Game.CountKings | townService/src/town/games/Chess/ChessGame.ts:80-101 | the nested loops count exactly the white and the black kings on the board |
| Game.SeatsKeepInvariant | townService/src/town/games/Chess/ChessGame.ts:250-313 | a join or leave that keeps the moves and the published list keeps the game invariant |
| Game.ApplyKeepsInvariant | townService/src/town/games/Chess/ChessGame.ts:117-157 | an accepted move keeps the invariant: consistent seats, the board equal to the replay of the moves, the list equal up to order to the board's pieces, and the published list empty until the first move |
| Game.ChessGame.constructor | townService/src/town/games/Chess/ChessGame.ts:38-73 | a new game has nobody seated, the starting board, that board's piece list, and satisfies the invariant |
| Game.ChessGame.Join | townService/src/town/games/Chess/ChessGame.ts:250-273 | the state becomes the join's result, or stays as it was with the join's error; the board and list are untouched and the invariant holds |
| Game.ChessGame.Leave | townService/src/town/games/Chess/ChessGame.ts:286-313 | the state becomes the leave's result, or stays as it was with the leave's error; the board and list are untouched and the invariant holds |
| Game.ChessGame.CheckForGameEnding | townService/src/town/games/Chess/ChessGame.ts:79-115 | the state becomes the end check of the current board |
| Game.ChessGame.ApplyValidatedMove | townService/src/town/games/Chess/ChessGame.ts:117-157 | the list is edited, the piece moved, the move recorded and the end checked; the invariant holds afterwards |
| Game.ChessGame.EditPieces | townService/src/town/games/Chess/ChessGame.ts:118-149 | the list becomes the captured entry removed and the mover's entry rewritten with the destination; the state and board are untouched |
| Game.ChessGame.RemoveCaptured | townService/src/town/games/Chess/ChessGame.ts:118-131 | the entry of the piece on the destination is spliced out if the list has it |
| Game.ChessGame.RewriteMover | townService/src/town/games/Chess/ChessGame.ts:133-149 | the mover's entry is rewritten with the destination's coordinates if the list has it |
| Game.ChessGame.MovePiece | townService/src/town/games/Chess/ChessGame.ts:63-69 | the board becomes one replay step further |
| Game.ChessGame.ApplyMove | townService/src/town/games/Chess/ChessGame.ts:210-239 | the result is the validation of the move; a refused move changes neither the state, nor the board, nor the list; an accepted one appends exactly that move, moves the piece and keeps the invariant |
| Game.ChessGame.GenericValidateMove | townService/src/town/games/Chess/ChessGame.ts:171-205 | the method's checks answer exactly the generic validation |
| GameScenarios.KingsHomeKeepGoing | townService/src/town/games/Chess/ChessGame.ts:102-114 | with both kings on their home squares a move only appends itself and the game goes on |
| GameScenarios.WhitePawnDAccepted | townService/src/town/games/Chess/ChessGame.test.ts:403-413 | White's pawn step (1, 3) to (2, 3) passes every check from White's player, given that the pawn rule accepts it |
| GameScenarios.BlackPawnEAccepted | townService/src/town/games/Chess/ChessGame.test.ts:415-425 | Black's pawn step (6, 4) to (5, 4) passes from Black's player, given the pawn rule |
| GameScenarios.BishopOutAccepted | townService/src/town/games/Chess/ChessGame.test.ts:426-436 | the white bishop's move (0, 2) to (4, 6) over the square the pawn left passes every check |
| GameScenarios.OpponentBishopRefused | townService/src/town/games/Chess/ChessGame.ts:174-176 | after White's opening pawn move, Black's player moving White's bishop (0, 2) to (1, 3) is refused as out of turn |
| GameScenarios.BlackPawnHAccepted | townService/src/town/games/Chess/ChessGame.test.ts:438-448 | Black's pawn step (6, 7) to (5, 7) passes, given the pawn rule |
| GameScenarios.BishopBackAccepted | townService/src/town/games/Chess/ChessGame.test.ts:449-460 | the bishop's move (4, 6) to (7, 3), over the square Black's pawn left, passes every check and takes Black's queen |
| GameScenarios.BishopOpening | townService/src/town/games/Chess/ChessGame.test.ts:402-463 | from two joins, all five moves are accepted from the player whose turn it is; afterwards the game is still in progress and the white bishop stands on (7, 3) |
| AreaController.MoveCount | frontend/src/classes/interactable/ChessAreaController.ts:77-79 | moveCount is the number of recorded moves, or 0 without a game |
| AreaController.Occupant | frontend/src/classes/interactable/ChessAreaController.ts:84-101 | a seat yields a player exactly when its id is non-empty and among the occupants, and then that very player |
| AreaController.WinnerPlayer | frontend/src/classes/interactable/ChessAreaController.ts:106-112 | the winner is reported exactly when the game records a non-empty winner id that belongs to an occupant, and it is that player |
| AreaController.WhoseTurn | frontend/src/classes/interactable/ChessAreaController.ts:118-131 | nobody unless both seats have an occupant and the game is in progress; then White's player on an even move count and Black's on an odd one |
| AreaController.GameColor | frontend/src/classes/interactable/ChessAreaController.ts:152-159 | 'W' exactly when we are the white occupant, otherwise 'B' when we are the black one, otherwise PLAYER_NOT_IN_GAME_ERROR |
| AreaController.CurrentStatus | frontend/src/classes/interactable/ChessAreaController.ts:165-171 | the game's status, WAITING_TO_START without a game |
| AreaController.ActiveMeansInProgress | frontend/src/classes/interactable/ChessAreaController.ts:176-178 | isActive holds exactly when the status is IN_PROGRESS, and only then can a move be sent |
| AreaController.MakeMove | frontend/src/classes/interactable/ChessAreaController.ts:235-239 | a move is sent exactly when there is a non-empty instance id and the game is in progress; otherwise NO_GAME_IN_PROGRESS_ERROR |
| AreaController.WhoseTurnMatchesServer | frontend/src/classes/interactable/ChessAreaController.ts:118-128 | with both seats held by occupants, the client names a player as the one to move exactly when the server's turn rule lets that player move in a game in progress |
| AreaController.OurTurnIsSeatToMove | frontend/src/classes/interactable/ChessAreaController.ts:136-138 | isOurTurn holds exactly when the game is in progress with both seats occupied and our player holds the seat of the colour to move |
| AreaController.OurTurnOurColor | frontend/src/classes/interactable/ChessAreaController.ts:136-159 | when it is our turn, gameColor is the colour to move |
| AreaController.AcceptedMoveCounts | frontend/src/classes/interactable/ChessAreaController.ts:77-79 | after the server accepts a move, moveCount is one more |
| AreaController.TurnAlternates | frontend/src/classes/interactable/ChessAreaController.ts:124-128 | one more move with the same seats, in a game in progress, passes whoseTurn from one seat to the other |
| AreaController.TurnEvent | frontend/src/classes/interactable/ChessAreaController.ts:193-229 | turnChanged is emitted exactly when isOurTurn differs before and after the update, carrying the new value |
| AreaController.ChessAreaController.UpdateFrom | frontend/src/classes/interactable/ChessAreaController.ts:192-230 | the new model is taken and the emitted event is the turn event between the old and new models |
| AreaController.TurnChangeAnnounced | frontend/src/classes/interactable/ChessAreaController.ts:192-230 | after an accepted move that does not end the game, the mover is told it is no longer their turn and the opponent that it now is |
| Findings.TurnCheckAsWrittenIgnoresTurn | townService/src/town/games/Chess/ChessGame.ts:174-180 | the turn check as written passes exactly the moves that name a black piece, whoever makes them and whatever the move count |
| Findings.OpeningMoveAsWritten | townService/src/town/games/Chess/ChessGame.test.ts:167-192 | White's opening pawn move is refused by the check as written, while the seat rule accepts it from White's player and refuses it from Black's; a move naming a black piece passes the check as written on White's turn |
| Findings.BishopLookupAsWritten | townService/src/town/games/Chess/ChessGame.ts:222 | for the bishop move of the win test, the lookup as written reads White's rook on (0, 0) instead of the bishop on (0, 2), and the rook cannot make that move |
| Findings.Write | townService/src/town/games/Chess/ChessGame.ts:333-362 | a JavaScript element write throws exactly when the row is missing, and otherwise sets that cell, keeps every other cell and may lengthen the row |
| Findings.PawnsAsWritten | townService/src/town/games/Chess/ChessGame.ts:333-336 | the pawn loop fills columns 0-7 of rows 1 and 6 on a grid of either size, lengthening those rows on a 7 x 7 grid, and leaves the other rows untouched |
| Findings.CreateNewBoardAsWritten | townService/src/town/games/Chess/ChessGame.ts:328-365 | on the 7 x 7 grid the source allocates, the write to row 7 throws; even on an 8 x 8 grid the board has a black bishop on (0, 0), no bishops on columns 2 and 5, and both kings on column 3 with column 4 empty |
| Findings.CorrectedBackRanks | townService/src/town/games/Chess/ChessPieces/Rook.test.ts:24-69 | the model's starting board has the rooks, bishops, queens and kings on their own squares |
| Findings.ReplaceWithItself | townService/src/town/games/Chess/ChessGame.ts:143-147 | rewriting an entry with itself leaves the list unchanged |
| Findings.AsWrittenListUnchanged | townService/src/town/games/Chess/ChessGame.ts:133-149 | as written, a move onto an empty square leaves the piece list exactly as it was |
| Findings.StaleEntryAsWritten | townService/src/town/games/Chess/ChessGame.ts:143-147 | as written, after a move onto an empty square the list keeps the mover's entry on the origin, which is no longer the board's, so the list no longer holds the board's pieces |
| Findings.PawnStepListAsWritten | townService/src/town/games/Chess/ChessGame.ts:143-147 | after White's first pawn step the list as written still places the pawn on (1, 3) |

## Left out

- Networking, the UI and events: `sendInteractableCommand`, `emit` other than the `turnChanged` decision, TownController and PlayerController. Players are ids, and an occupant is found by comparing ids.
- The board that `_updateFrom` rebuilds from the piece list. It indexes `[file][rank]` against the server's `[row][col]` and compares with lodash `isEqual`.
- The ChessGameArea command dispatch and history. ChessGameArea.ts is not part of this model.
- The Game base class: instance ids, the players array and the public `join`/`leave` wrappers. The instance id that `makeMove` reads is a parameter of `AreaController.MakeMove`.
- The Queen, Knight, King and Pawn rules. Their server sources are not part of this model, so they are the parameter `rules`. The client's Pawn rule is an empty stub. The game scenarios assume that `rules` accepts each pawn step they play. No castling, en passant or promotion is invented.
- `isPlayer` (ChessAreaController.ts:143-145): it reads the `players` array of the Game base class, which the model does not tie to the seats.
- Empty player ids. The server's `_join` tests a seat with JavaScript falsiness (ChessGame.ts:254, 259, 267), so a seat holding the id "" would count as free. The model's seats are `None` or an id, and `Game.JoinResult` treats every held id as taken. Player ids come from the Game base class and are assumed non-empty. The client's `Occupant` does treat "" as nobody, as its source does.
- Error messages are the constructors of `Game.GameError` and `AreaController.ControllerError`, not strings.
- Null and undefined:
  - Bishop.ts:46 treats `null` as an empty destination, and _isPathClear (:66) treats only `undefined` as empty.
  - A cell here is a piece or nothing, and both tests read "nothing".
  - `whoseTurn`'s "Invalid move count" throw (ChessAreaController.ts:128-130) cannot happen with a natural move count and is not modelled.
- Aliasing of piece objects:
  - The source keeps a `row`/`col` in each piece object and never updates it after a move.
  - The model's pieces carry no position; the board says where they stand.
  - In the same way, the replay moves the piece found on the origin rather than the object the caller sends.
- The starting board of the conflicted `_board` getter (ChessGame.ts:53-62). Its back ranks hold only the queens and kings, and its row 1 holds a pawn object made for (2, 3). The model starts every replay from the standard position of Rook.test.ts:24-69 instead.
- Keeping the board current:
  - The stashed `_applyMove` never writes `this.board` (ChessGame.ts:238 leaves that as a TODO).
  - The model's `Game.ChessGame.MovePiece` moves the piece, so `this.board` is always the replay of the recorded moves, as the upstream getter computes it.
- Game.GenericValidate: checks the destination against the colour of the piece on the origin, not the colour the caller names (ChessGame.ts:196).
  - ChessGame.test.ts:523-535 needs this: Black's bishop, sent as a white piece, captures the white king.
  - The model does not check the named piece against the piece on the origin, and neither does the source.
  - The turn check tests the colour of the piece on the origin against the colour to move, as ChessGame.ts:174-176 tests the colour the caller names.
- The end of the game in the two win tests (ChessGame.test.ts:402-536):
  - Both tests capture on column 3, which holds a king only in the `createNewBoard` as written.
  - On the standard board the white bishop's last move takes Black's queen, and `GameScenarios.BishopOpening` proves the game goes on.
  - The end rule itself is proved over every board by `Game.CapturingLastBlackKingWins` and `Game.CapturingLastWhiteKingWins`.
- GameScenarios.BishopOpening: publishes an empty piece list at each step. The list is a parameter of `Game.Advance` and plays no part in the checks; `Game.ChessGame.ApplyMove` covers the list.
- The published list of a new game is empty, as the constructor's state says (ChessGame.ts:40). The list the object keeps from the start is published from the first move on.

## Findings

| source | as written | input that shows it | evidently intended | confidence | as-written member | corrected member |
|---|---|---|---|---|---|---|
| townService/src/town/games/Chess/ChessGame.ts:174-180 | both branches refuse a move that names a white piece, one on an odd and one on an even move count; the player is never consulted | White's player opens with the pawn (1, 1) to (2, 1) (ChessGame.test.ts:167-192): refused; Black's player sending a black piece on White's turn: passes | the player must hold the seat of the colour to move and the piece moved must be of that colour (:177-179 should test 'B' on an even count) | not executed | Findings.TurnCheckAsWrittenIgnoresTurn, Findings.OpeningMoveAsWritten | Game.GenericValidate, Game.ForeignPieceRefused, Game.NoTwoMovesInARow |
| townService/src/town/games/Chess/ChessGame.ts:222 | the moving piece is read from `board[rank][rank]` | the white bishop on (0, 2) moving to (4, 6) after 1. (1, 3)-(2, 3) (6, 4)-(5, 4): the rook on (0, 0) is read and the move refused | read `board[rank][file]` | not executed | Findings.BishopLookupAsWritten | GameScenarios.BishopOutAccepted, Game.Validate |
| townService/src/town/games/Chess/ChessGame.ts:328-365 | a 7 x 7 array (:330), all four bishops written to [0][0] (:351-354), both kings on column 3 over the queens (:361-362) | `createNewBoard()`: the write to row 7 throws; with 8 rows, (0, 0) holds a black bishop and (0, 3) the white king | the standard 8 x 8 starting position | not executed | Findings.CreateNewBoardAsWritten | ChessBoard.CreateNewBoard, Findings.CorrectedBackRanks |
| townService/src/town/games/Chess/ChessGame.ts:143-147 | the mover's entry is rewritten with the piece's old coordinates | White's pawn (1, 3) to (2, 3) from the start: the list still has the pawn on (1, 3) | rewrite the entry with the destination's coordinates | not executed | Findings.StaleEntryAsWritten, Findings.PawnStepListAsWritten | Game.PieceListAfterTracksBoard, Game.ChessGame.ApplyMove |
