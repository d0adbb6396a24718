/** ChessGame.ts: seats, joining and leaving, move validation in the order the source checks,
    the bookkeeping of the piece list in _applyMove, and the end of the game when a king is
    gone. The board is the starting layout with the accepted moves replayed on it. */
module Game {
  import opened ChessTypes
  import opened ChessBoard
  import opened ChessPieces

  /** 'WAITING_TO_START' | 'IN_PROGRESS' | 'OVER'. */
  datatype Status = WaitingToStart | InProgress | Over

  /** The InvalidParametersError messages, one constructor each. */
  datatype GameError =
    | PlayerAlreadyInGame
    | GameFull
    | PlayerNotInGame
    | GameNotInProgress
    | MoveNotYourTurn
    | NoPieceAtOrigin
    | CannotTakeOwnPiece
    | InvalidMove

  /** ChessGameState: status, the two seats, the winner, the accepted moves and the piece
      list published with the state. */
  datatype GameState = GameState(
    status: Status,
    white: Option<PlayerId>,
    black: Option<PlayerId>,
    winner: Option<PlayerId>,
    moves: seq<Move>,
    pieces: seq<PiecePosition>)

  /** The state the constructor publishes, and the one _leave restores before the game has
      started: nobody seated, no moves, an empty piece list. */
  function NewGameState(): GameState
  {
    GameState(WaitingToStart, None, None, None, [], [])
  }

  /** What joining and leaving keep true of the seats, the status and the winner. */
  predicate Consistent(s: GameState)
  {
    && (s.white.None? ==> s.black.None?)
    && (s.status == WaitingToStart <==> s.black.None?)
    && (s.winner.Some? <==> s.status == Over)
    && (s.black.None? ==> s.moves == [])
    && (s.white.Some? && s.black.Some? ==> s.white != s.black)
  }

  predicate IsMember(s: GameState, p: PlayerId)
  {
    s.white == Some(p) || s.black == Some(p)
  }

  // ---------------------------------------------------------------------------
  // _join and _leave

  /** _join: a seated player is refused, then the player takes the white seat if it is free,
      else the black seat if that is free, else the game is full. Once both seats are taken
      the game is in progress. */
  function JoinResult(s: GameState, p: PlayerId): (r: Result<GameState, GameError>)
    ensures r.Err? <==> IsMember(s, p) || (s.white.Some? && s.black.Some?)
    ensures r.Err? && IsMember(s, p) ==> r.error == PlayerAlreadyInGame
    ensures r.Err? && !IsMember(s, p) ==> r.error == GameFull
    ensures r.Ok? ==>
      && IsMember(r.value, p)
      && (s.white.Some? ==> r.value.white == s.white)
      && (s.black.Some? ==> r.value.black == s.black)
      && r.value.moves == s.moves && r.value.winner == s.winner
    ensures r.Ok? && s.white.None? ==> r.value.white == Some(p) && r.value.black == s.black
    ensures r.Ok? && s.white.Some? ==> r.value.black == Some(p)
    ensures r.Ok? ==> r.value.pieces == s.pieces
    ensures r.Ok? && r.value.black.None? ==> r.value.status == s.status
    ensures r.Ok? && r.value.white.Some? && r.value.black.Some? ==> r.value.status == InProgress
  {
    if IsMember(s, p) then Err(PlayerAlreadyInGame)
    else
      var s' := if s.white.None? then s.(white := Some(p))
                else if s.black.None? then s.(black := Some(p))
                else s;
      if s'.white == s.white && s'.black == s.black then Err(GameFull)
      else if s'.white.Some? && s'.black.Some? then Ok(s'.(status := InProgress))
      else Ok(s')
  }

  /** _leave: a player who is not seated is refused. Before the game has a second player the
      state is reset to the new-game state; otherwise the game is over and the player who
      stays is the winner. */
  function LeaveResult(s: GameState, p: PlayerId): (r: Result<GameState, GameError>)
    ensures r.Err? <==> !IsMember(s, p)
    ensures r.Err? ==> r.error == PlayerNotInGame
    ensures r.Ok? && s.black.None? ==> r.value == NewGameState()
    ensures r.Ok? && s.black.Some? ==>
      && r.value.status == Over
      && r.value.pieces == s.pieces
      && r.value.winner == (if s.white == Some(p) then s.black else s.white)
      && r.value.white == s.white && r.value.black == s.black && r.value.moves == s.moves
  {
    if !IsMember(s, p) then Err(PlayerNotInGame)
    else if s.black.None? then Ok(NewGameState())
    else if s.white == Some(p) then Ok(s.(status := Over, winner := s.black))
    else Ok(s.(status := Over, winner := s.white))
  }

  lemma JoinKeepsConsistent(s: GameState, p: PlayerId)
    requires Consistent(s) && JoinResult(s, p).Ok?
    ensures Consistent(JoinResult(s, p).value)
  {
  }

  lemma LeaveKeepsConsistent(s: GameState, p: PlayerId)
    requires Consistent(s) && LeaveResult(s, p).Ok?
    ensures Consistent(LeaveResult(s, p).value)
  {
  }

  /** Two different players joining a new game start it, the first one playing White; after
      the first join only White's seat is taken and the game still waits. */
  lemma TwoJoinsStartTheGame(p: PlayerId, q: PlayerId)
    requires p != q
    ensures JoinResult(NewGameState(), p).Ok?
    ensures var s := JoinResult(NewGameState(), p).value;
      s.status == WaitingToStart && s.white == Some(p) && s.black == None && s.winner == None && s.moves == []
    ensures JoinResult(JoinResult(NewGameState(), p).value, q).Ok?
    ensures var s := JoinResult(JoinResult(NewGameState(), p).value, q).value;
      s.status == InProgress && s.white == Some(p) && s.black == Some(q) && s.moves == []
  {
  }

  /** A third player is refused, and a seated player cannot join again. */
  lemma NoThirdPlayer(s: GameState, p: PlayerId)
    requires s.status == InProgress && Consistent(s)
    ensures JoinResult(s, p).Err?
  {
  }

  // ---------------------------------------------------------------------------
  // Whose turn it is

  /** White moves when an even number of moves has been made. */
  function ColorToMove(s: GameState): Color
  {
    if |s.moves| % 2 == 0 then White else Black
  }

  function SeatOf(s: GameState, c: Color): Option<PlayerId>
  {
    if c == White then s.white else s.black
  }

  /** The turn rule: the player holds the seat of the colour to move; the colour of the piece
      named in the move plays no part (ChessGame.test.ts:167-265 and 523-535). See "Findings"
      for the check as ChessGame.ts:174-180 writes it. */
  predicate IsTurnOf(s: GameState, player: PlayerId)
  {
    SeatOf(s, ColorToMove(s)) == Some(player)
  }

  // ---------------------------------------------------------------------------
  // applyMove's checks, in the source's order

  /** The destination holds a piece of colour `c`. */
  predicate OwnPieceAt(b: Board, s: Square, c: Color)
  {
    At(b, s).Some? && At(b, s).value.color == c
  }

  /** The turn check of _genericValidateMove: the player holds the seat of the colour to move
      (ChessGame.test.ts:167-265) and the piece that moves is of that colour, White on an even
      move count and Black on an odd one (the branch at ChessGame.ts:174-176, with its twin at
      :177-179 read as testing Black; see "Findings"). */
  predicate MayMove(s: GameState, player: PlayerId, mover: Color)
  {
    IsTurnOf(s, player) && mover == ColorToMove(s)
  }

  /** _genericValidateMove: the turn, then the status, then the destination against the
      colour `mover` of the piece that moves. ChessGame.ts:174-199 takes that colour from the
      piece named in the move; the model takes it from the piece standing on the origin, as
      ChessGame.test.ts:523-535 needs (Black's bishop, named as a white one, moves on Black's
      turn and captures a white piece). */
  function GenericValidate(s: GameState, b: Board, player: PlayerId, m: Move, mover: Color): (r: Outcome<GameError>)
    ensures r == Pass <==>
      MayMove(s, player, mover) && s.status == InProgress && !OwnPieceAt(b, m.dest, mover)
    ensures !IsTurnOf(s, player) || mover != ColorToMove(s) ==> r == Fail(MoveNotYourTurn)
    ensures MayMove(s, player, mover) && s.status != InProgress ==> r == Fail(GameNotInProgress)
    ensures MayMove(s, player, mover) && s.status == InProgress && OwnPieceAt(b, m.dest, mover) ==>
      r == Fail(CannotTakeOwnPiece)
  {
    if !MayMove(s, player, mover) then Fail(MoveNotYourTurn)
    else if s.status != InProgress then Fail(GameNotInProgress)
    else if OwnPieceAt(b, m.dest, mover) then Fail(CannotTakeOwnPiece)
    else Pass
  }

  /** applyMove's validation on the current board: a piece must stand on the origin, then the
      generic checks, then the rule of that piece, which is told the board and the moves so far. */
  function Validate(s: GameState, player: PlayerId, m: Move, rules: OtherRules): (r: Outcome<GameError>)
    ensures At(Replay(s.moves), m.origin).None? ==> r == Fail(NoPieceAtOrigin)
    ensures At(Replay(s.moves), m.origin).Some? ==>
      var mover := At(Replay(s.moves), m.origin).value;
      && (GenericValidate(s, Replay(s.moves), player, m, mover.color).Fail? ==>
            r == GenericValidate(s, Replay(s.moves), player, m, mover.color))
      && ((GenericValidate(s, Replay(s.moves), player, m, mover.color) == Pass
           && !PieceRule(mover, m.origin, m.dest, Replay(s.moves), s.moves, rules)) ==> r == Fail(InvalidMove))
    ensures r == Pass <==>
      && s.status == InProgress
      && IsTurnOf(s, player)
      && At(Replay(s.moves), m.origin).Some?
      && At(Replay(s.moves), m.origin).value.color == ColorToMove(s)
      && !OwnPieceAt(Replay(s.moves), m.dest, At(Replay(s.moves), m.origin).value.color)
      && PieceRule(At(Replay(s.moves), m.origin).value, m.origin, m.dest, Replay(s.moves), s.moves, rules)
  {
    var b := Replay(s.moves);
    if At(b, m.origin).None? then Fail(NoPieceAtOrigin)
    else if GenericValidate(s, b, player, m, At(b, m.origin).value.color).Fail? then
      GenericValidate(s, b, player, m, At(b, m.origin).value.color)
    else if !PieceRule(At(b, m.origin).value, m.origin, m.dest, b, s.moves, rules) then Fail(InvalidMove)
    else Pass
  }

  /** Validate on a board already known to be the replayed one (a proof step of ApplyMove). */
  lemma ValidateOnBoard(s: GameState, b: Board, player: PlayerId, m: Move, rules: OtherRules)
    requires b == Replay(s.moves)
    ensures Validate(s, player, m, rules) ==
      if At(b, m.origin).None? then Fail(NoPieceAtOrigin)
      else if GenericValidate(s, b, player, m, At(b, m.origin).value.color).Fail? then
        GenericValidate(s, b, player, m, At(b, m.origin).value.color)
      else if !PieceRule(At(b, m.origin).value, m.origin, m.dest, b, s.moves, rules) then Fail(InvalidMove)
      else Pass
  {
  }

  /** Moving a piece onto its own square is refused whatever the piece's rule says: once the
      turn and status checks pass, the destination holds the mover's own colour
      (ChessGame.test.ts:285-303). */
  lemma NullMoveRefused(s: GameState, player: PlayerId, m: Move, rules: OtherRules)
    requires m.origin == m.dest
    ensures Validate(s, player, m, rules) != Pass
    ensures (IsTurnOf(s, player) && s.status == InProgress && At(Replay(s.moves), m.origin).Some?
             && At(Replay(s.moves), m.origin).value.color == ColorToMove(s)) ==>
      Validate(s, player, m, rules) == Fail(CannotTakeOwnPiece)
  {
  }

  /** A player cannot move a piece of the colour that is not to move, even on their own turn:
      the move is refused as out of turn (ChessGame.ts:174-176). */
  lemma ForeignPieceRefused(s: GameState, player: PlayerId, m: Move, rules: OtherRules)
    requires At(Replay(s.moves), m.origin).Some?
    requires At(Replay(s.moves), m.origin).value.color != ColorToMove(s)
    ensures Validate(s, player, m, rules) == Fail(MoveNotYourTurn)
  {
  }

  /** Before the second player has joined every move is refused (ChessGame.test.ts:136-155). */
  lemma NotStartedRefusesMoves(s: GameState, player: PlayerId, m: Move, rules: OtherRules)
    requires s.status != InProgress
    ensures Validate(s, player, m, rules) != Pass
    ensures (IsTurnOf(s, player) && At(Replay(s.moves), m.origin).Some?
             && At(Replay(s.moves), m.origin).value.color == ColorToMove(s)) ==>
      Validate(s, player, m, rules) == Fail(GameNotInProgress)
  {
  }

  // ---------------------------------------------------------------------------
  // _checkForGameEnding

  /** After a move, a side without a king has lost: no black king means White wins (checked
      first), otherwise no white king means Black wins; with both kings the state is kept. */
  function EndCheck(s: GameState, b: Board): (r: GameState)
    ensures !HasKing(b, Black) ==> r == s.(status := Over, winner := s.white)
    ensures HasKing(b, Black) && !HasKing(b, White) ==> r == s.(status := Over, winner := s.black)
    ensures HasKing(b, Black) && HasKing(b, White) ==> r == s
  {
    KingCountZero(b, Black);
    KingCountZero(b, White);
    if KingCount(b, Black) == 0 then s.(status := Over, winner := s.white)
    else if KingCount(b, White) == 0 then s.(status := Over, winner := s.black)
    else s
  }

  /** _applyMove's effect on the state: the move is appended, the piece list published, and
      the end of the game checked on the new board. */
  function Advance(s: GameState, m: Move, ps: seq<PiecePosition>): (r: GameState)
    ensures r.moves == s.moves + [m] && r.pieces == ps
    ensures r.white == s.white && r.black == s.black
    ensures r.status == s.status || r.status == Over
    ensures var b, s' := Replay(s.moves + [m]), s.(moves := s.moves + [m], pieces := ps);
      && (!HasKing(b, Black) ==> r == s'.(status := Over, winner := s.white))
      && (HasKing(b, Black) && !HasKing(b, White) ==> r == s'.(status := Over, winner := s.black))
      && (HasKing(b, Black) && HasKing(b, White) ==> r == s')
  {
    EndCheck(s.(moves := s.moves + [m], pieces := ps), Replay(s.moves + [m]))
  }

  /** An accepted move keeps the state consistent. */
  lemma AdvanceKeepsConsistent(s: GameState, m: Move, ps: seq<PiecePosition>)
    requires Consistent(s) && s.status == InProgress
    ensures Consistent(Advance(s, m, ps))
  {
  }

  /** Nobody moves twice in a row: after an accepted move the same player's next move is
      refused (ChessGame.test.ts:193-265). */
  lemma NoTwoMovesInARow(s: GameState, player: PlayerId, m: Move, m': Move, ps: seq<PiecePosition>, rules: OtherRules)
    requires Consistent(s) && Validate(s, player, m, rules) == Pass
    ensures Validate(Advance(s, m, ps), player, m', rules) != Pass
  {
    TurnPasses(s, Advance(s, m, ps), player);
  }

  /** Once a move is recorded with the seats unchanged, the player who made it is no longer
      the one to move. */
  lemma TurnPasses(s: GameState, s': GameState, player: PlayerId)
    requires Consistent(s) && IsTurnOf(s, player)
    requires s'.white == s.white && s'.black == s.black && |s'.moves| == |s.moves| + 1
    ensures !IsTurnOf(s', player)
  {
  }

  /** A finished game accepts no move. */
  lemma OverIsFinal(s: GameState, player: PlayerId, m: Move, rules: OtherRules)
    requires s.status == Over
    ensures Validate(s, player, m, rules) != Pass
  {
  }

  /** Capturing the last black king with a white piece ends the game and White's player wins
      (the scenario of ChessGame.test.ts:402-463). */
  lemma CapturingLastBlackKingWins(s: GameState, m: Move, ps: seq<PiecePosition>)
    requires At(Replay(s.moves), m.origin).Some? && At(Replay(s.moves), m.origin).value.color == White
    requires m.origin != m.dest
    requires forall t: Square :: t != m.dest ==> At(Replay(s.moves), t) != Some(Piece(King, Black))
    ensures Advance(s, m, ps).status == Over && Advance(s, m, ps).winner == s.white
  {
    ReplayAppend(s.moves, m);
    var b' := Replay(s.moves + [m]);
    assert !HasKing(b', Black) by {
      forall t: Square
        ensures At(b', t) != Some(Piece(King, Black))
      {
        if t != m.origin && t != m.dest {
          assert At(b', t) == At(Replay(s.moves), t);
        }
      }
    }
  }

  /** Capturing the last white king with a black piece ends the game and Black's player wins,
      provided Black still has a king (the scenario of ChessGame.test.ts:464-536). */
  lemma CapturingLastWhiteKingWins(s: GameState, m: Move, ps: seq<PiecePosition>, k: Square)
    requires At(Replay(s.moves), m.origin).Some? && At(Replay(s.moves), m.origin).value.color == Black
    requires m.origin != m.dest
    requires forall t: Square :: t != m.dest ==> At(Replay(s.moves), t) != Some(Piece(King, White))
    requires k != m.dest && At(Replay(s.moves), k) == Some(Piece(King, Black))
    ensures Advance(s, m, ps).status == Over && Advance(s, m, ps).winner == s.black
  {
    ReplayAppend(s.moves, m);
    var b := Replay(s.moves);
    var b' := Replay(s.moves + [m]);
    assert HasKing(b', Black) by {
      if k == m.origin {
        assert At(b', m.dest) == Some(Piece(King, Black));
      } else {
        assert At(b', k) == Some(Piece(King, Black));
      }
    }
    assert !HasKing(b', White) by {
      forall t: Square
        ensures At(b', t) != Some(Piece(King, White))
      {
        if t != m.origin && t != m.dest {
          assert At(b', t) == At(b, t);
        }
      }
    }
  }

  // ---------------------------------------------------------------------------
  // The piece list kept by _applyMove

  /** Array.prototype.findIndex for equality: the position of the first entry equal to e,
      or -1 when there is none. */
  function FirstIndex(ps: seq<PiecePosition>, e: PiecePosition): (i: int)
    ensures -1 <= i < |ps|
    ensures i == -1 <==> e !in ps
    ensures 0 <= i ==> ps[i] == e && e !in ps[..i]
  {
    if |ps| == 0 then -1
    else if ps[0] == e then 0
    else
      var j := FirstIndex(ps[1..], e);
      assert ps == [ps[0]] + ps[1..];
      if j == -1 then -1
      else
        assert ps[..j + 1] == [ps[0]] + ps[1..][..j];
        j + 1
  }

  /** The loop findIndex runs. */
  method FindIndex(ps: seq<PiecePosition>, e: PiecePosition) returns (i: int)
    ensures i == FirstIndex(ps, e)
  {
    i := 0;
    while i < |ps|
      invariant 0 <= i <= |ps| && e !in ps[..i]
    {
      if ps[i] == e {
        return;
      }
      assert ps[..i + 1] == ps[..i] + [ps[i]];
      i := i + 1;
    }
    assert ps[..i] == ps;
    return -1;
  }

  /** splice(index, 1) at the first entry equal to e, when there is one. */
  function Remove(ps: seq<PiecePosition>, e: PiecePosition): (r: seq<PiecePosition>)
    ensures e in ps ==> multiset(r) + multiset{e} == multiset(ps)
    ensures e !in ps ==> r == ps
  {
    var i := FirstIndex(ps, e);
    if i == -1 then ps
    else
      assert ps == ps[..i] + [ps[i]] + ps[i + 1..];
      ps[..i] + ps[i + 1..]
  }

  /** pieces[index] = e' at the first entry equal to e, when there is one. */
  function Replace(ps: seq<PiecePosition>, e: PiecePosition, e': PiecePosition): (r: seq<PiecePosition>)
    ensures e in ps ==> multiset(r) + multiset{e} == multiset(ps) + multiset{e'}
    ensures e !in ps ==> r == ps
  {
    var i := FirstIndex(ps, e);
    if i == -1 then ps
    else
      assert ps == ps[..i] + [e] + ps[i + 1..];
      assert ps[i := e'] == ps[..i] + [e'] + ps[i + 1..];
      ps[i := e']
  }

  /** _applyMove's edit of the piece list: the entry of a piece standing on the destination is
      removed, then the entry of the moving piece is rewritten with the destination's
      coordinates. (ChessGame.ts:143-147 rewrites it with the old ones; see "Findings".) */
  function PieceListAfter(ps: seq<PiecePosition>, b: Board, m: Move): seq<PiecePosition>
  {
    match At(b, m.origin)
    case None => AfterCapture(ps, b, m)
    case Some(p) => Replace(AfterCapture(ps, b, m), PiecePosition(p, m.origin.row, m.origin.col), PiecePosition(p, m.dest.row, m.dest.col))
  }

  /** The first half of the edit: the entry of a piece standing on the destination removed. */
  function AfterCapture(ps: seq<PiecePosition>, b: Board, m: Move): seq<PiecePosition>
  {
    match At(b, m.dest)
    case None => ps
    case Some(q) => Remove(ps, PiecePosition(q, m.dest.row, m.dest.col))
  }

  /** The piece list stays, up to order, the list boardToPieceList would build from the board
      after the move. */
  lemma PieceListAfterTracksBoard(ps: seq<PiecePosition>, b: Board, m: Move)
    requires multiset(ps) == multiset(BoardToPieceList(b))
    requires At(b, m.origin).Some? && m.origin != m.dest
    ensures multiset(PieceListAfter(ps, b, m)) == multiset(BoardToPieceList(Step(b, m)))
  {
    var p := At(b, m.origin).value;
    var eo, ed := PiecePosition(p, m.origin.row, m.origin.col), PiecePosition(p, m.dest.row, m.dest.col);
    StepPieceList(b, m);
    AfterCaptureBalance(ps, b, m);
    MoverReplaced(ps, b, m);
    TrackBalance(multiset(BoardToPieceList(b)), multiset(BoardToPieceList(Step(b, m))),
      multiset(AfterCapture(ps, b, m)), multiset(EntryOf(At(b, m.dest), m.dest)),
      multiset(PieceListAfter(ps, b, m)), eo, ed);
  }

  /** The list side of the move: the mover's entry survives the capture and is rewritten. */
  lemma MoverReplaced(ps: seq<PiecePosition>, b: Board, m: Move)
    requires multiset(ps) == multiset(BoardToPieceList(b))
    requires At(b, m.origin).Some? && m.origin != m.dest
    ensures var p := At(b, m.origin).value;
      multiset(PieceListAfter(ps, b, m)) + multiset{PiecePosition(p, m.origin.row, m.origin.col)}
      == multiset(AfterCapture(ps, b, m)) + multiset{PiecePosition(p, m.dest.row, m.dest.col)}
  {
    var p := At(b, m.origin).value;
    var eo, ed := PiecePosition(p, m.origin.row, m.origin.col), PiecePosition(p, m.dest.row, m.dest.col);
    var after := AfterCapture(ps, b, m);
    var captured := multiset(EntryOf(At(b, m.dest), m.dest));
    assert eo in multiset(ps) by {
      assert SquareOf(eo) == m.origin;
      PieceListMember(b, eo);
    }
    assert multiset(after) + captured == multiset(ps) by {
      AfterCaptureBalance(ps, b, m);
    }
    assert eo !in captured by {
      assert SquareOf(eo) != m.dest;
    }
    assert eo in after;
    assert PieceListAfter(ps, b, m) == Replace(after, eo, ed);
  }

  /** The multiset arithmetic that closes PieceListAfterTracksBoard. */
  lemma TrackBalance<T>(list: multiset<T>, list': multiset<T>, after: multiset<T>, captured: multiset<T>, r: multiset<T>, eo: T, ed: T)
    requires list' + multiset{eo} + captured == list + multiset{ed}
    requires after + captured == list
    requires r + multiset{eo} == after + multiset{ed}
    ensures r == list'
  {
    assert r + multiset{eo} + captured == list' + multiset{eo} + captured;
    forall x
      ensures r[x] == list'[x]
    {
      assert (r + multiset{eo} + captured)[x] == (list' + multiset{eo} + captured)[x];
    }
  }

  /** The board side: moving a piece takes its entry off the origin, takes the captured entry
      off the destination and adds the piece's entry on the destination. */
  lemma StepPieceList(b: Board, m: Move)
    requires At(b, m.origin).Some? && m.origin != m.dest
    ensures var p := At(b, m.origin).value;
      multiset(BoardToPieceList(Step(b, m))) + multiset{PiecePosition(p, m.origin.row, m.origin.col)}
        + multiset(EntryOf(At(b, m.dest), m.dest))
      == multiset(BoardToPieceList(b)) + multiset{PiecePosition(p, m.dest.row, m.dest.col)}
  {
    var p := At(b, m.origin).value;
    var eo, ed := PiecePosition(p, m.origin.row, m.origin.col), PiecePosition(p, m.dest.row, m.dest.col);
    var b1 := SetCell(b, m.origin, None);
    var b2 := SetCell(b1, m.dest, Some(p));
    assert Step(b, m) == b2;
    var list, list1, list2 := multiset(BoardToPieceList(b)), multiset(BoardToPieceList(b1)), multiset(BoardToPieceList(b2));
    var captured := multiset(EntryOf(At(b, m.dest), m.dest));
    assert list1 + multiset{eo} == list by {
      PieceListSetCell(b, m.origin, None);
      assert EntryOf(At(b, m.origin), m.origin) == [eo] && EntryOf(None, m.origin) == [];
    }
    assert list2 + captured == list1 + multiset{ed} by {
      PieceListSetCell(b1, m.dest, Some(p));
      assert At(b1, m.dest) == At(b, m.dest);
      assert EntryOf(Some(p), m.dest) == [ed];
    }
    MoveBalance(list, list1, list2, captured, eo, ed);
  }

  /** The multiset arithmetic of a move: take `eo` off, then swap `captured` for `ed`. */
  lemma MoveBalance<T>(list: multiset<T>, list1: multiset<T>, list2: multiset<T>, captured: multiset<T>, eo: T, ed: T)
    requires list1 + multiset{eo} == list
    requires list2 + captured == list1 + multiset{ed}
    ensures list2 + multiset{eo} + captured == list + multiset{ed}
  {
    calc {
      list2 + multiset{eo} + captured;
      (list2 + captured) + multiset{eo};
      (list1 + multiset{ed}) + multiset{eo};
      (list1 + multiset{eo}) + multiset{ed};
      list + multiset{ed};
    }
  }

  /** The list side of the capture: the captured piece's entry is in the list and is removed. */
  lemma AfterCaptureBalance(ps: seq<PiecePosition>, b: Board, m: Move)
    requires multiset(ps) == multiset(BoardToPieceList(b))
    ensures multiset(AfterCapture(ps, b, m)) + multiset(EntryOf(At(b, m.dest), m.dest)) == multiset(ps)
  {
    if At(b, m.dest).Some? {
      var ec := PiecePosition(At(b, m.dest).value, m.dest.row, m.dest.col);
      PieceListMember(b, ec);
      assert ec in multiset(ps);
    }
  }

  /** The nested loops of _checkForGameEnding: count the kings of each colour. */
  method CountKings(b: Board) returns (wk: nat, bk: nat)
    ensures wk == KingCount(b, White) && bk == KingCount(b, Black)
  {
    wk, bk := 0, 0;
    for row := 0 to 8
      invariant wk == KingsBefore(b, White, row, 0) && bk == KingsBefore(b, Black, row, 0)
    {
      for col := 0 to 8
        invariant wk == KingsBefore(b, White, row, col) && bk == KingsBefore(b, Black, row, col)
      {
        match b[row][col] {
          case Some(p) =>
            if p.kind == King {
              if p.color == White {
                wk := wk + 1;
              }
              if p.color == Black {
                bk := bk + 1;
              }
            }
          case None =>
        }
      }
    }
  }

  // ---------------------------------------------------------------------------
  // The game object

  /** What the fields of a ChessGame keep true: consistent seats and status, the board is the
      replay of the recorded moves, the piece list holds exactly the board's pieces, and the
      published list is empty until the first move and the kept list afterwards. */
  ghost predicate GameInvariant(s: GameState, b: Board, ps: seq<PiecePosition>)
  {
    && Consistent(s)
    && b == Replay(s.moves)
    && multiset(ps) == multiset(BoardToPieceList(b))
    && s.pieces == (if s.moves == [] then [] else ps)
  }

  /** Joining or leaving changes only the seats, the status and the winner. */
  lemma SeatsKeepInvariant(s: GameState, s': GameState, b: Board, ps: seq<PiecePosition>)
    requires GameInvariant(s, b, ps) && Consistent(s')
    requires s'.moves == s.moves && s'.pieces == s.pieces
    ensures GameInvariant(s', b, ps)
  {
  }

  /** An accepted move keeps the invariant. */
  lemma ApplyKeepsInvariant(s: GameState, b: Board, ps: seq<PiecePosition>, m: Move)
    requires GameInvariant(s, b, ps) && s.status == InProgress
    requires At(b, m.origin).Some? && m.origin != m.dest
    ensures var ps' := PieceListAfter(ps, b, m);
      GameInvariant(Advance(s, m, ps'), Step(b, m), ps')
  {
    var ps' := PieceListAfter(ps, b, m);
    PieceListAfterTracksBoard(ps, b, m);
    ReplayAppend(s.moves, m);
    AdvanceKeepsConsistent(s, m, ps');
  }

  class ChessGame {
    var state: GameState
    /** The current board, the starting layout with state.moves replayed on it. */
    var board: Board
    /** The piece list _applyMove edits in place; it is published as state.pieces. */
    var pieces: seq<PiecePosition>
    /** validate_move of the Queen, Knight, King and Pawn. */
    const rules: OtherRules

    ghost predicate Valid()
      reads this
    {
      GameInvariant(state, board, pieces)
    }

    /** A new game: nobody seated, the starting board, its piece list. */
    constructor(rules: OtherRules)
      ensures Valid()
      ensures state == NewGameState() && board == InitialBoard()
      ensures pieces == BoardToPieceList(InitialBoard()) && this.rules == rules
    {
      var b := CreateNewBoard();
      this.rules := rules;
      state := NewGameState();
      board := b;
      pieces := BoardToPieceList(b);
    }

    method Join(p: PlayerId) returns (r: Outcome<GameError>)
      requires Valid()
      modifies this
      ensures Valid()
      ensures JoinResult(old(state), p).Err? ==> r == Fail(JoinResult(old(state), p).error) && state == old(state)
      ensures JoinResult(old(state), p).Ok? ==> r == Pass && state == JoinResult(old(state), p).value
      ensures board == old(board) && pieces == old(pieces)
    {
      if state.white == Some(p) || state.black == Some(p) {
        return Fail(PlayerAlreadyInGame);
      }
      if state.white.None? {
        state := state.(white := Some(p));
      } else if state.black.None? {
        state := state.(black := Some(p));
      } else {
        return Fail(GameFull);
      }
      if state.white.Some? && state.black.Some? {
        state := state.(status := InProgress);
      }
      r := Pass;
      assert state == JoinResult(old(state), p).value;
      JoinKeepsConsistent(old(state), p);
      SeatsKeepInvariant(old(state), state, board, pieces);
    }

    method Leave(p: PlayerId) returns (r: Outcome<GameError>)
      requires Valid()
      modifies this
      ensures Valid()
      ensures LeaveResult(old(state), p).Err? ==> r == Fail(LeaveResult(old(state), p).error) && state == old(state)
      ensures LeaveResult(old(state), p).Ok? ==> r == Pass && state == LeaveResult(old(state), p).value
      ensures board == old(board) && pieces == old(pieces)
    {
      if state.white != Some(p) && state.black != Some(p) {
        return Fail(PlayerNotInGame);
      }
      if state.black.None? {
        state := GameState(WaitingToStart, None, None, None, [], []);
      } else if state.white == Some(p) {
        state := state.(status := Over, winner := state.black);
      } else {
        state := state.(status := Over, winner := state.white);
      }
      r := Pass;
      assert state == LeaveResult(old(state), p).value;
      LeaveKeepsConsistent(old(state), p);
      SeatsKeepInvariant(old(state), state, board, pieces);
    }

    /** _checkForGameEnding on the current board. */
    method CheckForGameEnding()
      modifies this
      ensures state == EndCheck(old(state), board)
      ensures board == old(board) && pieces == old(pieces)
    {
      var wk, bk := CountKings(board);
      if bk == 0 {
        state := state.(status := Over, winner := state.white);
      } else if wk == 0 {
        state := state.(status := Over, winner := state.black);
      }
    }

    /** _applyMove: update the piece list, move the piece on the board, record the move,
        then look for a missing king. */
    method ApplyValidatedMove(m: Move)
      requires Valid() && state.status == InProgress
      requires At(board, m.origin).Some? && m.origin != m.dest
      modifies this
      ensures Valid()
      ensures pieces == PieceListAfter(old(pieces), old(board), m)
      ensures board == Step(old(board), m)
      ensures state == Advance(old(state), m, pieces)
    {
      ghost var s0, b0, ps0 := state, board, pieces;
      EditPieces(m);
      MovePiece(m);
      ghost var s1 := s0.(moves := s0.moves + [m], pieces := pieces);
      state := state.(pieces := pieces, moves := state.moves + [m]);
      CheckForGameEnding();
      assert state == EndCheck(s1, board);
      assert state == Advance(s0, m, pieces) by {
        ReplayAppend(s0.moves, m);
      }
      assert Valid() by {
        ApplyKeepsInvariant(s0, b0, ps0, m);
      }
    }

    /** _applyMove's edit of the piece list: the captured entry goes, the mover's entry is
        rewritten. */
    method EditPieces(m: Move)
      modifies this
      ensures pieces == PieceListAfter(old(pieces), board, m)
      ensures state == old(state) && board == old(board)
    {
      RemoveCaptured(m);
      RewriteMover(m);
    }

    /** The capture half of _applyMove's list edit: the entry of the piece on the destination
        is spliced out, if the list has one. */
    method RemoveCaptured(m: Move)
      modifies this
      ensures pieces == AfterCapture(old(pieces), board, m)
      ensures state == old(state) && board == old(board)
    {
      var captured := board[m.dest.row][m.dest.col];
      if captured.Some? {
        var index := FindIndex(pieces, PiecePosition(captured.value, m.dest.row, m.dest.col));
        if index != -1 {
          pieces := pieces[..index] + pieces[index + 1..];
        }
      }
    }

    /** The mover half: the moving piece's entry is rewritten with the destination's
        coordinates, if the list has one. */
    method RewriteMover(m: Move)
      modifies this
      ensures At(board, m.origin).Some? ==>
        var p := At(board, m.origin).value;
        pieces == Replace(old(pieces), PiecePosition(p, m.origin.row, m.origin.col), PiecePosition(p, m.dest.row, m.dest.col))
      ensures At(board, m.origin).None? ==> pieces == old(pieces)
      ensures state == old(state) && board == old(board)
    {
      var mover := board[m.origin.row][m.origin.col];
      if mover.Some? {
        var index := FindIndex(pieces, PiecePosition(mover.value, m.origin.row, m.origin.col));
        if index != -1 {
          pieces := pieces[index := PiecePosition(mover.value, m.dest.row, m.dest.col)];
        }
      }
    }

    /** The piece on the origin is lifted and put down on the destination, as the `_board`
        getter replays a move. */
    method MovePiece(m: Move)
      modifies this
      ensures board == Step(old(board), m)
      ensures state == old(state) && pieces == old(pieces)
    {
      var mover := board[m.origin.row][m.origin.col];
      if mover.Some? {
        board := SetCell(board, m.origin, None);
        board := SetCell(board, m.dest, mover);
      }
    }

    /** applyMove: refuse a move whose origin is empty, run the generic checks and the rule of
        the piece on the origin, then apply the move. A refused move changes nothing. */
    method ApplyMove(player: PlayerId, m: Move) returns (r: Outcome<GameError>)
      requires Valid()
      modifies this
      ensures Valid()
      ensures r == Validate(old(state), player, m, rules)
      ensures r.Fail? ==> state == old(state) && board == old(board) && pieces == old(pieces)
      ensures r == Pass ==>
        && pieces == PieceListAfter(old(pieces), old(board), m)
        && board == Step(old(board), m)
        && state == Advance(old(state), m, pieces)
    {
      ValidateOnBoard(state, board, player, m, rules);
      var movePiece := board[m.origin.row][m.origin.col];
      if movePiece.None? {
        return Fail(NoPieceAtOrigin);
      }
      r := GenericValidateMove(player, m, movePiece.value.color);
      if r.Fail? {
        return;
      }
      var ok := CheckPieceRule(movePiece.value, m.origin, m.dest, board, state.moves, rules);
      if !ok {
        return Fail(InvalidMove);
      }
      ApplyValidatedMove(m);
    }

    /** _genericValidateMove on the current state and board. */
    method GenericValidateMove(player: PlayerId, m: Move, mover: Color) returns (r: Outcome<GameError>)
      ensures r == GenericValidate(state, board, player, m, mover)
    {
      var toMove := if |state.moves| % 2 == 0 then White else Black;
      var seat := if toMove == White then state.white else state.black;
      if seat != Some(player) || mover != toMove {
        return Fail(MoveNotYourTurn);
      }
      if state.status != InProgress {
        return Fail(GameNotInProgress);
      }
      var destination := board[m.dest.row][m.dest.col];
      if destination.Some? && destination.value.color == mover {
        return Fail(CannotTakeOwnPiece);
      }
      r := Pass;
    }
  }
}
