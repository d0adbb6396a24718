/** ChessAreaController.ts: what the client derives from the game area model it last received
    (the move count, the players in the two seats, whose turn it is, the colour of our player,
    the status), the precondition of makeMove, and when _updateFrom announces a change of turn.
    Players are ids; an occupant is found by comparing ids. */
module AreaController {
  import opened ChessTypes
  import opened Game

  /** The game part of the area model: its instance id, its players and its state. */
  datatype GameInstance = GameInstance(id: string, players: seq<PlayerId>, state: GameState)

  /** GameArea<ChessGameState>: the game, if there is one, and the players in the area. */
  datatype AreaModel = AreaModel(game: Option<GameInstance>, occupants: seq<PlayerId>)

  /** The errors the controller throws. */
  datatype ControllerError = PlayerNotInGameError | NoGameInProgressError

  /** moveCount: the number of recorded moves, 0 without a game. */
  function MoveCount(m: AreaModel): (n: nat)
    ensures m.game.None? ==> n == 0
    ensures m.game.Some? ==> n == |m.game.value.state.moves|
  {
    if m.game.None? then 0 else |m.game.value.state.moves|
  }

  /** The occupant with the id held in a seat. An empty id is falsy in the source and finds
      nobody, as does an id that is not among the occupants. */
  function Occupant(m: AreaModel, seat: Option<PlayerId>): (r: Option<PlayerId>)
    ensures r.Some? <==> seat.Some? && seat.value != "" && seat.value in m.occupants
    ensures r.Some? ==> r == seat
  {
    if seat.Some? && seat.value != "" && seat.value in m.occupants then seat else None
  }

  /** white: the occupant in the white seat. */
  function WhitePlayer(m: AreaModel): Option<PlayerId>
  {
    if m.game.None? then None else Occupant(m, m.game.value.state.white)
  }

  /** black: the occupant in the black seat. */
  function BlackPlayer(m: AreaModel): Option<PlayerId>
  {
    if m.game.None? then None else Occupant(m, m.game.value.state.black)
  }

  /** winner: the occupant recorded as the winner. */
  function WinnerPlayer(m: AreaModel): (r: Option<PlayerId>)
    ensures r.Some? ==> m.game.Some? && m.game.value.state.winner == r && r.value in m.occupants
    ensures (m.game.Some? && m.game.value.state.winner.Some? && m.game.value.state.winner.value != ""
             && m.game.value.state.winner.value in m.occupants) ==> r == m.game.value.state.winner
  {
    if m.game.None? then None else Occupant(m, m.game.value.state.winner)
  }

  /** whoseTurn: nobody unless both seats have an occupant and the game is in progress; then
      White on an even move count and Black on an odd one. */
  function WhoseTurn(m: AreaModel): (r: Option<PlayerId>)
    ensures r.Some? ==>
      && m.game.Some? && m.game.value.state.status == InProgress
      && WhitePlayer(m).Some? && BlackPlayer(m).Some?
    ensures WhitePlayer(m).Some? && BlackPlayer(m).Some? && m.game.Some? && m.game.value.state.status == InProgress ==>
      r == (if MoveCount(m) % 2 == 0 then WhitePlayer(m) else BlackPlayer(m))
  {
    var w := WhitePlayer(m);
    var b := BlackPlayer(m);
    if w.None? || b.None? || m.game.None? || m.game.value.state.status != InProgress then None
    else if MoveCount(m) % 2 == 0 then w
    else b
  }

  /** isOurTurn. */
  predicate IsOurTurn(m: AreaModel, me: PlayerId)
  {
    WhoseTurn(m) == Some(me)
  }

  /** It is our turn exactly when the game is in progress with both seats occupied and we hold
      the seat of the colour to move. */
  lemma OurTurnIsSeatToMove(m: AreaModel, me: PlayerId)
    ensures IsOurTurn(m, me) <==>
      && m.game.Some? && m.game.value.state.status == InProgress
      && WhitePlayer(m).Some? && BlackPlayer(m).Some?
      && (if MoveCount(m) % 2 == 0 then WhitePlayer(m) else BlackPlayer(m)) == Some(me)
  {
  }

  /** gameColor: White if we are the white occupant, else Black if we are the black one, else
      the PLAYER_NOT_IN_GAME_ERROR. */
  function GameColor(m: AreaModel, me: PlayerId): (r: Result<Color, ControllerError>)
    ensures r.Ok? <==> WhitePlayer(m) == Some(me) || BlackPlayer(m) == Some(me)
    ensures r.Err? ==> r.error == PlayerNotInGameError
    ensures r == Ok(White) <==> WhitePlayer(m) == Some(me)
    ensures r == Ok(Black) ==> BlackPlayer(m) == Some(me)
  {
    if WhitePlayer(m) == Some(me) then Ok(White)
    else if BlackPlayer(m) == Some(me) then Ok(Black)
    else Err(PlayerNotInGameError)
  }

  /** status: the game's status, WaitingToStart without a game. */
  function CurrentStatus(m: AreaModel): (r: Status)
    ensures m.game.None? ==> r == WaitingToStart
    ensures m.game.Some? ==> r == m.game.value.state.status
  {
    if m.game.None? then WaitingToStart else m.game.value.state.status
  }

  /** isActive: the game is in progress. */
  predicate IsActive(m: AreaModel)
  {
    m.game.Some? && m.game.value.state.status == InProgress
  }

  /** makeMove's check before it sends the move: an instance id (a missing or empty one is
      falsy) and a game in progress. */
  function MakeMove(m: AreaModel, instanceId: Option<string>, move: Move): (r: Outcome<ControllerError>)
    ensures r == Pass <==> instanceId.Some? && instanceId.value != "" && IsActive(m)
    ensures r.Fail? ==> r.error == NoGameInProgressError
  {
    if instanceId.None? || instanceId.value == "" || !IsActive(m) then Fail(NoGameInProgressError)
    else Pass
  }

  // ---------------------------------------------------------------------------
  // How the getters relate to the server's game

  /** Both seats of the game are held by occupants with non-empty ids. */
  predicate SeatsPresent(m: AreaModel)
  {
    && m.game.Some?
    && var s := m.game.value.state;
    && (s.white.Some? ==> s.white.value != "" && s.white.value in m.occupants)
    && (s.black.Some? ==> s.black.value != "" && s.black.value in m.occupants)
  }

  /** The client names as the player to move exactly the player the server lets move. */
  lemma WhoseTurnMatchesServer(m: AreaModel, p: PlayerId)
    requires SeatsPresent(m) && Consistent(m.game.value.state)
    ensures WhoseTurn(m) == Some(p) <==>
      m.game.value.state.status == InProgress && IsTurnOf(m.game.value.state, p)
  {
    var s := m.game.value.state;
    assert WhitePlayer(m) == s.white && BlackPlayer(m) == s.black;
  }

  /** An isActive game is the one whose status reads IN_PROGRESS, and only then can a move be
      sent. */
  lemma ActiveMeansInProgress(m: AreaModel, instanceId: Option<string>, move: Move)
    ensures IsActive(m) <==> CurrentStatus(m) == InProgress
    ensures MakeMove(m, instanceId, move) == Pass ==> CurrentStatus(m) == InProgress
  {
  }

  /** When it is our turn, our colour is the colour to move. */
  lemma OurTurnOurColor(m: AreaModel, me: PlayerId)
    requires m.game.Some? && Consistent(m.game.value.state)
    requires IsOurTurn(m, me)
    ensures GameColor(m, me) == Ok(ColorToMove(m.game.value.state))
  {
    var s := m.game.value.state;
    assert s.white != s.black;
  }

  /** The model the server publishes after accepting a move. */
  function AfterMove(m: AreaModel, move: Move, ps: seq<PiecePosition>): AreaModel
    requires m.game.Some?
  {
    m.(game := Some(m.game.value.(state := Advance(m.game.value.state, move, ps))))
  }

  /** An accepted move adds one to moveCount. */
  lemma AcceptedMoveCounts(m: AreaModel, move: Move, ps: seq<PiecePosition>)
    requires m.game.Some?
    ensures MoveCount(AfterMove(m, move, ps)) == MoveCount(m) + 1
  {
  }

  /** When the server has recorded one more move with the same seats and the game goes on,
      the turn passes from one seat to the other. */
  lemma TurnAlternates(m: AreaModel, m': AreaModel, p: PlayerId)
    requires SeatsPresent(m) && Consistent(m.game.value.state)
    requires m'.game.Some? && m'.occupants == m.occupants
    requires var s, s' := m.game.value.state, m'.game.value.state;
      s'.white == s.white && s'.black == s.black && |s'.moves| == |s.moves| + 1 && s'.status == InProgress
    requires WhoseTurn(m) == Some(p)
    ensures var s := m.game.value.state;
      WhoseTurn(m') == (if s.white == Some(p) then s.black else s.white)
  {
    var s := m.game.value.state;
    assert WhitePlayer(m) == s.white && BlackPlayer(m) == s.black;
    assert WhitePlayer(m') == s.white && BlackPlayer(m') == s.black;
    assert s.white != s.black;
  }

  // ---------------------------------------------------------------------------
  // The controller object

  /** turnChanged is announced, carrying the new isOurTurn, exactly when isOurTurn differs
      between two models. */
  function TurnEvent(before: AreaModel, after: AreaModel, me: PlayerId): (e: Option<bool>)
    ensures e.Some? <==> IsOurTurn(before, me) != IsOurTurn(after, me)
    ensures e.Some? ==> e.value == IsOurTurn(after, me)
  {
    if IsOurTurn(before, me) != IsOurTurn(after, me) then Some(IsOurTurn(after, me)) else None
  }

  class ChessAreaController {
    /** The area model last received from the server. */
    var model: AreaModel
    /** The id of the town's own player. */
    const ourPlayer: PlayerId

    constructor(initial: AreaModel, ourPlayer: PlayerId)
      ensures model == initial && this.ourPlayer == ourPlayer
    {
      model := initial;
      this.ourPlayer := ourPlayer;
    }

    /** _updateFrom: record whether it was our turn, take the new model, and announce
        turnChanged if that has changed; `turnChanged` is the event emitted, if any. */
    method UpdateFrom(newModel: AreaModel) returns (turnChanged: Option<bool>)
      modifies this
      ensures model == newModel
      ensures turnChanged == TurnEvent(old(model), newModel, ourPlayer)
    {
      var wasOurTurn := WhoseTurn(model) == Some(ourPlayer);
      model := newModel;
      var isOurTurn := WhoseTurn(model) == Some(ourPlayer);
      if wasOurTurn != isOurTurn {
        turnChanged := Some(isOurTurn);
      } else {
        turnChanged := None;
      }
    }
  }

  /** Passing the turn to the opponent is announced to both players: the mover learns it is no
      longer their turn, the opponent that it now is. */
  lemma TurnChangeAnnounced(m: AreaModel, move: Move, ps: seq<PiecePosition>, p: PlayerId)
    requires SeatsPresent(m) && Consistent(m.game.value.state)
    requires WhoseTurn(m) == Some(p)
    requires Advance(m.game.value.state, move, ps).status == InProgress
    ensures TurnEvent(m, AfterMove(m, move, ps), p) == Some(false)
    ensures var s := m.game.value.state;
      var q := if s.white == Some(p) then s.black.value else s.white.value;
      TurnEvent(m, AfterMove(m, move, ps), q) == Some(true)
  {
    var s := m.game.value.state;
    var m' := AfterMove(m, move, ps);
    assert m'.game.value.state == Advance(s, move, ps);
    TurnAlternates(m, m', p);
    assert s.white != s.black;
  }
}
