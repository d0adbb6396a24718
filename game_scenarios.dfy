/** The opening of the game in ChessGame.test.ts:402-463, played on the model's board: White
    opens a diagonal with a pawn, Black answers, the white bishop goes out to (4, 6), Black
    answers again, and the bishop comes back across the board to (7, 3). */
module GameScenarios {
  import opened ChessTypes
  import opened ChessBoard
  import opened ChessPieces
  import opened Game

  const WhitePawnD: Move := Move(Piece(Pawn, White), Square(1, 3), Square(2, 3))
  const BlackPawnE: Move := Move(Piece(Pawn, Black), Square(6, 4), Square(5, 4))
  const BishopOut: Move := Move(Piece(Bishop, White), Square(0, 2), Square(4, 6))
  const BlackPawnH: Move := Move(Piece(Pawn, Black), Square(6, 7), Square(5, 7))
  const BishopBack: Move := Move(Piece(Bishop, White), Square(4, 6), Square(7, 3))

  /** Both kings are still on their home squares. */
  predicate KingsHome(b: Board)
  {
    At(b, Square(0, 4)) == Some(Piece(King, White)) && At(b, Square(7, 4)) == Some(Piece(King, Black))
  }

  /** With both kings on the board a move only appends itself: the game goes on. */
  lemma KingsHomeKeepGoing(s: GameState, m: Move, ps: seq<PiecePosition>)
    requires KingsHome(Replay(s.moves + [m]))
    ensures Advance(s, m, ps) == s.(moves := s.moves + [m], pieces := ps)
  {
    var b := Replay(s.moves + [m]);
    assert HasKing(b, White) by {
      assert At(b, Square(0, 4)) == Some(Piece(King, White));
    }
    assert HasKing(b, Black) by {
      assert At(b, Square(7, 4)) == Some(Piece(King, Black));
    }
  }

  /** The squares of a diagonal of three steps between its ends are the three in between. */
  lemma ThreeBetween(b: Board, from: Square, to: Square)
    requires Diagonal(from, to) && Distance(from, to) == 4
    requires At(b, Intermediate(from, to, 1)) == None
    requires At(b, Intermediate(from, to, 2)) == None
    requires At(b, Intermediate(from, to, 3)) == None
    ensures PathClear(b, from, to)
  {
  }

  /** The same for a diagonal with two squares in between. */
  lemma TwoBetween(b: Board, from: Square, to: Square)
    requires Diagonal(from, to) && Distance(from, to) == 3
    requires At(b, Intermediate(from, to, 1)) == None
    requires At(b, Intermediate(from, to, 2)) == None
    ensures PathClear(b, from, to)
  {
  }

  /** After White's pawn step: the cells the rest of the scenario looks at. */
  lemma Board1()
    ensures var b := Replay([WhitePawnD]);
      && KingsHome(b)
      && At(b, Square(6, 4)) == Some(Piece(Pawn, Black)) && At(b, Square(5, 4)) == None
      && At(b, Square(0, 2)) == Some(Piece(Bishop, White)) && At(b, Square(0, 0)) == Some(Piece(Rook, White))
      && At(b, Square(1, 3)) == None && At(b, Square(2, 4)) == None
      && At(b, Square(3, 5)) == None && At(b, Square(4, 6)) == None
      && At(b, Square(6, 7)) == Some(Piece(Pawn, Black)) && At(b, Square(5, 7)) == None
      && At(b, Square(5, 5)) == None && At(b, Square(7, 3)) == Some(Piece(Queen, Black))
  {
    ReplayAppend([], WhitePawnD);
    assert [] + [WhitePawnD] == [WhitePawnD];
  }

  /** After Black's first pawn step: the white bishop's first diagonal is open. */
  lemma Board2()
    ensures var b := Replay([WhitePawnD, BlackPawnE]);
      && KingsHome(b)
      && At(b, Square(0, 2)) == Some(Piece(Bishop, White)) && At(b, Square(0, 0)) == Some(Piece(Rook, White))
      && At(b, Square(1, 3)) == None && At(b, Square(2, 4)) == None
      && At(b, Square(3, 5)) == None && At(b, Square(4, 6)) == None
      && At(b, Square(6, 7)) == Some(Piece(Pawn, Black)) && At(b, Square(5, 7)) == None
      && At(b, Square(5, 5)) == None && At(b, Square(6, 4)) == None
      && At(b, Square(7, 3)) == Some(Piece(Queen, Black))
  {
    Board1();
    ReplayAppend([WhitePawnD], BlackPawnE);
    assert [WhitePawnD] + [BlackPawnE] == [WhitePawnD, BlackPawnE];
  }

  /** After the bishop's first move. */
  lemma Board3()
    ensures var b := Replay([WhitePawnD, BlackPawnE, BishopOut]);
      && KingsHome(b)
      && At(b, Square(6, 7)) == Some(Piece(Pawn, Black)) && At(b, Square(5, 7)) == None
      && At(b, Square(4, 6)) == Some(Piece(Bishop, White))
      && At(b, Square(5, 5)) == None && At(b, Square(6, 4)) == None
      && At(b, Square(7, 3)) == Some(Piece(Queen, Black))
  {
    Board2();
    ReplayAppend([WhitePawnD, BlackPawnE], BishopOut);
    assert [WhitePawnD, BlackPawnE] + [BishopOut] == [WhitePawnD, BlackPawnE, BishopOut];
  }

  /** After Black's second pawn step: the way back to (7, 3) is open. */
  lemma Board4()
    ensures var b := Replay([WhitePawnD, BlackPawnE, BishopOut, BlackPawnH]);
      && KingsHome(b)
      && At(b, Square(4, 6)) == Some(Piece(Bishop, White))
      && At(b, Square(5, 5)) == None && At(b, Square(6, 4)) == None
      && At(b, Square(7, 3)) == Some(Piece(Queen, Black))
  {
    Board3();
    ReplayAppend([WhitePawnD, BlackPawnE, BishopOut], BlackPawnH);
    assert [WhitePawnD, BlackPawnE, BishopOut] + [BlackPawnH] == [WhitePawnD, BlackPawnE, BishopOut, BlackPawnH];
  }

  /** After the bishop's second move, which takes Black's queen. */
  lemma Board5()
    ensures var b := Replay([WhitePawnD, BlackPawnE, BishopOut, BlackPawnH, BishopBack]);
      && KingsHome(b)
      && At(b, Square(7, 3)) == Some(Piece(Bishop, White))
  {
    Board4();
    ReplayAppend([WhitePawnD, BlackPawnE, BishopOut, BlackPawnH], BishopBack);
    assert [WhitePawnD, BlackPawnE, BishopOut, BlackPawnH] + [BishopBack]
      == [WhitePawnD, BlackPawnE, BishopOut, BlackPawnH, BishopBack];
  }

  /** The game after both players have joined and the given moves have been made. */
  function Played(w: PlayerId, bl: PlayerId, moves: seq<Move>): GameState
  {
    GameState(InProgress, Some(w), Some(bl), None, moves, [])
  }

  /** Each move below passes applyMove's checks when made by the player whose turn it is; the
      pawn steps need the pawn rule, which this model leaves open, to accept them. */
  lemma WhitePawnDAccepted(w: PlayerId, bl: PlayerId, rules: OtherRules)
    requires rules(Piece(Pawn, White), Square(1, 3), Square(2, 3), Replay([]), [])
    ensures Validate(Played(w, bl, []), w, WhitePawnD, rules) == Pass
  {
    assert Replay([]) == InitialBoard();
    assert At(Replay([]), Square(1, 3)) == Some(Piece(Pawn, White));
    assert At(Replay([]), Square(2, 3)) == None;
  }

  lemma BlackPawnEAccepted(w: PlayerId, bl: PlayerId, rules: OtherRules)
    requires rules(Piece(Pawn, Black), Square(6, 4), Square(5, 4), Replay([WhitePawnD]), [WhitePawnD])
    ensures Validate(Played(w, bl, [WhitePawnD]), bl, BlackPawnE, rules) == Pass
  {
    Board1();
  }

  /** The bishop crosses (1, 3), (2, 4) and (3, 5), all empty by now. */
  lemma BishopOutAccepted(w: PlayerId, bl: PlayerId, rules: OtherRules)
    ensures Validate(Played(w, bl, [WhitePawnD, BlackPawnE]), w, BishopOut, rules) == Pass
  {
    Board2();
    ThreeBetween(Replay([WhitePawnD, BlackPawnE]), Square(0, 2), Square(4, 6));
  }

  lemma BlackPawnHAccepted(w: PlayerId, bl: PlayerId, rules: OtherRules)
    requires rules(Piece(Pawn, Black), Square(6, 7), Square(5, 7),
      Replay([WhitePawnD, BlackPawnE, BishopOut]), [WhitePawnD, BlackPawnE, BishopOut])
    ensures Validate(Played(w, bl, [WhitePawnD, BlackPawnE, BishopOut]), bl, BlackPawnH, rules) == Pass
  {
    Board3();
  }

  /** The bishop crosses (5, 5) and (6, 4) and takes Black's queen on (7, 3). */
  lemma BishopBackAccepted(w: PlayerId, bl: PlayerId, rules: OtherRules)
    ensures Validate(Played(w, bl, [WhitePawnD, BlackPawnE, BishopOut, BlackPawnH]), w, BishopBack, rules) == Pass
  {
    Board4();
    TwoBetween(Replay([WhitePawnD, BlackPawnE, BishopOut, BlackPawnH]), Square(4, 6), Square(7, 3));
  }

  /** After White's first move it is Black's turn: Black's player cannot move White's bishop
      from (0, 2) to (1, 3), the square the pawn left, and the move is refused as out of turn
      (ChessGame.ts:174-176). */
  lemma OpponentBishopRefused(w: PlayerId, bl: PlayerId, rules: OtherRules)
    ensures Validate(Played(w, bl, [WhitePawnD]), bl, Move(Piece(Bishop, White), Square(0, 2), Square(1, 3)), rules)
      == Fail(MoveNotYourTurn)
  {
    Board1();
  }

  /** A move after which both kings are home is recorded and the game goes on. */
  lemma PlayedAdvance(w: PlayerId, bl: PlayerId, moves: seq<Move>, m: Move)
    requires KingsHome(Replay(moves + [m]))
    ensures Advance(Played(w, bl, moves), m, []) == Played(w, bl, moves + [m])
  {
    KingsHomeKeepGoing(Played(w, bl, moves), m, []);
  }

  /** The five moves in turn, each recorded with the game going on. */
  lemma Recorded1(w: PlayerId, bl: PlayerId)
    ensures Advance(Played(w, bl, []), WhitePawnD, []) == Played(w, bl, [WhitePawnD])
  {
    assert [] + [WhitePawnD] == [WhitePawnD];
    Board1();
    PlayedAdvance(w, bl, [], WhitePawnD);
  }

  lemma Recorded2(w: PlayerId, bl: PlayerId)
    ensures Advance(Played(w, bl, [WhitePawnD]), BlackPawnE, []) == Played(w, bl, [WhitePawnD, BlackPawnE])
  {
    assert [WhitePawnD] + [BlackPawnE] == [WhitePawnD, BlackPawnE];
    Board2();
    PlayedAdvance(w, bl, [WhitePawnD], BlackPawnE);
  }

  lemma Recorded3(w: PlayerId, bl: PlayerId)
    ensures Advance(Played(w, bl, [WhitePawnD, BlackPawnE]), BishopOut, [])
      == Played(w, bl, [WhitePawnD, BlackPawnE, BishopOut])
  {
    assert [WhitePawnD, BlackPawnE] + [BishopOut] == [WhitePawnD, BlackPawnE, BishopOut];
    Board3();
    PlayedAdvance(w, bl, [WhitePawnD, BlackPawnE], BishopOut);
  }

  lemma Recorded4(w: PlayerId, bl: PlayerId)
    ensures Advance(Played(w, bl, [WhitePawnD, BlackPawnE, BishopOut]), BlackPawnH, [])
      == Played(w, bl, [WhitePawnD, BlackPawnE, BishopOut, BlackPawnH])
  {
    assert [WhitePawnD, BlackPawnE, BishopOut] + [BlackPawnH] == [WhitePawnD, BlackPawnE, BishopOut, BlackPawnH];
    Board4();
    PlayedAdvance(w, bl, [WhitePawnD, BlackPawnE, BishopOut], BlackPawnH);
  }

  lemma Recorded5(w: PlayerId, bl: PlayerId)
    ensures Advance(Played(w, bl, [WhitePawnD, BlackPawnE, BishopOut, BlackPawnH]), BishopBack, [])
      == Played(w, bl, [WhitePawnD, BlackPawnE, BishopOut, BlackPawnH, BishopBack])
  {
    assert [WhitePawnD, BlackPawnE, BishopOut, BlackPawnH] + [BishopBack]
      == [WhitePawnD, BlackPawnE, BishopOut, BlackPawnH, BishopBack];
    Board5();
    PlayedAdvance(w, bl, [WhitePawnD, BlackPawnE, BishopOut, BlackPawnH], BishopBack);
  }

  /** The scenario from the two joins on: every move is accepted from the player whose turn it
      is, the game stays in progress, and the bishop ends on (7, 3). */
  lemma BishopOpening(w: PlayerId, bl: PlayerId, rules: OtherRules)
    requires w != bl
    requires rules(Piece(Pawn, White), Square(1, 3), Square(2, 3), Replay([]), [])
    requires rules(Piece(Pawn, Black), Square(6, 4), Square(5, 4), Replay([WhitePawnD]), [WhitePawnD])
    requires rules(Piece(Pawn, Black), Square(6, 7), Square(5, 7),
      Replay([WhitePawnD, BlackPawnE, BishopOut]), [WhitePawnD, BlackPawnE, BishopOut])
    ensures JoinResult(NewGameState(), w).Ok? && JoinResult(JoinResult(NewGameState(), w).value, bl).Ok?
    ensures var s0 := JoinResult(JoinResult(NewGameState(), w).value, bl).value;
      var s1 := Advance(s0, WhitePawnD, []);
      var s2 := Advance(s1, BlackPawnE, []);
      var s3 := Advance(s2, BishopOut, []);
      var s4 := Advance(s3, BlackPawnH, []);
      var s5 := Advance(s4, BishopBack, []);
      && Validate(s0, w, WhitePawnD, rules) == Pass
      && Validate(s1, bl, BlackPawnE, rules) == Pass
      && Validate(s2, w, BishopOut, rules) == Pass
      && Validate(s3, bl, BlackPawnH, rules) == Pass
      && Validate(s4, w, BishopBack, rules) == Pass
      && s5.status == InProgress
      && At(Replay(s5.moves), Square(7, 3)) == Some(Piece(Bishop, White))
  {
    TwoJoinsStartTheGame(w, bl);
    assert JoinResult(JoinResult(NewGameState(), w).value, bl).value == Played(w, bl, []);
    Recorded1(w, bl);
    Recorded2(w, bl);
    Recorded3(w, bl);
    Recorded4(w, bl);
    Recorded5(w, bl);
    Board5();
    WhitePawnDAccepted(w, bl, rules);
    BlackPawnEAccepted(w, bl, rules);
    BishopOutAccepted(w, bl, rules);
    BlackPawnHAccepted(w, bl, rules);
    BishopBackAccepted(w, bl, rules);
  }
}
