/** Whole runs of the server: commands, the guards they are taken under, and what holds in every reachable state. */
module LobbyRuns {
  import opened Board
  import opened LoopSearch
  import GameRun
  import opened Players
  import opened Vectors
  import opened Lobby
  import opened LobbyEffects
  import opened LobbyInvariant
  import opened LobbySteps

  datatype Command =
    | Connecting(p: Address, socket: int)
    | Naming(p: Address, name: string)
    | Returning(p: Address, name: string)
    | Listing(p: Address)
    | LoggingOut(p: Address)
    | Joining(p: Address, name: string)
    | Accepting(p: Address, game: Address)
    | Declining(p: Address)
    | Playing(p: Address, card: int, i: int, j: int)
    | Dropping(socket: int)
    | Junk(socket: int)

  /** The sender of a command is still registered and connected. */
  predicate Present(s: State, p: Address) {
    p in s.players && At(s, p).socketSet
  }

  /** The board after a move. */
  function BoardAfterMove(s: State, p: Address, card: int, at: Pos): Board {
    GameAt(s, GameByName(s, At(s, p).name)).board[at := card]
  }

  /** When a command may come: what a client that keeps to the protocol, and the network, guarantee. */
  ghost predicate Guard(s: State, c: Command) {
    match c
    case Connecting(p, socket) =>
      p != NULL && p !in s.store && forall q :: q in s.players && At(s, q).socketSet ==> At(s, q).socket != socket
    case Naming(p, name) => Present(s, p) && !At(s, p).nameSet
    case Returning(p, name) =>
      Present(s, p) && !At(s, p).nameSet && (MayTakeOver(s, name) ==> Comeback(s, p, PlayerByName(s, name)))
    case Listing(p) => Present(s, p)
    case LoggingOut(p) => Present(s, p)
    case Joining(p, name) => Present(s, p) && At(s, p).availible && At(s, p).name != name
    case Accepting(p, game) => Present(s, p) && At(s, p).askedBy != NULL && game != NULL && game !in s.records
    case Declining(p) => Present(s, p) && At(s, p).askedBy != NULL
    case Playing(p, card, i, j) =>
      && Present(s, p) && At(s, p).inGame
      && !At(s, Opponent(s, GameByName(s, At(s, p).name), At(s, p).name)).lost
      && Pos(i, j) in AllCells() && 1 <= card <= 6 && Matched(BoardAfterMove(s, p, card, Pos(i, j)))
    case Dropping(socket) => PlayerBySocket(s, socket) != NULL
    case Junk(socket) => true
  }

  function Apply(s: State, c: Command): State {
    match c
    case Connecting(p, socket) => Connect(s, p, socket)
    case Naming(p, name) => NewPlayer(s, p, name)
    case Returning(p, name) => Reconnect(s, p, name)
    case Listing(p) => ListRequest(s, p)
    case LoggingOut(p) => Logout(s, p)
    case Joining(p, name) => JoinPlayer(s, p, name)
    case Accepting(p, game) => AcceptJoin(s, p, game)
    case Declining(p) => DeclineJoin(s, p)
    case Playing(p, card, i, j) => Move(s, p, card, i, j)
    case Dropping(socket) => Disconnect(s, socket)
    case Junk(socket) => Garbage(s, socket)
  }

  function Run(commands: seq<Command>): State {
    if commands == [] then EMPTY else Apply(Run(commands[..|commands| - 1]), commands[|commands| - 1])
  }

  ghost predicate Guarded(commands: seq<Command>) {
    commands == []
    || (Guarded(commands[..|commands| - 1])
        && Guard(Run(commands[..|commands| - 1]), commands[|commands| - 1]))
  }

  // ---------- boards ----------

  /** A registered game is not decided yet: its board is lawful and has no closed loop of either colour. */
  ghost predicate Undecided(b: Board) {
    b.Keys == AllCells() && Matched(b) && !HasLoop(b)
  }

  ghost predicate BoardsOk(s: State) {
    forall g {:trigger GameAt(s, g)} :: g in s.games ==> Undecided(GameAt(s, g).board)
  }

  /** No game is new and no board has changed. */
  ghost predicate SameBoards(s: State, s': State) {
    forall g {:trigger GameAt(s', g)} :: g in s'.games ==> g in s.games && GameAt(s', g).board == GameAt(s, g).board
  }

  lemma ErasedIsSubset<T>(s: seq<T>, k: nat)
    requires k < |s|
    ensures forall x :: x in EraseAt(s, k) ==> x in s
  {
  }

  lemma DeleteGameSameBoards(s: State, g: Address)
    ensures var s' := DeleteGame(s, g);
            s' == s.(games := s'.games) && forall h :: h in s'.games ==> h in s.games
  {
    if s.games != [] {
      ErasedIsSubset(s.games, StopIndex(Ids(s), GameAt(s, g).id));
    }
  }

  /** The registers of games as before, or with games erased. */
  ghost predicate GamesOnlyErased(s: State, s': State) {
    s'.records == s.records && forall g :: g in s'.games ==> g in s.games
  }

  lemma LosePlayerOnlyErases(s: State, p: Address)
    ensures GamesOnlyErased(s, LosePlayer(s, p))
  {
    DeleteGameSameBoards(SetLost(s, p), GameByName(s, At(s, p).name));
  }

  lemma DisconnectOnlyErases(s: State, socket: int)
    ensures GamesOnlyErased(s, Disconnect(s, socket))
  {
    LosePlayerOnlyErases(RemoveConnection(s, socket), PlayerBySocket(s, socket));
  }

  lemma EndGameOnlyErases(s: State, p: Address)
    ensures GamesOnlyErased(s, EndGame(s, p))
  {
    var g := GameByName(s, At(s, p).name);
    var o := Opponent(s, g, At(s, p).name);
    DeleteGameSameBoards(LeaveLost(s, p, o), g);
    DeleteGameSameBoards(LeaveBoth(s, p, o), g);
  }

  lemma SeatTakenSameBoards(s: State, p: Address, l: Address, g: Address, s': State)
    requires SeatTaken(s, p, l, g, s')
    ensures SameBoards(s, s')
  {
  }

  lemma ReconnectSameBoards(s: State, p: Address, name: string)
    requires Inv(s) && Guard(s, Returning(p, name))
    ensures SameBoards(s, Reconnect(s, p, name))
  {
    if MayTakeOver(s, name) {
      var l := PlayerByName(s, name);
      PlayerByNameIsRegistered(s, name);
      var g, o := ReconnectTakesSeat(s, p, l);
      SeatTakenSameBoards(s, p, l, g, Reconnect(s, p, name));
    } else {
      NackSameBoards(s, p, name);
    }
  }

  lemma NackSameBoards(s: State, p: Address, name: string)
    requires !MayTakeOver(s, name)
    ensures SameBoards(s, Reconnect(s, p, name))
  {
  }

  /** What a move does to the register of games, won or not: the turn passes to `o`, or the game goes. */
  ghost predicate Moved(s: State, g: Address, o: Address, board: Board, won: bool, s': State) {
    && (g !in s'.games <==> won)
    && (forall h :: h in s.games && h != g ==> h in s'.games && GameAt(s', h) == GameAt(s, h))
    && (forall h :: h in s'.games ==> h in s.games)
    && GameAt(s', g) == GameAt(s, g).(board := board, onTurn := if won then GameAt(s, g).onTurn else o)
  }

  /** Who is told what about a move, and which players it releases. */
  ghost predicate Answered(s: State, p: Address, o: Address, card: int, i: int, j: int, won: bool, s': State) {
    && s'.players == s.players
    && if won then
         var reply := GameWon(At(s, p).name, card, i, j);
         && s'.sent == s.sent + [Sent(At(s, p).socket, reply), Sent(At(s, o).socket, reply)]
         && Rewrites(s, s', p, Released(At(s, p)), o, Released(At(s, o)))
       else
         s'.sent == s.sent + [Sent(At(s, o).socket, GameMove(card, i, j))] && s'.store == s.store
  }

  lemma MoveMoves(s: State, p: Address, card: int, i: int, j: int, g: Address, o: Address)
    requires g == GameByName(s, At(s, p).name) && o == Opponent(s, g, At(s, p).name) && o != p
    requires NoRepeats(s.games) && g in s.games
    requires forall h :: h in s.games && GameAt(s, h).id == GameAt(s, g).id ==> h == g
    ensures
      var board := GameAt(s, g).board[Pos(i, j) := card];
      var s' := Move(s, p, card, i, j);
      && Moved(s, g, o, board, MoveWins(board, Pos(i, j)), s')
      && Answered(s, p, o, card, i, j, MoveWins(board, Pos(i, j)), s')
  {
    hide MoveWins, Win, SetTurn, DeleteGame, GameByName, Opponent;
    var s1 := SetField(s, g, Pos(i, j), card);
    if MoveWins(GameAt(s1, g).board, Pos(i, j)) {
      WinEffect(s1, g, p, o, GameWon(At(s, p).name, card, i, j));
      DeletesThatGame(s1, g);
    } else {
      TurnEffect(s, g, o, Pos(i, j), card);
    }
  }

  /** The move wins, and the game goes, exactly when its new board has a closed loop of either colour anywhere;
      then both players are told and released, otherwise the opponent is told and on turn. */
  lemma MoveErasesGameOnLoop(s: State, p: Address, card: int, i: int, j: int)
    requires Inv(s) && BoardsOk(s) && Guard(s, Playing(p, card, i, j))
    ensures
      var g := GameByName(s, At(s, p).name);
      var board := BoardAfterMove(s, p, card, Pos(i, j));
      var o := Opponent(s, g, At(s, p).name);
      var s' := Move(s, p, card, i, j);
      && g in s.games
      && Moved(s, g, o, board, HasLoop(board), s')
      && Answered(s, p, o, card, i, j, HasLoop(board), s')
  {
    var g, o := InGameFinds(s, p);
    var board := GameAt(s, g).board;
    assert Undecided(board);
    LastCellTestIsEnough(board, Pos(i, j), card);
    MoveMoves(s, p, card, i, j, g, o);
  }

  lemma MovedKeepsBoards(s: State, g: Address, o: Address, board: Board, won: bool, s': State)
    requires BoardsOk(s) && Moved(s, g, o, board, won, s') && (!won ==> Undecided(board))
    ensures BoardsOk(s')
  {
    hide Undecided;
    forall h | h in s'.games ensures Undecided(GameAt(s', h).board) {
      assert h in s.games && Undecided(GameAt(s, h).board);
    }
  }

  lemma MoveKeepsBoards(s: State, p: Address, card: int, i: int, j: int)
    requires Inv(s) && BoardsOk(s) && Guard(s, Playing(p, card, i, j))
    ensures BoardsOk(Move(s, p, card, i, j))
  {
    MoveErasesGameOnLoop(s, p, card, i, j);
    var g := GameByName(s, At(s, p).name);
    var board := BoardAfterMove(s, p, card, Pos(i, j));
    assert Undecided(GameAt(s, g).board);
    assert board.Keys == AllCells();
    MovedKeepsBoards(s, g, Opponent(s, g, At(s, p).name), board, HasLoop(board), Move(s, p, card, i, j));
  }

  lemma AcceptOnlyAdds(s: State, p: Address, game: Address)
    ensures
      var s' := AcceptJoin(s, p, game);
      || (s'.games == s.games && s'.records == s.records)
      || (s'.games == s.games + [game] && (forall g :: g != game ==> GameAt(s', g) == GameAt(s, g))
          && GameAt(s', game).board == EmptyBoard())
  {
    hide EmptyBoard;
  }

  lemma AcceptKeepsBoards(s: State, p: Address, game: Address)
    requires BoardsOk(s)
    ensures BoardsOk(AcceptJoin(s, p, game))
  {
    hide Undecided, AcceptJoin, EmptyBoard;
    var s' := AcceptJoin(s, p, game);
    EmptyBoardIsUndecided();
    AcceptOnlyAdds(s, p, game);
    forall g | g in s'.games ensures Undecided(GameAt(s', g).board) {
      assert g in s.games ==> Undecided(GameAt(s, g).board);
    }
  }

  lemma EmptyBoardIsUndecided()
    ensures Undecided(EmptyBoard())
  {
    GameRun.EmptyBoardHasNoLoop();
  }

  lemma SameBoardsKeep(s: State, s': State)
    requires BoardsOk(s) && SameBoards(s, s')
    ensures BoardsOk(s')
  {
    forall g | g in s'.games ensures Undecided(GameAt(s', g).board) {
      assert GameAt(s', g).board == GameAt(s, g).board;
    }
  }

  // ---------- every reachable state ----------

  lemma StepKeeps(s: State, c: Command)
    requires Inv(s) && Guard(s, c)
    ensures Inv(Apply(s, c))
  {
    match c
    case Connecting(p, socket) => ConnectKeeps(s, p, socket);
    case Naming(p, name) => NewPlayerKeeps(s, p, name);
    case Returning(p, name) => ReconnectKeeps(s, p, name);
    case Listing(p) => ReplyKeeps(s, ListRequest(s, p));
    case LoggingOut(p) => LogoutKeeps(s, p);
    case Joining(p, name) => JoinPlayerKeeps(s, p, name);
    case Accepting(p, game) => AcceptJoinKeeps(s, p, game);
    case Declining(p) => DeclineJoinKeeps(s, p);
    case Playing(p, card, i, j) => SenderIsNotLost(s, p); MoveKeeps(s, p, card, i, j);
    case Dropping(socket) => SocketIsRegistered(s, socket); DisconnectKeeps(s, PlayerBySocket(s, socket));
    case Junk(socket) => GarbageKeeps(s, socket);
  }

  lemma SenderIsNotLost(s: State, p: Address)
    requires PlayersOk(s) && Present(s, p)
    ensures !At(s, p).lost
  {
  }

  /** Commands that neither start a game nor touch a board or seat. */
  lemma OthersOnlyErase(s: State, c: Command)
    requires !c.Returning? && !c.Accepting? && !c.Playing?
    ensures GamesOnlyErased(s, Apply(s, c))
  {
    match c
    case LoggingOut(p) => LogoutOnlyErases(s, p);
    case Dropping(socket) => DisconnectOnlyErases(s, socket);
    case Junk(socket) => GarbageOnlyErases(s, socket);
    case Joining(p, name) => JoinOnlyErases(s, p, name);
    case Declining(p) => DeclineOnlyErases(s, p);
    case _ =>
  }

  lemma LogoutOnlyErases(s: State, p: Address)
    ensures GamesOnlyErased(s, Logout(s, p))
  {
    hide EndGame, Disconnect;
    EndGameOnlyErases(s, p);
    DisconnectOnlyErases(s, At(s, p).socket);
  }

  lemma GarbageOnlyErases(s: State, socket: int)
    ensures GamesOnlyErased(s, Garbage(s, socket))
  {
    hide Disconnect, PlayerBySocket;
    DisconnectOnlyErases(CountGarbage(s, PlayerBySocket(s, socket)), socket);
  }

  lemma JoinOnlyErases(s: State, p: Address, name: string)
    ensures GamesOnlyErased(s, JoinPlayer(s, p, name))
  {
  }

  lemma DeclineOnlyErases(s: State, p: Address)
    ensures GamesOnlyErased(s, DeclineJoin(s, p))
  {
  }

  lemma StepKeepsBoards(s: State, c: Command)
    requires Inv(s) && BoardsOk(s) && Guard(s, c)
    ensures BoardsOk(Apply(s, c))
  {
    match c
    case Returning(p, name) => ReconnectSameBoards(s, p, name); SameBoardsKeep(s, Reconnect(s, p, name));
    case Accepting(p, game) => AcceptKeepsBoards(s, p, game);
    case Playing(p, card, i, j) => MoveKeepsBoards(s, p, card, i, j);
    case _ => OthersOnlyErase(s, c); ErasingKeepsBoards(s, Apply(s, c));
  }

  lemma ErasingKeepsBoards(s: State, s': State)
    requires BoardsOk(s) && GamesOnlyErased(s, s')
    ensures BoardsOk(s')
  {
    SameBoardsKeep(s, s');
  }

  /** What holds of every state the server can get into. */
  ghost predicate Reachable(s: State) {
    exists commands :: Guarded(commands) && Run(commands) == s
  }

  /** Over every run: the lobby is consistent, and no registered game has a closed loop on its board. */
  lemma {:induction false} RunKeeps(commands: seq<Command>)
    requires Guarded(commands)
    ensures Inv(Run(commands)) && BoardsOk(Run(commands))
  {
    if commands != [] {
      var before := commands[..|commands| - 1];
      RunKeeps(before);
      StepKeeps(Run(before), commands[|commands| - 1]);
      StepKeepsBoards(Run(before), commands[|commands| - 1]);
    }
  }

  lemma ReachableIsSound(s: State)
    requires Reachable(s)
    ensures Inv(s) && BoardsOk(s)
  {
    var commands :| Guarded(commands) && Run(commands) == s;
    RunKeeps(commands);
  }

  lemma StartIsReachable()
    ensures Reachable(EMPTY)
  {
    assert Guarded([]) && Run([]) == EMPTY;
  }

  /** A permitted command leads from a reachable state to a reachable one. */
  lemma StepsOn(s: State, c: Command)
    requires Reachable(s) && Guard(s, c)
    ensures Reachable(Apply(s, c))
  {
    var commands :| Guarded(commands) && Run(commands) == s;
    assert (commands + [c])[..|commands|] == commands;
    assert Guarded(commands + [c]) && Run(commands + [c]) == Apply(s, c);
  }
}
