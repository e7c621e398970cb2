/** Every step of the lobby keeps the invariant. */
module LobbySteps {
  import opened Board
  import opened LoopSearch
  import opened Players
  import opened Games
  import opened Vectors
  import opened Lobby
  import opened LobbyEffects
  import opened LobbyInvariant

  /** Games do not notice a step that leaves their players in place and names unchanged. */
  lemma OneGameEachStays(s: State, s': State)
    requires OneGameEach(s)
    requires forall g :: g in s'.games ==> g in s.games
    requires forall g :: g in s'.games ==> GameAt(s', g).p1 == GameAt(s, g).p1 && GameAt(s', g).p2 == GameAt(s, g).p2
    ensures OneGameEach(s')
  {
    forall g, h, p | g in s'.games && h in s'.games && Plays(s', g, p) && Plays(s', h, p) ensures g == h {
      assert Plays(s, g, p) && Plays(s, h, p);
    }
  }

  lemma GamesUndisturbed(s: State, s': State)
    requires GamesOk(s) && s'.games == s.games && s'.records == s.records && s'.maxGameId == s.maxGameId
    requires forall p :: At(s, p).name != "" ==> At(s', p).name == At(s, p).name
    requires forall p :: p in s.players && At(s, p).inGame ==>
               p in s'.players && At(s', p).inGame && At(s', p).lost == At(s, p).lost && At(s, p).name != ""
    ensures GamesOk(s')
  {
    forall g | g in s'.games ensures GameOk(s', g) { assert GameOk(s, g); }
    OneGameEachStays(s, s');
  }

  lemma SomeGameStays(s: State, s': State, p: Address)
    requires InSomeGame(s, p) && s'.records == s.records
    requires forall g :: g in s.games && Plays(s, g, p) ==> g in s'.games
    ensures InSomeGame(s', p)
  {
    var g :| g in s.games && Plays(s, g, p);
    assert Plays(s', g, p);
  }

  /** Names, sockets and losses as before. */
  ghost predicate SameIdentity(r: PlayerRecord, t: PlayerRecord) {
    r.name == t.name && r.nameSet == t.nameSet && r.socket == t.socket && r.socketSet == t.socketSet && r.lost == t.lost
  }

  /** A step of registered players that changes neither the registers nor anybody's identity. */
  ghost predicate OnlyStandings(s: State, s': State) {
    && s'.players == s.players && s'.games == s.games && s'.records == s.records && s'.maxGameId == s.maxGameId
    && (forall p :: p in s.store ==> p in s'.store)
    && (forall p {:trigger At(s', p)} :: SameIdentity(At(s, p), At(s', p)))
    && (forall p :: p in s.players ==> StandingOk(At(s', p)) && At(s', p).inGame == At(s, p).inGame)
  }

  lemma StandingsKeep(s: State, s': State)
    requires Inv(s) && OnlyStandings(s, s') && JoinsOk(s')
    ensures Inv(s')
  {
    assert PlayersOk(s') by {
      forall p, q | p in s.players && q in s.players && At(s', p).name == At(s', q).name != "" ensures p == q {
        assert SameIdentity(At(s, p), At(s', p)) && SameIdentity(At(s, q), At(s', q));
      }
      forall p, q | p in s.players && q in s.players && SameSocket(At(s', p), At(s', q)) ensures p == q {
        assert SameIdentity(At(s, p), At(s', p)) && SameIdentity(At(s, q), At(s', q));
      }
    }
    GamesUndisturbed(s, s');
    forall q | q in s'.players && At(s', q).inGame ensures InSomeGame(s', q) { SomeGameStays(s, s', q); }
  }

  ghost predicate JustConnected(s: State, p: Address, socket: int, s': State) {
    && p !in s.store && p != NULL
    && (forall q :: q in s.players && At(s, q).socketSet ==> At(s, q).socket != socket)
    && (forall q {:trigger At(s', q)} :: At(s', q) == if q == p then FreshRecord(socket) else At(s, q))
    && s' == s.(store := s.store[p := FreshRecord(socket)], players := s.players + [p])
  }

  lemma ConnectedKeepsPlayers(s: State, p: Address, socket: int, s': State)
    requires PlayersOk(s) && JustConnected(s, p, socket, s')
    ensures PlayersOk(s')
  {
  }

  lemma ConnectKeeps(s: State, p: Address, socket: int)
    requires Inv(s) && p !in s.store && p != NULL
    requires forall q :: q in s.players && At(s, q).socketSet ==> At(s, q).socket != socket
    ensures Inv(Connect(s, p, socket))
  {
    var s' := Connect(s, p, socket);
    assert JustConnected(s, p, socket, s');
    hide Connect, GamesOk;
    ConnectedKeepsPlayers(s, p, socket, s');
    GamesUndisturbed(s, s');
    forall q | q in s'.players ensures PendingOk(s', q) { assert q != p ==> PendingOk(s, q); }
    forall q | q in s'.players && At(s', q).inGame ensures InSomeGame(s', q) { SomeGameStays(s, s', q); }
  }

  /** An unnamed player gets a free name and is available. */
  lemma NamingKeeps(s: State, p: Address, name: string, s': State)
    requires Inv(s) && p in s.players && !At(s, p).nameSet && SameRegisters(s, s')
    requires forall q :: q in s.players ==> At(s, q).name != name
    requires var r := At(s, p).(name := name, nameSet := true, availible := true); Rewrites(s, s', p, r, p, r)
    ensures Inv(s')
  {
    assert name != At(s, p).name;
    GamesUndisturbed(s, s');
    forall q | q in s'.players ensures PendingOk(s', q) { assert PendingOk(s, q); }
    forall q | q in s'.players && At(s', q).inGame ensures InSomeGame(s', q) { SomeGameStays(s, s', q); }
  }

  lemma NewPlayerKeeps(s: State, p: Address, name: string)
    requires Inv(s) && p in s.players && !At(s, p).nameSet
    ensures Inv(NewPlayer(s, p, name))
  {
    if PlayerByName(s, name) == NULL {
      NameIsFree(s, name);
      NamedEffect(s, p, name);
      NamingKeeps(s, p, name, NewPlayer(s, p, name));
    } else {
      ReplyKeeps(s, NewPlayer(s, p, name));
    }
  }

  lemma NameIsFree(s: State, name: string)
    requires PlayersOk(s)
    ensures PlayerByName(s, name) == NULL <==> forall q :: q in s.players ==> At(s, q).name != name
  {
    forall q | q in s.players ensures exists k :: 0 <= k < |s.players| && Names(s)[k] == At(s, q).name {
      var k :| 0 <= k < |s.players| && s.players[k] == q;
      assert Names(s)[k] == At(s, q).name;
    }
  }

  /** A step that only answers. */
  lemma ReplyKeeps(s: State, s': State)
    requires Inv(s) && s' == s.(sent := s'.sent)
    ensures Inv(s')
  {
    GamesUndisturbed(s, s');
    forall q | q in s'.players ensures PendingOk(s', q) { assert PendingOk(s, q); }
    forall q | q in s'.players && At(s', q).inGame ensures InSomeGame(s', q) { SomeGameStays(s, s', q); }
  }

  lemma PlayerByNameIsRegistered(s: State, name: string)
    requires PlayersOk(s)
    ensures var p := PlayerByName(s, name); p != NULL ==> p in s.players && At(s, p).name == name
  {
  }

  lemma JoinPlayerKeeps(s: State, p: Address, name: string)
    requires Inv(s) && p in s.players && At(s, p).availible && At(s, p).name != name
    ensures Inv(JoinPlayer(s, p, name))
  {
    var o := PlayerByName(s, name);
    PlayerByNameIsRegistered(s, name);
    if o != NULL && Joinable(At(s, o)) {
      AskEffect(s, p, o);
      AskedKeeps(s, p, o, Ask(s, p, o));
    } else {
      ReplyKeeps(s, JoinPlayer(s, p, name));
    }
  }

  lemma AskedKeeps(s: State, p: Address, o: Address, s': State)
    requires Inv(s) && p in s.players && At(s, p).availible && o in s.players && At(s, o).availible && o != p
    requires Rewrites(s, s', p, At(s, p).(availible := false, joining := o),
                      o, At(s, o).(askedBy := p, availible := false))
    requires SameRegisters(s, s')
    ensures Inv(s')
  {
    assert JoinsOk(s') by {
      forall q | q in s'.players ensures PendingOk(s', q) { assert PendingOk(s, q); }
      forall q, t | q in s'.players && t in s'.players && At(s', q).askedBy == At(s', t).askedBy != NULL
        ensures q == t
      {
        assert PendingOk(s, q) && PendingOk(s, t);
      }
    }
    StandingsKeep(s, s');
  }

  /** What a player's answer to being asked does to the joins: theirs is over, all others stay. */
  lemma AnswerKeepsJoins(s: State, p: Address, s': State)
    requires Inv(s) && p in s.players && s'.players == s.players
    requires At(s, p).askedBy != NULL && At(s', p).askedBy == NULL
    requires forall q :: q in s.store ==> q in s'.store
    requires forall q :: q != p && q != At(s, p).askedBy ==> At(s', q) == At(s, q)
    requires At(s', At(s, p).askedBy).askedBy == At(s, At(s, p).askedBy).askedBy
    ensures JoinsOk(s')
  {
    var asking := At(s, p).askedBy;
    assert PendingOk(s, p);
    forall q | q in s'.players ensures PendingOk(s', q) { assert PendingOk(s, q); }
    if asking in s.players { assert PendingOk(s, asking); }
  }

  lemma DeclineJoinKeeps(s: State, p: Address)
    requires Inv(s) && p in s.players && At(s, p).askedBy != NULL
    ensures Inv(DeclineJoin(s, p))
  {
    var s' := DeclineJoin(s, p);
    assert PendingOk(s, p);
    DeclineEffect(s, p, At(s, p).askedBy);
    AnswerKeepsJoins(s, p, s');
    StandingsKeep(s, s');
  }

  lemma AcceptJoinKeeps(s: State, p: Address, game: Address)
    requires Inv(s) && p in s.players && At(s, p).askedBy != NULL && game !in s.records && game != NULL
    ensures Inv(AcceptJoin(s, p, game))
  {
    var s' := AcceptJoin(s, p, game);
    var asking := At(s, p).askedBy;
    assert PendingOk(s, p);
    if asking in s.players {
      AcceptEffect(s, p, asking, game);
      AnswerKeepsJoins(s, p, s');
      GameStartKeeps(s, p, asking, game, s');
    } else {
      AcceptGoneEffect(s, p, asking, game);
      AnswerKeepsJoins(s, p, s');
      StandingsKeep(s, s');
    }
  }

  ghost predicate GameStarts(s: State, p: Address, asking: Address, game: Address, s': State) {
    && p in s.players && asking in s.players && p != asking && !At(s, p).inGame && !At(s, asking).inGame
    && At(s, asking).name != "" && At(s, p).name != "" && At(s, asking).askedBy == NULL
    && game !in s.records && game != NULL
    && Rewrites(s, s', p, At(s, p).(askedBy := NULL, joining := NULL, availible := false, inGame := true),
                asking, At(s, asking).(availible := false, inGame := true))
    && s' == s.(store := s'.store, sent := s'.sent, records := s'.records,
                games := s.games + [game], maxGameId := s.maxGameId + 1)
    && s'.records == s.records[game := GameRecord(s.maxGameId, asking, p, asking, EmptyBoard())]
  }

  lemma GameStartGameOk(s: State, p: Address, asking: Address, game: Address, s': State, g: Address)
    requires GameStarts(s, p, asking, game, s') && 0 <= s.maxGameId
    requires asking != NULL && !At(s, asking).lost
    requires g == game || GameOk(s, g)
    ensures GameOk(s', g)
  {
  }

  /** Neither player of the new game was in any game, and the new game is none of the old ones. */
  lemma GameIsNew(s: State, p: Address, asking: Address, game: Address, s': State, g: Address)
    requires GameStarts(s, p, asking, game, s') && GameOk(s, g)
    ensures g != game && GameAt(s, g).id < s.maxGameId && GameAt(s', g) == GameAt(s, g)
    ensures !Plays(s, g, p) && !Plays(s, g, asking)
  {
  }

  lemma GameStartKeepsGames(s: State, p: Address, asking: Address, game: Address, s': State)
    requires PlayersOk(s) && GamesOk(s) && GameStarts(s, p, asking, game, s')
    ensures GamesOk(s')
  {
    hide GameOk, Rewrites;
    assert asking != NULL && StandingOk(At(s, asking));
    hide PlayersOk;
    forall g | g in s'.games ensures GameOk(s', g) {
      GameStartGameOk(s, p, asking, game, s', g);
    }
    forall g | g in s.games
      ensures g != game && GameAt(s, g).id < s.maxGameId && GameAt(s', g) == GameAt(s, g)
      ensures !Plays(s, g, p) && !Plays(s, g, asking)
    {
      GameIsNew(s, p, asking, game, s', g);
    }
    assert game !in s.games;
    forall g, h, q | g in s'.games && h in s'.games && Plays(s', g, q) && Plays(s', h, q) ensures g == h {
      assert (g == game || Plays(s, g, q)) && (h == game || Plays(s, h, q));
    }
  }

  lemma GameStartKeepsPlayers(s: State, p: Address, asking: Address, game: Address, s': State)
    requires PlayersOk(s) && GameStarts(s, p, asking, game, s')
    ensures PlayersOk(s')
  {
    hide EmptyBoard;
  }

  lemma GameStartSeatsAll(s: State, p: Address, asking: Address, game: Address, s': State, q: Address)
    requires GamesOk(s) && GameStarts(s, p, asking, game, s')
    requires q == p || q == asking || InSomeGame(s, q)
    ensures InSomeGame(s', q)
  {
    if q == p || q == asking {
      assert game in s'.games && Plays(s', game, q);
    } else {
      var g :| g in s.games && Plays(s, g, q);
      assert GameOk(s, g);
      assert g in s'.games && Plays(s', g, q);
    }
  }

  lemma GameStartKeeps(s: State, p: Address, asking: Address, game: Address, s': State)
    requires Inv(s) && GameStarts(s, p, asking, game, s') && JoinsOk(s')
    ensures Inv(s')
  {
    hide PlayersOk, GamesOk, InSomeGame;
    GameStartKeepsPlayers(s, p, asking, game, s');
    GameStartKeepsGames(s, p, asking, game, s');
    forall q | q in s'.players && At(s', q).inGame ensures InSomeGame(s', q) {
      GameStartSeatsAll(s, p, asking, game, s', q);
    }
  }

  /** One game is over: its record and its players have gone or are out of any game, all others are as before. */
  ghost predicate GameIsOver(s: State, g: Address, s': State) {
    && NoRepeats(s'.games) && NoRepeats(s'.players) && s'.maxGameId == s.maxGameId
    && (forall h :: h in s'.games <==> h in s.games && h != g)
    && (forall h :: h != g ==> GameAt(s', h) == GameAt(s, h) && (h in s.records ==> h in s'.records))
    && (forall p :: p in s'.players ==> p in s.players)
    && (forall p :: p in s.players && !Plays(s, g, p) ==> p in s'.players)
    && (forall p :: p in s.store ==> p in s'.store)
    && (forall p :: !Plays(s, g, p) ==> At(s', p) == At(s, p))
    && (forall p :: Plays(s, g, p) ==> At(s', p).name == At(s, p).name)
    && (forall p :: Plays(s, g, p) && p in s'.players ==>
          SameIdentity(At(s, p), At(s', p)) && At(s', p).askedBy == At(s, p).askedBy
          && !At(s', p).inGame && !At(s', p).lost)
  }

  lemma GameOverKeepsPlayers(s: State, g: Address, s': State)
    requires PlayersOk(s) && GameOk(s, g) && GameIsOver(s, g, s')
    ensures PlayersOk(s')
  {
    forall p | p in s'.players ensures StandingOk(At(s', p)) {
      assert StandingOk(At(s, p)) && p in s.players;
    }
    hide GameOk;
  }

  lemma GameOverKeepsJoins(s: State, g: Address, s': State)
    requires JoinsOk(s) && GameOk(s, g) && GameIsOver(s, g, s')
    requires forall p :: p in s.players && At(s, p).inGame ==> At(s, p).askedBy == NULL
    ensures JoinsOk(s')
  {
    forall p | p in s'.players ensures PendingOk(s', p) { assert PendingOk(s, p); }
  }

  lemma GameOverKeepsGames(s: State, g: Address, s': State)
    requires GamesOk(s) && g in s.games && GameIsOver(s, g, s')
    ensures GamesOk(s')
  {
    assert GameOk(s, g);
    forall h | h in s'.games ensures GameOk(s', h) {
      assert GameOk(s, h);
      assert Plays(s, h, GameAt(s, h).p1) && Plays(s, h, GameAt(s, h).p2);
    }
    OneGameEachStays(s, s');
  }

  lemma GameOverKeeps(s: State, g: Address, s': State)
    requires Inv(s) && g in s.games && GameIsOver(s, g, s')
    ensures Inv(s')
  {
    assert GameOk(s, g);
    GameOverKeepsPlayers(s, g, s');
    GameOverKeepsJoins(s, g, s');
    GameOverKeepsGames(s, g, s');
    forall p | p in s'.players && At(s', p).inGame ensures InSomeGame(s', p) {
      assert InSomeGame(s, p);
      var h :| h in s.games && Plays(s, h, p);
      assert h in s'.games && Plays(s', h, p);
    }
  }

  /** The game a player is in, as the handlers find it, and the player on the other side. */
  lemma InGameFinds(s: State, p: Address) returns (g: Address, o: Address)
    requires Inv(s) && p in s.players && At(s, p).inGame
    ensures g == GameByName(s, At(s, p).name) && o == Opponent(s, g, At(s, p).name)
    ensures g in s.games && g in s.records && GameOk(s, g) && Plays(s, g, p) && Plays(s, g, o) && o != p
    ensures o in s.players && At(s, o).inGame && (At(s, p).lost ==> !At(s, o).lost)
    ensures forall q :: Plays(s, g, q) ==> q == p || q == o
  {
    assert InSomeGame(s, p);
    g :| g in s.games && Plays(s, g, p);
    assert GameOk(s, g);
    InvFindsGames(s);
    NameFindsGame(s, g, p);
    o := Opponent(s, g, At(s, p).name);
  }

  lemma TurnKeepsGames(s: State, g: Address, p: Address, board: Board, s': State)
    requires GamesOk(s) && g in s.games && Plays(s, g, p) && p != NULL
    requires s' == s.(records := s.records[g := GameAt(s, g).(board := board, onTurn := p)], sent := s'.sent)
    ensures GamesOk(s')
  {
    OneGameEachStays(s, s');
    forall h | h in s'.games ensures GameOk(s', h) { assert GameOk(s, h); }
  }

  /** A move that does not win: the board and the turn of one game change. */
  lemma TurnKeeps(s: State, g: Address, p: Address, board: Board, s': State)
    requires Inv(s) && g in s.games && Plays(s, g, p)
    requires s' == s.(records := s.records[g := GameAt(s, g).(board := board, onTurn := p)], sent := s'.sent)
    ensures Inv(s')
  {
    assert GameOk(s, g);
    TurnKeepsGames(s, g, p, board, s');
    forall q | q in s'.players ensures PendingOk(s', q) { assert PendingOk(s, q); }
    forall q | q in s'.players && At(s', q).inGame ensures InSomeGame(s', q) {
      assert InSomeGame(s, q);
      var h :| h in s.games && Plays(s, h, q);
      assert Plays(s', h, q);
    }
  }

  lemma ReleasedKeeps(s: State, g: Address, p: Address, o: Address, s': State)
    requires Inv(s) && g in s.games && Plays(s, g, p) && Plays(s, g, o) && p != o
    requires !At(s, p).lost && !At(s, o).lost
    requires Rewrites(s, s', p, Released(At(s, p)), o, Released(At(s, o)))
    requires s' == s.(store := s'.store, sent := s'.sent, games := s'.games, records := s'.records)
    requires forall h :: h != g ==> GameAt(s', h) == GameAt(s, h) && (h in s.records ==> h in s'.records)
    requires NoRepeats(s'.games) && forall h :: h in s'.games <==> h in s.games && h != g
    ensures Inv(s')
  {
    assert GameOk(s, g);
    GameOverKeeps(s, g, s');
  }

  lemma MoveKeeps(s: State, p: Address, card: int, i: int, j: int)
    requires Inv(s) && p in s.players && At(s, p).inGame && !At(s, p).lost
    requires !At(s, Opponent(s, GameByName(s, At(s, p).name), At(s, p).name)).lost
    ensures Inv(Move(s, p, card, i, j))
  {
    hide MoveWins, Inv, GameOk, Win, GameByName, Opponent, DeleteGame;
    var g, o := InGameFinds(s, p);
    var s1 := SetField(s, g, Pos(i, j), card);
    if MoveWins(GameAt(s1, g).board, Pos(i, j)) {
      IdsAreUnique(s, g);
      DeletesThatGame(s1, g);
      WinEffect(s1, g, p, o, GameWon(At(s, p).name, card, i, j));
      ReleasedKeeps(s, g, p, o, Move(s, p, card, i, j));
    } else {
      hide SetTurn;
      TurnEffect(s, g, o, Pos(i, j), card);
      TurnKeeps(s, g, o, GameAt(s1, g).board, Move(s, p, card, i, j));
    }
  }

  lemma TurnEffect(s: State, g: Address, o: Address, at: Pos, card: int)
    ensures
      var board := GameAt(s, g).board[at := card];
      SetTurn(SetField(s, g, at, card), g, o)
        == s.(records := s.records[g := GameAt(s, g).(board := board, onTurn := o)])
  {
    var r := GameAt(s, g).(board := GameAt(s, g).board[at := card]);
    assert s.records[g := r][g := r.(onTurn := o)] == s.records[g := r.(onTurn := o)];
  }

  /** Leaving a game whose other player is lost erases that player too. */
  lemma LeaveLostKeeps(s: State, g: Address, p: Address, o: Address)
    requires Inv(s) && g in s.games && Plays(s, g, p) && Plays(s, g, o) && p != o && !At(s, p).lost
    ensures Inv(DeleteGame(LeaveLost(s, p, o), g))
  {
    assert GameOk(s, g);
    LeaveLostIsOver(s, g, p, o);
    GameOverKeeps(s, g, DeleteGame(LeaveLost(s, p, o), g));
  }

  lemma LeaveLostIsOver(s: State, g: Address, p: Address, o: Address)
    requires NoRepeats(s.players) && UniqueNames(s) && o in s.players && At(s, o).name != ""
    requires GamesOk(s) && g in s.games && Plays(s, g, p) && Plays(s, g, o) && p != o && !At(s, p).lost
    ensures GameIsOver(s, g, DeleteGame(LeaveLost(s, p, o), g))
  {
    hide LeaveLost, DeletePlayer, DeleteGame, GameOk, OneGameEach, GameIsOver;
    DeletesThatPlayer(s, o);
    LeaveLostEffect(s, p, o);
    var s1 := LeaveLost(s, p, o);
    DeletesThatGame(s1, g);
    var s' := DeleteGame(s1, g);
    forall q ensures At(s', q) == At(s1, q) {}
    GoneTogether(s, g, p, o, s');
  }

  lemma GoneTogether(s: State, g: Address, p: Address, o: Address, s': State)
    requires Plays(s, g, p) && Plays(s, g, o) && p != o && !At(s, p).lost
    requires s' == s.(store := s'.store, players := s'.players, games := s'.games)
    requires Rewrites(s, s', p, Released(At(s, p)), p, Released(At(s, p)))
    requires NoRepeats(s'.players) && forall q :: q in s'.players <==> q in s.players && q != o
    requires NoRepeats(s'.games) && forall h :: h in s'.games <==> h in s.games && h != g
    ensures GameIsOver(s, g, s')
  {
  }

  lemma EndGameKeeps(s: State, p: Address)
    requires Inv(s) && p in s.players && At(s, p).inGame && !At(s, p).lost
    ensures Inv(EndGame(s, p))
  {
    hide Inv, GameOk, EndGame, LeaveLost, LeaveBoth, DeleteGame, GameByName, Opponent;
    var g, o := InGameFinds(s, p);
    EndGameUnfolds(s, p, g, o);
    if At(s, o).lost {
      LeaveLostKeeps(s, g, p, o);
    } else {
      LeaveBothEffect(s, p, o);
      IdsAreUnique(s, g);
      DeletesThatGame(LeaveBoth(s, p, o), g);
      forall q ensures At(EndGame(s, p), q) == At(LeaveBoth(s, p, o), q) {}
      ReleasedKeeps(s, g, p, o, EndGame(s, p));
    }
  }

  /** Player `p` has left game `g`: it is gone, and the opponent is free again and told, or gone too if lost. */
  ghost predicate LeftGame(s: State, p: Address, g: Address, o: Address, s': State) {
    && (forall h :: h in s'.games <==> h in s.games && h != g) && s'.records == s.records
    && At(s', p) == Released(At(s, p))
    && (forall q :: q != p && q != o ==> At(s', q) == At(s, q))
    && if At(s, o).lost then
         (forall q :: q in s'.players <==> q in s.players && q != o) && s'.sent == s.sent
       else
         && s'.players == s.players && At(s', o) == Released(At(s, o))
         && s'.sent == s.sent + [Sent(At(s, o).socket, GameEnded)]
  }

  lemma LeftLost(s: State, p: Address, g: Address, o: Address)
    requires PlayersOk(s) && GamesOk(s) && g in s.games && o in s.players && At(s, o).lost && p != o
    ensures LeftGame(s, p, g, o, DeleteGame(LeaveLost(s, p, o), g))
  {
    assert StandingOk(At(s, o));
    DeletesThatPlayer(s, o);
    LeaveLostEffect(s, p, o);
    var s1 := LeaveLost(s, p, o);
    DeletesThatGame(s1, g);
    hide LeaveLost, DeletePlayer, DeleteGame, GamesOk, PlayersOk;
    forall q ensures At(DeleteGame(s1, g), q) == At(s1, q) {}
  }

  lemma LeftBoth(s: State, p: Address, g: Address, o: Address)
    requires GamesOk(s) && g in s.games && !At(s, o).lost && p != o
    ensures LeftGame(s, p, g, o, DeleteGame(LeaveBoth(s, p, o), g))
  {
    LeaveBothEffect(s, p, o);
    var s1 := LeaveBoth(s, p, o);
    DeletesThatGame(s1, g);
    hide LeaveBoth, DeleteGame, GamesOk;
    forall q ensures At(DeleteGame(s1, g), q) == At(s1, q) {}
  }

  /** Logging out of a game ends it for both players. */
  lemma LogoutEndsGame(s: State, p: Address) returns (g: Address, o: Address)
    requires Inv(s) && p in s.players && At(s, p).inGame
    ensures g == GameByName(s, At(s, p).name) && o == Opponent(s, g, At(s, p).name)
    ensures GameOk(s, g) && Plays(s, g, p) && Plays(s, g, o) && o != p
    ensures LeftGame(s, p, g, o, Logout(s, p))
  {
    g, o := InGameFinds(s, p);
    EndGameUnfolds(s, p, g, o);
    hide LeftGame, LeaveLost, LeaveBoth, DeleteGame;
    if At(s, o).lost { LeftLost(s, p, g, o); } else { LeftBoth(s, p, g, o); }
  }

  /** A player out of any game leaves the register, forgetting whom they asked. */
  lemma LeaveKeeps(s: State, p: Address, s': State)
    requires Inv(s) && p in s.players && !At(s, p).inGame
    requires NoRepeats(s'.players) && forall q :: q in s'.players <==> q in s.players && q != p
    requires s' == s.(players := s'.players, store := s'.store)
    requires Rewrites(s, s', p, At(s', p), p, At(s', p)) && At(s', p).name == At(s, p).name
    requires At(s', p).joining == NULL && !At(s', p).socketSet
    ensures Inv(s')
  {
    GamesUndisturbed(s, s');
    forall q | q in s'.players ensures PendingOk(s', q) { assert PendingOk(s, q); }
    forall q | q in s'.players && At(s', q).inGame ensures InSomeGame(s', q) { SomeGameStays(s, s', q); }
  }

  /** A player in a game whose opponent is still there is lost. */
  ghost predicate IsLost(s: State, p: Address, g: Address, s': State) {
    && p in s.players && At(s, p).inGame && g in s.games && Plays(s, g, p)
    && (forall q :: Plays(s, g, q) && q != p ==> !At(s, q).lost)
    && SameRegisters(s, s')
    && var r := At(s, p).(socket := NO_SOCKET, socketSet := false, lost := true); Rewrites(s, s', p, r, p, r)
  }

  lemma LostKeepsGames(s: State, p: Address, g: Address, s': State)
    requires GamesOk(s) && IsLost(s, p, g, s')
    ensures GamesOk(s')
  {
    forall h | h in s'.games ensures GameOk(s', h) {
      assert GameOk(s, h);
      assert h != g ==> !Plays(s, h, p);
    }
    OneGameEachStays(s, s');
  }

  lemma LostKeeps(s: State, p: Address, g: Address, s': State)
    requires Inv(s) && IsLost(s, p, g, s')
    ensures Inv(s')
  {
    LostKeepsGames(s, p, g, s');
    forall q | q in s'.players ensures PendingOk(s', q) { assert PendingOk(s, q); }
    forall q | q in s'.players && At(s', q).inGame ensures InSomeGame(s', q) { SomeGameStays(s, s', q); }
  }

  /** What is left when the second player of a game is lost: the game and both its players are erased. */
  ghost predicate BothErased(s: State, g: Address, p: Address, o: Address, s': State) {
    && NoRepeats(s'.games) && NoRepeats(s'.players)
    && (forall h :: h in s'.games <==> h in s.games && h != g)
    && (forall q :: q in s'.players <==> q in s.players && q != p && q != o)
    && (forall q :: q in s.store ==> q in s'.store)
    && (forall q :: At(s', q).name == At(s, q).name && (q != p && q != o ==> At(s', q) == At(s, q)))
    && s' == s.(games := s'.games, players := s'.players, store := s'.store, sent := s'.sent)
  }

  lemma BothErasedKeeps(s: State, g: Address, p: Address, o: Address, s': State)
    requires Inv(s) && g in s.games && Plays(s, g, p) && Plays(s, g, o) && p != o && BothErased(s, g, p, o, s')
    ensures Inv(s')
  {
    GameOverKeeps(s, g, s');
  }

  lemma DeletesBoth(s: State, p: Address, o: Address)
    requires NoRepeats(s.players) && UniqueNames(s) && p in s.players && o in s.players && p != o
    requires At(s, p).name != "" && At(s, o).name != ""
    ensures var s' := DeletePlayer(DeletePlayer(s, o), p);
            && s' == s.(players := s'.players)
            && NoRepeats(s'.players)
            && forall q :: q in s'.players <==> q in s.players && q != p && q != o
  {
    DeletesThatPlayer(s, o);
    DeletesThatPlayer(DeletePlayer(s, o), p);
  }

  lemma ErasesBoth(s: State, g: Address, p: Address, o: Address)
    requires NoRepeats(s.players) && UniqueNames(s) && p in s.players && o in s.players && p != o
    requires At(s, p).name != "" && At(s, o).name != "" && p in s.store && o in s.store
    requires NoRepeats(s.games) && g in s.games
    requires forall h :: h in s.games && GameAt(s, h).id == GameAt(s, g).id ==> h == g
    ensures BothErased(s, g, p, o, EraseBoth(s, g, p, o))
  {
    CloseGameEffect(s, g, p, o);
    DeletesThatGame(s, g);
    var s1 := CloseGame(s, g, p, o);
    hide CloseGame, DeletePlayer, DeleteGame;
    forall q ensures At(s1, q).name == At(s, q).name {}
    DeletesBoth(s1, p, o);
    forall q ensures At(EraseBoth(s, g, p, o), q) == At(s1, q) {}
  }

  // ---------- disconnection ----------

  /** Names decide who is found in which game. */
  lemma LookupsSurvive(s: State, s': State, name: string)
    requires s'.players == s.players && s'.games == s.games && s'.records == s.records
    requires forall q {:trigger At(s', q)} :: At(s', q).name == At(s, q).name
    ensures GameByName(s', name) == GameByName(s, name)
    ensures forall g :: Opponent(s', g, name) == Opponent(s, g, name)
  {
    assert NamePairs(s') == NamePairs(s);
  }

  lemma DisconnectUnfolds(s: State, p: Address, socket: int, g: Address, o: Address)
    requires p != NULL && p == PlayerBySocket(s, socket) && At(s, p).inGame
    requires g == GameByName(s, At(s, p).name) && o == Opponent(s, g, At(s, p).name) && o != p
    ensures
      var lost := SetLost(RemoveConnection(s, socket), p);
      Disconnect(s, socket) == if At(s, o).lost then EraseBoth(lost, g, p, o) else Send(lost, o, PlayerLoss)
  {
    RemoveConnectionEffect(s, p, socket);
    LookupsSurvive(s, RemoveConnection(s, socket), At(s, p).name);
  }

  lemma LostEffect(s: State, p: Address, socket: int)
    requires p != NULL && p == PlayerBySocket(s, socket) && At(s, p).inGame
    ensures
      var lost := SetLost(RemoveConnection(s, socket), p);
      var r := At(s, p).(socket := NO_SOCKET, socketSet := false, lost := true);
      Rewrites(s, lost, p, r, p, r) && SameRegisters(s, lost) && lost.sent == s.sent
  {
    RemoveConnectionEffect(s, p, socket);
  }

  lemma LastLossErases(s: State, g: Address, p: Address, o: Address, lost: State)
    requires Inv(s) && g in s.games && Plays(s, g, p) && Plays(s, g, o) && p != o && SameRegisters(s, lost)
    requires var r := At(s, p).(socket := NO_SOCKET, socketSet := false, lost := true); Rewrites(s, lost, p, r, p, r)
    ensures BothErased(s, g, p, o, EraseBoth(lost, g, p, o)) && EraseBoth(lost, g, p, o).sent == lost.sent
  {
    assert GameOk(s, g);
    assert forall q :: At(lost, q).name == At(s, q).name;
    ErasesBoth(lost, g, p, o);
  }

  lemma NoNullPlayer(s: State)
    requires Inv(s)
    ensures NULL !in s.players
  {
  }

  lemma OthersAreThere(s: State, g: Address, p: Address, o: Address)
    requires Plays(s, g, p) && Plays(s, g, o) && o != p && !At(s, o).lost
    ensures forall q :: Plays(s, g, q) && q != p ==> !At(s, q).lost
  {
  }

  /** What the loss of a connection in a game comes to: the player is lost, or the game and both players are erased. */
  lemma LossIsHandled(s: State, p: Address, socket: int) returns (g: Address, o: Address)
    requires Inv(s) && p in s.players && At(s, p).inGame && !At(s, p).lost && p == PlayerBySocket(s, socket)
    ensures g == GameByName(s, At(s, p).name) && o == Opponent(s, g, At(s, p).name)
    ensures g in s.games && Plays(s, g, p) && Plays(s, g, o) && o != p
    ensures
      var s' := Disconnect(s, socket);
      if At(s, o).lost then BothErased(s, g, p, o, s') && s'.sent == s.sent
      else IsLost(s, p, g, s') && s'.sent == s.sent + [Sent(At(s, o).socket, PlayerLoss)]
  {
    hide Disconnect, RemoveConnection, GameByName, Opponent, PlayerBySocket, EraseBoth, BothErased, Inv, GameOk;
    g, o := InGameFinds(s, p);
    NoNullPlayer(s);
    DisconnectUnfolds(s, p, socket, g, o);
    LostEffect(s, p, socket);
    var lost := SetLost(RemoveConnection(s, socket), p);
    if At(s, o).lost {
      LastLossErases(s, g, p, o, lost);
    } else {
      OthersAreThere(s, g, p, o);
      forall q ensures At(Send(lost, o, PlayerLoss), q) == At(lost, q) {}
    }
  }

  lemma DisconnectKeeps(s: State, p: Address)
    requires Inv(s) && p in s.players && At(s, p).socketSet
    ensures Inv(Disconnect(s, At(s, p).socket))
  {
    var socket := At(s, p).socket;
    SocketFinds(s, p);
    if At(s, p).inGame {
      assert StandingOk(At(s, p));
      var g, o := LossIsHandled(s, p, socket);
      if At(s, o).lost {
        BothErasedKeeps(s, g, p, o, Disconnect(s, socket));
      } else {
        LostKeeps(s, p, g, Disconnect(s, socket));
      }
    } else {
      RemoveConnectionEffect(s, p, socket);
      EraseKeepsOthers(s.players, FirstIndex(Sockets(s), (true, socket)));
      LeaveKeeps(s, p, Disconnect(s, socket));
    }
  }

  lemma LogoutKeeps(s: State, p: Address)
    requires Inv(s) && p in s.players && At(s, p).socketSet
    ensures Inv(Logout(s, p))
  {
    if At(s, p).inGame {
      EndGameKeeps(s, p);
    } else {
      DisconnectKeeps(s, p);
    }
  }

  lemma CountingKeeps(s: State, p: Address)
    requires Inv(s) && p in s.players
    ensures Inv(CountGarbage(s, p))
  {
    var s1 := CountGarbage(s, p);
    assert JoinsOk(s1) by {
      forall q | q in s1.players ensures PendingOk(s1, q) { assert PendingOk(s, q); }
    }
    StandingsKeep(s, s1);
  }

  lemma DropAtTenthKeeps(s: State, p: Address)
    requires Inv(s) && p in s.players && At(s, p).socketSet
    ensures Inv(DropAtTenth(s, p, At(s, p).socket))
  {
    DisconnectKeeps(s, p);
  }

  lemma GarbageKeeps(s: State, socket: int)
    requires Inv(s)
    ensures Inv(Garbage(s, socket))
  {
    var p := PlayerBySocket(s, socket);
    SocketIsRegistered(s, socket);
    if p != NULL {
      CountingKeeps(s, p);
      DropAtTenthKeeps(CountGarbage(s, p), p);
    }
  }

  // ---------- reconnection ----------

  /** An unnamed connection and a lost player, both registered. */
  ghost predicate WantsSeat(s: State, p: Address, l: Address) {
    && p in s.players && !At(s, p).nameSet && At(s, p).socketSet
    && l in s.players && At(s, l).lost
  }

  /** The lost player is at an earlier place in the register than the connection. */
  ghost predicate Comeback(s: State, p: Address, l: Address) {
    WantsSeat(s, p, l) && FirstIndex(s.players, l) < FirstIndex(s.players, p)
  }

  /** `p` in the seat of `l`, everybody and everything else where it was. */
  ghost predicate SeatTaken(s: State, p: Address, l: Address, g: Address, s': State) {
    && NoRepeats(s'.players) && (forall q :: q in s'.players <==> q in s.players && q != l)
    && (var r := Returned(At(s, p), At(s, l).name); Rewrites(s, s', p, r, p, r))
    && s' == s.(players := s'.players, store := s'.store, sent := s'.sent,
                records := s.records[g := Reseated(s, g, At(s, l).name, p)])
  }

  lemma SeatTakenGameOk(s: State, p: Address, l: Address, g: Address, s': State, h: Address)
    requires Comeback(s, p, l) && SeatTaken(s, p, l, g, s')
    requires UniqueNames(s) && StandingOk(At(s, p)) && StandingOk(At(s, l))
    requires GameOk(s, g) && Plays(s, g, l) && GameOk(s, h) && (h != g ==> !Plays(s, h, l))
    requires At(s, GameAt(s, h).p1).name != "" && At(s, GameAt(s, h).p2).name != ""
    ensures GameOk(s', h)
  {
  }

  lemma SeatTakenPlays(s: State, p: Address, l: Address, g: Address, s': State, h: Address, q: Address)
    requires SeatTaken(s, p, l, g, s') && Plays(s', h, q) && q != p
    ensures Plays(s, h, q)
  {
  }

  lemma SeatTakenOneGameEach(s: State, p: Address, l: Address, g: Address, s': State)
    requires OneGameEach(s) && SeatTaken(s, p, l, g, s')
    requires forall h :: h in s.games ==> !Plays(s, h, p)
    ensures OneGameEach(s')
  {
    forall h, k, q | h in s'.games && k in s'.games && Plays(s', h, q) && Plays(s', k, q) ensures h == k {
      if q != p {
        SeatTakenPlays(s, p, l, g, s', h, q);
        SeatTakenPlays(s, p, l, g, s', k, q);
      }
    }
  }

  lemma SeatTakenKeepsGames(s: State, p: Address, l: Address, g: Address, s': State)
    requires PlayersOk(s) && GamesOk(s) && Comeback(s, p, l) && g in s.games && Plays(s, g, l)
    requires SeatTaken(s, p, l, g, s')
    ensures GamesOk(s')
  {
    assert GameOk(s, g);
    forall h | h in s.games ensures !Plays(s, h, p) { assert GameOk(s, h); }
    SeatTakenOneGameEach(s, p, l, g, s');
    forall h | h in s'.games ensures GameOk(s', h) {
      assert GameOk(s, h);
      SeatTakenGameOk(s, p, l, g, s', h);
    }
  }

  lemma SeatTakenKeepsPlayers(s: State, p: Address, l: Address, g: Address, s': State)
    requires PlayersOk(s) && Comeback(s, p, l) && SeatTaken(s, p, l, g, s')
    ensures PlayersOk(s')
  {
    assert p != l;
    assert StandingOk(At(s, l));
    forall q, t | q in s'.players && t in s'.players && At(s', q).name == At(s', t).name != "" ensures q == t {
      assert q == p || t == p || At(s, q).name == At(s, t).name;
    }
  }

  lemma SeatTakenKeeps(s: State, p: Address, l: Address, g: Address, s': State)
    requires Inv(s) && Comeback(s, p, l) && g in s.games && Plays(s, g, l) && SeatTaken(s, p, l, g, s')
    ensures Inv(s')
  {
    SeatTakenKeepsPlayers(s, p, l, g, s');
    SeatTakenKeepsGames(s, p, l, g, s');
    assert JoinsOk(s') by {
      forall q | q in s'.players ensures PendingOk(s', q) { assert PendingOk(s, q); }
    }
    forall q | q in s'.players && At(s', q).inGame ensures InSomeGame(s', q) {
      if q == p {
        assert GameOk(s, g) && Plays(s', g, p);
      } else {
        assert InSomeGame(s, q);
        var h :| h in s.games && Plays(s, h, q);
        assert Plays(s', h, q);
      }
    }
  }

  lemma IndexOfMember(s: seq<Address>, x: Address, k: nat)
    requires NoRepeats(s) && k < |s| && s[k] == x
    ensures FirstIndex(s, x) == k
  {
  }

  /** Erasing by the name two records share erases the earlier one. */
  lemma DeletesTheEarlier(s: State, p: Address, l: Address)
    requires NoRepeats(s.players) && p in s.players && l in s.players && p != l
    requires At(s, p).name == At(s, l).name
    requires forall q :: q in s.players && At(s, q).name == At(s, l).name ==> q == p || q == l
    requires FirstIndex(s.players, l) < FirstIndex(s.players, p)
    ensures var s' := DeletePlayer(s, l);
            && s' == s.(players := s'.players)
            && NoRepeats(s'.players)
            && (forall q :: q in s'.players <==> q in s.players && q != l)
  {
    var k := FirstIndex(s.players, l);
    var f := FirstIndex(Names(s), At(s, l).name);
    assert Names(s)[k] == At(s, l).name;
    assert f <= k;
    assert s.players[f] in s.players && Names(s)[f] == At(s, s.players[f]).name;
    if s.players[f] == p { IndexOfMember(s.players, p, f); }
    assert s.players[f] == l;
    EraseKeepsOthers(s.players, f);
  }

  /** Coming back: `p` takes the seat of the lost player in the same game, the lost record and no other is erased,
      and both players are told whose turn it was and how the board stood. */
  lemma ReconnectTakesSeat(s: State, p: Address, l: Address) returns (g: Address, o: Address)
    requires Inv(s) && Comeback(s, p, l)
    ensures g in s.games && Plays(s, g, l) && Plays(s, g, o) && o != l
    ensures
      var s' := Reconnect(s, p, At(s, l).name);
      && SeatTaken(s, p, l, g, s')
      && s'.sent == s.sent + [Sent(At(s, p).socket, Continues(s, g, o)), Sent(At(s, o).socket, Continues(s, g, l))]
      && ToldBoth(s, g, l, o, s'.sent, |s.sent|)
  {
    g, o := InGameFinds(s, l);
    UnnamedIsInNoGame(s, p);
    assert StandingOk(At(s, l)) && GameOk(s, g);
    NameFinds(s, l);
    TakesSeat(s, p, l, g, o);
  }

  lemma TakesSeat(s: State, p: Address, l: Address, g: Address, o: Address)
    requires NoRepeats(s.players) && UniqueNames(s) && Comeback(s, p, l) && At(s, l).name != "" && p != l && o != p
    requires PlayerByName(s, At(s, l).name) == l != NULL
    requires forall h :: h in s.games ==> GameAt(s, h).p1 != p && GameAt(s, h).p2 != p && GameAt(s, h).onTurn != p
    requires g == GameByName(s, At(s, l).name) && g in s.games && o == Opponent(s, g, At(s, l).name)
    requires Plays(s, g, l) && At(s, o).name != At(s, l).name
    ensures
      var s' := Reconnect(s, p, At(s, l).name);
      && SeatTaken(s, p, l, g, s')
      && s'.sent == s.sent + [Sent(At(s, p).socket, Continues(s, g, o)), Sent(At(s, o).socket, Continues(s, g, l))]
      && ToldBoth(s, g, l, o, s'.sent, |s.sent|)
  {
    GiveSeatUnfolds(s, p, At(s, l).name, g, o);
    GiveSeatEffect(s, p, l, g, o);
    OnlyTheLostIsErased(s, p, l, GiveSeat(s, p, At(s, l).name));
    ReconnectUnfolds(s, p, l);
    SeatTakenFrom(s, p, l, g, GiveSeat(s, p, At(s, l).name), Reconnect(s, p, At(s, l).name));
  }

  lemma ReconnectUnfolds(s: State, p: Address, l: Address)
    requires PlayerByName(s, At(s, l).name) == l != NULL && At(s, l).lost
    ensures Reconnect(s, p, At(s, l).name) == DeletePlayer(GiveSeat(s, p, At(s, l).name), l)
  {
  }

  lemma SeatTakenFrom(s: State, p: Address, l: Address, g: Address, s1: State, t: State)
    requires var r := Returned(At(s, p), At(s, l).name); Rewrites(s, s1, p, r, p, r)
    requires s1 == s.(store := s1.store, sent := s1.sent, records := s.records[g := Reseated(s, g, At(s, l).name, p)])
    requires t == s1.(players := t.players) && NoRepeats(t.players)
    requires forall q :: q in t.players <==> q in s.players && q != l
    ensures SeatTaken(s, p, l, g, t)
  {
    assert forall q {:trigger At(t, q)} :: At(t, q) == At(s1, q);
  }

  /** After the renaming two records share the name; the lost one comes first. */
  lemma OnlyTheLostIsErased(s: State, p: Address, l: Address, s': State)
    requires NoRepeats(s.players) && UniqueNames(s) && Comeback(s, p, l) && At(s, l).name != "" && p != l
    requires s'.players == s.players
    requires var r := Returned(At(s, p), At(s, l).name); Rewrites(s, s', p, r, p, r)
    ensures var t := DeletePlayer(s', l);
            && t == s'.(players := t.players)
            && NoRepeats(t.players)
            && (forall q :: q in t.players <==> q in s.players && q != l)
  {
    DeletesTheEarlier(s', p, l);
  }

  lemma UnnamedIsInNoGame(s: State, p: Address)
    requires Inv(s) && p in s.players && !At(s, p).nameSet
    ensures forall h :: h in s.games ==> GameAt(s, h).p1 != p && GameAt(s, h).p2 != p && GameAt(s, h).onTurn != p
  {
    forall h | h in s.games ensures GameAt(s, h).p1 != p && GameAt(s, h).p2 != p && GameAt(s, h).onTurn != p {
      assert GameOk(s, h);
    }
  }

  lemma ReconnectKeeps(s: State, p: Address, name: string)
    requires Inv(s) && p in s.players && !At(s, p).nameSet && At(s, p).socketSet
    requires MayTakeOver(s, name) ==> Comeback(s, p, PlayerByName(s, name))
    ensures Inv(Reconnect(s, p, name))
  {
    if MayTakeOver(s, name) {
      var l := PlayerByName(s, name);
      PlayerByNameIsRegistered(s, name);
      var g, _ := ReconnectTakesSeat(s, p, l);
      SeatTakenKeeps(s, p, l, g, Reconnect(s, p, name));
    } else {
      ReplyKeeps(s, Reconnect(s, p, name));
    }
  }

  // ---------- no handler ever misses what it looks for ----------

  lemma GameIsFound(s: State, p: Address)
    requires Inv(s) && p in s.players && At(s, p).inGame
    ensures GameByName(s, At(s, p).name) != NULL && |s.players| >= 2
  {
    var g, o := InGameFinds(s, p);
    var k :| 0 <= k < |s.players| && s.players[k] == p;
    var l :| 0 <= l < |s.players| && s.players[l] == o;
  }

  lemma LeavingFindsGame(s: State, p: Address)
    requires Inv(s) && p in s.players && At(s, p).socketSet
    ensures CanLeave(s, At(s, p).socket) && PlayerBySocket(s, At(s, p).socket) == p
  {
    SocketFinds(s, p);
    if At(s, p).inGame {
      GameIsFound(s, p);
      RemoveConnectionEffect(s, p, At(s, p).socket);
      LookupsSurvive(s, RemoveConnection(s, At(s, p).socket), At(s, p).name);
    }
  }

  lemma SeatIsFound(s: State, p: Address, l: Address)
    requires Inv(s) && Comeback(s, p, l)
    ensures CanGiveSeat(s, p, At(s, l).name)
  {
    var g, o := InGameFinds(s, l);
    UnnamedIsInNoGame(s, p);
    var name := At(s, l).name;
    RenameEffect(s, p, name);
    RenameKeepsGames(s, p, name);
    assert StandingOk(At(s, l)) && GameOk(s, g);
    ReseatKeepsPairs(Rename(s, p, name), p, name, g);
    ReseatEffect(Rename(s, p, name), g, name, p);
  }
}
