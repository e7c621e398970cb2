/** What each header of a client's message does to the lobby, from the number on the wire to the effect. */
module ServiceCommands {
  import opened Board
  import opened Wire
  import opened Replies
  import opened Players
  import opened Text
  import opened Games
  import Pipelines
  import opened Lobby
  import opened LobbyEffects
  import opened LobbyInvariant
  import opened LobbySteps
  import opened LobbyRuns
  import opened LobbyAnswers
  import opened Services

  /** The lobby after the message of a connected player has been taken from the queue and handled. A game it may start
      will be at address `game`. */
  function Handled(s: State, p: Address, m: Message, game: Address): State {
    Serve(s, Queued(Pipelines.FromClient(At(s, p).socket, m), game))
  }

  lemma SenderIsFound(s: State, p: Address)
    requires Inv(s) && Present(s, p)
    ensures PlayerBySocket(s, At(s, p).socket) == p
  {
    PlayersAreOk(s);
    SocketFinds(s, p);
  }

  lemma Means(s: State, p: Address, m: Message, game: Address)
    requires Inv(s) && Present(s, p)
    ensures Handled(s, p, m, game)
         == if MeaningOf(p, m, game).Some? then Apply(s, MeaningOf(p, m, game).value) else s
  {
    hide Inv, MeaningOf, Apply, PlayerBySocket;
    SenderIsFound(s, p);
  }

  /** 3: the sender asks for a name. */
  lemma NewPlayerMessage(s: State, p: Address, m: Message, game: Address, name: Bytes)
    requires Inv(s) && Present(s, p) && m.header == 0x3 && m.payload == [Chars(name)]
    ensures
      var s' := Handled(s, p, m, game);
      var named := At(s, p).(name := TextOf(name), nameSet := true, availible := true);
      && (NameIsTaken(s, TextOf(name)) ==> OnlyAnswers(s, s', p, NackReason("Username already in use!")))
      && (!NameIsTaken(s, TextOf(name)) ==>
            && Rewrites(s, s', p, named, p, named) && SameRegisters(s, s')
            && s'.sent == s.sent + [Sent(At(s, p).socket, Ack)])
  {
    hide Inv, NewPlayer, TextOf, Rewrites;
    Means(s, p, m, game);
    NamingIsAcknowledgedIfFree(s, p, TextOf(name));
    if NameIsTaken(s, TextOf(name)) {
      assert NewPlayer(s, p, TextOf(name)).sent == s.sent + [NewPlayer(s, p, TextOf(name)).sent[|s.sent|]];
    }
  }

  /** 4: the sender asks for the seat of a lost player. */
  lemma ReturnMessage(s: State, p: Address, m: Message, game: Address, name: Bytes)
    requires Inv(s) && Present(s, p) && m.header == 0x4 && m.payload == [Chars(name)]
    ensures
      var s' := Handled(s, p, m, game);
      && ((forall l :: !IsLostOne(s, l, TextOf(name))) ==> OnlyAnswers(s, s', p, Nack))
      && forall l :: IsLostOne(s, l, TextOf(name)) && Comeback(s, p, l) ==>
           exists g, o :: TakesSeatOf(s, p, l, g, o, s')
  {
    hide Inv, Reconnect, TextOf, PlayerByName, SeatTaken, ToldBoth, Comeback;
    Means(s, p, m, game);
    if forall l :: !IsLostOne(s, l, TextOf(name)) { ReturnIsRefusedUnlessLost(s, p, TextOf(name)); }
    forall l | IsLostOne(s, l, TextOf(name)) && Comeback(s, p, l)
      ensures exists g, o :: TakesSeatOf(s, p, l, g, o, Reconnect(s, p, TextOf(name)))
    {
      var g, o := ReconnectTakesSeat(s, p, l);
      assert TakesSeatOf(s, p, l, g, o, Reconnect(s, p, TextOf(name)));
    }
  }

  /** `p` has the seat of `l` in the game of `l` and `o`, and both are told how it stands. */
  ghost predicate TakesSeatOf(s: State, p: Address, l: Address, g: Address, o: Address, s': State) {
    && g in s.games && Plays(s, g, l) && Plays(s, g, o) && o != l
    && SeatTaken(s, p, l, g, s') && ToldBoth(s, g, l, o, s'.sent, |s.sent|)
  }

  /** 5: the sender leaves, the game or the server. */
  lemma LogoutMessage(s: State, p: Address, m: Message, game: Address)
    requires Inv(s) && Present(s, p) && m.header == 0x5
    ensures
      var s' := Handled(s, p, m, game);
      var g := GameByName(s, At(s, p).name);
      && (At(s, p).inGame ==> LeftGame(s, p, g, Opponent(s, g, At(s, p).name), s'))
      && (!At(s, p).inGame ==>
            && (forall q :: q in s'.players <==> q in s.players && q != p)
            && (forall q :: q != p ==> At(s', q) == At(s, q)) && s'.games == s.games && s'.sent == s.sent)
  {
    hide Inv, GameByName, Opponent, LeftGame, EndGame, Disconnect;
    Means(s, p, m, game);
    if At(s, p).inGame {
      var g, o := LogoutEndsGame(s, p);
    } else {
      LeavingIsHandled(s, p);
    }
  }

  /** 6: the sender is sent the list. */
  lemma ListMessage(s: State, p: Address, m: Message, game: Address)
    requires Inv(s) && Present(s, p) && m.header == 0x6
    ensures
      var names := ListedNames(s, |s.players|, At(s, p).name);
      OnlyAnswers(s, Handled(s, p, m, game), p, PlayerList(|names|, Join(names)))
  {
    hide Inv, ListedNames;
    Means(s, p, m, game);
  }

  /** 9: the sender asks a player for a game. */
  lemma JoinMessage(s: State, p: Address, m: Message, game: Address, name: Bytes)
    requires Inv(s) && Present(s, p) && m.header == 0x9 && m.payload == [Chars(name)]
    requires At(s, p).availible && At(s, p).name != TextOf(name)
    ensures
      var s' := Handled(s, p, m, game);
      && ((forall q :: !IsAvailible(s, q, TextOf(name))) ==> OnlyAnswers(s, s', p, Nack))
      && forall q :: IsAvailible(s, q, TextOf(name)) ==>
           && At(s', q) == At(s, q).(askedBy := p, availible := false)
           && At(s', p) == At(s, p).(joining := q, availible := false)
           && s'.sent == s.sent + [Sent(At(s, p).socket, Ack), Sent(At(s, q).socket, JoinRequest(At(s, p).name))]
  {
    hide Inv, JoinPlayer, TextOf;
    Means(s, p, m, game);
    JoiningIsAcknowledgedIfAvailible(s, p, TextOf(name));
  }

  /** 11: the sender declines. Sender and asker are available again, and no game starts. */
  lemma DeclineMessage(s: State, p: Address, m: Message, game: Address)
    requires Inv(s) && Present(s, p) && m.header == 0xB && At(s, p).askedBy != NULL
    ensures
      var asking := At(s, p).askedBy;
      var s' := Handled(s, p, m, game);
      && At(s', p).availible && At(s', p).askedBy == NULL && !At(s', p).inGame
      && At(s', asking).availible
      && s'.games == s.games && s'.records == s.records && s'.players == s.players
      && (forall q :: q != p && q != asking ==> At(s', q) == At(s, q))
      && (asking in s.players ==>
            s'.sent == s.sent + [Sent(At(s, asking).socket, NackReason("Oponent declined"))])
  {
    hide DeclineJoin, GameOk, GamesOk, Handled;
    Means(s, p, m, game);
    assert PendingOk(s, p) && StandingOk(At(s, p));
    if At(s, p).askedBy in s.players { assert StandingOk(At(s, At(s, p).askedBy)); }
    hide Inv;
    DeclineEffect(s, p, At(s, p).askedBy);
  }

  /** 12: the sender accepts. With the asker still registered a game of the two starts, on an empty board and with the
      asker on turn, and each is told who begins and who the opponent is; with the asker gone none does. */
  lemma AcceptMessage(s: State, p: Address, m: Message, game: Address)
    requires Inv(s) && Present(s, p) && m.header == 0xC && At(s, p).askedBy != NULL
    requires game != NULL && game !in s.records
    ensures
      var asking := At(s, p).askedBy;
      var s' := Handled(s, p, m, game);
      && s'.players == s.players
      && (forall q :: q != p && q != asking ==> At(s', q) == At(s, q))
      && (asking in s.players ==>
            && s'.games == s.games + [game]
            && GameAt(s', game) == GameRecord(s.maxGameId, asking, p, asking, EmptyBoard())
            && At(s', p).inGame && At(s', asking).inGame && !At(s', p).availible && !At(s', asking).availible
            && s'.sent == s.sent + [Sent(At(s, asking).socket, GameStart(At(s, asking).name, At(s, p).name)),
                                    Sent(At(s, p).socket, GameStart(At(s, asking).name, At(s, asking).name))])
      && (asking !in s.players ==>
            && s'.games == s.games && !At(s', p).inGame
            && s'.sent == s.sent + [Sent(At(s, p).socket, NackReason("Player who asked is gone"))])
  {
    hide AcceptJoin, EmptyBoard, GameOk, GamesOk, Handled;
    Means(s, p, m, game);
    var asking := At(s, p).askedBy;
    assert PendingOk(s, p) && StandingOk(At(s, p));
    hide Inv;
    if asking in s.players {
      AcceptEffect(s, p, asking, game);
    } else {
      AcceptGoneEffect(s, p, asking, game);
    }
  }

  /** 14: the sender lays a tile. The entries are the tile, the row and the column; the sender's game has the tile on
      that cell; with a closed loop on the new board both are told who won and the game goes, otherwise the opponent is
      told the move and is on turn. */
  lemma MoveMessage(s: State, p: Address, m: Message, game: Address, card: uint32, i: uint32, j: uint32)
    requires Inv(s) && BoardsOk(s) && m.header == 0xE && m.payload == [Number(card), Number(i), Number(j)]
    requires Guard(s, Playing(p, card, i, j))
    ensures
      var g := GameByName(s, At(s, p).name);
      var o := Opponent(s, g, At(s, p).name);
      var board := GameAt(s, g).board[Pos(i, j) := card];
      var s' := Handled(s, p, m, game);
      && g in s.games && Plays(s, g, p) && Plays(s, g, o) && o != p
      && Moved(s, g, o, board, HasLoop(board), s')
      && Answered(s, p, o, card, i, j, HasLoop(board), s')
  {
    hide Inv, BoardsOk, Move, Moved, Answered, HasLoop, Opponent, GameByName, GameOk, Matched, AllCells, Handled;
    assert Present(s, p) && At(s, p).inGame;
    hide Guard;
    Means(s, p, m, game);
    MoveErasesGameOnLoop(s, p, card, i, j);
    var g, o := InGameFinds(s, p);
  }

  /** Any other header leaves the lobby as it is. */
  lemma OtherMessage(s: State, p: Address, m: Message, game: Address)
    requires m.header !in {0x3, 0x4, 0x5, 0x6, 0x9, 0xB, 0xC, 0xE}
    ensures Handled(s, p, m, game) == s
  {
  }

  /** The server's own notice loses the player it names: in a game, with all that follows. */
  lemma LossNotice(s: State, p: Address, game: Address)
    requires Inv(s) && Present(s, p) && At(s, p).inGame
    ensures
      var s' := Serve(s, Queued(Pipelines.PlayerLost(p), game));
      var g := GameByName(s, At(s, p).name);
      var o := Opponent(s, g, At(s, p).name);
      if At(s, o).lost then BothErased(s, g, p, o, s') && s'.sent == s.sent
      else IsLost(s, p, g, s') && s'.sent == s.sent + [Sent(At(s, o).socket, PlayerLoss)]
  {
    hide Disconnect, BothErased, IsLost, GameByName, Opponent, PlayerBySocket, GameOk, GamesOk, JoinsOk;
    assert StandingOk(At(s, p));
    hide Inv;
    SenderIsFound(s, p);
    var g, o := LossIsHandled(s, p, At(s, p).socket);
  }
}
