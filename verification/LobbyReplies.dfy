/** No reply is ever addressed to a connection that is gone. */
module LobbyReplies {
  import opened Board
  import opened LoopSearch
  import opened Players
  import opened Lobby
  import opened LobbyEffects
  import opened LobbyInvariant
  import opened LobbySteps
  import opened LobbyRuns

  /** Some registered player is connected on this socket. */
  ghost predicate Connected(s: State, socket: int) {
    exists q :: q in s.players && At(s, q).socketSet && At(s, q).socket == socket
  }

  /** The replies of a step come after all earlier ones, and each goes to a player who was connected before it. */
  ghost predicate RepliesArrive(s: State, s': State) {
    && s.sent <= s'.sent
    && forall k :: |s.sent| <= k < |s'.sent| ==> Connected(s, s'.sent[k].socket)
  }

  lemma OneArrives(s: State, s': State, p: Address)
    requires Present(s, p)
    requires s'.sent == s.sent
             || (|s'.sent| == |s.sent| + 1
                 && s'.sent == s.sent + [Sent(At(s, p).socket, s'.sent[|s.sent|].reply)])
    ensures RepliesArrive(s, s')
  {
    assert Connected(s, At(s, p).socket);
  }

  lemma BothArrive(s: State, s': State, p: Address, o: Address)
    requires Present(s, p) && Present(s, o) && |s'.sent| == |s.sent| + 2
    requires s'.sent == s.sent + [Sent(At(s, p).socket, s'.sent[|s.sent|].reply),
                                  Sent(At(s, o).socket, s'.sent[|s.sent| + 1].reply)]
    ensures RepliesArrive(s, s')
  {
    assert Connected(s, At(s, p).socket) && Connected(s, At(s, o).socket);
  }

  lemma ReconnectRepliesArrive(s: State, p: Address, name: string)
    requires Inv(s) && Guard(s, Returning(p, name))
    ensures RepliesArrive(s, Reconnect(s, p, name))
  {
    if MayTakeOver(s, name) {
      PlayerByNameIsRegistered(s, name);
      var l := PlayerByName(s, name);
      var g, o := ReconnectTakesSeat(s, p, l);
      assert GameOk(s, g);
      assert StandingOk(At(s, o));
      BothArrive(s, Reconnect(s, p, name), p, o);
    } else {
      OneArrives(s, Reconnect(s, p, name), p);
    }
  }

  lemma AcceptRepliesArrive(s: State, p: Address, game: Address)
    requires Inv(s) && Guard(s, Accepting(p, game))
    ensures RepliesArrive(s, AcceptJoin(s, p, game))
  {
    var asking := At(s, p).askedBy;
    assert PendingOk(s, p);
    if asking in s.players {
      assert StandingOk(At(s, asking));
      AcceptEffect(s, p, asking, game);
      BothArrive(s, AcceptJoin(s, p, game), asking, p);
    } else {
      AcceptGoneEffect(s, p, asking, game);
      OneArrives(s, AcceptJoin(s, p, game), p);
    }
  }

  lemma JoinRepliesArrive(s: State, p: Address, name: string)
    requires Inv(s) && Guard(s, Joining(p, name))
    ensures RepliesArrive(s, JoinPlayer(s, p, name))
  {
    var o := PlayerByName(s, name);
    PlayerByNameIsRegistered(s, name);
    if o != NULL && Joinable(At(s, o)) {
      AskEffect(s, p, o);
      BothArrive(s, JoinPlayer(s, p, name), p, o);
    } else {
      OneArrives(s, JoinPlayer(s, p, name), p);
    }
  }

  lemma DeclineRepliesArrive(s: State, p: Address)
    requires Inv(s) && Guard(s, Declining(p))
    ensures RepliesArrive(s, DeclineJoin(s, p))
  {
    var asking := At(s, p).askedBy;
    assert PendingOk(s, p);
    DeclineEffect(s, p, asking);
    if At(s, asking).socketSet { OneArrives(s, DeclineJoin(s, p), asking); }
  }

  lemma MoveRepliesArrive(s: State, p: Address, card: int, i: int, j: int)
    requires Inv(s) && Guard(s, Playing(p, card, i, j))
    ensures RepliesArrive(s, Move(s, p, card, i, j))
  {
    var g, o := InGameFinds(s, p);
    assert StandingOk(At(s, o));
    var s1 := SetField(s, g, Pos(i, j), card);
    var s' := Move(s, p, card, i, j);
    hide MoveWins, Inv, GameOk, Win, Matched;
    if MoveWins(GameAt(s1, g).board, Pos(i, j)) {
      WinEffect(s1, g, p, o, GameWon(At(s, p).name, card, i, j));
      BothArrive(s, s', p, o);
    } else {
      OneArrives(s, s', o);
    }
  }

  lemma EndGameRepliesArrive(s: State, p: Address)
    requires Inv(s) && Present(s, p) && At(s, p).inGame
    ensures RepliesArrive(s, EndGame(s, p))
  {
    var g, o := InGameFinds(s, p);
    EndGameUnfolds(s, p, g, o);
    assert StandingOk(At(s, o));
    if !At(s, o).lost {
      LeaveBothEffect(s, p, o);
      OneArrives(s, EndGame(s, p), o);
    }
  }

  lemma LossRepliesArrive(s: State, p: Address, socket: int)
    requires Inv(s) && p in s.players && At(s, p).inGame && At(s, p).socketSet && p == PlayerBySocket(s, socket)
    ensures RepliesArrive(s, Disconnect(s, socket))
  {
    assert StandingOk(At(s, p));
    var g, o := LossIsHandled(s, p, socket);
    assert GameOk(s, g) && StandingOk(At(s, o));
    if !At(s, o).lost { OneArrives(s, Disconnect(s, socket), o); }
  }

  lemma DisconnectRepliesArrive(s: State, socket: int)
    requires Inv(s)
    ensures RepliesArrive(s, Disconnect(s, socket))
  {
    var p := PlayerBySocket(s, socket);
    SocketIsRegistered(s, socket);
    if p != NULL && At(s, p).inGame {
      LossRepliesArrive(s, p, socket);
    } else if p != NULL {
      RemoveConnectionEffect(s, p, socket);
    }
  }

  lemma GarbageRepliesArrive(s: State, socket: int)
    requires Inv(s)
    ensures RepliesArrive(s, Garbage(s, socket))
  {
    var p := PlayerBySocket(s, socket);
    SocketIsRegistered(s, socket);
    if p != NULL {
      var s1 := CountGarbage(s, p);
      CountingKeeps(s, p);
      DisconnectRepliesArrive(s1, socket);
      forall t | Connected(s1, t) ensures Connected(s, t) {
        var q :| q in s1.players && At(s1, q).socketSet && At(s1, q).socket == t;
        assert q in s.players && At(s, q).socketSet && At(s, q).socket == t;
      }
    }
  }

  /** Whatever the server answers in whatever reachable state goes to registered, connected players only: no move,
      result or notice is ever addressed to a player who is lost or gone. */
  lemma RepliesReachClients(s: State, c: Command)
    requires Reachable(s) && Guard(s, c)
    ensures RepliesArrive(s, Apply(s, c))
  {
    ReachableIsSound(s);
    hide Inv, Reachable, BoardsOk, Guard;
    StepRepliesArrive(s, c);
  }

  lemma StepRepliesArrive(s: State, c: Command)
    requires Inv(s) && Guard(s, c)
    ensures RepliesArrive(s, Apply(s, c))
  {
    match c
    case Connecting(p, socket) =>
    case Naming(p, name) => OneArrives(s, NewPlayer(s, p, name), p);
    case Returning(p, name) => ReconnectRepliesArrive(s, p, name);
    case Listing(p) => OneArrives(s, ListRequest(s, p), p);
    case LoggingOut(p) =>
      if At(s, p).inGame { EndGameRepliesArrive(s, p); } else { DisconnectRepliesArrive(s, At(s, p).socket); }
    case Joining(p, name) => JoinRepliesArrive(s, p, name);
    case Accepting(p, game) => AcceptRepliesArrive(s, p, game);
    case Declining(p) => DeclineRepliesArrive(s, p);
    case Playing(p, card, i, j) => MoveRepliesArrive(s, p, card, i, j);
    case Dropping(socket) => DisconnectRepliesArrive(s, socket);
    case Junk(socket) => GarbageRepliesArrive(s, socket);
  }
}
