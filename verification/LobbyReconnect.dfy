/** Coming back from a connection opened before the lost one: what goes wrong, and that nothing else does. */
module LobbyReconnect {
  import opened Players
  import opened Vectors
  import opened Lobby
  import opened LobbyEffects
  import opened LobbyInvariant
  import opened LobbySteps

  // ---------- losing a connection and coming back ----------

  lemma NewcomerIsLast(players: seq<Address>, p: Address, l: Address)
    requires l in players && p !in players
    ensures FirstIndex(players + [p], l) < FirstIndex(players + [p], p)
  {
    var k :| 0 <= k < |players| && players[k] == l;
    assert (players + [p])[k] == l;
    var f := FirstIndex(players + [p], p);
    assert (players + [p])[|players|] == p;
  }

  /** The lobby after `p` was lost and came back as `n`: one seat of one game has changed hands, nothing else. */
  ghost predicate CameBack(s: State, p: Address, n: Address, g: Address, s': State) {
    && (forall q :: q in s'.players <==> (q in s.players && q != p) || q == n)
    && (forall q :: q != p && q != n ==> At(s', q) == At(s, q))
    && At(s', n).name == At(s, p).name && At(s', n).inGame && !At(s', n).lost && !At(s', n).availible
    && s'.games == s.games && s'.maxGameId == s.maxGameId
    && s'.records == s.records[g := Reseated(s, g, At(s, p).name, n)]
  }

  /** Player `p` lost and connection `n` opened: nobody else's record, no game and no name has changed. */
  ghost predicate Waiting(s: State, p: Address, n: Address, socket: int, s1: State) {
    && s1.players == s.players + [n] && s1.games == s.games && s1.records == s.records && s1.maxGameId == s.maxGameId
    && (forall q {:trigger At(s1, q)} :: At(s1, q) ==
          if q == n then FreshRecord(socket)
          else if q == p then At(s, p).(socket := NO_SOCKET, socketSet := false, lost := true) else At(s, q))
  }

  lemma LostThenConnected(s: State, p: Address, n: Address, socket: int, g: Address, s0: State)
    requires IsLost(s, p, g, s0) && n !in s.store && p in s.store
    ensures n !in s0.store ==> Waiting(s, p, n, socket, Connect(s0, n, socket))
    ensures Connect(s0, n, socket).sent == s0.sent
  {
    var s1 := Connect(s0, n, socket);
    forall q ensures At(s1, q) == if q == n then FreshRecord(socket) else At(s0, q) {}
  }

  /** Names are as they were, and so are the seats and what there is to tell about the game. */
  lemma StandsAsWhenLost(s: State, p: Address, n: Address, socket: int, g: Address, o: Address, s1: State)
    requires Waiting(s, p, n, socket, s1) && p != n && o != n
    requires At(s, n).name == "" && At(s, GameAt(s, g).onTurn).name != "" && At(s, GameAt(s, g).p1).name != ""
    ensures Continues(s1, g, o) == Continues(s, g, o) && Continues(s1, g, p) == Continues(s, g, p)
    ensures Reseated(s1, g, At(s, p).name, n) == Reseated(s, g, At(s, p).name, n)
  {
  }

  lemma CameBackFrom(s: State, p: Address, n: Address, socket: int, g: Address, s1: State, s': State)
    requires Waiting(s, p, n, socket, s1) && SeatTaken(s1, n, p, g, s') && p != n && p in s.players && n !in s.players
    requires Reseated(s1, g, At(s, p).name, n) == Reseated(s, g, At(s, p).name, n)
    ensures CameBack(s, p, n, g, s')
  {
  }

  lemma ReturnTakesSeat(s: State, p: Address, n: Address, socket: int) returns (g: Address, o: Address, s1: State)
    requires Inv(s) && p in s.players && At(s, p).socketSet && At(s, p).inGame
    requires !At(s, Opponent(s, GameByName(s, At(s, p).name), At(s, p).name)).lost
    requires n !in s.store && n != NULL
    requires forall q :: q in s.players && At(s, q).socketSet ==> At(s, q).socket != socket
    ensures g == GameByName(s, At(s, p).name) && o == Opponent(s, g, At(s, p).name)
    ensures s1 == Connect(Disconnect(s, At(s, p).socket), n, socket) && WantsSeat(s1, n, p)
    ensures s1.sent == s.sent + [Sent(At(s, o).socket, PlayerLoss)]
    ensures CameBack(s, p, n, g, Reconnect(s1, n, At(s, p).name))
    ensures Reconnect(s1, n, At(s, p).name).sent
         == s1.sent + [Sent(socket, Continues(s, g, o)), Sent(At(s, o).socket, Continues(s, g, p))]
  {
    hide Disconnect, Connect, Reconnect, PlayerBySocket, GameByName, Opponent, Continues, Reseated, SeatTaken, CameBack,
         ToldBoth;
    g, o, s1 := LossLeavesSeat(s, p, n, socket);
    assert At(s1, p).name == At(s, p).name && Comeback(s1, n, p);
    var h, t := ReconnectTakesSeat(s1, n, p);
    SameGame(s, p, n, socket, g, o, s1, h, t);
    hide Inv, GameOk, Comeback;
    StandsAsWhenLost(s, p, n, socket, g, o, s1);
    CameBackFrom(s, p, n, socket, g, s1, Reconnect(s1, n, At(s, p).name));
  }

  /** Losing a connection in a game and coming back on a new one is a round trip: the same game with the same board,
      opponent and turn, told to both players as it stood when the connection was lost. */
  lemma LossAndReturn(s: State, p: Address, n: Address, socket: int)
    requires Inv(s) && p in s.players && At(s, p).socketSet && At(s, p).inGame
    requires !At(s, Opponent(s, GameByName(s, At(s, p).name), At(s, p).name)).lost
    requires n !in s.store && n != NULL
    requires forall q :: q in s.players && At(s, q).socketSet ==> At(s, q).socket != socket
    ensures
      var g := GameByName(s, At(s, p).name);
      var o := Opponent(s, g, At(s, p).name);
      var s1 := Connect(Disconnect(s, At(s, p).socket), n, socket);
      var s' := Reconnect(s1, n, At(s, p).name);
      && WantsSeat(s1, n, p)
      && CameBack(s, p, n, g, s')
      && s'.sent == s.sent + [Sent(At(s, o).socket, PlayerLoss)]
                           + [Sent(socket, Continues(s, g, o)), Sent(At(s, o).socket, Continues(s, g, p))]
      && ToldBoth(s, g, p, o, s'.sent, |s.sent| + 1)
  {
    hide Disconnect, Connect, Reconnect, GameByName, Opponent, Continues, CameBack, ToldBoth, WantsSeat, Inv;
    var g, o, s1 := ReturnTakesSeat(s, p, n, socket);
    BothWereTold(s, g, p, o, Reconnect(s1, n, At(s, p).name).sent, s1.sent, socket);
  }

  lemma BothWereTold(s: State, g: Address, p: Address, o: Address, sent: seq<Sent>, before: seq<Sent>, socket: int)
    requires sent == before + [Sent(socket, Continues(s, g, o)), Sent(At(s, o).socket, Continues(s, g, p))]
    ensures ToldBoth(s, g, p, o, sent, |before|)
  {
    hide Tells, Continues;
    ContinuesTells(s, g, o);
    ContinuesTells(s, g, p);
  }

  lemma LossLeavesSeat(s: State, p: Address, n: Address, socket: int) returns (g: Address, o: Address, s1: State)
    requires Inv(s) && p in s.players && At(s, p).socketSet && At(s, p).inGame
    requires !At(s, Opponent(s, GameByName(s, At(s, p).name), At(s, p).name)).lost
    requires n !in s.store && n != NULL
    requires forall q :: q in s.players && At(s, q).socketSet ==> At(s, q).socket != socket
    ensures s1 == Connect(Disconnect(s, At(s, p).socket), n, socket)
    ensures g == GameByName(s, At(s, p).name) && o == Opponent(s, g, At(s, p).name)
    ensures GameOk(s, g) && g in s.games && Plays(s, g, p) && Plays(s, g, o) && o != p && p != n && o != n
    ensures At(s, p).name != "" && At(s, o).name != ""
    ensures Inv(s1) && Waiting(s, p, n, socket, s1) && Comeback(s1, n, p)
    ensures s1.sent == s.sent + [Sent(At(s, o).socket, PlayerLoss)]
  {
    hide Disconnect, GameByName, Opponent;
    assert StandingOk(At(s, p)) && p in s.store && p != NULL;
    SocketFinds(s, p);
    g, o := LossIsHandled(s, p, At(s, p).socket);
    assert GameOk(s, g) && StandingOk(At(s, o));
    var s0 := Disconnect(s, At(s, p).socket);
    DisconnectKeeps(s, p);
    NobodyCame(s, p, At(s, p).socket, g, o);
    hide Inv, GameOk;
    ConnectKeeps(s0, n, socket);
    LostThenConnected(s, p, n, socket, g, s0);
    s1 := Connect(s0, n, socket);
    NewcomerIsLast(s.players, n, p);
  }

  lemma NobodyCame(s: State, p: Address, socket: int, g: Address, o: Address)
    requires p in s.store && p != NULL && p == PlayerBySocket(s, socket) && At(s, p).inGame && !At(s, o).lost
    requires g == GameByName(s, At(s, p).name) && o == Opponent(s, g, At(s, p).name) && o != p
    ensures Disconnect(s, socket).store.Keys == s.store.Keys
  {
    DisconnectUnfolds(s, p, socket, g, o);
    hide Disconnect, GameByName, Opponent, EraseBoth;
  }

  lemma SameGame(
    s: State, p: Address, n: Address, socket: int, g: Address, o: Address, s1: State, h: Address, t: Address)
    requires OneGameEach(s) && Waiting(s, p, n, socket, s1)
    requires g in s.games && Plays(s, g, p) && Plays(s, g, o) && o != p
    requires h in s1.games && Plays(s1, h, p) && Plays(s1, h, t) && t != p
    ensures h == g && t == o
  {
    assert Plays(s, h, p) && Plays(s, h, t);
  }

  // ---------- coming back on an earlier connection ----------

  /** With the connection earlier in the register than the lost player, erasing by the name erases the connection. */
  lemma NewcomerIsErased(s: State, p: Address, l: Address)
    requires Inv(s) && WantsSeat(s, p, l) && FirstIndex(s.players, p) < FirstIndex(s.players, l)
    ensures
      var s' := Reconnect(s, p, At(s, l).name);
      && (forall q :: q in s'.players <==> q in s.players && q != p)
      && exists g :: g in s'.games && Plays(s', g, p)
  {
    var name := At(s, l).name;
    var g, o := InGameFinds(s, l);
    UnnamedIsInNoGame(s, p);
    assert StandingOk(At(s, l)) && GameOk(s, g);
    NameFinds(s, l);
    GiveSeatUnfolds(s, p, name, g, o);
    GiveSeatEffect(s, p, l, g, o);
    var s1 := GiveSeat(s, p, name);
    ErasedByName(s, p, l, s1);
    ReconnectUnfolds(s, p, l);
    var s' := Reconnect(s, p, name);
    assert g in s'.games && Plays(s', g, p);
  }

  lemma ErasedByName(s: State, p: Address, l: Address, s1: State)
    requires PlayersOk(s) && WantsSeat(s, p, l) && FirstIndex(s.players, p) < FirstIndex(s.players, l)
    requires s1.players == s.players
    requires var r := Returned(At(s, p), At(s, l).name); Rewrites(s, s1, p, r, p, r)
    ensures var s' := DeletePlayer(s1, l);
            s' == s1.(players := s'.players) && forall q :: q in s'.players <==> q in s.players && q != p
  {
    assert StandingOk(At(s, l)) && p != l;
    DeletesTheEarlier(s1, l, p);
  }

  /** Coming back keeps the lobby consistent exactly when the lost player is the earlier one in the register. */
  lemma ReconnectKeepsExactly(s: State, p: Address, name: string)
    requires Inv(s) && MayTakeOver(s, name) && WantsSeat(s, p, PlayerByName(s, name))
    ensures Inv(Reconnect(s, p, name)) <==> FirstIndex(s.players, PlayerByName(s, name)) < FirstIndex(s.players, p)
  {
    var l := PlayerByName(s, name);
    PlayerByNameIsRegistered(s, name);
    if FirstIndex(s.players, l) < FirstIndex(s.players, p) {
      ReconnectKeeps(s, p, name);
    } else {
      assert FirstIndex(s.players, l) < |s.players| || FirstIndex(s.players, p) < |s.players|;
      NewcomerIsErased(s, p, l);
      var s' := Reconnect(s, p, name);
      var g :| g in s'.games && Plays(s', g, p);
      assert p !in s'.players && !GameOk(s', g);
    }
  }
}
