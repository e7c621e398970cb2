/** The dead end of the lobby: a player whom nobody can ask any more and who can ask nobody, until logging out. */
module LobbyLimbo {
  import opened Board
  import opened LoopSearch
  import opened Players
  import opened Games
  import opened Vectors
  import opened Lobby
  import opened LobbyEffects
  import opened LobbyInvariant
  import opened LobbySteps
  import opened LobbyRuns

  /** Registered and named, but not available, not in a game, not asked, and waiting for nobody's answer. */
  ghost predicate Limbo(s: State, p: Address) {
    && p in s.players
    && At(s, p).nameSet && !At(s, p).availible && !At(s, p).inGame && At(s, p).askedBy == NULL
    && forall q :: q in s.players ==> At(s, q).askedBy != p
  }

  /** Accepting starts a game exactly when the asker is still registered; otherwise the asked player is in limbo. */
  lemma AcceptStartsGameIfAskerStayed(s: State, p: Address, game: Address)
    requires Reachable(s) && Guard(s, Accepting(p, game))
    ensures
      var asking := At(s, p).askedBy;
      var s' := AcceptJoin(s, p, game);
      && (asking in s.players <==> game in s'.games)
      && (asking in s.players ==> GameAt(s', game) == GameRecord(s.maxGameId, asking, p, asking, EmptyBoard()))
      && (asking !in s.players <==> Limbo(s', p))
  {
    ReachableIsSound(s);
    var asking := At(s, p).askedBy;
    var s' := AcceptJoin(s, p, game);
    assert PendingOk(s, p);
    assert game !in s.games by { assert game in s.games ==> GameOk(s, game); }
    if asking in s.players {
      AcceptEffect(s, p, asking, game);
    } else {
      AcceptGoneEffect(s, p, asking, game);
      forall q | q in s'.players ensures At(s', q).askedBy != p { assert PendingOk(s, q); }
    }
  }

  // ---------- which commands lead there ----------

  /** The command that takes `q` out of the register, if out of any game: `q` logs out, loses the connection, or sends
      the tenth packet that cannot be read. */
  ghost predicate Goes(s: State, c: Command, q: Address) {
    match c
    case LoggingOut(a) => a == q
    case Dropping(socket) => PlayerBySocket(s, socket) == q
    case Junk(socket) => PlayerBySocket(s, socket) == q && At(s, q).bullshit + 1 >= MAX_BULLSHIT
    case _ => false
  }

  /** `p` accepts a player who is gone, or waits for the answer of a player who goes now. */
  ghost predicate EntersLimbo(s: State, c: Command, p: Address) {
    && p in s.players
    && (|| (c.Accepting? && c.p == p && At(s, p).askedBy !in s.players)
        || (exists q :: q in s.players && At(s, q).askedBy == p && Goes(s, c, q)))
  }

  /** Asked by nobody, and without a name, in a game or available. */
  ghost predicate Clear(r: PlayerRecord) {
    r.askedBy == NULL && (!r.nameSet || r.inGame || r.availible)
  }

  /** A step between two players neither of whom has to do with limbo, before or after, concerns no one in limbo. */
  lemma LimboElsewhere(s: State, s': State, a: Address, o: Address, p: Address)
    requires NULL !in s.players && NULL !in s'.players
    requires Clear(At(s, a)) && Clear(At(s, o))
    requires (a in s'.players ==> Clear(At(s', a))) && (o in s'.players ==> Clear(At(s', o)))
    requires forall q :: q != a && q != o ==> At(s', q) == At(s, q) && (q in s'.players <==> q in s.players)
    ensures Limbo(s', p) <==> Limbo(s, p)
  {
  }

  lemma ConnectLimbo(s: State, a: Address, socket: int, p: Address)
    requires Inv(s) && Guard(s, Connecting(a, socket))
    ensures Limbo(Connect(s, a, socket), p) <==> Limbo(s, p)
  {
    var s' := Connect(s, a, socket);
    forall q ensures At(s', q) == if q == a then FreshRecord(socket) else At(s, q) {}
    assert s'.players[|s.players|] == a;
    forall q | q in s.players ensures q in s'.players && q != a {}
  }

  lemma NamingLimbo(s: State, a: Address, name: string, p: Address)
    requires Inv(s) && Guard(s, Naming(a, name))
    ensures Limbo(NewPlayer(s, a, name), p) <==> Limbo(s, p)
  {
    assert NULL !in s.players && StandingOk(At(s, a));
    hide Inv;
    if PlayerByName(s, name) == NULL {
      NamedEffect(s, a, name);
      LimboElsewhere(s, NewPlayer(s, a, name), a, a, p);
    } else {
      ReplyLimbo(s, NewPlayer(s, a, name), p);
    }
  }

  lemma ReplyLimbo(s: State, s': State, p: Address)
    requires s' == s.(sent := s'.sent)
    ensures Limbo(s', p) <==> Limbo(s, p)
  {
    forall q ensures At(s', q) == At(s, q) {}
  }

  lemma ReconnectLimbo(s: State, a: Address, name: string, p: Address)
    requires Inv(s) && Guard(s, Returning(a, name))
    ensures Limbo(Reconnect(s, a, name), p) <==> Limbo(s, p)
  {
    if MayTakeOver(s, name) {
      PlayerByNameIsRegistered(s, name);
      var l := PlayerByName(s, name);
      assert NULL !in s.players && StandingOk(At(s, a)) && StandingOk(At(s, l));
      var g, o := ReconnectTakesSeat(s, a, l);
      hide Inv, Reconnect, PlayerByName;
      LimboElsewhere(s, Reconnect(s, a, name), a, l, p);
    } else {
      ReplyLimbo(s, Reconnect(s, a, name), p);
    }
  }

  lemma JoinLimbo(s: State, a: Address, name: string, p: Address)
    requires Inv(s) && Guard(s, Joining(a, name))
    ensures Limbo(JoinPlayer(s, a, name), p) <==> Limbo(s, p)
  {
    var o := PlayerByName(s, name);
    PlayerByNameIsRegistered(s, name);
    if o != NULL && Joinable(At(s, o)) {
      AskEffect(s, a, o);
    } else {
      ReplyLimbo(s, JoinPlayer(s, a, name), p);
    }
  }

  lemma AcceptLimbo(s: State, a: Address, game: Address, p: Address)
    requires Inv(s) && Guard(s, Accepting(a, game))
    ensures Limbo(AcceptJoin(s, a, game), p) <==>
              Limbo(s, p) || (p == a && p in s.players && At(s, a).askedBy !in s.players)
  {
    var asking := At(s, a).askedBy;
    assert PendingOk(s, a) && NULL !in s.players;
    forall q | q in s.players ensures PendingOk(s, q) && (At(s, q).askedBy == asking ==> q == a) {}
    hide Inv;
    if asking in s.players {
      AcceptEffect(s, a, asking, game);
    } else {
      AcceptGoneEffect(s, a, asking, game);
    }
  }

  lemma DeclineLimbo(s: State, a: Address, p: Address)
    requires Inv(s) && Guard(s, Declining(a))
    ensures Limbo(DeclineJoin(s, a), p) <==> Limbo(s, p)
  {
    assert PendingOk(s, a);
    DeclineEffect(s, a, At(s, a).askedBy);
  }

  lemma MoveLimbo(s: State, a: Address, card: int, i: int, j: int, p: Address)
    requires Inv(s) && Guard(s, Playing(a, card, i, j))
    ensures Limbo(Move(s, a, card, i, j), p) <==> Limbo(s, p)
  {
    var g, o := InGameFinds(s, a);
    assert NULL !in s.players && StandingOk(At(s, a)) && StandingOk(At(s, o));
    var s' := Move(s, a, card, i, j);
    var won := MoveWins(GameAt(s, g).board[Pos(i, j) := card], Pos(i, j));
    MoveMoves(s, a, card, i, j, g, o);
    hide Inv, Guard, GameOk, Move, MoveWins, Moved, Opponent, GameByName;
    if won {
      LimboElsewhere(s, s', a, o, p);
    } else {
      SamePlayersLimbo(s, s', p);
    }
  }

  lemma SamePlayersLimbo(s: State, s': State, p: Address)
    requires s'.players == s.players && s'.store == s.store
    ensures Limbo(s', p) <==> Limbo(s, p)
  {
    forall q ensures At(s', q) == At(s, q) {}
  }

  lemma EndGameLimbo(s: State, a: Address, p: Address)
    requires Inv(s) && a in s.players && At(s, a).inGame
    ensures Limbo(Logout(s, a), p) <==> Limbo(s, p)
  {
    var g, o := LogoutEndsGame(s, a);
    assert NULL !in s.players && StandingOk(At(s, a)) && StandingOk(At(s, o));
    hide Inv, Logout, GameOk, Opponent, GameByName;
    LimboElsewhere(s, Logout(s, a), a, o, p);
  }

  lemma LossLimbo(s: State, a: Address, socket: int, p: Address)
    requires Inv(s) && a in s.players && At(s, a).inGame && At(s, a).socketSet && a == PlayerBySocket(s, socket)
    ensures Limbo(Disconnect(s, socket), p) <==> Limbo(s, p)
  {
    assert NULL !in s.players && StandingOk(At(s, a));
    var g, o := LossIsHandled(s, a, socket);
    assert GameOk(s, g) && StandingOk(At(s, o));
    hide Inv, Disconnect, GameOk, Opponent, GameByName;
    LimboElsewhere(s, Disconnect(s, socket), a, o, p);
  }

  /** A player out of any game goes: whoever waits for that player's answer is in limbo from now on. */
  lemma GoneLimbo(s: State, q: Address, s': State, p: Address)
    requires Inv(s) && q in s.players && !At(s, q).inGame
    requires (forall r :: r in s'.players <==> r in s.players && r != q) && forall r :: r != q ==> At(s', r) == At(s, r)
    ensures Limbo(s', p) <==> (Limbo(s, p) && p != q) || (p in s.players && At(s, q).askedBy == p)
  {
    assert PendingOk(s, q);
    if p in s.players && At(s, q).askedBy == p {
      assert StandingOk(At(s, p));
    }
  }

  lemma LeaveLimbo(s: State, socket: int, p: Address)
    requires Inv(s)
    ensures
      var q := PlayerBySocket(s, socket);
      var waiting := q != NULL && p in s.players && At(s, q).askedBy == p;
      Limbo(Disconnect(s, socket), p) <==> (Limbo(s, p) && p != q) || waiting
  {
    var q := PlayerBySocket(s, socket);
    SocketIsRegistered(s, socket);
    if q != NULL {
      assert StandingOk(At(s, q)) && NULL !in s.players;
      if At(s, q).inGame {
        LossLimbo(s, q, socket, p);
      } else {
        RemoveConnectionEffect(s, q, socket);
        EraseKeepsOthers(s.players, FirstIndex(Sockets(s), (true, socket)));
        GoneLimbo(s, q, Disconnect(s, socket), p);
      }
    }
  }

  lemma CountedFinds(s: State, q: Address)
    requires Inv(s) && q in s.players && At(s, q).socketSet
    ensures PlayerBySocket(CountGarbage(s, q), At(s, q).socket) == q
  {
    hide Inv;
    CountingKeeps(s, q);
    PlayersAreOk(CountGarbage(s, q));
    SocketFinds(CountGarbage(s, q), q);
  }

  lemma LimboCounted(s: State, q: Address, p: Address)
    ensures Limbo(CountGarbage(s, q), p) <==> Limbo(s, p)
  {
    var s1 := CountGarbage(s, q);
    forall r ensures At(s1, r) == if r == q then At(s, q).(bullshit := At(s, q).bullshit + 1) else At(s, r) {}
  }

  lemma GarbageLimbo(s: State, socket: int, p: Address)
    requires Inv(s)
    ensures
      var q := PlayerBySocket(s, socket);
      var goes := Goes(s, Junk(socket), q);
      var waiting := q != NULL && p in s.players && At(s, q).askedBy == p;
      Limbo(Garbage(s, socket), p) <==> (Limbo(s, p) && !(goes && p == q)) || (goes && waiting)
  {
    var q := PlayerBySocket(s, socket);
    SocketIsRegistered(s, socket);
    if q != NULL {
      var s1 := CountGarbage(s, q);
      CountingKeeps(s, q);
      CountedFinds(s, q);
      hide Inv, PlayerBySocket;
      LeaveLimbo(s1, socket, p);
      forall r ensures At(s1, r) == if r == q then At(s, q).(bullshit := At(s, q).bullshit + 1) else At(s, r) {}
      LimboCounted(s, q, p);
    }
  }

  /** With `q` the only one to go, those who enter limbo are those who wait for the answer of `q`. */
  lemma GoingEntersLimbo(s: State, c: Command, q: Address, p: Address)
    requires Inv(s) && q in s.players && Goes(s, c, q) && !c.Accepting?
    requires forall r :: r in s.players && Goes(s, c, r) ==> r == q
    ensures EntersLimbo(s, c, p) <==> p in s.players && At(s, q).askedBy == p
  {
  }

  lemma DropLimbo(s: State, socket: int, p: Address)
    requires Inv(s) && Guard(s, Dropping(socket))
    ensures var c := Dropping(socket);
            Limbo(Apply(s, c), p) <==> (Limbo(s, p) && !Goes(s, c, p)) || EntersLimbo(s, c, p)
  {
    LeaveLimbo(s, socket, p);
    SocketIsRegistered(s, socket);
    GoingEntersLimbo(s, Dropping(socket), PlayerBySocket(s, socket), p);
  }

  lemma JunkLimbo(s: State, socket: int, p: Address)
    requires Inv(s)
    ensures var c := Junk(socket);
            Limbo(Apply(s, c), p) <==> (Limbo(s, p) && !Goes(s, c, p)) || EntersLimbo(s, c, p)
  {
    GarbageLimbo(s, socket, p);
    SocketIsRegistered(s, socket);
    var q := PlayerBySocket(s, socket);
    assert NULL !in s.players;
    if q != NULL && Goes(s, Junk(socket), q) {
      GoingEntersLimbo(s, Junk(socket), q, p);
    }
  }

  lemma LogoutLimbo(s: State, a: Address, p: Address)
    requires Inv(s) && Guard(s, LoggingOut(a))
    ensures var c := LoggingOut(a);
            Limbo(Apply(s, c), p) <==> (Limbo(s, p) && !Goes(s, c, p)) || EntersLimbo(s, c, p)
  {
    assert NULL !in s.players && StandingOk(At(s, a));
    GoingEntersLimbo(s, LoggingOut(a), a, p);
    if At(s, a).inGame {
      EndGameLimbo(s, a, p);
    } else {
      SocketFinds(s, a);
      LeaveLimbo(s, At(s, a).socket, p);
    }
  }

  /** Exactly when a player is in limbo after a command: by having been and not leaving, by accepting a player who is
      gone, or by the asked player going. No other command and no other player ever gets there. */
  lemma LimboExactly(s: State, c: Command, p: Address)
    requires Inv(s) && Guard(s, c)
    ensures Limbo(Apply(s, c), p) <==> (Limbo(s, p) && !Goes(s, c, p)) || EntersLimbo(s, c, p)
  {
    hide Inv, Guard, Limbo, PlayerBySocket;
    match c
    case Connecting(a, socket) => ConnectLimbo(s, a, socket, p);
    case Naming(a, name) => NamingLimbo(s, a, name, p);
    case Returning(a, name) => ReconnectLimbo(s, a, name, p);
    case Listing(a) => ReplyLimbo(s, ListRequest(s, a), p);
    case LoggingOut(a) => LogoutLimbo(s, a, p);
    case Joining(a, name) => JoinLimbo(s, a, name, p);
    case Accepting(a, game) => AcceptLimbo(s, a, game, p);
    case Declining(a) => DeclineLimbo(s, a, p);
    case Playing(a, card, i, j) => MoveLimbo(s, a, card, i, j, p);
    case Dropping(socket) => DropLimbo(s, socket, p);
    case Junk(socket) => JunkLimbo(s, socket, p);
  }

  // ---------- no way out ----------

  lemma GarbageGoes(s: State, socket: int, q: Address)
    requires Inv(s) && q in s.players && !At(s, q).inGame && Goes(s, Junk(socket), q)
    ensures q !in Garbage(s, socket).players
  {
    SocketIsRegistered(s, socket);
    var s1 := CountGarbage(s, q);
    CountingKeeps(s, q);
    SocketFinds(s1, q);
    GoneByDisconnection(s1, socket, q);
  }

  lemma GoneByDisconnection(s: State, socket: int, q: Address)
    requires Inv(s) && q in s.players && !At(s, q).inGame && PlayerBySocket(s, socket) == q
    ensures q !in Disconnect(s, socket).players
  {
    assert q != NULL;
    RemoveConnectionEffect(s, q, socket);
    EraseKeepsOthers(s.players, FirstIndex(Sockets(s), (true, socket)));
  }

  /** Who goes is out of the register. */
  lemma GoesAway(s: State, c: Command, q: Address)
    requires Inv(s) && Guard(s, c) && q in s.players && !At(s, q).inGame && Goes(s, c, q)
    ensures q !in Apply(s, c).players
  {
    match c
    case LoggingOut(a) => SocketFinds(s, a); GoneByDisconnection(s, At(s, a).socket, a);
    case Dropping(socket) => GoneByDisconnection(s, socket, q);
    case Junk(socket) => GarbageGoes(s, socket, q);
  }

  /** No command whatever gets a player out of limbo but by leaving the register. */
  lemma LimboLasts(s: State, c: Command, p: Address)
    requires Inv(s) && Guard(s, c) && Limbo(s, p)
    ensures p in Apply(s, c).players ==> Limbo(Apply(s, c), p)
  {
    LimboExactly(s, c, p);
    if Goes(s, c, p) { GoesAway(s, c, p); }
  }

  ghost predicate StaysRegistered(commands: seq<Command>, n: nat, p: Address) {
    forall k :: n <= k <= |commands| ==> p in Run(commands[..k]).players
  }

  /** Over every run: who is in limbo after the first `n` commands is in limbo for as long as registered. */
  lemma {:induction false} LimboIsForever(commands: seq<Command>, n: nat, p: Address)
    requires Guarded(commands) && n <= |commands|
    requires Limbo(Run(commands[..n]), p) && StaysRegistered(commands, n, p)
    ensures Limbo(Run(commands), p)
    decreases |commands|
  {
    hide Limbo, Guard, Apply;
    assert commands[..|commands|] == commands;
    if n < |commands| {
      var before := commands[..|commands| - 1];
      assert before[..n] == commands[..n];
      forall k | n <= k <= |before| ensures p in Run(before[..k]).players { assert before[..k] == commands[..k]; }
      LimboIsForever(before, n, p);
      RunKeeps(before);
      LimboLasts(Run(before), commands[|commands| - 1], p);
    }
  }

  /** The command after the first `n` led `p` into limbo, and `p` has not gone since. */
  ghost predicate InLimboSince(commands: seq<Command>, n: nat, p: Address) {
    && n < |commands|
    && EntersLimbo(Run(commands[..n]), commands[n], p)
    && forall k :: n < k < |commands| ==> !Goes(Run(commands[..k]), commands[k], p)
  }

  /** Over every run: a player is in limbo exactly if one of the commands led there and none since took the player out
      of the register. */
  lemma {:induction false} LimboHasACause(commands: seq<Command>, p: Address)
    requires Guarded(commands)
    ensures Limbo(Run(commands), p) <==> exists n :: InLimboSince(commands, n, p)
  {
    hide Limbo, Guard, Apply, EntersLimbo, Goes, Inv;
    if commands != [] {
      var m := |commands| - 1;
      var before := commands[..m];
      LimboHasACause(before, p);
      RunKeeps(before);
      LimboExactly(Run(before), commands[m], p);
      forall n: nat | n < m ensures InLimboSince(commands, n, p) <==>
        InLimboSince(before, n, p) && !Goes(Run(before), commands[m], p)
      {
        SincePrefix(commands, n, p);
      }
      assert InLimboSince(commands, m, p) <==> EntersLimbo(Run(before), commands[m], p);
    } else {
      NobodyAtTheStart(p);
    }
  }

  lemma NobodyAtTheStart(p: Address)
    ensures !Limbo(EMPTY, p)
  {
  }

  lemma SincePrefix(commands: seq<Command>, n: nat, p: Address)
    requires n < |commands| - 1
    ensures
      var m := |commands| - 1;
      InLimboSince(commands, n, p) <==>
        InLimboSince(commands[..m], n, p) && !Goes(Run(commands[..m]), commands[m], p)
  {
    hide EntersLimbo, Goes, Run;
    var m := |commands| - 1;
    var before := commands[..m];
    forall k | 0 <= k <= m ensures before[..k] == commands[..k] {}
  }
}
