/** What players can rely on in every reachable lobby. */
module LobbyProperties {
  import opened Players
  import opened Text
  import opened Lobby
  import opened LobbyEffects
  import opened LobbyInvariant
  import opened LobbySteps
  import opened LobbyRuns

  /** A registered player counts as lost exactly when without a connection; then there is a game to come back to,
      with the opponent still connected in it. */
  lemma LostPlayersHaveAGame(s: State, p: Address)
    requires Reachable(s) && p in s.players
    ensures At(s, p).lost <==> !At(s, p).socketSet
    ensures At(s, p).lost ==>
              exists g, o ::
                g in s.games && Plays(s, g, p) && Plays(s, g, o) && o != p && Present(s, o) && !At(s, o).lost
  {
    ReachableIsSound(s);
    if At(s, p).lost {
      var g, o := InGameFinds(s, p);
      assert Present(s, o);
    }
  }

  /** `inGame` says of every registered player whether there is a game with that player, and there is at most one. */
  lemma InGameMeansOneGame(s: State, p: Address)
    requires Reachable(s) && p in s.players
    ensures At(s, p).inGame <==> InSomeGame(s, p)
    ensures forall g, h :: g in s.games && h in s.games && Plays(s, g, p) && Plays(s, h, p) ==> g == h
  {
    ReachableIsSound(s);
    if InSomeGame(s, p) {
      var g :| g in s.games && Plays(s, g, p);
      assert GameOk(s, g);
    }
  }

  /** The name on turn is the name of one of the two players, also while it is read from a replaced record. */
  lemma TurnIsAPlayers(s: State, g: Address)
    requires Reachable(s) && g in s.games
    ensures
      var turn := At(s, GameAt(s, g).onTurn).name;
      turn != "" && exists p :: p in s.players && Plays(s, g, p) && At(s, p).name == turn
  {
    ReachableIsSound(s);
    assert GameOk(s, g);
    assert Plays(s, g, GameAt(s, g).p1) && Plays(s, g, GameAt(s, g).p2);
  }

  /** Registered player `asking` waits for the answer of registered player `asked`. */
  ghost predicate Asks(s: State, asking: Address, asked: Address) {
    asking in s.players && asked in s.players && At(s, asked).askedBy == asking
  }

  /** Pending joins pair off players who are not available and in no game; nobody is in two of them. */
  lemma JoinsAreAMatching(s: State, asking: Address, asked: Address, q: Address)
    requires Reachable(s) && Asks(s, asking, asked)
    ensures asking != asked
    ensures !At(s, asking).availible && !At(s, asked).availible && !At(s, asking).inGame && !At(s, asked).inGame
    ensures Asks(s, asking, q) ==> q == asked
    ensures Asks(s, q, asked) ==> q == asking
    ensures !Asks(s, q, asking) && !Asks(s, asked, q)
  {
    ReachableIsSound(s);
    assert PendingOk(s, asked);
    assert StandingOk(At(s, asked)) && asking != NULL;
    if q in s.players { assert PendingOk(s, q); }
  }

  /** A name is on the list a player gets exactly when a join request for that name by that player is accepted. */
  lemma ListedMeansJoinable(s: State, p: Address, name: string)
    requires Reachable(s) && Present(s, p)
    ensures name in ListedNames(s, |s.players|, At(s, p).name) <==> name != At(s, p).name && CanBeJoined(s, name)
  {
    ReachableIsSound(s);
    var own := At(s, p).name;
    if name in ListedNames(s, |s.players|, own) {
      var k :| 0 <= k < |s.players| && IsListed(At(s, s.players[k]), own) && At(s, s.players[k]).name == name;
      NameFinds(s, s.players[k]);
    }
    if name != own && CanBeJoined(s, name) {
      PlayerByNameIsRegistered(s, name);
      var k :| 0 <= k < |s.players| && s.players[k] == PlayerByName(s, name);
      assert StandingOk(At(s, s.players[k]));
      assert IsListed(At(s, s.players[k]), own);
    }
  }

  predicate CanBeJoined(s: State, name: string) {
    PlayerByName(s, name) != NULL && Joinable(At(s, PlayerByName(s, name)))
  }

  lemma AnsweringKeepsNames(s: State, s': State, name: string)
    requires s' == s.(sent := s'.sent)
    ensures PlayerByName(s', name) == PlayerByName(s, name)
    ensures forall q :: At(s', q) == At(s, q)
  {
    assert Names(s') == Names(s);
  }

  /** Any name out of a list answer, sent straight back as a join request, is accepted: the player of that name is
      asked by the requester, and the requester is acknowledged. */
  lemma ListedJoinIsAccepted(s: State, p: Address, name: string)
    requires Reachable(s) && Present(s, p)
    requires name in ListedNames(s, |s.players|, At(s, p).name)
    ensures
      var listed := ListRequest(s, p);
      var s' := JoinPlayer(listed, p, name);
      var q := PlayerByName(s, name);
      && q in s.players && q != p && At(s, q).name == name
      && At(s', q).askedBy == p && At(s', p).joining == q
      && s'.sent == listed.sent + [Sent(At(s, p).socket, Ack), Sent(At(s, q).socket, JoinRequest(At(s, p).name))]
  {
    hide Reachable, Inv, BoardsOk, ListedNames, PlayerByName, Ask;
    ListedMeansJoinable(s, p, name);
    ReachableFindsNames(s, name);
    var listed := ListRequest(s, p);
    AnsweringKeepsNames(s, listed, name);
    AskEffect(listed, p, PlayerByName(s, name));
  }

  lemma ReachableFindsNames(s: State, name: string)
    requires Reachable(s)
    ensures var q := PlayerByName(s, name);
            q != NULL ==> q in s.players && At(s, q).name == name
  {
    hide Reachable;
    ReachableIsSound(s);
    PlayerByNameIsRegistered(s, name);
  }

  /** What a reader makes of the answer to a list request. */
  function ListShown(s: State, p: Address): seq<string> {
    var answers := ListRequest(s, p).sent;
    var reply := answers[|answers| - 1].reply;
    if reply.PlayerList? then ReadList(reply.count, reply.names) else []
  }

  /** The reader of a list answer gets exactly the listed names, none included, if and only if no listed player has the
      separator in the name. */
  lemma ListAnswerReadsBack(s: State, p: Address)
    ensures
      var names := ListedNames(s, |s.players|, At(s, p).name);
      ListShown(s, p) == names <==>
        forall q :: q in s.players && IsListed(At(s, q), At(s, p).name) ==> SEPARATOR !in At(s, q).name
  {
    var own := At(s, p).name;
    var names := ListedNames(s, |s.players|, own);
    assert ListShown(s, p) == ReadList(|names|, Join(names));
    ListReadsBack(names);
    forall q | q in s.players && IsListed(At(s, q), own) ensures At(s, q).name in names {
      var k :| 0 <= k < |s.players| && s.players[k] == q;
    }
  }

  /** Declining takes a join request back: both players are as before it was made, except that each has been
      answered, and that the asker still points to the one asked. */
  lemma DeclineUndoesAsking(s: State, p: Address, name: string)
    requires Reachable(s) && Guard(s, Joining(p, name)) && CanBeJoined(s, name)
    ensures
      var o := PlayerByName(s, name);
      var asked := JoinPlayer(s, p, name);
      var s' := DeclineJoin(asked, o);
      && Guard(asked, Declining(o)) && At(asked, o).askedBy == p
      && Rewrites(s, s', p, At(s, p).(joining := o), o, At(s, o).(joining := NULL)) && SameRegisters(s, s')
      && s'.sent == s.sent + [Sent(At(s, p).socket, Ack), Sent(At(s, o).socket, JoinRequest(At(s, p).name)),
                              Sent(At(s, p).socket, NackReason("Oponent declined"))]
  {
    hide Inv, BoardsOk, Reachable, PlayerByName, Ask, DeclineJoin, Rewrites;
    var o := PlayerByName(s, name);
    MayAsk(s, p, name);
    AskEffect(s, p, o);
    AskedHolds(s, p, o, Ask(s, p, o));
    DeclineEffect(Ask(s, p, o), o, p);
    UndoneBy(s, p, o, Ask(s, p, o), DeclineJoin(Ask(s, p, o), o));
  }

  lemma MayAsk(s: State, p: Address, name: string)
    requires Reachable(s) && Guard(s, Joining(p, name)) && CanBeJoined(s, name)
    ensures
      var o := PlayerByName(s, name);
      && p != NULL && p != o && o in s.players && At(s, o).askedBy == NULL && At(s, o).socketSet
      && JoinPlayer(s, p, name) == Ask(s, p, o)
  {
    hide Reachable, BoardsOk, Ask;
    ReachableIsSound(s);
    PlayerByNameIsRegistered(s, name);
    assert StandingOk(At(s, PlayerByName(s, name)));
  }

  lemma AskedHolds(s: State, p: Address, o: Address, asked: State)
    requires p != NULL && p != o && o in s.players && At(s, o).socketSet && SameRegisters(s, asked)
    requires Rewrites(s, asked, p, At(s, p).(availible := false, joining := o),
                      o, At(s, o).(askedBy := p, availible := false))
    ensures Guard(asked, Declining(o)) && At(asked, o).askedBy == p && asked.players == s.players
    ensures At(asked, p).socketSet == At(s, p).socketSet && At(asked, p).socket == At(s, p).socket
  {
  }

  lemma UndoneBy(s: State, p: Address, o: Address, asked: State, s': State)
    requires p != o && At(s, p).availible && At(s, o).availible && At(s, o).askedBy == NULL && At(s, p).socketSet
    requires Rewrites(s, asked, p, At(s, p).(availible := false, joining := o),
                      o, At(s, o).(askedBy := p, availible := false))
    requires SameRegisters(s, asked) && SameRegisters(asked, s')
    requires Rewrites(asked, s', o, At(asked, o).(askedBy := NULL, joining := NULL, availible := true),
                      p, At(asked, p).(availible := true))
    ensures Rewrites(s, s', p, At(s, p).(joining := o), o, At(s, o).(joining := NULL)) && SameRegisters(s, s')
  {
  }
}
