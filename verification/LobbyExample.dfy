/** A run of the server, step by step, into two lobbies that its players would not expect. */
module LobbyExample {
  import opened Board
  import opened Players
  import opened Games
  import opened Vectors
  import opened Lobby
  import opened LobbyEffects
  import opened LobbyInvariant
  import opened LobbySteps
  import opened LobbyRuns
  import opened LobbyLimbo
  import opened LobbyReconnect
  import opened LobbyProperties
  import opened Text

  const ANN := FreshRecord(12).(name := "ann", nameSet := true, availible := true)
  const BOB := FreshRecord(13).(name := "bob", nameSet := true, availible := true)

  /** Three connections; the second and the third get names, and the second asks the third, who accepts. */
  const CONNECTED := State(
    map[1 := FreshRecord(11), 2 := FreshRecord(12), 3 := FreshRecord(13)], [1, 2, 3], map[], [], 0, [])
  const ONE_NAMED := CONNECTED.(store := CONNECTED.store[2 := ANN], sent := [Sent(12, Ack)])
  const NAMED := CONNECTED.(
    store := map[1 := FreshRecord(11), 2 := ANN, 3 := BOB], sent := [Sent(12, Ack), Sent(13, Ack)])
  const ASKED := NAMED.(
    store := map[1 := FreshRecord(11), 2 := ANN.(availible := false, joining := 3),
                 3 := BOB.(availible := false, askedBy := 2)],
    sent := NAMED.sent + [Sent(12, Ack), Sent(13, JoinRequest("ann"))])
  const PLAYING := State(
    map[1 := FreshRecord(11), 2 := ANN.(availible := false, inGame := true, joining := 3),
        3 := BOB.(availible := false, inGame := true)],
    [1, 2, 3], map[4 := GameRecord(0, 2, 3, 2, EmptyBoard())], [4], 1,
    ASKED.sent + [Sent(12, GameStart("ann", "bob")), Sent(13, GameStart("ann", "ann"))])

  /** Ann has lost her connection. Connection 1, which came before hers, has no name yet. */
  const EARLY_CONNECTION := PLAYING.(
    store := PLAYING.store[2 := PLAYING.store[2].(socket := NO_SOCKET, socketSet := false, lost := true)],
    sent := PLAYING.sent + [Sent(13, PlayerLoss)])

  lemma ConnectedIsReached()
    ensures Reachable(CONNECTED)
  {
    StartIsReachable();
    var s1 := State(map[1 := FreshRecord(11)], [1], map[], [], 0, []);
    var s2 := State(map[1 := FreshRecord(11), 2 := FreshRecord(12)], [1, 2], map[], [], 0, []);
    assert Connect(EMPTY, 1, 11) == s1 && Connect(s1, 2, 12) == s2 && Connect(s2, 3, 13) == CONNECTED;
    hide Reachable;
    StepsOn(EMPTY, Connecting(1, 11));
    StepsOn(s1, Connecting(2, 12));
    StepsOn(s2, Connecting(3, 13));
  }

  lemma AnnIsNamed()
    ensures Guard(CONNECTED, Naming(2, "ann")) && NewPlayer(CONNECTED, 2, "ann") == ONE_NAMED
  {
    assert Names(CONNECTED) == ["", "", ""];
    assert PlayerByName(CONNECTED, "ann") == NULL;
  }

  lemma BobIsNamed()
    ensures Guard(ONE_NAMED, Naming(3, "bob")) && NewPlayer(ONE_NAMED, 3, "bob") == NAMED
  {
    assert Names(ONE_NAMED) == ["", "ann", ""];
    assert PlayerByName(ONE_NAMED, "bob") == NULL;
  }

  lemma BobIsAsked()
    ensures Guard(NAMED, Joining(2, "bob")) && JoinPlayer(NAMED, 2, "bob") == ASKED
  {
    assert Names(NAMED) == ["", "ann", "bob"];
    FirstFromIs(Names(NAMED), "bob", 0, 2);
    AskEffect(NAMED, 2, 3);
    assert Ask(NAMED, 2, 3).store == ASKED.store;
  }

  lemma BobAccepts()
    ensures Guard(ASKED, Accepting(3, 4)) && AcceptJoin(ASKED, 3, 4) == PLAYING
  {
    AcceptEffect(ASKED, 3, 2, 4);
    assert AcceptJoin(ASKED, 3, 4).store == PLAYING.store;
  }

  lemma AnnIsLost()
    requires Inv(PLAYING)
    ensures Guard(PLAYING, Dropping(12)) && Disconnect(PLAYING, 12) == EARLY_CONNECTION
  {
    SocketFinds(PLAYING, 2);
    var g, o := InGameFinds(PLAYING, 2);
    assert g == 4 && o == 3;
    hide EmptyBoard, Inv;
    DisconnectUnfolds(PLAYING, 2, 12, 4, 3);
    RemoveConnectionEffect(PLAYING, 2, 12);
    assert Disconnect(PLAYING, 12).store == EARLY_CONNECTION.store;
  }

  lemma AskedIsReached()
    ensures Reachable(ASKED)
  {
    ConnectedIsReached();
    AnnIsNamed();
    BobIsNamed();
    BobIsAsked();
    hide Guard, Reachable, NewPlayer, JoinPlayer;
    StepsOn(CONNECTED, Naming(2, "ann"));
    StepsOn(ONE_NAMED, Naming(3, "bob"));
    StepsOn(NAMED, Joining(2, "bob"));
  }

  lemma PlayingIsReached()
    ensures Reachable(PLAYING)
  {
    AskedIsReached();
    BobAccepts();
    hide Guard, Reachable, AcceptJoin;
    StepsOn(ASKED, Accepting(3, 4));
  }

  lemma EarlyConnectionIsReached()
    ensures Reachable(EARLY_CONNECTION)
  {
    PlayingIsReached();
    ReachableIsSound(PLAYING);
    hide Guard, Reachable, Disconnect, Inv;
    AnnIsLost();
    StepsOn(PLAYING, Dropping(12));
  }

  /** The server gets into a lobby in which a lost player coming back is the one who is erased, and the lobby is
      inconsistent from then on. */
  lemma NewcomerCanBeErased()
    ensures
      var s := EARLY_CONNECTION;
      && Reachable(s) && WantsSeat(s, 1, 2)
      && 1 !in Reconnect(s, 1, "ann").players && 2 in Reconnect(s, 1, "ann").players
      && !Inv(Reconnect(s, 1, "ann"))
  {
    var s := EARLY_CONNECTION;
    EarlyConnectionIsReached();
    ReachableIsSound(s);
    NameFinds(s, 2);
    hide Reachable, Inv, Reconnect;
    assert s.players[0] == 1 && s.players[1] == 2;
    NewcomerIsErased(s, 1, 2);
    ReconnectKeepsExactly(s, 1, "ann");
  }

  /** The server gets into a lobby with a player in limbo: Bob is gone before having answered Ann. */
  lemma LimboCanBeEntered()
    ensures
      var s := Disconnect(ASKED, 13);
      Reachable(s) && Limbo(s, 2)
  {
    AskedIsReached();
    ReachableIsSound(ASKED);
    SocketFinds(ASKED, 3);
    assert EntersLimbo(ASKED, Dropping(13), 2);
    LimboExactly(ASKED, Dropping(13), 2);
    hide Reachable, Disconnect, Limbo;
    StepsOn(ASKED, Dropping(13));
  }

  // ---------- a name with a separator in it ----------

  /** The second connection calls itself "a;b". */
  const TWO_IN_ONE := CONNECTED.(
    store := CONNECTED.store[2 := FreshRecord(12).(name := "a;b", nameSet := true, availible := true)],
    sent := [Sent(12, Ack)])

  lemma TwoInOneIsReached()
    ensures Reachable(TWO_IN_ONE)
  {
    ConnectedIsReached();
    assert Names(CONNECTED) == ["", "", ""];
    assert PlayerByName(CONNECTED, "a;b") == NULL;
    assert NewPlayer(CONNECTED, 2, "a;b") == TWO_IN_ONE;
    hide Reachable, NewPlayer;
    StepsOn(CONNECTED, Naming(2, "a;b"));
  }

  /** The server gets into a lobby in which a player who asks for the list gets one that reads as something else. */
  lemma ListCanMislead()
    ensures
      var s := TWO_IN_ONE;
      && Reachable(s) && Present(s, 3)
      && ListShown(s, 3) != ListedNames(s, |s.players|, At(s, 3).name)
  {
    var s := TWO_IN_ONE;
    TwoInOneIsReached();
    assert IsListed(At(s, s.players[1]), At(s, 3).name) && At(s, s.players[1]).name == "a;b";
    assert "a;b"[1] == SEPARATOR;
    hide Reachable;
    ListAnswerReadsBack(s, 3);
  }
}
