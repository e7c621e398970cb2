/** What each handler comes to in the end: which records it leaves changed, and how. */
module LobbyEffects {
  import opened Board
  import opened Players
  import opened Games
  import opened Text
  import opened Vectors
  import opened Lobby

  /** The records of `s'` are those of `s`, but for `p` having `r` and `o` having `t`. */
  ghost predicate Rewrites(s: State, s': State, p: Address, r: PlayerRecord, o: Address, t: PlayerRecord) {
    && (forall q :: q in s.store ==> q in s'.store)
    && (forall q {:trigger At(s', q)} :: At(s', q) == if q == p then r else if q == o then t else At(s, q))
  }

  /** Nothing but player records and replies differs. */
  predicate SameRegisters(s: State, s': State) {
    s' == s.(store := s'.store, sent := s'.sent)
  }

  lemma NamedEffect(s: State, p: Address, name: string)
    requires PlayerByName(s, name) == NULL
    ensures
      var s' := NewPlayer(s, p, name);
      var r := At(s, p).(name := name, nameSet := true, availible := true);
      && Rewrites(s, s', p, r, p, r) && SameRegisters(s, s')
      && s'.sent == s.sent + [Sent(At(s, p).socket, Ack)]
  {
  }

  /** The requester is acknowledged, not available, and waiting. */
  function Waits(s: State, p: Address, o: Address): State {
    SetJoining(SetAvailible(Send(s, p, Ack), p, false), p, o)
  }

  lemma WaitsEffect(s: State, p: Address, o: Address)
    ensures
      var s1 := Waits(s, p, o);
      var r := At(s, p).(availible := false, joining := o);
      Rewrites(s, s1, p, r, p, r) && SameRegisters(s, s1) && s1.sent == s.sent + [Sent(At(s, p).socket, Ack)]
  {
  }

  /** The opponent is told and has been asked. */
  function IsAsked(s: State, p: Address, o: Address): State {
    SetAskedBy(Send(s, o, JoinRequest(At(s, p).name)), o, p)
  }

  lemma IsAskedEffect(s: State, p: Address, o: Address)
    ensures
      var s2 := IsAsked(s, p, o);
      var r := At(s, o).(askedBy := p);
      && Rewrites(s, s2, o, r, o, r) && SameRegisters(s, s2)
      && s2.sent == s.sent + [Sent(At(s, o).socket, JoinRequest(At(s, p).name))]
  {
  }

  lemma AskEffect(s: State, p: Address, o: Address)
    requires p != o
    ensures
      var s' := Ask(s, p, o);
      && Rewrites(s, s', p, At(s, p).(availible := false, joining := o), o, At(s, o).(askedBy := p, availible := false))
      && SameRegisters(s, s')
      && s'.sent == s.sent + [Sent(At(s, p).socket, Ack), Sent(At(s, o).socket, JoinRequest(At(s, p).name))]
  {
    var s1 := Waits(s, p, o);
    var s2 := IsAsked(s1, p, o);
    assert Ask(s, p, o) == SetAvailible(SetAvailible(s2, p, false), o, false);
    hide Ask, Waits, IsAsked, SetAvailible, At;
    WaitsEffect(s, p, o);
    IsAskedEffect(s1, p, o);
    BothAvailible(s2, p, o, false);
    var first, second := Sent(At(s, p).socket, Ack), Sent(At(s, o).socket, JoinRequest(At(s, p).name));
    assert s.sent + [first] + [second] == s.sent + [first, second];
  }

  /** The asked player has answered and asks nobody. */
  function HasAnswered(s: State, p: Address): State {
    SetJoining(SetAskedBy(s, p, NULL), p, NULL)
  }

  lemma HasAnsweredEffect(s: State, p: Address)
    ensures
      var s1 := HasAnswered(s, p);
      var r := At(s, p).(askedBy := NULL, joining := NULL);
      Rewrites(s, s1, p, r, p, r) && SameRegisters(s, s1) && s1.sent == s.sent
  {
  }

  lemma BothAvailible(s: State, a: Address, o: Address, availible: bool)
    requires a != o
    ensures
      var s' := SetAvailible(SetAvailible(s, a, availible), o, availible);
      && Rewrites(s, s', a, At(s, a).(availible := availible), o, At(s, o).(availible := availible))
      && SameRegisters(s, s') && s'.sent == s.sent
  {
  }

  lemma DeclineEffect(s: State, p: Address, asking: Address)
    requires asking == At(s, p).askedBy && p != asking
    ensures
      var s' := DeclineJoin(s, p);
      var told := [Sent(At(s, asking).socket, NackReason("Oponent declined"))];
      && Rewrites(s, s', p, At(s, p).(askedBy := NULL, joining := NULL, availible := true),
                  asking, At(s, asking).(availible := true))
      && SameRegisters(s, s')
      && s'.sent == if At(s, asking).socketSet then s.sent + told else s.sent
  {
    var s1 := HasAnswered(s, p);
    HasAnsweredEffect(s, p);
    var s2 := if At(s1, asking).socketSet then Send(s1, asking, NackReason("Oponent declined")) else s1;
    forall q ensures At(s2, q) == At(s1, q) {}
    BothAvailible(s2, asking, p, true);
    assert DeclineJoin(s, p) == SetAvailible(SetAvailible(s2, asking, true), p, true);
    hide DeclineJoin, SetAvailible, HasAnswered, At;
  }

  /** The asker is gone: the asked player is left neither available nor in a game. */
  lemma AcceptGoneEffect(s: State, p: Address, asking: Address, game: Address)
    requires asking == At(s, p).askedBy && p != asking && At(s, asking).joining == NULL
    ensures
      var s' := AcceptJoin(s, p, game);
      && Rewrites(s, s', p, At(s, p).(askedBy := NULL, joining := NULL, availible := false),
                  asking, At(s, asking).(availible := false))
      && SameRegisters(s, s')
      && s'.sent == if At(s, p).socketSet then s.sent + [Sent(At(s, p).socket, NackReason("Player who asked is gone"))]
                    else s.sent
  {
    AcceptBegins(s, p, asking);
    var s0 := SetAvailible(SetAvailible(HasAnswered(s, p), asking, false), p, false);
    var s' := AcceptJoin(s, p, game);
    hide SetAvailible, HasAnswered;
    forall q ensures At(s', q) == At(s0, q) {}
  }

  lemma AcceptBegins(s: State, p: Address, asking: Address)
    requires p != asking
    ensures
      var s0 := SetAvailible(SetAvailible(HasAnswered(s, p), asking, false), p, false);
      && Rewrites(s, s0, p, At(s, p).(askedBy := NULL, joining := NULL, availible := false),
                  asking, At(s, asking).(availible := false))
      && SameRegisters(s, s0) && s0.sent == s.sent
  {
    HasAnsweredEffect(s, p);
    BothAvailible(HasAnswered(s, p), asking, p, false);
    hide SetAvailible, HasAnswered, At;
  }

  /** A game starts: both players are in it, the asker opens, and each is told who begins and who the opponent is. */
  lemma AcceptEffect(s: State, p: Address, asking: Address, game: Address)
    requires asking == At(s, p).askedBy && p != asking && At(s, asking).joining != NULL
    ensures
      var s' := AcceptJoin(s, p, game);
      && Rewrites(s, s', p, At(s, p).(askedBy := NULL, joining := NULL, availible := false, inGame := true),
                  asking, At(s, asking).(availible := false, inGame := true))
      && s' == s.(store := s'.store, sent := s'.sent, records := s'.records,
                  games := s.games + [game], maxGameId := s.maxGameId + 1)
      && s'.records == s.records[game := GameRecord(s.maxGameId, asking, p, asking, EmptyBoard())]
      && s'.sent == s.sent + [Sent(At(s, asking).socket, GameStart(At(s, asking).name, At(s, p).name)),
                              Sent(At(s, p).socket, GameStart(At(s, asking).name, At(s, asking).name))]
  {
    AcceptBegins(s, p, asking);
    var s0 := SetAvailible(SetAvailible(HasAnswered(s, p), asking, false), p, false);
    assert AcceptJoin(s, p, game) == StartGame(s0, asking, p, game);
    hide AcceptJoin, StartGame, SetAvailible, HasAnswered;
    StartGameEffect(s0, asking, p, game);
  }

  lemma StartGameEffect(s: State, asking: Address, asked: Address, game: Address)
    requires asking != asked
    ensures
      var s' := StartGame(s, asking, asked, game);
      && Rewrites(s, s', asked, At(s, asked).(inGame := true), asking, At(s, asking).(inGame := true))
      && s' == s.(store := s'.store, sent := s'.sent, records := s'.records,
                  games := s.games + [game], maxGameId := s.maxGameId + 1)
      && s'.records == s.records[game := GameRecord(s.maxGameId, asking, asked, asking, EmptyBoard())]
      && s'.sent == s.sent + [Sent(At(s, asking).socket, GameStart(At(s, asking).name, At(s, asked).name)),
                              Sent(At(s, asked).socket, GameStart(At(s, asking).name, At(s, asking).name))]
  {
    var first := Sent(At(s, asking).socket, GameStart(At(s, asking).name, At(s, asked).name));
    var second := Sent(At(s, asked).socket, GameStart(At(s, asking).name, At(s, asking).name));
    assert s.sent + [first] + [second] == s.sent + [first, second];
    var r := GameRecord(s.maxGameId, asking, asked, NULL, EmptyBoard());
    assert s.records[game := r][game := r.(onTurn := asking)] == s.records[game := r.(onTurn := asking)];
  }

  function Released(r: PlayerRecord): PlayerRecord {
    r.(inGame := false, availible := true)
  }

  /** The winning move: both are told, both are released, and the game's record is the erased one. */
  lemma WinEffect(s: State, g: Address, p: Address, o: Address, won: Reply)
    requires p != o
    ensures
      var s' := Win(s, g, p, o, won);
      && Rewrites(s, s', p, Released(At(s, p)), o, Released(At(s, o)))
      && s' == s.(store := s'.store, sent := s'.sent, games := DeleteGame(s, g).games)
      && s'.sent == s.sent + [Sent(At(s, p).socket, won), Sent(At(s, o).socket, won)]
  {
    assert s.sent + [Sent(At(s, p).socket, won)] + [Sent(At(s, o).socket, won)]
        == s.sent + [Sent(At(s, p).socket, won), Sent(At(s, o).socket, won)];
    var s1 := Send(Send(s, p, won), o, won);
    var s2 := SetAvailible(SetAvailible(SetInGame(SetInGame(s1, p, false), o, false), p, true), o, true);
    assert Ids(s2) == Ids(s);
  }

  lemma LeaveBothEffect(s: State, p: Address, o: Address)
    requires p != o
    ensures
      var s' := LeaveBoth(s, p, o);
      && Rewrites(s, s', p, Released(At(s, p)), o, Released(At(s, o))) && SameRegisters(s, s')
      && s'.sent == s.sent + [Sent(At(s, o).socket, GameEnded)]
  {
  }

  lemma LeaveLostEffect(s: State, p: Address, o: Address)
    ensures
      var s' := LeaveLost(s, p, o);
      && Rewrites(s, s', p, Released(At(s, p)), p, Released(At(s, p)))
      && s' == s.(store := s'.store, players := DeletePlayer(s, o).players)
  {
  }

  /** Leaving a game: the opponent is told, or gone with the game if lost. */
  lemma EndGameUnfolds(s: State, p: Address, g: Address, o: Address)
    requires g == GameByName(s, At(s, p).name) && o == Opponent(s, g, At(s, p).name)
    ensures EndGame(s, p) == DeleteGame(if At(s, o).lost then LeaveLost(s, p, o) else LeaveBoth(s, p, o), g)
  {
  }

  lemma RemoveConnectionEffect(s: State, p: Address, socket: int)
    requires p != NULL && p == PlayerBySocket(s, socket)
    ensures
      var s' := RemoveConnection(s, socket);
      var r := At(s, p).(socket := NO_SOCKET, socketSet := false);
      && (At(s, p).inGame ==> SameRegisters(s, s') && s'.sent == s.sent && Rewrites(s, s', p, r, p, r))
      && (!At(s, p).inGame ==>
            var left := r.(joining := NULL);
            && Rewrites(s, s', p, left, p, left)
            && s' == s.(store := s'.store,
                        players := EraseAt(s.players, FirstIndex(Sockets(s), (true, socket)))))
  {
  }

  lemma CloseGameEffect(s: State, g: Address, p: Address, o: Address)
    requires p != o
    ensures
      var s' := CloseGame(s, g, p, o);
      && Rewrites(s, s', p, At(s, p).(inGame := false), o, At(s, o).(inGame := false))
      && s' == s.(store := s'.store, games := DeleteGame(s, g).games)
  {
  }

  function Returned(r: PlayerRecord, name: string): PlayerRecord {
    r.(name := name, nameSet := true, availible := false, inGame := true)
  }

  /** A game in which `p` has the seat of the player of this name. */
  function Reseated(s: State, g: Address, name: string, p: Address): GameRecord {
    if At(s, GameAt(s, g).p1).name == name then GameAt(s, g).(p1 := p) else GameAt(s, g).(p2 := p)
  }

  lemma RenameEffect(s: State, p: Address, name: string)
    ensures
      var s' := Rename(s, p, name);
      var r := Returned(At(s, p), name);
      Rewrites(s, s', p, r, p, r) && SameRegisters(s, s') && s'.sent == s.sent
  {
  }

  lemma RenameKeepsGames(s: State, p: Address, name: string)
    requires forall h :: h in s.games ==> GameAt(s, h).p1 != p && GameAt(s, h).p2 != p
    ensures NamePairs(Rename(s, p, name)) == NamePairs(s)
  {
    RenameEffect(s, p, name);
  }

  lemma ReseatEffect(s: State, g: Address, name: string, p: Address)
    ensures Reseat(s, g, name, p) == PutGame(s, g, Reseated(s, g, name, p))
  {
  }

  /** The seat taken by a player of the same name: nobody's name in any game has changed. */
  lemma ReseatKeepsPairs(s: State, p: Address, name: string, g: Address)
    requires At(s, p).name == name
    requires At(s, GameAt(s, g).p1).name == name || At(s, GameAt(s, g).p2).name == name
    ensures NamePairs(Reseat(s, g, name, p)) == NamePairs(s)
  {
  }

  lemma TellBothEffect(s: State, g: Address, p: Address, o: Address)
    ensures TellBoth(s, g, p, o) == s.(
      sent := s.sent + [Sent(At(s, p).socket, Continues(s, g, o)), Sent(At(s, o).socket, Continues(s, g, p))])
  {
    var first := Sent(At(s, p).socket, Continues(s, g, o));
    var second := Sent(At(s, o).socket, Continues(s, g, p));
    assert s.sent + [first] + [second] == s.sent + [first, second];
  }

  /** The reply says whose turn it is, who the opponent is, and how the board stands, so that it can be rebuilt. */
  ghost predicate Tells(reply: Reply, turn: string, opponent: string, board: Board) {
    && reply.GameContinues? && reply.onTurn == turn && reply.opponent == opponent
    && (board.Keys == AllCells() ==>
          |Split(reply.board)| == SIZE * SIZE && BoardFromTexts(Split(reply.board)) == board)
  }

  lemma ContinuesTells(s: State, g: Address, o: Address)
    ensures Tells(Continues(s, g, o), At(s, GameAt(s, g).onTurn).name, At(s, o).name, GameAt(s, g).board)
  {
    var board := GameAt(s, g).board;
    if board.Keys == AllCells() { BoardTextReadsBack(board, BoardText(board)); }
  }

  /** The replies after the first `n` tell player `p` and then opponent `o` where game `g` stands. */
  ghost predicate ToldBoth(s: State, g: Address, p: Address, o: Address, sent: seq<Sent>, n: nat) {
    var turn := At(s, GameAt(s, g).onTurn).name;
    && |sent| == n + 2
    && Tells(sent[n].reply, turn, At(s, o).name, GameAt(s, g).board)
    && Tells(sent[n + 1].reply, turn, At(s, p).name, GameAt(s, g).board)
    && sent[n + 1].socket == At(s, o).socket
  }

  /** Taking a seat is taking the name, the seat, and telling both players. */
  lemma GiveSeatUnfolds(s: State, p: Address, name: string, g: Address, o: Address)
    requires forall h :: h in s.games ==> GameAt(s, h).p1 != p && GameAt(s, h).p2 != p
    requires g == GameByName(s, name) && g in s.games && o == Opponent(s, g, name)
    requires At(s, GameAt(s, g).p1).name == name || At(s, GameAt(s, g).p2).name == name
    requires At(s, o).name != name
    ensures
      var s2 := PutGame(Rename(s, p, name), g, Reseated(s, g, name, p));
      GiveSeat(s, p, name) == TellBoth(s2, g, p, o)
  {
    var s1 := Rename(s, p, name);
    RenameEffect(s, p, name);
    RenameKeepsGames(s, p, name);
    ReseatKeepsPairs(s1, p, name, g);
    ReseatEffect(s1, g, name, p);
  }

  /** Where a game stands has not changed by `p` taking the seat of `l` in it. */
  lemma StandsAsBefore(s: State, p: Address, l: Address, g: Address, o: Address, s2: State)
    requires s2 == PutGame(Rename(s, p, At(s, l).name), g, Reseated(s, g, At(s, l).name, p))
    requires o != p && GameAt(s, g).onTurn != p
    ensures Continues(s2, g, o) == Continues(s, g, o) && Continues(s2, g, p) == Continues(s, g, l)
  {
    hide BoardText;
    RenameEffect(s, p, At(s, l).name);
    assert GameAt(s2, g) == Reseated(s, g, At(s, l).name, p);
  }

  /** Both players are told where the game stands, as it stood before. */
  lemma GiveSeatEffect(s: State, p: Address, l: Address, g: Address, o: Address)
    requires var name := At(s, l).name;
             GiveSeat(s, p, name) == TellBoth(PutGame(Rename(s, p, name), g, Reseated(s, g, name, p)), g, p, o)
    requires o != p && GameAt(s, g).onTurn != p
    ensures
      var name := At(s, l).name;
      var s' := GiveSeat(s, p, name);
      var r := Returned(At(s, p), name);
      && Rewrites(s, s', p, r, p, r)
      && s' == s.(store := s'.store, sent := s'.sent, records := s.records[g := Reseated(s, g, name, p)])
      && s'.sent == s.sent + [Sent(At(s, p).socket, Continues(s, g, o)), Sent(At(s, o).socket, Continues(s, g, l))]
      && ToldBoth(s, g, l, o, s'.sent, |s.sent|)
  {
    hide GiveSeat, TellBoth, Rename, Reseated, Continues, Tells;
    ContinuesTells(s, g, o);
    ContinuesTells(s, g, l);
    var s2 := PutGame(Rename(s, p, At(s, l).name), g, Reseated(s, g, At(s, l).name, p));
    RenameEffect(s, p, At(s, l).name);
    StandsAsBefore(s, p, l, g, o, s2);
    TellBothEffect(s2, g, p, o);
    forall q ensures At(GiveSeat(s, p, At(s, l).name), q) == At(s2, q) == At(Rename(s, p, At(s, l).name), q) {}
  }
}
