/** What every reachable lobby keeps, and the lookups that rest on it. */
module LobbyInvariant {
  import opened Players
  import opened Vectors
  import opened Lobby

  ghost predicate Plays(s: State, g: Address, p: Address) {
    GameAt(s, g).p1 == p || GameAt(s, g).p2 == p
  }

  /** The flags of one player agree with each other. */
  ghost predicate StandingOk(r: PlayerRecord) {
    && (r.nameSet <==> r.name != "")
    && (!r.nameSet ==> !r.availible && !r.inGame && r.askedBy == NULL)
    && (r.availible ==> !r.inGame && r.askedBy == NULL)
    && (r.inGame ==> r.askedBy == NULL)
    && (r.lost ==> r.inGame)
    && (r.lost <==> !r.socketSet)
  }

  ghost predicate SameSocket(r: PlayerRecord, t: PlayerRecord) {
    r.socketSet && t.socketSet && r.socket == t.socket
  }

  ghost predicate UniqueNames(s: State) {
    forall p, q :: p in s.players && q in s.players && At(s, p).name == At(s, q).name != "" ==> p == q
  }

  /** Players are registered once; names and sockets tell them apart. */
  ghost predicate PlayersOk(s: State) {
    && NoRepeats(s.players)
    && (forall p :: p in s.players ==> p in s.store && p != NULL && StandingOk(At(s, p)))
    && UniqueNames(s)
    && (forall p, q :: p in s.players && q in s.players && SameSocket(At(s, p), At(s, q)) ==> p == q)
  }

  /** A player who has been asked waits out of any game, and so does the one who asked, who asked nobody else.
      An asker who has left the register has no connection and has forgotten whom they asked. */
  ghost predicate PendingOk(s: State, p: Address) {
    var asking := At(s, p).askedBy;
    asking != NULL ==>
      && asking != p && asking in s.store
      && if asking in s.players then
           && At(s, asking).name != "" && !At(s, asking).availible && !At(s, asking).inGame
           && At(s, asking).askedBy == NULL && At(s, asking).joining == p
         else At(s, asking).joining == NULL && !At(s, asking).socketSet
  }

  ghost predicate JoinsOk(s: State) {
    && (forall p {:trigger PendingOk(s, p)} :: p in s.players ==> PendingOk(s, p))
    && (forall p, q :: p in s.players && q in s.players && At(s, p).askedBy == At(s, q).askedBy != NULL ==> p == q)
  }

  ghost predicate GameOk(s: State, g: Address) {
    var r := GameAt(s, g);
    && g in s.records && g != NULL
    && r.p1 != r.p2
    && r.p1 in s.players && At(s, r.p1).inGame
    && r.p2 in s.players && At(s, r.p2).inGame
    && !(At(s, r.p1).lost && At(s, r.p2).lost)
    && r.onTurn != NULL
    && (At(s, r.onTurn).name == At(s, r.p1).name || At(s, r.onTurn).name == At(s, r.p2).name)
    && 0 <= r.id < s.maxGameId
  }

  /** The register of games: sound games, told apart by their ids, no player in two of them. */
  ghost predicate GamesOk(s: State) {
    && 0 <= s.maxGameId
    && NoRepeats(s.games)
    && (forall g {:trigger GameOk(s, g)} :: g in s.games ==> GameOk(s, g))
    && (forall g, h :: g in s.games && h in s.games && GameAt(s, g).id == GameAt(s, h).id ==> g == h)
    && OneGameEach(s)
  }

  ghost predicate OneGameEach(s: State) {
    forall g, h, p :: g in s.games && h in s.games && Plays(s, g, p) && Plays(s, h, p) ==> g == h
  }

  ghost predicate InSomeGame(s: State, p: Address) {
    exists g :: g in s.games && Plays(s, g, p)
  }

  ghost predicate Inv(s: State) {
    && PlayersOk(s)
    && JoinsOk(s)
    && GamesOk(s)
    && (forall p {:trigger InSomeGame(s, p)} :: p in s.players && At(s, p).inGame ==> InSomeGame(s, p))
  }

  // ---------- lookups ----------

  lemma EraseKeepsOthers<T>(s: seq<T>, k: nat)
    requires k < |s| && NoRepeats(s)
    ensures NoRepeats(EraseAt(s, k))
    ensures forall x :: x in EraseAt(s, k) <==> x in s && x != s[k]
  {
    var e := EraseAt(s, k);
    forall x | x in s && x != s[k] ensures x in e {
      var l :| 0 <= l < |s| && s[l] == x;
      assert x == if l < k then e[l] else e[l - 1];
    }
  }

  /** A name finds the very player who bears it. */
  lemma NameFinds(s: State, p: Address)
    requires UniqueNames(s) && p in s.players && At(s, p).name != ""
    ensures PlayerByName(s, At(s, p).name) == p
    ensures FirstIndex(Names(s), At(s, p).name) < |s.players|
  {
    var k :| 0 <= k < |s.players| && s.players[k] == p;
    assert Names(s)[k] == At(s, p).name;
  }

  lemma SocketFinds(s: State, p: Address)
    requires PlayersOk(s) && p in s.players && At(s, p).socketSet
    ensures PlayerBySocket(s, At(s, p).socket) == p
    ensures FirstIndex(Sockets(s), (true, At(s, p).socket)) < |s.players|
  {
    var k :| 0 <= k < |s.players| && s.players[k] == p;
    assert Sockets(s)[k] == (true, At(s, p).socket);
  }

  lemma SocketIsRegistered(s: State, socket: int)
    ensures var p := PlayerBySocket(s, socket);
            p != NULL ==> p in s.players && At(s, p).socketSet && At(s, p).socket == socket
  {
    var k := FirstIndex(Sockets(s), (true, socket));
    if k < |s.players| {
      assert Sockets(s)[k] == (At(s, s.players[k]).socketSet, At(s, s.players[k]).socket);
    }
  }

  /** Erasing by name erases exactly that player. */
  lemma DeletesThatPlayer(s: State, p: Address)
    requires NoRepeats(s.players) && UniqueNames(s) && p in s.players && At(s, p).name != ""
    ensures var s' := DeletePlayer(s, p);
            && s' == s.(players := s'.players)
            && NoRepeats(s'.players)
            && forall q :: q in s'.players <==> q in s.players && q != p
  {
    NameFinds(s, p);
    EraseKeepsOthers(s.players, FirstIndex(Names(s), At(s, p).name));
  }

  lemma DeletesThatGame(s: State, g: Address)
    requires NoRepeats(s.games) && g in s.games
    requires forall h :: h in s.games && GameAt(s, h).id == GameAt(s, g).id ==> h == g
    ensures var s' := DeleteGame(s, g);
            && s' == s.(games := s'.games)
            && NoRepeats(s'.games)
            && forall h :: h in s'.games <==> h in s.games && h != g
  {
    var k :| 0 <= k < |s.games| && s.games[k] == g;
    assert Ids(s)[k] == GameAt(s, g).id;
    var f := FirstIndex(Ids(s), GameAt(s, g).id);
    assert f < |s.games|;
    assert s.games[f] == g by { assert s.games[f] in s.games && Ids(s)[f] == GameAt(s, s.games[f]).id; }
    EraseKeepsOthers(s.games, f);
  }

  /** As much of the invariant as finding games by name needs. */
  ghost predicate GamesFindable(s: State) {
    && UniqueNames(s)
    && (forall g :: g in s.games ==>
          && GameAt(s, g).p1 in s.players && At(s, GameAt(s, g).p1).name != ""
          && GameAt(s, g).p2 in s.players && At(s, GameAt(s, g).p2).name != ""
          && GameAt(s, g).p1 != GameAt(s, g).p2)
    && OneGameEach(s)
  }

  /** The name of a player in a game finds that game, and in it the other player. */
  lemma NameFindsGame(s: State, g: Address, p: Address)
    requires GamesFindable(s) && g in s.games && Plays(s, g, p)
    ensures GameByName(s, At(s, p).name) == g
    ensures Opponent(s, g, At(s, p).name) == if GameAt(s, g).p1 == p then GameAt(s, g).p2 else GameAt(s, g).p1
  {
    var k :| 0 <= k < |s.games| && s.games[k] == g;
    var pairs := NamePairs(s);
    var name := At(s, p).name;
    assert pairs[k].0 == name || pairs[k].1 == name;
    var l := LastWith(pairs, name);
    var h := s.games[l];
    assert h in s.games;
    assert Plays(s, h, p);
  }

  lemma InvFindsGames(s: State)
    requires Inv(s)
    ensures GamesFindable(s)
  {
    assert forall g :: g in s.games ==> GameOk(s, g);
  }

  lemma PlayersAreOk(s: State)
    requires Inv(s)
    ensures PlayersOk(s)
  {
  }

  /** An id finds one game only. */
  lemma IdsAreUnique(s: State, g: Address)
    requires Inv(s) && g in s.games
    ensures NoRepeats(s.games) && forall h :: h in s.games && GameAt(s, h).id == GameAt(s, g).id ==> h == g
  {
    hide PlayersOk, JoinsOk, GameOk, OneGameEach;
  }
}
