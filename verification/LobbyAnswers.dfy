/** What each request is answered, and when: acceptance, refusal, and everything that then stays as it was. */
module LobbyAnswers {
  import opened Players
  import opened Vectors
  import opened Text
  import opened Lobby
  import opened LobbyEffects
  import opened LobbyInvariant
  import opened LobbySteps
  import opened LobbyRuns

  /** Nothing happens but one reply to `p`. */
  predicate OnlyAnswers(s: State, s': State, p: Address, reply: Reply) {
    s' == s.(sent := s.sent + [Sent(At(s, p).socket, reply)])
  }

  /** A new connection is in the register after all others, with its socket, and nothing else is known of it. */
  lemma ConnectionIsFresh(s: State, p: Address, socket: int)
    ensures
      var s' := Connect(s, p, socket);
      var r := At(s', p);
      && s'.players == s.players + [p] && s' == s.(players := s'.players, store := s'.store)
      && (forall q :: q != p ==> At(s', q) == At(s, q))
      && r.name == "" && !r.nameSet && r.socket == socket && r.socketSet && !r.inGame && !r.availible
      && r.joining == NULL && r.askedBy == NULL && !r.lost && r.bullshit == 0
  {
  }

  // ---------- naming ----------

  ghost predicate NameIsTaken(s: State, name: string) {
    exists q :: q in s.players && At(s, q).name == name
  }

  /** A name in use is refused, with the reason, and nothing changes. */
  lemma UsedNameIsRefused(s: State, p: Address, name: string)
    requires PlayerByName(s, name) != NULL
    ensures OnlyAnswers(s, NewPlayer(s, p, name), p, NackReason("Username already in use!"))
  {
  }

  /** A naming is acknowledged exactly when no registered player has the name, and refused otherwise. */
  lemma NamingIsAcknowledgedIfFree(s: State, p: Address, name: string)
    requires Inv(s)
    ensures
      var s' := NewPlayer(s, p, name);
      var named := At(s, p).(name := name, nameSet := true, availible := true);
      && |s'.sent| == |s.sent| + 1 && s.sent <= s'.sent && s'.sent[|s.sent|].socket == At(s, p).socket
      && (s'.sent[|s.sent|].reply == Ack <==> !NameIsTaken(s, name))
      && (s'.sent[|s.sent|].reply == NackReason("Username already in use!") <==> NameIsTaken(s, name))
      && (NameIsTaken(s, name) ==> s' == s.(sent := s'.sent))
      && (!NameIsTaken(s, name) ==> SameRegisters(s, s') && Rewrites(s, s', p, named, p, named))
  {
    hide PlayerByName, Rewrites;
    PlayersAreOk(s);
    NameIsFree(s, name);
    if PlayerByName(s, name) == NULL {
      NamedEffect(s, p, name);
    } else {
      UsedNameIsRefused(s, p, name);
    }
  }

  // ---------- joining ----------

  ghost predicate IsAvailible(s: State, q: Address, name: string) {
    q in s.players && At(s, q).name == name && At(s, q).availible
  }

  /** A join request is acknowledged, and the player of the name asked, exactly when a registered player of that name
      is available; otherwise it is refused and nothing changes. */
  lemma JoiningIsAcknowledgedIfAvailible(s: State, p: Address, name: string)
    requires Inv(s) && Guard(s, Joining(p, name))
    ensures
      var s' := JoinPlayer(s, p, name);
      && ((exists q :: IsAvailible(s, q, name)) <==> s' != s.(sent := s'.sent))
      && (!(exists q :: IsAvailible(s, q, name)) ==> OnlyAnswers(s, s', p, Nack))
      && forall q :: IsAvailible(s, q, name) ==>
           && At(s', q) == At(s, q).(askedBy := p, availible := false)
           && At(s', p) == At(s, p).(joining := q, availible := false)
           && s'.sent == s.sent + [Sent(At(s, p).socket, Ack), Sent(At(s, q).socket, JoinRequest(At(s, p).name))]
  {
    var o := PlayerByName(s, name);
    var s' := JoinPlayer(s, p, name);
    PlayersAreOk(s);
    PlayerByNameIsRegistered(s, name);
    forall q | IsAvailible(s, q, name) ensures q == o != NULL && q != p && Joinable(At(s, q)) {
      assert StandingOk(At(s, q));
      NameFinds(s, q);
    }
    hide Inv, PlayerByName, Ask, Guard;
    if o != NULL && Joinable(At(s, o)) {
      AskEffect(s, p, o);
      assert IsAvailible(s, o, name);
      assert At(s', o).askedBy == p;
      AskedDiffers(s, s', p, o);
    }
  }

  lemma AskedDiffers(s: State, s': State, p: Address, o: Address)
    requires At(s, o).availible && !At(s', o).availible
    ensures s' != s.(sent := s'.sent)
  {
  }

  // ---------- coming back ----------

  ghost predicate IsLostOne(s: State, q: Address, name: string) {
    q in s.players && At(s, q).name == name && At(s, q).lost
  }

  /** Coming back under a name no lost player has is refused, and nothing changes. */
  lemma ReturnIsRefusedUnlessLost(s: State, p: Address, name: string)
    requires Inv(s) && forall q :: !IsLostOne(s, q, name)
    ensures OnlyAnswers(s, Reconnect(s, p, name), p, Nack)
  {
    hide GiveSeat, DeletePlayer;
    PlayersAreOk(s);
    PlayerByNameIsRegistered(s, name);
    assert !IsLostOne(s, PlayerByName(s, name), name);
  }

  /** And under the name of a lost player it is that player's seat that is asked for. */
  lemma LostOneIsFound(s: State, q: Address, name: string)
    requires Inv(s) && IsLostOne(s, q, name)
    ensures MayTakeOver(s, name) && PlayerByName(s, name) == q
  {
    assert StandingOk(At(s, q)) && q != NULL;
    NameFinds(s, q);
  }

  // ---------- leaving ----------

  /** A connection lost out of any game: that player and no other leaves the register, forgetting whom they asked;
      nobody else is touched and nobody is told. */
  lemma LeavingIsHandled(s: State, p: Address)
    requires Inv(s) && Present(s, p) && !At(s, p).inGame
    ensures
      var s' := Disconnect(s, At(s, p).socket);
      && (forall q :: q in s'.players <==> q in s.players && q != p)
      && (forall q :: q != p ==> At(s', q) == At(s, q))
      && At(s', p) == At(s, p).(socket := -1, socketSet := false, joining := NULL)
      && s' == s.(players := s'.players, store := s'.store)
  {
    var socket := At(s, p).socket;
    PlayersAreOk(s);
    SocketFinds(s, p);
    assert p != NULL;
    RemoveConnectionEffect(s, p, socket);
    EraseKeepsOthers(s.players, FirstIndex(Sockets(s), (true, socket)));
    SocketIsRegistered(s, socket);
  }

  // ---------- unreadable packets ----------

  /** Nine unreadable packets are only counted; the tenth costs the connection. */
  lemma TenthPacketDisconnects(s: State, p: Address)
    requires Inv(s) && Present(s, p)
    ensures
      var s' := Garbage(s, At(s, p).socket);
      var counted := s.(store := s.store[p := At(s, p).(bullshit := At(s, p).bullshit + 1)]);
      && (At(s, p).bullshit + 1 < 10 ==> s' == counted && p in s'.players && At(s', p).socketSet)
      && (At(s, p).bullshit + 1 >= 10 ==>
            s' == Disconnect(counted, At(s, p).socket) && !(p in s'.players && At(s', p).socketSet))
  {
    var s1 := CountGarbage(s, p);
    PlayersAreOk(s);
    SocketFinds(s, p);
    CountingKeeps(s, p);
    assert p != NULL && At(s1, p) == At(s, p).(bullshit := At(s, p).bullshit + 1);
    hide Inv, PlayerBySocket, Disconnect;
    if At(s, p).bullshit + 1 >= 10 { DisconnectedIsGone(s1, p); }
  }

  lemma DisconnectedIsGone(s: State, p: Address)
    requires Inv(s) && Present(s, p)
    ensures var s' := Disconnect(s, At(s, p).socket);
            !(p in s'.players && At(s', p).socketSet)
  {
    hide Disconnect;
    if At(s, p).inGame {
      PlayersAreOk(s);
      assert StandingOk(At(s, p));
      SocketFinds(s, p);
      var g, o := LossIsHandled(s, p, At(s, p).socket);
    } else {
      LeavingIsHandled(s, p);
    }
  }

  /** A packet nobody is connected for changes nothing. */
  lemma StrayPacketIsIgnored(s: State, socket: int)
    requires forall q :: q in s.players && At(s, q).socketSet ==> At(s, q).socket != socket
    ensures Garbage(s, socket) == s
  {
    SocketIsRegistered(s, socket);
  }

  // ---------- the list ----------

  /** The register places of the players listed for a requester. */
  function ListedPlaces(s: State, n: nat, own: string): (places: seq<nat>)
    requires n <= |s.players|
    ensures forall k :: 0 <= k < |places| ==> places[k] < n
  {
    if n == 0 then []
    else
      var before := ListedPlaces(s, n - 1, own);
      if IsListed(At(s, s.players[n - 1]), own) then before + [n - 1] else before
  }

  /** In no game, available, connected, named, and not the requester. */
  predicate CanBeShown(r: PlayerRecord, own: string) {
    !r.inGame && r.availible && r.socketSet && r.nameSet && r.name != own
  }

  predicate Ascends(places: seq<nat>) {
    forall k, l :: 0 <= k < l < |places| ==> places[k] < places[l]
  }

  lemma OneMorePlace(places: seq<nat>, n: nat)
    requires Ascends(places) && forall k :: 0 <= k < |places| ==> places[k] < n
    ensures Ascends(places + [n]) && forall m :: m in places + [n] <==> m in places || m == n
  {
  }

  /** These are exactly the places of players who can be shown, in ascending order. */
  lemma {:induction false} ListedPlacesAscend(s: State, n: nat, own: string)
    requires n <= |s.players|
    ensures Ascends(ListedPlaces(s, n, own))
    ensures forall m :: m in ListedPlaces(s, n, own) <==> 0 <= m < n && CanBeShown(At(s, s.players[m]), own)
  {
    hide At, Ascends;
    if n > 0 {
      ListedPlacesAscend(s, n - 1, own);
      assert IsListed(At(s, s.players[n - 1]), own) <==> CanBeShown(At(s, s.players[n - 1]), own);
      hide IsListed, CanBeShown;
      OneMorePlace(ListedPlaces(s, n - 1, own), n - 1);
    } else {
      NoPlaceAscends();
    }
  }

  lemma NoPlaceAscends()
    ensures Ascends([])
  {
  }

  /** The list has the names of the players at these places, in that order. */
  lemma {:induction false} ListedInOrder(s: State, n: nat, own: string)
    requires n <= |s.players|
    ensures
      var places := ListedPlaces(s, n, own);
      && |ListedNames(s, n, own)| == |places|
      && forall k :: 0 <= k < |places| ==> ListedNames(s, n, own)[k] == At(s, s.players[places[k]]).name
  {
    hide At, IsListed;
    if n > 0 { ListedInOrder(s, n - 1, own); }
  }

  /** The answer has their number, and their names with ';' between them; it goes to the requester, and nothing else
      happens. */
  lemma ListIsAnswered(s: State, p: Address)
    ensures
      var names := ListedNames(s, |s.players|, At(s, p).name);
      var places := ListedPlaces(s, |s.players|, At(s, p).name);
      OnlyAnswers(s, ListRequest(s, p), p, PlayerList(|places|, Join(names)))
  {
    hide ListedNames;
    ListedInOrder(s, |s.players|, At(s, p).name);
  }
}
