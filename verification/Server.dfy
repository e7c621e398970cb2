/** The register of connected players. */
module Servers {
  import opened Players
  import opened Vectors

  function NamesOf(players: seq<Player>): (names: seq<string>)
    reads players
    ensures |names| == |players|
  {
    seq(|players|, k requires 0 <= k < |players| reads players => players[k].name)
  }

  function SocketsOf(players: seq<Player>): (sockets: seq<(bool, int)>)
    reads players
    ensures |sockets| == |players|
  {
    seq(|players|, k requires 0 <= k < |players| reads players => (players[k].socketSet, players[k].socket))
  }

  class Server {
    var players: seq<Player>

    constructor ()
      ensures players == []
    {
      players := [];
    }

    /** The first registered player of this name. */
    method GetPlayerByName(name: string) returns (p: Player?)
      ensures p == var k := FirstIndex(NamesOf(players), name); if k < |players| then players[k] else null
    {
      ghost var names := NamesOf(players);
      var k := 0;
      while k < |players|
        invariant 0 <= k <= |players|
        invariant forall l :: 0 <= l < k ==> names[l] != name
      {
        if players[k].name == name {
          FirstFromIs(names, name, 0, k);
          return players[k];
        }
        k := k + 1;
      }
      FirstFromIs(names, name, 0, k);
      return null;
    }

    /** The first registered player connected on this socket. */
    method GetPlayerBySocket(socket: int) returns (p: Player?)
      ensures p == var k := FirstIndex(SocketsOf(players), (true, socket)); if k < |players| then players[k] else null
    {
      ghost var sockets := SocketsOf(players);
      var k := 0;
      while k < |players|
        invariant 0 <= k <= |players|
        invariant forall l :: 0 <= l < k ==> sockets[l] != (true, socket)
      {
        if players[k].socketSet && players[k].socket == socket {
          FirstFromIs(sockets, (true, socket), 0, k);
          return players[k];
        }
        k := k + 1;
      }
      FirstFromIs(sockets, (true, socket), 0, k);
      return null;
    }

    /** Erases the first registered player with the name of `p`. */
    method DeletePlayer(p: Player)
      requires players != []
      modifies this`players
      ensures players == EraseAt(old(players), StopIndex(old(NamesOf(players)), p.name))
    {
      ghost var names := NamesOf(players);
      var index := -1;
      var k := 0;
      while k < |players|
        invariant 0 <= k <= |players| && index == k - 1
        invariant forall l :: 0 <= l < k ==> names[l] != p.name
      {
        index := index + 1;
        if players[k].name == p.name {
          break;
        }
        k := k + 1;
      }
      FirstFromIs(names, p.name, 0, k);
      players := players[..index] + players[index + 1..];
    }

    /** Finds who was connected on a socket that has gone. Out of a game the player is erased and forgets whom they
        asked; in a game only the connection is gone, and the caller has a lost player to deal with. */
    method ProceedPlayerDisconnection(socket: int, ghost who: Player) returns (pl: Player)
      requires FirstIndex(SocketsOf(players), (true, socket)) < |players|
      requires who == players[FirstIndex(SocketsOf(players), (true, socket))]
      modifies this`players, who`socket, who`socketSet, who`joiningPlayer
      ensures pl == who
      ensures players ==
        if old(who.inGame) then old(players)
        else EraseAt(old(players), FirstIndex(old(SocketsOf(players)), (true, socket)))
      ensures who.joiningPlayer == if old(who.inGame) then old(who.joiningPlayer) else null
      ensures who.socket == NO_SOCKET && !who.socketSet
    {
      ghost var sockets := SocketsOf(players);
      pl := players[0];
      var index := -1;
      var k := 0;
      while k < |players|
        invariant 0 <= k <= FirstIndex(sockets, (true, socket)) && index == k - 1
      {
        index := index + 1;
        if players[k].socketSet && players[k].socket == socket {
          assert sockets[k] == (true, socket);
          pl := players[k];
          break;
        }
        k := k + 1;
      }
      assert index == FirstIndex(sockets, (true, socket));

      pl.RemoveSocket();
      if !pl.inGame {
        pl.joiningPlayer := null;
        players := players[..index] + players[index + 1..];
      }
    }
  }
}
