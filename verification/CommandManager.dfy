/** The handlers of client commands, each shown to do to the objects what `Lobby` says it does to the state. */
module CommandManagers {
  import opened Board
  import opened Players
  import opened Games
  import opened Text
  import opened Vectors
  import opened Registries
  import opened Lobby
  import opened LobbyInvariant
  import opened LobbySteps
  import opened LobbyRuns
  import opened Wire
  import opened Serializers
  import opened Replies
  import Pipelines
  import opened Services

  class CommandManager {
    const world: Registry

    constructor (world: Registry)
      ensures this.world == world
    {
      this.world := world;
    }

    method IsUsernameAvailible(username: string) returns (availible: bool)
      requires world.Wf()
      ensures world.Wf() && world.Abs() == old(world.Abs())
      ensures availible <==> PlayerByName(world.Abs(), username) == NULL
    {
      world.PlayersAgree();
      var k := 0;
      while k < |world.server.players|
        invariant 0 <= k <= |world.server.players|
        invariant forall l :: 0 <= l < k ==> Names(world.Abs())[l] != username
      {
        assert world.server.players[k] in world.server.players;
        if world.server.players[k].name == username {
          FirstFromIs(Names(world.Abs()), username, 0, k);
          return false;
        }
        k := k + 1;
      }
      return true;
    }

    method ProceedNewPlayerConnection(player: Player, username: string)
      requires world.Wf() && world.Knows(player)
      modifies world.Objects()
      ensures world.Wf() && world.Abs() == NewPlayer(old(world.Abs()), player.address, username)
      ensures world.SameObjects()
    {
      hide Registry.Wf, Registry.Abs, Put, PutGame;
      var availible := IsUsernameAvailible(username);
      if availible {
        world.SetName(player, username);
        world.SetAvailible(player, true);
        world.RegisterMessage(player, Ack);
      } else {
        world.RegisterMessage(player, NackReason("Username already in use!"));
      }
    }

    method ProceedPlayerJoining(requesting: Player, name: string)
      requires world.Wf() && world.Knows(requesting)
      modifies world.Objects()
      ensures world.Wf() && world.Abs() == JoinPlayer(old(world.Abs()), requesting.address, name)
      ensures world.SameObjects()
    {
      hide Registry.Wf, Registry.Abs, Put, PutGame, PlayerByName, Lobby.Ask;
      var oponent := world.GetPlayerByName(name);
      if oponent != null {
        world.ReadsPlayer(oponent);
      }
      if oponent != null && oponent.availible && oponent.socketSet && !oponent.inGame {
        Ask(requesting, oponent);
      } else {
        world.RegisterMessage(requesting, Nack);
      }
    }

    method Ask(requesting: Player, oponent: Player)
      requires world.Wf() && world.Knows(requesting) && world.Knows(oponent)
      modifies world`sent, requesting`availible, requesting`joiningPlayer, oponent`availible, oponent`askedForJoiningBy
      ensures world.Wf() && world.Abs() == Lobby.Ask(old(world.Abs()), requesting.address, oponent.address)
    {
      hide Registry.Wf, Registry.Abs, Put;
      world.RegisterMessage(requesting, Ack);
      world.SetAvailible(requesting, false);
      world.SetJoining(requesting, oponent);

      world.ReadsPlayer(requesting);
      world.RegisterMessage(oponent, JoinRequest(requesting.name));
      world.SetAskedBy(oponent, requesting);

      world.SetAvailible(requesting, false);
      world.SetAvailible(oponent, false);
    }

    method ProceedDeclineJoin(asked: Player)
      requires world.Wf() && world.Knows(asked) && asked.askedForJoiningBy != null
      modifies world.Objects()
      ensures world.Wf() && world.Abs() == DeclineJoin(old(world.Abs()), asked.address)
      ensures world.SameObjects()
    {
      hide Registry.Wf, Registry.Abs, Put, PutGame,
           Lobby.SetAvailible, Lobby.SetJoining, Lobby.SetAskedBy, Send;
      world.ReadsPlayer(asked);
      var asking := asked.askedForJoiningBy;

      world.SetAskedBy(asked, null);
      world.SetJoining(asked, null);

      world.ReadsPlayer(asking);
      if asking.socketSet {
        world.RegisterMessage(asking, NackReason("Oponent declined"));
      }

      world.SetAvailible(asking, true);
      world.SetAvailible(asked, true);
    }

    method ProceedPlayerListRequest(player: Player)
      requires world.Wf() && world.Knows(player)
      modifies world.Objects()
      ensures world.Wf() && world.Abs() == ListRequest(old(world.Abs()), player.address)
      ensures world.SameObjects()
    {
      hide Registry.Wf, Registry.Abs, Names, Sockets, Join, ListedNames, Send;
      ghost var s := world.Abs();
      var result := "";
      var resultSize := 0;
      var k := 0;
      NothingListed(s, player.name);
      world.ReadsPlayer(player);
      world.PlayersAgree();
      while k < |world.server.players|
        modifies {}
        invariant 0 <= k <= |world.server.players| == |s.players|
        invariant resultSize == |ListedNames(s, k, player.name)| && result == Join(ListedNames(s, k, player.name))
      {
        var p := world.server.players[k];
        world.ReadsRegistered(k);
        OneMoreListed(s, k, player.name);
        if !p.inGame && p.availible && p.socketSet && p.nameSet && p.name != player.name {
          if resultSize > 0 {
            result := result + [SEPARATOR];
          }
          result := result + p.name;
          resultSize := resultSize + 1;
        }
        k := k + 1;
      }
      world.RegisterMessage(player, PlayerList(resultSize, result));
    }

    /** `address` is where the game object will live, should a game start. */
    method ProceedAcceptJoin(asked: Player, address: Address)
      requires world.Wf() && world.Knows(asked) && asked.askedForJoiningBy != null
      requires address != NULL && address !in world.knownGames
      modifies world.Objects()
      ensures world.Wf() && world.Abs() == AcceptJoin(old(world.Abs()), asked.address, address)
      ensures world.MaybeOneMoreGame(address)
    {
      hide Registry.Wf, Registry.Abs, Registry.MaybeOneMoreGame, Put, PutGame,
           Lobby.SetAvailible, Lobby.SetJoining, Lobby.SetAskedBy, Lobby.StartGame, Send;
      world.ReadsPlayer(asked);
      var asking := asked.askedForJoiningBy;

      world.SetAskedBy(asked, null);
      world.SetJoining(asked, null);

      world.SetAvailible(asking, false);
      world.SetAvailible(asked, false);

      world.ReadsPlayer(asking);
      if asking.joiningPlayer != null {
        world.ReadsPlayer(asking.joiningPlayer);
        var game := StartGame(asking, asked, address);
        world.OneGameIsOneMore(address, game);
      } else {
        world.ReadsPlayer(asked);
        if asked.socketSet {
          world.RegisterMessage(asked, NackReason("Player who asked is gone"));
        }
        world.NoneIsMaybeOneMore(address);
      }
    }

    method StartGame(asking: Player, asked: Player, address: Address) returns (game: Game)
      requires world.Wf() && world.Knows(asked) && world.Knows(asking)
      requires address != NULL && address !in world.knownGames
      modifies world.gameManager, world`knownGames, world`sent, asking`inGame, asked`inGame
      ensures world.Wf() && world.Abs() == Lobby.StartGame(old(world.Abs()), asking.address, asked.address, address)
      ensures fresh(game) && fresh(game.field) && world.known == old(world.known)
      ensures world.knownGames == old(world.knownGames)[address := game]
    {
      hide Registry.Wf, Registry.Abs, Put, PutGame,
           Lobby.AddGame, Lobby.SetInGame, Lobby.SetTurn, Send;
      game := world.AddGame(asking, asked, address);
      world.SetInGame(asking, true);
      world.SetInGame(asked, true);
      world.SetPlayerOnTurn(game, asking);

      world.ReadsPlayer(asking);
      world.ReadsPlayer(asked);
      var p1GameInfo := GameStart(asking.name, asked.name);
      var p2GameInfo := GameStart(asking.name, asking.name);
      world.RegisterMessage(asking, p1GameInfo);
      world.RegisterMessage(asked, p2GameInfo);
    }

    method ProcessGameMove(turnPlayer: Player, cardType: int, moveI: int, moveJ: int)
      requires world.Wf() && world.Knows(turnPlayer)
      requires GameByName(world.Abs(), turnPlayer.name) != NULL && Pos(moveI, moveJ) in AllCells()
      modifies world.Objects()
      ensures world.Wf() && world.Abs() == Move(old(world.Abs()), turnPlayer.address, cardType, moveI, moveJ)
      ensures world.SameObjects()
    {
      hide Registry.Wf, Registry.Abs, Put, PutGame,
           Lobby.SetField, Lobby.SetTurn, Lobby.Win, Send, GameByName, Opponent;
      world.ReadsPlayer(turnPlayer);
      var game := world.GetGameByPlayer(turnPlayer);
      var oponent := OponentIn(game, turnPlayer);

      world.SetField(game, moveI, moveJ, cardType);

      var won := world.IsGameWon(game, moveI, moveJ);
      if won {
        var turnInfo := GameWon(turnPlayer.name, cardType, moveI, moveJ);
        Win(game, turnPlayer, oponent, turnInfo);
        return;
      }

      world.SetPlayerOnTurn(game, oponent);
      world.RegisterMessage(oponent, GameMove(cardType, moveI, moveJ));
    }

    method OponentIn(game: Game, p: Player) returns (oponent: Player)
      requires world.Wf() && world.KnowsGame(game)
      ensures world.Wf() && world.Abs() == old(world.Abs())
      ensures world.Knows(oponent) && oponent.address == Opponent(world.Abs(), game.address, p.name)
    {
      world.ReadsGame(game);
      world.ReadsPlayer(game.p1);
      if game.p1.name == p.name {
        oponent := game.p2;
      } else {
        oponent := game.p1;
      }
    }

    method Win(game: Game, turnPlayer: Player, oponent: Player, turnInfo: Reply)
      requires world.Wf() && world.KnowsGame(game) && world.Knows(turnPlayer) && world.Knows(oponent)
      requires world.gameManager.games != []
      modifies world.gameManager`games, world`sent, turnPlayer`inGame, turnPlayer`availible
      modifies oponent`inGame, oponent`availible
      ensures world.Wf()
      ensures world.Abs() == Lobby.Win(old(world.Abs()), game.address, turnPlayer.address, oponent.address, turnInfo)
      ensures world.SameObjects()
    {
      hide Registry.Wf, Registry.Abs, Put, PutGame;
      world.RegisterMessage(turnPlayer, turnInfo);
      world.RegisterMessage(oponent, turnInfo);

      world.SetInGame(turnPlayer, false);
      world.SetInGame(oponent, false);
      world.SetAvailible(turnPlayer, true);
      world.SetAvailible(oponent, true);

      world.DeleteGame(game);
    }

    method ProceedPlayerReconnection(newP: Player, name: string)
      requires world.Wf() && world.Knows(newP) && world.server.players != []
      requires MayTakeOver(world.Abs(), name) ==> CanGiveSeat(world.Abs(), newP.address, name)
      modifies world.Objects()
      ensures world.Wf() && world.Abs() == Reconnect(old(world.Abs()), newP.address, name)
      ensures world.SameObjects()
    {
      hide Registry.Wf, Registry.Abs, Put, PutGame,
           Lobby.GiveSeat, Lobby.DeletePlayer, Send, CanGiveSeat;
      var oldP := world.GetPlayerByName(name);
      if oldP != null {
        world.ReadsPlayer(oldP);
      }
      if oldP == null || !oldP.lost {
        world.RegisterMessage(newP, Nack);
      } else {
        NameOfFound(world.Abs(), name);
        GiveSeat(newP, oldP, name);
        world.DeletePlayer(oldP);
      }
    }

    method GiveSeat(newP: Player, oldP: Player, ghost name: string)
      requires world.Wf() && world.Knows(newP) && world.Knows(oldP)
      requires oldP.name == name && CanGiveSeat(world.Abs(), newP.address, name)
      modifies world.Objects()
      ensures world.Wf() && world.Abs() == Lobby.GiveSeat(old(world.Abs()), newP.address, name)
      ensures world.SameObjects() && world.server.players == old(world.server.players)
    {
      hide Registry.Wf, Registry.Abs, Lobby.Rename, Lobby.Reseat, Lobby.TellBoth, Opponent, GameByName, GameAt;
      Rename(newP, oldP);
      var game := world.GetGameByPlayer(oldP);
      Reseat(game, newP);
      var oponent := world.GetPlayersOponent(newP);
      TellBoth(game, newP, oponent);
    }

    method Rename(newP: Player, oldP: Player)
      requires world.Wf() && world.Knows(newP) && world.Knows(oldP)
      modifies newP`name, newP`nameSet, newP`availible, newP`inGame
      ensures world.Wf() && world.Abs() == Lobby.Rename(old(world.Abs()), newP.address, old(oldP.name))
      ensures newP.name == oldP.name == old(oldP.name)
    {
      hide Registry.Wf, Registry.Abs, Put;
      world.SetName(newP, oldP.name);
      world.SetAvailible(newP, false);
      world.SetInGame(newP, true);
    }

    method Reseat(game: Game, newP: Player)
      requires world.Wf() && world.KnowsGame(game) && world.Knows(newP)
      modifies game`p1, game`p2
      ensures world.Wf() && world.Abs() == Lobby.Reseat(old(world.Abs()), game.address, newP.name, newP.address)
    {
      hide Registry.Wf, Registry.Abs, PutGame;
      world.ReadsGame(game);
      world.ReadsPlayer(game.p1);
      if game.p1.name == newP.name {
        world.SetPlayer1(game, newP);
      } else {
        world.SetPlayer2(game, newP);
      }
    }

    method TellBoth(game: Game, newP: Player, oponent: Player)
      requires world.Wf() && world.KnowsGame(game) && world.Knows(newP) && world.Knows(oponent)
      requires GameAt(world.Abs(), game.address).onTurn != NULL
      modifies world`sent
      ensures world.Wf()
      ensures world.Abs() == Lobby.TellBoth(old(world.Abs()), game.address, newP.address, oponent.address)
    {
      hide Registry.Wf, Registry.Abs;
      world.ReadsGame(game);
      world.ReadsPlayer(game.playerOnTurn);
      world.ReadsPlayer(oponent);
      world.ReadsPlayer(newP);
      var text := world.GameString(game);
      var gameCon1 := GameContinues(game.playerOnTurn.name, oponent.name, text);
      var gameCon2 := GameContinues(game.playerOnTurn.name, newP.name, text);
      world.RegisterMessage(newP, gameCon1);
      world.RegisterMessage(oponent, gameCon2);
    }

    method ProceedGameEnding(p: Player)
      requires world.Wf() && world.Knows(p) && world.server.players != []
      requires GameByName(world.Abs(), p.name) != NULL
      modifies world.Objects()
      ensures world.Wf() && world.Abs() == EndGame(old(world.Abs()), p.address)
      ensures world.SameObjects()
    {
      hide Registry.Wf, Registry.Abs, Put, PutGame, Lobby.LeaveLost, Lobby.LeaveBoth,
           Lobby.DeletePlayer, Lobby.DeleteGame, GameByName, Opponent;
      world.ReadsPlayer(p);
      var game := world.GetGameByPlayer(p);
      var oponent := OponentIn(game, p);
      world.ReadsPlayer(oponent);

      if oponent.lost {
        LeaveLost(p, oponent);
      } else {
        LeaveBoth(p, oponent);
      }

      world.DeleteGame(game);
    }

    method LeaveLost(p: Player, oponent: Player)
      requires world.Wf() && world.Knows(p) && world.Knows(oponent) && world.server.players != []
      modifies world.server`players, p`availible, p`inGame
      ensures world.Wf() && world.Abs() == Lobby.LeaveLost(old(world.Abs()), p.address, oponent.address)
    {
      hide Registry.Wf, Registry.Abs, Put, Lobby.DeletePlayer;
      world.DeletePlayer(oponent);
      world.SetAvailible(p, true);
      world.SetInGame(p, false);
    }

    method LeaveBoth(p: Player, oponent: Player)
      requires world.Wf() && world.Knows(p) && world.Knows(oponent)
      modifies p`availible, p`inGame, oponent`availible, oponent`inGame, world`sent
      ensures world.Wf() && world.Abs() == Lobby.LeaveBoth(old(world.Abs()), p.address, oponent.address)
    {
      hide Registry.Wf, Registry.Abs, Put;
      world.SetInGame(p, false);
      world.SetInGame(oponent, false);
      world.SetAvailible(p, true);
      world.SetAvailible(oponent, true);

      world.RegisterMessage(oponent, GameEnded);
    }

    method ProceedPlayerLogout(p: Player)
      requires world.Wf() && world.Knows(p) && CanLeave(world.Abs(), p.socket)
      requires PlayerBySocket(world.Abs(), p.socket) == p.address
      requires p.inGame ==> GameByName(world.Abs(), p.name) != NULL && |world.server.players| >= 2
      modifies world.Objects()
      ensures world.Wf() && world.Abs() == Logout(old(world.Abs()), p.address)
      ensures world.SameObjects()
    {
      hide Registry.Wf, Registry.Abs, Put, PutGame;
      world.ReadsPlayer(p);
      if p.inGame {
        ProceedGameEnding(p);
      } else {
        ProceedDisconnection(p.socket);
      }
    }

    /** The connection on a socket is gone; in a game the internal loss command is handled at once. */
    method ProceedDisconnection(socket: int)
      requires world.Wf() && CanLeave(world.Abs(), socket)
      requires At(world.Abs(), PlayerBySocket(world.Abs(), socket)).inGame ==> |world.server.players| >= 2
      modifies world.Objects()
      ensures world.Wf() && world.Abs() == Disconnect(old(world.Abs()), socket)
      ensures world.SameObjects()
    {
      hide Registry.Wf, Registry.Abs, LosePlayer, Lobby.RemoveConnection, PlayerBySocket, GameByName;
      world.RegisteredAreKnown();
      var pl := world.RemoveConnection(socket);
      world.ReadsPlayer(pl);
      if pl.inGame {
        ProceedPlayerLost(pl);
      }
    }

    method ProceedPlayerLost(lost: Player)
      requires world.Wf() && world.Knows(lost) && GameByName(world.Abs(), lost.name) != NULL
      requires |world.server.players| >= 2
      modifies world.Objects()
      ensures world.Wf() && world.Abs() == LosePlayer(old(world.Abs()), lost.address)
      ensures world.SameObjects()
    {
      hide Registry.Wf, Registry.Abs, Put, PutGame, Lobby.EraseBoth, GameByName, Opponent;
      world.ReadsPlayer(lost);
      var game := world.GetGameByPlayer(lost);
      var oponent := OponentIn(game, lost);

      world.SetLost(lost);

      world.ReadsPlayer(oponent);
      if oponent.lost {
        EraseBoth(game, lost, oponent);
      } else {
        world.RegisterMessage(oponent, PlayerLoss);
      }
    }

    method EraseBoth(game: Game, lost: Player, oponent: Player)
      requires world.Wf() && world.KnowsGame(game) && world.Knows(lost) && world.Knows(oponent)
      requires world.gameManager.games != [] && |world.server.players| >= 2
      modifies world.server`players, world.gameManager`games, lost`inGame, oponent`inGame
      ensures world.Wf()
      ensures world.Abs() == Lobby.EraseBoth(old(world.Abs()), game.address, lost.address, oponent.address)
    {
      hide Registry.Wf, Registry.Abs, Put, Lobby.DeletePlayer, Lobby.DeleteGame;
      world.DeleteGame(game);
      world.SetInGame(oponent, false);
      world.SetInGame(lost, false);

      world.DeletePlayer(oponent);
      world.DeletePlayer(lost);
    }

    /** A packet that could not be read came in on a socket; the tenth one is the last. */
    method ProceedGarbage(socket: int)
      requires world.Wf() && CanLeaveAtTenth(world.Abs(), socket)
      modifies world.Objects()
      ensures world.Wf() && world.Abs() == Garbage(old(world.Abs()), socket)
      ensures world.SameObjects()
    {
      hide Registry.Wf, Registry.Abs, Put, Disconnect, CanLeave, PlayerBySocket, CountGarbage;
      var p := world.GetPlayerBySocket(socket);
      if p != null {
        world.ReadsPlayer(p);
        world.CountBullshit(p);
        world.ReadsPlayer(p);
        world.SameCount();
        if p.bullshitMessages >= MAX_BULLSHIT {
          ProceedDisconnection(socket);
        }
      }
    }

    /** One command: with the lobby consistent and the command a permitted one, the handler does what the command is
        specified to do, and the lobby is consistent again; no registered game has a loop if none had, and what was
        reachable stays so. `sender` is the player object whose address the command carries. */
    method Handle(c: Command, sender: Player?)
      requires world.Wf() && Inv(world.Abs()) && Guard(world.Abs(), c)
      requires FromClient(c) ==> sender != null && world.Knows(sender) && sender.address == c.p
      modifies world.Objects()
      ensures world.Wf() && world.Abs() == Apply(old(world.Abs()), c) && Inv(world.Abs())
      ensures BoardsOk(old(world.Abs())) ==> BoardsOk(world.Abs())
      ensures Reachable(old(world.Abs())) ==> Reachable(world.Abs())
      ensures world.OnlyFreshObjects()
    {
      hide Registry.Wf, Registry.Abs, Registry.OnlyFreshObjects, Inv, BoardsOk, Reachable;
      ghost var s := world.Abs();
      KeepsAll(s, c);
      Permitted(s, c);
      world.SameCount();
      if FromClient(c) { world.ReadsPlayer(sender); }
      match c {
        case Connecting(p, socket) =>
          world.KnownAddresses();
          var player := world.AddPlayer(p, socket);
          world.OneMorePlayer(player);
          return;
        case Naming(p, name) => ProceedNewPlayerConnection(sender, name);
        case Returning(p, name) => ProceedPlayerReconnection(sender, name);
        case Listing(p) => ProceedPlayerListRequest(sender);
        case LoggingOut(p) => ProceedPlayerLogout(sender);
        case Joining(p, name) => ProceedPlayerJoining(sender, name);
        case Accepting(p, game) =>
          world.KnownAddresses();
          ProceedAcceptJoin(sender, game);
          world.OneMoreIsFresh(game);
          return;
        case Declining(p) => ProceedDeclineJoin(sender);
        case Playing(p, card, i, j) => ProcessGameMove(sender, card, i, j);
        case Dropping(socket) => ProceedDisconnection(socket);
        case Junk(socket) => ProceedGarbage(socket);
      }
      world.SameAreOnlyFresh();
    }

    /** A client's message from the queue: the sender is looked up, and the header decides what is done. `game` is
        where the game object will live, should a game start. */
    method ProceedMessage(socket: int, message: Message, game: Address)
      requires world.Wf() && Inv(world.Abs())
      requires MayServe(world.Abs(), Queued(Pipelines.FromClient(socket, message), game))
      modifies world.Objects()
      ensures world.Wf() && Inv(world.Abs())
      ensures world.Abs() == Serve(old(world.Abs()), Queued(Pipelines.FromClient(socket, message), game))
      ensures Reachable(old(world.Abs())) ==> Reachable(world.Abs())
      ensures world.OnlyFreshObjects()
    {
      hide Registry.Wf, Registry.Abs, Inv, Reachable, Guard, Apply, BoardsOk, TextOf, Fits;
      var player := world.GetPlayerBySocket(socket);
      var meaning := MeaningOf(AddressOf(player), message, game);
      if meaning.Some? {
        SenderIsThere(world.Abs(), meaning.value);
        Handle(meaning.value, player);
      }
    }

    /** The loop over what is queued. */
    method Work(queue: seq<(int, Message, Address)>)
      requires world.Wf() && Reachable(world.Abs()) && MayServeAll(world.Abs(), DeedsOf(queue))
      modifies world.Objects()
      ensures world.Wf() && world.Abs() == ServedFrom(old(world.Abs()), DeedsOf(queue))
      ensures Reachable(world.Abs())
    {
      hide Registry.Wf, Registry.Abs, Reachable, MayServeAll, ServedFrom, DeedsOf;
      ghost var s := world.Abs();
      ghost var deeds := DeedsOf(queue);
      var k := 0;
      ServedFromNothing(s);
      while k < |queue|
        invariant 0 <= k <= |queue| == |deeds|
        invariant world.Wf() && Reachable(world.Abs())
        invariant world.Abs() == ServedFrom(s, deeds[..k])
        invariant fresh(world.Objects() - old(world.Objects()))
      {
        ghost var before := world.Objects();
        ProceedNext(queue, k, s);
        ghost var came := world.Objects() - before;
        assert fresh(came);
        assert world.Objects() - old(world.Objects()) <= came + (before - old(world.Objects()));
        k := k + 1;
      }
      assert deeds[..k] == deeds;
    }

    method ProceedNext(queue: seq<(int, Message, Address)>, k: nat, ghost s: State)
      requires k < |queue| && world.Wf() && Reachable(world.Abs())
      requires MayServeAll(s, DeedsOf(queue)) && world.Abs() == ServedFrom(s, DeedsOf(queue)[..k])
      modifies world.Objects()
      ensures world.Wf() && Reachable(world.Abs())
      ensures world.Abs() == ServedFrom(s, DeedsOf(queue)[..k + 1])
      ensures fresh(world.Objects() - old(world.Objects()))
    {
      hide Registry.Wf, Registry.Abs, Inv, Reachable, MayServe, Serve, ServedFrom, BoardsOk, Registry.Objects;
      ReachableIsSound(world.Abs());
      OneMoreServed(s, DeedsOf(queue), k);
      ProceedMessage(queue[k].0, queue[k].1, queue[k].2);
    }
  }

  lemma OneMoreServed(s: State, deeds: seq<Deed>, k: nat)
    requires k < |deeds|
    ensures ServedFrom(s, deeds[..k + 1]) == Serve(ServedFrom(s, deeds[..k]), deeds[k])
  {
    assert deeds[..k + 1] == deeds[..k] + [deeds[k]];
    OneMoreDeed(s, deeds[..k], deeds[k]);
  }

  lemma NothingListed(s: State, own: string)
    ensures ListedNames(s, 0, own) == [] && Join(ListedNames(s, 0, own)) == ""
  {
  }

  /** The list and its text with the next player. */
  lemma OneMoreListed(s: State, k: nat, own: string)
    requires k < |s.players|
    ensures
      var r := At(s, s.players[k]);
      var before, after := ListedNames(s, k, own), ListedNames(s, k + 1, own);
      if IsListed(r, own) then
        && |after| == |before| + 1
        && Join(after) == if |before| == 0 then r.name else Join(before) + [SEPARATOR] + r.name
      else after == before
  {
    JoinOneMore(ListedNames(s, k, own), At(s, s.players[k]).name);
  }

  function DeedsOf(queue: seq<(int, Message, Address)>): (deeds: seq<Deed>)
    ensures |deeds| == |queue|
  {
    seq(|queue|, k requires 0 <= k < |queue| =>
      Queued(Pipelines.FromClient(queue[k].0, queue[k].1), queue[k].2))
  }

  lemma ServedFromNothing(s: State)
    ensures ServedFrom(s, []) == s
  {
  }

  lemma KeepsAll(s: State, c: Command)
    requires Inv(s) && Guard(s, c)
    ensures Inv(Apply(s, c))
    ensures BoardsOk(s) ==> BoardsOk(Apply(s, c))
    ensures Reachable(s) ==> Reachable(Apply(s, c))
  {
    hide Inv, Guard, Apply, BoardsOk, Reachable;
    StepKeeps(s, c);
    if BoardsOk(s) { StepKeepsBoards(s, c); }
    if Reachable(s) { StepsOn(s, c); }
  }

  /** A permitted command of a client comes from a player who is there. */
  lemma SenderIsThere(s: State, c: Command)
    requires Inv(s) && Guard(s, c) && FromClient(c)
    ensures c.p != NULL
  {
  }

  /** Whoever is counted down to the tenth unreadable packet, if in a game, has one in the register. */
  predicate CanLeaveAtTenth(s: State, socket: int) {
    var p := PlayerBySocket(s, socket);
    var s1 := CountGarbage(s, p);
    p != NULL && At(s1, p).bullshit >= MAX_BULLSHIT ==>
      CanLeave(s1, socket) && (At(s1, PlayerBySocket(s1, socket)).inGame ==> |s1.players| >= 2)
  }

  /** Commands that come from a registered player, whose address they carry. */
  predicate FromClient(c: Command) {
    !c.Connecting? && !c.Dropping? && !c.Junk?
  }

  /** What a permitted command finds: no handler looks in vain for a game, a player on turn, or a second player. */
  lemma Permitted(s: State, c: Command)
    requires Inv(s) && Guard(s, c)
    ensures c.Returning? && MayTakeOver(s, c.name) ==> CanGiveSeat(s, c.p, c.name)
    ensures c.LoggingOut? ==>
              CanLeave(s, At(s, c.p).socket) && PlayerBySocket(s, At(s, c.p).socket) == c.p
    ensures c.LoggingOut? && At(s, c.p).inGame ==> GameByName(s, At(s, c.p).name) != NULL && |s.players| >= 2
    ensures c.Playing? ==> GameByName(s, At(s, c.p).name) != NULL
    ensures c.Junk? ==> CanLeaveAtTenth(s, c.socket)
    ensures c.Dropping? ==> CanLeave(s, c.socket)
    ensures c.Dropping? && At(s, PlayerBySocket(s, c.socket)).inGame ==> |s.players| >= 2
  {
    match c
    case Returning(p, name) =>
      if MayTakeOver(s, name) {
        NameOfFound(s, name);
        SeatIsFound(s, p, PlayerByName(s, name));
      }
    case LoggingOut(p) =>
      LeavingFindsGame(s, p);
      if At(s, p).inGame { GameIsFound(s, p); }
    case Playing(p, card, i, j) => GameIsFound(s, p);
    case Dropping(socket) =>
      SocketIsRegistered(s, socket);
      LeavingFindsGame(s, PlayerBySocket(s, socket));
      if At(s, PlayerBySocket(s, socket)).inGame { GameIsFound(s, PlayerBySocket(s, socket)); }
    case Junk(socket) => PermittedAtTenth(s, socket);
    case _ =>
  }

  lemma PermittedAtTenth(s: State, socket: int)
    requires Inv(s)
    ensures CanLeaveAtTenth(s, socket)
  {
    var p := PlayerBySocket(s, socket);
    SocketIsRegistered(s, socket);
    if p != NULL {
      var s1 := CountGarbage(s, p);
      CountingKeeps(s, p);
      assert At(s1, p).socket == socket && At(s1, p).socketSet;
      hide Inv, CanLeave, PlayerBySocket;
      LeavingFindsGame(s1, p);
      if At(s1, p).inGame { GameIsFound(s1, p); }
    }
  }
}
