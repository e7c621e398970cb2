/** The server's objects: players, games and the two registers, and the state they represent. Each operation that
    writes one field, or calls one register, is shown here to be one step of the state; the handlers are built of
    these. */
module Registries {
  import opened Board
  import opened LoopSearch
  import opened Players
  import opened Games
  import opened Vectors
  import opened Servers
  import opened GameManagers
  import opened Lobby

  function AddressesOf(players: seq<Player>): (addresses: seq<Address>)
    ensures |addresses| == |players|
  {
    seq(|players|, k requires 0 <= k < |players| => players[k].address)
  }

  function GameAddressesOf(games: seq<Game>): (addresses: seq<Address>)
    ensures |addresses| == |games|
  {
    seq(|games|, k requires 0 <= k < |games| => games[k].address)
  }

  class Registry {
    const server: Server
    const gameManager: GameManager
    var sent: seq<Sent>

    /** Every player and game object there has been, by address. */
    ghost var known: map<Address, Player>
    ghost var knownGames: map<Address, Game>

    ghost predicate Knows(p: Player?)
      reads this
    {
      p == null || (p.address in known && known[p.address] == p)
    }

    ghost predicate KnowsGame(g: Game?)
      reads this
    {
      g == null || (g.address in knownGames && knownGames[g.address] == g)
    }

    /** The objects hang together: addresses are right, pointers lead to known objects, boards are not shared. */
    ghost predicate Wf()
      reads this, server, gameManager, known.Values, knownGames.Values
    {
      && NULL !in known && NULL !in knownGames
      && (forall a {:trigger known[a]} :: a in known ==> known[a].address == a)
      && (forall p {:trigger p.joiningPlayer} {:trigger p.askedForJoiningBy} ::
            p in known.Values ==> Knows(p.joiningPlayer) && Knows(p.askedForJoiningBy))
      && (forall p :: p in server.players ==> Knows(p))
      && (forall a {:trigger knownGames[a]} :: a in knownGames ==> knownGames[a].address == a && knownGames[a].Valid())
      && (forall g {:trigger g.p1} {:trigger g.p2} {:trigger g.playerOnTurn} ::
            g in knownGames.Values ==> Knows(g.p1) && Knows(g.p2) && Knows(g.playerOnTurn))
      && (forall g :: g in gameManager.games ==> KnowsGame(g))
      && (forall g, h {:trigger g.field, h.field} ::
            g in knownGames.Values && h in knownGames.Values && g != h ==> g.field != h.field)
    }

    ghost function Fields(): set<array2<int>>
      reads this, knownGames.Values
    {
      set g | g in knownGames.Values :: g.field
    }

    /** All objects the server may write. */
    ghost function Objects(): set<object>
      reads this, knownGames.Values
    {
      {this, server, gameManager} + known.Values + knownGames.Values + Fields()
    }

    /** The state these objects represent. */
    ghost function Abs(): State
      reads this, server, gameManager, known.Values, knownGames.Values, Fields()
      requires Wf()
    {
      State(
        map a | a in known :: known[a].Record(),
        AddressesOf(server.players),
        map a | a in knownGames :: knownGames[a].Record(),
        GameAddressesOf(gameManager.games),
        gameManager.maxGameId,
        sent)
    }

    /** No object has come up. */
    twostate predicate SameObjects()
      reads this
    {
      known == old(known) && knownGames == old(knownGames)
    }

    /** Only fresh objects have come up. */
    twostate predicate OnlyFreshObjects()
      reads this, knownGames.Values
    {
      fresh(Objects() - old(Objects()))
    }

    twostate lemma SameAreOnlyFresh()
      requires SameObjects()
      ensures OnlyFreshObjects()
    {
    }

    twostate lemma OneMorePlayer(new p: Player)
      requires fresh(p) && known == old(known)[p.address := p] && knownGames == old(knownGames)
      ensures OnlyFreshObjects()
    {
    }

    /** At most a fresh game object at this address has come up. */
    twostate predicate MaybeOneMoreGame(address: Address)
      reads this
    {
      && known == old(known)
      && (|| knownGames == old(knownGames)
          || (address in knownGames && knownGames == old(knownGames)[address := knownGames[address]]
              && fresh(knownGames[address]) && fresh(knownGames[address].field)))
    }

    twostate lemma NoneIsMaybeOneMore(address: Address)
      requires SameObjects()
      ensures MaybeOneMoreGame(address)
    {
    }

    twostate lemma OneGameIsOneMore(address: Address, new g: Game)
      requires known == old(known) && knownGames == old(knownGames)[address := g] && fresh(g) && fresh(g.field)
      ensures MaybeOneMoreGame(address)
    {
    }

    twostate lemma OneMoreIsFresh(address: Address)
      requires MaybeOneMoreGame(address)
      ensures OnlyFreshObjects()
    {
    }

    constructor ()
      ensures Wf() && Abs() == EMPTY && fresh(server) && fresh(gameManager)
    {
      server := new Server();
      gameManager := new GameManager();
      sent := [];
      known := map[];
      knownGames := map[];
    }

    // ---------- from objects to the state ----------

    twostate lemma GamesUntouched()
      requires old(Wf()) && Wf() && knownGames == old(knownGames)
      requires forall g :: g in knownGames.Values ==> unchanged(g) && unchanged(g.field)
      ensures Abs().records == old(Abs()).records
    {
      hide Game.Record;
      forall a | a in knownGames ensures knownGames[a].Record() == old(knownGames[a].Record()) {
        assert knownGames[a] in knownGames.Values;
      }
    }

    twostate lemma PlayersUntouched()
      requires old(Wf()) && Wf() && known == old(known)
      requires forall q :: q in known.Values ==> unchanged(q)
      ensures Abs().store == old(Abs()).store
    {
      hide Player.Record;
      forall a | a in known ensures known[a].Record() == old(known[a].Record()) {
        assert known[a] in known.Values;
      }
    }

    /** When only a register has been written, the state has its records as before. */
    twostate lemma RegisterWritten()
      requires old(Wf()) && Wf() && unchanged(this)
      requires forall q :: q in known.Values ==> unchanged(q)
      requires forall g :: g in knownGames.Values ==> unchanged(g) && unchanged(g.field)
      ensures Abs().store == old(Abs()).store && Abs().records == old(Abs()).records && Abs().sent == old(Abs()).sent
    {
      PlayersUntouched();
      GamesUntouched();
    }

    /** When one player object has been written, the state has one new player record. */
    twostate lemma OneRecordWritten(p: Player)
      requires old(Wf()) && Wf() && Knows(p) && unchanged(this)
      requires forall q :: q in known.Values && q != p ==> q.Record() == old(q.Record())
      requires forall g :: g in knownGames.Values ==> unchanged(g) && unchanged(g.field)
      ensures Abs().store == Put(old(Abs()), p.address, p.Record()).store && Abs().records == old(Abs()).records
    {
      GamesUntouched();
      forall a | a in known && a != p.address ensures known[a].Record() == old(known[a].Record()) {
        assert known[a] in known.Values;
      }
    }

    twostate lemma PlayerWritten(p: Player)
      requires old(Wf()) && Wf() && Knows(p)
      requires unchanged(this) && unchanged(server) && unchanged(gameManager)
      requires forall q :: q in known.Values && q != p ==> q.Record() == old(q.Record())
      requires forall g :: g in knownGames.Values ==> unchanged(g) && unchanged(g.field)
      ensures Abs() == Put(old(Abs()), p.address, p.Record())
    {
      OneRecordWritten(p);
    }

    /** A new player object is one more record. */
    twostate lemma PlayerAdded(new p: Player)
      requires old(Wf()) && Wf() && p.address !in old(known) && known == old(known)[p.address := p]
      requires forall q :: q in old(known.Values) ==> unchanged(q)
      ensures Abs().store == old(Abs()).store[p.address := p.Record()]
    {
      hide Player.Record, Game.Record;
      assert known[p.address] == p;
      forall a | a in old(known) ensures known[a].Record() == old(known[a].Record()) {
        assert known[a] == old(known[a]) && old(known[a]) in old(known.Values);
      }
    }

    /** A new game object is one more record. */
    twostate lemma GameAdded(new g: Game)
      requires old(Wf()) && Wf() && g.address !in old(knownGames) && knownGames == old(knownGames)[g.address := g]
      requires forall h :: h in old(knownGames.Values) ==> unchanged(h) && unchanged(h.field)
      ensures g.Valid() && Abs().records == old(Abs()).records[g.address := g.Record()]
    {
      hide Game.Record;
      assert knownGames[g.address] == g;
      forall a | a in old(knownGames) ensures knownGames[a].Record() == old(knownGames[a].Record()) {
        assert knownGames[a] == old(knownGames[a]) && old(knownGames[a]) in old(knownGames.Values);
      }
    }

    /** When one game object has been written, the state has one new game record. */
    twostate lemma GameWritten(g: Game)
      requires old(Wf()) && Wf() && KnowsGame(g)
      requires unchanged(this) && unchanged(server) && unchanged(gameManager)
      requires forall q :: q in known.Values ==> unchanged(q)
      requires forall h :: h in knownGames.Values && h != g ==> unchanged(h) && unchanged(h.field)
      ensures g.Valid() && Abs() == PutGame(old(Abs()), g.address, g.Record())
    {
      PlayersUntouched();
      forall a | a in knownGames && a != g.address ensures knownGames[a].Record() == old(knownGames[a].Record()) {
        assert knownGames[a] in knownGames.Values;
      }
      assert Abs().records == PutGame(old(Abs()), g.address, g.Record()).records;
    }

    /** Looking at a player or game object is looking at its record. */
    lemma ReadsPlayer(p: Player)
      requires Wf() && Knows(p)
      ensures At(Abs(), p.address) == p.Record() && p.address != NULL
      ensures Knows(p.joiningPlayer) && Knows(p.askedForJoiningBy)
    {
      assert p in known.Values;
    }

    lemma ReadsGame(g: Game)
      requires Wf() && KnowsGame(g)
      ensures g.Valid() && GameAt(Abs(), g.address) == g.Record()
      ensures Knows(g.p1) && Knows(g.p2) && Knows(g.playerOnTurn)
    {
      assert g in knownGames.Values;
    }

    lemma RegisteredAreKnown()
      requires Wf()
      ensures forall p :: p in server.players ==> p in known.Values
    {
    }

    lemma KnownAddresses()
      requires Wf()
      ensures Abs().store.Keys == known.Keys && Abs().records.Keys == knownGames.Keys
    {
    }

    lemma SameCount()
      requires Wf()
      ensures |Abs().players| == |server.players|
    {
    }

    lemma ReadsRegistered(k: nat)
      requires Wf() && k < |server.players|
      ensures |Abs().players| == |server.players| && Knows(server.players[k])
      ensures At(Abs(), Abs().players[k]) == server.players[k].Record()
    {
      assert server.players[k] in server.players;
      ReadsPlayer(server.players[k]);
    }

    lemma PlayersAgree()
      requires Wf()
      ensures NamesOf(server.players) == Names(Abs())
      ensures SocketsOf(server.players) == Sockets(Abs())
      ensures AddressesOf(server.players) == Abs().players
      ensures forall p :: p in server.players ==> Knows(p)
    {
      forall k | 0 <= k < |server.players|
        ensures At(Abs(), Abs().players[k]) == server.players[k].Record()
      {
        assert server.players[k] in server.players;
      }
    }

    lemma GameAgrees(g: Game)
      requires Wf() && g in gameManager.games
      ensures KnowsGame(g) && g.Valid() && Knows(g.p1) && Knows(g.p2)
      ensures GameAt(Abs(), g.address) == g.Record()
      ensures At(Abs(), GameAt(Abs(), g.address).p1) == g.p1.Record()
      ensures At(Abs(), GameAt(Abs(), g.address).p2) == g.p2.Record()
    {
      ReadsGame(g);
      assert g in knownGames.Values;
    }

    lemma GamesAgree()
      requires Wf()
      ensures NamePairsOf(gameManager.games) == NamePairs(Abs())
      ensures IdsOf(gameManager.games) == Ids(Abs())
    {
      forall k | 0 <= k < |gameManager.games|
        ensures GameAt(Abs(), Abs().games[k]).id == gameManager.games[k].id
        ensures At(Abs(), GameAt(Abs(), Abs().games[k]).p1) == gameManager.games[k].p1.Record()
        ensures At(Abs(), GameAt(Abs(), Abs().games[k]).p2) == gameManager.games[k].p2.Record()
      {
        GameAgrees(gameManager.games[k]);
      }
    }

    /** The last game with a player of this name, in the register and in the state. */
    lemma GameByNameAgrees(name: string)
      requires Wf()
      ensures
        var games := gameManager.games;
        var k := LastWith(NamePairsOf(games), name);
        && GameByName(Abs(), name) == (if k >= 0 then games[k].address else NULL)
        && (k >= 0 ==>
              && KnowsGame(games[k]) && games[k].Valid() && Knows(games[k].p1) && Knows(games[k].p2)
              && games[k].address != NULL
              && Opponent(Abs(), games[k].address, name)
                 == (if games[k].p1.name == name then games[k].p2 else games[k].p1).address)
    {
      GamesAgree();
      var k := LastWith(NamePairsOf(gameManager.games), name);
      if k >= 0 { GameAgrees(gameManager.games[k]); }
    }

    /** Nothing that was there has been written. */
    twostate lemma NothingWritten()
      requires old(Wf()) && Wf() && unchanged(this) && unchanged(server) && unchanged(gameManager)
      requires forall q :: q in known.Values ==> unchanged(q)
      requires forall g :: g in knownGames.Values ==> unchanged(g) && unchanged(g.field)
      ensures Abs() == old(Abs())
    {
      RegisterWritten();
    }

    // ---------- looking up ----------

    method GetPlayerByName(name: string) returns (p: Player?)
      requires Wf()
      ensures Wf() && Abs() == old(Abs())
      ensures Knows(p) && AddressOf(p) == PlayerByName(Abs(), name)
    {
      hide Wf, Abs, Names, NamesOf;
      PlayersAgree();
      p := server.GetPlayerByName(name);
      NothingWritten();
    }

    method GetPlayerBySocket(socket: int) returns (p: Player?)
      requires Wf()
      ensures Wf() && Abs() == old(Abs())
      ensures Knows(p) && AddressOf(p) == PlayerBySocket(Abs(), socket)
    {
      hide Wf, Abs, Sockets, SocketsOf;
      PlayersAgree();
      p := server.GetPlayerBySocket(socket);
      NothingWritten();
    }

    method GetGameByPlayer(p: Player) returns (game: Game?)
      requires Wf() && Knows(p)
      ensures Wf() && Abs() == old(Abs())
      ensures KnowsGame(game)
      ensures game != null ==> game.Valid() && Knows(game.p1) && Knows(game.p2) && gameManager.games != []
      ensures GameAddressOf(game) == GameByName(Abs(), p.name)
    {
      hide Wf, Abs, GameByName, NamePairsOf, Opponent;
      GameByNameAgrees(p.name);
      game := gameManager.GetGameByPlayer(p);
      NothingWritten();
    }

    method GetPlayersOponent(p: Player) returns (oponent: Player?)
      requires Wf() && Knows(p)
      ensures Wf() && Abs() == old(Abs())
      ensures Knows(oponent)
      ensures var g := GameByName(Abs(), p.name);
              g != NULL ==> oponent != null && oponent.address == Opponent(Abs(), g, p.name)
    {
      hide Wf, Abs, GameByName, NamePairsOf, Opponent;
      GameByNameAgrees(p.name);
      oponent := gameManager.GetPlayersOponent(p);
      NothingWritten();
    }

    method GameString(game: Game) returns (text: string)
      requires Wf() && KnowsGame(game)
      ensures Wf() && Abs() == old(Abs())
      ensures text == BoardText(GameAt(Abs(), game.address).board)
    {
      hide Wf, Abs, BoardText, BoardOf, GameAt;
      ReadsGame(game);
      text := game.GetGameString();
      NothingWritten();
    }

    method IsGameWon(game: Game, moveI: int, moveJ: int) returns (won: bool)
      requires Wf() && KnowsGame(game) && game.Valid()
      ensures Wf() && Abs() == old(Abs())
      ensures won == MoveWins(GameAt(Abs(), game.address).board, Pos(moveI, moveJ))
    {
      hide Wf, Abs, MoveWins, BoardOf, GameAt, Matched, LoopAt;
      ReadsGame(game);
      won := gameManager.IsGameWon(game, moveI, moveJ);
      NothingWritten();
    }

    // ---------- writing one field ----------

    method SetName(p: Player, name: string)
      requires Wf() && Knows(p)
      modifies p`name, p`nameSet
      ensures Wf() && Abs() == Lobby.SetName(old(Abs()), p.address, name)
      ensures p.name == name
    {
      p.SetName(name);
      PlayerWritten(p);
    }

    method SetAvailible(p: Player, availible: bool)
      requires Wf() && Knows(p)
      modifies p`availible
      ensures Wf() && Abs() == Lobby.SetAvailible(old(Abs()), p.address, availible)
    {
      p.availible := availible;
      PlayerWritten(p);
    }

    method SetInGame(p: Player, inGame: bool)
      requires Wf() && Knows(p)
      modifies p`inGame
      ensures Wf() && Abs() == Lobby.SetInGame(old(Abs()), p.address, inGame)
    {
      p.inGame := inGame;
      PlayerWritten(p);
    }

    method SetLost(p: Player)
      requires Wf() && Knows(p)
      modifies p`lost
      ensures Wf() && Abs() == Lobby.SetLost(old(Abs()), p.address)
    {
      p.lost := true;
      PlayerWritten(p);
    }

    method CountBullshit(p: Player)
      requires Wf() && Knows(p)
      modifies p`bullshitMessages
      ensures Wf() && Abs() == Lobby.CountGarbage(old(Abs()), p.address)
    {
      p.bullshitMessages := p.bullshitMessages + 1;
      PlayerWritten(p);
    }

    method SetJoining(p: Player, joining: Player?)
      requires Wf() && Knows(p) && Knows(joining)
      modifies p`joiningPlayer
      ensures Wf() && Abs() == Lobby.SetJoining(old(Abs()), p.address, AddressOf(joining))
    {
      p.joiningPlayer := joining;
      PlayerWritten(p);
    }

    method SetAskedBy(p: Player, asking: Player?)
      requires Wf() && Knows(p) && Knows(asking)
      modifies p`askedForJoiningBy
      ensures Wf() && Abs() == Lobby.SetAskedBy(old(Abs()), p.address, AddressOf(asking))
    {
      p.askedForJoiningBy := asking;
      PlayerWritten(p);
    }

    method SetPlayer1(g: Game, p: Player)
      requires Wf() && KnowsGame(g) && Knows(p)
      modifies g`p1
      ensures Wf() && Abs() == Lobby.SetPlayer1(old(Abs()), g.address, p.address)
    {
      g.p1 := p;
      GameWritten(g);
    }

    method SetPlayer2(g: Game, p: Player)
      requires Wf() && KnowsGame(g) && Knows(p)
      modifies g`p2
      ensures Wf() && Abs() == Lobby.SetPlayer2(old(Abs()), g.address, p.address)
    {
      g.p2 := p;
      GameWritten(g);
    }

    method SetPlayerOnTurn(g: Game, p: Player)
      requires Wf() && KnowsGame(g) && Knows(p)
      modifies g`playerOnTurn
      ensures Wf() && Abs() == Lobby.SetTurn(old(Abs()), g.address, p.address)
    {
      g.playerOnTurn := p;
      GameWritten(g);
    }

    method SetField(g: Game, i: int, j: int, card: int)
      requires Wf() && KnowsGame(g) && g.Valid() && Pos(i, j) in AllCells()
      modifies g.field
      ensures Wf() && Abs() == Lobby.SetField(old(Abs()), g.address, Pos(i, j), card)
    {
      g.field[i, j] := card;
      assert BoardOf(g.field) == old(BoardOf(g.field))[Pos(i, j) := card];
      GameWritten(g);
    }

    // ---------- the registers and the sender ----------

    /** When only a reply has been sent, the objects hang together as before. */
    twostate lemma StillHangTogether()
      requires old(Wf()) && known == old(known) && knownGames == old(knownGames)
      requires unchanged(server) && unchanged(gameManager)
      requires forall q :: q in known.Values ==> unchanged(q)
      requires forall g :: g in knownGames.Values ==> unchanged(g) && unchanged(g.field)
      ensures Wf()
    {
    }

    twostate lemma OnlySent()
      requires old(Wf()) && known == old(known) && knownGames == old(knownGames)
      requires unchanged(server) && unchanged(gameManager)
      requires forall q :: q in known.Values ==> unchanged(q)
      requires forall g :: g in knownGames.Values ==> unchanged(g) && unchanged(g.field)
      ensures Wf() && Abs() == old(Abs()).(sent := sent)
    {
      StillHangTogether();
      PlayersUntouched();
      GamesUntouched();
    }

    method RegisterMessage(p: Player, reply: Reply)
      requires Wf() && Knows(p)
      modifies this`sent
      ensures Wf() && Abs() == Send(old(Abs()), p.address, reply)
    {
      ReadsPlayer(p);
      assert sent == Abs().sent;
      hide Wf, Abs;
      sent := sent + [Sent(p.socket, reply)];
      OnlySent();
    }

    /** A new connection: a new player object at an address never used before. */
    method AddPlayer(address: Address, socket: int) returns (p: Player)
      requires Wf() && address != NULL && address !in known
      modifies this`known, server`players
      ensures Wf() && fresh(p) && Knows(p) && known == old(known)[address := p] && knownGames == old(knownGames)
      ensures Abs() == Connect(old(Abs()), address, socket)
    {
      p := new Player(address, socket);
      server.players := server.players + [p];
      known := known[address := p];
      KnowsOneMore(p);
      PlayerAdded(p);
      GamesUntouched();
    }

    /** A fresh player that points to nobody fits in. */
    twostate lemma KnowsOneMore(new p: Player)
      requires old(Wf()) && p.address != NULL && p.address !in old(known)
      requires p.joiningPlayer == null && p.askedForJoiningBy == null
      requires known == old(known)[p.address := p] && knownGames == old(knownGames)
      requires forall q :: q in old(known.Values) ==> unchanged(q)
      requires forall g :: g in old(knownGames.Values) ==> unchanged(g)
      requires unchanged(gameManager) && server.players == old(server.players) + [p]
      ensures Wf()
    {
      forall q | q in known.Values ensures q == p || q in old(known.Values) {
        var a :| a in known && known[a] == q;
        assert a != p.address ==> old(known)[a] == q;
      }
    }

    /** A new game object, at an address never used before, in the register of games. */
    method AddGame(p1: Player, p2: Player, address: Address) returns (g: Game)
      requires Wf() && Knows(p1) && Knows(p2) && address != NULL && address !in knownGames
      modifies this`knownGames, gameManager
      ensures Wf() && fresh(g) && fresh(g.field) && KnowsGame(g) && g.address == address
      ensures known == old(known) && knownGames == old(knownGames)[address := g]
      ensures Abs() == Lobby.AddGame(old(Abs()), address, p1.address, p2.address)
    {
      g := gameManager.RegisterGame(p1, p2, address);
      knownGames := knownGames[address := g];
      KnowsOneMoreGame(g);
      GameAdded(g);
      PlayersUntouched();
    }

    /** A fresh game with a board of its own fits in. */
    twostate lemma KnowsOneMoreGame(new g: Game)
      requires old(Wf()) && g.address != NULL && g.address !in old(knownGames) && g.Valid()
      requires Knows(g.p1) && Knows(g.p2) && g.playerOnTurn == null
      requires known == old(known) && knownGames == old(knownGames)[g.address := g]
      requires forall q :: q in old(known.Values) ==> unchanged(q)
      requires forall h :: h in old(knownGames.Values) ==> unchanged(h) && h.field != g.field
      requires unchanged(server) && gameManager.games == old(gameManager.games) + [g]
      ensures Wf()
    {
      forall h | h in knownGames.Values ensures h == g || h in old(knownGames.Values) {
        var a :| a in knownGames && knownGames[a] == h;
        assert a != g.address ==> old(knownGames)[a] == h;
      }
    }

    lemma ErasedAddresses(k: nat)
      requires k < |server.players|
      ensures var erased := EraseAt(server.players, k);
              && AddressesOf(erased) == EraseAt(AddressesOf(server.players), k)
              && forall p :: p in erased ==> p in server.players
    {
    }

    lemma ErasedGameAddresses(k: nat)
      requires k < |gameManager.games|
      ensures var erased := EraseAt(gameManager.games, k);
              && GameAddressesOf(erased) == EraseAt(GameAddressesOf(gameManager.games), k)
              && forall g :: g in erased ==> g in gameManager.games
    {
    }

    /** Erasing players from the register changes nothing else. */
    twostate lemma PlayersErased()
      requires old(Wf()) && unchanged(this) && unchanged(gameManager)
      requires forall p :: p in server.players ==> p in old(server.players)
      requires forall q :: q in known.Values ==> unchanged(q)
      requires forall g :: g in knownGames.Values ==> unchanged(g) && unchanged(g.field)
      ensures Wf() && Abs() == old(Abs()).(players := AddressesOf(server.players))
    {
      RegisterWritten();
    }

    /** Erasing games from the register changes nothing else. */
    twostate lemma GamesErased()
      requires old(Wf()) && unchanged(this) && unchanged(server)
      requires forall g :: g in gameManager.games ==> g in old(gameManager.games)
      requires gameManager.maxGameId == old(gameManager.maxGameId)
      requires forall q :: q in known.Values ==> unchanged(q)
      requires forall g :: g in knownGames.Values ==> unchanged(g) && unchanged(g.field)
      ensures Wf() && Abs() == old(Abs()).(games := GameAddressesOf(gameManager.games))
    {
      RegisterWritten();
    }

    method DeletePlayer(p: Player)
      requires Wf() && Knows(p) && server.players != []
      modifies server`players
      ensures Wf() && Abs() == Lobby.DeletePlayer(old(Abs()), p.address)
      ensures |server.players| == old(|server.players|) - 1
    {
      PlayersAgree();
      ReadsPlayer(p);
      ghost var k := StopIndex(Names(Abs()), p.name);
      ErasedAddresses(k);
      server.DeletePlayer(p);
      PlayersErased();
    }

    method DeleteGame(g: Game)
      requires Wf() && KnowsGame(g) && gameManager.games != []
      modifies gameManager`games
      ensures Wf() && Abs() == Lobby.DeleteGame(old(Abs()), g.address)
    {
      GamesAgree();
      ReadsGame(g);
      ghost var k := StopIndex(Ids(Abs()), g.id);
      ErasedGameAddresses(k);
      gameManager.DeleteGame(g);
      GamesErased();
    }

    /** Losing a socket and forgetting whom one asked upsets nothing. */
    twostate lemma ForgettingFits(who: Player)
      requires old(Wf()) && Knows(who) && unchanged(this) && unchanged(gameManager)
      requires forall q :: q in known.Values && q != who ==> unchanged(q)
      requires forall g :: g in knownGames.Values ==> unchanged(g) && unchanged(g.field)
      requires who.joiningPlayer == null || who.joiningPlayer == old(who.joiningPlayer)
      requires who.askedForJoiningBy == old(who.askedForJoiningBy)
      requires forall q :: q in server.players ==> q in old(server.players)
      ensures Wf()
      ensures Abs().store == old(Abs()).store[who.address := who.Record()]
      ensures Abs() == old(Abs()).(store := Abs().store, players := AddressesOf(server.players))
    {
      OneRecordWritten(who);
    }

    /** The register's part of a disconnection: out of a game the player is erased, in a game only the socket goes. */
    method RemoveConnection(socket: int) returns (p: Player)
      requires Wf() && PlayerBySocket(Abs(), socket) != NULL
      modifies server`players, server.players
      ensures Wf() && Knows(p) && p.address == PlayerBySocket(old(Abs()), socket)
      ensures Abs() == Lobby.RemoveConnection(old(Abs()), socket)
      ensures p.inGame == At(old(Abs()), p.address).inGame && p.name == At(old(Abs()), p.address).name
      ensures p.inGame ==> server.players == old(server.players)
    {
      hide Wf, Abs, SocketsOf, Sockets;
      PlayersAgree();
      ghost var k := FirstIndex(SocketsOf(server.players), (true, socket));
      ghost var who := server.players[k];
      assert who in server.players;
      ReadsPlayer(who);
      ErasedAddresses(k);
      p := server.ProceedPlayerDisconnection(socket, who);
      ForgettingFits(who);
      ghost var unplugged := old(who.Record()).(socket := NO_SOCKET, socketSet := false);
      TwoWrites(old(Abs().store), who.address, unplugged, who.Record());
    }
  }

  lemma TwoWrites(m: map<Address, PlayerRecord>, p: Address, r: PlayerRecord, t: PlayerRecord)
    ensures m[p := r][p := t] == m[p := t]
  {
  }

  function GameAddressOf(g: Game?): Address {
    if g == null then NULL else g.address
  }
}
