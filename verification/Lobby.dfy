/** The server's lobby and games as one value, and what each command does to it. */
module Lobby {
  import opened Board
  import opened LoopSearch
  import opened Players
  import opened Games
  import opened Text
  import opened Vectors

  /** What the server tells a client. */
  datatype Reply =
    | Ack
    | Nack
    | NackReason(reason: string)
    | PlayerList(count: nat, names: string)
    | JoinRequest(asking: string)
    | GameStart(first: string, opponent: string)
    | GameMove(card: int, i: int, j: int)
    | GameWon(winner: string, card: int, i: int, j: int)
    | GameEnded
    | PlayerLoss
    | GameContinues(onTurn: string, opponent: string, board: string)

  /** A reply handed to the sender, with the socket it goes to. */
  datatype Sent = Sent(socket: int, reply: Reply)

  /** `store` and `records` hold every player and game object there has been, registered or not. */
  datatype State = State(
    store: map<Address, PlayerRecord>,
    players: seq<Address>,
    records: map<Address, GameRecord>,
    games: seq<Address>,
    maxGameId: int,
    sent: seq<Sent>)

  const MAX_BULLSHIT := 10

  const EMPTY := State(map[], [], map[], [], 0, [])

  // ---------- the pieces the handlers share ----------

  /** The record at an address. Nothing is ever read at an address without one, see LobbyInvariant. */
  function At(s: State, p: Address): PlayerRecord {
    if p in s.store then s.store[p] else FreshRecord(NO_SOCKET)
  }

  function GameAt(s: State, g: Address): GameRecord {
    if g in s.records then s.records[g] else GameRecord(-1, NULL, NULL, NULL, map[])
  }

  function Put(s: State, p: Address, r: PlayerRecord): State {
    s.(store := s.store[p := r])
  }

  function SetName(s: State, p: Address, name: string): State {
    Put(s, p, At(s, p).(name := name, nameSet := true))
  }

  function SetAvailible(s: State, p: Address, availible: bool): State {
    Put(s, p, At(s, p).(availible := availible))
  }

  function SetInGame(s: State, p: Address, inGame: bool): State {
    Put(s, p, At(s, p).(inGame := inGame))
  }

  function SetJoining(s: State, p: Address, joining: Address): State {
    Put(s, p, At(s, p).(joining := joining))
  }

  function SetAskedBy(s: State, p: Address, asking: Address): State {
    Put(s, p, At(s, p).(askedBy := asking))
  }

  function SetLost(s: State, p: Address): State {
    Put(s, p, At(s, p).(lost := true))
  }

  function CountGarbage(s: State, p: Address): State {
    Put(s, p, At(s, p).(bullshit := At(s, p).bullshit + 1))
  }

  /** The connection of `p` is gone. */
  function RemoveSocket(s: State, p: Address): State {
    Put(s, p, At(s, p).(socket := NO_SOCKET, socketSet := false))
  }

  function PutGame(s: State, g: Address, r: GameRecord): State {
    s.(records := s.records[g := r])
  }

  function SetPlayer1(s: State, g: Address, p: Address): State {
    PutGame(s, g, GameAt(s, g).(p1 := p))
  }

  function SetPlayer2(s: State, g: Address, p: Address): State {
    PutGame(s, g, GameAt(s, g).(p2 := p))
  }

  function SetTurn(s: State, g: Address, p: Address): State {
    PutGame(s, g, GameAt(s, g).(onTurn := p))
  }

  function SetField(s: State, g: Address, at: Pos, card: int): State {
    PutGame(s, g, GameAt(s, g).(board := GameAt(s, g).board[at := card]))
  }

  /** A new game object at an address, registered under a new id; nobody is on turn yet. */
  function AddGame(s: State, g: Address, p1: Address, p2: Address): State {
    s.(records := s.records[g := GameRecord(s.maxGameId, p1, p2, NULL, EmptyBoard())],
       games := s.games + [g], maxGameId := s.maxGameId + 1)
  }

  function Send(s: State, p: Address, reply: Reply): State {
    s.(sent := s.sent + [Sent(At(s, p).socket, reply)])
  }

  function Names(s: State): (names: seq<string>)
    ensures |names| == |s.players|
  {
    seq(|s.players|, k requires 0 <= k < |s.players| => At(s, s.players[k]).name)
  }

  /** Per player whether there is a socket, and which. */
  function Sockets(s: State): (sockets: seq<(bool, int)>)
    ensures |sockets| == |s.players|
  {
    seq(|s.players|, k requires 0 <= k < |s.players| =>
      (At(s, s.players[k]).socketSet, At(s, s.players[k]).socket))
  }

  /** Per game the names of its two players. */
  function NamePairs(s: State): (pairs: seq<(string, string)>)
    ensures |pairs| == |s.games|
  {
    seq(|s.games|, k requires 0 <= k < |s.games| =>
      (At(s, GameAt(s, s.games[k]).p1).name, At(s, GameAt(s, s.games[k]).p2).name))
  }

  function Ids(s: State): (ids: seq<int>)
    ensures |ids| == |s.games|
  {
    seq(|s.games|, k requires 0 <= k < |s.games| => GameAt(s, s.games[k]).id)
  }

  /** The first registered player of this name, NULL if there is none. */
  function PlayerByName(s: State, name: string): Address {
    var k := FirstIndex(Names(s), name);
    if k < |s.players| then s.players[k] else NULL
  }

  lemma NameOfFound(s: State, name: string)
    ensures PlayerByName(s, name) != NULL ==> At(s, PlayerByName(s, name)).name == name
  {
  }

  /** The first registered player connected on this socket, NULL if there is none. */
  function PlayerBySocket(s: State, socket: int): Address {
    var k := FirstIndex(Sockets(s), (true, socket));
    if k < |s.players| then s.players[k] else NULL
  }

  /** The game a player of this name takes part in: the last one in the register, NULL if there is none. */
  function GameByName(s: State, name: string): Address {
    var k := LastWith(NamePairs(s), name);
    if k >= 0 then s.games[k] else NULL
  }

  /** The other side of a game, seen from a player of this name. */
  function Opponent(s: State, g: Address, name: string): Address {
    if At(s, GameAt(s, g).p1).name == name then GameAt(s, g).p2 else GameAt(s, g).p1
  }

  /** Erases the first registered player with the name of `p`. */
  function DeletePlayer(s: State, p: Address): State {
    if s.players == [] then s
    else s.(players := EraseAt(s.players, StopIndex(Names(s), At(s, p).name)))
  }

  /** Erases the first registered game with the id of `g`. */
  function DeleteGame(s: State, g: Address): State {
    if s.games == [] then s
    else s.(games := EraseAt(s.games, StopIndex(Ids(s), GameAt(s, g).id)))
  }

  /** The part of the register of players in a disconnection. */
  function RemoveConnection(s: State, socket: int): State {
    var p := PlayerBySocket(s, socket);
    if p == NULL then s
    else if At(s, p).inGame then RemoveSocket(s, p)
    else
      var s1 := s.(players := EraseAt(s.players, FirstIndex(Sockets(s), (true, socket))));
      SetJoining(RemoveSocket(s1, p), p, NULL)
  }

  // ---------- the handlers ----------

  /** A connection is accepted; `p` is the address of the new player object. */
  function Connect(s: State, p: Address, socket: int): State {
    s.(store := s.store[p := FreshRecord(socket)], players := s.players + [p])
  }

  function NewPlayer(s: State, p: Address, name: string): State {
    if PlayerByName(s, name) == NULL then Send(SetAvailible(SetName(s, p, name), p, true), p, Ack)
    else Send(s, p, NackReason("Username already in use!"))
  }

  predicate IsListed(r: PlayerRecord, requester: string) {
    !r.inGame && r.availible && r.socketSet && r.nameSet && r.name != requester
  }

  /** The names listed for a requester out of the first `n` players. */
  function ListedNames(s: State, n: nat, requester: string): (names: seq<string>)
    requires n <= |s.players|
    ensures forall name :: name in names <==>
              exists k :: 0 <= k < n && IsListed(At(s, s.players[k]), requester) && At(s, s.players[k]).name == name
  {
    if n == 0 then []
    else
      var before := ListedNames(s, n - 1, requester);
      var r := At(s, s.players[n - 1]);
      if IsListed(r, requester) then before + [r.name] else before
  }

  function ListRequest(s: State, p: Address): State {
    var names := ListedNames(s, |s.players|, At(s, p).name);
    Send(s, p, PlayerList(|names|, Join(names)))
  }

  predicate MayTakeOver(s: State, name: string) {
    PlayerByName(s, name) != NULL && At(s, PlayerByName(s, name)).lost
  }

  /** The connection `p` asks to take the place of the lost player of this name. */
  function Reconnect(s: State, p: Address, name: string): State {
    if MayTakeOver(s, name) then DeletePlayer(GiveSeat(s, p, name), PlayerByName(s, name))
    else Send(s, p, Nack)
  }

  /** The connection `p` gets the name and the seat; both players are told where the game stands. */
  function GiveSeat(s: State, p: Address, name: string): State {
    var s1 := Rename(s, p, name);
    var g := GameByName(s1, name);
    var s2 := Reseat(s1, g, name, p);
    TellBoth(s2, g, p, Opponent(s2, GameByName(s2, name), name))
  }

  /** The connection `p` under the name of the player it comes back as. */
  function Rename(s: State, p: Address, name: string): State {
    SetInGame(SetAvailible(SetName(s, p, name), p, false), p, true)
  }

  /** `p` in the seat of the player of this name. */
  function Reseat(s: State, g: Address, name: string, p: Address): State {
    if At(s, GameAt(s, g).p1).name == name then SetPlayer1(s, g, p) else SetPlayer2(s, g, p)
  }

  function TellBoth(s: State, g: Address, p: Address, opponent: Address): State {
    Send(Send(s, p, Continues(s, g, opponent)), opponent, Continues(s, g, p))
  }

  /** The lost player is in a registered game that somebody is on turn in, before and after the seat changes hands. */
  predicate CanGiveSeat(s: State, p: Address, name: string) {
    var s1 := Rename(s, p, name);
    var g := GameByName(s1, name);
    var s2 := Reseat(s1, g, name, p);
    g != NULL && GameByName(s2, name) != NULL && GameAt(s2, g).onTurn != NULL
  }

  /** Where game `g` stands, for the player whose opponent is `opponent`. */
  function Continues(s: State, g: Address, opponent: Address): Reply {
    GameContinues(At(s, GameAt(s, g).onTurn).name, At(s, opponent).name, BoardText(GameAt(s, g).board))
  }

  predicate Joinable(r: PlayerRecord) {
    r.availible && r.socketSet && !r.inGame
  }

  function JoinPlayer(s: State, p: Address, name: string): State {
    var opponent := PlayerByName(s, name);
    if opponent != NULL && Joinable(At(s, opponent)) then Ask(s, p, opponent) else Send(s, p, Nack)
  }

  /** The requester is acknowledged, the opponent asked, and both are no longer available. */
  function Ask(s: State, p: Address, opponent: Address): State {
    var s1 := SetJoining(SetAvailible(Send(s, p, Ack), p, false), p, opponent);
    var s2 := SetAskedBy(Send(s1, opponent, JoinRequest(At(s1, p).name)), opponent, p);
    SetAvailible(SetAvailible(s2, p, false), opponent, false)
  }

  /** `game` is the address of the game object, should a game start. */
  function AcceptJoin(s: State, p: Address, game: Address): State {
    var asking := At(s, p).askedBy;
    var s1 := SetJoining(SetAskedBy(s, p, NULL), p, NULL);
    var s2 := SetAvailible(SetAvailible(s1, asking, false), p, false);
    if At(s2, asking).joining != NULL then StartGame(s2, asking, p, game)
    else if At(s2, p).socketSet then Send(s2, p, NackReason("Player who asked is gone"))
    else s2
  }

  /** The asking player opens the game. */
  function StartGame(s: State, asking: Address, asked: Address, game: Address): State {
    var s1 := SetInGame(SetInGame(AddGame(s, game, asking, asked), asking, true), asked, true);
    var s2 := SetTurn(s1, game, asking);
    Send(Send(s2, asking, GameStart(At(s2, asking).name, At(s2, asked).name)),
         asked, GameStart(At(s2, asking).name, At(s2, asking).name))
  }

  function DeclineJoin(s: State, p: Address): State {
    var asking := At(s, p).askedBy;
    var s1 := SetJoining(SetAskedBy(s, p, NULL), p, NULL);
    var s2 := if At(s1, asking).socketSet then Send(s1, asking, NackReason("Oponent declined")) else s1;
    SetAvailible(SetAvailible(s2, asking, true), p, true)
  }

  function Move(s: State, p: Address, card: int, i: int, j: int): State {
    var name := At(s, p).name;
    var g := GameByName(s, name);
    var opponent := Opponent(s, g, name);
    var s1 := SetField(s, g, Pos(i, j), card);
    if MoveWins(GameAt(s1, g).board, Pos(i, j)) then Win(s1, g, p, opponent, GameWon(name, card, i, j))
    else Send(SetTurn(s1, g, opponent), opponent, GameMove(card, i, j))
  }

  /** Both players are told who won, leave the game and may be asked for a new one; the game is erased. */
  function Win(s: State, g: Address, p: Address, opponent: Address, won: Reply): State {
    var s1 := Send(Send(s, p, won), opponent, won);
    var s2 := SetInGame(SetInGame(s1, p, false), opponent, false);
    DeleteGame(SetAvailible(SetAvailible(s2, p, true), opponent, true), g)
  }

  /** A player leaves the running game; with the opponent lost, the opponent's record goes too. */
  function EndGame(s: State, p: Address): State {
    var name := At(s, p).name;
    var g := GameByName(s, name);
    var opponent := Opponent(s, g, name);
    DeleteGame(
      if At(s, opponent).lost then LeaveLost(s, p, opponent) else LeaveBoth(s, p, opponent), g)
  }

  function LeaveLost(s: State, p: Address, opponent: Address): State {
    SetInGame(SetAvailible(DeletePlayer(s, opponent), p, true), p, false)
  }

  function LeaveBoth(s: State, p: Address, opponent: Address): State {
    var s1 := SetInGame(SetInGame(s, p, false), opponent, false);
    Send(SetAvailible(SetAvailible(s1, p, true), opponent, true), opponent, GameEnded)
  }

  function Logout(s: State, p: Address): State {
    if At(s, p).inGame then EndGame(s, p) else Disconnect(s, At(s, p).socket)
  }

  /** Whoever is on the socket, if in a game, has one in the register. */
  predicate CanLeave(s: State, socket: int) {
    var p := PlayerBySocket(s, socket);
    p != NULL && (At(s, p).inGame ==> GameByName(RemoveConnection(s, socket), At(s, p).name) != NULL)
  }

  /** The connection on a socket is gone. Out of a game the player is erased, in a game the player counts as lost. */
  function Disconnect(s: State, socket: int): State {
    var p := PlayerBySocket(s, socket);
    if p == NULL then s
    else if At(s, p).inGame then LosePlayer(RemoveConnection(s, socket), p)
    else RemoveConnection(s, socket)
  }

  function LosePlayer(s: State, p: Address): State {
    var name := At(s, p).name;
    var g := GameByName(s, name);
    var opponent := Opponent(s, g, name);
    var s1 := SetLost(s, p);
    if At(s1, opponent).lost then EraseBoth(s1, g, p, opponent) else Send(s1, opponent, PlayerLoss)
  }

  /** A game is erased, then both its players. */
  function EraseBoth(s: State, g: Address, p: Address, opponent: Address): State {
    DeletePlayer(DeletePlayer(CloseGame(s, g, p, opponent), opponent), p)
  }

  function CloseGame(s: State, g: Address, p: Address, opponent: Address): State {
    SetInGame(SetInGame(DeleteGame(s, g), opponent, false), p, false)
  }

  /** A packet nobody can read arrived; the tenth one from a player costs the connection. */
  function Garbage(s: State, socket: int): State {
    var p := PlayerBySocket(s, socket);
    if p == NULL then s else DropAtTenth(CountGarbage(s, p), p, socket)
  }

  function DropAtTenth(s: State, p: Address, socket: int): State {
    if At(s, p).bullshit >= MAX_BULLSHIT then Disconnect(s, socket) else s
  }
}
