/** The register of running games and the check for a winning move. */
module GameManagers {
  import opened Board
  import opened LoopSearch
  import opened Tiles
  import opened Players
  import opened Games
  import opened Vectors

  /** The cells marked in a visited array. */
  ghost function Marks(ctrlField: array2<bool>): set<Pos>
    requires ctrlField.Length0 == SIZE && ctrlField.Length1 == SIZE
    reads ctrlField
  {
    set p | p in AllCells() && ctrlField[p.i, p.j]
  }

  /** One branch of a black search: step to (toI, toJ) unless that is where the search came from. */
  method LeaveBlack(field: array2<int>, ctrlField: array2<bool>, toI: int, toJ: int, i: int, j: int,
                  fromI: int, fromJ: int, ghost d: Dir)
    returns (found: bool)
    requires field.Length0 == SIZE && field.Length1 == SIZE
    requires ctrlField.Length0 == SIZE && ctrlField.Length1 == SIZE
    requires Pos(toI, toJ) == Step(Pos(i, j), d)
    modifies ctrlField
    ensures (found, Marks(ctrlField))
         == Leave(Black, BoardOf(field), old(Marks(ctrlField)), Pos(i, j), d, Pos(fromI, fromJ))
    decreases AllCells() - Marks(ctrlField), 1
  {
    found := false;
    if fromI != toI || fromJ != toJ {
      found := ControlBlack(field, ctrlField, toI, toJ, i, j);
    }
  }

  method ControlBlack(field: array2<int>, ctrlField: array2<bool>, i: int, j: int, fromI: int, fromJ: int)
    returns (found: bool)
    requires field.Length0 == SIZE && field.Length1 == SIZE
    requires ctrlField.Length0 == SIZE && ctrlField.Length1 == SIZE
    modifies ctrlField
    ensures (found, Marks(ctrlField))
         == Search(Black, BoardOf(field), old(Marks(ctrlField)), Pos(i, j), Pos(fromI, fromJ))
    ensures IsRightWhenFresh(Black, BoardOf(field), old(Marks(ctrlField)), Pos(i, j), Pos(fromI, fromJ), found)
    decreases AllCells() - Marks(ctrlField), 0
  {
    hide IsRightWhenFresh;
    SearchIsRight(Black, BoardOf(field), Marks(ctrlField), Pos(i, j), Pos(fromI, fromJ));
    if i < 0 || i > SIZE - 1 || j < 0 || j > SIZE - 1 {
      assert Pos(i, j) !in BoardOf(field);
      return false;
    }
    CellOf(field, i, j);
    if field[i, j] == 0 { return false; }

    if ctrlField[i, j] {
      return true;
    } else {
      ctrlField[i, j] := true;
    }
    assert Marks(ctrlField) == old(Marks(ctrlField)) + {Pos(i, j)};
    assert old(Marks(ctrlField)) < Marks(ctrlField) <= AllCells();
    hide BoardOf, Marks, AllCells;

    found := false;
    match field[i, j] {
      case 1 =>
        found := LeaveBlack(field, ctrlField, i - 1, j, i, j, fromI, fromJ, Up);
        if found { return true; }
        found := LeaveBlack(field, ctrlField, i + 1, j, i, j, fromI, fromJ, Down);
      case 2 =>
        found := LeaveBlack(field, ctrlField, i, j - 1, i, j, fromI, fromJ, Left);
        if found { return true; }
        found := LeaveBlack(field, ctrlField, i, j + 1, i, j, fromI, fromJ, Right);
      case 3 =>
        found := LeaveBlack(field, ctrlField, i + 1, j, i, j, fromI, fromJ, Down);
        if found { return true; }
        found := LeaveBlack(field, ctrlField, i, j + 1, i, j, fromI, fromJ, Right);
      case 4 =>
        found := LeaveBlack(field, ctrlField, i - 1, j, i, j, fromI, fromJ, Up);
        if found { return true; }
        found := LeaveBlack(field, ctrlField, i, j + 1, i, j, fromI, fromJ, Right);
      case 5 =>
        found := LeaveBlack(field, ctrlField, i - 1, j, i, j, fromI, fromJ, Up);
        if found { return true; }
        found := LeaveBlack(field, ctrlField, i, j - 1, i, j, fromI, fromJ, Left);
      case 6 =>
        found := LeaveBlack(field, ctrlField, i + 1, j, i, j, fromI, fromJ, Down);
        if found { return true; }
        found := LeaveBlack(field, ctrlField, i, j - 1, i, j, fromI, fromJ, Left);
      case _ =>
    }
  }

  /** One branch of a white search: step to (toI, toJ) unless that is where the search came from. */
  method LeaveWhite(field: array2<int>, ctrlField: array2<bool>, toI: int, toJ: int, i: int, j: int,
                  fromI: int, fromJ: int, ghost d: Dir)
    returns (found: bool)
    requires field.Length0 == SIZE && field.Length1 == SIZE
    requires ctrlField.Length0 == SIZE && ctrlField.Length1 == SIZE
    requires Pos(toI, toJ) == Step(Pos(i, j), d)
    modifies ctrlField
    ensures (found, Marks(ctrlField))
         == Leave(White, BoardOf(field), old(Marks(ctrlField)), Pos(i, j), d, Pos(fromI, fromJ))
    decreases AllCells() - Marks(ctrlField), 1
  {
    found := false;
    if fromI != toI || fromJ != toJ {
      found := ControlWhite(field, ctrlField, toI, toJ, i, j);
    }
  }

  method ControlWhite(field: array2<int>, ctrlField: array2<bool>, i: int, j: int, fromI: int, fromJ: int)
    returns (found: bool)
    requires field.Length0 == SIZE && field.Length1 == SIZE
    requires ctrlField.Length0 == SIZE && ctrlField.Length1 == SIZE
    modifies ctrlField
    ensures (found, Marks(ctrlField))
         == Search(White, BoardOf(field), old(Marks(ctrlField)), Pos(i, j), Pos(fromI, fromJ))
    ensures IsRightWhenFresh(White, BoardOf(field), old(Marks(ctrlField)), Pos(i, j), Pos(fromI, fromJ), found)
    decreases AllCells() - Marks(ctrlField), 0
  {
    hide IsRightWhenFresh;
    SearchIsRight(White, BoardOf(field), Marks(ctrlField), Pos(i, j), Pos(fromI, fromJ));
    if i < 0 || i > SIZE - 1 || j < 0 || j > SIZE - 1 {
      assert Pos(i, j) !in BoardOf(field);
      return false;
    }
    CellOf(field, i, j);
    if field[i, j] == 0 { return false; }

    if ctrlField[i, j] {
      return true;
    } else {
      ctrlField[i, j] := true;
    }
    assert Marks(ctrlField) == old(Marks(ctrlField)) + {Pos(i, j)};
    assert old(Marks(ctrlField)) < Marks(ctrlField) <= AllCells();
    hide BoardOf, Marks, AllCells;

    found := false;
    match field[i, j] {
      case 1 =>
        found := LeaveWhite(field, ctrlField, i, j - 1, i, j, fromI, fromJ, Left);
        if found { return true; }
        found := LeaveWhite(field, ctrlField, i, j + 1, i, j, fromI, fromJ, Right);
      case 2 =>
        found := LeaveWhite(field, ctrlField, i - 1, j, i, j, fromI, fromJ, Up);
        if found { return true; }
        found := LeaveWhite(field, ctrlField, i + 1, j, i, j, fromI, fromJ, Down);
      case 3 =>
        found := LeaveWhite(field, ctrlField, i - 1, j, i, j, fromI, fromJ, Up);
        if found { return true; }
        found := LeaveWhite(field, ctrlField, i, j - 1, i, j, fromI, fromJ, Left);
      case 4 =>
        found := LeaveWhite(field, ctrlField, i + 1, j, i, j, fromI, fromJ, Down);
        if found { return true; }
        found := LeaveWhite(field, ctrlField, i, j - 1, i, j, fromI, fromJ, Left);
      case 5 =>
        found := LeaveWhite(field, ctrlField, i + 1, j, i, j, fromI, fromJ, Down);
        if found { return true; }
        found := LeaveWhite(field, ctrlField, i, j + 1, i, j, fromI, fromJ, Right);
      case 6 =>
        found := LeaveWhite(field, ctrlField, i - 1, j, i, j, fromI, fromJ, Up);
        if found { return true; }
        found := LeaveWhite(field, ctrlField, i, j + 1, i, j, fromI, fromJ, Right);
      case _ =>
    }
  }

  method ClearMarks(ctrlField: array2<bool>)
    requires ctrlField.Length0 == SIZE && ctrlField.Length1 == SIZE
    modifies ctrlField
    ensures Marks(ctrlField) == {}
  {
    var i := 0;
    while i < SIZE
      invariant 0 <= i <= SIZE
      invariant forall k, l :: 0 <= k < i && 0 <= l < SIZE ==> !ctrlField[k, l]
    {
      var j := 0;
      while j < SIZE
        invariant 0 <= j <= SIZE
        invariant forall k, l :: 0 <= k < i && 0 <= l < SIZE ==> !ctrlField[k, l]
        invariant forall l :: 0 <= l < j ==> !ctrlField[i, l]
      {
        ctrlField[i, j] := false;
        j := j + 1;
      }
      i := i + 1;
    }
  }

  /** Per game the names of its two players. */
  function NamePairsOf(games: seq<Game>): (pairs: seq<(string, string)>)
    reads games, set g | g in games :: g.p1, set g | g in games :: g.p2
    ensures |pairs| == |games|
  {
    seq(|games|, k requires 0 <= k < |games|
                   reads games, set g | g in games :: g.p1, set g | g in games :: g.p2 =>
      (games[k].p1.name, games[k].p2.name))
  }

  function IdsOf(games: seq<Game>): (ids: seq<int>)
    ensures |ids| == |games|
  {
    seq(|games|, k requires 0 <= k < |games| => games[k].id)
  }

  class GameManager {
    var games: seq<Game>
    var maxGameId: int

    constructor ()
      ensures games == [] && maxGameId == 0
    {
      games := [];
      maxGameId := 0;
    }

    /** The last registered game with a player of the name of `p`. */
    method GetGameByPlayer(p: Player) returns (game: Game?)
      ensures game == var k := LastWith(NamePairsOf(games), p.name); if k >= 0 then games[k] else null
    {
      game := null;
      ghost var pairs := NamePairsOf(games);
      ghost var last := -1;
      var k := 0;
      while k < |games|
        invariant 0 <= k <= |games| && -1 <= last < k
        invariant last == LastBefore(pairs, p.name, k)
        invariant game == if last >= 0 then games[last] else null
      {
        var g := games[k];
        if g.p1.name == p.name || g.p2.name == p.name {
          game := g;
          last := k;
        }
        k := k + 1;
      }
    }

    /** The other player of the game of `p`. */
    method GetPlayersOponent(p: Player) returns (oponent: Player?)
      ensures oponent ==
        var k := LastWith(NamePairsOf(games), p.name);
        if k < 0 then null else if games[k].p1.name == p.name then games[k].p2 else games[k].p1
    {
      var pG := GetGameByPlayer(p);
      if pG == null {
        return null;
      }
      if pG.p1.name == p.name {
        return pG.p2;
      } else {
        return pG.p1;
      }
    }

    /** Starts a game on an empty board under a new id; `address` is where it will live. */
    method RegisterGame(p1: Player, p2: Player, address: Address) returns (g: Game)
      modifies this
      ensures fresh(g) && fresh(g.field) && g.Valid() && g.address == address
      ensures g.p1 == p1 && g.p2 == p2 && g.playerOnTurn == null
      ensures g.Record() == GameRecord(old(maxGameId), p1.address, p2.address, NULL, EmptyBoard())
      ensures maxGameId == old(maxGameId) + 1 && games == old(games) + [g]
    {
      g := new Game(address, maxGameId, p1, p2);
      maxGameId := maxGameId + 1;
      games := games + [g];
    }

    /** Erases the first game with the id of `game`. */
    method DeleteGame(game: Game)
      requires games != []
      modifies this`games
      ensures games == EraseAt(old(games), StopIndex(IdsOf(old(games)), game.id))
    {
      var index := -1;
      var k := 0;
      while k < |games|
        invariant 0 <= k <= |games| && index == k - 1
        invariant forall l :: 0 <= l < k ==> games[l].id != game.id
      {
        index := index + 1;
        if games[k].id == game.id {
          break;
        }
        k := k + 1;
      }
      FirstFromIs(IdsOf(games), game.id, 0, k);
      games := games[..index] + games[index + 1..];
    }

    /** Whether the tile just laid on (moveI, moveJ) wins the game. On a matched board that is to say
        whether that cell lies on a closed loop of either colour. */
    method IsGameWon(game: Game, moveI: int, moveJ: int) returns (won: bool)
      requires game.Valid()
      ensures won == MoveWins(BoardOf(game.field), Pos(moveI, moveJ))
      ensures Matched(BoardOf(game.field)) ==> (won <==> LoopAt(BoardOf(game.field), Pos(moveI, moveJ)))
      ensures ColoursAgree(BoardOf(game.field)) ==> (won <==> ClosesTrack(BoardOf(game.field), Pos(moveI, moveJ)))
    {
      ghost var b := BoardOf(game.field);
      ghost var at := Pos(moveI, moveJ);
      WinMeansLoop(b, at);
      var ctrlField := new bool[SIZE, SIZE];

      ClearMarks(ctrlField);
      won := ControlWhite(game.field, ctrlField, moveI, moveJ, moveI, moveJ);
      assert won == FindsLoop(White, b, at);
      if won {
        return true;
      }

      ClearMarks(ctrlField);
      won := ControlBlack(game.field, ctrlField, moveI, moveJ, moveI, moveJ);
      assert won == FindsLoop(Black, b, at);
    }
  }

  /** The answer of a search started from fresh marks, where colours agree: whether the cell is part of a closed
      track of the colour. */
  ghost predicate IsRightWhenFresh(c: Colour, b: Board, marks: set<Pos>, p: Pos, from: Pos, found: bool) {
    ColoursAgree(b) && marks == {} && from == p ==> (found <==> OnTrack(c, b, p))
  }

  lemma SearchIsRight(c: Colour, b: Board, marks: set<Pos>, p: Pos, from: Pos)
    ensures IsRightWhenFresh(c, b, marks, p, from, Search(c, b, marks, p, from).0)
  {
    if ColoursAgree(b) { SearchDecidesTrack(c, b, p); }
  }

  lemma WinMeansLoop(b: Board, at: Pos)
    ensures MoveWins(b, at) <==> FindsLoop(White, b, at) || FindsLoop(Black, b, at)
    ensures Matched(b) ==> (MoveWins(b, at) <==> LoopAt(b, at))
    ensures ColoursAgree(b) ==> (MoveWins(b, at) <==> ClosesTrack(b, at))
  {
    if Matched(b) { WinIsLoopThere(b, at); }
    if ColoursAgree(b) { WinIsClosedTrack(b, at); }
  }
}
