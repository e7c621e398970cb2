/** A game played from the first tile to the winning one. */
module LobbyWin {
  import opened Board
  import opened LoopSearch
  import opened Lobby
  import opened LobbyInvariant
  import opened LobbySteps
  import opened LobbyRuns
  import opened LobbyExample

  /** The board holds some of the four tiles that make a black square, and no others. */
  ghost predicate PartOfSquare(b: Board) {
    forall p :: Tile(b, p) != 0 ==>
      || (p == Pos(0, 0) && Tile(b, p) == 3) || (p == Pos(0, 1) && Tile(b, p) == 6)
      || (p == Pos(1, 1) && Tile(b, p) == 5) || (p == Pos(1, 0) && Tile(b, p) == 4)
  }

  lemma SquareIsMatched(b: Board)
    requires PartOfSquare(b)
    ensures Matched(b)
  {
    forall p, d ensures SideMatches(b, p, d) { SquareSideMatches(b, p, d); }
  }

  lemma SquareSideMatches(b: Board, p: Pos, d: Dir)
    requires PartOfSquare(b)
    ensures SideMatches(b, p, d)
  {
    var q := Step(p, d);
    if Tile(b, p) != 0 && Tile(b, q) != 0 {
      assert (p.i == 0 || p.i == 1) && (p.j == 0 || p.j == 1);
      assert (q.i == 0 || q.i == 1) && (q.j == 0 || q.j == 1);
    }
  }

  lemma NoLoopWithoutTheLast(b: Board)
    requires PartOfSquare(b) && Tile(b, Pos(1, 0)) == 0
    ensures !HasLoop(b)
  {
    forall c, cells ensures !IsLoop(c, b, cells) {
      if IsLoop(c, b, cells) {
        NoSquareYet(c, b, cells);
        assert false;
      }
    }
  }

  lemma NoSquareYet(c: Colour, b: Board, cells: seq<Pos>)
    requires PartOfSquare(b) && Tile(b, Pos(1, 0)) == 0
    ensures !IsLoop(c, b, cells)
  {
    if IsLoop(c, b, cells) {
      var p := cells[0];
      LoopCellIsTile(c, b, cells, p);
      hide IsLoop;
      if c == White {
        LoopHasNoDeadEnd(c, b, cells, p, Exits(White, Tile(b, p))[if Tile(b, p) == 6 then 0 else 1]);
      } else {
        if p == Pos(1, 1) { LoopHasNoWayOut(c, b, cells, p, Up); p := Pos(0, 1); }
        if p == Pos(0, 1) { LoopHasNoWayOut(c, b, cells, p, Left); p := Pos(0, 0); }
        LoopCellIsTile(c, b, cells, p);
        LoopHasNoDeadEnd(c, b, cells, p, Down);
      }
    }
  }

  lemma SquareIsLoop(b: Board)
    requires Tile(b, Pos(0, 0)) == 3 && Tile(b, Pos(0, 1)) == 6 && Tile(b, Pos(1, 1)) == 5 && Tile(b, Pos(1, 0)) == 4
    ensures HasLoop(b)
  {
    var cells := [Pos(0, 0), Pos(0, 1), Pos(1, 1), Pos(1, 0)];
    assert HasExit(Black, b, cells[0], Right) && HasExit(Black, b, cells[1], Left);
    assert HasExit(Black, b, cells[1], Down) && HasExit(Black, b, cells[2], Up);
    assert HasExit(Black, b, cells[2], Left) && HasExit(Black, b, cells[3], Right);
    assert HasExit(Black, b, cells[3], Up) && HasExit(Black, b, cells[0], Down);
    assert IsLoop(Black, b, cells);
  }

  /** Ann and Bob are still playing, on this board. */
  ghost predicate Underway(s: State, b: Board) {
    && Reachable(s) && s.store == PLAYING.store && s.players == PLAYING.players
    && 4 in s.games && GameAt(s, 4).p1 == 2 && GameAt(s, 4).p2 == 3 && GameAt(s, 4).board == b
  }

  lemma AtPlay(p: int)
    requires p == 2 || p == 3
    ensures p in PLAYING.players && At(PLAYING, p).socketSet && At(PLAYING, p).inGame && !At(PLAYING, p).lost
  {
  }

  lemma BothAtPlay(s: State, b: Board, p: int)
    requires Underway(s, b) && (p == 2 || p == 3)
    ensures Inv(s) && BoardsOk(s)
    ensures Present(s, p) && At(s, p).inGame && !At(s, p).lost
    ensures 4 in s.games && Plays(s, 4, 2) && Plays(s, 4, 3) && GameAt(s, 4).board == b
  {
    ReachableIsSound(s);
    AtPlay(p);
    hide Inv, BoardsOk, Reachable, EmptyBoard;
    assert At(s, p) == At(PLAYING, p);
  }

  lemma MayMove(s: State, b: Board, p: int, card: int, i: int, j: int) returns (o: int)
    requires Underway(s, b) && (p == 2 || p == 3)
    requires Pos(i, j) in AllCells() && 1 <= card <= 6 && Matched(b[Pos(i, j) := card])
    ensures Inv(s) && BoardsOk(s) && Guard(s, Playing(p, card, i, j))
    ensures o == 5 - p && 4 == GameByName(s, At(s, p).name) && o == Opponent(s, 4, At(s, p).name)
    ensures !At(s, o).lost
  {
    hide Inv, GameOk, BoardsOk, Underway, Matched, AllCells, GameByName;
    BothAtPlay(s, b, 2);
    BothAtPlay(s, b, 3);
    var g;
    g, o := InGameFinds(s, p);
    TheirOnlyGame(s, g, 4, p);
    hide Opponent;
  }

  lemma TheirOnlyGame(s: State, g: int, h: int, p: int)
    requires Inv(s) && g in s.games && h in s.games && Plays(s, g, p) && Plays(s, h, p)
    ensures g == h
  {
    hide GameOk, PlayersOk, JoinsOk;
  }

  /** A move in their game, winning or not. */
  lemma OneMove(s: State, b: Board, p: int, card: int, i: int, j: int)
    requires Underway(s, b) && (p == 2 || p == 3)
    requires Pos(i, j) in AllCells() && 1 <= card <= 6 && Matched(b[Pos(i, j) := card])
    ensures
      var b' := b[Pos(i, j) := card];
      var s' := Move(s, p, card, i, j);
      && Guard(s, Playing(p, card, i, j)) && Reachable(s')
      && if HasLoop(b') then 4 !in s'.games && !At(s', 2).inGame && !At(s', 3).inGame else Underway(s', b')
  {
    var o := MayMove(s, b, p, card, i, j);
    var s' := Move(s, p, card, i, j);
    MoveErasesGameOnLoop(s, p, card, i, j);
    StepsOn(s, Playing(p, card, i, j));
    hide Inv, Guard, Reachable, Matched, Move, HasLoop, BoardsOk, EmptyBoard, Opponent, GameByName;
  }

  const START := EmptyBoard()
  const ONE := START[Pos(0, 0) := 3]
  const TWO := ONE[Pos(0, 1) := 6]
  const THREE := TWO[Pos(1, 1) := 5]
  const SQUARE := THREE[Pos(1, 0) := 4]

  lemma Boards()
    ensures Matched(ONE) && Matched(TWO) && Matched(THREE) && Matched(SQUARE)
    ensures !HasLoop(ONE) && !HasLoop(TWO) && !HasLoop(THREE) && HasLoop(SQUARE)
  {
    assert forall p :: Tile(START, p) == 0;
    assert PartOfSquare(ONE) && PartOfSquare(TWO) && PartOfSquare(THREE) && PartOfSquare(SQUARE);
    hide Matched, HasLoop;
    SquareIsMatched(ONE);
    SquareIsMatched(TWO);
    SquareIsMatched(THREE);
    SquareIsMatched(SQUARE);
    NoLoopWithoutTheLast(ONE);
    NoLoopWithoutTheLast(TWO);
    NoLoopWithoutTheLast(THREE);
    SquareIsLoop(SQUARE);
  }

  lemma PlayingIsUnderway()
    ensures Underway(PLAYING, START)
  {
    PlayingIsReached();
    hide EmptyBoard, Reachable;
  }

  /** The server gets into a lobby in which the next move closes a loop and so ends the game for both players. */
  lemma GameCanBeWon()
    ensures
      var s1 := Move(PLAYING, 2, 3, 0, 0);
      var s2 := Move(s1, 3, 6, 0, 1);
      var s3 := Move(s2, 2, 5, 1, 1);
      var s4 := Move(s3, 3, 4, 1, 0);
      && Reachable(s3) && 4 in s3.games && Guard(s3, Playing(3, 4, 1, 0))
      && 4 !in s4.games && !At(s4, 2).inGame && !At(s4, 3).inGame
  {
    PlayingIsUnderway();
    Boards();
    assert Pos(0, 0) in AllCells() && Pos(0, 1) in AllCells() && Pos(1, 1) in AllCells() && Pos(1, 0) in AllCells();
    hide Move, Reachable, Guard, Underway, Matched, HasLoop, AllCells, EmptyBoard;
    OneMove(PLAYING, START, 2, 3, 0, 0);
    var s1 := Move(PLAYING, 2, 3, 0, 0);
    OneMove(s1, ONE, 3, 6, 0, 1);
    var s2 := Move(s1, 3, 6, 0, 1);
    OneMove(s2, TWO, 2, 5, 1, 1);
    var s3 := Move(s2, 2, 5, 1, 1);
    StillUnderway(s3, THREE);
    OneMove(s3, THREE, 3, 4, 1, 0);
  }

  lemma StillUnderway(s: State, b: Board)
    requires Underway(s, b)
    ensures Reachable(s) && 4 in s.games
  {
  }
}
