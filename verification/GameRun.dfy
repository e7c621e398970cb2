/** Whole runs of one game: when does the server take the game for won? */
module GameRun {
  import opened Board
  import opened LoopSearch

  datatype Move = Move(at: Pos, card: int)

  function BoardAfter(moves: seq<Move>): Board {
    if moves == [] then EmptyBoard()
    else
      var last := moves[|moves| - 1];
      BoardAfter(moves[..|moves| - 1])[last.at := last.card]
  }

  /** Moves a client may make: a tile 1..6 on a cell of the board, agreeing in colour with its neighbours. */
  ghost predicate Lawful(moves: seq<Move>) {
    forall k :: 0 <= k < |moves| ==>
      moves[k].at in AllCells() && 1 <= moves[k].card <= 6 && Matched(BoardAfter(moves[..k + 1]))
  }

  /** No move of the run so far was answered as the winning one, so the game is still registered. */
  predicate StillRegistered(moves: seq<Move>) {
    moves == []
    || (StillRegistered(moves[..|moves| - 1]) && !MoveWins(BoardAfter(moves), moves[|moves| - 1].at))
  }

  lemma EmptyBoardHasNoLoop()
    ensures Matched(EmptyBoard()) && !HasLoop(EmptyBoard())
  {
    var b := EmptyBoard();
    assert forall p :: Tile(b, p) == 0;
    forall c, cells ensures !IsLoop(c, b, cells) {
      if IsLoop(c, b, cells) {
        LoopCellIsTile(c, b, cells, cells[0]);
        assert false;
      }
    }
  }

  lemma LawfulPrefix(moves: seq<Move>, n: nat)
    requires Lawful(moves) && n <= |moves|
    ensures Lawful(moves[..n])
    ensures n > 0 ==> Matched(BoardAfter(moves[..n]))
  {
    var init := moves[..n];
    forall k | 0 <= k < n
      ensures init[k].at in AllCells() && 1 <= init[k].card <= 6 && Matched(BoardAfter(init[..k + 1]))
    {
      assert init[..k + 1] == moves[..k + 1] && init[k] == moves[k];
    }
    if n > 0 {
      assert init[..n - 1 + 1] == init;
    }
  }

  /** The move that deletes a game is exactly the first one that creates a loop. */
  lemma DeletingMoveMakesLoop(moves: seq<Move>)
    requires Lawful(moves) && moves != []
    requires !HasLoop(BoardAfter(moves[..|moves| - 1]))
    ensures MoveWins(BoardAfter(moves), moves[|moves| - 1].at) <==> HasLoop(BoardAfter(moves))
  {
    var last := moves[|moves| - 1];
    LawfulPrefix(moves, |moves|);
    assert moves[..|moves|] == moves;
    LastCellTestIsEnough(BoardAfter(moves[..|moves| - 1]), last.at, last.card);
  }

  ghost predicate LoopFreeAfter(moves: seq<Move>, k: nat)
    requires k <= |moves|
  {
    !HasLoop(BoardAfter(moves[..k]))
  }

  /** Over every lawful run the game is still registered exactly when none of its boards, from the first to the
      last, has a closed loop of either colour anywhere. */
  lemma {:induction false} RegisteredWhileLoopFree(moves: seq<Move>)
    requires Lawful(moves)
    ensures StillRegistered(moves) <==> forall k :: 0 <= k <= |moves| ==> LoopFreeAfter(moves, k)
  {
    hide HasLoop, Lawful, MoveWins;
    assert moves[..|moves|] == moves;
    if moves == [] {
      EmptyBoardHasNoLoop();
      assert LoopFreeAfter(moves, 0);
    } else {
      var init := moves[..|moves| - 1];
      LawfulPrefix(moves, |init|);
      RegisteredWhileLoopFree(init);
      forall k | 0 <= k <= |init| ensures LoopFreeAfter(init, k) == LoopFreeAfter(moves, k) {
        assert init[..k] == moves[..k];
      }
      assert LoopFreeAfter(moves, |moves|) <==> !HasLoop(BoardAfter(moves));
      if LoopFreeAfter(init, |init|) {
        assert init[..|init|] == init;
        DeletingMoveMakesLoop(moves);
      }
    }
  }
}
