/** One game between two players: its board, whose turn it is, and the text a reconnecting player gets. */
module Games {
  import opened Board
  import opened Text
  import opened Players

  class Game {
    const address: Address
    const id: int
    const field: array2<int>
    var playerOnTurn: Player?
    var p1: Player
    var p2: Player

    constructor (address: Address, id: int, p1: Player, p2: Player)
      ensures Valid() && fresh(field) && this.address == address
      ensures this.p1 == p1 && this.p2 == p2 && playerOnTurn == null
      ensures Record() == GameRecord(id, p1.address, p2.address, NULL, EmptyBoard())
    {
      this.address := address;
      this.id := id;
      this.p1 := p1;
      this.p2 := p2;
      this.playerOnTurn := null;
      this.field := new int[SIZE, SIZE];
      new;
      var i := 0;
      while i < SIZE
        invariant 0 <= i <= SIZE
        invariant this.p1 == p1 && this.p2 == p2 && this.playerOnTurn == null
        invariant forall k, l :: 0 <= k < i && 0 <= l < SIZE ==> field[k, l] == 0
      {
        var j := 0;
        while j < SIZE
          invariant 0 <= j <= SIZE
          invariant this.p1 == p1 && this.p2 == p2 && this.playerOnTurn == null
          invariant forall k, l :: 0 <= k < i && 0 <= l < SIZE ==> field[k, l] == 0
          invariant forall l :: 0 <= l < j ==> field[i, l] == 0
        {
          field[i, j] := 0;
          j := j + 1;
        }
        i := i + 1;
      }
      assert BoardOf(field) == EmptyBoard();
    }

    predicate Valid() {
      field.Length0 == SIZE && field.Length1 == SIZE
    }

    function Record(): GameRecord
      requires Valid()
      reads this, field
    {
      GameRecord(id, p1.address, p2.address, AddressOf(playerOnTurn), BoardOf(field))
    }

    method GetGameString() returns (text: string)
      requires Valid()
      ensures text == BoardText(BoardOf(field))
    {
      ghost var b := BoardOf(field);
      JoinIsEmpty(CellTexts(b, 0));
      assert b.Keys == AllCells();
      hide Join, IntText, CellTexts, BoardOf, AllCells;
      text := "";
      var i := 0;
      while i < SIZE
        invariant 0 <= i <= SIZE
        invariant text == Join(CellTexts(b, i * SIZE))
      {
        var j := 0;
        while j < SIZE
          invariant 0 <= j <= SIZE
          invariant text == Join(CellTexts(b, i * SIZE + j))
        {
          CellOf(field, i, j);
          OneMoreCell(b, i * SIZE + j, Pos(i, j));
          if |text| != 0 {
            text := text + [SEPARATOR];
          }
          text := text + IntText(field[i, j]);
          j := j + 1;
        }
        i := i + 1;
      }
    }
  }

  /** The fields of a game as a value. */
  datatype GameRecord = GameRecord(id: int, p1: Address, p2: Address, onTurn: Address, board: Board)

  function BoardOf(field: array2<int>): Board
    requires field.Length0 == SIZE && field.Length1 == SIZE
    reads field
  {
    map p | p in AllCells() :: field[p.i, p.j]
  }

  lemma CellOf(field: array2<int>, i: nat, j: nat)
    requires field.Length0 == SIZE && field.Length1 == SIZE && i < SIZE && j < SIZE
    ensures Pos(i, j) in AllCells() && Pos(i, j) in BoardOf(field) && BoardOf(field)[Pos(i, j)] == field[i, j]
  {
  }

  /** The `k`-th cell, row by row. */
  function CellAt(k: nat): Pos {
    Pos(k / SIZE, k % SIZE)
  }

  /** The texts of the first `n` cells, row by row. */
  function CellTexts(b: Board, n: nat): (texts: seq<string>)
  {
    seq(n, k requires 0 <= k < n => IntText(Tile(b, CellAt(k))))
  }

  /** The board as the text sent to a player who comes back: the cells row by row, separated. */
  function BoardText(b: Board): string {
    Join(CellTexts(b, SIZE * SIZE))
  }

  lemma CellAtRow(i: nat, j: nat)
    requires i < SIZE && j < SIZE
    ensures CellAt(i * SIZE + j) == Pos(i, j)
  {
  }

  lemma OneMoreCell(b: Board, n: nat, p: Pos)
    requires n < SIZE * SIZE && b.Keys == AllCells() && p in AllCells() && n == p.i * SIZE + p.j
    ensures var shown := Join(CellTexts(b, n));
            Join(CellTexts(b, n + 1)) == (if |shown| != 0 then shown + [SEPARATOR] else shown) + IntText(b[p])
  {
    hide Join, IntText;
    CellAtRow(p.i, p.j);
    assert CellTexts(b, n + 1) == CellTexts(b, n) + [IntText(b[p])];
    JoinOneMore(CellTexts(b, n), IntText(b[p]));
    JoinIsEmpty(CellTexts(b, n));
  }

  lemma JoinIsEmpty(texts: seq<string>)
    requires forall k :: 0 <= k < |texts| ==> texts[k] != ""
    ensures Join(texts) == "" <==> texts == []
  {
  }

  /** Where a cell stands, row by row. */
  function IndexOf(p: Pos): (k: nat)
    requires p in AllCells()
    ensures k < SIZE * SIZE && CellAt(k) == p
  {
    CellAtRow(p.i, p.j);
    p.i * SIZE + p.j
  }

  /** The board a reader builds from the text by cutting it at the separators. */
  function BoardFromTexts(texts: seq<string>): Board
    requires |texts| == SIZE * SIZE
  {
    map p | p in AllCells() :: IntValue(texts[IndexOf(p)])
  }

  lemma CellReadsBack(b: Board, p: Pos)
    requires b.Keys == AllCells() && p in AllCells()
    ensures IntValue(CellTexts(b, SIZE * SIZE)[IndexOf(p)]) == b[p]
  {
    hide IndexOf, AllCells, IntText, IntValue;
    IntTextReadsBack(b[p]);
  }

  lemma TextsReadBack(b: Board, texts: seq<string>)
    requires b.Keys == AllCells() && texts == CellTexts(b, SIZE * SIZE)
    ensures BoardFromTexts(texts) == b
  {
    hide IndexOf, AllCells, IntText, IntValue;
    forall p | p in AllCells() ensures IntValue(texts[IndexOf(p)]) == b[p] {
      CellReadsBack(b, p);
    }
  }

  /** A player who comes back can rebuild the board from its text exactly, whatever its cells hold. */
  lemma BoardTextReadsBack(b: Board, text: string)
    requires b.Keys == AllCells() && text == BoardText(b)
    ensures |Split(text)| == SIZE * SIZE
    ensures BoardFromTexts(Split(text)) == b
  {
    var texts := CellTexts(b, SIZE * SIZE);
    CleanSplitUndoesJoin(texts);
    TextsReadBack(b, texts);
  }

  lemma TextAt(b: Board, k: nat)
    requires k < SIZE * SIZE
    ensures |CellTexts(b, SIZE * SIZE)| == 64 && CellTexts(b, SIZE * SIZE)[k] == IntText(Tile(b, CellAt(k)))
  {
  }

  lemma BoardTextCut(b: Board)
    ensures Split(BoardText(b)) == CellTexts(b, SIZE * SIZE)
  {
    CleanSplitUndoesJoin(CellTexts(b, SIZE * SIZE));
  }

  /** The text has 64 numbers, row by row: the one in row `i` and column `j` stands at place 8 i + j. */
  lemma BoardTextIsRowByRow(b: Board, i: int, j: int)
    requires b.Keys == AllCells() && 0 <= i < 8 && 0 <= j < 8
    ensures Pos(i, j) in b && |Split(BoardText(b))| == 64 && Split(BoardText(b))[8 * i + j] == IntText(b[Pos(i, j)])
  {
    assert Pos(i, j) in b;
    hide Split, IntText, CellAt, AllCells, CellTexts, BoardText;
    BoardTextCut(b);
    TextAt(b, 8 * i + j);
    CellAtRow(i, j);
  }

  /** The board has rows 0 to 7 and columns 0 to 7, all empty at first. */
  lemma BoardIsEightByEight(p: Pos)
    ensures p in EmptyBoard() <==> 0 <= p.i < 8 && 0 <= p.j < 8
    ensures p in EmptyBoard() ==> EmptyBoard()[p] == 0
  {
  }
}
