/**
 * The game engine: one 15-puzzle whose sixteen cells live in an array that
 * the moves update in place. Every method is proved against the value-level
 * functions of module Board.
 */
module Game {
  import opened Wrappers
  import opened Board

  class Penkiolika {
    /** The cells in row-major 4x4 order; 0 is the empty cell. */
    const board: array<int>

    /** Sixteen cells, the only thing the constructors guarantee. */
    ghost predicate Valid() {
      board.Length == Size
    }

    /** The current cells as a value. */
    function Cells(): seq<int>
      reads board
    {
      board[..]
    }

    /** Creates the game in the final state. */
    constructor ()
      ensures Valid() && fresh(board)
      ensures Cells() == FinalBoard
    {
      var a := new int[Size](i requires 0 <= i < Size => FinalBoard[i]);
      assert a[..] == FinalBoard;
      board := a;
    }

    /**
     * Creates the game from a copy of `cells`; the caller keeps its own array,
     * so later changes to it do not reach the game.
     */
    constructor Copy(cells: array<int>)
      requires cells.Length == Size
      ensures Valid() && fresh(board)
      ensures Cells() == cells[..]
    {
      var a := new int[Size];
      forall k | 0 <= k < Size {
        a[k] := cells[k];
      }
      board := a;
    }

    /** The array constructor: any length other than 16 is refused. */
    static method FromArray(cells: array<int>) returns (r: Result<Penkiolika, string>)
      ensures r.Failure? <==> cells.Length != Size
      ensures r.Failure? ==> r.error == "Board size should equal to 16"
      ensures r.Success? ==> fresh(r.value) && fresh(r.value.board) && r.value.Valid() &&
                             r.value.Cells() == cells[..]
    {
      if cells.Length == Size {
        var game := new Penkiolika.Copy(cells);
        r := Success(game);
      } else {
        r := Failure("Board size should equal to 16");
      }
    }

    /** A copy of the cells; the game keeps its own array. */
    method GetBoard() returns (r: array<int>)
      requires Valid()
      ensures fresh(r) && r[..] == Cells()
    {
      r := new int[Size];
      forall k | 0 <= k < Size {
        r[k] := board[k];
      }
    }

    /** True exactly when the cells are 1, 2, ..., 15 followed by the empty cell. */
    function IsFinal(): (r: bool)
      reads board
      ensures r <==> board.Length == Size && board[Size - 1] == Empty &&
                     forall k :: 0 <= k < Size - 1 ==> board[k] == k + 1
    {
      FinalBoardCells();
      board[..] == FinalBoard
    }

    /** Cell-by-cell comparison with another game; null is never equal. */
    function Equals(o: Penkiolika?): (r: bool)
      reads board, if o == null then {} else {o.board}
      ensures r <==> o != null && board.Length == o.board.Length &&
                     forall k :: 0 <= k < board.Length ==> board[k] == o.board[k]
    {
      o != null && board[..] == o.board[..]
    }

    /** The linear scan for the first empty cell; -1 when there is none. */
    method GetEmptyCellIndex() returns (i: int)
      ensures -1 <= i < board.Length
      ensures i == -1 <==> Empty !in Cells()
      ensures 0 <= i ==> board[i] == Empty && forall j :: 0 <= j < i ==> board[j] != Empty
      ensures i == EmptyIndex(Cells())
    {
      var k := 0;
      while k < board.Length
        invariant 0 <= k <= board.Length
        invariant forall j :: 0 <= j < k ==> board[j] != Empty
      {
        if board[k] == Empty {
          return k;
        }
        k := k + 1;
      }
      return -1;
    }

    method SwapCells(cell1: int, cell2: int)
      requires 0 <= cell1 < board.Length && 0 <= cell2 < board.Length
      modifies board
      ensures Cells() == Swap(old(Cells()), cell1, cell2)
    {
      var tmp := board[cell1];
      board[cell1] := board[cell2];
      board[cell2] := tmp;
    }

    /**
     * Finds the empty cell, tests the direction's boundary predicate on its
     * index and, when it holds, swaps the empty cell with that neighbour.
     */
    method MoveEmptyCell(d: Direction) returns (moved: bool)
      requires Valid() && (d == Top || Empty in Cells())
      modifies board
      ensures moved <==> CanMove(d, EmptyIndex(old(Cells())))
      ensures Move(old(Cells()), d) == if moved then Some(Cells()) else None
      ensures var i := EmptyIndex(old(Cells()));
              Cells() == if moved then Swap(old(Cells()), i, NextIndex(d, i)) else old(Cells())
    {
      ghost var before := Cells();
      var i := GetEmptyCellIndex();
      moved := CanMove(d, i);
      if moved {
        assert Move(before, d).Some?;
        SwapCells(i, NextIndex(d, i));
      }
    }

    /** Moves the empty cell up a row when it is not in the top row. */
    method MoveTop() returns (moved: bool)
      requires Valid()
      modifies board
      ensures var i := EmptyIndex(old(Cells()));
              (moved <==> i >= 4) &&
              Cells() == if moved then Swap(old(Cells()), i, i - 4) else old(Cells())
      ensures Move(old(Cells()), Top) == if moved then Some(Cells()) else None
    {
      moved := MoveEmptyCell(Top);
    }

    /** Moves the empty cell down a row when it is not in the bottom row. */
    method MoveBottom() returns (moved: bool)
      requires Valid() && Empty in Cells()
      modifies board
      ensures var i := EmptyIndex(old(Cells()));
              (moved <==> i <= 11) &&
              Cells() == if moved then Swap(old(Cells()), i, i + 4) else old(Cells())
      ensures Move(old(Cells()), Bottom) == if moved then Some(Cells()) else None
    {
      moved := MoveEmptyCell(Bottom);
    }

    /** Moves the empty cell one column left when it is not in the first column. */
    method MoveLeft() returns (moved: bool)
      requires Valid() && Empty in Cells()
      modifies board
      ensures var i := EmptyIndex(old(Cells()));
              (moved <==> i % 4 != 0) &&
              Cells() == if moved then Swap(old(Cells()), i, i - 1) else old(Cells())
      ensures Move(old(Cells()), Left) == if moved then Some(Cells()) else None
    {
      moved := MoveEmptyCell(Left);
    }

    /** Moves the empty cell one column right when it is not in the last column. */
    method MoveRight() returns (moved: bool)
      requires Valid() && Empty in Cells()
      modifies board
      ensures var i := EmptyIndex(old(Cells()));
              (moved <==> i % 4 != 3) &&
              Cells() == if moved then Swap(old(Cells()), i, i + 1) else old(Cells())
      ensures Move(old(Cells()), Right) == if moved then Some(Cells()) else None
    {
      moved := MoveEmptyCell(Right);
    }

    /** The move named by `d`, dispatched as the shuffle and the server do. */
    method MoveIn(d: Direction) returns (moved: bool)
      requires Valid() && (d == Top || Empty in Cells())
      modifies board
      ensures Move(old(Cells()), d) == if moved then Some(Cells()) else None
      ensures !moved ==> Cells() == old(Cells())
      ensures multiset(Cells()) == multiset(old(Cells()))
      ensures Empty in old(Cells()) ==> Empty in Cells()
    {
      ghost var before := Cells();
      match d {
        case Top => moved := MoveTop();
        case Bottom => moved := MoveBottom();
        case Left => moved := MoveLeft();
        case Right => moved := MoveRight();
      }
      if Empty in before {
        assert Empty in multiset(before);
      }
    }

    /**
     * Draws directions until `times` moves have succeeded. `draws` stands for
     * the random directions; once it is used up the first legal direction is
     * taken. Exactly max(times, 0) moves are made, and the result is reachable
     * from the starting board by them.
     */
    method Shuffle(times: int, draws: seq<Direction>)
      requires Valid() && (times <= 0 || Empty in Cells())
      modifies board
      ensures Empty in old(Cells()) ==> Empty in Cells()
      ensures Empty in old(Cells()) ==> Cells() == ShuffleRun(old(Cells()), times, draws).board
      ensures Empty in old(Cells()) ==>
                var r := ShuffleRun(old(Cells()), times, draws);
                |r.moves| == (if times > 0 then times else 0) &&
                ApplyAll(old(Cells()), r.moves) == Some(Cells())
      ensures times <= 0 ==> Cells() == old(Cells())
    {
      if times > 0 {
        var left, k := times, 0;
        while left > 0
          invariant 0 <= k <= |draws|
          invariant IsBoard(Cells())
          invariant ShuffleRun(Cells(), left, draws[k..]).board ==
                    ShuffleRun(old(Cells()), times, draws).board
          decreases if left > 0 then left else 0, |draws| - k
        {
          left, k := ShuffleRound(draws, left, k);
        }
      }
    }

    /**
     * One round of the shuffle loop: take the next draw (or, with none left,
     * the first legal direction), try that move, and count down only when it
     * succeeds.
     */
    method ShuffleRound(draws: seq<Direction>, left: int, k: int) returns (left': int, k': int)
      requires Valid() && IsBoard(Cells()) && left > 0 && 0 <= k <= |draws|
      modifies board
      ensures IsBoard(Cells()) && 0 <= k' <= |draws|
      ensures left' == left - 1 || (left' == left && k' == k + 1)
      ensures ShuffleRun(Cells(), left', draws[k'..]).board ==
              ShuffleRun(old(Cells()), left, draws[k..]).board
    {
      ghost var before := Cells();
      var d: Direction;
      if k < |draws| {
        d := draws[k];
        ShuffleRunDraw(before, left, draws[k..]);
        assert draws[k..][1..] == draws[k + 1..];
        k' := k + 1;
      } else {
        d := FirstLegal(Cells());
        ShuffleRunFallback(before, left);
        k' := k;
      }
      var moved := MoveIn(d);
      if moved {
        assert Cells() == Move(before, d).value;
        left' := left - 1;
      } else {
        assert Cells() == before && Move(before, d).None?;
        left' := left;
      }
    }

    /** Shuffles with the default number of moves, 101. */
    method ShuffleDefault(draws: seq<Direction>)
      requires Valid() && Empty in Cells()
      modifies board
      ensures Empty in Cells()
      ensures Cells() == ShuffleRun(old(Cells()), DefaultShuffleTimes, draws).board
      ensures old(Cells()) == FinalBoard ==> Solvable(Cells()) && !IsFinal()
    {
      ghost var start := Cells();
      Shuffle(DefaultShuffleTimes, draws);
      if start == FinalBoard {
        DefaultShuffleOfFinal(draws);
      }
    }
  }
}
