/**
 * The 15-puzzle board as a value: sixteen cells in row-major 4x4 order,
 * 0 standing for the empty cell. This module states what the board engine
 * (class Penkiolika in module Game) does to its array, one function per
 * operation, and proves the properties of those functions.
 */
module Board {
  import opened Wrappers

  const Size := 16
  const Empty := 0
  /** Number of successful moves made by the argument-less shuffle. */
  const DefaultShuffleTimes := 101

  /** The solved board: tiles 1..15 in order, the empty cell bottom right. */
  const FinalBoard: seq<int> := [1, 2, 3, 4, 5, 6, 7, 8, 9, 10, 11, 12, 13, 14, 15, Empty]

  /** The solved board cell by cell. */
  lemma FinalBoardCells()
    ensures |FinalBoard| == Size && FinalBoard[Size - 1] == Empty
    ensures forall k :: 0 <= k < Size - 1 ==> FinalBoard[k] == k + 1
  {
  }

  /** The four directions in which the empty cell can slide. */
  datatype Direction = Top | Bottom | Left | Right

  function Opposite(d: Direction): Direction {
    match d
    case Top => Bottom
    case Bottom => Top
    case Left => Right
    case Right => Left
  }

  /** Sixteen cells with an empty cell somewhere. */
  predicate IsBoard(b: seq<int>) {
    |b| == Size && Empty in b
  }

  /** The empty cell occurs exactly once (true of every board reached from FinalBoard). */
  predicate ZeroUnique(b: seq<int>) {
    multiset(b)[Empty] == 1
  }

  /**
   * Java's `%`, which truncates toward zero: a negative dividend gives a
   * remainder that is zero or negative (`-1 % 4 == -1`).
   */
  function JavaRem(a: int, m: int): (r: int)
    requires m > 0
    ensures -m < r < m
    ensures a >= 0 ==> r == a % m
    ensures a < 0 ==> r <= 0 && r == -((-a) % m)
    ensures exists q :: a == q * m + r
  {
    if a >= 0 then
      assert a == (a / m) * m + a % m;
      a % m
    else
      assert -a == ((-a) / m) * m + (-a) % m;
      assert a == (-((-a) / m)) * m + -((-a) % m);
      -((-a) % m)
  }

  /** Index of the first empty cell, or -1 when the board has none. */
  function EmptyIndex(b: seq<int>): (i: int)
    ensures -1 <= i < |b|
    ensures i == -1 <==> Empty !in b
    ensures 0 <= i ==> b[i] == Empty && forall j :: 0 <= j < i ==> b[j] != Empty
  {
    if |b| == 0 then -1
    else if b[0] == Empty then 0
    else
      var j := EmptyIndex(b[1..]);
      if j == -1 then -1 else j + 1
  }

  /**
   * The boundary test of each move, applied to the empty index `i`: on the
   * board it holds exactly when the neighbour in direction d lies on the grid.
   */
  predicate CanMove(d: Direction, i: int): (r: bool)
    ensures 0 <= i < Size ==>
              (r <==> 0 <= Row(i) + RowStep(d) < 4 && 0 <= Col(i) + ColStep(d) < 4)
  {
    match d
    case Top => i >= 4
    case Bottom => i <= 11
    case Left => JavaRem(i, 4) != 0
    case Right => JavaRem(i, 4) != 3
  }

  /** The index the empty cell moves to: the neighbour one row or one column away. */
  function NextIndex(d: Direction, i: int): (n: int)
    ensures n == i + 4 * RowStep(d) + ColStep(d)
    ensures 0 <= i < Size && CanMove(d, i) ==>
              0 <= n < Size && n != i && Row(n) == Row(i) + RowStep(d) && Col(n) == Col(i) + ColStep(d)
  {
    match d
    case Top => i - 4
    case Bottom => i + 4
    case Left => i - 1
    case Right => i + 1
  }

  /** Exchanges cells i and j and keeps every other cell. */
  function Swap(b: seq<int>, i: int, j: int): (r: seq<int>)
    requires 0 <= i < |b| && 0 <= j < |b|
    ensures |r| == |b| && r[i] == b[j] && r[j] == b[i]
    ensures forall k :: 0 <= k < |b| && k != i && k != j ==> r[k] == b[k]
    ensures multiset(r) == multiset(b)
  {
    b[i := b[j]][j := b[i]]
  }

  /**
   * One move of the empty cell: None when the boundary test fails, otherwise
   * the board with the empty cell and its neighbour swapped. A board with no
   * empty cell can only be asked to move the empty cell to the top (see
   * MissingEmptyCell for why).
   */
  function Move(b: seq<int>, d: Direction): (r: Option<seq<int>>)
    requires |b| == Size && (d == Top || Empty in b)
    ensures r.Some? <==> CanMove(d, EmptyIndex(b))
    ensures r.Some? ==>
              var i, n := EmptyIndex(b), NextIndex(d, EmptyIndex(b));
              0 <= i < Size && 0 <= n < Size && i != n &&
              |r.value| == Size && multiset(r.value) == multiset(b) &&
              r.value[n] == Empty && r.value[i] == b[n] &&
              forall k :: 0 <= k < Size && k != i && k != n ==> r.value[k] == b[k]
  {
    var i := EmptyIndex(b);
    if CanMove(d, i) then Some(Swap(b, i, NextIndex(d, i))) else None
  }

  /** Applies the moves in order; None as soon as one of them is illegal. */
  function ApplyAll(b: seq<int>, ms: seq<Direction>): (r: Option<seq<int>>)
    requires IsBoard(b)
    ensures r.Some? ==> IsBoard(r.value)
    decreases |ms|
  {
    if ms == [] then Some(b)
    else
      match Move(b, ms[0])
      case None => None
      case Some(c) =>
        assert Empty in multiset(c);
        ApplyAll(c, ms[1..])
  }

  /** `b` is obtained from `a` by a sequence of legal moves. */
  ghost predicate Reachable(a: seq<int>, b: seq<int>)
    requires IsBoard(a)
  {
    exists ms :: ApplyAll(a, ms) == Some(b)
  }

  /** Legal moves only rearrange the cells. */
  lemma {:induction false} ApplyAllPermutes(b: seq<int>, ms: seq<Direction>)
    requires IsBoard(b) && ApplyAll(b, ms).Some?
    ensures multiset(ApplyAll(b, ms).value) == multiset(b)
    decreases |ms|
  {
    if ms != [] {
      var c := Move(b, ms[0]).value;
      assert Empty in multiset(c);
      ApplyAllPermutes(c, ms[1..]);
    }
  }

  /** A board reachable from another holds the same cells. */
  lemma ReachableIsPermutation(a: seq<int>, b: seq<int>)
    requires IsBoard(a) && Reachable(a, b)
    ensures IsBoard(b) && multiset(b) == multiset(a)
  {
    var ms :| ApplyAll(a, ms) == Some(b);
    ApplyAllPermutes(a, ms);
  }

  /** Some sequence of legal moves takes `b` to the final board. */
  ghost predicate Solvable(b: seq<int>)
    requires IsBoard(b)
  {
    exists ms :: ApplyAll(b, ms) == Some(FinalBoard)
  }

  /** The moves that retrace `ms`: reversed, each one turned around. */
  function Undo(ms: seq<Direction>): (r: seq<Direction>)
    ensures |r| == |ms|
    decreases |ms|
  {
    if ms == [] then [] else Undo(ms[1..]) + [Opposite(ms[0])]
  }

  lemma TailOfAppend(xs: seq<Direction>, ys: seq<Direction>)
    requires xs != []
    ensures (xs + ys)[0] == xs[0] && (xs + ys)[1..] == xs[1..] + ys
  {
  }

  /** Applying two runs of moves is applying their concatenation. */
  lemma {:induction false} ApplyAllAppend(b: seq<int>, xs: seq<Direction>, ys: seq<Direction>)
    requires IsBoard(b) && ApplyAll(b, xs).Some?
    ensures ApplyAll(b, xs + ys) == ApplyAll(ApplyAll(b, xs).value, ys)
    decreases |xs|
  {
    if xs != [] {
      var c := Move(b, xs[0]).value;
      assert Empty in multiset(c);
      TailOfAppend(xs, ys);
      assert ApplyAll(b, xs) == ApplyAll(c, xs[1..]);
      assert ApplyAll(b, xs + ys) == ApplyAll(c, xs[1..] + ys);
      ApplyAllAppend(c, xs[1..], ys);
    } else {
      assert xs + ys == ys;
    }
  }

  /** On a board with one empty cell, the undo moves lead back to where the moves started. */
  lemma {:induction false} UndoLeadsBack(b: seq<int>, ms: seq<Direction>)
    requires IsBoard(b) && ZeroUnique(b) && ApplyAll(b, ms).Some?
    ensures ApplyAll(ApplyAll(b, ms).value, Undo(ms)) == Some(b)
    decreases |ms|
  {
    if ms != [] {
      var d := ms[0];
      var c := Move(b, d).value;
      assert Empty in multiset(c);
      MoveKeepsZeroUnique(b, d);
      UndoLeadsBack(c, ms[1..]);
      var e := ApplyAll(b, ms).value;
      assert e == ApplyAll(c, ms[1..]).value;
      ApplyAllAppend(e, Undo(ms[1..]), [Opposite(d)]);
      MoveThenOpposite(b, d);
      assert ApplyAll(c, [Opposite(d)]) == Some(b);
    }
  }

  /** Every board reachable from the final board (with its single empty cell) is solvable. */
  lemma ReachableFromFinalIsSolvable(b: seq<int>)
    requires Reachable(FinalBoard, b)
    ensures IsBoard(b) && Solvable(b)
  {
    FinalBoardHasOneEmptyCell();
    var ms :| ApplyAll(FinalBoard, ms) == Some(b);
    UndoLeadsBack(FinalBoard, ms);
  }

  /**
   * The first direction in the source's order (top, bottom, left, right)
   * whose move is legal. It stands for the random source once the supplied
   * draws have run out: a legal direction is eventually drawn.
   */
  function FirstLegal(b: seq<int>): (d: Direction)
    requires IsBoard(b)
    ensures CanMove(d, EmptyIndex(b))
  {
    var i := EmptyIndex(b);
    if CanMove(Top, i) then Top
    else if CanMove(Bottom, i) then Bottom
    else if CanMove(Left, i) then Left
    else Right
  }

  /** Result of a shuffle: the board and the successful moves, in order. */
  datatype Shuffled = Shuffled(board: seq<int>, moves: seq<Direction>)

  /**
   * The shuffle loop: draw a direction, try the move, and count down only
   * when it succeeds. `draws` are the random directions; after them the
   * first legal direction is taken.
   */
  function ShuffleRun(b: seq<int>, times: int, draws: seq<Direction>): (r: Shuffled)
    requires IsBoard(b)
    ensures |r.moves| == (if times > 0 then times else 0)
    ensures ApplyAll(b, r.moves) == Some(r.board)
    ensures IsBoard(r.board) && multiset(r.board) == multiset(b)
    decreases if times > 0 then times else 0, |draws|
  {
    if times <= 0 then Shuffled(b, [])
    else if draws == [] then
      var d := FirstLegal(b);
      var c := Move(b, d).value;
      assert Empty in multiset(c);
      var r := ShuffleRun(c, times - 1, []);
      Shuffled(r.board, [d] + r.moves)
    else
      match Move(b, draws[0])
      case None => ShuffleRun(b, times, draws[1..])
      case Some(c) =>
        assert Empty in multiset(c);
        var r := ShuffleRun(c, times - 1, draws[1..]);
        Shuffled(r.board, [draws[0]] + r.moves)
  }

  /** One round of the shuffle loop with a draw left: only a successful move counts down. */
  lemma ShuffleRunDraw(b: seq<int>, times: int, draws: seq<Direction>)
    requires IsBoard(b) && times > 0 && draws != []
    ensures ShuffleRun(b, times, draws).board ==
              if Move(b, draws[0]).Some? then ShuffleRun(Move(b, draws[0]).value, times - 1, draws[1..]).board
              else ShuffleRun(b, times, draws[1..]).board
  {
  }

  /** One round of the shuffle loop once the draws are used up: the first legal move. */
  lemma ShuffleRunFallback(b: seq<int>, times: int)
    requires IsBoard(b) && times > 0
    ensures Move(b, FirstLegal(b)).Some?
    ensures ShuffleRun(b, times, []).board == ShuffleRun(Move(b, FirstLegal(b)).value, times - 1, []).board
  {
  }

  // ---------------------------------------------------------------------
  // Geometry of the moves

  function Row(i: int): int { i / 4 }
  function Col(i: int): int { i % 4 }
  function RowStep(d: Direction): int {
    match d case Top => -1 case Bottom => 1 case Left => 0 case Right => 0
  }
  function ColStep(d: Direction): int {
    match d case Top => 0 case Bottom => 0 case Left => -1 case Right => 1
  }

  /**
   * With no empty cell the index is -1: the top test rejects it, while the
   * bottom, left and right tests accept it (Java's -1 % 4 is -1), so those
   * three moves would swap cell -1, which is off the board.
   */
  lemma MissingEmptyCell(b: seq<int>, d: Direction)
    requires |b| == Size && Empty !in b
    ensures EmptyIndex(b) == -1
    ensures CanMove(d, EmptyIndex(b)) <==> d != Top
  {
  }

  /** From every cell a vertical and a horizontal move are legal. */
  lemma SomeMovesAlwaysLegal(i: int)
    requires 0 <= i < Size
    ensures CanMove(Top, i) || CanMove(Bottom, i)
    ensures CanMove(Left, i) || CanMove(Right, i)
  {
  }

  // ---------------------------------------------------------------------
  // Lemmas about moves

  /** Two empty cells count twice in the board's multiset. */
  lemma TwoEmptyCells(b: seq<int>, i: int, k: int)
    requires 0 <= i < k < |b| && b[i] == Empty && b[k] == Empty
    ensures multiset(b)[Empty] >= 2
  {
    assert b == b[..i] + [b[i]] + b[i + 1..k] + [b[k]] + b[k + 1..];
  }

  /** On a board with a single empty cell, EmptyIndex finds it wherever it is. */
  lemma EmptyIndexOfUnique(b: seq<int>, k: int)
    requires 0 <= k < |b| && b[k] == Empty && ZeroUnique(b)
    ensures EmptyIndex(b) == k
  {
    var i := EmptyIndex(b);
    if i < k {
      TwoEmptyCells(b, i, k);
    }
  }

  /** A legal move keeps the empty cell unique and puts it at NextIndex. */
  lemma MoveKeepsZeroUnique(b: seq<int>, d: Direction)
    requires IsBoard(b) && ZeroUnique(b) && Move(b, d).Some?
    ensures IsBoard(Move(b, d).value) && ZeroUnique(Move(b, d).value)
    ensures EmptyIndex(Move(b, d).value) == NextIndex(d, EmptyIndex(b))
  {
    var c := Move(b, d).value;
    assert Empty in multiset(c);
    EmptyIndexOfUnique(c, NextIndex(d, EmptyIndex(b)));
  }

  /** From the neighbour reached by a legal move, the opposite move is legal and leads back. */
  lemma OppositeLeadsBack(d: Direction, i: int)
    requires 0 <= i < Size && CanMove(d, i)
    ensures CanMove(Opposite(d), NextIndex(d, i))
    ensures NextIndex(Opposite(d), NextIndex(d, i)) == i
  {
  }

  /** A legal move followed by the opposite move is legal and restores the board. */
  lemma MoveThenOpposite(b: seq<int>, d: Direction)
    requires IsBoard(b) && ZeroUnique(b) && Move(b, d).Some?
    ensures Move(Move(b, d).value, Opposite(d)) == Some(b)
  {
    var i, n := EmptyIndex(b), NextIndex(d, EmptyIndex(b));
    var c := Move(b, d).value;
    MoveKeepsZeroUnique(b, d);
    OppositeLeadsBack(d, i);
    var e := Move(c, Opposite(d)).value;
    assert e[i] == b[i] && e[n] == b[n];
    assert forall k :: 0 <= k < Size ==> e[k] == b[k];
    assert e == b;
  }

  // ---------------------------------------------------------------------
  // Parity of the empty cell: why an odd shuffle never ends in the final state

  /** Colour of a cell on the 4x4 grid seen as a chessboard. */
  function Parity(i: int): (p: int)
    ensures p == 0 || p == 1
  {
    (Row(i) + Col(i)) % 2
  }

  /** Neighbouring sums have different parities. */
  lemma NeighbourSums(s: int, t: int)
    requires t == s + 1 || t == s - 1
    ensures t % 2 == 1 - s % 2
  {
  }

  /** Every legal step goes to a cell of the other colour. */
  lemma StepFlipsParity(d: Direction, i: int)
    requires 0 <= i < Size && CanMove(d, i)
    ensures Parity(NextIndex(d, i)) == 1 - Parity(i)
  {
    NeighbourSums(Row(i) + Col(i), Row(NextIndex(d, i)) + Col(NextIndex(d, i)));
  }

  /** Every legal move takes the empty cell to a cell of the other colour. */
  lemma MoveFlipsParity(b: seq<int>, d: Direction)
    requires IsBoard(b) && ZeroUnique(b) && Move(b, d).Some?
    ensures Parity(EmptyIndex(Move(b, d).value)) == 1 - Parity(EmptyIndex(b))
  {
    MoveKeepsZeroUnique(b, d);
    StepFlipsParity(d, EmptyIndex(b));
  }

  /** Where the empty cell ends up when it starts at i and takes the steps ms. */
  function Trail(i: int, ms: seq<Direction>): int
    decreases |ms|
  {
    if ms == [] then i else Trail(NextIndex(ms[0], i), ms[1..])
  }

  /** Every step of the trail passes its boundary test. */
  predicate LegalTrail(i: int, ms: seq<Direction>)
    decreases |ms|
  {
    ms == [] || (CanMove(ms[0], i) && LegalTrail(NextIndex(ms[0], i), ms[1..]))
  }

  /** One flip followed by m - 1 flips is m flips. */
  lemma FlipCount(p: int, q: int, r: int, m: int)
    requires (p == 0 || p == 1) && q == 1 - p
    requires r == if (m - 1) % 2 == 0 then q else 1 - q
    ensures r == if m % 2 == 0 then p else 1 - p
  {
  }

  /** Along a legal trail the colour flips at every step. */
  lemma {:induction false} TrailParity(i: int, ms: seq<Direction>)
    requires 0 <= i < Size && LegalTrail(i, ms)
    ensures 0 <= Trail(i, ms) < Size
    ensures Parity(Trail(i, ms)) == if |ms| % 2 == 0 then Parity(i) else 1 - Parity(i)
    decreases |ms|
  {
    if ms != [] {
      var n := NextIndex(ms[0], i);
      StepFlipsParity(ms[0], i);
      TrailParity(n, ms[1..]);
      FlipCount(Parity(i), Parity(n), Parity(Trail(n, ms[1..])), |ms|);
    }
  }

  /** A legal sequence of moves drags the empty cell along a legal trail. */
  lemma {:induction false} ApplyAllTrail(b: seq<int>, ms: seq<Direction>)
    requires IsBoard(b) && ZeroUnique(b) && ApplyAll(b, ms).Some?
    ensures ZeroUnique(ApplyAll(b, ms).value)
    ensures LegalTrail(EmptyIndex(b), ms)
    ensures EmptyIndex(ApplyAll(b, ms).value) == Trail(EmptyIndex(b), ms)
    decreases |ms|
  {
    if ms != [] {
      var c := Move(b, ms[0]).value;
      MoveKeepsZeroUnique(b, ms[0]);
      ApplyAllTrail(c, ms[1..]);
    }
  }

  /** The final board has its single empty cell at index 15. */
  lemma FinalBoardHasOneEmptyCell()
    ensures IsBoard(FinalBoard) && ZeroUnique(FinalBoard) && EmptyIndex(FinalBoard) == 15
  {
    var tiles := FinalBoard[..15];
    assert FinalBoard == tiles + [Empty];
    assert forall k :: 0 <= k < 15 ==> tiles[k] == k + 1;
    assert Empty !in tiles;
    EmptyIndexOfUnique(FinalBoard, 15);
  }

  /** An odd number of legal moves from the final board never ends in the final board. */
  lemma OddMovesLeaveFinal(ms: seq<Direction>)
    requires ApplyAll(FinalBoard, ms).Some? && |ms| % 2 == 1
    ensures ApplyAll(FinalBoard, ms).value != FinalBoard
  {
    FinalBoardHasOneEmptyCell();
    ApplyAllTrail(FinalBoard, ms);
    TrailParity(15, ms);
  }

  /**
   * The default shuffle of the final board yields a permutation of 0..15,
   * reachable from the final board, and never the final board itself.
   */
  lemma DefaultShuffleOfFinal(draws: seq<Direction>)
    ensures var r := ShuffleRun(FinalBoard, DefaultShuffleTimes, draws);
            multiset(r.board) == multiset(FinalBoard) &&
            Reachable(FinalBoard, r.board) && Solvable(r.board) &&
            r.board != FinalBoard
  {
    var r := ShuffleRun(FinalBoard, DefaultShuffleTimes, draws);
    assert |r.moves| == DefaultShuffleTimes;
    OddMovesLeaveFinal(r.moves);
    ReachableFromFinalIsSolvable(r.board);
  }
}
