/**
 * src/game/Board.java: the mutable board. The weight and visited matrices are
 * `array2`s updated in place; the ghost matrices `Weights` and `Marks` follow
 * them cell by cell, so that `Model()` is the board as a `Rules.State` and
 * every method is proved against the functions of `Rules`.
 */
module GameBoard {
  import opened Rules

  /** The contents of an int matrix. */
  ghost function Matrix(a: array2<int>): (m: seq<seq<int>>)
    reads a
    ensures |m| == a.Length0
    ensures forall r :: 0 <= r < a.Length0 ==> |m[r]| == a.Length1
    ensures forall r, c :: 0 <= r < a.Length0 && 0 <= c < a.Length1 ==> m[r][c] == a[r, c]
  {
    seq(a.Length0, r requires 0 <= r < a.Length0 reads a =>
      seq(a.Length1, c requires 0 <= c < a.Length1 reads a => a[r, c]))
  }

  class Board {
    const size: nat
    const grid: array2<int>
    const visited: array2<bool>
    var visitedCount: int
    var playerRow: int
    var playerCol: int
    var score: int
    var stepCount: int

    /** The contents of `grid` and `visited`. */
    ghost var Weights: seq<seq<int>>
    ghost var Marks: seq<seq<bool>>

    /** The arrays are size x size and hold `Weights` and `Marks`. */
    ghost predicate Tied()
      reads this, grid, visited
    {
      && grid.Length0 == size && grid.Length1 == size
      && visited.Length0 == size && visited.Length1 == size
      && |Weights| == size && |Marks| == size
      && (forall r :: 0 <= r < size ==> |Weights[r]| == size && |Marks[r]| == size)
      && (forall r, c :: 0 <= r < size && 0 <= c < size ==> grid[r, c] == Weights[r][c])
      && (forall r, c :: 0 <= r < size && 0 <= c < size ==> visited[r, c] == Marks[r][c])
    }

    /** The board as a value. */
    ghost function Model(): State
      reads this
    {
      State(size, Weights, Marks, playerRow, playerCol, visitedCount, stepCount, score)
    }

    ghost predicate Valid()
      reads this, grid, visited
    {
      Tied() && Invariant(Model())
    }

    /**
     * `Board(size, grid, startRow, startCol)`: the board keeps the caller's weight
     * array (no copy), marks the start visited and writes 0 into the caller's
     * start cell; the counters start at visitedCount = 1, score = 1, stepCount = 0.
     */
    constructor (size: nat, g: array2<int>, startRow: int, startCol: int)
      requires g.Length0 == size && g.Length1 == size
      requires forall r, c :: 0 <= r < size && 0 <= c < size ==> 0 <= g[r, c] <= 9
      requires InBounds(size, startRow, startCol)
      modifies g
      ensures Valid()
      ensures grid == g && fresh(visited)
      ensures Model() == Initial(size, old(Matrix(g)), startRow, startCol)
      ensures g[startRow, startCol] == 0
      ensures forall r, c :: 0 <= r < size && 0 <= c < size && (r, c) != (startRow, startCol) ==>
                g[r, c] == old(g[r, c])
    {
      ghost var g0 := Matrix(g);
      this.size := size;
      this.grid := g;
      this.visited := new bool[size, size]((_, _) => false);
      this.visitedCount := 1;
      this.playerRow := startRow;
      this.playerCol := startCol;
      this.score := 1;
      this.stepCount := 0;
      new;
      visited[startRow, startCol] := true;
      grid[startRow, startCol] := 0;
      ghost var s0 := Initial(size, g0, startRow, startCol);
      Weights := s0.grid;
      Marks := s0.visited;
      assert forall r, c :: 0 <= r < size && 0 <= c < size ==> grid[r, c] == Weights[r][c];
      assert forall r, c :: 0 <= r < size && 0 <= c < size ==> visited[r, c] == Marks[r][c];
      InitialInvariant(size, g0, startRow, startCol);
    }

    /** `Board(Board other)`: equal contents in new arrays, so the copy and the original never share state. */
    constructor Copy(other: Board)
      requires other.Valid()
      ensures Valid() && Model() == other.Model()
      ensures fresh(grid) && fresh(visited)
    {
      var n := other.size;
      var g := new int[n, n];
      var v := new bool[n, n];
      for r := 0 to n
        invariant forall i, j :: 0 <= i < r && 0 <= j < n ==> g[i, j] == other.grid[i, j]
        invariant forall i, j :: 0 <= i < r && 0 <= j < n ==> v[i, j] == other.visited[i, j]
      {
        for c := 0 to n
          invariant forall i, j :: 0 <= i < r && 0 <= j < n ==> g[i, j] == other.grid[i, j]
          invariant forall i, j :: 0 <= i < r && 0 <= j < n ==> v[i, j] == other.visited[i, j]
          invariant forall j :: 0 <= j < c ==> g[r, j] == other.grid[r, j] && v[r, j] == other.visited[r, j]
        {
          g[r, c] := other.grid[r, c];
          v[r, c] := other.visited[r, c];
        }
      }
      size := n;
      grid := g;
      visited := v;
      playerRow := other.playerRow;
      playerCol := other.playerCol;
      score := other.score;
      visitedCount := other.visitedCount;
      stepCount := other.stepCount;
      Weights := other.Weights;
      Marks := other.Marks;
    }

    function GetSize(): (n: nat)
      reads this
    {
      size
    }

    /** `getScore` returns the number of visited cells, not the `score` field. */
    function GetScore(): (n: int)
      reads this, grid, visited
      requires Valid()
      ensures n == |VisitedCells(Model())|
      ensures 1 <= n <= size * size
    {
      VisitedBound(Model());
      visitedCount
    }

    function GetStepCount(): int
      reads this
    {
      stepCount
    }

    function GetPlayerRow(): int
      reads this
    {
      playerRow
    }

    function GetPlayerCol(): int
      reads this
    {
      playerCol
    }

    function GetValueAt(row: int, col: int): (w: int)
      reads this, grid, visited
      requires Tied() && InBounds(size, row, col)
      ensures w == Weights[row][col]
    {
      grid[row, col]
    }

    function IsVisited(row: int, col: int): (b: bool)
      reads this, grid, visited
      requires Tied() && InBounds(size, row, col)
      ensures b == Marks[row][col]
    {
      visited[row, col]
    }

    /** `isInBounds` (and `isValidPosition`, which is the same test through `getSize`). */
    function IsInBounds(row: int, col: int): bool
      reads this
    {
      row >= 0 && row < size && col >= 0 && col < size
    }

    /** `isValidMove`: on the board and unvisited. */
    function IsValidMove(row: int, col: int): (b: bool)
      reads this, grid, visited
      requires Tied()
      ensures b == Open(Model(), row, col)
    {
      IsInBounds(row, col) && !visited[row, col]
    }

    /** `canMoveInDirection`, with the same three checks and the same sweep loop. */
    method CanMoveInDirection(dRow: int, dCol: int) returns (ok: bool)
      requires Tied() && WellFormed(Model())
      ensures ok == Legal(Model(), Move(dRow, dCol))
    {
      ghost var s := Model();
      ghost var m := Move(dRow, dCol);
      var newRow := playerRow + dRow;
      var newCol := playerCol + dCol;
      if !IsValidMove(newRow, newCol) {
        return false;
      }
      var stepSize := grid[newRow, newCol];
      assert stepSize == StepSize(s, m);
      var targetRow := playerRow + dRow * stepSize;
      var targetCol := playerCol + dCol * stepSize;
      if !IsValidMove(targetRow, targetCol) {
        return false;
      }
      var tempRow, tempCol := playerRow, playerCol;
      var i := 1;
      while i <= stepSize
        invariant 1 <= i && (i <= stepSize + 1 || i == 1)
        invariant tempRow == playerRow + dRow * (i - 1) && tempCol == playerCol + dCol * (i - 1)
        invariant forall j :: 1 <= j < i ==> SweepOpen(s, m, j)
      {
        MulStep(i, dRow);
        MulStep(i, dCol);
        tempRow := tempRow + dRow;
        tempCol := tempCol + dCol;
        if !IsValidMove(tempRow, tempCol) {
          assert !SweepOpen(s, m, i);
          return false;
        }
        i := i + 1;
      }
      assert forall j :: 1 <= j <= stepSize ==> SweepOpen(s, m, j);
      return true;
    }

    /** `getPossibleMoves`: the legal directions, scanned in the fixed order. */
    method GetPossibleMoves() returns (moves: seq<Move>)
      requires Valid()
      ensures moves == PossibleMoves(Model())
    {
      var directions := Directions;
      moves := [];
      for k := 0 to |directions|
        invariant moves == LegalAmong(Model(), directions[..k])
      {
        var dRow, dCol := directions[k].dRow, directions[k].dCol;
        var ok := CanMoveInDirection(dRow, dCol);
        if ok {
          moves := moves + [Move(dRow, dCol)];
        }
        assert directions[..k + 1][..k] == directions[..k];
      }
      assert directions[..|directions|] == directions;
    }

    /** `isGameOver`: no direction of the scan is legal. */
    method IsGameOver() returns (over: bool)
      requires Valid()
      ensures over == GameOver(Model())
    {
      var moves := GetPossibleMoves();
      over := |moves| == 0;
    }

    /**
     * `applyMove`: re-checks the move from scratch; on success sweeps the L cells
     * one at a time, then counts one step. A rejected move changes nothing.
     */
    method ApplyMove(move: Move) returns (ok: bool)
      requires Valid()
      modifies this, grid, visited
      ensures Valid()
      ensures ok == Legal(old(Model()), move)
      ensures ok ==> Model() == Apply(old(Model()), move)
      ensures !ok ==> unchanged(this, grid, visited)
    {
      ghost var s := Model();
      var dRow, dCol := move.dRow, move.dCol;
      var newRow := playerRow + dRow;
      var newCol := playerCol + dCol;
      if !IsInBounds(newRow, newCol) || visited[newRow, newCol] {
        return false;
      }
      var stepSize := grid[newRow, newCol];
      ok := CanMoveInDirection(dRow, dCol);
      if !ok {
        return;
      }
      LegalMeansLeap(s, move);
      Sweep(move, stepSize);
      ghost var swept := Swept(s, move, Leap(s, move));
      assert Model() == swept;
      stepCount := stepCount + 1;
      score := score + 1;
      assert Model() == swept.(stepCount := swept.stepCount + 1, score := swept.score + 1);
      ApplyPreservesInvariant(s, move);
    }

    /** The loop of `applyMove`: step `stepSize` times in direction `move`. */
    method Sweep(move: Move, stepSize: nat)
      requires Tied() && WellFormed(Model())
      requires forall i :: 1 <= i <= stepSize ==> SweepOpen(Model(), move, i)
      modifies this, grid, visited
      ensures Tied()
      ensures Model() == Swept(old(Model()), move, stepSize)
    {
      ghost var s := Model();
      var dRow, dCol := move.dRow, move.dCol;
      var i := 1;
      while i <= stepSize
        invariant 1 <= i <= stepSize + 1
        invariant Tied()
        invariant Model() == Swept(s, move, i - 1)
      {
        SweptNext(s, move, i);
        EnterCell(playerRow + dRow, playerCol + dCol);
        i := i + 1;
      }
    }

    /** One iteration of `applyMove`'s loop: the player steps onto (r, c), which is marked visited and zeroed. */
    method EnterCell(r: int, c: int)
      requires Tied() && InBounds(size, r, c)
      modifies this, grid, visited
      ensures Tied()
      ensures Model() == Mark(old(Model()), r, c)
    {
      playerRow := r;
      playerCol := c;
      visited[playerRow, playerCol] := true;
      grid[playerRow, playerCol] := 0;
      visitedCount := visitedCount + 1;
      Marks := Marks[playerRow := Marks[playerRow][playerCol := true]];
      Weights := Weights[playerRow := Weights[playerRow][playerCol := 0]];
    }

    /**
     * The board as the strategy sees it through its getters: the current
     * weights, visited marks, position and counters, read from the arrays.
     */
    function View(): (s: State)
      reads this, grid, visited
      requires Tied()
      ensures s == Model()
    {
      var g := seq(size, r requires 0 <= r < size reads grid =>
                 seq(size, c requires 0 <= c < size reads grid => grid[r, c]));
      var v := seq(size, r requires 0 <= r < size reads visited =>
                 seq(size, c requires 0 <= c < size reads visited => visited[r, c]));
      assert forall r :: 0 <= r < size ==> g[r] == Weights[r];
      assert forall r :: 0 <= r < size ==> v[r] == Marks[r];
      State(size, g, v, playerRow, playerCol, visitedCount, stepCount, score)
    }

    /** `copyGrid`: a new array holding the current weights. */
    method CopyGrid() returns (copy: array2<int>)
      requires Valid()
      ensures fresh(copy)
      ensures Matrix(copy) == Weights
    {
      copy := new int[size, size];
      for i := 0 to size
        invariant forall r, c :: 0 <= r < i && 0 <= c < size ==> copy[r, c] == Weights[r][c]
      {
        for j := 0 to size
          invariant forall r, c :: 0 <= r < i && 0 <= c < size ==> copy[r, c] == Weights[r][c]
          invariant forall c :: 0 <= c < j ==> copy[i, c] == Weights[i][c]
        {
          copy[i, j] := GetValueAt(i, j);
        }
      }
      assert forall r :: 0 <= r < size ==> Matrix(copy)[r] == Weights[r];
    }
  }
}
