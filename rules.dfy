/**
 * The movement rules of the game as functions on a value of the board
 * (src/game/Board.java). The class `GameBoard.Board` keeps its arrays equal to
 * such a value and is proved against the functions here.
 *
 * A turn picks a direction d. The leap length L is the weight of the cell next
 * to the player in that direction; the player then sweeps the L cells
 * player + d*1 .. player + d*L, each of which becomes visited and loses its weight.
 */
module Rules {

  /** Java's `Move`: a pair of ints; nothing restricts it to the eight unit vectors. */
  datatype Move = Move(dRow: int, dCol: int)

  /** The scan order of `getPossibleMoves`: N, S, W, E, NW, NE, SW, SE. */
  const Directions: seq<Move> :=
    [Move(-1, 0), Move(1, 0), Move(0, -1), Move(0, 1),
     Move(-1, -1), Move(-1, 1), Move(1, -1), Move(1, 1)]

  /** The fields of a `Board`, as a value. */
  datatype State = State(
    size: nat,
    grid: seq<seq<int>>,
    visited: seq<seq<bool>>,
    row: int,
    col: int,
    visitedCount: int,
    stepCount: int,
    score: int)

  /** `isInBounds` / `isValidPosition`. */
  predicate InBounds(n: int, r: int, c: int) {
    0 <= r < n && 0 <= c < n
  }

  /** Both matrices are size x size. */
  predicate WellFormed(s: State) {
    && |s.grid| == s.size
    && |s.visited| == s.size
    && forall r :: 0 <= r < s.size ==> |s.grid[r]| == s.size && |s.visited[r]| == s.size
  }

  /** `isValidMove`: the cell is on the board and not yet visited. */
  predicate Open(s: State, r: int, c: int) {
    InBounds(s.size, r, c) && r < |s.visited| && c < |s.visited[r]| && !s.visited[r][c]
  }

  /** `getValueAt`, read as 0 off the matrix. */
  function Weight(s: State, r: int, c: int): int {
    if 0 <= r < |s.grid| && 0 <= c < |s.grid[r]| then s.grid[r][c] else 0
  }

  /** The leap length of `m`: the weight of the cell next to the player. */
  function StepSize(s: State, m: Move): int {
    Weight(s, s.row + m.dRow, s.col + m.dCol)
  }

  /** The i-th cell of the sweep in direction `m` is open. */
  predicate SweepOpen(s: State, m: Move, i: int) {
    Open(s, s.row + m.dRow * i, s.col + m.dCol * i)
  }

  /**
   * `canMoveInDirection`: the adjacent cell is open, the landing cell
   * player + d*L is open, and so is every swept cell player + d*i, 1 <= i <= L.
   */
  predicate Legal(s: State, m: Move) {
    && Open(s, s.row + m.dRow, s.col + m.dCol)
    && var L := StepSize(s, m);
    && Open(s, s.row + m.dRow * L, s.col + m.dCol * L)
    && forall i :: 1 <= i <= L ==> SweepOpen(s, m, i)
  }

  /** The set of visited cells. */
  function VisitedCells(s: State): set<(int, int)>
    requires WellFormed(s)
  {
    set r, c | 0 <= r < s.size && 0 <= c < s.size && s.visited[r][c] :: (r, c)
  }

  /**
   * What every board keeps: the player is on the board on a visited cell,
   * weights are 0..9, visited cells hold 0, `visitedCount` counts the visited
   * cells, `score` is one more than `stepCount`, and every step visited at
   * least one cell.
   */
  ghost predicate Invariant(s: State) {
    && WellFormed(s)
    && InBounds(s.size, s.row, s.col)
    && s.visited[s.row][s.col]
    && (forall r, c :: InBounds(s.size, r, c) ==> 0 <= s.grid[r][c] <= 9)
    && (forall r, c :: InBounds(s.size, r, c) && s.visited[r][c] ==> s.grid[r][c] == 0)
    && s.visitedCount == |VisitedCells(s)|
    && s.stepCount >= 0
    && s.score == s.stepCount + 1
    && s.stepCount + 1 <= s.visitedCount
  }

  /** The weight matrix is n x n with weights 0..9 (what the board files supply). */
  ghost predicate GoodGrid(n: nat, g: seq<seq<int>>) {
    && |g| == n
    && (forall r :: 0 <= r < n ==> |g[r]| == n)
    && (forall r, c :: InBounds(n, r, c) ==> 0 <= g[r][c] <= 9)
  }

  /** The board right after the constructor: the start cell visited and zeroed. */
  function Initial(n: nat, g: seq<seq<int>>, startRow: int, startCol: int): State
    requires GoodGrid(n, g) && InBounds(n, startRow, startCol)
  {
    State(n, g[startRow := g[startRow][startCol := 0]],
          seq(n, r => seq(n, c => r == startRow && c == startCol)),
          startRow, startCol, 1, 0, 1)
  }

  /** One step of `applyMove`'s loop: the player enters (r, c), which is marked and zeroed. */
  function Mark(s: State, r: int, c: int): (t: State)
    requires WellFormed(s) && InBounds(s.size, r, c)
    ensures WellFormed(t) && t.size == s.size
  {
    s.(grid := s.grid[r := s.grid[r][c := 0]],
       visited := s.visited[r := s.visited[r][c := true]],
       row := r, col := c,
       visitedCount := s.visitedCount + 1)
  }

  /** The board after the first k steps of the sweep in direction `m`. */
  function Swept(s: State, m: Move, k: nat): (t: State)
    requires WellFormed(s)
    requires forall i :: 1 <= i <= k ==> SweepOpen(s, m, i)
    ensures WellFormed(t) && t.size == s.size
  {
    if k == 0 then s
    else
      assert SweepOpen(s, m, k);
      Mark(Swept(s, m, k - 1), s.row + m.dRow * k, s.col + m.dCol * k)
  }

  /** The number of loop iterations of `applyMove`: L, or none when L is negative. */
  function Leap(s: State, m: Move): nat {
    var L := StepSize(s, m);
    if L < 0 then 0 else L
  }

  /** `applyMove` on a legal move: sweep L cells, then count one step. */
  function Apply(s: State, m: Move): State
    requires WellFormed(s) && Legal(s, m)
  {
    var t := Swept(s, m, Leap(s, m));
    t.(stepCount := t.stepCount + 1, score := t.score + 1)
  }

  /** (r, c) is one of the first k cells of the sweep. */
  predicate OnSweep(s: State, m: Move, k: nat, r: int, c: int) {
    k > 0 && ((r == s.row + m.dRow * k && c == s.col + m.dCol * k) || OnSweep(s, m, k - 1, r, c))
  }

  /** The directions among `ds`, in order, that are legal. */
  function LegalAmong(s: State, ds: seq<Move>): seq<Move> {
    if ds == [] then []
    else LegalAmong(s, ds[..|ds| - 1]) + (if Legal(s, ds[|ds| - 1]) then [ds[|ds| - 1]] else [])
  }

  /** `getPossibleMoves`. */
  function PossibleMoves(s: State): seq<Move> {
    LegalAmong(s, Directions)
  }

  /** `isGameOver`. */
  predicate GameOver(s: State) {
    PossibleMoves(s) == []
  }

  /** The position of a direction in the scan order (8 for any other vector). */
  function DirIndex(m: Move): nat {
    if m == Directions[0] then 0
    else if m == Directions[1] then 1
    else if m == Directions[2] then 2
    else if m == Directions[3] then 3
    else if m == Directions[4] then 4
    else if m == Directions[5] then 5
    else if m == Directions[6] then 6
    else if m == Directions[7] then 7
    else 8
  }

  predicate IsUnit(m: Move) {
    -1 <= m.dRow <= 1 && -1 <= m.dCol <= 1 && m != Move(0, 0)
  }

  // ---------------------------------------------------------------------------
  // Lemmas

  /** Without a leap of at least 1 and a non-zero vector, no move is legal. */
  lemma LegalMeansLeap(s: State, m: Move)
    requires Invariant(s) && Legal(s, m)
    ensures StepSize(s, m) >= 1 && m != Move(0, 0)
  {
    var L := StepSize(s, m);
    assert 0 <= L <= 9;
    assert L == 0 ==> s.row + m.dRow * L == s.row && s.col + m.dCol * L == s.col;
  }

  /**
   * On a valid board, `canMoveInDirection` holds exactly when the leap length is
   * at least 1 and every cell of the sweep is on the board and unvisited. In
   * particular a weight of 0 is never legal: its landing cell is the player's own.
   */
  lemma LegalIff(s: State, m: Move)
    requires Invariant(s)
    ensures Legal(s, m) <==>
            StepSize(s, m) >= 1 && forall i :: 1 <= i <= StepSize(s, m) ==> SweepOpen(s, m, i)
  {
    var L := StepSize(s, m);
    if Legal(s, m) {
      LegalMeansLeap(s, m);
    }
    if L >= 1 && forall i :: 1 <= i <= L ==> SweepOpen(s, m, i) {
      assert SweepOpen(s, m, 1) && SweepOpen(s, m, L);
      assert m.dRow * 1 == m.dRow && m.dCol * 1 == m.dCol;
    }
  }

  lemma DistinctMultiples(a: int, b: int, k: int, j: int)
    requires (a, b) != (0, 0) && k != j
    ensures a * k != a * j || b * k != b * j
  {
    if a != 0 {
      assert a * k - a * j == a * (k - j);
    } else {
      assert b * k - b * j == b * (k - j);
    }
  }

  /** A sweep never passes the same cell twice: cell j is not among the first k < j. */
  lemma {:induction false} SweepFresh(s: State, m: Move, k: nat, j: int)
    requires m != Move(0, 0) && k < j
    ensures !OnSweep(s, m, k, s.row + m.dRow * j, s.col + m.dCol * j)
    decreases k
  {
    if k > 0 {
      DistinctMultiples(m.dRow, m.dCol, k, j);
      SweepFresh(s, m, k - 1, j);
    }
  }

  lemma MarkVisitedCells(s: State, r: int, c: int)
    requires WellFormed(s) && InBounds(s.size, r, c) && !s.visited[r][c]
    ensures VisitedCells(Mark(s, r, c)) == VisitedCells(s) + {(r, c)}
    ensures (r, c) !in VisitedCells(s)
    ensures |VisitedCells(Mark(s, r, c))| == |VisitedCells(s)| + 1
  {
    var t := Mark(s, r, c);
    assert forall p :: p in VisitedCells(t) <==> p in VisitedCells(s) + {(r, c)} by {
      forall p ensures p in VisitedCells(t) <==> p in VisitedCells(s) + {(r, c)} {
        if p in VisitedCells(t) {
          var r', c' :| 0 <= r' < t.size && 0 <= c' < t.size && t.visited[r'][c'] && p == (r', c');
          if (r', c') != (r, c) {
            assert s.visited[r'][c'];
          }
        }
        if p in VisitedCells(s) {
          var r', c' :| 0 <= r' < s.size && 0 <= c' < s.size && s.visited[r'][c'] && p == (r', c');
          assert t.visited[r'][c'];
        }
      }
    }
  }

  /**
   * The first k steps of a sweep visit exactly the old visited cells plus the
   * cells on the sweep; those cells are zeroed and no other cell changes.
   */
  lemma {:induction false} SweptCells(s: State, m: Move, k: nat)
    requires WellFormed(s)
    requires forall i :: 1 <= i <= k ==> SweepOpen(s, m, i)
    ensures var t := Swept(s, m, k);
      forall r, c :: InBounds(s.size, r, c) ==>
        && t.visited[r][c] == (s.visited[r][c] || OnSweep(s, m, k, r, c))
        && t.grid[r][c] == (if OnSweep(s, m, k, r, c) then 0 else s.grid[r][c])
    decreases k
  {
    if k > 0 {
      SweptCells(s, m, k - 1);
      var u := Swept(s, m, k - 1);
      var t := Swept(s, m, k);
      var r0, c0 := s.row + m.dRow * k, s.col + m.dCol * k;
      assert SweepOpen(s, m, k);
      assert t == Mark(u, r0, c0);
      forall r, c | InBounds(s.size, r, c)
        ensures t.visited[r][c] == (s.visited[r][c] || OnSweep(s, m, k, r, c))
        ensures t.grid[r][c] == (if OnSweep(s, m, k, r, c) then 0 else s.grid[r][c])
      {
        if r == r0 && c == c0 {
          assert t.visited[r][c] && t.grid[r][c] == 0;
        } else {
          assert t.visited[r][c] == u.visited[r][c] && t.grid[r][c] == u.grid[r][c];
        }
      }
    }
  }

  /** One cell after the first k steps of a sweep. */
  lemma SweptAt(s: State, m: Move, k: nat, r: int, c: int)
    requires WellFormed(s) && InBounds(s.size, r, c)
    requires forall i :: 1 <= i <= k ==> SweepOpen(s, m, i)
    ensures Swept(s, m, k).visited[r][c] == (s.visited[r][c] || OnSweep(s, m, k, r, c))
  {
    SweptCells(s, m, k);
  }

  /** The first k steps of a sweep leave the player on cell k and add k to `visitedCount`. */
  lemma {:induction false} SweptPosition(s: State, m: Move, k: nat)
    requires WellFormed(s)
    requires forall i :: 1 <= i <= k ==> SweepOpen(s, m, i)
    ensures var t := Swept(s, m, k);
      && t.row == s.row + m.dRow * k && t.col == s.col + m.dCol * k
      && t.visitedCount == s.visitedCount + k
      && t.stepCount == s.stepCount && t.score == s.score
    decreases k
  {
    if k > 0 {
      SweptPosition(s, m, k - 1);
    }
  }

  /** Step i of a sweep moves the player one cell along `m` from where step i - 1 left it. */
  lemma SweptNext(s: State, m: Move, i: nat)
    requires WellFormed(s) && 1 <= i
    requires forall j :: 1 <= j <= i ==> SweepOpen(s, m, j)
    ensures var u := Swept(s, m, i - 1);
      && InBounds(u.size, u.row + m.dRow, u.col + m.dCol)
      && Swept(s, m, i) == Mark(u, u.row + m.dRow, u.col + m.dCol)
  {
    SweptPosition(s, m, i - 1);
    assert m.dRow * (i - 1) + m.dRow == m.dRow * i && m.dCol * (i - 1) + m.dCol == m.dCol * i;
    assert SweepOpen(s, m, i);
  }

  /** In a non-zero direction, step i enters a cell the first i - 1 steps left unvisited. */
  lemma SweptNextOpen(s: State, m: Move, i: nat)
    requires WellFormed(s) && m != Move(0, 0) && 1 <= i
    requires forall j :: 1 <= j <= i ==> SweepOpen(s, m, j)
    ensures var u := Swept(s, m, i - 1);
      && InBounds(u.size, u.row + m.dRow, u.col + m.dCol)
      && !u.visited[u.row + m.dRow][u.col + m.dCol]
  {
    SweptNext(s, m, i);
    SweptPosition(s, m, i - 1);
    var r, c := s.row + m.dRow * i, s.col + m.dCol * i;
    assert m.dRow * (i - 1) + m.dRow == m.dRow * i && m.dCol * (i - 1) + m.dCol == m.dCol * i;
    assert SweepOpen(s, m, i);
    SweptAt(s, m, i - 1, r, c);
    SweepFresh(s, m, i - 1, i);
  }

  /** Each step of a sweep enters a cell not visited before, so k steps add k visited cells. */
  lemma {:induction false} SweptCount(s: State, m: Move, k: nat)
    requires WellFormed(s) && m != Move(0, 0)
    requires forall i :: 1 <= i <= k ==> SweepOpen(s, m, i)
    ensures |VisitedCells(Swept(s, m, k))| == |VisitedCells(s)| + k
    decreases k
  {
    if k > 0 {
      SweptCount(s, m, k - 1);
      var u := Swept(s, m, k - 1);
      SweptNextOpen(s, m, k);
      SweptNext(s, m, k);
      MarkVisitedCells(u, u.row + m.dRow, u.col + m.dCol);
    }
  }

  /**
   * `applyMove` on a legal move: the player lands on player + d*L, the swept
   * cells are visited with weight 0 and no other cell changes, `visitedCount`
   * grows by L, `stepCount` and `score` by exactly 1.
   */
  lemma ApplyEffect(s: State, m: Move)
    requires Invariant(s) && Legal(s, m)
    ensures var t := Apply(s, m); var L := StepSize(s, m);
      && L >= 1
      && t.size == s.size && WellFormed(t)
      && t.row == s.row + m.dRow * L && t.col == s.col + m.dCol * L
      && (forall r, c :: InBounds(s.size, r, c) ==>
            t.visited[r][c] == (s.visited[r][c] || OnSweep(s, m, L, r, c)) &&
            t.grid[r][c] == (if OnSweep(s, m, L, r, c) then 0 else s.grid[r][c]))
      && t.visitedCount == s.visitedCount + L
      && t.stepCount == s.stepCount + 1
      && t.score == s.score + 1
  {
    LegalMeansLeap(s, m);
    SweptCells(s, m, Leap(s, m));
    SweptPosition(s, m, Leap(s, m));
  }

  /** A legal move keeps every board invariant. */
  lemma ApplyPreservesInvariant(s: State, m: Move)
    requires Invariant(s) && Legal(s, m)
    ensures Invariant(Apply(s, m))
  {
    var L := Leap(s, m);
    LegalMeansLeap(s, m);
    ApplyEffect(s, m);
    SweptCount(s, m, L);
    var t := Apply(s, m);
    assert OnSweep(s, m, L, t.row, t.col);
    assert VisitedCells(t) == VisitedCells(Swept(s, m, L));
  }

  /** A legal move keeps the invariant, adds one step, and visits at least one new cell. */
  lemma ApplyProgress(s: State, m: Move)
    requires Invariant(s) && Legal(s, m)
    ensures var t := Apply(s, m);
      && Invariant(t) && t.size == s.size
      && t.visitedCount > s.visitedCount
      && t.stepCount == s.stepCount + 1
  {
    ApplyEffect(s, m);
    ApplyPreservesInvariant(s, m);
  }

  /** The cells (r, 0) .. (r, k - 1). */
  function RowCells(r: int, k: nat): (cells: set<(int, int)>)
    ensures forall p :: p in cells <==> p.0 == r && 0 <= p.1 < k
    ensures |cells| == k
  {
    if k == 0 then {} else RowCells(r, k - 1) + {(r, k - 1)}
  }

  /** The cells of rows 0 .. k - 1, columns 0 .. n - 1: k * n of them. */
  function Rect(k: nat, n: nat): (cells: set<(int, int)>)
    ensures forall p :: p in cells <==> 0 <= p.0 < k && 0 <= p.1 < n
    ensures |cells| == k * n
  {
    if k == 0 then {} else
      var top, row := Rect(k - 1, n), RowCells(k - 1, n);
      assert top !! row by {
        forall p | p in row ensures p !in top { }
      }
      MulStep(k, n);
      top + row
  }

  lemma MulStep(k: int, n: int)
    ensures (k - 1) * n + n == k * n
    ensures n * (k - 1) + n == n * k
  {
  }

  /** `visitedCount` never exceeds size^2. */
  lemma VisitedBound(s: State)
    requires Invariant(s)
    ensures 1 <= s.visitedCount <= s.size * s.size
  {
    var all := Rect(s.size, s.size);
    assert VisitedCells(s) <= all;
    assert all == VisitedCells(s) + (all - VisitedCells(s));
    assert (s.row, s.col) in VisitedCells(s);
  }

  /** The constructor's board satisfies the invariant, with only the start visited. */
  lemma InitialInvariant(n: nat, g: seq<seq<int>>, startRow: int, startCol: int)
    requires GoodGrid(n, g) && InBounds(n, startRow, startCol)
    ensures Invariant(Initial(n, g, startRow, startCol))
    ensures VisitedCells(Initial(n, g, startRow, startCol)) == {(startRow, startCol)}
  {
    var s := Initial(n, g, startRow, startCol);
    assert forall p :: p in VisitedCells(s) <==> p == (startRow, startCol) by {
      forall p ensures p in VisitedCells(s) <==> p == (startRow, startCol) {
        if p == (startRow, startCol) {
          assert s.visited[startRow][startCol];
        }
      }
    }
    assert VisitedCells(s) == {(startRow, startCol)};
  }

  lemma {:induction false} LegalAmongSpec(s: State, ds: seq<Move>, m: Move)
    ensures m in LegalAmong(s, ds) <==> m in ds && Legal(s, m)
    ensures |LegalAmong(s, ds)| <= |ds|
    decreases |ds|
  {
    if ds != [] {
      LegalAmongSpec(s, ds[..|ds| - 1], m);
      assert ds == ds[..|ds| - 1] + [ds[|ds| - 1]];
    }
  }

  /** LegalAmong keeps the order of `ds`: it is `ds` with some entries dropped. */
  lemma {:induction false} LegalAmongOrder(s: State, ds: seq<Move>)
    requires forall i, j :: 0 <= i < j < |ds| ==> DirIndex(ds[i]) < DirIndex(ds[j])
    ensures var ms := LegalAmong(s, ds);
      forall i, j :: 0 <= i < j < |ms| ==> DirIndex(ms[i]) < DirIndex(ms[j])
    decreases |ds|
  {
    if ds != [] {
      var init := ds[..|ds| - 1];
      LegalAmongOrder(s, init);
      var ms := LegalAmong(s, init);
      forall k | 0 <= k < |ms| ensures DirIndex(ms[k]) < DirIndex(ds[|ds| - 1]) {
        LegalAmongSpec(s, init, ms[k]);
        var i :| 0 <= i < |init| && init[i] == ms[k];
      }
    }
  }

  /**
   * `getPossibleMoves`: at most 8 moves, all unit directions, strictly in the
   * scan order (hence distinct), and a direction is listed exactly when
   * `canMoveInDirection` holds for it.
   */
  lemma PossibleMovesSpec(s: State)
    ensures var ms := PossibleMoves(s);
      && |ms| <= 8
      && (forall m :: m in ms <==> m in Directions && Legal(s, m))
      && (forall m :: m in ms ==> IsUnit(m))
      && (forall i, j :: 0 <= i < j < |ms| ==> DirIndex(ms[i]) < DirIndex(ms[j]))
  {
    forall m ensures m in PossibleMoves(s) <==> m in Directions && Legal(s, m) {
      LegalAmongSpec(s, Directions, m);
    }
    LegalAmongSpec(s, Directions, Directions[0]);
    assert forall k :: 0 <= k < 8 ==> DirIndex(Directions[k]) == k;
    LegalAmongOrder(s, Directions);
  }

  /** `isGameOver` holds exactly when no scan direction is legal. */
  lemma GameOverIff(s: State)
    ensures GameOver(s) <==> forall i :: 0 <= i < 8 ==> !Legal(s, Directions[i])
  {
    PossibleMovesSpec(s);
    if !GameOver(s) {
      var m := PossibleMoves(s)[0];
      assert m in PossibleMoves(s);
      var i :| 0 <= i < 8 && Directions[i] == m;
    }
  }

  // ---------------------------------------------------------------------------
  // Java int arithmetic on a move's components

  predicate IsInt32(x: int) {
    -0x8000_0000 <= x < 0x8000_0000
  }

  /** Java's `int` addition: the sum wrapped into the int range. */
  function AddInt32(a: int, b: int): (r: int)
    requires IsInt32(a) && IsInt32(b)
    ensures IsInt32(r) && (r - (a + b)) % 0x1_0000_0000 == 0
  {
    var x := a + b;
    if x >= 0x8000_0000 then x - 0x1_0000_0000
    else if x < -0x8000_0000 then x + 0x1_0000_0000
    else x
  }

  /**
   * `playerRow + dRow` and `playerCol + dCol` may wrap in Java for a move with
   * huge components; a wrapped sum is negative, so the bounds test on the
   * neighbour gives the answer it gives on the unbounded sums.
   */
  lemma NeighbourTestIgnoresWrap(s: State, m: Move)
    requires Invariant(s) && s.size <= 0x8000_0000
    requires IsInt32(m.dRow) && IsInt32(m.dCol)
    ensures s.row + m.dRow >= 0x8000_0000 ==> AddInt32(s.row, m.dRow) < 0
    ensures s.col + m.dCol >= 0x8000_0000 ==> AddInt32(s.col, m.dCol) < 0
    ensures InBounds(s.size, AddInt32(s.row, m.dRow), AddInt32(s.col, m.dCol))
        <==> InBounds(s.size, s.row + m.dRow, s.col + m.dCol)
  {
  }
}
