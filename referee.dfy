/**
 * src/game/Referee.java: the game loop, the text trace it writes, and the
 * board number taken from a board file's name.
 *
 * The strategy is a function from the turn number and the board to one of the
 * four things a move request can end in: a timeout, a fault, null, or a move.
 * The executor, the clock and the writer are not modelled; the trace is the
 * list of text blocks the writer would receive, in order.
 */
module Referee {
  import opened Text
  import opened Rules
  import GameBoard
  import Player12345

  // ---------------------------------------------------------------------------
  // extractBoardNumber

  /** The path without its trailing slashes. */
  function StripTrailingSlashes(path: string): (p: string)
    ensures |p| <= |path| && p == path[..|p|]
    ensures p == [] || p[|p| - 1] != '/'
    ensures forall i :: |p| <= i < |path| ==> path[i] == '/'
  {
    if path != [] && path[|path| - 1] == '/' then StripTrailingSlashes(path[..|path| - 1]) else path
  }

  /** `new File(path).getName()` on a Unix path: the last component, trailing slashes ignored. */
  function FileName(path: string): string {
    var p := StripTrailingSlashes(path);
    if '/' in p then p[LastIndexOf(p, '/') + 1..] else p
  }

  /** The name after the last slash of a path. */
  lemma FileNameOf(dir: string, name: string)
    requires |name| >= 1 && '/' !in name
    ensures FileName(dir + "/" + name) == name
  {
    var path := dir + "/" + name;
    assert path[|path| - 1] == name[|name| - 1];
    assert StripTrailingSlashes(path) == path;
    LastIndexOfBefore(dir, '/', name);
    assert path[|dir| + 1..] == name;
  }

  /**
   * `extractBoardNumber`: the digits of the file name read as an int; an empty
   * digit string or one beyond int range (a `NumberFormatException`) gives 0.
   */
  function ExtractBoardNumber(boardFile: string): (n: int)
    ensures 0 <= n <= IntMax
    ensures var digits := KeepDigits(FileName(boardFile));
      n == if |digits| >= 1 && DigitsValue(digits) <= IntMax then DigitsValue(digits) else 0
  {
    var digits := KeepDigits(FileName(boardFile));
    JavaParseIntDigitsOrNone(digits);
    match JavaParseInt(digits)
    case Some(v) => v
    case None => 0
  }

  lemma JavaParseIntDigitsOrNone(digits: string)
    requires AllDigits(digits)
    ensures JavaParseInt(digits) ==
      if |digits| >= 1 && DigitsValue(digits) <= IntMax then Some(DigitsValue(digits)) else None
  {
    if |digits| >= 1 {
      JavaParseIntDigits(digits);
    }
  }

  /** The trace file `snapshots/Player<id>_Board<n>.txt` of a session. */
  function SnapshotPath(studentId: string, boardFile: string): string {
    "snapshots/Player" + studentId + "_Board" + IntToString(ExtractBoardNumber(boardFile)) + ".txt"
  }

  // ---------------------------------------------------------------------------
  // saveSnapshot

  /** One cell of a snapshot: the player, a visited cell, or the weight. */
  function CellText(s: State, r: int, c: int): string
    requires WellFormed(s) && InBounds(s.size, r, c)
  {
    if r == s.row && c == s.col then "* "
    else if s.visited[r][c] then "  "
    else IntToString(s.grid[r][c]) + " "
  }

  /** The first k cells of row r. */
  function CellsText(s: State, r: int, k: nat): string
    requires WellFormed(s) && 0 <= r < s.size && k <= s.size
  {
    if k == 0 then "" else CellsText(s, r, k - 1) + CellText(s, r, k - 1)
  }

  /** Row r of a snapshot, without its line end. */
  function RowLine(s: State, r: int): string
    requires WellFormed(s) && 0 <= r < s.size
  {
    CellsText(s, r, s.size)
  }

  /** The first k rows, each ended by `eol` (`writer.newLine()`). */
  function RowsText(s: State, k: nat, eol: string): string
    requires WellFormed(s) && k <= s.size
  {
    if k == 0 then "" else RowsText(s, k - 1, eol) + RowLine(s, k - 1) + eol
  }

  function HeaderLine(step: int, isInitial: bool): string {
    if isInitial then "Initial Board:" else "Step " + IntToString(step) + ":"
  }

  /** What `saveSnapshot` writes: the header, the rows, and a blank line. */
  function Block(s: State, step: int, isInitial: bool, eol: string): string
    requires WellFormed(s)
  {
    HeaderLine(step, isInitial) + "\n" + RowsText(s, s.size, eol) + eol
  }

  /** `saveSnapshot`, with the writer replaced by the text it receives. */
  method SaveSnapshot(board: GameBoard.Board, step: int, isInitial: bool, eol: string) returns (text: string)
    requires board.Tied() && WellFormed(board.Model())
    ensures text == Block(board.Model(), step, isInitial, eol)
  {
    text := if isInitial then "Initial Board:\n" else "Step " + IntToString(step) + ":\n";
    var rows := SnapshotRows(board, eol);
    text := text + rows + eol;
  }

  /** The outer loop of `saveSnapshot`: every row, each ended by `eol`. */
  method SnapshotRows(board: GameBoard.Board, eol: string) returns (rows: string)
    requires board.Tied() && WellFormed(board.Model())
    ensures rows == RowsText(board.Model(), board.size, eol)
  {
    ghost var s := board.Model();
    rows := "";
    for i := 0 to board.GetSize()
      invariant rows == RowsText(s, i, eol)
    {
      var line := SnapshotRow(board, i);
      rows := rows + line + eol;
    }
  }

  /** The inner loop of `saveSnapshot`: the cells of row `i`. */
  method SnapshotRow(board: GameBoard.Board, i: int) returns (line: string)
    requires board.Tied() && WellFormed(board.Model()) && 0 <= i < board.size
    ensures line == RowLine(board.Model(), i)
  {
    ghost var s := board.Model();
    var n := board.GetSize();
    line := "";
    for j := 0 to n
      invariant line == CellsText(s, i, j)
    {
      var cell := SnapshotCell(board, s, i, j);
      line := line + cell;
    }
  }

  /** The body of the inner loop of `saveSnapshot`: the text of cell (i, j). */
  method SnapshotCell(board: GameBoard.Board, ghost s: State, i: int, j: int) returns (cell: string)
    requires board.Tied() && s == board.Model() && WellFormed(s) && InBounds(s.size, i, j)
    ensures cell == CellText(s, i, j)
    ensures CellsText(s, i, j + 1) == CellsText(s, i, j) + cell
  {
    if i == board.GetPlayerRow() && j == board.GetPlayerCol() {
      cell := "* ";
    } else if board.IsVisited(i, j) {
      cell := "  ";
    } else {
      cell := IntToString(board.GetValueAt(i, j)) + " ";
    }
  }

  /** The rendering of one cell on a valid board, character by character. */
  predicate RendersAs(s: State, r: int, c: int, t: string)
    requires Invariant(s) && InBounds(s.size, r, c)
  {
    |t| == 2 && t[1] == ' ' &&
    if r == s.row && c == s.col then t[0] == '*'
    else if s.visited[r][c] then t[0] == ' '
    else t[0] == DigitChar(s.grid[r][c])
  }

  lemma {:induction false} CellsTextLayout(s: State, r: int, k: nat)
    requires Invariant(s) && 0 <= r < s.size && k <= s.size
    ensures |CellsText(s, r, k)| == 2 * k
    ensures forall c :: 0 <= c < k ==> RendersAs(s, r, c, CellsText(s, r, k)[2 * c .. 2 * c + 2])
    decreases k
  {
    if k > 0 {
      CellsTextLayout(s, r, k - 1);
      var prev := CellsText(s, r, k - 1);
      var w := s.grid[r][k - 1];
      SmallIntToString(w);
      var cell := CellText(s, r, k - 1);
      assert RendersAs(s, r, k - 1, cell);
      var all := CellsText(s, r, k);
      assert all == prev + cell;
      forall c | 0 <= c < k ensures RendersAs(s, r, c, all[2 * c .. 2 * c + 2]) {
        if c < k - 1 {
          assert all[2 * c .. 2 * c + 2] == prev[2 * c .. 2 * c + 2];
        } else {
          assert all[2 * c .. 2 * c + 2] == cell;
        }
      }
    }
  }

  /**
   * Every row line of a snapshot is 2*size characters: "* " for the player's
   * cell, two spaces for another visited cell, the weight's digit and a space
   * for an unvisited cell.
   */
  lemma RowLayout(s: State, r: int)
    requires Invariant(s) && 0 <= r < s.size
    ensures |RowLine(s, r)| == 2 * s.size
    ensures forall c :: 0 <= c < s.size ==> RendersAs(s, r, c, RowLine(s, r)[2 * c .. 2 * c + 2])
  {
    CellsTextLayout(s, r, s.size);
  }

  function RowLines(s: State, k: nat): (lines: seq<string>)
    requires WellFormed(s) && k <= s.size
    ensures |lines| == k
    ensures forall r :: 0 <= r < k ==> lines[r] == RowLine(s, r)
  {
    if k == 0 then [] else RowLines(s, k - 1) + [RowLine(s, k - 1)]
  }

  lemma {:induction false} RowsTextLines(s: State, k: nat, eol: string)
    requires WellFormed(s) && k <= s.size
    ensures RowsText(s, k, eol) == Terminated(RowLines(s, k), eol)
    decreases k
  {
    if k > 0 {
      RowsTextLines(s, k - 1, eol);
      assert RowLines(s, k)[..k - 1] == RowLines(s, k - 1);
    }
  }

  lemma RowLineHasNoBreak(s: State, r: int)
    requires Invariant(s) && 0 <= r < s.size
    ensures '\n' !in RowLine(s, r)
  {
    RowLayout(s, r);
    var line := RowLine(s, r);
    forall j | 0 <= j < |line| ensures line[j] != '\n' {
      var c := j / 2;
      var cell := line[2 * c .. 2 * c + 2];
      assert RendersAs(s, r, c, cell);
      assert line[j] == cell[j - 2 * c];
    }
  }

  lemma RowLinesHaveNoBreak(s: State)
    requires Invariant(s)
    ensures NoneContains(RowLines(s, s.size), '\n')
  {
    var rows := RowLines(s, s.size);
    forall r | 0 <= r < s.size ensures '\n' !in rows[r] {
      RowLineHasNoBreak(s, r);
    }
  }

  lemma HeaderLineHasNoBreak(step: int, isInitial: bool)
    ensures '\n' !in HeaderLine(step, isInitial)
  {
    if !isInitial {
      NatToStringChars(if step < 0 then -step else step, '\n');
      assert HeaderLine(step, isInitial) == "Step " + IntToString(step) + ":";
    }
  }

  /**
   * With "\n" as line separator, a snapshot reads as the header line, one
   * line per row, and one empty line (the final "" is what follows the last
   * line end).
   */
  lemma BlockLines(s: State, step: int, isInitial: bool)
    requires Invariant(s)
    ensures Split(Block(s, step, isInitial, "\n"), '\n') ==
            [HeaderLine(step, isInitial)] + RowLines(s, s.size) + ["", ""]
  {
    RowLinesHaveNoBreak(s);
    HeaderLineHasNoBreak(step, isInitial);
    RowsTextLines(s, s.size, "\n");
    SplitLines(HeaderLine(step, isInitial), RowLines(s, s.size), '\n');
  }

  // ---------------------------------------------------------------------------
  // playGame

  /** What a move request (`futureMove.get`) ends in. */
  datatype Response = TimedOut | Faulted | NoMove | Play(move: Move)

  /** Why the loop stopped. */
  datatype Ending = GameIsOver | Timeout | Fault | Pass | Invalid

  /** One turn for a response: stop with a reason, or the board after the move. */
  datatype Turn = Stop(ending: Ending) | Moved(next: State)

  /** One iteration of the loop, after `isGameOver` was false. */
  function Step(s: State, response: Response): Turn
    requires WellFormed(s)
  {
    match response
    case TimedOut => Stop(Timeout)
    case Faulted => Stop(Fault)
    case NoMove => Stop(Pass)
    case Play(m) => if Legal(s, m) then Moved(Apply(s, m)) else Stop(Invalid)
  }

  /**
   * On a valid board a turn goes on exactly for a legal move, and then it keeps
   * the board valid and of its size, counts one step and visits a new cell;
   * a move that is not legal stops the loop as `Invalid`.
   */
  lemma StepSpec(s: State, response: Response)
    requires Invariant(s)
    ensures Step(s, response).Moved? <==> response.Play? && Legal(s, response.move)
    ensures Step(s, response).Moved? ==>
      var t := Step(s, response).next;
      && Invariant(t) && t.size == s.size
      && t.stepCount == s.stepCount + 1
      && t.visitedCount > s.visitedCount
    ensures Step(s, response) == Stop(Invalid) <==> response.Play? && !Legal(s, response.move)
  {
    if response.Play? && Legal(s, response.move) {
      ApplyProgress(s, response.move);
    }
  }

  /** The board at the end, why the loop ended, and the board after each applied move. */
  datatype Session = Session(final: State, ending: Ending, boards: seq<State>)

  type Strategy = (nat, State) -> Response

  /** The board before turn k: the starting board, then the board after each move. */
  function At(start: State, boards: seq<State>, k: nat): State
    requires k <= |boards|
  {
    if k == 0 then start else boards[k - 1]
  }

  /** Turn k went on: the game was not over and the answer was a legal move giving board k. */
  ghost predicate MovedAt(start: State, strategy: Strategy, boards: seq<State>, k: nat)
    requires k < |boards|
  {
    var cur := At(start, boards, k);
    && Invariant(cur)
    && !GameOver(cur)
    && Step(cur, strategy(k, cur)) == Moved(boards[k])
  }

  /** Every recorded board came from the turn before it. */
  ghost predicate Moves(start: State, strategy: Strategy, boards: seq<State>) {
    forall k :: 0 <= k < |boards| ==> MovedAt(start, strategy, boards, k)
  }

  /** On board s, at turn `turn`, the loop stops with `ending`. */
  ghost predicate StopsAt(s: State, strategy: Strategy, turn: nat, ending: Ending)
    requires Invariant(s)
  {
    if GameOver(s) then ending == GameIsOver else Step(s, strategy(turn, s)) == Stop(ending)
  }

  /**
   * `run` is what `playGame` does from board `start` under `strategy`: the
   * moves it applies one turn after another, its final board, and the turn
   * on that board that ends the loop.
   */
  ghost predicate Played(start: State, strategy: Strategy, run: Session) {
    && Invariant(start)
    && Moves(start, strategy, run.boards)
    && (forall k :: 0 <= k < |run.boards| ==> Invariant(run.boards[k]))
    && run.final == At(start, run.boards, |run.boards|)
    && StopsAt(run.final, strategy, |run.boards|, run.ending)
  }

  /** The snapshot blocks written after the moves, one per board. */
  function Blocks(boards: seq<State>, eol: string): (blocks: seq<string>)
    requires forall k :: 0 <= k < |boards| ==> WellFormed(boards[k])
    ensures |blocks| == |boards|
  {
    if boards == [] then []
    else Blocks(boards[..|boards| - 1], eol) + [Block(boards[|boards| - 1], boards[|boards| - 1].stepCount, false, eol)]
  }

  lemma {:induction false} BlocksAt(boards: seq<State>, eol: string, k: nat)
    requires forall k :: 0 <= k < |boards| ==> WellFormed(boards[k])
    requires k < |boards|
    ensures Blocks(boards, eol)[k] == Block(boards[k], boards[k].stepCount, false, eol)
    decreases |boards|
  {
    if k < |boards| - 1 {
      BlocksAt(boards[..|boards| - 1], eol, k);
    }
  }

  lemma BlocksAppend(boards: seq<State>, t: State, eol: string)
    requires forall k :: 0 <= k < |boards| ==> WellFormed(boards[k])
    requires WellFormed(t)
    ensures Blocks(boards + [t], eol) == Blocks(boards, eol) + [Block(t, t.stepCount, false, eol)]
  {
    assert (boards + [t])[..|boards|] == boards;
  }

  /** The text `playGame` writes for a session that started on board `start`. */
  function Trace(start: State, boards: seq<State>, snapshots: bool, eol: string): seq<string>
    requires WellFormed(start) && forall k :: 0 <= k < |boards| ==> WellFormed(boards[k])
  {
    if snapshots then [Block(start, 0, true, eol)] + Blocks(boards, eol) else []
  }

  /**
   * `playGame`: an initial block when snapshots are on, then one turn after
   * another until the game is over or a timeout, fault, null or rejected move
   * ends it; returns the board's `stepCount`. The loop ends for every strategy:
   * each turn that goes on visits at least one new cell.
   */
  method PlayGame(board: GameBoard.Board, strategy: Strategy, enableSnapshots: bool, eol: string)
    returns (steps: int, trace: seq<string>, ending: Ending, ghost boards: seq<State>)
    requires board.Valid()
    modifies board, board.grid, board.visited
    ensures board.Valid()
    ensures Played(old(board.Model()), strategy, Session(board.Model(), ending, boards))
    ensures trace == Trace(old(board.Model()), boards, enableSnapshots, eol)
    ensures steps == board.Model().stepCount
  {
    ghost var start := board.Model();
    trace := [];
    if enableSnapshots {
      var block := SaveSnapshot(board, 0, true, eol);
      trace := [block];
    }
    boards := [];
    var turn: nat := 0;
    while true
      invariant board.Valid()
      invariant turn == |boards| && Progress(start, strategy, boards, board.Model())
      invariant trace == Trace(start, boards, enableSnapshots, eol)
      decreases board.size * board.size - board.visitedCount
    {
      VisitedBound(board.Model());
      label Turn:
      var stop := PlayTurn(board, strategy, turn);
      if stop.Some? {
        ending := stop.value;
        ProgressPlayed(start, strategy, boards, board.Model(), ending);
        break;
      }
      ghost var t := board.Model();
      ProgressStep(start, strategy, boards, old@Turn(board.Model()), t);
      trace := RecordTurn(board, start, boards, enableSnapshots, eol, trace);
      boards := boards + [t];
      turn := turn + 1;
    }
    steps := board.GetStepCount();
  }

  /** After a turn that went on: the step's snapshot, when snapshots are on. */
  method RecordTurn(board: GameBoard.Board, ghost start: State, ghost boards: seq<State>, enableSnapshots: bool, eol: string,
                    trace: seq<string>) returns (more: seq<string>)
    requires board.Valid()
    requires WellFormed(start) && forall k :: 0 <= k < |boards| ==> WellFormed(boards[k])
    requires trace == Trace(start, boards, enableSnapshots, eol)
    ensures more == Trace(start, boards + [board.Model()], enableSnapshots, eol)
  {
    more := trace;
    if enableSnapshots {
      var block := SaveSnapshot(board, board.GetStepCount(), false, eol);
      TraceAppend(start, boards, board.Model(), block, eol);
      more := trace + [block];
    }
  }

  /**
   * The body of the loop: `isGameOver`, then ask the strategy for a move and
   * apply it. A turn that stops leaves the board as it was; one that goes on
   * is the move `Step` describes.
   */
  method PlayTurn(board: GameBoard.Board, strategy: Strategy, turn: nat) returns (stop: Option<Ending>)
    requires board.Valid()
    modifies board, board.grid, board.visited
    ensures board.Valid()
    ensures stop.Some? ==> board.Model() == old(board.Model()) && StopsAt(old(board.Model()), strategy, turn, stop.value)
    ensures stop.None? ==>
      && !GameOver(old(board.Model()))
      && Step(old(board.Model()), strategy(turn, old(board.Model()))) == Moved(board.Model())
      && board.visitedCount > old(board.visitedCount)
  {
    ghost var s := board.Model();
    var over := board.IsGameOver();
    if over {
      return Some(GameIsOver);
    }
    var response := strategy(turn, board.View());
    if response.TimedOut? {
      return Some(Timeout);
    } else if response.Faulted? {
      return Some(Fault);
    } else if response.NoMove? {
      return Some(Pass);
    }
    var ok := board.ApplyMove(response.move);
    if !ok {
      return Some(Invalid);
    }
    ApplyProgress(s, response.move);
    stop := None;
  }

  /** A snapshot after a move adds that board's block to the trace. */
  lemma TraceAppend(start: State, boards: seq<State>, t: State, block: string, eol: string)
    requires WellFormed(start) && forall k :: 0 <= k < |boards| ==> WellFormed(boards[k])
    requires WellFormed(t) && block == Block(t, t.stepCount, false, eol)
    ensures Trace(start, boards + [t], true, eol) == Trace(start, boards, true, eol) + [block]
  {
    BlocksAppend(boards, t, eol);
  }

  /** What the loop has done so far: board `cur` after the moves recorded in `boards`. */
  ghost predicate Progress(start: State, strategy: Strategy, boards: seq<State>, cur: State) {
    && Invariant(start)
    && Moves(start, strategy, boards)
    && (forall k :: 0 <= k < |boards| ==> Invariant(boards[k]))
    && cur == At(start, boards, |boards|)
  }

  /** A turn that went on extends the recorded moves by one board. */
  lemma ProgressStep(start: State, strategy: Strategy, boards: seq<State>, cur: State, t: State)
    requires Progress(start, strategy, boards, cur)
    requires !GameOver(cur) && Step(cur, strategy(|boards|, cur)) == Moved(t)
    ensures Progress(start, strategy, boards + [t], t)
  {
    var more := boards + [t];
    assert Invariant(cur) by {
      if |boards| > 0 {
        assert cur == boards[|boards| - 1];
      }
    }
    ApplyProgress(cur, strategy(|boards|, cur).move);
    forall k | 0 <= k < |more| ensures MovedAt(start, strategy, more, k) {
      assert At(start, more, k) == At(start, boards, k);
      if k < |boards| {
        assert MovedAt(start, strategy, boards, k);
      }
    }
  }

  /** A turn that stops ends the session. */
  lemma ProgressPlayed(start: State, strategy: Strategy, boards: seq<State>, cur: State, ending: Ending)
    requires Progress(start, strategy, boards, cur) && Invariant(cur)
    requires StopsAt(cur, strategy, |boards|, ending)
    ensures Played(start, strategy, Session(cur, ending, boards))
  {
  }

  // ---------------------------------------------------------------------------
  // Properties of the loop

  /** After k moves, the step count grew by k and the visited count by at least k. */
  lemma {:induction false} MovesCount(start: State, strategy: Strategy, boards: seq<State>, k: nat)
    requires Invariant(start) && Moves(start, strategy, boards) && k <= |boards|
    ensures var cur := At(start, boards, k);
      && Invariant(cur)
      && cur.stepCount == start.stepCount + k
      && cur.visitedCount >= start.visitedCount + k
    decreases k
  {
    if k > 0 {
      MovesCount(start, strategy, boards, k - 1);
      assert MovedAt(start, strategy, boards, k - 1);
      var prev := At(start, boards, k - 1);
      ApplyProgress(prev, strategy(k - 1, prev).move);
    }
  }

  /**
   * A session ends with `GameIsOver` exactly when its final board has no
   * legal move; board k is the board after k + 1 moves; the step count grows
   * by the number of moves, the visited count by at least as much, so a
   * session makes at most size * size - 1 moves.
   */
  lemma PlayedSpec(start: State, strategy: Strategy, run: Session)
    requires Played(start, strategy, run)
    ensures run.ending == GameIsOver <==> GameOver(run.final)
    ensures forall k :: 0 <= k < |run.boards| ==> run.boards[k].stepCount == start.stepCount + k + 1
    ensures run.final.stepCount == start.stepCount + |run.boards|
    ensures run.final.visitedCount >= start.visitedCount + |run.boards|
    ensures |run.boards| <= start.size * start.size - start.visitedCount
  {
    forall k | 0 <= k < |run.boards| ensures run.boards[k].stepCount == start.stepCount + k + 1 {
      MovesCount(start, strategy, run.boards, k + 1);
    }
    MovesCount(start, strategy, run.boards, |run.boards|);
    MovesSize(start, strategy, run.boards, |run.boards|);
    VisitedBound(run.final);
  }

  /** Every board of a session has the size of the starting board. */
  lemma {:induction false} MovesSize(start: State, strategy: Strategy, boards: seq<State>, k: nat)
    requires Invariant(start) && Moves(start, strategy, boards) && k <= |boards|
    ensures At(start, boards, k).size == start.size
    decreases k
  {
    if k > 0 {
      MovesSize(start, strategy, boards, k - 1);
      assert MovedAt(start, strategy, boards, k - 1);
      var prev := At(start, boards, k - 1);
      ApplyProgress(prev, strategy(k - 1, prev).move);
    }
  }

  /** Two sessions played from the same board agree on their first k boards. */
  lemma MovesAgree(start: State, strategy: Strategy, a: seq<State>, b: seq<State>, k: nat)
    requires Moves(start, strategy, a) && Moves(start, strategy, b)
    requires k <= |a| && k <= |b|
    ensures a[..k] == b[..k]
    ensures At(start, a, k) == At(start, b, k)
  {
    var next := (j: nat, s: State) => if WellFormed(s) then Step(s, strategy(j, s)) else Stop(Fault);
    forall j | 0 <= j < |a| ensures next(j, At(start, a, j)) == Moved(a[j]) {
      assert MovedAt(start, strategy, a, j);
    }
    forall j | 0 <= j < |b| ensures next(j, At(start, b, j)) == Moved(b[j]) {
      assert MovedAt(start, strategy, b, j);
    }
    FollowAgree(start, next, a, b, k);
  }

  /**
   * Two sequences of boards each produced turn by turn from `start` by the
   * same successor function agree on their first k boards.
   */
  lemma {:induction false} FollowAgree(start: State, next: (nat, State) -> Turn, a: seq<State>, b: seq<State>, k: nat)
    requires forall j {:trigger At(start, a, j)} :: 0 <= j < |a| ==> next(j, At(start, a, j)) == Moved(a[j])
    requires forall j {:trigger At(start, b, j)} :: 0 <= j < |b| ==> next(j, At(start, b, j)) == Moved(b[j])
    requires k <= |a| && k <= |b|
    ensures a[..k] == b[..k]
    ensures At(start, a, k) == At(start, b, k)
    decreases k
  {
    if k > 0 {
      FollowAgree(start, next, a, b, k - 1);
      assert next(k - 1, At(start, a, k - 1)) == Moved(a[k - 1]);
      assert next(k - 1, At(start, b, k - 1)) == Moved(b[k - 1]);
      assert a[..k] == a[..k - 1] + [a[k - 1]];
      assert b[..k] == b[..k - 1] + [b[k - 1]];
    }
  }

  lemma MovedAtOf(start: State, strategy: Strategy, boards: seq<State>, k: nat)
    requires Moves(start, strategy, boards) && k < |boards|
    ensures MovedAt(start, strategy, boards, k)
  {
  }

  /** The loop cannot both stop and go on at the same turn. */
  lemma StopIsNoMove(s: State, strategy: Strategy, turn: nat, ending: Ending)
    requires Invariant(s) && StopsAt(s, strategy, turn, ending)
    ensures GameOver(s) || !Step(s, strategy(turn, s)).Moved?
  {
  }

  /** A session under a strategy is determined by its starting board. */
  lemma PlayedUnique(start: State, strategy: Strategy, a: Session, b: Session)
    requires Played(start, strategy, a) && Played(start, strategy, b)
    ensures a == b
  {
    StopsBeforeMove(start, strategy, a, b);
    StopsBeforeMove(start, strategy, b, a);
    MovesAgree(start, strategy, a.boards, b.boards, |a.boards|);
    assert a.boards == a.boards[..|a.boards|];
    assert b.boards == b.boards[..|b.boards|];
  }

  /** A session that stopped cannot be the prefix of one that went on. */
  lemma StopsBeforeMove(start: State, strategy: Strategy, a: Session, b: Session)
    requires Played(start, strategy, a) && Played(start, strategy, b)
    ensures |b.boards| <= |a.boards|
  {
    if |a.boards| < |b.boards| {
      var n := |a.boards|;
      StopIsNoMove(a.final, strategy, n, a.ending);
      MovedAtOf(start, strategy, b.boards, n);
      MovesAgree(start, strategy, a.boards, b.boards, n);
      assert false;
    }
  }

  /** Each block after the initial one is headed "Step K:" with K the step count after its move. */
  lemma TraceHeaders(start: State, strategy: Strategy, run: Session, eol: string, k: nat)
    requires Played(start, strategy, run) && k < |run.boards|
    ensures var b := Trace(start, run.boards, true, eol)[k + 1];
      var h := "Step " + IntToString(start.stepCount + k + 1) + ":\n";
      |h| <= |b| && b[..|h|] == h
  {
    var t := run.boards[k];
    MovesCount(start, strategy, run.boards, k + 1);
    assert t.stepCount == start.stepCount + k + 1;
    var blocks := Blocks(run.boards, eol);
    BlocksAt(run.boards, eol, k);
    assert Trace(start, run.boards, true, eol)[k + 1] == blocks[k];
    BlockHeader(t, t.stepCount, eol);
  }

  lemma BlockHeader(s: State, step: int, eol: string)
    requires WellFormed(s)
    ensures var h := "Step " + IntToString(step) + ":\n";
      |h| <= |Block(s, step, false, eol)| && Block(s, step, false, eol)[..|h|] == h
  {
    var h := "Step " + IntToString(step) + ":\n";
    var rest := RowsText(s, s.size, eol) + eol;
    assert Block(s, step, false, eol) == h + rest;
  }

  /** Player12345 as a strategy: it never times out or faults. */
  function FirstMoveStrategy(turn: nat, s: State): Response {
    match Player12345.NextMove(s)
    case None => NoMove
    case Some(m) => Play(m)
  }

  /**
   * Driven by Player12345 with no timeouts, a session always ends because the
   * game is over, whatever the board.
   */
  lemma FirstMoveStrategyPlaysToTheEnd(start: State, run: Session)
    requires Played(start, FirstMoveStrategy, run)
    ensures run.ending == GameIsOver && GameOver(run.final)
  {
    var s := run.final;
    Player12345.NextMoveSpec(s);
    if !GameOver(s) {
      assert false;
    }
  }
}
