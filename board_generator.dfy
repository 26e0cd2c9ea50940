/**
 * src/game/BoardGenerator.java: five random 5x5 boards written as the board
 * files boards/board1.dat .. boards/board5.dat, and the board-file layout
 * that src/game/InstanceGenerator.java writes too.
 *
 * A board file is the size on the first line, "startRow startCol" on the
 * second, then one line per grid row with the weights separated by single
 * spaces. The `Random` draws are inputs; a written file is the text its
 * writer receives.
 */
module BoardGenerator {
  import opened Text
  import GameBoard
  import Referee

  const NumBoards: nat := 5
  const Size: nat := 5

  // ---------------------------------------------------------------------------
  // The board-file layout

  /** The first k weights of a row, each but the row's last followed by a space. */
  function ValuesText(row: seq<int>, k: nat): string
    requires k <= |row|
  {
    if k == 0 then "" else ValuesText(row, k - 1) + IntToString(row[k - 1]) + (if k < |row| then " " else "")
  }

  /** One more weight: its text, then a space unless it is the row's last. */
  lemma ValuesTextNext(row: seq<int>, j: nat)
    requires j < |row|
    ensures ValuesText(row, j + 1) == ValuesText(row, j) + (IntToString(row[j]) + (if j + 1 < |row| then " " else ""))
  {
  }

  /** One grid row of a board file, without its line end. */
  function RowText(row: seq<int>): string {
    ValuesText(row, |row|)
  }

  /** The first k grid rows, each followed by `eol`. */
  function GridText(g: seq<seq<int>>, k: nat, eol: string): string
    requires k <= |g|
  {
    if k == 0 then "" else GridText(g, k - 1, eol) + RowText(g[k - 1]) + eol
  }

  function StartLine(startRow: int, startCol: int): string {
    IntToString(startRow) + " " + IntToString(startCol)
  }

  /** A whole board file, with `eol` after every line. */
  function BoardText(size: nat, startRow: int, startCol: int, g: seq<seq<int>>, eol: string): string
    requires |g| == size
  {
    IntToString(size) + eol + StartLine(startRow, startCol) + eol + GridText(g, size, eol)
  }

  /** The decimal texts of a row's weights. */
  function Fields(row: seq<int>): (fields: seq<string>)
    ensures |fields| == |row|
  {
    seq(|row|, c requires 0 <= c < |row| => IntToString(row[c]))
  }

  /** The grid row lines of a board file. */
  function GridLines(g: seq<seq<int>>, k: nat): (lines: seq<string>)
    requires k <= |g|
    ensures |lines| == k
  {
    seq(k, r requires 0 <= r < k => RowText(g[r]))
  }

  lemma {:induction false} ValuesTextJoin(row: seq<int>, k: nat)
    requires 1 <= k <= |row|
    ensures ValuesText(row, k) == Join(Fields(row)[..k], ' ') + (if k < |row| then " " else "")
    decreases k
  {
    var f := Fields(row);
    if k > 1 {
      ValuesTextJoin(row, k - 1);
      assert f[..k][..k - 1] == f[..k - 1];
    }
  }

  /** Splitting a row line at its spaces gives the weights' decimal texts. */
  lemma RowFields(row: seq<int>)
    requires |row| >= 1
    ensures Split(RowText(row), ' ') == Fields(row)
  {
    var f := Fields(row);
    ValuesTextJoin(row, |row|);
    assert f[..|row|] == f;
    var line := Join(f, ' ');
    assert RowText(row) == line + "";
    assert line + "" == line;
    forall c | 0 <= c < |f| ensures ' ' !in f[c] {
      IntToStringChars(row[c], ' ');
    }
    SplitJoin(f, ' ');
    assert Split(line, ' ') == f;
  }

  lemma {:induction false} ValuesTextChars(row: seq<int>, k: nat, ch: char)
    requires k <= |row| && !IsDigit(ch) && ch != '-' && ch != ' '
    ensures ch !in ValuesText(row, k)
    decreases k
  {
    if k > 0 {
      ValuesTextChars(row, k - 1, ch);
      IntToStringChars(row[k - 1], ch);
    }
  }

  lemma {:induction false} GridTextLines(g: seq<seq<int>>, k: nat, eol: string)
    requires k <= |g|
    ensures GridText(g, k, eol) == Terminated(GridLines(g, k), eol)
    decreases k
  {
    if k > 0 {
      GridTextLines(g, k - 1, eol);
      assert GridLines(g, k)[..k - 1] == GridLines(g, k - 1);
    }
  }

  /** The size line and the start line. */
  function HeadLines(size: nat, startRow: int, startCol: int): seq<string> {
    [IntToString(size), StartLine(startRow, startCol)]
  }

  /** A board file is its lines, each followed by `eol`. */
  lemma BoardTextLines(size: nat, startRow: int, startCol: int, g: seq<seq<int>>, eol: string)
    requires |g| == size
    ensures BoardText(size, startRow, startCol, g, eol) ==
            Terminated(HeadLines(size, startRow, startCol) + GridLines(g, size), eol)
  {
    GridTextLines(g, size, eol);
    TerminatedTwo(IntToString(size), StartLine(startRow, startCol), GridLines(g, size), eol);
  }

  lemma BoardLinesHaveNoBreak(size: nat, startRow: int, startCol: int, g: seq<seq<int>>)
    requires |g| == size
    ensures NoneContains(HeadLines(size, startRow, startCol) + GridLines(g, size), '\n')
  {
    var lines := HeadLines(size, startRow, startCol) + GridLines(g, size);
    IntToStringChars(size, '\n');
    IntToStringChars(startRow, '\n');
    IntToStringChars(startCol, '\n');
    forall i | 0 <= i < |lines| ensures '\n' !in lines[i] {
      if i >= 2 {
        assert lines[i] == RowText(g[i - 2]);
        ValuesTextChars(g[i - 2], |g[i - 2]|, '\n');
      }
    }
  }

  /**
   * Read with "\n" as line separator, a board file is the size line, the
   * start line, one line per grid row, and the empty rest after the last
   * line end.
   */
  lemma BoardLines(size: nat, startRow: int, startCol: int, g: seq<seq<int>>)
    requires |g| == size
    ensures Split(BoardText(size, startRow, startCol, g, "\n"), '\n') ==
            HeadLines(size, startRow, startCol) + GridLines(g, size) + [""]
  {
    var lines := HeadLines(size, startRow, startCol) + GridLines(g, size);
    BoardTextLines(size, startRow, startCol, g, "\n");
    BoardLinesHaveNoBreak(size, startRow, startCol, g);
    SplitTerminated(lines, '\n', "");
    assert Terminated(lines, "\n") + "" == Terminated(lines, "\n");
  }

  /** The weights, sizes and start coordinates a board file can hold and be read back from. */
  predicate Readable(size: nat, startRow: int, startCol: int, g: seq<seq<int>>) {
    && 1 <= size <= IntMax
    && 0 <= startRow <= IntMax && 0 <= startCol <= IntMax
    && |g| == size
    && (forall r :: 0 <= r < size ==> |g[r]| == size)
    && (forall r, c :: 0 <= r < size && 0 <= c < size ==> 0 <= g[r][c] <= IntMax)
  }

  /**
   * A board file reads back as what was written: `Integer.parseInt` of the
   * first line is the size, the second line splits into the two start
   * coordinates, and each grid line splits at its spaces into `size` fields
   * that parse to the row's weights.
   */
  lemma BoardReadsBack(size: nat, startRow: int, startCol: int, g: seq<seq<int>>)
    requires Readable(size, startRow, startCol, g)
    ensures var lines := Split(BoardText(size, startRow, startCol, g, "\n"), '\n');
      && |lines| == size + 3
      && JavaParseInt(lines[0]) == Some(size)
      && |Split(lines[1], ' ')| == 2
      && JavaParseInt(Split(lines[1], ' ')[0]) == Some(startRow)
      && JavaParseInt(Split(lines[1], ' ')[1]) == Some(startCol)
      && var rows := lines[2..size + 2];
      && (forall r :: 0 <= r < size ==> |Split(rows[r], ' ')| == size)
      && (forall r, c :: 0 <= r < size && 0 <= c < size ==>
            JavaParseInt(Split(rows[r], ' ')[c]) == Some(g[r][c]))
  {
    var lines := Split(BoardText(size, startRow, startCol, g, "\n"), '\n');
    BoardLines(size, startRow, startCol, g);
    var rows := lines[2..size + 2];
    assert rows == GridLines(g, size);
    ParseNatToString(size);
    StartFields(startRow, startCol);
    forall r | 0 <= r < size
      ensures Split(rows[r], ' ') == Fields(g[r])
    {
      RowFields(g[r]);
    }
    forall r, c | 0 <= r < size && 0 <= c < size
      ensures JavaParseInt(Split(rows[r], ' ')[c]) == Some(g[r][c])
    {
      ParseNatToString(g[r][c]);
    }
  }

  lemma StartFields(startRow: nat, startCol: nat)
    requires startRow <= IntMax && startCol <= IntMax
    ensures Split(StartLine(startRow, startCol), ' ') == [IntToString(startRow), IntToString(startCol)]
    ensures JavaParseInt(IntToString(startRow)) == Some(startRow)
    ensures JavaParseInt(IntToString(startCol)) == Some(startCol)
  {
    IntToStringChars(startRow, ' ');
    IntToStringChars(startCol, ' ');
    SplitAtLast(IntToString(startRow), ' ', IntToString(startCol));
    ParseNatToString(startRow);
    ParseNatToString(startCol);
  }

  // ---------------------------------------------------------------------------
  // generateRandomBoardData

  /**
   * The `Random` values of one board, in the order `generateRandomBoardData`
   * draws them: `nextInt(9)` for each cell row by row, then `nextInt(size)`
   * for the start row and for the start column.
   */
  datatype Draws = Draws(cells: seq<seq<int>>, startRow: int, startCol: int)

  /** Draws that `nextInt` can return for a size x size board. */
  predicate DrawsFor(size: nat, d: Draws) {
    && |d.cells| == size
    && (forall r :: 0 <= r < size ==> |d.cells[r]| == size)
    && (forall r, c :: 0 <= r < size && 0 <= c < size ==> 0 <= d.cells[r][c] < 9)
    && 0 <= d.startRow < size && 0 <= d.startCol < size
  }

  /** The weights of one grid row: each draw plus one. */
  function WeightRow(cells: seq<int>): (row: seq<int>)
    ensures |row| == |cells|
  {
    seq(|cells|, c requires 0 <= c < |cells| => 1 + cells[c])
  }

  /** The generated grid: size x size, every weight in 1..9. */
  function Weights(size: nat, d: Draws): (g: seq<seq<int>>)
    requires DrawsFor(size, d)
    ensures |g| == size && forall r :: 0 <= r < size ==> |g[r]| == size
    ensures forall r, c :: 0 <= r < size && 0 <= c < size ==> 1 <= g[r][c] <= 9
  {
    seq(size, r requires 0 <= r < size => WeightRow(d.cells[r]))
  }

  /** `BoardData`: a generated board before it is written. */
  class BoardData {
    var size: int
    var grid: array2<int>
    var startRow: int
    var startCol: int

    constructor (sz: int, gr: array2<int>, sr: int, sc: int)
      ensures size == sz && grid == gr && startRow == sr && startCol == sc
    {
      size := sz;
      grid := gr;
      startRow := sr;
      startCol := sc;
    }
  }

  /** `generateRandomBoardData`: the grid filled row by row from the draws, then the start. */
  method GenerateRandomBoardData(size: nat, draws: Draws) returns (data: BoardData)
    requires DrawsFor(size, draws)
    ensures fresh(data) && fresh(data.grid)
    ensures data.size == size && data.grid.Length0 == size && data.grid.Length1 == size
    ensures GameBoard.Matrix(data.grid) == Weights(size, draws)
    ensures data.startRow == draws.startRow && data.startCol == draws.startCol
  {
    var grid := new int[size, size];
    for r := 0 to size
      invariant forall i, j :: 0 <= i < r && 0 <= j < size ==> grid[i, j] == 1 + draws.cells[i][j]
    {
      for c := 0 to size
        invariant forall i, j :: 0 <= i < r && 0 <= j < size ==> grid[i, j] == 1 + draws.cells[i][j]
        invariant forall j :: 0 <= j < c ==> grid[r, j] == 1 + draws.cells[r][j]
      {
        grid[r, c] := 1 + draws.cells[r][c];
      }
    }
    var startRow := draws.startRow;
    var startCol := draws.startCol;
    data := new BoardData(size, grid, startRow, startCol);
    assert forall r :: 0 <= r < size ==> GameBoard.Matrix(grid)[r] == Weights(size, draws)[r];
  }

  // ---------------------------------------------------------------------------
  // saveBoardData

  /** `saveBoardData`, with the file writer replaced by the text it receives. */
  method SaveBoardData(data: BoardData) returns (text: string)
    requires data.grid.Length0 == data.size && data.grid.Length1 == data.size
    ensures text == BoardText(data.size, data.startRow, data.startCol, GameBoard.Matrix(data.grid), "\n")
  {
    text := IntToString(data.size) + "\n";
    text := text + IntToString(data.startRow) + " " + IntToString(data.startCol) + "\n";
    var rows := SaveRows(data);
    text := text + rows;
  }

  /** The outer loop of `saveBoardData`: every grid row and its line end. */
  method SaveRows(data: BoardData) returns (rows: string)
    requires data.grid.Length0 == data.size && data.grid.Length1 == data.size
    ensures rows == GridText(GameBoard.Matrix(data.grid), data.size, "\n")
  {
    ghost var g := GameBoard.Matrix(data.grid);
    rows := "";
    for r := 0 to data.size
      invariant rows == GridText(g, r, "\n")
    {
      var line := SaveRow(data, r);
      rows := rows + line + "\n";
    }
  }

  /** The inner loop of `saveBoardData`: the weights of row r, spaces between. */
  method SaveRow(data: BoardData, r: int) returns (line: string)
    requires data.grid.Length0 == data.size && data.grid.Length1 == data.size && 0 <= r < data.size
    ensures line == RowText(GameBoard.Matrix(data.grid)[r])
  {
    ghost var row := GameBoard.Matrix(data.grid)[r];
    line := "";
    for c := 0 to data.size
      invariant line == ValuesText(row, c)
    {
      line := line + IntToString(data.grid[r, c]) + (if c < data.size - 1 then " " else "");
    }
  }

  // ---------------------------------------------------------------------------
  // main

  /** The name `main` gives board i. */
  function BoardFileName(i: int): string {
    "boards/board" + IntToString(i) + ".dat"
  }

  /** The last path component of board i's file name. */
  lemma BoardFileNameComponent(i: nat)
    ensures Referee.FileName(BoardFileName(i)) == "board" + NatToString(i) + ".dat"
  {
    var name := "board" + NatToString(i) + ".dat";
    assert BoardFileName(i) == "boards" + "/" + name;
    NatToStringChars(i, '/');
    Referee.FileNameOf("boards", name);
  }

  lemma KeepBoardDigits(i: nat)
    ensures KeepDigits("board" + NatToString(i) + ".dat") == NatToString(i)
  {
    var d := NatToString(i);
    KeepDigitsAppend("board" + d, ".dat");
    KeepDigitsAppend("board", d);
    NatToStringDigits(i);
    KeepDigitsOfDigits(d);
    KeepDigitsOfNone("board");
    KeepDigitsOfNone(".dat");
  }

  /** The referee reads the board number back from the generated file name. */
  lemma BoardFileNumber(i: nat)
    requires i <= IntMax
    ensures Referee.ExtractBoardNumber(BoardFileName(i)) == i
  {
    BoardFileNameComponent(i);
    KeepBoardDigits(i);
    NatToStringDigits(i);
  }

  /**
   * `main`: boards 1 .. 5, each generated from its own draws and saved under
   * its file name (the printed "Generated" lines are not modelled).
   */
  method GenerateBoards(draws: seq<Draws>) returns (files: seq<(string, string)>)
    requires |draws| == NumBoards && forall k :: 0 <= k < NumBoards ==> DrawsFor(Size, draws[k])
    ensures |files| == NumBoards
    ensures forall k :: 0 <= k < NumBoards ==>
      files[k] == (BoardFileName(k + 1),
                   BoardText(Size, draws[k].startRow, draws[k].startCol, Weights(Size, draws[k]), "\n"))
  {
    files := [];
    for i := 1 to NumBoards + 1
      invariant |files| == i - 1
      invariant forall k :: 0 <= k < i - 1 ==>
        files[k] == (BoardFileName(k + 1),
                     BoardText(Size, draws[k].startRow, draws[k].startCol, Weights(Size, draws[k]), "\n"))
    {
      var data := GenerateRandomBoardData(Size, draws[i - 1]);
      var filename := "boards/board" + IntToString(i) + ".dat";
      var text := SaveBoardData(data);
      files := files + [(filename, text)];
    }
  }

  /** The generated files are boards 1 .. 5 to the referee, and each reads back as its board. */
  lemma GeneratedBoards(draws: seq<Draws>, k: nat)
    requires |draws| == NumBoards && forall k :: 0 <= k < NumBoards ==> DrawsFor(Size, draws[k])
    requires k < NumBoards
    ensures Referee.ExtractBoardNumber(BoardFileName(k + 1)) == k + 1
    ensures Readable(Size, draws[k].startRow, draws[k].startCol, Weights(Size, draws[k]))
  {
    BoardFileNumber(k + 1);
  }
}
