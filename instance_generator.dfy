/**
 * src/game/InstanceGenerator.java: one random board of a size given on the
 * command line, written in the board-file layout of `BoardGenerator`.
 *
 * `println` ends lines with the platform line separator, which is the `eol`
 * parameter here. The `Random` draws are inputs, taken in the order this
 * generator draws them: the start row and column first, then one weight per
 * cell row by row.
 */
module InstanceGenerator {
  import opened Text
  import opened BoardGenerator

  /** What `main` makes of its arguments. */
  datatype Command =
    | Usage                                  // fewer than two arguments: the usage line, nothing generated
    | BadSize                                // `Integer.parseInt` of the size throws
    | Generate(filename: string, size: int)

  /**
   * The argument check and the size parse of `main`. A size written in the
   * decimal digits of another script, which `Integer.parseInt` accepts, is
   * `BadSize` here.
   */
  function ParseArgs(args: seq<string>): Command {
    if |args| < 2 then Usage
    else match JavaParseInt(args[1])
      case None => BadSize
      case Some(size) => Generate(args[0], size)
  }

  /**
   * Arguments naming a file and giving a size as `Integer.toString` writes it
   * ask for that file and that size, whatever arguments follow.
   */
  lemma ParseArgsOfSize(filename: string, size: int, rest: seq<string>)
    requires IntMin <= size <= IntMax
    ensures ParseArgs([filename, IntToString(size)] + rest) == Generate(filename, size)
  {
    var args := [filename, IntToString(size)] + rest;
    assert args[0] == filename && args[1] == IntToString(size);
    ParseIntToString(size);
  }

  /**
   * Arguments for a positive size make `main` write a board file of that size:
   * its lines are the board-file lines, and the board reads back.
   */
  lemma ArgsWriteBoard(filename: string, size: int, rest: seq<string>, draws: Draws, eol: string)
    requires 1 <= size <= IntMax && DrawsFor(size, draws)
    ensures ParseArgs([filename, IntToString(size)] + rest) == Generate(filename, size)
    ensures GeneratedText(size, draws, eol) ==
      Terminated(HeadLines(size, draws.startRow, draws.startCol) + GridLines(Weights(size, draws), size), eol)
    ensures Readable(size, draws.startRow, draws.startCol, Weights(size, draws))
  {
    ParseArgsOfSize(filename, size, rest);
    SameLayout(size, draws, eol);
  }

  /**
   * `generateBoard`, with the print writer replaced by the text it receives.
   * For a size of at most 0, `nextInt(size)` throws right after the size
   * line; the exception is not an `IOException`, so it leaves `main`, and the
   * file holds the size line alone (`completed` is false).
   */
  method GenerateBoard(size: int, draws: Draws, eol: string) returns (text: string, completed: bool)
    requires size >= 1 ==> DrawsFor(size, draws)
    ensures completed <==> size >= 1
    ensures !completed ==> text == IntToString(size) + eol
    ensures completed ==> text == BoardText(size, draws.startRow, draws.startCol, Weights(size, draws), eol)
  {
    text := IntToString(size) + eol;
    if size <= 0 {
      return text, false;
    }
    var startRow := draws.startRow;
    var startCol := draws.startCol;
    text := text + IntToString(startRow) + " " + IntToString(startCol) + eol;
    var rows := PrintRows(size, draws, eol);
    text := text + rows;
    completed := true;
  }

  /** The outer loop of `generateBoard`: each row, then `println()`. */
  method PrintRows(size: nat, draws: Draws, eol: string) returns (rows: string)
    requires DrawsFor(size, draws)
    ensures rows == GridText(Weights(size, draws), size, eol)
  {
    ghost var g := Weights(size, draws);
    rows := "";
    for i := 0 to size
      invariant rows == GridText(g, i, eol)
    {
      var line := PrintRow(size, draws.cells[i]);
      assert g[i] == WeightRow(draws.cells[i]);
      rows := rows + line + eol;
    }
  }

  /** The inner loop of `generateBoard`: each draw plus one, a space after all but the last. */
  method PrintRow(size: nat, cells: seq<int>) returns (line: string)
    requires |cells| == size
    ensures line == RowText(WeightRow(cells))
  {
    ghost var row := WeightRow(cells);
    line := "";
    for j := 0 to size
      invariant line == ValuesText(row, j)
    {
      var piece := PrintCell(size, cells, j);
      ValuesTextNext(row, j);
      line := line + piece;
    }
  }

  /** The body of the inner loop of `generateBoard`: draw j plus one, then a space unless it is the last. */
  method PrintCell(size: nat, cells: seq<int>, j: nat) returns (piece: string)
    requires |cells| == size && j < size
    ensures piece == IntToString(WeightRow(cells)[j]) + (if j + 1 < size then " " else "")
  {
    assert WeightRow(cells)[j] == cells[j] + 1;
    piece := IntToString(cells[j] + 1);
    if j < size - 1 {
      piece := piece + " ";
    }
  }

  /**
   * `main`: the file it writes, named by the first argument, or none when the
   * arguments are too few or the size does not parse.
   */
  method Run(args: seq<string>, draws: Draws, eol: string) returns (file: Option<(string, string)>)
    requires ParseArgs(args).Generate? && ParseArgs(args).size >= 1 ==> DrawsFor(ParseArgs(args).size, draws)
    ensures file.None? <==> !ParseArgs(args).Generate?
    ensures file.Some? ==> file.value.0 == args[0] && file.value.1 == GeneratedText(ParseArgs(args).size, draws, eol)
  {
    if |args| < 2 {
      return None;
    }
    var filename := args[0];
    var parsed := JavaParseInt(args[1]);
    if parsed.None? {
      return None;
    }
    var size := parsed.value;
    var text, completed := GenerateBoard(size, draws, eol);
    file := Some((filename, text));
  }

  /** The text `generateBoard` leaves in the file. */
  function GeneratedText(size: int, draws: Draws, eol: string): string
    requires size >= 1 ==> DrawsFor(size, draws)
  {
    if size >= 1 then BoardText(size, draws.startRow, draws.startCol, Weights(size, draws), eol)
    else IntToString(size) + eol
  }

  /**
   * A generated instance and the file `saveBoardData` writes for the same
   * board are the same lines; they differ only in the line end, `eol` here
   * and "\n" there. The instance holds a board that reads back.
   */
  lemma SameLayout(size: nat, draws: Draws, eol: string)
    requires 1 <= size <= IntMax && DrawsFor(size, draws)
    ensures var lines := HeadLines(size, draws.startRow, draws.startCol) + GridLines(Weights(size, draws), size);
      && GeneratedText(size, draws, eol) == Terminated(lines, eol)
      && BoardText(size, draws.startRow, draws.startCol, Weights(size, draws), "\n") == Terminated(lines, "\n")
    ensures Readable(size, draws.startRow, draws.startCol, Weights(size, draws))
  {
    BoardTextLines(size, draws.startRow, draws.startCol, Weights(size, draws), eol);
    BoardTextLines(size, draws.startRow, draws.startCol, Weights(size, draws), "\n");
  }
}
