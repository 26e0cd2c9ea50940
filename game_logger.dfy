/**
 * src/game/GameLogger.java: a history of the board's weights, one snapshot
 * when the logger is made and one more after every logged move, and the list
 * of logged directions.
 *
 * Each snapshot is an array of the logger's own, so later moves on the board
 * leave the history as it was. The console report of `logMove` and its pause
 * are not modelled.
 */
module Logger {
  import opened Rules
  import GameBoard

  class GameLogger {
    var boardHistory: seq<array2<int>>
    var moveHistory: seq<(int, int)>
    const board: GameBoard.Board
    /** The weights each snapshot was taken from, in order. */
    ghost var snapshots: seq<seq<seq<int>>>

    /** One snapshot more than logged moves, and a sound history. */
    ghost predicate Valid()
      reads this, set k | 0 <= k < |boardHistory| :: boardHistory[k]
    {
      |boardHistory| == |moveHistory| + 1 && History()
    }

    /**
     * Every snapshot is size x size, holds the weights it was taken from, and
     * is an array no other snapshot and not the board shares.
     */
    ghost predicate History()
      reads this, set k | 0 <= k < |boardHistory| :: boardHistory[k]
    {
      && |snapshots| == |boardHistory|
      && (forall k :: 0 <= k < |boardHistory| ==>
            boardHistory[k].Length0 == board.size && boardHistory[k].Length1 == board.size)
      && (forall k :: 0 <= k < |boardHistory| ==> GameBoard.Matrix(boardHistory[k]) == snapshots[k])
      && (forall k, l :: 0 <= k < l < |boardHistory| ==> boardHistory[k] != boardHistory[l])
      && (forall k :: 0 <= k < |boardHistory| ==> boardHistory[k] != board.grid)
    }

    /** `GameLogger(board)`: no moves, and one snapshot of the board as it is. */
    constructor (board: GameBoard.Board)
      requires board.Tied()
      ensures this.board == board
      ensures Valid()
      ensures moveHistory == [] && snapshots == [board.Weights]
      ensures fresh(boardHistory[0])
    {
      this.board := board;
      boardHistory := [];
      moveHistory := [];
      snapshots := [];
      new;
      SaveState();
    }

    /** `logMove` without its console report: the direction, then a snapshot. */
    method LogMove(dRow: int, dCol: int)
      requires Valid() && board.Tied()
      modifies this
      ensures Valid()
      ensures moveHistory == old(moveHistory) + [(dRow, dCol)]
      ensures snapshots == old(snapshots) + [board.Weights]
      ensures |boardHistory| == |old(boardHistory)| + 1
      ensures boardHistory[..|old(boardHistory)|] == old(boardHistory)
      ensures fresh(boardHistory[|boardHistory| - 1])
    {
      moveHistory := moveHistory + [(dRow, dCol)];
      SaveState();
    }

    /** `saveState`: a new size x size array filled with `getValueAt`, appended to the history. */
    method SaveState()
      requires board.Tied() && History()
      modifies this
      ensures moveHistory == old(moveHistory)
      ensures |boardHistory| == |old(boardHistory)| + 1
      ensures boardHistory[..|old(boardHistory)|] == old(boardHistory)
      ensures fresh(boardHistory[|boardHistory| - 1])
      ensures snapshots == old(snapshots) + [board.Weights]
      ensures History()
    {
      var snapshot := TakeSnapshot();
      boardHistory := boardHistory + [snapshot];
      snapshots := snapshots + [board.Weights];
    }

    /** The loops of `saveState`: a new size x size array holding the board's weights. */
    method TakeSnapshot() returns (snapshot: array2<int>)
      requires board.Tied()
      ensures fresh(snapshot)
      ensures snapshot.Length0 == board.size && snapshot.Length1 == board.size
      ensures GameBoard.Matrix(snapshot) == board.Weights
    {
      var n := board.GetSize();
      snapshot := new int[n, n];
      for r := 0 to n
        invariant forall i, j :: 0 <= i < r && 0 <= j < n ==> snapshot[i, j] == board.Weights[i][j]
      {
        for c := 0 to n
          invariant forall i, j :: 0 <= i < r && 0 <= j < n ==> snapshot[i, j] == board.Weights[i][j]
          invariant forall j :: 0 <= j < c ==> snapshot[r, j] == board.Weights[r][j]
        {
          snapshot[r, c] := board.GetValueAt(r, c);
        }
      }
      assert forall r :: 0 <= r < n ==> GameBoard.Matrix(snapshot)[r] == board.Weights[r];
    }
  }

  /**
   * A move on the board, then its log entry: the history it had is kept,
   * although the move rewrites the board's arrays.
   */
  method MoveAndLog(logger: GameLogger, move: Move) returns (ok: bool)
    requires logger.Valid() && logger.board.Valid()
    modifies logger, logger.board, logger.board.grid, logger.board.visited
    ensures logger.Valid() && logger.board.Valid()
    ensures ok == Legal(old(logger.board.Model()), move)
    ensures ok ==> logger.board.Model() == Apply(old(logger.board.Model()), move)
    ensures ok ==> logger.snapshots == old(logger.snapshots) + [logger.board.Weights]
    ensures ok ==> logger.moveHistory == old(logger.moveHistory) + [(move.dRow, move.dCol)]
    ensures !ok ==> logger.snapshots == old(logger.snapshots) && logger.moveHistory == old(logger.moveHistory)
  {
    ok := logger.board.ApplyMove(move);
    if ok {
      logger.LogMove(move.dRow, move.dCol);
    }
  }
}
