/**
 * src/players/Player12345.java: the sample strategy that always plays the
 * first legal direction of the scan.
 */
module Player12345 {
  import opened Text
  import opened Rules
  import GameBoard

  /** `nextMove` on a board value: null (`None`) when there is no legal move, else the first one. */
  function NextMove(s: State): Option<Move> {
    var moves := PossibleMoves(s);
    if |moves| == 0 then None else Some(moves[0])
  }

  /** `nextMove` on the board object: it only queries the board. */
  method NextMoveOn(board: GameBoard.Board) returns (m: Option<Move>)
    requires board.Valid()
    ensures m == NextMove(board.Model())
  {
    var possibleMoves := board.GetPossibleMoves();
    if |possibleMoves| == 0 {
      return None;
    }
    return Some(possibleMoves[0]);
  }

  /**
   * The strategy passes exactly when the game is over; otherwise it plays a
   * legal scan direction, and no direction earlier in the scan is legal.
   */
  lemma NextMoveSpec(s: State)
    ensures NextMove(s).None? <==> GameOver(s)
    ensures NextMove(s).Some? ==>
      var m := NextMove(s).value;
      && m in Directions && Legal(s, m)
      && DirIndex(m) < 8 && m == Directions[DirIndex(m)]
      && forall k :: 0 <= k < DirIndex(m) ==> !Legal(s, Directions[k])
  {
    PossibleMovesSpec(s);
    var ms := PossibleMoves(s);
    if |ms| > 0 {
      var m := ms[0];
      assert m in ms;
      assert forall j :: 0 <= j < |ms| ==> DirIndex(m) <= DirIndex(ms[j]);
      assert forall x :: x in ms ==> DirIndex(m) <= DirIndex(x);
      assert forall k :: 0 <= k < 8 ==> DirIndex(Directions[k]) == k;
    }
  }

  /** A move chosen by the strategy is accepted by `applyMove` on the same board and visits new cells. */
  lemma NextMoveAccepted(s: State)
    requires Invariant(s) && NextMove(s).Some?
    ensures Legal(s, NextMove(s).value)
    ensures Invariant(Apply(s, NextMove(s).value))
    ensures Apply(s, NextMove(s).value).visitedCount > s.visitedCount
  {
    NextMoveSpec(s);
    ApplyEffect(s, NextMove(s).value);
    ApplyPreservesInvariant(s, NextMove(s).value);
  }
}
