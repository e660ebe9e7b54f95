/**
 * Small boards on which the move rules are worked out square by square.
 */
module Scenarios {
  import opened Board
  import opened Rules

  /** A first-player rook on (0, 7) with a second-player pawn on (0, 5):
      going down it may step to (0, 6) and capture on (0, 5), and it is
      offered nothing further down file 0. */
  lemma RookStopsAtFirstPiece()
    ensures var data := [Some(Piece(Rook, 0, 7, true)), Some(Piece(Pawn, 0, 5, false))];
            var moves := RookMoves(data, data[0].value);
            && Move(0, 6, -1) in moves
            && Move(0, 5, 1) in moves
            && forall m :: m in moves && m.x == 0 ==> m.y == 6 || m.y == 5
  {
    var data := [Some(Piece(Rook, 0, 7, true)), Some(Piece(Pawn, 0, 5, false))];
    var p := data[0].value;
    assert Clash(data, 0, 6) == -1;
    assert Clash(data, 0, 5) == 1;
    var down := Ray(data, true, 0, 6, 0, -1);
    assert down == [Move(0, 6, -1), Move(0, 5, 1)];
    var right := Ray(data, true, 1, 7, 1, 0);
    RayOnLine(data, true, 1, 7, 1, 0);
    assert forall m :: m in right ==> m.x >= 1;
    assert RookRays(data, p, 2) == right + [];
    assert RookRays(data, p, 3) == right + [];
    assert RookMoves(data, p) == right + down;
  }

  /** A first-player pawn on (3, 6), a second-player pawn on (2, 5), and
      (3, 5), (4, 5) empty: the pawn may step to (3, 5) or capture on
      (2, 5), and nothing else. */
  lemma PawnStepAndCapture()
    ensures var data := [Some(Piece(Pawn, 3, 6, true)), Some(Piece(Pawn, 2, 5, false))];
            PawnMoves(data, data[0].value) == [Move(3, 5, -1), Move(2, 5, 1)]
  {
    var data := [Some(Piece(Pawn, 3, 6, true)), Some(Piece(Pawn, 2, 5, false))];
    assert Clash(data, 3, 5) == -1;
    assert Clash(data, 2, 5) == 1;
    assert Clash(data, 4, 5) == -1;
  }

  /** The pawn rule does not look at the side of the piece it captures: a
      first-player pawn on (3, 6) is offered the capture of its own side's
      pawn on (4, 5). */
  lemma PawnCapturesOwnSide()
    ensures var data := [Some(Piece(Pawn, 3, 6, true)), Some(Piece(Pawn, 4, 5, true))];
            && Move(4, 5, 1) in PawnMoves(data, data[0].value)
            && data[1].value.player == data[0].value.player
  {
    var data := [Some(Piece(Pawn, 3, 6, true)), Some(Piece(Pawn, 4, 5, true))];
    assert Clash(data, 4, 5) == 1;
  }
}
