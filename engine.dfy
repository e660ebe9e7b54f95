/**
 * The game state and its operations: the occupancy scan and the two move
 * generators as the loops they are (they only read the piece list, so they
 * take it as a parameter), and the class holding the piece list the engine
 * mutates, with the fixed setup and the move transaction.
 */
module Engine {
  import opened Board
  import opened Rules

  /** The index of the first move of `moves` whose target is (tx, ty), or -1
      when there is none. */
  function FindTarget(moves: seq<Move>, tx: int, ty: int): (k: int)
    ensures -1 <= k < |moves|
    ensures k == -1 <==> forall j :: 0 <= j < |moves| ==> !(moves[j].x == tx && moves[j].y == ty)
    ensures k != -1 ==> moves[k].x == tx && moves[k].y == ty
    ensures k != -1 ==> forall j :: 0 <= j < k ==> !(moves[j].x == tx && moves[j].y == ty)
  {
    if |moves| == 0 then -1
    else if moves[0].x == tx && moves[0].y == ty then 0
    else
      var k := FindTarget(moves[1..], tx, ty);
      if k == -1 then -1 else k + 1
  }

  /** Move `m` of the piece in slot `i` can be committed: the slot holds a
      piece, and the captured slot (if any) is a different, existing one. */
  predicate CanCommit(data: Slots, i: int, m: Move) {
    && 0 <= i < |data| && data[i].Some?
    && -1 <= m.killIndex < |data| && m.killIndex != i
  }

  /** The board after committing move `m` of the piece in slot `i`: first
      the captured slot (if any) is emptied, then the mover takes the target
      square. Nothing else changes. */
  function Commit(data: Slots, i: int, m: Move): (r: Slots)
    requires CanCommit(data, i, m)
    ensures |r| == |data|
    ensures r[i] == Some(data[i].value.(x := m.x, y := m.y))
    ensures m.killIndex != -1 ==> r[m.killIndex] == None
    ensures forall j :: 0 <= j < |data| && j != i && j != m.killIndex ==> r[j] == data[j]
  {
    var captured := if m.killIndex == -1 then data else data[m.killIndex := None];
    captured[i := Some(data[i].value.(x := m.x, y := m.y))]
  }

  /** Any generated move of a live piece can be committed, and committing it
      keeps the board invariant: afterwards the mover is the one piece on
      the target square and its former square is empty. */
  lemma CommitLegalMove(data: Slots, i: int, m: Move)
    requires 0 <= i < |data| && data[i].Some?
    requires m in Moves(data, data[i].value)
    ensures CanCommit(data, i, m)
    ensures WellFormed(data) ==>
              && WellFormed(Commit(data, i, m))
              && Clash(Commit(data, i, m), m.x, m.y) == i
              && Clash(Commit(data, i, m), data[i].value.x, data[i].value.y) == -1
  {
    var p := data[i].value;
    MovesFacts(data, p);
    if WellFormed(data) {
      var r := Commit(data, i, m);
      forall j, k | 0 <= j < k < |r| && r[j].Some? && r[k].Some?
        ensures r[j].value.x != r[k].value.x || r[j].value.y != r[k].value.y
      {
        if j == i || k == i {
          var o := if j == i then k else j;
          assert r[o] == data[o];
          if At(data[o], m.x, m.y) {
            ClashFindsOccupant(data, o, m.x, m.y);
            assert false;
          }
        }
      }
      forall j | 0 <= j < |r| && j != i && r[j].Some?
        ensures !At(r[j], m.x, m.y) && !At(r[j], p.x, p.y)
      {
        assert r[j] == data[j];
        if At(data[j], m.x, m.y) {
          ClashFindsOccupant(data, j, m.x, m.y);
          assert false;
        }
        assert !At(data[j], p.x, p.y);
      }
      ClashFindsOccupant(r, i, m.x, m.y);
    }
  }

  /** The fixed opening layout: eight first-player pawns on rank 6, eight
      second-player pawns on rank 1, then the rooks on the corners (0, 7)
      and (7, 7) for the first player and (0, 0) and (7, 0) for the
      second. */
  function InitialPieces(): Slots {
    seq(8, i => Some(Piece(Pawn, i, 6, true))) +
    seq(8, i => Some(Piece(Pawn, i, 1, false))) +
    [ Some(Piece(Rook, 0, 7, true)), Some(Piece(Rook, 7, 7, true)),
      Some(Piece(Rook, 0, 0, false)), Some(Piece(Rook, 7, 0, false)) ]
  }

  /** The opening layout slot by slot: twenty live pieces, the first
      player's pawns in slots 0-7 on rank 6, the second player's in slots
      8-15 on rank 1, then the four rooks. */
  lemma InitialLayout()
    ensures |InitialPieces()| == 20
    ensures forall j :: 0 <= j < 20 ==> InitialPieces()[j].Some?
    ensures forall j :: 0 <= j < 8 ==> InitialPieces()[j].value == Piece(Pawn, j, 6, true)
    ensures forall j :: 8 <= j < 16 ==> InitialPieces()[j].value == Piece(Pawn, j - 8, 1, false)
    ensures InitialPieces()[16..] ==
              [ Some(Piece(Rook, 0, 7, true)), Some(Piece(Rook, 7, 7, true)),
                Some(Piece(Rook, 0, 0, false)), Some(Piece(Rook, 7, 0, false)) ]
  {
  }

  /** The opening layout satisfies the board invariant. */
  lemma InitialWellFormed()
    ensures WellFormed(InitialPieces())
  {
    var s := InitialPieces();
    InitialLayout();
    forall j | 16 <= j < 20
      ensures s[j].value.kind == Rook && s[j].value.x in {0, 7} && s[j].value.y in {0, 7}
    {
      assert s[j] == s[16..][j - 16];
    }
  }

  /** Scans every slot of the piece list and keeps the index of the last
      live piece standing on (x, y). */
  method CheckForClash(data: Slots, x: int, y: int) returns (killIndex: int)
    ensures killIndex == Clash(data, x, y)
  {
    killIndex := -1;
    for index := 0 to |data|
      invariant killIndex == LastOccupant(data, index, x, y)
    {
      if data[index].Some? && data[index].value.x == x && data[index].value.y == y {
        killIndex := index;
      }
    }
  }

  /** The pawn's moves: the step onto the empty square ahead, then the
      diagonal captures to the left and to the right; each capture scans the
      board twice, once to test the square and once for the index. */
  method PawnAvalMoves(data: Slots, p: Piece) returns (moves: seq<Move>)
    ensures moves == PawnMoves(data, p)
  {
    moves := [];
    var direction := if p.player then -1 else 1;
    var nextY := p.y + direction;
    if 0 <= nextY < 8 {
      var ahead := CheckForClash(data, p.x, nextY);
      if ahead == -1 {
        moves := moves + [Move(p.x, nextY, -1)];
      }
      assert moves == StepOnto(data, p.x, nextY);
      ghost var forward := moves;
      if p.x > 0 {
        var left := CheckForClash(data, p.x - 1, nextY);
        if left != -1 {
          left := CheckForClash(data, p.x - 1, nextY);
          moves := moves + [Move(p.x - 1, nextY, left)];
        }
      }
      assert moves == forward + (if p.x > 0 then CaptureOn(data, p.x - 1, nextY) else []);
      ghost var forwardLeft := moves;
      if p.x < 7 {
        var right := CheckForClash(data, p.x + 1, nextY);
        if right != -1 {
          right := CheckForClash(data, p.x + 1, nextY);
          moves := moves + [Move(p.x + 1, nextY, right)];
        }
      }
      assert moves == forwardLeft + (if p.x < 7 then CaptureOn(data, p.x + 1, nextY) else []);
      assert nextY == NextRank(p);
    } else {
      assert !(0 <= NextRank(p) < 8);
    }
  }

  /** Concatenation is associative. Stated as a lemma only so that `WalkRay`
      can use it without the solver's own (much costlier) search for it. */
  lemma AppendAssoc(a: seq<Move>, b: seq<Move>, c: seq<Move>)
    ensures (a + b) + c == a + (b + c)
  {
  }

  /** The walk from (x, y) in direction (dx, dy): step until the edge of the
      board or the first occupied square, which is offered as a capture
      when it holds an opponent's piece. */
  method WalkRay(data: Slots, player: bool, x: int, y: int, dx: int, dy: int) returns (ray: seq<Move>)
    requires IsDirection(dx, dy)
    ensures ray == Ray(data, player, x + dx, y + dy, dx, dy)
  {
    ray := [];
    var nx, ny := x, y;
    while true
      invariant ray + Ray(data, player, nx + dx, ny + dy, dx, dy) == Ray(data, player, x + dx, y + dy, dx, dy)
      decreases 8 - Progress(nx, ny, dx, dy)
    {
      nx, ny := nx + dx, ny + dy;
      ghost var ahead := Ray(data, player, nx, ny, dx, dy);
      if 0 <= nx < 8 && 0 <= ny < 8 {
        var clashIndex := CheckForClash(data, nx, ny);
        if clashIndex == -1 {
          ghost var rest := Ray(data, player, nx + dx, ny + dy, dx, dy);
          assert ahead == [Move(nx, ny, -1)] + rest;
          AppendAssoc(ray, [Move(nx, ny, -1)], rest);
          ray := ray + [Move(nx, ny, -1)];
        } else {
          if data[clashIndex].value.player != player {
            assert ahead == [Move(nx, ny, clashIndex)];
            ray := ray + [Move(nx, ny, clashIndex)];
          } else {
            assert ahead == [];
          }
          break;
        }
      } else {
        assert ahead == [];
        break;
      }
    }
  }

  /** Walks each direction in turn: right, left, up, down. */
  method RookAvalMoves(data: Slots, p: Piece) returns (moves: seq<Move>)
    ensures moves == RookMoves(data, p)
  {
    moves := [];
    for d := 0 to |Directions|
      invariant moves == RookRays(data, p, d)
    {
      var (dx, dy) := Directions[d];
      var ray := WalkRay(data, p.player, p.x, p.y, dx, dy);
      moves := moves + ray;
    }
  }

  /** The move list of a piece, by the rule of its kind. */
  method AvalMoves(data: Slots, p: Piece) returns (moves: seq<Move>)
    ensures moves == Moves(data, p)
  {
    match p.kind
    case Pawn =>
      moves := PawnAvalMoves(data, p);
    case Rook =>
      moves := RookAvalMoves(data, p);
  }

  /** The game: the piece list the engine reads and mutates. */
  class Game {
    var data: Slots

    constructor ()
      ensures data == []
    {
      data := [];
    }

    /** Appends the opening layout to the piece list. */
    method InitializeGame()
      modifies this
      ensures data == old(data) + InitialPieces()
    {
      for i := 0 to 8
        invariant data == old(data) + seq(i, j => Some(Piece(Pawn, j, 6, true)))
      {
        data := data + [Some(Piece(Pawn, i, 6, true))];
      }
      ghost var firstRow := data;
      for i := 0 to 8
        invariant data == firstRow + seq(i, j => Some(Piece(Pawn, j, 1, false)))
      {
        data := data + [Some(Piece(Pawn, i, 1, false))];
      }
      data := data + [Some(Piece(Rook, 0, 7, true))];
      data := data + [Some(Piece(Rook, 7, 7, true))];
      data := data + [Some(Piece(Rook, 0, 0, false))];
      data := data + [Some(Piece(Rook, 7, 0, false))];
    }

    /** The move transaction: regenerate the moves of the piece in slot
        `pieceIndex`, pick the first one that targets (targetX, targetY),
        and commit it; with no such move, reject and change nothing. */
    method PerformMove(pieceIndex: int, targetX: int, targetY: int) returns (ok: bool)
      requires 0 <= pieceIndex < |data| && data[pieceIndex].Some?
      modifies this
      ensures var ms := Moves(old(data), old(data)[pieceIndex].value);
              var k := FindTarget(ms, targetX, targetY);
              && ok == (k != -1)
              && (!ok ==> data == old(data))
              && (ok ==> CanCommit(old(data), pieceIndex, ms[k]) && data == Commit(old(data), pieceIndex, ms[k]))
      ensures WellFormed(old(data)) ==> WellFormed(data)
    {
      var piece := data[pieceIndex].value;
      var validMoves := AvalMoves(data, piece);
      var selected: Option<Move> := None;
      var j := 0;
      while j < |validMoves|
        invariant 0 <= j <= |validMoves|
        invariant selected == None
        invariant forall l :: 0 <= l < j ==> !(validMoves[l].x == targetX && validMoves[l].y == targetY)
      {
        if validMoves[j].x == targetX && validMoves[j].y == targetY {
          selected := Some(validMoves[j]);
          break;
        }
        j := j + 1;
      }
      if selected.Some? {
        var m := selected.value;
        CommitLegalMove(data, pieceIndex, m);
        if m.killIndex != -1 {
          data := data[m.killIndex := None];
        }
        data := data[pieceIndex := Some(piece.(x := targetX, y := targetY))];
        ok := true;
      } else {
        ok := false;
      }
    }
  }
}
