/**
 * Move generation: the pawn and rook rules as functions of the piece list,
 * and what they guarantee about the squares they offer.
 */
module Rules {
  import opened Board

  /** The rank a pawn moves to: the first player moves towards rank 0, the
      second towards rank 7. */
  function NextRank(p: Piece): int {
    p.y + (if p.player then -1 else 1)
  }

  /** A step onto (x, y) if that square is empty. */
  function StepOnto(data: Slots, x: int, y: int): seq<Move> {
    if Clash(data, x, y) == -1 then [Move(x, y, -1)] else []
  }

  /** A capture on (x, y) if that square is occupied, by either side. */
  function CaptureOn(data: Slots, x: int, y: int): seq<Move> {
    var k := Clash(data, x, y);
    if k != -1 then [Move(x, y, k)] else []
  }

  /** The pawn rule: one step forward onto an empty square, and a diagonal
      step forward onto any occupied square, whichever side owns it. */
  function PawnMoves(data: Slots, p: Piece): seq<Move> {
    var ny := NextRank(p);
    if !(0 <= ny < 8) then []
    else
      StepOnto(data, p.x, ny) +
      (if p.x > 0 then CaptureOn(data, p.x - 1, ny) else []) +
      (if p.x < 7 then CaptureOn(data, p.x + 1, ny) else [])
  }

  /** The rook's four directions, in the order it walks them: right, left,
      up, down. */
  const Directions: seq<(int, int)> := [(1, 0), (-1, 0), (0, 1), (0, -1)]

  /** (dx, dy) is one of the four unit steps along a file or a rank. */
  predicate IsDirection(dx: int, dy: int) {
    || (dx == 1 && dy == 0) || (dx == -1 && dy == 0)
    || (dx == 0 && dy == 1) || (dx == 0 && dy == -1)
  }

  /** How far (x, y) lies along direction (dx, dy); one step adds one. */
  function Progress(x: int, y: int, dx: int, dy: int): int
    requires IsDirection(dx, dy)
  {
    if dx == 1 then x else if dx == -1 then -x else if dy == 1 then y else -y
  }

  /** The squares a rook of side `player` reaches in one direction, starting
      with square (nx, ny): empty squares are taken and the walk goes on; the
      first occupied square is taken only when an opponent stands there, and
      the walk ends there or at the edge of the board. */
  function Ray(data: Slots, player: bool, nx: int, ny: int, dx: int, dy: int): seq<Move>
    requires IsDirection(dx, dy)
    decreases 8 - Progress(nx, ny, dx, dy)
  {
    if !OnBoard(nx, ny) then []
    else
      var k := Clash(data, nx, ny);
      if k == -1 then [Move(nx, ny, -1)] + Ray(data, player, nx + dx, ny + dy, dx, dy)
      else if data[k].value.player != player then [Move(nx, ny, k)]
      else []
  }

  /** The rays of the first `n` directions, one after the other. */
  function RookRays(data: Slots, p: Piece, n: nat): seq<Move>
    requires n <= |Directions|
  {
    if n == 0 then []
    else
      var (dx, dy) := Directions[n - 1];
      RookRays(data, p, n - 1) + Ray(data, p.player, p.x + dx, p.y + dy, dx, dy)
  }

  function RookMoves(data: Slots, p: Piece): seq<Move> {
    RookRays(data, p, |Directions|)
  }

  /** Move generation dispatched on the kind of the piece. */
  function Moves(data: Slots, p: Piece): seq<Move> {
    match p.kind
    case Pawn => PawnMoves(data, p)
    case Rook => RookMoves(data, p)
  }

  // ---------------------------------------------------------------- pawn

  /** Every pawn move goes to the next rank, which is on the board; when the
      pawn stands on the board its moves do too; a pawn whose next rank is
      off the board has no move. */
  lemma PawnMovesOnBoard(data: Slots, p: Piece)
    ensures !(0 <= NextRank(p) < 8) ==> PawnMoves(data, p) == []
    ensures forall m :: m in PawnMoves(data, p) ==>
              m.y == NextRank(p) && 0 <= m.y < 8 && p.x - 1 <= m.x <= p.x + 1
    ensures OnBoard(p.x, p.y) ==> forall m :: m in PawnMoves(data, p) ==> OnBoard(m.x, m.y)
  {
  }

  /** The straight step is offered, without a capture, exactly when the
      square ahead is on the board and empty. */
  lemma PawnForward(data: Slots, p: Piece)
    ensures Move(p.x, NextRank(p), -1) in PawnMoves(data, p) <==>
              0 <= NextRank(p) < 8 && Clash(data, p.x, NextRank(p)) == -1
    ensures forall m :: m in PawnMoves(data, p) && m.x == p.x ==>
              m.killIndex == -1 && Clash(data, m.x, m.y) == -1
  {
  }

  /** A diagonal step to file p.x + dx is offered exactly when the guard of
      its side holds (p.x > 0 to the left, p.x < 7 to the right), the next
      rank is on the board and the square is occupied; it captures whatever
      piece the occupancy query reports there, of either side. */
  lemma PawnDiagonal(data: Slots, p: Piece, dx: int)
    requires dx == -1 || dx == 1
    ensures (exists m :: m in PawnMoves(data, p) && m.x == p.x + dx) <==>
              (if dx == -1 then p.x > 0 else p.x < 7) &&
              0 <= NextRank(p) < 8 && Clash(data, p.x + dx, NextRank(p)) != -1
    ensures forall m :: m in PawnMoves(data, p) && m.x == p.x + dx ==>
              m.killIndex == Clash(data, m.x, m.y) && m.killIndex != -1
  {
    var ny := NextRank(p);
    if (if dx == -1 then p.x > 0 else p.x < 7) && 0 <= ny < 8 && Clash(data, p.x + dx, ny) != -1 {
      var m := Move(p.x + dx, ny, Clash(data, p.x + dx, ny));
      assert m in PawnMoves(data, p);
    }
  }

  // ---------------------------------------------------------------- rook

  /** Coordinate `v` moved `j` steps along unit offset `d` (one of -1, 0, 1). */
  function Walk(v: int, d: int, j: int): int {
    if d == 1 then v + j else if d == -1 then v - j else v
  }

  /** The moves of `r` walk the board square by square from (nx, ny) along
      (dx, dy). */
  predicate OnLine(r: seq<Move>, nx: int, ny: int, dx: int, dy: int) {
    forall j :: 0 <= j < |r| ==>
      r[j].x == Walk(nx, dx, j) && r[j].y == Walk(ny, dy, j) && OnBoard(r[j].x, r[j].y)
  }

  /** Each move of `r` captures what the occupancy query reports on its
      square; only the last may capture, and only an opponent of `player`. */
  predicate CapturesLastOnly(data: Slots, player: bool, r: seq<Move>) {
    forall j :: 0 <= j < |r| ==>
      && r[j].killIndex == Clash(data, r[j].x, r[j].y)
      && (j < |r| - 1 ==> r[j].killIndex == -1)
      && (r[j].killIndex != -1 ==> data[r[j].killIndex].value.player != player)
  }

  /** The walk ended for the reason the rule gives: its last move was a
      capture, or the square (ex, ey) just beyond it is off the board or
      holds a piece of `player`'s own side. */
  predicate Blocked(data: Slots, player: bool, r: seq<Move>, ex: int, ey: int) {
    || (|r| > 0 && r[|r| - 1].killIndex != -1)
    || !OnBoard(ex, ey)
    || (Clash(data, ex, ey) != -1 && data[Clash(data, ex, ey)].value.player == player)
  }

  /** The j-th square of a ray is j steps from its first square, on the
      board. */
  lemma {:induction false} RayOnLine(data: Slots, player: bool, nx: int, ny: int, dx: int, dy: int)
    requires IsDirection(dx, dy)
    ensures OnLine(Ray(data, player, nx, ny, dx, dy), nx, ny, dx, dy)
    decreases 8 - Progress(nx, ny, dx, dy)
  {
    var r := Ray(data, player, nx, ny, dx, dy);
    if OnBoard(nx, ny) && Clash(data, nx, ny) == -1 {
      RayOnLine(data, player, nx + dx, ny + dy, dx, dy);
      var rest := Ray(data, player, nx + dx, ny + dy, dx, dy);
      assert r == [Move(nx, ny, -1)] + rest;
      forall j | 1 <= j < |r|
        ensures r[j].x == Walk(nx, dx, j) && r[j].y == Walk(ny, dy, j) && OnBoard(r[j].x, r[j].y)
      {
        assert r[j] == rest[j - 1];
      }
    }
  }

  /** Every square of a ray but the last is empty, each move's capture index
      is what the occupancy query reports on its square, and a capture
      (which can only be the last move) takes an opponent's piece. */
  lemma {:induction false} RayCaptures(data: Slots, player: bool, nx: int, ny: int, dx: int, dy: int)
    requires IsDirection(dx, dy)
    ensures CapturesLastOnly(data, player, Ray(data, player, nx, ny, dx, dy))
    decreases 8 - Progress(nx, ny, dx, dy)
  {
    var r := Ray(data, player, nx, ny, dx, dy);
    if OnBoard(nx, ny) && Clash(data, nx, ny) == -1 {
      RayCaptures(data, player, nx + dx, ny + dy, dx, dy);
      var rest := Ray(data, player, nx + dx, ny + dy, dx, dy);
      assert r == [Move(nx, ny, -1)] + rest;
      forall j | 1 <= j < |r|
        ensures && r[j].killIndex == Clash(data, r[j].x, r[j].y)
                && (j < |r| - 1 ==> r[j].killIndex == -1)
                && (r[j].killIndex != -1 ==> data[r[j].killIndex].value.player != player)
      {
        assert r[j] == rest[j - 1];
      }
    }
  }

  /** A ray stops exactly where the rule says: after a capture, or just
      before the square |r| steps out, which is off the board or holds a
      piece of the rook's own side. Together with RayOnLine and RayCaptures:
      every empty square up to the first occupied one is offered, and no
      square beyond it. */
  lemma {:induction false} RayStops(data: Slots, player: bool, nx: int, ny: int, dx: int, dy: int)
    requires IsDirection(dx, dy)
    ensures var n := |Ray(data, player, nx, ny, dx, dy)|;
            Blocked(data, player, Ray(data, player, nx, ny, dx, dy), Walk(nx, dx, n), Walk(ny, dy, n))
    decreases 8 - Progress(nx, ny, dx, dy)
  {
    var r := Ray(data, player, nx, ny, dx, dy);
    if OnBoard(nx, ny) && Clash(data, nx, ny) == -1 {
      RayStops(data, player, nx + dx, ny + dy, dx, dy);
      var rest := Ray(data, player, nx + dx, ny + dy, dx, dy);
      assert r == [Move(nx, ny, -1)] + rest;
      assert Walk(nx + dx, dx, |rest|) == Walk(nx, dx, |r|);
      assert Walk(ny + dy, dy, |rest|) == Walk(ny, dy, |r|);
      if |rest| > 0 {
        assert r[|r| - 1] == rest[|rest| - 1];
      }
    }
  }

  /** What the rook rule promises of one of its moves: the target is on the
      board, on the rook's file or rank and not the rook's own square; the
      move captures the piece the occupancy query reports there, and only an
      opponent's. */
  predicate RookMoveOk(data: Slots, p: Piece, m: Move) {
    && OnBoard(m.x, m.y)
    && (m.x == p.x || m.y == p.y)
    && (m.x != p.x || m.y != p.y)
    && m.killIndex == Clash(data, m.x, m.y)
    && (m.killIndex != -1 ==> data[m.killIndex].value.player != p.player)
  }

  lemma RayMovesOk(data: Slots, p: Piece, dx: int, dy: int)
    requires IsDirection(dx, dy)
    ensures forall m :: m in Ray(data, p.player, p.x + dx, p.y + dy, dx, dy) ==> RookMoveOk(data, p, m)
  {
    var (sx, sy) := (p.x + dx, p.y + dy);
    var r := Ray(data, p.player, sx, sy, dx, dy);
    RayOnLine(data, p.player, sx, sy, dx, dy);
    RayCaptures(data, p.player, sx, sy, dx, dy);
    forall j | 0 <= j < |r|
      ensures RookMoveOk(data, p, r[j])
    {
      assert r[j].x == Walk(sx, dx, j) && r[j].y == Walk(sy, dy, j);
    }
  }

  /** Every rook move satisfies RookMoveOk. */
  lemma RookMovesFacts(data: Slots, p: Piece)
    ensures forall m :: m in RookMoves(data, p) ==> RookMoveOk(data, p, m)
  {
    RayMovesOk(data, p, 1, 0);
    RayMovesOk(data, p, -1, 0);
    RayMovesOk(data, p, 0, 1);
    RayMovesOk(data, p, 0, -1);
    assert RookRays(data, p, 1) == Ray(data, p.player, p.x + 1, p.y, 1, 0);
    assert RookRays(data, p, 2) == RookRays(data, p, 1) + Ray(data, p.player, p.x - 1, p.y, -1, 0);
    assert RookRays(data, p, 3) == RookRays(data, p, 2) + Ray(data, p.player, p.x, p.y + 1, 0, 1);
    assert RookMoves(data, p) == RookRays(data, p, 3) + Ray(data, p.player, p.x, p.y - 1, 0, -1);
  }

  // ---------------------------------------------------------------- both

  /** What every generated move satisfies, whatever the kind: it leaves the
      mover's square, it captures exactly the piece the occupancy query
      reports on its target, and it stays on the board when the mover is on
      the board. */
  lemma MovesFacts(data: Slots, p: Piece)
    ensures forall m :: m in Moves(data, p) ==>
              && (m.x != p.x || m.y != p.y)
              && m.killIndex == Clash(data, m.x, m.y)
              && (OnBoard(p.x, p.y) ==> OnBoard(m.x, m.y))
  {
    match p.kind
    case Pawn =>
      PawnMovesOnBoard(data, p);
      PawnForward(data, p);
      PawnDiagonal(data, p, -1);
      PawnDiagonal(data, p, 1);
    case Rook =>
      RookMovesFacts(data, p);
  }
}
