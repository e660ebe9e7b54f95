/**
 * Board values of the chess engine: pieces, move candidates, the piece list
 * with its empty (captured) slots, the linear square index and the
 * occupancy query that the move generators rely on.
 */
module Board {

  datatype Option<T> = None | Some(value: T)

  /** The two kinds of piece the engine knows. */
  datatype Kind = Pawn | Rook

  /** One piece: its kind, its file `x`, its rank `y` and its side
      (`player` is true for the first player, false for the second). */
  datatype Piece = Piece(kind: Kind, x: int, y: int, player: bool)

  /** A move candidate: the target square and the index of the piece it
      captures there, or -1 when the square is empty. */
  datatype Move = Move(x: int, y: int, killIndex: int)

  /** The piece list. A captured piece leaves a `None` slot behind, so the
      indices of the other pieces never shift. */
  type Slots = seq<Option<Piece>>

  predicate OnBoard(x: int, y: int) {
    0 <= x < 8 && 0 <= y < 8
  }

  /** The linear index of square (x, y): on the board it is a bijection onto
      0..63 whose inverse is (r % 8, r / 8). */
  function FindOnBoard(x: int, y: int): (r: int)
    ensures OnBoard(x, y) ==> 0 <= r < 64 && r % 8 == x && r / 8 == y
  {
    x + y * 8
  }

  /** Slot `s` holds a live piece standing on (x, y). */
  predicate At(s: Option<Piece>, x: int, y: int) {
    s.Some? && s.value.x == x && s.value.y == y
  }

  /** The occupancy query: -1, or the index of a live piece standing on
      (x, y). ClashIsLastOccupant says which one. */
  function Clash(data: Slots, x: int, y: int): (k: int)
    ensures -1 <= k < |data|
    ensures k != -1 ==> At(data[k], x, y)
  {
    LastOccupant(data, |data|, x, y)
  }

  /** The occupancy query over the first `n` slots. */
  function LastOccupant(data: Slots, n: nat, x: int, y: int): (k: int)
    requires n <= |data|
    ensures -1 <= k < n
    ensures k != -1 ==> At(data[k], x, y)
  {
    if n == 0 then -1
    else if At(data[n - 1], x, y) then n - 1
    else LastOccupant(data, n - 1, x, y)
  }

  /** Over the first `n` slots, the query answers -1 exactly when no live
      piece among them stands on (x, y), and otherwise the largest index of
      one that does. */
  lemma {:induction false} LastOccupantIsLast(data: Slots, n: nat, x: int, y: int)
    requires n <= |data|
    ensures LastOccupant(data, n, x, y) == -1 <==> forall j :: 0 <= j < n ==> !At(data[j], x, y)
    ensures LastOccupant(data, n, x, y) != -1 ==>
              forall j :: LastOccupant(data, n, x, y) < j < n ==> !At(data[j], x, y)
  {
    if n > 0 && !At(data[n - 1], x, y) {
      LastOccupantIsLast(data, n - 1, x, y);
    }
  }

  /** The occupancy query answers -1 exactly when no live piece stands on
      (x, y); otherwise it answers the LARGEST index of a live piece standing
      there (a later match overwrites an earlier one). */
  lemma ClashIsLastOccupant(data: Slots, x: int, y: int)
    ensures Clash(data, x, y) == -1 <==> forall j :: 0 <= j < |data| ==> !At(data[j], x, y)
    ensures Clash(data, x, y) != -1 ==>
              forall j :: Clash(data, x, y) < j < |data| ==> !At(data[j], x, y)
  {
    LastOccupantIsLast(data, |data|, x, y);
  }

  /** The board invariant: every live piece is on the board and no two live
      pieces share a square. */
  predicate WellFormed(data: Slots) {
    && (forall j :: 0 <= j < |data| && data[j].Some? ==> OnBoard(data[j].value.x, data[j].value.y))
    && (forall j, k :: 0 <= j < k < |data| && data[j].Some? && data[k].Some? ==>
          data[j].value.x != data[k].value.x || data[j].value.y != data[k].value.y)
  }

  /** On a well-formed board the occupancy query finds THE piece on a square:
      whichever live piece stands on (x, y) is the one it reports. */
  lemma ClashFindsOccupant(data: Slots, j: int, x: int, y: int)
    requires WellFormed(data)
    requires 0 <= j < |data| && At(data[j], x, y)
    ensures Clash(data, x, y) == j
  {
    ClashIsLastOccupant(data, x, y);
  }
}
