# Move generation and board state of a small chess engine

This project models, in Dafny, the core of a small two-player chess engine
(`chess.py`): the list of pieces it keeps, the occupancy scan that finds
the piece standing on a square, the move generators of its two piece kinds
(pawn and rook), the fixed opening layout, and the move transaction that
checks a requested target against the generated moves and then commits
the capture and the move.

- `board.dfy` (module `Board`): pieces (`Kind`, `Piece`), move candidates
  (`Move` with its `killIndex`, -1 for "no capture"), the piece list `Slots`
  in which a captured piece leaves a `None` slot, the linear square index,
  the occupancy query `Clash` and the board invariant `WellFormed` (every live
  piece on the 8×8 board, no two live pieces on one square).
- `rules.dfy` (module `Rules`): the pawn and rook rules as functions of the
  piece list (`PawnMoves`, `Ray`, `RookMoves`, `Moves`) and the lemmas that
  say what squares they offer and what they capture.
- `engine.dfy` (module `Engine`): the engine's loops, each proved equal to
  the function that specifies it. The occupancy scan and the move
  generators only read the piece list, so they are methods that take it as
  a parameter (`CheckForClash`, `PawnAvalMoves`, `WalkRay`, `RookAvalMoves`,
  `AvalMoves`). The class `Game` holds the mutable piece list in its field
  `data`; its methods are the setup and the move transaction, whose search
  for the requested target is a loop too. The functions `FindTarget` and
  `Commit` and the lemmas about the transaction and the opening layout are
  in the same module.
- `scenarios.dfy` (module `Scenarios`): three small boards worked out
  square by square.

The pawn's diagonal capture is offered onto any occupied square, including
one held by the pawn's own side (chess.py:71-76). The model keeps this, and
`Scenarios.PawnCapturesOwnSide` exhibits it. The left-capture guard is
`x > 0` and the right one `x < 7`, as written.

A piece in the source is an object whose `x` and `y` the transaction
updates in place. Each piece object sits in exactly one slot of the list,
so the model keeps pieces as values and replaces that slot.
`CommitLegalMove` proves that the captured slot is never the mover's own
slot. Python integers are unbounded, like Dafny's `int`, so no width is
modelled.

## Model

| member | source | states |
|---|---|---|
| `Board.FindOnBoard` | chess.py:20-21 | for a square on the board the index lies in 0..63 and gives back the square as (index % 8, index / 8), so distinct squares get distinct indices |
| `Board.Clash` | chess.py:23-28 | the occupancy query answers -1 or the index of a live (non-`None`) piece standing on the square |
| `Board.LastOccupant` | chess.py:23-28 | the query over the first n slots answers -1 or the index, below n, of a live piece standing on the square |
| `Board.LastOccupantIsLast` | chess.py:23-28 | over the first n slots the query answers -1 exactly when none of them holds a live piece on the square, and otherwise no later one among them does |
| `Board.ClashIsLastOccupant` | chess.py:23-28 | the query answers -1 exactly when no live piece stands on the square, otherwise the largest such index (later matches overwrite earlier ones) |
| `Board.ClashFindsOccupant` | chess.py:23-28 | on a well-formed board the query reports whichever live piece stands on the square |
| `Engine.CheckForClash` | chess.py:23-28 | the scan over every slot returns exactly what the occupancy query specifies |
| `Rules.PawnMovesOnBoard` | chess.py:62-76 | every pawn move targets the next rank (y - 1 for the first player, y + 1 for the second), which is on the board, on a file at most one away; a pawn on the board only targets squares on the board; a pawn whose next rank is off the board has no move |
| `Rules.PawnForward` | chess.py:67-68 | the straight step, with no capture, is offered if and only if the next rank is on the board and the square ahead is empty; every move on the pawn's own file is that step |
| `Rules.PawnDiagonal` | chess.py:70-76 | a diagonal move to file x - 1 (x + 1) is offered if and only if x > 0 (x < 7), the next rank is on the board and the square is occupied by either side; its capture index is what the occupancy query reports there |
| `Engine.PawnAvalMoves` | chess.py:60-78 | the pawn's move list, built by appends and occupancy scans, equals the pawn rule `PawnMoves` |
| `Rules.RayOnLine` | chess.py:89-94 | the j-th move of a rook walk lies j steps from its first square along the direction, on the board |
| `Rules.RayCaptures` | chess.py:95-101 | every move of a walk but the last is onto an empty square with no capture; each move captures what the occupancy query reports on its square; a capture takes only an opponent's piece |
| `Rules.RayStops` | chess.py:91-103 | a walk ends after a capture, or just before the first square that is off the board or holds the rook's own side; no square beyond the first occupied one is offered |
| `Rules.RayMovesOk` | chess.py:89-103 | every move of the walk in one direction is on the board, on the rook's file or rank, off its own square, and captures only an opponent's piece |
| `Rules.RookMovesFacts` | chess.py:85-104 | across all four directions: every rook move is on the board, shares the rook's file or rank, is not the rook's own square, captures exactly the piece the occupancy query reports there, and only an opponent's |
| `Engine.WalkRay` | chess.py:90-103 | the inner walk in one direction, stepping until the edge, an own piece (nothing offered) or an opponent's piece (its capture offered), produces exactly the ray rule `Ray` |
| `Engine.RookAvalMoves` | chess.py:85-104 | the nested walk over the four directions (right, left, up, down) produces exactly the rook rule `RookMoves`, in that order |
| `Rules.MovesFacts` | chess.py:60-104 | for either kind, a generated move never targets the mover's own square, its capture index is the occupancy query on its target, and it stays on the board when the mover is on the board |
| `Engine.AvalMoves` | chess.py:124 | the move list of a piece is the rule of its kind |
| `Engine.FindTarget` | chess.py:127-130 | the search answers the index of the FIRST move whose target is the requested square, or -1 exactly when no move targets it |
| `Engine.Commit` | chess.py:132-139 | committing a move empties the captured slot (if any) and moves the piece to the target; every other slot is unchanged and the list keeps its length |
| `Engine.CommitLegalMove` | chess.py:132-139 | a generated move can always be committed (its capture slot exists and is not the mover's); on a well-formed board the result is well formed, the mover is the one piece on the target and its old square is empty |
| `Engine.Game.PerformMove` | chess.py:122-142 | succeeds exactly when some generated move targets the requested square; on rejection the piece list is unchanged; on success it equals the commit of the first matching move (capture first, then the move); the board invariant is preserved |
| `Engine.InitialLayout` | chess.py:107-119 | the opening layout has 20 live pieces: first-player pawns at (i, 6) in slots 0-7, second-player pawns at (i, 1) in slots 8-15, rooks at (0,7), (7,7) for the first player and (0,0), (7,0) for the second |
| `Engine.InitialWellFormed` | chess.py:107-119 | the opening layout satisfies the board invariant |
| `Engine.Game.InitializeGame` | chess.py:107-119 | the setup appends exactly the opening layout to the piece list |
| `Engine.Game.constructor` | chess.py:4 | a new game starts with an empty piece list |
| `Scenarios.RookStopsAtFirstPiece` | chess.py:85-104 | a first-player rook on (0,7) above a second-player pawn on (0,5) may step to (0,6) and capture on (0,5), and is offered nothing further down its file |
| `Scenarios.PawnStepAndCapture` | chess.py:60-78 | a first-player pawn on (3,6) with an opponent on (2,5) and (3,5), (4,5) empty is offered exactly the step to (3,5) and the capture on (2,5) |
| `Scenarios.PawnCapturesOwnSide` | chess.py:70-76 | a pawn is offered the capture of a piece of its own side on its forward diagonal |

## Left out

- Rendering: `printboard`, the `render` methods and the display buffer `b` (chess.py:8-17, 49-50, 57-58, 82-83) only draw characters and print.
- `Move.display` (chess.py:37-40) only formats a message for the console.
- The interactive loop (chess.py:145-178): reading and parsing input, the `ValueError` handling, the selection check and `time.sleep`. It is I/O and timing. Its selection check (chess.py:156) is why `Engine.Game.PerformMove` requires an index of a live slot.
- The `print` calls inside `perform_move` (chess.py:134, 141). Only the return value and the change of the piece list are modelled.
- `Piece.aval_moves` and `Piece.render` of the base class (chess.py:49-53): the engine creates only pawns and rooks, so the kind-dispatch in `Moves` covers every piece.
- Python's negative list indices: `perform_move` is only called with an index the loop has validated, so the model requires 0 <= index < length.
- Check, checkmate, turn order, castling, en passant, promotion and a reverse square index: the source has none of them.
