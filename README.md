# maplestory-reverse in Dafny

A model of the game core of maplestory-reverse, a Reversi variant played on
an 8x8 board that may contain holes. The model has four parts.

- **The array engine** (`src/game.js`, `src/util.js`). This is the `Game`
  class: a 64-square row-major array and the identities of the player to move
  and of the other player. It is modelled as the class `GameEngine.Game`
  over an `array<Cell>`. Every method is proved against a value-level
  specification in module `Rules`. That specification covers:
  - the run scanned in each direction, and the capture rule;
  - the grouping of flipped squares by distance;
  - the move list;
  - the board after a move.
  Module `Directions` is the table of the eight directions.
- **The bitboard engine** (`wasm/src/board.rs`). A board is three `u64`
  masks (`bv64`). The model covers:
  - the eight shift directions and `fill`;
  - `play`, `pass`, `moves`, `frontier`, `corners` and `flipped`;
  - the `Moves` iterator, which yields the set bits highest first.
  Module `Bits` holds the bit-level facts: `leading_zeros`, `count_ones`, the
  iteration order and unions.
- **The search** (`wasm/src/search.rs`, module `Engine`). This is a negamax
  with a leaf heuristic. `negamax` answers with the `leading_zeros` index of
  the chosen move, and `max_by_key` keeps the last of equal keys.
- **The players and the page.**
  - Module `Encoding` gives the meaning of the three masks the engine players
    build from the board, and of the index they decode.
  - Modules `Minimax` and `Iterative` are the two players
    (`src/players/minimax.js`, `src/players/iterative.js`).
  - Module `Controller` is the page's turn policy (`src/index.js`): the hole
    toggle, the move gate, the pass and game-over rules of the `start` loop,
    and the error raised on an invalid move.

Encoder masks are JavaScript BigInts, so they are natural numbers; a mask bit
is read with `NatBit`. Search scores are `i32` in the source. Here they are
integers, proved to stay within `[-INF, INF]` with `INF = i32::MAX`, so the
negations the search applies never overflow.

The worker (`src/players/worker.js`), the timer and all other I/O are
parameters:
- a player of the page is a `Chooser` function;
- the worker's reply is a function `reply` from a request to an optional index;
- the five-second timer of the iterative player is `answered`, the number of
  requests that get their answer before the timer fires. When the timer fires
  first, the request that is awaiting its answer has already been posted.

## Model

| member | source | states |
|---|---|---|
| Cells.IndexRoundTrip | src/game.js:10-11 | a square on the board has row-major index `row * 8 + col` in 0..63, and decoding that index gives the square back |
| Cells.PosOfRoundTrip | src/players/iterative.js:52-55 | decoding an index below 64 as `(floor(pos / 8), pos % 8)` gives a square on the board whose index is `pos` |
| Directions.TableShape | src/util.js:1-10 | the direction table has eight entries, each a unit step to a neighbour |
| Directions.TableOrdered | src/util.js:1-10 | the entries are in row-major order of the 3x3 neighbourhood, so all are distinct |
| Directions.TableComplete | src/util.js:1-10 | every unit step to a neighbour is in the table |
| Directions.TableClosedUnderNegation | src/util.js:1-10 | entry 7-i is the opposite of entry i |
| Rules.WalkStep | src/game.js:71-75 | one step of the `while` loop over an opponent square appends that square, and the remaining distance to the edge falls |
| Rules.WalkFacts | src/game.js:67-75 | the scanned run holds only opponent squares, stops on a square that is not the opponent's, and is no longer than the distance to the edge |
| Rules.WalkShape | src/game.js:67-75 | the k-th scanned square is k steps along the direction, and the scan stops `len` steps along it |
| Rules.CaptureEnd | src/game.js:77 | after the scan, the run is captured exactly when it is non-empty and ends next to a piece of the player |
| Rules.CaptureSquares | src/game.js:66-77 | a captured run is a line of opponent squares starting next to the move |
| Rules.CaptureClosed | src/game.js:77 | a non-empty captured run is closed by a piece of the player just past its end |
| Rules.ScanBound | src/game.js:67-75 | from a square on the board, the scan meets at most 7 squares |
| Rules.MergeNothing | src/game.js:80-85 | before the inner loop runs, the groups are unchanged |
| Rules.MergeStep | src/game.js:80-85 | one pass of the inner loop opens group j when it is missing, then pushes square j of the run onto it |
| Rules.ZipSnoc | src/game.js:66-87 | merging the next direction's run into the groups gives the grouping of all runs so far |
| Rules.ColumnMembers | src/game.js:80-85 | a square is in group k exactly when it is square k of some captured run |
| Rules.ZipGroupSizes | src/game.js:80-85 | no group is empty, and groups never grow with distance |
| Rules.ColumnWitness | src/game.js:80-85 | every square of group k comes from position k of some run |
| Rules.ColumnHas | src/game.js:80-85 | square k of every run long enough lands in group k |
| Rules.ZipMembers | src/game.js:64-89 | the groups hold exactly the squares of the captured runs |
| Rules.ZipTotal | src/game.js:64-89 | the groups hold as many squares as the runs together |
| Rules.FlipsHeldOpponent | src/game.js:64-89 | every square `flipped` returns is on the board and holds an opponent piece |
| Rules.LegalNext | src/game.js:31-36 | scanning square (row, col) appends it to the move list exactly when `valid` accepts it |
| Rules.LegalAppend | src/game.js:33-35 | the `if` of the inner loop: pushing the square when `valid` says so extends the list of the squares before it to the list one square further |
| Rules.LegalUpToFacts | src/game.js:29-39 | after n squares, the list holds exactly the legal squares among the first n, in strictly increasing index order |
| Rules.LegalMovesFacts | src/game.js:29-39 | `moves()` lists exactly the legal squares, each once, in row-major order |
| Rules.RowsAt | src/game.js:19-27 | `board()` is 8 rows of 8, and square (r, c) of it is square `r * 8 + c` of the game |
| Rules.PlacedFacts | src/game.js:41-54 | a legal move changes only the played square, which was empty, and squares that held the opponent; exactly one empty square is filled |
| Rules.PlacedSquare | src/game.js:41-54 | square by square: a square the move changes is the played empty square or held the opponent, and no other square becomes or stops being empty |
| Rules.StartGridFacts | src/game.js:91-100 | `reset()` leaves Slime on (3,4) and (4,3), Bean on (3,3) and (4,4), and 60 empty squares |
| GameEngine.Game.constructor | src/game.js:5-7 | a new game is the starting board with Slime to move |
| GameEngine.Game.Get | src/game.js:9-13 | `get` never fails: it gives the square on the board and `undefined` (None) off it |
| GameEngine.Game.Set | src/game.js:15-17 | `set` changes exactly square `row * 8 + col` |
| GameEngine.Game.Board | src/game.js:19-27 | `board()` returns the 8x8 snapshot `Rows` of the squares |
| GameEngine.Game.Moves | src/game.js:29-39 | the nested loop returns `LegalMoves`: all legal squares, each once, in row-major order |
| GameEngine.Game.MovesRow | src/game.js:32-36 | the inner loop over the columns extends the list of the rows above by the legal squares of one row |
| GameEngine.Game.MovesAt | src/game.js:33-35 | one pass of the inner loop extends the list by square (row, col) exactly when it is legal |
| GameEngine.Game.Move | src/game.js:41-54 | `move(undefined)` changes no square and returns `[]`; a move returns `flipped(move)` and places the player on the move and every flipped square; either way the players swap |
| GameEngine.Game.Claim | src/game.js:46-50 | the inner loop of `move` gives every square of one group to the player and leaves the others alone |
| GameEngine.Game.Valid | src/game.js:56-62 | `valid` is true exactly for a defined move on an empty square that flips something |
| GameEngine.Game.Flipped | src/game.js:64-89 | `flipped` returns the captured runs of the eight directions, grouped by distance |
| GameEngine.Game.FlippedAt | src/game.js:67-86 | one direction of the loop: the groups after it are the grouping of the captured runs of the directions so far, this one included |
| GameEngine.Game.Scan | src/game.js:67-75 | the `while` loop collects the opponent run and stops on the first square that is not the opponent's |
| GameEngine.Game.Push | src/game.js:80-85 | the inner `for` loop merges one run into the groups |
| GameEngine.Game.Reset | src/game.js:91-100 | `reset` builds a fresh starting board with Slime to move against Bean |
| Bits.LeadingZerosBelow | wasm/src/board.rs:84 | a non-zero word has fewer than 64 leading zeros |
| Bits.LeadingZerosHigh | wasm/src/board.rs:84 | `1 << (63 - leading_zeros)` is the highest set bit |
| Bits.CountBound | wasm/src/search.rs:42-44 | `count_ones` lies between 0 and 64 |
| Bits.OrderEmpty | wasm/src/board.rs:80-82 | the iterator yields nothing exactly when the mask is 0 |
| Bits.OrderSound | wasm/src/board.rs:80-88 | every value the iterator yields is a single set bit of the mask |
| Bits.OrderComplete | wasm/src/board.rs:80-88 | every set bit of the mask is yielded |
| Bits.OrderDescending | wasm/src/board.rs:84-85 | a later value lies below every earlier one: highest bit first |
| Bits.OrderDecreasing | wasm/src/board.rs:84-85 | the values come out strictly decreasing, none twice |
| Bits.OrderLength | wasm/src/board.rs:80-88 | the iterator yields exactly `count_ones` values |
| Bits.OrderLeadingZeros | wasm/src/search.rs:39 | a move yielded earlier has fewer leading zeros, so it is an earlier square |
| Bits.LeadingZerosOrder | wasm/src/search.rs:39 | of two single bits, the higher one has fewer leading zeros |
| Bits.UnionWithin | wasm/src/board.rs:34 | the `BitOr` fold of masks that lie inside `x` lies inside `x` |
| Bits.UnionBitSome | wasm/src/board.rs:43 | a bit of the fold is set in one of the folded masks |
| Bits.UnionBitOne | wasm/src/board.rs:43 | a bit set in one folded mask is set in the fold |
| Bitboard.Rotate | wasm/src/board.rs:104-106 | the rotation `(x << n) \| (x >> (64 - n))` the shift applies; `Bitboard.RotateAgrees` says it is `rotate_left` |
| Bitboard.Shift | wasm/src/board.rs:104-106 | `shift` is rotate, then the direction's mask; what it does square by square is stated by the eight rows `Bitboard.ShiftLeft` .. `Bitboard.ShiftDownRight` below |
| Bitboard.RotateAgrees | wasm/src/board.rs:104-106 | the shift-based rotation equals `rotate_left` for each amount in FILL |
| Bitboard.ShiftLeft | wasm/src/board.rs:94 | shifting left moves each piece one column left and drops what leaves the board |
| Bitboard.ShiftUpRight | wasm/src/board.rs:95 | the up-right shift takes each square from its down-left neighbour, nothing across an edge |
| Bitboard.ShiftUp | wasm/src/board.rs:96 | the up shift takes each square from the one below, nothing in the bottom row |
| Bitboard.ShiftUpLeft | wasm/src/board.rs:97 | the up-left shift takes each square from its down-right neighbour, nothing across an edge |
| Bitboard.ShiftRight | wasm/src/board.rs:98 | the right shift takes each square from its left neighbour, nothing in column 0 |
| Bitboard.ShiftDownLeft | wasm/src/board.rs:99 | the down-left shift takes each square from its up-right neighbour, nothing across an edge |
| Bitboard.ShiftDown | wasm/src/board.rs:100 | the down shift takes each square from the one above, nothing in the top row |
| Bitboard.ShiftDownRight | wasm/src/board.rs:101 | the down-right shift takes each square from its up-left neighbour, nothing across an edge |
| Bitboard.SpreadWithin | wasm/src/board.rs:108-116 | every step of `fill` only adds squares of `mask` |
| Bitboard.Filled | wasm/src/board.rs:108-117 | the result of `fill` lies inside `mask` |
| Bitboard.Fill | wasm/src/board.rs:108-117 | the seven statements of `fill` (the first before the loop, the six repeated ones as its passes) compute `Filled`, which lies inside `mask` |
| Bitboard.Pass | wasm/src/board.rs:21-27 | `pass` swaps the sides and keeps the holes |
| Bitboard.PassTwice | wasm/src/board.rs:21-27 | passing twice gives the board back |
| Bitboard.PassDisjoint | wasm/src/board.rs:21-27 | passing keeps the three masks apart |
| Bitboard.Captured | wasm/src/board.rs:63-69 | the run kept in one direction is made of opponent pieces |
| Bitboard.Flipped | wasm/src/board.rs:61-72 | `flipped` only takes opponent pieces |
| Bitboard.ApplyMoved | wasm/src/board.rs:14-18 | the masks after `play` are: the side to move loses the flipped pieces; the mover gains them and `m`; the holes stay; the pieces on the board are the old ones and `m` |
| Bitboard.Play | wasm/src/board.rs:11-19 | `play`: the sides swap, the new side to move is the old opponent minus the flipped pieces, the other side gains the flipped pieces and `m`, the holes stay; its properties are `Bitboard.PlayReady`, `Bitboard.PlayDisjoint` and `Bitboard.PlayMoved` |
| Bitboard.PlayReady | wasm/src/board.rs:11-12 | an empty square meets the preconditions of `play`'s mask arithmetic |
| Bitboard.PlayDisjoint | wasm/src/board.rs:11-19 | playing an empty square keeps the three masks pairwise apart |
| Bitboard.PlayMoved | wasm/src/board.rs:11-19 | playing an empty square does to the masks what `ApplyMoved` says |
| Bitboard.Moves | wasm/src/board.rs:29-36 | `moves` lists only squares without a piece or a hole |
| Bitboard.Frontier | wasm/src/board.rs:38-45 | the frontier lies inside the player's pieces |
| Bitboard.NeighboursBit | wasm/src/board.rs:41-43 | a bit of the folded shifted empty squares is set exactly when the square has an empty neighbour on the board |
| Bitboard.FrontierExactly | wasm/src/board.rs:38-45 | the frontier is exactly the player pieces that have an empty neighbour on the board |
| Bitboard.StepOrder | wasm/src/board.rs:80-88 | one `next` yields the head of the iteration order and leaves a mask with its tail |
| Bitboard.Pick | wasm/src/board.rs:84 | `1 << (63 - leading_zeros)` is the highest set bit |
| Bitboard.MoveIter.Next | wasm/src/board.rs:80-88 | `next` gives `None` on an empty mask, else the highest remaining bit, which it clears |
| Bitboard.Corners | wasm/src/board.rs:47-59 | `corners` is `CornersOf` the squares that are not holes; what it contains is stated by `Bitboard.CornersNoHoles`, `Bitboard.CornersExactly` and `Bitboard.CornersSquare` |
| Bitboard.CornersOf | wasm/src/board.rs:50-58 | the union of the squares of `Moves(open)` that pass the corner test; `Bitboard.CornersOnly` and `Bitboard.CornersAll` state which squares it holds |
| Bitboard.CornersOnly | wasm/src/board.rs:50-58 | a single square in `CornersOf(open)` passes the corner test |
| Bitboard.CornersAll | wasm/src/board.rs:50-58 | every single square of `open` that passes the corner test is in `CornersOf(open)` |
| Bitboard.Cornering | wasm/src/board.rs:50-57 | the filter keeps exactly the squares that pass the corner test |
| Bitboard.CornersNoHoles | wasm/src/board.rs:47-59 | no hole is a corner |
| Bitboard.CornersExactly | wasm/src/board.rs:47-59 | a square that is not a hole is a corner exactly when it passes the filter's test: on each of the four axes, the shift one way or the other meets no square of `!holes` |
| Bitboard.CorneredAxes | wasm/src/board.rs:52-56 | the test over `i` in `0..4` with `FILL[i]` and `FILL[i + 4]` is the test on the four axes left/right, up-right/down-left, up/down and up-left/down-right |
| Bitboard.AxisLeftRight | wasm/src/board.rs:93-106 | for a single square k, the left/right test holds exactly when square k + 1 is off the board (column 0) or not open, or square k - 1 is off the board (column 7) or not open |
| Bitboard.AxisUpRightDownLeft | wasm/src/board.rs:93-106 | for a single square k, the up-right/down-left test holds exactly when square k + 7 (off the board in row 0 or column 7) or square k - 7 (off the board in row 7 or column 0) is off the board or not open |
| Bitboard.AxisUpDown | wasm/src/board.rs:93-106 | for a single square k, the up/down test holds exactly when square k + 8 (off the board in row 0) or square k - 8 (off the board in row 7) is off the board or not open |
| Bitboard.AxisUpLeftDownRight | wasm/src/board.rs:93-106 | for a single square k, the up-left/down-right test holds exactly when square k + 9 (off the board in row 0 or column 0) or square k - 9 (off the board in row 7 or column 7) is off the board or not open |
| Bitboard.CorneredAt | wasm/src/board.rs:52-56 | on a single square k, the shift test is the neighbour test `CornerAt`: on each axis one of the two neighbours is off the board or not open |
| Bitboard.CornersSquare | wasm/src/board.rs:47-59 | square k is a corner exactly when it is not a hole and, on each of the four axes, one of its two neighbours is off the board or a hole |
| Engine.BitCount | wasm/src/search.rs:42-44 | `bits` is between 0 and 64 |
| Engine.Evaluate | wasm/src/search.rs:21-29 | the leaf score `16*corners + 4*mobility + frontier` lies within ±1344, far inside `i32` |
| Engine.Search | wasm/src/search.rs:8-35 | every value of `search` lies within [-INF, INF], so negating it never overflows |
| Engine.Score | wasm/src/search.rs:32 | a move's score `-search(play(m), depth)` lies within [-INF, INF] |
| Engine.Best | wasm/src/search.rs:31-33 | `.max()` over the move scores lies within [-INF, INF] |
| Engine.LastMax | wasm/src/search.rs:38 | `max_by_key` points at a position of the sequence |
| Engine.BestAbove | wasm/src/search.rs:31-33 | no move scores above the maximum |
| Engine.BestReached | wasm/src/search.rs:31-33 | some move scores exactly the maximum |
| Engine.LastMaxAbove | wasm/src/search.rs:38 | no key is above the one `max_by_key` keeps |
| Engine.LastMaxLast | wasm/src/search.rs:38 | every key after the kept one is strictly lower |
| Engine.LastMaxLatest | wasm/src/search.rs:38 | among equal keys, the kept one is the last |
| Engine.LastMaxLowest | wasm/src/search.rs:37-38 | over the iteration order of a mask, the kept move is no higher than any other move with the same key |
| Engine.SearchFinished | wasm/src/search.rs:13-19 | when neither side has a move, both counts are 0 and `search` returns 0 |
| Engine.SearchLeaf | wasm/src/search.rs:21-29 | at depth 0, with a move for either side, `search` is the heuristic |
| Engine.SearchBest | wasm/src/search.rs:31-34 | with depth left and a move, `search` is the best score over `Moves` |
| Engine.SearchAboveAt | wasm/src/search.rs:31-34 | the move at each position of the iteration order scores at most the position's value |
| Engine.SearchAbove | wasm/src/search.rs:31-34 | no legal move scores above the value of the position |
| Engine.SearchReachedAt | wasm/src/search.rs:31-34 | some move of the iteration order scores exactly the value |
| Engine.SearchReached | wasm/src/search.rs:31-34 | the value is the score of some legal move |
| Engine.SearchPass | wasm/src/search.rs:31-34 | with no move of its own, the side passes and the other side then really moves: the search never passes twice in a row |
| Engine.Choice | wasm/src/search.rs:37-38 | the move `max_by_key` keeps over `Moves` in iteration order; its properties are `Engine.ChoiceLegal`, `Engine.ChoiceBest`, `Engine.ChoiceAt` and `Engine.ChoiceLastTie` |
| Engine.Negamax | wasm/src/search.rs:37-39 | `negamax` is `None` with no move, else the leading zeros of `Choice`; its properties are `Engine.NegamaxNone`, `Engine.NegamaxLegal`, `Engine.NegamaxChoice` and `Engine.NegamaxLastTie` |
| Engine.NegamaxNone | wasm/src/search.rs:37-39 | `negamax` has no answer exactly when the side to move has no move |
| Engine.ChoiceLegal | wasm/src/search.rs:37-38 | the chosen move is a single bit of the move mask |
| Engine.NegamaxLegal | wasm/src/search.rs:37-39 | the answer `i` is below 64, and bit `63 - i` (square `i` in row-major order) is a legal move |
| Engine.ChoiceBest | wasm/src/search.rs:37-38 | no legal move scores above the chosen one |
| Engine.ScoresAt | wasm/src/search.rs:38 | the key of the move at position j is its score |
| Engine.ChoiceAt | wasm/src/search.rs:37-38 | the chosen move sits where `max_by_key` points in the iteration order |
| Engine.TieAt | wasm/src/search.rs:37-38 | a move scoring the same as the chosen one has the kept key |
| Engine.ChoiceLastTie | wasm/src/search.rs:37-39 | among equally scored best moves, the chosen one has the most leading zeros |
| Engine.NegamaxChoice | wasm/src/search.rs:37-39 | `negamax` answers with the leading zeros of the chosen move |
| Engine.NegamaxLastTie | wasm/src/search.rs:37-39 | ties go to the square latest in row-major order: the answer is at least the index of any move with the same score |
| Encoding.Push | src/players/minimax.js:13-29 | one square of the scan: the three masks double and the mask of the square's class, tried in switch order, gains bit 0; `Encoding.EncodeNext` and `Encoding.EncodeBit` carry its properties |
| Encoding.Encode | src/players/iterative.js:13-34 | the masks after scanning the squares in order; its meaning is stated by `Encoding.EncodeFits`, `Encoding.EncodeBit`, `Encoding.EncodeDisjoint` and `Encoding.BoardBit` |
| Encoding.EncodeFits | src/players/iterative.js:13-34 | after n squares every mask is below 2^n, so 64 squares fit a `u64` |
| Encoding.EncodeBit | src/players/iterative.js:15-32 | square i of the scan lands at bit `n - 1 - i`: in `holes` for a HOLE, in `player` for `id`, in `opponent` for any other non-EMPTY square |
| Encoding.EncodeDisjoint | src/players/iterative.js:19-32 | no bit is in two masks, and a square sets no bit exactly when it is EMPTY |
| Encoding.EncodeNoPiece | src/players/iterative.js:26-28 | with an `id` that is no piece, the player mask stays 0 |
| Encoding.EncodeNext | src/players/iterative.js:15-32 | one square more shifts the masks and sets the bit of its class |
| Encoding.EmptyCountNext | src/players/iterative.js:20-21 | one square more adds 1 to `empty` exactly when it is EMPTY |
| Encoding.EmptyCountBound | src/players/iterative.js:20-21 | `empty` never exceeds the number of squares scanned |
| Encoding.EmptyCountZero | src/players/iterative.js:20-21 | `empty` is 0 exactly when no square is EMPTY |
| Encoding.BoardBit | src/players/minimax.js:11-31 | square (r, c) of the board lands at bit `63 - (r*8 + c)` of the mask of its class |
| Encoding.FlatRows | src/game.js:19-27 | scanning the rows `board()` hands out gives back the game's 64 squares |
| Encoding.AnswerLegal | src/players/iterative.js:52-55 | the engine's answer decodes to a square on the board whose bit, where the scan put it, is a legal move |
| Encoding.Answer | src/players/minimax.js:43-46 | the reply `{ row: pos / 8, col: pos % 8 }`, `None` for an undefined `pos`; `Encoding.AnswerLegal` states that a real answer is a legal square |
| Minimax.Scan | src/players/minimax.js:11-31 | the nested loop builds `Encode` of the board in row-major order |
| Minimax.ScanRow | src/players/minimax.js:12-30 | the inner loop extends the masks by the eight squares of a row |
| Minimax.Shift | src/players/minimax.js:13-29 | one square shifts the three masks and sets the low bit of its class, in switch order |
| Minimax.Move | src/players/minimax.js:6-46 | exactly one request is sent, with the encoded board and depth 5, and the reply is decoded |
| Iterative.Scan | src/players/iterative.js:13-34 | the nested loop builds `Encode` of the board and counts its EMPTY squares |
| Iterative.ScanRow | src/players/iterative.js:14-33 | the inner loop extends the masks and the counter by the eight squares of a row |
| Iterative.Shift | src/players/iterative.js:15-32 | one square shifts the masks, sets the bit of its class, and counts it when EMPTY |
| Iterative.Deepening | src/players/iterative.js:40-45 | the requests for depths 0 .. n-1, in order, all carrying the same masks |
| Iterative.Search | src/players/iterative.js:39-49 | requests go out at depths 0, 1, ... with the same masks: all `empty` of them when the timer does not win, else `answered + 1`, the last one unanswered; `pos` is the answer to request `min(empty, answered) - 1`, or undefined when none came |
| Iterative.Move | src/players/iterative.js:7-55 | scan, deepen, then decode the latest answer: the requests are those of `Iterative.Search` over `Encode` of the board and its EMPTY count; no answer gives an undefined move |
| Controller.Toggle | src/index.js:107-118 | a click before the start swaps EMPTY and HOLE on its square and changes nothing off the board; `Controller.ToggleTwice` and `Controller.ToggleSquares` carry its properties |
| Controller.Step | src/index.js:31-67 | one pass of the loop as a value: over, a pass, a played move or an invalid one; `Controller.OverFacts`, `Controller.InvalidFacts`, `Controller.PassFacts` and `Controller.PlayingFacts` carry its properties |
| Controller.Session.constructor | src/index.js:7-18 | on page load the game is at its start and holes are editable |
| Controller.Session.Reset | src/index.js:93-103 | `reset()` clears `started` and resets the game |
| Controller.Session.Input | src/index.js:105-125 | before the start a click toggles EMPTY/HOLE and is passed on; after the start the board is left alone and the click is passed on exactly when the move is valid |
| Controller.Session.Play | src/index.js:31-67 | one pass of the loop is `Step`: pass when the player to move has no move, game over when the other has none either, otherwise play the answer if it is valid or stop with an error |
| Controller.Session.Start | src/index.js:22-91 | a second click changes nothing: no ending, the same squares and players. Otherwise the loop terminates, and the ghost `turns` it returns is the run it played: each turn is `Step` of the one before, and every turn but the last is a played move. The game either ends when neither side can move, and the ending board and players are those of the last turn before the page resets to Slime against Bean; or it stops on an invalid move, which is the last turn, and the game is left where it stopped |
| Controller.ChainSnoc | src/index.js:31-67 | one more pass of the loop, from the position the run reached, extends the run |
| Controller.ToggleTwice | src/index.js:107-118 | toggling the same square twice restores the board |
| Controller.ToggleSquares | src/index.js:107-118 | a toggle swaps EMPTY and HOLE on its square, never changes a piece, and leaves other squares alone |
| Controller.OverFacts | src/index.js:34-46 | the game is over exactly when neither player has a move, and the board is then unchanged |
| Controller.InvalidFacts | src/index.js:62-67 | an invalid answer leaves the board unchanged and fails `valid` there; the player who answered is still to move, and that is the original player whenever it had a legal move |
| Controller.PassFacts | src/index.js:35-46 | when the player to move has no move, the other player is the one asked, about its own legal moves |
| Controller.PlayingFacts | src/index.js:62-67 | a played turn hands the move over and fills exactly one empty square |

## Left out

- The worker, `postMessage`, `Promise.any` and the five-second `sleep` are not modelled as concurrency. The worker's reply is the parameter `reply`, and the timer is the number `answered` of requests answered before it fires.
- `src/players/worker.js` ignores the requested depth and always searches at depth 5. The model's requests carry the depth, and what `reply` answers is left open.
- The caller in `src/index.js:57-61` passes no `id` to the players. The encoders take `id` as a parameter, as written. `Encoding.EncodeNoPiece` states what an `id` that is no piece gives: a player mask of 0.
- `wasm/src/lib.rs` converts the BigInt masks to `u64`. The model does not convert; `Encoding.EncodeFits` shows that 64 squares fit in 64 bits.
- Engine.Search: scores are unbounded integers, not `i32`. The bounds in the contracts show that no `i32` overflow can happen, so the two agree.
- Engine.Negamax: the depth is a `nat`, not a `u8`.
- GameEngine.Game.Set: writes off the board are not modelled. For such a square `set` writes index `row * 8 + col`, which is another square or lies outside the 64. Every caller passes a square on the board.
- GameEngine.Game.Move: a move off the board is not modelled, for the same reason. Every move reaching it has passed `valid`.
- Bitboard.Rotate covers only the rotation amounts 1..63 that FILL uses.
- That the bitboard and array engines agree on moves and flips is not proved. Nor is it proved that `fill` reaches a whole run.
- `src/constants.js` is not part of this model. The cell values are the datatype `Cell`.
- Bitboard.MoveIter: the laziness of the Rust iterator is not modelled. `Order` is the whole sequence it yields.
- A decoded `undefined` answer gives `{ row: NaN, col: NaN }` in the source. It is the move `None` here, which `valid` rejects just the same.
- Controller.Session.Start: a player is a function of the identity to move, the legal moves and the board. The `events` target and human input are not modelled.
- Drawing, guide tiles, animation, `sleep` and the dropdowns (`src/ui.js` and the DOM parts of `src/index.js`) are left out.
