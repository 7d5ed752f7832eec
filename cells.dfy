/** Values shared by every part of the game: what a square holds, a board
    coordinate, and an optional value (JavaScript's `undefined`). */
module Cells {

  /** What a square can hold. The four constants live in constants.js, which
      is not part of this model: all that matters is that they are distinct. */
  datatype Cell = Empty | Hole | Slime | Bean

  /** A square occupied by one of the two players. */
  predicate IsPiece(c: Cell) {
    c == Slime || c == Bean
  }

  /** A value that may be absent, as `undefined` is in the JavaScript code. */
  datatype Option<T> = None | Some(value: T)

  /** A board coordinate `{ row, col }`; either may lie outside the board. */
  datatype Pos = Pos(row: int, col: int)

  predicate OnBoard(row: int, col: int) {
    0 <= row < 8 && 0 <= col < 8
  }

  /** The row-major index of a square, `row * 8 + col`. */
  function Index(row: int, col: int): int {
    row * 8 + col
  }

  /** The square with row-major index `i`, as the players decode a cell index. */
  function PosOf(i: nat): Pos {
    Pos(i / 8, i % 8)
  }

  /** Index and PosOf are inverse to each other on the 64 squares. */
  lemma IndexRoundTrip(row: int, col: int)
    requires OnBoard(row, col)
    ensures 0 <= Index(row, col) < 64
    ensures PosOf(Index(row, col)) == Pos(row, col)
  {
  }

  lemma PosOfRoundTrip(i: nat)
    requires i < 64
    ensures OnBoard(PosOf(i).row, PosOf(i).col)
    ensures Index(PosOf(i).row, PosOf(i).col) == i
  {
  }
}
