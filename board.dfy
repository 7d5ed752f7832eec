/** The bitboard engine of the WebAssembly search (wasm/src/board.rs): a board
    is three 64-bit masks, and every rule of the game is a handful of shifts,
    ands and ors over them. Square (row, col) is bit 63 - (8 * row + col), so
    bit k is in row 7 - k / 8 and column 7 - k % 8: `k & 7 == 0` is column 7,
    `k & 7 == 7` is column 0, `k < 8` is row 7 and `k >= 56` is row 0. */
module Bitboard {
  import opened Bits
  import opened Cells

  /** The pieces of the side to move, of the other side, and the holes. */
  datatype Board = Board(player: bv64, opponent: bv64, holes: bv64)

  /** The masks of a well-formed board do not overlap. */
  predicate Disjoint(b: Board) {
    Apart(b.player, b.opponent, b.holes)
  }

  /** Three masks with no square in common. */
  predicate Apart(p: bv64, o: bv64, h: bv64) {
    p & o == 0 && p & h == 0 && o & h == 0
  }

  /** The squares that hold neither a piece nor a hole. */
  function Empty(b: Board): bv64 {
    !(b.player | b.opponent | b.holes)
  }

  /** The squares holding a piece of either side. */
  function Pieces(b: Board): bv64 {
    b.player | b.opponent
  }

  // ---------------------------------------------------------------------
  // Directions and shift
  // ---------------------------------------------------------------------

  /** A rotation amount strictly between 0 and 64: all the amounts FILL uses. */
  type Amount = n: bv64 | 0 < n < 64 witness 1

  /** A direction: how far to rotate the mask left, and which squares a
      rotated bit may land on (the others are bits that wrapped round an
      edge of the board). */
  datatype Direction = Direction(amount: Amount, mask: bv64)

  const Left := Direction(1, 0xfefe_fefe_fefe_fefe)
  const UpRight := Direction(7, 0x7f7f_7f7f_7f7f_7f00)
  const Up := Direction(8, 0xffff_ffff_ffff_ff00)
  const UpLeft := Direction(9, 0xfefe_fefe_fefe_fe00)
  const Right := Direction(64 - 1, 0x7f7f_7f7f_7f7f_7f7f)
  const DownLeft := Direction(64 - 7, 0x00fe_fefe_fefe_fefe)
  const Down := Direction(64 - 8, 0x00ff_ffff_ffff_ffff)
  const DownRight := Direction(64 - 9, 0x007f_7f7f_7f7f_7f7f)

  /** The eight directions, each one's opposite four places further on. */
  const FILL: seq<Direction> := [Left, UpRight, Up, UpLeft, Right, DownLeft, Down, DownRight]

  /** `u64::rotate_left(n)` for 0 < n < 64, written with shifts. */
  function Rotate(x: bv64, n: Amount): bv64 {
    (x << n) | (x >> (64 - n))
  }

  /** Every piece moves one square in direction `d`; pieces that would leave
      the board are dropped (the lemmas below say which, direction by
      direction). */
  function Shift(d: Direction, bits: bv64): bv64 {
    Rotate(bits, d.amount) & d.mask
  }

  /** `Rotate` is Dafny's own rotation for every amount in FILL. */
  lemma RotateAgrees(x: bv64)
    ensures Rotate(x, Left.amount) == x.RotateLeft(1)
    ensures Rotate(x, UpRight.amount) == x.RotateLeft(7)
    ensures Rotate(x, Up.amount) == x.RotateLeft(8)
    ensures Rotate(x, UpLeft.amount) == x.RotateLeft(9)
    ensures Rotate(x, Right.amount) == x.RotateLeft(63)
    ensures Rotate(x, DownLeft.amount) == x.RotateLeft(57)
    ensures Rotate(x, Down.amount) == x.RotateLeft(56)
    ensures Rotate(x, DownRight.amount) == x.RotateLeft(55)
  {}

  // Where each square of a shifted mask comes from: the square one step back,
  // or nothing when that square is off the board.

  /** Left: square k receives the piece from its right-hand neighbour, and
      nothing in column 7. */
  lemma ShiftLeft(x: bv64, k: bv64)
    requires k < 64
    ensures BitAt(Shift(Left, x), k) == if k & 7 == 0 then 0 else BitAt(x, k - 1)
  {}

  /** Up-right: from the square below and to the left; nothing in row 7 or column 0. */
  lemma ShiftUpRight(x: bv64, k: bv64)
    requires k < 64
    ensures BitAt(Shift(UpRight, x), k) == if k < 8 || k & 7 == 7 then 0 else BitAt(x, k - 7)
  {}

  /** Up: from the square below; nothing in row 7. */
  lemma ShiftUp(x: bv64, k: bv64)
    requires k < 64
    ensures BitAt(Shift(Up, x), k) == if k < 8 then 0 else BitAt(x, k - 8)
  {}

  /** Up-left: from the square below and to the right; nothing in row 7 or column 7. */
  lemma ShiftUpLeft(x: bv64, k: bv64)
    requires k < 64
    ensures BitAt(Shift(UpLeft, x), k) == if k < 8 || k & 7 == 0 then 0 else BitAt(x, k - 9)
  {}

  /** Right: from the left-hand neighbour; nothing in column 0. */
  lemma ShiftRight(x: bv64, k: bv64)
    requires k < 64
    ensures BitAt(Shift(Right, x), k) == if k & 7 == 7 then 0 else BitAt(x, k + 1)
  {}

  /** Down-left: from the square above and to the right; nothing in row 0 or column 7. */
  lemma ShiftDownLeft(x: bv64, k: bv64)
    requires k < 64
    ensures BitAt(Shift(DownLeft, x), k) == if k >= 56 || k & 7 == 0 then 0 else BitAt(x, k + 7)
  {}

  /** Down: from the square above; nothing in row 0. */
  lemma ShiftDown(x: bv64, k: bv64)
    requires k < 64
    ensures BitAt(Shift(Down, x), k) == if k >= 56 then 0 else BitAt(x, k + 8)
  {}

  /** Down-right: from the square above and to the left; nothing in row 0 or column 0. */
  lemma ShiftDownRight(x: bv64, k: bv64)
    requires k < 64
    ensures BitAt(Shift(DownRight, x), k) == if k >= 56 || k & 7 == 7 then 0 else BitAt(x, k + 9)
  {}

  // ---------------------------------------------------------------------
  // fill
  // ---------------------------------------------------------------------

  /** The squares of `mask` reached from `seed` after the first step and `n`
      further steps in direction `d`: the value of `bits` in `fill` after its
      first statement and `n` of the following ones. */
  function Spread(d: Direction, seed: bv64, mask: bv64, n: nat): bv64 {
    if n == 0 then Shift(d, seed) & mask
    else Spread(d, seed, mask, n - 1) | (Shift(d, Spread(d, seed, mask, n - 1)) & mask)
  }

  /** Each step only adds squares of `mask`. */
  lemma {:induction false} SpreadWithin(d: Direction, seed: bv64, mask: bv64, n: nat)
    ensures In(Spread(d, seed, mask, n), mask)
  {
    if n > 0 {
      SpreadWithin(d, seed, mask, n - 1);
      OrWithin(Spread(d, seed, mask, n - 1), Shift(d, Spread(d, seed, mask, n - 1)) & mask, mask);
    }
  }

  /** What `fill` returns: the first step and six more, all inside `mask`. */
  function Filled(d: Direction, seed: bv64, mask: bv64): (r: bv64)
    ensures In(r, mask)
  {
    SpreadWithin(d, seed, mask, 6);
    Spread(d, seed, mask, 6)
  }

  /** One more step of `fill`. */
  lemma SpreadStep(d: Direction, seed: bv64, mask: bv64, i: nat, bits: bv64)
    requires bits == Spread(d, seed, mask, i)
    ensures bits | (Shift(d, bits) & mask) == Spread(d, seed, mask, i + 1)
  {}

  /** `fill`: walk from every bit of `bits` through the squares of `mask` in
      direction `d`, seven steps in all. The first statement is the
      assignment before the loop; the loop's six passes stand for the six
      identical `bits |= shift(direction, bits) & mask;` statements that
      follow it. */
  method Fill(d: Direction, bits0: bv64, mask: bv64) returns (bits: bv64)
    ensures bits == Filled(d, bits0, mask)
    ensures In(bits, mask)
  {
    bits := Shift(d, bits0) & mask;
    for i := 0 to 6
      invariant bits == Spread(d, bits0, mask, i)
    {
      SpreadStep(d, bits0, mask, i, bits);
      bits := bits | (Shift(d, bits) & mask);
    }
  }

  // ---------------------------------------------------------------------
  // Board operations
  // ---------------------------------------------------------------------

  /** `pass`: the other side is to move; the holes stay. */
  function Pass(b: Board): (r: Board)
    ensures r.player == b.opponent && r.opponent == b.player && r.holes == b.holes
  {
    Board(b.opponent, b.player, b.holes)
  }

  /** Passing twice gives the board back. */
  lemma PassTwice(b: Board)
    ensures Pass(Pass(b)) == b
  {}

  /** Passing keeps the masks apart. */
  lemma PassDisjoint(b: Board)
    requires Disjoint(b)
    ensures Disjoint(Pass(b))
  {}

  /** The pieces `flipped` takes in direction `d` for a piece put on `m`: the
      run of opponent pieces from `m`, kept only when a piece of the player
      lies just past its end. */
  function Captured(b: Board, m: bv64, d: Direction): (r: bv64)
    ensures In(r, b.opponent)
  {
    var fill := Filled(d, m, b.opponent);
    if Shift(d, fill) & b.player == 0 then 0 else fill
  }

  /** `flipped`: the union of the runs taken in the eight directions of FILL;
      only opponent pieces are ever flipped. */
  function Flipped(b: Board, m: bv64): (r: bv64)
    ensures In(r, b.opponent)
  {
    var runs := seq(|FILL|, i requires 0 <= i < |FILL| => Captured(b, m, FILL[i]));
    UnionWithin(runs, b.opponent);
    Union(runs)
  }

  /** `play`: the flipped pieces and `m` join the mover, who becomes the
      opponent of the side now to move. */
  function Play(b: Board, m: bv64): Board {
    Apply(b.player, b.opponent, b.holes, m, Flipped(b, m))
  }

  /** The board after the mover, holding `p` against `o` with holes `h`,
      has played `m` and flipped the pieces `f`. */
  function Apply(p: bv64, o: bv64, h: bv64, m: bv64, f: bv64): Board {
    Board(o ^ f, p ^ (f | m), h)
  }

  // The mask arithmetic of `play`, one fact per lemma: p, o, h are the
  // player, opponent and holes, pairwise apart; f the flipped pieces,
  // inside o; m the move, on none of p, o, h.

  predicate Before(p: bv64, o: bv64, h: bv64, m: bv64, f: bv64) {
    Apart(p, o, h) && In(f, o) && In(m, !(p | o | h))
  }

  lemma PlayApart(p: bv64, o: bv64, h: bv64, m: bv64, f: bv64)
    requires Before(p, o, h, m, f)
    ensures (o ^ f) & (p ^ (f | m)) == 0
  {}

  lemma PlayHolesLeft(p: bv64, o: bv64, h: bv64, m: bv64, f: bv64)
    requires Before(p, o, h, m, f)
    ensures (o ^ f) & h == 0
  {}

  lemma PlayHolesRight(p: bv64, o: bv64, h: bv64, m: bv64, f: bv64)
    requires Before(p, o, h, m, f)
    ensures (p ^ (f | m)) & h == 0
  {}

  /** The three masks after the move are still pairwise apart ... */
  lemma ApplyApart(p: bv64, o: bv64, h: bv64, m: bv64, f: bv64)
    requires Before(p, o, h, m, f)
    ensures Disjoint(Apply(p, o, h, m, f))
  {
    PlayApart(p, o, h, m, f);
    PlayHolesLeft(p, o, h, m, f);
    PlayHolesRight(p, o, h, m, f);
  }

  /** ... the pieces are the old ones and `m` ... */
  lemma ApplyCovers(p: bv64, o: bv64, h: bv64, m: bv64, f: bv64)
    requires Before(p, o, h, m, f)
    ensures Pieces(Apply(p, o, h, m, f)) == p | o | m
  {}

  /** ... the side to move loses the flipped pieces ... */
  lemma ApplyLoses(p: bv64, o: bv64, h: bv64, m: bv64, f: bv64)
    requires Before(p, o, h, m, f)
    ensures Apply(p, o, h, m, f).player == o & !f
  {}

  /** ... and the mover gains them and `m`. */
  lemma ApplyGains(p: bv64, o: bv64, h: bv64, m: bv64, f: bv64)
    requires Before(p, o, h, m, f)
    ensures Apply(p, o, h, m, f).opponent == p | f | m
  {}

  /** `r` is the board after the mover, holding `p` against `o` with holes
      `h`, has played `m` and flipped `f`: the side to move in `r` holds the
      old opponent pieces less `f`, the other side the old mover pieces with
      `f` and `m`, the holes stay, and the pieces on the board are the old
      ones and `m`. */
  predicate Moved(p: bv64, o: bv64, h: bv64, m: bv64, f: bv64, r: Board) {
    r.player == o & !f && r.opponent == p | f | m && r.holes == h && Pieces(r) == p | o | m
  }

  lemma ApplyMoved(p: bv64, o: bv64, h: bv64, m: bv64, f: bv64)
    requires Before(p, o, h, m, f)
    ensures Moved(p, o, h, m, f, Apply(p, o, h, m, f))
  {
    ApplyLoses(p, o, h, m, f);
    ApplyGains(p, o, h, m, f);
    ApplyCovers(p, o, h, m, f);
  }

  /** Playing an empty square meets `Before` with the pieces `flipped` takes. */
  lemma PlayReady(b: Board, m: bv64)
    requires Disjoint(b) && In(m, Empty(b))
    ensures Before(b.player, b.opponent, b.holes, m, Flipped(b, m))
  {}

  /** Playing an empty square keeps the masks apart ... */
  lemma PlayDisjoint(b: Board, m: bv64)
    requires Disjoint(b) && In(m, Empty(b))
    ensures Disjoint(Play(b, m))
  {
    PlayReady(b, m);
    ApplyApart(b.player, b.opponent, b.holes, m, Flipped(b, m));
  }

  /** ... and does to the masks what a move should: see `Moved`. */
  lemma PlayMoved(b: Board, m: bv64)
    requires Disjoint(b) && In(m, Empty(b))
    ensures Moved(b.player, b.opponent, b.holes, m, Flipped(b, m), Play(b, m))
  {
    PlayReady(b, m);
    ApplyMoved(b.player, b.opponent, b.holes, m, Flipped(b, m));
  }

  /** `moves`: the empty squares just past a run of opponent pieces that
      starts next to a player piece, in any of the eight directions. */
  function Moves(b: Board): (r: bv64)
    ensures r & (b.player | b.opponent | b.holes) == 0
  {
    Union(seq(|FILL|, i requires 0 <= i < |FILL| => Shift(FILL[i], Filled(FILL[i], b.player, b.opponent))))
    & Empty(b)
  }

  /** The masks `frontier` folds: the empty squares moved one step in each
      direction of FILL. */
  function Neighbours(b: Board): seq<bv64> {
    var e := Empty(b);
    [Shift(Left, e), Shift(UpRight, e), Shift(Up, e), Shift(UpLeft, e),
     Shift(Right, e), Shift(DownLeft, e), Shift(Down, e), Shift(DownRight, e)]
  }

  /** `frontier`: the player pieces next to an empty square. */
  function Frontier(b: Board): (r: bv64)
    ensures In(r, b.player)
  {
    Union(Neighbours(b)) & b.player
  }

  /** Square k has a neighbour on the board that is in `e`: the eight
      cases of the shift lemmas above, one per direction. */
  predicate Near(e: bv64, k: bv64)
    requires k < 64
  {
    (k & 7 != 0 && Bit(e, k - 1))
    || (!(k < 8 || k & 7 == 7) && Bit(e, k - 7))
    || (!(k < 8) && Bit(e, k - 8))
    || (!(k < 8 || k & 7 == 0) && Bit(e, k - 9))
    || (k & 7 != 7 && Bit(e, k + 1))
    || (!(k >= 56 || k & 7 == 0) && Bit(e, k + 7))
    || (!(k >= 56) && Bit(e, k + 8))
    || (!(k >= 56 || k & 7 == 7) && Bit(e, k + 9))
  }

  /** The masks `frontier` folds, one by one. */
  lemma NeighboursAt(b: Board)
    ensures |Neighbours(b)| == 8
    ensures Neighbours(b)[0] == Shift(Left, Empty(b))
    ensures Neighbours(b)[1] == Shift(UpRight, Empty(b))
    ensures Neighbours(b)[2] == Shift(Up, Empty(b))
    ensures Neighbours(b)[3] == Shift(UpLeft, Empty(b))
    ensures Neighbours(b)[4] == Shift(Right, Empty(b))
    ensures Neighbours(b)[5] == Shift(DownLeft, Empty(b))
    ensures Neighbours(b)[6] == Shift(Down, Empty(b))
    ensures Neighbours(b)[7] == Shift(DownRight, Empty(b))
  {}

  lemma NearLeft(b: Board, k: bv64)
    requires k < 64
    ensures Bit(Neighbours(b)[0], k) ==> Near(Empty(b), k)
  {
    NeighboursAt(b);
    ShiftLeft(Empty(b), k);
  }

  lemma FromLeft(b: Board, k: bv64)
    requires k < 64
    ensures k & 7 != 0 && Bit(Empty(b), k - 1) ==> Bit(Union(Neighbours(b)), k)
  {
    if k & 7 != 0 && Bit(Empty(b), k - 1) {
      ShiftLeft(Empty(b), k);
      NeighboursAt(b);
      UnionBitOne(Neighbours(b), k, 0);
    }
  }

  lemma NearUpRight(b: Board, k: bv64)
    requires k < 64
    ensures Bit(Neighbours(b)[1], k) ==> Near(Empty(b), k)
  {
    NeighboursAt(b);
    ShiftUpRight(Empty(b), k);
  }

  lemma FromUpRight(b: Board, k: bv64)
    requires k < 64
    ensures !(k < 8 || k & 7 == 7) && Bit(Empty(b), k - 7) ==> Bit(Union(Neighbours(b)), k)
  {
    if !(k < 8 || k & 7 == 7) && Bit(Empty(b), k - 7) {
      ShiftUpRight(Empty(b), k);
      NeighboursAt(b);
      UnionBitOne(Neighbours(b), k, 1);
    }
  }

  lemma NearUp(b: Board, k: bv64)
    requires k < 64
    ensures Bit(Neighbours(b)[2], k) ==> Near(Empty(b), k)
  {
    NeighboursAt(b);
    ShiftUp(Empty(b), k);
  }

  lemma FromUp(b: Board, k: bv64)
    requires k < 64
    ensures !(k < 8) && Bit(Empty(b), k - 8) ==> Bit(Union(Neighbours(b)), k)
  {
    if !(k < 8) && Bit(Empty(b), k - 8) {
      ShiftUp(Empty(b), k);
      NeighboursAt(b);
      UnionBitOne(Neighbours(b), k, 2);
    }
  }

  lemma NearUpLeft(b: Board, k: bv64)
    requires k < 64
    ensures Bit(Neighbours(b)[3], k) ==> Near(Empty(b), k)
  {
    NeighboursAt(b);
    ShiftUpLeft(Empty(b), k);
  }

  lemma FromUpLeft(b: Board, k: bv64)
    requires k < 64
    ensures !(k < 8 || k & 7 == 0) && Bit(Empty(b), k - 9) ==> Bit(Union(Neighbours(b)), k)
  {
    if !(k < 8 || k & 7 == 0) && Bit(Empty(b), k - 9) {
      ShiftUpLeft(Empty(b), k);
      NeighboursAt(b);
      UnionBitOne(Neighbours(b), k, 3);
    }
  }

  lemma NearRight(b: Board, k: bv64)
    requires k < 64
    ensures Bit(Neighbours(b)[4], k) ==> Near(Empty(b), k)
  {
    NeighboursAt(b);
    ShiftRight(Empty(b), k);
  }

  lemma FromRight(b: Board, k: bv64)
    requires k < 64
    ensures k & 7 != 7 && Bit(Empty(b), k + 1) ==> Bit(Union(Neighbours(b)), k)
  {
    if k & 7 != 7 && Bit(Empty(b), k + 1) {
      ShiftRight(Empty(b), k);
      NeighboursAt(b);
      UnionBitOne(Neighbours(b), k, 4);
    }
  }

  lemma NearDownLeft(b: Board, k: bv64)
    requires k < 64
    ensures Bit(Neighbours(b)[5], k) ==> Near(Empty(b), k)
  {
    NeighboursAt(b);
    ShiftDownLeft(Empty(b), k);
  }

  lemma FromDownLeft(b: Board, k: bv64)
    requires k < 64
    ensures !(k >= 56 || k & 7 == 0) && Bit(Empty(b), k + 7) ==> Bit(Union(Neighbours(b)), k)
  {
    if !(k >= 56 || k & 7 == 0) && Bit(Empty(b), k + 7) {
      ShiftDownLeft(Empty(b), k);
      NeighboursAt(b);
      UnionBitOne(Neighbours(b), k, 5);
    }
  }

  lemma NearDown(b: Board, k: bv64)
    requires k < 64
    ensures Bit(Neighbours(b)[6], k) ==> Near(Empty(b), k)
  {
    NeighboursAt(b);
    ShiftDown(Empty(b), k);
  }

  lemma FromDown(b: Board, k: bv64)
    requires k < 64
    ensures !(k >= 56) && Bit(Empty(b), k + 8) ==> Bit(Union(Neighbours(b)), k)
  {
    if !(k >= 56) && Bit(Empty(b), k + 8) {
      ShiftDown(Empty(b), k);
      NeighboursAt(b);
      UnionBitOne(Neighbours(b), k, 6);
    }
  }

  lemma NearDownRight(b: Board, k: bv64)
    requires k < 64
    ensures Bit(Neighbours(b)[7], k) ==> Near(Empty(b), k)
  {
    NeighboursAt(b);
    ShiftDownRight(Empty(b), k);
  }

  lemma FromDownRight(b: Board, k: bv64)
    requires k < 64
    ensures !(k >= 56 || k & 7 == 7) && Bit(Empty(b), k + 9) ==> Bit(Union(Neighbours(b)), k)
  {
    if !(k >= 56 || k & 7 == 7) && Bit(Empty(b), k + 9) {
      ShiftDownRight(Empty(b), k);
      NeighboursAt(b);
      UnionBitOne(Neighbours(b), k, 7);
    }
  }

  /** Bit k of the shifted empty squares is set only when square k has an
      empty neighbour on the board ... */
  lemma NeighboursSome(b: Board, k: bv64)
    requires k < 64 && Bit(Union(Neighbours(b)), k)
    ensures Near(Empty(b), k)
  {
    NeighboursAt(b);
    var i := UnionBitSome(Neighbours(b), k);
    NearLeft(b, k);
    NearUpRight(b, k);
    NearUp(b, k);
    NearUpLeft(b, k);
    NearRight(b, k);
    NearDownLeft(b, k);
    NearDown(b, k);
    NearDownRight(b, k);
  }

  /** ... and whenever it has one. */
  lemma NeighboursAll(b: Board, k: bv64)
    requires k < 64 && Near(Empty(b), k)
    ensures Bit(Union(Neighbours(b)), k)
  {
    FromLeft(b, k);
    FromUpRight(b, k);
    FromUp(b, k);
    FromUpLeft(b, k);
    FromRight(b, k);
    FromDownLeft(b, k);
    FromDown(b, k);
    FromDownRight(b, k);
  }

  /** A frontier bit is a player piece set in the shifted empty squares. */
  lemma FrontierBit(b: Board, k: bv64)
    requires k < 64
    ensures Bit(Frontier(b), k) <==> Bit(Union(Neighbours(b)), k) && Bit(b.player, k)
  {
    BitAnd(Frontier(b), Union(Neighbours(b)), b.player, k);
  }

  /** The frontier is exactly the player pieces with an empty neighbour. */
  lemma FrontierExactly(b: Board, k: bv64)
    requires k < 64
    ensures Bit(Frontier(b), k) <==> Bit(b.player, k) && Near(Empty(b), k)
  {
    FrontierBit(b, k);
    NeighboursBit(b, k);
  }

  /** Bit k of the shifted empty squares is set exactly when square k has an
      empty neighbour. */
  lemma NeighboursBit(b: Board, k: bv64)
    requires k < 64
    ensures Bit(Union(Neighbours(b)), k) <==> Near(Empty(b), k)
  {
    if Bit(Union(Neighbours(b)), k) {
      NeighboursSome(b, k);
    }
    if Near(Empty(b), k) {
      NeighboursAll(b, k);
    }
  }

  // ---------------------------------------------------------------------
  // The `Moves` iterator
  // ---------------------------------------------------------------------

  /** What one `next` call does to the remaining mask `x`: the value it
      returns and the mask it leaves. */
  function Step(x: bv64): (Option<bv64>, bv64) {
    if x == 0 then (None, 0) else (Some(HighBit(x)), x ^ HighBit(x))
  }

  /** On a nonzero mask, `next` returns its highest bit and clears it. */
  lemma StepSome(x: bv64)
    requires x != 0
    ensures Step(x) == (Some(HighBit(x)), x ^ HighBit(x))
  {}

  /** The value `next` returns is one bit of the mask ... */
  lemma StepSingle(x: bv64)
    requires x != 0
    ensures Step(x).0.Some? && Single(Step(x).0.value) && In(Step(x).0.value, x)
  {
    StepSome(x);
    HighBitSingle(x, HighBit(x));
  }

  /** ... and it is the head of `Order`, the mask left having its tail. */
  lemma StepOrder(x: bv64)
    requires x != 0
    ensures Step(x).0.Some? && Order(x) == [Step(x).0.value] + Order(Step(x).1)
  {
    StepSome(x);
    Pop(x, HighBit(x), x ^ HighBit(x));
  }

  /** The bit `next` hands out, `1 << (63 - leading_zeros)`: the highest
      set bit of `x`. */
  method Pick(x: bv64) returns (m: bv64)
    requires x != 0
    ensures m == HighBit(x)
  {
    var n := LeadingZeros(x);
    LeadingZerosBelow(x, n);
    m := (1 as bv64) << (63 - n);
    LeadingZerosHigh(x, n, HighBit(x));
  }

  /** `Moves`: the set bits of a mask, handed out highest first. */
  class MoveIter {
    var rest: bv64

    constructor(x: bv64)
      ensures rest == x
    {
      rest := x;
    }

    /** `next`: `None` once nothing is left; otherwise the highest
        remaining bit, as a one-bit mask, which is cleared. */
    method Next() returns (r: Option<bv64>)
      modifies this
      ensures (r, rest) == Step(old(rest))
    {
      if rest == 0 {
        r := None;
      } else {
        var m := Pick(rest);
        rest := rest ^ m;
        r := Some(m);
      }
    }
  }

  // ---------------------------------------------------------------------
  // Corners
  // ---------------------------------------------------------------------

  /** The test `corners` applies to a square `m`: on each of the four axes
      (a direction of FILL and its opposite, four places on), at least one
      neighbour is off the board or outside `open`. */
  predicate Cornered(m: bv64, open: bv64) {
    forall i :: 0 <= i < 4 ==> Blocked(FILL[i], FILL[i + 4], m, open)
  }

  /** The test on one axis: the neighbour of `m` going `forwards` or the one
      going `backwards` is off the board or outside `open`. */
  predicate Blocked(forwards: Direction, backwards: Direction, m: bv64, open: bv64) {
    Shift(forwards, m) & open == 0 || Shift(backwards, m) & open == 0
  }

  /** The `filter` of `corners`: the squares of `xs` that pass the test,
      in their order in `xs`. */
  function Cornering(xs: seq<bv64>, open: bv64): (r: seq<bv64>)
    ensures forall j :: 0 <= j < |r| ==> r[j] in xs && Cornered(r[j], open)
    ensures forall x :: x in xs && Cornered(x, open) ==> x in r
  {
    if |xs| == 0 then []
    else (if Cornered(xs[0], open) then [xs[0]] else []) + Cornering(xs[1..], open)
  }

  /** `corners`: the squares that are not holes and pass the corner test. */
  function Corners(b: Board): bv64 {
    CornersOf(!b.holes)
  }

  /** The squares of `open` that pass the corner test, taken in the order
      `Moves(open)` hands them out. */
  function CornersOf(open: bv64): bv64 {
    Union(Cornering(Order(open), open))
  }

  /** Every square that passes the test is one bit of `open`. */
  lemma CorneringSound(open: bv64, j: nat)
    requires j < |Cornering(Order(open), open)|
    ensures Single(Cornering(Order(open), open)[j])
    ensures In(Cornering(Order(open), open)[j], open)
  {
    var o := Order(open);
    var k :| 0 <= k < |o| && o[k] == Cornering(o, open)[j];
    OrderSound(open, k);
  }

  lemma CornersWithin(open: bv64)
    ensures In(CornersOf(open), open)
  {
    var r := Cornering(Order(open), open);
    forall j | 0 <= j < |r|
      ensures In(r[j], open)
    {
      CorneringSound(open, j);
    }
    UnionWithin(r, open);
  }

  /** No hole is a corner. */
  lemma CornersNoHoles(b: Board)
    ensures In(Corners(b), !b.holes)
  {
    CornersWithin(!b.holes);
  }

  /** Only squares that pass the test are among the corners ... */
  lemma CornersOnly(open: bv64, m: bv64)
    requires Single(m) && Hits(m, CornersOf(open))
    ensures Cornered(m, open)
  {
    var r := Cornering(Order(open), open);
    var i := UnionHitsSome(m, r);
    CorneringSound(open, i);
    SingleHits(m, r[i]);
  }

  /** ... and every square of `open` that passes it is one. */
  lemma CornersAll(open: bv64, m: bv64)
    requires Single(m) && In(m, open) && Cornered(m, open)
    ensures Hits(m, CornersOf(open))
  {
    var r := Cornering(Order(open), open);
    OrderComplete(open, m);
    var i :| 0 <= i < |r| && r[i] == m;
    UnionHitsOne(m, r, i);
  }

  /** A square that is not a hole is among the corners exactly when it
      passes the corner test. */
  lemma CornersExactly(b: Board, m: bv64)
    requires Single(m) && In(m, !b.holes)
    ensures Hits(m, Corners(b)) <==> Cornered(m, !b.holes)
  {
    if Hits(m, Corners(b)) {
      CornersOnly(!b.holes, m);
    }
    if Cornered(m, !b.holes) {
      CornersAll(!b.holes, m);
    }
  }

  // ---------------------------------------------------------------------
  // Corners, square by square
  // ---------------------------------------------------------------------

  /** Square k as a one-bit mask. */
  function SquareBit(k: bv64): bv64
    requires k < 64
  {
    (1 as bv64) << k
  }

  /** A neighbour that cannot keep a square from being a corner: it is off
      the board (`edge`), or it is square `j` and not in `open`. */
  predicate Closed(open: bv64, edge: bool, j: bv64)
    requires !edge ==> j < 64
  {
    edge || !Bit(open, j)
  }

  /** The corner test for square k, neighbour by neighbour: on each axis
      (left/right, up-right/down-left, up/down, up-left/down-right) one of
      the two neighbours is off the board or not in `open`. Square k is in
      row 7 - k / 8 and column 7 - k % 8, so the neighbour to the left is
      k + 1, the one above k + 8, and so on. */
  predicate CornerAt(open: bv64, k: bv64)
    requires k < 64
  {
    && (Closed(open, k & 7 == 7, k + 1) || Closed(open, k & 7 == 0, k - 1))
    && (Closed(open, k >= 56 || k & 7 == 0, k + 7) || Closed(open, k < 8 || k & 7 == 7, k - 7))
    && (Closed(open, k >= 56, k + 8) || Closed(open, k < 8, k - 8))
    && (Closed(open, k >= 56 || k & 7 == 7, k + 9) || Closed(open, k < 8 || k & 7 == 0, k - 9))
  }

  /** On the left/right axis the neighbours of square k are k + 1, off the
      board in column 0, and k - 1, off the board in column 7. */
  lemma AxisLeftRight(open: bv64, k: bv64)
    requires k < 64
    ensures Blocked(Left, Right, SquareBit(k), open) <==>
      Closed(open, k & 7 == 7, k + 1) || Closed(open, k & 7 == 0, k - 1)
  {}

  /** On the up-right/down-left axis the neighbours are k + 7, off the board
      in row 0 or column 7, and k - 7, off the board in row 7 or column 0. */
  lemma AxisUpRightDownLeft(open: bv64, k: bv64)
    requires k < 64
    ensures Blocked(UpRight, DownLeft, SquareBit(k), open) <==>
      Closed(open, k >= 56 || k & 7 == 0, k + 7) || Closed(open, k < 8 || k & 7 == 7, k - 7)
  {}

  /** On the up/down axis the neighbours are k + 8, off the board in row 0,
      and k - 8, off the board in row 7. */
  lemma AxisUpDown(open: bv64, k: bv64)
    requires k < 64
    ensures Blocked(Up, Down, SquareBit(k), open) <==>
      Closed(open, k >= 56, k + 8) || Closed(open, k < 8, k - 8)
  {}

  /** On the up-left/down-right axis the neighbours are k + 9, off the board
      in row 0 or column 0, and k - 9, off the board in row 7 or column 7. */
  lemma AxisUpLeftDownRight(open: bv64, k: bv64)
    requires k < 64
    ensures Blocked(UpLeft, DownRight, SquareBit(k), open) <==>
      Closed(open, k >= 56 || k & 7 == 7, k + 9) || Closed(open, k < 8 || k & 7 == 0, k - 9)
  {}

  /** `Cornered` axis by axis. */
  lemma CorneredAxes(m: bv64, open: bv64)
    ensures Cornered(m, open) <==>
      && Blocked(Left, Right, m, open) && Blocked(UpRight, DownLeft, m, open)
      && Blocked(Up, Down, m, open) && Blocked(UpLeft, DownRight, m, open)
  {
    assert FILL[0] == Left && FILL[4] == Right;
    assert FILL[1] == UpRight && FILL[5] == DownLeft;
    assert FILL[2] == Up && FILL[6] == Down;
    assert FILL[3] == UpLeft && FILL[7] == DownRight;
  }

  /** The shift test of `Cornered` on a single square is the neighbour test
      of `CornerAt`. */
  lemma CorneredAt(open: bv64, k: bv64)
    requires k < 64
    ensures Cornered(SquareBit(k), open) <==> CornerAt(open, k)
  {
    CorneredAxes(SquareBit(k), open);
    AxisLeftRight(open, k);
    AxisUpRightDownLeft(open, k);
    AxisUpDown(open, k);
    AxisUpLeftDownRight(open, k);
  }

  lemma SquareBitFacts(k: bv64, x: bv64)
    requires k < 64
    ensures Single(SquareBit(k))
    ensures In(SquareBit(k), x) <==> Bit(x, k)
    ensures Hits(SquareBit(k), x) <==> Bit(x, k)
  {}

  lemma BitNot(x: bv64, k: bv64)
    requires k < 64
    ensures Bit(!x, k) <==> !Bit(x, k)
  {}

  lemma InBit(a: bv64, b: bv64, k: bv64)
    requires k < 64 && In(a, b) && Bit(a, k)
    ensures Bit(b, k)
  {}

  /** A set `c` that agrees with the shift test on square k of `open`
      agrees with the neighbour test there. */
  lemma SquareCorner(open: bv64, c: bv64, k: bv64)
    requires k < 64
    requires Hits(SquareBit(k), c) <==> Cornered(SquareBit(k), open)
    ensures Bit(c, k) <==> CornerAt(open, k)
  {
    SquareBitFacts(k, c);
    CorneredAt(open, k);
  }

  /** Square k is in `Corners(b)` exactly when it is not a hole and, on each
      of the four axes, one of its two neighbours is off the board or a
      hole. */
  lemma CornersSquare(b: Board, k: bv64)
    requires k < 64
    ensures Bit(Corners(b), k) <==> !Bit(b.holes, k) && CornerAt(!b.holes, k)
  {
    BitNot(b.holes, k);
    if Bit(!b.holes, k) {
      SquareBitFacts(k, !b.holes);
      CornersExactly(b, SquareBit(k));
      SquareCorner(!b.holes, Corners(b), k);
    } else {
      CornersNoHoles(b);
      if Bit(Corners(b), k) {
        InBit(Corners(b), !b.holes, k);
      }
    }
  }
}
