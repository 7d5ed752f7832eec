/** What the two engine players (src/players/iterative.js and
    src/players/minimax.js) share: the meaning of the three masks their scans
    build, and the decoding of the square index the engine answers with.
    The masks are JavaScript BigInts, so they are natural numbers here; a
    mask's bits are read with `NatBit`. */
module Encoding {
  import opened Cells
  import opened Bits
  import opened Bitboard
  import opened Engine
  import opened Rules

  /** 2 to the power `k`. */
  function Pow2(k: nat): (r: nat)
    ensures r >= 1
  {
    if k == 0 then 1 else 2 * Pow2(k - 1)
  }

  /** Bit `k` of a BigInt mask: `(n >> k) & 1`. */
  predicate NatBit(n: nat, k: nat) {
    if k == 0 then n % 2 == 1 else NatBit(n / 2, k - 1)
  }

  /** The three masks the scan builds. */
  datatype Masks = Masks(player: nat, opponent: nat, holes: nat)

  /** One step of the scan: shift every mask left, then set the low bit of
      the one the square belongs to. The cases are tried in the `switch`
      order: EMPTY, HOLE, the player `id`, anything else. */
  function Push(ms: Masks, c: Cell, id: Cell): Masks {
    var shifted := Masks(2 * ms.player, 2 * ms.opponent, 2 * ms.holes);
    if c == Empty then shifted
    else if c == Hole then shifted.(holes := shifted.holes + 1)
    else if c == id then shifted.(player := shifted.player + 1)
    else shifted.(opponent := shifted.opponent + 1)
  }

  /** The masks after scanning `cells` in order. */
  function Encode(cells: seq<Cell>, id: Cell): Masks {
    if |cells| == 0 then Masks(0, 0, 0)
    else Push(Encode(cells[..|cells| - 1], id), cells[|cells| - 1], id)
  }

  /** A message to the worker: the three masks and the requested depth. */
  datatype Request = Request(player: nat, opponent: nat, holes: nat, depth: nat)

  /** The `empty` counter: the number of EMPTY squares among `cells`. */
  function EmptyCount(cells: seq<Cell>): nat {
    if |cells| == 0 then 0
    else EmptyCount(cells[..|cells| - 1]) + (if cells[|cells| - 1] == Empty then 1 else 0)
  }

  /** An 8x8 board as `game.board()` hands it out. */
  predicate Square(board: seq<seq<Cell>>) {
    |board| == 8 && forall r :: 0 <= r < 8 ==> |board[r]| == 8
  }

  /** The squares of an 8x8 board in the scan's (row-major) order. */
  function Flat(board: seq<seq<Cell>>): (s: seq<Cell>)
    requires Square(board)
    ensures |s| == 64
  {
    seq(64, i requires 0 <= i < 64 => board[i / 8][i % 8])
  }

  /** The reply `{ row: Math.floor(pos / 8), col: pos % 8 }`, which is
      `PosOf(pos)`. An `undefined` `pos` gives a move with NaN coordinates,
      which no square matches and which `valid` rejects like `undefined`. */
  function Answer(pos: Option<nat>): Option<Pos> {
    if pos.None? then None else Some(PosOf(pos.value))
  }

  // ---------------------------------------------------------------------
  // The bits of a scanned mask
  // ---------------------------------------------------------------------

  /** Shifting left and adding a bit: bit 0 is the new bit, the others move up. */
  lemma NatBitPush(n: nat, b: nat, k: nat)
    requires b < 2
    ensures NatBit(2 * n + b, 0) == (b == 1)
    ensures k > 0 ==> NatBit(2 * n + b, k) == NatBit(n, k - 1)
  {
    assert (2 * n + b) / 2 == n;
  }

  /** A mask below `2^w` has no bit at `w` or above. */
  lemma {:induction false} NatBitAbove(n: nat, w: nat, k: nat)
    requires n < Pow2(w) && w <= k
    ensures !NatBit(n, k)
    decreases k
  {
    if k > 0 {
      if w == 0 {
        assert n == 0;
        NatBitAbove(0, 0, k - 1);
      } else {
        NatBitAbove(n / 2, w - 1, k - 1);
      }
    }
  }

  /** After `|s|` steps each mask is below `2^|s|`: 64 squares give masks
      that fit a `u64`. */
  lemma {:induction false} EncodeFits(s: seq<Cell>, id: Cell)
    ensures Encode(s, id).player < Pow2(|s|)
    ensures Encode(s, id).opponent < Pow2(|s|)
    ensures Encode(s, id).holes < Pow2(|s|)
  {
    if |s| > 0 {
      EncodeFits(s[..|s| - 1], id);
    }
  }

  /** Square `i` of the scan ends up at bit `|s| - 1 - i`: in `holes` when it
      is a HOLE, in `player` when it is `id` (and neither EMPTY nor HOLE), in
      `opponent` when it is anything else that is not EMPTY. */
  lemma {:induction false} EncodeBit(s: seq<Cell>, id: Cell, i: nat)
    requires i < |s|
    ensures NatBit(Encode(s, id).holes, |s| - 1 - i) == (s[i] == Hole)
    ensures NatBit(Encode(s, id).player, |s| - 1 - i) == (s[i] != Empty && s[i] != Hole && s[i] == id)
    ensures NatBit(Encode(s, id).opponent, |s| - 1 - i) == (s[i] != Empty && s[i] != Hole && s[i] != id)
    decreases |s|
  {
    var t := s[..|s| - 1];
    var ms := Encode(t, id);
    var c := s[|s| - 1];
    var k := |s| - 1 - i;
    NatBitPush(ms.holes, if c == Hole then 1 else 0, k);
    NatBitPush(ms.player, if c != Empty && c != Hole && c == id then 1 else 0, k);
    NatBitPush(ms.opponent, if c != Empty && c != Hole && c != id then 1 else 0, k);
    if i < |s| - 1 {
      EncodeBit(t, id, i);
      assert t[i] == s[i];
    }
  }

  /** No bit lies in two masks, and a square of the scan sets no bit exactly
      when it is EMPTY. */
  lemma EncodeDisjoint(s: seq<Cell>, id: Cell, k: nat)
    ensures !(NatBit(Encode(s, id).player, k) && NatBit(Encode(s, id).opponent, k))
    ensures !(NatBit(Encode(s, id).player, k) && NatBit(Encode(s, id).holes, k))
    ensures !(NatBit(Encode(s, id).opponent, k) && NatBit(Encode(s, id).holes, k))
    ensures k < |s| ==> (s[|s| - 1 - k] == Empty <==>
      !NatBit(Encode(s, id).player, k) && !NatBit(Encode(s, id).opponent, k) && !NatBit(Encode(s, id).holes, k))
  {
    if k < |s| {
      EncodeBit(s, id, |s| - 1 - k);
    } else {
      EncodeFits(s, id);
      NatBitAbove(Encode(s, id).player, |s|, k);
      NatBitAbove(Encode(s, id).opponent, |s|, k);
      NatBitAbove(Encode(s, id).holes, |s|, k);
    }
  }

  /** The counter never exceeds the number of squares scanned. */
  lemma {:induction false} EmptyCountBound(s: seq<Cell>)
    ensures EmptyCount(s) <= |s|
  {
    if |s| > 0 {
      EmptyCountBound(s[..|s| - 1]);
    }
  }

  /** The counter is 0 exactly when no square is EMPTY. */
  lemma {:induction false} EmptyCountZero(s: seq<Cell>)
    ensures EmptyCount(s) == 0 <==> Empty !in s
  {
    if |s| > 0 {
      EmptyCountZero(s[..|s| - 1]);
      assert s == s[..|s| - 1] + [s[|s| - 1]];
    }
  }

  /** With an `id` that is no piece (the value `undefined` the page hands
      over matches no square), the `case id` branch never fires and the
      player mask stays 0. */
  lemma {:induction false} EncodeNoPiece(s: seq<Cell>, id: Cell)
    requires !IsPiece(id)
    ensures Encode(s, id).player == 0
  {
    if |s| > 0 {
      EncodeNoPiece(s[..|s| - 1], id);
    }
  }

  // ---------------------------------------------------------------------
  // On the 8x8 board
  // ---------------------------------------------------------------------

  /** The square at (r, c) is the scan's square `r * 8 + c`. */
  lemma FlatAt(board: seq<seq<Cell>>, r: int, c: int)
    requires Square(board) && OnBoard(r, c)
    ensures Flat(board)[r * 8 + c] == board[r][c]
  {
    assert (r * 8 + c) / 8 == r && (r * 8 + c) % 8 == c;
  }

  /** One more square of the scan: the masks after square `k` follow from
      those before it. */
  lemma EncodeNext(s: seq<Cell>, id: Cell, k: nat)
    requires k < |s|
    ensures Encode(s[..k + 1], id) == Push(Encode(s[..k], id), s[k], id)
  {
    assert s[..k + 1][..k] == s[..k];
  }

  /** One more square of the scan: the counter after square `k` follows from
      the one before it. */
  lemma EmptyCountNext(s: seq<Cell>, k: nat)
    requires k < |s|
    ensures EmptyCount(s[..k + 1]) == EmptyCount(s[..k]) + (if s[k] == Empty then 1 else 0)
  {
    assert s[..k + 1][..k] == s[..k];
  }

  /** The square the scan reads at (r, c) is square `r * 8 + c`. */
  lemma ScanStep(board: seq<seq<Cell>>, s: seq<Cell>, r: int, c: int)
    requires Square(board) && OnBoard(r, c) && s == Flat(board)
    ensures r * 8 + c < |s| && s[r * 8 + c] == board[r][c]
  {
    FlatAt(board, r, c);
  }

  /** The square at (r, c) lands at bit `63 - (r * 8 + c)` of the masks. */
  lemma BoardBit(board: seq<seq<Cell>>, id: Cell, r: int, c: int)
    requires Square(board) && OnBoard(r, c)
    ensures var ms := Encode(Flat(board), id); var k := 63 - (r * 8 + c);
      && NatBit(ms.holes, k) == (board[r][c] == Hole)
      && NatBit(ms.player, k) == (board[r][c] != Empty && board[r][c] != Hole && board[r][c] == id)
      && NatBit(ms.opponent, k) == (board[r][c] != Empty && board[r][c] != Hole && board[r][c] != id)
  {
    FlatAt(board, r, c);
    EncodeBit(Flat(board), id, r * 8 + c);
  }

  /** The rows `game.board()` returns scan back to the game's squares. */
  lemma FlatRows(g: Grid)
    ensures Square(Rows(g)) && Flat(Rows(g)) == g
  {
    RowsAt(g);
    forall i | 0 <= i < 64
      ensures Flat(Rows(g))[i] == g[i]
    {
      IndexRoundTrip(i / 8, i % 8);
    }
  }

  // ---------------------------------------------------------------------
  // Decoding the engine's answer
  // ---------------------------------------------------------------------

  /** The engine's answer `i` decodes to a square on the board whose bit,
      `63 - i`, the bit the scan put that square at, is a legal move. */
  lemma AnswerLegal(b: Board, depth: nat)
    requires Negamax(b, depth).Some?
    ensures var i := Negamax(b, depth).value; var p := PosOf(i as nat);
      && i < 64 && OnBoard(p.row, p.col) && Index(p.row, p.col) == i as int
      && Bit(Moves(b), 63 - i)
  {
    NegamaxLegal(b, depth);
    PosOfRoundTrip(Negamax(b, depth).value as nat);
  }
}
