/** The engine's move choice (wasm/src/search.rs): a depth-limited negamax over
    bitboards that scores a leaf by corners, mobility and frontier, and picks
    the move by its `leading_zeros` index. Scores are `i32` in the source; here
    they are integers, proved to stay within `[-INF, INF]`, so negating one
    never overflows. */
module Engine {
  import opened Bits
  import opened Cells
  import opened Bitboard

  /** `i32::MAX`: a won (or, negated, lost) finished game. */
  const INF: int := 0x7fff_ffff

  /** `bits`: the population count of a mask. */
  function BitCount(mask: bv64): (r: int)
    ensures 0 <= r <= 64
  {
    CountBound(mask);
    CountOnes(mask)
  }

  /** The value of a finished game, from comparing the two move counts. */
  function Outcome(mine: int, theirs: int): int {
    if mine < theirs then -INF else if mine == theirs then 0 else INF
  }

  /** The depth-0 score: sixteen times the corner difference, four times the
      mobility difference, plus the frontier difference (the opponent's
      frontier less the mover's). */
  function Evaluate(b: Board): (r: int)
    ensures -1344 <= r <= 1344
  {
    var mask := Corners(b);
    var corners := BitCount(b.player & mask) - BitCount(b.opponent & mask);
    var mobility := BitCount(Moves(b)) - BitCount(Moves(Pass(b)));
    var frontier := BitCount(Frontier(Pass(b))) - BitCount(Frontier(b));
    16 * corners + 4 * mobility + frontier
  }

  /** 1 when the side to move has no move, 0 otherwise: the second component
      of the measure, since a pass leads to a side that does have one. */
  function Stuck(b: Board): nat {
    if Moves(b) == 0 then 1 else 0
  }

  /** The inner `search`: the value of `b` for the side to move. */
  function Search(b: Board, depth: nat): (r: int)
    ensures -INF <= r <= INF
    decreases depth, 2 + Stuck(b), 0
  {
    var next := Pass(b);
    var player := Moves(b);
    var opponent := Moves(next);
    if player | opponent == 0 then
      Outcome(BitCount(player), BitCount(opponent))
    else if depth == 0 then
      Evaluate(b)
    else if player == 0 then
      -Search(next, depth)
    else
      Best(b, Order(player), depth - 1)
  }

  /** The value of move `m` for the side that plays it: `-search(play(m), depth)`. */
  function Score(b: Board, m: bv64, depth: nat): (r: int)
    ensures -INF <= r <= INF
    decreases depth + 1, 0, 0
  {
    -Search(Play(b, m), depth)
  }

  /** `.max()` over the scores of the moves in `ms`. */
  function Best(b: Board, ms: seq<bv64>, depth: nat): (r: int)
    requires |ms| > 0
    ensures -INF <= r <= INF
    decreases depth + 1, 1, |ms|
  {
    var last := Score(b, ms[|ms| - 1], depth);
    if |ms| == 1 then last
    else
      var rest := Best(b, ms[..|ms| - 1], depth);
      if rest < last then last else rest
  }

  /** `max_by_key` over a sequence of keys: the position of the highest key,
      the later one when two are equal. */
  function LastMax(keys: seq<int>): (i: nat)
    requires |keys| > 0
    ensures i < |keys|
  {
    if |keys| == 1 then 0
    else
      var j := LastMax(keys[..|keys| - 1]);
      if keys[j] > keys[|keys| - 1] then j else |keys| - 1
  }

  /** The key of each move in `ms`. */
  function Scores(b: Board, ms: seq<bv64>, depth: nat): seq<int> {
    seq(|ms|, i requires 0 <= i < |ms| => Score(b, ms[i], depth))
  }

  /** The move `negamax` settles on, as a single-bit mask. */
  function Choice(b: Board, depth: nat): bv64
    requires Moves(b) != 0
  {
    OrderEmpty(Moves(b));
    var ms := Order(Moves(b));
    ms[LastMax(Scores(b, ms, depth))]
  }

  /** `negamax`: the `leading_zeros` index of the chosen move, if any. */
  function Negamax(b: Board, depth: nat): Option<bv64> {
    if Moves(b) == 0 then None else Some(LeadingZeros(Choice(b, depth)))
  }

  // ---------------------------------------------------------------------
  // The maximum over the moves
  // ---------------------------------------------------------------------

  /** No move scores above the maximum. */
  lemma {:induction false} BestAbove(b: Board, ms: seq<bv64>, depth: nat, j: nat, m: bv64)
    requires j < |ms| && ms[j] == m
    ensures Score(b, m, depth) <= Best(b, ms, depth)
    decreases |ms|
  {
    if j < |ms| - 1 {
      assert ms[..|ms| - 1][j] == m;
      BestAbove(b, ms[..|ms| - 1], depth, j, m);
    }
  }

  /** Some move scores exactly the maximum. */
  lemma {:induction false} BestReached(b: Board, ms: seq<bv64>, depth: nat) returns (j: nat)
    requires |ms| > 0
    ensures j < |ms| && Score(b, ms[j], depth) == Best(b, ms, depth)
    decreases |ms|
  {
    if |ms| == 1 {
      j := 0;
    } else {
      var last := Score(b, ms[|ms| - 1], depth);
      var rest := Best(b, ms[..|ms| - 1], depth);
      if rest < last {
        j := |ms| - 1;
      } else {
        j := BestReached(b, ms[..|ms| - 1], depth);
        assert ms[..|ms| - 1][j] == ms[j];
      }
    }
  }

  /** No key is above the one `max_by_key` keeps. */
  lemma {:induction false} LastMaxAbove(keys: seq<int>, j: nat)
    requires j < |keys|
    ensures keys[j] <= keys[LastMax(keys)]
    decreases |keys|
  {
    if |keys| > 1 {
      var i := LastMax(keys[..|keys| - 1]);
      assert keys[..|keys| - 1][i] == keys[i];
      if j < |keys| - 1 {
        LastMaxAbove(keys[..|keys| - 1], j);
        assert keys[..|keys| - 1][j] == keys[j];
      }
    }
  }

  /** Every key after the one `max_by_key` keeps is strictly lower: among
      equal keys the last one wins. */
  lemma {:induction false} LastMaxLast(keys: seq<int>, j: nat)
    requires |keys| > 0 && LastMax(keys) < j < |keys|
    ensures keys[j] < keys[LastMax(keys)]
    decreases |keys|
  {
    var i := LastMax(keys[..|keys| - 1]);
    assert keys[..|keys| - 1][i] == keys[i];
    if j < |keys| - 1 {
      LastMaxLast(keys[..|keys| - 1], j);
      assert keys[..|keys| - 1][j] == keys[j];
    }
  }

  /** So the key `max_by_key` keeps is the last of the highest keys. */
  lemma LastMaxLatest(keys: seq<int>, j: nat)
    requires j < |keys| && keys[j] == keys[LastMax(keys)]
    ensures j <= LastMax(keys)
  {
    if LastMax(keys) < j {
      LastMaxLast(keys, j);
      assert false;
    }
  }

  /** Over the bits of `x` keyed by `keys`, the move `max_by_key` keeps
      is no higher than any other move with the same key. */
  lemma LastMaxLowest(x: bv64, keys: seq<int>, j: nat, m: bv64, c: bv64, i: nat)
    requires |keys| == |Order(x)| && j < |keys| && Order(x)[j] == m
    requires i == LastMax(keys) && keys[j] == keys[i] && c == Order(x)[i]
    ensures c <= m
  {
    LastMaxLatest(keys, j);
    OrderNotLater(x, j, i, m, c);
  }

  // ---------------------------------------------------------------------
  // The cases of `search`
  // ---------------------------------------------------------------------

  /** When neither side can move, both counts are 0 and the game is a draw
      as far as `search` is concerned. */
  lemma SearchFinished(b: Board, depth: nat)
    requires Moves(b) | Moves(Pass(b)) == 0
    ensures Search(b, depth) == 0
  {
    OrZero(Moves(b), Moves(Pass(b)));
  }

  /** At depth 0, with a move for either side, the value is the heuristic. */
  lemma SearchLeaf(b: Board)
    requires Moves(b) | Moves(Pass(b)) != 0
    ensures Search(b, 0) == Evaluate(b)
  {}

  /** With depth left and a move to make, the value is the best score. */
  lemma SearchBest(b: Board, depth: nat)
    requires depth > 0 && Moves(b) != 0
    ensures Search(b, depth) == Best(b, Order(Moves(b)), depth - 1)
  {
    OrZero(Moves(b), Moves(Pass(b)));
  }

  /** The move at position `j` of `Moves`' order scores no more than the
      position is worth. */
  lemma SearchAboveAt(b: Board, depth: nat, m: bv64, ms: seq<bv64>, j: nat)
    requires depth > 0 && Moves(b) != 0 && ms == Order(Moves(b)) && j < |ms| && ms[j] == m
    ensures Score(b, m, depth - 1) <= Search(b, depth)
  {
    BestAbove(b, ms, depth - 1, j, m);
    SearchBest(b, depth);
  }

  /** With depth left, no move scores above the value of the position. */
  lemma SearchAbove(b: Board, depth: nat, m: bv64)
    requires depth > 0 && Single(m) && In(m, Moves(b))
    ensures Score(b, m, depth - 1) <= Search(b, depth)
  {
    var j := OrderIndex(Moves(b), m);
    InNonZero(Moves(b), m);
    SearchAboveAt(b, depth, m, Order(Moves(b)), j);
  }

  /** Some move of `Moves`' order scores what the position is worth. */
  lemma SearchReachedAt(b: Board, depth: nat, ms: seq<bv64>) returns (j: nat)
    requires depth > 0 && Moves(b) != 0 && ms == Order(Moves(b)) && |ms| > 0
    ensures j < |ms| && Search(b, depth) == Score(b, ms[j], depth - 1)
  {
    SearchBest(b, depth);
    j := BestReached(b, ms, depth - 1);
  }

  /** With depth left and a move to make, the value is the score of one of
      the moves. */
  lemma SearchReached(b: Board, depth: nat) returns (m: bv64)
    requires depth > 0 && Moves(b) != 0
    ensures Single(m) && In(m, Moves(b)) && Search(b, depth) == Score(b, m, depth - 1)
  {
    OrderEmpty(Moves(b));
    var j := SearchReachedAt(b, depth, Order(Moves(b)));
    OrderSound(Moves(b), j);
    m := Order(Moves(b))[j];
  }

  /** With depth left and no move of its own while the opponent has one, the
      side to move passes, and the opponent then really moves: the search
      never passes twice in a row. */
  lemma SearchPass(b: Board, depth: nat)
    requires depth > 0 && Moves(b) == 0 && Moves(Pass(b)) != 0
    ensures Search(b, depth) == -Search(Pass(b), depth)
    ensures Search(Pass(b), depth) == Best(Pass(b), Order(Moves(Pass(b))), depth - 1)
  {
    OrZero(Moves(b), Moves(Pass(b)));
    PassTwice(b);
    OrZero(Moves(Pass(b)), Moves(Pass(Pass(b))));
  }

  // ---------------------------------------------------------------------
  // What `negamax` returns
  // ---------------------------------------------------------------------

  /** `negamax` has no answer exactly when the side to move has no move. */
  lemma NegamaxNone(b: Board, depth: nat)
    ensures Negamax(b, depth).None? <==> Moves(b) == 0
  {}

  /** The chosen move is a single bit of the move mask. */
  lemma ChoiceLegal(b: Board, depth: nat)
    requires Moves(b) != 0
    ensures Single(Choice(b, depth)) && In(Choice(b, depth), Moves(b))
  {
    OrderEmpty(Moves(b));
    var ms := Order(Moves(b));
    OrderSound(Moves(b), LastMax(Scores(b, ms, depth)));
  }

  /** The index `i` that `negamax` returns is below 64, and bit `63 - i` of
      the move mask, the square `i` in row-major order, is a legal move. */
  lemma NegamaxLegal(b: Board, depth: nat)
    requires Negamax(b, depth).Some?
    ensures Negamax(b, depth).value < 64
    ensures Bit(Moves(b), 63 - Negamax(b, depth).value)
  {
    var c := Choice(b, depth);
    var n := LeadingZeros(c);
    ChoiceLegal(b, depth);
    LeadingZerosBelow(c, n);
    SingleTop(c);
    LeadingZerosHigh(c, n, c);
    ShiftedBit(Moves(b), c, n);
  }

  /** No legal move scores above the chosen one. */
  lemma ChoiceBest(b: Board, depth: nat, m: bv64)
    requires Single(m) && In(m, Moves(b))
    ensures Score(b, m, depth) <= Score(b, Choice(b, depth), depth)
  {
    var ms := Order(Moves(b));
    var j := OrderIndex(Moves(b), m);
    ScoresAt(b, ms, depth, j, m);
    LastMaxAbove(Scores(b, ms, depth), j);
  }

  /** The key of the move at position `j` is its score. */
  lemma ScoresAt(b: Board, ms: seq<bv64>, depth: nat, j: nat, m: bv64)
    requires j < |ms| && ms[j] == m
    ensures |Scores(b, ms, depth)| == |ms| && Scores(b, ms, depth)[j] == Score(b, m, depth)
  {}

  /** The chosen move sits where `max_by_key` points in `Moves`' order. */
  lemma ChoiceAt(b: Board, depth: nat, keys: seq<int>) returns (i: nat)
    requires Moves(b) != 0 && keys == Scores(b, Order(Moves(b)), depth)
    ensures |keys| == |Order(Moves(b))| && i == LastMax(keys) && Order(Moves(b))[i] == Choice(b, depth)
  {
    OrderEmpty(Moves(b));
    i := LastMax(keys);
  }

  /** A move scoring the same as the chosen one has the kept key, at its
      own position in `Moves`' order. */
  lemma TieAt(b: Board, depth: nat, m: bv64, x: bv64, keys: seq<int>, c: bv64) returns (j: nat)
    requires x == Moves(b) && keys == Scores(b, Order(x), depth) && x != 0 && c == Choice(b, depth)
    requires Single(m) && In(m, x)
    requires Score(b, m, depth) == Score(b, c, depth)
    ensures |keys| == |Order(x)| && j < |keys| && Order(x)[j] == m
    ensures keys[j] == keys[LastMax(keys)] && c == Order(x)[LastMax(keys)] && Single(c)
  {
    j := OrderIndex(x, m);
    ScoresAt(b, Order(x), depth, j, m);
    var i := ChoiceAt(b, depth, keys);
    ScoresAt(b, Order(x), depth, i, c);
    OrderAt(x, i, c);
  }

  /** Among equally scored best moves, the chosen move `c` has the most
      leading zeros. */
  lemma ChoiceLastTie(b: Board, depth: nat, m: bv64, c: bv64)
    requires Single(m) && In(m, Moves(b)) && c == Choice(b, depth)
    requires Score(b, m, depth) == Score(b, c, depth)
    ensures LeadingZeros(m) <= LeadingZeros(c)
  {
    var x := Moves(b);
    var keys := Scores(b, Order(x), depth);
    var j := TieAt(b, depth, m, x, keys, c);
    LastMaxLowest(x, keys, j, m, c, LastMax(keys));
    LeadingZerosAtMost(m, c);
  }

  /** `negamax` answers with the leading zeros of the chosen move. */
  lemma NegamaxChoice(b: Board, depth: nat, c: bv64)
    requires Moves(b) != 0 && c == Choice(b, depth)
    ensures Negamax(b, depth) == Some(LeadingZeros(c))
  {}

  /** So when a move `m` scores as well as the chosen move `c`, `negamax`
      answers an index at least that of `m`: among equal scores it takes the
      square latest in row-major order, the last that `Moves` yields. */
  lemma NegamaxLastTie(b: Board, depth: nat, m: bv64, c: bv64)
    requires Single(m) && In(m, Moves(b)) && c == Choice(b, depth)
    requires Score(b, m, depth) == Score(b, c, depth)
    ensures Negamax(b, depth) == Some(LeadingZeros(c)) && LeadingZeros(m) <= LeadingZeros(c)
  {
    ChoiceLastTie(b, depth, m, c);
    NegamaxChoice(b, depth, c);
  }
}
