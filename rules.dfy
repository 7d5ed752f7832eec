/** The capture rule of the array engine (src/game.js) stated on values: a
    board is a row-major sequence of 64 squares, and every operation of the
    `Game` class is specified by one of the functions below. */
module Rules {
  import opened Cells
  import opened Directions

  /** `this.arr`: 64 squares in row-major order. */
  type Grid = g: seq<Cell> | |g| == 64 witness seq(64, _ => Empty)

  function Max(a: int, b: int): int {
    if a < b then b else a
  }

  function Min(a: int, b: int): int {
    if a < b then a else b
  }

  /** `get(row, col)`: the square's content, or None (`undefined`) off the board. */
  function At(g: Grid, row: int, col: int): Option<Cell> {
    if OnBoard(row, col) then Some(g[row * 8 + col]) else None
  }

  // ---------------------------------------------------------------------------
  // One direction's scan in `flipped`
  // ---------------------------------------------------------------------------

  /** How many more squares along `d` the scan can meet before it leaves the
      board; each step of the scan lowers it by one. */
  function Remaining(row: int, col: int, d: Step): int {
    if d.dr == 1 then 8 - row
    else if d.dr == -1 then row + 1
    else if d.dc == 1 then 8 - col
    else col + 1
  }

  /** The run `current` collected by the `while` loop: the opponent squares met
      from (row, col) onwards along `d`, up to the first square that is not the
      opponent's. */
  function Walk(g: Grid, o: Cell, row: int, col: int, d: Step): seq<Pos>
    decreases Remaining(row, col, d)
  {
    if At(g, row, col) == Some(o) then [Pos(row, col)] + Walk(g, o, row + d.dr, col + d.dc, d)
    else []
  }

  /** The square the same scan stops on. */
  function Stop(g: Grid, o: Cell, row: int, col: int, d: Step): Pos
    decreases Remaining(row, col, d)
  {
    if At(g, row, col) == Some(o) then Stop(g, o, row + d.dr, col + d.dc, d)
    else Pos(row, col)
  }

  /** One step of the scan over an opponent square. */
  lemma WalkStep(g: Grid, o: Cell, row: int, col: int, d: Step)
    requires At(g, row, col) == Some(o)
    ensures Walk(g, o, row, col, d) == [Pos(row, col)] + Walk(g, o, row + d.dr, col + d.dc, d)
    ensures Stop(g, o, row, col, d) == Stop(g, o, row + d.dr, col + d.dc, d)
    ensures Remaining(row + d.dr, col + d.dc, d) < Remaining(row, col, d)
  {}

  /** The run captured in direction `d` by a piece of `p` placed on `m`: the
      scan's run when it is non-empty and stops on a piece of `p`, else nothing. */
  function Capture(g: Grid, p: Cell, o: Cell, m: Pos, d: Step): seq<Pos> {
    var run := Walk(g, o, m.row + d.dr, m.col + d.dc, d);
    var end := Stop(g, o, m.row + d.dr, m.col + d.dc, d);
    if |run| > 0 && At(g, end.row, end.col) == Some(p) then run else []
  }

  /** Once the scan has left the opponent's squares, the capture in `d` is
      the collected run exactly when it is non-empty and the scan stopped on a
      piece of `p`. */
  lemma CaptureEnd(g: Grid, p: Cell, o: Cell, m: Pos, d: Step, current: seq<Pos>, row: int, col: int)
    requires Walk(g, o, m.row + d.dr, m.col + d.dc, d) == current + Walk(g, o, row, col, d)
    requires Stop(g, o, m.row + d.dr, m.col + d.dc, d) == Stop(g, o, row, col, d)
    requires At(g, row, col) != Some(o)
    ensures Capture(g, p, o, m, d) == if |current| > 0 && At(g, row, col) == Some(p) then current else []
  {
    assert current + [] == current;
  }

  /** The captured run of every direction, in the order of `directions`. */
  function Runs(g: Grid, p: Cell, o: Cell, m: Pos): seq<seq<Pos>> {
    seq(|Table|, i requires 0 <= i < |Table| => Capture(g, p, o, m, Table[i]))
  }

  // ---------------------------------------------------------------------------
  // Grouping the runs by distance
  // ---------------------------------------------------------------------------

  /** The (k+1)-th square of every run that has one, in run order. */
  function Column(runs: seq<seq<Pos>>, k: nat): seq<Pos> {
    if runs == [] then []
    else
      var r := runs[|runs| - 1];
      Column(runs[..|runs| - 1], k) + (if k < |r| then [r[k]] else [])
  }

  /** The length of the longest run. */
  function Longest(runs: seq<seq<Pos>>): nat {
    if runs == [] then 0 else Max(Longest(runs[..|runs| - 1]), |runs[|runs| - 1]|)
  }

  /** The runs grouped by distance: group k holds the (k+1)-th square of every
      run long enough to have one. */
  function Zip(runs: seq<seq<Pos>>): seq<seq<Pos>> {
    seq(Longest(runs), k requires 0 <= k => Column(runs, k))
  }

  /** `groups` after the inner `for` loop of `flipped` has pushed the first `j`
      squares of `run`, square i onto group i (opening the group if needed). */
  function Merge(groups: seq<seq<Pos>>, run: seq<Pos>, j: nat): seq<seq<Pos>>
    requires j <= |run|
  {
    seq(Max(|groups|, j), k requires 0 <= k < Max(|groups|, j) =>
      (if k < |groups| then groups[k] else []) + (if k < j then [run[k]] else []))
  }

  /** The value `flipped(move)` returns. */
  function Flips(g: Grid, p: Cell, o: Cell, m: Pos): seq<seq<Pos>> {
    Zip(Runs(g, p, o, m))
  }

  /** The total number of squares in a list of groups or runs. */
  function Total(groups: seq<seq<Pos>>): nat {
    if groups == [] then 0 else Total(groups[..|groups| - 1]) + |groups[|groups| - 1]|
  }

  /** `q` is one of the squares in `groups`. */
  predicate InGroups(groups: seq<seq<Pos>>, q: Pos) {
    exists k :: 0 <= k < |groups| && q in groups[k]
  }

  // ---------------------------------------------------------------------------
  // Legality, the move list and the effect of a move
  // ---------------------------------------------------------------------------

  /** `valid({row, col})` for a defined move. */
  predicate IsLegal(g: Grid, p: Cell, o: Cell, m: Pos) {
    At(g, m.row, m.col) == Some(Empty) && |Flips(g, p, o, m)| > 0
  }

  /** `valid(move)`: `undefined` is never valid. */
  predicate CanPlay(g: Grid, p: Cell, o: Cell, move: Option<Pos>) {
    move.Some? && IsLegal(g, p, o, move.value)
  }

  /** The legal squares among the first n in row-major order, in that order. */
  function LegalUpTo(g: Grid, p: Cell, o: Cell, n: nat): seq<Pos>
    requires n <= 64
  {
    if n == 0 then []
    else LegalUpTo(g, p, o, n - 1) + (if IsLegal(g, p, o, PosOf(n - 1)) then [PosOf(n - 1)] else [])
  }

  /** Scanning square (row, col) extends the list by that square exactly
      when it is legal. */
  lemma LegalNext(g: Grid, p: Cell, o: Cell, row: int, col: int)
    requires OnBoard(row, col)
    ensures Index(row, col) + 1 <= 64
    ensures LegalUpTo(g, p, o, Index(row, col) + 1) ==
      LegalUpTo(g, p, o, Index(row, col)) + (if CanPlay(g, p, o, Some(Pos(row, col))) then [Pos(row, col)] else [])
  {
    IndexRoundTrip(row, col);
  }

  /** `LegalNext` as the loop of `moves()` uses it: appending the square when
      `ok` says it is valid extends the list by one square of the scan. */
  lemma LegalAppend(g: Grid, p: Cell, o: Cell, row: int, col: int, before: seq<Pos>, ok: bool)
    requires 0 <= row < 8 && 0 <= col < 8
    requires before == LegalUpTo(g, p, o, row * 8 + col)
    requires ok == CanPlay(g, p, o, Some(Pos(row, col)))
    ensures (if ok then before + [Pos(row, col)] else before) == LegalUpTo(g, p, o, row * 8 + col + 1)
  {
    LegalNext(g, p, o, row, col);
  }

  /** The value `moves()` returns. */
  function LegalMoves(g: Grid, p: Cell, o: Cell): seq<Pos> {
    LegalUpTo(g, p, o, 64)
  }

  /** The board after `p` is placed on `m` and every square of `groups` is set to `p`. */
  function Placed(g: Grid, p: Cell, m: Pos, groups: seq<seq<Pos>>): Grid {
    seq(64, i requires 0 <= i < 64 => if PosOf(i) == m || InGroups(groups, PosOf(i)) then p else g[i])
  }

  /** The 8x8 snapshot `board()` returns: row r holds squares r*8 .. r*8+7. */
  function Rows(g: Grid): seq<seq<Cell>> {
    seq(8, r requires 0 <= r < 8 => g[r * 8 .. r * 8 + 8])
  }

  /** Square i of the board `reset()` builds. */
  function StartCell(i: int): Cell {
    if i == Index(3, 4) || i == Index(4, 3) then Slime
    else if i == Index(3, 3) || i == Index(4, 4) then Bean
    else Empty
  }

  /** The board `reset()` builds. */
  const StartGrid: Grid := seq(64, StartCell)

  /** The number of squares of `g` among the first n that hold `c`. */
  function CountUpTo(g: Grid, c: Cell, n: nat): nat
    requires n <= 64
  {
    if n == 0 then 0 else CountUpTo(g, c, n - 1) + (if g[n - 1] == c then 1 else 0)
  }

  function Count(g: Grid, c: Cell): nat {
    CountUpTo(g, c, 64)
  }

  // ===========================================================================
  // Lemmas
  // ===========================================================================

  /** The scan collects only opponent squares, stops on the first square that
      is not the opponent's, and meets at most `Remaining` squares. */
  lemma {:induction false} WalkFacts(g: Grid, o: Cell, row: int, col: int, d: Step)
    ensures forall q :: q in Walk(g, o, row, col, d) ==> At(g, q.row, q.col) == Some(o)
    ensures var s := Stop(g, o, row, col, d); At(g, s.row, s.col) != Some(o)
    ensures |Walk(g, o, row, col, d)| <= Max(Remaining(row, col, d), 0)
    decreases Remaining(row, col, d)
  {
    if At(g, row, col) == Some(o) {
      WalkFacts(g, o, row + d.dr, col + d.dc, d);
    }
  }

  /** The k-th square of the scan from (row, col) is k steps along `d`, and the
      scan stops |run| steps along `d`. */
  lemma {:induction false} WalkShape(g: Grid, o: Cell, row: int, col: int, d: Step)
    ensures var run := Walk(g, o, row, col, d);
      forall k :: 0 <= k < |run| ==> run[k] == Pos(row + k * d.dr, col + k * d.dc)
    ensures var run := Walk(g, o, row, col, d);
      Stop(g, o, row, col, d) == Pos(row + |run| * d.dr, col + |run| * d.dc)
    decreases Remaining(row, col, d)
  {
    if At(g, row, col) == Some(o) {
      WalkShape(g, o, row + d.dr, col + d.dc, d);
      var rest := Walk(g, o, row + d.dr, col + d.dc, d);
      var run := Walk(g, o, row, col, d);
      assert run == [Pos(row, col)] + rest;
      forall k | 0 <= k < |run|
        ensures run[k] == Pos(row + k * d.dr, col + k * d.dc)
      {
        if k > 0 {
          assert run[k] == rest[k - 1];
          assert (k - 1) * d.dr + d.dr == k * d.dr;
          assert (k - 1) * d.dc + d.dc == k * d.dc;
        }
      }
      assert (|rest| + 1) * d.dr == |rest| * d.dr + d.dr;
      assert (|rest| + 1) * d.dc == |rest| * d.dc + d.dc;
    }
  }

  /** A run captured in direction `d` is a stretch of opponent squares
      starting next to `m`, one step along `d` after another ... */
  lemma CaptureSquares(g: Grid, p: Cell, o: Cell, m: Pos, d: Step)
    ensures var run := Capture(g, p, o, m, d);
      forall k :: 0 <= k < |run| ==>
        run[k] == Pos(m.row + (k + 1) * d.dr, m.col + (k + 1) * d.dc) &&
        At(g, run[k].row, run[k].col) == Some(o)
  {
    var row, col := m.row + d.dr, m.col + d.dc;
    WalkFacts(g, o, row, col, d);
    WalkShape(g, o, row, col, d);
    var run := Capture(g, p, o, m, d);
    forall k | 0 <= k < |run|
      ensures run[k] == Pos(m.row + (k + 1) * d.dr, m.col + (k + 1) * d.dc)
      ensures At(g, run[k].row, run[k].col) == Some(o)
    {
      assert run[k] in Walk(g, o, row, col, d);
      assert row + k * d.dr == m.row + (k + 1) * d.dr;
      assert col + k * d.dc == m.col + (k + 1) * d.dc;
    }
  }

  /** ... closed by a piece of the player on the square just past it ... */
  lemma CaptureClosed(g: Grid, p: Cell, o: Cell, m: Pos, d: Step)
    ensures var run := Capture(g, p, o, m, d);
      |run| > 0 ==> At(g, m.row + (|run| + 1) * d.dr, m.col + (|run| + 1) * d.dc) == Some(p)
  {
    var row, col := m.row + d.dr, m.col + d.dc;
    WalkShape(g, o, row, col, d);
    var run := Capture(g, p, o, m, d);
    if |run| > 0 {
      var n := |run|;
      assert row + n * d.dr == m.row + (n + 1) * d.dr;
      assert col + n * d.dc == m.col + (n + 1) * d.dc;
    }
  }

  /** ... and the scan from a square of the board meets at most 7 squares. */
  lemma ScanBound(g: Grid, o: Cell, m: Pos, d: Step)
    requires OnBoard(m.row, m.col)
    ensures |Walk(g, o, m.row + d.dr, m.col + d.dc, d)| <= 7
  {
    WalkFacts(g, o, m.row + d.dr, m.col + d.dc, d);
  }

  /** Squares past the longest run form no group. */
  lemma {:induction false} ColumnBeyond(runs: seq<seq<Pos>>, k: nat)
    requires k >= Longest(runs)
    ensures Column(runs, k) == []
  {
    if runs != [] {
      ColumnBeyond(runs[..|runs| - 1], k);
    }
  }

  /** Appending a run to the list merges its squares into the groups exactly
      as the inner loop of `flipped` does. */
  lemma ZipSnoc(runs: seq<seq<Pos>>, r: seq<Pos>)
    ensures Zip(runs + [r]) == Merge(Zip(runs), r, |r|)
  {
    var all := runs + [r];
    assert all[..|all| - 1] == runs;
    var z, m := Zip(all), Merge(Zip(runs), r, |r|);
    assert |z| == |m|;
    forall k | 0 <= k < |z|
      ensures z[k] == m[k]
    {
      if k >= Longest(runs) {
        ColumnBeyond(runs, k);
      }
    }
  }

  /** Merging none of a run's squares changes no group. */
  lemma MergeNothing(groups: seq<seq<Pos>>, run: seq<Pos>)
    ensures Merge(groups, run, 0) == groups
  {
    var m := Merge(groups, run, 0);
    assert |m| == |groups|;
    forall k | 0 <= k < |m|
      ensures m[k] == groups[k]
    {
      assert groups[k] + [] == groups[k];
    }
  }

  /** One pass of the inner `for` loop of `flipped`: open group j when it
      does not exist yet, then push square j of the run onto it. */
  lemma MergeStep(groups: seq<seq<Pos>>, run: seq<Pos>, j: nat)
    requires j < |run|
    ensures var m := Merge(groups, run, j);
      var grown := if j == |m| then m + [[]] else m;
      j < |grown| && grown[j := grown[j] + [run[j]]] == Merge(groups, run, j + 1)
  {
    var m := Merge(groups, run, j);
    var grown := if j == |m| then m + [[]] else m;
    var next := Merge(groups, run, j + 1);
    var stepped := grown[j := grown[j] + [run[j]]];
    assert |stepped| == |next|;
    forall k | 0 <= k < |next|
      ensures stepped[k] == next[k]
    {
      if k == j && j >= |groups| {
        assert grown[j] == [];
      }
    }
  }

  /** Square (r, c) of the snapshot is square r*8+c of the board. */
  lemma RowsAt(g: Grid)
    ensures |Rows(g)| == 8
    ensures forall r :: 0 <= r < 8 ==> |Rows(g)[r]| == 8
    ensures forall r, c :: 0 <= r < 8 && 0 <= c < 8 ==> Rows(g)[r][c] == g[Index(r, c)]
  {
  }

  /** Group k holds one square of every run longer than k, so no group is empty. */
  lemma {:induction false} ColumnSize(runs: seq<seq<Pos>>, k: nat)
    ensures k < Longest(runs) ==> |Column(runs, k)| > 0
    ensures |Column(runs, k + 1)| <= |Column(runs, k)|
  {
    if runs != [] {
      ColumnSize(runs[..|runs| - 1], k);
    }
  }

  /** No group is empty and the groups shrink with distance. */
  lemma ZipGroupSizes(runs: seq<seq<Pos>>)
    ensures forall k :: 0 <= k < |Zip(runs)| ==> |Zip(runs)[k]| > 0
    ensures forall k :: 0 <= k < |Zip(runs)| - 1 ==> |Zip(runs)[k + 1]| <= |Zip(runs)[k]|
  {
    forall k | 0 <= k < |Zip(runs)|
      ensures |Zip(runs)[k]| > 0
      ensures k < |Zip(runs)| - 1 ==> |Zip(runs)[k + 1]| <= |Zip(runs)[k]|
    {
      ColumnSize(runs, k);
    }
  }

  /** A square is in group k exactly when it is the (k+1)-th square of some run. */
  lemma {:induction false} ColumnMembers(runs: seq<seq<Pos>>, k: nat, q: Pos)
    ensures q in Column(runs, k) <==> exists i :: 0 <= i < |runs| && k < |runs[i]| && runs[i][k] == q
  {
    if q in Column(runs, k) {
      var i := ColumnWitness(runs, k, q);
    }
    if exists i :: 0 <= i < |runs| && k < |runs[i]| && runs[i][k] == q {
      var i :| 0 <= i < |runs| && k < |runs[i]| && runs[i][k] == q;
      ColumnHas(runs, k, i);
    }
  }

  /** A square of group k is the (k+1)-th square of run i. */
  lemma {:induction false} ColumnWitness(runs: seq<seq<Pos>>, k: nat, q: Pos) returns (i: nat)
    requires q in Column(runs, k)
    ensures i < |runs| && k < |runs[i]| && runs[i][k] == q
  {
    var init, last := runs[..|runs| - 1], |runs| - 1;
    assert Column(runs, k) == Column(init, k) + (if k < |runs[last]| then [runs[last][k]] else []);
    if q in Column(init, k) {
      i := ColumnWitness(init, k, q);
      assert runs[i] == init[i];
    } else {
      i := last;
    }
  }

  /** The (k+1)-th square of run i is in group k. */
  lemma {:induction false} ColumnHas(runs: seq<seq<Pos>>, k: nat, i: nat)
    requires i < |runs| && k < |runs[i]|
    ensures runs[i][k] in Column(runs, k)
  {
    var init, last := runs[..|runs| - 1], |runs| - 1;
    assert Column(runs, k) == Column(init, k) + (if k < |runs[last]| then [runs[last][k]] else []);
    if i < last {
      assert init[i] == runs[i];
      ColumnHas(init, k, i);
    }
  }

  lemma {:induction false} LongestBound(runs: seq<seq<Pos>>, i: nat)
    requires i < |runs|
    ensures |runs[i]| <= Longest(runs)
  {
    if i < |runs| - 1 {
      LongestBound(runs[..|runs| - 1], i);
    }
  }

  /** The groups hold exactly the squares of the runs. */
  lemma ZipMembers(runs: seq<seq<Pos>>, q: Pos)
    ensures InGroups(Zip(runs), q) <==> exists i :: 0 <= i < |runs| && q in runs[i]
  {
    var z := Zip(runs);
    if InGroups(z, q) {
      var k :| 0 <= k < |z| && q in z[k];
      ColumnMembers(runs, k, q);
    }
    if exists i :: 0 <= i < |runs| && q in runs[i] {
      var i :| 0 <= i < |runs| && q in runs[i];
      var k :| 0 <= k < |runs[i]| && runs[i][k] == q;
      LongestBound(runs, i);
      ColumnMembers(runs, k, q);
      assert q in z[k];
    }
  }

  /** The sizes of the first n groups. */
  function Area(runs: seq<seq<Pos>>, n: nat): nat {
    if n == 0 then 0 else Area(runs, n - 1) + |Column(runs, n - 1)|
  }

  lemma {:induction false} AreaSnoc(runs: seq<seq<Pos>>, r: seq<Pos>, n: nat)
    ensures Area(runs + [r], n) == Area(runs, n) + Min(n, |r|)
  {
    if n > 0 {
      AreaSnoc(runs, r, n - 1);
      assert (runs + [r])[..|runs|] == runs;
    }
  }

  lemma {:induction false} AreaTotal(runs: seq<seq<Pos>>, n: nat)
    requires n >= Longest(runs)
    ensures Area(runs, n) == Total(runs)
  {
    if runs == [] {
      assert forall k :: Column(runs, k) == [];
      AreaEmpty(n);
    } else {
      var init, r := runs[..|runs| - 1], runs[|runs| - 1];
      assert runs == init + [r];
      AreaTotal(init, n);
      AreaSnoc(init, r, n);
    }
  }

  lemma {:induction false} AreaEmpty(n: nat)
    ensures Area([], n) == 0
  {
    if n > 0 {
      AreaEmpty(n - 1);
    }
  }

  lemma {:induction false} TotalPrefix(groups: seq<seq<Pos>>, n: nat)
    requires n < |groups|
    ensures Total(groups[..n + 1]) == Total(groups[..n]) + |groups[n]|
  {
    assert groups[..n + 1][..n] == groups[..n];
  }

  lemma {:induction false} ZipArea(runs: seq<seq<Pos>>, n: nat)
    requires n <= Longest(runs)
    ensures Total(Zip(runs)[..n]) == Area(runs, n)
  {
    if n > 0 {
      ZipArea(runs, n - 1);
      TotalPrefix(Zip(runs), n - 1);
    }
  }

  /** The groups hold as many squares as the runs together. */
  lemma ZipTotal(runs: seq<seq<Pos>>)
    ensures Total(Zip(runs)) == Total(runs)
  {
    ZipArea(runs, Longest(runs));
    assert Zip(runs)[..Longest(runs)] == Zip(runs);
    AreaTotal(runs, Longest(runs));
  }

  /** Every square that a move flips held an opponent piece, so it is on the board. */
  lemma FlipsHeldOpponent(g: Grid, p: Cell, o: Cell, m: Pos, q: Pos)
    requires InGroups(Flips(g, p, o, m), q)
    ensures At(g, q.row, q.col) == Some(o)
    ensures OnBoard(q.row, q.col)
  {
    var runs := Runs(g, p, o, m);
    ZipMembers(runs, q);
    var i :| 0 <= i < |runs| && q in runs[i];
    var k :| 0 <= k < |runs[i]| && runs[i][k] == q;
    CaptureSquares(g, p, o, m, Table[i]);
  }

  /** The move list holds exactly the legal squares, each once, in row-major order. */
  lemma {:induction false} LegalUpToFacts(g: Grid, p: Cell, o: Cell, n: nat)
    requires n <= 64
    ensures forall q :: q in LegalUpTo(g, p, o, n) <==>
      OnBoard(q.row, q.col) && Index(q.row, q.col) < n && IsLegal(g, p, o, q)
    ensures forall i, j :: 0 <= i < j < |LegalUpTo(g, p, o, n)| ==>
      Index(LegalUpTo(g, p, o, n)[i].row, LegalUpTo(g, p, o, n)[i].col) <
      Index(LegalUpTo(g, p, o, n)[j].row, LegalUpTo(g, p, o, n)[j].col)
  {
    if n > 0 {
      LegalUpToFacts(g, p, o, n - 1);
      PosOfRoundTrip(n - 1);
      forall q: Pos | OnBoard(q.row, q.col) && Index(q.row, q.col) == n - 1
        ensures q == PosOf(n - 1)
      {
        IndexRoundTrip(q.row, q.col);
      }
    }
  }

  /** `moves()` lists exactly the legal squares, each once, in row-major order. */
  lemma LegalMovesFacts(g: Grid, p: Cell, o: Cell)
    ensures forall q :: q in LegalMoves(g, p, o) <==> OnBoard(q.row, q.col) && IsLegal(g, p, o, q)
    ensures forall i, j :: 0 <= i < j < |LegalMoves(g, p, o)| ==>
      Index(LegalMoves(g, p, o)[i].row, LegalMoves(g, p, o)[i].col) <
      Index(LegalMoves(g, p, o)[j].row, LegalMoves(g, p, o)[j].col)
  {
    LegalUpToFacts(g, p, o, 64);
    forall q: Pos | OnBoard(q.row, q.col)
      ensures Index(q.row, q.col) < 64
    {
      IndexRoundTrip(q.row, q.col);
    }
  }

  lemma {:induction false} CountUpToBound(g: Grid, c: Cell, n: nat)
    requires n <= 64
    ensures CountUpTo(g, c, n) <= n
  {
    if n > 0 {
      CountUpToBound(g, c, n - 1);
    }
  }

  /** A legal move fills one empty square and empties none, so the number of
      empty squares drops by exactly one. */
  lemma {:induction false} CountDrops(g: Grid, h: Grid, k: nat, n: nat)
    requires k < 64 && n <= 64
    requires g[k] == Empty && h[k] != Empty
    requires forall i :: 0 <= i < 64 && i != k ==> (h[i] == Empty <==> g[i] == Empty)
    ensures CountUpTo(h, Empty, n) == CountUpTo(g, Empty, n) - (if k < n then 1 else 0)
  {
    if n > 0 {
      CountDrops(g, h, k, n - 1);
      if k < n - 1 {
        CountUpToPositive(g, k, n - 1);
      }
    }
  }

  lemma {:induction false} CountUpToPositive(g: Grid, k: nat, n: nat)
    requires k < n <= 64 && g[k] == Empty
    ensures CountUpTo(g, Empty, n) >= 1
  {
    if k < n - 1 {
      CountUpToPositive(g, k, n - 1);
    }
  }

  /** Playing a legal move: the played square and every flipped square now
      hold the player, the flipped squares held the opponent, every other
      square is unchanged, and one empty square fewer remains. */
  lemma PlacedFacts(g: Grid, p: Cell, o: Cell, m: Pos)
    requires p != o && IsPiece(p) && IsPiece(o)
    requires IsLegal(g, p, o, m)
    ensures var h := Placed(g, p, m, Flips(g, p, o, m));
      forall i :: 0 <= i < 64 ==>
        (h[i] != g[i] ==> (PosOf(i) == m && g[i] == Empty) || g[i] == o)
    ensures Count(Placed(g, p, m, Flips(g, p, o, m)), Empty) == Count(g, Empty) - 1
  {
    var groups := Flips(g, p, o, m);
    var h := Placed(g, p, m, groups);
    var k := Index(m.row, m.col);
    forall q | InGroups(groups, q)
      ensures At(g, q.row, q.col) == Some(o)
    {
      FlipsHeldOpponent(g, p, o, m, q);
    }
    forall i | 0 <= i < 64
      ensures h[i] != g[i] ==> (PosOf(i) == m && g[i] == Empty) || g[i] == o
      ensures i != k ==> (h[i] == Empty <==> g[i] == Empty)
    {
      PlacedSquare(g, p, o, m, groups, i);
    }
    CountDrops(g, h, k, 64);
  }

  /** `PlacedFacts` for one square i, given that the grouped squares held
      the opponent. */
  lemma PlacedSquare(g: Grid, p: Cell, o: Cell, m: Pos, groups: seq<seq<Pos>>, i: int)
    requires IsPiece(p) && IsPiece(o) && At(g, m.row, m.col) == Some(Empty) && 0 <= i < 64
    requires InGroups(groups, PosOf(i)) ==> At(g, PosOf(i).row, PosOf(i).col) == Some(o)
    ensures var h := Placed(g, p, m, groups);
      && (h[i] != g[i] ==> (PosOf(i) == m && g[i] == Empty) || g[i] == o)
      && (i != Index(m.row, m.col) ==> (h[i] == Empty <==> g[i] == Empty))
  {
    IndexRoundTrip(m.row, m.col);
    PosOfRoundTrip(i);
  }

  /** `reset()` leaves exactly four pieces: the player to move on (3,4) and
      (4,3), the other on (3,3) and (4,4). */
  lemma StartGridFacts()
    ensures forall r, c :: OnBoard(r, c) ==>
      At(StartGrid, r, c) == Some(
        if (r, c) == (3, 4) || (r, c) == (4, 3) then Slime
        else if (r, c) == (3, 3) || (r, c) == (4, 4) then Bean
        else Empty)
    ensures Count(StartGrid, Empty) == 60
    ensures Count(StartGrid, Slime) == 2 && Count(StartGrid, Bean) == 2
  {
    forall r, c | OnBoard(r, c)
      ensures At(StartGrid, r, c) == Some(
        if (r, c) == (3, 4) || (r, c) == (4, 3) then Slime
        else if (r, c) == (3, 3) || (r, c) == (4, 4) then Bean
        else Empty)
    {
      IndexRoundTrip(r, c);
    }
    StartCounts();
  }

  lemma StartCounts()
    ensures Count(StartGrid, Empty) == 60
    ensures Count(StartGrid, Slime) == 2 && Count(StartGrid, Bean) == 2
  {
    StartCountsUpTo(64);
  }

  /** 1 when index k is among the first n squares, else 0. */
  function Among(k: int, n: nat): nat {
    if k < n then 1 else 0
  }

  lemma {:induction false} StartCountsUpTo(n: nat)
    requires n <= 64
    ensures CountUpTo(StartGrid, Slime, n) == Among(28, n) + Among(35, n)
    ensures CountUpTo(StartGrid, Bean, n) == Among(27, n) + Among(36, n)
    ensures CountUpTo(StartGrid, Empty, n) == n - Among(27, n) - Among(28, n) - Among(35, n) - Among(36, n)
  {
    if n > 0 {
      StartCountsUpTo(n - 1);
    }
  }
}
