/** The array engine (src/game.js): the board as a 64-square array plus the
    identities of the player to move and of the other player. Every method is
    proved against its specification in module Rules. */
module GameEngine {
  import opened Cells
  import opened Directions
  import opened Rules

  class Game {
    var arr: array<Cell>
    var player: Cell
    var opponent: Cell

    /** The board has 64 squares and the two identities are the two players. */
    ghost predicate Invariant()
      reads this
    {
      arr.Length == 64 && IsPiece(player) && IsPiece(opponent) && player != opponent
    }

    /** The board as a value. */
    function Squares(): Grid
      reads this, arr
      requires Invariant()
    {
      arr[..]
    }

    constructor ()
      ensures Invariant() && fresh(arr)
      ensures Squares() == StartGrid && player == Slime && opponent == Bean
    {
      arr := new Cell[64](_ => Empty);
      player, opponent := Slime, Bean;
      new;
      Reset();
    }

    /** `get(row, col)`: never fails; `undefined` off the board. */
    function Get(row: int, col: int): (r: Option<Cell>)
      reads this, arr
      requires Invariant()
      ensures r == At(Squares(), row, col)
      ensures r.Some? <==> OnBoard(row, col)
    {
      if 0 <= row && row < 8 && 0 <= col && col < 8 then Some(arr[row * 8 + col]) else None
    }

    /** `set(row, col, id)`. */
    method Set(row: int, col: int, id: Cell)
      requires arr.Length == 64 && OnBoard(row, col)
      modifies arr
      ensures arr[..] == old(arr[..])[Index(row, col) := id]
    {
      arr[row * 8 + col] := id;
    }

    /** `board()`: an 8x8 snapshot of the squares. */
    method Board() returns (board: seq<seq<Cell>>)
      requires Invariant()
      ensures board == Rows(Squares())
    {
      board := [];
      for row := 0 to 8
        invariant board == Rows(Squares())[..row]
      {
        var line := [];
        for col := 0 to 8
          invariant line == Squares()[row * 8 .. row * 8 + col]
        {
          line := line + [Get(row, col).value];
        }
        board := board + [line];
      }
    }

    /** `moves()`: every valid square, scanned row by row. */
    method Moves() returns (moves: seq<Pos>)
      requires Invariant()
      ensures moves == LegalMoves(Squares(), player, opponent)
    {
      moves := [];
      for row := 0 to 8
        invariant moves == LegalUpTo(Squares(), player, opponent, row * 8)
      {
        moves := MovesRow(row, moves);
      }
    }

    /** The inner loop of `moves()`: the valid squares of one row, appended
        to the list of the rows before it. */
    method MovesRow(row: int, before: seq<Pos>) returns (moves: seq<Pos>)
      requires Invariant() && 0 <= row < 8
      requires before == LegalUpTo(Squares(), player, opponent, row * 8)
      ensures moves == LegalUpTo(Squares(), player, opponent, row * 8 + 8)
    {
      moves := before;
      for col := 0 to 8
        invariant moves == LegalUpTo(Squares(), player, opponent, row * 8 + col)
      {
        moves := MovesAt(row, col, moves);
      }
    }

    /** One pass of the inner loop: square (row, col) is appended when it is
        valid. */
    method MovesAt(row: int, col: int, before: seq<Pos>) returns (moves: seq<Pos>)
      requires Invariant() && 0 <= row < 8 && 0 <= col < 8
      requires before == LegalUpTo(Squares(), player, opponent, row * 8 + col)
      ensures moves == LegalUpTo(Squares(), player, opponent, row * 8 + (col + 1))
    {
      var ok := Valid(Some(Pos(row, col)));
      LegalAppend(Squares(), player, opponent, row, col, before, ok);
      moves := if ok then before + [Pos(row, col)] else before;
    }

    /** `move(move)`: play `move` for the player to move (or pass when it is
        undefined), then hand the turn to the other player. */
    method Move(move: Option<Pos>) returns (flipped: seq<seq<Pos>>)
      requires Invariant()
      requires move.Some? ==> OnBoard(move.value.row, move.value.col)
      modifies this, arr
      ensures Invariant() && arr == old(arr)
      ensures player == old(opponent) && opponent == old(player)
      ensures move.None? ==> flipped == [] && Squares() == old(Squares())
      ensures move.Some? ==>
        flipped == Flips(old(Squares()), old(player), old(opponent), move.value) &&
        Squares() == Placed(old(Squares()), old(player), move.value, flipped)
    {
      flipped := [];
      if move.Some? {
        var m := move.value;
        ghost var g := Squares();
        flipped := Flipped(m);
        Set(m.row, m.col, player);
        for gi := 0 to |flipped|
          invariant Invariant() && g == old(Squares()) && arr == old(arr)
          invariant player == old(player) && opponent == old(opponent)
          invariant flipped == Flips(g, player, opponent, m)
          invariant forall i :: 0 <= i < 64 ==>
            arr[i] == if PosOf(i) == m || InGroups(flipped[..gi], PosOf(i)) then player else g[i]
        {
          var group := flipped[gi];
          forall q | q in group
            ensures OnBoard(q.row, q.col)
          {
            assert InGroups(flipped, q) by {
              assert q in flipped[gi];
            }
            FlipsHeldOpponent(g, player, opponent, m, q);
          }
          Claim(group);
          forall i | 0 <= i < 64
            ensures InGroups(flipped[..gi + 1], PosOf(i)) <==>
              InGroups(flipped[..gi], PosOf(i)) || PosOf(i) in group
          {
            InGroupsSnoc(flipped, gi, PosOf(i));
          }
        }
        assert flipped[..|flipped|] == flipped;
        assert arr[..] == Placed(g, player, m, flipped);
      }
      player, opponent := opponent, player;
    }

    /** The inner loop of `move`: every square of `group` becomes the player's. */
    method Claim(group: seq<Pos>)
      requires Invariant()
      requires forall q | q in group :: OnBoard(q.row, q.col)
      modifies arr
      ensures forall i :: 0 <= i < 64 ==>
        arr[i] == if PosOf(i) in group then player else old(arr[i])
    {
      for j := 0 to |group|
        invariant forall i :: 0 <= i < 64 ==>
          arr[i] == if PosOf(i) in group[..j] then player else old(arr[i])
      {
        var q := group[j];
        Set(q.row, q.col, player);
        IndexRoundTrip(q.row, q.col);
        forall i | 0 <= i < 64
          ensures PosOf(i) in group[..j + 1] <==> PosOf(i) in group[..j] || PosOf(i) == q
        {
          assert group[..j + 1] == group[..j] + [q];
        }
        forall i | 0 <= i < 64 && i != Index(q.row, q.col)
          ensures PosOf(i) != q
        {
          PosOfRoundTrip(i);
        }
      }
      assert group[..|group|] == group;
    }

    /** `valid(move)`: the move is defined, its square is empty, and it flips
        something. */
    method Valid(move: Option<Pos>) returns (ok: bool)
      requires Invariant()
      ensures ok == CanPlay(Squares(), player, opponent, move)
    {
      if move == None {
        return false;
      }
      var m := move.value;
      if Get(m.row, m.col) != Some(Empty) {
        return false;
      }
      var flipped := Flipped(m);
      ok := |flipped| > 0;
    }

    /** `flipped(move)`: scan the eight directions in table order, and merge
        each capturing run into groups by distance from `move`. */
    method Flipped(move: Pos) returns (flipped: seq<seq<Pos>>)
      requires Invariant()
      ensures flipped == Flips(Squares(), player, opponent, move)
    {
      flipped := [];
      for i := 0 to |Table|
        invariant flipped == Zip(Runs(Squares(), player, opponent, move)[..i])
      {
        flipped := FlippedAt(move, i, flipped);
      }
      assert Runs(Squares(), player, opponent, move)[..|Table|] == Runs(Squares(), player, opponent, move);
    }

    /** One pass of the loop of `flipped`: scan direction i and merge its run
        when a piece of the player closes it. */
    method FlippedAt(move: Pos, i: int, before: seq<seq<Pos>>) returns (flipped: seq<seq<Pos>>)
      requires Invariant() && 0 <= i < |Table|
      requires before == Zip(Runs(Squares(), player, opponent, move)[..i])
      ensures flipped == Zip(Runs(Squares(), player, opponent, move)[..i + 1])
    {
      ghost var g := Squares();
      ghost var runs := Runs(g, player, opponent, move);
      var d := Table[i];
      var current, row, col := Scan(move, d);
      CaptureEnd(g, player, opponent, move, d, current, row, col);
      ghost var run := runs[i];
      if |current| > 0 && Get(row, col) == Some(player) {
        flipped := Push(before, current);
      } else {
        flipped := before;
        MergeNothing(flipped, run);
      }
      ZipSnoc(runs[..i], run);
      assert runs[..i + 1] == runs[..i] + [run];
    }

    /** The `while` loop of `flipped`: walk from the neighbour of `move` along
        `d` while the squares hold the opponent's pieces. */
    method Scan(move: Pos, d: Step) returns (current: seq<Pos>, row: int, col: int)
      requires Invariant()
      ensures current == Walk(Squares(), opponent, move.row + d.dr, move.col + d.dc, d)
      ensures Pos(row, col) == Stop(Squares(), opponent, move.row + d.dr, move.col + d.dc, d)
      ensures At(Squares(), row, col) != Some(opponent)
    {
      current := [];
      row := move.row + d.dr;
      col := move.col + d.dc;
      ghost var g := Squares();
      while Get(row, col) == Some(opponent)
        invariant Walk(g, opponent, move.row + d.dr, move.col + d.dc, d) ==
          current + Walk(g, opponent, row, col, d)
        invariant Stop(g, opponent, move.row + d.dr, move.col + d.dc, d) ==
          Stop(g, opponent, row, col, d)
        decreases Remaining(row, col, d)
      {
        WalkStep(g, opponent, row, col, d);
        assert current + ([Pos(row, col)] + Walk(g, opponent, row + d.dr, col + d.dc, d)) ==
          (current + [Pos(row, col)]) + Walk(g, opponent, row + d.dr, col + d.dc, d);
        current := current + [Pos(row, col)];
        row := row + d.dr;
        col := col + d.dc;
      }
      assert current + [] == current;
    }

    /** The inner `for` loop of `flipped`: square j of `run` goes onto group j,
        opening that group when it does not exist yet. */
    static method Push(groups: seq<seq<Pos>>, run: seq<Pos>) returns (pushed: seq<seq<Pos>>)
      ensures pushed == Merge(groups, run, |run|)
    {
      pushed := groups;
      MergeNothing(groups, run);
      for j := 0 to |run|
        invariant pushed == Merge(groups, run, j)
      {
        MergeStep(groups, run, j);
        if j == |pushed| {
          pushed := pushed + [[]];
        }
        pushed := pushed[j := pushed[j] + [run[j]]];
      }
    }

    /** `reset()`: an empty board with the four starting pieces, Slime to move. */
    method Reset()
      modifies this
      ensures Invariant() && fresh(arr)
      ensures Squares() == StartGrid && player == Slime && opponent == Bean
    {
      arr := new Cell[64](_ => Empty);
      Set(3, 4, Slime);
      Set(4, 3, Slime);
      Set(3, 3, Bean);
      Set(4, 4, Bean);
      player := Slime;
      opponent := Bean;
      assert arr[..] == StartGrid;
    }
  }

  /** Adding group n to the first n groups adds exactly its squares. */
  lemma InGroupsSnoc(groups: seq<seq<Pos>>, n: nat, q: Pos)
    requires n < |groups|
    ensures InGroups(groups[..n + 1], q) <==> InGroups(groups[..n], q) || q in groups[n]
  {
    if InGroups(groups[..n + 1], q) {
      var k :| 0 <= k < n + 1 && q in groups[..n + 1][k];
      if k < n {
        assert q in groups[..n][k];
      }
    }
    if InGroups(groups[..n], q) {
      var k :| 0 <= k < n && q in groups[..n][k];
      assert q in groups[..n + 1][k];
    }
    if q in groups[n] {
      assert q in groups[..n + 1][n];
    }
  }
}
