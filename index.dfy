/** The turn policy of the page (src/index.js): one shared game, a `started`
    flag, the hole toggle and move gate of the `move` events, and the
    `start` loop that passes a turn when the player to move has no move and
    ends the game when neither player has one. Drawing, animation and the
    dropdowns are not modelled; a player is a function from what it is
    handed to the move it answers with. */
module Controller {
  import opened Cells
  import opened Rules
  import opened GameEngine

  /** A player's `move({ moves, board, events })`: given the identity of
      the player to move, the legal moves and the 8x8 board, the move it
      answers with (`None` for `undefined`). */
  type Chooser = (Cell, seq<Pos>, seq<seq<Cell>>) -> Option<Pos>

  /** The square a toggle before the start leaves: EMPTY and HOLE swap,
      anything else stays. */
  function Toggled(c: Cell): Cell {
    match c
    case Empty => Hole
    case Hole => Empty
    case _ => c
  }

  /** The board after a click on (row, col) before the start. A click off
      the board changes nothing, since `get` answers `undefined` there. */
  function Toggle(g: Grid, row: int, col: int): Grid {
    if OnBoard(row, col) then g[Index(row, col) := Toggled(g[Index(row, col)])] else g
  }

  /** How one pass of the `start` loop ends. */
  datatype Status = Playing | Over | Invalid(move: Option<Pos>)

  /** The game after one pass of the loop: the squares, the player to move
      and the other player, and how the pass ended. */
  datatype Turn = Turn(board: Grid, player: Cell, opponent: Cell, status: Status)

  /** One pass of the `start` loop from squares `g` with `p` to move. When
      `p` has no move the turn passes to `o`; when `o` has none either the
      game is over. Otherwise the player to move is asked for a move, which
      is played when it is valid and raises an error otherwise. */
  function Step(g: Grid, p: Cell, o: Cell, choose: Chooser): Turn {
    if LegalMoves(g, p, o) == [] && LegalMoves(g, o, p) == [] then Turn(g, o, p, Over)
    else
      var mover := if LegalMoves(g, p, o) == [] then o else p;
      var other := if LegalMoves(g, p, o) == [] then p else o;
      var move := choose(mover, LegalMoves(g, mover, other), Rows(g));
      if CanPlay(g, mover, other, move) then
        Turn(Placed(g, mover, move.value, Flips(g, mover, other, move.value)), other, mover, Playing)
      else Turn(g, mover, other, Invalid(move))
  }

  /** `turns` is a run of the `start` loop from squares `g` with `p` to move:
      each turn is `Step` of the one before it, the first `Step` of the
      starting position. */
  ghost predicate Chain(g: Grid, p: Cell, o: Cell, choose: Chooser, turns: seq<Turn>)
    decreases |turns|
  {
    if turns == [] then true
    else
      var n := |turns| - 1;
      && Chain(g, p, o, choose, turns[..n])
      && turns[n] == (if n == 0 then Step(g, p, o, choose)
                      else Step(turns[n - 1].board, turns[n - 1].player, turns[n - 1].opponent, choose))
  }

  /** How a game run by `start` ends: `Finished` with the last squares and
      players, or `Thrown` with the squares, players and the invalid move
      that raised the error. */
  datatype Ending =
    | Finished(board: Grid, player: Cell, opponent: Cell)
    | Thrown(board: Grid, player: Cell, opponent: Cell, move: Option<Pos>)

  class Session {
    const game: Game
    var started: bool

    ghost predicate Valid()
      reads this, game
    {
      game.Invariant()
    }

    /** Page load: a new game, then `reset()`. */
    constructor ()
      ensures Valid() && !started && fresh(game) && fresh(game.arr)
      ensures game.Squares() == StartGrid && game.player == Slime && game.opponent == Bean
    {
      game := new Game();
      started := false;
    }

    /** `reset()`: back to the starting board with holes editable again. */
    method Reset()
      requires Valid()
      modifies this, game
      ensures Valid() && !started && fresh(game.arr)
      ensures game.Squares() == StartGrid && game.player == Slime && game.opponent == Bean
    {
      started := false;
      game.Reset();
    }

    /** `input(event)` for a click on (row, col). Before the start the click
        toggles a hole and the event goes on; after it the board is left
        alone and the event goes on exactly when the move is valid. */
    method Input(row: int, col: int) returns (forwarded: bool)
      requires Valid()
      modifies game.arr
      ensures Valid() && game.player == old(game.player) && game.opponent == old(game.opponent)
      ensures !started ==> forwarded && game.Squares() == Toggle(old(game.Squares()), row, col)
      ensures started ==> game.Squares() == old(game.Squares())
      ensures started ==> (forwarded <==> CanPlay(game.Squares(), game.player, game.opponent, Some(Pos(row, col))))
    {
      forwarded := true;
      if !started {
        var c := game.Get(row, col);
        if c == Some(Empty) {
          game.Set(row, col, Hole);
        } else if c == Some(Hole) {
          game.Set(row, col, Empty);
        }
      } else {
        var ok := game.Valid(Some(Pos(row, col)));
        if !ok {
          forwarded := false;
        }
      }
    }

    /** The body of the `start` loop. */
    method Play(choose: Chooser) returns (status: Status)
      requires Valid()
      modifies game, game.arr
      ensures Valid() && game.arr == old(game.arr)
      ensures Turn(game.Squares(), game.player, game.opponent, status) ==
        Step(old(game.Squares()), old(game.player), old(game.opponent), choose)
    {
      var moves := game.Moves();
      if moves == [] {
        var _ := game.Move(None);
        moves := game.Moves();
        if moves == [] {
          return Over;
        }
      }
      var board := game.Board();
      var move := choose(game.player, moves, board);
      var ok := game.Valid(move);
      if !ok {
        return Invalid(move);
      }
      var _ := game.Move(move);
      status := Playing;
    }

    /** `start.onclick`: ignored once started; otherwise turns are played
        until the game is over, after which the page resets, or until a
        player answers with an invalid move, which leaves the game stopped
        as it was. */
    method Start(choose: Chooser) returns (ending: Option<Ending>, ghost turns: seq<Turn>)
      requires Valid()
      modifies this, game, game.arr
      ensures Valid()
      ensures old(started) ==> ending == None && turns == [] && started && game.arr == old(game.arr)
      ensures old(started) ==> game.Squares() == old(game.Squares())
      ensures old(started) ==> game.player == old(game.player) && game.opponent == old(game.opponent)
      ensures !old(started) ==> ending.Some? && turns != []
      ensures !old(started) ==>
        && Chain(old(game.Squares()), old(game.player), old(game.opponent), choose, turns)
        && (forall i :: 0 <= i < |turns| - 1 ==> turns[i].status == Playing)
      ensures ending.Some? && ending.value.Finished? ==>
        var e, t := ending.value, turns[|turns| - 1];
        && t.status == Over && e.board == t.board && e.player == t.player && e.opponent == t.opponent
        && LegalMoves(e.board, e.player, e.opponent) == []
        && LegalMoves(e.board, e.opponent, e.player) == []
        && !started && game.Squares() == StartGrid && game.player == Slime && game.opponent == Bean
      ensures ending.Some? && ending.value.Thrown? ==>
        var e, t := ending.value, turns[|turns| - 1];
        && t == Turn(e.board, e.player, e.opponent, Invalid(e.move))
        && started && game.Squares() == e.board && game.player == e.player && game.opponent == e.opponent
        && !CanPlay(e.board, e.player, e.opponent, e.move)
    {
      turns := [];
      if started {
        return None, turns;
      }
      started := true;
      ghost var g0, p0, o0 := game.Squares(), game.player, game.opponent;
      while true
        invariant Valid() && started && game.arr == old(game.arr)
        invariant g0 == old(game.Squares()) && p0 == old(game.player) && o0 == old(game.opponent)
        invariant Chain(g0, p0, o0, choose, turns)
        invariant forall i :: 0 <= i < |turns| ==> turns[i].status == Playing
        invariant turns == [] ==> game.Squares() == g0 && game.player == p0 && game.opponent == o0
        invariant turns != [] ==>
          var t := turns[|turns| - 1];
          game.Squares() == t.board && game.player == t.player && game.opponent == t.opponent
        decreases Count(game.Squares(), Empty)
      {
        ghost var g, p, o := game.Squares(), game.player, game.opponent;
        var status := Play(choose);
        ghost var t := Turn(game.Squares(), game.player, game.opponent, status);
        ChainSnoc(g0, p0, o0, choose, turns, g, p, o, t);
        turns := turns + [t];
        match status {
          case Over =>
            OverFacts(g, p, o, choose);
            ending := Some(Finished(game.Squares(), game.player, game.opponent));
            Reset();
            return;
          case Invalid(move) =>
            InvalidFacts(g, p, o, choose);
            ending := Some(Thrown(game.Squares(), game.player, game.opponent, move));
            return;
          case Playing =>
            PlayingFacts(g, p, o, choose);
        }
      }
    }
  }

  // ---------------------------------------------------------------------
  // Lemmas
  // ---------------------------------------------------------------------

  /** A run extended by the `Step` of its last position is still a run. */
  lemma ChainSnoc(g0: Grid, p0: Cell, o0: Cell, choose: Chooser, turns: seq<Turn>,
                  g: Grid, p: Cell, o: Cell, t: Turn)
    requires Chain(g0, p0, o0, choose, turns)
    requires turns == [] ==> g == g0 && p == p0 && o == o0
    requires turns != [] ==>
      var last := turns[|turns| - 1];
      g == last.board && p == last.player && o == last.opponent
    requires t == Step(g, p, o, choose)
    ensures Chain(g0, p0, o0, choose, turns + [t])
  {
    var n, run := |turns|, turns + [t];
    assert run[..n] == turns && run[n] == t;
    if n > 0 {
      assert run[n - 1] == turns[n - 1];
    }
  }

  /** Clicking the same square twice before the start restores the board. */
  lemma ToggleTwice(g: Grid, row: int, col: int)
    ensures Toggle(Toggle(g, row, col), row, col) == g
  {
    if OnBoard(row, col) {
      IndexRoundTrip(row, col);
      var k := Index(row, col);
      assert Toggled(Toggled(g[k])) == g[k];
    }
  }

  /** A click before the start swaps EMPTY and HOLE on its own square,
      leaves pieces where they are, and changes no other square. */
  lemma ToggleSquares(g: Grid, row: int, col: int, r: int, c: int)
    requires OnBoard(r, c)
    ensures var h := Toggle(g, row, col);
      && (r == row && c == col ==>
          (At(g, r, c) == Some(Empty) <==> At(h, r, c) == Some(Hole)) &&
          (At(g, r, c) == Some(Hole) <==> At(h, r, c) == Some(Empty)))
      && (IsPiece(At(g, r, c).value) ==> At(h, r, c) == At(g, r, c))
      && (r != row || c != col ==> At(h, r, c) == At(g, r, c))
  {
    IndexRoundTrip(r, c);
    if OnBoard(row, col) {
      IndexRoundTrip(row, col);
    }
  }

  /** The game is over exactly when neither player has a move; the board is
      then left as it was. */
  lemma OverFacts(g: Grid, p: Cell, o: Cell, choose: Chooser)
    ensures var t := Step(g, p, o, choose);
      t.status == Over <==> LegalMoves(g, p, o) == [] && LegalMoves(g, o, p) == []
    ensures var t := Step(g, p, o, choose);
      t.status == Over ==> (t.board == g &&
        LegalMoves(t.board, t.player, t.opponent) == [] && LegalMoves(t.board, t.opponent, t.player) == [])
  {
  }

  /** An invalid answer stops the game before `move`: the board is the one
      the player was shown, the player who answered is still to move (`p`
      itself unless `p` had no move and passed), and the move fails `valid`
      there. */
  lemma InvalidFacts(g: Grid, p: Cell, o: Cell, choose: Chooser)
    ensures var t := Step(g, p, o, choose);
      t.status.Invalid? ==> (t.board == g && {t.player, t.opponent} == {p, o} &&
        !CanPlay(t.board, t.player, t.opponent, t.status.move))
    ensures var t := Step(g, p, o, choose);
      t.status.Invalid? && LegalMoves(g, p, o) != [] ==> t.player == p
  {
  }

  /** When the player to move has no move the turn passes: the move played
      or rejected is the other player's, asked about the other player's own
      legal moves. */
  lemma PassFacts(g: Grid, p: Cell, o: Cell, choose: Chooser)
    requires LegalMoves(g, p, o) == [] && LegalMoves(g, o, p) != []
    ensures var t := Step(g, p, o, choose);
      var move := choose(o, LegalMoves(g, o, p), Rows(g));
      && (t.status == Playing ==> t.player == p && CanPlay(g, o, p, move))
      && (t.status.Invalid? ==> t.player == o && t.status.move == move)
  {
  }

  /** A played turn hands the move to the other player and fills exactly
      one empty square, so the `start` loop cannot run forever. */
  lemma PlayingFacts(g: Grid, p: Cell, o: Cell, choose: Chooser)
    requires IsPiece(p) && IsPiece(o) && p != o
    ensures var t := Step(g, p, o, choose);
      t.status == Playing ==> ({t.player, t.opponent} == {p, o} &&
        Count(t.board, Empty) == Count(g, Empty) - 1)
  {
    var t := Step(g, p, o, choose);
    if t.status == Playing {
      var mover := if LegalMoves(g, p, o) == [] then o else p;
      var other := if LegalMoves(g, p, o) == [] then p else o;
      var move := choose(mover, LegalMoves(g, mover, other), Rows(g));
      PlacedFacts(g, mover, other, move.value);
    }
  }
}
