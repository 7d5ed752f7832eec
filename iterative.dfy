/** The iterative-deepening engine player (src/players/iterative.js): scan
    the board into three masks while counting the EMPTY squares, then ask
    the worker for depth 0, 1, ... one request at a time until either
    `empty` requests have been answered or the five-second timer fires, and
    decode the latest answer. */
module Iterative {
  import opened Cells
  import opened Encoding

  /** The nested scan, counting the EMPTY squares on the way. The inner
      loop is `ScanRow`. */
  method Scan(board: seq<seq<Cell>>, id: Cell) returns (player: nat, opponent: nat, holes: nat, empty: nat)
    requires Square(board)
    ensures Masks(player, opponent, holes) == Encode(Flat(board), id)
    ensures empty == EmptyCount(Flat(board))
  {
    player, opponent, holes, empty := 0, 0, 0, 0;
    for row := 0 to 8
      invariant Masks(player, opponent, holes) == Encode(Flat(board)[..row * 8], id)
      invariant empty == EmptyCount(Flat(board)[..row * 8])
    {
      player, opponent, holes, empty := ScanRow(board, id, row, player, opponent, holes, empty);
    }
    assert Flat(board)[..64] == Flat(board);
  }

  /** The inner loop of the scan, over the eight squares of `row`. */
  method ScanRow(board: seq<seq<Cell>>, id: Cell, row: nat, player: nat, opponent: nat, holes: nat, empty: nat)
    returns (player': nat, opponent': nat, holes': nat, empty': nat)
    requires Square(board) && row < 8
    requires Masks(player, opponent, holes) == Encode(Flat(board)[..row * 8], id)
    requires empty == EmptyCount(Flat(board)[..row * 8])
    ensures Masks(player', opponent', holes') == Encode(Flat(board)[..row * 8 + 8], id)
    ensures empty' == EmptyCount(Flat(board)[..row * 8 + 8])
  {
    ghost var s := Flat(board);
    player', opponent', holes', empty' := player, opponent, holes, empty;
    for col := 0 to 8
      invariant Masks(player', opponent', holes') == Encode(s[..row * 8 + col], id)
      invariant empty' == EmptyCount(s[..row * 8 + col])
    {
      ScanStep(board, s, row, col);
      EncodeNext(s, id, row * 8 + col);
      EmptyCountNext(s, row * 8 + col);
      player', opponent', holes', empty' := Shift(player', opponent', holes', empty', board[row][col], id);
    }
  }

  /** The body of the scan for one square: shift the three masks left, set
      the low bit of the one the square belongs to, and count it when it is
      EMPTY. */
  method Shift(player: nat, opponent: nat, holes: nat, empty: nat, c: Cell, id: Cell)
    returns (player': nat, opponent': nat, holes': nat, empty': nat)
    ensures Masks(player', opponent', holes') == Push(Masks(player, opponent, holes), c, id)
    ensures empty' == empty + (if c == Empty then 1 else 0)
  {
    player', opponent', holes', empty' := player * 2, opponent * 2, holes * 2, empty;
    if c == Empty {
      empty' := empty' + 1;
    } else if c == Hole {
      holes' := holes' + 1;
    } else if c == id {
      player' := player' + 1;
    } else {
      opponent' := opponent' + 1;
    }
  }

  /** The requests for depths 0 .. n-1, in that order. */
  function Deepening(ms: Masks, n: nat): (r: seq<Request>)
    ensures |r| == n
    ensures forall d :: 0 <= d < n ==> r[d] == Request(ms.player, ms.opponent, ms.holes, d)
  {
    if n == 0 then [] else Deepening(ms, n - 1) + [Request(ms.player, ms.opponent, ms.holes, n - 1)]
  }

  /** The `search` loop. The timer is a parameter: `answered` is how many
      answers arrive before it fires. Each depth posts its request before
      awaiting the answer, so when the timer wins one more request has gone
      out than was answered. `pos` is the latest answer, or `undefined` when
      none arrived. */
  method Search(ms: Masks, empty: nat, answered: nat, reply: Request -> Option<nat>)
    returns (pos: Option<nat>, sent: seq<Request>)
    ensures |sent| == if empty <= answered then empty else answered + 1
    ensures forall d :: 0 <= d < |sent| ==> sent[d] == Request(ms.player, ms.opponent, ms.holes, d)
    ensures var got := if empty < answered then empty else answered;
      pos == if got == 0 then None else reply(sent[got - 1])
  {
    pos, sent := None, [];
    var depth := 0;
    while depth < empty
      invariant depth <= empty && depth <= answered
      invariant sent == Deepening(ms, depth)
      invariant pos == if depth == 0 then None else reply(sent[depth - 1])
    {
      var request := Request(ms.player, ms.opponent, ms.holes, depth);
      sent := sent + [request];
      if depth == answered {
        break;
      }
      pos := reply(request);
      depth := depth + 1;
    }
  }

  /** `move`: scan, deepen, decode. */
  method Move(board: seq<seq<Cell>>, id: Cell, answered: nat, reply: Request -> Option<nat>)
    returns (move: Option<Pos>, sent: seq<Request>)
    requires Square(board)
    ensures var ms := Encode(Flat(board), id); var n := EmptyCount(Flat(board));
      var got := if n < answered then n else answered;
      && |sent| == (if n <= answered then n else answered + 1)
      && (forall d :: 0 <= d < |sent| ==> sent[d] == Request(ms.player, ms.opponent, ms.holes, d))
      && move == (if got == 0 then None else Answer(reply(sent[got - 1])))
  {
    var player, opponent, holes, empty := Scan(board, id);
    var pos;
    pos, sent := Search(Masks(player, opponent, holes), empty, answered, reply);
    move := Answer(pos);
  }
}
