/** The fixed-depth engine player (src/players/minimax.js): scan the board
    into three masks, ask the worker once, and decode its answer. */
module Minimax {
  import opened Cells
  import opened Encoding

  /** The one depth this player asks for. */
  const DEPTH: nat := 5

  /** The nested scan: every square shifts the three masks left and sets the
      low bit of the mask it belongs to. The inner loop is `ScanRow`. */
  method Scan(board: seq<seq<Cell>>, id: Cell) returns (player: nat, opponent: nat, holes: nat)
    requires Square(board)
    ensures Masks(player, opponent, holes) == Encode(Flat(board), id)
  {
    player, opponent, holes := 0, 0, 0;
    for row := 0 to 8
      invariant Masks(player, opponent, holes) == Encode(Flat(board)[..row * 8], id)
    {
      player, opponent, holes := ScanRow(board, id, row, player, opponent, holes);
    }
    assert Flat(board)[..64] == Flat(board);
  }

  /** The inner loop of the scan, over the eight squares of `row`. */
  method ScanRow(board: seq<seq<Cell>>, id: Cell, row: nat, player: nat, opponent: nat, holes: nat)
    returns (player': nat, opponent': nat, holes': nat)
    requires Square(board) && row < 8
    requires Masks(player, opponent, holes) == Encode(Flat(board)[..row * 8], id)
    ensures Masks(player', opponent', holes') == Encode(Flat(board)[..row * 8 + 8], id)
  {
    ghost var s := Flat(board);
    player', opponent', holes' := player, opponent, holes;
    for col := 0 to 8
      invariant Masks(player', opponent', holes') == Encode(s[..row * 8 + col], id)
    {
      ScanStep(board, s, row, col);
      EncodeNext(s, id, row * 8 + col);
      player', opponent', holes' := Shift(player', opponent', holes', board[row][col], id);
    }
  }

  /** The body of the scan for one square: shift the three masks left and
      set the low bit of the one the square belongs to. */
  method Shift(player: nat, opponent: nat, holes: nat, c: Cell, id: Cell)
    returns (player': nat, opponent': nat, holes': nat)
    ensures Masks(player', opponent', holes') == Push(Masks(player, opponent, holes), c, id)
  {
    player', opponent', holes' := player * 2, opponent * 2, holes * 2;
    if c == Empty {
    } else if c == Hole {
      holes' := holes' + 1;
    } else if c == id {
      player' := player' + 1;
    } else {
      opponent' := opponent' + 1;
    }
  }

  /** `move`: one request at depth 5, then the reply decoded. The worker is
      a parameter: `reply` is what it answers to a request. */
  method Move(board: seq<seq<Cell>>, id: Cell, reply: Request -> Option<nat>)
    returns (move: Option<Pos>, sent: seq<Request>)
    requires Square(board)
    ensures var ms := Encode(Flat(board), id);
      sent == [Request(ms.player, ms.opponent, ms.holes, DEPTH)]
    ensures move == Answer(reply(sent[0]))
  {
    var player, opponent, holes := Scan(board, id);
    var request := Request(player, opponent, holes, DEPTH);
    sent := [request];
    var pos := reply(request);
    move := Answer(pos);
  }
}
