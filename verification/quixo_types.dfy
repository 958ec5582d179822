/** The values the Quixo engine works on: the 5x5 board, border positions,
    slide directions, player identities, and the board mechanics of the
    game, which are not part of this model and are taken as parameters. */
module QuixoTypes {

  datatype Option<T> = None | Some(value: T)

  /** A row or column index of the 5x5 board. */
  type Coord = i: int | 0 <= i < 5

  /** A board position as the engine writes it: `(x, y)`. The engine reads the
      cell of position `(x, y)` as `board[y][x]`. */
  datatype Pos = Pos(x: Coord, y: Coord)

  /** The four slides, in the order the engine tries them. */
  datatype Dir = Top | Bottom | Left | Right

  /** A move: the cube taken at `pos` and the slide that puts it back. */
  datatype Move = Move(pos: Pos, dir: Dir)

  /** The two player identities, 0 and 1. */
  type Player = p: int | 0 <= p <= 1

  /** The mark of a cell that no player has taken. */
  const Empty := -1

  predicate IsGrid(b: seq<seq<int>>) {
    |b| == 5 && forall i :: 0 <= i < 5 ==> |b[i]| == 5 && forall j :: 0 <= j < 5 ==> Empty <= b[i][j] <= 1
  }

  /** A board is a 5x5 grid of marks: `Empty` or a player identity. */
  type Board = b: seq<seq<int>> | IsGrid(b)
    witness [[-1, -1, -1, -1, -1], [-1, -1, -1, -1, -1], [-1, -1, -1, -1, -1],
             [-1, -1, -1, -1, -1], [-1, -1, -1, -1, -1]]

  /** The mark at position `p`, read as `board[y][x]`. */
  function Cell(b: Board, p: Pos): int {
    b[p.y][p.x]
  }

  function Opponent(p: Player): (q: Player)
    ensures q != p
  {
    1 - p
  }

  /** The board mechanics of the game, which this model does not define:
      `move(board, pos, dir, player)` is the board after `player` takes the cube
      at `pos` and slides it in `dir`, or `None` when that move is illegal;
      `winner(board)` is the identity of the winner, or a negative number
      while nobody has won. */
  datatype Rules = Rules(move: (Board, Pos, Dir, Player) -> Option<Board>, winner: Board -> int)

  /** A game as the engine sees it: its board, the player to move and its mechanics.
      Copying a game is copying this value. */
  datatype Game = Game(board: Board, current: Player, rules: Rules)
}
