/** The board-level state the bookkeeping layers are built on.  The board
    rules themselves (placing stones, captures, hashing, the move counter)
    are not part of this model: they enter as the functions of an Engine,
    and the position is a value carrying what the bookkeeping reads. */
module Board {

  /** Vertex codes for a pass and a resignation. */
  const Pass := -1
  const Resign := -2

  datatype Color = Black | White

  /** What a vertex holds: a stone, nothing, or (off the playing area)
      the border. */
  datatype Square = Stone(color: Color) | Empty | Invalid

  /** A position: the move counter, the side to move, the board size, the
      incrementally kept hash, the squares by vertex, the recent moves and
      whether the last move captured. */
  datatype Position = Position(
    movenum: int,
    toMove: Color,
    size: int,
    hash: nat,
    squares: map<int, Square>,
    lastMoves: seq<int>,
    lastWasCapture: bool)

  /** The square at a vertex; vertices the board does not hold are border. */
  function SquareAt(p: Position, vertex: int): Square {
    if vertex in p.squares then p.squares[vertex] else Invalid
  }

  /** The board operations the bookkeeping calls: starting and resetting a
      game, playing a stone, passing, recomputing the hash from scratch, and
      the vertex of a column and row. */
  datatype Engine = Engine(
    maxBoardSize: int,
    init: (Position, int) -> Position,
    reset: Position -> Position,
    play: (Position, Color, int) -> Position,
    pass: Position -> Position,
    calcHash: Position -> nat,
    vertex: (Position, int, int) -> int)

  /** The move counter behaves as a counter: starting or resetting a game
      sets it to zero and every stone or pass advances it by one. */
  ghost predicate Counts(e: Engine) {
    && (forall p: Position, size: int :: e.init(p, size).movenum == 0)
    && (forall p: Position :: e.reset(p).movenum == 0)
    && (forall p: Position, c: Color, v: int :: e.play(p, c, v).movenum == p.movenum + 1)
    && (forall p: Position :: e.pass(p).movenum == p.movenum + 1)
  }
}
