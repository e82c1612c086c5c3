/** The position together with the list of every board hash seen in the
    game, one per position, used to detect repetitions.  The list only
    grows: starting or resetting a game sets it to the single hash of the new
    position, and every stone or pass appends the hash after it. */
module KoHistory {
  import opened Board

  datatype KoState = KoState(pos: Position, hashes: seq<nat>)

  /** Starts a game of the given size; the hash is recomputed from scratch. */
  function InitGame(e: Engine, k: KoState, size: int): (r: KoState)
    requires size <= e.maxBoardSize
    ensures |r.hashes| == 1
    ensures r.hashes[0] == e.calcHash(r.pos)
  {
    var pos := e.init(k.pos, size);
    KoState(pos, [e.calcHash(pos)])
  }

  /** Resets the game on the same board size. */
  function ResetGame(e: Engine, k: KoState): (r: KoState)
    ensures |r.hashes| == 1
    ensures r.hashes[0] == e.calcHash(r.pos)
  {
    var pos := e.reset(k.pos);
    KoState(pos, [e.calcHash(pos)])
  }

  /** Passes and records the hash after the pass. */
  function PlayPass(e: Engine, k: KoState): (r: KoState)
    ensures r.pos == e.pass(k.pos)
    ensures Extends(k.hashes, r.hashes, r.pos.hash)
  {
    var pos := e.pass(k.pos);
    KoState(pos, k.hashes + [pos.hash])
  }

  /** Plays a stone of the given colour, or passes when the vertex is the
      pass or resignation code, and records the hash after it. */
  function PlayMove(e: Engine, k: KoState, color: Color, vertex: int): (r: KoState)
    ensures Extends(k.hashes, r.hashes, r.pos.hash)
  {
    if vertex != Pass && vertex != Resign then
      var pos := e.play(k.pos, color, vertex);
      KoState(pos, k.hashes + [pos.hash])
    else
      PlayPass(e, k)
  }

  /** Plays for the side to move. */
  function PlayMoveToMove(e: Engine, k: KoState, vertex: int): (r: KoState)
    ensures Extends(k.hashes, r.hashes, r.pos.hash)
  {
    PlayMove(e, k, k.pos.toMove, vertex)
  }

  /** after is before with exactly one hash, last, appended. */
  predicate Extends(before: seq<nat>, after: seq<nat>, last: nat) {
    |after| == |before| + 1 && after[..|before|] == before && after[|before|] == last
  }

  /** A real stone records the hash of the position the board reaches. */
  lemma PlayMoveStone(e: Engine, k: KoState, color: Color, vertex: int)
    requires vertex != Pass && vertex != Resign
    ensures PlayMove(e, k, color, vertex).pos == e.play(k.pos, color, vertex)
  {
  }

  /** The pass and resignation codes behave exactly as a pass, whatever
      colour is given. */
  lemma PassCodes(e: Engine, k: KoState, color: Color)
    ensures PlayMove(e, k, color, Pass) == PlayPass(e, k)
    ensures PlayMove(e, k, color, Resign) == PlayPass(e, k)
  {
  }

  /** One move of a game record: a vertex, and a colour or the side to move. */
  datatype Move = ColorMove(color: Color, vertex: int) | ToMove(vertex: int)

  function Apply(e: Engine, k: KoState, m: Move): KoState {
    match m
    case ColorMove(c, v) => PlayMove(e, k, c, v)
    case ToMove(v) => PlayMoveToMove(e, k, v)
  }

  function ApplyAll(e: Engine, k: KoState, moves: seq<Move>): KoState
    decreases |moves|
  {
    if moves == [] then k else ApplyAll(e, Apply(e, k, moves[0]), moves[1..])
  }

  /** Over any sequence of moves the earlier hashes are kept and exactly one
      hash is added per move. */
  lemma {:induction false} HistoryGrows(e: Engine, k: KoState, moves: seq<Move>)
    ensures var r := ApplyAll(e, k, moves);
      |r.hashes| == |k.hashes| + |moves| && r.hashes[..|k.hashes|] == k.hashes
    decreases |moves|
  {
    if moves != [] {
      var k1 := Apply(e, k, moves[0]);
      HistoryGrows(e, k1, moves[1..]);
      var r := ApplyAll(e, k, moves);
      assert r.hashes[..|k.hashes|] == r.hashes[..|k1.hashes|][..|k.hashes|];
    }
  }
}
