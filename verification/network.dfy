/** The engine side of the board symmetries and the network's input: the
    index remap used to rotate the network's input and output, and the 18
    input planes built from the last eight positions of the game record. */
module NetworkInput {
  import opened Board
  import opened KoHistory
  import opened GameHistory
  import Symmetry

  /** The board the network is built for (8x8). */
  const BoardSize: int := 8
  const NumSquares: int := 64
  /** Number of input planes: 8 for the side to move's stones over the last
      eight positions, 8 for the opponent's, one each for black and white to
      move. */
  const InputChannels: int := 18
  const HistoryLength: int := 8
  const BlackToMove: int := 16
  const WhiteToMove: int := 17

  /** rotate_nn_idx: 4..7 exchange the coordinates first and continue as
      0..3; then 1 mirrors the row, 2 mirrors the column, 3 mirrors both. */
  function RotateNnIdx(vertex: int, symmetry: int): (r: int)
    requires 0 <= vertex < NumSquares && 0 <= symmetry < 8
    ensures 0 <= r < NumSquares
  {
    var x0 := vertex % BoardSize;
    var y0 := vertex / BoardSize;
    var x := if symmetry >= 4 then y0 else x0;
    var y := if symmetry >= 4 then x0 else y0;
    var s := if symmetry >= 4 then symmetry - 4 else symmetry;
    var newx := if s == 2 || s == 3 then BoardSize - x - 1 else x;
    var newy := if s == 1 || s == 3 then BoardSize - y - 1 else y;
    newy * BoardSize + newx
  }

  /** The training pipeline's number for the engine's symmetry: the two
      conventions name the single mirrors the other way round, so 1 and 2
      trade places, and so do 5 and 6. */
  function TrainingSymmetry(s: int): (t: int)
    requires 0 <= s < 8
    ensures 0 <= t < 8
  {
    if s == 1 then 2 else if s == 2 then 1
    else if s == 5 then 6 else if s == 6 then 5
    else s
  }

  /** The engine's remap is the training pipeline's remap under the
      renumbering of the symmetries. */
  lemma RotateAsRemap(v: int, s: int)
    requires 0 <= v < NumSquares && 0 <= s < 8
    ensures RotateNnIdx(v, s) == Symmetry.RemapVertex(v, TrainingSymmetry(s))
  {
  }

  /** The two conventions do disagree: symmetry 1 sends the corner 0 to 56
      in the engine and to 7 in the training pipeline. */
  lemma ConventionsDiffer()
    ensures RotateNnIdx(0, 1) == 56
    ensures Symmetry.RemapVertex(0, 1) == 7
  {
  }

  /** Symmetry 0 leaves every index in place. */
  lemma RotateIdentity(v: int)
    requires 0 <= v < NumSquares
    ensures RotateNnIdx(v, 0) == v
  {
  }

  /** Rotating by a symmetry and then by its inverse (5 and 6 undo each
      other, every other symmetry undoes itself) gives back the index. */
  lemma RotateInverse(v: int, s: int)
    requires 0 <= v < NumSquares && 0 <= s < 8
    ensures RotateNnIdx(RotateNnIdx(v, s), Symmetry.InverseSymmetry(s)) == v
  {
    var t := TrainingSymmetry(s);
    RotateAsRemap(v, s);
    RotateAsRemap(RotateNnIdx(v, s), Symmetry.InverseSymmetry(s));
    assert TrainingSymmetry(Symmetry.InverseSymmetry(s)) == Symmetry.InverseSymmetry(t);
    Symmetry.RemapInverse(v, t);
  }

  /** Each symmetry permutes the 64 indices. */
  lemma RotateBijective(s: int)
    requires 0 <= s < 8
    ensures forall a, b :: Symmetry.IsVertex(a) && Symmetry.IsVertex(b) && RotateNnIdx(a, s) == RotateNnIdx(b, s) ==> a == b
    ensures forall w :: Symmetry.IsVertex(w) ==> exists v :: Symmetry.IsVertex(v) && RotateNnIdx(v, s) == w
  {
    forall a, b | Symmetry.IsVertex(a) && Symmetry.IsVertex(b) && RotateNnIdx(a, s) == RotateNnIdx(b, s)
      ensures a == b
    {
      RotateInverse(a, s);
      RotateInverse(b, s);
    }
    forall w | Symmetry.IsVertex(w)
      ensures exists v :: Symmetry.IsVertex(v) && RotateNnIdx(v, s) == w
    {
      var t := Symmetry.InverseSymmetry(s);
      Symmetry.InverseInvolution(s);
      RotateInverse(w, t);
      assert RotateNnIdx(RotateNnIdx(w, t), s) == w;
    }
  }

  // ---------------------------------------------------------------------
  // Input planes

  /** One bit per square, index row * 8 + column. */
  type Plane = seq<bool>

  /** A plane with every bit equal to b. */
  function Uniform(b: bool): (p: Plane)
    ensures |p| == NumSquares && forall idx :: 0 <= idx < NumSquares ==> p[idx] == b
  {
    seq(NumSquares, _ => b)
  }

  const Clear: Plane := Uniform(false)
  const Full: Plane := Uniform(true)

  predicate Shaped(planes: seq<Plane>) {
    forall k :: 0 <= k < |planes| ==> |planes[k]| == NumSquares
  }

  /** The plane list resized to 18: planes already present are kept, new
      ones are clear. */
  function ResizePlanes(planes: seq<Plane>): (r: seq<Plane>)
    requires Shaped(planes)
    ensures |r| == InputChannels && Shaped(r)
    ensures forall k :: 0 <= k < InputChannels && k < |planes| ==> r[k] == planes[k]
    ensures forall k :: |planes| <= k < InputChannels ==> r[k] == Clear
  {
    if |planes| >= InputChannels then planes[..InputChannels]
    else planes + seq(InputChannels - |planes|, _ => Clear)
  }

  /** Whether the square at column i, row j of the position is marked in
      the side to move's plane (ours) or the opponent's: ours holds the side
      to move's stones, theirs every square that is neither empty nor one
      of ours. */
  predicate Marked(e: Engine, pos: Position, toMove: Color, ours: bool, i: int, j: int) {
    var sq := SquareAt(pos, e.vertex(pos, i, j));
    if ours then sq == Stone(toMove) else sq != Empty && sq != Stone(toMove)
  }

  /** The plane with the position's marked squares set as well. */
  function AddBoard(plane: Plane, e: Engine, pos: Position, toMove: Color, ours: bool): (r: Plane)
    requires |plane| == NumSquares
    ensures |r| == NumSquares
    ensures forall idx :: 0 <= idx < NumSquares && plane[idx] ==> r[idx]
    ensures forall idx :: 0 <= idx < NumSquares && !plane[idx] ==>
              (r[idx] <==> Marked(e, pos, toMove, ours, idx % BoardSize, idx / BoardSize))
  {
    seq(NumSquares, idx requires 0 <= idx < NumSquares =>
      plane[idx] || Marked(e, pos, toMove, ours, idx % BoardSize, idx / BoardSize))
  }

  /** The planes with the side to move's plane filled: plane 16 for Black,
      plane 17 for White; every other plane is left alone. */
  function SideToMovePlanes(planes: seq<Plane>, toMove: Color): (r: seq<Plane>)
    requires |planes| == InputChannels && Shaped(planes)
    ensures |r| == InputChannels && Shaped(r)
    ensures r[if toMove == Black then BlackToMove else WhiteToMove] == Full
    ensures forall c :: 0 <= c < InputChannels && c != (if toMove == Black then BlackToMove else WhiteToMove)
              ==> r[c] == planes[c]
  {
    var filled := if toMove == Black then BlackToMove else WhiteToMove;
    planes[filled := Full]
  }

  /** The position saved i moves into the record (the current one for a
      slot the record does not hold). */
  function PositionAt(g: GameState, i: int): Position {
    if 0 <= i < |g.history| && g.history[i].Saved? then g.history[i].ko.pos else g.ko.pos
  }

  /** The planes once the positions 0 .. n - 1 moves before the cursor have
      been added: plane h (and 8 + h) for h < n holds the position h moves
      back, every other plane is as in base. */
  function Layers(base: seq<Plane>, e: Engine, g: GameState, toMove: Color, n: int): (r: seq<Plane>)
    requires |base| == InputChannels && Shaped(base)
    ensures |r| == InputChannels && Shaped(r)
  {
    var c := Cursor(g);
    seq(InputChannels, k requires 0 <= k < InputChannels =>
      if k < HistoryLength && k < n then
        AddBoard(base[k], e, PositionAt(g, c - k), toMove, true)
      else if HistoryLength <= k < 2 * HistoryLength && k - HistoryLength < n then
        AddBoard(base[k], e, PositionAt(g, c - (k - HistoryLength)), toMove, false)
      else base[k])
  }

  /** Adding one more position to planes n and 8 + n. */
  lemma LayersStep(base: seq<Plane>, e: Engine, g: GameState, toMove: Color, n: int)
    requires |base| == InputChannels && Shaped(base) && 0 <= n < HistoryLength
    ensures var prev := Layers(base, e, g, toMove, n);
      var pos := PositionAt(g, Cursor(g) - n);
      Layers(base, e, g, toMove, n + 1) ==
        prev[n := AddBoard(prev[n], e, pos, toMove, true)]
            [HistoryLength + n := AddBoard(prev[HistoryLength + n], e, pos, toMove, false)]
  {
  }

  /** The planes the engine hands to the network, read straight off the
      record: the side-to-move plane is set, and plane h (and 8 + h) shows
      the position h moves before the cursor for each of the last eight
      positions the record reaches back to. */
  function Features(e: Engine, g: GameState, planes: seq<Plane>): (r: seq<Plane>)
    requires Shaped(planes)
    ensures |r| == InputChannels && Shaped(r)
  {
    var c := Cursor(g);
    var base := SideToMovePlanes(ResizePlanes(planes), g.ko.pos.toMove);
    Layers(base, e, g, g.ko.pos.toMove, if c + 1 < HistoryLength then c + 1 else HistoryLength)
  }

  /** gather_features: marks the side-to-move plane, then walks back
      through the record one undo at a time, adding each position to planes
      h and 8 + h, until eight positions are in or the start of the game is
      reached; then steps forward as many times as it stepped back. */
  method GatherFeatures(e: Engine, g: GameState, planes: seq<Plane>)
    returns (out: seq<Plane>, state: GameState, backtracks: nat)
    requires Consistent(g) && Shaped(planes)
    ensures out == Features(e, g, planes)
    ensures backtracks == if Cursor(g) < HistoryLength then Cursor(g) else HistoryLength
    ensures state == g
  {
    var toMove := g.ko.pos.toMove;
    var c := Cursor(g);
    var base := SideToMovePlanes(ResizePlanes(planes), toMove);
    out := base;
    assert out == Layers(base, e, g, toMove, 0);
    state := g;
    backtracks := 0;
    var h := 0;
    var stopped := false;
    while h < HistoryLength && !stopped
      invariant 0 <= backtracks <= h <= HistoryLength
      invariant h == backtracks + (if stopped then 1 else 0)
      invariant stopped ==> backtracks == c
      invariant Consistent(state) && state.history == g.history
      invariant Cursor(state) == c - backtracks
      invariant out == Layers(base, e, g, toMove, h)
    {
      assert state.ko.pos == PositionAt(g, c - h);
      LayersStep(base, e, g, toMove, h);
      out := out[h := AddBoard(out[h], e, state.ko.pos, toMove, true)];
      out := out[HistoryLength + h := AddBoard(out[HistoryLength + h], e, state.ko.pos, toMove, false)];
      var undone := UndoMove(state);
      if undone.ok {
        UndoConsistent(state);
        state := undone.game;
        backtracks := backtracks + 1;
      } else {
        stopped := true;
      }
      h := h + 1;
    }
    state := Replay(state, backtracks);
  }

  /** Steps forward n times through a consistent record that holds n more
      moves past the cursor, ignoring the results as the engine does. */
  method Replay(g: GameState, n: nat) returns (state: GameState)
    requires Consistent(g) && Cursor(g) + n < |g.history|
    ensures Consistent(state) && state.history == g.history
    ensures Cursor(state) == Cursor(g) + n
    ensures state.ko == g.history[Cursor(g) + n].ko
  {
    state := g;
    var f := 0;
    while f < n
      invariant 0 <= f <= n
      invariant Consistent(state) && state.history == g.history
      invariant Cursor(state) == Cursor(g) + f
    {
      ForwardConsistent(state);
      state := ForwardMove(state).game;
      f := f + 1;
    }
  }

  /** A square goes into at most one of the two planes: the side to move's
      stones into ours, the opponent's stones (and the border) into theirs,
      and an empty square into neither. */
  lemma MarkedExclusive(e: Engine, pos: Position, toMove: Color, i: int, j: int)
    ensures !(Marked(e, pos, toMove, true, i, j) && Marked(e, pos, toMove, false, i, j))
    ensures SquareAt(pos, e.vertex(pos, i, j)) == Empty ==>
      !Marked(e, pos, toMove, true, i, j) && !Marked(e, pos, toMove, false, i, j)
    ensures SquareAt(pos, e.vertex(pos, i, j)).Stone? ==>
      (Marked(e, pos, toMove, true, i, j) <==> SquareAt(pos, e.vertex(pos, i, j)).color == toMove) &&
      (Marked(e, pos, toMove, false, i, j) <==> SquareAt(pos, e.vertex(pos, i, j)).color != toMove)
  {
  }

  /** On a fresh plane list, exactly one side-to-move plane is full (17
      for white, 16 for black) and the other is clear. */
  lemma FreshSideToMove(e: Engine, g: GameState)
    ensures var r := Features(e, g, []); var toMove := g.ko.pos.toMove;
      && r[WhiteToMove] == (if toMove == White then Full else Clear)
      && r[BlackToMove] == (if toMove == Black then Full else Clear)
  {
  }

  /** On a fresh plane list, bit (i, j) of plane h is set exactly when the
      record reaches h moves back and that position holds a stone of the
      side to move there, and bit (i, j) of plane 8 + h exactly when it
      holds anything but such a stone or an empty square. */
  lemma FreshHistory(e: Engine, g: GameState, h: int, i: int, j: int)
    requires Consistent(g)
    requires 0 <= h < HistoryLength && 0 <= i < BoardSize && 0 <= j < BoardSize
    ensures var r := Features(e, g, []); var c := Cursor(g); var toMove := g.ko.pos.toMove;
      && (r[h][j * BoardSize + i] <==>
            h <= c && Marked(e, g.history[c - h].ko.pos, toMove, true, i, j))
      && (r[HistoryLength + h][j * BoardSize + i] <==>
            h <= c && Marked(e, g.history[c - h].ko.pos, toMove, false, i, j))
  {
    var c := Cursor(g);
    var toMove := g.ko.pos.toMove;
    var base := SideToMovePlanes(ResizePlanes([]), toMove);
    assert base[h] == Clear && base[HistoryLength + h] == Clear;
    var n := if c + 1 < HistoryLength then c + 1 else HistoryLength;
    var r := Layers(base, e, g, toMove, n);
    assert r == Features(e, g, []);
    if h < n {
      var pos := PositionAt(g, c - h);
      assert pos == g.history[c - h].ko.pos;
      assert r[h] == AddBoard(Clear, e, pos, toMove, true);
      assert r[HistoryLength + h] == AddBoard(Clear, e, pos, toMove, false);
      ClearBoardAt(e, pos, toMove, true, i, j);
      ClearBoardAt(e, pos, toMove, false, i, j);
    } else {
      assert r[h] == Clear && r[HistoryLength + h] == Clear;
    }
  }

  /** A position added to a clear plane sets exactly its marked squares. */
  lemma ClearBoardAt(e: Engine, pos: Position, toMove: Color, ours: bool, i: int, j: int)
    requires 0 <= i < BoardSize && 0 <= j < BoardSize
    ensures AddBoard(Clear, e, pos, toMove, ours)[j * BoardSize + i] <==> Marked(e, pos, toMove, ours, i, j)
  {
    var idx := j * BoardSize + i;
    assert idx % BoardSize == i && idx / BoardSize == j;
    assert !Clear[idx];
  }
}
