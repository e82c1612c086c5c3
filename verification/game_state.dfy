/** The game record kept on top of the position: a copy of the whole
    position (with its hash list) after every move, so that moves can be
    undone, redone and rewound.  The current move number doubles as the
    cursor into the record: entry k holds the position after k moves.
    Navigating copies a saved position back; playing a move cuts off any
    moves beyond the cursor and saves the new position. */
module GameHistory {
  import opened Wrappers
  import opened Board
  import opened KoHistory
  import TextMove

  /** A slot of the record: a saved position, or the empty slot left when
      the record is grown by resizing. */
  datatype Slot = Missing | Saved(ko: KoState)

  datatype GameState = GameState(ko: KoState, history: seq<Slot>)

  /** The result of a navigation or text move: whether it happened, and the
      game after it. */
  datatype Outcome = Outcome(ok: bool, game: GameState)

  function Cursor(g: GameState): int {
    g.ko.pos.movenum
  }

  /** Every slot is saved and holds the position after as many moves as its
      index, the cursor is a slot, and the current position is the one saved
      at the cursor. */
  ghost predicate Consistent(g: GameState) {
    && 0 <= Cursor(g) < |g.history|
    && (forall k :: 0 <= k < |g.history| ==> g.history[k].Saved?)
    && (forall k :: 0 <= k < |g.history| ==> g.history[k].ko.pos.movenum == k)
    && g.history[Cursor(g)].ko == g.ko
  }

  /** The record grown with empty slots or cut down to n slots. */
  function Resize(h: seq<Slot>, n: nat): (r: seq<Slot>)
    ensures |r| == n
    ensures forall k :: 0 <= k < n && k < |h| ==> r[k] == h[k]
    ensures forall k :: |h| <= k < n ==> r[k] == Missing
  {
    if n <= |h| then h[..n] else h + seq(n - |h|, _ => Missing)
  }

  /** Starts a game; the record holds the starting position only. */
  function InitGame(e: Engine, g: GameState, size: int): (r: GameState)
    requires size <= e.maxBoardSize
    ensures r.ko == KoHistory.InitGame(e, g.ko, size)
    ensures r.history == [Saved(r.ko)]
  {
    var ko := KoHistory.InitGame(e, g.ko, size);
    GameState(ko, [Saved(ko)])
  }

  /** Resets the game; the record holds the starting position only. */
  function ResetGame(e: Engine, g: GameState): (r: GameState)
    ensures r.ko == KoHistory.ResetGame(e, g.ko)
    ensures r.history == [Saved(r.ko)]
  {
    var ko := KoHistory.ResetGame(e, g.ko);
    GameState(ko, [Saved(ko)])
  }

  /** Steps one move forward when the record holds a slot past the cursor,
      restoring the position saved there.  The cursor is compared as an
      unsigned size, so a cursor below -1 never moves forward. */
  function ForwardMove(g: GameState): (r: Outcome)
    requires 0 <= Cursor(g) + 1 < |g.history| ==> g.history[Cursor(g) + 1].Saved?
    ensures r.game.history == g.history
    ensures r.ok <==> 0 <= Cursor(g) + 1 < |g.history|
    ensures !r.ok ==> r.game == g
  {
    var c := Cursor(g);
    if 0 <= c + 1 < |g.history| then Outcome(true, GameState(g.history[c + 1].ko, g.history))
    else Outcome(false, g)
  }

  /** Steps one move back when the cursor is past the start, restoring the
      position saved before it; the record is kept for redoing. */
  function UndoMove(g: GameState): (r: Outcome)
    requires Cursor(g) > 0 ==> Cursor(g) - 1 < |g.history| && g.history[Cursor(g) - 1].Saved?
    ensures r.game.history == g.history
    ensures r.ok <==> Cursor(g) > 0
    ensures !r.ok ==> r.game == g
  {
    var c := Cursor(g);
    if c > 0 then Outcome(true, GameState(g.history[c - 1].ko, g.history))
    else Outcome(false, g)
  }

  /** Restores the starting position and moves the cursor to it. */
  function Rewind(g: GameState): (r: GameState)
    requires |g.history| > 0 && g.history[0].Saved?
    ensures Cursor(r) == 0 && r.history == g.history
    ensures r.ko.hashes == g.history[0].ko.hashes
  {
    var ko := g.history[0].ko;
    GameState(ko.(pos := ko.pos.(movenum := 0)), g.history)
  }

  /** The recent-move list after a resignation: every entry moves one place
      back, the oldest drops out, and the vertex takes the first place. */
  function ShiftIn(moves: seq<int>, vertex: int): (r: seq<int>)
    ensures |r| == |moves|
    ensures |r| > 0 ==> r[0] == vertex && forall k :: 1 <= k < |r| ==> r[k] == moves[k - 1]
  {
    if moves == [] then [] else [vertex] + moves[..|moves| - 1]
  }

  /** The position and hash list after a move: a stone, or a pass for the
      pass and resignation codes; a resignation is also entered in the
      recent-move list and clears the capture flag. */
  function AfterMove(e: Engine, ko: KoState, color: Color, vertex: int): (r: KoState)
    ensures Extends(ko.hashes, r.hashes, e.play(ko.pos, color, vertex).hash) || vertex == Pass || vertex == Resign
    ensures vertex == Pass ==> r == KoHistory.PlayPass(e, ko)
    ensures vertex == Resign ==> r.pos.lastMoves == ShiftIn(e.pass(ko.pos).lastMoves, Resign)
    ensures vertex == Resign ==> !r.pos.lastWasCapture && r.hashes == KoHistory.PlayPass(e, ko).hashes
  {
    if vertex != Pass && vertex != Resign then
      KoHistory.PlayMove(e, ko, color, vertex)
    else
      var k := KoHistory.PlayPass(e, ko);
      if vertex == Resign then
        k.(pos := k.pos.(lastMoves := ShiftIn(k.pos.lastMoves, vertex), lastWasCapture := false))
      else k
  }

  /** Plays a move: moves beyond the new move number are cut from the record
      and the new position is saved after them. */
  function PlayMove(e: Engine, g: GameState, color: Color, vertex: int): (r: GameState)
    requires Counts(e) && Cursor(g) >= -1
    ensures r.ko == AfterMove(e, g.ko, color, vertex)
    ensures Cursor(r) == Cursor(g) + 1
    ensures |r.history| == Cursor(r) + 1 && r.history[Cursor(r)] == Saved(r.ko)
    ensures forall k :: 0 <= k < Cursor(r) && k < |g.history| ==> r.history[k] == g.history[k]
  {
    var ko := AfterMove(e, g.ko, color, vertex);
    GameState(ko, Resize(g.history, ko.pos.movenum) + [Saved(ko)])
  }

  /** Passes for the side to move. */
  function PlayPass(e: Engine, g: GameState): (r: GameState)
    requires Counts(e) && Cursor(g) >= -1
    ensures r.ko == KoHistory.PlayPass(e, g.ko)
    ensures |r.history| == Cursor(g) + 2
  {
    PlayMove(e, g, g.ko.pos.toMove, Pass)
  }

  /** Plays for the side to move. */
  function PlayMoveToMove(e: Engine, g: GameState, vertex: int): (r: GameState)
    requires Counts(e) && Cursor(g) >= -1
    ensures vertex != Pass && vertex != Resign ==> r.ko.pos == e.play(g.ko.pos, g.ko.pos.toMove, vertex)
    ensures |r.history| == Cursor(g) + 2
  {
    PlayMove(e, g, g.ko.pos.toMove, vertex)
  }

  /** Plays a move given as a colour word and vertex text, when both read;
      the vertex is looked up on the board from the column and row read,
      which may be -1 for a row number of zero. */
  function PlayTextMove(e: Engine, g: GameState, color: string, vertex: string): (r: Outcome)
    requires Counts(e) && Cursor(g) >= -1
    ensures r.ok <==> TextMove.ParseColor(color).Some? && TextMove.ParseVertex(vertex, g.ko.pos.size).Some?
    ensures !r.ok ==> r.game == g
    ensures r.ok ==> var p := TextMove.ParseVertex(vertex, g.ko.pos.size).value;
      r.game == PlayMove(e, g, TextMove.ParseColor(color).value, e.vertex(g.ko.pos, p.0, p.1))
  {
    match TextMove.ParseColor(color)
    case None => Outcome(false, g)
    case Some(who) =>
      match TextMove.ParseVertex(vertex, g.ko.pos.size)
      case None => Outcome(false, g)
      case Some(p) => Outcome(true, PlayMove(e, g, who, e.vertex(g.ko.pos, p.0, p.1)))
  }

  /** The text move with the row checked against zero as well, so that only
      on-board columns and rows are looked up. */
  function PlayTextMoveChecked(e: Engine, g: GameState, color: string, vertex: string): (r: Outcome)
    requires Counts(e) && Cursor(g) >= -1
    ensures r.ok ==> TextMove.ParseColor(color).Some?
    ensures r.ok ==> exists column, row ::
      0 <= column < g.ko.pos.size && 0 <= row < g.ko.pos.size &&
      r.game == PlayMove(e, g, TextMove.ParseColor(color).value, e.vertex(g.ko.pos, column, row))
    ensures !r.ok ==> r.game == g
  {
    match TextMove.ParseColor(color)
    case None => Outcome(false, g)
    case Some(who) =>
      match TextMove.ParseVertexChecked(vertex, g.ko.pos.size)
      case None => Outcome(false, g)
      case Some(p) => Outcome(true, PlayMove(e, g, who, e.vertex(g.ko.pos, p.0, p.1)))
  }

  /** A row number of zero is played at row -1: the text move reaches the
      board's vertex lookup with a row off the board. */
  lemma TextMoveRowZero(e: Engine, g: GameState)
    requires Counts(e) && Cursor(g) >= -1 && g.ko.pos.size > 0
    ensures PlayTextMove(e, g, "b", "a0") == Outcome(true, PlayMove(e, g, Black, e.vertex(g.ko.pos, 0, -1)))
    ensures !PlayTextMoveChecked(e, g, "b", "a0").ok
  {
    TextMove.RowZeroAccepted(g.ko.pos.size);
  }

  /** Makes the current position the start of the record. */
  function AnchorHistory(g: GameState): (r: GameState)
    ensures Cursor(r) == 0 && r.history == [Saved(r.ko)]
    ensures r.ko.hashes == g.ko.hashes
  {
    var ko := g.ko.(pos := g.ko.pos.(movenum := 0));
    GameState(ko, [Saved(ko)])
  }

  /** Keeps the first lastmove slots of the record and puts the cursor on
      the last of them.  The move number is set before the record is
      resized, so a negative count, which the resize rejects by throwing,
      fails with the move number already changed and the record as it was. */
  function TrimHistory(g: GameState, lastmove: int): (r: Outcome)
    ensures r.ok <==> lastmove >= 0
    ensures Cursor(r.game) == lastmove - 1
    ensures r.ok ==> r.game.history == Resize(g.history, lastmove)
    ensures forall k :: 0 <= k < lastmove && k < |g.history| ==> r.game.history[k] == g.history[k]
    ensures !r.ok ==> r.game.history == g.history
    ensures r.game.ko.hashes == g.ko.hashes
  {
    var ko := g.ko.(pos := g.ko.pos.(movenum := lastmove - 1));
    if lastmove < 0 then Outcome(false, GameState(ko, g.history))
    else Outcome(true, GameState(ko, Resize(g.history, lastmove)))
  }

  // ---------------------------------------------------------------------
  // The record stays consistent

  lemma InitConsistent(e: Engine, g: GameState, size: int)
    requires Counts(e) && size <= e.maxBoardSize
    ensures Consistent(InitGame(e, g, size))
    ensures Consistent(ResetGame(e, g))
  {
  }

  lemma ForwardConsistent(g: GameState)
    requires Consistent(g)
    ensures Consistent(ForwardMove(g).game)
  {
  }

  lemma UndoConsistent(g: GameState)
    requires Consistent(g)
    ensures Consistent(UndoMove(g).game)
  {
  }

  lemma RewindConsistent(g: GameState)
    requires Consistent(g)
    ensures Consistent(Rewind(g))
    ensures Rewind(g).ko == g.history[0].ko
  {
  }

  lemma PlayConsistent(e: Engine, g: GameState, color: Color, vertex: int)
    requires Counts(e) && Consistent(g)
    ensures Consistent(PlayMove(e, g, color, vertex))
    ensures PlayMove(e, g, color, vertex).history[..Cursor(g) + 1] == g.history[..Cursor(g) + 1]
  {
    var r := PlayMove(e, g, color, vertex);
    assert r.history[..Cursor(g) + 1] == g.history[..Cursor(g) + 1];
  }

  lemma AnchorConsistent(g: GameState)
    ensures Consistent(AnchorHistory(g))
  {
  }

  /** Trimming the record just past the cursor drops the moves that could be
      redone and keeps it consistent. */
  lemma TrimConsistent(g: GameState)
    requires Consistent(g)
    ensures TrimHistory(g, Cursor(g) + 1).ok
    ensures Consistent(TrimHistory(g, Cursor(g) + 1).game)
    ensures !ForwardMove(TrimHistory(g, Cursor(g) + 1).game).ok
  {
  }

  // ---------------------------------------------------------------------
  // Navigation

  /** Undoing a move and redoing it gives back the same game. */
  lemma UndoForward(g: GameState)
    requires Consistent(g) && UndoMove(g).ok
    ensures ForwardMove(UndoMove(g).game) == Outcome(true, g)
  {
  }

  /** Redoing a move and undoing it gives back the same game. */
  lemma ForwardUndo(g: GameState)
    requires Consistent(g) && ForwardMove(g).ok
    ensures UndoMove(ForwardMove(g).game) == Outcome(true, g)
  {
  }

  /** The game after n forward steps, stopping at the first that fails. */
  function ForwardN(g: GameState, n: nat): GameState
    requires Consistent(g)
    decreases n
  {
    ForwardConsistent(g);
    if n == 0 then g else ForwardN(ForwardMove(g).game, n - 1)
  }

  /** Stepping forward n times from a consistent game lands on the position
      saved n moves later, or at the end of the record. */
  lemma {:induction false} ForwardNLands(g: GameState, n: nat)
    requires Consistent(g)
    ensures var m := if Cursor(g) + n < |g.history| then Cursor(g) + n else |g.history| - 1;
      ForwardN(g, n) == GameState(g.history[m].ko, g.history)
    decreases n
  {
    ForwardConsistent(g);
    if n > 0 {
      ForwardNLands(ForwardMove(g).game, n - 1);
    }
  }

  /** Rewinding and stepping forward k moves replays the record up to move
      k: the game is the one saved at k. */
  lemma ReplayFromStart(g: GameState, k: nat)
    requires Consistent(g) && k < |g.history|
    ensures ForwardN(Rewind(g), k) == GameState(g.history[k].ko, g.history)
  {
    RewindConsistent(g);
    ForwardNLands(Rewind(g), k);
  }
}
