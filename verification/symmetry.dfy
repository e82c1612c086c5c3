/** The eight board symmetries used to augment training samples on the
    8x8 board: a vertex is remapped through its (column, row) coordinates,
    and a plane is rebuilt by gathering every square from its remapped
    source square. */
module Symmetry {

  /** The training pipeline hard-codes an 8x8 board. */
  const BoardSize: int := 8
  const NumSquares: int := 64
  const NumSymmetries: int := 8

  predicate IsVertex(v: int) {
    0 <= v < NumSquares
  }

  predicate IsSymmetry(s: int) {
    0 <= s < NumSymmetries
  }

  /** Column (x) and row (y) of a vertex, and the vertex at given coordinates. */
  function Col(v: int): int { v % BoardSize }
  function Row(v: int): int { v / BoardSize }
  function At(x: int, y: int): int { y * BoardSize + x }

  /** The vertex with its column and row exchanged (reflection in the main diagonal). */
  function Transpose(v: int): int { At(Row(v), Col(v)) }
  /** The vertex mirrored left-to-right (its column reversed). */
  function MirrorCol(v: int): int { At(BoardSize - 1 - Col(v), Row(v)) }
  /** The vertex mirrored top-to-bottom (its row reversed). */
  function MirrorRow(v: int): int { At(Col(v), BoardSize - 1 - Row(v)) }

  /** The coordinate decomposition of a vertex is exact. */
  lemma CoordinatesOf(x: int, y: int)
    requires 0 <= x < BoardSize && 0 <= y < BoardSize
    ensures IsVertex(At(x, y)) && Col(At(x, y)) == x && Row(At(x, y)) == y
  {
  }

  /** remap_vertex: the symmetry is not range-checked here; values of 4 and
      more transpose first and continue with the value reduced by 4, and a
      reduced value outside {1, 2, 3} mirrors nothing. */
  function RemapVertex(vertex: int, symmetry: int): (r: int)
    requires IsVertex(vertex)
    ensures IsVertex(r)
    ensures symmetry == 0 ==> r == vertex
  {
    var x0 := vertex % BoardSize;
    var y0 := vertex / BoardSize;
    var x1 := if symmetry >= 4 then y0 else x0;
    var y1 := if symmetry >= 4 then x0 else y0;
    var s := if symmetry >= 4 then symmetry - 4 else symmetry;
    var x := if s == 1 || s == 3 then BoardSize - x1 - 1 else x1;
    var y := if s == 2 || s == 3 then BoardSize - y1 - 1 else y1;
    y * BoardSize + x
  }

  /** How each symmetry acts: 4..7 transpose and then act as 0..3; 1 mirrors
      the column, 2 mirrors the row, 3 mirrors both. */
  lemma RemapStructure(v: int, s: int)
    requires IsVertex(v) && IsSymmetry(s)
    ensures s >= 4 ==> RemapVertex(v, s) == RemapVertex(Transpose(v), s - 4)
    ensures s == 1 ==> RemapVertex(v, s) == MirrorCol(v)
    ensures s == 2 ==> RemapVertex(v, s) == MirrorRow(v)
    ensures s == 3 ==> RemapVertex(v, s) == MirrorRow(MirrorCol(v))
  {
    CoordinatesOf(Row(v), Col(v));
    CoordinatesOf(BoardSize - 1 - Col(v), Row(v));
  }

  /** The symmetry that undoes a given one: the two quarter turns (5 and 6)
      undo each other, every other symmetry is its own inverse. */
  function InverseSymmetry(s: int): (t: int)
    requires IsSymmetry(s)
    ensures IsSymmetry(t)
  {
    if s == 5 then 6 else if s == 6 then 5 else s
  }

  /** The coordinates RemapVertex gives to the square at column x, row y. */
  function RemappedCol(x: int, y: int, s: int): int {
    var x1 := if s >= 4 then y else x;
    var s1 := if s >= 4 then s - 4 else s;
    if s1 == 1 || s1 == 3 then BoardSize - x1 - 1 else x1
  }

  function RemappedRow(x: int, y: int, s: int): int {
    var y1 := if s >= 4 then x else y;
    var s1 := if s >= 4 then s - 4 else s;
    if s1 == 2 || s1 == 3 then BoardSize - y1 - 1 else y1
  }

  lemma RemapAt(x: int, y: int, s: int)
    requires 0 <= x < BoardSize && 0 <= y < BoardSize
    ensures 0 <= RemappedCol(x, y, s) < BoardSize && 0 <= RemappedRow(x, y, s) < BoardSize
    ensures RemapVertex(At(x, y), s) == At(RemappedCol(x, y, s), RemappedRow(x, y, s))
  {
    CoordinatesOf(x, y);
  }

  lemma InverseInvolution(s: int)
    requires IsSymmetry(s)
    ensures InverseSymmetry(InverseSymmetry(s)) == s
  {
  }

  /** Remapping by a symmetry and then by its inverse returns the vertex. */
  lemma RemapInverse(v: int, s: int)
    requires IsVertex(v) && IsSymmetry(s)
    ensures RemapVertex(RemapVertex(v, s), InverseSymmetry(s)) == v
  {
    var x, y := Col(v), Row(v);
    var t := InverseSymmetry(s);
    assert v == At(x, y);
    RemapAt(x, y, s);
    var x1, y1 := RemappedCol(x, y, s), RemappedRow(x, y, s);
    RemapAt(x1, y1, t);
    assert RemappedCol(x1, y1, t) == x && RemappedRow(x1, y1, t) == y;
  }

  /** Every symmetry permutes the 64 vertices: no two vertices share an
      image, and every vertex is the image of some vertex. */
  lemma RemapBijective(s: int)
    requires IsSymmetry(s)
    ensures forall a, b :: IsVertex(a) && IsVertex(b) && RemapVertex(a, s) == RemapVertex(b, s) ==> a == b
    ensures forall w :: IsVertex(w) ==> exists v :: IsVertex(v) && RemapVertex(v, s) == w
  {
    forall a, b | IsVertex(a) && IsVertex(b) && RemapVertex(a, s) == RemapVertex(b, s)
      ensures a == b
    {
      RemapInverse(a, s);
      RemapInverse(b, s);
    }
    forall w | IsVertex(w)
      ensures exists v :: IsVertex(v) && RemapVertex(v, s) == w
    {
      var t := InverseSymmetry(s);
      InverseInvolution(s);
      RemapInverse(w, t);
      assert RemapVertex(RemapVertex(w, t), s) == w;
    }
  }

  /** apply_symmetry: square v of the result is taken from square
      RemapVertex(v, symmetry) of the input; a 65th (pass) entry is copied
      through; any other length yields just the 64 squares. */
  function ApplySymmetry<T>(plane: seq<T>, symmetry: int): (out: seq<T>)
    requires IsSymmetry(symmetry)
    requires |plane| >= NumSquares
    ensures |out| == if |plane| == NumSquares + 1 then NumSquares + 1 else NumSquares
    ensures forall v :: 0 <= v < NumSquares ==> out[v] == plane[RemapVertex(v, symmetry)]
    ensures |plane| == NumSquares + 1 ==> out[NumSquares] == plane[NumSquares]
  {
    var work := seq(NumSquares, v requires 0 <= v < NumSquares => plane[RemapVertex(v, symmetry)]);
    if |plane| == NumSquares + 1 then work + [plane[NumSquares]] else work
  }

  /** The identity symmetry leaves a 64- or 65-entry plane unchanged. */
  lemma ApplyIdentity<T>(plane: seq<T>)
    requires |plane| == NumSquares || |plane| == NumSquares + 1
    ensures ApplySymmetry(plane, 0) == plane
  {
  }

  /** Applying a symmetry and then its inverse leaves what the identity
      leaves: the 64 squares, and the pass entry of a 65-entry plane. */
  lemma ApplyInverseReduced<T>(plane: seq<T>, s: int)
    requires IsSymmetry(s)
    requires |plane| >= NumSquares
    ensures ApplySymmetry(ApplySymmetry(plane, s), InverseSymmetry(s)) == ApplySymmetry(plane, 0)
  {
    var twice := ApplySymmetry(ApplySymmetry(plane, s), InverseSymmetry(s));
    forall v | 0 <= v < NumSquares
      ensures twice[v] == plane[v]
    {
      InverseInvolution(s);
      RemapInverse(v, InverseSymmetry(s));
    }
  }

  /** Applying a symmetry and then its inverse restores a 64- or 65-entry
      plane: augmentation loses no information. */
  lemma ApplyInverse<T>(plane: seq<T>, s: int)
    requires IsSymmetry(s)
    requires |plane| == NumSquares || |plane| == NumSquares + 1
    ensures ApplySymmetry(ApplySymmetry(plane, s), InverseSymmetry(s)) == plane
  {
    ApplyInverseReduced(plane, s);
    ApplyIdentity(plane);
  }

  /** Rebuilding an already rebuilt plane composes the gathers: a plane
      reduced by the identity first ends up the same as the original one. */
  lemma ApplyAfterIdentity<T>(plane: seq<T>, s: int)
    requires IsSymmetry(s)
    requires |plane| >= NumSquares
    ensures ApplySymmetry(ApplySymmetry(plane, 0), s) == ApplySymmetry(plane, s)
  {
  }

  /** A uniform plane of any length of at least 64 (such as the 361-entry
      side-to-move planes) comes out as a uniform 64-entry plane. */
  lemma ApplyUniform<T>(n: int, c: T, s: int)
    requires IsSymmetry(s) && n >= NumSquares && n != NumSquares + 1
    ensures ApplySymmetry(seq(n, _ => c), s) == seq(NumSquares, _ => c)
  {
  }

  /** A weight that sits only on square k of a 65-entry policy vector is
      moved to square RemapVertex(k, InverseSymmetry(s)); the pass entry and
      all other weights are unchanged. */
  lemma ApplySingleHot(k: int, s: int, hot: real, pass: real)
    requires IsVertex(k) && IsSymmetry(s)
    ensures var policy := seq(NumSquares, v => if v == k then hot else 0.0) + [pass];
            var out := ApplySymmetry(policy, s);
            && out[NumSquares] == pass
            && out[RemapVertex(k, InverseSymmetry(s))] == hot
            && forall v :: 0 <= v < NumSquares && v != RemapVertex(k, InverseSymmetry(s)) ==> out[v] == 0.0
  {
    var policy := seq(NumSquares, v => if v == k then hot else 0.0) + [pass];
    var target := RemapVertex(k, InverseSymmetry(s));
    RemapInverse(k, InverseSymmetry(s));
    forall v | 0 <= v < NumSquares && v != target
      ensures RemapVertex(v, s) != k
    {
      RemapInverse(v, s);
    }
  }

  /** For the quarter turn 5 the hot square 0 goes to 56, not to
      RemapVertex(0, 5) == 7: the image under the gather is the inverse
      symmetry's, which differs from the symmetry's own for 5 and 6. */
  lemma SingleHotQuarterTurn()
    ensures RemapVertex(0, 5) == 7
    ensures ApplySymmetry(seq(NumSquares, v => if v == 0 then 1.0 else 0.0) + [0.0], 5)[56] == 1.0
    ensures ApplySymmetry(seq(NumSquares, v => if v == 0 then 1.0 else 0.0) + [0.0], 5)[7] == 0.0
  {
    ApplySingleHot(0, 5, 1.0, 0.0);
  }
}
