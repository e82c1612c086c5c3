/** The Zobrist hashing tables: one 64-bit key per colour (four square
    states) and board square, and five keys for the pass counter, each built
    from two consecutive 32-bit draws of the generator. */
module ZobristInit {
  import opened Xoroshiro

  /** Number of square states with a key of their own. */
  const Colours := 4
  /** Number of pass-counter keys. */
  const PassKeys := 5

  datatype Tables = Tables(pieces: seq<seq<bv64>>, pass: seq<bv64>)

  /** A key whose high half is the first draw and whose low half is the
      second. */
  function Combine(high: bv32, low: bv32): (key: bv64)
    ensures (key >> 32) as bv32 == high && (key & 0xFFFF_FFFF) as bv32 == low
  {
    ((high as bv64) << 32) ^ (low as bv64)
  }

  /** The two halves never overlap, so the XOR is an OR and both draws can
      be read back from the key. */
  lemma CombineParts(high: bv32, low: bv32)
    ensures (Combine(high, low) >> 32) as bv32 == high
    ensures (Combine(high, low) & 0xFFFF_FFFF) as bv32 == low
    ensures Combine(high, low) == ((high as bv64) << 32) | (low as bv64)
  {
  }

  /** The key built from draws k and k + 1 of the stream at r. */
  function KeyAt(r: Rng, k: nat): bv64 {
    Combine(Word(r, k), Word(r, k + 1))
  }

  /** The n keys built from the first 2n draws of the stream at r, in order. */
  function Keys(r: Rng, n: nat): (keys: seq<bv64>)
    ensures |keys| == n
  {
    seq(n, j requires 0 <= j => KeyAt(r, 2 * j))
  }

  lemma IterateOne(r: Rng, k: nat)
    ensures Step(Iterate(r, k)) == Iterate(r, k + 1)
  {
    IterateAdd(r, k, 1);
  }

  lemma KeysSnoc(r: Rng, j: nat)
    ensures Keys(r, j + 1) == Keys(r, j) + [KeyAt(r, 2 * j)]
  {
  }

  /** The two draws after 2j draws are draws 2j and 2j + 1, and they leave
      the generator 2j + 2 steps in. */
  lemma DrawPair(rng: Rng, j: nat)
    ensures var high := RandUint32(Iterate(rng, 2 * j));
      && high.value == Word(rng, 2 * j)
      && RandUint32(high.next).value == Word(rng, 2 * j + 1)
      && RandUint32(high.next).next == Iterate(rng, 2 * j + 2)
    ensures Keys(rng, j + 1) == Keys(rng, j) + [KeyAt(rng, 2 * j)]
  {
    IterateOne(rng, 2 * j);
    IterateOne(rng, 2 * j + 1);
    KeysSnoc(rng, j);
  }

  /** Fills n keys from the generator, two draws per key. */
  method FillKeys(rng: Rng, n: nat) returns (keys: seq<bv64>, next: Rng)
    ensures keys == Keys(rng, n)
    ensures next == Iterate(rng, 2 * n)
  {
    keys := [];
    next := rng;
    var j := 0;
    while j < n
      invariant 0 <= j <= n
      invariant next == Iterate(rng, 2 * j)
      invariant keys == Keys(rng, j)
    {
      DrawPair(rng, j);
      var high := RandUint32(next);
      var low := RandUint32(high.next);
      var key := Combine(high.value, low.value);
      keys := keys + [key];
      next := low.next;
      j := j + 1;
    }
  }

  /** Fills the piece table row by row over Colours x maxSq, then the pass
      table, consuming two draws per key. */
  method InitZobrist(rng: Rng, maxSq: nat) returns (tables: Tables, next: Rng)
    ensures |tables.pieces| == Colours && |tables.pass| == PassKeys
    ensures forall i :: 0 <= i < Colours ==>
      tables.pieces[i] == Keys(Iterate(rng, 2 * maxSq * i), maxSq)
    ensures tables.pass == Keys(Iterate(rng, 2 * maxSq * Colours), PassKeys)
    ensures next == Iterate(rng, 2 * (Colours * maxSq + PassKeys))
  {
    var pieces: seq<seq<bv64>> := [];
    next := rng;
    var i := 0;
    while i < Colours
      invariant 0 <= i <= Colours
      invariant |pieces| == i
      invariant next == Iterate(rng, 2 * maxSq * i)
      invariant forall a :: 0 <= a < i ==> pieces[a] == Keys(Iterate(rng, 2 * maxSq * a), maxSq)
    {
      var row, after := FillKeys(next, maxSq);
      var m := 2 * maxSq * i;
      IterateAdd(rng, m, 2 * maxSq);
      assert m + 2 * maxSq == 2 * maxSq * (i + 1);
      ghost var before := pieces;
      pieces := pieces + [row];
      assert forall a :: 0 <= a < i ==> pieces[a] == before[a];
      next := after;
      i := i + 1;
    }
    var pass, after := FillKeys(next, PassKeys);
    var m := 2 * maxSq * Colours;
    IterateAdd(rng, m, 2 * PassKeys);
    assert m + 2 * PassKeys == 2 * (Colours * maxSq + PassKeys);
    tables := Tables(pieces, pass);
    next := after;
  }

  /** Key j of the stream that starts m steps later is the key built from
      draws m + 2j and m + 2j + 1 of the original stream. */
  lemma KeysShift(r: Rng, m: nat, n: nat, j: nat)
    requires j < n
    ensures Keys(Iterate(r, m), n)[j] == KeyAt(r, m + 2 * j)
  {
    WordShift(r, m, 2 * j);
    WordShift(r, m, 2 * j + 1);
  }

  /** Piece key (i, j) takes draws 2(i * maxSq + j) and 2(i * maxSq + j) + 1,
      and pass key i takes draws 2(4 * maxSq + i) and 2(4 * maxSq + i) + 1. */
  lemma DrawIndices(rng: Rng, maxSq: nat, tables: Tables)
    requires |tables.pieces| == Colours
    requires forall i :: 0 <= i < Colours ==>
      tables.pieces[i] == Keys(Iterate(rng, 2 * maxSq * i), maxSq)
    requires tables.pass == Keys(Iterate(rng, 2 * maxSq * Colours), PassKeys)
    ensures forall i, j :: 0 <= i < Colours && 0 <= j < maxSq ==>
      j < |tables.pieces[i]| && tables.pieces[i][j] == KeyAt(rng, 2 * (i * maxSq + j))
    ensures forall i :: 0 <= i < PassKeys ==>
      tables.pass[i] == KeyAt(rng, 2 * (Colours * maxSq + i))
  {
    forall i, j | 0 <= i < Colours && 0 <= j < maxSq
      ensures tables.pieces[i][j] == KeyAt(rng, 2 * (i * maxSq + j))
    {
      var m := 2 * maxSq * i;
      KeysShift(rng, m, maxSq, j);
      assert m + 2 * j == 2 * (i * maxSq + j);
    }
    forall i | 0 <= i < PassKeys
      ensures tables.pass[i] == KeyAt(rng, 2 * (Colours * maxSq + i))
    {
      KeysShift(rng, 2 * maxSq * Colours, PassKeys, i);
    }
  }
}
