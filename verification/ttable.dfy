/** The transposition table: a fixed number of buckets addressed by the
    low 32 bits of a position hash, each remembering the visit count and
    evaluation sum last stored for one hash.  The table and the search node
    are values; the operations return the updated table or node. */
module TransTable {

  /** Bucket count of the table the engine builds. */
  const DefaultSize := 500000

  const Two32: nat := 0x1_0000_0000

  datatype Entry = Entry(hash: bv64, visits: int, evalSum: real)

  /** A fresh bucket: the entry's members are zero-initialised when the
      bucket vector is resized. */
  const Blank := Entry(0, 0, 0.0)

  datatype Table = Table(buckets: seq<Entry>)

  /** The statistics of a search node that the table reads and writes. */
  datatype Node = Node(visits: int, blackEvals: real)

  predicate Valid(t: Table) {
    |t.buckets| > 0
  }

  /** A table of size blank buckets. */
  function Create(size: nat): (t: Table)
    requires size > 0
    ensures Valid(t) && |t.buckets| == size
    ensures forall i :: 0 <= i < size ==> t.buckets[i] == Blank
  {
    Table(seq(size, _ => Blank))
  }

  /** The bucket of a hash: its low 32 bits modulo the bucket count. */
  function Index(hash: bv64, size: nat): (i: nat)
    requires size > 0
    ensures i < size
  {
    (hash as int % Two32) % size
  }

  /** Stores the node's statistics under the hash, replacing whatever the
      bucket held. */
  function Update(t: Table, hash: bv64, node: Node): (u: Table)
    requires Valid(t)
    ensures Valid(u) && |u.buckets| == |t.buckets|
  {
    var i := Index(hash, |t.buckets|);
    Table(t.buckets[i := Entry(hash, node.visits, node.blackEvals)])
  }

  /** Copies the stored statistics into the node when the bucket holds the
      same hash and more visits than the node; otherwise the node is
      returned as it was. */
  function Sync(t: Table, hash: bv64, node: Node): (n: Node)
    requires Valid(t)
    ensures n.visits >= node.visits
    ensures n == node || (t.buckets[Index(hash, |t.buckets|)].hash == hash
                          && n == Node(t.buckets[Index(hash, |t.buckets|)].visits,
                                       t.buckets[Index(hash, |t.buckets|)].evalSum))
  {
    var e := t.buckets[Index(hash, |t.buckets|)];
    if e.hash != hash then node
    else if e.visits > node.visits then Node(e.visits, e.evalSum)
    else node
  }

  /** Update writes exactly the hash's bucket, with the hash and the node's
      statistics, and leaves every other bucket as it was. */
  lemma UpdateBuckets(t: Table, hash: bv64, node: Node)
    requires Valid(t)
    ensures var u := Update(t, hash, node); var i := Index(hash, |t.buckets|);
      && u.buckets[i] == Entry(hash, node.visits, node.blackEvals)
      && forall j :: 0 <= j < |t.buckets| && j != i ==> u.buckets[j] == t.buckets[j]
  {
  }

  /** Sync changes the node only on a matching hash with strictly more
      stored visits, and then to exactly the stored statistics. */
  lemma SyncCases(t: Table, hash: bv64, node: Node)
    requires Valid(t)
    ensures var e := t.buckets[Index(hash, |t.buckets|)];
      && (Sync(t, hash, node) != node ==>
            e.hash == hash && e.visits > node.visits && Sync(t, hash, node) == Node(e.visits, e.evalSum))
      && (e.hash != hash ==> Sync(t, hash, node) == node)
  {
  }

  /** Sync never lowers the node's visit count. */
  lemma SyncMonotone(t: Table, hash: bv64, node: Node)
    requires Valid(t)
    ensures Sync(t, hash, node).visits >= node.visits
  {
  }

  /** Syncing twice is syncing once. */
  lemma SyncIdempotent(t: Table, hash: bv64, node: Node)
    requires Valid(t)
    ensures Sync(t, hash, Sync(t, hash, node)) == Sync(t, hash, node)
  {
  }

  /** After storing a under a hash, syncing b with that hash leaves b with
      the larger of the two visit counts. */
  lemma UpdateThenSync(t: Table, hash: bv64, a: Node, b: Node)
    requires Valid(t)
    ensures Sync(Update(t, hash, a), hash, b).visits ==
      if a.visits > b.visits then a.visits else b.visits
    ensures a.visits > b.visits ==> Sync(Update(t, hash, a), hash, b) == a
  {
  }

  /** Storing under one hash does not disturb a sync under a hash that lives
      in another bucket. */
  lemma UpdateOtherBucket(t: Table, h: bv64, g: bv64, a: Node, b: Node)
    requires Valid(t)
    requires Index(h, |t.buckets|) != Index(g, |t.buckets|)
    ensures Sync(Update(t, h, a), g, b) == Sync(t, g, b)
  {
  }

  /** A fresh table syncs a node of non-negative visits to itself. */
  lemma FreshSync(size: nat, hash: bv64, node: Node)
    requires size > 0 && node.visits >= 0
    ensures Sync(Create(size), hash, node) == node
  {
  }

  /** The table the engine builds: 500000 zeroed buckets, in which a sync
      finds no entry for any hash but 0. */
  lemma DefaultTable(hash: bv64, node: Node)
    requires hash != 0
    ensures |Create(DefaultSize).buckets| == 500000
    ensures Sync(Create(DefaultSize), hash, node) == node
  {
  }
}
