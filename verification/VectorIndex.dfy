/**
  The vector index beside the chunk table: incremental indexing, full rebuild, and the batching
  pipeline below them.  A run may be cut off between any two writes, by a crash or an exception.
 */
module VectorIndex {
  import opened Options
  import opened Embeddings

  type Id = string

  // A chunk row; `mark` is its embedding_id column.
  datatype Row = Row(id: Id, item: Id, text: string, mark: Option<Id>)

  // An index entry: the embedded text, its vector, and the knowledge item it was indexed for.
  datatype Entry = Entry(item: Id, text: string, vector: Vector)

  type Collection = map<Id, Entry>

  const LIST_LIMIT := 100000

  // ----- the chunk table

  ghost predicate UniqueIds(table: seq<Row>) {
    forall i, j :: 0 <= i < j < |table| ==> table[i].id != table[j].id
  }

  function OfItem(table: seq<Row>, item: Id): seq<Row> {
    if table == [] then []
    else (if table[0].item == item then [table[0]] else []) + OfItem(table[1..], item)
  }

  function Limited(rows: seq<Row>): seq<Row> {
    if |rows| > LIST_LIMIT then rows[..LIST_LIMIT] else rows
  }

  // The rows a run works on: those of one item, or all.
  datatype Scope = One(item: Id) | All

  function InScope(table: seq<Row>, scope: Scope): seq<Row> {
    match scope case One(item) => OfItem(table, item) case All => table
  }

  function Listed(table: seq<Row>, scope: Scope): seq<Row> {
    Limited(InScope(table, scope))
  }

  function Ids(rows: seq<Row>): (ids: set<Id>)
    ensures forall r <- rows :: r.id in ids
    ensures forall id <- ids :: exists r :: r in rows && r.id == id
  {
    set r <- rows :: r.id
  }

  function MarkRow(row: Row, ids: set<Id>): Row {
    if row.id in ids then row.(mark := Some(row.id)) else row
  }

  function Mark(table: seq<Row>, ids: set<Id>): (t: seq<Row>)
    ensures |t| == |table|
    ensures forall i :: 0 <= i < |table| ==> t[i] == MarkRow(table[i], ids)
  {
    seq(|table|, i requires 0 <= i < |table| => MarkRow(table[i], ids))
  }

  function ClearRow(row: Row, scope: Scope): Row {
    if scope == All || row.item == scope.item then row.(mark := None) else row
  }

  function Clear(table: seq<Row>, scope: Scope): (t: seq<Row>)
    ensures |t| == |table|
    ensures forall i :: 0 <= i < |table| ==> t[i] == ClearRow(table[i], scope)
  {
    seq(|table|, i requires 0 <= i < |table| => ClearRow(table[i], scope))
  }

  // Tables that differ in marks only.
  ghost predicate SameRows(a: seq<Row>, b: seq<Row>) {
    |a| == |b| && forall i :: 0 <= i < |a| ==> a[i].(mark := None) == b[i].(mark := None)
  }

  lemma {:induction false} OfItemRows(table: seq<Row>, item: Id)
    ensures forall r :: r in OfItem(table, item) <==> r in table && r.item == item
    ensures UniqueIds(table) ==> UniqueIds(OfItem(table, item))
  {
    if table != [] {
      OfItemRows(table[1..], item);
    }
  }

  lemma ListedRows(table: seq<Row>, scope: Scope)
    ensures forall r <- Listed(table, scope) :: r in table && (scope == All || r.item == scope.item)
    ensures UniqueIds(table) ==> UniqueIds(Listed(table, scope))
    ensures |table| <= LIST_LIMIT ==>
              forall r :: r in Listed(table, scope) <==> r in table && (scope == All || r.item == scope.item)
  {
    if scope.One? {
      OfItemRows(table, scope.item);
      OfItemShorter(table, scope.item);
    }
  }

  lemma {:induction false} OfItemShorter(table: seq<Row>, item: Id)
    ensures |OfItem(table, item)| <= |table|
  {
    if table != [] {
      OfItemShorter(table[1..], item);
    }
  }

  lemma {:induction false} OfItemSame(a: seq<Row>, b: seq<Row>, item: Id)
    requires SameRows(a, b)
    ensures SameRows(OfItem(a, item), OfItem(b, item))
  {
    if a != [] {
      assert SameRows(a[1..], b[1..]);
      OfItemSame(a[1..], b[1..], item);
      assert a[0].(mark := None) == b[0].(mark := None);
      assert a[0].item == a[0].(mark := None).item;
    }
  }

  // ----- the index entries

  // The ids the index holds for the scope.
  function Indexed(collection: Collection, scope: Scope): set<Id> {
    set id <- collection | scope == All || collection[id].item == scope.item
  }

  function EntryOf(vec: string -> Vector, row: Row): Entry {
    Entry(row.item, row.text, vec(row.text))
  }

  // The collection after upserting the rows one after the other.
  function PutAll(vec: string -> Vector, collection: Collection, rows: seq<Row>): Collection {
    if rows == [] then collection
    else
      var last := rows[|rows| - 1];
      PutAll(vec, collection, rows[..|rows| - 1])[last.id := EntryOf(vec, last)]
  }

  lemma {:induction false} PutAllSplit(vec: string -> Vector, collection: Collection, a: seq<Row>, b: seq<Row>)
    ensures PutAll(vec, collection, a + b) == PutAll(vec, PutAll(vec, collection, a), b)
  {
    if b == [] {
      assert a + b == a;
    } else {
      var n := |b| - 1;
      assert (a + b)[..|a + b| - 1] == a + b[..n];
      PutAllSplit(vec, collection, a, b[..n]);
    }
  }

  lemma {:induction false} PutAllEntries(vec: string -> Vector, collection: Collection, rows: seq<Row>)
    requires UniqueIds(rows)
    ensures PutAll(vec, collection, rows).Keys == collection.Keys + Ids(rows)
    ensures forall r <- rows :: PutAll(vec, collection, rows)[r.id] == EntryOf(vec, r)
    ensures forall id <- collection :: id !in Ids(rows) ==> PutAll(vec, collection, rows)[id] == collection[id]
  {
    if rows != [] {
      var n := |rows| - 1;
      PutAllEntries(vec, collection, rows[..n]);
      assert rows == rows[..n] + [rows[n]];
      assert Ids(rows) == Ids(rows[..n]) + {rows[n].id};
    }
  }

  // ----- what a run is about to do

  function Stale(collection: Collection, table: seq<Row>, scope: Scope): set<Id> {
    Indexed(collection, scope) - Ids(Listed(table, scope))
  }

  function NotIn(rows: seq<Row>, ids: set<Id>): seq<Row> {
    if rows == [] then []
    else (if rows[0].id in ids then [] else [rows[0]]) + NotIn(rows[1..], ids)
  }

  lemma {:induction false} NotInRows(rows: seq<Row>, ids: set<Id>)
    ensures forall r :: r in NotIn(rows, ids) <==> r in rows && r.id !in ids
    ensures UniqueIds(rows) ==> UniqueIds(NotIn(rows, ids))
  {
    if rows != [] {
      NotInRows(rows[1..], ids);
    }
  }

  // ----- the promise of a completed run

  // The entries of the scope are exactly those of the listed rows.
  ghost predicate HoldsListed(collection: Collection, table: seq<Row>, scope: Scope) {
    forall id ::
      id in collection && (scope.All? || collection[id].item == scope.item) <==> id in Ids(Listed(table, scope))
  }

  // The index holds exactly the listed rows of the scope, and every listed row is marked.
  ghost predicate Agrees(collection: Collection, table: seq<Row>, scope: Scope) {
    HoldsListed(collection, table, scope) && forall r <- Listed(table, scope) :: r.mark == Some(r.id)
  }

  lemma HoldsIsIndexed(collection: Collection, table: seq<Row>, scope: Scope)
    ensures HoldsListed(collection, table, scope) <==> Indexed(collection, scope) == Ids(Listed(table, scope))
  {
    if Indexed(collection, scope) == Ids(Listed(table, scope)) {
      forall id ensures id in collection && (scope.All? || collection[id].item == scope.item)
                        <==> id in Ids(Listed(table, scope))
      {
        assert id in Indexed(collection, scope) <==> id in Ids(Listed(table, scope));
      }
    }
  }

  /** The listing limit decides whether agreement covers the whole scope: the index holds exactly the
      ids of all rows in scope if and only if there are at most 100000 of them.  Beyond that a run
      takes the entries of unlisted rows for stale. */
  lemma LimitDecides(collection: Collection, table: seq<Row>, scope: Scope)
    requires UniqueIds(table) && Agrees(collection, table, scope)
    ensures Indexed(collection, scope) == Ids(InScope(table, scope)) <==> |InScope(table, scope)| <= LIST_LIMIT
  {
    var rows := InScope(table, scope);
    if scope.One? {
      OfItemRows(table, scope.item);
    }
    if |rows| > LIST_LIMIT {
      assert rows[LIST_LIMIT].id in Ids(rows);
      forall r | r in Limited(rows) ensures r.id != rows[LIST_LIMIT].id {
      }
    }
  }

  lemma SameIdSameRow(table: seq<Row>, a: Row, b: Row)
    requires UniqueIds(table) && a in table && b in table && a.id == b.id
    ensures a == b
  {
  }

  /** An agreeing index leaves a second run nothing to delete, to index or to mark. */
  lemma AgreedIsDone(collection: Collection, table: seq<Row>, scope: Scope)
    requires UniqueIds(table) && Agrees(collection, table, scope)
    ensures Stale(collection, table, scope) == {}
    ensures NotIn(Listed(table, scope), Indexed(collection, scope)) == []
    ensures Mark(table, Indexed(collection, scope)) == table
  {
    NoneMissing(Listed(table, scope), Indexed(collection, scope));
    ListedRows(table, scope);
  }

  lemma {:induction false} NoneMissing(rows: seq<Row>, ids: set<Id>)
    requires forall r <- rows :: r.id in ids
    ensures NotIn(rows, ids) == []
  {
    if rows != [] {
      NoneMissing(rows[1..], ids);
    }
  }

  lemma MarkTwice(table: seq<Row>, a: set<Id>, b: set<Id>)
    ensures Mark(Mark(table, a), b) == Mark(table, a + b)
    ensures SameRows(table, Mark(table, a))
    ensures Mark(table, {}) == table
  {
  }

  lemma IdsSplit(a: seq<Row>, b: seq<Row>)
    ensures Ids(a + b) == Ids(a) + Ids(b)
  {
    forall id | id in Ids(a) + Ids(b) ensures id in Ids(a + b) {
      if id in Ids(a) {
        var r :| r in a && r.id == id;
        assert r in a + b;
      } else {
        var r :| r in b && r.id == id;
        assert r in a + b;
      }
    }
  }

  // ----- the buffers between embedding and upserting

  datatype Buffers = Buffers(ids: seq<Id>, documents: seq<string>, embeddings: seq<Vector>, metadatas: seq<Id>) {
    function Size(): nat { |ids| }

    predicate Level() {
      |ids| == |documents| == |embeddings| == |metadatas|
    }

    function Take(n: nat): Buffers
      requires Level() && n <= Size()
    {
      Buffers(ids[..n], documents[..n], embeddings[..n], metadatas[..n])
    }

    function Drop(n: nat): Buffers
      requires Level() && n <= Size()
    {
      Buffers(ids[n..], documents[n..], embeddings[n..], metadatas[n..])
    }

    function Append(more: Buffers): Buffers {
      Buffers(ids + more.ids, documents + more.documents, embeddings + more.embeddings, metadatas + more.metadatas)
    }

    // The buffers hold these rows, position by position.
    ghost predicate Hold(vec: string -> Vector, rows: seq<Row>) {
      && Level() && Size() == |rows|
      && forall i :: 0 <= i < |rows| ==>
           && ids[i] == rows[i].id && documents[i] == rows[i].text
           && embeddings[i] == vec(rows[i].text) && metadatas[i] == rows[i].item
    }
  }

  function RowIds(rows: seq<Row>): (ids: seq<Id>)
    ensures |ids| == |rows| && forall i :: 0 <= i < |rows| ==> ids[i] == rows[i].id
  {
    seq(|rows|, i requires 0 <= i < |rows| => rows[i].id)
  }

  function Texts(rows: seq<Row>): (texts: seq<string>)
    ensures |texts| == |rows| && forall i :: 0 <= i < |rows| ==> texts[i] == rows[i].text
  {
    seq(|rows|, i requires 0 <= i < |rows| => rows[i].text)
  }

  function Items(rows: seq<Row>): (items: seq<Id>)
    ensures |items| == |rows| && forall i :: 0 <= i < |rows| ==> items[i] == rows[i].item
  {
    seq(|rows|, i requires 0 <= i < |rows| => rows[i].item)
  }

  // The first `n` entries of an upsert call, taken from the four lists by position.
  function UpsertedTo(collection: Collection, b: Buffers, n: nat): Collection
    requires b.Level() && n <= b.Size()
  {
    if n == 0 then collection
    else
      var entry := Entry(b.metadatas[n - 1], b.documents[n - 1], b.embeddings[n - 1]);
      UpsertedTo(collection, b, n - 1)[b.ids[n - 1] := entry]
  }

  function Upserted(collection: Collection, b: Buffers): Collection
    requires b.Level()
  {
    UpsertedTo(collection, b, b.Size())
  }

  lemma {:induction false} UpsertedRows(vec: string -> Vector, collection: Collection, b: Buffers, rows: seq<Row>,
                                        n: nat)
    requires b.Hold(vec, rows) && n <= |rows|
    ensures UpsertedTo(collection, b, n) == PutAll(vec, collection, rows[..n])
  {
    if n > 0 {
      UpsertedRows(vec, collection, b, rows, n - 1);
      assert rows[..n][..n - 1] == rows[..n - 1];
    }
  }

  // ----- the record of a pipeline run

  function Flat(batches: seq<seq<Id>>): seq<Id> {
    if batches == [] then [] else Flat(batches[..|batches| - 1]) + batches[|batches| - 1]
  }

  // Every batch but the last is full.
  ghost predicate Full(batches: seq<seq<Id>>, size: nat) {
    forall i :: 0 <= i < |batches| ==> |batches[i]| == size
  }

  ghost predicate NearlyFull(batches: seq<seq<Id>>, size: nat) {
    && Full(batches[..if batches == [] then 0 else |batches| - 1], size)
    && (batches != [] ==> 1 <= |batches[|batches| - 1]| <= size)
  }

  // The progress calls: first the offset, then the offset plus all that has been upserted.
  ghost predicate Reports(progress: seq<nat>, offset: nat, batches: seq<seq<Id>>) {
    && |progress| == |batches| + 1
    && forall i :: 0 <= i < |progress| ==> progress[i] == offset + |Flat(batches[..i])|
  }

  lemma {:induction false} FlatSize(batches: seq<seq<Id>>, size: nat)
    requires Full(batches, size)
    ensures |Flat(batches)| == size * |batches|
  {
    if batches != [] {
      FlatSize(batches[..|batches| - 1], size);
      assert size * |batches| == size * (|batches| - 1) + size;
    }
  }

  lemma MulAtLeast(a: int, b: int)
    requires a >= 1 && b >= 0
    ensures b * a >= b
  {
  }

  lemma DivIs(n: nat, size: nat, q: nat, r: nat)
    requires r < size && n == size * q + r
    ensures n / size == q
  {
    var d, m := n / size, n % size;
    assert n == size * d + m;
    assert size * (q - d) == m - r;
    if q > d {
      MulAtLeast(q - d, size);
    } else if d > q {
      assert size * (d - q) == r - m;
      MulAtLeast(d - q, size);
    }
  }

  lemma CeilIs(n: nat, size: nat, k: nat, last: nat)
    requires 1 <= last <= size && n == size * k + last
    ensures k + 1 == (n + size - 1) / size
  {
    assert size * (k + 1) == size * k + size;
    DivIs(n + size - 1, size, k + 1, last - 1);
  }

  // The number of batches that `n` items make, each as full as it can be.
  function Batches(n: nat, size: nat): nat
    requires size >= 1
  {
    if n == 0 then 0 else 1 + Batches(if n < size then 0 else n - size, size)
  }

  lemma {:induction false} BatchesRoundUp(n: nat, size: nat)
    requires size >= 1
    ensures Batches(n, size) == (n + size - 1) / size
  {
    if n <= size {
      DivIs(n + size - 1, size, if n == 0 then 0 else 1, if n == 0 then size - 1 else n - 1);
    } else {
      BatchesRoundUp(n - size, size);
      var q, r := (n - 1) / size, (n - 1) % size;
      assert n - 1 == size * q + r && size * (q + 1) == size * q + size;
      DivIs(n + size - 1, size, q + 1, r);
    }
  }

  // Items left over after `k` full batches need another batch.
  lemma {:induction false} OneBatchMore(n: nat, size: nat, k: nat)
    requires size >= 1 && size * k < n
    ensures k < Batches(n, size)
  {
    if k > 0 {
      assert size * k == size * (k - 1) + size;
      OneBatchMore(n - size, size, k - 1);
    }
  }

  /** With all batches full but the last there are as many as the rounded-up quotient. */
  lemma {:induction false} BatchCount(batches: seq<seq<Id>>, size: nat)
    requires size >= 1 && NearlyFull(batches, size)
    ensures |batches| == (|Flat(batches)| + size - 1) / size == Batches(|Flat(batches)|, size)
  {
    BatchesRoundUp(|Flat(batches)|, size);
    if batches != [] {
      var n := |batches| - 1;
      FlatSize(batches[..n], size);
      CeilIs(|Flat(batches)|, size, n, |batches[n]|);
    }
  }

  /** Progress strictly rises after the first report and ends at the offset plus all ids. */
  lemma {:induction false} ProgressRises(progress: seq<nat>, offset: nat, batches: seq<seq<Id>>, size: nat)
    requires size >= 1 && NearlyFull(batches, size) && Reports(progress, offset, batches)
    ensures progress[0] == offset && progress[|progress| - 1] == offset + |Flat(batches)|
    ensures forall i :: 0 < i < |progress| ==> progress[i - 1] < progress[i]
  {
    assert batches[..|batches|] == batches;
    forall i | 0 < i < |progress| ensures progress[i - 1] < progress[i] {
      assert batches[..i][..i - 1] == batches[..i - 1];
      var full := batches[..|batches| - 1];
      assert i - 1 < |full| ==> full[i - 1] == batches[i - 1];
    }
  }
}
