/**
  Index runs: `budget` is the number of writes a run may still make before it is cut off, so every
  statement below about runs that are not finished holds for a cut between any two writes.
 */
module IndexRuns {
  import opened Options
  import opened Embeddings
  import opened VectorIndex

  datatype Outcome = NotFound | CutOff | Done(indexed: nat, deleted: nat, skipped: nat)

  // ----- why a run converges

  lemma SameListed(a: seq<Row>, b: seq<Row>, scope: Scope)
    requires SameRows(a, b)
    ensures Ids(Listed(a, scope)) == Ids(Listed(b, scope))
    ensures UniqueIds(a) ==> UniqueIds(b)
  {
    if scope.One? {
      OfItemSame(a, b, scope.item);
    }
    forall i | 0 <= i < |a| ensures a[i].id == b[i].id {
      assert a[i].(mark := None) == b[i].(mark := None);
      assert a[i].(mark := None).id == a[i].id && b[i].(mark := None).id == b[i].id;
    }
  }

  lemma {:induction false} NotInIds(rows: seq<Row>, kept: set<Id>)
    ensures Ids(NotIn(rows, kept)) == Ids(rows) - kept
  {
    NotInRows(rows, kept);
    forall id | id in Ids(rows) - kept ensures id in Ids(NotIn(rows, kept)) {
      var r :| r in rows && r.id == id;
      assert r in NotIn(rows, kept);
    }
  }

  // The index keeps `kept`, the rows not kept are upserted: the scope is indexed exactly.
  lemma {:induction false} IndexedAfter(vec: string -> Vector, c: Collection, listed: seq<Row>, scope: Scope,
                                        kept: set<Id>)
    requires UniqueIds(listed) && (scope.One? ==> forall r <- listed :: r.item == scope.item)
    requires Indexed(c, scope) == kept && kept <= Ids(listed)
    ensures Indexed(PutAll(vec, c, NotIn(listed, kept)), scope) == Ids(listed)
  {
    var missing := NotIn(listed, kept);
    NotInRows(listed, kept);
    NotInIds(listed, kept);
    PutAllEntries(vec, c, missing);
    var after := PutAll(vec, c, missing);
    forall id | id in Ids(listed) ensures id in Indexed(after, scope) {
      if id in Ids(missing) {
        var r :| r in missing && r.id == id;
        assert after[r.id] == EntryOf(vec, r);
      } else {
        assert id in c && after[id] == c[id];
      }
    }
    forall id | id in Indexed(after, scope) ensures id in Ids(listed) {
      if id !in Ids(missing) {
        assert after[id] == c[id];
      }
    }
  }

  // Marking what was kept and then what was upserted marks every listed row.
  lemma {:induction false} MarkedAfter(t: seq<Row>, t': seq<Row>, scope: Scope, kept: set<Id>)
    requires UniqueIds(t) && SameRows(t, t') && kept <= Ids(Listed(t, scope))
    ensures var missing := NotIn(Listed(t, scope), kept);
            var after := Mark(Mark(t', kept), Ids(missing));
            && SameRows(t, after)
            && Ids(Listed(after, scope)) == Ids(Listed(t, scope))
            && forall r <- Listed(after, scope) :: r.mark == Some(r.id)
  {
    var missing := NotIn(Listed(t, scope), kept);
    NotInIds(Listed(t, scope), kept);
    MarkTwice(t', kept, Ids(missing));
    var after := Mark(t', kept + Ids(missing));
    forall i | 0 <= i < |t| ensures t[i].(mark := None) == after[i].(mark := None) {
      assert t[i].(mark := None) == t'[i].(mark := None);
    }
    SameListed(t, after, scope);
    ListedRows(after, scope);
    forall r | r in Listed(after, scope) ensures r.mark == Some(r.id) {
      assert r.id in Ids(Listed(after, scope));
    }
  }

  /** The heart of convergence: whatever entries and marks there are, keeping exactly the entries of
      listed rows, upserting the other listed rows and marking both leaves index and table agreeing. */
  lemma {:induction false} RunConverges(vec: string -> Vector, c: Collection, t: seq<Row>, t': seq<Row>, scope: Scope,
                                        kept: set<Id>)
    requires UniqueIds(t) && SameRows(t, t')
    requires Indexed(c, scope) == kept && kept <= Ids(Listed(t, scope))
    ensures var missing := NotIn(Listed(t, scope), kept);
            Agrees(PutAll(vec, c, missing), Mark(Mark(t', kept), Ids(missing)), scope)
  {
    ListedRows(t, scope);
    IndexedAfter(vec, c, Listed(t, scope), scope, kept);
    MarkedAfter(t, t', scope, kept);
  }

  // ----- what a run does in all

  // The entries that stay: none of a forced run, else those of listed rows.
  function Kept(c: Collection, t: seq<Row>, scope: Scope, force: bool): set<Id> {
    if force then {} else Indexed(c, scope) * Ids(Listed(t, scope))
  }

  // The collection before anything is upserted, and the table before anything is marked.
  function Base(c: Collection, t: seq<Row>, scope: Scope, force: bool): Collection {
    if force then c - Indexed(c, scope) else c - Stale(c, t, scope)
  }

  function BaseTable(t: seq<Row>, scope: Scope, force: bool): seq<Row> {
    if force then Clear(t, scope) else t
  }

  function Missing(c: Collection, t: seq<Row>, scope: Scope, force: bool): seq<Row> {
    NotIn(Listed(t, scope), Kept(c, t, scope, force))
  }

  // The writes of a run before anything is upserted: a forced run drops the entries and clears the marks,
  // another one deletes what is stale in batches and marks what stays.
  function Preparation(c: Collection, t: seq<Row>, scope: Scope, force: bool, size: nat): nat
    requires size >= 1
  {
    if force then 2
    else Batches(|Stale(c, t, scope)|, size) + if Kept(c, t, scope, false) != {} then 1 else 0
  }

  // All writes of a run: each batch is upserted and then marked.
  function Writes(c: Collection, t: seq<Row>, scope: Scope, force: bool, size: nat): nat
    requires size >= 1
  {
    Preparation(c, t, scope, force, size) + 2 * Batches(|Missing(c, t, scope, force)|, size)
  }

  lemma WhatStays(c: Collection, t: seq<Row>, scope: Scope)
    ensures Indexed(c, scope) - Stale(c, t, scope) == Kept(c, t, scope, false)
    ensures Indexed(c, scope) - Kept(c, t, scope, false) == Stale(c, t, scope)
    ensures Kept(c, t, scope, false) <= Ids(Listed(t, scope))
  {
  }

  // The outcome of a finished run, in terms of the index `c0` and table `t0` it found.
  ghost predicate Completed(vec: string -> Vector, c0: Collection, t0: seq<Row>, c: Collection, t: seq<Row>,
                            scope: Scope, force: bool, r: Outcome) {
    && Agrees(c, t, scope)
    && c == PutAll(vec, Base(c0, t0, scope, force), Missing(c0, t0, scope, force))
    && t == Mark(Mark(BaseTable(t0, scope, force), Kept(c0, t0, scope, force)), Ids(Missing(c0, t0, scope, force)))
    && r == Done(|Missing(c0, t0, scope, force)|, |Indexed(c0, scope) - Kept(c0, t0, scope, force)|,
                 |Kept(c0, t0, scope, force)|)
  }

  // Only the scope is touched: rows keep their data, rows of other items their marks, and only
  // entries of the scope or of its rows change.
  ghost predicate OnlyScope(c0: Collection, t0: seq<Row>, c: Collection, t: seq<Row>, scope: Scope) {
    && SameRows(t0, t)
    && (scope.One? ==> forall i :: 0 <= i < |t0| && t0[i].item != scope.item ==> t[i] == t0[i])
    && (scope.One? ==> forall id <- c0 :: c0[id].item != scope.item && id !in Ids(Listed(t0, scope)) ==>
          id in c && c[id] == c0[id])
    && (forall id <- c :: id in c0 || id in Ids(Listed(t0, scope)))
  }

  // No row of the scope is marked, and every other row is as it was.
  ghost predicate Unmarked(before: seq<Row>, after: seq<Row>, scope: Scope) {
    |after| == |before|
    && forall i :: 0 <= i < |before| ==>
         after[i] == if scope.All? || before[i].item == scope.item then before[i].(mark := None) else before[i]
  }

  lemma AllKept(c: Collection, t: seq<Row>, scope: Scope)
    requires Indexed(c, scope) == Ids(Listed(t, scope))
    requires Stale(c, t, scope) == {} && NotIn(Listed(t, scope), Indexed(c, scope)) == []
    ensures Kept(c, t, scope, false) == Indexed(c, scope)
    ensures Missing(c, t, scope, false) == [] && Base(c, t, scope, false) == c
  {
    assert Indexed(c, scope) * Ids(Listed(t, scope)) == Indexed(c, scope);
  }

  lemma NothingToDo(c: Collection, t: seq<Row>, scope: Scope)
    requires UniqueIds(t) && Agrees(c, t, scope)
    ensures Kept(c, t, scope, false) == Indexed(c, scope) == Ids(Listed(t, scope))
    ensures Missing(c, t, scope, false) == [] && Base(c, t, scope, false) == c
  {
    HoldsIsIndexed(c, t, scope);
    AgreedIsDone(c, t, scope);
    AllKept(c, t, scope);
  }

  lemma MarkedAlready(c: Collection, t: seq<Row>, scope: Scope)
    requires UniqueIds(t) && Agrees(c, t, scope)
    ensures Mark(Mark(t, Indexed(c, scope)), {}) == t
  {
    AgreedIsDone(c, t, scope);
    MarkTwice(t, {}, {});
  }

  /** A second run that is not forced finds nothing to do: it indexes nothing, deletes nothing and
      changes neither index nor table. */
  lemma SecondRunIsIdle(vec: string -> Vector, c0: Collection, t0: seq<Row>, c: Collection, t: seq<Row>,
                        scope: Scope, r: Outcome)
    requires UniqueIds(t0) && Agrees(c0, t0, scope)
    requires Completed(vec, c0, t0, c, t, scope, false, r)
    ensures r == Done(0, 0, |Listed(t0, scope)|) && c == c0 && t == t0
  {
    NothingToDo(c0, t0, scope);
    MarkedAlready(c0, t0, scope);
    ListedRows(t0, scope);
    IdsCount(Listed(t0, scope));
    assert Ids([]) == {};
  }

  lemma {:induction false} IdsCount(rows: seq<Row>)
    requires UniqueIds(rows)
    ensures |Ids(rows)| == |rows|
  {
    if rows != [] {
      IdsCount(rows[1..]);
      FirstId(rows);
    }
  }

  lemma FirstId(rows: seq<Row>)
    requires UniqueIds(rows) && rows != []
    ensures Ids(rows) == {rows[0].id} + Ids(rows[1..]) && rows[0].id !in Ids(rows[1..])
    ensures UniqueIds(rows[1..])
  {
    IdsSplit([rows[0]], rows[1..]);
    assert rows == [rows[0]] + rows[1..];
    assert Ids([rows[0]]) == {rows[0].id};
  }

  /** What the entries of a finished run hold: an upserted row its own text and vector, a kept entry
      whatever it held before. */
  lemma EntriesOfRun(vec: string -> Vector, c0: Collection, t0: seq<Row>, c: Collection, scope: Scope, force: bool,
                     row: Row)
    requires UniqueIds(t0) && row in Listed(t0, scope)
    requires c == PutAll(vec, Base(c0, t0, scope, force), Missing(c0, t0, scope, force))
    ensures row.id in c
    ensures c[row.id] == EntryOf(vec, row) <==>
              force || row.id !in Indexed(c0, scope) || c0[row.id] == EntryOf(vec, row)
  {
    ListedRows(t0, scope);
    var kept := Kept(c0, t0, scope, force);
    NotInRows(Listed(t0, scope), kept);
    NotInIds(Listed(t0, scope), kept);
    PutAllEntries(vec, Base(c0, t0, scope, force), Missing(c0, t0, scope, force));
    if row.id !in kept {
      assert row in Missing(c0, t0, scope, force);
    }
  }

  lemma ProperSubset<T>(a: set<T>, b: set<T>)
    requires a <= b && |a| < |b|
    ensures exists x :: x in b && x !in a
  {
    assert |b - a| == |b| - |a|;
    assert b - a != {};
  }

  lemma Remaining<T>(a: set<T>, b: set<T>)
    requires b <= a
    ensures |a - b| == |a| - |b|
  {
  }

  lemma MinusTwice<K, V>(m: map<K, V>, a: set<K>, b: set<K>)
    ensures m - a - b == m - (a + b)
  {
  }

  // One batch of ids less.
  lemma {:induction false} RestBatches<T>(ids: set<T>, rest: set<T>, batch: set<T>, size: nat)
    requires size >= 1 && rest != {} && batch <= rest <= ids && |batch| == if |rest| < size then |rest| else size
    ensures ids - rest + batch == ids - (rest - batch)
    ensures |rest - batch| == |rest| - |batch| && Batches(|rest|, size) == 1 + Batches(|rest - batch|, size)
  {
    Remaining(rest, batch);
  }

  lemma DeletedOnly(c0: Collection, t0: seq<Row>, scope: Scope, gone: set<Id>)
    requires gone <= Indexed(c0, scope)
    ensures OnlyScope(c0, t0, c0 - gone, t0, scope)
  {
  }

  lemma MarkedOnly(c0: Collection, t0: seq<Row>, c: Collection, scope: Scope, ids: set<Id>)
    requires UniqueIds(t0) && OnlyScope(c0, t0, c, t0, scope) && ids <= Ids(Listed(t0, scope))
    ensures OnlyScope(c0, t0, c, Mark(t0, ids), scope)
  {
    ListedRows(t0, scope);
    MarkTwice(t0, ids, {});
    if scope.One? {
      forall i | 0 <= i < |t0| && t0[i].item != scope.item ensures Mark(t0, ids)[i] == t0[i] {
        if t0[i].id in ids {
          var r :| r in Listed(t0, scope) && r.id == t0[i].id;
          SameIdSameRow(t0, r, t0[i]);
        }
      }
    }
  }

  lemma ClearedOnly(c0: Collection, t0: seq<Row>, c: Collection, scope: Scope)
    requires OnlyScope(c0, t0, c, t0, scope)
    ensures OnlyScope(c0, t0, c, Clear(t0, scope), scope)
  {
  }

  // The pipeline upserted exactly these rows, in order, in full batches but the last, and reported.
  ghost predicate Piped(pipe: Pipe, size: nat, offset: nat, rows: seq<Row>) {
    && Flat(pipe.batches) == RowIds(rows)
    && NearlyFull(pipe.batches, size)
    && Reports(pipe.progress, offset, pipe.batches)
  }

  lemma {:induction false} NotInCount(rows: seq<Row>, kept: set<Id>)
    requires UniqueIds(rows)
    ensures |NotIn(rows, kept)| + |kept * Ids(rows)| == |rows|
  {
    if rows == [] {
      assert kept * Ids(rows) == {};
    } else {
      FirstId(rows);
      NotInCount(rows[1..], kept);
      IntersectFirst(kept, rows[0].id, Ids(rows[1..]));
    }
  }

  lemma IntersectFirst<T>(kept: set<T>, x: T, rest: set<T>)
    requires x !in rest
    ensures |kept * ({x} + rest)| == |kept * rest| + if x in kept then 1 else 0
  {
    if x in kept {
      assert kept * ({x} + rest) == {x} + kept * rest;
    } else {
      assert kept * ({x} + rest) == kept * rest;
    }
  }

  /** A finished run made the rounded-up number of upserts; its progress reports start at the number
      of kept rows, strictly rise, and end exactly at the number of listed rows. */
  lemma PipelineOfRun(pipe: Pipe, size: nat, c0: Collection, t0: seq<Row>, scope: Scope, force: bool, r: Outcome)
    requires size >= 1 && UniqueIds(t0)
    requires r.Done? && r.skipped == |Kept(c0, t0, scope, force)|
    requires Piped(pipe, size, r.skipped, Missing(c0, t0, scope, force))
    ensures |pipe.batches| == (|Missing(c0, t0, scope, force)| + size - 1) / size
    ensures pipe.progress[0] == r.skipped
    ensures pipe.progress[|pipe.progress| - 1] == |Listed(t0, scope)|
    ensures forall i :: 0 < i < |pipe.progress| ==> pipe.progress[i - 1] < pipe.progress[i]
  {
    PipedRows(pipe, size, r.skipped, Missing(c0, t0, scope, force));
    ListedCount(c0, t0, scope, force);
  }

  lemma ListedCount(c0: Collection, t0: seq<Row>, scope: Scope, force: bool)
    requires UniqueIds(t0)
    ensures |Kept(c0, t0, scope, force)| + |Missing(c0, t0, scope, force)| == |Listed(t0, scope)|
  {
    ListedRows(t0, scope);
    MissingCount(Listed(t0, scope), Kept(c0, t0, scope, force));
  }

  lemma PipedRows(pipe: Pipe, size: nat, offset: nat, rows: seq<Row>)
    requires size >= 1 && Piped(pipe, size, offset, rows)
    ensures |pipe.batches| == (|rows| + size - 1) / size
    ensures pipe.progress[0] == offset && pipe.progress[|pipe.progress| - 1] == offset + |rows|
    ensures forall i :: 0 < i < |pipe.progress| ==> pipe.progress[i - 1] < pipe.progress[i]
  {
    BatchCount(pipe.batches, size);
    ProgressRises(pipe.progress, offset, pipe.batches, size);
  }

  lemma {:induction false} MissingCount(rows: seq<Row>, kept: set<Id>)
    requires UniqueIds(rows) && kept <= Ids(rows)
    ensures |kept| + |NotIn(rows, kept)| == |rows|
  {
    NotInCount(rows, kept);
    assert kept * Ids(rows) == kept;
  }

  // ----- the batching pipeline

  // After upserting the first `w` chunks and marking the first `m`.
  ghost predicate At(vec: string -> Vector, c: Collection, t: seq<Row>, c0: Collection, t0: seq<Row>,
                     chunks: seq<Row>, w: nat, m: nat) {
    && m <= w <= |chunks|
    && c == PutAll(vec, c0, chunks[..w])
    && t == Mark(t0, Ids(chunks[..m]))
  }

  lemma AtStart(vec: string -> Vector, c: Collection, t: seq<Row>, chunks: seq<Row>)
    ensures At(vec, c, t, c, t, chunks, 0, 0)
  {
    assert chunks[..0] == [];
    assert Ids([]) == {};
    MarkTwice(t, {}, {});
  }

  lemma {:induction false} RowsUpserted(vec: string -> Vector, c: Collection, c0: Collection, chunks: seq<Row>, w: nat,
                                        w': nat, b: Buffers)
    requires w <= w' <= |chunks| && c == PutAll(vec, c0, chunks[..w])
    requires b.Hold(vec, chunks[w..w'])
    ensures Upserted(c, b) == PutAll(vec, c0, chunks[..w'])
  {
    UpsertedRows(vec, c, b, chunks[w..w'], w' - w);
    assert chunks[w..w'][..w' - w] == chunks[w..w'];
    PutAllSplit(vec, c0, chunks[..w], chunks[w..w']);
    assert chunks[..w] + chunks[w..w'] == chunks[..w'];
  }

  lemma RowsMarked(vec: string -> Vector, t: seq<Row>, t0: seq<Row>, chunks: seq<Row>, w: nat, w': nat, b: Buffers)
    requires w <= w' <= |chunks| && t == Mark(t0, Ids(chunks[..w]))
    requires b.Hold(vec, chunks[w..w'])
    ensures Mark(t, IdSet(b.ids)) == Mark(t0, Ids(chunks[..w']))
  {
    IdsOfBuffers(vec, b, chunks[w..w']);
    assert chunks[..w] + chunks[w..w'] == chunks[..w'];
    IdsSplit(chunks[..w], chunks[w..w']);
    MarkTwice(t0, Ids(chunks[..w]), Ids(chunks[w..w']));
  }

  lemma AtUpsert(vec: string -> Vector, c: Collection, t: seq<Row>, c0: Collection, t0: seq<Row>,
                 chunks: seq<Row>, w: nat, w': nat, b: Buffers)
    requires At(vec, c, t, c0, t0, chunks, w, w) && w <= w' <= |chunks|
    requires b.Hold(vec, chunks[w..w'])
    ensures At(vec, Upserted(c, b), t, c0, t0, chunks, w', w)
    ensures At(vec, Upserted(c, b), Mark(t, IdSet(b.ids)), c0, t0, chunks, w', w')
  {
    RowsUpserted(vec, c, c0, chunks, w, w', b);
    RowsMarked(vec, t, t0, chunks, w, w', b);
  }

  // The loop variables of the pipeline: buffers, upserted batches, progress reports.
  datatype Pipe = Pipe(buffers: Buffers, batches: seq<seq<Id>>, progress: seq<nat>) {
    // After the first `take` buffered items have been upserted.
    function Advance(take: nat, offset: nat): Pipe
      requires buffers.Level() && take <= buffers.Size()
    {
      var batches' := batches + [buffers.ids[..take]];
      Pipe(buffers.Drop(take), batches', progress + [offset + |Flat(batches')|])
    }
  }

  // The batches upserted so far are the ids of the first `w` chunks, with progress reported for
  // each; the buffers hold the chunks from there up to `e`.
  ghost predicate Flows(vec: string -> Vector, chunks: seq<Row>, offset: nat, pipe: Pipe, w: nat, e: nat) {
    && w <= e <= |chunks|
    && pipe.buffers.Hold(vec, chunks[w..e])
    && Flat(pipe.batches) == RowIds(chunks[..w])
    && Reports(pipe.progress, offset, pipe.batches)
  }

  lemma {:induction false} ReportsMore(progress: seq<nat>, offset: nat, batches: seq<seq<Id>>, batch: seq<Id>)
    requires Reports(progress, offset, batches)
    ensures Flat(batches + [batch]) == Flat(batches) + batch
    ensures Reports(progress + [offset + |Flat(batches + [batch])|], offset, batches + [batch])
  {
    var more := batches + [batch];
    assert more[..|batches|] == batches;
    var reports := progress + [offset + |Flat(more)|];
    forall i | 0 <= i < |reports| ensures reports[i] == offset + |Flat(more[..i])| {
      if i < |progress| {
        assert more[..i] == batches[..i];
      } else {
        assert more[..i] == more;
      }
    }
  }

  lemma HoldParts(vec: string -> Vector, chunks: seq<Row>, b: Buffers, w: nat, e: nat, take: nat)
    requires w + take <= e <= |chunks| && b.Hold(vec, chunks[w..e])
    ensures b.Take(take).Hold(vec, chunks[w..w + take])
  {
  }

  lemma HoldRest(vec: string -> Vector, chunks: seq<Row>, b: Buffers, w: nat, e: nat, take: nat)
    requires w + take <= e <= |chunks| && b.Hold(vec, chunks[w..e])
    ensures b.Drop(take).Hold(vec, chunks[w + take..e])
    ensures b.ids[..take] == RowIds(chunks[w..w + take])
  {
  }

  lemma FlowsOn(vec: string -> Vector, chunks: seq<Row>, offset: nat, pipe: Pipe, w: nat, e: nat, take: nat)
    requires Flows(vec, chunks, offset, pipe, w, e) && w + take <= e
    ensures Flows(vec, chunks, offset, pipe.Advance(take, offset), w + take, e)
  {
    HoldRest(vec, chunks, pipe.buffers, w, e, take);
    ReportsMore(pipe.progress, offset, pipe.batches, pipe.buffers.ids[..take]);
    assert RowIds(chunks[..w]) + RowIds(chunks[w..w + take]) == RowIds(chunks[..w + take]);
  }

  lemma FullOn(batches: seq<seq<Id>>, batch: seq<Id>, size: nat)
    requires Full(batches, size) && 1 <= |batch| <= size
    ensures NearlyFull(batches + [batch], size)
    ensures |batch| == size ==> Full(batches + [batch], size)
  {
    assert (batches + [batch])[..|batches|] == batches;
  }

  // Chunks that are left after full batches need one more batch.
  lemma {:induction false} FullLeaves(batches: seq<seq<Id>>, size: nat, chunks: seq<Row>, w: nat)
    requires size >= 1 && Full(batches, size) && w < |chunks| && Flat(batches) == RowIds(chunks[..w])
    ensures |batches| < Batches(|chunks|, size)
  {
    FlatSize(batches, size);
    OneBatchMore(|chunks|, size, |batches|);
  }

  function IdSet(ids: seq<Id>): set<Id> {
    set id <- ids
  }

  lemma IdsOfBuffers(vec: string -> Vector, b: Buffers, rows: seq<Row>)
    requires b.Hold(vec, rows)
    ensures IdSet(b.ids) == Ids(rows)
  {
    forall id | id in Ids(rows) ensures id in b.ids {
      var r :| r in rows && r.id == id;
      var i :| 0 <= i < |rows| && rows[i] == r;
      assert b.ids[i] == id;
    }
  }

  lemma FlowsAtStart(vec: string -> Vector, chunks: seq<Row>, offset: nat)
    ensures Flows(vec, chunks, offset, Pipe(Buffers([], [], [], []), [], [offset]), 0, 0)
  {
    assert chunks[..0] == [];
    assert RowIds([]) == [];
  }

  lemma FlowsMore(vec: string -> Vector, chunks: seq<Row>, offset: nat, pipe: Pipe, w: nat, e: nat, e': nat,
                  more: Buffers)
    requires Flows(vec, chunks, offset, pipe, w, e) && e <= e' <= |chunks|
    requires more.Hold(vec, chunks[e..e'])
    ensures Flows(vec, chunks, offset, pipe.(buffers := pipe.buffers.Append(more)), w, e')
  {
    assert chunks[w..e'] == chunks[w..e] + chunks[e..e'];
  }

  lemma AtWritten(vec: string -> Vector, c: Collection, t: seq<Row>, c0: Collection, t0: seq<Row>,
                  chunks: seq<Row>, w: nat, w': nat, now: Buffers, writes: nat, c': Collection, t': seq<Row>)
    requires now.Level() && At(vec, c, t, c0, t0, chunks, w, w)
    requires At(vec, Upserted(c, now), t, c0, t0, chunks, w', w)
    requires At(vec, Upserted(c, now), Mark(t, IdSet(now.ids)), c0, t0, chunks, w', w')
    requires c' == if writes >= 1 then Upserted(c, now) else c
    requires t' == if writes >= 2 then Mark(t, IdSet(now.ids)) else t
    ensures At(vec, c', t', c0, t0, chunks, if writes >= 1 then w' else w, if writes >= 2 then w' else w)
  {
  }

  // What one batch does to the index and to the marks, after none, one or both of its writes.
  lemma BatchWritten(vec: string -> Vector, c: Collection, t: seq<Row>, c0: Collection, t0: seq<Row>,
                     chunks: seq<Row>, w: nat, w': nat, now: Buffers, writes: nat, c': Collection, t': seq<Row>)
    requires w <= w' <= |chunks| && At(vec, c, t, c0, t0, chunks, w, w) && now.Hold(vec, chunks[w..w'])
    requires c' == if writes >= 1 then Upserted(c, now) else c
    requires t' == if writes >= 2 then Mark(t, IdSet(now.ids)) else t
    ensures At(vec, c', t', c0, t0, chunks, if writes >= 1 then w' else w, if writes >= 2 then w' else w)
  {
    AtUpsert(vec, c, t, c0, t0, chunks, w, w', now);
    AtWritten(vec, c, t, c0, t0, chunks, w, w', now, writes, c', t');
  }

  // What the front of the buffers holds.
  lemma FlowsHold(vec: string -> Vector, chunks: seq<Row>, offset: nat, pipe: Pipe, w: nat, e: nat, take: nat)
    requires Flows(vec, chunks, offset, pipe, w, e) && w + take <= e
    ensures pipe.buffers.Take(take).Hold(vec, chunks[w..w + take])
  {
    HoldParts(vec, chunks, pipe.buffers, w, e, take);
  }

  // The pipeline after a batch, and what its writes have done so far.
  lemma BatchFlushed(vec: string -> Vector, c: Collection, t: seq<Row>, c0: Collection, t0: seq<Row>,
                     chunks: seq<Row>, offset: nat, pipe: Pipe, w: nat, e: nat, take: nat,
                     writes: nat, c': Collection, t': seq<Row>)
    requires Flows(vec, chunks, offset, pipe, w, e) && w + take <= e
    requires At(vec, c, t, c0, t0, chunks, w, w)
    requires c' == if writes >= 1 then Upserted(c, pipe.buffers.Take(take)) else c
    requires t' == if writes >= 2 then Mark(t, IdSet(pipe.buffers.Take(take).ids)) else t
    ensures At(vec, c', t', c0, t0, chunks, if writes >= 1 then w + take else w, if writes >= 2 then w + take else w)
    ensures Flows(vec, chunks, offset, pipe.Advance(take, offset), w + take, e)
  {
    FlowsHold(vec, chunks, offset, pipe, w, e, take);
    FlowsOn(vec, chunks, offset, pipe, w, e, take);
    BatchWritten(vec, c, t, c0, t0, chunks, w, w + take, pipe.buffers.Take(take), writes, c', t');
  }

  // A prefix of the missing rows upserted and marked touches only the scope.
  lemma AtOnlyScope(vec: string -> Vector, c0: Collection, t0: seq<Row>, c1: Collection, t1: seq<Row>,
                    c: Collection, t: seq<Row>, scope: Scope, chunks: seq<Row>, w: nat, m: nat)
    requires UniqueIds(t0) && OnlyScope(c0, t0, c1, t1, scope)
    requires UniqueIds(chunks) && Ids(chunks) <= Ids(Listed(t0, scope))
    requires At(vec, c, t, c1, t1, chunks, w, m)
    ensures OnlyScope(c0, t0, c, t, scope)
  {
    PrefixIds(chunks, w);
    PrefixIds(chunks, m);
    PutAllEntries(vec, c1, chunks[..w]);
    PutOnly(vec, c0, t0, c1, t1, scope, chunks[..w]);
    MarkOnly(c0, t0, c, t1, scope, Ids(chunks[..m]));
  }

  lemma PrefixIds(chunks: seq<Row>, n: nat)
    requires n <= |chunks|
    ensures Ids(chunks[..n]) <= Ids(chunks)
    ensures UniqueIds(chunks) ==> UniqueIds(chunks[..n])
  {
    assert chunks == chunks[..n] + chunks[n..];
    IdsSplit(chunks[..n], chunks[n..]);
  }

  lemma {:induction false} PutOnly(vec: string -> Vector, c0: Collection, t0: seq<Row>, c1: Collection, t1: seq<Row>,
                                   scope: Scope, rows: seq<Row>)
    requires OnlyScope(c0, t0, c1, t1, scope)
    requires UniqueIds(rows) && Ids(rows) <= Ids(Listed(t0, scope))
    ensures OnlyScope(c0, t0, PutAll(vec, c1, rows), t1, scope)
  {
    PutAllEntries(vec, c1, rows);
  }

  lemma MarkOnly(c0: Collection, t0: seq<Row>, c: Collection, t: seq<Row>, scope: Scope, ids: set<Id>)
    requires UniqueIds(t0) && OnlyScope(c0, t0, c, t, scope) && ids <= Ids(Listed(t0, scope))
    ensures OnlyScope(c0, t0, c, Mark(t, ids), scope)
  {
    ListedRows(t0, scope);
    forall i | 0 <= i < |t0| ensures t0[i].(mark := None) == Mark(t, ids)[i].(mark := None) {
      assert t0[i].(mark := None) == t[i].(mark := None);
    }
    if scope.One? {
      forall i | 0 <= i < |t0| && t0[i].item != scope.item ensures Mark(t, ids)[i] == t0[i] {
        assert t[i] == t0[i];
        if t0[i].id in ids {
          var r :| r in Listed(t0, scope) && r.id == t0[i].id;
          SameIdSameRow(t0, r, t0[i]);
        }
      }
    }
  }

  // The state after the last upsert and mark is that of a completed run.
  lemma RunCompletes(vec: string -> Vector, c0: Collection, t0: seq<Row>, scope: Scope, force: bool)
    requires UniqueIds(t0)
    ensures Completed(vec, c0, t0,
                      PutAll(vec, Base(c0, t0, scope, force), Missing(c0, t0, scope, force)),
                      Mark(Mark(BaseTable(t0, scope, force), Kept(c0, t0, scope, force)),
                           Ids(Missing(c0, t0, scope, force))),
                      scope, force,
                      Done(|Missing(c0, t0, scope, force)|, |Indexed(c0, scope) - Kept(c0, t0, scope, force)|,
                           |Kept(c0, t0, scope, force)|))
  {
    assert Indexed(Base(c0, t0, scope, force), scope) == Kept(c0, t0, scope, force);
    assert SameRows(t0, BaseTable(t0, scope, force));
    RunConverges(vec, Base(c0, t0, scope, force), t0, BaseTable(t0, scope, force), scope, Kept(c0, t0, scope, force));
  }

  // Wherever the pipeline is cut off, only the scope has been touched.
  lemma {:induction false} IndexedOnlyScope(vec: string -> Vector, c0: Collection, t0: seq<Row>, c1: Collection,
                                            t1: seq<Row>, c: Collection, t: seq<Row>, scope: Scope, kept: set<Id>,
                                            missing: seq<Row>, w: nat, m: nat)
    requires UniqueIds(t0) && OnlyScope(c0, t0, c1, t1, scope) && missing == NotIn(Listed(t0, scope), kept)
    requires At(vec, c, t, c1, t1, missing, w, m)
    ensures OnlyScope(c0, t0, c, t, scope)
  {
    ListedRows(t0, scope);
    NotInRows(Listed(t0, scope), kept);
    NotInIds(Listed(t0, scope), kept);
    AtOnlyScope(vec, c0, t0, c1, t1, c, t, scope, missing, w, m);
  }

  // When all missing rows are upserted and marked, the run is completed.
  lemma AllIndexed(vec: string -> Vector, c0: Collection, t0: seq<Row>, c: Collection, t: seq<Row>, scope: Scope,
                   force: bool, missing: seq<Row>)
    requires UniqueIds(t0) && missing == Missing(c0, t0, scope, force)
    requires At(vec, c, t, Base(c0, t0, scope, force), Mark(BaseTable(t0, scope, force), Kept(c0, t0, scope, force)),
                missing, |missing|, |missing|)
    ensures Completed(vec, c0, t0, c, t, scope, force,
                      Done(|missing|, |Indexed(c0, scope) - Kept(c0, t0, scope, force)|, |Kept(c0, t0, scope, force)|))
  {
    assert missing[..|missing|] == missing;
    RunCompletes(vec, c0, t0, scope, force);
  }

  // ----- how many writes a run needs

  lemma {:induction false} BatchesFew(n: nat, size: nat)
    requires size >= 1
    ensures Batches(n, size) <= n
  {
    if n > 0 {
      BatchesFew(if n < size then 0 else n - size, size);
    }
  }

  /** The writes of a run are at most one for each stale entry, two for each missing row and two more; a run
      that is not forced on an agreeing index makes one if any row is listed, and else none. */
  lemma WritesAreFew(c: Collection, t: seq<Row>, scope: Scope, force: bool, size: nat)
    requires size >= 1 && UniqueIds(t)
    ensures force ==> Writes(c, t, scope, force, size) <= 2 + 2 * |Missing(c, t, scope, force)|
    ensures !force ==>
              Writes(c, t, scope, force, size) <= |Stale(c, t, scope)| + 1 + 2 * |Missing(c, t, scope, force)|
    ensures !force && Agrees(c, t, scope) ==>
              Writes(c, t, scope, force, size) == if Ids(Listed(t, scope)) == {} then 0 else 1
  {
    BatchesFew(|Missing(c, t, scope, force)|, size);
    BatchesFew(|Stale(c, t, scope)|, size);
    if !force && Agrees(c, t, scope) {
      AgreedIsDone(c, t, scope);
      NothingToDo(c, t, scope);
    }
  }

  // ----- two inputs on which a finished run falls short

  function Numbered(n: nat): Row {
    var name := seq(n, _ => 'c');
    Row(name, "item", name, None)
  }

  // One row more than are listed.
  function LongTable(): (t: seq<Row>)
    ensures |t| == LIST_LIMIT + 1 && forall i :: 0 <= i < |t| ==> t[i] == Numbered(i)
  {
    seq(LIST_LIMIT + 1, i requires 0 <= i <= LIST_LIMIT => Numbered(i))
  }

  lemma LongTableUnique()
    ensures UniqueIds(LongTable())
  {
    forall i, j | 0 <= i < j < |LongTable()| ensures LongTable()[i].id != LongTable()[j].id {
      assert |Numbered(i).id| == i && |Numbered(j).id| == j;
    }
  }

  lemma MarksKeepRows(t: seq<Row>, scope: Scope, force: bool, a: set<Id>, b: set<Id>)
    ensures SameRows(t, Mark(Mark(BaseTable(t, scope, force), a), b))
  {
    var after := Mark(Mark(BaseTable(t, scope, force), a), b);
    forall i | 0 <= i < |t| ensures t[i].(mark := None) == after[i].(mark := None) {
      assert t[i].(mark := None) == BaseTable(t, scope, force)[i].(mark := None);
    }
  }

  // Every store has a finished run.
  lemma FinishedRun(vec: string -> Vector, c0: Collection, t0: seq<Row>, scope: Scope, force: bool)
    returns (c: Collection, t: seq<Row>, r: Outcome)
    requires UniqueIds(t0)
    ensures Completed(vec, c0, t0, c, t, scope, force, r) && SameRows(t0, t)
  {
    RunCompletes(vec, c0, t0, scope, force);
    c := PutAll(vec, Base(c0, t0, scope, force), Missing(c0, t0, scope, force));
    t := Mark(Mark(BaseTable(t0, scope, force), Kept(c0, t0, scope, force)), Ids(Missing(c0, t0, scope, force)));
    r := Done(|Missing(c0, t0, scope, force)|, |Indexed(c0, scope) - Kept(c0, t0, scope, force)|,
              |Kept(c0, t0, scope, force)|);
    MarksKeepRows(t0, scope, force, Kept(c0, t0, scope, force), Ids(Missing(c0, t0, scope, force)));
  }

  // What is not listed is not indexed by an agreeing index.
  lemma NotListed(c: Collection, t: seq<Row>, rows: seq<Row>)
    requires UniqueIds(rows) && SameRows(rows, t) && Agrees(c, t, All) && |rows| > LIST_LIMIT
    ensures rows[LIST_LIMIT].id !in c
  {
    SameListed(rows, t, All);
    forall r | r in Limited(rows) ensures r.id != rows[LIST_LIMIT].id {
    }
    assert rows[LIST_LIMIT].id !in Ids(Listed(rows, All));
    assert rows[LIST_LIMIT].id !in Indexed(c, All);
  }

  /** With 100001 rows a finished rebuild takes the correct entry of the last row for stale and deletes it. */
  lemma LastRowIsLost(vec: string -> Vector, last: Row) returns (c: Collection, t: seq<Row>, r: Outcome)
    requires last == Numbered(LIST_LIMIT)
    ensures UniqueIds(LongTable()) && LongTable()[LIST_LIMIT] == last
    ensures Completed(vec, map[last.id := EntryOf(vec, last)], LongTable(), c, t, All, false, r)
    ensures last.id !in c
  {
    LongTableUnique();
    c, t, r := FinishedRun(vec, map[last.id := EntryOf(vec, last)], LongTable(), All, false);
    NotListed(c, t, LongTable());
  }

  lemma KeptEntry(vec: string -> Vector, c0: Collection, row: Row, scope: Scope)
    requires c0.Keys == {row.id} && c0[row.id].item == row.item && scope == One(row.item)
    ensures Listed([row], scope) == [row] && Kept(c0, [row], scope, false) == {row.id}
    ensures Missing(c0, [row], scope, false) == [] && Base(c0, [row], scope, false) == c0
  {
    assert OfItem([row], row.item) == [row];
    NoneMissing([row], {row.id});
  }

  /** A row whose text was replaced under the same id keeps the entry of its old text through a finished run. */
  lemma OldTextIsKept(vec: string -> Vector, was: Row, row: Row)
    returns (c: Collection, t: seq<Row>, r: Outcome)
    requires was.id == row.id && was.item == row.item && was.text != row.text
    ensures Completed(vec, map[row.id := EntryOf(vec, was)], [row], c, t, One(row.item), false, r)
    ensures c == map[row.id := EntryOf(vec, was)] && c[row.id] != EntryOf(vec, row)
  {
    c, t, r := FinishedRun(vec, map[row.id := EntryOf(vec, was)], [row], One(row.item), false);
    KeptEntry(vec, map[row.id := EntryOf(vec, was)], row, One(row.item));
  }

  class RetrievalService {
    const client: EmbeddingClient
    const upsertBatchSize: nat
    var collection: Collection
    var table: seq<Row>
    var items: set<Id>
    var budget: nat

    constructor (client: EmbeddingClient, configuredBatchSize: int, collection: Collection, table: seq<Row>,
                 items: set<Id>, budget: nat)
      requires client.Valid()
      ensures Valid() && this.client == client && this.collection == collection && this.table == table
      ensures this.items == items && this.budget == budget
      ensures 1 <= upsertBatchSize <= 128
    {
      var capped := if configuredBatchSize < 128 then configuredBatchSize else 128;
      upsertBatchSize := if capped > 1 then capped else 1;
      this.client := client;
      this.collection, this.table, this.items, this.budget := collection, table, items, budget;
    }

    ghost predicate Valid()
    {
      upsertBatchSize >= 1 && client.Valid()
    }

    // ----- single writes

    // One write of the budget, or the cut.
    method Spend() returns (ok: bool)
      modifies this`budget
      ensures ok == (old(budget) > 0)
      ensures budget == if ok then old(budget) - 1 else old(budget)
    {
      ok := budget > 0;
      if ok {
        budget := budget - 1;
      }
    }

    method UpsertEntries(b: Buffers) returns (ok: bool)
      requires b.Level()
      modifies this`budget, this`collection
      ensures ok == (old(budget) > 0) && budget == if ok then old(budget) - 1 else old(budget)
      ensures ok ==> collection == Upserted(old(collection), b)
      ensures !ok ==> collection == old(collection)
    {
      ok := Spend();
      if ok {
        collection := Upserted(collection, b);
      }
    }

    method DeleteEntries(ids: set<Id>) returns (ok: bool)
      modifies this`budget, this`collection
      ensures ok == (old(budget) > 0) && budget == if ok then old(budget) - 1 else old(budget)
      ensures ok ==> collection == old(collection) - ids
      ensures !ok ==> collection == old(collection)
    {
      ok := Spend();
      if ok {
        collection := collection - ids;
      }
    }

    method UpdateMarks(ids: set<Id>) returns (ok: bool)
      modifies this`budget, this`table
      ensures ok == (old(budget) > 0) && budget == if ok then old(budget) - 1 else old(budget)
      ensures ok ==> table == Mark(old(table), ids)
      ensures !ok ==> table == old(table)
    {
      ok := Spend();
      if ok {
        table := Mark(table, ids);
      }
    }

    method ClearMarks(scope: Scope) returns (ok: bool)
      modifies this`budget, this`table
      ensures ok == (old(budget) > 0) && budget == if ok then old(budget) - 1 else old(budget)
      ensures ok ==> table == Clear(old(table), scope)
      ensures !ok ==> table == old(table)
    {
      ok := Spend();
      if ok {
        table := Clear(table, scope);
      }
    }

    // ----- the pipeline

    // One batch: upsert the entries, then mark the rows.
    method WriteBatch(now: Buffers) returns (ok: bool, writes: nat)
      requires now.Level()
      modifies this`budget, this`collection, this`table
      ensures ok <==> writes >= 2
      ensures writes == (if old(budget) < 2 then old(budget) else 2) && budget == old(budget) - writes
      ensures collection == if writes >= 1 then Upserted(old(collection), now) else old(collection)
      ensures table == if writes >= 2 then Mark(old(table), IdSet(now.ids)) else old(table)
    {
      writes := 0;
      ok := UpsertEntries(now);
      if ok {
        writes := 1;
        ok := UpdateMarks(IdSet(now.ids));
        writes := if ok then 2 else 1;
      }
    }

    method FlushBatch(pipe: Pipe, take: nat, offset: nat, ghost c0: Collection, ghost t0: seq<Row>,
                      ghost chunks: seq<Row>, ghost w: nat, ghost e: nat)
      returns (ok: bool, pipe': Pipe, ghost w': nat, ghost m': nat)
      requires Valid() && Flows(client.vec, chunks, offset, pipe, w, e) && w + take <= e
      requires At(client.vec, collection, table, c0, t0, chunks, w, w)
      modifies this`budget, this`collection, this`table
      ensures Valid() && At(client.vec, collection, table, c0, t0, chunks, w', m')
      ensures ok <==> old(budget) >= 2
      ensures ok ==> budget == old(budget) - 2
      ensures ok ==> w' == m' == w + take && pipe' == pipe.Advance(take, offset)
      ensures ok ==> Flows(client.vec, chunks, offset, pipe', w', e)
    {
      var now := pipe.buffers.Take(take);
      ghost var c, t := collection, table;
      var writes;
      ok, writes := WriteBatch(now);
      BatchFlushed(client.vec, c, t, c0, t0, chunks, offset, pipe, w, e, take, writes, collection, table);
      w' := if writes >= 1 then w + take else w;
      m' := if writes >= 2 then w + take else w;
      pipe' := if ok then pipe.Advance(take, offset) else pipe;
    }

    /** Upserts full batches from the front of the buffers, and with `force` the rest too. */
    method FlushUpserts(pipe: Pipe, force: bool, offset: nat, ghost c0: Collection, ghost t0: seq<Row>,
                        ghost chunks: seq<Row>, ghost w: nat, ghost e: nat)
      returns (ok: bool, pipe': Pipe, ghost w': nat, ghost m': nat)
      requires Valid() && Flows(client.vec, chunks, offset, pipe, w, e) && Full(pipe.batches, upsertBatchSize)
      requires At(client.vec, collection, table, c0, t0, chunks, w, w)
      modifies this`budget, this`collection, this`table
      ensures Valid() && At(client.vec, collection, table, c0, t0, chunks, w', m')
      ensures ok ==> w' == m' && Flows(client.vec, chunks, offset, pipe', w', e)
      ensures ok ==> NearlyFull(pipe'.batches, upsertBatchSize)
      ensures ok && force ==> w' == e
      ensures ok && !force ==> Full(pipe'.batches, upsertBatchSize) && pipe'.buffers.Size() < upsertBatchSize
      ensures ok ==> budget + 2 * |pipe'.batches| == old(budget) + 2 * |pipe.batches|
      ensures !ok ==> old(budget) + 2 * |pipe.batches| < 2 * Batches(|chunks|, upsertBatchSize)
    {
      pipe', w', m' := pipe, w, w;
      ok := true;
      while pipe'.buffers.Size() > 0 && (force || pipe'.buffers.Size() >= upsertBatchSize)
        invariant Valid() && w' == m'
        invariant At(client.vec, collection, table, c0, t0, chunks, w', w')
        invariant Flows(client.vec, chunks, offset, pipe', w', e)
        invariant NearlyFull(pipe'.batches, upsertBatchSize)
        invariant pipe'.buffers.Size() > 0 || !force ==> Full(pipe'.batches, upsertBatchSize)
        invariant budget + 2 * |pipe'.batches| == old(budget) + 2 * |pipe.batches|
        decreases pipe'.buffers.Size()
      {
        var take := if pipe'.buffers.Size() < upsertBatchSize then pipe'.buffers.Size() else upsertBatchSize;
        FullOn(pipe'.batches, pipe'.buffers.ids[..take], upsertBatchSize);
        FullLeaves(pipe'.batches, upsertBatchSize, chunks, w');
        ok, pipe', w', m' := FlushBatch(pipe', take, offset, c0, t0, chunks, w', e);
        if !ok {
          return;
        }
      }
    }

    /** Embeds batch by batch and feeds the upserts.  Wherever it is cut off, a prefix of the chunks
        is upserted and a prefix of that is marked; a finished run has upserted them all, in order,
        in full batches but the last, and reported its progress.  It costs two writes a batch, and with
        a serving client it finishes exactly when it is granted these writes. */
    method IndexChunks(chunks: seq<Row>, offset: nat)
      returns (ok: bool, pipe: Pipe, ghost w: nat, ghost m: nat)
      requires Valid()
      modifies this`budget, this`collection, this`table, client
      ensures Valid() && At(client.vec, collection, table, old(collection), old(table), chunks, w, m)
      ensures ok ==> w == m == |chunks|
      ensures ok ==> Flat(pipe.batches) == RowIds(chunks) && NearlyFull(pipe.batches, upsertBatchSize)
      ensures ok ==> Reports(pipe.progress, offset, pipe.batches)
      ensures ok ==> budget == old(budget) - 2 * Batches(|chunks|, upsertBatchSize)
      ensures old(client.Serving()) ==> (ok <==> old(budget) >= 2 * Batches(|chunks|, upsertBatchSize))
    {
      ghost var c0, t0 := collection, table;
      pipe := Pipe(Buffers([], [], [], []), [], [offset]);
      w, m := 0, 0;
      AtStart(client.vec, c0, t0, chunks);
      FlowsAtStart(client.vec, chunks, offset);
      var start := 0;
      while start < |chunks|
        invariant Valid() && start <= |chunks| && w == m
        invariant At(client.vec, collection, table, c0, t0, chunks, w, w)
        invariant Flows(client.vec, chunks, offset, pipe, w, start) && Full(pipe.batches, upsertBatchSize)
        invariant budget + 2 * |pipe.batches| == old(budget)
        invariant old(client.Serving()) ==> client.Serving()
      {
        var end := if start + client.batchSize < |chunks| then start + client.batchSize else |chunks|;
        var batch := chunks[start..end];
        var embeddings := client.Embed(Texts(batch));
        if embeddings.Err? {
          return false, pipe, w, m;
        }
        var more := Buffers(RowIds(batch), Texts(batch), embeddings.value, Items(batch));
        FlowsMore(client.vec, chunks, offset, pipe, w, start, end, more);
        pipe := pipe.(buffers := pipe.buffers.Append(more));
        start := end;
        ok, pipe, w, m := FlushUpserts(pipe, false, offset, c0, t0, chunks, w, start);
        if !ok {
          return;
        }
      }
      ok, pipe, w, m := FlushUpserts(pipe, true, offset, c0, t0, chunks, w, start);
      assert chunks[..|chunks|] == chunks;
      if ok {
        BatchCount(pipe.batches, upsertBatchSize);
      }
    }

    // ----- reconciliation

    method PickSome(ids: set<Id>, n: nat) returns (some: set<Id>)
      requires n <= |ids|
      ensures some <= ids && |some| == n
    {
      some := {};
      while |some| < n
        invariant some <= ids && |some| <= n
        decreases n - |some|
      {
        ProperSubset(some, ids);
        var id :| id in ids && id !in some;
        some := some + {id};
      }
    }

    // Deletes in batches; `gone` is what has been deleted when it is cut off.
    method DeleteChunkIds(ids: set<Id>) returns (ok: bool, deleted: nat, ghost gone: set<Id>)
      requires Valid()
      modifies this`budget, this`collection
      ensures gone <= ids && collection == old(collection) - gone
      ensures ok ==> gone == ids && deleted == |ids|
      ensures ok <==> old(budget) >= Batches(|ids|, upsertBatchSize)
      ensures ok ==> budget == old(budget) - Batches(|ids|, upsertBatchSize)
    {
      var rest := ids;
      deleted := 0;
      ok := true;
      assert collection == collection - (ids - rest);
      while rest != {}
        invariant rest <= ids && deleted == |ids| - |rest|
        invariant collection == old(collection) - (ids - rest)
        invariant budget - Batches(|rest|, upsertBatchSize) == old(budget) - Batches(|ids|, upsertBatchSize)
        decreases |rest|
      {
        var take := if |rest| < upsertBatchSize then |rest| else upsertBatchSize;
        var batch := PickSome(rest, take);
        RestBatches(ids, rest, batch, upsertBatchSize);
        MinusTwice(old(collection), ids - rest, batch);
        ok := DeleteEntries(batch);
        if !ok {
          return ok, deleted, ids - rest;
        }
        rest := rest - batch;
        deleted := deleted + |batch|;
      }
      gone := ids;
      assert ids - rest == ids;
    }

    method DeleteStale(scope: Scope) returns (ok: bool, kept: set<Id>, deleted: nat)
      requires Valid()
      modifies this`budget, this`collection
      ensures OnlyScope(old(collection), table, collection, table, scope)
      ensures kept == Kept(old(collection), table, scope, false) && kept <= Ids(Listed(table, scope))
      ensures ok ==> collection == Base(old(collection), table, scope, false)
      ensures ok ==> deleted == |Stale(old(collection), table, scope)|
      ensures ok <==> old(budget) >= Batches(|Stale(old(collection), table, scope)|, upsertBatchSize)
      ensures ok ==> budget == old(budget) - Batches(|Stale(old(collection), table, scope)|, upsertBatchSize)
    {
      WhatStays(collection, table, scope);
      kept := Indexed(collection, scope) - Stale(collection, table, scope);
      ghost var gone;
      ok, deleted, gone := DeleteChunkIds(Stale(collection, table, scope));
      DeletedOnly(old(collection), table, scope, gone);
    }

    // Marks the rows whose entries stay, if there are any.
    method MarkKept(scope: Scope, kept: set<Id>, ghost c0: Collection) returns (ok: bool)
      requires UniqueIds(table) && kept <= Ids(Listed(table, scope))
      requires OnlyScope(c0, table, collection, table, scope)
      modifies this`budget, this`table
      ensures OnlyScope(c0, old(table), collection, table, scope)
      ensures ok <==> kept == {} || old(budget) >= 1
      ensures ok ==> table == Mark(old(table), kept)
      ensures ok ==> budget == old(budget) - if kept != {} then 1 else 0
    {
      ok := true;
      MarkedOnly(c0, table, collection, scope, kept);
      MarkTwice(table, {}, {});
      if kept != {} {
        ok := UpdateMarks(kept);
      }
    }

    /** Deletes the stale entries and marks the rows whose entries stay. */
    method Reconcile(scope: Scope) returns (ok: bool, kept: set<Id>, deleted: nat)
      requires Valid() && UniqueIds(table)
      modifies this`budget, this`collection, this`table
      ensures OnlyScope(old(collection), old(table), collection, table, scope)
      ensures ok ==> kept == Kept(old(collection), old(table), scope, false)
      ensures ok ==> collection == Base(old(collection), old(table), scope, false)
      ensures ok ==> table == Mark(old(table), kept) && deleted == |Stale(old(collection), old(table), scope)|
      ensures ok <==> old(budget) >= Preparation(old(collection), old(table), scope, false, upsertBatchSize)
      ensures ok ==> budget == old(budget) - Preparation(old(collection), old(table), scope, false, upsertBatchSize)
    {
      ok, kept, deleted := DeleteStale(scope);
      if ok {
        ok := MarkKept(scope, kept, old(collection));
      }
    }

    // ----- the two kinds of run

    // Indexing what is missing, once the index and the table have been prepared.
    method IndexMissing(scope: Scope, force: bool, listed: seq<Row>, kept: set<Id>, deleted: nat,
                        ghost c0: Collection, ghost t0: seq<Row>)
      returns (r: Outcome, pipe: Pipe)
      requires Valid() && UniqueIds(t0) && OnlyScope(c0, t0, collection, table, scope)
      requires listed == Listed(t0, scope) && kept == Kept(c0, t0, scope, force)
      requires deleted == |Indexed(c0, scope) - kept|
      requires collection == Base(c0, t0, scope, force) && table == Mark(BaseTable(t0, scope, force), kept)
      modifies this`budget, this`collection, this`table, client
      ensures OnlyScope(c0, t0, collection, table, scope)
      ensures r == CutOff || (r.Done? && Completed(client.vec, c0, t0, collection, table, scope, force, r))
      ensures r.Done? ==> Piped(pipe, upsertBatchSize, r.skipped, Missing(c0, t0, scope, force))
      ensures r.Done? ==> budget == old(budget) - 2 * Batches(|Missing(c0, t0, scope, force)|, upsertBatchSize)
      ensures old(client.Serving())
              ==> (r.Done? <==> old(budget) >= 2 * Batches(|Missing(c0, t0, scope, force)|, upsertBatchSize))
    {
      var missing := NotIn(listed, kept);
      ghost var c1, t1 := collection, table;
      ghost var w, m;
      var finished;
      finished, pipe, w, m := IndexChunks(missing, |kept|);
      IndexedOnlyScope(client.vec, c0, t0, c1, t1, collection, table, scope, kept, missing, w, m);
      if !finished {
        return CutOff, pipe;
      }
      AllIndexed(client.vec, c0, t0, collection, table, scope, force, missing);
      r := Done(|missing|, deleted, |kept|);
    }

    // A forced run drops the entries and clears the marks of the scope first.
    method DropScope(scope: Scope) returns (ok: bool, deleted: nat)
      requires UniqueIds(table)
      modifies this`budget, this`collection, this`table
      ensures OnlyScope(old(collection), old(table), collection, table, scope)
      ensures ok ==> collection == Base(old(collection), old(table), scope, true)
      ensures ok ==> table == BaseTable(old(table), scope, true) && deleted == |Indexed(old(collection), scope)|
      ensures ok ==> forall id <- collection :: scope.One? && collection[id].item != scope.item
      ensures ok ==> Unmarked(old(table), table, scope)
      ensures ok <==> old(budget) >= 2
      ensures ok ==> budget == old(budget) - 2
    {
      ghost var c0, t0 := collection, table;
      var indexed := Indexed(collection, scope);
      deleted := |indexed|;
      DeletedOnly(c0, t0, scope, {});
      DeletedOnly(c0, t0, scope, indexed);
      assert c0 - {} == c0;
      ok := DeleteEntries(indexed);
      if ok {
        ClearedOnly(c0, t0, collection, scope);
        ok := ClearMarks(scope);
      }
    }

    // Brings the index and the marks of the scope to where indexing starts.
    method Prepare(scope: Scope, force: bool) returns (ok: bool, kept: set<Id>, deleted: nat)
      requires Valid() && UniqueIds(table)
      modifies this`budget, this`collection, this`table
      ensures OnlyScope(old(collection), old(table), collection, table, scope)
      ensures ok ==> kept == Kept(old(collection), old(table), scope, force)
      ensures ok ==> collection == Base(old(collection), old(table), scope, force)
      ensures ok ==> table == Mark(BaseTable(old(table), scope, force), kept)
      ensures ok ==> deleted == |Indexed(old(collection), scope) - kept|
      ensures ok <==> old(budget) >= Preparation(old(collection), old(table), scope, force, upsertBatchSize)
      ensures ok ==> budget == old(budget) - Preparation(old(collection), old(table), scope, force, upsertBatchSize)
    {
      if force {
        ghost var indexed := Indexed(collection, scope);
        ok, deleted := DropScope(scope);
        kept := {};
        MarkTwice(table, {}, {});
        assert indexed - {} == indexed;
      } else {
        ghost var c0, t0 := collection, table;
        ok, kept, deleted := Reconcile(scope);
        WhatStays(c0, t0, scope);
      }
    }

    method Run(scope: Scope, force: bool) returns (r: Outcome, pipe: Pipe)
      requires Valid() && UniqueIds(table)
      modifies this`budget, this`collection, this`table, client
      ensures UniqueIds(table) && OnlyScope(old(collection), old(table), collection, table, scope)
      ensures r == CutOff
              || (r.Done? && Completed(client.vec, old(collection), old(table), collection, table, scope, force, r))
      ensures r.Done? ==>
                Piped(pipe, upsertBatchSize, r.skipped, Missing(old(collection), old(table), scope, force))
      ensures r.Done? ==> budget == old(budget) - Writes(old(collection), old(table), scope, force, upsertBatchSize)
      ensures old(client.Serving())
              ==> (r.Done? <==> old(budget) >= Writes(old(collection), old(table), scope, force, upsertBatchSize))
    {
      ghost var c0, t0 := collection, table;
      pipe := Pipe(Buffers([], [], [], []), [], []);
      var listed := Listed(table, scope);
      var ok, kept, deleted := Prepare(scope, force);
      SameListed(t0, table, scope);
      if !ok {
        return CutOff, pipe;
      }
      r, pipe := IndexMissing(scope, force, listed, kept, deleted, c0, t0);
      SameListed(t0, table, scope);
    }

    /** Indexing one item: from whatever entries and marks there are, a finished run leaves the index
        and the table agreeing on the item; finished or cut off, it touches nothing else.  With a serving
        client it finishes exactly when it is granted all its writes. */
    method IndexKnowledgeItem(item: Id, force: bool) returns (r: Outcome, pipe: Pipe)
      requires Valid() && UniqueIds(table)
      modifies this`budget, this`collection, this`table, client
      ensures UniqueIds(table) && OnlyScope(old(collection), old(table), collection, table, One(item))
      ensures r == NotFound <==> item !in items
      ensures r == NotFound ==> collection == old(collection) && table == old(table)
      ensures r.Done? ==>
                && Completed(client.vec, old(collection), old(table), collection, table, One(item), force, r)
                && Piped(pipe, upsertBatchSize, r.skipped, Missing(old(collection), old(table), One(item), force))
                && budget == old(budget) - Writes(old(collection), old(table), One(item), force, upsertBatchSize)
      ensures old(client.Serving()) && item in items
              ==> (r.Done? <==> old(budget) >= Writes(old(collection), old(table), One(item), force, upsertBatchSize))
    {
      DeletedOnly(collection, table, One(item), {});
      assert collection - {} == collection;
      if item !in items {
        return NotFound, Pipe(Buffers([], [], [], []), [], []);
      }
      r, pipe := Run(One(item), force);
    }

    /** Rebuilding everything: a finished run leaves the index and the table agreeing on all rows, and
        with a serving client a run finishes exactly when it is granted all its writes. */
    method RebuildAll(force: bool) returns (r: Outcome, pipe: Pipe)
      requires Valid() && UniqueIds(table)
      modifies this`budget, this`collection, this`table, client
      ensures UniqueIds(table) && OnlyScope(old(collection), old(table), collection, table, All)
      ensures r == CutOff || r.Done?
      ensures r.Done? ==>
                && Completed(client.vec, old(collection), old(table), collection, table, All, force, r)
                && Piped(pipe, upsertBatchSize, r.skipped, Missing(old(collection), old(table), All, force))
                && budget == old(budget) - Writes(old(collection), old(table), All, force, upsertBatchSize)
      ensures old(client.Serving())
              ==> (r.Done? <==> old(budget) >= Writes(old(collection), old(table), All, force, upsertBatchSize))
    {
      r, pipe := Run(All, force);
    }
  }
}
