/** What one garbage-collection batch, and a whole sequence of them, does to the chunk table. */
module GcSpec {
  import opened Schema
  import opened Metadata
  import opened Oldest
  import opened Sums
  import opened RefCounts
  import opened Seqs
  import Linking

  datatype GcResult = GcResult(deletedChunks: nat, reclaimedBytes: int, skippedChunks: nat, hasMore: bool)

  function Footprints(chunks: map<Sha, Chunk>, s: set<Sha>): map<Sha, int> {
    map h | h in chunks && h in s :: Footprint(chunks[h])
  }

  /** Every row a run inserts gets the stored size `stored` gives its hash. */
  ghost predicate InsertsStored(steps: seq<Step>, stored: Sha -> nat) {
    forall p: nat, h, size, bytes :: Linking.InsertedAt(steps, h, size, bytes, p) ==> bytes == stored(h)
  }

  /** So what a preview or a batch counts for a chunk is the stored size its event announced. */
  lemma ReclaimedIsStored(steps: seq<Step>, stored: Sha -> nat, s: set<Sha>)
    requires InsertsStored(steps, stored)
    ensures var chunks := Run(steps).t.chunks;
      && Footprints(chunks, s) == (map h | h in chunks && h in s :: stored(h) as int)
      && OrphanBytes(chunks) == map h | h in chunks && chunks[h].refCount == 0 && chunks[h].orphanedAt.Some? :: stored(h) as int
  {
    var chunks := Run(steps).t.chunks;
    forall h | h in chunks ensures Footprint(chunks[h]) == stored(h) {
      Linking.RowsRecordEvents(steps, h);
      var row := chunks[h];
      var p: nat :| Linking.InsertedAt(steps, h, row.size, row.compressedSize.value, p);
    }
  }

  /** `batch` holds the oldest marked orphans, at most `b` of them, and `res` reports removing exactly those. */
  ghost predicate BatchOf(chunks: map<Sha, Chunk>, b: nat, batch: seq<Sha>, res: GcResult) {
    && OldestFirst(OrphanAges(chunks), batch, b)
    && res == GcResult(|batch|, Sum(Footprints(chunks, ToSet(batch))), 0, |Orphans(chunks)| > b)
  }

  lemma TruncateOldest<K(!new)>(ages: map<K, int>, order: seq<K>, limit: nat)
    requires OldestFirst(ages, order, limit + 1)
    ensures |order| > limit <==> |ages| > limit
    ensures OldestFirst(ages, if |order| > limit then order[..limit] else order, limit)
  {
    if |order| > limit {
      assert order == order[..limit] + [order[limit]];
    }
  }

  lemma OrphanAgeKeys(chunks: map<Sha, Chunk>)
    ensures OrphanAges(chunks).Keys == Orphans(chunks) && |OrphanAges(chunks)| == |Orphans(chunks)|
  {
    assert |OrphanAges(chunks)| == |OrphanAges(chunks).Keys|;
  }

  lemma AllOrphansDeletable(chunks: map<Sha, Chunk>, batch: seq<Sha>)
    requires forall h :: h in batch ==> h in Orphans(chunks)
    ensures Deletable(chunks, batch) == ToSet(batch)
  {
  }

  /** Removing a batch leaves the other orphans as they were. */
  lemma RemainingOrphans(chunks: map<Sha, Chunk>, batch: seq<Sha>)
    ensures OrphanAges(chunks - ToSet(batch)) == OrphanAges(chunks) - ToSet(batch)
    ensures Orphans(chunks - ToSet(batch)) == Orphans(chunks) - ToSet(batch)
  {
  }

  /* ---- Sequences of batches ---- */

  function Flat<T>(log: seq<seq<T>>): seq<T> {
    if log == [] then [] else Flat(log[..|log| - 1]) + log[|log| - 1]
  }

  /** Oldest first so far, with nothing left older than anything taken. */
  ghost predicate TakenSoFar<K(!new)>(ages: map<K, int>, order: seq<K>) {
    && Distinct(order)
    && (forall k :: k in order ==> k in ages)
    && (forall i, j :: 0 <= i < j < |order| ==> ages[order[i]] <= ages[order[j]])
    && (forall i, k :: 0 <= i < |order| && k in ages && k !in order ==> ages[order[i]] <= ages[k])
  }

  lemma TakePair<K(!new)>(ages: map<K, int>, order: seq<K>, batch: seq<K>, b: nat, i: nat, j: nat)
    requires TakenSoFar(ages, order) && OldestFirst(ages - ToSet(order), batch, b)
    requires i < j < |order + batch|
    ensures (order + batch)[i] in ages && (order + batch)[j] in ages
    ensures (order + batch)[i] != (order + batch)[j] && ages[(order + batch)[i]] <= ages[(order + batch)[j]]
  {
    var rest := ages - ToSet(order);
    if j >= |order| {
      assert batch[j - |order|] in rest;
      if i >= |order| {
        assert batch[i - |order|] in rest;
      } else {
        assert order[i] in order;
      }
    }
  }

  lemma TakeRest<K(!new)>(ages: map<K, int>, order: seq<K>, batch: seq<K>, b: nat, i: nat, k: K)
    requires TakenSoFar(ages, order) && OldestFirst(ages - ToSet(order), batch, b)
    requires i < |order + batch| && k in ages && k !in order + batch
    ensures (order + batch)[i] in ages && ages[(order + batch)[i]] <= ages[k]
  {
    var rest := ages - ToSet(order);
    assert k in rest && k !in batch;
    if i >= |order| {
      assert batch[i - |order|] in rest;
    }
  }

  lemma TakeMore<K(!new)>(ages: map<K, int>, order: seq<K>, batch: seq<K>, b: nat)
    requires TakenSoFar(ages, order)
    requires OldestFirst(ages - ToSet(order), batch, b)
    ensures TakenSoFar(ages, order + batch)
  {
    var all := order + batch;
    assert forall k :: k in all ==> k in order || k in batch;
    assert forall k :: k in all ==> k in ages;
    forall i, j | 0 <= i < j < |all| ensures all[i] != all[j] && ages[all[i]] <= ages[all[j]] {
      TakePair(ages, order, batch, b, i, j);
    }
    forall i, k | 0 <= i < |all| && k in ages && k !in all ensures ages[all[i]] <= ages[k] {
      TakeRest(ages, order, batch, b, i, k);
    }
  }

  lemma FootprintsSplit(chunks: map<Sha, Chunk>, a: set<Sha>, b: set<Sha>)
    requires a !! b && b <= chunks.Keys
    ensures Sum(Footprints(chunks, a + b)) == Sum(Footprints(chunks, a)) + Sum(Footprints(chunks, b))
    decreases b
  {
    if b == {} {
      assert a + b == a;
      assert Footprints(chunks, b) == map[];
    } else {
      var h :| h in b;
      FootprintsSplit(chunks, a, b - {h});
      SumRemove(Footprints(chunks, a + b), h);
      SumRemove(Footprints(chunks, b), h);
      assert Footprints(chunks, a + b) - {h} == Footprints(chunks, a + (b - {h}));
      assert Footprints(chunks, b) - {h} == Footprints(chunks, b - {h});
    }
  }

  function CeilDiv(n: nat, b: nat): nat
    requires b >= 1
  {
    (n + b - 1) / b
  }

  lemma CeilDivIs(n: nat, b: nat, k: nat)
    requires b >= 1 && b * k < n + b <= b * k + b
    ensures CeilDiv(n, b) == k
  {
    var q := (n + b - 1) / b;
    if q < k {
      MulStep(b, q, k);
    } else if k < q {
      MulStep(b, k, q);
    }
  }

  lemma MulStep(b: nat, x: nat, y: nat)
    requires x < y
    ensures b * x + b <= b * y
  {
    var d: nat := y - x - 1;
    assert b * y == b * (x + 1 + d) == b * x + b + b * d;
  }

  lemma BatchesNeeded(n: nat, b: nat, k: nat, last: nat)
    requires b >= 1 && k >= 1 && last <= b && n == b * (k - 1) + last && (k == 1 || last >= 1)
    ensures k == if n == 0 then 1 else CeilDiv(n, b)
  {
    assert b * k == b * (k - 1) + b;
    if n > 0 {
      CeilDivIs(n, b, k);
    }
  }

  /** Where a sequence of batches stands: every batch so far was full and only the oldest were taken. */
  ghost predicate Swept(t: Tables, b: nat, log: seq<seq<Sha>>, total: GcResult) {
    && TakenSoFar(OrphanAges(t.chunks), Flat(log))
    && total.deletedChunks == |Flat(log)|
    && total.reclaimedBytes == Sum(Footprints(t.chunks, ToSet(Flat(log))))
    && total.skippedChunks == 0
    && (forall i :: 0 <= i < |log| ==> |log[i]| <= b)
  }

  function AddTo(total: GcResult, value: GcResult): GcResult {
    GcResult(total.deletedChunks + value.deletedChunks, total.reclaimedBytes + value.reclaimedBytes,
             total.skippedChunks + value.skippedChunks, value.hasMore)
  }

  lemma FlatSnoc<T>(log: seq<seq<T>>, batch: seq<T>)
    ensures Flat(log + [batch]) == Flat(log) + batch
    ensures ToSet(Flat(log + [batch])) == ToSet(Flat(log)) + ToSet(batch)
  {
    assert (log + [batch])[..|log|] == log;
  }

  lemma SweepStep(t: Tables, b: nat, log: seq<seq<Sha>>, total: GcResult, batch: seq<Sha>, value: GcResult)
    requires Swept(t, b, log, total)
    requires BatchOf(t.chunks - ToSet(Flat(log)), b, batch, value)
    ensures ToSet(batch) <= Orphans(t.chunks) - ToSet(Flat(log))
    ensures Swept(t, b, log + [batch], AddTo(total, value))
  {
    SweepOrder(t, b, Flat(log), batch, value);
    SweepTotal(t.chunks, log, batch);
    SweepSizes(log, batch, b);
  }

  lemma SweepTotal(chunks: map<Sha, Chunk>, log: seq<seq<Sha>>, batch: seq<Sha>)
    requires ToSet(batch) <= chunks.Keys - ToSet(Flat(log))
    ensures Flat(log + [batch]) == Flat(log) + batch
    ensures Sum(Footprints(chunks, ToSet(Flat(log + [batch]))))
         == Sum(Footprints(chunks, ToSet(Flat(log)))) + Sum(Footprints(chunks - ToSet(Flat(log)), ToSet(batch)))
  {
    FlatSnoc(log, batch);
    SweepBytes(chunks, ToSet(Flat(log)), ToSet(batch));
  }

  lemma SweepSizes<T>(log: seq<seq<T>>, batch: seq<T>, b: nat)
    requires (forall i :: 0 <= i < |log| ==> |log[i]| <= b) && |batch| <= b
    ensures forall i :: 0 <= i < |log + [batch]| ==> |(log + [batch])[i]| <= b
  {
  }

  lemma SweepOrder(t: Tables, b: nat, taken: seq<Sha>, batch: seq<Sha>, value: GcResult)
    requires TakenSoFar(OrphanAges(t.chunks), taken)
    requires BatchOf(t.chunks - ToSet(taken), b, batch, value)
    ensures ToSet(batch) <= Orphans(t.chunks) - ToSet(taken)
    ensures TakenSoFar(OrphanAges(t.chunks), taken + batch)
  {
    var left := t.chunks - ToSet(taken);
    assert OrphanAges(left) == OrphanAges(t.chunks) - ToSet(taken) by { RemainingOrphans(t.chunks, taken); }
    TakeMore(OrphanAges(t.chunks), taken, batch, b);
    assert ToSet(batch) <= Orphans(t.chunks) - ToSet(taken) by { OrphanAgeKeys(left); RemainingOrphans(t.chunks, taken); }
  }

  lemma SweepBytes(chunks: map<Sha, Chunk>, taken: set<Sha>, batch: set<Sha>)
    requires batch <= chunks.Keys - taken
    ensures Sum(Footprints(chunks, taken + batch)) == Sum(Footprints(chunks, taken)) + Sum(Footprints(chunks - taken, batch))
  {
    FootprintsSplit(chunks, taken, batch);
    assert Footprints(chunks - taken, batch) == Footprints(chunks, batch);
  }

  lemma SweptCount(t: Tables, b: nat, log: seq<seq<Sha>>, total: GcResult)
    requires Swept(t, b, log, total)
    ensures ToSet(Flat(log)) <= Orphans(t.chunks)
    ensures |Orphans(t.chunks - ToSet(Flat(log)))| == |Orphans(t.chunks)| - |Flat(log)|
  {
    var taken := Flat(log);
    RemainingOrphans(t.chunks, taken);
    SameSet(taken, ToSet(taken));
    assert |Orphans(t.chunks) - ToSet(taken)| == |Orphans(t.chunks)| - |ToSet(taken)|;
  }

  lemma SweptOrphans(t: Tables, b: nat, log: seq<seq<Sha>>, total: GcResult)
    requires Swept(t, b, log, total)
    ensures Orphans(t.chunks - ToSet(Flat(log))) <= Orphans(t.chunks)
  {
    RemainingOrphans(t.chunks, Flat(log));
  }

  /** Once no orphan is left, the totals are the preview of the tables the sweep began with. */
  lemma SweepDone(t: Tables, b: nat, log: seq<seq<Sha>>, total: GcResult, rows: Tables)
    requires b >= 1 && Sweeping(t, b, log, total, rows, false) && total.hasMore == false
    ensures Collected(t, b, total, rows, log)
  {
    SweptAll(t, b, log, total);
    TakenAllOldest(t.chunks, Flat(log));
  }

  lemma TakenAllOldest(chunks: map<Sha, Chunk>, taken: seq<Sha>)
    requires TakenSoFar(OrphanAges(chunks), taken) && |taken| == |Orphans(chunks)|
    ensures OldestFirst(OrphanAges(chunks), taken, |Orphans(chunks)|)
  {
    OrphanAgeKeys(chunks);
  }

  lemma SweptAll(t: Tables, b: nat, log: seq<seq<Sha>>, total: GcResult)
    requires Swept(t, b, log, total) && |Orphans(t.chunks - ToSet(Flat(log)))| == 0
    ensures ToSet(Flat(log)) == Orphans(t.chunks) && |Flat(log)| == |Orphans(t.chunks)|
    ensures Footprints(t.chunks, ToSet(Flat(log))) == OrphanBytes(t.chunks)
  {
    SweptCount(t, b, log, total);
    RemainingOrphans(t.chunks, Flat(log));
    assert Orphans(t.chunks) - ToSet(Flat(log)) == {};
  }

  /** What a whole collection did: everything the preview announced, oldest first, in as few batches as `b` allows. */
  ghost predicate Collected(t: Tables, b: nat, value: GcResult, rows: Tables, log: seq<seq<Sha>>)
    requires b >= 1
  {
    && value == GcResult(|Orphans(t.chunks)|, Sum(OrphanBytes(t.chunks)), 0, false)
    && |log| == (if Orphans(t.chunks) == {} then 1 else CeilDiv(|Orphans(t.chunks)|, b))
    && rows == t.(chunks := t.chunks - Orphans(t.chunks))
    && (forall i :: 0 <= i < |log| ==> |log[i]| <= b)
    && OldestFirst(OrphanAges(t.chunks), Flat(log), |Orphans(t.chunks)|)
  }

  lemma BatchKeeps(t: Tables, batch: seq<Sha>)
    requires Consistent(t) && forall h :: h in batch ==> h in Orphans(t.chunks)
    ensures Consistent(t.(chunks := t.chunks - ToSet(batch)))
  {
    AllOrphansDeletable(t.chunks, batch);
    DeleteChunksKeeps(t, batch);
  }

  /** Of `n` orphans, `batches` batches of `b` took `taken` and `left` remain; `more` batches wanted or not. */
  ghost predicate Counted(n: nat, b: nat, batches: nat, taken: nat, left: nat, more: bool)
    requires b >= 1
  {
    && n == taken + left
    && (more ==> taken == b * batches && (batches > 0 ==> left > 0))
    && (!more ==> left == 0 && batches == if n == 0 then 1 else CeilDiv(n, b))
  }

  lemma CountBatch(n: nat, b: nat, batches: nat, taken: nat, left: nat, size: nat, more: bool)
    requires b >= 1 && Counted(n, b, batches, taken, left, true)
    requires (more <==> left > b) && size == if more then b else left
    ensures Counted(n, b, batches + 1, taken + size, left - size, more)
  {
    assert b * (batches + 1) == b * batches + b;
    if !more {
      BatchesNeeded(n, b, batches + 1, size);
    }
  }

  /** The client loop's state against the tables it began with: `rows` now, `more` batches wanted or not. */
  ghost predicate Sweeping(t: Tables, b: nat, log: seq<seq<Sha>>, total: GcResult, rows: Tables, more: bool)
    requires b >= 1
  {
    && Swept(t, b, log, total)
    && rows == t.(chunks := t.chunks - ToSet(Flat(log)))
    && (Consistent(t) ==> Consistent(rows))
    && (|log| > 0 ==> total.hasMore == more)
    && Counted(|Orphans(t.chunks)|, b, |log|, |Flat(log)|, |Orphans(rows.chunks)|, more)
  }

  lemma SweepStart(t: Tables, b: nat)
    requires b >= 1
    ensures Sweeping(t, b, [], GcResult(0, 0, 0, false), t, true)
  {
    assert t.chunks - ToSet(Flat<Sha>([])) == t.chunks;
    assert Footprints(t.chunks, ToSet(Flat<Sha>([]))) == map[];
  }

  lemma BatchSize(chunks: map<Sha, Chunk>, b: nat, batch: seq<Sha>, value: GcResult)
    requires BatchOf(chunks, b, batch, value)
    ensures value.hasMore <==> |Orphans(chunks)| > b
    ensures |batch| == if value.hasMore then b else |Orphans(chunks)|
    ensures |Orphans(chunks - ToSet(batch))| == |Orphans(chunks)| - |batch|
  {
    OrphanAgeKeys(chunks);
    RemainingOrphans(chunks, batch);
    SameSet(batch, ToSet(batch));
    assert ToSet(batch) <= Orphans(chunks);
  }

  lemma SweptRows(chunks: map<Sha, Chunk>, log: seq<seq<Sha>>, batch: seq<Sha>)
    ensures chunks - ToSet(Flat(log)) - ToSet(batch) == chunks - ToSet(Flat(log + [batch]))
    ensures |Flat(log + [batch])| == |Flat(log)| + |batch|
  {
    FlatSnoc(log, batch);
    MinusTwice(chunks, ToSet(Flat(log)), ToSet(batch));
  }

  lemma MinusTwice<K, V>(m: map<K, V>, a: set<K>, b: set<K>)
    ensures m - a - b == m - (a + b)
  {
  }

  lemma SweepConsistent(t: Tables, rows: Tables, b: nat, batch: seq<Sha>, value: GcResult)
    requires Consistent(t) ==> Consistent(rows)
    requires BatchOf(rows.chunks, b, batch, value)
    ensures Consistent(t) ==> Consistent(rows.(chunks := rows.chunks - ToSet(batch)))
  {
    if Consistent(t) {
      OrphanAgeKeys(rows.chunks);
      BatchKeeps(rows, batch);
    }
  }

  lemma SweepAdvance(t: Tables, b: nat, log: seq<seq<Sha>>, total: GcResult, rows: Tables, batch: seq<Sha>, value: GcResult)
    requires b >= 1 && Sweeping(t, b, log, total, rows, true)
    requires BatchOf(rows.chunks, b, batch, value)
    ensures Sweeping(t, b, log + [batch], AddTo(total, value), rows.(chunks := rows.chunks - ToSet(batch)), value.hasMore)
    ensures |Orphans(rows.chunks - ToSet(batch))| == |Orphans(rows.chunks)| - |batch|
    ensures value.hasMore ==> |batch| == b
  {
    SweepStep(t, b, log, total, batch, value);
    SweptRows(t.chunks, log, batch);
    SweepConsistent(t, rows, b, batch, value);
    BatchSize(rows.chunks, b, batch, value);
    CountBatch(|Orphans(t.chunks)|, b, |log|, |Flat(log)|, |Orphans(rows.chunks)|, |batch|, value.hasMore);
  }
}
