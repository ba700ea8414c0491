/** Garbage collection and eviction over the metadata store and its blobs. */
module Service {
  import opened Wrappers
  import opened Schema
  import opened Metadata
  import opened Oldest
  import opened Sums
  import opened RefCounts
  import opened GcSpec
  import opened Eviction
  import opened Bytes
  import opened Seqs
  import opened EvictionLog

  datatype GcError = BackendDeleteFailed(sha: Sha) | Database(error: DbError)

  datatype GcPreview = GcPreview(candidateChunks: nat, candidateBytes: int)

  /** Adds up what each deleted hash reclaims; `footprints` remembers the listing. */
  method Reclaimed(deleted: seq<Sha>, footprints: map<Sha, int>) returns (count: nat, bytes: int)
    requires Enumerates(deleted, footprints.Keys)
    ensures count == |deleted| && bytes == Sum(footprints)
  {
    count, bytes := 0, 0;
    ghost var rest := footprints;
    for i := 0 to |deleted|
      invariant count == i
      invariant bytes + Sum(rest) == Sum(footprints)
      invariant rest.Keys == footprints.Keys - (set h | h in deleted[..i])
      invariant forall h :: h in rest ==> rest[h] == footprints[h]
    {
      var h := deleted[i];
      assert h in rest by {
        assert h !in deleted[..i];
      }
      SumRemove(rest, h);
      count, bytes := count + 1, bytes + footprints[h];
      rest := rest - {h};
      assert deleted[..i + 1] == deleted[..i] + [h];
    }
    assert deleted[..|deleted|] == deleted;
    assert rest == map[];
  }

  class CacheService {
    const metadata: MetadataStore
    /** Blobs the storage backend refuses to remove. */
    const broken: set<Sha>
    var blobs: map<Sha, Bytes>

    constructor (metadata: MetadataStore, broken: set<Sha>, blobs: map<Sha, Bytes>)
      ensures this.metadata == metadata && this.broken == broken && this.blobs == blobs
    {
      this.metadata, this.broken, this.blobs := metadata, broken, blobs;
    }

    method GcDryRun() returns (preview: GcPreview)
      ensures preview == GcPreview(|Orphans(metadata.chunks)|, Sum(OrphanBytes(metadata.chunks)))
    {
      var count, bytes := metadata.ListOrphanChunksStats();
      preview := GcPreview(count, bytes);
    }

    method DeleteBlobs(rows: seq<OrphanRow>) returns (refused: Option<Sha>, footprints: map<Sha, int>)
      modifies this`blobs
      ensures refused.Some? ==> refused.value in Shas(rows) && refused.value in broken
      ensures refused.Some? ==> exists i: nat :: StoppedAt(rows, i, refused.value, broken, old(blobs), blobs)
      ensures refused.None? ==> ToSet(Shas(rows)) !! broken
      ensures refused.None? ==> blobs == old(blobs) - ToSet(Shas(rows))
      ensures refused.None? ==> footprints.Keys == ToSet(Shas(rows))
      ensures refused.None? && Distinct(Shas(rows)) ==> Remembers(footprints, rows)
    {
      refused, footprints := None, map[];
      for i := 0 to |rows|
        invariant footprints.Keys == ToSet(Shas(rows[..i])) && ToSet(Shas(rows[..i])) !! broken
        invariant blobs == old(blobs) - ToSet(Shas(rows[..i]))
        invariant Distinct(Shas(rows)) ==> Remembers(footprints, rows[..i])
      {
        var h := rows[i].sha;
        assert Shas(rows)[i] == h;
        if h in broken {
          assert StoppedAt(rows, i, h, broken, old(blobs), blobs);
          return Some(h), footprints;
        }
        assert Shas(rows[..i + 1]) == Shas(rows[..i]) + [h];
        assert Distinct(Shas(rows)) ==> forall j :: 0 <= j < i ==> rows[j].sha != h by {
          assert forall j :: 0 <= j < i ==> Shas(rows)[j] == rows[j].sha;
        }
        blobs := blobs - {h};
        footprints := footprints[h := Footprint(rows[i].chunk)];
      }
      assert rows[..|rows|] == rows;
    }

    /** The oldest marked orphans, and whether there are more than `b`. */
    method ListBatch(b: nat) returns (orphans: seq<OrphanRow>, hasMore: bool)
      ensures OldestFirst(OrphanAges(metadata.chunks), Shas(orphans), b) && OldestOrphans(metadata.chunks, Shas(orphans), b)
      ensures ListedFrom(metadata.chunks, orphans) && (hasMore <==> |Orphans(metadata.chunks)| > b)
    {
      orphans := metadata.ListOrphanChunksBatch(b + 1);
      hasMore := |orphans| > b;
      TruncateRows(metadata.chunks, orphans, b);
      if hasMore {
        orphans := orphans[..b];
      }
      OldestMarks(metadata.chunks, Shas(orphans), b);
    }

    /** The rows in one transaction, reclaiming what the listing remembered. */
    method DeleteRows(orphans: seq<OrphanRow>, footprints: map<Sha, int>, hasMore: bool, ghost b: nat) returns (r: Result<GcResult, GcError>)
      requires OldestFirst(OrphanAges(metadata.chunks), Shas(orphans), b) && ListedFrom(metadata.chunks, orphans)
      requires footprints.Keys == ToSet(Shas(orphans)) && Remembers(footprints, orphans)
      requires hasMore <==> |Orphans(metadata.chunks)| > b
      modifies metadata`chunks
      ensures r.Err? ==> metadata.Rows() == old(metadata.Rows()) && r.error.Database?
      ensures r.Ok? ==> BatchOf(old(metadata.chunks), b, Shas(orphans), r.value)
      ensures r.Ok? ==> metadata.Rows() == old(metadata.Rows()).(chunks := old(metadata.chunks) - ToSet(Shas(orphans)))
      ensures Consistent(old(metadata.Rows())) ==> r.Ok?
    {
      OrphanAgeKeys(metadata.chunks);
      BatchFacts(metadata.Rows(), orphans, footprints);
      var res := GcResult(0, 0, 0, hasMore);
      if |orphans| > 0 {
        var deleted := metadata.DeleteChunksBatch(Shas(orphans));
        if deleted.Err? {
          return Err(Database(deleted.error));
        }
        var count, bytes := Reclaimed(deleted.value, footprints);
        SameSet(deleted.value, ToSet(Shas(orphans)));
        res := res.(deletedChunks := count, reclaimedBytes := bytes);
      }
      return Ok(res);
    }

    /** Blobs first, then the rows in one transaction; the first blob that cannot be removed ends the batch. */
    method GcExecuteBatch(b: nat) returns (r: Result<GcResult, GcError>, ghost batch: seq<Sha>)
      modifies this`blobs, metadata`chunks
      ensures OldestOrphans(old(metadata.chunks), batch, b)
      ensures r.Err? ==> metadata.Rows() == old(metadata.Rows()) && Partial(batch, broken, old(blobs), blobs)
      ensures r.Err? && r.error.BackendDeleteFailed? ==> r.error.sha in broken && r.error.sha in batch
      ensures r.Ok? ==> BatchOf(old(metadata.chunks), b, batch, r.value)
      ensures r.Ok? ==> metadata.Rows() == old(metadata.Rows()).(chunks := old(metadata.chunks) - ToSet(batch))
      ensures r.Ok? ==> blobs == old(blobs) - ToSet(batch)
      ensures Consistent(old(metadata.Rows())) && Orphans(old(metadata.chunks)) !! broken ==> r.Ok?
    {
      var orphans, hasMore := ListBatch(b);
      batch := Shas(orphans);
      OrphanAgeKeys(metadata.chunks);
      var refused, footprints := DeleteBlobs(orphans);
      if refused.Some? {
        StoppedIsCutShort(orphans, refused.value, broken, old(blobs), blobs);
        return Err(BackendDeleteFailed(refused.value)), batch;
      }
      AllIsCutShort(batch, broken, old(blobs), blobs);
      r := DeleteRows(orphans, footprints, hasMore, b);
    }

    /** The command-line loop: batches until one reports no more, summing what they return. */
    method RunGc(b: nat) returns (r: Result<GcResult, GcError>, batches: nat, ghost log: seq<seq<Sha>>)
      requires b >= 1
      modifies this`blobs, metadata`chunks
      ensures Consistent(old(metadata.Rows())) && Orphans(old(metadata.chunks)) !! broken ==> r.Ok?
      ensures r.Ok? ==> |log| == batches && Collected(old(metadata.Rows()), b, r.value, metadata.Rows(), log)
      ensures r.Ok? ==> blobs == old(blobs) - ToSet(Flat(log))
      ensures metadata.Rows() == old(metadata.Rows()).(chunks := old(metadata.chunks) - ToSet(Flat(log))) && |log| == batches
      ensures TakenSoFar(OrphanAges(old(metadata.chunks)), Flat(log))
      ensures r.Ok? ==> forall h :: h in metadata.chunks ==> metadata.chunks[h].refCount != 0 || metadata.chunks[h].orphanedAt.None?
    {
      ghost var t := metadata.Rows();
      log, batches := [], 0;
      var total, more := GcResult(0, 0, 0, false), true;
      SweepStart(t, b);
      assert BlobsLeft(old(blobs), log, blobs);
      while more
        invariant Sweeping(t, b, log, total, metadata.Rows(), more) && |log| == batches
        invariant BlobsLeft(old(blobs), log, blobs)
        decreases |Orphans(metadata.chunks)|, more
      {
        ghost var rows, kept := metadata.Rows(), blobs;
        SweptOrphans(t, b, log, total);
        var value, batch := GcExecuteBatch(b);
        if value.Err? {
          return value, batches, log;
        }
        SweepAdvance(t, b, log, total, rows, batch, value.value);
        FewerBlobs(old(blobs), log, batch, kept);
        total := AddTo(total, value.value);
        log, batches, more := log + [batch], batches + 1, value.value.hasMore;
      }
      SweepDone(t, b, log, total, metadata.Rows());
      NoneMarked(t, b, total, metadata.Rows(), log);
      return Ok(total), batches, log;
    }

    /** What the eviction works on. */
    ghost function Held(): Kept
      reads this, metadata
    {
      Kept(metadata.Rows(), blobs)
    }

    /**
     Collect garbage, then evict whole repositories, least recently accessed first, until the
     recorded file sizes fit. A failed collection aborts; `at` is where the acts of the log had led.
     */
    method EvictIfNeeded(maxSize: nat, clock: int -> int)
        returns (r: Result<(), GcError>, ghost evicted: seq<string>, ghost log: seq<Did>, ghost at: Kept)
      modifies this`blobs, metadata
      ensures MinimalLru(old(metadata.files), evicted, maxSize)
      ensures metadata.files == Survivors(old(metadata.files), evicted)
      ensures Chain(old(Held()), log, clock, at) && Follows(log, maxSize) && Victims(log) == evicted && at.t == metadata.Rows()
      ensures r.Ok? ==> at == Held() && log != [] && log[|log| - 1].act.Top?
      ensures r.Err? ==> Interrupted(at, broken, blobs)
      ensures r.Ok? ==> Sum(FileSizesOf(metadata.files)) <= maxSize
      ensures Consistent(old(metadata.Rows())) ==> Consistent(metadata.Rows())
      ensures Consistent(old(metadata.Rows())) && broken == {} ==> r.Ok?
    {
      ghost var start := Held();
      EvictingStarts(start, clock, maxSize);
      r, evicted, log, at := EvictLoop(start, maxSize, clock);
      EvictingIs(start, evicted, log, clock, maxSize, at);
    }

    /** Turns until the recorded sizes fit. */
    method EvictLoop(ghost start: Kept, maxSize: nat, clock: int -> int)
        returns (r: Result<(), GcError>, ghost evicted: seq<string>, ghost log: seq<Did>, ghost at: Kept)
      requires Evicting(start, [], [], clock, maxSize, Held()) && Due([], Held(), maxSize, Top([]))
      modifies this`blobs, metadata
      ensures Evicting(start, evicted, log, clock, maxSize, at) && at.t == metadata.Rows()
      ensures r.Ok? ==> at == Held() && Stopped(log, at, maxSize)
      ensures r.Err? ==> Interrupted(at, broken, blobs)
      ensures Consistent(start.t) && broken == {} ==> r.Ok?
    {
      evicted, log, at := [], [], Held();
      while true
        invariant Evicting(start, evicted, log, clock, maxSize, Held()) && Due(log, Held(), maxSize, Top([]))
        decreases metadata.files.Keys, metadata.chunks.Keys
      {
        var done;
        done, evicted, log, at := EvictTurn(start, evicted, log, maxSize, clock);
        if done.Err? {
          return Err(done.error), evicted, log, at;
        }
        if done.value {
          break;
        }
      }
      r := Ok(());
    }

    method IsOver(limit: nat) returns (over: bool)
      ensures over <==> !Fits(metadata.Rows(), limit)
    {
      var bytes := metadata.OriginalBytes();
      over := bytes > limit;
    }

    /** One turn of the loop, and whether it was the last. */
    method EvictTurn(ghost start: Kept, ghost evicted: seq<string>, ghost log: seq<Did>, maxSize: nat, clock: int -> int)
        returns (done: Result<bool, GcError>, ghost gone: seq<string>, ghost more: seq<Did>, ghost at: Kept)
      requires Evicting(start, evicted, log, clock, maxSize, Held()) && Due(log, Held(), maxSize, Top([]))
      modifies this`blobs, metadata
      ensures Evicting(start, gone, more, clock, maxSize, at) && at.t == metadata.Rows()
      ensures done.Ok? ==> at == Held()
      ensures done.Ok? && done.value ==> Stopped(more, at, maxSize)
      ensures done.Ok? && !done.value ==> Due(more, at, maxSize, Top([]))
      ensures done.Ok? && !done.value ==> Shrinks(old(metadata.Rows()), at.t)
      ensures done.Err? ==> Interrupted(at, broken, blobs)
      ensures Consistent(start.t) && broken == {} ==> done.Ok?
    {
      gone := evicted;
      var freed;
      freed, more, at := LoggedCollect(false, start, evicted, log, clock, maxSize);
      if freed.Err? {
        return Err(freed.error), gone, more, at;
      }
      var over := IsOver(maxSize);
      if !over {
        return Ok(true), gone, more, at;
      }
      if freed.value.deletedChunks > 0 {
        return Ok(false), gone, more, at;
      }
      done, gone, more, at := EvictAndCollect(start, gone, more, maxSize, clock);
    }

    /** The second half of a turn, when nothing was left to collect. */
    method EvictAndCollect(ghost start: Kept, ghost evicted: seq<string>, ghost log: seq<Did>, ghost maxSize: nat, clock: int -> int)
        returns (done: Result<bool, GcError>, ghost gone: seq<string>, ghost more: seq<Did>, ghost at: Kept)
      requires Evicting(start, evicted, log, clock, maxSize, Held()) && Due(log, Held(), maxSize, Evict("", []))
      requires !Fits(metadata.Rows(), maxSize) && log != [] && log[|log| - 1].act.Top?
      modifies this`blobs, metadata
      ensures Evicting(start, gone, more, clock, maxSize, at) && at.t == metadata.Rows()
      ensures done.Ok? ==> at == Held()
      ensures done.Ok? && done.value ==> Stopped(more, at, maxSize)
      ensures done.Ok? && !done.value ==> Due(more, at, maxSize, Top([]))
      ensures done.Ok? && !done.value ==> Shrinks(old(metadata.Rows()), at.t)
      ensures done.Err? ==> Interrupted(at, broken, blobs)
      ensures Consistent(start.t) && broken == {} ==> done.Ok?
    {
      var victim;
      victim, gone, more := LoggedEvict(start, evicted, log, clock, maxSize);
      at := Held();
      if victim.None? {
        NoFilesFit(metadata.Rows(), maxSize);
        return Ok(true), gone, more, at;
      }
      var after;
      after, more, at := LoggedCollect(true, start, gone, more, clock, maxSize);
      done := if after.Err? then Err(after.error) else Ok(false);
    }

    /** A batch of 32, logged. */
    method LoggedCollect(ghost tail: bool, ghost start: Kept, ghost evicted: seq<string>, ghost log: seq<Did>, ghost clock: int -> int,
                         ghost limit: nat)
        returns (r: Result<GcResult, GcError>, ghost more: seq<Did>, ghost at: Kept)
      requires Evicting(start, evicted, log, clock, limit, Held()) && Due(log, Held(), limit, if tail then Tail([]) else Top([]))
      modifies this`blobs, metadata`chunks
      ensures r.Ok? ==> at == Held() && |more| > 0 && Evicting(start, evicted, more, clock, limit, at)
      ensures r.Ok? && tail ==> Due(more, at, limit, Top([]))
      ensures r.Ok? && !tail ==> more[|more| - 1].act.Top? && (Fits(at.t, limit) ==> Stopped(more, at, limit))
      ensures r.Ok? && r.value.deletedChunks > 0 ==> Shrinks(old(metadata.Rows()), at.t)
      ensures r.Ok? && !tail && !Fits(at.t, limit) ==> Due(more, at, limit, if r.value.deletedChunks > 0 then Top([]) else Evict("", []))
      ensures r.Err? ==> at == old(Held()) && more == log && at.t == metadata.Rows()
      ensures r.Err? ==> Interrupted(at, broken, blobs)
      ensures metadata.chunks.Keys <= old(metadata.chunks.Keys)
      ensures Consistent(start.t) && broken == {} ==> r.Ok?
    {
      at, more := Held(), log;
      EvictingIs(start, evicted, log, clock, limit, at);
      ghost var batch;
      r, batch := Collect();
      if r.Ok? {
        ghost var act := if tail then Tail(batch) else Top(batch);
        more := log + [Did(at, act)];
        CollectedNext(start, evicted, log, clock, limit, at, act, Held());
        at := Held();
      }
    }

    /** The least recently accessed repository goes, logged. */
    method LoggedEvict(ghost start: Kept, ghost evicted: seq<string>, ghost log: seq<Did>, clock: int -> int, ghost limit: nat)
        returns (victim: Option<string>, ghost gone: seq<string>, ghost more: seq<Did>)
      requires Evicting(start, evicted, log, clock, limit, Held()) && Due(log, Held(), limit, Evict("", []))
      requires !Fits(metadata.Rows(), limit)
      modifies metadata
      ensures victim.None? ==> metadata.files == map[] && Held() == old(Held()) && more == log && gone == evicted
      ensures victim.Some? ==> Evicting(start, gone, more, clock, limit, Held()) && Due(more, Held(), limit, Tail([]))
      ensures victim.Some? ==> metadata.files.Keys < old(metadata.files.Keys)
    {
      ghost var at := Held();
      EvictingIs(start, evicted, log, clock, limit, at);
      ghost var ids;
      victim, ids := EvictOldest(clock);
      gone, more := evicted, log;
      if victim.Some? {
        EvictedNext(start, evicted, log, clock, limit, at, victim.value, ids, Held());
        gone, more := evicted + [victim.value], log + [Did(at, Evict(victim.value, ids))];
      }
    }

    /** The first of the ten repositories accessed least recently. */
    method EvictOldest(clock: int -> int) returns (victim: Option<string>, ghost ids: seq<int>)
      modifies metadata
      ensures victim.None? ==> metadata.files == map[] && metadata.Rows() == old(metadata.Rows())
      ensures victim.Some? ==> exists a :: LeastRecent(old(metadata.files), victim.value, a)
      ensures victim.Some? ==> Does(old(Held()), Evict(victim.value, ids), clock, Held())
      ensures victim.Some? ==> metadata.files == old(metadata.files) - RepoFiles(old(metadata.files), victim.value)
      ensures victim.Some? ==> metadata.files.Keys < old(metadata.files.Keys)
      ensures Consistent(old(metadata.Rows())) ==> Consistent(metadata.Rows())
    {
      victim := FindOldest();
      ids := [];
      if victim.Some? {
        ids := EvictRepoFiles(victim.value, clock);
      }
    }

    method FindOldest() returns (victim: Option<string>)
      ensures victim.None? ==> metadata.files == map[]
      ensures victim.Some? ==> exists a :: LeastRecent(metadata.files, victim.value, a)
      ensures victim.Some? ==> (metadata.files - RepoFiles(metadata.files, victim.value)).Keys < metadata.files.Keys
    {
      var repos, ages := metadata.ListReposByAccess(10);
      if repos == [] {
        NoCandidates(metadata.files, ages, repos, 10);
        return None;
      }
      OldestRepoIsLeastRecent(metadata.files, ages, repos, 10);
      HasFiles(metadata.files, repos[0], ages[repos[0]]);
      return Some(repos[0]);
    }

    /** One batch of 32 as the eviction loop runs it: files untouched, chunk rows only removed. */
    method Collect() returns (r: Result<GcResult, GcError>, ghost batch: seq<Sha>)
      modifies this`blobs, metadata`chunks
      ensures OldestOrphans(old(metadata.chunks), batch, 32)
      ensures r.Ok? ==> metadata.Rows() == old(metadata.Rows()).(chunks := old(metadata.chunks) - ToSet(batch))
      ensures r.Ok? ==> blobs == old(blobs) - ToSet(batch) && r.value.deletedChunks == |batch|
      ensures r.Err? ==> metadata.Rows() == old(metadata.Rows()) && Partial(batch, broken, old(blobs), blobs)
      ensures metadata.chunks.Keys <= old(metadata.chunks.Keys)
      ensures r.Ok? && r.value.deletedChunks > 0 ==> metadata.chunks.Keys < old(metadata.chunks.Keys)
      ensures Consistent(old(metadata.Rows())) ==> Consistent(metadata.Rows())
      ensures Consistent(old(metadata.Rows())) && broken == {} ==> r.Ok?
    {
      ghost var t := metadata.Rows();
      r, batch := GcExecuteBatch(32);
      OrphanAgeKeys(t.chunks);
      if r.Ok? {
        if r.value.deletedChunks > 0 {
          assert batch[0] in t.chunks && batch[0] !in metadata.chunks;
        }
        if Consistent(t) {
          BatchKeeps(t, batch);
        }
      }
    }

    method EvictRepoFiles(repo: string, clock: int -> int) returns (ghost ids: seq<int>)
      modifies metadata
      ensures Enumerates(ids, RepoFiles(old(metadata.files), repo)) && metadata.Rows() == DeleteFiles(old(metadata.Rows()), ids, clock)
      ensures metadata.files == old(metadata.files) - RepoFiles(old(metadata.files), repo)
      ensures Consistent(old(metadata.Rows())) ==> Consistent(metadata.Rows())
    {
      ghost var t := metadata.Rows();
      var count;
      count, ids := metadata.DeleteFilesByRepo(repo, clock);
      FilesAfterDeletes(t, ids, clock);
      assert (set f | f in ids) == RepoFiles(t.files, repo);
      if Consistent(t) {
        DeleteFilesKeeps(t, ids, clock);
      }
    }
  }

  /** Between the acts of an eviction, with the tables and blobs at `now`. */
  ghost predicate Evicting(start: Kept, evicted: seq<string>, log: seq<Did>, clock: int -> int, limit: nat, now: Kept) {
    match now
    case Kept(t, _) =>
      && MinimalLru(start.t.files, evicted, limit) && t.files == Survivors(start.t.files, evicted)
      && Chain(start, log, clock, now) && Follows(log, limit) && Victims(log) == evicted
      && (Consistent(start.t) ==> Consistent(t))
  }

  lemma EvictingStarts(start: Kept, clock: int -> int, limit: nat)
    ensures Evicting(start, [], [], clock, limit, start)
  {
    assert Survivors(start.t.files, []) == start.t.files;
  }

  lemma EvictingIs(start: Kept, evicted: seq<string>, log: seq<Did>, clock: int -> int, limit: nat, now: Kept)
    requires Evicting(start, evicted, log, clock, limit, now)
    ensures MinimalLru(start.t.files, evicted, limit) && now.t.files == Survivors(start.t.files, evicted)
    ensures Chain(start, log, clock, now) && Follows(log, limit) && Victims(log) == evicted
    ensures Consistent(start.t) ==> Consistent(now.t)
  {
  }

  lemma CollectedNext(start: Kept, evicted: seq<string>, log: seq<Did>, clock: int -> int, limit: nat, now: Kept, a: Act, next: Kept)
    requires Evicting(start, evicted, log, clock, limit, now) && Due(log, now, limit, a) && !a.Evict?
    requires Does(now, a, clock, next) && (Consistent(now.t) ==> Consistent(next.t))
    ensures Evicting(start, evicted, log + [Did(now, a)], clock, limit, next)
  {
    OneMore(start, log, clock, now, limit, a, next);
  }

  lemma EvictedNext(start: Kept, evicted: seq<string>, log: seq<Did>, clock: int -> int, limit: nat, now: Kept,
                    repo: string, ids: seq<int>, next: Kept)
    requires Evicting(start, evicted, log, clock, limit, now) && Due(log, now, limit, Evict(repo, ids))
    requires !Fits(now.t, limit) && exists a :: LeastRecent(now.t.files, repo, a)
    requires next.t.files == now.t.files - RepoFiles(now.t.files, repo)
    requires Does(now, Evict(repo, ids), clock, next) && (Consistent(now.t) ==> Consistent(next.t))
    ensures Evicting(start, evicted + [repo], log + [Did(now, Evict(repo, ids))], clock, limit, next)
  {
    var a :| LeastRecent(now.t.files, repo, a);
    EvictOne(start.t.files, evicted, repo, limit, a);
    OneMore(start, log, clock, now, limit, Evict(repo, ids), next);
  }

  lemma NoFilesFit(t: Tables, limit: nat)
    requires t.files == map[]
    ensures Fits(t, limit)
  {
    assert FileSizesOf(t.files) == map[];
  }

  lemma HasFiles(files: map<int, File>, repo: string, a: int)
    requires LeastRecent(files, repo, a)
    ensures RepoFiles(files, repo) != {} && (files - RepoFiles(files, repo)).Keys < files.Keys
  {
    var f :| f in files && files[f].repo == repo;
    assert f in RepoFiles(files, repo);
  }

  /** The blobs left once the batches of `log` are gone. */
  ghost predicate BlobsLeft(before: map<Sha, Bytes>, log: seq<seq<Sha>>, now: map<Sha, Bytes>) {
    now == before - ToSet(Flat(log))
  }

  lemma FewerBlobs(before: map<Sha, Bytes>, log: seq<seq<Sha>>, batch: seq<Sha>, now: map<Sha, Bytes>)
    requires BlobsLeft(before, log, now)
    ensures BlobsLeft(before, log + [batch], now - ToSet(batch))
  {
    FlatSnoc(log, batch);
    MinusTwice(before, ToSet(Flat(log)), ToSet(batch));
  }

  lemma NoneMarked(t: Tables, b: nat, value: GcResult, rows: Tables, log: seq<seq<Sha>>)
    requires b >= 1 && Collected(t, b, value, rows, log)
    ensures forall h :: h in rows.chunks ==> rows.chunks[h].refCount != 0 || rows.chunks[h].orphanedAt.None?
  {
  }

  /** Row `i` is the first whose blob is refused; the blobs of the rows before it are gone. */
  ghost predicate StoppedAt(rows: seq<OrphanRow>, i: nat, h: Sha, broken: set<Sha>, before: map<Sha, Bytes>, after: map<Sha, Bytes>) {
    && i < |rows| && rows[i].sha == h && h in broken
    && ToSet(Shas(rows[..i])) !! broken && after == before - ToSet(Shas(rows[..i]))
  }

  /** Of a listed batch exactly the first `i` blobs are gone; the next one, if any, was refused. */
  ghost predicate CutShort(batch: seq<Sha>, i: nat, broken: set<Sha>, before: map<Sha, Bytes>, after: map<Sha, Bytes>) {
    i <= |batch| && (i < |batch| ==> batch[i] in broken) && after == before - ToSet(batch[..i])
  }

  /** Some of the batch's blobs are gone, up to one that was refused. */
  ghost predicate Partial(batch: seq<Sha>, broken: set<Sha>, before: map<Sha, Bytes>, after: map<Sha, Bytes>) {
    exists i: nat :: CutShort(batch, i, broken, before, after)
  }

  /** A collection from `at` was cut short: rows as they were, blobs of the oldest marked orphans gone up to a refused one. */
  ghost predicate Interrupted(at: Kept, broken: set<Sha>, after: map<Sha, Bytes>) {
    exists batch :: OldestOrphans(at.t.chunks, batch, 32) && Partial(batch, broken, at.blobs, after)
  }

  lemma AllIsCutShort(batch: seq<Sha>, broken: set<Sha>, before: map<Sha, Bytes>, after: map<Sha, Bytes>)
    requires after == before - ToSet(batch)
    ensures Partial(batch, broken, before, after)
  {
    assert batch[..|batch|] == batch;
    assert CutShort(batch, |batch|, broken, before, after);
  }

  lemma StoppedIsCutShort(rows: seq<OrphanRow>, h: Sha, broken: set<Sha>, before: map<Sha, Bytes>, after: map<Sha, Bytes>)
    requires exists i: nat :: StoppedAt(rows, i, h, broken, before, after)
    ensures Partial(Shas(rows), broken, before, after)
  {
    var i: nat :| StoppedAt(rows, i, h, broken, before, after);
    assert Shas(rows[..i]) == Shas(rows)[..i];
    assert CutShort(Shas(rows), i, broken, before, after);
  }

  ghost predicate Remembers(footprints: map<Sha, int>, rows: seq<OrphanRow>) {
    forall i :: 0 <= i < |rows| ==> rows[i].sha in footprints && footprints[rows[i].sha] == Footprint(rows[i].chunk)
  }

  ghost predicate ListedFrom(chunks: map<Sha, Chunk>, rows: seq<OrphanRow>) {
    forall r :: r in rows ==> r.sha in chunks && r.chunk == chunks[r.sha]
  }

  lemma TruncateRows(chunks: map<Sha, Chunk>, rows: seq<OrphanRow>, b: nat)
    requires OldestFirst(OrphanAges(chunks), Shas(rows), b + 1) && ListedFrom(chunks, rows)
    ensures |rows| > b <==> |Orphans(chunks)| > b
    ensures var kept := if |rows| > b then rows[..b] else rows;
            OldestFirst(OrphanAges(chunks), Shas(kept), b) && ListedFrom(chunks, kept)
  {
    TruncateOldest(OrphanAges(chunks), Shas(rows), b);
    OrphanAgeKeys(chunks);
    if |rows| > b {
      assert Shas(rows[..b]) == Shas(rows)[..b];
    }
  }

  lemma BatchFacts(t: Tables, rows: seq<OrphanRow>, footprints: map<Sha, int>)
    requires Distinct(Shas(rows)) && ListedFrom(t.chunks, rows)
    requires forall h :: h in Shas(rows) ==> h in Orphans(t.chunks)
    requires footprints.Keys == ToSet(Shas(rows))
    requires Remembers(footprints, rows)
    ensures footprints == Footprints(t.chunks, ToSet(Shas(rows)))
    ensures Deletable(t.chunks, Shas(rows)) == ToSet(Shas(rows)) && |Shas(rows)| == |ToSet(Shas(rows))|
    ensures Consistent(t) ==> Schema.DeleteChunks(t, Shas(rows)).Ok?
    ensures rows == [] ==> footprints == map[] && t.chunks - ToSet(Shas(rows)) == t.chunks
  {
    var batch := Shas(rows);
    forall h | h in batch ensures footprints[h] == Footprint(t.chunks[h]) {
      var i :| 0 <= i < |batch| && batch[i] == h;
      assert rows[i] in rows && rows[i].sha == h;
    }
    AllOrphansDeletable(t.chunks, batch);
    SameSet(batch, ToSet(batch));
    if Consistent(t) {
      DeleteChunksKeeps(t, batch);
    }
  }
}
