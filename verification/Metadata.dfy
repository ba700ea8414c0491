/** The metadata store: every public operation holds the connection lock once and is one transaction. */
module Metadata {
  import opened Wrappers
  import opened Schema
  import opened Oldest
  import opened Reconciliation
  import opened Sums
  import Dedup

  datatype OrphanRow = OrphanRow(sha: Sha, chunk: Chunk)

  lemma GroupHasRefs(links: map<Slot, Link>, f: int, h: Sha)
    ensures (exists k :: k in links && k.file == f && links[k].sha == h) <==> RefsLost(links, f, h) > 0
  {
    var lost := set k | k in links && k.file == f && links[k].sha == h;
    if k :| k in links && k.file == f && links[k].sha == h {
      assert k in lost;
    }
    if lost != {} {
      var k :| k in lost;
    }
  }

  function GroupedDeltas(links: map<Slot, Link>, f: int): map<Sha, nat> {
    map h | h in (set k | k in links && k.file == f :: links[k].sha) :: RefsLost(links, f, h)
  }

  function ApplyDeltas(chunks: map<Sha, Chunk>, deltas: map<Sha, nat>, now: int): map<Sha, Chunk> {
    map h | h in chunks :: if h in deltas then Discount(chunks[h], deltas[h], now) else chunks[h]
  }

  function LinksWithout(links: map<Slot, Link>, f: int): map<Slot, Link> {
    map k | k in links && k.file != f :: links[k]
  }

  lemma DeltaOf(t: Tables, f: int, now: int, h: Sha)
    requires h in t.chunks
    ensures ApplyDeltas(t.chunks, GroupedDeltas(t.links, f), now)[h] == Schema.DeleteFileById(t, f, now).chunks[h]
  {
    GroupHasRefs(t.links, f, h);
  }

  /** Grouping by hash and updating once per group touches exactly the chunks that lose links. */
  lemma DeltasApplied(t: Tables, f: int, now: int)
    ensures var deltas := GroupedDeltas(t.links, f);
      Schema.DeleteFileById(t, f, now).chunks
        == if |deltas| > 0 then ApplyDeltas(t.chunks, deltas, now) else t.chunks
  {
    var deltas := GroupedDeltas(t.links, f);
    forall h | h in t.chunks {
      DeltaOf(t, f, now, h);
    }
    assert |deltas| == 0 ==> deltas == map[];
    assert |deltas| == 0 ==> ApplyDeltas(t.chunks, deltas, now) == t.chunks;
    assert Schema.DeleteFileById(t, f, now).chunks == ApplyDeltas(t.chunks, deltas, now);
  }

  /** The age of each marked orphan. */
  function OrphanAges(chunks: map<Sha, Chunk>): map<Sha, int> {
    map h | h in Orphans(chunks) :: chunks[h].orphanedAt.value
  }

  /** Marked orphans by the time of their mark, earliest first, each once; a later or equally old one is left out only at the limit. */
  ghost predicate OldestOrphans(chunks: map<Sha, Chunk>, order: seq<Sha>, limit: nat) {
    && |order| <= limit
    && (forall i, j :: 0 <= i < j < |order| ==> order[i] != order[j])
    && (forall i :: 0 <= i < |order| ==> order[i] in chunks && chunks[order[i]].refCount == 0 && chunks[order[i]].orphanedAt.Some?)
    && (forall i, j :: 0 <= i < j < |order| ==> chunks[order[i]].orphanedAt.value <= chunks[order[j]].orphanedAt.value)
    && (forall h :: h in chunks && chunks[h].refCount == 0 && chunks[h].orphanedAt.Some? && h !in order ==>
          |order| == limit && forall i :: 0 <= i < |order| ==> chunks[order[i]].orphanedAt.value <= chunks[h].orphanedAt.value)
  }

  lemma OldestMarks(chunks: map<Sha, Chunk>, order: seq<Sha>, limit: nat)
    requires OldestFirst(OrphanAges(chunks), order, limit)
    ensures OldestOrphans(chunks, order, limit)
  {
    var ages := OrphanAges(chunks);
    assert forall i :: 0 <= i < |order| ==> order[i] in order;
    forall h | h in ages && h !in order ensures |order| == limit {
      if |order| < limit {
        assert |ages| == |ages.Keys|;
        DistinctSize(order, ages.Keys);
      }
    }
    assert forall h :: h in chunks && chunks[h].refCount == 0 && chunks[h].orphanedAt.Some? ==> h in ages;
  }

  function OrphanBytes(chunks: map<Sha, Chunk>): map<Sha, int> {
    map h | h in Orphans(chunks) :: Footprint(chunks[h])
  }

  function FileSizesOf(files: map<int, File>): map<int, int> {
    map f | f in files :: files[f].totalSize
  }

  function Repos(files: map<int, File>): set<string> {
    set f | f in files :: files[f].repo
  }

  /** `a` is the earliest access among the files of `repo`. */
  ghost predicate EarliestAccess(files: map<int, File>, repo: string, a: int) {
    && (exists f :: f in files && files[f].repo == repo && files[f].lastAccessed == a)
    && (forall f :: f in files && files[f].repo == repo ==> a <= files[f].lastAccessed)
  }

  ghost predicate AccessAges(files: map<int, File>, ages: map<string, int>) {
    ages.Keys == Repos(files) && forall r :: r in ages ==> EarliestAccess(files, r, ages[r])
  }

  /** Repositories, each once, none accessed after a later one or after one left out. */
  ghost predicate LeastRecentFirst(files: map<int, File>, repos: seq<string>) {
    && (forall i, j :: 0 <= i < j < |repos| ==> repos[i] != repos[j])
    && (forall i :: 0 <= i < |repos| ==> repos[i] in Repos(files))
    && (forall i, f :: 0 <= i < |repos| && f in files && files[f].repo !in repos[..i] ==>
          AccessedBy(files, repos[i], files[f].lastAccessed))
  }

  ghost predicate AccessedBy(files: map<int, File>, repo: string, a: int) {
    exists g :: g in files && files[g].repo == repo && files[g].lastAccessed <= a
  }

  lemma AgesOrder(files: map<int, File>, ages: map<string, int>, repos: seq<string>, limit: nat)
    requires AccessAges(files, ages) && OldestFirst(ages, repos, limit)
    ensures LeastRecentFirst(files, repos)
    ensures |repos| == if |Repos(files)| < limit then |Repos(files)| else limit
  {
    assert |ages| == |ages.Keys|;
    forall i, f | 0 <= i < |repos| && f in files && files[f].repo !in repos[..i]
      ensures AccessedBy(files, repos[i], files[f].lastAccessed)
    {
      assert files[f].repo in Repos(files);
      OldestOfRest(ages, repos, limit, i, files[f].repo);
      AccessOrder(files, ages, repos[i], f);
    }
  }

  lemma AccessOrder(files: map<int, File>, ages: map<string, int>, repo: string, f: int)
    requires AccessAges(files, ages) && f in files && files[f].repo in ages && repo in ages && ages[repo] <= ages[files[f].repo]
    ensures AccessedBy(files, repo, files[f].lastAccessed)
  {
    assert EarliestAccess(files, files[f].repo, ages[files[f].repo]) && EarliestAccess(files, repo, ages[repo]);
  }

  function SlotIndices(links: map<Slot, Link>, f: int): map<Slot, int> {
    map k | k in links && k.file == f :: k.index
  }

  method PickAny<K(==)>(s: set<K>) returns (k: K)
    requires s != {}
    ensures k in s
  {
    k :| k in s;
  }

  /** A SUM aggregate. */
  method Total<K(==)>(m: map<K, int>) returns (total: int)
    ensures total == Sum(m)
  {
    var rest := m;
    total := 0;
    while rest != map[]
      invariant total + Sum(rest) == Sum(m)
      decreases rest.Keys
    {
      var k :| k in rest.Keys;
      SumRemove(rest, k);
      total := total + rest[k];
      rest := rest - {k};
    }
  }

  /** One row of the scan: what it counts, and the two UPDATEs unless it is right or this is a dry run. */
  method ReconcileRow(h: Sha, tx: map<Sha, Chunk>, actual: nat, before: Report, dryRun: bool, now: int)
      returns (report: Report, tx': map<Sha, Chunk>)
    requires h in tx
    ensures report == Tally(before, tx[h], actual)
    ensures tx' == if dryRun then tx else tx[h := Reconciled(tx[h], actual, now)]
  {
    var row := tx[h];
    var refMismatch := row.refCount != actual;
    var shouldClear := actual > 0 && row.orphanedAt.Some?;
    var shouldMark := actual == 0 && row.orphanedAt.None?;
    report, tx' := before.(scanned := before.scanned + 1), tx;
    if refMismatch {
      report := report.(mismatched := report.mismatched + 1, fixed := report.fixed + 1);
    }
    if shouldClear {
      report := report.(cleared := report.cleared + 1);
    }
    if shouldMark {
      report := report.(marked := report.marked + 1);
    }
    if !dryRun && (refMismatch || shouldClear || shouldMark) {
      tx' := tx'[h := row.(refCount := actual)];
      if actual > 0 {
        tx' := tx'[h := tx'[h].(orphanedAt := None)];
      } else if row.orphanedAt.None? {
        tx' := tx'[h := tx'[h].(orphanedAt := Some(now))];
      }
    }
  }

  method ScanRows(t: Tables, dryRun: bool, clock: Sha -> int) returns (report: Report, tx: map<Sha, Chunk>)
    ensures report == ReportOf(t)
    ensures tx == if dryRun then t.chunks else Reconcile(t, clock).chunks
  {
    tx := t.chunks;
    var rest := t.chunks.Keys;
    report := Report(0, 0, 0, 0, 0);
    while rest != {}
      invariant rest <= t.chunks.Keys
      invariant dryRun ==> tx == t.chunks
      invariant !dryRun ==> RowsFixed(t, rest, clock, tx)
      invariant Counted(t, rest, report)
      decreases rest
    {
      var h :| h in rest;
      ghost var before, counted := tx, report;
      report, tx := ReconcileRow(h, tx, Refs(t.links, h), report, dryRun, clock(h));
      TallyStep(t, rest, counted, h);
      if !dryRun {
        RowStep(t, rest, clock, before, tx, h);
      }
      rest := rest - {h};
    }
    CountsDone(t, report);
    if !dryRun {
      RowsDone(t, clock, tx);
    }
  }

  class MetadataStore {
    var files: map<int, File>
    var lastId: int
    var chunks: map<Sha, Chunk>
    var links: map<Slot, Link>

    function Rows(): Tables
      reads this
    {
      Tables(files, lastId, chunks, links)
    }

    constructor ()
      ensures Rows() == EMPTY
    {
      files, lastId, chunks, links := map[], 0, map[], map[];
    }

    method AddFile(name: string, repo: string, totalSize: nat, source: string, now: int) returns (r: Result<int, DbError>)
      modifies this
      ensures Rows() == Schema.AddFile(old(Rows()), File(name, source, repo, totalSize, now))
      ensures r == if NameTaken(old(files), name, source) then Err(UniqueViolation) else Ok(old(lastId) + 1)
      ensures r.Ok? <==> forall f :: f in old(files) ==> old(files)[f].name != name || old(files)[f].source != source
      ensures r.Ok? ==> r.value == lastId && files == old(files)[r.value := File(name, source, repo, totalSize, now)]
      ensures r.Err? ==> files == old(files) && lastId == old(lastId)
      ensures chunks == old(chunks) && links == old(links)
    {
      if exists f | f in files :: files[f].name == name && files[f].source == source {
        return Err(UniqueViolation);
      }
      lastId := lastId + 1;
      files := files[lastId := File(name, source, repo, totalSize, now)];
      return Ok(lastId);
    }

    method TouchRepo(repo: string, now: int)
      modifies this`files
      ensures Rows() == Schema.TouchRepo(old(Rows()), repo, now)
    {
      files := map f | f in files :: if files[f].repo == repo then files[f].(lastAccessed := now) else files[f];
    }

    method FindFile(name: string, source: string) returns (id: Option<int>)
      ensures id.Some? ==> id.value in files && files[id.value].name == name && files[id.value].source == source
      ensures id.None? ==> !NameTaken(files, name, source)
      ensures id.None? ==> forall f :: f in files ==> files[f].name != name || files[f].source != source
    {
      var rest := files.Keys;
      while rest != {}
        invariant rest <= files.Keys
        invariant forall f :: f in files && f !in rest ==> files[f].name != name || files[f].source != source
        decreases rest
      {
        var f := PickAny(rest);
        if files[f].name == name && files[f].source == source {
          return Some(f);
        }
        rest := rest - {f};
      }
      return None;
    }

    method DeleteFile(name: string, source: string, now: int) returns (deleted: bool)
      modifies this
      ensures deleted <==> NameTaken(old(files), name, source)
      ensures deleted <==> exists f :: f in old(files) && old(files)[f].name == name && old(files)[f].source == source
      ensures !deleted ==> Rows() == old(Rows())
      ensures deleted ==> exists f :: f in old(files) && old(files)[f].name == name && old(files)[f].source == source
                                   && Rows() == Schema.DeleteFileById(old(Rows()), f, now)
    {
      var id := FindFile(name, source);
      if id.None? {
        return false;
      }
      DeleteFileByIdTx(id.value, now);
      return true;
    }

    /** GROUP BY sha256, then one UPDATE for the chunks in the group, then the deletes. */
    method DeleteFileByIdTx(f: int, now: int)
      modifies this
      ensures Rows() == Schema.DeleteFileById(old(Rows()), f, now)
    {
      ghost var t := Rows();
      var deltas := GroupedDeltas(links, f);
      if |deltas| > 0 {
        chunks := ApplyDeltas(chunks, deltas, now);
      }
      links := LinksWithout(links, f);
      files := files - {f};
      DeltasApplied(t, f, now);
    }

    method DeleteFilesByRepo(repo: string, clock: int -> int) returns (count: nat, ghost ids: seq<int>)
      modifies this
      ensures Enumerates(ids, RepoFiles(old(files), repo))
      ensures Rows() == Schema.DeleteFiles(old(Rows()), ids, clock)
      ensures count == |RepoFiles(old(files), repo)|
    {
      var todo := RepoFiles(files, repo);
      ids := [];
      count := 0;
      while todo != {}
        invariant todo <= RepoFiles(old(files), repo)
        invariant Enumerates(ids, RepoFiles(old(files), repo) - todo)
        invariant Rows() == Schema.DeleteFiles(old(Rows()), ids, clock)
        invariant count + |todo| == |RepoFiles(old(files), repo)|
        decreases todo
      {
        var f := PickAny(todo);
        DeleteFileByIdTx(f, clock(f));
        assert (ids + [f])[..|ids|] == ids;
        ids, todo, count := ids + [f], todo - {f}, count + 1;
      }
    }

    method EnsureChunk(h: Sha, size: nat, compressed: nat, now: int)
      modifies this`chunks
      ensures Rows() == Schema.EnsureChunk(old(Rows()), h, size, compressed, now)
      ensures chunks == if h in old(chunks) then old(chunks) else old(chunks)[h := Chunk(size, Some(compressed), 0, Some(now))]
    {
      if h !in chunks {
        chunks := chunks[h := Chunk(size, Some(compressed), 0, Some(now))];
      }
    }

    method LinkFileChunk(f: int, h: Sha, index: int, size: nat) returns (r: Result<(), DbError>)
      modifies this
      ensures Rows() == After(old(Rows()), Schema.LinkFileChunk(old(Rows()), Slot(f, index), h, size))
      ensures r.Ok? <==> Schema.LinkFileChunk(old(Rows()), Slot(f, index), h, size).Ok?
    {
      var k := Slot(f, index);
      if k in links {
        return Ok(());
      }
      if f !in files || h !in chunks {
        return Err(ForeignKeyViolation);
      }
      links := links[k := Link(h, size)];
      chunks := chunks[h := Linked(chunks[h])];
      return Ok(());
    }

    /** Statement by statement inside a transaction; a failed insert rolls everything back. */
    method EnsureChunkAndLink(e: ChunkStored, now: int) returns (r: Result<(), DbError>)
      modifies this
      ensures Rows() == After(old(Rows()), StoreAndLink(old(Rows()), e, now, true))
      ensures r.Ok? <==> StoreAndLink(old(Rows()), e, now, true).Ok?
    {
      var tx := chunks;
      if e.sha !in tx {
        tx := tx[e.sha := Chunk(e.dataLen, Some(e.storedSize), 0, Some(now))];
      }
      var k := Slot(e.file, e.index);
      var oldSha := if k in links then Some(links[k].sha) else None;
      if oldSha.Some? && oldSha.value != e.sha && oldSha.value in tx {
        var c := tx[oldSha.value];
        tx := tx[oldSha.value := c.(refCount := if c.refCount - 1 < 0 then 0 else c.refCount - 1)];
      }
      if oldSha.None? || oldSha.value != e.sha {
        if e.file !in files {
          return Err(ForeignKeyViolation);
        }
        links := links[k := Link(e.sha, e.dataLen)];
        tx := tx[e.sha := tx[e.sha].(refCount := tx[e.sha].refCount + 1, orphanedAt := None)];
      }
      chunks := tx;
      return Ok(());
    }

    /** Row by row, skipping rows already right; a dry run counts the same rows and rolls back. */
    method ReconcileChunkRefs(dryRun: bool, clock: Sha -> int) returns (report: Report)
      modifies this`chunks
      ensures report == ReportOf(old(Rows()))
      ensures Rows() == if dryRun then old(Rows()) else Reconcile(old(Rows()), clock)
    {
      var tx;
      report, tx := ScanRows(Rows(), dryRun, clock);
      if !dryRun {
        chunks := tx;
      }
    }

    method ListReposByAccess(limit: nat) returns (repos: seq<string>, ghost ages: map<string, int>)
      ensures AccessAges(files, ages)
      ensures OldestFirst(ages, repos, limit)
      ensures LeastRecentFirst(files, repos)
      ensures |repos| == if |Repos(files)| < limit then |Repos(files)| else limit
    {
      var found: map<string, int> := map[];
      var rest := files.Keys;
      while rest != {}
        invariant rest <= files.Keys
        invariant forall r :: r in found <==> exists f :: f in files && f !in rest && files[f].repo == r
        invariant forall r :: r in found ==>
                    && (exists f :: f in files && files[f].repo == r && files[f].lastAccessed == found[r])
                    && (forall f :: f in files && f !in rest && files[f].repo == r ==> found[r] <= files[f].lastAccessed)
        decreases rest
      {
        var f := PickAny(rest);
        var repo, a := files[f].repo, files[f].lastAccessed;
        if repo !in found || a < found[repo] {
          found := found[repo := a];
        }
        rest := rest - {f};
      }
      ages := found;
      repos := TakeOldest(found, limit);
      AgesOrder(files, found, repos, limit);
    }

    method ListOrphanChunksBatch(limit: nat) returns (rows: seq<OrphanRow>)
      ensures OldestFirst(OrphanAges(chunks), Shas(rows), limit) && OldestOrphans(chunks, Shas(rows), limit)
      ensures forall r :: r in rows ==> r.sha in chunks && r.chunk == chunks[r.sha]
    {
      var order := TakeOldest(OrphanAges(chunks), limit);
      rows := [];
      for i := 0 to |order|
        invariant |rows| == i && forall h :: h in order ==> h in chunks
        invariant forall j :: 0 <= j < i ==> rows[j] == OrphanRow(order[j], chunks[order[j]])
      {
        rows := rows + [OrphanRow(order[i], chunks[order[i]])];
      }
      assert Shas(rows) == order;
      OldestMarks(chunks, order, limit);
    }

    method ListOrphanChunksStats() returns (count: nat, bytes: int)
      ensures count == |Orphans(chunks)| && bytes == Sum(OrphanBytes(chunks))
      ensures count == |set h | h in chunks && chunks[h].refCount == 0 && chunks[h].orphanedAt.Some?|
    {
      count := |Orphans(chunks)|;
      bytes := Total(OrphanBytes(chunks));
    }

    /** SELECT the candidates still at zero, then DELETE exactly those. */
    method DeleteChunksBatch(candidates: seq<Sha>) returns (r: Result<seq<Sha>, DbError>)
      modifies this`chunks
      ensures r.Ok? <==> Schema.DeleteChunks(old(Rows()), candidates).Ok?
      ensures r.Ok? <==> forall k :: k in links && links[k].sha in old(chunks) && links[k].sha in candidates ==>
                           old(chunks)[links[k].sha].refCount != 0
      ensures Rows() == After(old(Rows()), Schema.DeleteChunks(old(Rows()), candidates))
      ensures r.Ok? ==> Enumerates(r.value, Deletable(old(chunks), candidates))
    {
      var deletable: seq<Sha> := [];
      for i := 0 to |candidates|
        invariant Enumerates(deletable, Deletable(chunks, candidates[..i]))
      {
        var h := candidates[i];
        if h in chunks && chunks[h].refCount == 0 && h !in deletable {
          deletable := deletable + [h];
        }
      }
      assert candidates[..|candidates|] == candidates;
      var gone := set h | h in deletable;
      assert gone == Deletable(chunks, candidates);
      if exists k | k in links :: links[k].sha in gone {
        return Err(ForeignKeyViolation);
      }
      chunks := chunks - gone;
      return Ok(deletable);
    }

    method GetFileDownloadedSize(f: int) returns (bytes: int)
      ensures bytes == Dedup.Downloaded(Rows(), f)
    {
      bytes := Total(Dedup.FileSizes(links, f));
    }

    /** The links of a file ordered by chunk index. */
    method GetFileChunks(f: int) returns (rows: seq<Slot>)
      ensures Enumerates(rows, SlotsOf(links, f))
      ensures forall i, j :: 0 <= i < j < |rows| ==> rows[i].index < rows[j].index
    {
      var indices := SlotIndices(links, f);
      rows := TakeOldest(indices, |indices|);
      assert indices.Keys == SlotsOf(links, f) && |indices| == |indices.Keys|;
      DistinctSize(rows, SlotsOf(links, f));
    }

    /** The `original_bytes` of the statistics. */
    method OriginalBytes() returns (bytes: int)
      ensures bytes == Sum(FileSizesOf(files))
    {
      bytes := Total(FileSizesOf(files));
    }
  }

  function Shas(rows: seq<OrphanRow>): seq<Sha> {
    seq(|rows|, i requires 0 <= i < |rows| => rows[i].sha)
  }

  /* ---- The reconcile scan, with `rest` still to come ---- */

  function Tally(r: Report, row: Chunk, actual: nat): Report {
    var mismatch := if row.refCount != actual then 1 else 0;
    Report(r.scanned + 1, r.mismatched + mismatch, r.fixed + mismatch,
           r.marked + if actual == 0 && row.orphanedAt.None? then 1 else 0,
           r.cleared + if actual > 0 && row.orphanedAt.Some? then 1 else 0)
  }

  ghost predicate Counted(t: Tables, rest: set<Sha>, r: Report) {
    CountsOf(t.chunks.Keys, Mismatched(t), ToMark(t), ToClear(t), rest, r)
  }

  ghost predicate CountsOf(all: set<Sha>, wrong: set<Sha>, mark: set<Sha>, clear: set<Sha>, rest: set<Sha>, r: Report) {
    r == Report(|all - rest|, |wrong - rest|, |wrong - rest|, |mark - rest|, |clear - rest|)
  }

  ghost predicate RowsFixed(t: Tables, rest: set<Sha>, clock: Sha -> int, tx: map<Sha, Chunk>) {
    && tx.Keys == t.chunks.Keys
    && forall h :: h in t.chunks ==>
         tx[h] == (if h in rest then t.chunks[h] else Reconciled(t.chunks[h], Refs(t.links, h), clock(h)))
  }

  lemma CountStep(s: set<Sha>, rest: set<Sha>, h: Sha)
    requires h in rest
    ensures |s - (rest - {h})| == |s - rest| + if h in s then 1 else 0
  {
    assert s - (rest - {h}) == if h in s then (s - rest) + {h} else s - rest;
  }

  lemma TallyStep(t: Tables, rest: set<Sha>, r: Report, h: Sha)
    requires h in rest && h in t.chunks && Counted(t, rest, r)
    ensures Counted(t, rest - {h}, Tally(r, t.chunks[h], Refs(t.links, h)))
  {
    TallyByRow(t, r, h);
    TallySets(t.chunks.Keys, Mismatched(t), ToMark(t), ToClear(t), rest, r, h);
  }

  lemma TallyByRow(t: Tables, r: Report, h: Sha)
    requires h in t.chunks
    ensures var w := if h in Mismatched(t) then 1 else 0;
      Tally(r, t.chunks[h], Refs(t.links, h))
      == Report(r.scanned + 1, r.mismatched + w, r.fixed + w,
                r.marked + if h in ToMark(t) then 1 else 0, r.cleared + if h in ToClear(t) then 1 else 0)
  {
  }

  lemma TallySets(all: set<Sha>, wrong: set<Sha>, mark: set<Sha>, clear: set<Sha>, rest: set<Sha>, r: Report, h: Sha)
    requires h in rest && h in all && CountsOf(all, wrong, mark, clear, rest, r)
    ensures var w := if h in wrong then 1 else 0;
      CountsOf(all, wrong, mark, clear, rest - {h},
               Report(r.scanned + 1, r.mismatched + w, r.fixed + w,
                      r.marked + if h in mark then 1 else 0, r.cleared + if h in clear then 1 else 0))
  {
    CountStep(all, rest, h);
    CountStep(wrong, rest, h);
    CountStep(mark, rest, h);
    CountStep(clear, rest, h);
  }

  lemma RowStep(t: Tables, rest: set<Sha>, clock: Sha -> int, before: map<Sha, Chunk>, tx: map<Sha, Chunk>, h: Sha)
    requires h in rest && h in t.chunks && RowsFixed(t, rest, clock, before)
    requires tx == before[h := Reconciled(before[h], Refs(t.links, h), clock(h))]
    ensures RowsFixed(t, rest - {h}, clock, tx)
  {
  }

  lemma RowsDone(t: Tables, clock: Sha -> int, tx: map<Sha, Chunk>)
    requires RowsFixed(t, {}, clock, tx)
    ensures tx == Reconcile(t, clock).chunks
  {
  }

  lemma CountsDone(t: Tables, r: Report)
    requires Counted(t, {}, r)
    ensures r == ReportOf(t)
  {
    assert t.chunks.Keys - {} == t.chunks.Keys && Mismatched(t) - {} == Mismatched(t);
    assert ToMark(t) - {} == ToMark(t) && ToClear(t) - {} == ToClear(t);
    assert |t.chunks| == |t.chunks.Keys|;
  }
}
