/** What transactions do to links, counts and chunk rows on any tables, and which slots a run leaves linked. */
module Linking {
  import opened Wrappers
  import opened Schema
  import opened ChunkMath
  import opened RefCounts

  /* ---- One transaction, on any tables ---- */

  /** A stored event whose file is there commits and its slot is linked to its hash; every other slot keeps its link. */
  lemma StoredEventLinks(t: Tables, e: ChunkStored, now: int)
    ensures var k, r := Slot(e.file, e.index), StoreAndLink(t, e, now, true);
      && (r.Ok? <==> e.file in t.files || (k in t.links && t.links[k].sha == e.sha))
      && (r.Ok? ==>
            && r.value.files == t.files && r.value.lastId == t.lastId && r.value.links.Keys == t.links.Keys + {k}
            && r.value.links[k].sha == e.sha
            && r.value.links[k].size == (if k in t.links && t.links[k].sha == e.sha then t.links[k].size else e.dataLen)
            && forall q :: q in t.links && q != k ==> r.value.links[q] == t.links[q])
  {
  }

  /**
   It changes every count by the change in links, down to zero at most; takes the mark off a chunk that gains a link and
   no other; adds at most the event's own row, with the event's two sizes; and leaves all recorded sizes alone.
   */
  lemma StoredEventCounts(t: Tables, e: ChunkStored, now: int, h: Sha)
    requires StoreAndLink(t, e, now, true).Ok? && h in StoreAndLink(t, e, now, true).value.chunks
    ensures var t' := StoreAndLink(t, e, now, true).value;
      var row, gained := t'.chunks[h], Refs(t'.links, h) - Refs(t.links, h);
      && t'.chunks.Keys == t.chunks.Keys + {e.sha}
      && (h in t.chunks ==>
            && row.size == t.chunks[h].size && row.compressedSize == t.chunks[h].compressedSize
            && row.refCount == (if gained < 0 then Max(t.chunks[h].refCount + gained, 0) else t.chunks[h].refCount + gained)
            && row.orphanedAt == if gained > 0 then None else t.chunks[h].orphanedAt)
      && (h !in t.chunks ==> row == Chunk(e.dataLen, Some(e.storedSize), gained, if gained > 0 then None else Some(now)))
  {
    var k := Slot(e.file, e.index);
    if !(k in t.links && t.links[k].sha == e.sha) {
      RefsReplace(t.links, k, Link(e.sha, e.dataLen), h);
    }
  }

  /** Linking a slot: refused when a key is missing, nothing when it is taken, else exactly one link and one count more. */
  lemma AttachedCounts(t: Tables, k: Slot, h: Sha, size: nat, g: Sha)
    ensures var r := LinkFileChunk(t, k, h, size);
      && (r.Ok? <==> k in t.links || (k.file in t.files && h in t.chunks))
      && (k in t.links ==> r == Ok(t))
      && (r.Ok? && k !in t.links ==>
            && r.value.files == t.files && r.value.lastId == t.lastId && r.value.links == t.links[k := Link(h, size)]
            && r.value.chunks.Keys == t.chunks.Keys
            && (g in t.chunks ==>
                  var gained := Refs(r.value.links, g) - Refs(t.links, g);
                  r.value.chunks[g] == Chunk(t.chunks[g].size, t.chunks[g].compressedSize, t.chunks[g].refCount + gained,
                                             if gained > 0 then None else t.chunks[g].orphanedAt)))
  {
    if k !in t.links {
      RefsInsert(t.links, k, Link(h, size), g);
    }
  }

  /** Deleting a file takes its row and links, lowers every count by the links lost, and marks exactly the chunks it leaves at zero. */
  lemma DeletedFileCounts(t: Tables, f: int, now: int, h: Sha)
    ensures var t' := DeleteFileById(t, f, now);
      && t'.files == t.files - {f} && t'.lastId == t.lastId && t'.chunks.Keys == t.chunks.Keys
      && (forall k :: k in t'.links <==> k in t.links && k.file != f)
      && (forall k :: k in t'.links ==> t'.links[k] == t.links[k])
      && (h in t.chunks ==>
            var lost := Refs(t.links, h) - Refs(t'.links, h);
            var left := t.chunks[h].refCount - lost;
            t'.chunks[h] == Chunk(t.chunks[h].size, t.chunks[h].compressedSize, left,
                                  if lost > 0 && left == 0 then Some(now) else t.chunks[h].orphanedAt))
  {
    RefsLostAre(t.links, f, h);
  }

  /* ---- Every step of a run has its effect ---- */

  /** What one step of a run visibly does, on consistent tables. */
  ghost predicate Acts(t: Tables, s: Step, t': Tables) {
    match s
    case Add(row) =>
      || (exists f :: f in t.files && t.files[f].name == row.name && t.files[f].source == row.source)
      || (t'.lastId !in t.files && t'.files == t.files[t'.lastId := row])
    case Touch(repo, now) =>
      t'.files.Keys == t.files.Keys &&
      forall f :: f in t.files ==> t'.files[f] == if t.files[f].repo == repo then t.files[f].(lastAccessed := now) else t.files[f]
    case Ensure(h, size, compressed, now) => h in t'.chunks && (h !in t.chunks ==> t'.chunks[h] == Chunk(size, Some(compressed), 0, Some(now)))
    case Attach(k, h, size) => k.file in t.files && h in t.chunks ==> k in t'.links && (k !in t.links ==> t'.links[k] == Link(h, size))
    case Stored(e, _) =>
      e.file in t.files ==> Slot(e.file, e.index) in t'.links && t'.links[Slot(e.file, e.index)].sha == e.sha && e.sha in t'.chunks
    case DeleteFile(f, _) => f !in t'.files && forall k :: k in t'.links ==> k.file != f
    case DeleteRepo(ids, _) =>
      && (forall f :: f in t'.files <==> f in t.files && f !in ids)
      && (forall k :: k in t'.links <==> k in t.links && k.file !in ids)
    case GcDelete(candidates) => forall h :: h in t'.chunks <==> h in t.chunks && !(h in candidates && t.chunks[h].refCount == 0)
    case ReconcileAll(_) => forall h :: h in t'.chunks ==> t'.chunks[h].refCount == Refs(t'.links, h)
  }

  lemma EveryStepActs(t: Tables, s: Step)
    requires Consistent(t)
    ensures Acts(t, s, Apply(t, s, true))
  {
    match s
    case Stored(e, now) => StoredEventLinks(t, e, now); StoreAndLinkKeeps(t, e, now);
    case DeleteRepo(ids, clock) =>
      LinksAfterDeletes(t, ids, clock);
      FilesAfterDeletes(t, ids, clock);
    case GcDelete(candidates) => DeleteChunksKeeps(t, candidates);
    case _ =>
  }

  /** A run takes the steps in order. */
  lemma RunTakesSteps(before: seq<Step>, s: Step)
    ensures Run([]).t == EMPTY && Acts(Run(before).t, s, Run(before + [s]).t)
  {
    RunSnoc(before, s);
    RunsKeepCounts(before);
    EveryStepActs(Run(before).t, s);
  }

  /* ---- Runs ---- */

  /** The step links slot `k`: its event with its file there, or an explicit link with both keys there. */
  ghost predicate Links(t: Tables, s: Step, k: Slot) {
    match s
    case Stored(e, _) => Slot(e.file, e.index) == k && k.file in t.files
    case Attach(slot, h, _) => slot == k && k.file in t.files && h in t.chunks
    case _ => false
  }

  lemma StepLinks(t: Tables, s: Step, k: Slot)
    requires Consistent(t) && k.file in Apply(t, s, true).files
    ensures k in Apply(t, s, true).links <==> k in t.links || Links(t, s, k)
  {
    match s
    case Stored(e, now) => StoredStepLinks(t, e, now, k);
    case DeleteRepo(ids, clock) =>
      LinksAfterDeletes(t, ids, clock);
      FilesAfterDeletes(t, ids, clock);
    case _ => OtherStepLinks(t, s, k);
  }

  lemma StoredStepLinks(t: Tables, e: ChunkStored, now: int, k: Slot)
    requires Consistent(t) && k.file in t.files
    ensures k in After(t, StoreAndLink(t, e, now, true)).links <==> k in t.links || Slot(e.file, e.index) == k
  {
  }

  lemma OtherStepLinks(t: Tables, s: Step, k: Slot)
    requires Consistent(t) && !s.Stored? && !s.DeleteRepo? && k.file in Apply(t, s, true).files
    ensures k in Apply(t, s, true).links <==> k in t.links || Links(t, s, k)
  {
  }

  lemma {:induction false} DeletesKeepLastId(t: Tables, ids: seq<int>, clock: int -> int)
    ensures DeleteFiles(t, ids, clock).lastId == t.lastId
  {
    if ids != [] {
      DeletesKeepLastId(t, ids[..|ids| - 1], clock);
    }
  }

  /** Ids are never given twice: a file there after a step was there before it, or its id is new. */
  lemma StepIds(t: Tables, s: Step, f: int)
    requires KeysSound(t)
    ensures t.lastId <= Apply(t, s, true).lastId
    ensures f in Apply(t, s, true).files && f !in t.files ==> f > t.lastId
  {
    if s.DeleteRepo? {
      DeletesKeepLastId(t, s.ids, s.clock);
      FilesAfterDeletes(t, s.ids, s.clock);
    }
  }

  lemma {:induction false} IdsGrow(steps: seq<Step>, p: nat)
    requires p <= |steps|
    ensures Run(steps[..p]).t.lastId <= Run(steps).t.lastId
  {
    if p < |steps| {
      var before := steps[..|steps| - 1];
      assert steps[..p] == before[..p];
      IdsGrow(before, p);
      RunsKeepCounts(before);
      StepIds(Run(before).t, steps[|steps| - 1], 0);
    } else {
      assert steps[..p] == steps;
    }
  }

  ghost predicate LinkedAt(steps: seq<Step>, k: Slot, p: nat) {
    p < |steps| && Links(Run(steps[..p]).t, steps[p], k)
  }

  lemma LinkedAtMore(before: seq<Step>, s: Step, k: Slot)
    ensures (exists p: nat :: LinkedAt(before + [s], k, p)) <==> (exists p: nat :: LinkedAt(before, k, p)) || Links(Run(before).t, s, k)
  {
    var steps := before + [s];
    assert steps[..|before|] == before;
    forall p: nat | p < |before| ensures LinkedAt(steps, k, p) <==> LinkedAt(before, k, p) {
      assert steps[..p] == before[..p];
    }
    assert LinkedAt(steps, k, |before|) <==> Links(Run(before).t, s, k);
  }

  /** A file added by the last step has had no link before. */
  lemma NewFileUnlinked(before: seq<Step>, k: Slot)
    requires k.file > Run(before).t.lastId
    ensures !exists p: nat :: LinkedAt(before, k, p)
  {
    forall p: nat | p < |before| ensures k.file !in Run(before[..p]).t.files {
      IdsGrow(before, p);
      RunsKeepCounts(before[..p]);
    }
  }

  /** A slot of a file is linked exactly when some step linked it while the file was there, since its id was given. */
  lemma {:induction false} LinkedExactlyWhenStored(steps: seq<Step>, k: Slot)
    requires k.file in Run(steps).t.files
    ensures k in Run(steps).t.links <==> exists p: nat :: LinkedAt(steps, k, p)
  {
    if steps != [] {
      var before, s := steps[..|steps| - 1], steps[|steps| - 1];
      assert steps == before + [s];
      RunsKeepCounts(before);
      StepLinks(Run(before).t, s, k);
      StepIds(Run(before).t, s, k.file);
      LinkedAtMore(before, s, k);
      if k.file in Run(before).t.files {
        LinkedExactlyWhenStored(before, k);
      } else {
        NewFileUnlinked(before, k);
      }
    }
  }

  /* ---- What a chunk row records ---- */

  /** The step inserts the row of `h`, with these two sizes. */
  ghost predicate Inserts(t: Tables, s: Step, h: Sha, size: nat, stored: nat) {
    h !in t.chunks &&
    match s
    case Stored(e, _) => e.sha == h && e.dataLen == size && e.storedSize == stored
    case Ensure(g, len, compressed, _) => g == h && len == size && compressed == stored
    case _ => false
  }

  lemma {:induction false} DeletesKeepSizes(t: Tables, ids: seq<int>, clock: int -> int, h: Sha)
    requires h in t.chunks
    ensures h in DeleteFiles(t, ids, clock).chunks
    ensures var row := DeleteFiles(t, ids, clock).chunks[h]; row.size == t.chunks[h].size && row.compressedSize == t.chunks[h].compressedSize
  {
    if ids != [] {
      DeletesKeepSizes(t, ids[..|ids| - 1], clock, h);
    }
  }

  /** A step keeps the sizes of the rows it keeps, and a new row is its own. */
  lemma StepSizes(t: Tables, s: Step, h: Sha)
    requires h in Apply(t, s, true).chunks
    ensures var row := Apply(t, s, true).chunks[h];
      if h in t.chunks then row.size == t.chunks[h].size && row.compressedSize == t.chunks[h].compressedSize
      else row.compressedSize.Some? && Inserts(t, s, h, row.size, row.compressedSize.value)
  {
    match s
    case Stored(e, now) => StoredStepSizes(t, e, now, h);
    case DeleteRepo(ids, clock) =>
      DeleteFilesChunks(t, ids, clock);
      DeletesKeepSizes(t, ids, clock, h);
    case _ =>
  }

  lemma StoredStepSizes(t: Tables, e: ChunkStored, now: int, h: Sha)
    requires h in After(t, StoreAndLink(t, e, now, true)).chunks
    ensures var row := After(t, StoreAndLink(t, e, now, true)).chunks[h];
      if h in t.chunks then row.size == t.chunks[h].size && row.compressedSize == t.chunks[h].compressedSize
      else h == e.sha && row.size == e.dataLen && row.compressedSize == Some(e.storedSize)
  {
  }

  ghost predicate InsertedAt(steps: seq<Step>, h: Sha, size: nat, stored: nat, p: nat) {
    p < |steps| && Inserts(Run(steps[..p]).t, steps[p], h, size, stored)
  }

  /** In every run a chunk row holds the content length and the stored size announced when it was inserted. */
  lemma {:induction false} RowsRecordEvents(steps: seq<Step>, h: Sha)
    requires h in Run(steps).t.chunks
    ensures var row := Run(steps).t.chunks[h];
      row.compressedSize.Some? && exists p: nat :: InsertedAt(steps, h, row.size, row.compressedSize.value, p)
  {
    if steps != [] {
      var before, s := steps[..|steps| - 1], steps[|steps| - 1];
      StepSizes(Run(before).t, s, h);
      var row := Run(steps).t.chunks[h];
      if h in Run(before).t.chunks {
        RowsRecordEvents(before, h);
        var p: nat :| InsertedAt(before, h, row.size, row.compressedSize.value, p);
        assert steps[..p] == before[..p];
        assert InsertedAt(steps, h, row.size, row.compressedSize.value, p);
      } else {
        assert InsertedAt(steps, h, row.size, row.compressedSize.value, |before|);
      }
    }
  }
}
