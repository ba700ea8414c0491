/** Reference-count safety over every run of metadata transactions from an empty store. */
module RefCounts {
  import opened Wrappers
  import opened Schema
  import opened GroupedDelete

  ghost predicate NoDangling(t: Tables) {
    forall k :: k in t.links ==> k.file in t.files && t.links[k].sha in t.chunks
  }

  ghost predicate CountsExact(t: Tables) {
    forall h :: h in t.chunks ==> t.chunks[h].refCount == Refs(t.links, h)
  }

  ghost predicate LiveUnmarked(t: Tables) {
    forall h :: h in t.chunks && t.chunks[h].refCount > 0 ==> t.chunks[h].orphanedAt.None?
  }

  ghost predicate KeysSound(t: Tables) {
    && 0 <= t.lastId
    && (forall f :: f in t.files ==> 1 <= f <= t.lastId)
    && (forall f, g :: f in t.files && g in t.files && f != g
                       ==> t.files[f].name != t.files[g].name || t.files[f].source != t.files[g].source)
  }

  ghost predicate Consistent(t: Tables) {
    NoDangling(t) && CountsExact(t) && LiveUnmarked(t) && KeysSound(t)
  }

  /* ---- Counting links ---- */

  lemma RefsInsert(links: map<Slot, Link>, k: Slot, l: Link, h: Sha)
    requires k !in links
    ensures Refs(links[k := l], h) == Refs(links, h) + if l.sha == h then 1 else 0
  {
    assert LinksTo(links[k := l], h) == if l.sha == h then LinksTo(links, h) + {k} else LinksTo(links, h);
  }

  lemma RefsRemove(links: map<Slot, Link>, k: Slot, h: Sha)
    requires k in links
    ensures Refs(links - {k}, h) == Refs(links, h) - if links[k].sha == h then 1 else 0
  {
    assert LinksTo(links - {k}, h) == if links[k].sha == h then LinksTo(links, h) - {k} else LinksTo(links, h);
  }

  lemma RefsReplace(links: map<Slot, Link>, k: Slot, l: Link, h: Sha)
    ensures Refs(links[k := l], h) == Refs(links, h)
         + (if l.sha == h then 1 else 0) - (if k in links && links[k].sha == h then 1 else 0)
  {
    if k in links {
      RefsRemove(links, k, h);
      RefsInsert(links - {k}, k, l, h);
      assert (links - {k})[k := l] == links[k := l];
    } else {
      RefsInsert(links, k, l, h);
    }
  }

  lemma RefsLostAre(links: map<Slot, Link>, f: int, h: Sha)
    ensures RefsLost(links, f, h) <= Refs(links, h)
    ensures Refs(map k | k in links && k.file != f :: links[k], h) == Refs(links, h) - RefsLost(links, f, h)
  {
    var kept := map k | k in links && k.file != f :: links[k];
    var lost := set k | k in links && k.file == f && links[k].sha == h;
    assert LinksTo(links, h) == LinksTo(kept, h) + lost;
  }

  lemma Unlinked(links: map<Slot, Link>, h: Sha)
    requires Refs(links, h) == 0
    ensures forall k :: k in links ==> links[k].sha != h
  {
    assert LinksTo(links, h) == {};
    forall k | k in links ensures links[k].sha != h {
      assert k !in LinksTo(links, h);
    }
  }

  /* ---- Each transaction keeps the tables consistent ---- */

  lemma AddFileKeeps(t: Tables, row: File)
    requires Consistent(t)
    ensures Consistent(AddFile(t, row))
  {
    if !NameTaken(t.files, row.name, row.source) {
      var t' := AddFile(t, row);
      assert forall f :: f in t.files ==> t.files[f].name != row.name || t.files[f].source != row.source;
      assert KeysSound(t');
    }
  }

  lemma EnsureChunkKeeps(t: Tables, h: Sha, size: nat, compressed: nat, now: int)
    requires Consistent(t)
    ensures Consistent(EnsureChunk(t, h, size, compressed, now))
  {
    if h !in t.chunks {
      assert LinksTo(t.links, h) == {} by {
        assert forall k :: k in t.links ==> t.links[k].sha in t.chunks;
      }
    }
  }

  lemma LinkFileChunkKeeps(t: Tables, k: Slot, h: Sha, size: nat)
    requires Consistent(t)
    ensures Consistent(After(t, LinkFileChunk(t, k, h, size)))
  {
    var r := LinkFileChunk(t, k, h, size);
    if r.Ok? && k !in t.links {
      forall g | g in t.chunks ensures r.value.chunks[g].refCount == Refs(r.value.links, g) {
        RefsInsert(t.links, k, Link(h, size), g);
      }
    }
  }

  /** The displaced row still counts the link being replaced, so the floor at zero never acts. */
  lemma PushedOutIsCounted(t: Tables, e: ChunkStored, now: int)
    requires Consistent(t)
    ensures forall h :: h in PushedOut(t, e) ==> h in t.chunks && t.chunks[h].refCount >= 1
    ensures StoreAndLink(t, e, now, true) == StoreAndLink(t, e, now, false)
  {
    var k := Slot(e.file, e.index);
    if k in t.links {
      RefsRemove(t.links, k, t.links[k].sha);
    }
    var a, b := StoreAndLink(t, e, now, true), StoreAndLink(t, e, now, false);
    if a.Ok? {
      assert a.value.chunks == b.value.chunks;
    }
  }

  lemma StoredChunk(t: Tables, e: ChunkStored, now: int, h: Sha)
    requires Consistent(t) && StoreAndLink(t, e, now, true).Ok?
    requires h in StoreAndLink(t, e, now, true).value.chunks
    ensures var r := StoreAndLink(t, e, now, true).value;
            r.chunks[h].refCount == Refs(r.links, h) && (r.chunks[h].refCount > 0 ==> r.chunks[h].orphanedAt.None?)
  {
    EnsureChunkKeeps(t, e.sha, e.dataLen, e.storedSize, now);
    PushedOutIsCounted(t, e, now);
    RefsReplace(t.links, Slot(e.file, e.index), Link(e.sha, e.dataLen), h);
  }

  lemma StoreAndLinkKeeps(t: Tables, e: ChunkStored, now: int)
    requires Consistent(t)
    ensures Consistent(After(t, StoreAndLink(t, e, now, true)))
  {
    var r := StoreAndLink(t, e, now, true);
    if r.Ok? {
      forall h | h in r.value.chunks {
        StoredChunk(t, e, now, h);
      }
      assert CountsExact(r.value) && LiveUnmarked(r.value);
      assert NoDangling(r.value);
    }
  }

  lemma DeletedChunk(t: Tables, f: int, now: int, h: Sha)
    requires Consistent(t) && h in t.chunks
    ensures var r := DeleteFileById(t, f, now);
            r.chunks[h].refCount == Refs(r.links, h) && (r.chunks[h].refCount > 0 ==> r.chunks[h].orphanedAt.None?)
    ensures RefsLost(t.links, f, h) <= t.chunks[h].refCount
  {
    RefsLostAre(t.links, f, h);
  }

  lemma DeleteFileKeeps(t: Tables, f: int, now: int)
    requires Consistent(t)
    ensures Consistent(DeleteFileById(t, f, now))
    ensures CountsCoverLosses(t, f, now)
  {
    var r := DeleteFileById(t, f, now);
    forall h | h in t.chunks {
      DeletedChunk(t, f, now, h);
    }
    assert CountsExact(r) && LiveUnmarked(r);
    assert NoDangling(r);
  }

  lemma {:induction false} DeleteFilesKeeps(t: Tables, ids: seq<int>, clock: int -> int)
    requires Consistent(t)
    ensures Consistent(DeleteFiles(t, ids, clock))
  {
    if ids != [] {
      DeleteFilesKeeps(t, ids[..|ids| - 1], clock);
      DeleteFileKeeps(DeleteFiles(t, ids[..|ids| - 1], clock), ids[|ids| - 1], clock(ids[|ids| - 1]));
    }
  }

  /** The recheck of `ref_count = 0` means no deleted row is referenced, so no foreign key can fail. */
  lemma DeleteChunksKeeps(t: Tables, candidates: seq<Sha>)
    requires Consistent(t)
    ensures DeleteChunks(t, candidates).Ok?
    ensures Consistent(After(t, DeleteChunks(t, candidates)))
    ensures forall k :: k in t.links ==> t.links[k].sha !in Deletable(t.chunks, candidates)
  {
    forall h | h in Deletable(t.chunks, candidates) ensures forall k :: k in t.links ==> t.links[k].sha != h {
      Unlinked(t.links, h);
    }
  }

  /* ---- Runs ---- */

  datatype Step =
    | Add(row: File)
    | Touch(repo: string, now: int)
    | Ensure(sha: Sha, size: nat, compressed: nat, now: int)
    | Attach(slot: Slot, sha: Sha, size: nat)
    | Stored(event: ChunkStored, now: int)
    | DeleteFile(file: int, now: int)
    | DeleteRepo(ids: seq<int>, clock: int -> int)
    | GcDelete(candidates: seq<Sha>)
    | ReconcileAll(rowClock: Sha -> int)

  function Apply(t: Tables, s: Step, clamp: bool): Tables {
    match s
    case Add(row) => AddFile(t, row)
    case Touch(repo, now) => TouchRepo(t, repo, now)
    case Ensure(h, size, compressed, now) => EnsureChunk(t, h, size, compressed, now)
    case Attach(k, h, size) => After(t, LinkFileChunk(t, k, h, size))
    case Stored(e, now) => After(t, StoreAndLink(t, e, now, clamp))
    case DeleteFile(f, now) => DeleteFileById(t, f, now)
    case DeleteRepo(ids, clock) => DeleteFiles(t, ids, clock)
    case GcDelete(candidates) => After(t, DeleteChunks(t, candidates))
    case ReconcileAll(clock) => Reconcile(t, clock)
  }

  /** The tables, and every chunk displaced by a re-download since the last reconcile. */
  datatype History = History(t: Tables, displaced: set<Sha>)

  function Advance(y: History, s: Step): History {
    History(Apply(y.t, s, true),
            match s
            case Stored(e, _) => y.displaced + PushedOut(y.t, e)
            case ReconcileAll(_) => {}
            case _ => y.displaced)
  }

  function Run(steps: seq<Step>): History {
    if steps == [] then History(EMPTY, {}) else Advance(Run(steps[..|steps| - 1]), steps[|steps| - 1])
  }

  function RunUnclamped(steps: seq<Step>): Tables {
    if steps == [] then EMPTY else Apply(RunUnclamped(steps[..|steps| - 1]), steps[|steps| - 1], false)
  }

  ghost predicate UnmarkedOnlyDisplaced(y: History) {
    forall h :: h in y.t.chunks && y.t.chunks[h].refCount == 0 && y.t.chunks[h].orphanedAt.None? ==> h in y.displaced
  }

  lemma ApplyKeeps(t: Tables, s: Step, clamp: bool)
    requires Consistent(t)
    ensures Consistent(Apply(t, s, clamp))
    ensures Apply(t, s, clamp) == Apply(t, s, !clamp)
  {
    match s
    case Add(row) => AddFileKeeps(t, row);
    case Touch(repo, now) =>
    case Ensure(h, size, compressed, now) => EnsureChunkKeeps(t, h, size, compressed, now);
    case Attach(k, h, size) => LinkFileChunkKeeps(t, k, h, size);
    case Stored(e, now) => StoreAndLinkKeeps(t, e, now); PushedOutIsCounted(t, e, now);
    case DeleteFile(f, now) => DeleteFileKeeps(t, f, now);
    case DeleteRepo(ids, clock) => DeleteFilesKeeps(t, ids, clock);
    case GcDelete(candidates) => DeleteChunksKeeps(t, candidates);
    case ReconcileAll(clock) =>
  }

  lemma {:induction false} DeleteFilesMarks(t: Tables, ids: seq<int>, clock: int -> int, h: Sha)
    requires Consistent(t) && h in t.chunks
    ensures h in DeleteFiles(t, ids, clock).chunks
    ensures var c := DeleteFiles(t, ids, clock).chunks[h];
            c.refCount == 0 && c.orphanedAt.None? ==> t.chunks[h].refCount == 0 && t.chunks[h].orphanedAt.None?
  {
    if ids != [] {
      DeleteFilesMarks(t, ids[..|ids| - 1], clock, h);
    }
  }

  lemma {:induction false} DeleteFilesChunks(t: Tables, ids: seq<int>, clock: int -> int)
    ensures DeleteFiles(t, ids, clock).chunks.Keys == t.chunks.Keys
  {
    if ids != [] {
      DeleteFilesChunks(t, ids[..|ids| - 1], clock);
    }
  }

  lemma StoredMarks(t: Tables, e: ChunkStored, now: int, h: Sha)
    requires Consistent(t) && h in After(t, StoreAndLink(t, e, now, true)).chunks
    ensures var c := After(t, StoreAndLink(t, e, now, true)).chunks[h];
            c.refCount == 0 && c.orphanedAt.None? ==>
              h in PushedOut(t, e) || (h in t.chunks && t.chunks[h].refCount == 0 && t.chunks[h].orphanedAt.None?)
  {
  }

  lemma AdvanceMarks(y: History, s: Step)
    requires Consistent(y.t) && UnmarkedOnlyDisplaced(y)
    ensures UnmarkedOnlyDisplaced(Advance(y, s))
  {
    var y' := Advance(y, s);
    forall h | h in y'.t.chunks && y'.t.chunks[h].refCount == 0 && y'.t.chunks[h].orphanedAt.None?
      ensures h in y'.displaced
    {
      match s
      case Stored(e, now) => StoredMarks(y.t, e, now, h);
      case DeleteRepo(ids, clock) =>
        DeleteFilesChunks(y.t, ids, clock);
        DeleteFilesMarks(y.t, ids, clock, h);
      case _ =>
    }
  }

  /**
   After any sequence of transactions: counts equal links, no link dangles, live chunks carry
   no mark, the floor at zero has never mattered, and a zero-count chunk without a mark was
   displaced since the last reconcile.
   */
  lemma {:induction false} RunsKeepCounts(steps: seq<Step>)
    ensures Consistent(Run(steps).t)
    ensures UnmarkedOnlyDisplaced(Run(steps))
    ensures RunUnclamped(steps) == Run(steps).t
  {
    if steps != [] {
      var before, s := steps[..|steps| - 1], steps[|steps| - 1];
      RunsKeepCounts(before);
      ApplyKeeps(Run(before).t, s, true);
      AdvanceMarks(Run(before), s);
    }
  }

  /* ---- The rule that a zero count and a mark coincide ---- */

  ghost predicate ZeroIsMarked(t: Tables) {
    forall h :: h in t.chunks && t.chunks[h].refCount == 0 ==> t.chunks[h].orphanedAt.Some?
  }

  /** The event whose displaced chunk had this slot as its only link. */
  ghost predicate DisplacesLastLink(t: Tables, s: Step) {
    s.Stored? && exists h :: h in PushedOut(t, s.event) && h in t.chunks && t.chunks[h].refCount == 1
  }

  lemma LastLinkUnmarked(t: Tables, e: ChunkStored, now: int, h: Sha)
    requires Consistent(t) && h in PushedOut(t, e) && t.chunks[h].refCount == 1
    ensures h in After(t, StoreAndLink(t, e, now, true)).chunks
    ensures After(t, StoreAndLink(t, e, now, true)).chunks[h].refCount == 0
    ensures After(t, StoreAndLink(t, e, now, true)).chunks[h].orphanedAt.None?
  {
  }

  lemma ZeroMarkedChunk(t: Tables, s: Step, h: Sha)
    requires Consistent(t) && ZeroIsMarked(t) && !DisplacesLastLink(t, s)
    requires h in Apply(t, s, true).chunks && Apply(t, s, true).chunks[h].refCount == 0
    ensures Apply(t, s, true).chunks[h].orphanedAt.Some?
  {
    match s
    case Stored(e, now) => StoredZeroMarked(t, e, now, h);
    case DeleteRepo(ids, clock) => DeleteFilesChunks(t, ids, clock); DeleteFilesMarks(t, ids, clock, h);
    case _ => OtherZeroMarked(t, s, h);
  }

  lemma StoredZeroMarked(t: Tables, e: ChunkStored, now: int, h: Sha)
    requires Consistent(t) && ZeroIsMarked(t) && !DisplacesLastLink(t, Stored(e, now))
    requires h in After(t, StoreAndLink(t, e, now, true)).chunks && After(t, StoreAndLink(t, e, now, true)).chunks[h].refCount == 0
    ensures After(t, StoreAndLink(t, e, now, true)).chunks[h].orphanedAt.Some?
  {
    StoredMarks(t, e, now, h);
    PushedOutIsCounted(t, e, now);
  }

  lemma OtherZeroMarked(t: Tables, s: Step, h: Sha)
    requires Consistent(t) && ZeroIsMarked(t) && !s.Stored? && !s.DeleteRepo?
    requires h in Apply(t, s, true).chunks && Apply(t, s, true).chunks[h].refCount == 0
    ensures Apply(t, s, true).chunks[h].orphanedAt.Some?
  {
  }

  /** A transaction breaks the rule exactly when it replaces the last link of a chunk by another chunk. */
  lemma RuleBreaksExactlyAtLastLink(t: Tables, s: Step)
    requires Consistent(t) && ZeroIsMarked(t)
    ensures ZeroIsMarked(Apply(t, s, true)) <==> !DisplacesLastLink(t, s)
  {
    if DisplacesLastLink(t, s) {
      var h :| h in PushedOut(t, s.event) && h in t.chunks && t.chunks[h].refCount == 1;
      LastLinkUnmarked(t, s.event, s.now, h);
    } else {
      forall h | h in Apply(t, s, true).chunks && Apply(t, s, true).chunks[h].refCount == 0 {
        ZeroMarkedChunk(t, s, h);
      }
    }
  }

  lemma RunSnoc(steps: seq<Step>, s: Step)
    ensures Run(steps + [s]) == Advance(Run(steps), s)
  {
    assert (steps + [s])[..|steps|] == steps;
  }

  lemma AddedFirst(row: File)
    ensures Run([Add(row)]).t.files == map[1 := row] && Run([Add(row)]).t.links == map[] && Run([Add(row)]).t.chunks == map[]
  {
    RunSnoc([], Add(row));
    assert [] + [Add(row)] == [Add(row)];
  }

  lemma StoredOnce(t: Tables, a: Sha)
    requires 1 in t.files && t.links == map[] && t.chunks == map[]
    ensures var t' := Apply(t, Stored(ChunkStored(a, 1, 1, 1, 0), 0), true);
      && t'.files == t.files && t'.links == map[Slot(1, 0) := Link(a, 1)]
      && a in t'.chunks && t'.chunks[a] == Chunk(1, Some(1), 1, None)
  {
  }

  lemma StoredAgain(t: Tables, a: Sha, b: Sha)
    requires 1 in t.files && t.links == map[Slot(1, 0) := Link(a, 1)] && a != b
    requires a in t.chunks && t.chunks[a] == Chunk(1, Some(1), 1, None)
    ensures var t' := Apply(t, Stored(ChunkStored(b, 1, 1, 1, 0), 0), true);
      a in t'.chunks && t'.chunks[a] == Chunk(1, Some(1), 0, None)
  {
  }

  /** Such a transaction is reachable: a first chunk downloaded again with other content is left at zero, unmarked. */
  lemma DisplacedChunkIsUnmarked(row: File, a: Sha, b: Sha)
    requires a != b
    ensures var add, first, second := Add(row), Stored(ChunkStored(a, 1, 1, 1, 0), 0), Stored(ChunkStored(b, 1, 1, 1, 0), 0);
      var t := Run([add] + [first] + [second]).t;
      a in t.chunks && t.chunks[a].refCount == 0 && t.chunks[a].orphanedAt.None? && !ZeroIsMarked(t)
  {
    var add, first, second := Add(row), Stored(ChunkStored(a, 1, 1, 1, 0), 0), Stored(ChunkStored(b, 1, 1, 1, 0), 0);
    AddedFirst(row);
    RunSnoc([add], first);
    StoredOnce(Run([add]).t, a);
    RunSnoc([add] + [first], second);
    StoredAgain(Run([add] + [first]).t, a, b);
  }

  /* ---- Repository deletes, link by link ---- */

  function UnlinkFiles(t: Tables, ids: seq<int>, order: map<int, seq<Slot>>, clock: int -> int): Tables
    requires forall f :: f in ids ==> f in order
  {
    if ids == [] then t
    else
      var f := ids[|ids| - 1];
      DropFileRow(UnlinkAll(UnlinkFiles(t, ids[..|ids| - 1], order, clock), order[f], clock(f)), f)
  }

  lemma {:induction false} LinksAfterDeletes(t: Tables, ids: seq<int>, clock: int -> int)
    ensures DeleteFiles(t, ids, clock).links == map k | k in t.links && k.file !in ids :: t.links[k]
  {
    if ids == [] {
    } else {
      LinksAfterDeletes(t, ids[..|ids| - 1], clock);
      assert ids == ids[..|ids| - 1] + [ids[|ids| - 1]];
    }
  }

  lemma {:induction false} FilesAfterDeletes(t: Tables, ids: seq<int>, clock: int -> int)
    ensures DeleteFiles(t, ids, clock).files == t.files - (set f | f in ids)
  {
    if ids == [] {
    } else {
      FilesAfterDeletes(t, ids[..|ids| - 1], clock);
      assert ids == ids[..|ids| - 1] + [ids[|ids| - 1]];
    }
  }

  /** On consistent tables a repository delete is the unlinking of every link of its files, in any order. */
  lemma {:induction false} RepoDeleteIsUnlinking(t: Tables, ids: seq<int>, order: map<int, seq<Slot>>, clock: int -> int)
    requires Consistent(t)
    requires forall i, j :: 0 <= i < j < |ids| ==> ids[i] != ids[j]
    requires forall f :: f in ids ==> f in order && Enumerates(order[f], SlotsOf(t.links, f))
    ensures DeleteFiles(t, ids, clock) == UnlinkFiles(t, ids, order, clock)
  {
    if ids != [] {
      var before, f := ids[..|ids| - 1], ids[|ids| - 1];
      RepoDeleteIsUnlinking(t, before, order, clock);
      var mid := DeleteFiles(t, before, clock);
      DeleteFilesKeeps(t, before, clock);
      LinksAfterDeletes(t, before, clock);
      assert SlotsOf(mid.links, f) == SlotsOf(t.links, f);
      DeleteFileKeeps(mid, f, clock(f));
      GroupedDeleteIsUnlinking(mid, f, order[f], clock(f));
    }
  }
}
