/** When collection, which removes blobs before it rechecks rows, can take the blob of a chunk that is linked. */
module BlobSafety {
  import opened Wrappers
  import opened Schema
  import LocalStorage
  import opened Serving
  import RefCounts

  /** A download is stored, or its event is queued, and its link is yet to come. */
  ghost predicate Pending(u: Upstream, w: World, h: Sha) {
    || (exists e :: e in w.events && e.sha == h)
    || (exists id :: id in w.readers && w.readers[id].phase.Put? && u.hash(w.readers[id].phase.data) == h)
  }

  ghost predicate IsLinked(t: Tables, h: Sha) {
    exists k :: k in t.links && t.links[k].sha == h
  }

  ghost predicate Needed(u: Upstream, w: World, h: Sha) {
    IsLinked(w.t, h) || Pending(u, w, h)
  }

  /** Every chunk linked or about to be has its blob. */
  ghost predicate Stocked(u: Upstream, w: World) {
    forall h :: Needed(u, w, h) ==> h in w.blobs
  }

  /** Blobs, and what readers hold of them, match their names. */
  ghost predicate Intacts(u: Upstream, w: World) {
    && (forall h :: h in w.blobs ==> u.hash(w.blobs[h]) == h)
    && (forall id :: id in w.readers && w.readers[id].phase.Loaded? ==> u.hash(w.readers[id].phase.raw) == w.readers[id].phase.sha)
  }

  /** The next blob an open batch removes. */
  function NextGone(w: World, id: int): Sha
    requires id in w.sweeps && w.sweeps[id].gone < |w.sweeps[id].batch|
  {
    w.sweeps[id].batch[w.sweeps[id].gone]
  }

  ghost predicate TakesNeeded(u: Upstream, w: World, s: Step)
    requires Enabled(u, w, s)
  {
    s.GcBlob? && Needed(u, w, NextGone(w, s.id))
  }

  /* ---- One step ---- */

  lemma VerifyFindsIntact(u: Upstream, w: World, r: Reader)
    requires LocalStorage.CollisionFree(u.hash) && ReaderRight(u, r) && r.phase.Loaded? && u.hash(r.phase.raw) == r.phase.sha
    ensures Intact(u, r)
  {
  }

  lemma ActedStaysIntact(u: Upstream, w: World, act: Action, id: int)
    requires LocalStorage.CollisionFree(u.hash) && Inv(u, w) && Intacts(u, w) && id in w.readers && Ready(u, w.readers[id], act)
    ensures Intacts(u, Acted(u, w, act, id))
    ensures forall h :: h in w.blobs ==> h in Acted(u, w, act, id).blobs
  {
    var r := w.readers[id];
    ActedBlobs(u, w, act, r);
    ActedRaw(u, w, act, r);
  }

  lemma ActedBlobs(u: Upstream, w: World, act: Action, r: Reader)
    requires LocalStorage.CollisionFree(u.hash) && ReaderRight(u, r) && Ready(u, r, act)
    requires r.phase.Loaded? ==> u.hash(r.phase.raw) == r.phase.sha
    requires forall h :: h in w.blobs ==> u.hash(w.blobs[h]) == h
    ensures forall h :: h in NextBlobs(u, w, r, act) ==> u.hash(NextBlobs(u, w, r, act)[h]) == h
    ensures forall h :: h in w.blobs ==> h in NextBlobs(u, w, r, act)
  {
    if act.Verify? {
      VerifyFindsIntact(u, w, r);
    }
  }

  lemma ActedRaw(u: Upstream, w: World, act: Action, r: Reader)
    requires Ready(u, r, act) && forall h :: h in w.blobs ==> u.hash(w.blobs[h]) == h
    ensures var p := NextPhase(u, w, r, act); p.Loaded? ==> u.hash(p.raw) == p.sha
  {
  }

  /** What an action leaves needed was needed before, or has just been stored. */
  lemma ActedNeeds(u: Upstream, w: World, act: Action, id: int, h: Sha)
    requires id in w.readers && Ready(u, w.readers[id], act) && Needed(u, Acted(u, w, act, id), h)
    ensures Needed(u, w, h) || h in Acted(u, w, act, id).blobs
  {
    var r, w' := w.readers[id], Acted(u, w, act, id);
    if e :| e in w'.events && e.sha == h {
      if e !in w.events {
        assert act.Publish? && u.hash(r.phase.data) == h;
      }
    }
  }

  lemma EventNeeds(u: Upstream, w: World, now: int, h: Sha)
    requires w.events != [] && Needed(u, Take(u, w, Event(now)), h)
    ensures Needed(u, w, h)
  {
    var e, w' := w.events[0], Take(u, w, Event(now));
    if k :| k in w'.t.links && w'.t.links[k].sha == h {
      assert e in w.events;
      if !(k in w.t.links && w.t.links[k].sha == h) {
        assert h == e.sha;
      }
    }
  }

  lemma {:induction false} DeletesLinks(t: Tables, ids: seq<int>, clock: int -> int, h: Sha)
    requires IsLinked(DeleteFiles(t, ids, clock), h)
    ensures IsLinked(t, h)
  {
    if ids != [] {
      var before := DeleteFiles(t, ids[..|ids| - 1], clock);
      var k :| k in DeleteFiles(t, ids, clock).links && DeleteFiles(t, ids, clock).links[k].sha == h;
      assert k in before.links && before.links[k].sha == h;
      DeletesLinks(t, ids[..|ids| - 1], clock, h);
    }
  }

  lemma TableNeeds(u: Upstream, w: World, step: RefCounts.Step, h: Sha)
    requires FromOutside(u, w.t, step) && Needed(u, Take(u, w, Table(step)), h)
    ensures Needed(u, w, h)
  {
    var w' := Take(u, w, Table(step));
    assert w'.events == w.events && w'.readers == w.readers;
    if IsLinked(w'.t, h) {
      if step.DeleteRepo? {
        DeletesLinks(w.t, step.ids, step.clock, h);
      } else {
        var k :| k in w'.t.links && w'.t.links[k].sha == h;
        assert k in w.t.links && w.t.links[k].sha == h;
      }
    }
  }

  lemma OtherNeeds(u: Upstream, w: World, s: Step, h: Sha)
    requires Enabled(u, w, s) && !s.Act? && !s.Event? && !s.Table? && Needed(u, Take(u, w, s), h)
    ensures Needed(u, w, h)
  {
    var w' := Take(u, w, s);
    assert w'.t.links == w.t.links && w'.events == w.events;
    if id :| id in w'.readers && w'.readers[id].phase.Put? && u.hash(w'.readers[id].phase.data) == h {
      assert id in w.readers && w.readers[id] == w'.readers[id];
    }
  }

  lemma StepNeeds(u: Upstream, w: World, s: Step, h: Sha)
    requires Enabled(u, w, s) && Needed(u, Take(u, w, s), h)
    ensures Needed(u, w, h) || (s.Act? && h in Take(u, w, s).blobs)
  {
    match s
    case Act(id, act) => ActedNeeds(u, w, act, id, h);
    case Event(now) => EventNeeds(u, w, now, h);
    case Table(step) => TableNeeds(u, w, step, h);
    case _ => OtherNeeds(u, w, s, h);
  }

  /** Without damage from outside, a step keeps blobs matching their names and removes none but a collected one. */
  lemma StepStaysIntact(u: Upstream, w: World, s: Step)
    requires LocalStorage.CollisionFree(u.hash) && Inv(u, w) && Intacts(u, w) && Enabled(u, w, s) && !s.Damage?
    ensures Intacts(u, Take(u, w, s))
    ensures forall h :: h in w.blobs ==> (h in Take(u, w, s).blobs <==> !(s.GcBlob? && h == NextGone(w, s.id)))
  {
    if s.Act? {
      ActedStaysIntact(u, w, s.act, s.id);
    }
  }

  lemma CollectedIsStillNeeded(u: Upstream, w: World, id: int)
    requires Enabled(u, w, GcBlob(id)) && Needed(u, w, NextGone(w, id))
    ensures !Stocked(u, Take(u, w, GcBlob(id)))
  {
    var w', h := Take(u, w, GcBlob(id)), NextGone(w, id);
    assert w'.t == w.t && w'.events == w.events && w'.readers == w.readers;
    assert Needed(u, w', h) && h !in w'.blobs;
  }

  /**
   Without damage from outside, the step that leaves a linked or pending chunk without its blob is exactly the
   collection of a blob whose chunk is linked or pending at that moment.
   */
  lemma StepStocks(u: Upstream, w: World, s: Step)
    requires LocalStorage.CollisionFree(u.hash) && Inv(u, w) && Intacts(u, w) && Stocked(u, w) && Enabled(u, w, s) && !s.Damage?
    ensures Stocked(u, Take(u, w, s)) <==> !TakesNeeded(u, w, s)
  {
    if TakesNeeded(u, w, s) {
      CollectedIsStillNeeded(u, w, s.id);
    } else {
      StepStaysIntact(u, w, s);
      forall h | Needed(u, Take(u, w, s), h) ensures h in Take(u, w, s).blobs {
        StepNeeds(u, w, s, h);
      }
    }
  }

  /* ---- Whole runs ---- */

  /** Stores and collections keep out of each other's way: no open batch lists a chunk that is stored and not yet linked. */
  ghost predicate Separate(u: Upstream, w: World) {
    forall id, h :: id in w.sweeps && h in w.sweeps[id].batch ==> !Pending(u, w, h)
  }

  ghost predicate Apart(u: Upstream, steps: seq<Step>)
    decreases |steps|
  {
    && Separate(u, Run(u, steps))
    && (steps == [] || (!steps[|steps| - 1].Damage? && Apart(u, steps[..|steps| - 1])))
  }

  /** What an open batch lists is not linked. */
  ghost predicate BatchesUnlinked(w: World) {
    forall id, h :: id in w.sweeps && h in w.sweeps[id].batch ==> !IsLinked(w.t, h)
  }

  lemma ListedIsUnlinked(t: Tables, h: Sha)
    requires RefCounts.Consistent(t) && h in Orphans(t.chunks)
    ensures !IsLinked(t, h)
  {
    RefCounts.Unlinked(t.links, h);
  }

  lemma StepUnlinked(u: Upstream, w: World, s: Step)
    requires Inv(u, w) && Enabled(u, w, s) && BatchesUnlinked(w) && Separate(u, w)
    ensures BatchesUnlinked(Take(u, w, s))
  {
    var w' := Take(u, w, s);
    forall id, h | id in w'.sweeps && h in w'.sweeps[id].batch ensures !IsLinked(w'.t, h) {
      if id !in w.sweeps {
        ListedIsUnlinked(w.t, h);
      } else {
        assert w'.sweeps[id].batch == w.sweeps[id].batch;
        if IsLinked(w'.t, h) {
          LinkedBefore(u, w, s, h);
        }
      }
    }
  }

  lemma LinkedBefore(u: Upstream, w: World, s: Step, h: Sha)
    requires Enabled(u, w, s) && IsLinked(Take(u, w, s).t, h)
    ensures Needed(u, w, h)
  {
    match s
    case Event(now) => EventNeeds(u, w, now, h);
    case Table(step) => TableNeeds(u, w, step, h);
    case _ =>
      var k :| k in Take(u, w, s).t.links && Take(u, w, s).t.links[k].sha == h;
      assert k in w.t.links && w.t.links[k].sha == h;
  }

  lemma {:induction false} ApartRuns(u: Upstream, steps: seq<Step>)
    requires LocalStorage.CollisionFree(u.hash) && Legal(u, steps) && Apart(u, steps)
    ensures Stocked(u, Run(u, steps)) && Intacts(u, Run(u, steps)) && BatchesUnlinked(Run(u, steps))
  {
    if steps != [] {
      var before, s := steps[..|steps| - 1], steps[|steps| - 1];
      ApartRuns(u, before);
      RunsKeep(u, before);
      StepUnlinked(u, Run(u, before), s);
      StepStaysIntact(u, Run(u, before), s);
      StepStocks(u, Run(u, before), s);
    }
  }

  /**
   In every run without damage from outside in which stores and collections keep apart, every linked chunk has
   its blob, and the blob is the chunk as upstream has it.
   */
  lemma LinkedKeepBlobs(u: Upstream, steps: seq<Step>, k: Slot)
    requires LocalStorage.CollisionFree(u.hash) && Legal(u, steps) && Apart(u, steps) && k in Run(u, steps).t.links
    ensures var w := Run(u, steps);
      w.t.links[k].sha in w.blobs && w.blobs[w.t.links[k].sha] == u.truth(k)
  {
    ApartRuns(u, steps);
    RunsKeep(u, steps);
    var w := Run(u, steps);
    assert IsLinked(w.t, w.t.links[k].sha);
    assert Needed(u, w, w.t.links[k].sha);
    assert Right(u, k, w.t.links[k].sha, w.t.links[k].size);
  }

  /* ---- A run that loses the blob of a linked chunk ---- */

  ghost predicate Undamaged(steps: seq<Step>) {
    forall s :: s in steps ==> !s.Damage?
  }

  /** `more` is a legal undamaged run that ends in `w`. */
  ghost predicate Reaches(u: Upstream, more: seq<Step>, w: World) {
    Legal(u, more) && Undamaged(more) && Run(u, more) == w
  }

  lemma Go(u: Upstream, steps: seq<Step>, w: World, s: Step)
    requires Reaches(u, steps, w) && Enabled(u, w, s) && !s.Damage?
    ensures Reaches(u, steps + [s], Take(u, w, s))
  {
    assert (steps + [s])[..|steps|] == steps;
  }

  /** A chunk downloaded, stored and announced: what the session's steps come to. */
  function Announced(u: Upstream, w: World, id: int, cell: Cell): World {
    var data := u.truth(cell.slot);
    var h := u.hash(data);
    World(w.t, if h in w.blobs then w.blobs else w.blobs[h := data], w.cached[cell := h],
          w.events + [ChunkStored(h, |data|, |data|, cell.slot.file, cell.slot.index)],
          w.readers[id := Reader(cell, Served(data))], w.sweeps)
  }

  /** An action that changes nothing but its reader. */
  lemma ActsOnly(u: Upstream, steps: seq<Step>, w: World, id: int, act: Action, r: Reader, next: Phase)
    requires Reaches(u, steps, w) && id in w.readers && w.readers[id] == r && Ready(u, r, act)
    requires next == NextPhase(u, w, r, act) && NextBlobs(u, w, r, act) == w.blobs
    requires NextCached(u, w, r, act) == w.cached && NextEvents(u, w, r, act) == w.events
    ensures Reaches(u, steps + [Act(id, act)], w.(readers := w.readers[id := Reader(r.cell, next)]))
  {
    Go(u, steps, w, Act(id, act));
  }

  /** The read of a chunk not remembered, up to the check of its download. */
  lemma Downloads(u: Upstream, steps: seq<Step>, w: World, id: int, cell: Cell) returns (more: seq<Step>)
    requires Reaches(u, steps, w) && id !in w.readers && cell !in w.cached && u.valid(cell.slot)
    ensures Reaches(u, more, w.(readers := w.readers[id := Reader(cell, Checked(u.truth(cell.slot)))]))
  {
    var data := u.truth(cell.slot);
    more := steps + [Ask(id, cell)];
    Go(u, steps, w, Ask(id, cell));
    var w1 := w.(readers := w.readers[id := Reader(cell, Asked)]);
    ActsOnly(u, more, w1, id, Recall, Reader(cell, Asked), Fetching);
    more := more + [Act(id, Recall)];
    var w2 := MovedOn(w, w1, id, cell, Asked, Fetching);
    ActsOnly(u, more, w2, id, Download(Some(data)), Reader(cell, Fetching), Fetched(data));
    more := more + [Act(id, Download(Some(data)))];
    var w3 := MovedOn(w, w2, id, cell, Fetching, Fetched(data));
    ActsOnly(u, more, w3, id, Check, Reader(cell, Fetched(data)), Checked(data));
    more := more + [Act(id, Check)];
    var w4 := MovedOn(w, w3, id, cell, Fetched(data), Checked(data));
  }

  /** Moving one reader twice is moving it once. */
  lemma MovedOn(w: World, w1: World, id: int, cell: Cell, p: Phase, q: Phase) returns (w2: World)
    requires w1 == w.(readers := w.readers[id := Reader(cell, p)])
    ensures w2 == w.(readers := w.readers[id := Reader(cell, q)])
    ensures w2 == w1.(readers := w1.readers[id := Reader(cell, q)])
  {
    w2 := w.(readers := w.readers[id := Reader(cell, q)]);
    assert w1.readers[id := Reader(cell, q)] == w.readers[id := Reader(cell, q)];
  }

  lemma Announces(u: Upstream, steps: seq<Step>, w: World, id: int, cell: Cell) returns (more: seq<Step>)
    requires Reaches(u, steps, w) && id !in w.readers && cell !in w.cached && u.valid(cell.slot)
    ensures Reaches(u, more, Announced(u, w, id, cell))
  {
    var data := u.truth(cell.slot);
    var before := Downloads(u, steps, w, id, cell);
    var w1 := w.(readers := w.readers[id := Reader(cell, Checked(data))]);
    var size := if u.hash(data) in w.blobs then None else Some(|data|);
    Go(u, before, w1, Act(id, Store(size)));
    var w2 := Take(u, w1, Act(id, Store(size)));
    assert w2.readers[id] == Reader(cell, Put(data, |data|));
    Go(u, before + [Act(id, Store(size))], w2, Act(id, Publish));
    more := before + [Act(id, Store(size))] + [Act(id, Publish)];
    var w3 := Take(u, w2, Act(id, Publish));
    assert w3.readers == w.readers[id := Reader(cell, Served(data))];
    assert w3 == Announced(u, w, id, cell);
  }

  lemma LinkedOnce(t: Tables, e: ChunkStored)
    requires t.links == map[] && t.chunks == map[] && e.file in t.files
    ensures var t' := After(t, StoreAndLink(t, e, 0, true));
      && t'.files == t.files && t'.lastId == t.lastId && t'.links == map[Slot(e.file, e.index) := Link(e.sha, e.dataLen)]
      && e.sha in t'.chunks && t'.chunks[e.sha].refCount == 1
  {
  }

  lemma Unlinks(t: Tables, f: int, h: Sha, size: nat)
    requires t.links == map[Slot(f, 0) := Link(h, size)] && h in t.chunks && t.chunks[h].refCount == 1
    ensures var t' := DeleteFileById(t, f, 0);
      && t'.links == map[] && t'.files == t.files - {f} && t'.lastId == t.lastId && h in Orphans(t'.chunks)
  {
    assert (set k | k in t.links && k.file == f && t.links[k].sha == h) == {Slot(f, 0)};
  }

  lemma LinkedAgain(t: Tables, e: ChunkStored)
    requires t.links == map[] && e.file in t.files && e.sha in t.chunks && t.chunks[e.sha].refCount == 0
    ensures var t' := After(t, StoreAndLink(t, e, 0, true));
      && t'.links == map[Slot(e.file, e.index) := Link(e.sha, e.dataLen)]
      && e.sha in t'.chunks && t'.chunks[e.sha].refCount == 1
  {
  }

  /** One reader done with chunk `h` of file 1, its blob stored, nothing queued and no batch open. */
  ghost predicate Settled(w: World, h: Sha) {
    h in w.blobs && w.events == [] && w.readers.Keys == {1} && w.cached.Keys == {Cell(1, Slot(1, 0))} && w.sweeps == map[]
  }

  lemma FirstFile(u: Upstream, first: File) returns (steps: seq<Step>, w: World)
    requires first.totalSize == u.total(1)
    ensures Reaches(u, steps, w) && w == START.(t := Tables(map[1 := first], 1, map[], map[]))
  {
    Go(u, [], START, Table(RefCounts.Add(first)));
    steps, w := [] + [Table(RefCounts.Add(first))], Take(u, START, Table(RefCounts.Add(first)));
    assert !NameTaken(map[], first.name, first.source);
  }

  lemma LinkReached(u: Upstream, first: File) returns (more: seq<Step>, w: World)
    requires first.totalSize == u.total(1) && u.valid(Slot(1, 0))
    ensures Reaches(u, more, w)
    ensures var h := u.hash(u.truth(Slot(1, 0)));
      && Settled(w, h) && w.t.files.Keys == {1} && w.t.lastId == 1
      && w.t.links == map[Slot(1, 0) := Link(h, |u.truth(Slot(1, 0))|)] && h in w.t.chunks && w.t.chunks[h].refCount == 1
  {
    var cell := Cell(1, Slot(1, 0));
    var steps, w1 := FirstFile(u, first);
    more := Announces(u, steps, w1, 1, cell);
    var w2 := Announced(u, w1, 1, cell);
    Go(u, more, w2, Event(0));
    LinkedOnce(w2.t, w2.events[0]);
    more, w := more + [Event(0)], Take(u, w2, Event(0));
  }

  lemma OrphanLeft(u: Upstream, steps: seq<Step>, w: World, h: Sha, size: nat) returns (more: seq<Step>, next: World)
    requires Reaches(u, steps, w) && Settled(w, h) && w.t.files.Keys == {1} && w.t.lastId == 1
    requires w.t.links == map[Slot(1, 0) := Link(h, size)] && h in w.t.chunks && w.t.chunks[h].refCount == 1
    ensures Reaches(u, more, next) && Settled(next, h)
    ensures next.t.files == map[] && next.t.lastId == 1 && next.t.links == map[] && h in Orphans(next.t.chunks)
  {
    var gone := Table(RefCounts.DeleteFile(1, 0));
    Go(u, steps, w, gone);
    Unlinks(w.t, 1, h, size);
    more, next := steps + [gone], Take(u, w, gone);
  }

  lemma NextFile(u: Upstream, steps: seq<Step>, w: World, second: File) returns (more: seq<Step>, next: World)
    requires Reaches(u, steps, w) && w.t.files == map[] && w.t.lastId == 1 && second.totalSize == u.total(2)
    ensures Reaches(u, more, next) && next == w.(t := next.t) && 2 in next.t.files
    ensures next.t.links == w.t.links && next.t.chunks == w.t.chunks
  {
    var add := Table(RefCounts.Add(second));
    Go(u, steps, w, add);
    more, next := steps + [add], Take(u, w, add);
  }

  /** An orphan: its file came, was read and went; the next file is there. */
  lemma OrphanReached(u: Upstream, first: File, second: File) returns (more: seq<Step>, w: World)
    requires first.totalSize == u.total(1) && second.totalSize == u.total(2) && u.valid(Slot(1, 0))
    ensures Reaches(u, more, w)
    ensures var h := u.hash(u.truth(Slot(1, 0)));
      Settled(w, h) && w.t.links == map[] && 2 in w.t.files && h in Orphans(w.t.chunks)
  {
    var h, size := u.hash(u.truth(Slot(1, 0))), |u.truth(Slot(1, 0))|;
    var linked, w1 := LinkReached(u, first);
    var orphaned, w2 := OrphanLeft(u, linked, w1, h, size);
    more, w := NextFile(u, orphaned, w2, second);
  }

  /** The orphan is listed, its blob found there by the second file's download, removed, and its row linked and kept. */
  lemma BlobCollectedUnderDownload(u: Upstream, steps: seq<Step>, w: World, h: Sha) returns (more: seq<Step>)
    requires Reaches(u, steps, w) && u.valid(Slot(2, 0)) && h == u.hash(u.truth(Slot(2, 0)))
    requires Settled(w, h) && w.t.links == map[] && 2 in w.t.files && h in Orphans(w.t.chunks)
    ensures LosesBlob(u, more, Slot(2, 0), h)
  {
    var cell := Cell(2, Slot(2, 0));
    var list, gone, event, rows := GcList(0, [h]), GcBlob(0), Event(0), GcRows(0);
    Go(u, steps, w, list);
    var w1 := Take(u, w, list);
    more := Announces(u, steps + [list], w1, 2, cell);
    var w2 := Announced(u, w1, 2, cell);
    Go(u, more, w2, gone);
    var w3 := Take(u, w2, gone);
    Go(u, more + [gone], w3, event);
    var w4 := Take(u, w3, event);
    LinkedAgain(w3.t, w3.events[0]);
    Go(u, more + [gone] + [event], w4, rows);
    more := more + [gone] + [event] + [rows];
    RowsKeepLinked(w4.t, h);
  }

  lemma RowsKeepLinked(t: Tables, h: Sha)
    requires h in t.chunks && t.chunks[h].refCount == 1
    ensures var t' := After(t, DeleteChunks(t, [h])); t'.links == t.links && h in t'.chunks
  {
  }

  ghost predicate LinkedWithoutBlob(w: World, k: Slot, h: Sha) {
    k in w.t.links && w.t.links[k].sha == h && h in w.t.chunks && h !in w.blobs
  }

  ghost predicate LosesBlob(u: Upstream, steps: seq<Step>, k: Slot, h: Sha) {
    Legal(u, steps) && Undamaged(steps) && LinkedWithoutBlob(Run(u, steps), k, h)
  }

  /**
   Without damage from outside, a linked chunk can end without its blob: a batch lists it as an orphan, the
   download of a file with the same chunk finds the blob and skips writing it, the batch removes the blob, and
   then the event links the row, which the recheck keeps.
   */
  lemma CollectionCanTakeALinkedBlob(u: Upstream, first: File, second: File)
    requires first.totalSize == u.total(1) && second.totalSize == u.total(2) && u.valid(Slot(1, 0)) && u.valid(Slot(2, 0))
    requires u.truth(Slot(1, 0)) == u.truth(Slot(2, 0))
    ensures exists steps :: LosesBlob(u, steps, Slot(2, 0), u.hash(u.truth(Slot(2, 0))))
  {
    var steps, w := OrphanReached(u, first, second);
    var more := BlobCollectedUnderDownload(u, steps, w, u.hash(u.truth(Slot(2, 0))));
  }
}
