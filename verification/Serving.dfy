/**
 Everything at once, one atomic step at a time: sessions reading, downloading and storing chunks, stored-chunk
 events, metadata transactions, garbage collection between its listing and its row delete, and damage to blobs.
 */
module Serving {
  import opened Wrappers
  import opened Bytes
  import opened Schema
  import opened LocalStorage
  import RefCounts

  /** What upstream serves: which chunks exist, their bytes, each file's length; and the hash in use. */
  datatype Upstream = Upstream(valid: Slot -> bool, truth: Slot -> Bytes, total: int -> nat, hash: Bytes -> Sha)

  /** A session's remembered hash for one chunk. */
  datatype Cell = Cell(session: int, slot: Slot)

  datatype Phase =
    | Asked
    | Reading(sha: Sha)
    | Loaded(sha: Sha, raw: Bytes)
    | Missed
    | Fetching
    | Fetched(data: Bytes)
    | Checked(data: Bytes)
    | Put(data: Bytes, size: nat)
    | Served(data: Bytes)
    | Failed(mismatch: bool)

  datatype Reader = Reader(cell: Cell, phase: Phase)

  /** A listed batch and how many of its blobs are gone; a refused blob ends it early. */
  datatype Sweep = Sweep(batch: seq<Sha>, gone: nat)

  datatype World = World(
    t: Tables, blobs: map<Sha, Bytes>, cached: map<Cell, Sha>, events: seq<ChunkStored>,
    readers: map<int, Reader>, sweeps: map<int, Sweep>)

  const START := World(EMPTY, map[], map[], [], map[], map[])

  /** One await of the session's read path. */
  datatype Action =
    | Recall
    | Load
    | Verify
    | Forget
    | Download(body: Option<Bytes>)
    | Check
    | Store(size: Option<nat>)
    | Publish

  datatype Step =
    | Open(session: int, file: int)
    | Ask(id: int, cell: Cell)
    | Act(id: int, act: Action)
    | Event(now: int)
    | Table(step: RefCounts.Step)
    | Damage(blobs: map<Sha, Bytes>)
    | GcList(id: int, batch: seq<Sha>)
    | GcBlob(id: int)
    | GcRows(id: int)
    | GcStop(id: int)

  /** A reader is where the action starts; an upstream body is the chunk or nothing usable. */
  ghost predicate Ready(u: Upstream, r: Reader, act: Action) {
    match act
    case Recall => r.phase.Asked?
    case Load => r.phase.Reading?
    case Verify => r.phase.Loaded?
    case Forget => r.phase.Missed?
    case Download(body) => r.phase.Fetching? && (body.Some? ==> body.value == u.truth(r.cell.slot))
    case Check => r.phase.Fetched?
    case Store(_) => r.phase.Checked?
    case Publish => r.phase.Put?
  }

  /** Metadata transactions from outside the sessions: a new file has its length there; chunk rows come from events only. */
  predicate FromOutside(u: Upstream, t: Tables, s: RefCounts.Step) {
    match s
    case Add(row) => row.totalSize == u.total(t.lastId + 1)
    case Ensure(_, _, _, _) => false
    case Attach(_, _, _) => false
    case Stored(_, _) => false
    case GcDelete(_) => false
    case _ => true
  }

  ghost predicate Enabled(u: Upstream, w: World, s: Step) {
    match s
    case Open(a, _) => true
    case Ask(id, cell) => id !in w.readers && u.valid(cell.slot)
    case Act(id, act) => id in w.readers && Ready(u, w.readers[id], act)
    case Event(_) => w.events != []
    case Table(step) => FromOutside(u, w.t, step)
    case Damage(_) => true
    case GcList(id, batch) => id !in w.sweeps && forall h :: h in batch ==> h in Orphans(w.t.chunks)
    case GcBlob(id) => id in w.sweeps && w.sweeps[id].gone < |w.sweeps[id].batch|
    case GcRows(id) => id in w.sweeps && w.sweeps[id].gone == |w.sweeps[id].batch|
    case GcStop(id) => id in w.sweeps
  }

  /** The links of `f` as a session that opens now remembers them. */
  function Remembered(t: Tables, session: int, f: int): map<Cell, Sha> {
    map k | k in t.links && k.file == f :: Cell(session, k) := t.links[k].sha
  }

  function Take(u: Upstream, w: World, s: Step): World {
    match s
    case Open(a, f) => w.(cached := w.cached + Remembered(w.t, a, f))
    case Ask(id, cell) => w.(readers := w.readers[id := Reader(cell, Asked)])
    case Event(now) =>
      if w.events == [] then w else w.(events := w.events[1..], t := After(w.t, StoreAndLink(w.t, w.events[0], now, true)))
    case Table(step) => w.(t := RefCounts.Apply(w.t, step, true))
    case Damage(blobs) => w.(blobs := blobs)
    case GcList(id, batch) => w.(sweeps := w.sweeps[id := Sweep(batch, 0)])
    case GcBlob(id) =>
      if id in w.sweeps && w.sweeps[id].gone < |w.sweeps[id].batch| then
        var g := w.sweeps[id];
        w.(blobs := w.blobs - {g.batch[g.gone]}, sweeps := w.sweeps[id := Sweep(g.batch, g.gone + 1)])
      else w
    case GcRows(id) =>
      if id in w.sweeps then w.(t := After(w.t, DeleteChunks(w.t, w.sweeps[id].batch)), sweeps := w.sweeps - {id}) else w
    case GcStop(id) => w.(sweeps := w.sweeps - {id})
    case Act(id, act) => if id in w.readers then Acted(u, w, act, id) else w
  }

  /** A blob read back passes verification. */
  predicate Intact(u: Upstream, r: Reader) {
    r.phase.Loaded? && u.hash(r.phase.raw) == r.phase.sha && |r.phase.raw| == |u.truth(r.cell.slot)|
  }

  /** What an action makes of its reader, given what is remembered and stored at that moment. */
  function NextPhase(u: Upstream, w: World, r: Reader, act: Action): Phase {
    match act
    case Recall => if r.cell in w.cached then Reading(w.cached[r.cell]) else Fetching
    case Load =>
      if !r.phase.Reading? then r.phase
      else if r.phase.sha in w.blobs then Loaded(r.phase.sha, w.blobs[r.phase.sha]) else Missed
    case Verify => if Intact(u, r) then Served(r.phase.raw) else Missed
    case Forget => Fetching
    case Download(body) => if body.Some? then Fetched(body.value) else Failed(false)
    case Check =>
      if !r.phase.Fetched? then r.phase
      else if r.cell in w.cached && w.cached[r.cell] != u.hash(r.phase.data) then Failed(true) else Checked(r.phase.data)
    case Store(size) =>
      if !r.phase.Checked? then r.phase
      else if u.hash(r.phase.data) in w.blobs then Put(r.phase.data, |r.phase.data|)
      else if size.Some? then Put(r.phase.data, size.value) else Failed(false)
    case Publish => if r.phase.Put? then Served(r.phase.data) else r.phase
  }

  /** Verification deletes what does not pass; storing writes what is not there. */
  function NextBlobs(u: Upstream, w: World, r: Reader, act: Action): map<Sha, Bytes> {
    match act
    case Verify => if r.phase.Loaded? && !Intact(u, r) then w.blobs - {r.phase.sha} else w.blobs
    case Store(size) =>
      if r.phase.Checked? && size.Some? && u.hash(r.phase.data) !in w.blobs then w.blobs[u.hash(r.phase.data) := r.phase.data]
      else w.blobs
    case _ => w.blobs
  }

  function NextCached(u: Upstream, w: World, r: Reader, act: Action): map<Cell, Sha> {
    match act
    case Forget => w.cached - {r.cell}
    case Publish => if r.phase.Put? then w.cached[r.cell := u.hash(r.phase.data)] else w.cached
    case _ => w.cached
  }

  function NextEvents(u: Upstream, w: World, r: Reader, act: Action): seq<ChunkStored> {
    if act.Publish? && r.phase.Put? then
      w.events + [ChunkStored(u.hash(r.phase.data), |r.phase.data|, r.phase.size, r.cell.slot.file, r.cell.slot.index)]
    else w.events
  }

  function Acted(u: Upstream, w: World, act: Action, id: int): World
    requires id in w.readers
  {
    var r := w.readers[id];
    World(w.t, NextBlobs(u, w, r, act), NextCached(u, w, r, act), NextEvents(u, w, r, act),
          w.readers[id := Reader(r.cell, NextPhase(u, w, r, act))], w.sweeps)
  }

  function Run(u: Upstream, steps: seq<Step>): World {
    if steps == [] then START else Take(u, Run(u, steps[..|steps| - 1]), steps[|steps| - 1])
  }

  ghost predicate Legal(u: Upstream, steps: seq<Step>)
    decreases |steps|
  {
    steps == [] || (Legal(u, steps[..|steps| - 1]) && Enabled(u, Run(u, steps[..|steps| - 1]), steps[|steps| - 1]))
  }

  /* ---- What every step keeps ---- */

  ghost predicate Right(u: Upstream, k: Slot, h: Sha, size: nat) {
    u.valid(k) && h == u.hash(u.truth(k)) && size == |u.truth(k)|
  }

  ghost predicate LinksRight(u: Upstream, t: Tables) {
    && (forall k :: k in t.links ==> Right(u, k, t.links[k].sha, t.links[k].size))
    && (forall f :: f in t.files ==> t.files[f].totalSize == u.total(f))
  }

  ghost predicate CachedRight(u: Upstream, cached: map<Cell, Sha>) {
    forall cell :: cell in cached ==> u.valid(cell.slot) && cached[cell] == u.hash(u.truth(cell.slot))
  }

  ghost predicate EventRight(u: Upstream, e: ChunkStored) {
    Right(u, Slot(e.file, e.index), e.sha, e.dataLen)
  }

  ghost predicate ReaderRight(u: Upstream, r: Reader) {
    u.valid(r.cell.slot) &&
    match r.phase
    case Reading(h) => h == u.hash(u.truth(r.cell.slot))
    case Loaded(h, _) => h == u.hash(u.truth(r.cell.slot))
    case Fetched(data) => data == u.truth(r.cell.slot)
    case Checked(data) => data == u.truth(r.cell.slot)
    case Put(data, _) => data == u.truth(r.cell.slot)
    case Served(data) => data == u.truth(r.cell.slot)
    case Failed(mismatch) => !mismatch
    case _ => true
  }

  ghost predicate Inv(u: Upstream, w: World) {
    && RefCounts.Consistent(w.t) && LinksRight(u, w.t) && CachedRight(u, w.cached)
    && (forall e :: e in w.events ==> EventRight(u, e))
    && (forall id :: id in w.readers ==> ReaderRight(u, w.readers[id]))
  }

  lemma {:induction false} DeletesRight(u: Upstream, t: Tables, ids: seq<int>, clock: int -> int)
    requires LinksRight(u, t)
    ensures LinksRight(u, DeleteFiles(t, ids, clock))
  {
    if ids != [] {
      DeletesRight(u, t, ids[..|ids| - 1], clock);
    }
  }

  lemma TableRight(u: Upstream, t: Tables, s: RefCounts.Step)
    requires LinksRight(u, t) && FromOutside(u, t, s)
    ensures LinksRight(u, RefCounts.Apply(t, s, true))
  {
    if s.DeleteRepo? {
      DeletesRight(u, t, s.ids, s.clock);
    }
  }

  lemma EventKeeps(u: Upstream, t: Tables, e: ChunkStored, now: int)
    requires LinksRight(u, t) && EventRight(u, e)
    ensures LinksRight(u, After(t, StoreAndLink(t, e, now, true)))
  {
  }

  lemma ActedCached(u: Upstream, w: World, act: Action, r: Reader)
    requires CachedRight(u, w.cached) && ReaderRight(u, r) && Ready(u, r, act)
    ensures CachedRight(u, NextCached(u, w, r, act))
  {
  }

  lemma ActedEvents(u: Upstream, w: World, act: Action, r: Reader)
    requires ReaderRight(u, r) && Ready(u, r, act)
    requires forall e :: e in w.events ==> EventRight(u, e)
    ensures forall e :: e in NextEvents(u, w, r, act) ==> EventRight(u, e)
  {
    assert r.cell.slot == Slot(r.cell.slot.file, r.cell.slot.index);
  }

  lemma ActedReader(u: Upstream, w: World, act: Action, r: Reader)
    requires CollisionFree(u.hash) && CachedRight(u, w.cached) && ReaderRight(u, r) && Ready(u, r, act)
    ensures ReaderRight(u, Reader(r.cell, NextPhase(u, w, r, act)))
  {
  }

  lemma ActKeeps(u: Upstream, w: World, act: Action, id: int)
    requires CollisionFree(u.hash) && Inv(u, w) && id in w.readers && Ready(u, w.readers[id], act)
    ensures Inv(u, Acted(u, w, act, id))
  {
    var r := w.readers[id];
    ActedCached(u, w, act, r);
    ActedEvents(u, w, act, r);
    ActedReader(u, w, act, r);
  }

  lemma EventStepKeeps(u: Upstream, w: World, now: int)
    requires Inv(u, w) && w.events != []
    ensures Inv(u, Take(u, w, Event(now)))
  {
    assert EventRight(u, w.events[0]);
    EventKeeps(u, w.t, w.events[0], now);
    RefCounts.StoreAndLinkKeeps(w.t, w.events[0], now);
  }

  lemma TableStepKeeps(u: Upstream, w: World, step: RefCounts.Step)
    requires Inv(u, w) && FromOutside(u, w.t, step)
    ensures Inv(u, Take(u, w, Table(step)))
  {
    TableRight(u, w.t, step);
    RefCounts.ApplyKeeps(w.t, step, true);
  }

  lemma RowsStepKeeps(u: Upstream, w: World, id: int)
    requires Inv(u, w) && id in w.sweeps
    ensures Inv(u, Take(u, w, GcRows(id)))
  {
    RefCounts.DeleteChunksKeeps(w.t, w.sweeps[id].batch);
  }

  lemma OpenStepKeeps(u: Upstream, w: World, session: int, f: int)
    requires Inv(u, w)
    ensures Inv(u, Take(u, w, Open(session, f)))
  {
    assert CachedRight(u, w.cached + Remembered(w.t, session, f));
  }

  lemma AskStepKeeps(u: Upstream, w: World, id: int, cell: Cell)
    requires Inv(u, w) && Enabled(u, w, Ask(id, cell))
    ensures Inv(u, Take(u, w, Ask(id, cell)))
  {
  }

  lemma BlobStepKeeps(u: Upstream, w: World, s: Step)
    requires Inv(u, w) && (s.Damage? || s.GcList? || s.GcBlob? || s.GcStop?)
    ensures Inv(u, Take(u, w, s))
  {
  }

  lemma StepKeeps(u: Upstream, w: World, s: Step)
    requires CollisionFree(u.hash) && Inv(u, w) && Enabled(u, w, s)
    ensures Inv(u, Take(u, w, s))
  {
    match s
    case Event(now) => EventStepKeeps(u, w, now);
    case Table(step) => TableStepKeeps(u, w, step);
    case GcRows(id) => RowsStepKeeps(u, w, id);
    case Act(id, act) => ActKeeps(u, w, act, id);
    case Open(session, f) => OpenStepKeeps(u, w, session, f);
    case Ask(id, cell) => AskStepKeeps(u, w, id, cell);
    case _ => BlobStepKeeps(u, w, s);
  }

  lemma {:induction false} RunsKeep(u: Upstream, steps: seq<Step>)
    requires CollisionFree(u.hash) && Legal(u, steps)
    ensures Inv(u, Run(u, steps))
  {
    if steps != [] {
      RunsKeep(u, steps[..|steps| - 1]);
      StepKeeps(u, Run(u, steps[..|steps| - 1]), steps[|steps| - 1]);
    }
  }

  /**
   In every interleaving of sessions, events, transactions, collections and damaged blobs: what a reader is
   handed is the chunk as upstream has it, and the checksum comparison after a download never fails.
   */
  lemma ServedIsTruth(u: Upstream, steps: seq<Step>, id: int)
    requires CollisionFree(u.hash) && Legal(u, steps) && id in Run(u, steps).readers
    ensures var r := Run(u, steps).readers[id];
      && (r.phase.Served? ==> r.phase.data == u.truth(r.cell.slot))
      && (r.phase.Failed? ==> !r.phase.mismatch)
  {
    RunsKeep(u, steps);
    assert ReaderRight(u, Run(u, steps).readers[id]);
  }

  /**
   Whatever was linked or unlinked since a batch was listed, its row delete succeeds and removes exactly the
   listed rows that have no link now.
   */
  lemma SweepTakesOnlyUnlinked(u: Upstream, steps: seq<Step>, id: int)
    requires CollisionFree(u.hash) && Legal(u, steps) && Enabled(u, Run(u, steps), GcRows(id))
    ensures var w := Run(u, steps);
      var w' := Take(u, w, GcRows(id));
      && DeleteChunks(w.t, w.sweeps[id].batch).Ok?
      && w'.t.links == w.t.links && w'.t.files == w.t.files
      && (forall h :: h in w'.t.chunks <==> h in w.t.chunks && !(h in w.sweeps[id].batch && Refs(w.t.links, h) == 0))
      && (forall h :: h in w'.t.chunks ==> w'.t.chunks[h] == w.t.chunks[h])
  {
    RunsKeep(u, steps);
    RefCounts.DeleteChunksKeeps(Run(u, steps).t, Run(u, steps).sweeps[id].batch);
  }
}
