/** Every reader in an interleaving gets somewhere: from the cache, from upstream after healing the cache, or refused by one of the two. */
module Reading {
  import opened Wrappers
  import opened Bytes
  import opened Schema
  import LocalStorage
  import opened Serving

  /* ---- How far a reader is from its end ---- */

  function Rank(p: Phase): nat {
    match p
    case Asked => 8
    case Reading(_) => 7
    case Loaded(_, _) => 6
    case Missed => 5
    case Fetching => 4
    case Fetched(_) => 3
    case Checked(_) => 2
    case Put(_, _) => 1
    case Served(_) => 0
    case Failed(_) => 0
  }

  lemma ActAdvances(u: Upstream, w: World, r: Reader, act: Action)
    requires Ready(u, r, act)
    ensures Rank(NextPhase(u, w, r, act)) < Rank(r.phase)
  {
  }

  lemma OnlyOwnActs(u: Upstream, w: World, s: Step, id: int)
    requires Enabled(u, w, s) && id in w.readers && !(s.Act? && s.id == id)
    ensures id in Take(u, w, s).readers && Take(u, w, s).readers[id] == w.readers[id]
  {
  }

  /** Upstream gave nothing, or the backend refused to store a chunk it does not have. */
  ghost predicate Denies(u: Upstream, w: World, s: Step, id: int) {
    && s.Act? && s.id == id && id in w.readers
    && (s.act == Download(None) ||
        (s.act == Store(None) && u.hash(u.truth(w.readers[id].cell.slot)) !in w.blobs))
  }

  ghost predicate DeniedAt(u: Upstream, steps: seq<Step>, id: int, p: nat) {
    p < |steps| && Denies(u, Run(u, steps[..p]), steps[p], id)
  }

  lemma ActFails(u: Upstream, w: World, act: Action, id: int)
    requires LocalStorage.CollisionFree(u.hash) && Inv(u, w) && Enabled(u, w, Act(id, act))
    ensures NextPhase(u, w, w.readers[id], act).Failed? <==> Denies(u, w, Act(id, act), id)
  {
    assert ReaderRight(u, w.readers[id]);
  }

  /** The steps that are actions of reader `id`. */
  function ActsOf(steps: seq<Step>, id: int): nat {
    if steps == [] then 0
    else ActsOf(steps[..|steps| - 1], id) + if steps[|steps| - 1].Act? && steps[|steps| - 1].id == id then 1 else 0
  }

  /** Every action brings a reader closer to its end, so there are at most eight. */
  lemma {:induction false} ActsLeft(u: Upstream, steps: seq<Step>, id: int)
    requires Legal(u, steps)
    ensures if id in Run(u, steps).readers then ActsOf(steps, id) + Rank(Run(u, steps).readers[id].phase) <= 8 else ActsOf(steps, id) == 0
  {
    if steps != [] {
      var before, s := steps[..|steps| - 1], steps[|steps| - 1];
      var w := Run(u, before);
      ActsLeft(u, before, id);
      if s.Act? && s.id == id {
        ActAdvances(u, w, w.readers[id], s.act);
      } else if id in w.readers {
        OnlyOwnActs(u, w, s, id);
      }
    }
  }

  lemma ReadersStay(u: Upstream, w: World, s: Step, id: int)
    requires id in w.readers
    ensures id in Take(u, w, s).readers
  {
  }

  lemma FailedNext(u: Upstream, w: World, s: Step, id: int)
    requires LocalStorage.CollisionFree(u.hash) && Inv(u, w) && Enabled(u, w, s) && id in Take(u, w, s).readers
    ensures Take(u, w, s).readers[id].phase.Failed? <==> (id in w.readers && w.readers[id].phase.Failed?) || Denies(u, w, s, id)
  {
    if id in w.readers {
      if s.Act? && s.id == id {
        ActFails(u, w, s.act, id);
      } else {
        OnlyOwnActs(u, w, s, id);
      }
    } else {
      assert s.Ask? && Take(u, w, s).readers[id].phase == Asked;
    }
  }

  ghost predicate WasDenied(u: Upstream, steps: seq<Step>, id: int) {
    exists p: nat :: DeniedAt(u, steps, id, p)
  }

  lemma DeniedMore(u: Upstream, before: seq<Step>, s: Step, id: int)
    ensures WasDenied(u, before + [s], id) <==> WasDenied(u, before, id) || Denies(u, Run(u, before), s, id)
  {
    var steps := before + [s];
    assert steps[..|before|] == before;
    forall p: nat | p < |before| ensures DeniedAt(u, steps, id, p) <==> DeniedAt(u, before, id, p) {
      assert steps[..p] == before[..p];
    }
    assert DeniedAt(u, steps, id, |before|) <==> Denies(u, Run(u, before), s, id);
  }

  lemma {:induction false} NeverDenied(u: Upstream, steps: seq<Step>, id: int)
    requires id !in Run(u, steps).readers
    ensures !WasDenied(u, steps, id)
  {
    if steps != [] {
      var before, s := steps[..|steps| - 1], steps[|steps| - 1];
      assert steps == before + [s];
      if id in Run(u, before).readers {
        ReadersStay(u, Run(u, before), s, id);
      }
      NeverDenied(u, before, id);
      DeniedMore(u, before, s, id);
    }
  }

  /** A reader fails exactly when it was denied. */
  lemma {:induction false} FailedExactlyWhenDenied(u: Upstream, steps: seq<Step>, id: int)
    requires LocalStorage.CollisionFree(u.hash) && Legal(u, steps) && id in Run(u, steps).readers
    ensures Run(u, steps).readers[id].phase.Failed? <==> WasDenied(u, steps, id)
  {
    var before, s := steps[..|steps| - 1], steps[|steps| - 1];
    RunsKeep(u, before);
    FailedNext(u, Run(u, before), s, id);
    assert steps == before + [s];
    DeniedMore(u, before, s, id);
    if id in Run(u, before).readers {
      FailedExactlyWhenDenied(u, before, id);
    } else {
      NeverDenied(u, before, id);
    }
  }

  /**
   Whatever happens around it: a reader that is not done always has a next action, after eight it is done, and then it
   has been handed the chunk as upstream has it unless upstream gave nothing or the backend refused to store it.
   */
  lemma ReadersEnd(u: Upstream, steps: seq<Step>, id: int)
    requires LocalStorage.CollisionFree(u.hash) && Legal(u, steps) && id in Run(u, steps).readers
    ensures var r := Run(u, steps).readers[id];
      && ActsOf(steps, id) <= 8
      && (r.phase == Served(u.truth(r.cell.slot)) || r.phase.Failed? || exists act :: Ready(u, r, act))
      && (ActsOf(steps, id) == 8 ==> r.phase == Served(u.truth(r.cell.slot)) || r.phase.Failed?)
      && (r.phase.Failed? <==> WasDenied(u, steps, id))
  {
    ActsLeft(u, steps, id);
    FailedExactlyWhenDenied(u, steps, id);
    ServedIsTruth(u, steps, id);
    var r := Run(u, steps).readers[id];
    if Rank(r.phase) > 0 {
      var act := NextAction(r.phase);
      assert Ready(u, r, act);
    }
  }

  function NextAction(p: Phase): Action {
    match p
    case Reading(_) => Load
    case Loaded(_, _) => Verify
    case Missed => Forget
    case Fetching => Download(None)
    case Fetched(_) => Check
    case Checked(_) => Store(None)
    case Put(_, _) => Publish
    case _ => Recall
  }

  /* ---- From where it gets it; `w2`, `w3`, … are any later worlds in which the reader is where it was left ---- */

  /** A remembered chunk whose blob is intact when it is loaded is served from there, with nothing changed. */
  lemma RememberedIsServed(u: Upstream, w1: World, w2: World, w3: World, id: int, cell: Cell)
    requires CachedRight(u, w1.cached) && cell in w1.cached && id in w1.readers && w1.readers[id] == Reader(cell, Asked)
    requires id in w2.readers && w2.readers[id] == Take(u, w1, Act(id, Recall)).readers[id]
    requires u.hash(u.truth(cell.slot)) in w2.blobs && w2.blobs[u.hash(u.truth(cell.slot))] == u.truth(cell.slot)
    requires id in w3.readers && w3.readers[id] == Take(u, w2, Act(id, Load)).readers[id]
    ensures Take(u, w3, Act(id, Verify)) == w3.(readers := w3.readers[id := Reader(cell, Served(u.truth(cell.slot)))])
  {
  }

  /** A damaged blob is deleted once loaded, and its hash forgotten; a missing one leads there too. */
  lemma DamagedIsForgotten(u: Upstream, w1: World, w2: World, w3: World, id: int, cell: Cell)
    requires LocalStorage.CollisionFree(u.hash) && id in w1.readers && w1.readers[id] == Reader(cell, Reading(u.hash(u.truth(cell.slot))))
    requires id in w2.readers && w2.readers[id] == Take(u, w1, Act(id, Load)).readers[id]
    requires u.hash(u.truth(cell.slot)) in w1.blobs ==> w1.blobs[u.hash(u.truth(cell.slot))] != u.truth(cell.slot)
    requires id in w3.readers && w3.readers[id] == Reader(cell, Missed)
    ensures u.hash(u.truth(cell.slot)) !in w1.blobs ==> w2.readers[id] == Reader(cell, Missed)
    ensures u.hash(u.truth(cell.slot)) in w1.blobs ==>
      Take(u, w2, Act(id, Verify)) ==
        w2.(blobs := w2.blobs - {u.hash(u.truth(cell.slot))}, readers := w2.readers[id := Reader(cell, Missed)])
    ensures Take(u, w3, Act(id, Forget)) == w3.(cached := w3.cached - {cell}, readers := w3.readers[id := Reader(cell, Fetching)])
  {
  }

  /** A download is served, its blob written unless one has that name, its hash remembered and one event queued for it. */
  lemma DownloadIsServed(u: Upstream, w1: World, w2: World, w3: World, w4: World, id: int, cell: Cell, size: nat)
    requires id in w1.readers && w1.readers[id] == Reader(cell, Fetching)
    requires id in w2.readers && w2.readers[id] == Take(u, w1, Act(id, Download(Some(u.truth(cell.slot))))).readers[id]
    requires CachedRight(u, w2.cached)
    requires id in w3.readers && w3.readers[id] == Take(u, w2, Act(id, Check)).readers[id]
    requires id in w4.readers && w4.readers[id] == Take(u, w3, Act(id, Store(Some(size)))).readers[id]
    ensures var data := u.truth(cell.slot);
      var h := u.hash(data);
      && Take(u, w3, Act(id, Store(Some(size)))).blobs == (if h in w3.blobs then w3.blobs else w3.blobs[h := data])
      && Take(u, w4, Act(id, Publish)) ==
           w4.(cached := w4.cached[cell := h], readers := w4.readers[id := Reader(cell, Served(data))],
               events := w4.events + [ChunkStored(h, |data|, if h in w3.blobs then |data| else size, cell.slot.file, cell.slot.index)])
  {
  }

  /** A session remembers from its opening on the hashes of the file's links, and for its other chunks what it did before. */
  lemma OpenRemembersLinks(u: Upstream, w: World, session: int, f: int, k: Slot)
    ensures var w' := Take(u, w, Open(session, f));
      && w' == w.(cached := w'.cached)
      && (k in w.t.links && k.file == f ==> Cell(session, k) in w'.cached && w'.cached[Cell(session, k)] == w.t.links[k].sha)
      && (forall cell: Cell :: !(cell.session == session && cell.slot in w.t.links && cell.slot.file == f) ==>
            (cell in w'.cached <==> cell in w.cached) && (cell in w.cached ==> w'.cached[cell] == w.cached[cell]))
  {
    if k in w.t.links && k.file == f {
      assert Cell(session, k) in Remembered(w.t, session, f);
    }
  }

  /* ---- Refusals, and what comes from outside ---- */

  /** A download that differs from what is remembered is refused; one that does not, or is the first, goes on to be stored. */
  lemma CheckComparesHashes(u: Upstream, w: World, id: int, cell: Cell, data: Bytes)
    requires id in w.readers && w.readers[id] == Reader(cell, Fetched(data))
    ensures Take(u, w, Act(id, Check)) == w.(readers := w.readers[id := Reader(cell,
              if cell in w.cached && w.cached[cell] != u.hash(data) then Failed(true) else Checked(data))])
  {
  }

  /** A reader that gets nothing from upstream, or whose chunk the backend will not store, fails and changes nothing else. */
  lemma DeniedChangesNothing(u: Upstream, w: World, id: int, cell: Cell, data: Bytes)
    requires id in w.readers
    ensures w.readers[id] == Reader(cell, Fetching) ==>
      Take(u, w, Act(id, Download(None))) == w.(readers := w.readers[id := Reader(cell, Failed(false))])
    ensures w.readers[id] == Reader(cell, Checked(data)) && u.hash(data) !in w.blobs ==>
      Take(u, w, Act(id, Store(None))) == w.(readers := w.readers[id := Reader(cell, Failed(false))])
  {
  }

  /** Damage may leave any blobs; a batch lists, removes its blobs one by one, and may stop early. */
  lemma OutsideActs(u: Upstream, w: World, id: int, batch: seq<Sha>, blobs: map<Sha, Bytes>)
    ensures Take(u, w, Damage(blobs)) == w.(blobs := blobs)
    ensures Take(u, w, GcList(id, batch)) == w.(sweeps := w.sweeps[id := Sweep(batch, 0)])
    ensures Enabled(u, w, GcBlob(id)) ==>
      var g := w.sweeps[id];
      Take(u, w, GcBlob(id)) == w.(blobs := w.blobs - {g.batch[g.gone]}, sweeps := w.sweeps[id := Sweep(g.batch, g.gone + 1)])
    ensures id !in Take(u, w, GcStop(id)).sweeps && Take(u, w, GcStop(id)).blobs == w.blobs && Take(u, w, GcStop(id)).t == w.t
  {
  }
}
