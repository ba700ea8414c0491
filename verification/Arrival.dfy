/** From a chunk's download to its file being complete: events are queued, processed once, and never lost on a file that stays. */
module Arrival {
  import opened Bytes
  import opened Schema
  import opened ChunkMath
  import opened LocalStorage
  import opened Completeness
  import opened Serving
  import opened EndToEnd
  import RefCounts
  import Linking
  import Dedup

  /* ---- Which slots are linked ---- */

  /** The step takes the event of slot `k` from the queue while its file is there. */
  ghost predicate Processes(w: World, s: Step, k: Slot) {
    s.Event? && w.events != [] && Slot(w.events[0].file, w.events[0].index) == k && k.file in w.t.files
  }

  ghost predicate ProcessedAt(u: Upstream, steps: seq<Step>, k: Slot, p: nat) {
    p < |steps| && Processes(Run(u, steps[..p]), steps[p], k)
  }

  ghost predicate WasProcessed(u: Upstream, steps: seq<Step>, k: Slot) {
    exists p: nat :: ProcessedAt(u, steps, k, p)
  }

  lemma TakeLinks(u: Upstream, w: World, s: Step, k: Slot)
    requires RefCounts.Consistent(w.t) && Enabled(u, w, s) && k.file in Take(u, w, s).t.files
    ensures k in Take(u, w, s).t.links <==> k in w.t.links || Processes(w, s, k)
  {
    match s
    case Event(now) => Linking.StepLinks(w.t, RefCounts.Stored(w.events[0], now), k);
    case Table(step) => Linking.StepLinks(w.t, step, k);
    case _ =>
  }

  /** File ids are never given twice. */
  lemma TakeIds(u: Upstream, w: World, s: Step, f: int)
    requires RefCounts.KeysSound(w.t) && Enabled(u, w, s)
    ensures w.t.lastId <= Take(u, w, s).t.lastId
    ensures f in Take(u, w, s).t.files && f !in w.t.files ==> f > w.t.lastId
  {
    match s
    case Event(now) => Linking.StepIds(w.t, RefCounts.Stored(w.events[0], now), f);
    case Table(step) => Linking.StepIds(w.t, step, f);
    case _ =>
  }

  lemma {:induction false} IdsGrow(u: Upstream, steps: seq<Step>, p: nat)
    requires CollisionFree(u.hash) && Legal(u, steps) && p <= |steps|
    ensures Legal(u, steps[..p]) && Run(u, steps[..p]).t.lastId <= Run(u, steps).t.lastId
  {
    if p < |steps| {
      var before := steps[..|steps| - 1];
      assert steps[..p] == before[..p];
      IdsGrow(u, before, p);
      RunsKeep(u, before);
      TakeIds(u, Run(u, before), steps[|steps| - 1], 0);
    } else {
      assert steps[..p] == steps;
    }
  }

  /** A file there both early and late was there in between. */
  lemma FileStays(u: Upstream, steps: seq<Step>, p: nat, f: int)
    requires CollisionFree(u.hash) && Legal(u, steps) && p < |steps|
    requires f in Run(u, steps[..p]).t.files && f in Run(u, steps).t.files
    ensures f in Run(u, steps[..|steps| - 1]).t.files
  {
    var before := steps[..|steps| - 1];
    assert steps[..p] == before[..p];
    IdsGrow(u, before, p);
    RunsKeep(u, before[..p]);
    RunsKeep(u, before);
    TakeIds(u, Run(u, before), steps[|steps| - 1], f);
  }

  lemma ProcessedMore(u: Upstream, before: seq<Step>, s: Step, k: Slot)
    ensures WasProcessed(u, before + [s], k)
       <==> WasProcessed(u, before, k) || Processes(Run(u, before), s, k)
  {
    var steps := before + [s];
    assert steps[..|before|] == before;
    forall p: nat | p < |before| ensures ProcessedAt(u, steps, k, p) <==> ProcessedAt(u, before, k, p) {
      assert steps[..p] == before[..p];
    }
    assert ProcessedAt(u, steps, k, |before|) <==> Processes(Run(u, before), s, k);
  }

  lemma NewFileUnprocessed(u: Upstream, before: seq<Step>, k: Slot)
    requires CollisionFree(u.hash) && Legal(u, before) && k.file > Run(u, before).t.lastId
    ensures !WasProcessed(u, before, k)
  {
    forall p: nat | p < |before| ensures k.file !in Run(u, before[..p]).t.files {
      IdsGrow(u, before, p);
      RunsKeep(u, before[..p]);
    }
  }

  /** A slot is linked exactly when its event was processed while its file was there. */
  lemma {:induction false} LinkedExactlyWhenProcessed(u: Upstream, steps: seq<Step>, k: Slot)
    requires CollisionFree(u.hash) && Legal(u, steps) && k.file in Run(u, steps).t.files
    ensures k in Run(u, steps).t.links <==> WasProcessed(u, steps, k)
  {
    if steps != [] {
      var before, s := steps[..|steps| - 1], steps[|steps| - 1];
      assert steps == before + [s];
      RunsKeep(u, before);
      TakeLinks(u, Run(u, before), s, k);
      TakeIds(u, Run(u, before), s, k.file);
      ProcessedMore(u, before, s, k);
      if k.file in Run(u, before).t.files {
        LinkedExactlyWhenProcessed(u, before, k);
      } else {
        NewFileUnprocessed(u, before, k);
      }
    }
  }

  lemma AllLinkedAllProcessed(u: Upstream, steps: seq<Step>, f: int, total: nat, c: nat)
    requires c > 0 && CollisionFree(u.hash) && Legal(u, steps) && f in Run(u, steps).t.files
    ensures (forall i :: 0 <= i < ChunkCount(total, c) ==> Slot(f, i) in Run(u, steps).t.links)
       <==> forall i: nat :: i * c < total ==> WasProcessed(u, steps, Slot(f, i))
  {
    forall i: nat
      ensures i < ChunkCount(total, c) <==> i * c < total
      ensures Slot(f, i) in Run(u, steps).t.links <==> WasProcessed(u, steps, Slot(f, i))
    {
      InRange(i, total, c);
      LinkedExactlyWhenProcessed(u, steps, Slot(f, i));
    }
  }

  /** A file is complete by its byte count exactly when the event of each of its chunks was processed while it was there. */
  lemma CompleteExactlyWhenProcessed(content: int -> Bytes, c: nat, hash: Bytes -> Sha, steps: seq<Step>, f: int)
    requires c > 0 && CollisionFree(hash) && Legal(ServerOf(content, c, hash), steps)
    requires f in Run(ServerOf(content, c, hash), steps).t.files
    ensures var u := ServerOf(content, c, hash);
      var t := Run(u, steps).t;
      Dedup.Downloaded(t, f) >= t.files[f].totalSize
      <==> forall i: nat :: i * c < |content(f)| ==> WasProcessed(u, steps, Slot(f, i))
  {
    var u := ServerOf(content, c, hash);
    var t := Run(u, steps).t;
    RunsKeep(u, steps);
    RightLinksFit(t, f, content, c, hash);
    CompleteIffAllLinked(t, f, |content(f)|, c);
    AllLinkedAllProcessed(u, steps, f, |content(f)|, c);
  }

  /* ---- No event is lost ---- */

  /** A reader finishes storing chunk `k` while its file is there. */
  ghost predicate Publishes(w: World, s: Step, k: Slot) {
    s.Act? && s.act.Publish? && s.id in w.readers && w.readers[s.id].cell.slot == k && k.file in w.t.files
  }

  ghost predicate PublishedAt(u: Upstream, steps: seq<Step>, k: Slot, p: nat) {
    p < |steps| && Publishes(Run(u, steps[..p]), steps[p], k)
  }

  ghost predicate WasPublished(u: Upstream, steps: seq<Step>, k: Slot) {
    exists p: nat :: PublishedAt(u, steps, k, p)
  }

  ghost predicate Queued(events: seq<ChunkStored>, k: Slot) {
    exists j: nat :: j < |events| && Slot(events[j].file, events[j].index) == k
  }

  lemma PublishQueues(u: Upstream, w: World, s: Step, k: Slot)
    requires Enabled(u, w, s) && Publishes(w, s, k)
    ensures Queued(Take(u, w, s).events, k)
  {
    var events := Take(u, w, s).events;
    assert Slot(events[|events| - 1].file, events[|events| - 1].index) == k;
  }

  /** A queued event stays queued, or is the one processed. */
  lemma QueuedNext(u: Upstream, w: World, s: Step, k: Slot)
    requires Enabled(u, w, s) && Queued(w.events, k) && k.file in w.t.files
    ensures Queued(Take(u, w, s).events, k) || Processes(w, s, k)
  {
    var j: nat :| j < |w.events| && Slot(w.events[j].file, w.events[j].index) == k;
    var events := Take(u, w, s).events;
    if s.Event? {
      if j > 0 {
        assert events[j - 1] == w.events[j];
      }
    } else {
      assert events[j] == w.events[j];
    }
  }

  /** A chunk stored while its file was there is linked, or its event is still queued, for as long as the file stays. */
  lemma {:induction false} PublishedIsLinkedOrQueued(u: Upstream, steps: seq<Step>, k: Slot, p: nat)
    requires CollisionFree(u.hash) && Legal(u, steps) && PublishedAt(u, steps, k, p) && k.file in Run(u, steps).t.files
    ensures k in Run(u, steps).t.links || Queued(Run(u, steps).events, k)
  {
    var before, s := steps[..|steps| - 1], steps[|steps| - 1];
    var w := Run(u, before);
    RunsKeep(u, before);
    if p == |before| {
      PublishQueues(u, w, s, k);
    } else {
      assert steps[..p] == before[..p];
      FileStays(u, steps, p, k.file);
      PublishedIsLinkedOrQueued(u, before, k, p);
      TakeLinks(u, w, s, k);
      if k !in w.t.links {
        QueuedNext(u, w, s, k);
      }
    }
  }

  lemma ChunkArrived(u: Upstream, steps: seq<Step>, k: Slot)
    requires CollisionFree(u.hash) && Legal(u, steps) && k.file in Run(u, steps).t.files && Run(u, steps).events == []
    requires WasPublished(u, steps, k)
    ensures WasProcessed(u, steps, k)
  {
    var p: nat :| PublishedAt(u, steps, k, p);
    PublishedIsLinkedOrQueued(u, steps, k, p);
    LinkedExactlyWhenProcessed(u, steps, k);
  }

  /** So once the queue is empty, a file each of whose chunks was downloaded while it was there is complete. */
  lemma DownloadedFileIsComplete(content: int -> Bytes, c: nat, hash: Bytes -> Sha, steps: seq<Step>, f: int)
    requires c > 0 && CollisionFree(hash) && Legal(ServerOf(content, c, hash), steps)
    requires f in Run(ServerOf(content, c, hash), steps).t.files && Run(ServerOf(content, c, hash), steps).events == []
    requires forall i: nat :: i * c < |content(f)| ==> WasPublished(ServerOf(content, c, hash), steps, Slot(f, i))
    ensures var t := Run(ServerOf(content, c, hash), steps).t;
      Dedup.Downloaded(t, f) >= t.files[f].totalSize
  {
    var u := ServerOf(content, c, hash);
    forall i: nat | i * c < |content(f)| ensures WasProcessed(u, steps, Slot(f, i)) {
      ChunkArrived(u, steps, Slot(f, i));
    }
    CompleteExactlyWhenProcessed(content, c, hash, steps, f);
  }
}
