/** What an eviction did, act by act: collections of a batch and deletions of a repository. */
module EvictionLog {
  import opened Schema
  import opened Metadata
  import opened Sums
  import opened Bytes
  import opened Seqs
  import GcSpec
  import RefCounts

  /** The tables and the blobs. */
  datatype Kept = Kept(t: Tables, blobs: map<Sha, Bytes>)

  /** A batch at the top of a turn, a repository evicted with its files, the batch after that. */
  datatype Act = Top(batch: seq<Sha>) | Evict(repo: string, ids: seq<int>) | Tail(batch: seq<Sha>)

  datatype Did = Did(before: Kept, act: Act)

  const BATCH := 32

  function BatchOfAct(a: Act): seq<Sha> {
    if a.Evict? then [] else a.batch
  }

  /** A collection takes rows and blobs of the oldest marked orphans; an eviction deletes the files of one repository. */
  ghost predicate Does(s: Kept, a: Act, clock: int -> int, now: Kept) {
    match a
    case Evict(repo, ids) => Enumerates(ids, RepoFiles(s.t.files, repo)) && now == Kept(DeleteFiles(s.t, ids, clock), s.blobs)
    case _ =>
      && OldestOrphans(s.t.chunks, BatchOfAct(a), BATCH)
      && now == Kept(s.t.(chunks := s.t.chunks - ToSet(BatchOfAct(a))), s.blobs - ToSet(BatchOfAct(a)))
  }

  ghost predicate Chain(start: Kept, log: seq<Did>, clock: int -> int, now: Kept)
    decreases |log|
  {
    if log == [] then now == start
    else
      var last := log[|log| - 1];
      Does(last.before, last.act, clock, now) && Chain(start, log[..|log| - 1], clock, last.before)
  }

  ghost predicate Fits(t: Tables, limit: nat) {
    match t
    case Tables(files, _, _, _) => Sum(FileSizesOf(files)) <= limit
  }

  /** The last act was a collection at the top of a turn, and the files fit. */
  ghost predicate Stopped(log: seq<Did>, now: Kept, limit: nat) {
    match now
    case Kept(t, _) => log != [] && log[|log| - 1].act.Top? && Fits(t, limit)
  }

  /** Fewer files, or as many and fewer chunk rows. */
  ghost predicate Shrinks(before: Tables, after: Tables) {
    match after
    case Tables(files, _, chunks, _) =>
      files.Keys < before.files.Keys || (files.Keys == before.files.Keys && chunks.Keys < before.chunks.Keys)
  }

  /** The turn goes on only while the files exceed the limit: collect again after a batch that found something, else evict. */
  ghost predicate Next(a: Act, s: Kept, limit: nat, b: Act) {
    match a
    case Top(batch) => !Fits(s.t, limit) && if batch != [] then b.Top? else b.Evict?
    case Evict(_, _) => b.Tail?
    case Tail(_) => b.Top?
  }

  ghost predicate Follows(log: seq<Did>, limit: nat) {
    && (log != [] ==> log[0].act.Top?)
    && forall p: nat :: p + 1 < |log| ==> Next(log[p].act, log[p + 1].before, limit, log[p + 1].act)
  }

  /** The repositories evicted, in order. */
  function Victims(log: seq<Did>): seq<string> {
    if log == [] then []
    else
      var last := log[|log| - 1];
      Victims(log[..|log| - 1]) + if last.act.Evict? then [last.act.repo] else []
  }

  /** `b` may come next. */
  ghost predicate Due(log: seq<Did>, now: Kept, limit: nat, b: Act) {
    match now
    case Kept(_, _) => if log == [] then b.Top? else Next(log[|log| - 1].act, now, limit, b)
  }

  lemma OneMore(start: Kept, log: seq<Did>, clock: int -> int, now: Kept, limit: nat, a: Act, next: Kept)
    requires Chain(start, log, clock, now) && Follows(log, limit) && Due(log, now, limit, a) && Does(now, a, clock, next)
    ensures var more := log + [Did(now, a)];
      && Chain(start, more, clock, next) && Follows(more, limit)
      && Victims(more) == Victims(log) + if a.Evict? then [a.repo] else []
  {
    var more := log + [Did(now, a)];
    assert more[..|log|] == log;
    forall p: nat | p + 1 < |more| ensures Next(more[p].act, more[p + 1].before, limit, more[p + 1].act) {
      if p + 1 < |log| {
        assert more[p] == log[p] && more[p + 1] == log[p + 1];
      }
    }
  }

  /* ---- What a log means ---- */

  lemma {:induction false} ChainAt(start: Kept, log: seq<Did>, clock: int -> int, now: Kept, p: nat)
    requires Chain(start, log, clock, now) && p < |log|
    ensures Does(log[p].before, log[p].act, clock, if p + 1 < |log| then log[p + 1].before else now)
    ensures p == 0 ==> log[0].before == start
  {
    if p + 1 < |log| {
      var rest := log[..|log| - 1];
      ChainAt(start, rest, clock, log[|log| - 1].before, p);
    }
  }

  /** All that was collected. */
  function Gone(log: seq<Did>): set<Sha> {
    if log == [] then {} else Gone(log[..|log| - 1]) + ToSet(BatchOfAct(log[|log| - 1].act))
  }

  lemma {:induction false} GoneIsWhatLeft(start: Kept, log: seq<Did>, clock: int -> int, now: Kept)
    requires Chain(start, log, clock, now)
    ensures now.t.chunks.Keys == start.t.chunks.Keys - Gone(log)
    ensures now.blobs == start.blobs - Gone(log)
  {
    if log != [] {
      var last := log[|log| - 1];
      GoneIsWhatLeft(start, log[..|log| - 1], clock, last.before);
      match last.act
      case Evict(repo, ids) => RefCounts.DeleteFilesChunks(last.before.t, ids, clock);
      case _ => GcSpec.MinusTwice(start.blobs, Gone(log[..|log| - 1]), ToSet(BatchOfAct(last.act)));
    }
  }

  lemma {:induction false} GoneHolds(log: seq<Did>, p: nat)
    requires p < |log|
    ensures ToSet(BatchOfAct(log[p].act)) <= Gone(log)
  {
    if p + 1 < |log| {
      GoneHolds(log[..|log| - 1], p);
    }
  }

  /**
   An eviction that got somewhere began by collecting the oldest marked orphans; it evicted a repository only while the
   files exceeded the limit and when no marked orphan was left; a collection followed each; and what is gone from the
   rows and from the blobs is exactly what was collected.
   */
  lemma EvictionCollects(start: Kept, log: seq<Did>, clock: int -> int, now: Kept, limit: nat)
    requires Chain(start, log, clock, now) && Follows(log, limit) && log != [] && log[|log| - 1].act.Top?
    ensures OldestOrphans(start.t.chunks, BatchOfAct(log[0].act), 32)
    ensures forall h :: h in BatchOfAct(log[0].act) ==> h !in now.t.chunks && h !in now.blobs
    ensures forall p: nat :: p < |log| && log[p].act.Evict? ==>
      && Sum(FileSizesOf(log[p].before.t.files)) > limit
      && (forall h :: h in log[p].before.t.chunks ==> log[p].before.t.chunks[h].refCount != 0 || log[p].before.t.chunks[h].orphanedAt.None?)
      && p + 1 < |log| && log[p + 1].act.Tail? && OldestOrphans(log[p + 1].before.t.chunks, BatchOfAct(log[p + 1].act), 32)
    ensures forall h :: h in start.t.chunks ==> (h in now.t.chunks <==> h !in Gone(log))
    ensures forall h :: h in start.blobs ==> (h in now.blobs <==> h !in Gone(log))
  {
    ChainAt(start, log, clock, now, 0);
    GoneIsWhatLeft(start, log, clock, now);
    GoneHolds(log, 0);
    forall p: nat | p < |log| && log[p].act.Evict?
      ensures Sum(FileSizesOf(log[p].before.t.files)) > limit
      ensures forall h :: h in log[p].before.t.chunks ==>
        log[p].before.t.chunks[h].refCount != 0 || log[p].before.t.chunks[h].orphanedAt.None?
      ensures p + 1 < |log| && log[p + 1].act.Tail? && OldestOrphans(log[p + 1].before.t.chunks, BatchOfAct(log[p + 1].act), 32)
    {
      EvictedClean(start, log, clock, now, limit, p);
    }
  }

  lemma EvictedClean(start: Kept, log: seq<Did>, clock: int -> int, now: Kept, limit: nat, p: nat)
    requires Chain(start, log, clock, now) && Follows(log, limit) && log != [] && log[|log| - 1].act.Top?
    requires p < |log| && log[p].act.Evict?
    ensures !Fits(log[p].before.t, limit)
    ensures forall h :: h in log[p].before.t.chunks ==>
      log[p].before.t.chunks[h].refCount != 0 || log[p].before.t.chunks[h].orphanedAt.None?
    ensures p + 1 < |log| && log[p + 1].act.Tail? && OldestOrphans(log[p + 1].before.t.chunks, BatchOfAct(log[p + 1].act), BATCH)
  {
    assert p > 0 && Next(log[p - 1].act, log[p].before, limit, log[p].act);
    ChainAt(start, log, clock, now, p - 1);
    assert Next(log[p].act, log[p + 1].before, limit, log[p + 1].act);
    ChainAt(start, log, clock, now, p + 1);
  }
}
