/** Reconciliation repairs arbitrary counts and marks, and its dry run predicts it. */
module Reconciliation {
  import opened Wrappers
  import opened Schema
  import opened RefCounts

  datatype Report = Report(scanned: nat, mismatched: nat, fixed: nat, marked: nat, cleared: nat)

  function Mismatched(t: Tables): set<Sha> {
    set h | h in t.chunks && t.chunks[h].refCount != Refs(t.links, h)
  }

  function ToMark(t: Tables): set<Sha> {
    set h | h in t.chunks && Refs(t.links, h) == 0 && t.chunks[h].orphanedAt.None?
  }

  function ToClear(t: Tables): set<Sha> {
    set h | h in t.chunks && Refs(t.links, h) > 0 && t.chunks[h].orphanedAt.Some?
  }

  function ReportOf(t: Tables): Report {
    Report(|t.chunks|, |Mismatched(t)|, |Mismatched(t)|, |ToMark(t)|, |ToClear(t)|)
  }

  ghost predicate MarksMatchLinks(t: Tables) {
    forall h :: h in t.chunks ==> (t.chunks[h].orphanedAt.Some? <==> Refs(t.links, h) == 0)
  }

  /**
   From any counts and marks: counts become link counts, marks coincide with zero, files, links and recorded
   sizes stay, a chunk already correctly orphaned keeps its age, any other orphan's mark is the time of its row's
   turn, and a second pass finds nothing to do.
   */
  lemma ReconcileRepairs(t: Tables, clock: Sha -> int, later: Sha -> int)
    ensures var r := Reconcile(t, clock);
      && CountsExact(r) && MarksMatchLinks(r)
      && r.files == t.files && r.links == t.links && r.lastId == t.lastId && r.chunks.Keys == t.chunks.Keys
      && (forall h :: h in t.chunks && Refs(t.links, h) == 0 && t.chunks[h].orphanedAt.Some?
                      ==> r.chunks[h].orphanedAt == t.chunks[h].orphanedAt)
      && (forall h :: h in t.chunks && Refs(t.links, h) == 0 && t.chunks[h].orphanedAt.None? ==> r.chunks[h].orphanedAt == Some(clock(h)))
      && (forall h :: h in t.chunks ==>
            r.chunks[h].size == t.chunks[h].size && r.chunks[h].compressedSize == t.chunks[h].compressedSize)
      && ReportOf(r) == Report(|t.chunks|, 0, 0, 0, 0)
      && Reconcile(r, later) == r
  {
    var r := Reconcile(t, clock);
    assert ReportOf(r) == Report(|t.chunks|, 0, 0, 0, 0) by { RepairedReport(t, clock); }
    assert Reconcile(r, later) == r by { RepairedStays(t, clock, later); }
  }

  lemma RepairedSets(t: Tables, clock: Sha -> int)
    ensures Mismatched(Reconcile(t, clock)) == {} && ToMark(Reconcile(t, clock)) == {} && ToClear(Reconcile(t, clock)) == {}
  {
  }

  lemma RepairedReport(t: Tables, clock: Sha -> int)
    ensures ReportOf(Reconcile(t, clock)) == Report(|t.chunks|, 0, 0, 0, 0)
  {
    var r := Reconcile(t, clock);
    assert r.chunks.Keys == t.chunks.Keys;
    RepairedSets(t, clock);
    assert |r.chunks| == |r.chunks.Keys| == |t.chunks.Keys| == |t.chunks|;
  }

  lemma RepairedStays(t: Tables, clock: Sha -> int, later: Sha -> int)
    ensures Reconcile(Reconcile(t, clock), later) == Reconcile(t, clock)
  {
    assert Reconcile(Reconcile(t, clock), later).chunks == Reconcile(t, clock).chunks;
  }

  function Changed(t: Tables, clock: Sha -> int): set<Sha> {
    set h | h in t.chunks && Reconciled(t.chunks[h], Refs(t.links, h), clock(h)) != t.chunks[h]
  }

  /** The report's five numbers: the rows, and those whose count changes, whose count is fixed, that get a mark, that lose one. */
  lemma ReportIsWhatChanges(t: Tables, clock: Sha -> int)
    ensures var r, report := Reconcile(t, clock), ReportOf(t);
      && report.scanned == |t.chunks|
      && report.mismatched == report.fixed == |set h | h in t.chunks && t.chunks[h].refCount != r.chunks[h].refCount|
      && report.marked == |set h | h in t.chunks && t.chunks[h].orphanedAt.None? && r.chunks[h].orphanedAt.Some?|
      && report.cleared == |set h | h in t.chunks && t.chunks[h].orphanedAt.Some? && r.chunks[h].orphanedAt.None?|
  {
    CountedAsChanged(t, clock);
  }

  /** The report counts exactly the rows an apply run changes, and is clean exactly when it changes none. */
  lemma ReportCountsChanges(t: Tables, clock: Sha -> int)
    ensures Changed(t, clock) == Mismatched(t) + ToMark(t) + ToClear(t) && ToMark(t) !! ToClear(t)
    ensures Reconcile(t, clock) == t <==> Changed(t, clock) == {}
    ensures ReportOf(t) == Report(|t.chunks|, 0, 0, 0, 0) <==> Changed(t, clock) == {}
  {
    NothingChanged(t, clock);
    if Changed(t, clock) == {} {
      assert Mismatched(t) == {} && ToMark(t) == {} && ToClear(t) == {};
    }
  }

  lemma CountedAsChanged(t: Tables, clock: Sha -> int)
    ensures var r := Reconcile(t, clock);
      && Mismatched(t) == (set h | h in t.chunks && t.chunks[h].refCount != r.chunks[h].refCount)
      && ToMark(t) == (set h | h in t.chunks && t.chunks[h].orphanedAt.None? && r.chunks[h].orphanedAt.Some?)
      && ToClear(t) == (set h | h in t.chunks && t.chunks[h].orphanedAt.Some? && r.chunks[h].orphanedAt.None?)
  {
  }

  lemma NothingChanged(t: Tables, clock: Sha -> int)
    ensures Reconcile(t, clock) == t <==> Changed(t, clock) == {}
  {
    var r := Reconcile(t, clock);
    if Changed(t, clock) == {} {
      forall h | h in t.chunks ensures r.chunks[h] == t.chunks[h] {
        assert h !in Changed(t, clock);
      }
      assert r.chunks == t.chunks;
    } else {
      var h :| h in Changed(t, clock);
      assert r.chunks[h] != t.chunks[h];
    }
  }

  /** Reconciling makes a store whose rows were never dangling fully consistent. */
  lemma ReconcileMakesConsistent(t: Tables, clock: Sha -> int)
    requires NoDangling(t) && KeysSound(t)
    ensures Consistent(Reconcile(t, clock))
    ensures ZeroIsMarked(Reconcile(t, clock))
  {
    ReconcileRepairs(t, clock, clock);
  }
}
