/** When the order in which a session completes chunks is in order for every subscriber. */
module InOrder {
  import opened Wrappers
  import opened Schedule
  import opened Seqs

  /** Every completed chunk of `first..last` came after all chunks of the span before it. */
  ghost predicate Ordered(done: seq<nat>, first: nat, last: nat) {
    forall t: nat, k: nat :: t < |done| && first <= done[t] <= last && first <= k < done[t] ==> k in done[..t]
  }

  /* ---- Subscribers that join at any time ---- */

  /** A chunk span, live from `at` completions on until `until` of them, if it left. */
  datatype Stay = Stay(first: nat, last: nat, at: nat, until: Option<nat>)

  predicate Present(s: Stay, t: nat) {
    s.at <= t && (s.until.None? || t < s.until.value)
  }

  /** Each completion was the next missing chunk of someone present. */
  ghost predicate Driven(done: seq<nat>, stays: seq<Stay>) {
    forall t: nat :: t < |done| ==> HasDriver(done, stays, t)
  }

  ghost predicate HasDriver(done: seq<nat>, stays: seq<Stay>, t: nat)
    requires t < |done|
  {
    exists d: nat :: DrivenBy(done, stays, t, d)
  }

  ghost predicate DrivenBy(done: seq<nat>, stays: seq<Stay>, t: nat, d: nat)
    requires t < |done|
  {
    && d < |stays| && Present(stays[d], t)
    && stays[d].first <= done[t] <= stays[d].last
    && forall k: nat :: stays[d].first <= k < done[t] ==> k in done[..t]
  }

  /** Nothing of its span was complete when it joined. */
  ghost predicate JoinedEarly(done: seq<nat>, s: Stay) {
    s.at <= |done| && forall k :: s.first <= k <= s.last ==> k !in done[..s.at]
  }

  predicate Compatible(a: Stay, b: Stay) {
    a.last < b.first || b.last < a.first || a.first == b.first
  }

  /** Spans that are disjoint or start together are each served in order, whenever they join and leave. */
  lemma CompatibleSpansInOrder(done: seq<nat>, stays: seq<Stay>, j: nat)
    requires Driven(done, stays) && j < |stays|
    requires forall i :: 0 <= i < |stays| ==> Compatible(stays[i], stays[j])
    ensures Ordered(done, stays[j].first, stays[j].last)
  {
    var s := stays[j];
    forall t: nat, k: nat | t < |done| && s.first <= done[t] <= s.last && s.first <= k < done[t]
      ensures k in done[..t]
    {
      assert HasDriver(done, stays, t);
      var d: nat :| DrivenBy(done, stays, t, d);
      assert Compatible(stays[d], s);
    }
  }

  /* ---- A fixed list of subscribers: exactly when all are served in order ---- */

  /** The first chunks of the subscribers in joining order, each once. */
  function Firsts(subs: seq<Sub>, c: nat): seq<nat>
    requires c > 0
  {
    if subs == [] then []
    else
      var rest, f := Firsts(subs[..|subs| - 1], c), First(subs[|subs| - 1], c);
      if f in rest then rest else rest + [f]
  }

  /** Each completion is what the schedule selects after the ones before it. */
  ghost predicate Scheduled(subs: seq<Sub>, done: seq<nat>, c: nat, count: nat, u: Urgency)
    requires c > 0
  {
    forall t: nat :: t < |done| ==> Picked(subs, done, c, count, u, t)
  }

  ghost predicate Picked(subs: seq<Sub>, done: seq<nat>, c: nat, count: nat, u: Urgency, t: nat)
    requires c > 0 && t < |done|
  {
    exists i: nat :: Selected(subs, ToSet(done[..t]), c, count, u, i, done[t])
  }

  ghost predicate AllServed(subs: seq<Sub>, done: seq<nat>, c: nat, count: nat)
    requires c > 0
  {
    forall i: nat, k: nat :: i < |subs| && Wants(subs[i], k, c, count) ==> k in done
  }

  ghost predicate SpansSound(subs: seq<Sub>, c: nat, count: nat)
    requires c > 0
  {
    forall i: nat :: i < |subs| ==> First(subs[i], c) <= Last(subs[i], c, count)
  }

  lemma {:induction false} FirstsHoldAll(subs: seq<Sub>, c: nat)
    requires c > 0
    ensures forall i :: 0 <= i < |subs| ==> First(subs[i], c) in Firsts(subs, c)
    ensures forall f :: f in Firsts(subs, c) ==> exists i :: 0 <= i < |subs| && First(subs[i], c) == f
    ensures Distinct(Firsts(subs, c))
  {
    if subs != [] {
      var rest := subs[..|subs| - 1];
      FirstsHoldAll(rest, c);
      assert forall i :: 0 <= i < |rest| ==> rest[i] == subs[i];
    }
  }

  /** `i` is the earliest subscriber whose first chunk is not in `seen`. */
  ghost predicate Earliest(subs: seq<Sub>, c: nat, seen: seq<nat>, i: nat)
    requires c > 0
  {
    && i < |subs| && First(subs[i], c) !in seen
    && forall j :: 0 <= j < i ==> First(subs[j], c) in seen
  }

  lemma {:induction false} FirstsInTurn(subs: seq<Sub>, c: nat, t: nat) returns (i: nat)
    requires c > 0 && t < |Firsts(subs, c)|
    ensures Earliest(subs, c, Firsts(subs, c)[..t], i) && First(subs[i], c) == Firsts(subs, c)[t]
  {
    var rest, f := subs[..|subs| - 1], First(subs[|subs| - 1], c);
    var all, part := Firsts(subs, c), Firsts(rest, c);
    assert forall j :: 0 <= j < |rest| ==> rest[j] == subs[j];
    if t < |part| {
      i := FirstsInTurn(rest, c, t);
      assert all[..t] == part[..t];
    } else {
      i := |subs| - 1;
      FirstsHoldAll(rest, c);
      assert all == part + [f] && all[..t] == part;
    }
  }

  /** While a first chunk is missing, the schedule takes the first chunk of the earliest subscriber lacking it. */
  lemma MissingFirstIsSelected(subs: seq<Sub>, completed: set<nat>, seen: seq<nat>, c: nat, count: nat, u: Urgency,
                               e: nat, i: nat, idx: nat)
    requires c > 0 && Admissible(u) && SpansSound(subs, c, count) && completed == ToSet(seen)
    requires Earliest(subs, c, seen, e) && Selected(subs, completed, c, count, u, i, idx)
    ensures i == e && idx == First(subs[e], c)
  {
    var f := First(subs[e], c);
    ZeroOnlyAtFirst(subs[e], f, c);
    ZeroOnlyAtFirst(subs[i], idx, c);
    assert Candidate(subs, completed, c, count, e, f);
    assert Beats(subs, c, u, i, idx, e, f);
    assert UrgencyOf(u, subs[e], f, c) == 0.0;
    assert UrgencyOf(u, subs[i], idx, c) == 0.0;
  }

  /** So a run begins with the first chunks, in joining order. */
  lemma {:induction false} FirstsComeFirst(subs: seq<Sub>, done: seq<nat>, c: nat, count: nat, u: Urgency, t: nat)
    requires c > 0 && Admissible(u) && SpansSound(subs, c, count) && Scheduled(subs, done, c, count, u)
    requires t <= |done| && t <= |Firsts(subs, c)|
    ensures done[..t] == Firsts(subs, c)[..t]
  {
    if t > 0 {
      FirstsComeFirst(subs, done, c, count, u, t - 1);
      var seen := done[..t - 1];
      var e := FirstsInTurn(subs, c, t - 1);
      assert Picked(subs, done, c, count, u, t - 1);
      var i: nat :| Selected(subs, ToSet(seen), c, count, u, i, done[t - 1]);
      MissingFirstIsSelected(subs, ToSet(seen), seen, c, count, u, e, i, done[t - 1]);
      assert done[..t] == seen + [done[t - 1]];
      assert Firsts(subs, c)[..t] == Firsts(subs, c)[..t - 1] + [Firsts(subs, c)[t - 1]];
    }
  }

  lemma ServedCoversFirsts(subs: seq<Sub>, done: seq<nat>, c: nat, count: nat, u: Urgency)
    requires c > 0 && Admissible(u) && SpansSound(subs, c, count) && Scheduled(subs, done, c, count, u)
    requires AllServed(subs, done, c, count)
    ensures |Firsts(subs, c)| <= |done|
  {
    if |done| < |Firsts(subs, c)| {
      FirstsComeFirst(subs, done, c, count, u, |done|);
      var e := FirstsInTurn(subs, c, |done|);
      assert done[..|done|] == done;
      assert Wants(subs[e], First(subs[e], c), c, count);
    }
  }

  /** Once all first chunks are done, order follows from their order. */
  lemma OrderedAfterFirsts(subs: seq<Sub>, done: seq<nat>, c: nat, count: nat, u: Urgency, firsts: seq<nat>,
                           first: nat, last: nat, i: nat, t: nat, k: nat)
    requires c > 0 && Admissible(u) && t < |done|
    requires |firsts| <= t && done[..|firsts|] == firsts && Ordered(firsts, first, last)
    requires Selected(subs, ToSet(done[..t]), c, count, u, i, done[t]) && First(subs[i], c) in firsts
    requires first <= done[t] <= last && first <= k < done[t]
    ensures k in done[..t]
  {
    var f := First(subs[i], c);
    if k < f {
      BelowInFirsts(firsts, first, last, f, k);
      var p :| 0 <= p < |firsts| && firsts[p] == k;
      assert done[..t][p] == done[..|firsts|][p];
    } else {
      SelectedIsNext(subs, ToSet(done[..t]), c, count, u, i, done[t]);
      assert k in ToSet(done[..t]);
    }
  }

  lemma BelowInFirsts(firsts: seq<nat>, first: nat, last: nat, f: nat, k: nat)
    requires Ordered(firsts, first, last) && f in firsts && first <= k < f <= last
    ensures k in firsts
  {
    var p: nat :| p < |firsts| && firsts[p] == f;
    assert k in firsts[..p];
  }

  /**
   For subscribers that are all there from the start: one gets its chunks in order exactly when the first
   chunks of all, taken in joining order, are in order within its span.
   */
  lemma InOrderExactlyWhenFirstsAre(subs: seq<Sub>, done: seq<nat>, c: nat, count: nat, u: Urgency, j: nat)
    requires c > 0 && Admissible(u) && SpansSound(subs, c, count) && j < |subs|
    requires Scheduled(subs, done, c, count, u) && AllServed(subs, done, c, count)
    ensures Ordered(done, First(subs[j], c), Last(subs[j], c, count))
       <==> Ordered(Firsts(subs, c), First(subs[j], c), Last(subs[j], c, count))
  {
    var firsts := Firsts(subs, c);
    ServedCoversFirsts(subs, done, c, count, u);
    FirstsComeFirst(subs, done, c, count, u, |firsts|);
    assert firsts[..|firsts|] == firsts;
    PrefixOrdered(done, firsts, First(subs[j], c), Last(subs[j], c, count));
    if Ordered(firsts, First(subs[j], c), Last(subs[j], c, count)) {
      RestOrdered(subs, done, c, count, u, j);
    }
  }

  lemma PrefixOrdered(done: seq<nat>, firsts: seq<nat>, first: nat, last: nat)
    requires |firsts| <= |done| && done[..|firsts|] == firsts
    ensures Ordered(done, first, last) ==> Ordered(firsts, first, last)
  {
    if Ordered(done, first, last) {
      forall t: nat, k: nat | t < |firsts| && first <= firsts[t] <= last && first <= k < firsts[t] ensures k in firsts[..t] {
        assert done[t] == firsts[t] && done[..t] == firsts[..t];
      }
    }
  }

  lemma RestOrdered(subs: seq<Sub>, done: seq<nat>, c: nat, count: nat, u: Urgency, j: nat)
    requires c > 0 && Admissible(u) && SpansSound(subs, c, count) && Scheduled(subs, done, c, count, u)
    requires j < |subs| && |Firsts(subs, c)| <= |done|
    requires Ordered(Firsts(subs, c), First(subs[j], c), Last(subs[j], c, count))
    ensures Ordered(done, First(subs[j], c), Last(subs[j], c, count))
  {
    var firsts, first, last := Firsts(subs, c), First(subs[j], c), Last(subs[j], c, count);
    FirstsComeFirst(subs, done, c, count, u, |firsts|);
    forall t: nat, k: nat | t < |done| && first <= done[t] <= last && first <= k < done[t] ensures k in done[..t] {
      if t < |firsts| {
        assert done[t] == done[..|firsts|][t] == firsts[t];
        assert done[..t] == firsts[..t];
      } else {
        assert Picked(subs, done, c, count, u, t);
        var i: nat :| Selected(subs, ToSet(done[..t]), c, count, u, i, done[t]);
        assert First(subs[i], c) in firsts by { FirstsHoldAll(subs, c); }
        OrderedAfterFirsts(subs, done, c, count, u, firsts, first, last, i, t, k);
      }
    }
  }

  /* ---- An arrangement that is not in order ---- */

  /** A whole-file reader and one that starts at chunk 2, over a file of three one-byte chunks. */
  const OVERLAPPING := [Sub(0, 0, 2), Sub(1, 2, 2)]

  lemma OverlapCandidate(completed: set<nat>, i: nat, idx: nat)
    ensures Candidate(OVERLAPPING, completed, 1, 3, i, idx) <==> idx !in completed && ((i == 0 && idx <= 2) || (i == 1 && idx == 2))
  {
  }

  lemma OverlapSelects(completed: set<nat>, u: Urgency, i: nat, idx: nat)
    requires Admissible(u)
    requires (completed == {} && i == 0 && idx == 0) || (completed == {0} && i == 1 && idx == 2) ||
             (completed == {0, 2} && i == 0 && idx == 1)
    ensures Selected(OVERLAPPING, completed, 1, 3, u, i, idx)
  {
    OverlapCandidate(completed, i, idx);
    forall j: nat, k: nat | Candidate(OVERLAPPING, completed, 1, 3, j, k) ensures Beats(OVERLAPPING, 1, u, i, idx, j, k) {
      OverlapCandidate(completed, j, k);
    }
  }

  /** The first chunk asked for by the late starter is completed before the middle one: the schedule's run is 0, 2, 1. */
  lemma OverlapRun(u: Urgency)
    requires Admissible(u)
    ensures Scheduled(OVERLAPPING, [0, 2, 1], 1, 3, u) && AllServed(OVERLAPPING, [0, 2, 1], 1, 3)
  {
    var done := [0, 2, 1];
    assert done[..0] == [] && done[..1] == [0] && done[..2] == [0, 2];
    OverlapSelects({}, u, 0, 0);
    OverlapSelects({0}, u, 1, 2);
    OverlapSelects({0, 2}, u, 0, 1);
    forall t: nat | t < |done| ensures Picked(OVERLAPPING, done, 1, 3, u, t) {
      assert ToSet(done[..0]) == {} && ToSet(done[..1]) == {0} && ToSet(done[..2]) == {0, 2};
      assert Selected(OVERLAPPING, ToSet(done[..t]), 1, 3, u, if t == 1 then 1 else 0, done[t]);
    }
  }

  /** It is out of order for the whole-file reader, and in order for the other. */
  lemma OverlapBreaksOrder(u: Urgency)
    requires Admissible(u)
    ensures Scheduled(OVERLAPPING, [0, 2, 1], 1, 3, u) && AllServed(OVERLAPPING, [0, 2, 1], 1, 3)
    ensures !Ordered([0, 2, 1], First(OVERLAPPING[0], 1), Last(OVERLAPPING[0], 1, 3))
    ensures Ordered([0, 2, 1], First(OVERLAPPING[1], 1), Last(OVERLAPPING[1], 1, 3))
  {
    OverlapRun(u);
    var done := [0, 2, 1];
    assert done[1] == 2 && 1 !in done[..1];
  }
}
