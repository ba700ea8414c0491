/** The file session actor: it drains requests, drops closed channels, downloads one chunk a round and prefetches. */
module Actor {
  import opened Wrappers
  import opened Bytes
  import opened ChunkMath
  import opened Schedule
  import opened Delivery
  import opened ActorState
  import opened Pipeline
  import opened Ranges

  datatype Outcome = Arrived | DownloadFailed | SubscribeFailed

  /**
   What the outside does in one round: requests queued, channels closed, chunks other tasks have cached, the
   download's fate; and whether chunk `q` is cached when prefetching after the `k`-th cursor looks, `isCached(k, q)`.
   */
  datatype Turn = Turn(requests: seq<Request>, closed: set<nat>, cached: set<nat>, outcome: Outcome, isCached: (nat, nat) -> bool)

  datatype End = Idle | AllDone | Aborted

  /** Every accepted request joins, clipped; the others were refused by the handle. */
  function JoinAll(v: View, requests: seq<Request>, total: nat): View {
    if requests == [] then v
    else
      var w := JoinAll(v, requests[..|requests| - 1], total);
      var r := Resolve(requests[|requests| - 1], total);
      if r.Some? then Join(w, r.value.0, r.value.1) else w
  }

  lemma {:induction false} JoinAllSound(v: View, g: Config, requests: seq<Request>)
    requires Sound(v, g)
    ensures Sound(JoinAll(v, requests, |g.content|), g)
    ensures JoinAll(v, requests, |g.content|).done == v.done
  {
    if requests != [] {
      JoinAllSound(v, g, requests[..|requests| - 1]);
      var w := JoinAll(v, requests[..|requests| - 1], |g.content|);
      var r := Resolve(requests[|requests| - 1], |g.content|);
      if r.Some? {
        JoinSound(w, g, r.value.0, r.value.1);
      }
    }
  }

  /** The request asks for a byte the file has. */
  ghost predicate Accepted(r: Request, total: nat) {
    exists p: nat :: Asks(r, total, p)
  }

  /** Where the range of a request ends in a file of `total` bytes. */
  function EndOf(r: Request, total: nat): int {
    if r.end.Some? then Min(r.end.value, total - 1) else total - 1
  }

  /** Joining appends one subscriber for each of the requests `asks` lists, with the range it asked for. */
  ghost predicate JoinedBy(v: View, requests: seq<Request>, total: nat, w: View, asks: seq<nat>) {
    && (forall k: nat :: k < |asks| ==> asks[k] < |requests|)
    && |w.subs| == |v.subs| + |asks| && w.subs[..|v.subs|] == v.subs
    && |w.lives| == |v.lives| + |asks| && w.lives[..|v.lives|] == v.lives
    && |w.sent| == |v.sent| + |asks| && w.sent[..|v.sent|] == v.sent
    && w.completed == v.completed && w.inflight == v.inflight && w.done == v.done
    && forall k: nat :: k < |asks| ==> JoinedAs(v, requests[asks[k]], total, w, k)
  }

  ghost predicate JoinedAs(v: View, r: Request, total: nat, w: View, k: nat)
    requires |v.subs| + k < |w.subs| && |v.lives| + k < |w.lives| && |v.sent| + k < |w.sent|
  {
    && w.subs[|v.subs| + k].id == |v.lives| + k && w.sent[|v.sent| + k] == []
    && w.subs[|v.subs| + k].start == w.lives[|v.lives| + k].start == r.start
    && w.subs[|v.subs| + k].end == w.lives[|v.lives| + k].end == EndOf(r, total)
    && w.lives[|v.lives| + k].at == |v.done| && w.lives[|v.lives| + k].until == None
  }

  lemma ResolvedRange(r: Request, total: nat)
    ensures Resolve(r, total).Some? <==> Accepted(r, total)
    ensures Resolve(r, total).Some? ==> Resolve(r, total).value == (r.start, EndOf(r, total))
  {
    ResolveIsIntersection(r, total);
  }

  lemma JoinedByMore(v: View, requests: seq<Request>, total: nat, w: View, asks: seq<nat>, r: Request, end: nat)
    requires JoinedBy(v, requests, total, w, asks) && end == EndOf(r, total)
    ensures JoinedBy(v, requests + [r], total, Join(w, r.start, end), asks + [|requests|])
  {
    var more, w', asks' := requests + [r], Join(w, r.start, end), asks + [|requests|];
    forall k: nat | k < |asks'| ensures JoinedAs(v, more[asks'[k]], total, w', k) {
      if k < |asks| {
        assert JoinedAs(v, requests[asks[k]], total, w, k);
      }
    }
  }

  lemma JoinedBySkip(v: View, requests: seq<Request>, total: nat, w: View, asks: seq<nat>, r: Request)
    requires JoinedBy(v, requests, total, w, asks)
    ensures JoinedBy(v, requests + [r], total, w, asks)
  {
    forall k: nat | k < |asks| ensures JoinedAs(v, (requests + [r])[asks[k]], total, w, k) {
      assert JoinedAs(v, requests[asks[k]], total, w, k);
    }
  }

  /** Exactly the requests for bytes the file has join, in order, each with nothing sent and everything complete so far behind it. */
  lemma {:induction false} AcceptedJoin(v: View, requests: seq<Request>, total: nat) returns (asks: seq<nat>)
    ensures JoinedBy(v, requests, total, JoinAll(v, requests, total), asks)
    ensures forall i: nat, j: nat :: i < j < |asks| ==> asks[i] < asks[j]
    ensures forall i: nat :: i in asks <==> i < |requests| && Accepted(requests[i], total)
  {
    if requests == [] {
      asks := [];
    } else {
      var rest, r := requests[..|requests| - 1], requests[|requests| - 1];
      assert requests == rest + [r];
      asks := AcceptedJoin(v, rest, total);
      ResolvedRange(r, total);
      var w := JoinAll(v, rest, total);
      if Resolve(r, total).Some? {
        JoinedByMore(v, rest, total, w, asks, r, Resolve(r, total).value.1);
        asks := asks + [|rest|];
      } else {
        JoinedBySkip(v, rest, total, w, asks, r);
      }
    }
  }

  /* ---- Forwarding ---- */

  method ForwardChunk(subs: seq<Sub>, sent: seq<seq<Message>>, chunkStart: nat, data: Bytes, ghost content: Bytes, ghost c: nat)
      returns (out: seq<seq<Message>>)
    requires c > 0 && chunkStart < |content| && data == PieceAt(content, chunkStart, c)
    requires forall i: nat :: i < |subs| ==> subs[i].id < |sent| && subs[i].start <= subs[i].end < |content|
    requires forall i: nat, j: nat :: i < j < |subs| ==> subs[i].id != subs[j].id
    ensures |out| == |sent|
    ensures forall i: nat :: i < |subs| ==>
      out[subs[i].id] == sent[subs[i].id] + PartMessage(content, c, chunkStart, subs[i].start, subs[i].end)
    ensures forall id: nat :: id < |sent| && id !in Ids(subs) ==> out[id] == sent[id]
  {
    out := sent;
    var chunkEnd := chunkStart + |data| - 1;
    for i := 0 to |subs|
      invariant |out| == |sent|
      invariant forall k: nat :: k < i ==>
        out[subs[k].id] == sent[subs[k].id] + PartMessage(content, c, chunkStart, subs[k].start, subs[k].end)
      invariant forall k: nat :: i <= k < |subs| ==> out[subs[k].id] == sent[subs[k].id]
      invariant forall id: nat :: id < |sent| && id !in Ids(subs) ==> out[id] == sent[id]
    {
      var s, e, id := subs[i].start, subs[i].end, subs[i].id;
      assert id in Ids(subs) by { assert subs[i] in subs; }
      if chunkEnd < s || chunkStart > e {
        assert !Overlap(chunkStart, c, s, e);
        assert out[id] == out[id] + [];
        continue;
      }
      var from := if s > chunkStart then s - chunkStart else 0;
      var to := if e < chunkEnd then e - chunkStart + 1 else |data|;
      CutOfPiece(content, c, chunkStart, s, e);
      assert Cut(data, chunkStart, s, e) == Some(data[from..to]);
      out := out[id := out[id] + [Data(data[from..to])]];
    }
  }

  lemma ForwardedIs(v: View, g: Config, idx: nat, out: seq<seq<Message>>)
    requires LivesSound(v, g) && SubsSound(v) && |v.sent| == |v.lives| == |out|
    requires forall i: nat :: i < |v.subs| ==>
      out[v.subs[i].id] == v.sent[v.subs[i].id] + PartMessage(g.content, g.c, idx * g.c, v.subs[i].start, v.subs[i].end)
    requires forall id: nat :: id < |v.sent| && id !in Ids(v.subs) ==> out[id] == v.sent[id]
    ensures out == Forwarded(v, g, idx)
  {
    forall id: nat | id < |out| ensures out[id] == Forwarded(v, g, idx)[id] {
      if id in Ids(v.subs) {
        var s :| s in v.subs && s.id == id;
        var i: nat :| i < |v.subs| && v.subs[i] == s;
        assert v.lives[id].start == s.start && v.lives[id].end == s.end;
      }
    }
  }

  method ForwardError(subs: seq<Sub>, sent: seq<seq<Message>>) returns (out: seq<seq<Message>>)
    requires forall i: nat :: i < |subs| ==> subs[i].id < |sent|
    requires forall i: nat, j: nat :: i < j < |subs| ==> subs[i].id != subs[j].id
    ensures |out| == |sent|
    ensures forall id: nat :: id < |sent| ==> out[id] == if id in Ids(subs) then sent[id] + [Failed] else sent[id]
  {
    out := sent;
    for i := 0 to |subs|
      invariant |out| == |sent|
      invariant forall k: nat :: k < i ==> out[subs[k].id] == sent[subs[k].id] + [Failed]
      invariant forall k: nat :: i <= k < |subs| ==> out[subs[k].id] == sent[subs[k].id]
      invariant forall id: nat :: id < |sent| && id !in Ids(subs) ==> out[id] == sent[id]
    {
      assert subs[i].id in Ids(subs) by { assert subs[i] in subs; }
      out := out[subs[i].id := out[subs[i].id] + [Failed]];
    }
    forall id: nat | id < |sent| && id in Ids(subs) ensures out[id] == sent[id] + [Failed] {
      var s :| s in subs && s.id == id;
      var k: nat :| k < |subs| && subs[k] == s;
    }
  }

  /* ---- Prefetching ---- */

  function PrefetchBudget(base: nat, cursors: nat): (budget: nat)
  {
    match cursors
    case 0 => base
    case 1 => base
    case 2 => if base / 2 < 1 then 1 else base / 2
    case _ => if base / 4 < 1 then 1 else base / 4
  }

  /** The whole base for one cursor, half of it for two, a quarter for more; from two cursors on never nothing. */
  lemma BudgetShares(base: nat, n: nat)
    ensures var b := PrefetchBudget(base, n);
      && (n <= 1 ==> b == base)
      && (n == 2 ==> 2 * b <= Max(base, 2) < 2 * b + 2)
      && (n >= 3 ==> 4 * b <= Max(base, 4) < 4 * b + 4)
  {
    match n
    case 0 =>
    case 1 =>
    case 2 =>
    case _ =>
  }

  /** The first chunk of the span neither complete nor being prefetched. */
  ghost predicate NextMissing(s: Sub, completed: set<nat>, inflight: set<nat>, c: nat, count: nat, q: nat)
    requires c > 0
  {
    && Wants(s, q, c, count) && q !in completed && q !in inflight
    && forall k: nat :: First(s, c) <= k < q ==> k in completed || k in inflight
  }

  method FindNext(s: Sub, completed: set<nat>, inflight: set<nat>, c: nat, count: nat) returns (next: Option<nat>)
    requires c > 0
    ensures next.Some? ==> NextMissing(s, completed, inflight, c, count, next.value)
    ensures next.None? ==> forall q: nat :: !NextMissing(s, completed, inflight, c, count, q)
  {
    var last := Last(s, c, count);
    var idx := First(s, c);
    while idx <= last
      invariant First(s, c) <= idx
      invariant forall k: nat :: First(s, c) <= k < idx ==> k in completed || k in inflight
      decreases if idx <= last then last - idx + 1 else 0
    {
      if idx !in completed && idx !in inflight {
        return Some(idx);
      }
      idx := idx + 1;
    }
    return None;
  }

  ghost predicate Ascending(s: seq<nat>) {
    forall i: nat, j: nat :: i < j < |s| ==> s[i] < s[j]
  }

  /** Sorted insertion without duplicates. */
  method Insert(s: seq<nat>, x: nat) returns (out: seq<nat>)
    requires Ascending(s)
    ensures Ascending(out) && |out| <= |s| + 1
    ensures forall q :: q in out <==> q in s || q == x
  {
    var i := 0;
    while i < |s| && s[i] < x
      invariant i <= |s|
      invariant forall k: nat :: k < i ==> s[k] < x
    {
      i := i + 1;
    }
    if i < |s| && s[i] == x {
      return s;
    }
    out := s[..i] + [x] + s[i..];
    InsertAt(s, x, i);
  }

  lemma InsertAt(s: seq<nat>, x: nat, i: nat)
    requires Ascending(s) && i <= |s|
    requires (forall k: nat :: k < i ==> s[k] < x) && (i < |s| ==> x < s[i])
    ensures Ascending(s[..i] + [x] + s[i..])
    ensures forall q :: q in s[..i] + [x] + s[i..] <==> q in s || q == x
  {
    var out := s[..i] + [x] + s[i..];
    forall a: nat, b: nat | a < b < |out| ensures out[a] < out[b] {
      var before := if a < i then s[a] else if a == i then x else s[a - 1];
      var after := if b < i then s[b] else if b == i then x else s[b - 1];
      assert out[a] == before && out[b] == after;
    }
    assert s == s[..i] + s[i..];
  }

  method ComputeActiveCursors(subs: seq<Sub>, completed: set<nat>, inflight: set<nat>, c: nat, count: nat) returns (cursors: seq<nat>)
    requires c > 0
    ensures Ascending(cursors) && |cursors| <= |subs|
    ensures forall q: nat :: q in cursors <==> exists i: nat :: i < |subs| && NextMissing(subs[i], completed, inflight, c, count, q)
  {
    cursors := [];
    for i := 0 to |subs|
      invariant Ascending(cursors) && |cursors| <= i
      invariant forall q: nat :: q in cursors <==> exists k: nat :: k < i && NextMissing(subs[k], completed, inflight, c, count, q)
    {
      var next := FindNext(subs[i], completed, inflight, c, count);
      ghost var before := cursors;
      if next.Some? {
        cursors := Insert(cursors, next.value);
      }
      forall q: nat ensures q in cursors <==> exists k: nat :: k < i + 1 && NextMissing(subs[k], completed, inflight, c, count, q) {
        if NextMissing(subs[i], completed, inflight, c, count, q) {
          assert q == next.value;
        }
      }
    }
  }

  /** The chunks one scheduling call puts in flight: after some cursor, and not cached when that cursor's turn looked. */
  ghost predicate PutInFlight(added: set<nat>, cursors: seq<nat>, per: nat, count: nat,
                              completed: set<nat>, inflight: set<nat>, isCached: (nat, nat) -> bool) {
    forall q: nat :: q in added <==>
      q < count && q !in completed && q !in inflight &&
      exists k: nat :: k < |cursors| && cursors[k] < q <= cursors[k] + per && !isCached(k, q)
  }

  method PrefetchAfter(cursor: nat, per: nat, count: nat, completed: set<nat>, inflight: set<nat>, isCached: nat -> bool)
      returns (now: set<nat>)
    ensures forall q: nat :: q in now <==> (q in inflight ||
      (q < count && q !in completed && !isCached(q) && cursor < q <= cursor + per))
    ensures inflight <= now && |now| <= |inflight| + per
  {
    now := inflight;
    var stop := if cursor + 1 + per < count then cursor + 1 + per else count;
    var j := cursor + 1;
    while j < stop
      invariant cursor + 1 <= j && (j <= stop || j == cursor + 1)
      invariant forall q: nat :: q in now <==> (q in inflight ||
        (q < count && q !in completed && !isCached(q) && cursor < q < j))
      invariant inflight <= now && |now| <= |inflight| + (j - cursor - 1)
    {
      if !(j in completed || j in now || isCached(j)) {
        now := now + {j};
      }
      j := j + 1;
    }
  }

  /** Adds at most `max(budget, cursors)` chunks, each in range and neither complete, in flight nor cached. */
  method SchedulePrefetches(subs: seq<Sub>, completed: set<nat>, inflight: set<nat>, c: nat, count: nat, base: nat,
                             isCached: (nat, nat) -> bool)
      returns (now: set<nat>, ghost cursors: seq<nat>)
    requires c > 0
    ensures forall q: nat :: q in cursors <==> exists i: nat :: i < |subs| && NextMissing(subs[i], completed, inflight, c, count, q)
    ensures Ascending(cursors) && inflight <= now
    ensures cursors == [] ==> now == inflight
    ensures cursors != [] ==>
      PutInFlight(now - inflight, cursors, Max(PrefetchBudget(base, |cursors|) / |cursors|, 1), count, completed, inflight, isCached)
    ensures |now - inflight| <= Max(PrefetchBudget(base, |cursors|), |cursors|)
  {
    var list := ComputeActiveCursors(subs, completed, inflight, c, count);
    cursors := list;
    now := inflight;
    if list == [] {
      return;
    }
    var n := |list|;
    var budget := PrefetchBudget(base, n);
    var per: nat := if budget / n < 1 then 1 else budget / n;
    for i := 0 to n
      invariant inflight <= now && |now| <= |inflight| + i * per
      invariant forall q: nat :: q in now <==> (q in inflight ||
        (q < count && q !in completed && exists k: nat :: k < i && list[k] < q <= list[k] + per && !isCached(k, q)))
    {
      now := PrefetchAfter(list[i], per, count, completed, now, (q: nat) => isCached(i, q));
      StepsAdd(i, per);
    }
    assert |now - inflight| == |now| - |inflight| by {
      assert now == inflight + (now - inflight);
    }
    ShareBound(budget, n, per);
  }

  lemma StepsAdd(i: nat, per: nat)
    ensures (i + 1) * per == i * per + per
  {
  }

  lemma ShareBound(budget: nat, n: nat, per: nat)
    requires n > 0 && per == if budget / n < 1 then 1 else budget / n
    ensures n * per <= Max(budget, n)
  {
    assert budget == n * (budget / n) + budget % n;
  }
}
