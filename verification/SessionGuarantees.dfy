/** What a whole run of a file session amounts to for its subscribers. */
module SessionGuarantees {
  import opened Wrappers
  import opened Bytes
  import opened ChunkMath
  import opened Schedule
  import opened InOrder
  import opened Delivery
  import opened ActorState
  import opened FileSession
  import opened Actor
  import opened Ranges
  import opened Seqs
  import Positions

  lemma SpanDone(v: View, g: Config, id: nat)
    requires Sound(v, g) && NothingLeft(v, g) && id < |v.lives| && v.lives[id].until.None?
    ensures forall q: nat :: v.lives[id].start / g.c <= q <= v.lives[id].end / g.c ==> q in v.done
  {
    var l := v.lives[id];
    assert HasSub(v.subs, id);
    var i: nat :| i < |v.subs| && v.subs[i].id == id;
    forall q: nat | l.start / g.c <= q <= l.end / g.c ensures q in v.done {
      WantsIsSpan(g, l.start, l.end, id, q);
      assert v.subs[i] == Sub(id, l.start, l.end);
      assert !Candidate(v.subs, v.completed, g.c, g.count, i, q);
    }
  }

  /* ---- Any joins ---- */

  lemma Apart(x: seq<nat>, y: seq<nat>)
    requires Distinct(x + y)
    ensures forall q :: q in x ==> q !in y
  {
    forall i, j | 0 <= i < |x| && 0 <= j < |y| ensures x[i] != y[j] {
      assert (x + y)[i] == x[i] && (x + y)[|x| + j] == y[j];
    }
  }

  lemma SplitDone(done: seq<nat>, a: nat, b: nat)
    requires a <= b <= |done| && Distinct(done)
    ensures Distinct(done[a..b])
    ensures forall q :: q in done[a..b] <==> q in done[..b] && q !in done[..a]
  {
    assert done[..b] == done[..a] + done[a..b];
    Apart(done[..a], done[a..b]);
  }

  /**
   However subscribers come and go: each chunk reaches a channel at most once, and the chunks of a live
   channel's span it never gets are, at the end, exactly the ones completed before it joined.
   */
  lemma ExactAccounting(v: View, g: Config, id: nat)
    requires Sound(v, g) && id < |v.lives|
    ensures var l := v.lives[id];
      && v.sent[id] == Messages(g.content, g.c, Seen(v.done, l), l.start, l.end)
      && Distinct(Seen(v.done, l))
      && (forall q :: q in Seen(v.done, l) ==> q !in v.done[..l.at])
      && (l.until.None? && NothingLeft(v, g) ==>
            forall q: nat :: l.start / g.c <= q <= l.end / g.c ==> (q !in Seen(v.done, l) <==> q in v.done[..l.at]))
  {
    var l := v.lives[id];
    SplitDone(v.done, l.at, Upto(l, |v.done|));
    if l.until.None? && NothingLeft(v, g) {
      SpanDone(v, g, id);
      assert v.done[..|v.done|] == v.done;
    }
  }

  /* ---- Bytes, by position ---- */

  /** A channel that got `sent` for `window`, against the chunks `before` it: each missing position, and no other, lies in one of those. */
  ghost predicate Accounted(content: Bytes, c: nat, window: seq<nat>, before: seq<nat>, start: nat, end: nat, sent: seq<Message>) {
    var ps := Positions.Sent(c, window, start, end);
    && c > 0 && start <= end < |content| && Positions.InRange(ps, start, end)
    && Joined(sent) == Positions.BytesAt(content, ps) && Distinct(ps)
    && forall p: nat :: start <= p <= end ==> (p in ps <==> p / c !in before)
  }

  lemma WindowAccounted(content: Bytes, c: nat, window: seq<nat>, before: seq<nat>, start: nat, end: nat, first: nat, last: nat,
                        sent: seq<Message>)
    requires end < |content| && Grid(c, start, end, first, last) && Distinct(window)
    requires forall q: nat :: first <= q <= last ==> (q in window <==> q !in before)
    requires sent == Messages(content, c, window, start, end)
    ensures Accounted(content, c, window, before, start, end, sent)
  {
    Positions.SentAreBytesAt(content, c, window, start, end);
    Positions.SentDistinct(c, window, start, end);
    forall p: nat | start <= p <= end
      ensures p in Positions.Sent(c, window, start, end) <==> p / c !in before
    {
      Positions.SentHolds(c, window, start, end, p);
      ChunkInSpan(c, start, end, first, last, p);
    }
  }

  lemma ChunkInSpan(c: nat, start: nat, end: nat, first: nat, last: nat, p: nat)
    requires Grid(c, start, end, first, last) && start <= p <= end
    ensures first <= p / c <= last
  {
    NotLater(start, p, c);
    NotLater(p, end, c);
  }

  lemma NotLater(p: nat, q: nat, c: nat)
    requires c > 0 && p <= q
    ensures p / c <= q / c
  {
    ChunkOfByte(p, p / c, c);
    ChunkOfByte(q, q / c, c);
    if q / c < p / c {
      Product(q / c, p / c, c);
    }
  }

  lemma WindowOf(v: View, g: Config, id: nat) returns (first: nat, last: nat)
    requires Sound(v, g) && NothingLeft(v, g) && id < |v.lives| && v.lives[id].until.None?
    ensures var l := v.lives[id];
      && l.end < |g.content| && Grid(g.c, l.start, l.end, first, last)
      && l.at <= |v.done| == Upto(l, |v.done|) && Distinct(Seen(v.done, l))
      && v.sent[id] == Messages(g.content, g.c, Seen(v.done, l), l.start, l.end)
      && (forall q: nat :: first <= q <= last ==> (q in Seen(v.done, l) <==> q !in v.done[..l.at]))
      && StayOf(l, g.c) == Stay(first, last, l.at, l.until)
  {
    first, last := v.lives[id].start / g.c, v.lives[id].end / g.c;
    ExactAccounting(v, g, id);
  }

  /**
   When nothing is left, a live channel has been sent every position of its range exactly once, but for the
   positions in chunks completed before it joined.
   */
  lemma BytesAccountedFor(v: View, g: Config, id: nat)
    requires Sound(v, g) && NothingLeft(v, g) && id < |v.lives| && v.lives[id].until.None?
    ensures var l := v.lives[id];
      Accounted(g.content, g.c, Seen(v.done, l), v.done[..l.at], l.start, l.end, v.sent[id])
  {
    var l := v.lives[id];
    var first, last := WindowOf(v, g, id);
    WindowAccounted(g.content, g.c, Seen(v.done, l), v.done[..l.at], l.start, l.end, first, last, v.sent[id]);
  }

  lemma FullExactlyWhenNoneBefore(content: Bytes, c: nat, window: seq<nat>, before: seq<nat>, start: nat, end: nat, first: nat, last: nat,
                                  sent: seq<Message>)
    requires Accounted(content, c, window, before, start, end, sent) && Grid(c, start, end, first, last)
    ensures |Joined(sent)| == end + 1 - start <==> forall q :: first <= q <= last ==> q !in before
  {
    var ps := Positions.Sent(c, window, start, end);
    Positions.FullExactlyWhenAll(ps, start, end);
    forall p: nat | start <= p <= end ensures first <= p / c <= last {
      ChunkInSpan(c, start, end, first, last, p);
    }
    if forall p: nat :: start <= p <= end ==> p in ps {
      forall q | first <= q <= last ensures q !in before {
        var p := ByteOfChunk(c, start, end, first, last, q);
      }
    }
  }

  lemma ByteOfChunk(c: nat, start: nat, end: nat, first: nat, last: nat, q: nat) returns (p: nat)
    requires Grid(c, start, end, first, last) && first <= q <= last
    ensures start <= p <= end && p / c == q
  {
    p := Max(start, q * c);
    ChunkOfByte(start, first, c);
    ChunkOfByte(end, last, c);
    if first < q { Product(first, q, c); }
    if q < last { Product(q, last, c); }
    ChunkOfByte(p, q, c);
  }

  /** A live channel has been sent as many bytes as it asked for exactly when none of its chunks was complete at its joining. */
  lemma ServedInFullExactlyWhenEarly(v: View, g: Config, id: nat)
    requires Sound(v, g) && NothingLeft(v, g) && id < |v.lives| && v.lives[id].until.None?
    ensures |Joined(v.sent[id])| == v.lives[id].end + 1 - v.lives[id].start <==> JoinedEarly(v.done, StayOf(v.lives[id], g.c))
  {
    var l := v.lives[id];
    var first, last := WindowOf(v, g, id);
    BytesAccountedFor(v, g, id);
    FullExactlyWhenNoneBefore(g.content, g.c, Seen(v.done, l), v.done[..l.at], l.start, l.end, first, last, v.sent[id]);
  }

  /* ---- A run with a late subscriber ---- */

  /** Someone asks for the whole file in every round, and downloads succeed. */
  function AskAgain(): nat -> Turn {
    (i: nat) => Turn([Request(0, None)], {}, {}, Arrived, (k: nat, q: nat) => false)
  }

  lemma AskJoins(v: View)
    requires v.inflight == {}
    ensures Started(v, AskAgain()(0), 1) == Join(v, 0, 0)
  {
    var turn := AskAgain()(0);
    assert turn.requests[..0] == [];
    assert JoinAll(v, turn.requests, 1) == Join(JoinAll(v, [], 1), 0, 0);
    NoneLeave(Join(v, 0, 0));
  }

  lemma {:induction false} KeepAll(subs: seq<Sub>)
    ensures KeepOpen(subs, {}) == subs
  {
    if subs != [] {
      KeepAll(subs[..|subs| - 1]);
    }
  }

  lemma NoneLeave(v: View)
    ensures Clean(v, {}) == v
  {
    KeepAll(v.subs);
    assert Clean(v, {}).lives == v.lives;
  }

  predicate OneByte(g: Config) {
    |g.content| == 1 && g.c == 1 && g.count == 1
  }

  /** The first round, which serves the only chunk. */
  function FirstRound(): Round {
    Round(FRESH, Join(FRESH, 0, 0), {}, 0)
  }

  ghost function AfterFirst(g: Config): View
    requires OneByte(g)
  {
    Complete(Join(FRESH, 0, 0), g, 0)
  }

  /** The second round, which finds nothing left. */
  ghost function SecondRound(g: Config): Round
    requires OneByte(g)
  {
    Round(AfterFirst(g), Join(AfterFirst(g), 0, 0), {}, 0)
  }

  lemma FirstRoundRuns(g: Config)
    requires ConfigOk(g) && OneByte(g)
    ensures RunsTo([FirstRound()], g, AskAgain(), FirstRound())
  {
    FreshSound(g);
    JoinSound(FRESH, g, 0, 0);
    AskJoins(FRESH);
    RoundBegins([], g, AskAgain(), FirstRound());
    Displays(FirstRound(), FirstRound());
  }

  lemma FirstRoundLeaves(g: Config)
    requires ConfigOk(g) && OneByte(g)
    ensures Leaves(FirstRound(), g, AskAgain()(0), AfterFirst(g)) && Sound(AfterFirst(g), g)
  {
    var v := Join(FRESH, 0, 0);
    FreshSound(g);
    JoinSound(FRESH, g, 0, 0);
    assert v.subs == [Sub(0, 0, 0)] && v.(inflight := v.inflight - {0}) == v;
    assert Candidate(v.subs, v.completed, 1, 1, 0, 0);
    assert Selected(v.subs, v.completed, 1, 1, g.u, 0, 0);
    CompleteSound(v, g, 0, 0);
    FirstRoundEnds(g);
  }

  lemma FirstRoundEnds(g: Config)
    requires OneByte(g) && LivesSound(Join(FRESH, 0, 0), g)
    ensures Ended(Join(FRESH, 0, 0), 0, g, AskAgain()(0), AfterFirst(g))
  {
    var v := Join(FRESH, 0, 0);
    assert v.(inflight := v.inflight - {0}) == v;
    assert PrefetchedFor(AfterFirst(g), g, AskAgain()(0).isCached, {}, []);
  }

  /** A run of two rounds in which the second subscriber asks for the byte the first was sent, and is sent nothing. */
  lemma LateSubscriberGetsNothing(b: bv8, u: Urgency)
    requires Admissible(u)
    ensures var g := Config([b], 1, 1, u, 0);
      var last := SecondRound(g);
      && RunsTo([FirstRound(), last], g, AskAgain(), last) && LeftAs(AllDone, last.v, g, AskAgain()(1), last.v.sent)
      && last.v.lives[1] == Life(0, 0, 1, None) && last.v.sent[1] == []
  {
    var g := Config([b], 1, 1, u, 0);
    SecondRoundRuns(g);
    OneByteLate(g);
  }

  lemma Displays<T>(x: T, y: T)
    ensures [] + [x] == [x] && [x] + [y] == [x, y]
  {
  }

  lemma OneByteLate(g: Config)
    requires OneByte(g)
    ensures var v := SecondRound(g).v;
      NothingLeft(v, g) && v.subs != [] && |v.lives| == |v.sent| == 2 && v.lives[1] == Life(0, 0, 1, None) && v.sent[1] == []
  {
    var v := SecondRound(g).v;
    assert v.subs == [Sub(0, 0, 0), Sub(1, 0, 0)] && v.completed == {0};
  }

  lemma SecondRoundRuns(g: Config)
    requires ConfigOk(g) && OneByte(g)
    ensures RunsTo([FirstRound(), SecondRound(g)], g, AskAgain(), SecondRound(g))
  {
    var r0, r1 := FirstRound(), SecondRound(g);
    FirstRoundRuns(g);
    FirstRoundLeaves(g);
    RoundCompletes([r0], g, AskAgain(), r0, AfterFirst(g));
    AskJoins(AfterFirst(g));
    JoinSound(AfterFirst(g), g, 0, 0);
    RoundBegins([r0], g, AskAgain(), r1);
    Displays(r0, r1);
  }

  /* ---- Order ---- */

  /** It joined before any of its chunks completed, and every span is disjoint from its own or starts with it. */
  ghost predicate WellPlaced(v: View, g: Config, id: nat)
    requires g.c > 0 && id < |v.lives|
  {
    && JoinedEarly(v.done, StayOf(v.lives[id], g.c))
    && forall k: nat :: k < |v.lives| ==> Compatible(StayOf(v.lives[k], g.c), StayOf(v.lives[id], g.c))
  }

  /** A well-placed channel has at every moment been sent a prefix of its range, and all of it once nothing is left. */
  lemma InOrderRun(v: View, g: Config, id: nat)
    requires Sound(v, g) && id < |v.lives| && WellPlaced(v, g, id)
    ensures var l := v.lives[id];
      && Joined(v.sent[id]) <= g.content[l.start..l.end + 1]
      && (l.until.None? && NothingLeft(v, g) ==> Joined(v.sent[id]) == g.content[l.start..l.end + 1])
  {
    var l, stays := v.lives[id], Stays(v.lives, g.c);
    forall k | 0 <= k < |stays| ensures Compatible(stays[k], stays[id]) {
      assert Compatible(StayOf(v.lives[k], g.c), StayOf(v.lives[id], g.c));
    }
    CompatibleSpansInOrder(v.done, stays, id);
    OrderedRun(v, g, id);
  }

  lemma OrderedRun(v: View, g: Config, id: nat)
    requires Sound(v, g) && id < |v.lives| && JoinedEarly(v.done, StayOf(v.lives[id], g.c))
    requires Ordered(v.done, v.lives[id].start / g.c, v.lives[id].end / g.c)
    ensures var l := v.lives[id];
      && Joined(v.sent[id]) <= g.content[l.start..l.end + 1]
      && (l.until.None? && NothingLeft(v, g) ==> Joined(v.sent[id]) == g.content[l.start..l.end + 1])
  {
    var l := v.lives[id];
    var first, last := OrderedSpan(v, g, id);
    InOrderDelivery(g.content, g.c, v.done, l.at, Upto(l, |v.done|), l.start, l.end, first, last);
    assert v.done[..|v.done|] == v.done;
  }

  lemma OrderedSpan(v: View, g: Config, id: nat) returns (first: nat, last: nat)
    requires Sound(v, g) && id < |v.lives| && JoinedEarly(v.done, StayOf(v.lives[id], g.c))
    requires Ordered(v.done, v.lives[id].start / g.c, v.lives[id].end / g.c)
    ensures var l := v.lives[id];
      && l.end < |g.content| && Grid(g.c, l.start, l.end, first, last) && Distinct(v.done)
      && l.at <= Upto(l, |v.done|) <= |v.done|
      && v.sent[id] == Messages(g.content, g.c, v.done[l.at..Upto(l, |v.done|)], l.start, l.end)
      && Ordered(v.done, first, last) && JoinedEarly(v.done, Stay(first, last, l.at, None))
      && (l.until.None? && NothingLeft(v, g) ==> forall q: nat :: first <= q <= last ==> q in v.done)
  {
    first, last := v.lives[id].start / g.c, v.lives[id].end / g.c;
    if v.lives[id].until.None? && NothingLeft(v, g) {
      SpanDone(v, g, id);
    }
  }

  /* ---- Everyone there from the start ---- */

  /** The same subscribers in every round, and a last round that found nothing left. */
  ghost predicate Steady(trace: seq<Round>, done: seq<nat>, g: Config, subs: seq<Sub>) {
    && g.c > 0 && RoundsSelect(trace, done, g) && RoundsClean(trace, g)
    && |trace| == |done| + 1 && trace[|done|].v.done == done && NothingLeft(trace[|done|].v, g)
    && forall t: nat :: t < |trace| ==> trace[t].v.subs == subs
  }

  lemma SteadyIsScheduled(trace: seq<Round>, done: seq<nat>, g: Config, subs: seq<Sub>)
    requires Steady(trace, done, g, subs)
    ensures ConfigOk(g) && SpansSound(subs, g.c, g.count)
    ensures InOrder.Scheduled(subs, done, g.c, g.count, g.u) && AllServed(subs, done, g.c, g.count)
  {
    var v := trace[|done|].v;
    assert CleanRound(trace[|done|], g);
    forall t: nat | t < |done| ensures Picked(subs, done, g.c, g.count, g.u, t) {
      assert RoundSelects(trace[t], done, g, t) && CleanRound(trace[t], g);
      RoundIsScheduled(trace[t], done, g, t);
    }
    SubsSpan(v, g);
    AllDoneServed(v, g);
  }

  lemma RoundIsScheduled(r: Round, done: seq<nat>, g: Config, t: nat)
    requires Sound(r.v, g) && t < |done| && RoundSelects(r, done, g, t)
    ensures Picked(r.v.subs, done, g.c, g.count, g.u, t)
  {
    var i: nat :| Selected(r.v.subs, r.v.completed, g.c, g.count, g.u, i, r.idx);
    assert r.v.completed == ToSet(done[..t]);
  }

  lemma SpanNonempty(g: Config, s: Sub)
    requires ConfigOk(g) && s.start <= s.end < |g.content|
    ensures First(s, g.c) <= Last(s, g.c, g.count) == s.end / g.c
  {
    WantsIsSpan(g, s.start, s.end, s.id, s.start / g.c);
    OverlapIsSpan(0, g.c, s.start, s.end, s.start / g.c, s.end / g.c);
  }

  lemma SubsSpan(v: View, g: Config)
    requires Sound(v, g)
    ensures SpansSound(v.subs, g.c, g.count)
  {
    forall i: nat | i < |v.subs| ensures First(v.subs[i], g.c) <= Last(v.subs[i], g.c, g.count) {
      SpanNonempty(g, v.subs[i]);
    }
  }

  lemma AllDoneServed(v: View, g: Config)
    requires Sound(v, g) && NothingLeft(v, g)
    ensures AllServed(v.subs, v.done, g.c, g.count)
  {
    forall i: nat, k: nat | i < |v.subs| && Wants(v.subs[i], k, g.c, g.count) ensures k in v.done {
      assert !Candidate(v.subs, v.completed, g.c, g.count, i, k);
    }
  }

  lemma TracedSteady(trace: seq<Round>, g: Config, env: nat -> Turn, last: Round, subs: seq<Sub>)
    requires g.c > 0 && RunsTo(trace, g, env, last) && NothingLeft(last.v, g)
    requires forall t: nat :: t < |trace| ==> trace[t].v.subs == subs
    ensures Steady(trace, last.v.done, g, subs)
  {
    TracedClean(trace, g, env);
    TracedSelects(trace, g, env);
  }

  /**
   With a fixed audience a subscriber is served in order exactly when the first chunks of all ranges, taken in
   joining order, are in order within its span.
   */
  lemma FixedAudienceInOrder(trace: seq<Round>, g: Config, env: nat -> Turn, last: Round, subs: seq<Sub>, j: nat)
    requires g.c > 0 && RunsTo(trace, g, env, last) && NothingLeft(last.v, g) && j < |subs|
    requires forall t: nat :: t < |trace| ==> trace[t].v.subs == subs
    ensures Ordered(last.v.done, First(subs[j], g.c), Last(subs[j], g.c, g.count))
       <==> Ordered(Firsts(subs, g.c), First(subs[j], g.c), Last(subs[j], g.c, g.count))
  {
    TracedSteady(trace, g, env, last, subs);
    SteadyIsScheduled(trace, last.v.done, g, subs);
    InOrderExactlyWhenFirstsAre(subs, last.v.done, g.c, g.count, g.u, j);
  }

  lemma {:induction false} JoinAllLives(v: View, requests: seq<Request>, total: nat)
    ensures |v.lives| <= |JoinAll(v, requests, total).lives|
    ensures forall id: nat :: id < |v.lives| ==> JoinAll(v, requests, total).lives[id] == v.lives[id]
  {
    if requests != [] {
      JoinAllLives(v, requests[..|requests| - 1], total);
    }
  }

  /** Nobody's moment of joining changes during a run. */
  lemma {:induction false} JoiningStays(trace: seq<Round>, g: Config, env: nat -> Turn, id: nat, n: nat)
    requires Traced(trace, g, env) && n < |trace| && id < |trace[0].v.lives|
    ensures id < |trace[n].v.lives| && trace[n].v.lives[id].at == trace[0].v.lives[id].at
  {
    if n > 0 {
      JoiningStays(trace, g, env, id, n - 1);
      JoiningNext(trace, g, env, id, n);
    }
  }

  lemma JoiningNext(trace: seq<Round>, g: Config, env: nat -> Turn, id: nat, n: nat)
    requires Traced(trace, g, env) && 0 < n < |trace| && id < |trace[n - 1].v.lives|
    ensures id < |trace[n].v.lives| && trace[n].v.lives[id].at == trace[n - 1].v.lives[id].at
  {
    FitsAt(trace, g, env, n);
    JoiningKept(trace[n - 1], trace[n], g, env(n - 1), env(n), id);
  }

  lemma JoiningKept(a: Round, b: Round, g: Config, turn: Turn, next: Turn, id: nat)
    requires Leaves(a, g, turn, b.before) && Opens(b, g, next) && id < |a.v.lives|
    ensures id < |b.v.lives| && b.v.lives[id].at == a.v.lives[id].at
  {
    JoinAllLives(b.before, next.requests, |g.content|);
  }

  /** Those there in the first round joined before anything was completed. */
  lemma ThereFromTheStart(trace: seq<Round>, g: Config, env: nat -> Turn, id: nat)
    requires Traced(trace, g, env) && |trace| > 0 && id in Ids(trace[0].v.subs)
    ensures id < |trace[|trace| - 1].v.lives| && trace[|trace| - 1].v.lives[id].at == 0
  {
    FitsAt(trace, g, env, 0);
    JoinedFirst(trace[0].v, g, id);
    JoiningStays(trace, g, env, id, |trace| - 1);
  }

  lemma JoinedFirst(v: View, g: Config, id: nat)
    requires Sound(v, g) && v.done == [] && id in Ids(v.subs)
    ensures id < |v.lives| && v.lives[id].at == 0
  {
    var s :| s in v.subs && s.id == id;
    var i: nat :| i < |v.subs| && v.subs[i] == s;
    assert v.lives[v.subs[i].id].start == v.subs[i].start;
  }

  /** A subscriber of a fixed audience for which the first chunks are in order has been sent exactly its range. */
  lemma FixedAudienceServed(trace: seq<Round>, g: Config, env: nat -> Turn, last: Round, subs: seq<Sub>, j: nat)
    requires g.c > 0 && RunsTo(trace, g, env, last) && NothingLeft(last.v, g) && j < |subs|
    requires forall t: nat :: t < |trace| ==> trace[t].v.subs == subs
    requires Ordered(Firsts(subs, g.c), First(subs[j], g.c), Last(subs[j], g.c, g.count))
    ensures Served(last.v, g, subs[j])
  {
    FixedAudienceInOrder(trace, g, env, last, subs, j);
    LastIsSound(trace, g, env, last);
    assert last.v.subs == subs && trace[0].v.subs == subs && subs[j] in subs;
    ThereFromTheStart(trace, g, env, subs[j].id);
    ServedWhole(last.v, g, j);
  }

  ghost predicate Served(v: View, g: Config, s: Sub) {
    s.id < |v.sent| && s.start <= s.end < |g.content| && Joined(v.sent[s.id]) == g.content[s.start..s.end + 1]
  }

  lemma ServedWhole(v: View, g: Config, j: nat)
    requires Sound(v, g) && NothingLeft(v, g) && j < |v.subs| && v.lives[v.subs[j].id].at == 0
    requires Ordered(v.done, First(v.subs[j], g.c), Last(v.subs[j], g.c, g.count))
    ensures Served(v, g, v.subs[j])
  {
    var s := v.subs[j];
    SpanNonempty(g, s);
    assert v.done[..0] == [];
    OrderedRun(v, g, s.id);
  }

  /* ---- What the actor's task leaves behind ---- */

  lemma LastIsSound(trace: seq<Round>, g: Config, env: nat -> Turn, last: Round)
    requires RunsTo(trace, g, env, last)
    ensures Sound(last.v, g)
  {
    FitsAt(trace, g, env, |trace| - 1);
  }

  lemma FailedAddsNothing(v: View, how: End, g: Config, turn: Turn, sent: seq<seq<Message>>, id: nat)
    requires g.c > 0 && LeftAs(how, v, g, turn, sent) && id < |v.sent|
    ensures id < |sent| && Joined(sent[id]) == Joined(v.sent[id])
  {
    JoinedSnoc(v.sent[id], Failed);
  }

  /**
   Whatever the task's `Run` returns: a well-placed channel has been sent a prefix of its range, and all of it
   if it was still open when nothing was left.
   */
  lemma RunDeliversInOrder(trace: seq<Round>, g: Config, env: nat -> Turn, last: Round, how: End, sent: seq<seq<Message>>, id: nat)
    requires g.c > 0 && RunsTo(trace, g, env, last) && LeftAs(how, last.v, g, env(|trace| - 1), sent)
    requires id < |last.v.lives| && WellPlaced(last.v, g, id)
    ensures var l := last.v.lives[id];
      && l.start <= l.end < |g.content| && id < |sent| && Joined(sent[id]) <= g.content[l.start..l.end + 1]
      && (how.AllDone? && l.until.None? ==> Joined(sent[id]) == g.content[l.start..l.end + 1])
  {
    LastIsSound(trace, g, env, last);
    InOrderRun(last.v, g, id);
    FailedAddsNothing(last.v, how, g, env(|trace| - 1), sent, id);
  }

  /** When `Run` returns because nothing was left, every channel still open is accounted for, position by position. */
  lemma RunAccountsForBytes(trace: seq<Round>, g: Config, env: nat -> Turn, last: Round, sent: seq<seq<Message>>, id: nat)
    requires g.c > 0 && RunsTo(trace, g, env, last) && LeftAs(AllDone, last.v, g, env(|trace| - 1), sent)
    requires id < |last.v.lives| && last.v.lives[id].until.None?
    ensures var l := last.v.lives[id];
      && l.at <= |last.v.done| && id < |sent|
      && Accounted(g.content, g.c, Seen(last.v.done, l), last.v.done[..l.at], l.start, l.end, sent[id])
  {
    LastIsSound(trace, g, env, last);
    BytesAccountedFor(last.v, g, id);
  }
}
