/** The actor object and its loop, over everything the outside may do between rounds. */
module FileSession {
  import opened Wrappers
  import opened ChunkMath
  import opened Schedule
  import opened Delivery
  import opened ActorState
  import opened Actor
  import opened Ranges
  import Oldest

  /** One round: the state it began in, the state it decided on, what was cached then, and the chunk it chose if any. */
  datatype Round = Round(before: View, v: View, cached: set<nat>, idx: nat)

  /** Round `t` completed `done[t]`, the chunk the schedule selected for the subscribers of that round. */
  ghost predicate RoundsSelect(trace: seq<Round>, done: seq<nat>, g: Config)
    requires g.c > 0
  {
    && |done| <= |trace| <= |done| + 1
    && forall t: nat :: t < |done| ==> RoundSelects(trace[t], done, g, t)
  }

  ghost predicate RoundSelects(r: Round, done: seq<nat>, g: Config, t: nat)
    requires g.c > 0 && t < |done|
  {
    r.v.done == done[..t] && r.idx == done[t] && Picks(r, g)
  }

  ghost predicate Picks(r: Round, g: Config)
    requires g.c > 0
  {
    exists who: nat :: Selected(r.v.subs, r.v.completed, g.c, g.count, g.u, who, r.idx)
  }

  /** The state is sound and prefetches in flight are neither complete nor cached. */
  ghost predicate CleanRound(r: Round, g: Config) {
    Sound(r.v, g) && r.v.done == r.before.done && r.v.inflight !! r.v.completed && r.v.inflight !! r.cached
  }

  ghost predicate RoundsClean(trace: seq<Round>, g: Config) {
    forall t: nat {:trigger CleanRound(trace[t], g)} :: t < |trace| ==> CleanRound(trace[t], g)
  }

  /* ---- How each round follows from the one before and from what the outside did ---- */

  /** The state a round decides on: requests queued, closed channels dropped, arrived prefetches forgotten. */
  function Started(v: View, turn: Turn, total: nat): View {
    var w := Clean(JoinAll(v, turn.requests, total), turn.closed);
    w.(inflight := w.inflight - w.completed - turn.cached)
  }

  ghost predicate Prefetched(v: View, g: Config, isCached: (nat, nat) -> bool, now: set<nat>)
    requires g.c > 0
  {
    exists cursors :: PrefetchedFor(v, g, isCached, now, cursors)
  }

  ghost predicate PrefetchedFor(v: View, g: Config, isCached: (nat, nat) -> bool, now: set<nat>, cursors: seq<nat>)
    requires g.c > 0
  {
    && (forall q: nat :: q in cursors <==>
          exists i: nat :: i < |v.subs| && NextMissing(v.subs[i], v.completed, v.inflight, g.c, g.count, q))
    && Ascending(cursors) && v.inflight <= now
    && (cursors == [] ==> now == v.inflight)
    && (cursors != [] ==> PutInFlight(now - v.inflight, cursors, Max(PrefetchBudget(g.base, |cursors|) / |cursors|, 1),
                                      g.count, v.completed, v.inflight, isCached))
    && |now - v.inflight| <= Max(PrefetchBudget(g.base, |cursors|), |cursors|)
  }

  /** Round `v` downloaded and handed out chunk `idx` and put more prefetches in flight. */
  ghost predicate Ended(v: View, idx: nat, g: Config, turn: Turn, now: View)
    requires g.c > 0
  {
    && turn.outcome.Arrived? && LivesSound(v, g)
    && var w := Complete(v.(inflight := v.inflight - {idx}), g, idx);
       now == w.(inflight := now.inflight) && Prefetched(w, g, turn.isCached, now.inflight)
  }

  /** The round took up what the outside did. */
  ghost predicate Opens(r: Round, g: Config, turn: Turn) {
    r.cached == turn.cached && r.v == Started(r.before, turn, |g.content|)
  }

  /** Round `a` chose its chunk by the schedule, the chunk arrived, and the round left the actor at `now`. */
  ghost predicate Leaves(a: Round, g: Config, turn: Turn, now: View) {
    && g.c > 0 && now.done == a.v.done + [a.idx]
    && Picks(a, g) && Ended(a.v, a.idx, g, turn, now)
  }

  /** Where the rounds so far leave the actor. */
  ghost predicate LeaveAt(trace: seq<Round>, g: Config, env: nat -> Turn, now: View) {
    if |trace| == 0 then now == FRESH else Leaves(trace[|trace| - 1], g, env(|trace| - 1), now)
  }

  /** Round `t` began where the one before it left the actor, and took up what the outside did. */
  ghost predicate Fits(trace: seq<Round>, g: Config, env: nat -> Turn, t: nat)
    requires t < |trace|
  {
    && Opens(trace[t], g, env(t)) && CleanRound(trace[t], g)
    && if t == 0 then trace[t].before == FRESH else Leaves(trace[t - 1], g, env(t - 1), trace[t].before)
  }

  ghost function Fitting(g: Config, env: nat -> Turn): (seq<Round>, nat) -> bool {
    (trace: seq<Round>, t: nat) => t < |trace| && Fits(trace, g, env, t)
  }

  ghost predicate Along(trace: seq<Round>, fits: (seq<Round>, nat) -> bool) {
    forall t: nat :: t < |trace| ==> fits(trace, t)
  }

  ghost predicate Traced(trace: seq<Round>, g: Config, env: nat -> Turn) {
    Along(trace, Fitting(g, env))
  }

  /** One more round leaves the ones before it fitting. */
  ghost predicate Stable(trace: seq<Round>, fits: (seq<Round>, nat) -> bool, r: Round) {
    forall t: nat :: t < |trace| && fits(trace, t) ==> fits(trace + [r], t)
  }

  lemma AlongMore(trace: seq<Round>, fits: (seq<Round>, nat) -> bool, r: Round)
    requires Along(trace, fits) && Stable(trace, fits, r) && fits(trace + [r], |trace|)
    ensures Along(trace + [r], fits)
  {
  }

  /** Between rounds, with the actor at `now`. */
  ghost predicate Standing(trace: seq<Round>, g: Config, env: nat -> Turn, now: View) {
    match now
    case View(_, _, _, _, done, _) => Traced(trace, g, env) && LeaveAt(trace, g, env, now) && Sound(now, g) && |done| == |trace|
  }

  /** `stands` names `Standing`, so that a loop can carry it as one fact and unfold it only where it is shown. */
  ghost predicate Names(stands: (seq<Round>, View) -> bool, g: Config, env: nat -> Turn) {
    forall trace, now {:trigger Standing(trace, g, env, now)} :: stands(trace, now) <==> Standing(trace, g, env, now)
  }

  ghost function StandsFor(g: Config, env: nat -> Turn): (seq<Round>, View) -> bool {
    (trace, now) => Standing(trace, g, env, now)
  }

  lemma StandsAtStart(g: Config, env: nat -> Turn, now: View)
    requires ConfigOk(g) && now == FRESH
    ensures Names(StandsFor(g, env), g, env) && StandsFor(g, env)([], now)
  {
    FreshSound(g);
  }

  /** The rounds up to `last`. */
  ghost predicate RunsTo(trace: seq<Round>, g: Config, env: nat -> Turn, last: Round) {
    match last
    case Round(_, v, _, _) => g.c > 0 && Traced(trace, g, env) && |trace| == |v.done| + 1 && trace[|trace| - 1] == last
  }

  lemma FitsKept(trace: seq<Round>, g: Config, env: nat -> Turn, r: Round, t: nat)
    requires t < |trace| && Fits(trace, g, env, t)
    ensures Fits(trace + [r], g, env, t)
  {
    var more := trace + [r];
    assert more[t] == trace[t] && (t > 0 ==> more[t - 1] == trace[t - 1]);
  }

  lemma FitsNew(trace: seq<Round>, g: Config, env: nat -> Turn, r: Round)
    requires LeaveAt(trace, g, env, r.before) && Opens(r, g, env(|trace|)) && CleanRound(r, g)
    ensures Fits(trace + [r], g, env, |trace|)
  {
    var more := trace + [r];
    assert |trace| > 0 ==> more[|trace| - 1] == trace[|trace| - 1];
  }

  lemma FittingIsStable(trace: seq<Round>, g: Config, env: nat -> Turn, r: Round)
    ensures Stable(trace, Fitting(g, env), r)
  {
    forall t: nat | t < |trace| && Fitting(g, env)(trace, t) ensures Fitting(g, env)(trace + [r], t) {
      FitsKept(trace, g, env, r, t);
    }
  }

  lemma RoundBegins(trace: seq<Round>, g: Config, env: nat -> Turn, r: Round)
    requires Standing(trace, g, env, r.before) && Opens(r, g, env(|trace|)) && CleanRound(r, g)
    ensures RunsTo(trace + [r], g, env, r)
  {
    FitsNew(trace, g, env, r);
    FittingIsStable(trace, g, env, r);
    AlongMore(trace, Fitting(g, env), r);
  }

  lemma RoundCompletes(trace: seq<Round>, g: Config, env: nat -> Turn, r: Round, now: View)
    requires RunsTo(trace, g, env, r) && Leaves(r, g, env(|trace| - 1), now) && Sound(now, g)
    ensures Standing(trace, g, env, now)
  {
  }

  lemma FitsAt(trace: seq<Round>, g: Config, env: nat -> Turn, t: nat)
    requires Traced(trace, g, env) && t < |trace|
    ensures Fits(trace, g, env, t)
  {
    assert Fitting(g, env)(trace, t);
  }

  lemma DoneNext(trace: seq<Round>, g: Config, env: nat -> Turn, t: nat)
    requires Traced(trace, g, env) && t + 1 < |trace|
    ensures trace[t + 1].v.done == trace[t].v.done + [trace[t].idx]
    ensures g.c > 0 && Picks(trace[t], g)
  {
    FitsAt(trace, g, env, t + 1);
  }

  lemma {:induction false} DoneCount(trace: seq<Round>, g: Config, env: nat -> Turn, n: nat)
    requires Traced(trace, g, env) && n < |trace|
    ensures |trace[n].v.done| == n
  {
    if n > 0 {
      DoneCount(trace, g, env, n - 1);
      DoneNext(trace, g, env, n - 1);
    } else {
      FitsAt(trace, g, env, 0);
    }
  }

  lemma {:induction false} DonePrefix(trace: seq<Round>, g: Config, env: nat -> Turn, t: nat, n: nat)
    requires Traced(trace, g, env) && t <= n < |trace|
    ensures t <= |trace[n].v.done| && trace[t].v.done == trace[n].v.done[..t]
  {
    DoneCount(trace, g, env, n);
    if t < n {
      DonePrefix(trace, g, env, t, n - 1);
      DoneNext(trace, g, env, n - 1);
    }
  }

  /** In every round of a run the state is sound and prefetches in flight are neither complete nor cached. */
  lemma TracedClean(trace: seq<Round>, g: Config, env: nat -> Turn)
    requires Traced(trace, g, env)
    ensures RoundsClean(trace, g)
  {
    forall t: nat | t < |trace| ensures CleanRound(trace[t], g) {
      FitsAt(trace, g, env, t);
    }
  }

  lemma TracedSelectsAt(trace: seq<Round>, g: Config, env: nat -> Turn, t: nat, n: nat)
    requires Traced(trace, g, env) && t < n < |trace| && g.c > 0
    ensures t < |trace[n].v.done| && RoundSelects(trace[t], trace[n].v.done, g, t)
  {
    DoneCount(trace, g, env, t);
    DonePrefix(trace, g, env, t, n);
    DonePrefix(trace, g, env, t + 1, n);
    DoneNext(trace, g, env, t);
    assert trace[t + 1].v.done[t] == trace[t].idx;
  }

  /** In every round of a run that completes a chunk, it is the one the schedule selects. */
  lemma TracedSelects(trace: seq<Round>, g: Config, env: nat -> Turn)
    requires Traced(trace, g, env) && |trace| > 0 && g.c > 0
    ensures RoundsSelect(trace, trace[|trace| - 1].v.done, g)
  {
    var n := |trace| - 1;
    DoneCount(trace, g, env, n);
    forall t: nat | t < n ensures RoundSelects(trace[t], trace[n].v.done, g, t) {
      TracedSelectsAt(trace, g, env, t, n);
    }
  }

  /** Nothing is left that a live subscriber still wants. */
  ghost predicate NothingLeft(v: View, g: Config)
    requires g.c > 0
  {
    forall i: nat, idx: nat :: !Candidate(v.subs, v.completed, g.c, g.count, i, idx)
  }

  /** How the loop was left from `v`: nothing wanted, nobody and nothing there, or a chunk that did not arrive. */
  ghost predicate LeftAs(how: End, v: View, g: Config, turn: Turn, sent: seq<seq<Message>>)
    requires g.c > 0
  {
    match how
    case Idle => v.subs == [] && v.inflight == {} && sent == v.sent
    case AllDone => !(v.subs == [] && v.inflight == {}) && sent == v.sent && NothingLeft(v, g)
    case Aborted =>
      && !turn.outcome.Arrived? && !NothingLeft(v, g) && |sent| == |v.sent|
      && forall id: nat :: id < |sent| ==>
           sent[id] == if turn.outcome.DownloadFailed? && id in Ids(v.subs) then v.sent[id] + [Failed] else v.sent[id]
  }

  lemma SomethingLeft(v: View, g: Config, who: nat, idx: nat)
    requires g.c > 0 && Selected(v.subs, v.completed, g.c, g.count, g.u, who, idx)
    ensures !NothingLeft(v, g)
  {
    assert Candidate(v.subs, v.completed, g.c, g.count, who, idx);
  }

  lemma CleanupSound(v: View, g: Config, inflight: set<nat>)
    requires Sound(v, g) && inflight <= v.inflight
    ensures Sound(v.(inflight := inflight), g)
  {
  }

  lemma PrefetchSound(v: View, g: Config, inflight: set<nat>)
    requires Sound(v, g) && inflight !! v.completed && forall q: nat :: q in inflight ==> q < g.count
    ensures Sound(v.(inflight := inflight), g)
  {
  }

  /** No chunk completes twice, so there are at most as many rounds as chunks. */
  lemma DoneBounded(v: View, g: Config)
    requires DoneSound(v, g)
    ensures |v.done| <= g.count
  {
    BelowSize(g.count);
    forall q | q in v.done ensures q in Below(g.count) {
      assert q in v.completed;
      BelowIs(g.count, q);
    }
    Oldest.DistinctSize(v.done, Below(g.count));
  }

  function Below(count: nat): set<nat> {
    if count == 0 then {} else Below(count - 1) + {count - 1}
  }

  lemma {:induction false} BelowIs(count: nat, q: nat)
    ensures q in Below(count) <==> q < count
  {
    if count > 0 {
      BelowIs(count - 1, q);
    }
  }

  lemma {:induction false} BelowSize(count: nat)
    ensures |Below(count)| == count
  {
    if count > 0 {
      BelowSize(count - 1);
      BelowIs(count - 1, count - 1);
    }
  }

  class FileSessionActor {
    const config: Config
    var subscribers: seq<Sub>
    var completed: set<nat>
    var prefetchInflight: set<nat>
    var cachedChunks: set<nat>
    var sent: seq<seq<Message>>
    ghost var done: seq<nat>
    ghost var lives: seq<Life>

    ghost function Now(): View
      reads this
    {
      View(subscribers, completed, prefetchInflight, sent, done, lives)
    }

    constructor (config: Config)
      ensures this.config == config && Now() == FRESH && cachedChunks == {}
    {
      this.config := config;
      subscribers, completed, prefetchInflight, cachedChunks, sent := [], {}, {}, {}, [];
      done, lives := [], [];
    }

    /** Queue every request the handle accepted. */
    method Drain(requests: seq<Request>)
      modifies this`subscribers, this`sent, this`lives
      requires |sent| == |lives|
      ensures Now() == JoinAll(old(Now()), requests, |config.content|)
      ensures |sent| == |lives|
    {
      for i := 0 to |requests|
        invariant Now() == JoinAll(old(Now()), requests[..i], |config.content|)
        invariant |sent| == |lives|
      {
        var r := Resolve(requests[i], |config.content|);
        assert requests[..i + 1][..i] == requests[..i];
        if r.Some? {
          subscribers := subscribers + [Sub(|sent|, r.value.0, r.value.1)];
          sent := sent + [[]];
          lives := lives + [Life(r.value.0, r.value.1, |done|, None)];
        }
      }
      assert requests[..|requests|] == requests;
    }

    method CleanSubscribers(closed: set<nat>)
      modifies this`subscribers, this`lives
      ensures Now() == Clean(old(Now()), closed)
    {
      var kept: seq<Sub> := [];
      for i := 0 to |subscribers|
        invariant kept == KeepOpen(subscribers[..i], closed)
        invariant subscribers == old(subscribers) && lives == old(lives)
      {
        assert subscribers[..i + 1][..i] == subscribers[..i];
        if subscribers[i].id !in closed {
          kept := kept + [subscribers[i]];
        } else {
          assert KeepOpen(subscribers[..i], closed) + [] == KeepOpen(subscribers[..i], closed);
        }
      }
      assert subscribers[..|subscribers|] == subscribers;
      lives := Clean(Now(), closed).lives;
      subscribers := kept;
    }

    method CleanupPrefetches()
      modifies this`prefetchInflight
      ensures prefetchInflight == old(prefetchInflight) - completed - cachedChunks
      ensures Now() == old(Now()).(inflight := prefetchInflight)
    {
      prefetchInflight := set q | q in prefetchInflight && q !in completed && q !in cachedChunks;
    }

    /** Wait for the chunk; hand it to everyone it concerns and count it complete, or hand out the error. */
    method DownloadAndForward(idx: nat, outcome: Outcome, ghost who: nat) returns (ok: bool)
      requires Sound(Now(), config)
      requires Selected(subscribers, completed, config.c, config.count, config.u, who, idx)
      modifies this`sent, this`completed, this`done
      ensures ok <==> outcome.Arrived?
      ensures ok ==> Now() == Complete(old(Now()), config, idx)
      ensures !ok ==> Now() == old(Now()).(sent := sent) && |sent| == |old(sent)|
      ensures !ok ==> forall id: nat :: id < |sent| ==>
        sent[id] == if outcome.DownloadFailed? && id in Ids(subscribers) then old(sent)[id] + [Failed] else old(sent)[id]
    {
      ghost var v := Now();
      match outcome {
        case Arrived =>
          ChunkInFile(v, config, who, idx);
          var start := idx * config.c;
          var data := PieceAt(config.content, start, config.c);
          var out := ForwardChunk(subscribers, sent, start, data, config.content, config.c);
          ForwardedIs(v, config, idx, out);
          sent := out;
          completed := completed + {idx};
          done := done + [idx];
          return true;
        case DownloadFailed =>
          sent := ForwardError(subscribers, sent);
          return false;
        case SubscribeFailed =>
          return false;
      }
    }

    /**
     The whole task. `env(i)` is what the outside does in round `i`; `last` is the round in which the loop was
     left, before error messages and before all channels were dropped.
     */
    method Run(env: nat -> Turn) returns (how: End, rounds: nat, ghost last: Round, ghost trace: seq<Round>)
      requires ConfigOk(config) && Now() == FRESH
      modifies this
      ensures 1 <= rounds == |trace| <= config.count + 1
      ensures RunsTo(trace, config, env, last) && LeftAs(how, last.v, config, env(rounds - 1), sent)
      ensures subscribers == [] && done == last.v.done && lives == last.v.lives
    {
      StandsAtStart(config, env, Now());
      how, rounds, last, trace := Loop(env, StandsFor(config, env));
      subscribers := [];
    }

    /** Rounds until one is the last. */
    method Loop(env: nat -> Turn, ghost stands: (seq<Round>, View) -> bool)
        returns (how: End, rounds: nat, ghost last: Round, ghost trace: seq<Round>)
      requires Names(stands, config, env) && stands([], Now())
      modifies this
      ensures 1 <= rounds == |trace| <= config.count + 1
      ensures RunsTo(trace, config, env, last) && LeftAs(how, last.v, config, env(rounds - 1), sent)
      ensures done == last.v.done && lives == last.v.lives
    {
      rounds := 0;
      trace := [];
      while true
        invariant rounds == |trace| && stands(trace, Now())
        decreases config.count - |done|
      {
        var exit;
        exit, last, trace := FoldedRound(env(rounds), env, trace, stands);
        rounds := rounds + 1;
        if exit.Some? {
          how := exit.value;
          return;
        }
      }
    }

    /** One turn of the loop, its invariant folded. */
    method FoldedRound(turn: Turn, ghost env: nat -> Turn, ghost trace: seq<Round>, ghost stands: (seq<Round>, View) -> bool)
        returns (exit: Option<End>, ghost r: Round, ghost more: seq<Round>)
      requires Names(stands, config, env) && stands(trace, Now()) && turn == env(|trace|)
      modifies this`subscribers, this`sent, this`lives, this`cachedChunks, this`prefetchInflight, this`completed, this`done
      ensures |more| == |trace| + 1 && |done| <= config.count
      ensures exit.None? ==> stands(more, Now()) && |done| == |old(done)| + 1
      ensures exit.Some? ==> RunsTo(more, config, env, r) && LeftAs(exit.value, r.v, config, turn, sent)
      ensures exit.Some? ==> done == r.v.done && lives == r.v.lives
    {
      assert Standing(trace, config, env, Now());
      exit, r, more := TracedRound(turn, env, trace);
      assert exit.None? ==> Standing(more, config, env, Now());
    }

    /** One turn of the loop against the rounds before it. */
    method TracedRound(turn: Turn, ghost env: nat -> Turn, ghost trace: seq<Round>)
        returns (exit: Option<End>, ghost r: Round, ghost more: seq<Round>)
      requires Standing(trace, config, env, Now()) && turn == env(|trace|)
      modifies this`subscribers, this`sent, this`lives, this`cachedChunks, this`prefetchInflight, this`completed, this`done
      ensures |more| == |trace| + 1 && |done| <= config.count
      ensures exit.None? ==> Standing(more, config, env, Now()) && |done| == |old(done)| + 1
      ensures exit.Some? ==> RunsTo(more, config, env, r) && LeftAs(exit.value, r.v, config, turn, sent)
      ensures exit.Some? ==> done == r.v.done && lives == r.v.lives
    {
      exit, r := OneRound(turn);
      RoundBegins(trace, config, env, r);
      more := trace + [r];
      if exit.Some? {
        DoneBounded(r.v, config);
      } else {
        RoundCompletes(more, config, env, r, Now());
        DoneBounded(Now(), config);
      }
    }

    /** One turn of the loop, and whether it was the last. */
    method OneRound(turn: Turn) returns (exit: Option<End>, ghost r: Round)
      requires Sound(Now(), config)
      modifies this`subscribers, this`sent, this`lives, this`cachedChunks, this`prefetchInflight, this`completed, this`done
      ensures r.before == old(Now()) && Opens(r, config, turn) && CleanRound(r, config)
      ensures exit.None? ==> Leaves(r, config, turn, Now()) && Sound(Now(), config)
      ensures exit.Some? ==> LeftAs(exit.value, r.v, config, turn, sent) && done == r.v.done && lives == r.v.lives
    {
      var idx;
      ghost var who;
      exit, idx, who, r := Decide(turn);
      if exit.None? {
        var ok := DriveRound(idx, turn, who, r);
        exit := if ok then None else Some(Aborted);
      }
    }

    /** The round's chunk, against the round. */
    method DriveRound(idx: nat, turn: Turn, ghost who: nat, ghost r: Round) returns (ok: bool)
      requires Sound(r.v, config) && r.v == Now() && r.idx == idx && !(r.v.subs == [] && r.v.inflight == {})
      requires Selected(r.v.subs, r.v.completed, config.c, config.count, config.u, who, idx)
      modifies this`prefetchInflight, this`sent, this`completed, this`done
      ensures ok ==> Leaves(r, config, turn, Now()) && Sound(Now(), config)
      ensures !ok ==> LeftAs(Aborted, r.v, config, turn, sent) && done == r.v.done && lives == r.v.lives
    {
      SomethingLeft(r.v, config, who, idx);
      ok := Drive(idx, turn, who);
    }

    /** The round's start and its choice. */
    method Decide(turn: Turn) returns (exit: Option<End>, idx: nat, ghost who: nat, ghost r: Round)
      requires Sound(Now(), config)
      modifies this`subscribers, this`sent, this`lives, this`cachedChunks, this`prefetchInflight
      ensures r.before == old(Now()) && Opens(r, config, turn) && CleanRound(r, config) && r.v == Now() && r.idx == idx
      ensures exit.None? ==> Selected(r.v.subs, r.v.completed, config.c, config.count, config.u, who, idx)
      ensures exit.None? ==> !(r.v.subs == [] && r.v.inflight == {})
      ensures exit.Some? ==> LeftAs(exit.value, r.v, config, turn, sent)
    {
      ghost var before := Now();
      StartRound(turn);
      var next;
      idx, who := 0, 0;
      if subscribers == [] && prefetchInflight == {} {
        exit := Some(Idle);
      } else {
        next, who := SelectNextChunk(subscribers, completed, config.c, config.count, config.u);
        exit, idx := if next.None? then Some(AllDone) else None, if next.None? then 0 else next.value;
      }
      r := Round(before, Now(), cachedChunks, idx);
    }

    /** Queue, drop closed channels, forget prefetches that arrived. */
    method StartRound(turn: Turn)
      requires Sound(Now(), config)
      modifies this`subscribers, this`sent, this`lives, this`cachedChunks, this`prefetchInflight
      ensures Sound(Now(), config) && Now() == Started(old(Now()), turn, |config.content|) && cachedChunks == turn.cached
      ensures done == old(done)
      ensures prefetchInflight !! completed && prefetchInflight !! cachedChunks
    {
      ghost var v := Now();
      Drain(turn.requests);
      JoinAllSound(v, config, turn.requests);
      ghost var w := Now();
      CleanSubscribers(turn.closed);
      CleanSound(w, config, turn.closed);
      cachedChunks := turn.cached;
      ghost var x := Now();
      CleanupPrefetches();
      CleanupSound(x, config, prefetchInflight);
    }

    /** One chunk: out of the prefetches, downloaded, handed out, then more prefetches. */
    method Drive(idx: nat, turn: Turn, ghost who: nat) returns (ok: bool)
      requires Sound(Now(), config)
      requires Selected(subscribers, completed, config.c, config.count, config.u, who, idx)
      modifies this`prefetchInflight, this`sent, this`completed, this`done
      ensures ok ==> Sound(Now(), config) && done == old(done) + [idx] && |done| <= config.count
      ensures ok ==> Ended(old(Now()), idx, config, turn, Now())
      ensures ok <==> turn.outcome.Arrived?
      ensures !ok ==> done == old(done) && |sent| == |old(sent)|
      ensures !ok ==> forall id: nat :: id < |sent| ==>
        sent[id] == if turn.outcome.DownloadFailed? && id in Ids(subscribers) then old(sent)[id] + [Failed] else old(sent)[id]
    {
      ghost var v := Now();
      SelectionDrives(v, config, who, idx);
      CleanupSound(v, config, v.inflight - {idx});
      prefetchInflight := prefetchInflight - {idx};
      ok := DownloadAndForward(idx, turn.outcome, who);
      if ok {
        CompleteSound(v, config, who, idx);
        DoneBounded(Now(), config);
        Prefetch(turn.isCached);
      }
    }

    method Prefetch(isCached: (nat, nat) -> bool)
      requires Sound(Now(), config)
      modifies this`prefetchInflight
      ensures Sound(Now(), config) && Now() == old(Now()).(inflight := prefetchInflight)
      ensures Prefetched(old(Now()), config, isCached, prefetchInflight)
    {
      ghost var v := Now();
      var now, cursors := SchedulePrefetches(subscribers, completed, prefetchInflight, config.c, config.count, config.base, isCached);
      InflightInRange(v, config, now, cursors, isCached);
      assert PrefetchedFor(v, config, isCached, now, cursors);
      PrefetchSound(v, config, now);
      prefetchInflight := now;
    }
  }

  lemma InflightInRange(v: View, g: Config, now: set<nat>, cursors: seq<nat>, isCached: (nat, nat) -> bool)
    requires Sound(v, g) && v.inflight <= now
    requires cursors == [] ==> now == v.inflight
    requires cursors != [] ==> PutInFlight(now - v.inflight, cursors,
                                         Max(PrefetchBudget(g.base, |cursors|) / |cursors|, 1),
                                         g.count, v.completed, v.inflight, isCached)
    ensures now !! v.completed && forall q: nat :: q in now ==> q < g.count
  {
    forall q: nat | q in now ensures q < g.count && q !in v.completed {
      if q !in v.inflight {
        assert q in now - v.inflight;
      }
    }
  }

  lemma ChunkInFile(v: View, g: Config, who: nat, idx: nat)
    requires Sound(v, g) && Selected(v.subs, v.completed, g.c, g.count, g.u, who, idx)
    ensures idx * g.c < |g.content|
  {
    var s := v.subs[who];
    WantsIsSpan(g, s.start, s.end, s.id, idx);
    ChunkOfByte(s.end, s.end / g.c, g.c);
    if idx < s.end / g.c {
      Product(idx, s.end / g.c, g.c);
    }
  }
}
