/**
 Metadata probes shared through the in-flight map, one atomic step at a time: the first caller of a
 key leads, later ones queue, and the leader answers the queue unless it leaves by an early error.
 */
module MetadataFlight {
  import opened Wrappers

  datatype Key = Key(name: string)

  datatype Outcome = MetadataReady | ForwardHeadFailure(status: nat)

  datatype Caller =
    | Probing(key: Key)
    | Ready(key: Key, outcome: Outcome)
    | Answering(key: Key, outcome: Outcome, rest: seq<int>)
    | Returned(key: Key, outcome: Outcome)
    | LeftEarly(key: Key)
    | Queued(key: Key, leader: int)

  /**
   `leaders` is the shared map. The rest is history: who leads each key, who queued behind each
   leader, and what each caller has been answered.
   */
  datatype State = State(
    leaders: map<Key, seq<int>>,
    leaderOf: map<Key, int>,
    callers: map<int, Caller>,
    queue: map<int, seq<int>>,
    answers: map<int, seq<Outcome>>)

  datatype Step =
    | Arrive(id: int, key: Key)
    | ProbeSucceeds(id: int, outcome: Outcome)
    | ProbeErrors(id: int)
    | RemoveKey(id: int)
    | AnswerNext(id: int)
    | Return(id: int)

  const INIT := State(map[], map[], map[], map[], map[])

  predicate Enabled(s: State, step: Step) {
    match step
    case Arrive(c, _) => c !in s.callers
    case ProbeSucceeds(c, _) => c in s.callers && s.callers[c].Probing?
    case ProbeErrors(c) => c in s.callers && s.callers[c].Probing?
    case RemoveKey(c) => c in s.callers && s.callers[c].Ready?
    case AnswerNext(c) => c in s.callers && s.callers[c].Answering? && s.callers[c].rest != []
    case Return(c) => c in s.callers && s.callers[c].Answering? && s.callers[c].rest == []
  }

  function Get<K, V>(m: map<K, V>, k: K, default: V): V {
    if k in m then m[k] else default
  }

  function Take(s: State, step: Step): State
    requires Enabled(s, step)
  {
    match step
    case Arrive(c, key) =>
      if key in s.leaders then
        var leader := Get(s.leaderOf, key, c);
        s.(leaders := s.leaders[key := s.leaders[key] + [c]],
           callers := s.callers[c := Queued(key, leader)],
           queue := s.queue[leader := Get(s.queue, leader, []) + [c]],
           answers := s.answers[c := []])
      else
        s.(leaders := s.leaders[key := []],
           leaderOf := s.leaderOf[key := c],
           callers := s.callers[c := Probing(key)],
           queue := s.queue[c := []])
    case ProbeSucceeds(c, outcome) => s.(callers := s.callers[c := Ready(s.callers[c].key, outcome)])
    case ProbeErrors(c) => s.(callers := s.callers[c := LeftEarly(s.callers[c].key)])
    case RemoveKey(c) =>
      var key := s.callers[c].key;
      s.(leaders := s.leaders - {key},
         callers := s.callers[c := Answering(key, s.callers[c].outcome, Get(s.leaders, key, []))])
    case AnswerNext(c) =>
      var Answering(key, outcome, rest) := s.callers[c];
      s.(callers := s.callers[c := Answering(key, outcome, rest[1..])],
         answers := s.answers[rest[0] := Get(s.answers, rest[0], []) + [outcome]])
    case Return(c) => s.(callers := s.callers[c := Returned(s.callers[c].key, s.callers[c].outcome)])
  }

  ghost predicate Legal(s: State, steps: seq<Step>)
    decreases |steps|
  {
    steps == [] || (Enabled(s, steps[0]) && Legal(Take(s, steps[0]), steps[1..]))
  }

  function Run(s: State, steps: seq<Step>): State
    requires Legal(s, steps)
    decreases |steps|
  {
    if steps == [] then s else Run(Take(s, steps[0]), steps[1..])
  }

  /* ---- Invariant ---- */

  /** A caller that leads, or led, a key. */
  predicate Led(c: Caller) {
    !c.Queued?
  }

  /** How many of a leader's queue have been answered, counting from the front. */
  function Done(s: State, l: int): int
    requires l in s.callers && l in s.queue
  {
    match s.callers[l]
    case Answering(_, _, rest) => |s.queue[l]| - |rest|
    case Returned(_, _) => |s.queue[l]|
    case _ => 0
  }

  function OutcomeOf(c: Caller): Option<Outcome> {
    match c
    case Ready(_, o) => Some(o)
    case Answering(_, o, _) => Some(o)
    case Returned(_, o) => Some(o)
    case _ => None
  }

  /** Queue entries are distinct callers queued behind this leader; the front ones have its outcome, the rest nothing. */
  ghost predicate QueueSound(s: State, l: int)
    requires l in s.callers && l in s.queue
  {
    var q := s.queue[l];
    && 0 <= Done(s, l) <= |q|
    && (s.callers[l].Answering? ==> s.callers[l].rest == q[Done(s, l)..])
    && (forall i, j :: 0 <= i < j < |q| ==> q[i] != q[j])
    && (forall i :: 0 <= i < |q| ==> q[i] in s.callers && s.callers[q[i]] == Queued(s.callers[l].key, l) && q[i] in s.answers)
    && (forall i :: 0 <= i < |q| ==>
          s.answers[q[i]] == if i < Done(s, l) then [OutcomeOf(s.callers[l]).value] else [])
    && (Done(s, l) > 0 ==> OutcomeOf(s.callers[l]).Some?)
  }

  ghost predicate Queues(s: State) {
    && (forall l :: l in s.callers && Led(s.callers[l]) ==> l in s.queue && QueueSound(s, l))
    && (forall l :: l in s.queue ==> l in s.callers && Led(s.callers[l]))
  }

  /** Every queued caller is in the queue of the leader it found. */
  ghost predicate WaitersQueued(s: State) {
    forall c :: c in s.callers && s.callers[c].Queued? ==>
      var l := s.callers[c].leader;
      l in s.callers && Led(s.callers[l]) && s.callers[l].key == s.callers[c].key && l in s.queue && c in s.queue[l]
  }

  predicate BeforeRemoval(c: Caller) {
    c.Probing? || c.Ready? || c.LeftEarly?
  }

  /** A key is in the map exactly while its leader has not reached removal, with that leader's whole queue. */
  ghost predicate KeysHeld(s: State) {
    forall k :: k in s.leaders ==>
      && k in s.leaderOf && s.leaderOf[k] in s.callers
      && BeforeRemoval(s.callers[s.leaderOf[k]]) && s.callers[s.leaderOf[k]].key == k
      && s.leaderOf[k] in s.queue && s.leaders[k] == s.queue[s.leaderOf[k]]
  }

  ghost predicate LeadersListed(s: State) {
    forall l :: l in s.callers && BeforeRemoval(s.callers[l]) ==>
      s.callers[l].key in s.leaders && s.callers[l].key in s.leaderOf && s.leaderOf[s.callers[l].key] == l
  }

  ghost predicate Inv(s: State) {
    Queues(s) && WaitersQueued(s) && KeysHeld(s) && LeadersListed(s)
  }

  lemma ArriveQueue(s: State, c: int, key: Key, l: int)
    requires Inv(s) && c !in s.callers
    requires l in Take(s, Arrive(c, key)).callers && Led(Take(s, Arrive(c, key)).callers[l])
    ensures l in Take(s, Arrive(c, key)).queue && QueueSound(Take(s, Arrive(c, key)), l)
  {
    var s' := Take(s, Arrive(c, key));
    if l in s.callers {
      assert QueueSound(s, l);
      assert forall i :: 0 <= i < |s.queue[l]| ==> s.queue[l][i] != c;
      if key in s.leaders && s.leaderOf[key] == l {
        assert s'.queue[l] == s.queue[l] + [c];
        assert Done(s', l) == 0;
      } else {
        assert s'.queue[l] == s.queue[l] && s'.callers[l] == s.callers[l];
      }
    }
  }

  lemma AnswerQueue(s: State, c: int, l: int)
    requires Inv(s) && Enabled(s, AnswerNext(c))
    requires l in s.callers && Led(s.callers[l])
    ensures QueueSound(Take(s, AnswerNext(c)), l)
  {
    var s' := Take(s, AnswerNext(c));
    assert QueueSound(s, l);
    var w := NextAnswered(s, c);
    if l != c {
      assert forall i :: 0 <= i < |s.queue[l]| ==> s.queue[l][i] != w;
    } else {
      assert Done(s', c) == Done(s, c) + 1;
    }
  }

  lemma NextAnswered(s: State, c: int) returns (w: int)
    requires Queues(s) && Enabled(s, AnswerNext(c))
    ensures c in s.queue && 0 <= Done(s, c) < |s.queue[c]| && w == s.callers[c].rest[0] == s.queue[c][Done(s, c)]
    ensures w in s.callers && s.callers[w] == Queued(s.callers[c].key, c)
  {
    assert QueueSound(s, c);
    w := s.callers[c].rest[0];
  }

  lemma OtherQueue(s: State, step: Step, l: int)
    requires Inv(s) && Enabled(s, step) && !step.Arrive? && !step.AnswerNext?
    requires l in s.callers && Led(s.callers[l])
    ensures QueueSound(Take(s, step), l)
  {
    var s' := Take(s, step);
    assert QueueSound(s, l);
    assert Done(s', l) == Done(s, l) && s'.queue == s.queue && s'.answers == s.answers;
    assert Done(s, l) > 0 ==> OutcomeOf(s'.callers[l]) == OutcomeOf(s.callers[l]);
  }

  lemma StepQueues(s: State, step: Step)
    requires Inv(s) && Enabled(s, step)
    ensures Queues(Take(s, step))
  {
    var s' := Take(s, step);
    forall l | l in s'.callers && Led(s'.callers[l]) ensures l in s'.queue && QueueSound(s', l) {
      match step
      case Arrive(c, key) => ArriveQueue(s, c, key, l);
      case AnswerNext(c) => AnswerQueue(s, c, l);
      case _ => OtherQueue(s, step, l);
    }
  }

  lemma StepKeeps(s: State, step: Step)
    requires Inv(s) && Enabled(s, step)
    ensures Inv(Take(s, step))
  {
    StepQueues(s, step);
    StepWaiters(s, step);
    StepKeys(s, step);
    StepLeaders(s, step);
  }

  lemma StepWaiters(s: State, step: Step)
    requires WaitersQueued(s) && KeysHeld(s) && Enabled(s, step)
    ensures WaitersQueued(Take(s, step))
  {
  }

  lemma StepKeys(s: State, step: Step)
    requires KeysHeld(s) && LeadersListed(s) && Enabled(s, step)
    ensures KeysHeld(Take(s, step))
  {
  }

  lemma StepLeaders(s: State, step: Step)
    requires KeysHeld(s) && LeadersListed(s) && Enabled(s, step)
    ensures LeadersListed(Take(s, step))
  {
  }

  lemma {:induction false} RunsKeep(s: State, steps: seq<Step>)
    requires Inv(s) && Legal(s, steps)
    ensures Inv(Run(s, steps))
    decreases |steps|
  {
    if steps != [] {
      StepKeeps(s, steps[0]);
      RunsKeep(Take(s, steps[0]), steps[1..]);
    }
  }

  lemma InitSound()
    ensures Inv(INIT)
  {
  }

  /** A caller queued behind `l` has exactly the answer `l` has reached in its queue. */
  lemma AnswerOf(s: State, c: int)
    requires Inv(s) && c in s.callers && s.callers[c].Queued?
    ensures var l := s.callers[c].leader;
      && l in s.callers && l in s.queue && c in s.queue[l] && c in s.answers
      && (s.callers[l].Returned? ==> s.answers[c] == [s.callers[l].outcome])
      && (BeforeRemoval(s.callers[l]) || s.callers[l].Probing? ==> s.answers[c] == [])
      && (s.callers[l].Answering? ==> s.answers[c] == if c in s.callers[l].rest then [] else [s.callers[l].outcome])
  {
    var l := s.callers[c].leader;
    assert QueueSound(s, l);
    var i :| 0 <= i < |s.queue[l]| && s.queue[l][i] == c;
    if s.callers[l].Answering? {
      var d := Done(s, l);
      assert s.callers[l].rest == s.queue[l][d..];
      if i >= d {
        assert s.queue[l][d..][i - d] == c;
      }
    }
  }

  /**
   In every interleaving: one probe per key at a time; the callers queued behind a leader are exactly
   its queue, whole from its removal step on; a returned leader has answered each of them once with
   its outcome; and a caller whose leader is gone is unanswered exactly when that leader left early.
   */
  lemma SharedProbe(steps: seq<Step>)
    requires Legal(INIT, steps)
    ensures var s := Run(INIT, steps);
      && (forall a, b :: (a in s.callers && b in s.callers && s.callers[a].Probing? && s.callers[b].Probing?
                          && s.callers[a].key == s.callers[b].key) ==> a == b)
      && (forall l, c :: (l in s.callers && Led(s.callers[l])) ==>
            (l in s.queue && (c in s.queue[l] <==> c in s.callers && s.callers[c] == Queued(s.callers[l].key, l))))
      && (forall l, c :: (l in s.callers && s.callers[l].Returned? && l in s.queue && c in s.queue[l]) ==>
            (c in s.answers && s.answers[c] == [s.callers[l].outcome]))
      && (forall c :: (c in s.callers && s.callers[c].Queued?) ==>
            (var l := s.callers[c].leader;
             && l in s.callers && c in s.answers
             && (s.callers[l].Returned? || s.callers[l].LeftEarly? ==> (s.answers[c] == [] <==> s.callers[l].LeftEarly?))))
  {
    var s := Run(INIT, steps);
    InitSound();
    RunsKeep(INIT, steps);
    forall c | c in s.callers && s.callers[c].Queued? {
      AnswerOf(s, c);
    }
    forall l, c | l in s.callers && Led(s.callers[l]) && l in s.queue && c in s.queue[l]
      ensures c in s.callers && s.callers[c] == Queued(s.callers[l].key, l)
    {
      assert QueueSound(s, l);
    }
  }

  /* ---- The outcome is the one the leader's probe came back with ---- */

  lemma OutcomeStays(s: State, step: Step, l: int)
    requires Enabled(s, step) && l in s.callers && OutcomeOf(s.callers[l]).Some?
    ensures var c := Take(s, step).callers; l in c && OutcomeOf(c[l]) == OutcomeOf(s.callers[l]) && c[l].key == s.callers[l].key
  {
  }

  lemma {:induction false} OutcomeKept(s: State, steps: seq<Step>, l: int)
    requires Legal(s, steps) && l in s.callers && OutcomeOf(s.callers[l]).Some?
    ensures l in Run(s, steps).callers && OutcomeOf(Run(s, steps).callers[l]) == OutcomeOf(s.callers[l])
    ensures Run(s, steps).callers[l].key == s.callers[l].key
    decreases |steps|
  {
    if steps != [] {
      OutcomeStays(s, steps[0], l);
      OutcomeKept(Take(s, steps[0]), steps[1..], l);
    }
  }

  lemma {:induction false} ProbedOutcome(s: State, steps: seq<Step>, p: nat, l: int, o: Outcome)
    requires Legal(s, steps) && p < |steps| && steps[p] == ProbeSucceeds(l, o)
    ensures l in Run(s, steps).callers && OutcomeOf(Run(s, steps).callers[l]) == Some(o)
    decreases |steps|
  {
    if p == 0 {
      OutcomeKept(Take(s, steps[0]), steps[1..], l);
    } else {
      ProbedOutcome(Take(s, steps[0]), steps[1..], p - 1, l, o);
    }
  }

  lemma NewOutcome(s: State, step: Step, l: int, o: Outcome)
    requires Enabled(s, step) && (l !in s.callers || OutcomeOf(s.callers[l]).None?)
    requires l in Take(s, step).callers && OutcomeOf(Take(s, step).callers[l]) == Some(o)
    ensures step == ProbeSucceeds(l, o)
  {
  }

  /** A caller with an outcome has had a successful probe in this run, unless it had the outcome when the run began. */
  lemma {:induction false} OutcomeWasProbed(s: State, steps: seq<Step>, l: int, o: Outcome) returns (p: nat)
    requires Legal(s, steps) && l in Run(s, steps).callers && OutcomeOf(Run(s, steps).callers[l]) == Some(o)
    requires l !in s.callers || OutcomeOf(s.callers[l]).None?
    ensures p < |steps| && steps[p] == ProbeSucceeds(l, o)
    decreases |steps|
  {
    var s' := Take(s, steps[0]);
    if l in s'.callers && OutcomeOf(s'.callers[l]).Some? {
      OutcomeKept(s', steps[1..], l);
      NewOutcome(s, steps[0], l, o);
      p := 0;
    } else {
      p := OutcomeWasProbed(s', steps[1..], l, o);
      p := p + 1;
    }
  }

  /**
   In every run: a leader that has returned was told `o` by its own probe exactly when `o` is what it returns, and then
   everyone who queued behind it has been answered `o` and nothing else.
   */
  lemma ProbedIsAnswered(steps: seq<Step>, l: int, o: Outcome)
    requires Legal(INIT, steps)
    requires l in Run(INIT, steps).callers && Run(INIT, steps).callers[l].Returned?
    ensures var s := Run(INIT, steps);
      && (s.callers[l].outcome == o <==> exists p :: 0 <= p < |steps| && steps[p] == ProbeSucceeds(l, o))
      && (s.callers[l].outcome == o ==>
            forall c :: c in s.callers && s.callers[c] == Queued(s.callers[l].key, l) ==> c in s.answers && s.answers[c] == [o])
  {
    var s := Run(INIT, steps);
    InitSound();
    RunsKeep(INIT, steps);
    if s.callers[l].outcome == o {
      var p := OutcomeWasProbed(INIT, steps, l, o);
      forall c | c in s.callers && s.callers[c] == Queued(s.callers[l].key, l) ensures c in s.answers && s.answers[c] == [o] {
        AnswerOf(s, c);
      }
    }
    if p :| 0 <= p < |steps| && steps[p] == ProbeSucceeds(l, o) {
      ProbedOutcome(INIT, steps, p, l, o);
    }
  }

  /* ---- A leader whose probe came back can finish, and answers everyone ---- */

  /** `n` answers, then the return. */
  function AnswersThenReturn(l: int, n: nat): seq<Step> {
    if n == 0 then [Return(l)] else [AnswerNext(l)] + AnswersThenReturn(l, n - 1)
  }

  lemma {:induction false} AnswersAll(s: State, l: int)
    requires Inv(s) && l in s.callers && s.callers[l].Answering?
    ensures Legal(s, AnswersThenReturn(l, |s.callers[l].rest|))
    ensures var s' := Run(s, AnswersThenReturn(l, |s.callers[l].rest|));
      && l in s'.callers && s'.callers[l] == Returned(s.callers[l].key, s.callers[l].outcome)
      && s'.leaders == s.leaders && s'.queue == s.queue
    decreases |s.callers[l].rest|
  {
    var n := |s.callers[l].rest|;
    var steps := AnswersThenReturn(l, n);
    if n == 0 {
      assert Run(Take(s, Return(l)), steps[1..]) == Take(s, Return(l));
    } else {
      var next := Take(s, AnswerNext(l));
      StepKeeps(s, AnswerNext(l));
      AnswersAll(next, l);
      assert steps[1..] == AnswersThenReturn(l, n - 1);
    }
  }

  /**
   From every reachable state in which the probe of `l` has come back: removing the key, as many answers as callers are
   queued, and the return can be taken, leave the key free, and have answered each of them the outcome.
   */
  lemma LeaderFinishes(s: State, l: int)
    requires Inv(s) && l in s.callers && s.callers[l].Ready? && l in s.queue
    ensures var steps := [RemoveKey(l)] + AnswersThenReturn(l, |s.queue[l]|);
      && Legal(s, steps)
      && var s' := Run(s, steps);
         && l in s'.callers && s'.callers[l] == Returned(s.callers[l].key, s.callers[l].outcome) && s.callers[l].key !in s'.leaders
         && forall c :: c in s.queue[l] ==> c in s'.answers && s'.answers[c] == [s.callers[l].outcome]
  {
    var removed := Take(s, RemoveKey(l));
    var rest := AnswersThenReturn(l, |s.queue[l]|);
    assert ([RemoveKey(l)] + rest)[1..] == rest;
    RemovedAnswering(s, l);
    AnswersAll(removed, l);
    RunsKeep(removed, rest);
    forall c | c in s.queue[l] {
      AnsweredWhenReturned(Run(removed, rest), l, c);
    }
  }

  lemma RemovedAnswering(s: State, l: int)
    requires Inv(s) && l in s.callers && s.callers[l].Ready? && l in s.queue
    ensures var removed := Take(s, RemoveKey(l));
      && Inv(removed) && removed.queue == s.queue && s.callers[l].key !in removed.leaders
      && removed.callers[l] == Answering(s.callers[l].key, s.callers[l].outcome, s.queue[l])
  {
    StepKeeps(s, RemoveKey(l));
  }

  lemma AnsweredWhenReturned(s: State, l: int, c: int)
    requires Inv(s) && l in s.callers && s.callers[l].Returned? && l in s.queue && c in s.queue[l]
    ensures c in s.answers && s.answers[c] == [s.callers[l].outcome]
  {
    assert QueueSound(s, l);
  }

  /** Whoever asks while a leader has not reached removal queues last behind it; otherwise it leads. */
  lemma ArrivalJoinsCurrentLeader(s: State, c: int, key: Key)
    requires Inv(s) && c !in s.callers
    ensures var s' := Take(s, Arrive(c, key));
      && (forall l :: (l in s.callers && BeforeRemoval(s.callers[l]) && s.callers[l].key == key) ==>
            (s'.callers[c] == Queued(key, l) && l in s.queue && s'.queue[l] == s.queue[l] + [c]))
      && ((forall l :: l in s.callers && BeforeRemoval(s.callers[l]) ==> s.callers[l].key != key) ==>
            s'.callers[c] == Probing(key))
  {
  }

  lemma StaysEarly(s: State, step: Step, l: int)
    requires Enabled(s, step) && l in s.callers && s.callers[l].LeftEarly?
    ensures l in Take(s, step).callers && Take(s, step).callers[l] == s.callers[l]
  {
  }

  lemma {:induction false} StaysEarlyInRuns(s: State, steps: seq<Step>, l: int)
    requires Legal(s, steps) && l in s.callers && s.callers[l].LeftEarly?
    ensures l in Run(s, steps).callers && Run(s, steps).callers[l] == s.callers[l]
    decreases |steps|
  {
    if steps != [] {
      StaysEarly(s, steps[0], l);
      StaysEarlyInRuns(Take(s, steps[0]), steps[1..], l);
    }
  }

  /** While a leader gone early is there its key is held, nobody probes it, and nobody queued behind it has an answer. */
  lemma HeldByEarly(s: State, l: int)
    requires Inv(s) && l in s.callers && s.callers[l].LeftEarly?
    ensures s.callers[l].key in s.leaders
    ensures forall c :: c in s.callers ==> s.callers[c] != Probing(s.callers[l].key)
    ensures forall c :: c in s.callers && s.callers[c] == Queued(s.callers[l].key, l) ==> c in s.answers && s.answers[c] == []
  {
    forall c | c in s.callers && s.callers[c] == Queued(s.callers[l].key, l) ensures c in s.answers && s.answers[c] == [] {
      AnswerOf(s, c);
    }
  }

  /** An early error holds the key for good: no later probe of it runs and nobody behind it is ever answered. */
  lemma EarlyErrorHoldsKey(s: State, steps: seq<Step>, l: int)
    requires Inv(s) && Legal(s, steps)
    requires l in s.callers && s.callers[l].LeftEarly?
    ensures var s', key := Run(s, steps), s.callers[l].key;
      && l in s'.callers && s'.callers[l] == LeftEarly(key) && key in s'.leaders
      && (forall c :: c in s'.callers ==> s'.callers[c] != Probing(key))
      && (forall c :: c in s'.callers && s'.callers[c] == Queued(key, l) ==> c in s'.answers && s'.answers[c] == [])
  {
    RunsKeep(s, steps);
    StaysEarlyInRuns(s, steps, l);
    HeldByEarly(Run(s, steps), l);
  }

  /** A leader done with its key leaves the key held exactly when it left early. */
  lemma KeyHeldExactlyAfterEarlyError(s: State, l: int)
    requires Inv(s) && l in s.callers && (s.callers[l].LeftEarly? || s.callers[l].Returned? || s.callers[l].Answering?)
    ensures (s.callers[l].key in s.leaders && s.leaderOf[s.callers[l].key] == l) <==> s.callers[l].LeftEarly?
  {
  }

  /** Such a run: the second caller of a key waits behind a leader whose probe fails early, for an answer nobody owes it. */
  lemma WaiterLeftBehind(k: Key)
    ensures var steps := [Arrive(1, k), Arrive(2, k), ProbeErrors(1)];
      && Legal(INIT, steps)
      && var s := Run(INIT, steps);
         && s.callers == map[1 := LeftEarly(k), 2 := Queued(k, 1)] && s.answers == map[2 := []]
         && k in s.leaders && s.leaders[k] == [2]
  {
    var steps := [Arrive(1, k), Arrive(2, k), ProbeErrors(1)];
    var s1 := Take(INIT, Arrive(1, k));
    var s2 := Take(s1, Arrive(2, k));
    var s3 := Take(s2, ProbeErrors(1));
    assert steps[1..] == [Arrive(2, k), ProbeErrors(1)] && steps[1..][1..] == [ProbeErrors(1)] && steps[1..][1..][1..] == [];
    assert Legal(s3, []) && Legal(s2, [ProbeErrors(1)]) && Legal(s1, [Arrive(2, k), ProbeErrors(1)]);
    assert Run(s3, []) == s3 && Run(s2, [ProbeErrors(1)]) == s3 && Run(s1, [Arrive(2, k), ProbeErrors(1)]) == s3;
  }
}
