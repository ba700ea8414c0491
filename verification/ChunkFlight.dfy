/**
 Chunk downloads shared through the session table, one atomic step at a time. A subscriber holds
 its map entry from looking it up until it has a receiver, so removal waits for it; sending does not.
 */
module ChunkFlight {
  import opened Bytes
  import opened Schema

  datatype Message = Data(bytes: Bytes) | Failure

  datatype Phase = Fetching | Finished(result: Message) | Sent(result: Message) | Ended(result: Message)

  datatype Session = Session(key: Slot, phase: Phase)

  /** `beforeSend` records whether the session had not yet sent when this receiver was created. */
  datatype Receiver = Receiver(key: Slot, session: nat, inbox: seq<Message>, beforeSend: bool)

  datatype State = State(
    table: map<Slot, nat>,
    held: map<Slot, int>,
    sessions: map<nat, Session>,
    next: nat,
    receivers: map<int, Receiver>)

  datatype Step =
    | Enter(rid: int, key: Slot)
    | Register(key: Slot)
    | Finish(session: nat, result: Message)
    | Send(session: nat)
    | Remove(session: nat)

  datatype Seen = Pending | Got(message: Message) | Closed

  const INIT := State(map[], map[], map[], 0, map[])

  predicate HasSent(p: Phase) {
    p.Sent? || p.Ended?
  }

  /** `truth(k)` is the right content of chunk `k`; fetches deliver it or fail. */
  ghost predicate Enabled(s: State, step: Step, truth: Slot -> Bytes) {
    match step
    case Enter(rid, key) => key !in s.held && rid !in s.receivers && rid !in s.held.Values
    case Register(key) => key in s.held && key in s.table && s.table[key] in s.sessions
    case Finish(i, result) =>
      i in s.sessions && s.sessions[i].phase.Fetching? && (result.Data? ==> result.bytes == truth(s.sessions[i].key))
    case Send(i) => i in s.sessions && s.sessions[i].phase.Finished?
    case Remove(i) => i in s.sessions && s.sessions[i].phase.Sent? && s.sessions[i].key !in s.held
  }

  function Take(s: State, step: Step): State {
    match step
    case Enter(rid, key) =>
      if key in s.table then s.(held := s.held[key := rid])
      else s.(held := s.held[key := rid], table := s.table[key := s.next],
              sessions := s.sessions[s.next := Session(key, Fetching)], next := s.next + 1)
    case Register(key) =>
      if key in s.held && key in s.table && s.table[key] in s.sessions then
        var i := s.table[key];
        s.(held := s.held - {key},
           receivers := s.receivers[s.held[key] := Receiver(key, i, [], !HasSent(s.sessions[i].phase))])
      else s
    case Finish(i, result) =>
      if i in s.sessions then s.(sessions := s.sessions[i := s.sessions[i].(phase := Finished(result))]) else s
    case Send(i) =>
      if i in s.sessions && s.sessions[i].phase.Finished? then
        var m := s.sessions[i].phase.result;
        s.(sessions := s.sessions[i := s.sessions[i].(phase := Sent(m))],
           receivers := map r | r in s.receivers ::
             if s.receivers[r].session == i then s.receivers[r].(inbox := s.receivers[r].inbox + [m]) else s.receivers[r])
      else s
    case Remove(i) =>
      if i in s.sessions && s.sessions[i].phase.Sent? then
        s.(sessions := s.sessions[i := s.sessions[i].(phase := Ended(s.sessions[i].phase.result))],
           table := s.table - {s.sessions[i].key})
      else s
  }

  /** What `recv` returns: a buffered message, else closure once every sender is gone. */
  function Recv(s: State, r: int): Seen
    requires r in s.receivers
  {
    var rec := s.receivers[r];
    if rec.inbox != [] then Got(rec.inbox[0])
    else if rec.session in s.sessions && s.sessions[rec.session].phase.Ended? then Closed
    else Pending
  }

  function Run(steps: seq<Step>): State {
    if steps == [] then INIT else Take(Run(steps[..|steps| - 1]), steps[|steps| - 1])
  }

  ghost predicate Legal(steps: seq<Step>, truth: Slot -> Bytes)
    decreases |steps|
  {
    steps == [] || (Legal(steps[..|steps| - 1], truth) && Enabled(Run(steps[..|steps| - 1]), steps[|steps| - 1], truth))
  }

  /* ---- Invariant ---- */

  ghost predicate TableSound(s: State) {
    && (forall k :: k in s.table ==>
          s.table[k] in s.sessions && s.sessions[s.table[k]].key == k && !s.sessions[s.table[k]].phase.Ended?)
    && (forall k :: k in s.held ==> k in s.table)
    && (forall i :: i in s.sessions ==> i < s.next)
  }

  /** A session that has not ended is the one its key maps to: at most one is in flight per chunk. */
  ghost predicate OneInFlight(s: State) {
    forall i :: i in s.sessions && !s.sessions[i].phase.Ended? ==>
      s.sessions[i].key in s.table && s.table[s.sessions[i].key] == i
  }

  ghost predicate ResultsTrue(s: State, truth: Slot -> Bytes) {
    forall i :: i in s.sessions && !s.sessions[i].phase.Fetching? && s.sessions[i].phase.result.Data? ==>
      s.sessions[i].phase.result.bytes == truth(s.sessions[i].key)
  }

  ghost predicate ReceiverSound(s: State, r: int)
    requires r in s.receivers
  {
    var rec := s.receivers[r];
    && rec.session in s.sessions && s.sessions[rec.session].key == rec.key
    && var phase := s.sessions[rec.session].phase;
       && (!rec.beforeSend ==> HasSent(phase))
       && rec.inbox == if rec.beforeSend && HasSent(phase) then [phase.result] else []
  }

  ghost predicate Inv(s: State, truth: Slot -> Bytes) {
    && TableSound(s) && OneInFlight(s) && ResultsTrue(s, truth)
    && forall r :: r in s.receivers ==> ReceiverSound(s, r)
  }

  lemma StepReceivers(s: State, step: Step, truth: Slot -> Bytes, r: int)
    requires Inv(s, truth) && Enabled(s, step, truth) && r in Take(s, step).receivers
    ensures ReceiverSound(Take(s, step), r)
  {
    if r in s.receivers {
      assert ReceiverSound(s, r);
    }
  }

  lemma StepKeeps(s: State, step: Step, truth: Slot -> Bytes)
    requires Inv(s, truth) && Enabled(s, step, truth)
    ensures Inv(Take(s, step), truth)
  {
    var s' := Take(s, step);
    forall r | r in s'.receivers ensures ReceiverSound(s', r) {
      StepReceivers(s, step, truth, r);
    }
    assert TableSound(s') by { StepTable(s, step, truth); }
    assert OneInFlight(s') by { StepOneInFlight(s, step, truth); }
    assert ResultsTrue(s', truth) by { StepResults(s, step, truth); }
  }

  lemma StepTable(s: State, step: Step, truth: Slot -> Bytes)
    requires TableSound(s) && OneInFlight(s) && Enabled(s, step, truth)
    ensures TableSound(Take(s, step))
  {
  }

  lemma StepOneInFlight(s: State, step: Step, truth: Slot -> Bytes)
    requires TableSound(s) && OneInFlight(s) && Enabled(s, step, truth)
    ensures OneInFlight(Take(s, step))
  {
  }

  lemma StepResults(s: State, step: Step, truth: Slot -> Bytes)
    requires ResultsTrue(s, truth) && Enabled(s, step, truth)
    ensures ResultsTrue(Take(s, step), truth)
  {
  }

  lemma {:induction false} RunsKeep(steps: seq<Step>, truth: Slot -> Bytes)
    requires Legal(steps, truth)
    ensures Inv(Run(steps), truth)
  {
    if steps != [] {
      var before := steps[..|steps| - 1];
      RunsKeep(before, truth);
      StepKeeps(Run(before), steps[|steps| - 1], truth);
    }
  }

  /**
   In every interleaving: one unfinished download per chunk, and a receiver sees its own chunk's one
   result if it was registered before the send, closure and nothing else if after.
   */
  lemma SharedDownload(steps: seq<Step>, truth: Slot -> Bytes)
    requires Legal(steps, truth)
    ensures var s := Run(steps);
      && (forall i, j :: (i in s.sessions && j in s.sessions && s.sessions[i].key == s.sessions[j].key
                          && !s.sessions[i].phase.Ended? && !s.sessions[j].phase.Ended?) ==> i == j)
      && (forall r :: r in s.receivers ==>
            var rec := s.receivers[r];
            && rec.session in s.sessions && s.sessions[rec.session].key == rec.key
            && var phase := s.sessions[rec.session].phase;
               && (rec.beforeSend ==> Recv(s, r) == if HasSent(phase) then Got(phase.result) else Pending)
               && (!rec.beforeSend ==> Recv(s, r) == if phase.Ended? then Closed else Pending)
               && (Recv(s, r).Got? && Recv(s, r).message.Data? ==> Recv(s, r).message.bytes == truth(rec.key)))
  {
    RunsKeep(steps, truth);
    var s := Run(steps);
    forall r | r in s.receivers ensures ReceiverSound(s, r) {
    }
  }

  /* ---- What a receiver sees is what the download ended with ---- */

  lemma ResultStays(s: State, step: Step, truth: Slot -> Bytes, i: nat)
    requires Enabled(s, step, truth) && TableSound(s) && i in s.sessions && !s.sessions[i].phase.Fetching?
    ensures var t := Take(s, step).sessions;
      i in t && t[i].key == s.sessions[i].key && !t[i].phase.Fetching? && t[i].phase.result == s.sessions[i].phase.result
  {
  }

  /** Session `i` is past its download, which ended with `result`. */
  ghost predicate EndedWith(s: State, i: nat, result: Message) {
    i in s.sessions && !s.sessions[i].phase.Fetching? && s.sessions[i].phase.result == result
  }

  lemma EndsWith(s: State, step: Step, truth: Slot -> Bytes, i: nat, result: Message)
    requires Enabled(s, step, truth) && TableSound(s) && (step == Finish(i, result) || EndedWith(s, i, result))
    ensures EndedWith(Take(s, step), i, result)
  {
    if step != Finish(i, result) {
      ResultStays(s, step, truth, i);
    }
  }

  lemma {:induction false} FinishedWith(steps: seq<Step>, truth: Slot -> Bytes, p: nat, i: nat, result: Message)
    requires Legal(steps, truth) && p < |steps| && steps[p] == Finish(i, result)
    ensures EndedWith(Run(steps), i, result)
  {
    var before, step := steps[..|steps| - 1], steps[|steps| - 1];
    RunsKeep(before, truth);
    if p < |before| {
      FinishedWith(before, truth, p, i, result);
    }
    EndsWith(Run(before), step, truth, i, result);
  }

  lemma SeesResult(s: State, truth: Slot -> Bytes, i: nat, result: Message, r: int)
    requires Inv(s, truth) && EndedWith(s, i, result) && r in s.receivers && s.receivers[r].session == i
    ensures s.receivers[r].beforeSend ==> Recv(s, r) == if s.sessions[i].phase.Finished? then Pending else Got(result)
  {
    assert ReceiverSound(s, r);
  }

  /** A session ends with what its download did, and a receiver there before the send sees exactly that. */
  lemma ReceiversSeeTheDownload(steps: seq<Step>, truth: Slot -> Bytes, p: nat, i: nat, result: Message, r: int)
    requires Legal(steps, truth) && p < |steps| && steps[p] == Finish(i, result)
    requires r in Run(steps).receivers && Run(steps).receivers[r].session == i
    ensures var s := Run(steps);
      && i in s.sessions
      && (s.receivers[r].beforeSend ==> Recv(s, r) == if s.sessions[i].phase.Finished? then Pending else Got(result))
  {
    FinishedWith(steps, truth, p, i, result);
    RunsKeep(steps, truth);
    SeesResult(Run(steps), truth, i, result, r);
  }

  /* ---- Each step does its part ---- */

  /** Sending reaches every receiver the session has by then, and nothing else changes. */
  lemma SendReaches(s: State, truth: Slot -> Bytes, i: nat)
    requires Inv(s, truth) && Enabled(s, Send(i), truth)
    ensures var s' := Take(s, Send(i));
      && s'.sessions == s.sessions[i := Session(s.sessions[i].key, Sent(s.sessions[i].phase.result))]
      && s'.receivers.Keys == s.receivers.Keys
      && (forall r :: r in s.receivers && s.receivers[r].session == i ==> Recv(s', r) == Got(s.sessions[i].phase.result))
      && (forall r :: r in s.receivers && s.receivers[r].session != i ==> s'.receivers[r] == s.receivers[r])
      && s'.table == s.table && s'.held == s.held && s'.next == s.next
  {
    forall r | r in s.receivers && s.receivers[r].session == i ensures Recv(Take(s, Send(i)), r) == Got(s.sessions[i].phase.result) {
      assert ReceiverSound(s, r);
    }
  }

  /** Removal frees the chunk for a new download, and a receiver that came after the send sees closure. */
  lemma RemoveFrees(s: State, truth: Slot -> Bytes, i: nat)
    requires Inv(s, truth) && Enabled(s, Remove(i), truth)
    ensures var s', key := Take(s, Remove(i)), s.sessions[i].key;
      && key !in s'.table && (forall k :: k != key ==> (k in s'.table <==> k in s.table) && (k in s.table ==> s'.table[k] == s.table[k]))
      && s'.receivers == s.receivers && s'.held == s.held && s'.next == s.next
      && s'.sessions == s.sessions[i := Session(key, Ended(s.sessions[i].phase.result))]
      && (forall r :: r in s.receivers && s.receivers[r].session == i ==>
            Recv(s', r) == if s.receivers[r].beforeSend then Got(s.sessions[i].phase.result) else Closed)
  {
    forall r | r in s.receivers && s.receivers[r].session == i
      ensures Recv(Take(s, Remove(i)), r) == if s.receivers[r].beforeSend then Got(s.sessions[i].phase.result) else Closed
    {
      assert ReceiverSound(s, r);
    }
  }

  /** A subscriber joins the download of its chunk if there is one, else starts one; and gets a receiver for it. */
  lemma SubscriberJoins(s: State, truth: Slot -> Bytes, rid: int, k: Slot, w: State)
    requires Inv(s, truth) && Enabled(s, Enter(rid, k), truth)
    requires Inv(w, truth) && k in w.held && w.held[k] == rid
    ensures var e := Take(s, Enter(rid, k));
      && e.held == s.held[k := rid] && k in e.table && e.receivers == s.receivers
      && (if k in s.table then e.sessions == s.sessions && e.table == s.table
          else e.table == s.table[k := s.next] && s.next !in s.sessions && e.sessions == s.sessions[s.next := Session(k, Fetching)])
    ensures Enabled(w, Register(k), truth)
    ensures var g := Take(w, Register(k));
      && rid in g.receivers && g.receivers[rid].session == w.table[k] && g.receivers[rid].key == k
      && (g.receivers[rid].beforeSend <==> w.sessions[w.table[k]].phase.Fetching? || w.sessions[w.table[k]].phase.Finished?)
      && k !in g.held && g.sessions == w.sessions && g.table == w.table && g.receivers - {rid} == w.receivers - {rid}
  {
  }

  lemma LegalSnoc(steps: seq<Step>, step: Step, truth: Slot -> Bytes)
    requires Legal(steps, truth) && Enabled(Run(steps), step, truth)
    ensures Legal(steps + [step], truth) && Run(steps + [step]) == Take(Run(steps), step)
  {
    assert (steps + [step])[..|steps|] == steps;
  }

  /** A first download fails and its result is sent before its creator has registered. */
  lemma SentTooEarly(k: Slot, truth: Slot -> Bytes) returns (steps: seq<Step>)
    ensures Legal(steps, truth)
    ensures Run(steps) == State(map[k := 0], map[k := 7], map[0 := Session(k, Sent(Failure))], 1, map[])
  {
    var s1, s2 := [] + [Enter(7, k)], [] + [Enter(7, k)] + [Finish(0, Failure)];
    LegalSnoc([], Enter(7, k), truth);
    LegalSnoc(s1, Finish(0, Failure), truth);
    LegalSnoc(s2, Send(0), truth);
    steps := s2 + [Send(0)];
    assert Run(steps).receivers == map[];
  }

  /** The creator itself can be too late: a send before its own registration leaves it only closure. */
  lemma CreatorCanMissTheSend(k: Slot, truth: Slot -> Bytes)
    ensures exists steps, r :: Legal(steps, truth) && r in Run(steps).receivers && Recv(Run(steps), r) == Closed
  {
    var s3 := SentTooEarly(k, truth);
    var s4 := s3 + [Register(k)];
    LegalSnoc(s3, Register(k), truth);
    LegalSnoc(s4, Remove(0), truth);
    assert Recv(Run(s4 + [Remove(0)]), 7) == Closed;
  }
}
