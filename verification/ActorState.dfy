/** The state of a file session, what each thing it does makes of it, and what every step keeps. */
module ActorState {
  import opened Wrappers
  import opened Bytes
  import opened ChunkMath
  import opened Schedule
  import opened InOrder
  import opened Delivery
  import opened Seqs

  /** What never changes: the upstream bytes, the chunk size and count, the urgency and the prefetch budget. */
  datatype Config = Config(content: Bytes, c: nat, count: nat, u: Urgency, base: nat)

  ghost predicate ConfigOk(g: Config) {
    g.c > 0 && g.count == (if ChunkCount(|g.content|, g.c) < 1 then 1 else ChunkCount(|g.content|, g.c)) && Admissible(g.u)
  }

  /** A subscriber's history: its range, and how many chunks were complete when it joined and when it left. */
  datatype Life = Life(start: nat, end: nat, at: nat, until: Option<nat>)

  /** `sent[id]` is what was handed to channel `id`; `done` and `lives` are history. */
  datatype View = View(
    subs: seq<Sub>, completed: set<nat>, inflight: set<nat>, sent: seq<seq<Message>>, done: seq<nat>, lives: seq<Life>)

  const FRESH := View([], {}, {}, [], [], [])

  function Upto(l: Life, n: nat): nat {
    if l.until.Some? then l.until.value else n
  }

  /** The chunks completed while `l` was live. */
  function Seen(done: seq<nat>, l: Life): seq<nat>
    requires l.at <= Upto(l, |done|) <= |done|
  {
    done[l.at..Upto(l, |done|)]
  }

  function StayOf(l: Life, c: nat): Stay
    requires c > 0
  {
    Stay(l.start / c, l.end / c, l.at, l.until)
  }

  function Stays(lives: seq<Life>, c: nat): seq<Stay>
    requires c > 0
  {
    seq(|lives|, i requires 0 <= i < |lives| => StayOf(lives[i], c))
  }

  ghost predicate LivesSound(v: View, g: Config) {
    forall id: nat :: id < |v.lives| ==>
      var l := v.lives[id];
      l.start <= l.end < |g.content| && l.at <= Upto(l, |v.done|) <= |v.done|
  }

  ghost predicate SubsSound(v: View) {
    && (forall i: nat :: i < |v.subs| ==>
          var s := v.subs[i];
          s.id < |v.lives| && v.lives[s.id].start == s.start && v.lives[s.id].end == s.end && v.lives[s.id].until.None?)
    && (forall i: nat, j: nat :: i < j < |v.subs| ==> v.subs[i].id != v.subs[j].id)
    && (forall id: nat {:trigger HasSub(v.subs, id)} :: id < |v.lives| && v.lives[id].until.None? ==> HasSub(v.subs, id))
  }

  ghost predicate HasSub(subs: seq<Sub>, id: nat) {
    exists i: nat :: i < |subs| && subs[i].id == id
  }

  ghost predicate DoneSound(v: View, g: Config) {
    && v.completed == ToSet(v.done) && Distinct(v.done)
    && (forall q: nat :: q in v.completed || q in v.inflight ==> q < g.count)
    && v.inflight !! v.completed
  }

  /** Each channel got the intersection of its range with every chunk completed in its lifetime, and nothing else. */
  ghost predicate SentSound(v: View, g: Config)
    requires LivesSound(v, g)
  {
    && |v.sent| == |v.lives|
    && forall id: nat :: id < |v.lives| ==>
         v.sent[id] == Messages(g.content, g.c, Seen(v.done, v.lives[id]), v.lives[id].start, v.lives[id].end)
  }

  ghost predicate Sound(v: View, g: Config) {
    ConfigOk(g) && LivesSound(v, g) && SubsSound(v) && DoneSound(v, g) && SentSound(v, g) && Driven(v.done, Stays(v.lives, g.c))
  }

  lemma FreshSound(g: Config)
    requires ConfigOk(g)
    ensures Sound(FRESH, g)
  {
  }

  /* ---- Joining ---- */

  function Join(v: View, start: nat, end: nat): View {
    v.(subs := v.subs + [Sub(|v.lives|, start, end)], sent := v.sent + [[]],
       lives := v.lives + [Life(start, end, |v.done|, None)])
  }

  lemma DrivenMore(done: seq<nat>, stays: seq<Stay>, more: seq<Stay>)
    requires Driven(done, stays) && |stays| <= |more|
    requires forall d: nat, t: nat :: d < |stays| && t < |done| && Present(stays[d], t) ==>
               Present(more[d], t) && more[d].first == stays[d].first && more[d].last == stays[d].last
    ensures Driven(done, more)
  {
    forall t: nat | t < |done| ensures HasDriver(done, more, t) {
      assert HasDriver(done, stays, t);
      var d: nat :| DrivenBy(done, stays, t, d);
      assert DrivenBy(done, more, t, d);
    }
  }

  lemma JoinSubs(v: View, start: nat, end: nat)
    requires SubsSound(v)
    ensures SubsSound(Join(v, start, end))
  {
    var v' := Join(v, start, end);
    forall id: nat | id < |v'.lives| && v'.lives[id].until.None? ensures HasSub(v'.subs, id) {
      if id < |v.lives| {
        assert HasSub(v.subs, id);
        var i: nat :| i < |v.subs| && v.subs[i].id == id;
        assert v'.subs[i].id == id;
      } else {
        assert v'.subs[|v.subs|].id == id;
      }
    }
  }

  lemma JoinSound(v: View, g: Config, start: nat, end: nat)
    requires Sound(v, g) && start <= end < |g.content|
    ensures Sound(Join(v, start, end), g)
  {
    var v' := Join(v, start, end);
    JoinSubs(v, start, end);
    assert v.done[|v.done|..|v.done|] == [];
    DrivenMore(v.done, Stays(v.lives, g.c), Stays(v'.lives, g.c));
  }

  /* ---- Leaving ---- */

  function KeepOpen(subs: seq<Sub>, closed: set<nat>): seq<Sub> {
    if subs == [] then []
    else KeepOpen(subs[..|subs| - 1], closed) + if subs[|subs| - 1].id in closed then [] else [subs[|subs| - 1]]
  }

  function Leave(l: Life, gone: bool, n: nat): Life {
    if gone && l.until.None? then l.(until := Some(n)) else l
  }

  function Clean(v: View, closed: set<nat>): View {
    v.(subs := KeepOpen(v.subs, closed),
       lives := seq(|v.lives|, id requires 0 <= id < |v.lives| => Leave(v.lives[id], id in closed, |v.done|)))
  }

  lemma {:induction false} KeepOpenMembers(subs: seq<Sub>, closed: set<nat>)
    ensures forall s :: s in KeepOpen(subs, closed) <==> s in subs && s.id !in closed
    ensures (forall i: nat, j: nat :: i < j < |subs| ==> subs[i].id != subs[j].id) ==>
              forall i: nat, j: nat :: i < j < |KeepOpen(subs, closed)| ==> KeepOpen(subs, closed)[i].id != KeepOpen(subs, closed)[j].id
  {
    if subs != [] {
      var rest, s := subs[..|subs| - 1], subs[|subs| - 1];
      KeepOpenMembers(rest, closed);
      assert subs == rest + [s];
      forall q ensures q in KeepOpen(subs, closed) <==> q in subs && q.id !in closed {
        assert q in subs <==> q in rest || q == s;
      }
      if forall i: nat, j: nat :: i < j < |subs| ==> subs[i].id != subs[j].id {
        forall i: nat, j: nat | i < j < |KeepOpen(subs, closed)|
          ensures KeepOpen(subs, closed)[i].id != KeepOpen(subs, closed)[j].id
        {
          assert KeepOpen(subs, closed)[i] in KeepOpen(rest, closed);
          assert KeepOpen(rest, closed)[i] in rest;
        }
      }
    }
  }

  /** `out` are the subscribers of `subs` at the positions `kept`, exactly those whose channel is not closed, in order. */
  ghost predicate Keeps(subs: seq<Sub>, closed: set<nat>, out: seq<Sub>, kept: seq<nat>) {
    && |kept| == |out| && (forall k: nat :: k < |kept| ==> kept[k] < |subs| && out[k] == subs[kept[k]])
    && (forall i: nat, j: nat :: i < j < |kept| ==> kept[i] < kept[j])
    && (forall i: nat :: i in kept <==> i < |subs| && subs[i].id !in closed)
  }

  lemma KeepsMore(rest: seq<Sub>, closed: set<nat>, out: seq<Sub>, kept: seq<nat>, s: Sub)
    requires Keeps(rest, closed, out, kept)
    ensures s.id in closed ==> Keeps(rest + [s], closed, out, kept)
    ensures s.id !in closed ==> Keeps(rest + [s], closed, out + [s], kept + [|rest|])
  {
    if s.id !in closed {
      var more := kept + [|rest|];
      forall i: nat ensures i in more <==> i < |rest + [s]| && (rest + [s])[i].id !in closed {
        assert i in more <==> i in kept || i == |rest|;
      }
    }
  }

  lemma {:induction false} KeptInOrder(subs: seq<Sub>, closed: set<nat>) returns (kept: seq<nat>)
    ensures Keeps(subs, closed, KeepOpen(subs, closed), kept)
  {
    if subs == [] {
      kept := [];
    } else {
      var rest, s := subs[..|subs| - 1], subs[|subs| - 1];
      kept := KeptInOrder(rest, closed);
      KeepsMore(rest, closed, KeepOpen(rest, closed), kept, s);
      assert subs == rest + [s] && KeepOpen(rest, closed) + [] == KeepOpen(rest, closed);
      if s.id !in closed {
        kept := kept + [|rest|];
      }
    }
  }

  /**
   Exactly the subscribers whose channel is closed leave, now, the others staying in order; nothing else about the
   session changes.
   */
  lemma ClosedLeave(v: View, closed: set<nat>) returns (kept: seq<nat>)
    ensures var w := Clean(v, closed);
      && Keeps(v.subs, closed, w.subs, kept)
      && |w.lives| == |v.lives|
      && (forall id: nat :: id < |v.lives| ==>
            w.lives[id] == if id in closed && v.lives[id].until.None? then v.lives[id].(until := Some(|v.done|)) else v.lives[id])
      && w.completed == v.completed && w.inflight == v.inflight && w.sent == v.sent && w.done == v.done
  {
    kept := KeptInOrder(v.subs, closed);
  }

  lemma CleanSubs(v: View, closed: set<nat>)
    requires SubsSound(v)
    ensures SubsSound(Clean(v, closed))
  {
    var v' := Clean(v, closed);
    KeepOpenMembers(v.subs, closed);
    forall i: nat | i < |v'.subs|
      ensures var s := v'.subs[i];
        s.id < |v'.lives| && v'.lives[s.id].start == s.start && v'.lives[s.id].end == s.end && v'.lives[s.id].until.None?
    {
      assert v'.subs[i] in v.subs;
    }
    forall id: nat | id < |v'.lives| && v'.lives[id].until.None? ensures HasSub(v'.subs, id) {
      assert HasSub(v.subs, id);
      var i: nat :| i < |v.subs| && v.subs[i].id == id;
      assert v.subs[i] in v'.subs;
    }
  }

  lemma CleanSound(v: View, g: Config, closed: set<nat>)
    requires Sound(v, g)
    ensures Sound(Clean(v, closed), g)
  {
    var v' := Clean(v, closed);
    CleanSubs(v, closed);
    DrivenMore(v.done, Stays(v.lives, g.c), Stays(v'.lives, g.c));
  }

  /* ---- Completing a chunk ---- */

  function Ids(subs: seq<Sub>): set<nat> {
    set s | s in subs :: s.id
  }

  /** Every live channel gets its share of chunk `idx`. */
  function Forwarded(v: View, g: Config, idx: nat): seq<seq<Message>>
    requires LivesSound(v, g)
  {
    seq(|v.sent|, id requires 0 <= id < |v.sent| =>
      if id < |v.lives| && id in Ids(v.subs)
      then v.sent[id] + PartMessage(g.content, g.c, idx * g.c, v.lives[id].start, v.lives[id].end) else v.sent[id])
  }

  function Complete(v: View, g: Config, idx: nat): View
    requires LivesSound(v, g)
  {
    v.(sent := Forwarded(v, g, idx), completed := v.completed + {idx}, done := v.done + [idx])
  }

  lemma CompleteLives(v: View, g: Config, idx: nat)
    requires LivesSound(v, g)
    ensures LivesSound(Complete(v, g, idx), g)
  {
  }

  lemma SeenMore(v: View, g: Config, idx: nat, id: nat)
    requires LivesSound(v, g) && id < |v.lives|
    ensures Upto(v.lives[id], |v.done| + 1) <= |v.done| + 1 && v.lives[id].at <= Upto(v.lives[id], |v.done| + 1)
    ensures Seen(v.done + [idx], v.lives[id])
         == if v.lives[id].until.None? then Seen(v.done, v.lives[id]) + [idx] else Seen(v.done, v.lives[id])
  {
  }

  lemma CompleteSent(v: View, g: Config, idx: nat)
    requires LivesSound(v, g) && SubsSound(v) && SentSound(v, g)
    ensures LivesSound(Complete(v, g, idx), g) && SentSound(Complete(v, g, idx), g)
  {
    var v' := Complete(v, g, idx);
    CompleteLives(v, g, idx);
    forall id: nat | id < |v.lives|
      ensures v'.sent[id] == Messages(g.content, g.c, Seen(v'.done, v.lives[id]), v.lives[id].start, v.lives[id].end)
    {
      SeenMore(v, g, idx, id);
      LiveHasSub(v, id);
      MessagesSnoc(g.content, g.c, Seen(v.done, v.lives[id]), idx, v.lives[id].start, v.lives[id].end);
    }
  }

  lemma LiveHasSub(v: View, id: nat)
    requires SubsSound(v) && id < |v.lives|
    ensures id in Ids(v.subs) <==> v.lives[id].until.None?
  {
    if v.lives[id].until.None? {
      assert HasSub(v.subs, id);
      var i: nat :| i < |v.subs| && v.subs[i].id == id;
      assert v.subs[i] in v.subs;
    }
    if id in Ids(v.subs) {
      var s :| s in v.subs && s.id == id;
      var i: nat :| i < |v.subs| && v.subs[i] == s;
    }
  }

  lemma WantsIsSpan(g: Config, start: nat, end: nat, id: nat, idx: nat)
    requires ConfigOk(g) && start <= end < |g.content|
    ensures Wants(Sub(id, start, end), idx, g.c, g.count) <==> start / g.c <= idx <= end / g.c
    ensures end / g.c < g.count
  {
    ChunkOfByte(end, end / g.c, g.c);
    InRange(end / g.c, |g.content|, g.c);
  }

  /** The selected chunk is driven by the subscriber it was selected for. */
  lemma SelectionDrives(v: View, g: Config, who: nat, idx: nat)
    requires Sound(v, g) && Selected(v.subs, v.completed, g.c, g.count, g.u, who, idx)
    ensures idx < g.count && idx !in v.done
    ensures Driven(v.done + [idx], Stays(v.lives, g.c))
  {
    var s, stays, done' := v.subs[who], Stays(v.lives, g.c), v.done + [idx];
    WantsIsSpan(g, s.start, s.end, s.id, idx);
    SelectedIsNext(v.subs, v.completed, g.c, g.count, g.u, who, idx);
    forall t: nat | t < |done'| ensures HasDriver(done', stays, t) {
      if t < |v.done| {
        assert HasDriver(v.done, stays, t);
        var d: nat :| DrivenBy(v.done, stays, t, d);
        assert done'[..t] == v.done[..t];
        assert DrivenBy(done', stays, t, d);
      } else {
        assert done'[..t] == v.done;
        NextForDriver(v, g, who, idx);
        assert DrivenBy(done', stays, t, s.id);
      }
    }
  }

  lemma NextForDriver(v: View, g: Config, who: nat, idx: nat)
    requires Sound(v, g) && Selected(v.subs, v.completed, g.c, g.count, g.u, who, idx)
    ensures forall k: nat :: v.subs[who].start / g.c <= k < idx ==> k in v.done
  {
    SelectedIsNext(v.subs, v.completed, g.c, g.count, g.u, who, idx);
    forall k: nat | v.subs[who].start / g.c <= k < idx ensures k in v.done {
      assert k in v.completed;
    }
  }

  lemma CompleteSound(v: View, g: Config, who: nat, idx: nat)
    requires Sound(v, g) && Selected(v.subs, v.completed, g.c, g.count, g.u, who, idx)
    ensures Sound(Complete(v.(inflight := v.inflight - {idx}), g, idx), g)
  {
    var w := v.(inflight := v.inflight - {idx});
    SelectionDrives(v, g, who, idx);
    CompleteSent(w, g, idx);
    CompleteDone(v, g, idx);
    CompleteSubs(w, g, idx);
  }

  lemma CompleteDone(v: View, g: Config, idx: nat)
    requires LivesSound(v, g) && DoneSound(v, g) && idx < g.count && idx !in v.done
    ensures DoneSound(Complete(v.(inflight := v.inflight - {idx}), g, idx), g)
  {
  }

  lemma CompleteSubs(v: View, g: Config, idx: nat)
    requires LivesSound(v, g) && SubsSound(v)
    ensures SubsSound(Complete(v, g, idx))
  {
    forall id: nat | id < |v.lives| && v.lives[id].until.None? ensures HasSub(Complete(v, g, idx).subs, id) {
      assert HasSub(v.subs, id);
    }
  }
}
