/** Which bytes of its range a channel has been sent, by position in the file. */
module Positions {
  import opened Bytes
  import opened ChunkMath
  import opened Delivery
  import opened Oldest
  import opened Seqs

  function Span(lo: nat, hi: nat): seq<nat>
    requires lo <= hi
  {
    seq(hi - lo, i requires 0 <= i < hi - lo => lo + i)
  }

  /** The positions the chunk at offset `o` shares with the range. */
  function Shared(c: nat, o: nat, start: nat, end: nat): seq<nat> {
    var lo, hi := Max(start, o), Min(end + 1, o + c);
    if lo <= hi then Span(lo, hi) else []
  }

  /** What each element of `window` stands for, one after another. */
  function Gather<T>(part: nat -> seq<T>, window: seq<nat>): seq<T> {
    if |window| == 0 then [] else Gather(part, window[..|window| - 1]) + part(window[|window| - 1])
  }

  function SharedWith(c: nat, start: nat, end: nat): nat -> seq<nat> {
    (q: nat) => Shared(c, q * c, start, end)
  }

  /** The positions of what is sent for `window`, in the order it is sent. */
  function Sent(c: nat, window: seq<nat>, start: nat, end: nat): seq<nat> {
    Gather(SharedWith(c, start, end), window)
  }

  /** The bytes at positions `ps`, one after another. */
  function BytesAt(content: Bytes, ps: seq<nat>): Bytes
    requires forall i :: 0 <= i < |ps| ==> ps[i] < |content|
  {
    seq(|ps|, i requires 0 <= i < |ps| => content[ps[i]])
  }

  ghost predicate InRange(ps: seq<nat>, start: nat, end: nat) {
    forall i :: 0 <= i < |ps| ==> start <= ps[i] <= end
  }

  lemma PartBytes(content: Bytes, c: nat, o: nat, start: nat, end: nat)
    requires start <= end < |content|
    ensures InRange(Shared(c, o, start, end), start, end)
    ensures Joined(PartMessage(content, c, o, start, end)) == BytesAt(content, Shared(c, o, start, end))
  {
    if Overlap(o, c, start, end) {
      SingleJoined(Part(content, c, o, start, end));
      assert Part(content, c, o, start, end) == BytesAt(content, Shared(c, o, start, end));
    } else {
      assert Shared(c, o, start, end) == [];
    }
  }

  lemma SingleJoined(bytes: Bytes)
    ensures Joined([Data(bytes)]) == bytes
  {
    var m := [Data(bytes)];
    assert |m[..0]| == 0;
    assert Joined(m) == Joined(m[..0]) + bytes;
  }

  lemma JoinedMore(before: seq<Message>, more: seq<Message>)
    requires |more| <= 1
    ensures Joined(before + more) == Joined(before) + Joined(more)
  {
    if |more| == 0 {
      assert before + more == before;
    } else {
      assert (before + more)[..|before|] == before;
      assert (before + more)[|before|] == more[0] && |more[..0]| == 0;
    }
  }

  lemma BytesAtMore(content: Bytes, a: seq<nat>, b: seq<nat>)
    requires forall i :: 0 <= i < |a| ==> a[i] < |content|
    requires forall i :: 0 <= i < |b| ==> b[i] < |content|
    ensures BytesAt(content, a + b) == BytesAt(content, a) + BytesAt(content, b)
  {
  }

  /** `messages` carry the bytes at `ps`, positions of the range. */
  ghost predicate Carry(messages: seq<Message>, content: Bytes, ps: seq<nat>, start: nat, end: nat)
    requires start <= end < |content|
  {
    InRange(ps, start, end) && Joined(messages) == BytesAt(content, ps)
  }

  lemma BytesAtNext(content: Bytes, c: nat, o: nat, start: nat, end: nat, before: seq<Message>, ps: seq<nat>)
    requires start <= end < |content| && Carry(before, content, ps, start, end)
    ensures Carry(before + PartMessage(content, c, o, start, end), content, ps + Shared(c, o, start, end), start, end)
  {
    PartBytes(content, c, o, start, end);
    JoinedMore(before, PartMessage(content, c, o, start, end));
    BytesAtMore(content, ps, Shared(c, o, start, end));
  }

  type Carrying = (seq<Message>, seq<nat>) -> bool

  ghost predicate Grows(carry: Carrying, m: nat -> seq<Message>, p: nat -> seq<nat>, messages: seq<Message>, ps: seq<nat>, q: nat) {
    carry(messages, ps) ==> carry(messages + m(q), ps + p(q))
  }

  lemma {:induction false} CarryAlong(carry: Carrying, m: nat -> seq<Message>, p: nat -> seq<nat>, window: seq<nat>)
    requires carry([], [])
    requires forall messages: seq<Message>, ps: seq<nat>, q: nat :: Grows(carry, m, p, messages, ps, q)
    ensures carry(Gather(m, window), Gather(p, window))
  {
    if |window| > 0 {
      var rest, q := window[..|window| - 1], window[|window| - 1];
      CarryAlong(carry, m, p, rest);
      assert Grows(carry, m, p, Gather(m, rest), Gather(p, rest), q);
    }
  }

  ghost function CarryOf(content: Bytes, start: nat, end: nat): Carrying
    requires start <= end < |content|
  {
    (messages: seq<Message>, ps: seq<nat>) => Carry(messages, content, ps, start, end)
  }

  function MessageFor(content: Bytes, c: nat, start: nat, end: nat): nat -> seq<Message>
    requires start <= end < |content|
  {
    (q: nat) => PartMessage(content, c, q * c, start, end)
  }

  lemma {:induction false} MessagesAreGathered(content: Bytes, c: nat, window: seq<nat>, start: nat, end: nat)
    requires start <= end < |content|
    ensures Messages(content, c, window, start, end) == Gather(MessageFor(content, c, start, end), window)
  {
    if |window| > 0 {
      MessagesAreGathered(content, c, window[..|window| - 1], start, end);
    }
  }

  lemma GatherCarries(content: Bytes, c: nat, window: seq<nat>, start: nat, end: nat)
    requires start <= end < |content|
    ensures CarryOf(content, start, end)(Gather(MessageFor(content, c, start, end), window), Sent(c, window, start, end))
  {
    var carry, m, p := CarryOf(content, start, end), MessageFor(content, c, start, end), SharedWith(c, start, end);
    forall messages: seq<Message>, ps: seq<nat>, q: nat ensures Grows(carry, m, p, messages, ps, q) {
      if carry(messages, ps) {
        BytesAtNext(content, c, q * c, start, end, messages, ps);
      }
    }
    CarryAlong(carry, m, p, window);
  }

  /** A channel's messages carry exactly the bytes at those positions. */
  lemma SentAreBytesAt(content: Bytes, c: nat, window: seq<nat>, start: nat, end: nat)
    requires start <= end < |content|
    ensures Carry(Messages(content, c, window, start, end), content, Sent(c, window, start, end), start, end)
  {
    MessagesAreGathered(content, c, window, start, end);
    GatherCarries(content, c, window, start, end);
  }

  /* ---- Which positions ---- */

  lemma SharedHolds(c: nat, q: nat, start: nat, end: nat, p: nat)
    requires c > 0
    ensures p in Shared(c, q * c, start, end) <==> start <= p <= end && p / c == q
  {
    var o := q * c;
    ChunkOfByte(p, q, c);
    SharedIs(c, o, start, end, p);
  }

  lemma SharedIs(c: nat, o: nat, start: nat, end: nat, p: nat)
    ensures p in Shared(c, o, start, end) <==> start <= p <= end && o <= p < o + c
  {
    var lo, hi := Max(start, o), Min(end + 1, o + c);
    if lo <= p < hi {
      assert Span(lo, hi)[p - lo] == p;
    }
  }

  /** Exactly the positions of the range that lie in a chunk of the window. */
  lemma {:induction false} SentHolds(c: nat, window: seq<nat>, start: nat, end: nat, p: nat)
    requires c > 0
    ensures p in Sent(c, window, start, end) <==> start <= p <= end && p / c in window
  {
    if |window| > 0 {
      var rest, q := window[..|window| - 1], window[|window| - 1];
      assert p / c in window <==> p / c in rest || p / c == q by { assert window == rest + [q]; }
      SentHolds(c, rest, start, end, p);
      SharedHolds(c, q, start, end, p);
    }
  }

  lemma JoinDistinct(a: seq<nat>, b: seq<nat>)
    requires Distinct(a) && Distinct(b) && forall p :: p in a ==> p !in b
    ensures Distinct(a + b)
  {
    forall i, j | 0 <= i < j < |a + b| ensures (a + b)[i] != (a + b)[j] {
      if i < |a| <= j {
        assert a[i] in a && b[j - |a|] in b;
      }
    }
  }

  /** Each once, when no chunk comes twice. */
  lemma {:induction false} SentDistinct(c: nat, window: seq<nat>, start: nat, end: nat)
    requires c > 0 && Distinct(window)
    ensures Distinct(Sent(c, window, start, end))
  {
    if |window| > 0 {
      var rest, q := window[..|window| - 1], window[|window| - 1];
      SentDistinct(c, rest, start, end);
      forall p | p in Sent(c, rest, start, end) ensures p !in Shared(c, q * c, start, end) {
        SentHolds(c, rest, start, end, p);
        SharedHolds(c, q, start, end, p);
      }
      JoinDistinct(Sent(c, rest, start, end), Shared(c, q * c, start, end));
    }
  }

  /** As many positions as the range has, exactly when each of them is there. */
  lemma FullExactlyWhenAll(ps: seq<nat>, start: nat, end: nat)
    requires Distinct(ps) && InRange(ps, start, end) && start <= end
    ensures |ps| == end + 1 - start <==> forall p: nat :: start <= p <= end ==> p in ps
  {
    var all := Span(start, end + 1);
    SameSet(all, ToSet(all));
    forall p: nat | start <= p <= end ensures p in ToSet(all) {
      assert all[p - start] == p;
    }
    DistinctSize(ps, ToSet(all));
    if forall p: nat :: start <= p <= end ==> p in ps {
      SetOfSeqSize(ps, ToSet(all));
    }
  }
}
