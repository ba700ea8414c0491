/** What a subscriber has been sent, as a function of the chunks completed while it was there. */
module Delivery {
  import opened Wrappers
  import opened Bytes
  import opened ChunkMath
  import opened InOrder
  import opened Seqs

  datatype Message = Data(bytes: Bytes) | Failed

  /** The chunk at offset `o` and the range `start..end` share a byte. */
  predicate Overlap(o: nat, c: nat, start: nat, end: nat) {
    o <= end && start < o + c
  }

  /** The shared bytes. */
  function Part(content: Bytes, c: nat, o: nat, start: nat, end: nat): Bytes
    requires start <= end < |content| && Overlap(o, c, start, end)
  {
    content[Max(start, o)..Min(end + 1, o + c)]
  }

  function PartMessage(content: Bytes, c: nat, o: nat, start: nat, end: nat): seq<Message>
    requires start <= end < |content|
  {
    if Overlap(o, c, start, end) then [Data(Part(content, c, o, start, end))] else []
  }

  /** One message per completed chunk the range touches: exactly the intersection, in completion order. */
  function Messages(content: Bytes, c: nat, window: seq<nat>, start: nat, end: nat): seq<Message>
    requires start <= end < |content|
  {
    if |window| == 0 then [] else
      Messages(content, c, window[..|window| - 1], start, end) + PartMessage(content, c, window[|window| - 1] * c, start, end)
  }

  lemma MessagesSnoc(content: Bytes, c: nat, window: seq<nat>, idx: nat, start: nat, end: nat)
    requires start <= end < |content|
    ensures Messages(content, c, window + [idx], start, end)
         == Messages(content, c, window, start, end) + PartMessage(content, c, idx * c, start, end)
  {
    assert (window + [idx])[..|window|] == window;
  }

  function Joined(messages: seq<Message>): Bytes {
    if |messages| == 0 then []
    else
      var m := messages[|messages| - 1];
      Joined(messages[..|messages| - 1]) + if m.Data? then m.bytes else []
  }

  lemma JoinedSnoc(messages: seq<Message>, m: Message)
    ensures Joined(messages + [m]) == Joined(messages) + if m.Data? then m.bytes else []
  {
    assert (messages + [m])[..|messages|] == messages;
  }

  /** `first..last` are the chunks the range touches. */
  predicate Grid(c: nat, start: nat, end: nat, first: nat, last: nat) {
    c > 0 && start <= end && first == start / c && last == end / c
  }

  lemma OverlapIsSpan(idx: nat, c: nat, start: nat, end: nat, first: nat, last: nat)
    requires Grid(c, start, end, first, last)
    ensures Overlap(idx * c, c, start, end) <==> first <= idx <= last
    ensures first <= last
  {
    ChunkOfByte(start, first, c);
    ChunkOfByte(end, last, c);
    if idx < first { Product(idx, first, c); } else if first < idx { Product(first, idx, c); }
    if idx < last { Product(idx, last, c); } else if last < idx { Product(last, idx, c); }
    if last < first { Product(last, first, c); }
  }

  /** How far a range is served once the first `k` chunks of its span are. */
  function Reach(first: nat, k: nat, c: nat, start: nat, end: nat): nat {
    if k == 0 then start else Min(end + 1, (first + k) * c)
  }

  /** The part of chunk `first + k` runs from one reach to the next. */
  lemma ReachNext(content: Bytes, c: nat, first: nat, last: nat, k: nat, start: nat, end: nat)
    requires end < |content| && Grid(c, start, end, first, last) && first + k <= last
    ensures var o, r, r' := (first + k) * c, Reach(first, k, c, start, end), Reach(first, k + 1, c, start, end);
      Overlap(o, c, start, end) && start <= r <= r' <= end + 1 && Part(content, c, o, start, end) == content[r..r']
  {
    OverlapIsSpan(first + k, c, start, end, first, last);
    Distribute(first + k, c);
    ChunkOfByte(start, first, c);
    if k > 0 { Product(first, first + k, c); }
  }

  /** The whole range is reached exactly by the last chunk. */
  lemma ReachEnd(c: nat, first: nat, last: nat, k: nat, start: nat, end: nat)
    requires Grid(c, start, end, first, last) && first + k <= last + 1
    ensures first <= last
    ensures Reach(first, k, c, start, end) == end + 1 <==> first + k == last + 1
    ensures start <= Reach(first, k, c, start, end) <= end + 1
  {
    OverlapIsSpan(last, c, start, end, first, last);
    ChunkOfByte(start, first, c);
    ChunkOfByte(end, last, c);
    Distribute(last, c);
    if first + k == last + 1 {
      assert (first + k) * c == last * c + c;
    } else if first + k < last {
      Product(first + k, last, c);
    }
    if k > 0 { Product(first, first + k, c); }
  }

  /** The completed chunks of a span are its first `k`. */
  ghost predicate ServedChunks(done: seq<nat>, t: nat, first: nat, last: nat, k: nat)
    requires t <= |done|
  {
    && first + k <= last + 1
    && forall q: nat :: first <= q <= last ==> (q in done[..t] <==> q < first + k)
  }

  /** What was sent for `window` is the range from its first byte up to `r`. */
  ghost predicate ServedTo(content: Bytes, c: nat, window: seq<nat>, start: nat, end: nat, r: nat)
    requires start <= end < |content|
  {
    start <= r <= end + 1 && Joined(Messages(content, c, window, start, end)) == content[start..r]
  }

  lemma BytesStep(content: Bytes, c: nat, window: seq<nat>, idx: nat, start: nat, end: nat, r: nat, r': nat)
    requires start <= end < |content| && ServedTo(content, c, window, start, end, r) && r <= r' <= end + 1
    requires Overlap(idx * c, c, start, end) && Part(content, c, idx * c, start, end) == content[r..r']
    ensures ServedTo(content, c, window + [idx], start, end, r')
  {
    MessagesSnoc(content, c, window, idx, start, end);
    JoinedSnoc(Messages(content, c, window, start, end), Data(content[r..r']));
    assert content[start..r'] == content[start..r] + content[r..r'];
  }

  lemma BytesSkip(content: Bytes, c: nat, window: seq<nat>, idx: nat, start: nat, end: nat, r: nat)
    requires start <= end < |content| && ServedTo(content, c, window, start, end, r)
    requires !Overlap(idx * c, c, start, end)
    ensures ServedTo(content, c, window + [idx], start, end, r)
  {
    MessagesSnoc(content, c, window, idx, start, end);
    assert Messages(content, c, window, start, end) + [] == Messages(content, c, window, start, end);
  }

  lemma OrderedAt(done: seq<nat>, first: nat, last: nat, t: nat, k: nat)
    requires Ordered(done, first, last) && t < |done| && first <= k < done[t] <= last
    ensures k in done[..t]
  {
  }

  lemma ChunksStep(done: seq<nat>, t: nat, first: nat, last: nat, k: nat)
    requires t < |done| && Distinct(done) && Ordered(done, first, last) && ServedChunks(done, t, first, last, k)
    requires first <= done[t] <= last
    ensures done[t] == first + k && ServedChunks(done, t + 1, first, last, k + 1)
  {
    assert done[..t + 1] == done[..t] + [done[t]];
    assert done[t] !in done[..t];
    if first + k < done[t] {
      OrderedAt(done, first, last, t, first + k);
    }
  }

  lemma ChunksSkip(done: seq<nat>, t: nat, first: nat, last: nat, k: nat)
    requires t < |done| && ServedChunks(done, t, first, last, k) && !(first <= done[t] <= last)
    ensures ServedChunks(done, t + 1, first, last, k)
  {
    assert done[..t + 1] == done[..t] + [done[t]];
  }

  /** `served(w, k)`: what was sent for `w` is the part of the range in the first `k` chunks of its span. */
  type Serving = (seq<nat>, nat) -> bool

  ghost predicate Takes(served: Serving, first: nat, w: seq<nat>, k: nat) {
    served(w, k) ==> served(w + [first + k], k + 1)
  }

  ghost predicate Skips(served: Serving, w: seq<nat>, q: nat, k: nat) {
    served(w, k) ==> served(w + [q], k)
  }

  /** In-order completion after an early join serves a span from its first chunk on, without gap or repeat. */
  lemma {:induction false} OrderedServes(done: seq<nat>, at: nat, t: nat, first: nat, last: nat, served: Serving) returns (k: nat)
    requires at <= t <= |done| && Distinct(done) && first <= last
    requires Ordered(done, first, last) && JoinedEarly(done, Stay(first, last, at, None))
    requires served([], 0)
    requires forall w: seq<nat>, k: nat :: first + k <= last ==> Takes(served, first, w, k)
    requires forall w: seq<nat>, q: nat, k: nat :: first + k <= last + 1 && !(first <= q <= last) ==> Skips(served, w, q, k)
    ensures ServedChunks(done, t, first, last, k) && served(done[at..t], k)
    decreases t
  {
    if t == at {
      k := 0;
      assert done[at..t] == [];
    } else {
      k := OrderedServes(done, at, t - 1, first, last, served);
      var w, q := done[at..t - 1], done[t - 1];
      assert done[at..t] == w + [q];
      if first <= q <= last {
        ChunksStep(done, t - 1, first, last, k);
        assert Takes(served, first, w, k);
        k := k + 1;
      } else {
        ChunksSkip(done, t - 1, first, last, k);
        assert Skips(served, w, q, k);
      }
    }
  }

  lemma ServeNext(content: Bytes, c: nat, window: seq<nat>, start: nat, end: nat, first: nat, last: nat, k: nat)
    requires end < |content| && Grid(c, start, end, first, last) && first + k <= last
    requires ServedTo(content, c, window, start, end, Reach(first, k, c, start, end))
    ensures ServedTo(content, c, window + [first + k], start, end, Reach(first, k + 1, c, start, end))
  {
    ReachNext(content, c, first, last, k, start, end);
    BytesStep(content, c, window, first + k, start, end, Reach(first, k, c, start, end), Reach(first, k + 1, c, start, end));
  }

  lemma ServeOther(content: Bytes, c: nat, window: seq<nat>, q: nat, start: nat, end: nat, first: nat, last: nat, r: nat)
    requires end < |content| && Grid(c, start, end, first, last) && !(first <= q <= last)
    requires ServedTo(content, c, window, start, end, r)
    ensures ServedTo(content, c, window + [q], start, end, r)
  {
    OverlapIsSpan(q, c, start, end, first, last);
    BytesSkip(content, c, window, q, start, end, r);
  }

  ghost function ServedUpTo(content: Bytes, c: nat, start: nat, end: nat, first: nat): Serving
    requires start <= end < |content|
  {
    (w: seq<nat>, k: nat) => ServedTo(content, c, w, start, end, Reach(first, k, c, start, end))
  }

  lemma BytesServed(content: Bytes, c: nat, done: seq<nat>, at: nat, t: nat, start: nat, end: nat, first: nat, last: nat)
      returns (k: nat)
    requires end < |content| && Grid(c, start, end, first, last) && at <= t <= |done| && Distinct(done)
    requires Ordered(done, first, last) && JoinedEarly(done, Stay(first, last, at, None))
    ensures ServedChunks(done, t, first, last, k)
    ensures ServedTo(content, c, done[at..t], start, end, Reach(first, k, c, start, end))
  {
    var served := ServedUpTo(content, c, start, end, first);
    OverlapIsSpan(first, c, start, end, first, last);
    forall w: seq<nat>, k: nat | first + k <= last ensures Takes(served, first, w, k) {
      if served(w, k) {
        ServeNext(content, c, w, start, end, first, last, k);
      }
    }
    forall w: seq<nat>, q: nat, k: nat | first + k <= last + 1 && !(first <= q <= last) ensures Skips(served, w, q, k) {
      if served(w, k) {
        ServeOther(content, c, w, q, start, end, first, last, Reach(first, k, c, start, end));
      }
    }
    k := OrderedServes(done, at, t, first, last, served);
  }

  /**
   So at every moment the bytes sent are a prefix of the requested range, and they are all of it
   exactly when every chunk of the span is complete.
   */
  lemma InOrderDelivery(content: Bytes, c: nat, done: seq<nat>, at: nat, t: nat, start: nat, end: nat, first: nat, last: nat)
    requires end < |content| && Grid(c, start, end, first, last) && at <= t <= |done| && Distinct(done)
    requires Ordered(done, first, last) && JoinedEarly(done, Stay(first, last, at, None))
    ensures var sent := Joined(Messages(content, c, done[at..t], start, end));
      && sent <= content[start..end + 1]
      && (sent == content[start..end + 1] <==> forall q: nat :: first <= q <= last ==> q in done[..t])
  {
    var k := BytesServed(content, c, done, at, t, start, end, first, last);
    ReachEnd(c, first, last, k, start, end);
    PrefixSlices(content, start, Reach(first, k, c, start, end), end + 1);
    AllOfSpan(done, t, first, last, k);
  }

  lemma PrefixSlices(content: Bytes, s: nat, r: nat, e: nat)
    requires s <= r <= e <= |content|
    ensures content[s..r] <= content[s..e]
    ensures content[s..r] == content[s..e] <==> r == e
  {
    assert |content[s..r]| == r - s && |content[s..e]| == e - s;
  }

  lemma AllOfSpan(done: seq<nat>, t: nat, first: nat, last: nat, k: nat)
    requires t <= |done| && first <= last && ServedChunks(done, t, first, last, k)
    ensures (forall q: nat :: first <= q <= last ==> q in done[..t]) <==> first + k == last + 1
  {
    if first + k <= last {
      assert first + k !in done[..t];
    }
  }
}
