/** Streaming a cached file: overlapped reads deliver what reading one chunk after another would. */
module Pipeline {
  import opened Wrappers
  import opened Bytes
  import opened ChunkMath

  datatype Item = Sent(bytes: Bytes) | ReadError

  /**
   The part of a chunk at `offset` that a request for `start..end` gets. `None` is a slice out of
   bounds, which ends the task without a word; an empty first chunk underflows the end offset.
   */
  function Cut(data: Bytes, offset: nat, start: nat, end: nat): Option<Bytes> {
    if offset == 0 && data == [] then None
    else
      var chunkEnd := offset + |data| - 1;
      var from := if start > offset then start - offset else 0;
      var to := if end < chunkEnd then end - offset + 1 else |data|;
      if 0 <= from <= to <= |data| then Some(data[from..to]) else None
  }

  /** What is cut is the part of the chunk in the range; it goes wrong exactly on an empty first chunk or one beside the range. */
  lemma CutIs(data: Bytes, offset: nat, start: nat, end: nat)
    requires start <= end
    ensures Cut(data, offset, start, end).None? <==>
      (offset == 0 && data == []) || start > offset + |data| || offset > end + 1
    ensures Cut(data, offset, start, end).Some? ==>
      && 0 <= Max(start, offset) - offset <= Min(end + 1, offset + |data|) - offset <= |data|
      && Cut(data, offset, start, end).value == data[Max(start, offset) - offset..Min(end + 1, offset + |data|) - offset]
  {
  }

  /** Reading chunk `i`, then the rest, with no overlap. */
  function Sequential(read: nat -> Option<Bytes>, n: nat, i: nat, offset: nat, start: nat, end: nat): seq<Item>
    decreases n - i
  {
    if i >= n then []
    else if read(i).None? then [ReadError]
    else
      var cut := Cut(read(i).value, offset, start, end);
      if cut.None? then []
      else [Sent(cut.value)] + Sequential(read, n, i + 1, offset + |read(i).value|, start, end)
  }

  /** Reads started ahead: consecutive indices from `i`, each with the result of its one read. */
  ghost predicate Ahead(queue: seq<(nat, Option<Bytes>)>, i: nat, n: nat, read: nat -> Option<Bytes>) {
    && |queue| <= n - i
    && forall j :: 0 <= j < |queue| ==> queue[j] == (i + j, read(i + j))
  }

  /** Start reads until `depth` are waiting or none is left. */
  method Refill(queue: seq<(nat, Option<Bytes>)>, i: nat, n: nat, depth: nat, read: nat -> Option<Bytes>)
      returns (full: seq<(nat, Option<Bytes>)>)
    requires i < n && Ahead(queue, i + 1, n, read) && |queue| <= depth
    ensures Ahead(full, i + 1, n, read)
    ensures |full| == if depth < n - i - 1 then depth else n - i - 1
  {
    full := queue;
    while |full| < depth
      invariant Ahead(full, i + 1, n, read) && |full| <= depth
    {
      var next := i + |full| + 1;
      if next >= n {
        break;
      }
      full := full + [(next, read(next))];
    }
  }

  /** What was sent before chunk `i` and what sequential reading sends from there on. */
  ghost predicate Continues(out: seq<Item>, read: nat -> Option<Bytes>, n: nat, i: nat, offset: nat, first: nat, start: nat, end: nat) {
    out + Sequential(read, n, i, offset, start, end) == Sequential(read, n, 0, first, start, end)
  }

  lemma Reassociate<T>(a: seq<T>, x: T, b: seq<T>)
    ensures a + [x] + b == a + ([x] + b)
  {
  }

  lemma ContinuesNext(out: seq<Item>, read: nat -> Option<Bytes>, n: nat, i: nat, offset: nat, first: nat, start: nat, end: nat, cut: Bytes)
    requires Continues(out, read, n, i, offset, first, start, end) && i < n && read(i).Some?
    requires Cut(read(i).value, offset, start, end) == Some(cut)
    ensures Continues(out + [Sent(cut)], read, n, i + 1, offset + |read(i).value|, first, start, end)
  {
    Reassociate(out, Sent(cut), Sequential(read, n, i + 1, offset + |read(i).value|, start, end));
  }

  lemma ContinuesToEnd(out: seq<Item>, read: nat -> Option<Bytes>, n: nat, i: nat, offset: nat, first: nat, start: nat, end: nat)
    requires Continues(out, read, n, i, offset, first, start, end)
    ensures i < n && read(i).None? ==> out + [ReadError] == Sequential(read, n, 0, first, start, end)
    ensures i >= n || (read(i).Some? && Cut(read(i).value, offset, start, end).None?) ==> out == Sequential(read, n, 0, first, start, end)
  {
    assert out + [] == out;
  }

  /** The read waiting first, which is that of the current index, or one made now. */
  method PopOrRead(queue: seq<(nat, Option<Bytes>)>, i: nat, n: nat, depth: nat, read: nat -> Option<Bytes>)
      returns (data: Option<Bytes>, rest: seq<(nat, Option<Bytes>)>)
    requires i < n && Ahead(queue, i, n, read) && |queue| <= depth
    ensures data == read(i) && Ahead(rest, i + 1, n, read) && |rest| <= depth
  {
    if queue != [] {
      assert queue[0].0 == i;
      return queue[0].1, queue[1..];
    }
    return read(i), queue;
  }

  /** For every depth the items sent are those of sequential reading. */
  method StreamChunks(read: nat -> Option<Bytes>, n: nat, first: nat, start: nat, end: nat, depth: nat)
      returns (out: seq<Item>)
    ensures out == Sequential(read, n, 0, first, start, end)
  {
    out := [];
    var offset: nat := first;
    var prefetches: seq<(nat, Option<Bytes>)> := [];
    var i := 0;
    while i < n
      invariant i <= n
      invariant Ahead(prefetches, i, n, read) && |prefetches| <= depth
      invariant Continues(out, read, n, i, offset, first, start, end)
    {
      var data;
      data, prefetches := PopOrRead(prefetches, i, n, depth, read);
      ContinuesToEnd(out, read, n, i, offset, first, start, end);
      if data.None? {
        return out + [ReadError];
      }
      prefetches := Refill(prefetches, i, n, depth, read);
      var cut := Cut(data.value, offset, start, end);
      if cut.None? {
        return;
      }
      ContinuesNext(out, read, n, i, offset, first, start, end, cut.value);
      out := out + [Sent(cut.value)];
      offset := offset + |data.value|;
      i := i + 1;
    }
    ContinuesToEnd(out, read, n, i, offset, first, start, end);
  }

  function Delivered(items: seq<Item>): Bytes {
    if items == [] then []
    else (if items[0].Sent? then items[0].bytes else []) + Delivered(items[1..])
  }

  /** `n` consecutive chunks of size `c` start at `off(0)`, …; the first holds byte `start`, the last byte `end`. */
  ghost predicate Window(off: nat -> nat, n: nat, c: nat, start: nat, end: nat, total: nat) {
    && 0 < n && 0 < c && start <= end < total
    && off(0) <= start < off(0) + c
    && off(n - 1) <= end < off(n - 1) + c
    && forall i: nat :: i + 1 < n ==> off(i + 1) == off(i) + c
  }

  /** Each read gives the right chunk of `content` or an error. */
  ghost predicate RightOrError(read: nat -> Option<Bytes>, content: Bytes, c: nat, off: nat -> nat, n: nat) {
    forall i: nat :: i < n ==> off(i) < |content| && (read(i).Some? ==> read(i).value == PieceAt(content, off(i), c))
  }

  lemma {:induction false} WindowMeetsRange(off: nat -> nat, n: nat, c: nat, start: nat, end: nat, total: nat, i: nat)
    requires Window(off, n, c, start, end, total) && i < n
    ensures off(0) <= off(i)
    ensures i > 0 ==> start < off(i)
    ensures i + 1 < n ==> off(i) + c <= end
    decreases i
  {
    if i > 0 {
      assert i - 1 + 1 < n;
      WindowMeetsRange(off, n, c, start, end, total, i - 1);
    }
    BeforeLast(off, n, c, start, end, total, i);
  }

  lemma {:induction false} BeforeLast(off: nat -> nat, n: nat, c: nat, start: nat, end: nat, total: nat, i: nat)
    requires Window(off, n, c, start, end, total) && i < n
    ensures off(i) <= off(n - 1)
    ensures i + 1 < n ==> off(i) + c <= off(n - 1)
    decreases n - i
  {
    if i + 1 < n {
      BeforeLast(off, n, c, start, end, total, i + 1);
    }
  }

  lemma SliceOfSlice(s: Bytes, lo: nat, hi: nat, from: nat, to: nat)
    requires lo <= hi <= |s| && from <= to <= hi - lo
    ensures s[lo..hi][from..to] == s[lo + from..lo + to]
  {
    var inner, outer := s[lo..hi][from..to], s[lo + from..lo + to];
    forall i | 0 <= i < |inner| ensures inner[i] == outer[i] {
      assert inner[i] == s[lo..hi][from + i] == s[lo + from + i];
    }
  }

  lemma CutOfPiece(content: Bytes, c: nat, o: nat, start: nat, end: nat)
    requires c > 0 && o < |content| && start <= end < |content|
    requires start < o + c && o <= end
    ensures Max(start, o) <= Min(end + 1, o + c) <= |content|
    ensures Cut(PieceAt(content, o, c), o, start, end) == Some(content[Max(start, o)..Min(end + 1, o + c)])
  {
    var piece := PieceAt(content, o, c);
    var from, to := Max(start, o) - o, if end < o + |piece| - 1 then end - o + 1 else |piece|;
    assert Cut(piece, o, start, end) == Some(piece[from..to]);
    SliceOfSlice(content, o, o + |piece|, from, to);
  }

  lemma DeliveredCons(cut: Bytes, rest: seq<Item>)
    ensures Delivered([Sent(cut)] + rest) == cut + Delivered(rest)
    ensures ReadError in [Sent(cut)] + rest <==> ReadError in rest
  {
    assert ([Sent(cut)] + rest)[1..] == rest;
  }

  lemma PrefixJoin(content: Bytes, a: nat, b: nat, e: nat, d: Bytes)
    requires a <= b <= e <= |content| && d <= content[b..e]
    ensures content[a..b] + d <= content[a..e]
    ensures d == content[b..e] ==> content[a..b] + d == content[a..e]
  {
    assert content[a..e] == content[a..b] + content[b..e];
  }

  /** `items` deliver a prefix of `left`, and without a read error all of it in `count` pieces. */
  ghost predicate Delivers(items: seq<Item>, left: Bytes, count: int) {
    Delivered(items) <= left && (ReadError !in items ==> Delivered(items) == left && |items| == count)
  }

  lemma DeliversCons(content: Bytes, a: nat, b: nat, e: nat, rest: seq<Item>, count: int)
    requires a <= b <= e <= |content| && Delivers(rest, content[b..e], count)
    ensures Delivers([Sent(content[a..b])] + rest, content[a..e], count + 1)
  {
    DeliveredCons(content[a..b], rest);
    PrefixJoin(content, a, b, e, Delivered(rest));
  }

  /** Where the part of the range not yet sent begins. */
  function LeftFrom(off: nat -> nat, n: nat, i: nat, start: nat, end: nat): nat {
    if i >= n then end + 1 else Max(start, off(i))
  }

  /** What is left of the range from chunk `i` on. */
  function Left(content: Bytes, off: nat -> nat, n: nat, i: nat, start: nat, end: nat): Bytes {
    var from := LeftFrom(off, n, i, start, end);
    if from <= end + 1 <= |content| then content[from..end + 1] else []
  }

  /** One round sends exactly the part of the range in chunk `i`, and the next one starts where chunk `i + 1` does. */
  lemma RoundBounds(read: nat -> Option<Bytes>, content: Bytes, c: nat, off: nat -> nat, n: nat, i: nat, start: nat, end: nat,
                    a: nat, b: nat)
    requires Window(off, n, c, start, end, |content|) && i < n
    requires RightOrError(read, content, c, off, n) && read(i).Some?
    requires a == LeftFrom(off, n, i, start, end) && b == LeftFrom(off, n, i + 1, start, end)
    ensures a <= b <= end + 1 && (i + 1 == n ==> b == end + 1)
    ensures Left(content, off, n, i, start, end) == content[a..end + 1] && Left(content, off, n, i + 1, start, end) == content[b..end + 1]
    ensures Cut(read(i).value, off(i), start, end) == Some(content[a..b])
    ensures i + 1 < n ==> off(i) + |read(i).value| == off(i + 1)
  {
    WindowMeetsRange(off, n, c, start, end, |content|, i);
    BeforeLast(off, n, c, start, end, |content|, i);
    RoundCut(content, c, off(i), start, end, a, b, i + 1 < n);
    if i + 1 < n {
      assert off(i + 1) == off(i) + c;
    }
  }

  /** The chunk at `o` is cut to what is left of the range, up to the next chunk or the range's end. */
  lemma RoundCut(content: Bytes, c: nat, o: nat, start: nat, end: nat, a: nat, b: nat, more: bool)
    requires c > 0 && start <= end < |content| && start < o + c && o <= end
    requires a == Max(start, o) && (if more then o + c <= end && b == o + c else end < o + c && b == end + 1)
    ensures a <= b <= end + 1 && Cut(PieceAt(content, o, c), o, start, end) == Some(content[a..b])
    ensures more ==> |PieceAt(content, o, c)| == c
  {
    CutOfPiece(content, c, o, start, end);
  }

  lemma ReadErrorDelivers(left: Bytes, count: int)
    ensures Delivers([ReadError], left, count)
  {
    assert Delivered([ReadError]) == [];
  }

  lemma CutDelivers(read: nat -> Option<Bytes>, n: nat, i: nat, o: nat, start: nat, end: nat, content: Bytes, a: nat, b: nat, count: int)
    requires i < n && read(i).Some? && a <= b <= end + 1 <= |content|
    requires Cut(read(i).value, o, start, end) == Some(content[a..b])
    requires Delivers(Sequential(read, n, i + 1, o + |read(i).value|, start, end), content[b..end + 1], count)
    ensures Delivers(Sequential(read, n, i, o, start, end), content[a..end + 1], count + 1)
  {
    DeliversCons(content, a, b, end + 1, Sequential(read, n, i + 1, o + |read(i).value|, start, end), count);
  }

  lemma RoundDelivers(read: nat -> Option<Bytes>, n: nat, i: nat, o: nat, next: nat, start: nat, end: nat, content: Bytes, a: nat, b: nat)
    requires i < n && read(i).Some? && a <= b <= end + 1 <= |content|
    requires Cut(read(i).value, o, start, end) == Some(content[a..b])
    requires i + 1 < n ==>
      next == o + |read(i).value| && Delivers(Sequential(read, n, i + 1, next, start, end), content[b..end + 1], n - i - 1)
    requires i + 1 == n ==> b == end + 1
    ensures Delivers(Sequential(read, n, i, o, start, end), content[a..end + 1], n - i)
  {
    if i + 1 == n {
      NothingDelivers(content, end + 1);
    }
    CutDelivers(read, n, i, o, start, end, content, a, b, n - i - 1);
  }

  lemma NothingDelivers(content: Bytes, e: nat)
    requires e <= |content|
    ensures Delivers([], content[e..e], 0)
  {
  }

  /** From chunk `i` on, sequential reading delivers a prefix of what is left of the range, all of it without a read error. */
  lemma {:induction false} SequentialDelivers(read: nat -> Option<Bytes>, content: Bytes, c: nat, off: nat -> nat, n: nat,
                                              i: nat, start: nat, end: nat)
    requires Window(off, n, c, start, end, |content|) && i < n
    requires RightOrError(read, content, c, off, n)
    ensures Delivers(Sequential(read, n, i, off(i), start, end), Left(content, off, n, i, start, end), n - i)
    decreases n - i
  {
    if read(i).None? {
      ReadErrorDelivers(Left(content, off, n, i, start, end), n - i);
    } else {
      var a, b := LeftFrom(off, n, i, start, end), LeftFrom(off, n, i + 1, start, end);
      RoundBounds(read, content, c, off, n, i, start, end, a, b);
      if i + 1 < n {
        SequentialDelivers(read, content, c, off, n, i + 1, start, end);
      }
      RoundDelivers(read, n, i, off(i), off(i + 1), start, end, content, a, b);
    }
  }

  /* ---- Exactly how far ---- */

  /** `items` are the bytes `sent` in pieces, and then a read error if the reads went wrong there. */
  ghost predicate Stops(items: seq<Item>, sent: Bytes, pieces: nat, failed: bool) {
    && Delivered(items) == sent && (ReadError in items <==> failed)
    && |items| == pieces + if failed then 1 else 0
  }

  lemma StopsCons(content: Bytes, a: nat, b: nat, e: nat, rest: seq<Item>, pieces: nat, failed: bool)
    requires a <= b <= e <= |content| && Stops(rest, content[b..e], pieces, failed)
    ensures Stops([Sent(content[a..b])] + rest, content[a..e], pieces + 1, failed)
  {
    DeliveredCons(content[a..b], rest);
    assert content[a..e] == content[a..b] + content[b..e];
  }

  lemma RoundStops(read: nat -> Option<Bytes>, n: nat, i: nat, o: nat, next: nat, start: nat, end: nat, content: Bytes,
                   a: nat, b: nat, e: nat, pieces: nat, failed: bool)
    requires i < n && read(i).Some? && a <= b <= e <= |content|
    requires Cut(read(i).value, o, start, end) == Some(content[a..b])
    requires i + 1 < n ==>
      next == o + |read(i).value| && Stops(Sequential(read, n, i + 1, next, start, end), content[b..e], pieces, failed)
    requires i + 1 == n ==> b == e && pieces == 0 && !failed
    ensures Stops(Sequential(read, n, i, o, start, end), content[a..e], pieces + 1, failed)
  {
    var rest := Sequential(read, n, i + 1, o + |read(i).value|, start, end);
    if i + 1 == n {
      assert Stops([], content[b..b], 0, false);
    }
    StopsCons(content, a, b, e, rest, pieces, failed);
  }

  lemma ErrorStops(content: Bytes, a: nat)
    requires a <= |content|
    ensures Stops([ReadError], content[a..a], 0, true)
  {
    assert Delivered([ReadError]) == [];
  }

  lemma {:induction false} LeftMoves(off: nat -> nat, n: nat, c: nat, start: nat, end: nat, total: nat, i: nat, k: nat)
    requires Window(off, n, c, start, end, total) && i <= k <= n
    ensures LeftFrom(off, n, i, start, end) <= LeftFrom(off, n, k, start, end) <= end + 1
    decreases k - i
  {
    if i < n {
      WindowMeetsRange(off, n, c, start, end, total, i);
      BeforeLast(off, n, c, start, end, total, i);
    }
    if i < k {
      LeftMoves(off, n, c, start, end, total, i + 1, k);
    }
  }

  /** Reading goes on to the first read that fails, sends exactly what lies before its chunk, and ends with one error there. */
  lemma {:induction false} SequentialStops(read: nat -> Option<Bytes>, content: Bytes, c: nat, off: nat -> nat, n: nat,
                                           i: nat, k: nat, start: nat, end: nat)
    requires Window(off, n, c, start, end, |content|) && i < n && i <= k <= n
    requires RightOrError(read, content, c, off, n)
    requires (forall j :: i <= j < k ==> read(j).Some?) && (k < n ==> read(k).None?)
    ensures LeftFrom(off, n, i, start, end) <= LeftFrom(off, n, k, start, end) <= end + 1
    ensures Stops(Sequential(read, n, i, off(i), start, end),
                  content[LeftFrom(off, n, i, start, end)..LeftFrom(off, n, k, start, end)], k - i, k < n)
    decreases n - i
  {
    LeftMoves(off, n, c, start, end, |content|, i, k);
    if i == k {
      ErrorStops(content, LeftFrom(off, n, i, start, end));
    } else {
      var a, b, e := LeftFrom(off, n, i, start, end), LeftFrom(off, n, i + 1, start, end), LeftFrom(off, n, k, start, end);
      RoundBounds(read, content, c, off, n, i, start, end, a, b);
      if i + 1 < n {
        SequentialStops(read, content, c, off, n, i + 1, k, start, end);
      }
      RoundStops(read, n, i, off(i), off(i + 1), start, end, content, a, b, e, k - i - 1, k < n);
    }
  }
}
