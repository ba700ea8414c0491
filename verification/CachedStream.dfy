/** Serving a range of a fully cached file from the store's links and whatever the blobs hold when each is read. */
module CachedStream {
  import opened Wrappers
  import opened Bytes
  import opened Schema
  import opened ChunkMath
  import opened Metadata
  import opened LocalStorage
  import opened Completeness
  import opened Pipeline
  import opened Ranges
  import Oldest

  datatype StreamResult =
    | NotFound
    | InvalidRange
    | Panicked
    | Streaming(file: int, contentLength: nat, items: seq<Item>)

  /** One backend read, rejected on a checksum mismatch when verifying. */
  function VerifiedRead(blobs: map<Sha, Bytes>, h: Sha, verify: bool, hash: Bytes -> Sha): Option<Bytes> {
    if h !in blobs || (verify && hash(blobs[h]) != h) then None else Some(blobs[h])
  }

  /** File `f` is complete: every chunk of `content` is linked, under its own hash and length. */
  ghost predicate FullyLinked(t: Tables, f: int, content: Bytes, c: nat, hash: Bytes -> Sha)
    requires c > 0
  {
    && f in t.files && t.files[f].totalSize == |content|
    && LinksFit(t, f, |content|, c)
    && (forall i :: 0 <= i < ChunkCount(|content|, c) ==>
          Slot(f, i) in t.links && i * c < |content| && t.links[Slot(f, i)].sha == hash(Piece(content, i, c)))
  }

  lemma {:induction false} AscendingAtLeast(rows: seq<Slot>, i: nat)
    requires forall a, b :: 0 <= a < b < |rows| ==> rows[a].index < rows[b].index
    requires forall k :: k in rows ==> 0 <= k.index
    requires i < |rows|
    ensures rows[i].index >= i
  {
    assert rows[i] in rows;
    if i > 0 {
      AscendingAtLeast(rows, i - 1);
    }
  }

  lemma {:induction false} AscendingIsIdentity(rows: seq<Slot>, f: int, n: nat, i: nat)
    requires forall a, b :: 0 <= a < b < |rows| ==> rows[a].index < rows[b].index
    requires forall k :: k in rows ==> k.file == f && 0 <= k.index < n
    requires forall j :: 0 <= j < n ==> Slot(f, j) in rows
    requires i < n
    ensures i < |rows| && rows[i] == Slot(f, i)
    decreases i
  {
    forall j | 0 <= j < i ensures j < |rows| && rows[j] == Slot(f, j) {
      AscendingIsIdentity(rows, f, n, j);
    }
    var p :| 0 <= p < |rows| && rows[p] == Slot(f, i);
    AscendingAtLeast(rows, p);
  }

  lemma RowsOfCompleteFile(t: Tables, f: int, content: Bytes, c: nat, hash: Bytes -> Sha, rows: seq<Slot>)
    requires c > 0 && FullyLinked(t, f, content, c, hash)
    requires Enumerates(rows, SlotsOf(t.links, f))
    requires forall a, b :: 0 <= a < b < |rows| ==> rows[a].index < rows[b].index
    ensures |rows| == ChunkCount(|content|, c)
    ensures forall i :: 0 <= i < |rows| ==> rows[i] == Slot(f, i)
  {
    var n := ChunkCount(|content|, c);
    forall k | k in rows ensures k.file == f && 0 <= k.index < n {
      assert k in SlotsOf(t.links, f);
    }
    forall j | 0 <= j < n ensures Slot(f, j) in rows {
      assert Slot(f, j) in SlotsOf(t.links, f);
    }
    forall i | 0 <= i < n ensures i < |rows| && rows[i] == Slot(f, i) {
      AscendingIsIdentity(rows, f, n, i);
    }
    if rows != [] {
      AscendingAtLeast(rows, |rows| - 1);
      assert rows[|rows| - 1] in rows;
    }
    if n > 0 {
      AscendingIsIdentity(rows, f, n, n - 1);
    }
  }

  function Offsets(first: nat, c: nat): nat -> nat {
    (i: nat) => (first + i) * c
  }

  /** With verification, each read of a complete file is the right chunk or an error, whatever happened to the blobs. */
  lemma ReadsAreRight(t: Tables, f: int, content: Bytes, c: nat, hash: Bytes -> Sha, rows: seq<Slot>, first: nat, n: nat,
                      read: nat -> Option<Bytes>, blobsAt: nat -> map<Sha, Bytes>)
    requires c > 0 && FullyLinked(t, f, content, c, hash) && CollisionFree(hash)
    requires first + n <= |rows| == ChunkCount(|content|, c)
    requires forall i :: 0 <= i < |rows| ==> rows[i] == Slot(f, i)
    requires forall i: nat :: i < n ==> read(i) == VerifiedRead(blobsAt(i), t.links[Slot(f, first + i)].sha, true, hash)
    ensures RightOrError(read, content, c, Offsets(first, c), n)
  {
    var off := Offsets(first, c);
    forall i: nat | i < n
      ensures off(i) < |content| && (read(i).Some? ==> read(i).value == PieceAt(content, off(i), c))
    {
      assert Slot(f, first + i) in t.links;
    }
  }

  lemma RangeWindow(start: nat, end: nat, total: nat, c: nat)
    requires c > 0 && start <= end < total
    ensures start / c <= end / c
    ensures Window(Offsets(start / c, c), end / c - start / c + 1, c, start, end, total)
  {
    var first, last := start / c, end / c;
    FirstNotAfterLast(start, end, c);
    ChunkOfByte(start, first, c);
    ChunkOfByte(end, last, c);
    var off := Offsets(first, c);
    assert off(last - first) == last * c;
    forall i: nat ensures off(i + 1) == off(i) + c {
      Distribute(first + i, c);
    }
  }

  lemma LastChunkInRange(end: nat, total: nat, c: nat)
    requires c > 0 && end < total
    ensures end / c < ChunkCount(total, c)
  {
    ChunkOfByte(end, end / c, c);
    InRange(end / c, total, c);
  }

  lemma FirstNotAfterLast(start: nat, end: nat, c: nat)
    requires c > 0 && start <= end
    ensures start / c <= end / c
  {
    ChunkOfByte(start, start / c, c);
    ChunkOfByte(end, end / c, c);
    if end / c < start / c {
      Product(end / c, start / c, c);
    }
  }

  /** The file is complete and verification can be relied on. */
  ghost predicate Trusted(t: Tables, f: int, content: Bytes, c: nat, verify: bool, hash: Bytes -> Sha)
    requires c > 0
  {
    FullyLinked(t, f, content, c, hash) && verify && CollisionFree(hash)
  }

  /** The blob of chunk `q`, if it is there, is the chunk. */
  ghost predicate UndamagedAt(t: Tables, f: int, content: Bytes, c: nat, q: nat, blobs: map<Sha, Bytes>) {
    Slot(f, q) in t.links && t.links[Slot(f, q)].sha in blobs ==>
      q * c < |content| && blobs[t.links[Slot(f, q)].sha] == Piece(content, q, c)
  }

  /** `blobsAt(j)` is what the backend holds when chunk `first + j` is read. */
  ghost predicate Undamaged(t: Tables, f: int, content: Bytes, c: nat, first: nat, n: nat, blobsAt: nat -> map<Sha, Bytes>) {
    forall j: nat :: j < n ==> UndamagedAt(t, f, content, c, first + j, blobsAt(j))
  }

  /** The file is complete, and damaged blobs are found out or there are none among those read. */
  ghost predicate Dependable(t: Tables, f: int, content: Bytes, c: nat, verify: bool, hash: Bytes -> Sha, first: nat, n: nat,
                             blobsAt: nat -> map<Sha, Bytes>)
    requires c > 0
  {
    FullyLinked(t, f, content, c, hash) && ((verify && CollisionFree(hash)) || Undamaged(t, f, content, c, first, n, blobsAt))
  }

  /** The blob of chunk `q` is there, hashing to its name if that is checked. */
  ghost predicate FoundAt(t: Tables, f: int, verify: bool, hash: Bytes -> Sha, q: nat, blobs: map<Sha, Bytes>) {
    && Slot(f, q) in t.links && t.links[Slot(f, q)].sha in blobs
    && (verify ==> hash(blobs[t.links[Slot(f, q)].sha]) == t.links[Slot(f, q)].sha)
  }

  ghost predicate Found(t: Tables, f: int, verify: bool, hash: Bytes -> Sha, first: nat, k: nat, blobsAt: nat -> map<Sha, Bytes>) {
    forall j: nat :: j < k ==> FoundAt(t, f, verify, hash, first + j, blobsAt(j))
  }

  /** The blob of chunk `q` is there and is the chunk. */
  ghost predicate IntactAt(t: Tables, f: int, content: Bytes, c: nat, q: nat, blobs: map<Sha, Bytes>) {
    && Slot(f, q) in t.links && q * c < |content|
    && t.links[Slot(f, q)].sha in blobs && blobs[t.links[Slot(f, q)].sha] == Piece(content, q, c)
  }

  /** The range touches the `n` chunks from `first` on. */
  predicate Spans(c: nat, start: nat, end: nat, first: nat, n: nat) {
    c > 0 && start <= end && n > 0 && first == start / c && first + n == end / c + 1
  }

  /**
   The range up to the first chunk whose blob is missing or found out, a read error there and nothing after it;
   the whole range and no error when there is none.
   */
  ghost predicate StreamsUntil(items: seq<Item>, t: Tables, f: int, content: Bytes, c: nat, verify: bool, hash: Bytes -> Sha,
                               start: nat, end: nat, first: nat, n: nat, blobsAt: nat -> map<Sha, Bytes>)
    requires start <= end < |content|
  {
    forall k: nat :: k <= n ==> StopsAt(items, t, f, content, c, verify, hash, start, end, first, n, blobsAt, k)
  }

  /** If chunk `first + k` is the first not found, or all `k` are found, streaming stops there. */
  ghost predicate StopsAt(items: seq<Item>, t: Tables, f: int, content: Bytes, c: nat, verify: bool, hash: Bytes -> Sha,
                          start: nat, end: nat, first: nat, n: nat, blobsAt: nat -> map<Sha, Bytes>, k: nat)
    requires start <= end < |content|
  {
    Found(t, f, verify, hash, first, k, blobsAt) && (k < n ==> !Found(t, f, verify, hash, first, k + 1, blobsAt)) ==>
      StreamedTo(items, content, start, if k < n then Max(start, (first + k) * c) else end + 1, k, k < n)
  }

  ghost predicate StreamedTo(items: seq<Item>, content: Bytes, start: nat, stop: nat, pieces: nat, failed: bool) {
    start <= stop <= |content| && Stops(items, content[start..stop], pieces, failed)
  }

  /** The rows of a complete file: slot after slot. */
  ghost predicate AllRows(rows: seq<Slot>, f: int, count: nat) {
    |rows| == count && forall i :: 0 <= i < |rows| ==> rows[i] == Slot(f, i)
  }

  /** `None` where slicing the rows is out of bounds. */
  method StreamRows(t: Tables, f: int, rows: seq<Slot>, start: nat, end: nat, c: nat, depth: nat, verify: bool,
                    hash: Bytes -> Sha, blobsAt: nat -> map<Sha, Bytes>, ghost content: Bytes)
      returns (items: Option<seq<Item>>, ghost first: nat, ghost n: nat)
    requires c > 0 && start <= end
    requires Enumerates(rows, SlotsOf(t.links, f))
    requires forall a, b :: 0 <= a < b < |rows| ==> rows[a].index < rows[b].index
    ensures items.None? <==> |rows| == 0 || start / c > |rows|
    ensures FullyLinked(t, f, content, c, hash) && end < |content| ==> items.Some?
    ensures Trusted(t, f, content, c, verify, hash) && end < |content| ==>
      Delivers(items.value, content[start..end + 1], end / c - start / c + 1)
    ensures Spans(c, start, end, first, n)
    ensures end < |content| && Dependable(t, f, content, c, verify, hash, first, n, blobsAt) ==>
      StreamsUntil(items.value, t, f, content, c, verify, hash, start, end, first, n, blobsAt)
  {
    var head := start / c;
    FirstNotAfterLast(start, end, c);
    first, n := start / c, end / c + 1 - start / c;
    var final := if |rows| == 0 then 0 else |rows| - 1;
    var last := if end / c < final then end / c else final;
    RowsInRange(t, f, content, c, hash, rows, end);
    if head > last + 1 || last >= |rows| {
      return None, first, n;
    }
    var read := ReadRow(t.links, rows[head..last + 1], verify, hash, blobsAt);
    var out := StreamChunks(read, last + 1 - head, head * c, start, end, depth);
    SpansWindow(start, end, |content|, c, head, n);
    RowsReach(t, f, content, c, verify, hash, rows, blobsAt, start, end, head, last, n, out);
    RowsServe(t, f, content, c, verify, hash, rows, blobsAt, start, end, head, last, out);
    return Some(out), first, n;
  }

  /** The read of the `i`-th relevant row, whenever it happens. */
  function ReadRow(links: map<Slot, Link>, relevant: seq<Slot>, verify: bool, hash: Bytes -> Sha,
                   blobsAt: nat -> map<Sha, Bytes>): nat -> Option<Bytes> {
    (i: nat) => if i < |relevant| && relevant[i] in links
                then VerifiedRead(blobsAt(i), links[relevant[i]].sha, verify, hash) else None
  }

  lemma RowsInRange(t: Tables, f: int, content: Bytes, c: nat, hash: Bytes -> Sha, rows: seq<Slot>, end: nat)
    requires c > 0 && Enumerates(rows, SlotsOf(t.links, f))
    requires forall a, b :: 0 <= a < b < |rows| ==> rows[a].index < rows[b].index
    ensures FullyLinked(t, f, content, c, hash) && end < |content| ==> end / c < |rows| && AllRows(rows, f, ChunkCount(|content|, c))
  {
    if FullyLinked(t, f, content, c, hash) && end < |content| {
      RowsOfCompleteFile(t, f, content, c, hash, rows);
      LastChunkInRange(end, |content|, c);
    }
  }

  lemma RowsRight(t: Tables, f: int, content: Bytes, c: nat, verify: bool, hash: Bytes -> Sha, rows: seq<Slot>,
                  blobsAt: nat -> map<Sha, Bytes>, first: nat, last: nat)
    requires c > 0 && Trusted(t, f, content, c, verify, hash) && first <= last < |rows|
    requires Enumerates(rows, SlotsOf(t.links, f))
    requires forall a, b :: 0 <= a < b < |rows| ==> rows[a].index < rows[b].index
    ensures RightOrError(ReadRow(t.links, rows[first..last + 1], verify, hash, blobsAt), content, c, Offsets(first, c), last + 1 - first)
  {
    var read := ReadRow(t.links, rows[first..last + 1], verify, hash, blobsAt);
    RowsOfCompleteFile(t, f, content, c, hash, rows);
    ReadsAreRight(t, f, content, c, hash, rows, first, last + 1 - first, read, blobsAt);
  }

  lemma RowsDeliver(read: nat -> Option<Bytes>, content: Bytes, c: nat, start: nat, end: nat, first: nat, last: nat)
    requires c > 0 && start <= end < |content| && first == start / c && last == end / c && first <= last
    requires RightOrError(read, content, c, Offsets(first, c), last + 1 - first)
    ensures Delivers(Sequential(read, last + 1 - first, 0, first * c, start, end), content[start..end + 1], last + 1 - first)
  {
    RangeWindow(start, end, |content|, c);
    WindowDelivers(read, content, c, Offsets(first, c), last + 1 - first, start, end);
    assert Offsets(first, c)(0) == first * c;
  }

  lemma RowsServe(t: Tables, f: int, content: Bytes, c: nat, verify: bool, hash: Bytes -> Sha, rows: seq<Slot>,
                  blobsAt: nat -> map<Sha, Bytes>, start: nat, end: nat, first: nat, last: nat, out: seq<Item>)
    requires c > 0 && start <= end && first == start / c && first <= last + 1 && last < |rows|
    requires Enumerates(rows, SlotsOf(t.links, f))
    requires forall a, b :: 0 <= a < b < |rows| ==> rows[a].index < rows[b].index
    requires out == Sequential(ReadRow(t.links, rows[first..last + 1], verify, hash, blobsAt), last + 1 - first, 0, first * c, start, end)
    requires FullyLinked(t, f, content, c, hash) && end < |content| ==> last == end / c && first <= last
    ensures Trusted(t, f, content, c, verify, hash) && end < |content| ==>
      Delivers(out, content[start..end + 1], end / c - start / c + 1)
  {
    if Trusted(t, f, content, c, verify, hash) && end < |content| {
      RowsRight(t, f, content, c, verify, hash, rows, blobsAt, first, last);
      RowsDeliver(ReadRow(t.links, rows[first..last + 1], verify, hash, blobsAt), content, c, start, end, first, last);
    }
  }

  /* ---- Exactly how far ---- */

  lemma RowAt(rows: seq<Slot>, f: int, count: nat, first: nat, n: nat, i: nat)
    requires AllRows(rows, f, count) && first + n <= |rows| && i < n
    ensures rows[first..first + n][i] == Slot(f, first + i)
  {
  }

  lemma UndamagedRead(t: Tables, f: int, content: Bytes, c: nat, verify: bool, hash: Bytes -> Sha, rows: seq<Slot>,
                      blobsAt: nat -> map<Sha, Bytes>, first: nat, n: nat, i: nat)
    requires c > 0 && AllRows(rows, f, ChunkCount(|content|, c)) && first + n <= |rows| && i < n
    requires UndamagedAt(t, f, content, c, first + i, blobsAt(i))
    ensures var read := ReadRow(t.links, rows[first..first + n], verify, hash, blobsAt);
      (first + i) * c < |content| && (read(i).Some? ==> read(i).value == Piece(content, first + i, c))
  {
    RowAt(rows, f, ChunkCount(|content|, c), first, n, i);
    InRange(first + i, |content|, c);
  }

  lemma DependableReads(t: Tables, f: int, content: Bytes, c: nat, verify: bool, hash: Bytes -> Sha, rows: seq<Slot>,
                        blobsAt: nat -> map<Sha, Bytes>, first: nat, n: nat)
    requires c > 0 && Dependable(t, f, content, c, verify, hash, first, n, blobsAt) && first + n <= |rows|
    requires AllRows(rows, f, ChunkCount(|content|, c))
    ensures RightOrError(ReadRow(t.links, rows[first..first + n], verify, hash, blobsAt), content, c, Offsets(first, c), n)
  {
    var read := ReadRow(t.links, rows[first..first + n], verify, hash, blobsAt);
    if verify && CollisionFree(hash) {
      ReadsAreRight(t, f, content, c, hash, rows, first, n, read, blobsAt);
    } else {
      forall i: nat | i < n
        ensures (first + i) * c < |content| && (read(i).Some? ==> read(i).value == Piece(content, first + i, c))
      {
        UndamagedRead(t, f, content, c, verify, hash, rows, blobsAt, first, n, i);
      }
    }
  }

  /** A row's read succeeds exactly when its blob is there and, if checked, hashes to its name. */
  lemma FoundReads(t: Tables, f: int, verify: bool, hash: Bytes -> Sha, rows: seq<Slot>, count: nat,
                   blobsAt: nat -> map<Sha, Bytes>, first: nat, n: nat, j: nat)
    requires AllRows(rows, f, count) && first + n <= |rows| && j < n
    ensures ReadRow(t.links, rows[first..first + n], verify, hash, blobsAt)(j).Some? <==>
            FoundAt(t, f, verify, hash, first + j, blobsAt(j))
  {
    RowAt(rows, f, count, first, n, j);
  }

  lemma ReadsStop(read: nat -> Option<Bytes>, content: Bytes, c: nat, start: nat, end: nat, first: nat, n: nat, k: nat)
    requires Window(Offsets(first, c), n, c, start, end, |content|) && k <= n
    requires RightOrError(read, content, c, Offsets(first, c), n)
    requires (forall j :: 0 <= j < k ==> read(j).Some?) && (k < n ==> read(k).None?)
    ensures StreamedTo(Sequential(read, n, 0, first * c, start, end), content, start,
                       if k < n then Max(start, (first + k) * c) else end + 1, k, k < n)
  {
    var off := Offsets(first, c);
    SequentialStops(read, content, c, off, n, 0, k, start, end);
    assert off(0) == first * c && off(k) == (first + k) * c;
  }

  lemma FirstFailure(t: Tables, f: int, verify: bool, hash: Bytes -> Sha, rows: seq<Slot>, count: nat,
                     blobsAt: nat -> map<Sha, Bytes>, first: nat, n: nat, k: nat)
    requires AllRows(rows, f, count) && first + n <= |rows| && k <= n
    requires Found(t, f, verify, hash, first, k, blobsAt) && (k < n ==> !Found(t, f, verify, hash, first, k + 1, blobsAt))
    ensures var read := ReadRow(t.links, rows[first..first + n], verify, hash, blobsAt);
      (forall j :: 0 <= j < k ==> read(j).Some?) && (k < n ==> read(k).None?)
  {
    var read := ReadRow(t.links, rows[first..first + n], verify, hash, blobsAt);
    forall j | 0 <= j < k ensures read(j).Some? {
      FoundReads(t, f, verify, hash, rows, count, blobsAt, first, n, j);
    }
    if k < n {
      FoundReads(t, f, verify, hash, rows, count, blobsAt, first, n, k);
    }
  }

  lemma RowsStream(t: Tables, f: int, content: Bytes, c: nat, verify: bool, hash: Bytes -> Sha, rows: seq<Slot>,
                   blobsAt: nat -> map<Sha, Bytes>, start: nat, end: nat, first: nat, n: nat, out: seq<Item>)
    requires Window(Offsets(first, c), n, c, start, end, |content|) && first + n <= |rows|
    requires AllRows(rows, f, ChunkCount(|content|, c)) && Dependable(t, f, content, c, verify, hash, first, n, blobsAt)
    requires out == Sequential(ReadRow(t.links, rows[first..first + n], verify, hash, blobsAt), n, 0, first * c, start, end)
    ensures StreamsUntil(out, t, f, content, c, verify, hash, start, end, first, n, blobsAt)
  {
    DependableReads(t, f, content, c, verify, hash, rows, blobsAt, first, n);
    forall k: nat | k <= n ensures StopsAt(out, t, f, content, c, verify, hash, start, end, first, n, blobsAt, k) {
      if Found(t, f, verify, hash, first, k, blobsAt) && (k < n ==> !Found(t, f, verify, hash, first, k + 1, blobsAt)) {
        FirstFailure(t, f, verify, hash, rows, ChunkCount(|content|, c), blobsAt, first, n, k);
        ReadsStop(ReadRow(t.links, rows[first..first + n], verify, hash, blobsAt), content, c, start, end, first, n, k);
      }
    }
  }

  lemma SpansWindow(start: nat, end: nat, total: nat, c: nat, first: nat, n: nat)
    requires Spans(c, start, end, first, n)
    ensures end < total ==> Window(Offsets(first, c), n, c, start, end, total)
  {
    if end < total {
      RangeWindow(start, end, total, c);
    }
  }

  lemma RowsReach(t: Tables, f: int, content: Bytes, c: nat, verify: bool, hash: Bytes -> Sha, rows: seq<Slot>,
                  blobsAt: nat -> map<Sha, Bytes>, start: nat, end: nat, first: nat, last: nat, n: nat, out: seq<Item>)
    requires c > 0 && start <= end && first <= last + 1 && last < |rows|
    requires end < |content| ==> Window(Offsets(first, c), n, c, start, end, |content|)
    requires out == Sequential(ReadRow(t.links, rows[first..last + 1], verify, hash, blobsAt), last + 1 - first, 0, first * c, start, end)
    requires FullyLinked(t, f, content, c, hash) && end < |content| ==> first + n == last + 1 && AllRows(rows, f, ChunkCount(|content|, c))
    ensures end < |content| && Dependable(t, f, content, c, verify, hash, first, n, blobsAt) ==>
      StreamsUntil(out, t, f, content, c, verify, hash, start, end, first, n, blobsAt)
  {
    if end < |content| && Dependable(t, f, content, c, verify, hash, first, n, blobsAt) {
      RowsStream(t, f, content, c, verify, hash, rows, blobsAt, start, end, first, n, out);
    }
  }

  /** Every blob of the range intact: no error, and exactly the range, whether blobs are verified or not. */
  lemma IntactStreamsWhole(items: seq<Item>, t: Tables, f: int, content: Bytes, c: nat, verify: bool, hash: Bytes -> Sha,
                           start: nat, end: nat, first: nat, n: nat, blobsAt: nat -> map<Sha, Bytes>)
    requires start <= end < |content| && Spans(c, start, end, first, n) && FullyLinked(t, f, content, c, hash)
    requires forall j: nat :: j < n ==> IntactAt(t, f, content, c, first + j, blobsAt(j))
    requires Dependable(t, f, content, c, verify, hash, first, n, blobsAt) ==>
      StreamsUntil(items, t, f, content, c, verify, hash, start, end, first, n, blobsAt)
    ensures ReadError !in items && Delivered(items) == content[start..end + 1]
  {
    IntactIsFound(t, f, content, c, verify, hash, first, n, blobsAt);
    WholeStream(items, t, f, content, c, verify, hash, start, end, first, n, blobsAt);
  }

  lemma WholeStream(items: seq<Item>, t: Tables, f: int, content: Bytes, c: nat, verify: bool, hash: Bytes -> Sha,
                    start: nat, end: nat, first: nat, n: nat, blobsAt: nat -> map<Sha, Bytes>)
    requires start <= end < |content| && Found(t, f, verify, hash, first, n, blobsAt)
    requires StreamsUntil(items, t, f, content, c, verify, hash, start, end, first, n, blobsAt)
    ensures ReadError !in items && Delivered(items) == content[start..end + 1]
  {
    assert StopsAt(items, t, f, content, c, verify, hash, start, end, first, n, blobsAt, n);
  }

  lemma IntactIsFound(t: Tables, f: int, content: Bytes, c: nat, verify: bool, hash: Bytes -> Sha, first: nat, n: nat,
                      blobsAt: nat -> map<Sha, Bytes>)
    requires c > 0 && FullyLinked(t, f, content, c, hash)
    requires forall j: nat :: j < n ==> IntactAt(t, f, content, c, first + j, blobsAt(j))
    ensures Found(t, f, verify, hash, first, n, blobsAt) && Dependable(t, f, content, c, verify, hash, first, n, blobsAt)
  {
    forall j: nat | j < n
      ensures FoundAt(t, f, verify, hash, first + j, blobsAt(j)) && UndamagedAt(t, f, content, c, first + j, blobsAt(j))
    {
      IntactIsFoundAt(t, f, content, c, verify, hash, first + j, blobsAt(j));
    }
  }

  lemma IntactIsFoundAt(t: Tables, f: int, content: Bytes, c: nat, verify: bool, hash: Bytes -> Sha, q: nat, blobs: map<Sha, Bytes>)
    requires c > 0 && FullyLinked(t, f, content, c, hash) && IntactAt(t, f, content, c, q, blobs)
    ensures FoundAt(t, f, verify, hash, q, blobs) && UndamagedAt(t, f, content, c, q, blobs)
  {
    InRange(q, |content|, c);
  }

  lemma WindowDelivers(read: nat -> Option<Bytes>, content: Bytes, c: nat, off: nat -> nat, n: nat, start: nat, end: nat)
    requires Window(off, n, c, start, end, |content|) && RightOrError(read, content, c, off, n)
    ensures Delivers(Sequential(read, n, 0, off(0), start, end), content[start..end + 1], n)
  {
    SequentialDelivers(read, content, c, off, n, 0, start, end);
    assert Left(content, off, n, 0, start, end) == content[start..end + 1];
  }

  /** `blobsAt(i)` is what the backend holds when the `i`-th relevant chunk is read. */
  method StreamCachedFile(store: MetadataStore, name: string, source: string, rangeStart: Option<nat>, rangeEnd: Option<nat>,
                          c: nat, depth: nat, verify: bool, hash: Bytes -> Sha, blobsAt: nat -> map<Sha, Bytes>,
                          ghost content: Bytes)
      returns (r: StreamResult, ghost f: int, ghost first: nat, ghost n: nat)
    requires c > 0
    ensures r.NotFound? <==> !NameTaken(store.files, name, source)
    ensures r.NotFound? ==> forall g :: g in store.files ==> store.files[g].name != name || store.files[g].source != source
    ensures !r.NotFound? ==> f in store.files && store.files[f].name == name && store.files[f].source == source
    ensures !r.NotFound? ==>
      match Resolve(Request(if rangeStart.Some? then rangeStart.value else 0, rangeEnd), store.files[f].totalSize)
      case None => r.InvalidRange?
      case Some(span) =>
        var rows := |SlotsOf(store.links, f)|;
        if rows == 0 || span.0 / c > rows then r.Panicked?
        else r.Streaming? && r.file == f && r.contentLength == span.1 - span.0 + 1
    ensures r.Panicked? ==> !FullyLinked(store.Rows(), f, content, c, hash)
    ensures r.Streaming? && Trusted(store.Rows(), f, content, c, verify, hash) ==>
      var asked := Resolve(Request(if rangeStart.Some? then rangeStart.value else 0, rangeEnd), |content|);
      && asked.Some? && asked.value.0 <= asked.value.1 < |content|
      && Delivers(r.items, content[asked.value.0..asked.value.1 + 1], asked.value.1 / c - asked.value.0 / c + 1)
    ensures r.Streaming? && store.files[f].totalSize == |content| ==>
      var asked := Resolve(Request(if rangeStart.Some? then rangeStart.value else 0, rangeEnd), |content|);
      && asked.Some? && asked.value.0 <= asked.value.1 < |content|
      && Spans(c, asked.value.0, asked.value.1, first, n)
      && (Dependable(store.Rows(), f, content, c, verify, hash, first, n, blobsAt) ==>
            StreamsUntil(r.items, store.Rows(), f, content, c, verify, hash, asked.value.0, asked.value.1, first, n, blobsAt))
  {
    first, n := 0, 0;
    var id := store.FindFile(name, source);
    if id.None? {
      return NotFound, 0, first, n;
    }
    f := id.value;
    var asked := Resolve(Request(if rangeStart.Some? then rangeStart.value else 0, rangeEnd), store.files[id.value].totalSize);
    if asked.None? {
      return InvalidRange, f, first, n;
    }
    var (start, end) := asked.value;
    var rows := store.GetFileChunks(id.value);
    Oldest.SameSet(rows, SlotsOf(store.links, f));
    var items;
    items, first, n := StreamRows(store.Rows(), id.value, rows, start, end, c, depth, verify, hash, blobsAt, content);
    if items.None? {
      return Panicked, f, first, n;
    }
    return Streaming(id.value, end - start + 1, items.value), f, first, n;
  }
}
