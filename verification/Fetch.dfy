/** Reading a chunk from the cache, downloading it with retries, and healing a damaged blob. */
module Fetch {
  import opened Wrappers
  import opened Bytes
  import opened Schema
  import opened ChunkMath
  import opened LocalStorage

  /** What one request can come back with; `Full` is status 200, `Partial` any other success. */
  datatype Response =
    | TransportError
    | ServerError
    | ClientError
    | BodyError
    | Partial(body: Bytes)
    | Full(body: Bytes)

  datatype FetchError = Exhausted(attempts: nat) | Rejected | ChecksumMismatch | StoreRefused

  /** An upstream that serves `file`: a 200 carries all of it, a range of the right length is the right range. */
  ghost predicate Honest(r: Response, file: Bytes, start: nat, end: nat) {
    match r
    case Full(body) => body == file
    case Partial(body) => |body| == end - start + 1 ==> start <= end < |file| && body == file[start..end + 1]
    case _ => true
  }

  /** Worth another attempt. */
  predicate Retryable(r: Response, expected: nat) {
    match r
    case ClientError => false
    case Partial(body) => |body| != expected
    case Full(body) => |body| < expected
    case _ => true
  }

  /** Ends the loop successfully. */
  predicate Usable(r: Response, expected: nat) {
    (r.Partial? || r.Full?) && !Retryable(r, expected)
  }

  /** Some attempt within the bound comes back usable, after only retryable ones. */
  ghost predicate Answered(responses: nat -> Response, retries: nat, expected: nat) {
    exists k: nat :: AnsweredAt(responses, retries, expected, k)
  }

  ghost predicate AnsweredAt(responses: nat -> Response, retries: nat, expected: nat, k: nat) {
    1 <= k <= Attempts(retries) && Usable(responses(k), expected) && forall j :: 1 <= j < k ==> Retryable(responses(j), expected)
  }

  function Attempts(retries: nat): nat {
    if retries < 1 then 1 else retries
  }

  lemma BackoffStep(k: nat)
    requires k >= 1
    ensures 250 * k * (k - 1) + 500 * k == 250 * (k + 1) * k
  {
    assert (k + 1) * k == k * (k - 1) + 2 * k;
  }

  lemma BackoffBound(k: nat, m: nat)
    requires 1 <= k <= m
    ensures 250 * k * (k - 1) <= 250 * m * (m - 1)
    decreases m - k
  {
    if k < m {
      BackoffBound(k + 1, m);
      BackoffStep(k);
    }
  }

  /**
   The retry loop. `responses(k)` answers attempt `k`; `slept` adds up the linear backoff in
   milliseconds.
   */
  method Download(retries: nat, start: nat, end: nat, responses: nat -> Response, ghost file: Bytes)
      returns (r: Result<Bytes, FetchError>, attempts: nat, slept: nat)
    requires start <= end < |file|
    requires forall k: nat :: Honest(responses(k), file, start, end)
    ensures 1 <= attempts <= Attempts(retries)
    ensures slept == 250 * attempts * (attempts - 1) <= 250 * Attempts(retries) * (Attempts(retries) - 1)
    ensures r.Ok? ==> r.value == file[start..end + 1]
    ensures r.Ok? <==> Usable(responses(attempts), end - start + 1)
    ensures r.Ok? <==> Answered(responses, retries, end - start + 1)
    ensures forall k :: 1 <= k < attempts ==> Retryable(responses(k), end - start + 1)
    ensures Retryable(responses(attempts), end - start + 1) ==> attempts == Attempts(retries)
    ensures r.Err? ==> r.error == if responses(attempts).ClientError? then Rejected else Exhausted(attempts)
    ensures attempts <= Max(retries, 1) && (r.Err? ==> responses(attempts).ClientError? || attempts == Max(retries, 1))
    ensures forall k: nat ::
      && 1 <= k <= Max(retries, 1) && (responses(k).Full? || (responses(k).Partial? && |responses(k).body| == end - start + 1))
      && (forall j: nat :: 1 <= j < k ==>
            responses(j).TransportError? || responses(j).ServerError? || responses(j).BodyError? ||
            (responses(j).Partial? && |responses(j).body| != end - start + 1))
      ==> r.Ok? && attempts == k
  {
    var maxRetries := if retries > 1 then retries else 1;
    var expected := end - start + 1;
    attempts, slept := 0, 0;
    while true
      invariant 0 <= attempts < maxRetries
      invariant slept == if attempts == 0 then 0 else 250 * (attempts + 1) * attempts
      invariant forall k :: 1 <= k <= attempts ==> Retryable(responses(k), expected)
      decreases maxRetries - attempts
    {
      attempts := attempts + 1;
      var response := responses(attempts);
      BackoffBound(attempts, maxRetries);
      if response.ClientError? {
        return Err(Rejected), attempts, slept;
      }
      if response.Full? && |response.body| > expected {
        var sliceEnd := if end + 1 < |response.body| then end + 1 else |response.body|;
        assert AnsweredAt(responses, retries, expected, attempts);
        return Ok(response.body[start..sliceEnd]), attempts, slept;
      }
      if (response.Full? || response.Partial?) && |response.body| == expected {
        assert AnsweredAt(responses, retries, expected, attempts);
        return Ok(response.body), attempts, slept;
      }
      if attempts >= maxRetries {
        return Err(Exhausted(attempts)), attempts, slept;
      }
      BackoffStep(attempts);
      slept := slept + 500 * attempts;
    }
  }

  /** Chunk `k.index` of the file behind `k.file`, as upstream serves it. */
  ghost predicate InFile(content: int -> Bytes, c: nat, k: Slot) {
    k.index >= 0 && k.index * c < |content(k.file)|
  }

  ghost function Truth(content: int -> Bytes, c: nat, k: Slot): Bytes
    requires InFile(content, c, k)
  {
    Piece(content(k.file), k.index, c)
  }

  /** Every remembered hash is the hash of the right chunk. */
  ghost predicate RightShas(content: int -> Bytes, c: nat, hash: Bytes -> Sha, cached: map<Slot, Sha>) {
    forall k :: k in cached ==> InFile(content, c, k) && cached[k] == hash(Truth(content, c, k))
  }

  class ChunkReader {
    const hash: Bytes -> Sha
    const verify: bool
    const chunkRetries: nat
    const chunkSize: nat
    /** What the backend reports having written for a blob. */
    const putSize: Bytes -> nat
    var blobs: map<Sha, Bytes>
    var cached: map<Slot, Sha>
    var events: seq<ChunkStored>
    var fetchedBytes: nat

    constructor (hash: Bytes -> Sha, verify: bool, chunkRetries: nat, chunkSize: nat, putSize: Bytes -> nat)
      ensures this.hash == hash && this.verify == verify && this.chunkRetries == chunkRetries
      ensures this.chunkSize == chunkSize && this.putSize == putSize
      ensures blobs == map[] && cached == map[] && events == [] && fetchedBytes == 0
    {
      this.hash, this.verify, this.chunkRetries, this.chunkSize := hash, verify, chunkRetries, chunkSize;
      this.putSize := putSize;
      blobs, cached, events, fetchedBytes := map[], map[], [], 0;
    }

    /** With verification on, only bytes matching hash and length come back; anything else is deleted. */
    method ReadCachedChunk(h: Sha, expected: nat) returns (data: Option<Bytes>)
      modifies this`blobs
      ensures data.Some? ==> h in old(blobs) && data.value == old(blobs)[h] && blobs == old(blobs)
      ensures data.Some? && verify ==> hash(data.value) == h && |data.value| == expected
      ensures data.None? ==> blobs == old(blobs) - {h}
      ensures data.None? && h in old(blobs) ==> verify && (hash(old(blobs)[h]) != h || |old(blobs)[h]| != expected)
    {
      if h !in blobs {
        assert blobs - {h} == blobs;
        return None;
      }
      var raw := blobs[h];
      if !verify {
        return Some(raw);
      }
      if hash(raw) == h {
        if |raw| != expected {
          blobs := blobs - {h};
          return None;
        }
        return Some(raw);
      }
      blobs := blobs - {h};
      return None;
    }

    /**
     Download, compare with the remembered hash, store unless a blob already has that name, remember, announce.
     `accepts` is whether the backend takes the write.
     */
    method FetchChunk(k: Slot, start: nat, end: nat, responses: nat -> Response, accepts: bool, ghost file: Bytes)
        returns (r: Result<Bytes, FetchError>)
      requires start <= end < |file|
      requires forall i: nat :: Honest(responses(i), file, start, end)
      modifies this
      ensures r.Ok? ==>
        && r.value == file[start..end + 1]
        && (verify && k in old(cached) ==> old(cached)[k] == hash(r.value))
        && blobs == (if hash(r.value) in old(blobs) then old(blobs) else old(blobs)[hash(r.value) := r.value])
        && cached == old(cached)[k := hash(r.value)]
        && events == old(events) + [ChunkStored(hash(r.value), |r.value|,
             if hash(r.value) in old(blobs) then |r.value| else putSize(r.value), k.file, k.index)]
      ensures r.Err? ==> blobs == old(blobs) && cached == old(cached) && events == old(events)
      ensures var answered, sha := Answered(responses, chunkRetries, end - start + 1), hash(file[start..end + 1]);
        var mismatch := verify && k in old(cached) && old(cached)[k] != sha;
        && (r.Ok? <==> answered && !mismatch && (accepts || sha in old(blobs)))
        && (r.Err? && r.error.ChecksumMismatch? <==> answered && mismatch)
        && (r.Err? && r.error.StoreRefused? <==> answered && !mismatch && !accepts && sha !in old(blobs))
    {
      var attempts, slept;
      r, attempts, slept := Download(chunkRetries, start, end, responses, file);
      if r.Err? {
        return r;
      }
      var data := r.value;
      fetchedBytes := fetchedBytes + |data|;
      var sha := hash(data);
      if verify && k in cached && cached[k] != sha {
        return Err(ChecksumMismatch);
      }
      var storedSize := |data|;
      if sha !in blobs {
        if !accepts {
          return Err(StoreRefused);
        }
        blobs := blobs[sha := data];
        storedSize := putSize(data);
      }
      cached := cached[k := sha];
      events := events + [ChunkStored(sha, |data|, storedSize, k.file, k.index)];
    }

    /** The cached blob if it is intact, or unverified, otherwise a fresh download under the same slot. */
    method ReadOrFetch(k: Slot, start: nat, end: nat, responses: nat -> Response, accepts: bool, ghost file: Bytes)
        returns (r: Result<Bytes, FetchError>)
      requires start <= end < |file| && CollisionFree(hash)
      requires k in cached ==> cached[k] == hash(file[start..end + 1])
      requires forall i: nat :: Honest(responses(i), file, start, end)
      modifies this
      ensures cached == if r.Ok? then old(cached)[k := hash(file[start..end + 1])] else old(cached) - {k}
      ensures Gets(k, file[start..end + 1], r, Answered(responses, chunkRetries, end - start + 1), accepts, old(cached), old(blobs), blobs)
      ensures OthersStay(hash(file[start..end + 1]), old(blobs), blobs)
      ensures events == old(events) + Announced(k, file[start..end + 1], r, old(cached), old(blobs))
    {
      if k in cached {
        var data := ReadCachedChunk(cached[k], end - start + 1);
        if data.Some? {
          return Ok(data.value);
        }
        cached := cached - {k};
      }
      r := FetchChunk(k, start, end, responses, accepts, file);
    }

    /** The remembered blob is there and passes: intact, or not looked at. */
    ghost predicate Hit(k: Slot, truth: Bytes, cached: map<Slot, Sha>, blobs: map<Sha, Bytes>) {
      k in cached && hash(truth) in blobs && (!verify || blobs[hash(truth)] == truth)
    }

    /**
     The chunk, or what an unverified blob holds; exactly when the blob passes or a download is answered and can be
     stored. The blob is good afterwards exactly when it was remembered and verified, missing, or good before.
     */
    ghost predicate Gets(k: Slot, truth: Bytes, r: Result<Bytes, FetchError>, answered: bool, accepts: bool,
                         cached: map<Slot, Sha>, before: map<Sha, Bytes>, after: map<Sha, Bytes>) {
      var h, hit := hash(truth), Hit(k, truth, cached, before);
      && (r.Ok? <==> hit || (answered && (accepts || (k !in cached && h in before))))
      && match r
         case Err(e) => !e.ChecksumMismatch?
         case Ok(data) =>
           && data == (if hit then before[h] else truth) && h in after
           && (after[h] == truth <==> (verify && k in cached) || h !in before || before[h] == truth)
    }

    ghost predicate OthersStay(h: Sha, before: map<Sha, Bytes>, after: map<Sha, Bytes>) {
      forall g :: g != h ==> (g in after <==> g in before) && (g in before ==> after[g] == before[g])
    }

    /** One event for a chunk that was downloaded and none otherwise; its stored size is what the backend wrote, if it wrote. */
    ghost function Announced(k: Slot, truth: Bytes, r: Result<Bytes, FetchError>, cached: map<Slot, Sha>,
                             before: map<Sha, Bytes>): seq<ChunkStored>
    {
      if r.Err? || Hit(k, truth, cached, before) then []
      else [ChunkStored(hash(truth), |truth|, if k !in cached && hash(truth) in before then |truth| else putSize(truth), k.file, k.index)]
    }

    /** What a session gets for a chunk of a file upstream serves. */
    method Subscribe(k: Slot, responses: nat -> Response, accepts: bool, ghost content: int -> Bytes, total: nat)
        returns (r: Result<Bytes, FetchError>)
      requires chunkSize > 0 && InFile(content, chunkSize, k) && total == |content(k.file)|
      requires CollisionFree(hash)
      requires RightShas(content, chunkSize, hash, cached)
      requires forall i: nat ::
        Honest(responses(i), content(k.file), k.index * chunkSize, ChunkLast(k.index, total, chunkSize))
      modifies this
      ensures RightShas(content, chunkSize, hash, cached) && (r.Ok? <==> k in cached)
      ensures cached == if r.Ok? then old(cached)[k := hash(Truth(content, chunkSize, k))] else old(cached) - {k}
      ensures verify && r.Ok? ==> r.value == Truth(content, chunkSize, k)
      ensures OthersStay(hash(Truth(content, chunkSize, k)), old(blobs), blobs)
      ensures events == old(events) + Announced(k, Truth(content, chunkSize, k), r, old(cached), old(blobs))
      ensures Gets(k, Truth(content, chunkSize, k), r, Answered(responses, chunkRetries, |Truth(content, chunkSize, k)|), accepts,
                   old(cached), old(blobs), blobs)
    {
      PieceIsSlice(content(k.file), k.index, chunkSize);
      var start := k.index * chunkSize;
      var end := if start + chunkSize - 1 < total - 1 then start + chunkSize - 1 else total - 1;
      r := ReadOrFetch(k, start, end, responses, accepts, content(k.file));
    }
  }
}
