/** The reachable states of the whole system, in terms of the files upstream serves. */
module EndToEnd {
  import opened Bytes
  import opened Schema
  import opened ChunkMath
  import opened LocalStorage
  import opened Completeness
  import opened CachedStream
  import opened Serving
  import Dedup

  /** Upstream serving `content(f)` for file `f`, in chunks of `c`. */
  function ServerOf(content: int -> Bytes, c: nat, hash: Bytes -> Sha): Upstream {
    Upstream((k: Slot) => k.index >= 0 && k.index * c < |content(k.file)|,
             (k: Slot) => if k.index >= 0 && k.index * c < |content(k.file)| then Piece(content(k.file), k.index, c) else [],
             (f: int) => |content(f)|, hash)
  }

  /** Upstream serves every chunk of every file that has a first byte there, and the file's length. */
  lemma ServesEveryChunk(content: int -> Bytes, c: nat, hash: Bytes -> Sha, f: int, i: int)
    ensures var u := ServerOf(content, c, hash);
      && u.hash == hash && u.total(f) == |content(f)|
      && (u.valid(Slot(f, i)) <==> 0 <= i && i * c < |content(f)|)
      && (u.valid(Slot(f, i)) ==> u.truth(Slot(f, i)) == Piece(content(f), i, c))
  {
  }

  /** `data` is the file's bytes from the chunk's start to its end, as downloads compute them. */
  ghost predicate IsSlice(content: int -> Bytes, c: nat, k: Slot, data: Bytes) {
    match k
    case Slot(f, i) =>
      && i >= 0 && 0 <= i * c <= ChunkLast(i, |content(f)|, c) < |content(f)|
      && data == content(f)[i * c..ChunkLast(i, |content(f)|, c) + 1]
  }

  /** Every chunk a session is handed is its byte range of the file. */
  lemma ServedIsSlice(content: int -> Bytes, c: nat, hash: Bytes -> Sha, steps: seq<Serving.Step>, id: int)
    requires c > 0 && CollisionFree(hash) && Legal(ServerOf(content, c, hash), steps)
    requires id in Run(ServerOf(content, c, hash), steps).readers
    ensures var r := Run(ServerOf(content, c, hash), steps).readers[id];
      r.phase.Served? ==> IsSlice(content, c, r.cell.slot, r.phase.data)
  {
    var u := ServerOf(content, c, hash);
    RunsKeep(u, steps);
    ServedReader(u, Run(u, steps), id);
    if Run(u, steps).readers[id].phase.Served? {
      TruthIsSlice(content, c, hash, Run(u, steps).readers[id].cell.slot);
    }
  }

  lemma ServedReader(u: Upstream, w: World, id: int)
    requires Inv(u, w) && id in w.readers
    ensures var r := w.readers[id]; r.phase.Served? ==> u.valid(r.cell.slot) && r.phase.data == u.truth(r.cell.slot)
  {
    assert ReaderRight(u, w.readers[id]);
  }

  lemma TruthIsSlice(content: int -> Bytes, c: nat, hash: Bytes -> Sha, k: Slot)
    requires c > 0 && ServerOf(content, c, hash).valid(k)
    ensures IsSlice(content, c, k, ServerOf(content, c, hash).truth(k))
  {
    PieceIsSlice(content(k.file), k.index, c);
  }

  lemma RightLinksFit(t: Tables, f: int, content: int -> Bytes, c: nat, hash: Bytes -> Sha)
    requires c > 0 && LinksRight(ServerOf(content, c, hash), t)
    ensures LinksFit(t, f, |content(f)|, c)
  {
    forall k | k in SlotsOf(t.links, f)
      ensures 0 <= k.index < ChunkCount(|content(f)|, c) && t.links[k].size == ChunkLen(k.index, |content(f)|, c)
    {
      assert Right(ServerOf(content, c, hash), k, t.links[k].sha, t.links[k].size);
      InRange(k.index, |content(f)|, c);
      PieceIsSlice(content(f), k.index, c);
    }
  }

  lemma RightAndAllLinked(t: Tables, f: int, content: int -> Bytes, c: nat, hash: Bytes -> Sha)
    requires c > 0 && LinksRight(ServerOf(content, c, hash), t) && f in t.files
    requires forall i :: 0 <= i < ChunkCount(|content(f)|, c) ==> Slot(f, i) in t.links
    ensures FullyLinked(t, f, content(f), c, hash)
  {
    RightLinksFit(t, f, content, c, hash);
    forall i | 0 <= i < ChunkCount(|content(f)|, c)
      ensures i * c < |content(f)| && t.links[Slot(f, i)].sha == hash(Piece(content(f), i, c))
    {
      var k := Slot(f, i);
      assert Right(ServerOf(content, c, hash), k, t.links[k].sha, t.links[k].size);
    }
  }

  /**
   In every reachable state the byte count by which a file is called complete is right: it is reached exactly
   when every chunk of the file is linked under its own hash, which is what streaming from the cache relies on.
   */
  lemma CompleteIsWhole(content: int -> Bytes, c: nat, hash: Bytes -> Sha, steps: seq<Serving.Step>, f: int)
    requires c > 0 && CollisionFree(hash) && Legal(ServerOf(content, c, hash), steps)
    requires f in Run(ServerOf(content, c, hash), steps).t.files
    ensures var t := Run(ServerOf(content, c, hash), steps).t;
      Dedup.Downloaded(t, f) >= t.files[f].totalSize <==> FullyLinked(t, f, content(f), c, hash)
  {
    var u := ServerOf(content, c, hash);
    RunsKeep(u, steps);
    var t := Run(u, steps).t;
    RightLinksFit(t, f, content, c, hash);
    CompleteIffAllLinked(t, f, |content(f)|, c);
    if Dedup.Downloaded(t, f) >= t.files[f].totalSize {
      RightAndAllLinked(t, f, content, c, hash);
    }
  }
}
