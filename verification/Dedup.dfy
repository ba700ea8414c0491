/** What deduplication conserves: linked bytes, counted per file or per chunk. */
module Dedup {
  import opened Schema
  import opened RefCounts
  import opened Sums

  function FileSizes(links: map<Slot, Link>, f: int): map<Slot, int> {
    map k | k in links && k.file == f :: links[k].size
  }

  /** `get_file_downloaded_size`: the sum of a file's linked chunk sizes. */
  ghost function Downloaded(t: Tables, f: int): int {
    Sum(FileSizes(t.links, f))
  }

  ghost function DownloadedByFile(t: Tables): map<int, int> {
    map f | f in t.files :: Downloaded(t, f)
  }

  ghost function ReferencedBytes(t: Tables): map<Sha, int> {
    map h | h in t.chunks :: t.chunks[h].refCount * t.chunks[h].size
  }

  ghost function LiveBytes(t: Tables): map<Sha, int> {
    map h | h in t.chunks && t.chunks[h].refCount > 0 :: t.chunks[h].size
  }

  /** Every recorded size is the length of the content behind its hash. */
  ghost predicate SizedBy(t: Tables, lenOf: Sha -> nat) {
    && (forall k :: k in t.links ==> t.links[k].size == lenOf(t.links[k].sha))
    && (forall h :: h in t.chunks ==> t.chunks[h].size == lenOf(h))
  }

  /** Steps whose sizes come from the data that was hashed, as the event of a finished fetch carries them. */
  ghost predicate SizesHonest(s: Step, lenOf: Sha -> nat) {
    match s
    case Ensure(h, size, _, _) => size == lenOf(h)
    case Attach(_, h, size) => size == lenOf(h)
    case Stored(e, _) => e.dataLen == lenOf(e.sha)
    case _ => true
  }

  lemma {:induction false} DeleteFilesSized(t: Tables, ids: seq<int>, clock: int -> int, lenOf: Sha -> nat)
    requires SizedBy(t, lenOf)
    ensures SizedBy(DeleteFiles(t, ids, clock), lenOf)
  {
    if ids != [] {
      DeleteFilesSized(t, ids[..|ids| - 1], clock, lenOf);
    }
  }

  lemma ApplySized(t: Tables, s: Step, lenOf: Sha -> nat)
    requires SizedBy(t, lenOf) && SizesHonest(s, lenOf)
    ensures SizedBy(Apply(t, s, true), lenOf)
  {
    if s.DeleteRepo? {
      DeleteFilesSized(t, s.ids, s.clock, lenOf);
    }
  }

  lemma {:induction false} RunSized(steps: seq<Step>, lenOf: Sha -> nat)
    requires forall s :: s in steps ==> SizesHonest(s, lenOf)
    ensures SizedBy(Run(steps).t, lenOf)
  {
    if steps != [] {
      var before, s := steps[..|steps| - 1], steps[|steps| - 1];
      RunSized(before, lenOf);
      ApplySized(Run(before).t, s, lenOf);
    }
  }

  function LinkSizes(t: Tables): map<Slot, int> {
    map k | k in t.links :: t.links[k].size
  }

  lemma BytesByFile(t: Tables)
    requires NoDangling(t)
    ensures Sum(DownloadedByFile(t)) == Sum(LinkSizes(t))
  {
    var all, fileOf := LinkSizes(t), (k: Slot) => k.file;
    SumByFibers(all, fileOf, t.files.Keys);
    forall f | f in t.files ensures Fiber(all, fileOf, f) == FileSizes(t.links, f) {
    }
    assert FiberSums(all, fileOf, t.files.Keys) == DownloadedByFile(t);
  }

  lemma BytesOfChunk(t: Tables, lenOf: Sha -> nat, shaOf: Slot -> Sha, h: Sha)
    requires CountsExact(t) && SizedBy(t, lenOf) && h in t.chunks
    requires forall k :: k in t.links ==> shaOf(k) == t.links[k].sha
    ensures Sum(Fiber(LinkSizes(t), shaOf, h)) == t.chunks[h].refCount * t.chunks[h].size
  {
    var fiber := Fiber(LinkSizes(t), shaOf, h);
    assert fiber.Keys == LinksTo(t.links, h);
    SumConst(fiber, lenOf(h));
    assert |fiber| == |fiber.Keys|;
  }

  lemma BytesByChunk(t: Tables, lenOf: Sha -> nat)
    requires NoDangling(t) && CountsExact(t) && SizedBy(t, lenOf)
    ensures Sum(ReferencedBytes(t)) == Sum(LinkSizes(t))
  {
    var all := LinkSizes(t);
    var shaOf := (k: Slot) => if k in t.links then t.links[k].sha else Sha("");
    SumByFibers(all, shaOf, t.chunks.Keys);
    forall h | h in t.chunks {
      BytesOfChunk(t, lenOf, shaOf, h);
    }
    assert FiberSums(all, shaOf, t.chunks.Keys) == ReferencedBytes(t);
  }

  lemma Outweighs(n: int, size: nat)
    requires n >= 1
    ensures size <= n * size
  {
    assert n * size == size + (n - 1) * size;
    assert (n - 1) * size >= 0;
  }

  lemma LiveBelowReferenced(t: Tables)
    requires CountsExact(t)
    ensures Sum(LiveBytes(t)) <= Sum(ReferencedBytes(t))
  {
    var live, referenced := LiveBytes(t), ReferencedBytes(t);
    forall h | h in live ensures live[h] <= referenced[h] {
      Outweighs(t.chunks[h].refCount, t.chunks[h].size);
    }
    forall h | h in referenced && h !in live ensures 0 <= referenced[h] {
    }
    SumMono(live, referenced);
  }

  /**
   After any run whose sizes are content lengths: bytes downloaded, file by file, equal
   references times size, chunk by chunk, so live chunks never outweigh what files link.
   */
  lemma LinkedBytesConserved(steps: seq<Step>, lenOf: Sha -> nat)
    requires forall s :: s in steps ==> SizesHonest(s, lenOf)
    ensures var t := Run(steps).t;
      && Sum(DownloadedByFile(t)) == Sum(ReferencedBytes(t))
      && Sum(LiveBytes(t)) <= Sum(DownloadedByFile(t))
  {
    var t := Run(steps).t;
    RunsKeepCounts(steps);
    RunSized(steps, lenOf);
    BytesByFile(t);
    BytesByChunk(t, lenOf);
    LiveBelowReferenced(t);
  }
}
