/** The local blob store: one plain and one compressed path per hash. */
module LocalStorage {
  import opened Wrappers
  import opened Bytes
  import opened Schema

  datatype Compression = Zstd | Plain

  const COMPRESS_THRESHOLD := 4096

  datatype Disk = Disk(plain: map<Sha, Bytes>, zst: map<Sha, Bytes>)

  /** The codec pair and the hash the store is used with. */
  datatype Codec = Codec(encode: Bytes -> Bytes, decode: Bytes -> Option<Bytes>, hash: Bytes -> Sha)

  ghost predicate Lossless(codec: Codec) {
    forall d :: codec.decode(codec.encode(d)) == Some(d)
  }

  ghost predicate CollisionFree(hash: Bytes -> Sha) {
    forall d, e :: hash(d) == hash(e) ==> d == e
  }

  /** Every file on disk holds content matching its name. */
  ghost predicate Faithful(codec: Codec, disk: Disk) {
    && (forall h :: h in disk.plain ==> codec.hash(disk.plain[h]) == h)
    && (forall h :: h in disk.zst ==> codec.decode(disk.zst[h]).Some? && codec.hash(codec.decode(disk.zst[h]).value) == h)
  }

  function Written(codec: Codec, mode: Compression, disk: Disk, h: Sha, data: Bytes): Disk {
    if mode == Zstd && |data| > COMPRESS_THRESHOLD then disk.(zst := disk.zst[h := codec.encode(data)])
    else disk.(plain := disk.plain[h := data])
  }

  function Removed(mode: Compression, disk: Disk, h: Sha): Disk {
    Disk(disk.plain - {h}, if mode == Zstd then disk.zst - {h} else disk.zst)
  }

  function Lookup(codec: Codec, mode: Compression, disk: Disk, h: Sha): Option<Bytes> {
    if mode == Zstd && h in disk.zst then codec.decode(disk.zst[h])
    else if h in disk.plain then Some(disk.plain[h])
    else None
  }

  predicate Present(mode: Compression, disk: Disk, h: Sha) {
    h in disk.plain || (mode == Zstd && h in disk.zst)
  }

  class LocalBackend {
    const codec: Codec
    var mode: Compression
    var disk: Disk

    constructor (codec: Codec, mode: Compression, disk: Disk)
      ensures this.codec == codec && this.mode == mode && this.disk == disk
    {
      this.codec, this.mode, this.disk := codec, mode, disk;
    }

    method Put(h: Sha, data: Bytes) returns (stored: nat)
      modifies this`disk
      ensures disk == Written(codec, mode, old(disk), h, data)
      ensures if mode == Zstd && |data| > 4096
              then h in disk.zst && stored == |disk.zst[h]| && codec.encode(data) == disk.zst[h] && disk.plain == old(disk).plain
              else h in disk.plain && stored == |disk.plain[h]| && data == disk.plain[h] && disk.zst == old(disk).zst
      ensures forall g :: g != h ==> Lookup(codec, mode, disk, g) == Lookup(codec, mode, old(disk), g)
    {
      if mode == Zstd && |data| > COMPRESS_THRESHOLD {
        var compressed := codec.encode(data);
        disk := disk.(zst := disk.zst[h := compressed]);
        stored := |compressed|;
      } else {
        disk := disk.(plain := disk.plain[h := data]);
        stored := |data|;
      }
    }

    method Get(h: Sha) returns (data: Option<Bytes>)
      ensures data == Lookup(codec, mode, disk, h)
    {
      if mode != Plain {
        if h in disk.zst {
          return codec.decode(disk.zst[h]);
        }
      }
      if h in disk.plain {
        return Some(disk.plain[h]);
      }
      return None;
    }

    method Exists(h: Sha) returns (found: bool)
      ensures found <==> Present(mode, disk, h)
    {
      if h in disk.plain {
        return true;
      }
      if mode != Plain {
        if h in disk.zst {
          return true;
        }
      }
      return false;
    }

    method Delete(h: Sha)
      modifies this`disk
      ensures disk == Removed(mode, old(disk), h)
    {
      if h in disk.plain {
        disk := disk.(plain := disk.plain - {h});
      }
      if mode != Plain {
        if h in disk.zst {
          disk := disk.(zst := disk.zst - {h});
        }
      }
    }
  }

  /* ---- Runs in either compression mode over one disk ---- */

  datatype DiskStep = PutBlob(data: Bytes) | DeleteBlob(sha: Sha) | Reopen(mode: Compression)

  datatype Store = Store(mode: Compression, disk: Disk)

  function Next(codec: Codec, s: Store, step: DiskStep): Store {
    match step
    case PutBlob(data) => s.(disk := Written(codec, s.mode, s.disk, codec.hash(data), data))
    case DeleteBlob(h) => s.(disk := Removed(s.mode, s.disk, h))
    case Reopen(mode) => s.(mode := mode)
  }

  function RunDisk(codec: Codec, mode: Compression, steps: seq<DiskStep>): Store {
    if steps == [] then Store(mode, Disk(map[], map[]))
    else Next(codec, RunDisk(codec, mode, steps[..|steps| - 1]), steps[|steps| - 1])
  }

  lemma {:induction false} RunsStayFaithful(codec: Codec, mode: Compression, steps: seq<DiskStep>)
    requires Lossless(codec)
    ensures Faithful(codec, RunDisk(codec, mode, steps).disk)
  {
    if steps != [] {
      RunsStayFaithful(codec, mode, steps[..|steps| - 1]);
    }
  }

  /**
   Whatever modes earlier runs used: `exists` answers yes exactly when `get` succeeds, `get` returns only
   the content its key names, a stored blob reads back in the mode that stored it, and delete hides it.
   */
  lemma StoreRoundTrip(codec: Codec, mode: Compression, steps: seq<DiskStep>, h: Sha, data: Bytes)
    requires Lossless(codec) && CollisionFree(codec.hash)
    ensures var s := RunDisk(codec, mode, steps);
      var put := Next(codec, s, PutBlob(data));
      var gone := Next(codec, s, DeleteBlob(h));
      && (Present(s.mode, s.disk, h) <==> Lookup(codec, s.mode, s.disk, h).Some?)
      && (forall d :: Lookup(codec, s.mode, s.disk, codec.hash(d)).Some? ==> Lookup(codec, s.mode, s.disk, codec.hash(d)) == Some(d))
      && Lookup(codec, put.mode, put.disk, codec.hash(data)) == Some(data)
      && !Present(gone.mode, gone.disk, h) && Lookup(codec, gone.mode, gone.disk, h) == None
  {
    RunsStayFaithful(codec, mode, steps);
    RunsStayFaithful(codec, mode, steps + [PutBlob(data)]);
    assert (steps + [PutBlob(data)])[..|steps|] == steps;
  }

  /** A deleted blob is seen again after reopening exactly when its compressed copy was out of the deleting mode's sight. */
  lemma ReappearsExactlyWhenCompressedCopySurvives(codec: Codec, mode: Compression, later: Compression, disk: Disk, h: Sha)
    ensures Present(later, Removed(mode, disk, h), h) <==> mode == Plain && later == Zstd && h in disk.zst
  {
  }

  /* ---- Which blobs a run leaves on each path ---- */

  /** The mode in force before step `p`: that of the last reopening, or the first mode. */
  ghost predicate OpenAs(mode: Compression, steps: seq<DiskStep>, p: nat, m: Compression)
    requires p <= |steps|
  {
    (exists q: nat :: q < p && steps[q] == Reopen(m) && NotReopened(steps, q + 1, p)) || (m == mode && NotReopened(steps, 0, p))
  }

  ghost predicate NotReopened(steps: seq<DiskStep>, a: nat, b: nat)
    requires b <= |steps|
  {
    forall q :: a <= q < b ==> !steps[q].Reopen?
  }

  lemma {:induction false} ModeOfRun(codec: Codec, mode: Compression, steps: seq<DiskStep>)
    ensures OpenAs(mode, steps, |steps|, RunDisk(codec, mode, steps).mode)
  {
    if steps != [] {
      var n := |steps| - 1;
      var m := RunDisk(codec, mode, steps[..n]).mode;
      ModeOfRun(codec, mode, steps[..n]);
      if steps[n].Reopen? {
        assert steps[n] == Reopen(steps[n].mode) && NotReopened(steps, n + 1, |steps|);
      } else if q: nat :| q < n && steps[..n][q] == Reopen(m) && NotReopened(steps[..n], q + 1, n) {
        assert steps[q] == Reopen(m) && NotReopened(steps, q + 1, |steps|);
      }
    }
  }

  /** Step `s`, taken in mode `m`, writes the file of `h` on the path `zst` stands for. */
  ghost predicate Writes(codec: Codec, s: DiskStep, m: Compression, h: Sha, zst: bool) {
    s.PutBlob? && codec.hash(s.data) == h && (zst <==> m == Zstd && |s.data| > 4096)
  }

  /** Step `s`, taken in mode `m`, removes it. */
  ghost predicate Clears(s: DiskStep, m: Compression, h: Sha, zst: bool) {
    s == DeleteBlob(h) && (zst ==> m == Zstd)
  }

  ghost predicate WrittenAt(codec: Codec, mode: Compression, steps: seq<DiskStep>, h: Sha, zst: bool, p: nat) {
    && p < |steps| && Writes(codec, steps[p], RunDisk(codec, mode, steps[..p]).mode, h, zst)
    && forall q: nat :: p < q < |steps| ==> !Clears(steps[q], RunDisk(codec, mode, steps[..q]).mode, h, zst)
  }

  ghost predicate OnDisk(disk: Disk, h: Sha, zst: bool) {
    if zst then h in disk.zst else h in disk.plain
  }

  lemma StepOnDisk(codec: Codec, s: Store, step: DiskStep, h: Sha, zst: bool)
    ensures OnDisk(Next(codec, s, step).disk, h, zst) <==>
            Writes(codec, step, s.mode, h, zst) || (OnDisk(s.disk, h, zst) && !Clears(step, s.mode, h, zst))
  {
  }

  lemma WrittenMore(codec: Codec, mode: Compression, before: seq<DiskStep>, s: DiskStep, h: Sha, zst: bool)
    ensures var m := RunDisk(codec, mode, before).mode;
      (exists p: nat :: WrittenAt(codec, mode, before + [s], h, zst, p)) <==>
      Writes(codec, s, m, h, zst) || ((exists p: nat :: WrittenAt(codec, mode, before, h, zst, p)) && !Clears(s, m, h, zst))
  {
    var steps, m := before + [s], RunDisk(codec, mode, before).mode;
    assert steps[..|before|] == before;
    assert forall p: nat :: p < |before| ==> steps[..p] == before[..p];
    forall p: nat | p < |before|
      ensures WrittenAt(codec, mode, steps, h, zst, p) <==> WrittenAt(codec, mode, before, h, zst, p) && !Clears(s, m, h, zst)
    {
    }
    assert WrittenAt(codec, mode, steps, h, zst, |before|) <==> Writes(codec, s, m, h, zst);
  }

  /**
   After any run, in whatever modes: a file is on the plain or on the compressed path exactly when some step put it there
   and no later delete in a mode that sees that path took it away.
   */
  lemma {:induction false} RunsLeaveBlobs(codec: Codec, mode: Compression, steps: seq<DiskStep>, h: Sha, zst: bool)
    ensures OnDisk(RunDisk(codec, mode, steps).disk, h, zst) <==> exists p: nat :: WrittenAt(codec, mode, steps, h, zst, p)
  {
    if steps != [] {
      var before, s := steps[..|steps| - 1], steps[|steps| - 1];
      assert steps == before + [s];
      RunsLeaveBlobs(codec, mode, before, h, zst);
      StepOnDisk(codec, RunDisk(codec, mode, before), s, h, zst);
      WrittenMore(codec, mode, before, s, h, zst);
    }
  }
}
