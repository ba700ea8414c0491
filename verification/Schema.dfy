/**
 The three tables of the metadata store as one value, and what each committed
 transaction does to them. Timestamps are integers the clock supplies; ids are
 never reused, as AUTOINCREMENT promises.
 */
module Schema {
  import opened Wrappers

  datatype Sha = Sha(hex: string)

  datatype File = File(name: string, source: string, repo: string, totalSize: nat, lastAccessed: int)

  datatype Chunk = Chunk(size: nat, compressedSize: Option<nat>, refCount: int, orphanedAt: Option<int>)

  /** Primary key of `file_chunks`. */
  datatype Slot = Slot(file: int, index: int)

  datatype Link = Link(sha: Sha, size: nat)

  datatype Tables = Tables(files: map<int, File>, lastId: int, chunks: map<Sha, Chunk>, links: map<Slot, Link>)

  datatype DbError = UniqueViolation | ForeignKeyViolation

  datatype ChunkStored = ChunkStored(sha: Sha, dataLen: nat, storedSize: nat, file: int, index: int)

  const EMPTY := Tables(map[], 0, map[], map[])

  /* ---- Queries ---- */

  function LinksTo(links: map<Slot, Link>, h: Sha): set<Slot> {
    set k | k in links && links[k].sha == h
  }

  function Refs(links: map<Slot, Link>, h: Sha): nat {
    |LinksTo(links, h)|
  }

  function SlotsOf(links: map<Slot, Link>, f: int): set<Slot> {
    set k | k in links && k.file == f
  }

  /** How many links to `h` vanish with file `f`. */
  function RefsLost(links: map<Slot, Link>, f: int, h: Sha): nat {
    |set k | k in links && k.file == f && links[k].sha == h|
  }

  predicate NameTaken(files: map<int, File>, name: string, source: string) {
    exists f :: f in files && files[f].name == name && files[f].source == source
  }

  function RepoFiles(files: map<int, File>, repo: string): set<int> {
    set f | f in files && files[f].repo == repo
  }

  function Orphans(chunks: map<Sha, Chunk>): set<Sha> {
    set h | h in chunks && chunks[h].refCount == 0 && chunks[h].orphanedAt.Some?
  }

  /** The bytes a chunk occupies on disk: `COALESCE(compressed_size, size)`. */
  function Footprint(c: Chunk): nat {
    if c.compressedSize.Some? then c.compressedSize.value else c.size
  }

  /** `order` lists `s`, each element once. */
  ghost predicate Enumerates<T(!new)>(order: seq<T>, s: set<T>) {
    && (forall i, j :: 0 <= i < j < |order| ==> order[i] != order[j])
    && (forall x :: x in order <==> x in s)
  }

  /* ---- Row updates ---- */

  function Linked(c: Chunk): Chunk {
    c.(refCount := c.refCount + 1, orphanedAt := None)
  }

  /** A chunk that lost `n` links in one UPDATE reading the old column values. */
  function Discount(c: Chunk, n: nat, now: int): Chunk {
    c.(refCount := c.refCount - n, orphanedAt := if c.refCount - n == 0 then Some(now) else c.orphanedAt)
  }

  function Displaced(c: Chunk, clamp: bool): Chunk {
    c.(refCount := if clamp && c.refCount - 1 < 0 then 0 else c.refCount - 1)
  }

  function Reconciled(c: Chunk, actual: nat, now: int): Chunk {
    c.(refCount := actual,
       orphanedAt := if actual > 0 then None else if c.orphanedAt.None? then Some(now) else c.orphanedAt)
  }

  /* ---- Transactions ---- */

  function AddFile(t: Tables, row: File): Tables {
    if NameTaken(t.files, row.name, row.source) then t
    else t.(files := t.files[t.lastId + 1 := row], lastId := t.lastId + 1)
  }

  function TouchRepo(t: Tables, repo: string, now: int): Tables {
    t.(files := map f | f in t.files ::
         if t.files[f].repo == repo then t.files[f].(lastAccessed := now) else t.files[f])
  }

  function EnsureChunk(t: Tables, h: Sha, size: nat, compressed: nat, now: int): Tables {
    if h in t.chunks then t else t.(chunks := t.chunks[h := Chunk(size, Some(compressed), 0, Some(now))])
  }

  /** INSERT OR IGNORE skips a taken slot before foreign keys are looked at. */
  function LinkFileChunk(t: Tables, k: Slot, h: Sha, size: nat): Result<Tables, DbError> {
    if k in t.links then Ok(t)
    else if k.file !in t.files || h !in t.chunks then Err(ForeignKeyViolation)
    else Ok(t.(links := t.links[k := Link(h, size)], chunks := t.chunks[h := Linked(t.chunks[h])]))
  }

  /**
   The transaction behind a stored-chunk event. `clamp` is whether the displaced
   row's count is floored at zero, as the SQL does.
   */
  function StoreAndLink(t: Tables, e: ChunkStored, now: int, clamp: bool): Result<Tables, DbError> {
    var k := Slot(e.file, e.index);
    var t1 := EnsureChunk(t, e.sha, e.dataLen, e.storedSize, now);
    if k in t.links && t.links[k].sha == e.sha then Ok(t1)
    else if e.file !in t.files then Err(ForeignKeyViolation)
    else
      var pushed := if k in t.links && t.links[k].sha in t1.chunks then {t.links[k].sha} else {};
      Ok(t1.(links := t.links[k := Link(e.sha, e.dataLen)],
             chunks := map h | h in t1.chunks ::
               if h == e.sha then Linked(t1.chunks[h])
               else if h in pushed then Displaced(t1.chunks[h], clamp)
               else t1.chunks[h]))
  }

  /** The chunk a stored event pushes out of its slot, when the transaction commits. */
  function PushedOut(t: Tables, e: ChunkStored): set<Sha> {
    var k := Slot(e.file, e.index);
    if e.file in t.files && k in t.links && t.links[k].sha != e.sha then {t.links[k].sha} else {}
  }

  function DeleteFileById(t: Tables, f: int, now: int): Tables {
    t.(files := t.files - {f},
       links := map k | k in t.links && k.file != f :: t.links[k],
       chunks := map h | h in t.chunks ::
         var n := RefsLost(t.links, f, h);
         if n == 0 then t.chunks[h] else Discount(t.chunks[h], n, now))
  }

  /** Files deleted one after another; `clock(f)` is the time file `f`'s statement ran. */
  function DeleteFiles(t: Tables, ids: seq<int>, clock: int -> int): Tables {
    if ids == [] then t
    else DeleteFileById(DeleteFiles(t, ids[..|ids| - 1], clock), ids[|ids| - 1], clock(ids[|ids| - 1]))
  }

  function Reconcile(t: Tables, clock: Sha -> int): Tables {
    t.(chunks := map h | h in t.chunks :: Reconciled(t.chunks[h], Refs(t.links, h), clock(h)))
  }

  function Deletable(chunks: map<Sha, Chunk>, candidates: seq<Sha>): set<Sha> {
    set h | h in chunks && chunks[h].refCount == 0 && h in candidates
  }

  predicate AnyLinked(links: map<Slot, Link>, gone: set<Sha>) {
    exists k :: k in links && links[k].sha in gone
  }

  /** Rows whose count is no longer zero survive; deleting a row still linked violates its foreign key. */
  function DeleteChunks(t: Tables, candidates: seq<Sha>): Result<Tables, DbError> {
    var gone := Deletable(t.chunks, candidates);
    if AnyLinked(t.links, gone) then Err(ForeignKeyViolation) else Ok(t.(chunks := t.chunks - gone))
  }

  /** The tables after a transaction: what it committed, or what was there before it failed. */
  function After(t: Tables, r: Result<Tables, DbError>): Tables {
    match r
    case Ok(committed) => committed
    case Err(_) => t
  }
}
