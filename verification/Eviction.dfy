/** Least-recently-accessed order over repositories, and what evicting them leaves. */
module Eviction {
  import opened Schema
  import opened Metadata
  import opened Oldest
  import opened Sums

  function Survivors(files: map<int, File>, evicted: seq<string>): map<int, File> {
    map f | f in files && files[f].repo !in evicted :: files[f]
  }

  /** `a` is how long ago `repo` was touched, and nothing in `files` was touched before. */
  ghost predicate LeastRecent(files: map<int, File>, repo: string, a: int) {
    EarliestAccess(files, repo, a) && forall f :: f in files ==> a <= files[f].lastAccessed
  }

  /** When `repo` is evicted from `left` it is the least recently accessed, and the limit is exceeded. */
  ghost predicate DueFrom(left: map<int, File>, repo: string, limit: nat) {
    (exists a :: LeastRecent(left, repo, a)) && Sum(FileSizesOf(left)) > limit
  }

  ghost predicate MinimalLru(files: map<int, File>, evicted: seq<string>, limit: nat) {
    forall i :: 0 <= i < |evicted| ==> DueFrom(Survivors(files, evicted[..i]), evicted[i], limit)
  }

  lemma OldestRepoIsLeastRecent(files: map<int, File>, ages: map<string, int>, repos: seq<string>, limit: nat)
    requires AccessAges(files, ages) && OldestFirst(ages, repos, limit) && repos != []
    ensures LeastRecent(files, repos[0], ages[repos[0]])
  {
    forall f | f in files ensures ages[repos[0]] <= files[f].lastAccessed {
      var r := files[f].repo;
      assert r in Repos(files);
      if r in repos {
        var j :| 0 <= j < |repos| && repos[j] == r;
      }
    }
  }

  lemma EvictOne(files: map<int, File>, evicted: seq<string>, repo: string, limit: nat, a: int)
    requires MinimalLru(files, evicted, limit)
    requires LeastRecent(Survivors(files, evicted), repo, a)
    requires Sum(FileSizesOf(Survivors(files, evicted))) > limit
    ensures MinimalLru(files, evicted + [repo], limit)
    ensures Survivors(files, evicted + [repo])
         == Survivors(files, evicted) - RepoFiles(Survivors(files, evicted), repo)
  {
    var more := evicted + [repo];
    forall i | 0 <= i < |more| ensures DueFrom(Survivors(files, more[..i]), more[i], limit) {
      if i == |evicted| {
        assert more[..i] == evicted;
        assert DueFrom(Survivors(files, evicted), repo, limit);
      } else {
        assert more[..i] == evicted[..i];
      }
    }
  }

  /**
   What minimal eviction means for the whole list: evicted repositories are a prefix of the
   oldest-access order, since none was touched after one evicted later or one that stays.
   */
  lemma EvictedArePrefix(files: map<int, File>, evicted: seq<string>, limit: nat, i: nat, f: int)
    requires MinimalLru(files, evicted, limit)
    requires i < |evicted| && f in files && files[f].repo !in evicted[..i]
    ensures exists g :: g in files && files[g].repo == evicted[i] && files[g].lastAccessed <= files[f].lastAccessed
  {
    var left := Survivors(files, evicted[..i]);
    assert DueFrom(left, evicted[i], limit);
    var a :| LeastRecent(left, evicted[i], a);
    var g :| g in left && left[g].repo == evicted[i] && left[g].lastAccessed == a;
    assert f in left;
  }

  lemma EvictRepo(files: map<int, File>, evicted: seq<string>, limit: nat, left: map<int, File>,
                  ages: map<string, int>, repos: seq<string>, n: nat)
    requires left == Survivors(files, evicted) && MinimalLru(files, evicted, limit)
    requires AccessAges(left, ages) && OldestFirst(ages, repos, n) && repos != []
    requires Sum(FileSizesOf(left)) > limit
    ensures MinimalLru(files, evicted + [repos[0]], limit)
    ensures Survivors(files, evicted + [repos[0]]) == left - RepoFiles(left, repos[0])
    ensures RepoFiles(left, repos[0]) != {}
  {
    OldestRepoIsLeastRecent(left, ages, repos, n);
    EvictOne(files, evicted, repos[0], limit, ages[repos[0]]);
    var f :| f in left && left[f].repo == repos[0];
    assert f in RepoFiles(left, repos[0]);
  }

  /** A touch makes `now` the earliest access of the repository and leaves every other one's alone. */
  lemma TouchedAccess(t: Tables, repo: string, now: int)
    requires repo in Repos(t.files)
    ensures EarliestAccess(TouchRepo(t, repo, now).files, repo, now)
    ensures forall r, a :: r != repo ==> (EarliestAccess(TouchRepo(t, repo, now).files, r, a) <==> EarliestAccess(t.files, r, a))
  {
    var files := TouchRepo(t, repo, now).files;
    var f :| f in t.files && t.files[f].repo == repo;
    assert files[f].lastAccessed == now;
    forall r, a | r != repo ensures EarliestAccess(files, r, a) <==> EarliestAccess(t.files, r, a) {
      OthersUntouched(t, repo, now, r, a);
    }
  }

  lemma OthersUntouched(t: Tables, repo: string, now: int, r: string, a: int)
    requires r != repo
    ensures EarliestAccess(TouchRepo(t, repo, now).files, r, a) <==> EarliestAccess(t.files, r, a)
  {
    var files := TouchRepo(t, repo, now).files;
    assert forall f :: f in t.files && t.files[f].repo == r ==> files[f] == t.files[f];
    if EarliestAccess(t.files, r, a) {
      var f :| f in t.files && t.files[f].repo == r && t.files[f].lastAccessed == a;
      assert files[f].repo == r && files[f].lastAccessed == a;
    }
  }

  /** So a repository touched after every other file's access is evicted only once all others are gone. */
  lemma TouchedIsEvictedLast(t: Tables, repo: string, now: int, evicted: seq<string>, limit: nat, i: nat)
    requires forall f :: f in t.files && t.files[f].repo != repo ==> t.files[f].lastAccessed < now
    requires MinimalLru(TouchRepo(t, repo, now).files, evicted, limit) && i < |evicted| && evicted[i] == repo
    ensures forall f :: f in t.files && t.files[f].repo != repo ==> t.files[f].repo in evicted[..i]
  {
    var files := TouchRepo(t, repo, now).files;
    assert forall g :: g in files && files[g].repo == repo ==> files[g].lastAccessed == now;
    forall f | f in t.files && t.files[f].repo != repo ensures t.files[f].repo in evicted[..i] {
      if t.files[f].repo !in evicted[..i] {
        EvictedArePrefix(files, evicted, limit, i, f);
      }
    }
  }

  lemma FileHasRepo(files: map<int, File>, f: int)
    requires f in files
    ensures files[f].repo in Repos(files)
  {
  }

  lemma NoCandidates(left: map<int, File>, ages: map<string, int>, repos: seq<string>, n: nat)
    requires AccessAges(left, ages) && OldestFirst(ages, repos, n) && n > 0 && repos == []
    ensures left == map[] && Sum(FileSizesOf(left)) == 0
  {
    assert |ages| == 0;
    assert ages == map[];
    if left != map[] {
      FileHasRepo(left, Pick(left));
    }
    assert FileSizesOf(left) == map[];
  }

  /* ---- The size that is compared with the limit ---- */

  /** Adding a file adds its size to what counts against the limit; deleting it takes exactly that away; no files, no bytes. */
  lemma BytesFollowFiles(t: Tables, row: File, f: int, now: int)
    requires t.lastId + 1 !in t.files
    ensures !NameTaken(t.files, row.name, row.source) ==>
      Sum(FileSizesOf(AddFile(t, row).files)) == Sum(FileSizesOf(t.files)) + row.totalSize
    ensures Sum(FileSizesOf(DeleteFileById(t, f, now).files))
         == Sum(FileSizesOf(t.files)) - if f in t.files then t.files[f].totalSize else 0
    ensures Sum(FileSizesOf(map[])) == 0
  {
    var sizes := FileSizesOf(t.files);
    SumInsert(sizes, t.lastId + 1, row.totalSize);
    assert FileSizesOf(t.files[t.lastId + 1 := row]) == sizes[t.lastId + 1 := row.totalSize];
    assert FileSizesOf(t.files - {f}) == sizes - {f};
    if f in t.files {
      SumRemove(sizes, f);
    } else {
      assert sizes - {f} == sizes;
    }
    assert FileSizesOf(map[]) == map[];
  }
}
