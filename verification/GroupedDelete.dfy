/**
 Deleting a file applies one summed delta per chunk in a single UPDATE. The
 reference is to remove its links one at a time, marking a chunk the moment its
 count reaches zero.
 */
module GroupedDelete {
  import opened Wrappers
  import opened Schema

  function UnlinkOne(t: Tables, k: Slot, now: int): Tables {
    if k !in t.links then t
    else
      var h := t.links[k].sha;
      t.(links := t.links - {k},
         chunks := if h in t.chunks then t.chunks[h := Discount(t.chunks[h], 1, now)] else t.chunks)
  }

  function UnlinkAll(t: Tables, ks: seq<Slot>, now: int): Tables {
    if ks == [] then t else UnlinkOne(UnlinkAll(t, ks[..|ks| - 1], now), ks[|ks| - 1], now)
  }

  function DropFileRow(t: Tables, f: int): Tables {
    t.(files := t.files - {f})
  }

  /**
   What can make the two ways differ: a count that is positive but smaller than
   the number of links lost, which no single UPDATE sees pass through zero.
   */
  ghost predicate CountsCoverLosses(t: Tables, f: int, now: int) {
    forall h :: h in t.chunks && 1 <= t.chunks[h].refCount < RefsLost(t.links, f, h)
                ==> t.chunks[h].orphanedAt == Some(now)
  }

  function Hits(links: map<Slot, Link>, ks: seq<Slot>, h: Sha): nat {
    |set k | k in links && k in ks && links[k].sha == h|
  }

  /** A chunk after `n` single unlinkings. */
  function Drained(c: Chunk, n: nat, now: int): Chunk {
    c.(refCount := c.refCount - n, orphanedAt := if 1 <= c.refCount <= n then Some(now) else c.orphanedAt)
  }

  lemma HitsSnoc(links: map<Slot, Link>, ks: seq<Slot>, k: Slot, h: Sha)
    requires k in links && k !in ks
    ensures Hits(links, ks + [k], h) == Hits(links, ks, h) + if links[k].sha == h then 1 else 0
  {
    var before := set q | q in links && q in ks && links[q].sha == h;
    var after := set q | q in links && q in ks + [k] && links[q].sha == h;
    assert after == if links[k].sha == h then before + {k} else before;
  }

  /** `r` is `t` with the links `ks` gone and every chunk drained by its hits. */
  ghost predicate DrainedBy(t: Tables, ks: seq<Slot>, now: int, r: Tables) {
    && r.files == t.files && r.lastId == t.lastId
    && r.links == t.links - (set k | k in ks)
    && r.chunks.Keys == t.chunks.Keys
    && forall h :: h in t.chunks ==> r.chunks[h] == Drained(t.chunks[h], Hits(t.links, ks, h), now)
  }

  lemma UnlinkStep(t: Tables, ks: seq<Slot>, k: Slot, now: int, r: Tables)
    requires k in t.links && k !in ks
    requires DrainedBy(t, ks, now, r)
    ensures DrainedBy(t, ks + [k], now, UnlinkOne(r, k, now))
  {
    var r' := UnlinkOne(r, k, now);
    assert r.links[k] == t.links[k];
    assert r'.links == t.links - (set q | q in ks + [k]);
    forall h | h in t.chunks
      ensures r'.chunks[h] == Drained(t.chunks[h], Hits(t.links, ks + [k], h), now)
    {
      HitsSnoc(t.links, ks, k, h);
    }
  }

  lemma {:induction false} UnlinkAllDrains(t: Tables, ks: seq<Slot>, now: int)
    requires forall i, j :: 0 <= i < j < |ks| ==> ks[i] != ks[j]
    requires forall k :: k in ks ==> k in t.links
    ensures DrainedBy(t, ks, now, UnlinkAll(t, ks, now))
  {
    if ks == [] {
      forall h | h in t.chunks ensures Hits(t.links, ks, h) == 0 {
        assert (set k | k in t.links && k in ks && t.links[k].sha == h) == {};
      }
      assert t.links == t.links - (set k | k in ks);
    } else {
      var rest, k := ks[..|ks| - 1], ks[|ks| - 1];
      assert rest + [k] == ks;
      UnlinkAllDrains(t, rest, now);
      UnlinkStep(t, rest, k, now, UnlinkAll(t, rest, now));
    }
  }

  lemma HitsAreLosses(t: Tables, f: int, ks: seq<Slot>, h: Sha)
    requires Enumerates(ks, SlotsOf(t.links, f))
    ensures Hits(t.links, ks, h) == RefsLost(t.links, f, h)
  {
    assert (set k | k in t.links && k in ks && t.links[k].sha == h)
        == (set k | k in t.links && k.file == f && t.links[k].sha == h);
  }

  /** Chunk by chunk: the single UPDATE and the drained chunk differ only by a mark missed on the way through zero. */
  lemma SameChunk(c: Chunk, n: nat, now: int)
    ensures (if n == 0 then c else Discount(c, n, now)) == Drained(c, n, now)
       <==> (1 <= c.refCount < n ==> c.orphanedAt == Some(now))
  {
  }

  lemma GroupedChunk(t: Tables, f: int, ks: seq<Slot>, now: int, r: Tables, h: Sha)
    requires Enumerates(ks, SlotsOf(t.links, f)) && DrainedBy(t, ks, now, r) && h in t.chunks
    ensures DeleteFileById(t, f, now).chunks[h] == r.chunks[h]
       <==> (1 <= t.chunks[h].refCount < RefsLost(t.links, f, h) ==> t.chunks[h].orphanedAt == Some(now))
  {
    HitsAreLosses(t, f, ks, h);
    SameChunk(t.chunks[h], RefsLost(t.links, f, h), now);
  }

  lemma GroupedLinks(t: Tables, f: int, ks: seq<Slot>, now: int, r: Tables)
    requires Enumerates(ks, SlotsOf(t.links, f)) && DrainedBy(t, ks, now, r)
    ensures DeleteFileById(t, f, now).links == r.links
  {
    forall k | k in t.links ensures k.file == f <==> k in ks {
      assert k in ks <==> k in SlotsOf(t.links, f);
    }
  }

  /** On any tables, the grouped delete agrees with one-by-one unlinking exactly when counts cover losses. */
  lemma GroupedDeleteIsUnlinking(t: Tables, f: int, ks: seq<Slot>, now: int)
    requires Enumerates(ks, SlotsOf(t.links, f))
    ensures DeleteFileById(t, f, now) == DropFileRow(UnlinkAll(t, ks, now), f)
       <==> CountsCoverLosses(t, f, now)
  {
    var r := UnlinkAll(t, ks, now);
    assert DrainedBy(t, ks, now, r) by { UnlinkAllDrains(t, ks, now); }
    GroupedLinks(t, f, ks, now, r);
    forall h | h in t.chunks {
      GroupedChunk(t, f, ks, now, r, h);
    }
    SameChunks(DeleteFileById(t, f, now).chunks, r.chunks);
  }

  lemma SameChunks(a: map<Sha, Chunk>, b: map<Sha, Chunk>)
    requires a.Keys == b.Keys
    ensures a == b <==> forall h :: h in a ==> a[h] == b[h]
  {
  }
}
