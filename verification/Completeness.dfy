/** A file is complete by byte count exactly when every one of its chunks is linked. */
module Completeness {
  import opened Schema
  import opened Sums
  import opened ChunkMath
  import Dedup

  /** Every link of file `f` has an index in range and exactly that chunk's length. */
  ghost predicate LinksFit(t: Tables, f: int, total: nat, c: nat)
    requires c > 0
  {
    forall k :: k in SlotsOf(t.links, f) ==>
      0 <= k.index < ChunkCount(total, c) && t.links[k].size == ChunkLen(k.index, total, c)
  }

  function FirstSlots(f: int, n: nat): set<Slot> {
    set i | 0 <= i < n :: Slot(f, i)
  }

  function Lengths(f: int, n: nat, total: nat, c: nat): map<Slot, int> {
    map k | k in FirstSlots(f, n) :: if k.index >= 0 then ChunkLen(k.index, total, c) else 0
  }

  lemma {:induction false} LengthsSum(f: int, n: nat, total: nat, c: nat)
    requires c > 0 && n <= ChunkCount(total, c)
    ensures Sum(Lengths(f, n, total, c)) == if n * c < total then n * c else total
  {
    if n == 0 {
      assert Lengths(f, 0, total, c) == map[];
    } else {
      var k := Slot(f, n - 1);
      LengthsSum(f, n - 1, total, c);
      assert FirstSlots(f, n) == FirstSlots(f, n - 1) + {k};
      assert k !in FirstSlots(f, n - 1);
      SumInsert(Lengths(f, n - 1, total, c), k, ChunkLen(n - 1, total, c));
      assert Lengths(f, n, total, c) == Lengths(f, n - 1, total, c)[k := ChunkLen(n - 1, total, c)];
      InRange(n - 1, total, c);
      Distribute(n - 1, c);
    }
  }

  lemma AllLengths(f: int, total: nat, c: nat)
    requires c > 0
    ensures Sum(Lengths(f, ChunkCount(total, c), total, c)) == total
  {
    LengthsSum(f, ChunkCount(total, c), total, c);
    InRange(ChunkCount(total, c), total, c);
  }

  lemma PositiveLengths(f: int, total: nat, c: nat, k: Slot)
    requires c > 0 && k in FirstSlots(f, ChunkCount(total, c))
    ensures Lengths(f, ChunkCount(total, c), total, c)[k] > 0
  {
    InRange(k.index, total, c);
  }

  lemma LinkedSizes(t: Tables, f: int, total: nat, c: nat)
    requires c > 0 && LinksFit(t, f, total, c)
    ensures var n := ChunkCount(total, c);
      && Dedup.FileSizes(t.links, f).Keys <= FirstSlots(f, n)
      && (forall k :: k in Dedup.FileSizes(t.links, f) ==> Dedup.FileSizes(t.links, f)[k] == Lengths(f, n, total, c)[k])
  {
    forall k | k in Dedup.FileSizes(t.links, f) ensures k in FirstSlots(f, ChunkCount(total, c)) {
      assert k in SlotsOf(t.links, f);
      assert k == Slot(f, k.index);
    }
    forall k | k in Dedup.FileSizes(t.links, f)
      ensures Dedup.FileSizes(t.links, f)[k] == Lengths(f, ChunkCount(total, c), total, c)[k]
    {
      assert k in SlotsOf(t.links, f);
    }
  }

  /** A missing chunk leaves the total short however unequal the last chunk is. */
  lemma CompleteIffAllLinked(t: Tables, f: int, total: nat, c: nat)
    requires c > 0 && LinksFit(t, f, total, c)
    ensures Dedup.Downloaded(t, f) >= total <==> forall i :: 0 <= i < ChunkCount(total, c) ==> Slot(f, i) in t.links
  {
    var n := ChunkCount(total, c);
    var have, want := Dedup.FileSizes(t.links, f), Lengths(f, n, total, c);
    LinkedSizes(t, f, total, c);
    AllLengths(f, total, c);
    if k :| k in FirstSlots(f, n) && k !in t.links {
      PositiveLengths(f, total, c, k);
      forall q | q in want - {k} ensures (want - {k})[q] >= 0 {
        PositiveLengths(f, total, c, q);
      }
      SumMono(have, want - {k});
      SumRemove(want, k);
      assert k == Slot(f, k.index);
    } else {
      forall i | 0 <= i < n ensures Slot(f, i) in t.links {
        assert Slot(f, i) in FirstSlots(f, n);
      }
      assert have == want;
    }
  }
}
