/** `ORDER BY age ASC LIMIT n` with ties in any order. */
module Oldest {
  import opened Seqs

  /** `order` is the `limit` oldest keys of `ages`, oldest first. */
  ghost predicate OldestFirst<K(!new)>(ages: map<K, int>, order: seq<K>, limit: nat) {
    && Distinct(order)
    && (forall k :: k in order ==> k in ages)
    && |order| == (if limit < |ages| then limit else |ages|)
    && (forall i, j :: 0 <= i < j < |order| ==> ages[order[i]] <= ages[order[j]])
    && (forall i, k :: 0 <= i < |order| && k in ages && k !in order ==> ages[order[i]] <= ages[k])
  }

  /** No key that is left when `order[i]` is taken is older than it. */
  lemma OldestOfRest<K(!new)>(ages: map<K, int>, order: seq<K>, limit: nat, i: nat, k: K)
    requires OldestFirst(ages, order, limit) && i < |order| && k in ages && k !in order[..i]
    ensures order[i] in ages && ages[order[i]] <= ages[k]
  {
    if k in order {
      var j :| 0 <= j < |order| && order[j] == k;
      assert forall q :: 0 <= q < i ==> order[q] == order[..i][q];
    }
  }

  lemma {:induction false} DistinctSize<K(!new)>(order: seq<K>, s: set<K>)
    requires Distinct(order)
    requires forall k :: k in order ==> k in s
    ensures |order| <= |s|
    ensures |order| == |s| ==> forall k :: k in s ==> k in order
  {
    if order != [] {
      var last := order[|order| - 1];
      forall k | k in order[..|order| - 1] ensures k in s - {last} {
      }
      DistinctSize(order[..|order| - 1], s - {last});
      forall k | |order| == |s| && k in s ensures k in order {
        if k != last {
          assert k in s - {last};
        }
      }
    } else if |s| == 0 {
      assert s == {};
    }
  }

  lemma SameSet<K(!new)>(order: seq<K>, s: set<K>)
    requires Distinct(order)
    requires forall k :: k in order <==> k in s
    ensures |order| == |s|
  {
    DistinctSize(order, s);
    if |order| < |s| {
      SetOfSeqSize(order, s);
    }
  }

  lemma {:induction false} SetOfSeqSize<K(!new)>(order: seq<K>, s: set<K>)
    requires forall k :: k in s ==> k in order
    ensures |s| <= |order|
  {
    if order == [] {
      assert s == {};
    } else {
      var last := order[|order| - 1];
      SetOfSeqSize(order[..|order| - 1], s - {last});
      assert |s| <= |s - {last}| + 1;
    }
  }

  method PickOldest<K(==, !new)>(ages: map<K, int>) returns (oldest: K)
    requires ages != map[]
    ensures oldest in ages
    ensures forall k :: k in ages ==> ages[oldest] <= ages[k]
  {
    var rest := ages.Keys;
    oldest :| oldest in rest;
    while rest != {}
      invariant rest <= ages.Keys && oldest in ages
      invariant forall k :: k in ages && k !in rest ==> ages[oldest] <= ages[k]
      decreases rest
    {
      var k :| k in rest;
      if ages[k] < ages[oldest] {
        oldest := k;
      }
      rest := rest - {k};
    }
  }

  /** Mid-way through taking: `order` so far, `rest` still to take, nothing in `rest` older than anything taken. */
  ghost predicate Split<K(!new)>(ages: map<K, int>, order: seq<K>, rest: map<K, int>) {
    && Distinct(order)
    && (forall k :: k in ages <==> k in order || k in rest)
    && (forall k :: k in rest ==> k !in order && rest[k] == ages[k])
    && |order| + |rest| == |ages|
    && (forall i, j :: 0 <= i < j < |order| ==> ages[order[i]] <= ages[order[j]])
    && (forall i, k :: 0 <= i < |order| && k in rest ==> ages[order[i]] <= ages[k])
  }

  lemma SplitStep<K(!new)>(ages: map<K, int>, order: seq<K>, rest: map<K, int>, k: K)
    requires Split(ages, order, rest)
    requires k in rest && forall q :: q in rest ==> rest[k] <= rest[q]
    ensures Split(ages, order + [k], rest - {k})
  {
    var order', rest' := order + [k], rest - {k};
    assert rest.Keys == rest'.Keys + {k};
    assert |rest'.Keys| == |rest'| && |rest.Keys| == |rest|;
    forall q ensures q in order' <==> q in order || q == k {
    }
    forall i, j | 0 <= i < j < |order'| ensures ages[order'[i]] <= ages[order'[j]] && order'[i] != order'[j] {
      assert order'[i] == order[i];
    }
  }

  method TakeOldest<K(==, !new)>(ages: map<K, int>, limit: nat) returns (order: seq<K>)
    ensures OldestFirst(ages, order, limit)
  {
    order := [];
    var rest := ages;
    while |order| < limit && rest != map[]
      invariant Split(ages, order, rest) && |order| <= limit
      decreases rest.Keys
    {
      var k := PickOldest(rest);
      SplitStep(ages, order, rest, k);
      order, rest := order + [k], rest - {k};
    }
    if rest != map[] {
      assert |rest| > 0 by { assert |rest.Keys| == |rest|; }
    }
  }
}
