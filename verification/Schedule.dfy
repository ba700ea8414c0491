/**
 How a file session chooses the next chunk: over all live subscribers, the least urgent distance
 from where each started, relative to how much it asked for.
 */
module Schedule {
  import opened Wrappers
  import opened ChunkMath

  /** A live subscriber: its channel and the byte range it asked for. */
  datatype Sub = Sub(id: nat, start: nat, end: nat)

  /** How a distance and a range length become an urgency; the source divides two floats. */
  type Urgency = (nat, nat) -> real

  /** What the schedule needs of division, rounded or not: monotone in both arguments, and zero exactly at distance zero. */
  ghost predicate Admissible(u: Urgency) {
    && (forall d, e, len :: d <= e ==> u(d, len) <= u(e, len))
    && (forall d, len, more :: len <= more ==> u(d, more) <= u(d, len))
    && (forall d, len :: u(d, len) >= 0.0)
    && (forall d, len :: u(d, len) == 0.0 <==> d == 0)
  }

  function Exact(d: nat, len: nat): real {
    d as real / (if len == 0 then 1 else len) as real
  }

  lemma ExactIsAdmissible()
    ensures Admissible(Exact)
  {
    forall d: nat, e: nat, len: nat | d <= e ensures Exact(d, len) <= Exact(e, len) {
      var l := (if len == 0 then 1 else len) as real;
      assert d as real / l <= e as real / l;
    }
    forall d: nat, len: nat, more: nat | len <= more ensures Exact(d, more) <= Exact(d, len) {
      LongerIsLess(d as real, (if len == 0 then 1 else len) as real, (if more == 0 then 1 else more) as real);
    }
  }

  lemma LongerIsLess(d: real, len: real, more: real)
    requires 0.0 <= d && 0.0 < len <= more
    ensures d / more <= d / len
  {
    CrossMultiplied(d, more, d, len);
    assert d * len <= d * more;
  }

  lemma CrossMultiplied(a: real, x: real, b: real, y: real)
    requires 0.0 < x && 0.0 < y
    ensures a / x <= b / y <==> a * y <= b * x
    ensures a / x < b / y <==> a * y < b * x
  {
    var p, q := a / x, b / y;
    assert p * x == a && q * y == b;
    assert a * y == p * (x * y) && b * x == q * (x * y);
    assert x * y > 0.0;
  }

  function First(s: Sub, c: nat): nat
    requires c > 0
  {
    s.start / c
  }

  function Last(s: Sub, c: nat, count: nat): nat
    requires c > 0
  {
    var top := if count == 0 then 0 else count - 1;
    if s.end / c < top then s.end / c else top
  }

  function Distance(start: nat, idx: nat, c: nat): nat {
    if idx * c >= start then idx * c - start else 0
  }

  function RangeLen(s: Sub): nat {
    if s.end - s.start < 1 then 1 else s.end - s.start
  }

  function UrgencyOf(u: Urgency, s: Sub, idx: nat, c: nat): real {
    u(Distance(s.start, idx, c), RangeLen(s))
  }

  predicate Wants(s: Sub, idx: nat, c: nat, count: nat)
    requires c > 0
  {
    First(s, c) <= idx <= Last(s, c, count)
  }

  ghost predicate Candidate(subs: seq<Sub>, completed: set<nat>, c: nat, count: nat, i: nat, idx: nat)
    requires c > 0
  {
    i < |subs| && Wants(subs[i], idx, c, count) && idx !in completed
  }

  predicate Before(i: nat, idx: nat, j: nat, k: nat) {
    i < j || (i == j && idx < k)
  }

  /** Chunk `idx` of subscriber `i` beats chunk `k` of subscriber `j`: less urgent distance, or a tie scanned earlier. */
  ghost predicate Beats(subs: seq<Sub>, c: nat, u: Urgency, i: nat, idx: nat, j: nat, k: nat)
    requires i < |subs| && j < |subs|
  {
    && UrgencyOf(u, subs[i], idx, c) <= UrgencyOf(u, subs[j], k, c)
    && (Before(j, k, i, idx) ==> UrgencyOf(u, subs[i], idx, c) < UrgencyOf(u, subs[j], k, c))
  }

  /** The least urgency, the earliest subscriber and chunk winning ties. */
  ghost predicate Selected(subs: seq<Sub>, completed: set<nat>, c: nat, count: nat, u: Urgency, i: nat, idx: nat)
    requires c > 0
  {
    && Candidate(subs, completed, c, count, i, idx)
    && forall j: nat, k: nat :: Candidate(subs, completed, c, count, j, k) ==> Beats(subs, c, u, i, idx, j, k)
  }

  /** `Selected`, among the candidates scanned before subscriber `ti`, chunk `tk`. */
  ghost predicate SelectedSoFar(subs: seq<Sub>, completed: set<nat>, c: nat, count: nat, u: Urgency,
                                i: nat, idx: nat, ti: nat, tk: nat)
    requires c > 0
  {
    && Candidate(subs, completed, c, count, i, idx) && Before(i, idx, ti, tk)
    && forall j: nat, k: nat :: Candidate(subs, completed, c, count, j, k) && Before(j, k, ti, tk) ==>
         Beats(subs, c, u, i, idx, j, k)
  }

  ghost predicate NoneSoFar(subs: seq<Sub>, completed: set<nat>, c: nat, count: nat, ti: nat, tk: nat)
    requires c > 0
  {
    forall j: nat, k: nat :: Candidate(subs, completed, c, count, j, k) ==> !Before(j, k, ti, tk)
  }

  ghost predicate ScanState(subs: seq<Sub>, completed: set<nat>, c: nat, count: nat, u: Urgency,
                            best: Option<(nat, real)>, who: nat, ti: nat, tk: nat)
    requires c > 0
  {
    match best
    case None => NoneSoFar(subs, completed, c, count, ti, tk)
    case Some(b) =>
      && SelectedSoFar(subs, completed, c, count, u, who, b.0, ti, tk)
      && b.1 == UrgencyOf(u, subs[who], b.0, c)
  }

  lemma ScanSkip(subs: seq<Sub>, completed: set<nat>, c: nat, count: nat, u: Urgency,
                 best: Option<(nat, real)>, who: nat, i: nat, k: nat)
    requires c > 0 && ScanState(subs, completed, c, count, u, best, who, i, k)
    requires !Candidate(subs, completed, c, count, i, k)
    ensures ScanState(subs, completed, c, count, u, best, who, i, k + 1)
  {
    forall j: nat, q: nat | Before(j, q, i, k + 1) ensures Before(j, q, i, k) || (j == i && q == k) {
    }
  }

  lemma ScanTake(subs: seq<Sub>, completed: set<nat>, c: nat, count: nat, u: Urgency,
                 best: Option<(nat, real)>, who: nat, i: nat, k: nat, urgency: real)
    requires c > 0 && ScanState(subs, completed, c, count, u, best, who, i, k)
    requires Candidate(subs, completed, c, count, i, k) && urgency == UrgencyOf(u, subs[i], k, c)
    ensures (best.None? || urgency < best.value.1) ==>
              ScanState(subs, completed, c, count, u, Some((k, urgency)), i, i, k + 1)
    ensures best.Some? && !(urgency < best.value.1) ==> ScanState(subs, completed, c, count, u, best, who, i, k + 1)
  {
    var ni, nk := if best.None? || urgency < best.value.1 then i else who, if best.None? || urgency < best.value.1 then k else best.value.0;
    forall j: nat, q: nat | Candidate(subs, completed, c, count, j, q) && Before(j, q, i, k + 1)
      ensures Beats(subs, c, u, ni, nk, j, q)
    {
      if !Before(j, q, i, k) {
        assert j == i && q == k;
      } else if best.Some? {
        assert Beats(subs, c, u, who, best.value.0, j, q);
      }
    }
  }

  /** The end of one subscriber's span is the start of the next subscriber. */
  lemma ScanNext(subs: seq<Sub>, completed: set<nat>, c: nat, count: nat, u: Urgency,
                 best: Option<(nat, real)>, who: nat, i: nat, k: nat)
    requires c > 0 && i < |subs| && ScanState(subs, completed, c, count, u, best, who, i, k)
    requires k > Last(subs[i], c, count)
    ensures ScanState(subs, completed, c, count, u, best, who, i + 1, 0)
  {
    forall j: nat, q: nat | Candidate(subs, completed, c, count, j, q) && Before(j, q, i + 1, 0) ensures Before(j, q, i, k) {
    }
  }

  lemma ScanFirst(subs: seq<Sub>, completed: set<nat>, c: nat, count: nat, u: Urgency,
                  best: Option<(nat, real)>, who: nat, i: nat)
    requires c > 0 && i < |subs| && ScanState(subs, completed, c, count, u, best, who, i, 0)
    ensures ScanState(subs, completed, c, count, u, best, who, i, First(subs[i], c))
  {
    forall j: nat, q: nat | Candidate(subs, completed, c, count, j, q) && Before(j, q, i, First(subs[i], c)) ensures Before(j, q, i, 0) {
    }
  }

  method SelectNextChunk(subs: seq<Sub>, completed: set<nat>, c: nat, count: nat, u: Urgency)
      returns (next: Option<nat>, ghost who: nat)
    requires c > 0
    ensures next.Some? ==> Selected(subs, completed, c, count, u, who, next.value)
    ensures next.None? ==> forall i: nat, idx: nat :: !Candidate(subs, completed, c, count, i, idx)
    ensures next.None? <==> forall j: nat, k: nat ::
      j < |subs| && subs[j].start / c <= k <= subs[j].end / c && k < Max(count, 1) ==> k in completed
  {
    var best: Option<(nat, real)> := None;
    who := 0;
    for i := 0 to |subs|
      invariant ScanState(subs, completed, c, count, u, best, who, i, 0)
    {
      ScanFirst(subs, completed, c, count, u, best, who, i);
      var last := Last(subs[i], c, count);
      var idx := First(subs[i], c);
      while idx <= last
        invariant First(subs[i], c) <= idx
        invariant ScanState(subs, completed, c, count, u, best, who, i, idx)
        decreases if idx <= last then last - idx + 1 else 0
      {
        if idx in completed {
          ScanSkip(subs, completed, c, count, u, best, who, i, idx);
        } else {
          var urgency := UrgencyOf(u, subs[i], idx, c);
          ScanTake(subs, completed, c, count, u, best, who, i, idx, urgency);
          if best.None? || urgency < best.value.1 {
            best := Some((idx, urgency));
            who := i;
          }
        }
        idx := idx + 1;
      }
      ScanNext(subs, completed, c, count, u, best, who, i, idx);
    }
    ScanEnd(subs, completed, c, count, u, best, who);
    next := if best.Some? then Some(best.value.0) else None;
  }

  lemma ScanEnd(subs: seq<Sub>, completed: set<nat>, c: nat, count: nat, u: Urgency, best: Option<(nat, real)>, who: nat)
    requires c > 0 && ScanState(subs, completed, c, count, u, best, who, |subs|, 0)
    ensures best.Some? ==> Selected(subs, completed, c, count, u, who, best.value.0)
    ensures best.None? ==> forall i: nat, idx: nat :: !Candidate(subs, completed, c, count, i, idx)
    ensures best.None? <==> forall j: nat, k: nat ::
      j < |subs| && subs[j].start / c <= k <= subs[j].end / c && k < Max(count, 1) ==> k in completed
  {
    if best.Some? {
      CandidateIsMissing(subs, completed, c, count, who, best.value.0);
    } else {
      forall j: nat, k: nat | j < |subs| && subs[j].start / c <= k <= subs[j].end / c && k < Max(count, 1) ensures k in completed {
        CandidateIsMissing(subs, completed, c, count, j, k);
      }
    }
  }

  lemma CandidateIsMissing(subs: seq<Sub>, completed: set<nat>, c: nat, count: nat, j: nat, k: nat)
    requires c > 0
    ensures Candidate(subs, completed, c, count, j, k) <==>
      j < |subs| && subs[j].start / c <= k <= subs[j].end / c && k < Max(count, 1) && k !in completed
  {
  }

  lemma DistanceGrows(start: nat, i: nat, j: nat, c: nat)
    requires i <= j
    ensures Distance(start, i, c) <= Distance(start, j, c)
  {
    if i < j {
      Product(i, j, c);
    }
  }

  lemma ZeroOnlyAtFirst(s: Sub, idx: nat, c: nat)
    requires c > 0 && idx >= First(s, c)
    ensures Distance(s.start, idx, c) == 0 <==> idx == First(s, c)
  {
    ChunkOfByte(s.start, First(s, c), c);
    if First(s, c) < idx {
      Product(First(s, c), idx, c);
    }
  }

  /** Whatever the rounding, the chosen chunk is the first one its subscriber still lacks. */
  lemma SelectedIsNext(subs: seq<Sub>, completed: set<nat>, c: nat, count: nat, u: Urgency, i: nat, idx: nat)
    requires c > 0 && Admissible(u) && Selected(subs, completed, c, count, u, i, idx)
    ensures forall k :: First(subs[i], c) <= k < idx ==> k in completed
  {
    forall k | First(subs[i], c) <= k < idx ensures k in completed {
      if k !in completed {
        DistanceGrows(subs[i].start, k, idx, c);
        assert Candidate(subs, completed, c, count, i, k);
      }
    }
  }

  lemma FractionsCompare(d: nat, x: nat, e: nat, y: nat)
    requires x > 0 && y > 0
    ensures d as real / x as real <= e as real / y as real <==> d * y <= e * x
    ensures d as real / x as real < e as real / y as real <==> d * y < e * x
  {
    CrossMultiplied(d as real, x as real, e as real, y as real);
    assert (d * y) as real == d as real * y as real && (e * x) as real == e as real * x as real;
  }

  lemma UrgencyIsFraction(s: Sub, idx: nat, c: nat) returns (d: nat, x: nat)
    ensures d == Max(idx * c - s.start, 0) && x == Max(s.end - s.start, 1)
    ensures UrgencyOf(Exact, s, idx, c) == d as real / x as real
  {
    d, x := Max(idx * c - s.start, 0), Max(s.end - s.start, 1);
  }

  /**
   With exact division, in whole numbers: the chosen chunk is one its subscriber asked for and lacks, and its distance
   relative to the length asked for is least over all missing chunks of all subscribers, the first scanned winning ties.
   */
  lemma SelectedIsLeastFraction(subs: seq<Sub>, completed: set<nat>, c: nat, count: nat, i: nat, idx: nat, j: nat, k: nat)
    requires c > 0 && Selected(subs, completed, c, count, Exact, i, idx)
    requires j < |subs| && subs[j].start / c <= k <= subs[j].end / c && k < Max(count, 1) && k !in completed
    ensures i < |subs| && subs[i].start / c <= idx <= subs[i].end / c && idx < Max(count, 1) && idx !in completed
    ensures var mine := Max(idx * c - subs[i].start, 0) * Max(subs[j].end - subs[j].start, 1);
      var other := Max(k * c - subs[j].start, 0) * Max(subs[i].end - subs[i].start, 1);
      mine <= other && (j < i || (j == i && k < idx) ==> mine < other)
  {
    assert Candidate(subs, completed, c, count, j, k);
    assert Beats(subs, c, Exact, i, idx, j, k);
    var d, x := UrgencyIsFraction(subs[i], idx, c);
    var e, y := UrgencyIsFraction(subs[j], k, c);
    FractionsCompare(d, x, e, y);
  }
}
