/** Byte ranges as clients ask for them, clipped to a file. */
module Ranges {
  import opened Wrappers

  datatype Request = Request(start: nat, end: Option<nat>)

  /** A request clipped to the file; one outside it is refused. */
  function Resolve(r: Request, total: nat): Option<(nat, nat)> {
    var last := if total == 0 then 0 else total - 1;
    var end := if r.end.Some? && r.end.value < last then r.end.value else last;
    if r.start > end || r.start >= total then None else Some((r.start, end))
  }

  predicate Asks(r: Request, total: nat, p: nat) {
    r.start <= p < total && (r.end.Some? ==> p <= r.end.value)
  }

  /** A request is accepted exactly when it asks for a byte the file has, and then stands for exactly those bytes. */
  lemma ResolveIsIntersection(r: Request, total: nat)
    ensures Resolve(r, total).Some? <==> exists p: nat :: Asks(r, total, p)
    ensures Resolve(r, total).Some? ==> forall p: nat :: Resolve(r, total).value.0 <= p <= Resolve(r, total).value.1 <==> Asks(r, total, p)
  {
    if Resolve(r, total).Some? {
      assert Asks(r, total, r.start);
    }
  }
}
