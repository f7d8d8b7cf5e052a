/** A document collection as an ordered sequence: `findOne` and `updateOne`
    pick the earliest document that satisfies the filter, `insertOne` appends. */
module Store {

  datatype Option<+T> = None | Some(value: T)

  /** `i` is the position a single-document read or write with filter `p`
      addresses: the earliest document satisfying `p`. */
  predicate IsFirst<D>(s: seq<D>, p: D -> bool, i: int) {
    0 <= i < |s| && p(s[i]) && forall j :: 0 <= j < i ==> !p(s[j])
  }

  /** No document satisfies the filter. */
  predicate NoMatch<D>(s: seq<D>, p: D -> bool) {
    forall j :: 0 <= j < |s| ==> !p(s[j])
  }

  /** `findOne`: the position of the earliest matching document, or nothing. */
  function FindFirst<D>(s: seq<D>, p: D -> bool): (r: Option<nat>)
    ensures r.Some? ==> IsFirst(s, p, r.value)
    ensures r.None? <==> NoMatch(s, p)
  {
    if |s| == 0 then None
    else if p(s[0]) then Some(0)
    else
      match FindFirst(s[1..], p)
      case None => None
      case Some(i) => Some(i + 1)
  }

  /** `updateOne` without upsert: rewrites the earliest matching document with
      `f` and leaves every other document in place; with no match nothing
      changes and nothing is inserted. */
  function UpdateFirst<D>(s: seq<D>, p: D -> bool, f: D -> D): (r: seq<D>)
    ensures |r| == |s|
    ensures NoMatch(s, p) ==> r == s
    ensures forall i :: IsFirst(s, p, i) ==>
              r[i] == f(s[i]) && forall j :: 0 <= j < |s| && j != i ==> r[j] == s[j]
  {
    match FindFirst(s, p)
    case None => s
    case Some(i) => s[i := f(s[i])]
  }

  /** A rewrite that keeps the filter true of the rewritten document and
      leaves the others alone keeps the same first match. */
  lemma UpdateKeepsFirst<D>(s: seq<D>, p: D -> bool, i: nat, d: D)
    requires IsFirst(s, p, i)
    requires p(d)
    ensures IsFirst(s[i := d], p, i)
  {
  }
}
