/** The ordering every listing query of the server asks for: the matching
    documents sorted by creation time, newest first. Ids are handed out in
    creation order, so sorting by `createdAt` descending is sorting by id
    descending. */
module Listing {
  import opened Common

  /** The ids below `bound` of the documents in `m` that satisfy the query
      filter `keep`, newest (largest id) first. */
  function NewestFirst<T>(m: map<Id, T>, bound: nat, keep: T -> bool): (r: seq<Id>)
    ensures forall x :: x in r <==> x < bound && x in m && keep(m[x])
    ensures forall i, j :: 0 <= i < j < |r| ==> r[i] > r[j]
    decreases bound
  {
    if bound == 0 then []
    else
      var rest := NewestFirst(m, bound - 1, keep);
      if bound - 1 in m && keep(m[bound - 1]) then
        assert forall k :: 0 <= k < |rest| ==> rest[k] in rest;
        [bound - 1] + rest
      else rest
  }

  /** A listing does not depend on documents the filter drops: two tables that
      agree on every kept document (and keep the same ids) list the same ids. */
  lemma {:induction false} NewestFirstSameOnKept<T>(m1: map<Id, T>, m2: map<Id, T>, bound: nat, keep: T -> bool)
    requires forall x :: x < bound ==> (x in m1 && keep(m1[x]) <==> x in m2 && keep(m2[x]))
    ensures NewestFirst(m1, bound, keep) == NewestFirst(m2, bound, keep)
    decreases bound
  {
    if bound > 0 {
      NewestFirstSameOnKept(m1, m2, bound - 1, keep);
    }
  }
}
