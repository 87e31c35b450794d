/** Narrowing a candidate vector: a query keeps the solutions tagged with one contraction kind,
    then those tagged with one dtype tuple. Narrowing is pure and never fails; an empty result
    is only an error later, for the selection model. */
module Queries {
  import opened Types
  import opened Solutions

  /** The elements of `s` that `keep` accepts, in their original order. */
  function Filter<T(==,!new)>(keep: T -> bool, s: seq<T>): (r: seq<T>)
    ensures |r| <= |s|
    ensures forall x :: x in r <==> x in s && keep(x)
    decreases |s|
  {
    if |s| == 0 then []
    else if keep(s[0]) then [s[0]] + Filter(keep, s[1..])
    else Filter(keep, s[1..])
  }

  /** `xs` can be obtained from `ys` by deleting elements. */
  ghost predicate IsSubsequence<T(!new)>(xs: seq<T>, ys: seq<T>)
    decreases |ys|
  {
    if |xs| == 0 then true
    else if |ys| == 0 then false
    else (xs[0] == ys[0] && IsSubsequence(xs[1..], ys[1..])) || IsSubsequence(xs, ys[1..])
  }

  /** A filter keeps the survivors in their original order. */
  lemma {:induction false} FilterIsSubsequence<T(!new)>(keep: T -> bool, s: seq<T>)
    ensures IsSubsequence(Filter(keep, s), s)
    decreases |s|
  {
    if |s| > 0 {
      FilterIsSubsequence(keep, s[1..]);
      var r := Filter(keep, s);
      if keep(s[0]) {
        assert r[0] == s[0] && r[1..] == Filter(keep, s[1..]);
      } else {
        assert r == Filter(keep, s[1..]);
      }
    }
  }

  /** Filtering a sequence extended by one element extends the filtered sequence by that element
      exactly when it is accepted. */
  lemma {:induction false} FilterSnoc<T(!new)>(keep: T -> bool, s: seq<T>, x: T)
    ensures Filter(keep, s + [x]) == Filter(keep, s) + (if keep(x) then [x] else [])
    decreases |s|
  {
    if |s| == 0 {
      assert s + [x] == [x];
    } else {
      assert (s + [x])[0] == s[0];
      assert (s + [x])[1..] == s[1..] + [x];
      FilterSnoc(keep, s[1..], x);
    }
  }

  /** Filtering twice is filtering once by the conjunction. */
  lemma {:induction false} FilterTwice<T(!new)>(first: T -> bool, second: T -> bool, both: T -> bool, s: seq<T>)
    requires forall x :: both(x) == (first(x) && second(x))
    ensures Filter(second, Filter(first, s)) == Filter(both, s)
    decreases |s|
  {
    if |s| > 0 {
      FilterTwice(first, second, both, s[1..]);
      if first(s[0]) {
        assert Filter(first, s) == [s[0]] + Filter(first, s[1..]);
        assert Filter(first, s)[1..] == Filter(first, s[1..]);
      }
    }
  }

  /** Keep the candidates of one contraction kind. */
  function QueryOp(cands: seq<Solution>, op: ContractionOpId): seq<Solution>
  {
    Filter((s: Solution) => s.opId == op, cands)
  }

  /** Keep the candidates whose dtype tuple, compute type included, matches exactly. */
  function QueryTypes(cands: seq<Solution>, key: TypeKey): seq<Solution>
  {
    Filter((s: Solution) => s.types == key, cands)
  }

  /** A solution matches a problem class when both its kind and its dtype tuple agree. */
  predicate Matches(s: Solution, op: ContractionOpId, key: TypeKey) {
    s.opId == op && s.types == key
  }

  /** The uid-keyed map a query result is exposed as, in candidate order. */
  function Entries(cands: seq<Solution>): (m: SolutionMap)
    ensures |m| == |cands|
    ensures forall i :: 0 <= i < |cands| ==> m[i] == (cands[i].uid, cands[i])
    decreases |cands|
  {
    if |cands| == 0 then [] else [(cands[0].uid, cands[0])] + Entries(cands[1..])
  }

  /** Narrowing by kind, then by dtype tuple, keeps exactly the matching candidates, in order. */
  lemma NarrowingKeepsMatches(cands: seq<Solution>, op: ContractionOpId, key: TypeKey)
    ensures QueryTypes(QueryOp(cands, op), key) == Filter((s: Solution) => Matches(s, op, key), cands)
    ensures IsSubsequence(QueryTypes(QueryOp(cands, op), key), cands)
    ensures forall s :: s in QueryTypes(QueryOp(cands, op), key) <==> s in cands && Matches(s, op, key)
  {
    FilterTwice((s: Solution) => s.opId == op, (s: Solution) => s.types == key,
                (s: Solution) => Matches(s, op, key), cands);
    FilterIsSubsequence((s: Solution) => Matches(s, op, key), cands);
  }

  /** Reading a query result back out of its map gives the filtered vector unchanged. */
  lemma EntriesRoundTrip(cands: seq<Solution>)
    ensures MapToSolutionVec(Entries(cands)) == cands
  {
  }
}
