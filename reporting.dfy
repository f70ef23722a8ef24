/** The aggregate counts of the summary over the collected records. */
module Reporting {
  import opened Models

  /** The number of records satisfying `p`, as `_results.Count(p)` gives it. */
  function Count(rs: seq<Record>, p: Record -> bool): (n: nat)
    ensures n <= |rs|
  {
    if rs == [] then 0
    else Count(rs[..|rs| - 1], p) + (if p(rs[|rs| - 1]) then 1 else 0)
  }

  predicate Reachable(r: Record) { r.isReachable }
  predicate Port80Open(r: Record) { r.http80IsOpen }
  predicate Port8080Open(r: Record) { r.http8080IsOpen }

  /** The summary: either the "no addresses were processed" branch, or the four totals. */
  datatype Summary =
    | NoneProcessed
    | Counts(total: nat, reachable: nat, http80: nat, http8080: nat)

  /** The summary of a result list: the empty branch exactly for no records,
      otherwise every total is at most the number of records. */
  function SummaryOf(rs: seq<Record>): (s: Summary)
    ensures s.NoneProcessed? <==> rs == []
    ensures s.Counts? ==> s.total == |rs|
    ensures s.Counts? ==> s.reachable <= s.total && s.http80 <= s.total && s.http8080 <= s.total
  {
    if |rs| == 0 then NoneProcessed
    else Counts(|rs|, Count(rs, Reachable), Count(rs, Port80Open), Count(rs, Port8080Open))
  }

  /** The routing invariant of a finished record: a port is reported open only
      on a reachable host. */
  predicate Routed(r: Record)
  {
    (r.http80IsOpen || r.http8080IsOpen) ==> r.isReachable
  }

  /** The positions of the records satisfying `p`. */
  function Matching(rs: seq<Record>, p: Record -> bool): set<int>
  {
    set i | 0 <= i < |rs| && p(rs[i])
  }

  /** `Count` is the number of positions whose record satisfies `p`: every
      satisfying record is counted once, and no other record is. */
  lemma {:induction false} CountMatchesIndices(rs: seq<Record>, p: Record -> bool)
    ensures Count(rs, p) == |Matching(rs, p)|
    decreases |rs|
  {
    if rs == [] {
      assert Matching(rs, p) == {};
    } else {
      var last := |rs| - 1;
      var prefix := rs[..last];
      CountMatchesIndices(prefix, p);
      var extra: set<int> := if p(rs[last]) then {last} else {};
      assert Matching(rs, p) == Matching(prefix, p) + extra by {
        forall i | 0 <= i < last
          ensures rs[i] == prefix[i]
        {
        }
      }
      assert last !in Matching(prefix, p);
      assert |Matching(prefix, p) + extra| == |Matching(prefix, p)| + |extra|;
    }
  }

  /** Each total of a non-empty summary is the number of collected records
      with that property. */
  lemma SummaryCountsRecords(rs: seq<Record>)
    requires rs != []
    ensures SummaryOf(rs).reachable == |Matching(rs, Reachable)|
    ensures SummaryOf(rs).http80 == |Matching(rs, Port80Open)|
    ensures SummaryOf(rs).http8080 == |Matching(rs, Port8080Open)|
  {
    CountMatchesIndices(rs, Reachable);
    CountMatchesIndices(rs, Port80Open);
    CountMatchesIndices(rs, Port8080Open);
  }

  /** Counting distributes over concatenation. */
  lemma {:induction false} CountAppend(a: seq<Record>, b: seq<Record>, p: Record -> bool)
    ensures Count(a + b, p) == Count(a, p) + Count(b, p)
    decreases |b|
  {
    if b == [] {
      assert a + b == a;
    } else {
      var b' := b[..|b| - 1];
      assert (a + b)[..|a + b| - 1] == a + b';
      CountAppend(a, b', p);
    }
  }

  /** Taking out the record at position `i` removes one copy of it. */
  lemma MultisetRemoveAt(ys: seq<Record>, i: nat)
    requires i < |ys|
    ensures multiset(ys[..i] + ys[i + 1..]) == multiset(ys) - multiset{ys[i]}
  {
    var a, b := ys[..i], ys[i + 1..];
    assert ys == a + [ys[i]] + b;
    assert multiset(ys) == multiset(a) + multiset{ys[i]} + multiset(b);
  }

  /** Taking out the record at position `i` lowers the count by one exactly
      when that record satisfies `p`. */
  lemma CountRemoveAt(ys: seq<Record>, i: nat, p: Record -> bool)
    requires i < |ys|
    ensures Count(ys, p) == Count(ys[..i] + ys[i + 1..], p) + (if p(ys[i]) then 1 else 0)
  {
    var head, tail := ys[..i + 1], ys[i + 1..];
    assert Count(ys, p) == Count(head, p) + Count(tail, p) by {
      assert ys == head + tail;
      CountAppend(head, tail, p);
    }
    assert Count(head, p) == Count(ys[..i], p) + (if p(ys[i]) then 1 else 0) by {
      assert head[..i] == ys[..i];
    }
    CountAppend(ys[..i], tail, p);
  }

  /** The count does not depend on the order of the records: the pipeline
      appends records in whatever order they complete. */
  lemma {:induction false} CountPermutation(xs: seq<Record>, ys: seq<Record>, p: Record -> bool)
    requires multiset(xs) == multiset(ys)
    ensures Count(xs, p) == Count(ys, p)
    decreases |xs|
  {
    if xs == [] {
      assert |ys| == |multiset(ys)| == 0;
    } else {
      var x := xs[|xs| - 1];
      var xs' := xs[..|xs| - 1];
      assert xs == xs' + [x];
      assert multiset(xs') == multiset(xs) - multiset{x};
      assert x in multiset(ys);
      var i :| 0 <= i < |ys| && ys[i] == x;
      MultisetRemoveAt(ys, i);
      CountRemoveAt(ys, i, p);
      CountPermutation(xs', ys[..i] + ys[i + 1..], p);
    }
  }

  /** A predicate implied by another is satisfied by at least as many records. */
  lemma {:induction false} CountMonotone(rs: seq<Record>, p: Record -> bool, q: Record -> bool)
    requires forall i :: 0 <= i < |rs| && p(rs[i]) ==> q(rs[i])
    ensures Count(rs, p) <= Count(rs, q)
    decreases |rs|
  {
    if rs != [] {
      CountMonotone(rs[..|rs| - 1], p, q);
    }
  }

  /** Over routed records, neither port count exceeds the reachable count. */
  lemma SummaryBounds(rs: seq<Record>)
    requires forall i :: 0 <= i < |rs| ==> Routed(rs[i])
    ensures var s := SummaryOf(rs);
            s.Counts? ==> s.http80 <= s.reachable <= s.total && s.http8080 <= s.reachable
  {
    CountMonotone(rs, Port80Open, Reachable);
    CountMonotone(rs, Port8080Open, Reachable);
  }

  /** Two result lists holding the same records in any order give the same summary. */
  lemma SummaryOrderIndependent(rs: seq<Record>, qs: seq<Record>)
    requires multiset(rs) == multiset(qs)
    ensures SummaryOf(rs) == SummaryOf(qs)
  {
    assert |rs| == |multiset(rs)| == |multiset(qs)| == |qs|;
    CountPermutation(rs, qs, Reachable);
    CountPermutation(rs, qs, Port80Open);
    CountPermutation(rs, qs, Port8080Open);
  }
}
