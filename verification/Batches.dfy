/** Batches of distinct rows taken from a shrinking set, as the expiry sweeps take them. */
module Batches {

  predicate Distinct<T(==)>(rows: seq<T>) { forall j, k :: 0 <= j < k < |rows| ==> rows[j] != rows[k] }

  ghost function Elements<T>(rows: seq<T>): set<T> { set r | r in rows }

  lemma {:induction false} DistinctSize<T>(rows: seq<T>)
    requires Distinct(rows)
    ensures |Elements(rows)| == |rows|
  {
    if rows == [] {
      assert Elements(rows) == {};
    } else {
      var n := |rows| - 1;
      DistinctSize(rows[..n]);
      assert Elements(rows) == Elements(rows[..n]) + {rows[n]};
    }
  }

  lemma RemoveTaken<T>(due: set<T>, taken: set<T>)
    requires taken <= due
    ensures |due - taken| == |due| - |taken|
  {
    assert due == (due - taken) + taken;
  }

  /** A batch takes the limit, or everything when there is less. */
  function Taken(due: nat, limit: nat): nat { if due < limit then due else limit }

  /** What is left of n due rows after a number of full batches. */
  function Left(n: nat, sweeps: nat, limit: nat): nat {
    if n <= sweeps * limit then 0 else n - sweeps * limit
  }

  lemma LeftNext(n: nat, sweeps: nat, limit: nat)
    ensures Left(n, sweeps + 1, limit) == Left(n, sweeps, limit) - Taken(Left(n, sweeps, limit), limit)
  {
    assert (sweeps + 1) * limit == sweeps * limit + limit;
  }
}
