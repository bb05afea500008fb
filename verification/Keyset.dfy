/** A table queried page by page: rows in key order, a filter, and a cursor that names the last row read. */
module Keyset {
  import opened Sequences

  /** What the database does with one query: answer, hit the statement timeout, or fail otherwise. */
  datatype Attempt = Answer | Timeout | Failure

  function Limit<T>(rows: seq<T>, limit: nat): seq<T> {
    if |rows| <= limit then rows else rows[..limit]
  }

  ghost predicate Ordered<T(!new)>(rows: seq<T>, less: (T, T) -> bool) {
    forall i, j :: 0 <= i < j < |rows| ==> less(rows[i], rows[j])
  }

  ghost predicate Asymmetric<T(!new)>(less: (T, T) -> bool) {
    forall a, b :: less(a, b) ==> !less(b, a)
  }

  lemma {:induction false} SelectOrdered<T(!new)>(rows: seq<T>, keep: T -> bool, less: (T, T) -> bool)
    requires Ordered(rows, less)
    ensures Ordered(Select(rows, keep), less) && |Select(rows, keep)| <= |rows|
  {
    if rows != [] {
      var rest := Select(rows[1..], keep);
      SelectOrdered(rows[1..], keep, less);
      SelectMembers(rows[1..], keep);
      forall r | r in rest ensures less(rows[0], r) {
      }
    }
  }

  /** A condition that the first k rows fail and all others meet selects what follows the k-th row. */
  lemma {:induction false} SelectSuffix<T>(rows: seq<T>, after: T -> bool, k: nat)
    requires k <= |rows|
    requires forall i :: 0 <= i < k ==> !after(rows[i])
    requires forall i :: k <= i < |rows| ==> after(rows[i])
    ensures Select(rows, after) == rows[k..]
  {
    if rows != [] {
      SelectSuffix(rows[1..], after, if k == 0 then 0 else k - 1);
    }
  }

  /**
   The rows in scope behind the k-th one: what a reader with that cursor, or with none at the start, is
   still to see.
   */
  lemma Resumes<T(!new)>(rows: seq<T>, keep: T -> bool, less: (T, T) -> bool, k: nat, both: T -> bool)
    requires Asymmetric(less) && Ordered(rows, less) && k <= |Select(rows, keep)|
    requires forall r | r in rows :: both(r) == (keep(r) && (k == 0 || less(Select(rows, keep)[k - 1], r)))
    ensures Select(rows, both) == Select(rows, keep)[k..]
  {
    var scope := Select(rows, keep);
    SelectOrdered(rows, keep, less);
    var after := r => k == 0 || less(scope[k - 1], r);
    SelectBoth(rows, keep, after, both);
    BehindIsSuffix(scope, less, k, after);
  }

  lemma BehindIsSuffix<T(!new)>(scope: seq<T>, less: (T, T) -> bool, k: nat, after: T -> bool)
    requires Asymmetric(less) && Ordered(scope, less) && k <= |scope|
    requires forall i :: 0 <= i < |scope| ==> after(scope[i]) == (k == 0 || less(scope[k - 1], scope[i]))
    ensures Select(scope, after) == scope[k..]
  {
    forall i | 0 <= i < k ensures !after(scope[i]) {
      NotBehind(scope, less, k, i);
    }
    forall i | k <= i < |scope| ensures after(scope[i]) {
    }
    SelectSuffix(scope, after, k);
  }

  lemma NotBehind<T(!new)>(scope: seq<T>, less: (T, T) -> bool, k: nat, i: nat)
    requires Asymmetric(less) && Ordered(scope, less) && i < k <= |scope|
    ensures !less(scope[k - 1], scope[i])
  {
    if i < k - 1 {
      assert less(scope[i], scope[k - 1]);
    }
  }

  /** The page is the next piece of the scope, and its last one if it is short. */
  ghost predicate NextPart<T(!new)>(scope: seq<T>, k: nat, page: seq<T>, limit: nat) {
    && k + |page| <= |scope| && page == scope[k..k + |page|] && |page| <= limit
    && (|page| < limit ==> k + |page| == |scope|)
  }
}
