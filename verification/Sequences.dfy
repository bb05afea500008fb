/** Small facts about lists that several modules need. */
module Sequences {

  /** Appending is associative, and an empty piece may change places. */
  lemma Regroup<T>(x: seq<T>, y: seq<T>, z: seq<T>)
    ensures x + (y + z) == (x + y) + z && (y == [] || z == [] ==> (x + z) + y == (x + y) + z)
  {
  }

  /** The elements a condition keeps, in their order. */
  function Select<T>(s: seq<T>, keep: T -> bool): seq<T> {
    if s == [] then [] else if keep(s[0]) then [s[0]] + Select(s[1..], keep) else Select(s[1..], keep)
  }

  lemma {:induction false} SelectMembers<T>(s: seq<T>, keep: T -> bool)
    ensures forall x :: x in Select(s, keep) <==> x in s && keep(x)
    ensures Select(s, keep) == [] <==> forall x :: x in s ==> !keep(x)
  {
    if s != [] {
      SelectMembers(s[1..], keep);
      assert s == [s[0]] + s[1..];
    }
  }

  lemma {:induction false} SelectAppend<T>(s: seq<T>, t: seq<T>, keep: T -> bool)
    ensures Select(s + t, keep) == Select(s, keep) + Select(t, keep)
  {
    if s == [] {
      assert s + t == t;
    } else {
      assert (s + t)[0] == s[0] && (s + t)[1..] == s[1..] + t;
      SelectAppend(s[1..], t, keep);
    }
  }

  lemma {:induction false} SelectSame<T>(s: seq<T>, p: T -> bool, q: T -> bool)
    requires forall x :: x in s ==> p(x) == q(x)
    ensures Select(s, p) == Select(s, q)
  {
    if s != [] {
      assert s[0] in s;
      SelectSame(s[1..], p, q);
    }
  }

  /** Two conditions in one query are one condition after the other. */
  lemma {:induction false} SelectBoth<T>(rows: seq<T>, keep: T -> bool, after: T -> bool, both: T -> bool)
    requires forall r | r in rows :: both(r) == (keep(r) && after(r))
    ensures Select(rows, both) == Select(Select(rows, keep), after)
  {
    if rows != [] {
      SelectBoth(rows[1..], keep, after, both);
      var rest := Select(rows[1..], keep);
      assert rows[0] in rows;
      assert Select(rows, keep) == if keep(rows[0]) then [rows[0]] + rest else rest;
      assert ([rows[0]] + rest)[1..] == rest;
    }
  }

  lemma SelectOne<T>(x: T, keep: T -> bool)
    ensures Select([x], keep) == if keep(x) then [x] else []
  {
    assert [x][1..] == [];
  }
}
