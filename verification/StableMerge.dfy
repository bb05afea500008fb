/**
 The one-shot computation the sort and the merges must reproduce: the stable sort of all
 shards, one after the other. A merge is described by how far it has read each input.
 */
module StableMerge {
  import opened Options
  import opened Sequences
  import opened Examples
  import opened Sorting

  predicate ByKey(a: Example, b: Example) {
    KeyLeq(KeyOf(a), KeyOf(b))
  }

  ghost predicate Sorted(s: seq<Example>) {
    Ascending(s, ByKey)
  }

  lemma ByKeyOrder()
    ensures TotalOrder(ByKey)
  {
    forall a: Example, b: Example ensures ByKey(a, b) || ByKey(b, a) {
      KeyLeqTotal(KeyOf(a), KeyOf(b));
    }
    forall a, b, c | ByKey(a, b) && ByKey(b, c) ensures ByKey(a, c) {
      KeyLeqTransitive(KeyOf(a), KeyOf(b), KeyOf(c));
    }
  }

  function StableSort(s: seq<Example>): seq<Example> {
    Sort(s, ByKey)
  }

  function Concat(runs: seq<seq<Example>>): seq<Example> {
    if runs == [] then [] else runs[0] + Concat(runs[1..])
  }

  /** The rows of one key, in order. */
  function WithKey(s: seq<Example>, k: Key): seq<Example> {
    Select(s, (r: Example) => KeyOf(r) == k)
  }

  lemma WithKeyAppend(s: seq<Example>, t: seq<Example>, k: Key)
    ensures WithKey(s + t, k) == WithKey(s, k) + WithKey(t, k)
  {
    SelectAppend(s, t, (r: Example) => KeyOf(r) == k);
  }

  lemma WithKeyAbsent(s: seq<Example>, k: Key)
    ensures WithKey(s, k) == [] <==> forall r :: r in s ==> KeyOf(r) != k
  {
    SelectMembers(s, (r: Example) => KeyOf(r) == k);
  }

  lemma {:induction false} InsertWithKey(r: Example, s: seq<Example>, k: Key)
    ensures WithKey(Insert(r, s, ByKey), k) == WithKey([r] + s, k)
  {
    if s != [] && !ByKey(r, s[0]) {
      InsertWithKey(r, s[1..], k);
      KeyLeqTotal(KeyOf(r), KeyOf(s[0]));
      WithKeyAppend([r], s, k);
      WithKeyAppend([r], s[1..], k);
      assert Insert(r, s, ByKey)[1..] == Insert(r, s[1..], ByKey);
    }
  }

  lemma StableSortElements(s: seq<Example>)
    ensures multiset(StableSort(s)) == multiset(s) && |StableSort(s)| == |s|
  {
    SortElements(s, ByKey);
  }

  lemma StableSortSorted(s: seq<Example>)
    ensures Sorted(StableSort(s))
  {
    ByKeyOrder();
    SortAscends(s, ByKey);
  }

  lemma {:induction false} SortWithKey(s: seq<Example>, k: Key)
    ensures WithKey(StableSort(s), k) == WithKey(s, k)
  {
    if s != [] {
      SortWithKey(s[1..], k);
      InsertWithKey(s[0], StableSort(s[1..]), k);
      WithKeyAppend([s[0]], StableSort(s[1..]), k);
    }
  }

  /** The rows of every key stand in the same order in both lists. */
  ghost predicate SameTies(a: seq<Example>, b: seq<Example>) {
    forall k :: WithKey(a, k) == WithKey(b, k)
  }

  /** A sorted list is determined by the order of the rows inside each key. */
  lemma {:induction false} SortedUnique(a: seq<Example>, b: seq<Example>)
    requires Sorted(a) && Sorted(b) && SameTies(a, b)
    ensures a == b
  {
    assert b != [] ==> WithKey(b, KeyOf(b[0])) != [];
    assert a != [] ==> WithKey(a, KeyOf(a[0])) != [];
    if a != [] && b != [] {
      HeadsEqual(a, b);
      TailsSameTies(a, b);
      SortedUnique(a[1..], b[1..]);
      assert a == [a[0]] + a[1..] && b == [b[0]] + b[1..];
    }
  }

  lemma HeadsEqual(a: seq<Example>, b: seq<Example>)
    requires a != [] && b != [] && Sorted(a) && Sorted(b) && SameTies(a, b)
    ensures a[0] == b[0]
  {
    HeadKeyLeast(a, b);
    HeadKeyLeast(b, a);
    KeyLeqAntisymmetric(KeyOf(a[0]), KeyOf(b[0]));
    var k := KeyOf(a[0]);
    assert WithKey(a, k)[0] == a[0] && WithKey(b, k)[0] == b[0];
  }

  lemma TailsSameTies(a: seq<Example>, b: seq<Example>)
    requires a != [] && b != [] && a[0] == b[0] && SameTies(a, b)
    ensures SameTies(a[1..], b[1..])
  {
    forall k ensures WithKey(a[1..], k) == WithKey(b[1..], k) {
      assert WithKey(a, k) == WithKey(b, k);
      var h := if KeyOf(a[0]) == k then [a[0]] else [];
      assert WithKey(a, k)[|h|..] == WithKey(a[1..], k);
      assert WithKey(b, k)[|h|..] == WithKey(b[1..], k);
    }
  }

  lemma HeadKeyLeast(a: seq<Example>, b: seq<Example>)
    requires a != [] && b != [] && Sorted(a) && SameTies(a, b)
    ensures KeyLeq(KeyOf(a[0]), KeyOf(b[0]))
  {
    var k := KeyOf(b[0]);
    assert WithKey(a, k) == WithKey(b, k) != [];
    WithKeyAbsent(a, k);
    var r :| r in a && KeyOf(r) == k;
    var i :| 0 <= i < |a| && a[i] == r;
    KeyLeqTotal(k, k);
  }

  /** What the stable sort is, without its algorithm: sorted, and no tie reordered. */
  lemma StableSortCharacterised(s: seq<Example>, t: seq<Example>)
    ensures t == StableSort(s) <==> Sorted(t) && SameTies(t, s)
  {
    StableSortSorted(s);
    forall k ensures WithKey(StableSort(s), k) == WithKey(s, k) {
      SortWithKey(s, k);
    }
    if Sorted(t) && SameTies(t, s) {
      assert SameTies(t, StableSort(s));
      SortedUnique(t, StableSort(s));
    }
  }

  /** The rows that agree with r in all four fields of the order. */
  function Alike(s: seq<Example>, r: Example): seq<Example> {
    Select(s, (x: Example) => SameFields(x, r))
  }

  lemma AlikeWithKey(s: seq<Example>, r: Example)
    ensures Alike(s, r) == WithKey(s, KeyOf(r))
  {
    forall x | x in s ensures SameFields(x, r) <==> KeyOf(x) == KeyOf(r) {
      KeyOrder(x, r);
    }
    SelectSame(s, (x: Example) => SameFields(x, r), (x: Example) => KeyOf(x) == KeyOf(r));
  }

  /**
   The same on the fields of the rows: by target, event, snapshot and outcome, the first that differs
   deciding, and rows alike in all four in their old order.
   */
  lemma StableSortMeaning(s: seq<Example>, t: seq<Example>)
    ensures t == StableSort(s)
            <==> (forall i, j :: 0 <= i < j < |t| ==> RowLeq(t[i], t[j])) && forall r :: Alike(t, r) == Alike(s, r)
  {
    StableSortCharacterised(s, t);
    forall i, j | 0 <= i < j < |t| ensures ByKey(t[i], t[j]) <==> RowLeq(t[i], t[j]) {
      KeyOrder(t[i], t[j]);
    }
    forall r ensures Alike(t, r) == WithKey(t, KeyOf(r)) && Alike(s, r) == WithKey(s, KeyOf(r)) {
      AlikeWithKey(t, r);
      AlikeWithKey(s, r);
    }
    if forall r :: Alike(t, r) == Alike(s, r) {
      forall k ensures WithKey(t, k) == WithKey(s, k) {
        var r := Example(k.target, k.event, Some(k.snapshot), k.outcome, 0, None, {}, false, "");
        assert KeyOf(r) == k && Alike(t, r) == Alike(s, r);
      }
    }
  }

  lemma {:induction false} ConcatAppend(a: seq<seq<Example>>, b: seq<seq<Example>>)
    ensures Concat(a + b) == Concat(a) + Concat(b)
  {
    if a == [] {
      assert a + b == b;
    } else {
      var ab := a + b;
      assert ab[0] == a[0] && ab[1..] == a[1..] + b;
      ConcatAppend(a[1..], b);
      assert Concat(ab) == a[0] + Concat(ab[1..]);
      assert a[0] + (Concat(a[1..]) + Concat(b)) == (a[0] + Concat(a[1..])) + Concat(b);
    }
  }

  lemma ConcatOne(run: seq<Example>)
    ensures Concat([run]) == run
  {
    assert Concat([run]) == run + Concat([]);
  }

  // ----- Merging: `before[i]` has been read from input i, `rest[i]` has not.

  /** Row r of input i goes out before row h of input j: smaller key, then earlier input. */
  predicate Precedes(r: Example, i: nat, h: Example, j: nat) {
    KeyLeq(KeyOf(r), KeyOf(h)) && (KeyOf(r) == KeyOf(h) ==> i <= j)
  }

  ghost predicate Cut(before: seq<seq<Example>>, rest: seq<seq<Example>>) {
    && |before| == |rest|
    && forall i, j, r, h :: 0 <= i < |before| && 0 <= j < |rest| && r in before[i] && h in rest[j] ==>
         Precedes(r, i, h, j)
  }

  /** Input i holds the row a merge emits next. */
  ghost predicate Least(rest: seq<seq<Example>>, i: nat) {
    && i < |rest| && rest[i] != []
    && forall j :: 0 <= j < |rest| && rest[j] != [] ==> Precedes(rest[i][0], i, rest[j][0], j)
  }

  lemma {:induction false} ConcatMember(runs: seq<seq<Example>>, r: Example)
    ensures r in Concat(runs) <==> exists i :: 0 <= i < |runs| && r in runs[i]
  {
    if runs != [] {
      ConcatMember(runs[1..], r);
      if r in Concat(runs[1..]) {
        var i :| 0 <= i < |runs[1..]| && r in runs[1..][i];
        assert r in runs[i + 1];
      }
      if exists i :: 0 <= i < |runs| && r in runs[i] {
        var i :| 0 <= i < |runs| && r in runs[i];
        if i > 0 {
          assert r in runs[1..][i - 1];
        }
      }
    }
  }

  lemma {:induction false} AppendToRun(runs: seq<seq<Example>>, i: nat, r: Example, k: Key)
    requires i < |runs|
    requires KeyOf(r) == k ==> forall j :: i < j < |runs| ==> WithKey(runs[j], k) == []
    ensures WithKey(Concat(runs[i := runs[i] + [r]]), k) == WithKey(Concat(runs), k) + WithKey([r], k)
  {
    if i == 0 {
      AppendToFirst(runs, r, k);
    } else {
      var runs' := runs[i := runs[i] + [r]];
      ConcatFirst(runs, k);
      ConcatFirst(runs', k);
      assert runs'[1..] == runs[1..][i - 1 := runs[1..][i - 1] + [r]];
      AppendToRun(runs[1..], i - 1, r, k);
      Regroup(WithKey(runs[0], k), WithKey(Concat(runs[1..]), k), WithKey([r], k));
    }
  }

  lemma AppendToFirst(runs: seq<seq<Example>>, r: Example, k: Key)
    requires runs != []
    requires KeyOf(r) == k ==> forall j :: 0 < j < |runs| ==> WithKey(runs[j], k) == []
    ensures WithKey(Concat(runs[0 := runs[0] + [r]]), k) == WithKey(Concat(runs), k) + WithKey([r], k)
  {
    var runs' := runs[0 := runs[0] + [r]];
    ConcatFirst(runs, k);
    ConcatFirst(runs', k);
    WithKeyAppend(runs[0], [r], k);
    assert runs'[1..] == runs[1..];
    if KeyOf(r) == k {
      NoneWithKey(runs[1..], k);
    } else {
      WithKeyAbsent([r], k);
    }
    Regroup(WithKey(runs[0], k), WithKey(Concat(runs[1..]), k), WithKey([r], k));
  }

  lemma ConcatFirst(runs: seq<seq<Example>>, k: Key)
    requires runs != []
    ensures WithKey(Concat(runs), k) == WithKey(runs[0], k) + WithKey(Concat(runs[1..]), k)
  {
    WithKeyAppend(runs[0], Concat(runs[1..]), k);
  }

  lemma {:induction false} NoneWithKey(runs: seq<seq<Example>>, k: Key)
    requires forall j :: 0 <= j < |runs| ==> WithKey(runs[j], k) == []
    ensures WithKey(Concat(runs), k) == []
  {
    if runs != [] {
      NoneWithKey(runs[1..], k);
      WithKeyAppend(runs[0], Concat(runs[1..]), k);
    }
  }

  /** Emitting the least head appends it to the stable sort of what has been read. */
  lemma MergeStep(before: seq<seq<Example>>, rest: seq<seq<Example>>, i: nat)
    requires Cut(before, rest) && Least(rest, i)
    requires forall j :: 0 <= j < |rest| ==> Sorted(rest[j])
    ensures Cut(before[i := before[i] + [rest[i][0]]], rest[i := rest[i][1..]])
    ensures StableSort(Concat(before[i := before[i] + [rest[i][0]]])) == StableSort(Concat(before)) + [rest[i][0]]
  {
    var r := rest[i][0];
    MergeStepCut(before, rest, i);
    var before' := before[i := before[i] + [r]];
    var out := StableSort(Concat(before));
    LeastExtendsSorted(before, rest, i);
    forall k ensures WithKey(out + [r], k) == WithKey(Concat(before'), k) {
      LeastKeepsTies(before, rest, i, k);
    }
    StableSortCharacterised(Concat(before'), out + [r]);
  }

  lemma LeastExtendsSorted(before: seq<seq<Example>>, rest: seq<seq<Example>>, i: nat)
    requires Cut(before, rest) && Least(rest, i)
    ensures Sorted(StableSort(Concat(before)) + [rest[i][0]])
  {
    var r := rest[i][0];
    var out := StableSort(Concat(before));
    StableSortSorted(Concat(before));
    StableSortElements(Concat(before));
    forall x | x in out ensures KeyLeq(KeyOf(x), KeyOf(r)) {
      assert x in multiset(out);
      ConcatMember(before, x);
      var j :| 0 <= j < |before| && x in before[j];
      assert r in rest[i] && Precedes(x, j, r, i);
    }
  }

  lemma LeastKeepsTies(before: seq<seq<Example>>, rest: seq<seq<Example>>, i: nat, k: Key)
    requires Cut(before, rest) && Least(rest, i)
    ensures WithKey(StableSort(Concat(before)) + [rest[i][0]], k)
        == WithKey(Concat(before[i := before[i] + [rest[i][0]]]), k)
  {
    var r := rest[i][0];
    WithKeyAppend(StableSort(Concat(before)), [r], k);
    SortWithKey(Concat(before), k);
    if KeyOf(r) == k {
      forall j | i < j < |before| ensures WithKey(before[j], k) == [] {
        forall x | x in before[j] ensures KeyOf(x) != k {
          assert r in rest[i] && Precedes(x, j, r, i);
        }
        WithKeyAbsent(before[j], k);
      }
    }
    AppendToRun(before, i, r, k);
  }

  lemma MergeStepCut(before: seq<seq<Example>>, rest: seq<seq<Example>>, i: nat)
    requires Cut(before, rest) && Least(rest, i)
    requires forall j :: 0 <= j < |rest| ==> Sorted(rest[j])
    ensures Cut(before[i := before[i] + [rest[i][0]]], rest[i := rest[i][1..]])
  {
    var r := rest[i][0];
    var before', rest' := before[i := before[i] + [r]], rest[i := rest[i][1..]];
    forall a, j, x, h | 0 <= a < |before'| && 0 <= j < |rest'| && x in before'[a] && h in rest'[j]
      ensures Precedes(x, a, h, j)
    {
      assert h in rest[j];
      if x in before[a] {
      } else {
        var n :| 0 <= n < |rest[j]| && rest[j][n] == h;
        var g := rest[j][0];
        assert Precedes(r, i, g, j);
        if n > 0 {
          KeyLeqTransitive(KeyOf(r), KeyOf(g), KeyOf(h));
          if KeyOf(r) == KeyOf(h) {
            KeyLeqAntisymmetric(KeyOf(r), KeyOf(g));
          }
        }
      }
    }
  }
}
