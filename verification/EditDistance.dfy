/** Surname matching: bounded edit distance, and the index that spares a full scan. */
module EditDistance {

  const TOO_FAR := 9

  function Min(a: nat, b: nat): nat {
    if a <= b then a else b
  }

  /** The distance as a recurrence on last characters. */
  function Lev(a: string, b: string): nat
    decreases |a| + |b|
  {
    if a == "" then |b|
    else if b == "" then |a|
    else
      var a', b' := a[..|a| - 1], b[..|b| - 1];
      Min(Min(Lev(a', b) + 1, Lev(a, b') + 1), Lev(a', b') + if a[|a| - 1] == b[|b| - 1] then 0 else 1)
  }

  // ----- What the number means: the cheapest edit script.

  datatype Edit = Keep | Replace(c: char) | Insert(c: char) | Delete

  function Cost(script: seq<Edit>): nat {
    if script == [] then 0 else Cost(script[..|script| - 1]) + if script[|script| - 1] == Keep then 0 else 1
  }

  /** The script turns a into b, edit by edit from the left; unfolded from the right. */
  predicate Turns(script: seq<Edit>, a: string, b: string) {
    if script == [] then a == "" && b == ""
    else
      var front := script[..|script| - 1];
      match script[|script| - 1]
      case Keep => a != "" && b != "" && a[|a| - 1] == b[|b| - 1] && Turns(front, a[..|a| - 1], b[..|b| - 1])
      case Replace(c) => a != "" && b != "" && b[|b| - 1] == c && Turns(front, a[..|a| - 1], b[..|b| - 1])
      case Insert(c) => b != "" && b[|b| - 1] == c && Turns(front, a, b[..|b| - 1])
      case Delete => a != "" && Turns(front, a[..|a| - 1], b)
  }

  /** No script is cheaper than the distance. */
  lemma {:induction false} LevIsLowerBound(script: seq<Edit>, a: string, b: string)
    requires Turns(script, a, b)
    ensures Lev(a, b) <= Cost(script)
  {
    if script != [] {
      var front := script[..|script| - 1];
      match script[|script| - 1]
      case Keep => LevIsLowerBound(front, a[..|a| - 1], b[..|b| - 1]);
      case Replace(c) => LevIsLowerBound(front, a[..|a| - 1], b[..|b| - 1]);
      case Insert(c) => LevIsLowerBound(front, a, b[..|b| - 1]);
      case Delete => LevIsLowerBound(front, a[..|a| - 1], b);
    }
  }

  function Extended(script: seq<Edit>, e: Edit): seq<Edit> {
    script + [e]
  }

  /** Some script costs exactly the distance. */
  lemma {:induction false} CheapestScript(a: string, b: string) returns (script: seq<Edit>)
    ensures Turns(script, a, b) && Cost(script) == Lev(a, b)
    decreases |a| + |b|
  {
    if a == "" && b == "" {
      return [];
    }
    var front, last;
    if a == "" || (b != "" && Lev(a, b) == Lev(a, b[..|b| - 1]) + 1) {
      front := CheapestScript(a, b[..|b| - 1]);
      last := Insert(b[|b| - 1]);
    } else if b == "" || Lev(a, b) == Lev(a[..|a| - 1], b) + 1 {
      front := CheapestScript(a[..|a| - 1], b);
      last := Delete;
    } else {
      front := CheapestScript(a[..|a| - 1], b[..|b| - 1]);
      last := if a[|a| - 1] == b[|b| - 1] then Keep else Replace(b[|b| - 1]);
    }
    script := Extended(front, last);
  }

  lemma {:induction false} LevSymmetric(a: string, b: string)
    ensures Lev(a, b) == Lev(b, a)
    decreases |a| + |b|
  {
    if a != "" && b != "" {
      LevSymmetric(a[..|a| - 1], b);
      LevSymmetric(a, b[..|b| - 1]);
      LevSymmetric(a[..|a| - 1], b[..|b| - 1]);
    }
  }

  lemma {:induction false} LevAtLeastLengthGap(a: string, b: string)
    ensures Lev(a, b) >= |a| - |b| && Lev(a, b) >= |b| - |a|
    decreases |a| + |b|
  {
    if a != "" && b != "" {
      LevAtLeastLengthGap(a[..|a| - 1], b);
      LevAtLeastLengthGap(a, b[..|b| - 1]);
      LevAtLeastLengthGap(a[..|a| - 1], b[..|b| - 1]);
    }
  }

  lemma {:induction false} LevZeroIffEqual(a: string, b: string)
    ensures Lev(a, b) == 0 <==> a == b
    decreases |a| + |b|
  {
    if a != "" && b != "" {
      LevZeroIffEqual(a[..|a| - 1], b[..|b| - 1]);
      assert a == a[..|a| - 1] + [a[|a| - 1]] && b == b[..|b| - 1] + [b[|b| - 1]];
    }
  }

  /** The two-row loop. */
  method Distance(left: string, right: string) returns (d: nat)
    ensures d == if |left| > |right| + 1 || |right| > |left| + 1 then 9 else Lev(left, right)
  {
    if |left| > |right| + 1 || |right| > |left| + 1 {
      return TOO_FAR;
    }
    var previous: seq<nat> := seq(|right| + 1, (j: nat) => j);
    EdgeCells(left, right);
    for i := 0 to |left|
      invariant Row(previous, left, right, i, |right|)
    {
      var current: seq<nat> := [i + 1];
      for j := 0 to |right|
        invariant Row(current, left, right, i + 1, j)
      {
        CellStep(left, right, i, j);
        var replaced := previous[j] + if left[i] != right[j] then 1 else 0;
        current := current + [Min(Min(previous[j + 1] + 1, current[j] + 1), replaced)];
      }
      previous := current;
    }
    d := previous[|previous| - 1];
  }

  /** One cell of the table: the distance between two prefixes. */
  ghost function Cell(left: string, right: string, i: nat, j: nat): nat
    requires i <= |left| && j <= |right|
  {
    Lev(left[..i], right[..j])
  }

  /** Row i of the table, filled up to column n. */
  ghost predicate Row(row: seq<nat>, left: string, right: string, i: nat, n: nat)
    requires i <= |left| && n <= |right|
  {
    |row| == n + 1 && forall j :: 0 <= j <= n ==> row[j] == Cell(left, right, i, j)
  }

  lemma EdgeCells(left: string, right: string)
    ensures forall j :: 0 <= j <= |right| ==> Cell(left, right, 0, j) == j
    ensures forall i :: 0 <= i <= |left| ==> Cell(left, right, i, 0) == i
    ensures Cell(left, right, |left|, |right|) == Lev(left, right)
  {
    assert left[..|left|] == left && right[..|right|] == right;
  }

  lemma CellStep(left: string, right: string, i: nat, j: nat)
    requires i < |left| && j < |right|
    ensures Cell(left, right, i + 1, j + 1) ==
      Min(Min(Cell(left, right, i, j + 1) + 1, Cell(left, right, i + 1, j) + 1),
          Cell(left, right, i, j) + if left[i] != right[j] then 1 else 0)
  {
    assert left[..i + 1][..i] == left[..i] && right[..j + 1][..j] == right[..j];
  }

  // ----- The surname index.

  datatype BucketKey = BucketKey(prefix: string, length: nat)

  function Prefix(s: string): string {
    if |s| < 2 then s else s[..2]
  }

  function KeyOf(s: string): BucketKey {
    BucketKey(Prefix(s), |s|)
  }

  function AllowedGap(query: string): nat {
    if |query| < 6 then 0 else 1
  }

  /** What scanning every surname would accept: no index, no length window, no cut-off distance. */
  predicate Accepts(query: string, other: string) {
    query != "" && Prefix(other) == Prefix(query) && Lev(query, other) <= AllowedGap(query)
  }

  lemma AcceptsShortOnlyEqual(query: string, other: string)
    requires |query| < 6
    ensures Accepts(query, other) <==> query != "" && other == query
  {
    LevZeroIffEqual(query, other);
  }

  /** The name itself, or, from six characters on, one with the same two first characters at one edit. */
  predicate Close(query: string, other: string) {
    && query != ""
    && (other == query
        || (|query| >= 6 && |other| >= 2 && other[0] == query[0] && other[1] == query[1] && Lev(query, other) == 1))
  }

  lemma AcceptsMeaning(query: string, other: string)
    ensures Accepts(query, other) <==> Close(query, other)
  {
    LevZeroIffEqual(query, other);
    if |query| >= 2 && |other| >= 2 {
      assert other[..2] == query[..2] <==> other[0] == query[0] && other[1] == query[1] by {
        assert other[..2] == [other[0], other[1]] && query[..2] == [query[0], query[1]];
      }
    }
  }

  ghost predicate Distinct<T>(s: seq<T>) {
    forall i, j :: 0 <= i < j < |s| ==> s[i] != s[j]
  }

  function BucketOf(buckets: map<BucketKey, seq<string>>, k: BucketKey): seq<string> {
    if k in buckets then buckets[k] else []
  }

  /** The bucket lists, once each, the surnames with its first two characters and its length. */
  ghost predicate BucketRight(bucket: seq<string>, surnames: seq<string>, k: BucketKey) {
    Distinct(bucket) && forall s :: s in bucket <==> s in surnames && KeyOf(s) == k
  }

  ghost predicate Indexes(buckets: map<BucketKey, seq<string>>, surnames: seq<string>) {
    forall k :: BucketRight(BucketOf(buckets, k), surnames, k)
  }

  method BuildBuckets(surnames: seq<string>) returns (buckets: map<BucketKey, seq<string>>)
    requires Distinct(surnames)
    ensures Indexes(buckets, surnames)
  {
    buckets := map[];
    for i := 0 to |surnames|
      invariant Indexes(buckets, surnames[..i])
    {
      var s, k := surnames[i], KeyOf(surnames[i]);
      ghost var was := buckets;
      buckets := buckets[k := BucketOf(buckets, k) + [s]];
      assert surnames[..i + 1] == surnames[..i] + [s];
      forall k' ensures BucketRight(BucketOf(buckets, k'), surnames[..i + 1], k') {
        assert BucketRight(BucketOf(was, k'), surnames[..i], k');
      }
    }
    assert surnames[..|surnames|] == surnames;
  }

  /** The surnames within reach of the query, with their distances. */
  method Reachable(query: string, buckets: map<BucketKey, seq<string>>, ghost surnames: seq<string>)
      returns (found: seq<(string, nat)>)
    requires Indexes(buckets, surnames)
    ensures forall other, gap ::
        (other, gap) in found <==> other in surnames && Accepts(query, other) && gap == Lev(query, other)
    ensures forall other, gap ::
        (other, gap) in found <==> other in surnames && Close(query, other) && gap == Lev(query, other)
    ensures Distinct(found)
  {
    found := [];
    forall other ensures Accepts(query, other) <==> Close(query, other) {
      AcceptsMeaning(query, other);
    }
    if query == "" {
      return;
    }
    var pool := Pool(query, buckets, surnames);
    for i := 0 to |pool|
      invariant FoundIn(found, query, pool[..i])
    {
      var other := pool[i];
      assert other in pool;
      var gap := Gap(query, other);
      if gap <= AllowedGap(query) {
        found := found + [(other, gap)];
      }
    }
    assert pool[..|pool|] == pool;
    NothingLost(found, query, pool, surnames);
  }

  /** A surname outside the three lengths is too far away to be accepted. */
  lemma NothingLost(found: seq<(string, nat)>, query: string, pool: seq<string>, surnames: seq<string>)
    requires FoundIn(found, query, pool) && query != ""
    requires forall s :: s in pool <==> s in surnames && Prefix(s) == Prefix(query) && |query| - 1 <= |s| <= |query| + 1
    ensures forall other, gap ::
        (other, gap) in found <==> other in surnames && Accepts(query, other) && gap == Lev(query, other)
  {
    forall other | other in surnames && Accepts(query, other) ensures other in pool {
      LevAtLeastLengthGap(query, other);
    }
  }

  ghost predicate FoundIn(found: seq<(string, nat)>, query: string, pool: seq<string>) {
    && Distinct(found)
    && forall other, gap :: (other, gap) in found <==> other in pool && gap == Lev(query, other) <= AllowedGap(query)
  }

  /** Equal names need no table. */
  method Gap(query: string, other: string) returns (gap: nat)
    requires |query| <= |other| + 1 && |other| <= |query| + 1
    ensures gap == Lev(query, other)
  {
    LevZeroIffEqual(query, other);
    gap := 0;
    if other != query {
      gap := Distance(query, other);
    }
  }

  /** The surnames of the same prefix whose length differs by at most one. */
  method Pool(query: string, buckets: map<BucketKey, seq<string>>, ghost surnames: seq<string>)
      returns (pool: seq<string>)
    requires Indexes(buckets, surnames) && query != ""
    ensures Distinct(pool)
    ensures forall s :: s in pool <==> s in surnames && Prefix(s) == Prefix(query) && |query| - 1 <= |s| <= |query| + 1
    ensures |query| >= 2 ==> forall s :: s in pool ==> |s| >= 2 && s[0] == query[0] && s[1] == query[1]
  {
    var a := BucketOf(buckets, BucketKey(Prefix(query), |query| - 1));
    var b := BucketOf(buckets, BucketKey(Prefix(query), |query|));
    var c := BucketOf(buckets, BucketKey(Prefix(query), |query| + 1));
    assert BucketRight(a, surnames, BucketKey(Prefix(query), |query| - 1));
    assert BucketRight(b, surnames, BucketKey(Prefix(query), |query|));
    assert BucketRight(c, surnames, BucketKey(Prefix(query), |query| + 1));
    DistinctJoin(a, b);
    DistinctJoin(a + b, c);
    pool := a + b + c;
    forall s | s in pool && |query| >= 2 ensures |s| >= 2 && s[0] == query[0] && s[1] == query[1] {
      assert |Prefix(s)| == 2 && Prefix(s)[0] == s[0] && Prefix(s)[1] == s[1];
    }
  }

  lemma DistinctJoin<T>(a: seq<T>, b: seq<T>)
    requires Distinct(a) && Distinct(b) && forall x :: x in a ==> x !in b
    ensures Distinct(a + b)
  {
    forall i, j | 0 <= i < j < |a + b| ensures (a + b)[i] != (a + b)[j] {
      if i < |a| <= j {
        assert a[i] in a && b[j - |a|] in b;
      }
    }
  }
}
