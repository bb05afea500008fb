/** The walk-forward split of whole matches and the causal filter on training labels. */
module WalkForward {
  import opened Texts
  import opened Sorting

  /** A match and the time of its first forecast. */
  datatype Match = Match(id: string, time: int)

  predicate Before(a: Match, b: Match) {
    a.time < b.time || (a.time == b.time && TextLeq(a.id, b.id))
  }

  /** At an earlier time, or at the same time with the smaller id. */
  predicate Earlier(a: Match, b: Match) {
    a.time < b.time || (a.time == b.time && TextLess(a.id, b.id))
  }

  ghost predicate DistinctIds(s: seq<Match>) {
    forall i, j :: 0 <= i < j < |s| ==> s[i].id != s[j].id
  }

  /** Ordered by (time, id), no id twice. */
  ghost predicate Ordered(s: seq<Match>) {
    forall i, j :: 0 <= i < j < |s| ==> Before(s[i], s[j]) && s[i].id != s[j].id
  }

  /** sorted() by time and id. */
  function Order(s: seq<Match>): seq<Match> {
    Sort(s, Before)
  }

  predicate SameId(a: Match, b: Match) {
    a.id == b.id
  }

  lemma BeforeOrder()
    ensures TotalOrder(Before)
  {
    forall a: Match, b: Match ensures Before(a, b) || Before(b, a) {
      TextLeqTotal(a.id, b.id);
    }
    forall a, b, c | Before(a, b) && Before(b, c) ensures Before(a, c) {
      if a.time == b.time == c.time {
        TextLeqTransitive(a.id, b.id, c.id);
      }
    }
  }

  lemma BeforeAntisymmetric(a: Match, b: Match)
    requires Before(a, b) && Before(b, a)
    ensures a.id == b.id && a.time == b.time
  {
    TextLeqAntisymmetric(a.id, b.id);
  }

  lemma OrderOrders(s: seq<Match>)
    requires DistinctIds(s)
    ensures Ordered(Order(s)) && forall x :: x in Order(s) <==> x in s
  {
    BeforeOrder();
    SortAscends(s, Before);
    SortElements(s, Before);
    SortApart(s, Before, SameId);
    assert Apart(s, SameId);
  }

  lemma {:induction false} OrderedUnique(a: seq<Match>, b: seq<Match>)
    requires Ordered(a) && Ordered(b) && forall x :: x in a <==> x in b
    ensures a == b
  {
    assert a != [] ==> a[0] in a;
    assert b != [] ==> b[0] in b;
    if a != [] && b != [] {
      if a[0] != b[0] {
        BeforeAntisymmetric(a[0], b[0]);
      }
      assert a == [a[0]] + a[1..] && b == [b[0]] + b[1..];
      forall x ensures x in a[1..] <==> x in b[1..] {
        assert x in a <==> x == a[0] || x in a[1..];
        assert x in b <==> x == b[0] || x in b[1..];
      }
      OrderedUnique(a[1..], b[1..]);
    }
  }

  /** The order depends on the matches only, not on how they were listed. */
  lemma OrderIgnoresListing(s: seq<Match>, t: seq<Match>)
    requires DistinctIds(s) && DistinctIds(t) && forall x :: x in s <==> x in t
    ensures Order(s) == Order(t)
  {
    OrderOrders(s);
    OrderOrders(t);
    OrderedUnique(Order(s), Order(t));
  }

  // ----- The split.

  datatype Fold = Fold(number: nat, train: seq<Match>, validation: seq<Match>)

  datatype Split = Split(development: seq<Match>, holdout: seq<Match>, folds: seq<Fold>)

  /** round(m / 4): halves go to the even neighbour. */
  function RoundQuarter(m: nat): nat {
    var q, r := m / 4, m % 4;
    if r < 2 then q else if r == 3 then q + 1 else if q % 2 == 0 then q else q + 1
  }

  /** round(i * size / 4) for i from 0 to 4. */
  function Edges(size: nat): (edges: seq<nat>)
    ensures |edges| == 5
  {
    [RoundQuarter(0), RoundQuarter(size), RoundQuarter(2 * size), RoundQuarter(3 * size), RoundQuarter(4 * size)]
  }

  function HoldoutStart(n: nat): nat {
    n * 4 / 5
  }

  function InitialEnd(development: nat): nat {
    development * 3 / 5
  }

  lemma RoundQuarterMonotone(m: nat, n: nat)
    requires m <= n
    ensures RoundQuarter(m) <= RoundQuarter(n)
  {
  }

  /** The edges cut 0..size into four blocks, each within one of a quarter. */
  lemma EdgesPartition(size: nat)
    ensures Edges(size)[0] == 0 && Edges(size)[4] == size
    ensures forall i, j :: 0 <= i < 4 && j == i + 1 ==> Edges(size)[i] <= Edges(size)[j] <= size
    ensures forall i, j :: 0 <= i < 4 && j == i + 1 ==> size - 4 <= 4 * (Edges(size)[j] - Edges(size)[i]) <= size + 4
  {
    EdgesMeaning(size);
  }

  /** They are the quarters, rounded half to even. */
  lemma EdgesMeaning(size: nat)
    ensures var e := Edges(size);
      && 0 == e[0] <= e[1] <= e[2] <= e[3] <= e[4] == size
      && Nearest(e[1], size) && Nearest(e[2], 2 * size) && Nearest(e[3], 3 * size)
  {
    RoundQuarterMonotone(size, 2 * size);
    RoundQuarterMonotone(2 * size, 3 * size);
    RoundQuarterMonotone(3 * size, 4 * size);
    RoundQuarterError(size);
    RoundQuarterError(2 * size);
    RoundQuarterError(3 * size);
  }

  lemma RoundQuarterError(m: nat)
    ensures m - 2 <= 4 * RoundQuarter(m) <= m + 2 && Nearest(RoundQuarter(m), m)
  {
  }

  /** e is m / 4 rounded to the nearest whole number, a half to the even one. */
  predicate Nearest(e: nat, m: nat) {
    -2 <= 4 * e - m <= 2 && (4 * e - m == 2 || 4 * e - m == -2 ==> e % 2 == 0)
  }

  ghost predicate WellCut(cuts: seq<nat>, n: nat) {
    |cuts| == 5 && cuts[0] <= cuts[1] <= cuts[2] <= cuts[3] <= cuts[4] == n
  }

  /** The first block begins behind three fifths, rounded down; the blocks end at quarters of what is left. */
  ghost predicate RightCuts(c: seq<nat>, n: nat) {
    && WellCut(c, n) && 5 * c[0] <= 3 * n < 5 * (c[0] + 1)
    && var size := n - c[0];
       Nearest(c[1] - c[0], size) && Nearest(c[2] - c[0], 2 * size) && Nearest(c[3] - c[0], 3 * size)
  }

  /** Where the blocks begin and end in a development list of length n. */
  method Cuts(n: nat) returns (cuts: seq<nat>)
    ensures RightCuts(cuts, n)
  {
    var start := FirstCut(n);
    var e := QuarterEdges(n - start);
    cuts := [start + e[0], start + e[1], start + e[2], start + e[3], start + e[4]];
  }

  method FirstCut(n: nat) returns (start: nat)
    ensures 5 * start <= 3 * n < 5 * (start + 1)
  {
    start := InitialEnd(n);
    ThreeFifths(n);
  }

  method QuarterEdges(size: nat) returns (e: seq<nat>)
    ensures |e| == 5 && 0 == e[0] <= e[1] <= e[2] <= e[3] <= e[4] == size
    ensures Nearest(e[1], size) && Nearest(e[2], 2 * size) && Nearest(e[3], 3 * size)
  {
    e := Edges(size);
    EdgesMeaning(size);
  }

  lemma FourFifths(n: nat)
    ensures 5 * HoldoutStart(n) <= 4 * n < 5 * (HoldoutStart(n) + 1)
  {
  }

  lemma ThreeFifths(n: nat)
    ensures 5 * InitialEnd(n) <= 3 * n < 5 * (InitialEnd(n) + 1)
  {
  }

  /** Fold i trains on the whole development list in front of its validation block. */
  ghost predicate FoldOf(f: Fold, i: nat, cuts: seq<nat>, development: seq<Match>)
    requires WellCut(cuts, |development|) && i < 4
  {
    && f.number == i + 1 && cuts[i] <= cuts[i + 1] <= |development|
    && f.train == development[..cuts[i]] && f.validation == development[cuts[i]..cuts[i + 1]]
  }

  ghost predicate FoldsOf(folds: seq<Fold>, cuts: seq<nat>, development: seq<Match>)
    requires WellCut(cuts, |development|) && |folds| <= 4
  {
    forall i :: 0 <= i < |folds| ==> FoldOf(folds[i], i, cuts, development)
  }

  lemma OneMoreFold(folds: seq<Fold>, f: Fold, cuts: seq<nat>, development: seq<Match>)
    requires WellCut(cuts, |development|) && |folds| < 4
    requires FoldsOf(folds, cuts, development) && FoldOf(f, |folds|, cuts, development)
    ensures FoldsOf(folds + [f], cuts, development)
  {
  }

  ghost predicate SplitOf(s: Split, cuts: seq<nat>, ordered: seq<Match>) {
    && s.development + s.holdout == ordered && WellCut(cuts, |s.development|)
    && |s.folds| == 4 && FoldsOf(s.folds, cuts, s.development)
  }

  method SplitMatches(ordered: seq<Match>) returns (s: Split, ghost cuts: seq<nat>)
    ensures SplitOf(s, cuts, ordered) && RightCuts(cuts, |s.development|)
    ensures 5 * |s.development| <= 4 * |ordered| < 5 * (|s.development| + 1)
  {
    var end := HoldoutStart(|ordered|);
    FourFifths(|ordered|);
    var development, holdout := ordered[..end], ordered[end..];
    var blocks := Cuts(|development|);
    cuts := blocks;
    var folds := [];
    for i := 0 to 4
      invariant |folds| == i && FoldsOf(folds, blocks, development)
    {
      var f := Fold(i + 1, development[..blocks[i]], development[blocks[i]..blocks[i + 1]]);
      OneMoreFold(folds, f, blocks, development);
      folds := folds + [f];
    }
    s := Split(development, holdout, folds);
  }

  /**
   The four validation blocks make up the development tail, each fold trains on exactly what
   comes before its block, and no fold touches the holdout.
   */
  lemma SplitSound(s: Split, cuts: seq<nat>, ordered: seq<Match>)
    requires Ordered(ordered) && SplitOf(s, cuts, ordered)
    ensures s.folds[0].validation + s.folds[1].validation + s.folds[2].validation + s.folds[3].validation
        == s.development[cuts[0]..]
    ensures forall i :: 0 <= i < 4 ==> s.folds[i].train + s.folds[i].validation <= s.development
    ensures forall i, a, b :: 0 <= i < 4 && a in s.folds[i].train && b in s.folds[i].validation ==>
        Earlier(a, b) && a.id != b.id
    ensures forall i, a, h ::
        0 <= i < 4 && (a in s.folds[i].train || a in s.folds[i].validation) && h in s.holdout ==>
        Earlier(a, h) && a.id != h.id
  {
    var d := s.development;
    assert FoldOf(s.folds[0], 0, cuts, d) && FoldOf(s.folds[1], 1, cuts, d) && FoldOf(s.folds[2], 2, cuts, d)
        && FoldOf(s.folds[3], 3, cuts, d);
    FourBlocks(d, cuts);
    forall i | 0 <= i < 4
      ensures s.folds[i].train + s.folds[i].validation <= d
      ensures forall a, b :: a in s.folds[i].train && b in s.folds[i].validation ==> Earlier(a, b) && a.id != b.id
      ensures forall a, h :: (a in s.folds[i].train || a in s.folds[i].validation) && h in s.holdout ==>
          Earlier(a, h) && a.id != h.id
    {
      FoldInOrder(s.folds[i], i, cuts, d, s.holdout);
    }
  }

  lemma FourBlocks(d: seq<Match>, cuts: seq<nat>)
    requires WellCut(cuts, |d|)
    ensures d[cuts[0]..cuts[1]] + d[cuts[1]..cuts[2]] + d[cuts[2]..cuts[3]] + d[cuts[3]..cuts[4]] == d[cuts[0]..]
  {
  }

  lemma FoldInOrder(f: Fold, i: nat, cuts: seq<nat>, d: seq<Match>, holdout: seq<Match>)
    requires WellCut(cuts, |d|) && i < 4 && FoldOf(f, i, cuts, d) && Ordered(d + holdout)
    ensures f.train + f.validation <= d
    ensures forall a, b :: a in f.train && b in f.validation ==> Earlier(a, b) && a.id != b.id
    ensures forall a, h :: (a in f.train || a in f.validation) && h in holdout ==> Earlier(a, h) && a.id != h.id
  {
    FoldIsPrefix(f, i, cuts, d);
    forall a, b | a in f.train && b in f.validation ensures Earlier(a, b) && a.id != b.id {
      InFront(d + holdout, f.train, f.validation, a, b);
    }
    forall a, h | (a in f.train || a in f.validation) && h in holdout ensures Earlier(a, h) && a.id != h.id {
      InFront(d + holdout, d, holdout, a, h);
    }
  }

  lemma FoldIsPrefix(f: Fold, i: nat, cuts: seq<nat>, d: seq<Match>)
    requires WellCut(cuts, |d|) && i < 4 && FoldOf(f, i, cuts, d)
    ensures f.train + f.validation <= d
    ensures forall a :: a in f.train || a in f.validation ==> a in d
  {
    assert f.train + f.validation == d[..cuts[i + 1]];
  }

  lemma InFront(ordered: seq<Match>, front: seq<Match>, back: seq<Match>, a: Match, b: Match)
    requires Ordered(ordered) && front + back <= ordered && a in front && b in back
    ensures Earlier(a, b) && a.id != b.id
  {
    var i :| 0 <= i < |front| && front[i] == a;
    var j :| 0 <= j < |back| && back[j] == b;
    assert ordered[i] == (front + back)[i] && ordered[|front| + j] == (front + back)[|front| + j];
  }
}
