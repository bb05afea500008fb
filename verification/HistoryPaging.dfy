/** Scanning an event's snapshots page by page while the database times out at will. */
module HistoryPaging {
  import opened Options
  import opened Sequences
  import opened Keyset

  const SMALLEST_PAGE := 100
  const LARGEST_PAGE := 500

  datatype Target = Point | Game | Set

  datatype Snapshot = Snapshot(id: nat, eventId: nat, observedAt: int, sport: string, live: bool)

  datatype Event = Event(id: nat, firstSeenAt: int)

  datatype Cursor = Cursor(observedAt: int, id: nat)

  datatype IndexRow = IndexRow(snapshot: Snapshot, labels: set<Target>)

  datatype Scanned = Scanned(count: nat, index: seq<IndexRow>, aligned: map<Target, nat>, retries: nat, pageSize: nat)

  /** ORDER BY observed_at, id; ids are unique. */
  predicate Before(a: Snapshot, b: Snapshot) {
    a.observedAt < b.observedAt || (a.observedAt == b.observedAt && a.id < b.id)
  }

  predicate InScope(r: Snapshot, e: Event, cutoff: int) {
    r.eventId == e.id && r.sport == "tennis" && r.live && e.firstSeenAt <= r.observedAt <= cutoff
  }

  predicate Behind(r: Snapshot, cursor: Option<Cursor>) {
    || cursor.None?
    || r.observedAt > cursor.value.observedAt
    || (r.observedAt == cursor.value.observedAt && r.id > cursor.value.id)
  }

  function SnapshotPage(rows: seq<Snapshot>, e: Event, cutoff: int, cursor: Option<Cursor>, limit: nat): seq<Snapshot> {
    Limit(Select(rows, r => InScope(r, e, cutoff) && Behind(r, cursor)), limit)
  }

  /** Every snapshot of the event inside the time bounds. */
  function Scope(rows: seq<Snapshot>, e: Event, cutoff: int): seq<Snapshot> {
    Select(rows, r => InScope(r, e, cutoff))
  }

  function CursorAt(scope: seq<Snapshot>, k: nat): Option<Cursor>
    requires k <= |scope|
  {
    if k == 0 then None else Some(Cursor(scope[k - 1].observedAt, scope[k - 1].id))
  }

  lemma PageAt(rows: seq<Snapshot>, e: Event, cutoff: int, k: nat, limit: nat)
    requires Ordered(rows, Before) && k <= |Scope(rows, e, cutoff)|
    ensures var scope := Scope(rows, e, cutoff);
      var page := SnapshotPage(rows, e, cutoff, CursorAt(scope, k), limit);
      NextPart(scope, k, page, limit)
  {
    var keep := r => InScope(r, e, cutoff);
    var scope, cursor := Scope(rows, e, cutoff), CursorAt(Scope(rows, e, cutoff), k);
    var both := r => InScope(r, e, cutoff) && Behind(r, cursor);
    Resumes(rows, keep, Before, k, both);
  }

  // ---- the adaptive limit -------------------------------------------------------------

  function Halve(limit: nat): nat {
    if limit / 2 < SMALLEST_PAGE then SMALLEST_PAGE else limit / 2
  }

  function StartSize(pageSize: nat): nat {
    if pageSize < LARGEST_PAGE then pageSize else LARGEST_PAGE
  }

  /** The page size after n timeouts. */
  function Halved(limit: nat, n: nat): nat {
    if n == 0 then limit else Halve(Halved(limit, n - 1))
  }

  function Timeouts(database: nat -> Attempt, asked: nat): nat {
    if asked == 0 then 0 else Timeouts(database, asked - 1) + if database(asked - 1).Timeout? then 1 else 0
  }

  /** The page size for query number `asked`, or None once an earlier query has ended the scan with an error. */
  function SizeFor(database: nat -> Attempt, start: nat, asked: nat): Option<nat> {
    if asked == 0 then Some(start)
    else
      var before := SizeFor(database, start, asked - 1);
      if before.None? then None else AfterQuery(before.value, database(asked - 1))
  }

  function AfterQuery(limit: nat, a: Attempt): Option<nat> {
    match a
    case Answer => Some(limit)
    case Failure => None
    case Timeout => if limit <= SMALLEST_PAGE then None else Some(Halve(limit))
  }

  /**
   The sizes follow from the number of timeouts alone; a scan that lives on has met no failure and at
   most three timeouts.
   */
  lemma {:induction false} SizesHalve(database: nat -> Attempt, start: nat, asked: nat)
    requires 1 <= start <= LARGEST_PAGE && SizeFor(database, start, asked).Some?
    ensures var n := Timeouts(database, asked);
      && n <= 3 && SizeFor(database, start, asked) == Some(Halved(start, n))
      && 1 <= Halved(start, n) <= start && (n == 0 || Halved(start, n - 1) > SMALLEST_PAGE)
    ensures forall i :: 0 <= i < asked ==> !database(i).Failure?
    ensures var n := Timeouts(database, asked);
      && (n == 0 ==> SizeFor(database, start, asked) == Some(start))
      && (n == 1 ==> SizeFor(database, start, asked) == Some(if start < 200 then 100 else start / 2))
      && (n == 2 ==> SizeFor(database, start, asked) == Some(if start < 400 then 100 else start / 4))
      && (n == 3 ==> SizeFor(database, start, asked) == Some(100))
  {
    HalvedSizes(start);
    if asked > 0 {
      SizesHalve(database, start, asked - 1);
      FewHalvings(start, Timeouts(database, asked));
    }
  }

  lemma HalvedSizes(start: nat)
    requires 1 <= start <= LARGEST_PAGE
    ensures Halved(start, 1) == if start < 200 then 100 else start / 2
    ensures start >= 100 ==> Halved(start, 2) == if start < 400 then 100 else start / 4
    ensures start >= 100 ==> Halved(start, 3) == 100
    ensures start < 100 ==> Halved(start, 2) == Halved(start, 3) == 100
  {
    assert Halved(start, 1) == Halve(start);
    assert Halved(start, 2) == Halve(Halved(start, 1)) && Halved(start, 3) == Halve(Halved(start, 2));
  }

  /** A halving only happens above the smallest size, so there are at most three. */
  lemma {:induction false} FewHalvings(start: nat, n: nat)
    requires 1 <= start <= LARGEST_PAGE && (n == 0 || Halved(start, n - 1) > SMALLEST_PAGE)
    ensures n <= 3 && 1 <= Halved(start, n) <= start
  {
    if n > 0 {
      FewHalvings(start, n - 1);
    }
  }

  /** Repeats one page query with a smaller limit after each timeout. None: the error is passed on. */
  method BoundedRead(rows: seq<Snapshot>, e: Event, cutoff: int, cursor: Option<Cursor>, limit: nat,
                     database: nat -> Attempt, ghost start: nat, asked: nat)
    returns (page: Option<seq<Snapshot>>, limit': nat, retries: nat)
    requires limit >= 1 && SizeFor(database, start, asked) == Some(limit)
    ensures page.Some? ==> page.value == SnapshotPage(rows, e, cutoff, cursor, limit') && limit' >= 1
    ensures page.Some? ==> SizeFor(database, start, asked + retries + 1) == Some(limit')
    ensures page.None? ==>
        SizeFor(database, start, asked + retries).Some? && SizeFor(database, start, asked + retries + 1).None?
    ensures Timeouts(database, asked + retries) == Timeouts(database, asked) + retries
    ensures page.Some? ==> database(asked + retries).Answer?
  {
    limit', retries := limit, 0;
    while true
      invariant limit' >= 1 && SizeFor(database, start, asked + retries) == Some(limit')
      invariant Timeouts(database, asked + retries) == Timeouts(database, asked) + retries
      decreases limit'
    {
      match database(asked + retries) {
        case Answer =>
          page := Some(SnapshotPage(rows, e, cutoff, cursor, limit'));
          return;
        case Failure =>
          page := None;
          return;
        case Timeout =>
          if limit' <= SMALLEST_PAGE {
            page := None;
            return;
          }
          limit', retries := Halve(limit'), retries + 1;
      }
    }
  }

  // ---- what the scan writes -----------------------------------------------------------

  /** The rows of the index file: one for each snapshot that some label aligns with, in scan order. */
  function Index(rows: seq<Snapshot>, labels: Snapshot -> set<Target>): seq<IndexRow> {
    if rows == [] then []
    else
      var last := rows[|rows| - 1];
      Index(rows[..|rows| - 1], labels) + if labels(last) == {} then [] else [IndexRow(last, labels(last))]
  }

  function Aligned(rows: seq<Snapshot>, labels: Snapshot -> set<Target>, t: Target): nat {
    if rows == [] then 0
    else Aligned(rows[..|rows| - 1], labels, t) + if t in labels(rows[|rows| - 1]) then 1 else 0
  }

  /** `got` is what one pass over `rows` reports. */
  ghost predicate Reports(got: Scanned, rows: seq<Snapshot>, labels: Snapshot -> set<Target>) {
    && got.count == |rows| && got.index == Index(rows, labels)
    && got.aligned.Keys == {Point, Game, Set}
    && forall t: Target :: t in got.aligned ==> got.aligned[t] == Aligned(rows, labels, t)
  }

  function Visit(got: Scanned, row: Snapshot, labels: set<Target>): Scanned {
    got.(count := got.count + 1,
         index := if labels == {} then got.index else got.index + [IndexRow(row, labels)],
         aligned := map t | t in got.aligned :: got.aligned[t] + if t in labels then 1 else 0)
  }

  /** The first k rows in scope are reported and the cursor stands on the last of them. */
  ghost predicate ReadTo(scope: seq<Snapshot>, k: nat, cursor: Option<Cursor>, got: Scanned,
      labels: Snapshot -> set<Target>) {
    k <= |scope| && cursor == CursorAt(scope, k) && Reports(got, scope[..k], labels)
  }

  lemma ReadOn(scope: seq<Snapshot>, k: nat, got: Scanned, labels: Snapshot -> set<Target>, page: seq<Snapshot>)
    requires page != [] && k + |page| <= |scope| && page == scope[k..k + |page|] &&
        Reports(got, scope[..k] + page, labels)
    ensures ReadTo(scope, k + |page|, Some(Cursor(page[|page| - 1].observedAt, page[|page| - 1].id)), got, labels)
  {
    assert scope[..k + |page|] == scope[..k] + page;
  }

  lemma ReadAll(scope: seq<Snapshot>, k: nat, cursor: Option<Cursor>, got: Scanned, labels: Snapshot -> set<Target>)
    requires ReadTo(scope, k, cursor, got, labels) && k == |scope|
    ensures Reports(got, scope, labels)
  {
    assert scope[..k] == scope;
  }

  lemma VisitReports(got: Scanned, rows: seq<Snapshot>, labels: Snapshot -> set<Target>, row: Snapshot)
    requires Reports(got, rows, labels)
    ensures Reports(Visit(got, row, labels(row)), rows + [row], labels)
  {
    assert (rows + [row])[..|rows|] == rows;
  }

  /** The rows of one page are visited in order and the cursor moves behind the last of them. */
  method VisitPage(got: Scanned, page: seq<Snapshot>, labels: Snapshot -> set<Target>, ghost scope: seq<Snapshot>,
      ghost k: nat, cursor: Option<Cursor>)
    returns (got': Scanned, cursor': Option<Cursor>)
    requires ReadTo(scope, k, cursor, got, labels) && page != [] && k + |page| <= |scope| &&
        page == scope[k..k + |page|]
    ensures ReadTo(scope, k + |page|, cursor', got', labels) && got'.retries == got.retries &&
        got'.pageSize == got.pageSize
  {
    got' := got;
    ghost var before := scope[..k];
    assert before + page[..0] == before;
    for i := 0 to |page|
      invariant Reports(got', before + page[..i], labels) && got'.retries == got.retries &&
          got'.pageSize == got.pageSize
    {
      assert before + page[..i + 1] == before + page[..i] + [page[i]];
      VisitReports(got', before + page[..i], labels, page[i]);
      got' := Visit(got', page[i], labels(page[i]));
    }
    assert page[..|page|] == page;
    var last := page[|page| - 1];
    cursor' := Some(Cursor(last.observedAt, last.id));
    ReadOn(scope, k, got', labels, page);
  }

  /** Where the scan stands: k rows reported, and a page size that fits the queries asked so far. */
  ghost predicate Reading(scope: seq<Snapshot>, k: nat, cursor: Option<Cursor>, got: Scanned,
      labels: Snapshot -> set<Target>, database: nat -> Attempt, start: nat, asked: nat) {
    && ReadTo(scope, k, cursor, got, labels)
    && SizeFor(database, start, asked) == Some(got.pageSize) && got.pageSize >= 1
         && got.retries == Timeouts(database, asked)
  }

  method ReadPage(rows: seq<Snapshot>, e: Event, cutoff: int, database: nat -> Attempt, ghost start: nat,
                  cursor: Option<Cursor>, size: nat, asked: nat, ghost scope: seq<Snapshot>, ghost k: nat)
    returns (page: Option<seq<Snapshot>>, limit: nat, retries: nat)
    requires Ordered(rows, Before) && scope == Scope(rows, e, cutoff) && k <= |scope| && cursor == CursorAt(scope, k)
    requires size >= 1 && SizeFor(database, start, asked) == Some(size)
    ensures page.Some? ==> NextPart(scope, k, page.value, limit) && limit >= 1
    ensures page.Some? ==> SizeFor(database, start, asked + retries + 1) == Some(limit)
    ensures page.Some? ==> Timeouts(database, asked + retries + 1) == Timeouts(database, asked) + retries
    ensures page.None? ==>
        SizeFor(database, start, asked + retries).Some? && SizeFor(database, start, asked + retries + 1).None?
    ensures Timeouts(database, asked + retries) == Timeouts(database, asked) + retries
  {
    page, limit, retries := BoundedRead(rows, e, cutoff, cursor, size, database, start, asked);
    PageAt(rows, e, cutoff, k, limit);
  }

  /** What a page adds: its rows are visited, and no further page is asked for after an empty or a short one. */
  method TakePage(page: seq<Snapshot>, limit: nat, retries: nat, labels: Snapshot -> set<Target>,
      cursor: Option<Cursor>, was: Scanned, ghost scope: seq<Snapshot>, ghost k: nat)
    returns (more: bool, cursor': Option<Cursor>, got: Scanned, ghost k': nat)
    requires ReadTo(scope, k, cursor, was, labels) && NextPart(scope, k, page, limit) && limit >= 1
    ensures ReadTo(scope, k', cursor', got, labels) && k' <= |scope| && if more then k' > k else k' == |scope|
    ensures got.retries == was.retries + retries && got.pageSize == limit
  {
    cursor', got, k' := cursor, was, k + |page|;
    if page != [] {
      got, cursor' := VisitPage(was, page, labels, scope, k, cursor);
    }
    more := page != [] && |page| >= limit;
    got := got.(retries := was.retries + retries, pageSize := limit);
  }

  /** One page more, or the error that ended the scan. */
  method NextPage(rows: seq<Snapshot>, e: Event, cutoff: int, labels: Snapshot -> set<Target>, database: nat -> Attempt,
      ghost start: nat, cursor: Option<Cursor>, was: Scanned, asked: nat, ghost scope: seq<Snapshot>, ghost k: nat)
    returns (ok: bool, more: bool, cursor': Option<Cursor>, got: Scanned, asked': nat, ghost k': nat)
    requires Ordered(rows, Before) && scope == Scope(rows, e, cutoff) &&
        Reading(scope, k, cursor, was, labels, database, start, asked)
    ensures ok ==> Reading(scope, k', cursor', got, labels, database, start, asked')
    ensures ok ==> k' <= |scope| && if more then k' > k else k' == |scope|
    ensures ok ==> asked' - got.retries == asked - was.retries + 1
    ensures !ok ==> asked' > 0 && SizeFor(database, start, asked' - 1).Some? && SizeFor(database, start, asked').None?
    ensures !ok ==> asked' - 1 - Timeouts(database, asked' - 1) == asked - was.retries
  {
    var page, limit, retries := ReadPage(rows, e, cutoff, database, start, cursor, was.pageSize, asked, scope, k);
    ok, more, cursor', got, asked', k' := page.Some?, false, cursor, was, asked + retries + 1, k;
    if ok {
      more, cursor', got, k' := TakePage(page.value, limit, retries, labels, cursor, was, scope, k);
    }
  }

  /**
   The paging loop: whatever times out, the report is that of one pass over all snapshots in scope, after
   at most a query for every row, one more, and three repeated ones.
   */
  method ScanEvent(rows: seq<Snapshot>, e: Event, cutoff: int, pageSize: nat, labels: Snapshot -> set<Target>,
      database: nat -> Attempt)
    returns (o: Option<Scanned>, asked: nat)
    requires Ordered(rows, Before) && 1 <= pageSize
    ensures o.Some? ==> Reports(o.value, Scope(rows, e, cutoff), labels)
    ensures o.Some? ==> o.value.retries == Timeouts(database, asked) <= 3
    ensures o.Some? ==> SizeFor(database, StartSize(pageSize), asked) == Some(o.value.pageSize)
    ensures o.None? ==> asked > 0 && SizeFor(database, StartSize(pageSize), asked - 1).Some?
    ensures o.None? ==> SizeFor(database, StartSize(pageSize), asked).None?
    ensures o.None? ==> !database(asked - 1).Answer?
    ensures o.None? && database(asked - 1).Timeout? ==>
        SizeFor(database, StartSize(pageSize), asked - 1).value <= 100
    ensures StartSize(pageSize) == if pageSize < 500 then pageSize else 500
    ensures o.Some? ==> ScanOf(o.value, rows, e, cutoff, labels)
    ensures asked <= |Scope(rows, e, cutoff)| + 4
  {
    var start := StartSize(pageSize);
    var got := Scanned(0, [], map[Point := 0, Game := 0, Set := 0], 0, start);
    var cursor: Option<Cursor> := None;
    asked := 0;
    ghost var scope: seq<Snapshot>, k: nat := Scope(rows, e, cutoff), 0;
    var more := true;
    while more
      invariant k <= |scope| && Reading(scope, k, cursor, got, labels, database, start, asked)
      invariant !more ==> k == |scope|
      invariant asked <= k + got.retries + if more then 0 else 1
      decreases more, |scope| - k
    {
      var ok;
      ok, more, cursor, got, asked, k :=
        NextPage(rows, e, cutoff, labels, database, start, cursor, got, asked, scope, k);
      if !ok {
        SizesHalve(database, start, asked - 1);
        return None, asked;
      }
    }
    ScanEnds(scope, k, cursor, got, labels, database, start, asked);
    ScanMeaning(got, rows, e, cutoff, labels);
    o := Some(got);
  }

  /** The live tennis snapshots of the event from its first sighting to the cutoff, as far as they are picked. */
  function Live(rows: seq<Snapshot>, e: Event, cutoff: int, picked: Snapshot -> bool): seq<Snapshot> {
    Select(rows, (r: Snapshot) =>
      r.eventId == e.id && r.sport == "tennis" && r.live && e.firstSeenAt <= r.observedAt && r.observedAt <= cutoff
      && picked(r))
  }

  /** The report on the fields: all snapshots counted, the labelled ones listed in order, and each label counted. */
  ghost predicate ScanOf(got: Scanned, rows: seq<Snapshot>, e: Event, cutoff: int, labels: Snapshot -> set<Target>) {
    var listed := Live(rows, e, cutoff, r => labels(r) != {});
    && got.count == |Live(rows, e, cutoff, r => true)|
    && |got.index| == |listed|
    && (forall i :: 0 <= i < |listed| ==> got.index[i] == IndexRow(listed[i], labels(listed[i])))
    && forall t: Target :: t in got.aligned && got.aligned[t] == |Live(rows, e, cutoff, r => t in labels(r))|
  }

  lemma LiveScope(rows: seq<Snapshot>, e: Event, cutoff: int, picked: Snapshot -> bool)
    ensures Live(rows, e, cutoff, picked) == Select(Scope(rows, e, cutoff), picked)
  {
    SelectBoth(rows, r => InScope(r, e, cutoff), picked, (r: Snapshot) =>
      r.eventId == e.id && r.sport == "tennis" && r.live && e.firstSeenAt <= r.observedAt && r.observedAt <= cutoff
      && picked(r));
  }

  lemma {:induction false} IndexMeaning(rows: seq<Snapshot>, labels: Snapshot -> set<Target>)
    ensures var listed := Select(rows, r => labels(r) != {});
      && |Index(rows, labels)| == |listed|
      && forall i :: 0 <= i < |listed| ==> Index(rows, labels)[i] == IndexRow(listed[i], labels(listed[i]))
  {
    if rows != [] {
      var front, last := rows[..|rows| - 1], rows[|rows| - 1];
      IndexMeaning(front, labels);
      assert rows == front + [last];
      SelectAppend(front, [last], r => labels(r) != {});
      SelectOne(last, r => labels(r) != {});
    }
  }

  lemma {:induction false} AlignedMeaning(rows: seq<Snapshot>, labels: Snapshot -> set<Target>, t: Target)
    ensures Aligned(rows, labels, t) == |Select(rows, r => t in labels(r))|
  {
    if rows != [] {
      var front, last := rows[..|rows| - 1], rows[|rows| - 1];
      AlignedMeaning(front, labels, t);
      assert rows == front + [last];
      SelectAppend(front, [last], r => t in labels(r));
      SelectOne(last, r => t in labels(r));
    }
  }

  lemma {:induction false} SelectAll<T>(rows: seq<T>)
    ensures Select(rows, r => true) == rows
  {
    if rows != [] {
      SelectAll(rows[1..]);
      assert rows == [rows[0]] + rows[1..];
    }
  }

  lemma ScanMeaning(got: Scanned, rows: seq<Snapshot>, e: Event, cutoff: int, labels: Snapshot -> set<Target>)
    requires Reports(got, Scope(rows, e, cutoff), labels)
    ensures ScanOf(got, rows, e, cutoff, labels)
  {
    var scope := Scope(rows, e, cutoff);
    LiveScope(rows, e, cutoff, r => true);
    SelectAll(scope);
    LiveScope(rows, e, cutoff, r => labels(r) != {});
    IndexMeaning(scope, labels);
    forall t: Target ensures t in got.aligned && got.aligned[t] == |Live(rows, e, cutoff, r => t in labels(r))| {
      LiveScope(rows, e, cutoff, r => t in labels(r));
      AlignedMeaning(scope, labels, t);
      match t
      case Point => assert Point in got.aligned.Keys;
      case Game => assert Game in got.aligned.Keys;
      case Set => assert Set in got.aligned.Keys;
    }
  }

  lemma ScanEnds(scope: seq<Snapshot>, k: nat, cursor: Option<Cursor>, got: Scanned, labels: Snapshot -> set<Target>,
      database: nat -> Attempt, start: nat, asked: nat)
    requires 1 <= start <= LARGEST_PAGE && Reading(scope, k, cursor, got, labels, database, start, asked)
    requires k == |scope|
    ensures Reports(got, scope, labels) && got.retries == Timeouts(database, asked) <= 3
  {
    SizesHalve(database, start, asked);
    ReadAll(scope, k, cursor, got, labels);
  }
}
