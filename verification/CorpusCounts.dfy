/** Counting two tables page by page, with a cursor and totals committed after every page. */
module CorpusCounts {
  import opened Options
  import opened Sequences
  import opened Keyset

  const SMALLEST_PAGE := 25

  /** A document or a parsed version; documents carry no source match. */
  datatype Row = Row(id: nat, retrievedAt: int, availableAt: Option<int>, sourceMatch: Option<string>)

  datatype Table = Documents | Versions

  datatype Totals = Totals(documents: nat, unknownDocuments: nat, parsedVersions: nat, unknownVersions: nat,
                           sourceMatches: nat, scannedDocuments: nat, scannedVersions: nat)

  datatype State = State(
    cutoff: int, table: Table, cursor: Option<nat>, totals: Totals, pageSize: Option<nat>, complete: bool)

  /** Raised: an error that is passed on. Died: the process ended before the counts were complete. */
  datatype Outcome = Complete(totals: Totals) | CutoffMismatch | Raised | Died

  predicate ById(a: Row, b: Row) {
    a.id < b.id
  }

  /** WHERE retrieved_at <= cutoff AND id > cursor: no cursor, no second condition. */
  predicate Wanted(r: Row, cutoff: int, cursor: Option<nat>) {
    r.retrievedAt <= cutoff && (cursor.None? || r.id > cursor.value)
  }

  /** One page of the query. */
  function Page(rows: seq<Row>, cutoff: int, cursor: Option<nat>, limit: nat): seq<Row> {
    Limit(Select(rows, r => Wanted(r, cutoff, cursor)), limit)
  }

  /** The rows a one-shot count looks at. */
  function Scope(rows: seq<Row>, cutoff: int): seq<Row> {
    Select(rows, (r: Row) => r.retrievedAt <= cutoff)
  }

  function UnknownIn(rows: seq<Row>): nat {
    if rows == [] then 0 else UnknownIn(rows[..|rows| - 1]) + if rows[|rows| - 1].availableAt.None? then 1 else 0
  }

  function AvailableBy(rows: seq<Row>, cutoff: int): nat {
    if rows == [] then 0
    else
      var last := rows[|rows| - 1];
      AvailableBy(rows[..|rows| - 1], cutoff) + if last.availableAt.Some?
          && last.availableAt.value <= cutoff then 1 else 0
  }

  function SourcesIn(rows: seq<Row>): set<string> {
    set r | r in rows && r.sourceMatch.Some? :: r.sourceMatch.value
  }

  lemma {:induction false} CountsAppend(a: seq<Row>, b: seq<Row>, cutoff: int)
    ensures UnknownIn(a + b) == UnknownIn(a) + UnknownIn(b)
    ensures AvailableBy(a + b, cutoff) == AvailableBy(a, cutoff) + AvailableBy(b, cutoff)
    ensures SourcesIn(a + b) == SourcesIn(a) + SourcesIn(b)
  {
    if b == [] {
      assert a + b == a;
    } else {
      var front := b[..|b| - 1];
      CountsAppend(a, front, cutoff);
      assert (a + b)[..|a + b| - 1] == a + front;
      assert b == front + [b[|b| - 1]];
      assert forall r :: r in a + b <==> r in a || r in b;
    }
  }

  /** What is counted: rows of unknown availability, rows available by the cutoff, different sources. */
  lemma {:induction false} CountsMeaning(rows: seq<Row>, cutoff: int)
    ensures UnknownIn(rows) == |Select(rows, (r: Row) => r.availableAt.None?)|
    ensures AvailableBy(rows, cutoff)
         == |Select(rows, (r: Row) => r.availableAt.Some? && r.availableAt.value <= cutoff)|
  {
    if rows != [] {
      var front, last := rows[..|rows| - 1], rows[|rows| - 1];
      CountsMeaning(front, cutoff);
      assert rows == front + [last];
      SelectAppend(front, [last], (r: Row) => r.availableAt.None?);
      SelectOne(last, (r: Row) => r.availableAt.None?);
      SelectAppend(front, [last], (r: Row) => r.availableAt.Some? && r.availableAt.value <= cutoff);
      SelectOne(last, (r: Row) => r.availableAt.Some? && r.availableAt.value <= cutoff);
    }
  }

  /** A count of the rows in scope, taken over the whole table. */
  lemma ScopeMeaning(rows: seq<Row>, cutoff: int)
    ensures |Scope(rows, cutoff)| == |Select(rows, (r: Row) => r.retrievedAt <= cutoff)|
    ensures UnknownIn(Scope(rows, cutoff))
         == |Select(rows, (r: Row) => r.retrievedAt <= cutoff && r.availableAt.None?)|
    ensures AvailableBy(Scope(rows, cutoff), cutoff)
         == |Select(rows, (r: Row) =>
              r.retrievedAt <= cutoff && r.availableAt.Some? && r.availableAt.value <= cutoff)|
    ensures SourcesIn(Scope(rows, cutoff))
         == set r | r in rows && r.retrievedAt <= cutoff && r.sourceMatch.Some? :: r.sourceMatch.value
  {
    var inScope := (r: Row) => r.retrievedAt <= cutoff;
    CountsMeaning(Scope(rows, cutoff), cutoff);
    SelectSame(rows, (r: Row) => r.retrievedAt <= cutoff, inScope);
    SelectMembers(rows, inScope);
    SelectBoth(rows, inScope, (r: Row) => r.availableAt.None?,
      (r: Row) => r.retrievedAt <= cutoff && r.availableAt.None?);
    SelectBoth(rows, inScope, (r: Row) => r.availableAt.Some? && r.availableAt.value <= cutoff,
      (r: Row) => r.retrievedAt <= cutoff && r.availableAt.Some? && r.availableAt.value <= cutoff);
  }

  /** The cursor of someone who has read the first k rows in scope. */
  function CursorAt(scope: seq<Row>, k: nat): Option<nat>
    requires k <= |scope|
  {
    if k == 0 then None else Some(scope[k - 1].id)
  }

  lemma WhereAt(rows: seq<Row>, cutoff: int, k: nat)
    requires Ordered(rows, ById) && k <= |Scope(rows, cutoff)|
    ensures var cursor := CursorAt(Scope(rows, cutoff), k);
      Select(rows, r => Wanted(r, cutoff, cursor)) == Scope(rows, cutoff)[k..]
  {
    var cursor := CursorAt(Scope(rows, cutoff), k);
    Resumes(rows, (r: Row) => r.retrievedAt <= cutoff, ById, k, r => Wanted(r, cutoff, cursor));
  }

  /** A page asked with that cursor is the next piece of the scope; a short page is its end. */
  lemma PageAt(rows: seq<Row>, cutoff: int, k: nat, limit: nat)
    requires Ordered(rows, ById) && k <= |Scope(rows, cutoff)|
    ensures var scope := Scope(rows, cutoff);
      var page := Page(rows, cutoff, CursorAt(scope, k), limit);
      && NextPart(scope, k, page, limit)
      && (page != [] ==> CursorAt(scope, k + |page|) == Some(page[|page| - 1].id))
  {
    WhereAt(rows, cutoff, k);
  }

  ghost predicate DocumentsCounted(docs: seq<Row>, s: State, k: nat) {
    && k <= |docs| && s.table == Documents && s.cursor == CursorAt(docs, k) && !s.complete
    && s.totals == Totals(k, UnknownIn(docs[..k]), 0, 0, 0, k, 0)
  }

  ghost predicate VersionsCounted(docs: seq<Row>, vers: seq<Row>, s: State, ids: set<string>, k: nat) {
    && k <= |vers| && s.table == Versions && s.cursor == CursorAt(vers, k) && ids == SourcesIn(vers[..k])
    && s.totals == Totals(|docs|, UnknownIn(docs), AvailableBy(vers[..k], s.cutoff), UnknownIn(vers[..k]),
                          if s.complete then |ids| else 0, |docs|, k)
    && (s.complete ==> k == |vers|)
  }

  /** k rows of the current table have been counted, and all documents before any version. */
  ghost predicate Counted(documents: seq<Row>, versions: seq<Row>, s: State, ids: set<string>, k: nat) {
    var docs, vers := Scope(documents, s.cutoff), Scope(versions, s.cutoff);
    && (s.pageSize.Some? ==> s.pageSize.value >= 1)
    && if s.table == Documents then ids == {}
         && DocumentsCounted(docs, s, k) else VersionsCounted(docs, vers, s, ids, k)
  }

  /** What one answered query changes: totals, cursor, and at a short page the table or the end. */
  function AfterPage(s: State, rows: seq<Row>, size: nat, pageSize: nat, ids: set<string>): State {
    var t := s.totals;
    var cursor := if rows == [] then s.cursor else Some(rows[|rows| - 1].id);
    if s.table == Documents then
      var counted := s.(cursor := cursor, totals := t.(documents := t.documents + |rows|,
                          unknownDocuments := t.unknownDocuments
                              + UnknownIn(rows), scannedDocuments := t.scannedDocuments + |rows|));
      if |rows| < size then counted.(table := Versions, cursor := None, pageSize := Some(pageSize)) else counted
    else
      var counted := s.(cursor := cursor, totals := t.(parsedVersions := t.parsedVersions + AvailableBy(rows, s.cutoff),
                          unknownVersions := t.unknownVersions
                              + UnknownIn(rows), scannedVersions := t.scannedVersions + |rows|));
      if |rows| < size then counted.(totals := counted.totals.(sourceMatches := |ids|), complete := true) else counted
  }

  lemma DocumentsStep(docs: seq<Row>, vers: seq<Row>, s: State, k: nat, rows: seq<Row>, size: nat, pageSize: nat)
    requires DocumentsCounted(docs, s, k) && k + |rows| <= |docs| && rows == docs[k..k + |rows|]
    requires |rows| < size ==> k + |rows| == |docs|
    ensures var s' := AfterPage(s, rows, size, pageSize, {});
      if |rows| < size then VersionsCounted(docs, vers, s', {}, 0) else DocumentsCounted(docs, s', k + |rows|)
  {
    CountsSlice(docs, k, rows, s.cutoff);
    assert docs[..|docs|] == docs;
  }

  lemma VersionsStep(docs: seq<Row>, vers: seq<Row>, s: State, ids: set<string>, k: nat, rows: seq<Row>, size: nat,
      pageSize: nat)
    requires VersionsCounted(docs, vers, s, ids, k) && !s.complete && k + |rows| <= |vers| &&
        rows == vers[k..k + |rows|]
    requires |rows| < size ==> k + |rows| == |vers|
    ensures var all := ids + SourcesIn(rows);
      VersionsCounted(docs, vers, AfterPage(s, rows, size, pageSize, all), all, k + |rows|)
  {
    CountsSlice(vers, k, rows, s.cutoff);
  }

  /** An answered query about documents moves the count on to more rows or to the second table. */
  lemma DocumentsPage(documents: seq<Row>, versions: seq<Row>, s: State, ids: set<string>, k: nat, rows: seq<Row>,
      size: nat, pageSize: nat) returns (k': nat)
    requires Counted(documents, versions, s, ids, k) && s.table == Documents && size >= 1 && pageSize >= 1
    requires NextPart(Scope(documents, s.cutoff), k, rows, size)
    ensures var s' := AfterPage(s, rows, size, pageSize, ids);
      Counted(documents, versions, s', ids, k') && s'.cutoff == s.cutoff && !s'.complete
          && (s'.table == Versions || k' > k)
  {
    DocumentsStep(Scope(documents, s.cutoff), Scope(versions, s.cutoff), s, k, rows, size, pageSize);
    k' := if |rows| < size then 0 else k + |rows|;
  }

  /** One about versions moves it on to more rows or to the end. */
  lemma VersionsPage(documents: seq<Row>, versions: seq<Row>, s: State, ids: set<string>, k: nat, rows: seq<Row>,
      size: nat, pageSize: nat) returns (k': nat)
    requires Counted(documents, versions, s, ids, k) && s.table == Versions && !s.complete && size >= 1
    requires NextPart(Scope(versions, s.cutoff), k, rows, size)
    ensures var s' := AfterPage(s, rows, size, pageSize, ids + SourcesIn(rows));
      Counted(documents, versions, s', ids + SourcesIn(rows), k') && s'.cutoff == s.cutoff && s'.table == Versions
          && (s'.complete || k' > k)
  {
    VersionsStep(Scope(documents, s.cutoff), Scope(versions, s.cutoff), s, ids, k, rows, size, pageSize);
    k' := k + |rows|;
  }

  /** The size of the next page: what timeouts have left of it, or the caller's. */
  function SizeInUse(state: Option<State>, pageSize: nat): nat {
    if state.Some? && state.value.pageSize.Some? then state.value.pageSize.value else pageSize
  }

  /** A query that ends the run: a failure, or a timeout at a size that is not halved any more. */
  predicate Raises(a: Attempt, size: nat) {
    a.Failure? || (a.Timeout? && size <= SMALLEST_PAGE)
  }

  function Answers(attempts: seq<Attempt>): nat {
    if attempts == [] then 0
    else Answers(attempts[..|attempts| - 1]) + if attempts[|attempts| - 1].Answer? then 1 else 0
  }

  lemma AnswersStep(attempts: seq<Attempt>, i: nat)
    requires i < |attempts|
    ensures attempts[i] in attempts
    ensures Answers(attempts[..i + 1]) == Answers(attempts[..i]) + if attempts[i].Answer? then 1 else 0
  {
    assert attempts[..i + 1] == attempts[..i] + [attempts[i]];
  }

  /** The database file: the committed state and the collected source ids. */
  class CountsDb {
    const documents: seq<Row>
    const versions: seq<Row>
    var state: Option<State>
    var sourceIds: set<string>

    constructor (documents: seq<Row>, versions: seq<Row>)
      requires Ordered(documents, ById) && Ordered(versions, ById)
      ensures Valid() && this.documents == documents && this.versions == versions && state == None
    {
      this.documents, this.versions := documents, versions;
      state, sourceIds := None, {};
    }

    /** Both tables in the order of their unique id. */
    ghost predicate Tables() {
      Ordered(documents, ById) && Ordered(versions, ById)
    }

    ghost predicate Valid()
      reads this
    {
      && Tables()
      && match state
         case None => sourceIds == {}
         case Some(s) => exists k :: Counted(documents, versions, s, sourceIds, k)
    }

    /** The one-shot answer. */
    ghost function OneShot(cutoff: int): Totals {
      var docs, vers := Scope(documents, cutoff), Scope(versions, cutoff);
      Totals(|docs|, UnknownIn(docs), AvailableBy(vers, cutoff), UnknownIn(vers), |SourcesIn(vers)|, |docs|, |vers|)
    }

    /** The same on the fields of the rows. */
    ghost predicate CountsOf(t: Totals, cutoff: int) {
      && t.documents == t.scannedDocuments == |Select(documents, (r: Row) => r.retrievedAt <= cutoff)|
      && t.scannedVersions == |Select(versions, (r: Row) => r.retrievedAt <= cutoff)|
      && t.unknownDocuments == |Select(documents, (r: Row) => r.retrievedAt <= cutoff && r.availableAt.None?)|
      && t.unknownVersions == |Select(versions, (r: Row) => r.retrievedAt <= cutoff && r.availableAt.None?)|
      && t.parsedVersions
         == |Select(versions, (r: Row) =>
              r.retrievedAt <= cutoff && r.availableAt.Some? && r.availableAt.value <= cutoff)|
      && t.sourceMatches
         == |set r | r in versions && r.retrievedAt <= cutoff && r.sourceMatch.Some? :: r.sourceMatch.value|
    }

    lemma OneShotCounts(cutoff: int)
      ensures CountsOf(OneShot(cutoff), cutoff)
    {
      ScopeMeaning(documents, cutoff);
      ScopeMeaning(versions, cutoff);
    }

    /** Count until complete; `attempts` tells how each query of this process ends. */
    method Compute(cutoff: int, pageSize: nat, attempts: seq<Attempt>) returns (o: Outcome, asked: nat)
      requires Valid() && pageSize >= 1
      modifies this
      ensures Valid()
      ensures o == CutoffMismatch <==> old(state.Some? && state.value.cutoff != cutoff)
      ensures o.Complete? ==> o.totals == OneShot(cutoff) && CountsOf(o.totals, cutoff)
      ensures asked <= |attempts| && Answers(attempts[..asked]) <= |documents| + |versions| + 2
      ensures o == Died ==> asked == |attempts| && Answers(attempts) <= |documents| + |versions| + 1
      ensures o == Raised ==> asked > 0 && Raises(attempts[asked - 1], SizeInUse(state, pageSize))
      ensures o == Raised ==> !attempts[asked - 1].Answer?
      ensures o == Raised && attempts[asked - 1].Timeout? ==>
          (if state.Some? && state.value.pageSize.Some? then state.value.pageSize.value else pageSize) <= 25
      ensures forall i :: 0 <= i < asked && (o == Raised ==> i < asked - 1) ==> !attempts[i].Failure?
    {
      var s := if state.Some? then state.value else Fresh(cutoff);
      assert attempts[..0] == [];
      if s.cutoff != cutoff {
        return CutoffMismatch, 0;
      }
      ghost var k := CountedSoFar(cutoff);
      if s.complete {
        CompleteIsOneShot(s, sourceIds, k);
        return Complete(s.totals), 0;
      }
      for i := 0 to |attempts|
        invariant Counting(cutoff, s, k) && Attempted(attempts, i, s, k)
      {
        AnswersStep(attempts, i);
        ProgressBounded(s, sourceIds, k);
        var raised;
        raised, k, s := Ask(s, k, attempts[i], pageSize);
        if raised {
          return Raised, i + 1;
        }
        if s.complete {
          CompleteIsOneShot(s, sourceIds, k);
          return Complete(s.totals), i + 1;
        }
      }
      assert attempts[..|attempts|] == attempts;
      ProgressBounded(s, sourceIds, k);
      o, asked := Died, |attempts|;
    }

    /** What the first i attempts have come to: no failure, and no more answers than progress. */
    ghost predicate Attempted(attempts: seq<Attempt>, i: nat, s: State, k: nat)
      requires i <= |attempts|
    {
      (forall j :: 0 <= j < i ==> !attempts[j].Failure?) && Answers(attempts[..i]) <= Progress(s, k)
    }

    function Fresh(cutoff: int): State {
      State(cutoff, Documents, None, Totals(0, 0, 0, 0, 0, 0, 0), None, false)
    }

    lemma CountedSoFar(cutoff: int) returns (k: nat)
      requires Valid()
      ensures Counted(documents, versions, if state.Some? then state.value else Fresh(cutoff), sourceIds, k)
      ensures state.None? ==> k == 0
    {
      if state.Some? {
        k :| Counted(documents, versions, state.value, sourceIds, k);
      } else {
        k := 0;
      }
    }

    /** The state in memory is the committed one, or a fresh one before the first commit. */
    ghost predicate Counting(cutoff: int, s: State, k: nat)
      reads this
    {
      && s.cutoff == cutoff && !s.complete && Counted(documents, versions, s, sourceIds, k)
      && if state.Some? then state == Some(s) else sourceIds == {} && s.pageSize == None
    }

    /** Answered queries so far, at most: one a row, and one more at the end of the documents. */
    ghost function Progress(s: State, k: nat): nat {
      k + if s.table == Versions then |documents| + 1 else 0
    }

    lemma ProgressBounded(s: State, ids: set<string>, k: nat)
      requires Tables() && Counted(documents, versions, s, ids, k)
      ensures k <= (if s.table == Documents then |documents| else |versions|) &&
          Progress(s, k) <= |documents| + |versions| + 1
    {
      SelectOrdered(documents, (r: Row) => r.retrievedAt <= s.cutoff, ById);
      SelectOrdered(versions, (r: Row) => r.retrievedAt <= s.cutoff, ById);
    }

    /**
     One query: an answer is counted and committed, a timeout commits a smaller page size, anything else
     is raised.
     */
    method Ask(s: State, ghost k: nat, a: Attempt, pageSize: nat) returns (raised: bool, ghost k': nat, s': State)
      requires Tables() && Counted(documents, versions, s, sourceIds, k) && !s.complete && pageSize >= 1
      modifies this
      ensures raised ==> state == old(state) && sourceIds == old(sourceIds) && s' == s
      ensures raised
          <==> a.Failure? || (a.Timeout? && (if s.pageSize.Some? then s.pageSize.value else pageSize) <= 25)
      ensures !raised && a.Timeout? ==> var size := if s.pageSize.Some? then s.pageSize.value else pageSize;
          s' == s.(pageSize := Some(if size < 50 then 25 else size / 2))
      ensures !raised ==> state == Some(s') && Counted(documents, versions, s', sourceIds, k') && s'.cutoff == s.cutoff
      ensures a.Timeout? ==> Progress(s', k') == Progress(s, k) && !s'.complete
      ensures a.Answer? ==> s'.complete || Progress(s', k') > Progress(s, k)
    {
      raised, k', s' := false, k, s;
      var size := if s.pageSize.Some? then s.pageSize.value else pageSize;
      match a {
        case Failure =>
          raised := true;
        case Timeout =>
          if size <= SMALLEST_PAGE {
            raised := true;
          } else {
            s' := s.(pageSize := Some(if size / 2 < SMALLEST_PAGE then SMALLEST_PAGE else size / 2));
            state := Some(s');
          }
        case Answer =>
          ProgressBounded(s, sourceIds, k);
          k', s' := CountPage(s, k, size, pageSize);
      }
    }

    lemma CompleteIsOneShot(s: State, ids: set<string>, k: nat)
      requires Counted(documents, versions, s, ids, k) && s.complete
      ensures s.totals == OneShot(s.cutoff) && CountsOf(s.totals, s.cutoff)
    {
      OneShotCounts(s.cutoff);
      var docs, vers := Scope(documents, s.cutoff), Scope(versions, s.cutoff);
      assert vers[..|vers|] == vers && docs[..|docs|] == docs;
    }

    /** One answered query: totals, cursor and source ids move together in one commit. */
    method CountPage(s: State, ghost k: nat, size: nat, pageSize: nat) returns (ghost k': nat, s': State)
      requires Tables() && Counted(documents, versions, s, sourceIds, k) && !s.complete && size >= 1 && pageSize >= 1
      modifies this
      ensures state == Some(s') && Counted(documents, versions, s', sourceIds, k') && s'.cutoff == s.cutoff
      ensures s'.complete || (s'.table == s.table && k' > k) || (s.table == Documents && s'.table == Versions)
      ensures s'.pageSize == if s'.table == s.table then s.pageSize else Some(pageSize)
    {
      if s.table == Documents {
        var rows := Page(documents, s.cutoff, s.cursor, size);
        PageAt(documents, s.cutoff, k, size);
        k' := DocumentsPage(documents, versions, s, sourceIds, k, rows, size, pageSize);
        s' := AfterPage(s, rows, size, pageSize, sourceIds);
      } else {
        var rows := Page(versions, s.cutoff, s.cursor, size);
        PageAt(versions, s.cutoff, k, size);
        k' := VersionsPage(documents, versions, s, sourceIds, k, rows, size, pageSize);
        sourceIds := sourceIds + SourcesIn(rows);
        s' := AfterPage(s, rows, size, pageSize, sourceIds);
      }
      state := Some(s');
    }
  }

  lemma CountsSlice(scope: seq<Row>, k: nat, page: seq<Row>, cutoff: int)
    requires k + |page| <= |scope| && page == scope[k..k + |page|]
    ensures UnknownIn(scope[..k + |page|]) == UnknownIn(scope[..k]) + UnknownIn(page)
    ensures AvailableBy(scope[..k + |page|], cutoff) == AvailableBy(scope[..k], cutoff) + AvailableBy(page, cutoff)
    ensures SourcesIn(scope[..k + |page|]) == SourcesIn(scope[..k]) + SourcesIn(page)
  {
    assert scope[..k + |page|] == scope[..k] + page;
    CountsAppend(scope[..k], page, cutoff);
  }
}
