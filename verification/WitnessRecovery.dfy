/** The resumable recovery run: batches of candidates, a checkpoint after each, and the published witness index. */
module WitnessRecovery {
  import opened Options
  import opened Sequences
  import opened Keyset
  import opened WitnessQuery

  const GROUP := 5

  datatype Completed = Completed(
    candidate: Candidate, reason: Reason, evidence: Option<Snapshot>, earlierThanMetadata: bool)

  // ---- one candidate ------------------------------------------------------------------

  function Verify(c: Candidate, r: Snapshot, cutoff: int): Reason {
    if r.eventId != c.id || r.sourceEventId != c.sourceEventId then IdentityMismatch
    else if !(c.lower <= r.observedAt <= cutoff) then OutsideBounds
    else if Signature(r.score) != Some(c.final) then ScoreMismatch
    else Confirmed
  }

  /** The row a candidate is judged by: the latest one, or if that does not verify the latest with the final score. */
  function Best(table: seq<Snapshot>, c: Candidate, cutoff: int): Option<Snapshot> {
    var latest := Alone(table, c, cutoff, false);
    if latest.Some? && Verify(c, latest.value, cutoff) != Confirmed && Alone(table, c, cutoff, true).Some?
    then Alone(table, c, cutoff, true)
    else latest
  }

  function Judge(c: Candidate, row: Option<Snapshot>, cutoff: int): Completed {
    var reason := if row.None? then NoSnapshot else Verify(c, row.value, cutoff);
    if reason != Confirmed then Completed(c, reason, None, false)
    else Completed(c, Confirmed, row, c.metadataTime.Some? && row.value.observedAt < c.metadataTime.value)
  }

  function Verdict(table: seq<Snapshot>, c: Candidate, cutoff: int): Completed {
    Judge(c, Best(table, c, cutoff), cutoff)
  }

  /** A witness is saved evidence of exactly this result within the time bounds, and the newest of its kind. */
  lemma WitnessSound(table: seq<Snapshot>, c: Candidate, cutoff: int)
    requires |c.final| >= 6 && Verdict(table, c, cutoff).evidence.Some?
    ensures var v := Verdict(table, c, cutoff); var w := v.evidence.value;
      && v.reason == Confirmed && w in table && w.eventId == c.id && w.sourceEventId == c.sourceEventId
      && c.lower <= w.observedAt <= cutoff && Signature(w.score) == Some(c.final)
      && (IsLatest(table, w, c, cutoff, false) || IsLatest(table, w, c, cutoff, true))
      && (c.metadataTime.Some? ==> w.observedAt <= c.metadataTime.value)
      && (v.earlierThanMetadata <==> c.metadataTime.Some? && w.observedAt != c.metadataTime.value)
  {
    LookupIsLatest(table, c, c.lower, Upper(c, cutoff), cutoff, false);
    LookupIsLatest(table, c, c.lower, Upper(c, cutoff), cutoff, true);
  }

  /** The score shows the final one: at least six numbers, and just these. */
  predicate Shows(score: seq<DigitGroup>, final: seq<nat>) {
    |score| >= 6 && |score| == |final| && forall i :: 0 <= i < |score| ==> Number(score[i]) == final[i]
  }

  lemma ShowsMeaning(score: seq<DigitGroup>, final: seq<nat>)
    ensures Signature(score) == Some(final) <==> Shows(score, final)
  {
    if Shows(score, final) {
      assert Signature(score).value == final;
    }
  }

  /**
   What a verdict says of the row it is about, the latest one or, if that does not prove the result, the
   latest with its digit groups: another source event, another score, or a proof.
   */
  lemma VerdictMeaning(table: seq<Snapshot>, c: Candidate, cutoff: int)
    ensures var latest, older := Alone(table, c, cutoff, false), Alone(table, c, cutoff, true);
      var v := Verdict(table, c, cutoff);
      if latest.None? then v == Completed(c, NoSnapshot, None, false)
      else
        var proven := latest.value.sourceEventId == c.sourceEventId && Shows(latest.value.score, c.final);
        var r := if proven || older.None? then latest.value else older.value;
        if r.sourceEventId != c.sourceEventId then v == Completed(c, IdentityMismatch, None, false)
        else if !Shows(r.score, c.final) then v == Completed(c, ScoreMismatch, None, false)
        else v == Completed(c, Confirmed, Some(r), c.metadataTime.Some? && r.observedAt < c.metadataTime.value)
  {
    LookupIsLatest(table, c, c.lower, Upper(c, cutoff), cutoff, false);
    LookupIsLatest(table, c, c.lower, Upper(c, cutoff), cutoff, true);
    var latest, older := Alone(table, c, cutoff, false), Alone(table, c, cutoff, true);
    if latest.Some? {
      ShowsMeaning(latest.value.score, c.final);
    }
    if older.Some? {
      ShowsMeaning(older.value.score, c.final);
    }
  }

  predicate Proves(r: Snapshot, c: Candidate) {
    r.sourceEventId == c.sourceEventId && Signature(r.score) == Some(c.final)
  }

  /**
   A witness is found exactly when the latest row of all, or the latest with these digit groups, proves
   the result.
   */
  lemma WitnessComplete(table: seq<Snapshot>, c: Candidate, cutoff: int)
    requires UniqueIds(table) && |c.final| >= 6
    ensures var v := Verdict(table, c, cutoff);
      && v.reason != OutsideBounds
      && (v.reason == NoSnapshot <==> forall r :: r in table ==> !Eligible(r, c, cutoff, false))
      && (v.reason == Confirmed <==> exists r, history :: IsLatest(table, r, c, cutoff, history) && Proves(r, c))
  {
    LookupIsLatest(table, c, c.lower, Upper(c, cutoff), cutoff, false);
    LookupIsLatest(table, c, c.lower, Upper(c, cutoff), cutoff, true);
    var latest, older := Alone(table, c, cutoff, false), Alone(table, c, cutoff, true);
    if older.Some? {
      assert Eligible(older.value, c, cutoff, false);
    }
    forall r, history | IsLatest(table, r, c, cutoff, history) && Proves(r, c)
      ensures Alone(table, c, cutoff, history) == Some(r) && Verify(c, r, cutoff) == Confirmed
    {
      LatestIsTold(table, r, c, cutoff, history);
    }
  }

  /** The newest eligible row with the final signature, however its groups are written. */
  ghost predicate LatestWithScore(table: seq<Snapshot>, r: Snapshot, c: Candidate, cutoff: int) {
    && r in table && Eligible(r, c, cutoff, false) && Signature(r.score) == Some(c.final)
    && forall o :: o in table && Eligible(o, c, cutoff, false) && Signature(o.score) == Some(c.final) ==> NotAfter(o, r)
  }

  /** Where no saved score has leading zeros, a result is confirmed exactly by the newest row that shows it. */
  lemma WitnessOfPlainScores(table: seq<Snapshot>, c: Candidate, cutoff: int)
    requires UniqueIds(table) && |c.final| >= 6
    requires forall r :: r in table && Eligible(r, c, cutoff, false) ==> AllPlain(r.score)
    ensures Verdict(table, c, cutoff).reason == Confirmed
            <==> exists r :: LatestWithScore(table, r, c, cutoff) && r.sourceEventId == c.sourceEventId
  {
    WitnessComplete(table, c, cutoff);
    PatternHasSignature(c.final);
    forall r | r in table && Eligible(r, c, cutoff, false)
      ensures Eligible(r, c, cutoff, true) <==> Signature(r.score) == Some(c.final)
    {
      if Signature(r.score) == Some(c.final) {
        SearchExact(r.score, c.final);
      }
    }
    forall r ensures LatestWithScore(table, r, c, cutoff) <==> IsLatest(table, r, c, cutoff, true) {
    }
  }

  lemma LatestIsTold(table: seq<Snapshot>, r: Snapshot, c: Candidate, cutoff: int, history: bool)
    requires UniqueIds(table) && IsLatest(table, r, c, cutoff, history)
    ensures Alone(table, c, cutoff, history) == Some(r)
  {
    LookupIsLatest(table, c, c.lower, Upper(c, cutoff), cutoff, history);
    var told := Alone(table, c, cutoff, history).value;
    assert NotAfter(told, r) && NotAfter(r, told);
  }

  // ---- a group of candidates ----------------------------------------------------------

  ghost predicate DistinctIds(cs: seq<Candidate>) {
    forall i, j :: 0 <= i < j < |cs| ==> cs[i].id != cs[j].id
  }

  function Get(m: map<nat, Snapshot>, id: nat): Option<Snapshot> {
    if id in m then Some(m[id]) else None
  }

  /** A dictionary by event; a later row replaces an earlier one. */
  function ByEvent(rows: seq<Snapshot>): map<nat, Snapshot> {
    if rows == [] then map[] else map[rows[0].eventId := rows[0]] + ByEvent(rows[1..])
  }

  ghost predicate AnswersOwn(cs: seq<Candidate>, f: Candidate -> Option<Snapshot>) {
    forall c :: c in cs && f(c).Some? ==> f(c).value.eventId == c.id
  }

  ghost function Ids(cs: seq<Candidate>): set<nat> {
    set c | c in cs :: c.id
  }

  ghost predicate OnlyOf(found: map<nat, Snapshot>, cs: seq<Candidate>) {
    found.Keys <= Ids(cs)
  }

  /** Different candidates of one list have different ids. */
  lemma OthersId(cs: seq<Candidate>, c: Candidate, others: seq<Candidate>)
    requires DistinctIds(cs) && c in cs && (forall d :: d in others ==> d in cs) && c !in others
    ensures c.id !in Ids(others)
  {
  }

  lemma {:induction false} ByEventOnlyOf(cs: seq<Candidate>, f: Candidate -> Option<Snapshot>)
    requires AnswersOwn(cs, f)
    ensures OnlyOf(ByEvent(Collect(cs, f)), cs)
  {
    if cs != [] {
      ByEventOnlyOf(cs[1..], f);
      assert forall c :: c in cs <==> c == cs[0] || c in cs[1..];
    }
  }

  /** The dictionary gives each candidate its own answer. */
  lemma {:induction false} ByEventLooksUp(cs: seq<Candidate>, f: Candidate -> Option<Snapshot>)
    requires DistinctIds(cs) && AnswersOwn(cs, f)
    ensures forall c :: c in cs ==> Get(ByEvent(Collect(cs, f)), c.id) == f(c)
  {
    if cs != [] {
      ByEventLooksUp(cs[1..], f);
      ByEventOnlyOf(cs[1..], f);
      ByEventFirst(cs, f);
      forall c | c in cs ensures Get(ByEvent(Collect(cs, f)), c.id) == f(c) {
        assert c == cs[0] || c in cs[1..];
        assert c in cs[1..] ==> c.id != cs[0].id;
      }
    }
  }

  lemma ByEventFirst(cs: seq<Candidate>, f: Candidate -> Option<Snapshot>)
    requires cs != [] && DistinctIds(cs) && AnswersOwn(cs, f)
    requires OnlyOf(ByEvent(Collect(cs[1..], f)), cs[1..])
    ensures Get(ByEvent(Collect(cs, f)), cs[0].id) == f(cs[0])
    ensures forall id :: id != cs[0].id ==>
      Get(ByEvent(Collect(cs, f)), id) == Get(ByEvent(Collect(cs[1..], f)), id)
  {
    var rest := Collect(cs[1..], f);
    assert cs[0].id !in ByEvent(rest);
    if f(cs[0]).Some? {
      assert Collect(cs, f) == [f(cs[0]).value] + rest;
      ByEventMore(f(cs[0]).value, rest);
    } else {
      assert Collect(cs, f) == rest;
    }
  }

  lemma ByEventMore(r: Snapshot, rest: seq<Snapshot>)
    ensures ByEvent([r] + rest) == map[r.eventId := r] + ByEvent(rest)
  {
    assert ([r] + rest)[1..] == rest;
  }

  function Unresolved(cs: seq<Candidate>, latest: map<nat, Snapshot>, cutoff: int): seq<Candidate> {
    Select(cs, (c: Candidate) => c.id in latest && Verify(c, latest[c.id], cutoff) != Confirmed)
  }

  lemma {:induction false} UnresolvedMembers(cs: seq<Candidate>, latest: map<nat, Snapshot>, cutoff: int)
    requires DistinctIds(cs)
    ensures forall c ::
        c in Unresolved(cs, latest, cutoff) <==>
        c in cs && c.id in latest && Verify(c, latest[c.id], cutoff) != Confirmed
    ensures DistinctIds(Unresolved(cs, latest, cutoff)) && |Unresolved(cs, latest, cutoff)| <= |cs|
  {
    var keep := (c: Candidate) => c.id in latest && Verify(c, latest[c.id], cutoff) != Confirmed;
    SelectMembers(cs, keep);
    SelectOrdered(cs, keep, (a: Candidate, b: Candidate) => a.id != b.id);
  }

  /** What the dictionary has to say about the candidates of cs. */
  ghost predicate Judged(table: seq<Snapshot>, cs: seq<Candidate>, cutoff: int, found: map<nat, Snapshot>) {
    && (forall c :: c in cs ==> Get(found, c.id) == Best(table, c, cutoff))
    && OnlyOf(found, cs)
  }

  /** The dictionary gives each candidate what it would be told alone. */
  ghost predicate Tells(table: seq<Snapshot>, cs: seq<Candidate>, cutoff: int, history: bool,
      found: map<nat, Snapshot>) {
    && (forall c :: c in cs ==> Get(found, c.id) == Alone(table, c, cutoff, history))
    && OnlyOf(found, cs)
  }

  lemma AnswersTell(table: seq<Snapshot>, cs: seq<Candidate>, cutoff: int, history: bool)
    requires DistinctIds(cs)
    ensures Tells(table, cs, cutoff, history, ByEvent(AllAlone(table, cs, cutoff, history)))
  {
    forall c | c in cs && Alone(table, c, cutoff, history).Some?
      ensures Alone(table, c, cutoff, history).value.eventId == c.id
    {
      LookupIsLatest(table, c, c.lower, Upper(c, cutoff), cutoff, history);
    }
    ByEventLooksUp(cs, c => Alone(table, c, cutoff, history));
    ByEventOnlyOf(cs, c => Alone(table, c, cutoff, history));
  }

  /** Latest rows first, then the score search for those that do not verify. */
  lemma GroupJudged(table: seq<Snapshot>, cs: seq<Candidate>, cutoff: int, latest: map<nat, Snapshot>,
      older: map<nat, Snapshot>)
    requires DistinctIds(cs) && Tells(table, cs, cutoff, false, latest)
    requires Tells(table, Unresolved(cs, latest, cutoff), cutoff, true, older)
    ensures Judged(table, cs, cutoff, latest + older)
  {
    var asked := Unresolved(cs, latest, cutoff);
    UnresolvedMembers(cs, latest, cutoff);
    forall c | c in cs ensures Get(latest + older, c.id) == Best(table, c, cutoff) {
      if c !in asked {
        OthersId(cs, c, asked);
      }
      OneJudged(table, c, cutoff, latest, older, c in asked);
    }
    assert Ids(asked) <= Ids(cs);
  }

  lemma OneJudged(table: seq<Snapshot>, c: Candidate, cutoff: int, latest: map<nat, Snapshot>,
      older: map<nat, Snapshot>, again: bool)
    requires Get(latest, c.id) == Alone(table, c, cutoff, false)
    requires again <==> c.id in latest && Verify(c, latest[c.id], cutoff) != Confirmed
    requires if again then Get(older, c.id) == Alone(table, c, cutoff, true) else c.id !in older
    ensures Get(latest + older, c.id) == Best(table, c, cutoff)
  {
  }

  /** Nobody is unresolved: the latest rows stand. */
  lemma GroupSettled(table: seq<Snapshot>, cs: seq<Candidate>, cutoff: int, latest: map<nat, Snapshot>)
    requires DistinctIds(cs) && Tells(table, cs, cutoff, false, latest) && Unresolved(cs, latest, cutoff) == []
    ensures Judged(table, cs, cutoff, latest)
  {
    assert OnlyOf(map[], []);
    GroupJudged(table, cs, cutoff, latest, map[]);
    assert latest + map[] == latest;
  }

  // ---- which queries are asked --------------------------------------------------------

  /** The candidates of a group that the score search is asked about: their latest row does not verify. */
  function Again(table: seq<Snapshot>, group: seq<Candidate>, cutoff: int): seq<Candidate> {
    Select(group, (c: Candidate) =>
      var latest := Alone(table, c, cutoff, false); latest.Some? && Verify(c, latest.value, cutoff) != Confirmed)
  }

  /** The sizes a group is asked about with: all of it, and then those again. */
  function GroupTodo(table: seq<Snapshot>, group: seq<Candidate>, cutoff: int): Todo {
    var again := Again(table, group, cutoff);
    Then(|group|, if again == [] then Nothing else Then(|again|, Nothing))
  }

  function BatchTodo(table: seq<Snapshot>, batch: seq<Candidate>, cutoff: int): Todo {
    if batch == [] then Nothing
    else
      var n := if GROUP < |batch| then GROUP else |batch|;
      Append(GroupTodo(table, batch[..n], cutoff), BatchTodo(table, batch[n..], cutoff))
  }

  lemma UnresolvedAsked(table: seq<Snapshot>, group: seq<Candidate>, cutoff: int, latest: map<nat, Snapshot>)
    requires Tells(table, group, cutoff, false, latest)
    ensures Unresolved(group, latest, cutoff) == Again(table, group, cutoff)
  {
    forall c | c in group ensures Get(latest, c.id) == Alone(table, c, cutoff, false) {
    }
    SelectSame(group, (c: Candidate) => c.id in latest && Verify(c, latest[c.id], cutoff) != Confirmed,
      (c: Candidate) =>
        var latest := Alone(table, c, cutoff, false); latest.Some? && Verify(c, latest.value, cutoff) != Confirmed);
  }

  lemma AgainFewer(table: seq<Snapshot>, group: seq<Candidate>, cutoff: int)
    ensures |Again(table, group, cutoff)| <= |group|
  {
    SelectOrdered(group, (c: Candidate) =>
      var latest := Alone(table, c, cutoff, false); latest.Some? && Verify(c, latest.value, cutoff) != Confirmed,
      (a: Candidate, b: Candidate) => true);
  }

  lemma GroupTodoBounds(table: seq<Snapshot>, group: seq<Candidate>, cutoff: int)
    requires 1 <= |group| <= GROUP
    ensures AtMost(GroupTodo(table, group, cutoff), GROUP) && Weight(GroupTodo(table, group, cutoff)) <= 4 * |group|
  {
    AgainFewer(table, group, cutoff);
    var again := Again(table, group, cutoff);
    var second := if again == [] then Nothing else Then(|again|, Nothing);
    assert GroupTodo(table, group, cutoff) == Then(|group|, second);
    assert again != [] ==> Weight(second) == 2 * |again| - 1 + Weight(Nothing) && AtMost(Nothing, GROUP);
  }

  /** No query is about more than GROUP candidates, and there are fewer than four a candidate. */
  lemma {:induction false} BatchTodoBounds(table: seq<Snapshot>, batch: seq<Candidate>, cutoff: int)
    ensures AtMost(BatchTodo(table, batch, cutoff), GROUP) && Weight(BatchTodo(table, batch, cutoff)) <= 4 * |batch|
    decreases |batch|
  {
    if batch != [] {
      var n := if GROUP < |batch| then GROUP else |batch|;
      GroupTodoBounds(table, batch[..n], cutoff);
      BatchTodoBounds(table, batch[n..], cutoff);
      AppendBounds(GroupTodo(table, batch[..n], cutoff), BatchTodo(table, batch[n..], cutoff), GROUP);
    }
  }

  lemma BatchTodoStep(table: seq<Snapshot>, batch: seq<Candidate>, offset: nat, next: nat, cutoff: int,
      database: Oracle, asked: nat)
    requires offset < |batch| && next == if offset + GROUP < |batch| then offset + GROUP else |batch|
    ensures var end := Drain(GroupTodo(table, batch[offset..next], cutoff), database, asked);
      Drain(BatchTodo(table, batch[offset..], cutoff), database, asked)
      == if end.fatal.Some? then end else Drain(BatchTodo(table, batch[next..], cutoff), database, end.asked)
  {
    assert batch[offset..][..next - offset] == batch[offset..next];
    assert batch[offset..][next - offset..] == batch[next..];
    var group := batch[offset..next];
    DrainAppend(GroupTodo(table, group, cutoff), BatchTodo(table, batch[next..], cutoff), database, asked);
  }

  method AnswerGroup(table: seq<Snapshot>, group: seq<Candidate>, cutoff: int, database: Oracle, asked: nat)
    returns (found: Option<map<nat, Snapshot>>, asked': nat, lost: Option<nat>)
    requires UniqueIds(table) && DistinctIds(group) && group != []
    ensures asked < asked' && (found.Some? <==> lost.None?)
    ensures found.Some? ==> Judged(table, group, cutoff, found.value)
    ensures Drain(GroupTodo(table, group, cutoff), database, asked) == End(asked', lost)
  {
    var reply := BoundedQuery(table, group, cutoff, false, database, asked);
    SplitChangesNothing(table, group, cutoff, false, database, asked);
    ghost var again := Again(table, group, cutoff);
    ghost var second := if again == [] then Nothing else Then(|again|, Nothing);
    SplitDrains(table, group, cutoff, false, database, asked, second);
    if reply.rows.None? {
      return None, reply.asked, Some(reply.last);
    }
    var latest := ByEvent(reply.rows.value);
    AnswersTell(table, group, cutoff, false);
    UnresolvedAsked(table, group, cutoff, latest);
    var unresolved := Unresolved(group, latest, cutoff);
    if unresolved == [] {
      GroupSettled(table, group, cutoff, latest);
      return Some(latest), reply.asked, None;
    }
    UnresolvedMembers(group, latest, cutoff);
    var older := BoundedQuery(table, unresolved, cutoff, true, database, reply.asked);
    SplitChangesNothing(table, unresolved, cutoff, true, database, reply.asked);
    if older.rows.None? {
      return None, older.asked, Some(older.last);
    }
    AnswersTell(table, unresolved, cutoff, true);
    GroupJudged(table, group, cutoff, latest, ByEvent(older.rows.value));
    return Some(latest + ByEvent(older.rows.value)), older.asked, None;
  }

  /** Groups of different candidates do not speak about each other. */
  lemma JudgedTogether(table: seq<Snapshot>, cs: seq<Candidate>, a: seq<Candidate>, b: seq<Candidate>, cutoff: int,
      x: map<nat, Snapshot>, y: map<nat, Snapshot>)
    requires cs == a + b && DistinctIds(cs) && Judged(table, a, cutoff, x) && Judged(table, b, cutoff, y)
    ensures Judged(table, cs, cutoff, x + y)
  {
    assert forall c :: c in cs <==> c in a || c in b;
    forall c | c in cs ensures Get(x + y, c.id) == Best(table, c, cutoff) {
      if c !in a {
        OthersId(cs, c, a);
      }
      if c !in b {
        OthersId(cs, c, b);
      }
    }
    assert Ids(a) <= Ids(cs) && Ids(b) <= Ids(cs);
  }

  lemma DistinctPieces(cs: seq<Candidate>, i: nat, j: nat)
    requires i <= j <= |cs| && DistinctIds(cs)
    ensures DistinctIds(cs[i..j]) && cs[..j] == cs[..i] + cs[i..j]
  {
  }

  method LookUpBatch(table: seq<Snapshot>, batch: seq<Candidate>, cutoff: int, database: Oracle, asked: nat)
    returns (answer: Option<map<nat, Snapshot>>, asked': nat, lost: Option<nat>)
    requires UniqueIds(table) && DistinctIds(batch)
    ensures asked <= asked' && (answer.Some? <==> lost.None?)
    ensures answer.Some? ==> Judged(table, batch, cutoff, answer.value)
    ensures Drain(BatchTodo(table, batch, cutoff), database, asked) == End(asked', lost)
  {
    var found: map<nat, Snapshot>, offset := map[], 0;
    asked', lost := asked, None;
    assert batch[0..] == batch;
    while offset < |batch|
      invariant offset <= |batch| && asked <= asked' && Judged(table, batch[..offset], cutoff, found)
      invariant Drain(BatchTodo(table, batch, cutoff), database, asked)
             == Drain(BatchTodo(table, batch[offset..], cutoff), database, asked')
    {
      var next := if offset + GROUP < |batch| then offset + GROUP else |batch|;
      var group := batch[offset..next];
      DistinctPieces(batch, offset, next);
      DistinctPieces(batch, 0, next);
      BatchTodoStep(table, batch, offset, next, cutoff, database, asked');
      answer, asked', lost := AnswerGroup(table, group, cutoff, database, asked');
      if answer.None? {
        return;
      }
      JudgedTogether(table, batch[..next], batch[..offset], group, cutoff, found, answer.value);
      found, offset := found + answer.value, next;
    }
    assert batch[..offset] == batch;
    answer, lost := Some(found), None;
  }

  method JudgeBatch(ghost table: seq<Snapshot>, batch: seq<Candidate>, cutoff: int, found: map<nat, Snapshot>)
      returns (rows: seq<Completed>)
    requires Judged(table, batch, cutoff, found)
    ensures rows == Verdicts(table, batch, cutoff)
  {
    rows := [];
    for i := 0 to |batch|
      invariant rows == Verdicts(table, batch[..i], cutoff)
    {
      assert batch[i] in batch && batch[..i + 1][..i] == batch[..i];
      rows := rows + [Judge(batch[i], Get(found, batch[i].id), cutoff)];
    }
    assert batch[..|batch|] == batch;
  }

  function Verdicts(table: seq<Snapshot>, cs: seq<Candidate>, cutoff: int): seq<Completed> {
    if cs == [] then [] else Verdicts(table, cs[..|cs| - 1], cutoff) + [Verdict(table, cs[|cs| - 1], cutoff)]
  }

  lemma {:induction false} VerdictsAppend(table: seq<Snapshot>, a: seq<Candidate>, b: seq<Candidate>, cutoff: int)
    ensures Verdicts(table, a + b, cutoff) == Verdicts(table, a, cutoff) + Verdicts(table, b, cutoff)
    ensures |Verdicts(table, b, cutoff)| == |b|
  {
    if b == [] {
      assert a + b == a;
    } else {
      var front, last := b[..|b| - 1], b[|b| - 1];
      assert (a + b)[..|a + b| - 1] == a + front && (a + b)[|a + b| - 1] == last;
      VerdictsAppend(table, a, front, cutoff);
      Regroup(Verdicts(table, a, cutoff), Verdicts(table, front, cutoff), [Verdict(table, last, cutoff)]);
    }
  }

  lemma {:induction false} VerdictsMeaning(table: seq<Snapshot>, cs: seq<Candidate>, cutoff: int)
    ensures |Verdicts(table, cs, cutoff)| == |cs|
    ensures forall i :: 0 <= i < |cs| ==> Verdicts(table, cs, cutoff)[i] == Verdict(table, cs[i], cutoff)
  {
    if cs != [] {
      VerdictsMeaning(table, cs[..|cs| - 1], cutoff);
    }
  }

  // ---- the run ------------------------------------------------------------------------

  /**
   What happens in a batch, or behind the last one: the runtime alarm before or after all its queries are
   answered, or the end of the process.
   */
  datatype Alarm = Quiet | WhileWorking | BeforeSave | Killed

  /** Where a process that got through its batches, or was stopped in them by an alarm or an error, is killed. */
  datatype Kill = NoKill | BeforeIndex | BeforeReport

  function Evidence(rows: seq<Completed>): seq<Snapshot> {
    if rows == [] then []
    else
      var last := rows[|rows| - 1];
      Evidence(rows[..|rows| - 1]) + if last.evidence.Some? then [last.evidence.value] else []
  }

  /** The evidence of the rows that have any, in their order. */
  lemma {:induction false} EvidenceMeaning(rows: seq<Completed>)
    ensures var having := Select(rows, (r: Completed) => r.evidence.Some?);
      && |Evidence(rows)| == |having|
      && forall i :: 0 <= i < |having| ==> Some(Evidence(rows)[i]) == having[i].evidence
  {
    if rows != [] {
      var front, last := rows[..|rows| - 1], rows[|rows| - 1];
      EvidenceMeaning(front);
      assert rows == front + [last];
      SelectAppend(front, [last], (r: Completed) => r.evidence.Some?);
      SelectOne(last, (r: Completed) => r.evidence.Some?);
    }
  }

  /** The output directory: the checkpoint, the witness index and the status of the report. */
  class Recovery {
    const table: seq<Snapshot>
    const candidates: seq<Candidate>
    const cutoff: int
    const batchSize: nat
    var saved: seq<Completed>
    var published: seq<Snapshot>
    var complete: bool

    constructor (table: seq<Snapshot>, candidates: seq<Candidate>, cutoff: int, batchSize: nat)
      requires UniqueIds(table) && DistinctIds(candidates) && 1 <= batchSize <= 100
      ensures Valid() && saved == [] && this.table == table && this.candidates == candidates && this.cutoff == cutoff
    {
      this.table, this.candidates, this.cutoff, this.batchSize := table, candidates, cutoff, batchSize;
      saved, published, complete := [], [], false;
    }

    ghost function Truth(k: nat): seq<Completed>
      requires k <= |candidates|
    {
      Verdicts(table, candidates[..k], cutoff)
    }

    ghost predicate Valid()
      reads this
    {
      && UniqueIds(table) && DistinctIds(candidates) && 1 <= batchSize <= 100
      && |saved| <= |candidates| && saved == Truth(|saved|)
      && (complete ==> |saved| == |candidates| && published == Evidence(Verdicts(table, candidates, cutoff)))
    }

    /** Where the batch from k on ends. */
    function Next(k: nat): nat {
      if k + batchSize < |candidates| then k + batchSize else |candidates|
    }

    /** The sizes of the groups in the batches from one place to another. */
    ghost function RunTodo(from: nat, to: nat): Todo
      requires batchSize >= 1 && to <= |candidates|
      decreases |candidates| - from
    {
      if from >= to then Nothing
      else Append(BatchTodo(table, candidates[from..Next(from)], cutoff), RunTodo(Next(from), to))
    }

    lemma {:induction false} RunTodoBounds(from: nat, to: nat)
      requires batchSize >= 1 && from <= |candidates| && to <= |candidates|
      ensures AtMost(RunTodo(from, to), GROUP) && Weight(RunTodo(from, to)) <= 4 * (|candidates| - from)
      decreases |candidates| - from
    {
      if from < to {
        RunTodoBounds(Next(from), to);
        BatchTodoBounds(table, candidates[from..Next(from)], cutoff);
        AppendBounds(BatchTodo(table, candidates[from..Next(from)], cutoff), RunTodo(Next(from), to), GROUP);
      }
    }

    /** No alarm goes off in the batches from one place to another. */
    ghost predicate Calm(alarms: nat -> Alarm, from: nat, to: nat)
      requires batchSize >= 1
      decreases |candidates| - from
    {
      from == to || (from < to <= |candidates| && alarms(from).Quiet? && Calm(alarms, Next(from), to))
    }

    lemma {:induction false} CalmOn(alarms: nat -> Alarm, from: nat, to: nat)
      requires batchSize >= 1 && Calm(alarms, from, to) && to < |candidates|
      ensures alarms(to).Quiet? ==> Calm(alarms, from, Next(to))
      ensures RunTodo(from, Next(to)) == Append(RunTodo(from, to), BatchTodo(table, candidates[to..Next(to)], cutoff))
      decreases |candidates| - from
    {
      if from != to {
        CalmOn(alarms, Next(from), to);
        AppendAssociative(BatchTodo(table, candidates[from..Next(from)], cutoff), RunTodo(Next(from), to),
          BatchTodo(table, candidates[to..Next(to)], cutoff));
      } else {
        AppendNothing(BatchTodo(table, candidates[to..Next(to)], cutoff));
      }
    }

    /**
     Whatever the groups: what loses one is a failure or the timeout of a single candidate, at the last query
     asked and at the size it was asked with; and there are fewer than four queries a candidate.
     */
    lemma LostIsFatal(from: nat, to: nat, database: Oracle, asked: nat, lost: Option<nat>)
      requires batchSize >= 1 && from <= |candidates| && to <= |candidates|
      requires Drain(RunTodo(from, to), database, 0) == End(asked, lost)
      ensures asked <= 4 * (|candidates| - from)
      ensures lost.Some? ==> asked > 0 && 1 <= lost.value <= GROUP && Fatal(database, asked - 1, lost.value)
    {
      RunTodoBounds(from, to);
      DrainCount(RunTodo(from, to), database, 0);
      if lost.Some? {
        DrainFatal(RunTodo(from, to), database, 0, GROUP);
      }
    }

    /**
     One process: continue behind the checkpoint, publish the witnesses found so far, then write the
     report. An alarm may go off in any batch and behind the last; the process may be killed there,
     before the index and before the report. The first `done` candidates are judged and the first
     |saved| of them saved. The queries asked are those of working through the groups of all batches from
     the old checkpoint up to `done`, and of the next one if a group of it is lost, about `lost` candidates.
     Batches are saved until a group is lost or an alarm goes off; without either, and with no kill, the
     report is complete.
     */
    method Run(database: Oracle, alarms: nat -> Alarm, kill: Kill)
        returns (ghost done: nat, asked: nat, lost: Option<nat>)
      requires Valid()
      modifies this
      ensures Valid() && |old(saved)| <= |saved| <= done <= |candidates| && saved[..|old(saved)|] == old(saved)
      ensures published
           == if kill.BeforeIndex? || alarms(|saved|).Killed? then old(published) else Evidence(Truth(done))
      ensures complete
           == if kill != NoKill || alarms(|saved|).Killed? then old(complete)
              else done == |candidates| && lost.None? && alarms(|saved|).Quiet?
      ensures Asked(|old(saved)|, done, database, asked, lost)
      ensures lost.Some? ==> asked > 0 && 1 <= lost.value <= 5 && Fatal(database, asked - 1, lost.value)
      ensures asked <= 4 * (|candidates| - |old(saved)|)
      ensures Calm(alarms, |old(saved)|, |saved|)
      ensures |saved| == |candidates| || lost.Some? || !alarms(|saved|).Quiet?
      ensures done == if lost.None? && alarms(|saved|).BeforeSave? then Next(|saved|) else |saved|
    {
      var rows;
      rows, asked, lost := Work(database, alarms);
      done := |rows|;
      LostIsFatal(|old(saved)|, if lost.Some? then Next(done) else done, database, asked, lost);
      TruthPrefix(|old(saved)|, |saved|);
      TruthPrefix(|saved|, done);
      var alarm := alarms(|saved|);
      if !alarm.Killed? && !kill.BeforeIndex? {
        Publish(rows, lost.Some? || !alarm.Quiet?, kill);
      }
    }

    /** The witness index, and then the report. */
    method Publish(rows: seq<Completed>, failed: bool, kill: Kill)
      requires Valid() && InStep(rows) && (!failed ==> saved == rows) && (complete ==> |rows| == |candidates|)
      modifies `published, `complete
      ensures Valid() && published == Evidence(rows)
      ensures complete == if kill.BeforeReport? then old(complete) else |rows| == |candidates| && !failed
    {
      assert candidates[..|candidates|] == candidates;
      published := Evidence(rows);
      if !kill.BeforeReport? {
        complete := |rows| == |candidates| && !failed;
      }
    }

    /** All batches, until a group is lost or an alarm goes off. */
    method Work(database: Oracle, alarms: nat -> Alarm)
        returns (rows: seq<Completed>, asked: nat, lost: Option<nat>)
      requires Valid()
      modifies `saved
      ensures Valid() && InStep(rows) && |old(saved)| <= |saved|
      ensures Worked(|old(saved)|, rows, database, alarms, asked, lost)
      ensures |saved| == |candidates| || lost.Some? || !alarms(|saved|).Quiet?
      ensures |rows| == if lost.None? && alarms(|saved|).BeforeSave? then Next(|saved|) else |saved|
    {
      rows, asked, lost := saved, 0, None;
      var going := |rows| < |candidates|;
      while going
        invariant InStep(rows) && |old(saved)| <= |saved| && (complete ==> |saved| == |candidates|)
        invariant Worked(|old(saved)|, rows, database, alarms, asked, lost)
        invariant if going then saved == rows && lost.None? && |rows| < |candidates|
                  else (|saved| == |candidates| || lost.Some? || !alarms(|saved|).Quiet?) && Ahead(rows, alarms, lost)
        decreases |candidates| - |saved|, going
      {
        var quiet := alarms(|rows|).Quiet?;
        rows, asked, lost := Batch(|old(saved)|, rows, database, alarms, asked);
        going := quiet && lost.None? && |rows| < |candidates|;
      }
    }

    /** One batch: its rows are added and saved, unless a group is lost or an alarm goes off. */
    method Batch(ghost first: nat, rows: seq<Completed>, database: Oracle, alarms: nat -> Alarm, asked: nat)
        returns (rows': seq<Completed>, asked': nat, lost: Option<nat>)
      requires InStep(rows) && saved == rows && |rows| < |candidates|
      requires Worked(first, rows, database, alarms, asked, None)
      modifies `saved
      ensures InStep(rows') && Worked(first, rows', database, alarms, asked', lost)
      ensures saved == if alarms(|rows|).Quiet? then rows' else old(saved)
      ensures if alarms(|rows|).Quiet? && lost.None?
        then |rows'| == (if |rows| + batchSize < |candidates| then |rows| + batchSize else |candidates|) > |rows|
        else |rows'| >= |rows| && Ahead(rows', alarms, lost)
    {
      rows', asked', lost := rows, asked, None;
      var start, alarm := |rows|, alarms(|rows|);
      if alarm.WhileWorking? || alarm.Killed? {
        return;
      }
      var completed;
      completed, asked', lost := CompleteBatch(start, Next(start), database, asked);
      CalmOn(alarms, first, start);
      DrainAppend(RunTodo(first, start), BatchTodo(table, candidates[start..Next(start)], cutoff), database, 0);
      if completed.Some? {
        rows' := rows + completed.value;
        if alarm.Quiet? {
          saved := rows';
        }
      }
    }

    /** The rows in memory and the saved ones are prefixes of the truth. */
    ghost predicate InStep(rows: seq<Completed>)
      reads this
    {
      && UniqueIds(table) && DistinctIds(candidates) && 1 <= batchSize <= 100
      && |saved| <= |rows| <= |candidates| && rows == Truth(|rows|) && saved == Truth(|saved|)
    }

    /** The queries asked are those of the batches up to `done`, and of one more if a group of it is lost. */
    ghost predicate Asked(first: nat, done: nat, database: Oracle, asked: nat, lost: Option<nat>)
      requires batchSize >= 1 && done <= |candidates|
    {
      && Drain(RunTodo(first, done), database, 0).fatal == None
      && Drain(RunTodo(first, if lost.Some? then Next(done) else done), database, 0) == End(asked, lost)
    }

    /** What a process that began behind `first` saved rows has asked, and what has stopped it if anything did. */
    ghost predicate Worked(first: nat, rows: seq<Completed>, database: Oracle, alarms: nat -> Alarm, asked: nat,
        lost: Option<nat>)
      requires batchSize >= 1 && |rows| <= |candidates|
      reads this
    {
      && first <= |saved| && Calm(alarms, first, |saved|) && Asked(first, |rows|, database, asked, lost)
      && (lost.Some? ==> !alarms(|saved|).Killed?)
    }

    /** Only an alarm in front of saving leaves the rows in memory one batch ahead. */
    ghost predicate Ahead(rows: seq<Completed>, alarms: nat -> Alarm, lost: Option<nat>)
      reads this
    {
      |rows| == if lost.None? && alarms(|saved|).BeforeSave? then Next(|saved|) else |saved|
    }

    /** The rows of one batch continue the truth. */
    method CompleteBatch(start: nat, next: nat, database: Oracle, asked: nat)
        returns (completed: Option<seq<Completed>>, asked': nat, lost: Option<nat>)
      requires UniqueIds(table) && DistinctIds(candidates) && batchSize >= 1
      requires start < |candidates| && next == Next(start)
      ensures asked <= asked' && (completed.Some? <==> lost.None?)
      ensures completed.Some? ==> Truth(next) == Truth(start) + completed.value && |Truth(next)| == next
      ensures Drain(BatchTodo(table, candidates[start..next], cutoff), database, asked) == End(asked', lost)
    {
      DistinctPieces(candidates, start, next);
      var found;
      completed := None;
      found, asked', lost := LookUpBatch(table, candidates[start..next], cutoff, database, asked);
      if found.Some? {
        var rows := JudgeBatch(table, candidates[start..next], cutoff, found.value);
        VerdictsAppend(table, candidates[..start], candidates[start..next], cutoff);
        VerdictsAppend(table, [], candidates[..next], cutoff);
        completed := Some(rows);
      }
    }

    lemma TruthPrefix(a: nat, b: nat)
      requires a <= b <= |candidates|
      ensures |Truth(a)| == a && |Truth(b)| == b && Truth(b)[..a] == Truth(a)
    {
      assert candidates[..b] == candidates[..a] + candidates[a..b];
      VerdictsAppend(table, candidates[..a], candidates[a..b], cutoff);
      VerdictsAppend(table, [], candidates[..a], cutoff);
    }
  }
}
