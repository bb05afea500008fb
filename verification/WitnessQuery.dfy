/** Which saved snapshot witnesses a match result: grouped queries, split on a timeout, checkpointed by batches. */
module WitnessQuery {
  import opened Options
  import opened Sequences
  import opened Keyset

  predicate IsDigit(c: char) {
    '0' <= c <= '9'
  }

  /** A maximal run of digits in a score text. */
  type DigitGroup = s: string | s != "" && forall i :: 0 <= i < |s| ==> IsDigit(s[i]) witness "0"

  /** `score` is the list of digit groups in the score text. */
  datatype Snapshot = Snapshot(
    id: nat, eventId: nat, sourceEventId: string, tennis: bool, observedAt: int, score: seq<DigitGroup>)

  datatype Candidate = Candidate(id: nat, sourceEventId: string, lower: int, metadataTime: Option<int>, final: seq<nat>)

  datatype Reason = Confirmed | IdentityMismatch | OutsideBounds | ScoreMismatch | NoSnapshot

  // ---- scores -------------------------------------------------------------------------

  function Decimal(n: nat): DigitGroup {
    if n < 10 then [('0' as int + n) as char] else Decimal(n / 10) + [('0' as int + n % 10) as char]
  }

  function DigitValue(c: char): nat
    requires IsDigit(c)
  {
    c as int - '0' as int
  }

  function Number(digits: DigitGroup): nat {
    var last := DigitValue(digits[|digits| - 1]);
    if |digits| == 1 then last else 10 * Number(digits[..|digits| - 1]) + last
  }

  lemma {:induction false} NumberOfDecimal(n: nat)
    ensures Number(Decimal(n)) == n
  {
    if n >= 10 {
      NumberOfDecimal(n / 10);
      assert Decimal(n)[..|Decimal(n)| - 1] == Decimal(n / 10);
    }
  }

  /** No leading zero. */
  predicate Plain(digits: DigitGroup) {
    |digits| == 1 || digits[0] != '0'
  }

  lemma {:induction false} DecimalPlain(n: nat)
    ensures Plain(Decimal(n)) && (n > 0 ==> Decimal(n)[0] != '0')
  {
    if n >= 10 {
      DecimalPlain(n / 10);
    }
  }

  lemma {:induction false} PlainPositive(digits: DigitGroup)
    requires digits[0] != '0'
    ensures Number(digits) > 0
  {
    if |digits| > 1 {
      PlainPositive(digits[..|digits| - 1]);
    }
  }

  /** Only groups without a leading zero are written like their number. */
  lemma {:induction false} DecimalOfNumber(digits: DigitGroup)
    ensures Decimal(Number(digits)) == digits <==> Plain(digits)
  {
    DecimalPlain(Number(digits));
    if Plain(digits) && |digits| > 1 {
      var front, last := digits[..|digits| - 1], digits[|digits| - 1];
      PlainPositive(front);
      DecimalOfNumber(front);
      DecimalOneMore(Number(front), DigitValue(last));
      assert digits == front + [last];
    }
  }

  lemma DecimalOneMore(n: nat, digit: nat)
    requires n > 0 && digit < 10
    ensures Decimal(10 * n + digit) == Decimal(n) + [('0' as int + digit) as char]
  {
  }

  /** The numbers of a score, when there are enough of them for a match and a set score. */
  function Signature(score: seq<DigitGroup>): Option<seq<nat>> {
    if |score| >= 6 then Some(seq(|score|, i requires 0 <= i < |score| => Number(score[i]))) else None
  }

  /** What the score search of the database demands: these digit groups and no others. */
  function Pattern(final: seq<nat>): seq<DigitGroup> {
    seq(|final|, i requires 0 <= i < |final| => Decimal(final[i]))
  }

  lemma PatternHasSignature(final: seq<nat>)
    requires |final| >= 6
    ensures Signature(Pattern(final)) == Some(final)
  {
    forall i | 0 <= i < |final| ensures Number(Pattern(final)[i]) == final[i] {
      NumberOfDecimal(final[i]);
    }
    assert Signature(Pattern(final)).value == final;
  }

  predicate AllPlain(score: seq<DigitGroup>) {
    forall i :: 0 <= i < |score| ==> Plain(score[i])
  }

  /** The search finds a score with the final signature exactly when none of its groups has a leading zero. */
  lemma SearchExact(score: seq<DigitGroup>, final: seq<nat>)
    requires Signature(score) == Some(final)
    ensures score == Pattern(final) <==> AllPlain(score)
  {
    forall i | 0 <= i < |score| ensures Pattern(final)[i] == score[i] <==> Plain(score[i]) {
      DecimalOfNumber(score[i]);
    }
  }

  /** A leading zero has the signature but not the digit groups the search demands. */
  lemma SearchMissesLeadingZero()
    ensures var final := [2, 0, 6, 4, 6, 3]; var score: seq<DigitGroup> := ["2", "0", "06", "4", "6", "3"];
      Signature(score) == Some(final) && score != Pattern(final)
  {
    var score: seq<DigitGroup> := ["2", "0", "06", "4", "6", "3"];
    assert "06"[..1] == "0";
    assert Signature(score).value == [2, 0, 6, 4, 6, 3];
    assert !Plain(score[2]);
    SearchExact(score, [2, 0, 6, 4, 6, 3]);
  }

  // ---- the query ----------------------------------------------------------------------

  function Upper(c: Candidate, cutoff: int): int {
    if c.metadataTime.Some? && c.metadataTime.value < cutoff then c.metadataTime.value else cutoff
  }

  /** The row belongs to the candidate; in a history search its score must match too. */
  predicate Fits(r: Snapshot, c: Candidate, history: bool) {
    r.eventId == c.id && r.tennis && (history ==> r.score == Pattern(c.final))
  }

  predicate Eligible(r: Snapshot, c: Candidate, cutoff: int, history: bool) {
    Fits(r, c, history) && c.lower <= r.observedAt <= Upper(c, cutoff)
  }

  /** ORDER BY observed_at DESC LIMIT 1. */
  function NewestTime(rows: seq<Snapshot>): Option<int> {
    if rows == [] then None
    else
      var rest := NewestTime(rows[1..]);
      if rest.Some? && rest.value > rows[0].observedAt then rest else Some(rows[0].observedAt)
  }

  /** ORDER BY id DESC LIMIT 1. */
  function HighestId(rows: seq<Snapshot>): Option<Snapshot> {
    if rows == [] then None
    else
      var rest := HighestId(rows[1..]);
      if rest.Some? && rest.value.id > rows[0].id then rest else Some(rows[0])
  }

  /** First the newest time, inside the group's bounds and the candidate's own; then the highest id at that time. */
  function Lookup(table: seq<Snapshot>, c: Candidate, lo: int, hi: int, cutoff: int, history: bool): Option<Snapshot> {
    var chosen := NewestTime(Select(table, r => Eligible(r, c, cutoff, history) && lo <= r.observedAt <= hi));
    if chosen.None? then None
    else HighestId(Select(table, r => Fits(r, c, history) && r.observedAt == chosen.value && lo <= r.observedAt <= hi))
  }

  function MinLower(cs: seq<Candidate>): int
    requires cs != []
  {
    if |cs| == 1 || cs[0].lower <= MinLower(cs[1..]) then cs[0].lower else MinLower(cs[1..])
  }

  function MaxUpper(cs: seq<Candidate>, cutoff: int): int
    requires cs != []
  {
    if |cs| == 1 || Upper(cs[0], cutoff) >= MaxUpper(cs[1..], cutoff) then Upper(cs[0], cutoff)
    else MaxUpper(cs[1..], cutoff)
  }

  /** The answers to all candidates, in their order. */
  function Collect(cs: seq<Candidate>, answer: Candidate -> Option<Snapshot>): seq<Snapshot> {
    if cs == [] then []
    else if answer(cs[0]).Some? then [answer(cs[0]).value] + Collect(cs[1..], answer)
    else Collect(cs[1..], answer)
  }

  /** One statement for the whole group, under the widest time bounds of the group. */
  function Query(table: seq<Snapshot>, cs: seq<Candidate>, cutoff: int, history: bool): seq<Snapshot>
    requires cs != []
  {
    var lo, hi := MinLower(cs), MaxUpper(cs, cutoff);
    Collect(cs, c => Lookup(table, c, lo, hi, cutoff, history))
  }

  // ---- what a lookup means ------------------------------------------------------------

  ghost predicate UniqueIds(table: seq<Snapshot>) {
    forall i, j :: 0 <= i < j < |table| ==> table[i].id != table[j].id
  }

  predicate NotAfter(a: Snapshot, b: Snapshot) {
    a.observedAt < b.observedAt || (a.observedAt == b.observedAt && a.id <= b.id)
  }

  /** r is the newest eligible row, the highest id deciding among rows of one time. */
  ghost predicate IsLatest(table: seq<Snapshot>, r: Snapshot, c: Candidate, cutoff: int, history: bool) {
    && r in table && Eligible(r, c, cutoff, history)
    && forall o :: o in table && Eligible(o, c, cutoff, history) ==> NotAfter(o, r)
  }

  lemma {:induction false} NewestTimeIsMaximum(rows: seq<Snapshot>)
    ensures match NewestTime(rows)
      case None => rows == []
      case Some(t) => (exists r :: r in rows && r.observedAt == t) && forall r :: r in rows ==> r.observedAt <= t
  {
    if rows != [] {
      NewestTimeIsMaximum(rows[1..]);
      assert rows[0] in rows;
      assert forall r :: r in rows ==> r == rows[0] || r in rows[1..];
    }
  }

  lemma {:induction false} HighestIdIsMaximum(rows: seq<Snapshot>)
    ensures match HighestId(rows)
      case None => rows == []
      case Some(h) => h in rows && forall r :: r in rows ==> r.id <= h.id
  {
    if rows != [] {
      HighestIdIsMaximum(rows[1..]);
      assert forall r :: r in rows ==> r == rows[0] || r in rows[1..];
    }
  }

  /** Bounds at least as wide as the candidate's own do not show in the answer: it is the latest eligible row. */
  lemma LookupIsLatest(table: seq<Snapshot>, c: Candidate, lo: int, hi: int, cutoff: int, history: bool)
    requires lo <= c.lower && Upper(c, cutoff) <= hi
    ensures match Lookup(table, c, lo, hi, cutoff, history)
      case None => forall r :: r in table ==> !Eligible(r, c, cutoff, history)
      case Some(r) => IsLatest(table, r, c, cutoff, history)
  {
    var inBounds := r => Eligible(r, c, cutoff, history) && lo <= r.observedAt <= hi;
    var rows := Select(table, inBounds);
    NewestTimeIsMaximum(rows);
    SelectMembers(table, inBounds);
    assert forall r :: r in rows <==> r in table && Eligible(r, c, cutoff, history);
    if rows != [] {
      var t := NewestTime(rows).value;
      var atTime := r => Fits(r, c, history) && r.observedAt == t && lo <= r.observedAt <= hi;
      HighestIdIsMaximum(Select(table, atTime));
      SelectMembers(table, atTime);
      forall r
        ensures r in Select(table, atTime) <==> r in table && Eligible(r, c, cutoff, history) && r.observedAt == t
      {
        assert rows[0] in rows;
      }
      var r :| r in rows && r.observedAt == t;
      assert r in Select(table, atTime);
    } else {
      forall r | r in table ensures !Eligible(r, c, cutoff, history) {
        assert r !in rows;
      }
    }
  }

  /** What the candidate is told when asked on its own. */
  function Alone(table: seq<Snapshot>, c: Candidate, cutoff: int, history: bool): Option<Snapshot> {
    Lookup(table, c, c.lower, Upper(c, cutoff), cutoff, history)
  }

  /** A saved row of the candidate between its lower bound and the earlier of cutoff and metadata time. */
  predicate Answers(r: Snapshot, c: Candidate, cutoff: int, history: bool) {
    && r.eventId == c.id && r.tennis && c.lower <= r.observedAt && r.observedAt <= cutoff
    && (c.metadataTime.Some? ==> r.observedAt <= c.metadataTime.value)
    && (history ==> |r.score| == |c.final| && forall i :: 0 <= i < |r.score| ==>
          Number(r.score[i]) == c.final[i] && (|r.score[i]| == 1 || r.score[i][0] != '0'))
  }

  lemma EligibleMeaning(r: Snapshot, c: Candidate, cutoff: int, history: bool)
    ensures Eligible(r, c, cutoff, history) <==> Answers(r, c, cutoff, history)
  {
    forall i | 0 <= i < |c.final| ensures Number(Decimal(c.final[i])) == c.final[i] && Plain(Decimal(c.final[i])) {
      NumberOfDecimal(c.final[i]);
      DecimalPlain(c.final[i]);
    }
    forall i | 0 <= i < |r.score| ensures Decimal(Number(r.score[i])) == r.score[i] <==> Plain(r.score[i]) {
      DecimalOfNumber(r.score[i]);
    }
    if Answers(r, c, cutoff, true) {
      assert r.score == Pattern(c.final);
    }
  }

  /** What a candidate is told, on the fields of the rows: the newest answer, the highest id among equals. */
  lemma AloneMeaning(table: seq<Snapshot>, c: Candidate, cutoff: int, history: bool)
    ensures match Alone(table, c, cutoff, history)
      case None => forall r :: r in table ==> !Answers(r, c, cutoff, history)
      case Some(r) =>
        && r in table && Answers(r, c, cutoff, history)
        && forall o :: o in table && Answers(o, c, cutoff, history) ==>
             o.observedAt < r.observedAt || (o.observedAt == r.observedAt && o.id <= r.id)
  {
    LookupIsLatest(table, c, c.lower, Upper(c, cutoff), cutoff, history);
    forall r ensures Eligible(r, c, cutoff, history) <==> Answers(r, c, cutoff, history) {
      EligibleMeaning(r, c, cutoff, history);
    }
  }

  lemma SameAsAlone(table: seq<Snapshot>, c: Candidate, lo: int, hi: int, cutoff: int, history: bool)
    requires UniqueIds(table) && lo <= c.lower && Upper(c, cutoff) <= hi
    ensures Lookup(table, c, lo, hi, cutoff, history) == Alone(table, c, cutoff, history)
  {
    LookupIsLatest(table, c, lo, hi, cutoff, history);
    LookupIsLatest(table, c, c.lower, Upper(c, cutoff), cutoff, history);
  }

  function AllAlone(table: seq<Snapshot>, cs: seq<Candidate>, cutoff: int, history: bool): seq<Snapshot> {
    Collect(cs, c => Alone(table, c, cutoff, history))
  }

  lemma {:induction false} BoundsCover(cs: seq<Candidate>, cutoff: int)
    requires cs != []
    ensures forall c :: c in cs ==> MinLower(cs) <= c.lower && Upper(c, cutoff) <= MaxUpper(cs, cutoff)
  {
    if |cs| > 1 {
      BoundsCover(cs[1..], cutoff);
      assert forall c :: c in cs ==> c == cs[0] || c in cs[1..];
    } else {
      assert forall c :: c in cs ==> c == cs[0];
    }
  }

  lemma {:induction false} CollectSame(cs: seq<Candidate>, f: Candidate -> Option<Snapshot>,
      g: Candidate -> Option<Snapshot>)
    requires forall c :: c in cs ==> f(c) == g(c)
    ensures Collect(cs, f) == Collect(cs, g)
  {
    if cs != [] {
      CollectSame(cs[1..], f, g);
    }
  }

  /** A grouped query answers every candidate as if it had been asked alone. */
  lemma QueryAnswersAlone(table: seq<Snapshot>, cs: seq<Candidate>, cutoff: int, history: bool)
    requires UniqueIds(table) && cs != []
    ensures Query(table, cs, cutoff, history) == AllAlone(table, cs, cutoff, history)
  {
    BoundsCover(cs, cutoff);
    var lo, hi := MinLower(cs), MaxUpper(cs, cutoff);
    forall c | c in cs ensures Lookup(table, c, lo, hi, cutoff, history) == Alone(table, c, cutoff, history) {
      SameAsAlone(table, c, lo, hi, cutoff, history);
    }
    CollectSame(cs, c => Lookup(table, c, lo, hi, cutoff, history), c => Alone(table, c, cutoff, history));
  }

  // ---- splitting on timeouts ----------------------------------------------------------

  /**
   The rows found, or None for an error that is passed on; the number of the next query; and how many
   candidates the last one was about.
   */
  datatype Reply = Reply(rows: Option<seq<Snapshot>>, asked: nat, last: nat)

  /** What happens to query number i when it asks about n candidates. */
  type Oracle = (nat, nat) -> Attempt

  /** Asks the group; on a timeout asks each half. */
  function BoundedQuery(table: seq<Snapshot>, cs: seq<Candidate>, cutoff: int, history: bool, database: Oracle,
      asked: nat): Reply
    requires cs != []
    decreases |cs|
  {
    match database(asked, |cs|)
    case Answer => Reply(Some(Query(table, cs, cutoff, history)), asked + 1, |cs|)
    case Failure => Reply(None, asked + 1, |cs|)
    case Timeout =>
      if |cs| <= 1 then Reply(None, asked + 1, |cs|)
      else
        var left := BoundedQuery(table, cs[..|cs| / 2], cutoff, history, database, asked + 1);
        if left.rows.None? then left
        else BothHalves(left, BoundedQuery(table, cs[|cs| / 2..], cutoff, history, database, left.asked))
  }

  function BothHalves(left: Reply, right: Reply): Reply
    requires left.rows.Some?
  {
    if right.rows.None? then right
    else right.(rows := Some(left.rows.value + right.rows.value))
  }

  // ---- which queries are asked --------------------------------------------------------

  /** What cannot be split away: a failure, or the timeout of a single candidate. */
  predicate Fatal(database: Oracle, i: nat, n: nat) {
    database(i, n).Failure? || (database(i, n).Timeout? && n <= 1)
  }

  /** Sizes of groups still to be asked about, the next one first. */
  datatype Todo = Nothing | Then(n: nat, rest: Todo)

  /** How many queries they can lead to. */
  function Weight(todo: Todo): nat {
    match todo
    case Nothing => 0
    case Then(n, rest) => (if n == 0 then 1 else 2 * n - 1) + Weight(rest)
  }

  function Halves(n: nat, rest: Todo): Todo {
    Then(n / 2, Then(n - n / 2, rest))
  }

  lemma HalvesWeigh(n: nat, rest: Todo)
    requires n > 1
    ensures Weight(Halves(n, rest)) == 2 * n - 2 + Weight(rest) < Weight(Then(n, rest))
  {
    var h, g: nat := n / 2, n - n / 2;
    assert 1 <= h && 1 <= g && h + g == n;
    assert Weight(Then(h, Then(g, rest))) == (2 * h - 1) + ((2 * g - 1) + Weight(rest));
  }

  /** How asking ends: the number of the next query, and the size of the fatal one if there was one. */
  datatype End = End(asked: nat, fatal: Option<nat>)

  /**
   Work through a list of groups, whatever is in them: an answer settles the first, a timeout puts its
   halves in its place, and what is fatal ends it all.
   */
  function Drain(todo: Todo, database: Oracle, asked: nat): End
    decreases Weight(todo)
  {
    match todo
    case Nothing => End(asked, None)
    case Then(n, rest) =>
      if Fatal(database, asked, n) then End(asked + 1, Some(n))
      else if database(asked, n).Timeout? then
        HalvesWeigh(n, rest);
        Drain(Halves(n, rest), database, asked + 1)
      else Drain(rest, database, asked + 1)
  }

  predicate AtMost(todo: Todo, most: nat) {
    todo == Nothing || (1 <= todo.n <= most && AtMost(todo.rest, most))
  }

  function Append(todo: Todo, rest: Todo): Todo {
    match todo
    case Nothing => rest
    case Then(n, more) => Then(n, Append(more, rest))
  }

  lemma {:induction false} AppendNothing(todo: Todo)
    ensures Append(todo, Nothing) == todo
  {
    if todo.Then? {
      AppendNothing(todo.rest);
    }
  }

  lemma {:induction false} AppendAssociative(a: Todo, b: Todo, c: Todo)
    ensures Append(Append(a, b), c) == Append(a, Append(b, c))
  {
    if a.Then? {
      AppendAssociative(a.rest, b, c);
    }
  }

  lemma {:induction false} AppendBounds(todo: Todo, rest: Todo, most: nat)
    ensures Weight(Append(todo, rest)) == Weight(todo) + Weight(rest)
    ensures AtMost(Append(todo, rest), most) <==> AtMost(todo, most) && AtMost(rest, most)
  {
    if todo.Then? {
      AppendBounds(todo.rest, rest, most);
    }
  }

  /** Two lists in a row: the second one is come to unless the first ends it all. */
  lemma {:induction false} DrainAppend(todo: Todo, rest: Todo, database: Oracle, asked: nat)
    ensures var end := Drain(todo, database, asked);
      Drain(Append(todo, rest), database, asked) == if end.fatal.Some? then end else Drain(rest, database, end.asked)
    decreases Weight(todo)
  {
    if todo.Then? && !Fatal(database, asked, todo.n) {
      var n, more := todo.n, todo.rest;
      if database(asked, n).Timeout? {
        HalvesWeigh(n, more);
        DrainAppend(Halves(n, more), rest, database, asked + 1);
        DrainSplit(n, more, database, asked);
        DrainSplit(n, Append(more, rest), database, asked);
      } else {
        DrainAppend(more, rest, database, asked + 1);
      }
    }
  }

  /** At least one query is asked, and not too many. */
  lemma {:induction false} DrainCount(todo: Todo, database: Oracle, asked: nat)
    ensures var end := Drain(todo, database, asked);
      if todo == Nothing then end.asked == asked else asked < end.asked <= asked + Weight(todo)
    decreases Weight(todo)
  {
    if todo.Then? && !Fatal(database, asked, todo.n) {
      var n, rest := todo.n, todo.rest;
      if database(asked, n).Timeout? {
        HalvesWeigh(n, rest);
        DrainCount(Halves(n, rest), database, asked + 1);
      } else {
        DrainCount(rest, database, asked + 1);
      }
    }
  }

  /** If asking ends early, its last query was fatal. */
  lemma {:induction false} DrainFatal(todo: Todo, database: Oracle, asked: nat, most: nat)
    requires AtMost(todo, most) && Drain(todo, database, asked).fatal.Some?
    ensures var end := Drain(todo, database, asked);
      end.asked > 0 && 1 <= end.fatal.value <= most && Fatal(database, end.asked - 1, end.fatal.value)
    decreases Weight(todo)
  {
    if !Fatal(database, asked, todo.n) {
      var n, rest := todo.n, todo.rest;
      if database(asked, n).Timeout? {
        HalvesWeigh(n, rest);
        DrainFatal(Halves(n, rest), database, asked + 1, most);
      } else {
        DrainFatal(rest, database, asked + 1, most);
      }
    }
  }

  /** A group's own queries, and what is then left to do. */
  function Onward(reply: Reply, rest: Todo, database: Oracle): End {
    if reply.rows.None? then End(reply.asked, Some(reply.last)) else Drain(rest, database, reply.asked)
  }

  lemma DrainSplit(n: nat, rest: Todo, database: Oracle, asked: nat)
    requires database(asked, n).Timeout? && n > 1
    ensures Drain(Then(n, rest), database, asked) == Drain(Then(n / 2, Then(n - n / 2, rest)), database, asked + 1)
  {
  }

  lemma QuerySplit(table: seq<Snapshot>, cs: seq<Candidate>, cutoff: int, history: bool, database: Oracle, asked: nat)
      returns (a: seq<Candidate>, b: seq<Candidate>, left: Reply)
    requires database(asked, |cs|).Timeout? && |cs| > 1
    ensures 0 < |a| == |cs| / 2 && |b| == |cs| - |a|
    ensures left == BoundedQuery(table, a, cutoff, history, database, asked + 1)
    ensures BoundedQuery(table, cs, cutoff, history, database, asked)
         == if left.rows.None? then left
            else BothHalves(left, BoundedQuery(table, b, cutoff, history, database, left.asked))
  {
    a, b := cs[..|cs| / 2], cs[|cs| / 2..];
    left := BoundedQuery(table, a, cutoff, history, database, asked + 1);
  }

  lemma QueryOne(table: seq<Snapshot>, cs: seq<Candidate>, cutoff: int, history: bool, database: Oracle, asked: nat,
      rest: Todo)
    requires cs != [] && !(database(asked, |cs|).Timeout? && |cs| > 1)
    ensures Drain(Then(|cs|, rest), database, asked)
         == Onward(BoundedQuery(table, cs, cutoff, history, database, asked), rest, database)
  {
  }

  /** Splitting asks just these queries. */
  lemma {:induction false} SplitDrains(table: seq<Snapshot>, cs: seq<Candidate>, cutoff: int, history: bool,
      database: Oracle, asked: nat, rest: Todo)
    requires cs != []
    ensures Drain(Then(|cs|, rest), database, asked)
         == Onward(BoundedQuery(table, cs, cutoff, history, database, asked), rest, database)
    decreases |cs|
  {
    if database(asked, |cs|).Timeout? && |cs| > 1 {
      var a, b, left := QuerySplit(table, cs, cutoff, history, database, asked);
      DrainSplit(|cs|, rest, database, asked);
      SplitDrains(table, a, cutoff, history, database, asked + 1, Then(|b|, rest));
      SplitDrains(table, b, cutoff, history, database, left.asked, rest);
    } else {
      QueryOne(table, cs, cutoff, history, database, asked, rest);
    }
  }

  lemma {:induction false} CollectAppend(a: seq<Candidate>, b: seq<Candidate>, f: Candidate -> Option<Snapshot>)
    ensures Collect(a + b, f) == Collect(a, f) + Collect(b, f)
  {
    if a == [] {
      assert a + b == b;
    } else {
      assert (a + b)[1..] == a[1..] + b;
      CollectAppend(a[1..], b, f);
    }
  }

  lemma HalvesAlone(table: seq<Snapshot>, cs: seq<Candidate>, cutoff: int, history: bool)
    ensures AllAlone(table, cs, cutoff, history)
         == AllAlone(table, cs[..|cs| / 2], cutoff, history) + AllAlone(table, cs[|cs| / 2..], cutoff, history)
  {
    assert cs == cs[..|cs| / 2] + cs[|cs| / 2..];
    CollectAppend(cs[..|cs| / 2], cs[|cs| / 2..], c => Alone(table, c, cutoff, history));
  }

  lemma {:induction false} SplitAnswers(table: seq<Snapshot>, cs: seq<Candidate>, cutoff: int, history: bool,
      database: Oracle, asked: nat)
    requires UniqueIds(table) && cs != [] && BoundedQuery(table, cs, cutoff, history, database, asked).rows.Some?
    ensures BoundedQuery(table, cs, cutoff, history, database, asked).rows.value == AllAlone(table, cs, cutoff, history)
    decreases |cs|
  {
    if database(asked, |cs|).Timeout? {
      var a, b := cs[..|cs| / 2], cs[|cs| / 2..];
      SplitAnswers(table, a, cutoff, history, database, asked + 1);
      var left := BoundedQuery(table, a, cutoff, history, database, asked + 1);
      SplitAnswers(table, b, cutoff, history, database, left.asked);
      HalvesAlone(table, cs, cutoff, history);
    } else {
      QueryAnswersAlone(table, cs, cutoff, history);
    }
  }

  /** Asking about one group of n. */
  function DrainOne(n: nat, database: Oracle, asked: nat): End {
    Drain(Then(n, Nothing), database, asked)
  }

  /**
   However it is split, an answer is the same. The queries asked are exactly those of working through
   the group, fewer than two a candidate, and only a failure or the timeout of a single candidate, at
   the last of them, leaves the group without an answer.
   */
  lemma SplitChangesNothing(table: seq<Snapshot>, cs: seq<Candidate>, cutoff: int, history: bool, database: Oracle,
      asked: nat)
    requires UniqueIds(table) && cs != []
    ensures var reply := BoundedQuery(table, cs, cutoff, history, database, asked);
      && asked < reply.asked <= asked + 2 * |cs| - 1
      && DrainOne(|cs|, database, asked) == End(reply.asked, if reply.rows.None? then Some(reply.last) else None)
      && (reply.rows.Some? ==> reply.rows.value == AllAlone(table, cs, cutoff, history))
      && (reply.rows.None? ==> 1 <= reply.last <= |cs| && Fatal(database, reply.asked - 1, reply.last))
  {
    SplitDrains(table, cs, cutoff, history, database, asked, Nothing);
    DrainCount(Then(|cs|, Nothing), database, asked);
    if BoundedQuery(table, cs, cutoff, history, database, asked).rows.Some? {
      SplitAnswers(table, cs, cutoff, history, database, asked);
    } else {
      DrainFatal(Then(|cs|, Nothing), database, asked, |cs|);
    }
  }
}
