/** Resolving examples of several sources: conflicts set aside, one example kept per prediction. */
module SourceResolution {
  import opened Options
  import opened Sequences
  import opened Texts

  /** `targetState` is None where the source's value is missing or empty. */
  datatype Row = Row(target: string, event: string, setNumber: Option<int>, targetState: Option<string>,
                     snapshot: string, snapshotAt: string, outcome: int,
                     availableAt: Option<string>, source: Option<string>)

  /** One entry of the provenance dictionary; `key` is the repr of its key. */
  datatype Item = Item(key: string, row: Row)

  datatype State =
    | SetNumber(number: Option<int>)
    | TargetState(text: string)
    | SnapshotState(snapshot: string, at: string)

  datatype Group = Group(target: string, event: string, state: State)

  datatype Prediction = Prediction(snapshot: string, at: string)

  datatype Kept = Kept(row: Row, supportingSources: set<string>)

  datatype Conflict = Conflict(group: Group, examples: seq<Row>)

  function StateOf(r: Row): State {
    if r.target == "set" then SetNumber(r.setNumber)
    else if r.targetState.Some? then TargetState(r.targetState.value)
    else SnapshotState(r.snapshot, r.snapshotAt)
  }

  function GroupOf(it: Item): Group {
    Group(it.row.target, it.row.event, StateOf(it.row))
  }

  function PredictionOf(it: Item): Prediction {
    Prediction(it.row.snapshot, it.row.snapshotAt)
  }

  function SourceOf(r: Row): string {
    if r.source.Some? && r.source.value != "" then r.source.value else "flashscore"
  }

  /** Missing or empty availability sorts behind every time. */
  function Availability(r: Row): string {
    if r.availableAt.Some? && r.availableAt.value != "" then r.availableAt.value else [0xFFFF as char]
  }

  predicate RankLeq(a: Item, b: Item) {
    if Availability(a.row) != Availability(b.row) then TextLeq(Availability(a.row), Availability(b.row))
    else TextLeq(a.key, b.key)
  }

  lemma RankTotal(a: Item, b: Item)
    ensures RankLeq(a, b) || RankLeq(b, a)
  {
    TextLeqTotal(Availability(a.row), Availability(b.row));
    TextLeqTotal(a.key, b.key);
  }

  lemma RankTransitive(a: Item, b: Item, c: Item)
    requires RankLeq(a, b) && RankLeq(b, c)
    ensures RankLeq(a, c)
  {
    var x, y, z := Availability(a.row), Availability(b.row), Availability(c.row);
    if x != y && y != z {
      TextLeqTransitive(x, y, z);
      if x == z {
        TextLeqAntisymmetric(x, y);
      }
    } else if x == y == z {
      TextLeqTransitive(a.key, b.key, c.key);
    }
  }

  lemma RankAntisymmetric(a: Item, b: Item)
    requires RankLeq(a, b) && RankLeq(b, a)
    ensures a.key == b.key
  {
    if Availability(a.row) != Availability(b.row) {
      TextLeqAntisymmetric(Availability(a.row), Availability(b.row));
    } else {
      TextLeqAntisymmetric(a.key, b.key);
    }
  }

  // ----- The outcome, told by membership only: the order of the items plays no part.

  ghost predicate DistinctKeys(items: seq<Item>) {
    forall i, j :: 0 <= i < j < |items| ==> items[i].key != items[j].key
  }

  ghost predicate Agreed(items: seq<Item>, g: Group) {
    forall x, y :: x in items && y in items && GroupOf(x) == g && GroupOf(y) == g ==> x.row.outcome == y.row.outcome
  }

  predicate Peers(a: Item, b: Item) {
    GroupOf(a) == GroupOf(b) && PredictionOf(a) == PredictionOf(b)
  }

  /** First by availability, then by key, among the examples of the same state and snapshot. */
  ghost predicate First(items: seq<Item>, it: Item) {
    forall x :: x in items && Peers(x, it) ==> RankLeq(it, x)
  }

  ghost function Sources(items: seq<Item>, it: Item): set<string> {
    set x | x in items && Peers(x, it) :: SourceOf(x.row)
  }

  ghost predicate Chosen(items: seq<Item>, it: Item) {
    it in items && Agreed(items, GroupOf(it)) && First(items, it)
  }

  ghost predicate KeptRight(kept: map<string, Kept>, items: seq<Item>) {
    && (forall it :: Chosen(items, it) ==> it.key in kept && kept[it.key] == Kept(it.row, Sources(items, it)))
    && (forall k :: k in kept ==> exists it :: Chosen(items, it) && it.key == k)
  }

  /** The items of one key, in their order. */
  function Filter<K(==)>(items: seq<Item>, keyOf: Item -> K, k: K): seq<Item> {
    Select(items, it => keyOf(it) == k)
  }

  function RowsIn(items: seq<Item>): seq<Row> {
    seq(|items|, i requires 0 <= i < |items| => items[i].row)
  }

  function RowsOf(items: seq<Item>, g: Group): seq<Row> {
    RowsIn(Filter(items, GroupOf, g))
  }

  ghost predicate Listed(conflicts: seq<Conflict>, g: Group) {
    exists c :: c in conflicts && c.group == g
  }

  /** One conflict per disagreeing group, with all its rows. */
  ghost predicate ConflictsRight(conflicts: seq<Conflict>, items: seq<Item>) {
    && (forall i, j :: 0 <= i < j < |conflicts| ==> conflicts[i].group != conflicts[j].group)
    && (forall c :: c in conflicts ==> !Agreed(items, c.group) && c.examples == RowsOf(items, c.group))
    && (forall g :: !Agreed(items, g) ==> Listed(conflicts, g))
  }

  // ----- What the outcome guarantees.

  lemma {:induction false} FirstExists(items: seq<Item>, it: Item, pool: seq<Item>) returns (best: Item)
    requires it in pool && forall x :: x in pool ==> x in items
    ensures best in pool && Peers(best, it) && forall x :: x in pool && Peers(x, it) ==> RankLeq(best, x)
    decreases |pool|
  {
    var front, last := pool[..|pool| - 1], pool[|pool| - 1];
    assert pool == front + [last];
    RankTotal(last, last);
    if exists y :: y in front && Peers(y, it) {
      var y :| y in front && Peers(y, it);
      best := FirstExists(items, y, front);
      if Peers(last, it) {
        RankTotal(best, last);
        if !RankLeq(best, last) {
          forall x | x in front && Peers(x, it) ensures RankLeq(last, x) {
            RankTransitive(last, best, x);
          }
          best := last;
        }
      }
    } else {
      best := last;
    }
  }

  /** Every row is represented by exactly one kept example of its prediction, or its group is a conflict. */
  lemma Conservation(items: seq<Item>, kept: map<string, Kept>, conflicts: seq<Conflict>, it: Item)
    requires DistinctKeys(items) && KeptRight(kept, items) && ConflictsRight(conflicts, items) && it in items
    ensures if Agreed(items, GroupOf(it))
      then (exists best :: best in items && Peers(best, it) && best.key in kept && kept[best.key].row == best.row
              && best.row.outcome == it.row.outcome && SourceOf(it.row) in kept[best.key].supportingSources)
      else exists c :: c in conflicts && c.group == GroupOf(it) && it.row in c.examples
  {
    if Agreed(items, GroupOf(it)) {
      var best := FirstExists(items, it, items);
      assert Chosen(items, best);
      assert it in items && Peers(it, best);
    } else {
      var c :| c in conflicts && c.group == GroupOf(it);
      RowsOfMembers(items, GroupOf(it), it.row);
    }
  }

  lemma RowsOfMembers(items: seq<Item>, g: Group, r: Row)
    ensures r in RowsOf(items, g) <==> exists it :: it in items && GroupOf(it) == g && it.row == r
  {
    var members := Filter(items, GroupOf, g);
    FilterMembers(items, GroupOf, g);
    if it :| it in members && it.row == r {
      var i :| 0 <= i < |members| && members[i] == it;
      assert RowsIn(members)[i] == r;
    }
  }

  /** Kept examples of one state share their label, and a prediction keeps one example only. */
  lemma KeptAgree(items: seq<Item>, a: Item, b: Item)
    requires Chosen(items, a) && Chosen(items, b) && GroupOf(a) == GroupOf(b)
    ensures a.row.outcome == b.row.outcome
    ensures PredictionOf(a) == PredictionOf(b) ==> a.key == b.key
  {
    if PredictionOf(a) == PredictionOf(b) {
      RankAntisymmetric(a, b);
    }
  }

  ghost predicate SameItems(s: seq<Item>, t: seq<Item>) {
    forall it :: it in s <==> it in t
  }

  /** The kept examples are the same for every order of the dictionary. */
  lemma KeptIgnoresOrder(s: seq<Item>, t: seq<Item>, keptS: map<string, Kept>, keptT: map<string, Kept>)
    requires SameItems(s, t) && KeptRight(keptS, s) && KeptRight(keptT, t)
    ensures keptS == keptT
  {
    KeptIncluded(s, t, keptS, keptT);
    KeptIncluded(t, s, keptT, keptS);
    MutualInclusion(keptS, keptT);
  }

  lemma MutualInclusion(a: map<string, Kept>, b: map<string, Kept>)
    requires a.Keys <= b.Keys && b.Keys <= a.Keys && forall k :: k in a ==> b[k] == a[k]
    ensures a == b
  {
  }

  lemma KeptIncluded(s: seq<Item>, t: seq<Item>, keptS: map<string, Kept>, keptT: map<string, Kept>)
    requires SameItems(s, t) && KeptRight(keptS, s) && KeptRight(keptT, t)
    ensures keptS.Keys <= keptT.Keys && forall k :: k in keptS ==> keptT[k] == keptS[k]
  {
    forall k | k in keptS ensures k in keptT && keptT[k] == keptS[k] {
      KeptAt(s, t, keptS, keptT, k);
    }
  }

  lemma KeptAt(s: seq<Item>, t: seq<Item>, keptS: map<string, Kept>, keptT: map<string, Kept>, k: string)
    requires SameItems(s, t) && KeptRight(keptS, s) && KeptRight(keptT, t) && k in keptS
    ensures k in keptT && keptT[k] == keptS[k]
  {
    var it :| Chosen(s, it) && it.key == k;
    SameSources(s, t, it);
  }

  lemma SameSources(s: seq<Item>, t: seq<Item>, it: Item)
    requires SameItems(s, t)
    ensures Sources(s, it) == Sources(t, it)
  {
  }

  lemma RowsOfAppend(s: seq<Item>, t: seq<Item>, g: Group)
    ensures RowsOf(s + t, g) == RowsOf(s, g) + RowsOf(t, g)
  {
    FilterAppend(s, t, GroupOf, g);
    assert RowsIn(Filter(s, GroupOf, g) + Filter(t, GroupOf, g)) == RowsOf(s, g) + RowsOf(t, g);
  }

  /** A group's rows are the same, each as often, however the items are listed. */
  lemma {:induction false} RowsOfPermuted(s: seq<Item>, t: seq<Item>, g: Group)
    requires multiset(s) == multiset(t)
    ensures multiset(RowsOf(s, g)) == multiset(RowsOf(t, g))
  {
    if s == [] {
      assert |t| == |multiset(t)| == |multiset(s)| == 0;
    } else {
      var front, last := s[..|s| - 1], s[|s| - 1];
      TakenOut(s, |s| - 1);
      assert s == front + [last] && front + s[|s|..] == front && last in multiset(t);
      var i :| 0 <= i < |t| && t[i] == last;
      var a, b := t[..i], t[i + 1..];
      TakenOut(t, i);
      RowsOfPermuted(front, a + b, g);
      RowsOfMoved(a, last, b, g);
      RowsOfAppend(front, [last], g);
    }
  }

  lemma TakenOut(t: seq<Item>, i: nat)
    requires i < |t|
    ensures t == t[..i] + [t[i]] + t[i + 1..]
    ensures multiset(t[..i] + t[i + 1..]) == multiset(t) - multiset{t[i]}
  {
    assert t == t[..i] + [t[i]] + t[i + 1..];
  }

  lemma RowsOfMoved(a: seq<Item>, x: Item, b: seq<Item>, g: Group)
    ensures multiset(RowsOf(a + [x] + b, g)) == multiset(RowsOf(a + b, g)) + multiset(RowsOf([x], g))
  {
    RowsOfAppend(a, b, g);
    RowsOfAppend(a + [x], b, g);
    RowsOfAppend(a, [x], g);
  }

  /** So are the conflicting groups and the rows listed for each, each as often. */
  lemma ConflictsIgnoreOrder(s: seq<Item>, t: seq<Item>, conflictsS: seq<Conflict>, conflictsT: seq<Conflict>)
    requires multiset(s) == multiset(t) && ConflictsRight(conflictsS, s) && ConflictsRight(conflictsT, t)
    ensures forall c :: c in conflictsS ==>
      exists d :: d in conflictsT && d.group == c.group && multiset(c.examples) == multiset(d.examples)
  {
    forall it ensures it in s <==> it in t {
      assert it in s <==> it in multiset(s);
      assert it in t <==> it in multiset(t);
    }
    forall c | c in conflictsS
      ensures exists d :: d in conflictsT && d.group == c.group && multiset(c.examples) == multiset(d.examples)
    {
      assert Agreed(s, c.group) <==> Agreed(t, c.group);
      assert Listed(conflictsT, c.group);
      var d :| d in conflictsT && d.group == c.group;
      RowsOfPermuted(s, t, c.group);
    }
  }

  // ----- The same, on the fields of the rows.

  /** Rows of one target, event and state: the set number for sets, else the state, else the snapshot itself. */
  predicate SameState(a: Row, b: Row) {
    && a.target == b.target && a.event == b.event
    && if a.target == "set" then a.setNumber == b.setNumber
       else if a.targetState.None? && b.targetState.None? then a.snapshot == b.snapshot && a.snapshotAt == b.snapshotAt
       else a.targetState == b.targetState
  }

  predicate SamePrediction(a: Row, b: Row) {
    SameState(a, b) && a.snapshot == b.snapshot && a.snapshotAt == b.snapshotAt
  }

  predicate Dated(r: Row) {
    r.availableAt.Some? && r.availableAt.value != ""
  }

  /** Earlier availability first, examples without one last, and by key where availability does not decide. */
  predicate Sooner(a: Item, b: Item) {
    match (Dated(a.row), Dated(b.row))
    case (true, true) =>
      || TextLess(a.row.availableAt.value, b.row.availableAt.value)
      || (a.row.availableAt == b.row.availableAt && TextLeq(a.key, b.key))
    case (true, false) =>
      a.row.availableAt.value[0] < 0xFFFF as char || (a.row.availableAt.value == "\U{FFFF}" && TextLeq(a.key, b.key))
    case (false, true) =>
      b.row.availableAt.value[0] >= 0xFFFF as char
      && (b.row.availableAt.value != "\U{FFFF}" || TextLeq(a.key, b.key))
    case (false, false) => TextLeq(a.key, b.key)
  }

  lemma RankMeaning(a: Item, b: Item)
    ensures RankLeq(a, b) <==> Sooner(a, b)
  {
    var last: string := [0xFFFF as char];
    AgainstLast(Availability(a.row));
    AgainstLast(Availability(b.row));
    TextLeqReflexive(last);
  }

  lemma AgainstLast(s: string)
    requires s != ""
    ensures TextLeq(s, [0xFFFF as char]) <==> s[0] < 0xFFFF as char || s == [0xFFFF as char]
    ensures TextLeq([0xFFFF as char], s) <==> s[0] >= 0xFFFF as char
  {
    assert s == [s[0]] + s[1..];
  }

  lemma FieldsMeaning(a: Item, b: Item)
    ensures GroupOf(a) == GroupOf(b) <==> SameState(a.row, b.row)
    ensures Peers(a, b) <==> SamePrediction(a.row, b.row)
    ensures a.row.source == None || a.row.source == Some("") ==> SourceOf(a.row) == "flashscore"
    ensures a.row.source != None && a.row.source != Some("") ==> Some(SourceOf(a.row)) == a.row.source
  {
  }

  /**
   An example is kept exactly when no two rows of its state have different labels and it is the first
   of its prediction; with it are kept the sources of all rows of that prediction.
   */
  lemma KeptMeaning(items: seq<Item>, kept: map<string, Kept>, it: Item)
    requires DistinctKeys(items) && KeptRight(kept, items) && it in items
    ensures it.key in kept
      <==> && (forall x :: x in items && SameState(x.row, it.row) ==> x.row.outcome == it.row.outcome)
           && (forall x :: x in items && SamePrediction(x.row, it.row) ==> Sooner(it, x))
    ensures it.key in kept ==>
      kept[it.key].row == it.row
      && forall s :: s in kept[it.key].supportingSources <==>
           exists x :: x in items && SamePrediction(x.row, it.row) && SourceOf(x.row) == s
  {
    ChosenMeaning(items, it);
    if it.key in kept {
      var chosen :| Chosen(items, chosen) && chosen.key == it.key;
      SameKeySameItem(items, chosen, it);
      SourcesMeaning(items, it);
    }
  }

  lemma ChosenMeaning(items: seq<Item>, it: Item)
    requires it in items
    ensures Chosen(items, it)
      <==> && (forall x :: x in items && SameState(x.row, it.row) ==> x.row.outcome == it.row.outcome)
           && (forall x :: x in items && SamePrediction(x.row, it.row) ==> Sooner(it, x))
  {
    forall x | x in items
      ensures GroupOf(x) == GroupOf(it) <==> SameState(x.row, it.row)
      ensures Peers(x, it) <==> SamePrediction(x.row, it.row)
      ensures RankLeq(it, x) <==> Sooner(it, x)
    {
      FieldsMeaning(x, it);
      RankMeaning(it, x);
    }
  }

  lemma SourcesMeaning(items: seq<Item>, it: Item)
    ensures forall s ::
      s in Sources(items, it) <==> exists x :: x in items && SamePrediction(x.row, it.row) && SourceOf(x.row) == s
  {
    forall x ensures Peers(x, it) <==> SamePrediction(x.row, it.row) {
      FieldsMeaning(x, it);
    }
  }

  /** A row is listed in a conflict exactly when another row of its state has another label; all of them are listed. */
  lemma ConflictMeaning(items: seq<Item>, conflicts: seq<Conflict>, it: Item)
    requires ConflictsRight(conflicts, items) && it in items
    ensures (exists c :: c in conflicts && c.group == GroupOf(it))
            <==> exists x :: x in items && SameState(x.row, it.row) && x.row.outcome != it.row.outcome
    ensures GroupOf(it).target == it.row.target && GroupOf(it).event == it.row.event
    ensures forall c, r :: c in conflicts && c.group == GroupOf(it) ==>
      (r in c.examples <==> exists x :: x in items && SameState(x.row, it.row) && x.row == r)
  {
    forall x ensures GroupOf(x) == GroupOf(it) <==> SameState(x.row, it.row) {
      FieldsMeaning(x, it);
    }
    assert Agreed(items, GroupOf(it))
      <==> forall x :: x in items && SameState(x.row, it.row) ==> x.row.outcome == it.row.outcome;
    if !Agreed(items, GroupOf(it)) {
      assert Listed(conflicts, GroupOf(it));
    }
    forall r { RowsOfMembers(items, GroupOf(it), r); }
  }

  // ----- The loops.

  lemma FilterMembers<K>(items: seq<Item>, keyOf: Item -> K, k: K)
    ensures forall it :: it in Filter(items, keyOf, k) <==> it in items && keyOf(it) == k
    ensures Filter(items, keyOf, k) == [] <==> forall it :: it in items ==> keyOf(it) != k
  {
    SelectMembers(items, it => keyOf(it) == k);
  }

  lemma FilterAppend<K>(s: seq<Item>, t: seq<Item>, keyOf: Item -> K, k: K)
    ensures Filter(s + t, keyOf, k) == Filter(s, keyOf, k) + Filter(t, keyOf, k)
  {
    SelectAppend(s, t, it => keyOf(it) == k);
  }

  lemma FilterOneMore<K>(front: seq<Item>, it: Item, keyOf: Item -> K, k: K)
    ensures Filter(front + [it], keyOf, k)
            == if keyOf(it) == k then Filter(front, keyOf, k) + [it] else Filter(front, keyOf, k)
  {
    FilterAppend(front, [it], keyOf, k);
    SelectOne(it, x => keyOf(x) == k);
  }

  /** The keys in order of first appearance, and for each its items in order. */
  ghost predicate GroupedBy<K(!new)>(order: seq<K>, groups: map<K, seq<Item>>, items: seq<Item>, keyOf: Item -> K) {
    && (forall i, j :: 0 <= i < j < |order| ==> order[i] != order[j])
    && (forall k :: k in groups <==> k in order)
    && (forall it :: it in items ==> keyOf(it) in groups)
    && (forall k :: k in groups ==> groups[k] != [] && groups[k] == Filter(items, keyOf, k))
  }

  method GroupBy<K(==, !new)>(items: seq<Item>, keyOf: Item -> K) returns (order: seq<K>, groups: map<K, seq<Item>>)
    ensures GroupedBy(order, groups, items, keyOf)
  {
    order, groups := [], map[];
    for i := 0 to |items|
      invariant GroupedBy(order, groups, items[..i], keyOf)
    {
      GroupedStep(order, groups, items, i, keyOf);
      var k := keyOf(items[i]);
      if k in groups {
        groups := groups[k := groups[k] + [items[i]]];
      } else {
        order, groups := order + [k], groups[k := [items[i]]];
      }
    }
    assert items[..|items|] == items;
  }

  lemma GroupedStep<K(!new)>(order: seq<K>, groups: map<K, seq<Item>>, items: seq<Item>, i: nat, keyOf: Item -> K)
    requires i < |items| && GroupedBy(order, groups, items[..i], keyOf)
    ensures var k := keyOf(items[i]);
      if k in groups then GroupedBy(order, groups[k := groups[k] + [items[i]]], items[..i + 1], keyOf)
      else GroupedBy(order + [k], groups[k := [items[i]]], items[..i + 1], keyOf)
  {
    var front, k := items[..i], keyOf(items[i]);
    assert items[..i + 1] == front + [items[i]];
    GroupedMore(order, groups, front, items[i], keyOf);
  }

  lemma FiltersMore<K(!new)>(front: seq<Item>, it: Item, keyOf: Item -> K)
    ensures forall k ::
        Filter(front + [it], keyOf, k) == Filter(front, keyOf, k) + (if keyOf(it) == k then [it] else [])
  {
    forall k
      ensures Filter(front + [it], keyOf, k) == Filter(front, keyOf, k) + (if keyOf(it) == k then [it] else [])
    {
      FilterOneMore(front, it, keyOf, k);
    }
  }

  lemma GroupedMore<K(!new)>(order: seq<K>, groups: map<K, seq<Item>>, front: seq<Item>, it: Item, keyOf: Item -> K)
    requires GroupedBy(order, groups, front, keyOf)
    ensures var k := keyOf(it);
      if k in groups then GroupedBy(order, groups[k := groups[k] + [it]], front + [it], keyOf)
      else GroupedBy(order + [k], groups[k := [it]], front + [it], keyOf)
  {
    FiltersMore(front, it, keyOf);
    assert forall x :: x in front + [it] <==> x in front || x == it;
    if keyOf(it) !in groups {
      FilterMembers(front, keyOf, keyOf(it));
    }
  }

  /** The first of a nonempty list by availability and key. */
  method MinByRank(values: seq<Item>) returns (best: Item)
    requires values != []
    ensures best in values && forall x :: x in values ==> RankLeq(best, x)
  {
    best := values[0];
    RankTotal(best, best);
    for i := 1 to |values|
      invariant best in values && forall j :: 0 <= j < i ==> RankLeq(best, values[j])
    {
      RankTotal(best, values[i]);
      RankTotal(values[i], values[i]);
      if !RankLeq(best, values[i]) {
        forall j | 0 <= j < i ensures RankLeq(values[i], values[j]) {
          RankTransitive(values[i], best, values[j]);
        }
        best := values[i];
      }
    }
  }

  /** Whether an example has been dealt with: its group is done, or its prediction in the current one. */
  predicate Reached(it: Item, done: seq<Group>, g: Group, predictions: seq<Prediction>) {
    GroupOf(it) in done || (GroupOf(it) == g && PredictionOf(it) in predictions)
  }

  ghost predicate KeptUpTo(kept: map<string, Kept>, items: seq<Item>, done: seq<Group>, g: Group,
      predictions: seq<Prediction>) {
    && (forall it :: Chosen(items, it) && Reached(it, done, g, predictions) ==>
           it.key in kept && kept[it.key] == Kept(it.row, Sources(items, it)))
    && (forall k :: k in kept ==> exists it :: Chosen(items, it) && it.key == k)
  }

  /** All groups listed are dealt with. */
  ghost predicate KeptDone(kept: map<string, Kept>, items: seq<Item>, done: seq<Group>) {
    && (forall it :: Chosen(items, it) && GroupOf(it) in done ==>
           it.key in kept && kept[it.key] == Kept(it.row, Sources(items, it)))
    && (forall k :: k in kept ==> exists it :: Chosen(items, it) && it.key == k)
  }

  lemma GroupCovered(kept: map<string, Kept>, items: seq<Item>, done: seq<Group>, g: Group, order: seq<Prediction>,
      members: seq<Item>)
    requires KeptUpTo(kept, items, done, g, order) && members == Filter(items, GroupOf, g)
    requires forall it :: it in members ==> PredictionOf(it) in order
    ensures KeptDone(kept, items, done + [g])
  {
    FilterMembers(items, GroupOf, g);
    assert forall it :: Chosen(items, it) && GroupOf(it) in done + [g] ==> Reached(it, done, g, order);
  }

  lemma SameKeySameItem(items: seq<Item>, a: Item, b: Item)
    requires DistinctKeys(items) && a in items && b in items && a.key == b.key
    ensures a == b
  {
  }

  lemma KeepBest(kept: map<string, Kept>, items: seq<Item>, done: seq<Group>, g: Group, predictions: seq<Prediction>,
      best: Item)
    requires DistinctKeys(items) && KeptUpTo(kept, items, done, g, predictions)
    requires Chosen(items, best) && GroupOf(best) == g
    ensures var now := kept[best.key := Kept(best.row, Sources(items, best))];
      KeptUpTo(now, items, done, g, predictions + [PredictionOf(best)])
  {
    var now := kept[best.key := Kept(best.row, Sources(items, best))];
    forall it | Chosen(items, it) && Reached(it, done, g, predictions + [PredictionOf(best)])
      ensures it.key in now && now[it.key] == Kept(it.row, Sources(items, it))
    {
      if it.key == best.key {
        SameKeySameItem(items, it, best);
      } else if !Reached(it, done, g, predictions) {
        KeptAgree(items, it, best);
      }
    }
    forall k | k in now ensures exists it :: Chosen(items, it) && it.key == k {
      if k != best.key {
        assert k in kept;
      }
    }
  }

  /** Keep the first example of every prediction of an agreeing group. */
  method KeepGroup(was: map<string, Kept>, members: seq<Item>, g: Group, ghost items: seq<Item>,
      ghost done: seq<Group>) returns (kept: map<string, Kept>)
    requires DistinctKeys(items) && members == Filter(items, GroupOf, g) && Agreed(items, g)
    requires KeptDone(was, items, done)
    ensures KeptDone(kept, items, done + [g])
  {
    var order, predictions := GroupBy(members, PredictionOf);
    kept := was;
    for i := 0 to |order|
      invariant KeptUpTo(kept, items, done, g, order[..i])
    {
      assert order[..i + 1] == order[..i] + [order[i]];
      kept := KeepPrediction(kept, predictions[order[i]], members, g, items, done, order[..i], order[i]);
    }
    assert order[..|order|] == order;
    GroupCovered(kept, items, done, g, order, members);
  }

  /** The best example of one prediction, with the sources of all its peers. */
  method KeepPrediction(was: map<string, Kept>, values: seq<Item>, ghost members: seq<Item>, ghost g: Group,
      ghost items: seq<Item>, ghost done: seq<Group>, ghost before: seq<Prediction>, ghost p: Prediction)
    returns (kept: map<string, Kept>)
    requires DistinctKeys(items) && members == Filter(items, GroupOf, g) && Agreed(items, g)
    requires values != [] && values == Filter(members, PredictionOf, p) && KeptUpTo(was, items, done, g, before)
    ensures KeptUpTo(kept, items, done, g, before + [p])
  {
    var best := MinByRank(values);
    MinIsChosen(items, members, g, values, p, best);
    KeepBest(was, items, done, g, before, best);
    kept := was[best.key := Kept(best.row, set x | x in values :: SourceOf(x.row))];
  }

  lemma MinIsChosen(items: seq<Item>, members: seq<Item>, g: Group, values: seq<Item>, p: Prediction, best: Item)
    requires members == Filter(items, GroupOf, g) && values == Filter(members, PredictionOf, p) && Agreed(items, g)
    requires best in values && forall x :: x in values ==> RankLeq(best, x)
    ensures Chosen(items, best) && GroupOf(best) == g && PredictionOf(best) == p
    ensures (set x | x in values :: SourceOf(x.row)) == Sources(items, best)
  {
    FilterMembers(items, GroupOf, g);
    FilterMembers(members, PredictionOf, p);
    assert forall x :: x in values <==> x in items && GroupOf(x) == g && PredictionOf(x) == p;
  }

  lemma AtMostOneLabel(members: seq<Item>)
    ensures |(set it | it in members :: it.row.outcome)| <= 1
        <==> forall x, y :: x in members && y in members ==> x.row.outcome == y.row.outcome
  {
    var labels := set it | it in members :: it.row.outcome;
    if forall x, y :: x in members && y in members ==> x.row.outcome == y.row.outcome {
      if labels != {} {
        var l :| l in labels;
        assert labels == {l};
      }
    } else {
      var x, y :| x in members && y in members && x.row.outcome != y.row.outcome;
      assert {x.row.outcome, y.row.outcome} <= labels;
      assert |labels - {x.row.outcome}| == |labels| - 1;
      assert y.row.outcome in labels - {x.row.outcome};
    }
  }

  ghost predicate ConflictsUpTo(conflicts: seq<Conflict>, items: seq<Item>, done: seq<Group>) {
    && (forall i, j :: 0 <= i < j < |conflicts| ==> conflicts[i].group != conflicts[j].group)
    && (forall c :: c in conflicts ==>
           c.group in done && !Agreed(items, c.group) && c.examples == RowsOf(items, c.group))
    && (forall g :: g in done && !Agreed(items, g) ==> Listed(conflicts, g))
  }

  lemma ConflictListed(conflicts: seq<Conflict>, items: seq<Item>, done: seq<Group>, g: Group)
    requires ConflictsUpTo(conflicts, items, done) && g !in done
    ensures var now := if Agreed(items, g) then conflicts else conflicts + [Conflict(g, RowsOf(items, g))];
      ConflictsUpTo(now, items, done + [g])
  {
    if !Agreed(items, g) {
      ConflictAppended(conflicts, items, done, g);
    }
  }

  lemma ConflictAppended(conflicts: seq<Conflict>, items: seq<Item>, done: seq<Group>, g: Group)
    requires ConflictsUpTo(conflicts, items, done) && g !in done && !Agreed(items, g)
    ensures ConflictsUpTo(conflicts + [Conflict(g, RowsOf(items, g))], items, done + [g])
  {
    var new_ := Conflict(g, RowsOf(items, g));
    var now := conflicts + [new_];
    assert forall c :: c in now <==> c in conflicts || c == new_;
    forall x | x in done + [g] && !Agreed(items, x) ensures Listed(now, x) {
      if x == g {
        assert new_ in now;
      } else {
        assert Listed(conflicts, x);
        var c :| c in conflicts && c.group == x;
        assert c in now;
      }
    }
  }

  /** Group by state, set disagreeing groups aside, keep one example per prediction of the others. */
  method ResolveSourceExamples(items: seq<Item>) returns (kept: map<string, Kept>, conflicts: seq<Conflict>)
    requires DistinctKeys(items)
    ensures KeptRight(kept, items) && ConflictsRight(conflicts, items)
  {
    var order, groups := GroupBy(items, GroupOf);
    kept, conflicts := map[], [];
    for i := 0 to |order|
      invariant KeptDone(kept, items, order[..i]) && ConflictsUpTo(conflicts, items, order[..i])
    {
      assert order[..i + 1] == order[..i] + [order[i]];
      kept, conflicts := ResolveGroup(kept, conflicts, order[i], groups[order[i]], items, order[..i]);
    }
    assert order[..|order|] == order;
    AllDone(kept, conflicts, items, order);
  }

  method ResolveGroup(wasKept: map<string, Kept>, wasConflicts: seq<Conflict>, g: Group, members: seq<Item>,
      ghost items: seq<Item>, ghost done: seq<Group>)
    returns (kept: map<string, Kept>, conflicts: seq<Conflict>)
    requires DistinctKeys(items) && members == Filter(items, GroupOf, g) && g !in done
    requires KeptDone(wasKept, items, done) && ConflictsUpTo(wasConflicts, items, done)
    ensures KeptDone(kept, items, done + [g]) && ConflictsUpTo(conflicts, items, done + [g])
  {
    kept, conflicts := wasKept, wasConflicts;
    GroupLabels(items, g, members);
    ConflictListed(conflicts, items, done, g);
    if |(set it | it in members :: it.row.outcome)| > 1 {
      ConflictKeepsNothing(kept, items, done, g);
      conflicts := conflicts + [Conflict(g, RowsIn(members))];
    } else {
      kept := KeepGroup(kept, members, g, items, done);
    }
  }

  lemma ConflictKeepsNothing(kept: map<string, Kept>, items: seq<Item>, done: seq<Group>, g: Group)
    requires KeptDone(kept, items, done) && !Agreed(items, g)
    ensures KeptDone(kept, items, done + [g])
  {
  }

  lemma AllDone(kept: map<string, Kept>, conflicts: seq<Conflict>, items: seq<Item>, order: seq<Group>)
    requires KeptDone(kept, items, order) && ConflictsUpTo(conflicts, items, order)
    requires forall it :: it in items ==> GroupOf(it) in order
    ensures KeptRight(kept, items) && ConflictsRight(conflicts, items)
  {
  }

  lemma GroupLabels(items: seq<Item>, g: Group, members: seq<Item>)
    requires members == Filter(items, GroupOf, g)
    ensures |(set it | it in members :: it.row.outcome)| <= 1 <==> Agreed(items, g)
  {
    AtMostOneLabel(members);
    FilterMembers(items, GroupOf, g);
  }
}
