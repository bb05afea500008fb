/** Which labelled training matches a fold may use: those whose label was known when validation starts. */
module CausalFilter {
  import opened Options
  import opened Sorting
  import opened Sequences
  import opened WalkForward

  datatype Times = Times(forecastAt: Option<int>, availableAt: Option<int>)

  function ForecastOf(times: map<string, Times>, id: string): Option<int> {
    if id in times then times[id].forecastAt else None
  }

  function AvailableOf(times: map<string, Times>, id: string): Option<int> {
    if id in times then times[id].availableAt else None
  }

  predicate Labelled(labels: map<string, set<int>>, id: string) {
    id in labels && labels[id] != {}
  }

  /** The smallest known time, if any is known. */
  function Earliest(ids: seq<string>, time: string -> Option<int>): (t: Option<int>)
    ensures t.None? <==> forall id :: id in ids ==> time(id) == None
    ensures t.Some? ==> exists id :: id in ids && time(id) == t
    ensures t.Some? ==> forall id :: id in ids && time(id).Some? ==> t.value <= time(id).value
  {
    if ids == [] then None
    else
      var rest := Earliest(ids[1..], time);
      match time(ids[0])
      case None => rest
      case Some(x) => if rest.Some? && rest.value < x then rest else Some(x)
  }

  function Latest(ids: seq<string>, time: string -> Option<int>): (t: Option<int>)
    ensures t.None? <==> forall id :: id in ids ==> time(id) == None
    ensures t.Some? ==> exists id :: id in ids && time(id) == t
    ensures t.Some? ==> forall id :: id in ids && time(id).Some? ==> time(id).value <= t.value
  {
    if ids == [] then None
    else
      var rest := Latest(ids[1..], time);
      match time(ids[0])
      case None => rest
      case Some(x) => if rest.Some? && rest.value > x then rest else Some(x)
  }

  datatype Precedence = Precedence(
    passed: bool, missingTrain: nat, missingValidation: nat, latestLabel: Option<int>, earliestForecast: Option<int>)

  /** Every training outcome known before the first validation forecast. */
  function TemporalPrecedence(train: seq<string>, validation: seq<string>, times: map<string, Times>): Precedence {
    var missingTrain := |Select(train, id => AvailableOf(times, id).None?)|;
    var missingValidation := |Select(validation, id => ForecastOf(times, id).None?)|;
    var latest := Latest(train, id => AvailableOf(times, id));
    var earliest := Earliest(validation, id => ForecastOf(times, id));
    var passed := missingTrain == 0 && missingValidation == 0 && latest.Some? && earliest.Some?
        && latest.value <= earliest.value;
    Precedence(passed, missingTrain, missingValidation, latest, earliest)
  }

  datatype FilterReport = FilterReport(
    cutoff: Option<int>, labelled: nat, eligible: nat, future: nat, unknown: nat, noBoundary: nat,
    missingValidation: nat)

  /** The first validation forecast, or none as soon as one forecast time is missing. */
  function Cutoff(validation: seq<string>, times: map<string, Times>): Option<int> {
    if |Select(validation, id => ForecastOf(times, id).None?)| > 0 then None
    else Earliest(validation, id => ForecastOf(times, id))
  }

  function CausalMembership(candidates: seq<string>, validation: seq<string>, labels: map<string, set<int>>,
      times: map<string, Times>)
    : (seq<string>, FilterReport)
  {
    var missingValidation := |Select(validation, id => ForecastOf(times, id).None?)|;
    var cutoff := Cutoff(validation, times);
    var labelled := Select(candidates, id => Labelled(labels, id));
    var unknown := Select(labelled, id => AvailableOf(times, id).None?);
    var future := Select(labelled, id => cutoff.Some? && AvailableOf(times, id).Some?
        && AvailableOf(times, id).value > cutoff.value);
    var eligible := if cutoff.None? then []
                    else Select(labelled, id => AvailableOf(times, id).Some?
                        && AvailableOf(times, id).value <= cutoff.value);
    (eligible, FilterReport(cutoff, |labelled|, |eligible|, |future|, |unknown|,
                            if cutoff.None? then |labelled| else 0, missingValidation))
  }

  /** Known no later than every validation forecast, all of which are known. */
  ghost predicate KnownInTime(id: string, validation: seq<string>, times: map<string, Times>) {
    && validation != [] && AvailableOf(times, id).Some?
    && forall v :: v in validation ==>
         ForecastOf(times, v).Some? && AvailableOf(times, id).value <= ForecastOf(times, v).value
  }

  lemma CutoffMeaning(validation: seq<string>, times: map<string, Times>)
    ensures Cutoff(validation, times).Some?
        <==> validation != [] && forall v :: v in validation ==> ForecastOf(times, v).Some?
    ensures Cutoff(validation, times).Some? ==>
        exists v :: v in validation && ForecastOf(times, v) == Cutoff(validation, times)
    ensures Cutoff(validation, times).Some? ==>
        forall v :: v in validation ==> Cutoff(validation, times).value <= ForecastOf(times, v).value
  {
    SelectMembers(validation, id => ForecastOf(times, id).None?);
    assert validation != [] ==> validation[0] in validation;
  }

  /** The filter keeps exactly the labelled candidates known in time. */
  lemma FilterExact(candidates: seq<string>, validation: seq<string>, labels: map<string, set<int>>,
      times: map<string, Times>, id: string)
    ensures id in CausalMembership(candidates, validation, labels, times).0
      <==> id in candidates && Labelled(labels, id) && KnownInTime(id, validation, times)
    ensures id in CausalMembership(candidates, validation, labels, times).0
      <==> && id in candidates && id in labels && labels[id] != {} && validation != []
           && id in times && times[id].availableAt.Some?
           && forall v :: v in validation ==>
                v in times && times[v].forecastAt.Some?
                && times[id].availableAt.value <= times[v].forecastAt.value
  {
    CutoffMeaning(validation, times);
    var cutoff := Cutoff(validation, times);
    SelectMembers(candidates, id => Labelled(labels, id));
    if cutoff.Some? {
      var labelled := Select(candidates, id => Labelled(labels, id));
      SelectMembers(labelled, id => AvailableOf(times, id).Some? && AvailableOf(times, id).value <= cutoff.value);
    }
  }

  lemma {:induction false} SelectSplit(ids: seq<string>, p: string -> bool, q: string -> bool, r: string -> bool)
    requires forall id :: id in ids ==>
        (p(id) && !q(id) && !r(id)) || (!p(id) && q(id) && !r(id)) || (!p(id) && !q(id) && r(id))
    ensures |ids| == |Select(ids, p)| + |Select(ids, q)| + |Select(ids, r)|
  {
    if ids != [] {
      assert ids[0] in ids;
      SelectSplit(ids[1..], p, q, r);
    }
  }

  /** What the numbers of the report count. */
  ghost predicate CountsRight(report: FilterReport, candidates: seq<string>, validation: seq<string>,
      labels: map<string, set<int>>, times: map<string, Times>) {
    && report.labelled == |Select(candidates, id => id in labels && labels[id] != {})|
    && report.unknown
       == |Select(candidates, id =>
             id in labels && labels[id] != {} && (id !in times || times[id].availableAt.None?))|
    && report.future
       == |Select(candidates, id => id in labels && labels[id] != {} && report.cutoff.Some? && id in times
             && times[id].availableAt.Some? && times[id].availableAt.value > report.cutoff.value)|
    && report.missingValidation == |Select(validation, id => id !in times || times[id].forecastAt.None?)|
  }

  /** With a boundary, every labelled candidate is kept, too late, or of unknown time; without one all are purged. */
  lemma FilterAccounts(candidates: seq<string>, validation: seq<string>, labels: map<string, set<int>>,
      times: map<string, Times>)
    ensures var (eligible, report) := CausalMembership(candidates, validation, labels, times);
      && report.eligible == |eligible|
      && (report.cutoff.Some? ==>
             report.labelled == report.eligible + report.future + report.unknown && report.noBoundary == 0)
      && (report.cutoff.None? ==> report.noBoundary == report.labelled && eligible == [])
    ensures var (_, report) := CausalMembership(candidates, validation, labels, times);
      CountsRight(report, candidates, validation, labels, times)
  {
    var cutoff := Cutoff(validation, times);
    var labelled := Select(candidates, id => Labelled(labels, id));
    if cutoff.Some? {
      SelectSplit(labelled,
        id => AvailableOf(times, id).Some? && AvailableOf(times, id).value <= cutoff.value,
        id => cutoff.Some? && AvailableOf(times, id).Some? && AvailableOf(times, id).value > cutoff.value,
        id => AvailableOf(times, id).None?);
    }
    ReportCounts(candidates, validation, labels, times);
  }

  lemma ReportCounts(candidates: seq<string>, validation: seq<string>, labels: map<string, set<int>>,
      times: map<string, Times>)
    ensures var (_, report) := CausalMembership(candidates, validation, labels, times);
      CountsRight(report, candidates, validation, labels, times)
  {
    var cutoff := Cutoff(validation, times);
    SelectSame(candidates, id => Labelled(labels, id), id => id in labels && labels[id] != {});
    SelectBoth(candidates, id => Labelled(labels, id), id => AvailableOf(times, id).None?,
      id => id in labels && labels[id] != {} && (id !in times || times[id].availableAt.None?));
    SelectBoth(candidates, id => Labelled(labels, id), id => cutoff.Some? && AvailableOf(times, id).Some?
        && AvailableOf(times, id).value > cutoff.value,
      id => id in labels && labels[id] != {} && cutoff.Some? && id in times && times[id].availableAt.Some?
        && times[id].availableAt.value > cutoff.value);
    SelectSame(validation, id => ForecastOf(times, id).None?, id => id !in times || times[id].forecastAt.None?);
  }

  /** The check itself: both sides known throughout, and every label no later than every forecast. */
  lemma PrecedenceMeaning(train: seq<string>, validation: seq<string>, times: map<string, Times>)
    ensures TemporalPrecedence(train, validation, times).passed
      <==> && train != [] && validation != []
           && (forall id :: id in train ==> id in times && times[id].availableAt.Some?)
           && (forall v :: v in validation ==> v in times && times[v].forecastAt.Some?)
           && (forall id, v :: id in train && v in validation ==>
                 times[id].availableAt.value <= times[v].forecastAt.value)
    ensures var p := TemporalPrecedence(train, validation, times);
      && p.missingTrain == |Select(train, id => id !in times || times[id].availableAt.None?)|
      && p.missingValidation == |Select(validation, id => id !in times || times[id].forecastAt.None?)|
  {
    SelectSame(train, id => AvailableOf(times, id).None?, id => id !in times || times[id].availableAt.None?);
    SelectSame(validation, id => ForecastOf(times, id).None?, id => id !in times || times[id].forecastAt.None?);
    SelectMembers(train, id => AvailableOf(times, id).None?);
    SelectMembers(validation, id => ForecastOf(times, id).None?);
    assert train != [] ==> train[0] in train;
    assert validation != [] ==> validation[0] in validation;
  }

  /** On filtered training ids the precedence check passes exactly when any are left. */
  lemma PrecedenceExact(candidates: seq<string>, validation: seq<string>, labels: map<string, set<int>>,
      times: map<string, Times>)
    ensures var eligible := CausalMembership(candidates, validation, labels, times).0;
      TemporalPrecedence(eligible, validation, times).passed <==> eligible != []
  {
    var eligible := CausalMembership(candidates, validation, labels, times).0;
    forall id | id in eligible ensures KnownInTime(id, validation, times) {
      FilterExact(candidates, validation, labels, times, id);
    }
    if eligible != [] {
      KnownPasses(eligible, validation, times);
    }
  }

  lemma KnownPasses(train: seq<string>, validation: seq<string>, times: map<string, Times>)
    requires train != [] && forall id :: id in train ==> KnownInTime(id, validation, times)
    ensures TemporalPrecedence(train, validation, times).passed
  {
    assert train[0] in train;
    SelectMembers(train, id => AvailableOf(times, id).None?);
    SelectMembers(validation, id => ForecastOf(times, id).None?);
    assert validation[0] in validation;
  }

  // ----- The whole admission for one target.

  datatype FoldReport = FoldReport(number: nat, train: seq<string>, validation: seq<string>, precedence: Precedence)

  function Ids(matches: seq<Match>): seq<string> {
    seq(|matches|, i requires 0 <= i < |matches| => matches[i].id)
  }

  /** Nothing is reordered: the kept ids stand as they do among the candidates, each as often. */
  lemma FilterKeepsOrder(candidates: seq<string>, validation: seq<string>, labels: map<string, set<int>>,
      times: map<string, Times>)
    ensures var kept := CausalMembership(candidates, validation, labels, times).0;
      kept == Select(candidates, id => id in kept)
  {
    var kept := CausalMembership(candidates, validation, labels, times).0;
    var cutoff := Cutoff(validation, times);
    SelectMembers(candidates, id => id in kept);
    if cutoff.Some? {
      var inTime := id => AvailableOf(times, id).Some? && AvailableOf(times, id).value <= cutoff.value;
      var both := id => Labelled(labels, id) && inTime(id);
      SelectBoth(candidates, id => Labelled(labels, id), inTime, both);
      SelectMembers(candidates, both);
      SelectSame(candidates, both, id => id in kept);
    }
  }

  /** The report trains only on earlier matches whose labels were known when validation starts. */
  ghost predicate NoLeak(r: FoldReport, f: Fold, labels: map<string, set<int>>, times: map<string, Times>) {
    && r.number == f.number
    && r.validation == Select(Ids(f.validation), id => Labelled(labels, id))
    && (forall k :: 0 <= k < |f.validation| ==> Ids(f.validation)[k] == f.validation[k].id)
    && (forall k :: 0 <= k < |f.train| ==> Ids(f.train)[k] == f.train[k].id)
    && r.train == Select(Ids(f.train), id => id in r.train)
    && (forall id :: id in r.train
           <==> id in Ids(f.train) && Labelled(labels, id) && KnownInTime(id, r.validation, times))
    && (r.precedence.passed <==> r.train != [])
  }

  /** Training is before validation, and both are before the holdout; ids decide at equal times. */
  ghost predicate InTime(f: Fold, holdout: seq<Match>) {
    && (forall a, b :: a in f.train && b in f.validation ==> Earlier(a, b) && a.id != b.id)
    && (forall a, h :: (a in f.train || a in f.validation) && h in holdout ==> Earlier(a, h) && a.id != h.id)
  }

  lemma OrderElements(matches: seq<Match>)
    ensures multiset(Order(matches)) == multiset(matches) && |Order(matches)| == |matches|
  {
    SortElements(matches, Before);
  }

  lemma FoldsInTime(s: Split, cuts: seq<nat>, ordered: seq<Match>)
    requires Ordered(ordered) && SplitOf(s, cuts, ordered)
    ensures forall i :: 0 <= i < 4 ==> InTime(s.folds[i], s.holdout)
  {
    SplitSound(s, cuts, ordered);
  }

  /** Split, then filter every fold. `matches` is the dictionary of first forecast times. */
  method WalkForwardAdmission(matches: seq<Match>, labels: map<string, set<int>>, times: map<string, Times>)
    returns (s: Split, reports: seq<FoldReport>, ghost cuts: seq<nat>)
    requires DistinctIds(matches)
    ensures SplitOf(s, cuts, Order(matches)) && RightCuts(cuts, |s.development|)
    ensures multiset(s.development + s.holdout) == multiset(matches)
    ensures 5 * |s.development| <= 4 * |matches| < 5 * (|s.development| + 1)
    ensures forall i :: 0 <= i < 4 ==> InTime(s.folds[i], s.holdout)
    ensures |reports| == 4 && forall i :: 0 <= i < 4 ==> NoLeak(reports[i], s.folds[i], labels, times)
    ensures forall i :: 0 <= i < 4 ==> Causal(reports[i], times)
  {
    s, cuts := SplitInOrder(matches);
    reports := ReportFolds(s.folds, labels, times);
    AllCausal(s, reports, labels, times);
  }

  method SplitInOrder(matches: seq<Match>) returns (s: Split, ghost cuts: seq<nat>)
    requires DistinctIds(matches)
    ensures SplitOf(s, cuts, Order(matches)) && RightCuts(cuts, |s.development|)
    ensures multiset(s.development + s.holdout) == multiset(matches)
    ensures 5 * |s.development| <= 4 * |matches| < 5 * (|s.development| + 1)
    ensures forall i :: 0 <= i < 4 ==> InTime(s.folds[i], s.holdout)
  {
    OrderOrders(matches);
    OrderElements(matches);
    s, cuts := SplitMatches(Order(matches));
    FoldsInTime(s, cuts, Order(matches));
  }

  lemma AllCausal(s: Split, reports: seq<FoldReport>, labels: map<string, set<int>>, times: map<string, Times>)
    requires |s.folds| == |reports| == 4 && forall i :: 0 <= i < 4 ==> NoLeak(reports[i], s.folds[i], labels, times)
    requires forall i :: 0 <= i < 4 ==> InTime(s.folds[i], s.holdout)
    ensures forall i :: 0 <= i < 4 ==> Causal(reports[i], times)
  {
    forall i | 0 <= i < 4 ensures Causal(reports[i], times) {
      FoldCausal(s.folds[i], reports[i], labels, times);
    }
  }

  method ReportFolds(folds: seq<Fold>, labels: map<string, set<int>>, times: map<string, Times>)
      returns (reports: seq<FoldReport>)
    ensures |reports| == |folds| && forall i :: 0 <= i < |folds| ==> NoLeak(reports[i], folds[i], labels, times)
  {
    reports := [];
    for i := 0 to |folds|
      invariant |reports| == i && forall j :: 0 <= j < i ==> NoLeak(reports[j], folds[j], labels, times)
    {
      var report := ReportFold(folds[i], labels, times);
      reports := reports + [report];
    }
  }

  /** Every training label is known no later than every validation forecast, and no match is on both sides. */
  ghost predicate Causal(r: FoldReport, times: map<string, Times>) {
    forall id, v :: id in r.train && v in r.validation ==>
      && id in times && times[id].availableAt.Some? && v in times && times[v].forecastAt.Some?
      && times[id].availableAt.value <= times[v].forecastAt.value && id != v
  }

  lemma FoldCausal(f: Fold, r: FoldReport, labels: map<string, set<int>>, times: map<string, Times>)
    requires NoLeak(r, f, labels, times) && forall a, b :: a in f.train && b in f.validation ==> a.id != b.id
    ensures Causal(r, times)
  {
    SelectMembers(Ids(f.validation), id => Labelled(labels, id));
    forall id, v | id in r.train && v in r.validation ensures id != v {
      var a :| a in f.train && a.id == id;
      var b :| b in f.validation && b.id == v;
    }
  }

  method ReportFold(f: Fold, labels: map<string, set<int>>, times: map<string, Times>) returns (r: FoldReport)
    ensures NoLeak(r, f, labels, times)
  {
    var train, validation := Ids(f.train), Select(Ids(f.validation), id => Labelled(labels, id));
    var (eligible, _) := CausalMembership(train, validation, labels, times);
    forall id ensures id in eligible <==> id in train && Labelled(labels, id) && KnownInTime(id, validation, times) {
      FilterExact(train, validation, labels, times, id);
    }
    PrecedenceExact(train, validation, labels, times);
    FilterKeepsOrder(train, validation, labels, times);
    r := FoldReport(f.number, eligible, validation, TemporalPrecedence(eligible, validation, times));
  }
}
