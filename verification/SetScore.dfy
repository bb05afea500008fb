/**
 The score of a tennis set (tie-break sets, Rule 6 of the ITF Rules of Tennis), the check of a
 completed game against an official set score, and the recovery of pre-game scores.
 */
module SetScore {
  import opened Options

  /** Decoded JSON, as the point source delivers it. */
  datatype Json = Null | Bool(truth: bool) | Int(n: int) | Text(s: string) | List(items: seq<Json>) | Object

  datatype Score = Score(a: int, b: int)

  /** One row of a point history. `afterResult` is state_after.game_result when state_after is an object. */
  datatype Item = Item(
    confirmed: Json, winner: Json, quality: Json, setNo: Json, score: Json, afterResult: Option<Json>, tieBreak: bool)

  datatype TerminalGame = TerminalGame(setNo: int, before: Score, winner: int, completed: bool)

  predicate Finished(s: Score) {
    var high, low := if s.a > s.b then s.a else s.b, if s.a > s.b then s.b else s.a;
    (high >= 6 && high - low >= 2) || (high == 7 && low == 6)
  }

  function Won(s: Score, side: int): Score {
    if side == 0 then Score(s.a + 1, s.b) else Score(s.a, s.b + 1)
  }

  function Unwon(s: Score, side: int): Score {
    if side == 0 then Score(s.a - 1, s.b) else Score(s.a, s.b - 1)
  }

  // ----- Legal sets: game after game from 0-0, over as soon as the score is finished.

  ghost predicate Steps(run: seq<Score>) {
    forall i, j :: 0 <= i < j < |run| && j == i + 1 ==> run[j] == Won(run[i], 0) || run[j] == Won(run[i], 1)
  }

  ghost predicate LegalRun(run: seq<Score>, final: Score) {
    && |run| >= 1 && run[0] == Score(0, 0) && run[|run| - 1] == final && Finished(final)
    && Steps(run)
    && forall i :: 0 <= i < |run| - 1 ==> !Finished(run[i])
  }

  /** The run plays this game: `side` wins it at score `before`. */
  ghost predicate Plays(run: seq<Score>, before: Score, side: int) {
    exists i, j :: 0 <= i < j < |run| && j == i + 1 && run[i] == before && run[j] == Won(before, side)
  }

  /** Some legal run to the final score plays this game. */
  ghost predicate PlayedOnTheWay(before: Score, side: int, final: Score) {
    exists run :: LegalRun(run, final) && Plays(run, before, side)
  }

  ghost predicate LegalFinal(final: Score) {
    exists run :: LegalRun(run, final)
  }

  /** The scores a set can still be played at. */
  predicate Open(s: Score) {
    && s.a >= 0 && s.b >= 0
    && ((s.a <= 5 && s.b <= 5) || (s.a == 6 && 5 <= s.b <= 6) || (s.b == 6 && s.a == 5))
  }

  /** 6-0 to 6-4, 7-5 and 7-6, for either side. */
  predicate TieBreakSetScore(s: Score) {
    var high, low := if s.a > s.b then s.a else s.b, if s.a > s.b then s.b else s.a;
    (high == 6 && 0 <= low <= 4) || (high == 7 && 5 <= low <= 6)
  }

  predicate Within(s: Score, t: Score) {
    s.a <= t.a && s.b <= t.b
  }

  lemma {:induction false} RunScores(run: seq<Score>, final: Score, i: nat)
    requires LegalRun(run, final) && i < |run|
    ensures run[i].a + run[i].b == i
    ensures i < |run| - 1 ==> Open(run[i])
    ensures i == |run| - 1 ==> TieBreakSetScore(run[i])
  {
    if i > 0 {
      RunScores(run, final, i - 1);
      RunStep(run, final, i);
      OpenStep(run[i - 1], run[i]);
    }
  }

  lemma RunStep(run: seq<Score>, final: Score, i: nat)
    requires LegalRun(run, final) && 0 < i < |run|
    ensures run[i] == Won(run[i - 1], 0) || run[i] == Won(run[i - 1], 1)
    ensures Finished(run[i]) <==> i == |run| - 1
  {
  }

  lemma OpenStep(s: Score, t: Score)
    requires Open(s) && (t == Won(s, 0) || t == Won(s, 1))
    ensures t.a + t.b == s.a + s.b + 1
    ensures if Finished(t) then TieBreakSetScore(t) else Open(t)
  {
  }

  lemma RunSums(run: seq<Score>, final: Score, i: nat)
    requires LegalRun(run, final) && i < |run|
    ensures run[i].a + run[i].b == i
  {
    RunScores(run, final, i);
  }

  lemma {:induction false} RunGrows(run: seq<Score>, i: nat, j: nat)
    requires Steps(run) && i <= j < |run|
    ensures Within(run[i], run[j])
  {
    if i < j {
      RunGrows(run, i, j - 1);
      assert run[j] == run[(j - 1) + 1];
    }
  }

  function Previous(s: Score): Score {
    if s.a >= s.b then Score(s.a - 1, s.b) else Score(s.a, s.b - 1)
  }

  lemma TieBreakSetFinished(s: Score)
    requires TieBreakSetScore(s)
    ensures Finished(s)
  {
  }

  lemma OpenUnfinished(s: Score)
    requires Open(s)
    ensures !Finished(s)
  {
  }

  lemma PreviousOpen(s: Score)
    requires Open(s) && s != Score(0, 0)
    ensures var p := Previous(s); Open(p) && p.a + p.b == s.a + s.b - 1 && (s == Won(p, 0) || s == Won(p, 1))
  {
  }

  ghost predicate Unfinished(run: seq<Score>) {
    forall i :: 0 <= i < |run| ==> !Finished(run[i])
  }

  /** A way from 0-0 to an open score through unfinished scores. */
  lemma {:induction false} PathTo(s: Score) returns (run: seq<Score>)
    requires Open(s)
    ensures run != [] && run[0] == Score(0, 0) && run[|run| - 1] == s && Steps(run) && Unfinished(run)
    decreases s.a + s.b
  {
    OpenUnfinished(s);
    if s == Score(0, 0) {
      run := [s];
    } else {
      PreviousOpen(s);
      var front := PathTo(Previous(s));
      run := OneMoreStep(front, s);
    }
  }

  lemma OneMoreStep(front: seq<Score>, s: Score) returns (run: seq<Score>)
    requires front != [] && Steps(front) && Unfinished(front) && !Finished(s)
    requires s == Won(front[|front| - 1], 0) || s == Won(front[|front| - 1], 1)
    ensures run == front + [s] && Steps(run) && Unfinished(run)
  {
    JoinSteps(front, [s]);
    run := front + [s];
  }

  /** The next score on a way to `final` that stays open until it gets there. */
  function Toward(s: Score, final: Score): Score {
    if final.a > final.b then
      if s.b < final.b && (s.b <= s.a || s.a == final.a - 1) then Won(s, 1) else Won(s, 0)
    else
      if s.a < final.a && (s.a <= s.b || s.b == final.b - 1) then Won(s, 0) else Won(s, 1)
  }

  lemma TowardStays(s: Score, final: Score)
    requires TieBreakSetScore(final) && Within(s, final) && Open(s) && s != final
    ensures var next := Toward(s, final);
      Within(next, final) && (Open(next) || next == final) && (next == Won(s, 0) || next == Won(s, 1))
  {
  }

  /** A way from an open score to a legal final one, unfinished until it gets there. */
  lemma {:induction false} PathFrom(s: Score, final: Score) returns (run: seq<Score>)
    requires TieBreakSetScore(final) && Within(s, final) && (Open(s) || s == final)
    ensures run != [] && run[0] == s && run[|run| - 1] == final && Steps(run) && Unfinished(run[..|run| - 1])
    decreases final.a + final.b - s.a - s.b
  {
    if s == final {
      run := [s];
    } else {
      OpenUnfinished(s);
      TowardStays(s, final);
      var back := PathFrom(Toward(s, final), final);
      JoinSteps([s], back);
      run := [s] + back;
      assert run[..|run| - 1] == [s] + back[..|back| - 1];
    }
  }

  lemma OpenIffUnfinished(s: Score, final: Score)
    requires TieBreakSetScore(final) && Within(s, final) && s.a >= 0 && s.b >= 0
    ensures Open(s) <==> !Finished(s)
  {
  }

  lemma JoinSteps(a: seq<Score>, b: seq<Score>)
    requires a != [] && b != [] && Steps(a) && Steps(b)
    requires b[0] == Won(a[|a| - 1], 0) || b[0] == Won(a[|a| - 1], 1)
    ensures Steps(a + b)
  {
  }

  /** A game that fits under a legal final score is played by some legal run to it. */
  lemma RunThrough(before: Score, side: int, final: Score) returns (run: seq<Score>)
    requires TieBreakSetScore(final) && (side == 0 || side == 1) && Open(before)
    requires Within(Won(before, side), final) && (Open(Won(before, side)) || Won(before, side) == final)
    ensures LegalRun(run, final) && Plays(run, before, side)
  {
    var front := PathTo(before);
    var back := PathFrom(Won(before, side), final);
    TieBreakSetFinished(final);
    run := front + back;
    JoinSteps(front, back);
    assert run[|front| - 1] == before && run[|front|] == Won(before, side);
    assert run[..|run| - 1] == front + back[..|back| - 1];
    forall i | 0 <= i < |run| - 1 ensures !Finished(run[i]) {
      assert run[i] == run[..|run| - 1][i];
    }
  }

  /** The official scores of a set are exactly those of a tie-break set. */
  lemma LegalFinals(final: Score)
    ensures LegalFinal(final) <==> TieBreakSetScore(final)
  {
    if LegalFinal(final) {
      var run :| LegalRun(run, final);
      RunScores(run, final, |run| - 1);
    }
    if TieBreakSetScore(final) {
      var run := PathFrom(Score(0, 0), final);
      TieBreakSetFinished(final);
      forall i | 0 <= i < |run| - 1 ensures !Finished(run[i]) {
        assert run[i] == run[..|run| - 1][i];
      }
      assert LegalRun(run, final);
    }
  }

  // ----- The check of one completed game.

  const TERMINAL_QUALITIES := {Text("terminal_from_game_result"), Text("terminal_from_tiebreak_result"),
      Text("confirmed_game_result")}

  predicate IsPair(score: Json) {
    && score.List? && |score.items| == 2
    && score.items[0].Int? && score.items[0].n >= 0 && score.items[1].Int? && score.items[1].n >= 0
  }

  predicate IsSide(winner: Json) {
    winner == Int(0) || winner == Int(1)
  }

  /** Confirmed, with a winner, of a terminal kind, and about a set that has an official score. */
  predicate TerminalRow(item: Item, sets: nat) {
    && item.confirmed == Bool(true) && IsSide(item.winner) && item.quality in TERMINAL_QUALITIES
    && item.setNo.Int? && 1 <= item.setNo.n <= sets && IsPair(item.score)
  }

  function Oriented(score: Json, homeIsA: bool): Score
    requires IsPair(score)
  {
    if homeIsA then Score(score.items[0].n, score.items[1].n) else Score(score.items[1].n, score.items[0].n)
  }

  function OrientedSide(winner: Json, homeIsA: bool): int
    requires IsSide(winner)
  {
    if homeIsA then winner.n else 1 - winner.n
  }

  function Games(s: Score, side: int): int {
    if side == 0 then s.a else s.b
  }

  /** The score before the game that `winner` took to reach `after`, and whether that ended the set. */
  function CompletedGame(after: Score, winner: int, final: Score): Option<(Score, bool)> {
    if !Within(after, final) || Games(after, winner) < 1 then None
    else
      var completed := Finished(after);
      if completed && (after != final || winner != if after.a > after.b then 0 else 1) then None
      else
        var before := Unwon(after, winner);
        if Finished(before) then None else Some((before, completed))
  }

  function ValidatedTerminalGame(item: Item, homeIsA: bool, official: seq<Score>): Option<TerminalGame> {
    if !TerminalRow(item, |official|) then None
    else if item.score.items[0].n >= 10 || item.score.items[1].n >= 10 then None
    else
      var winner := OrientedSide(item.winner, homeIsA);
      match CompletedGame(Oriented(item.score, homeIsA), winner, official[item.setNo.n - 1])
      case None => None
      case Some((before, completed)) => Some(TerminalGame(item.setNo.n, before, winner, completed))
  }

  lemma CompletedGameSound(after: Score, side: int, final: Score)
    requires (side == 0 || side == 1) && after.a >= 0 && after.b >= 0 && TieBreakSetScore(final)
    ensures CompletedGame(after, side, final).Some? ==>
        CompletedGame(after, side, final) == Some((Unwon(after, side), after == final))
    ensures CompletedGame(after, side, final).Some? <==> PlayedOnTheWay(Unwon(after, side), side, final)
  {
    var before := Unwon(after, side);
    assert Won(before, side) == after;
    if CompletedGame(after, side, final).Some? {
      AcceptedFits(after, side, final);
      var run := RunThrough(before, side, final);
    }
    if run :| LegalRun(run, final) && Plays(run, before, side) {
      PlayedFits(run, before, side, final);
      FittingAccepted(before, side, final);
    }
  }

  lemma AcceptedFits(after: Score, side: int, final: Score)
    requires (side == 0 || side == 1) && after.a >= 0 && after.b >= 0 && TieBreakSetScore(final)
    requires CompletedGame(after, side, final).Some?
    ensures var before := Unwon(after, side);
      && CompletedGame(after, side, final) == Some((before, after == final))
      && Open(before) && Within(after, final) && (Open(after) || after == final)
  {
    OpenIffUnfinished(Unwon(after, side), final);
    OpenIffUnfinished(after, final);
  }

  lemma PlayedFits(run: seq<Score>, before: Score, side: int, final: Score)
    requires LegalRun(run, final) && Plays(run, before, side)
    ensures Open(before) && Within(Won(before, side), final) && (Open(Won(before, side)) || Won(before, side) == final)
  {
    var i, j :| 0 <= i < j < |run| && j == i + 1 && run[i] == before && run[j] == Won(before, side);
    RunScores(run, final, i);
    RunScores(run, final, j);
    RunGrows(run, j, |run| - 1);
  }

  lemma FittingAccepted(before: Score, side: int, final: Score)
    requires (side == 0 || side == 1) && TieBreakSetScore(final)
    requires Open(before) && Within(Won(before, side), final) && (Open(Won(before, side)) || Won(before, side) == final)
    ensures CompletedGame(Won(before, side), side, final) == Some((before, Won(before, side) == final))
  {
    var after := Won(before, side);
    assert Unwon(after, side) == before;
    OpenIffUnfinished(before, final);
    if after != final {
      OpenIffUnfinished(after, final);
    } else {
      LastGameWinnerLeads(before, side, final);
    }
  }

  lemma LastGameWinnerLeads(before: Score, side: int, final: Score)
    requires (side == 0 || side == 1) && TieBreakSetScore(final) && Open(before) && Won(before, side) == final
    ensures Finished(final) && side == if final.a > final.b then 0 else 1
  {
  }

  /**
   Against a legal official score, a row is accepted exactly when its game is played by some
   legal run to that score; the answer is that game, and only the last game completes the set.
   */
  lemma TerminalGameSound(item: Item, homeIsA: bool, official: seq<Score>)
    requires TerminalRow(item, |official|) && LegalFinal(official[item.setNo.n - 1])
    ensures var final := official[item.setNo.n - 1];
      var after, side := Oriented(item.score, homeIsA), OrientedSide(item.winner, homeIsA);
      ValidatedTerminalGame(item, homeIsA, official) ==
        if PlayedOnTheWay(Unwon(after, side), side, final)
        then Some(TerminalGame(item.setNo.n, Unwon(after, side), side, after == final))
        else None
  {
    var final := official[item.setNo.n - 1];
    LegalFinals(final);
    CompletedGameSound(Oriented(item.score, homeIsA), OrientedSide(item.winner, homeIsA), final);
  }

  /**
   The same for a row as the source delivers it: x : y and winner w are told from the home side, which
   is A or B.
   */
  lemma TerminalGameTold(item: Item, x: int, y: int, w: int, official: seq<Score>)
    requires item.confirmed == Bool(true) && item.winner == Int(w) && (w == 0 || w == 1)
    requires item.quality == Text("terminal_from_game_result") || item.quality == Text("confirmed_game_result")
          || item.quality == Text("terminal_from_tiebreak_result")
    requires item.setNo.Int? && 1 <= item.setNo.n <= |official| && LegalFinal(official[item.setNo.n - 1])
    requires x >= 0 && y >= 0 && item.score == List([Int(x), Int(y)])
    ensures var final, n := official[item.setNo.n - 1], item.setNo.n;
      && ValidatedTerminalGame(item, true, official)
         == (if PlayedOnTheWay(Unwon(Score(x, y), w), w, final)
             then Some(TerminalGame(n, Unwon(Score(x, y), w), w, Score(x, y) == final)) else None)
      && ValidatedTerminalGame(item, false, official)
         == (if PlayedOnTheWay(Unwon(Score(y, x), 1 - w), 1 - w, final)
             then Some(TerminalGame(n, Unwon(Score(y, x), 1 - w), 1 - w, Score(y, x) == final)) else None)
  {
    TerminalGameSound(item, true, official);
    TerminalGameSound(item, false, official);
  }

  /** Whatever the official scores are, nothing but a confirmed terminal row of an ordinary score is accepted. */
  lemma AcceptedRow(item: Item, homeIsA: bool, official: seq<Score>)
    requires ValidatedTerminalGame(item, homeIsA, official).Some?
    ensures item.confirmed == Bool(true) && (item.winner == Int(0) || item.winner == Int(1))
    ensures item.quality == Text("terminal_from_game_result") || item.quality == Text("confirmed_game_result")
         || item.quality == Text("terminal_from_tiebreak_result")
    ensures item.setNo.Int? && 1 <= item.setNo.n <= |official|
    ensures exists x, y :: 0 <= x < 10 && 0 <= y < 10 && item.score == List([Int(x), Int(y)])
  {
    var s := item.score.items;
    assert s == [Int(s[0].n), Int(s[1].n)];
  }

  function Swapped(score: Json): Json {
    if score.List? && |score.items| == 2 then List([score.items[1], score.items[0]]) else score
  }

  /** The same row told from the other side. */
  function Mirrored(item: Item): Item {
    item.(score := Swapped(item.score), winner := if IsSide(item.winner) then Int(1 - item.winner.n) else item.winner)
  }

  /** Swapping the source's sides together with the orientation changes nothing. */
  lemma OrientationIrrelevant(item: Item, homeIsA: bool, official: seq<Score>)
    ensures ValidatedTerminalGame(Mirrored(item), !homeIsA, official) == ValidatedTerminalGame(item, homeIsA, official)
  {
    var m := Mirrored(item);
    assert IsPair(m.score) <==> IsPair(item.score);
    assert IsSide(m.winner) <==> IsSide(item.winner);
    if IsPair(item.score) && IsSide(item.winner) {
      assert Oriented(m.score, !homeIsA) == Oriented(item.score, homeIsA);
      assert OrientedSide(m.winner, !homeIsA) == OrientedSide(item.winner, homeIsA);
    }
  }

  // ----- Point rows carry the score after their game; the terminal row tells the one before.

  /** What the row says of the score its game started at. */
  datatype GameStart = Untouched | Unknown | At(score: Score)

  datatype AlignedItem = AlignedItem(item: Item, start: GameStart)

  const FROM_GAME_RESULT := Text("terminal_from_game_result")
  const FROM_TIEBREAK_RESULT := Text("terminal_from_tiebreak_result")

  function AsScore(score: Json): Score
    requires IsPair(score)
  {
    Score(score.items[0].n, score.items[1].n)
  }

  /** The pre-game score a confirmed terminal row gives, if it gives one. */
  function StartGiven(item: Item): Option<Score> {
    if item.quality != FROM_GAME_RESULT || item.confirmed != Bool(true) || !IsSide(item.winner)
        || !IsPair(item.score) then None
    else if item.afterResult != Some(item.score) then None
    else
      var before := Unwon(AsScore(item.score), item.winner.n);
      if before.a >= 0 && before.b >= 0 && !Finished(before) then Some(before) else None
  }

  /** What a row has to say to give a start. */
  lemma StartGivenMeaning(item: Item, b: Score)
    ensures StartGiven(item) == Some(b)
            <==> && item.quality == Text("terminal_from_game_result") && item.confirmed == Bool(true)
                 && item.afterResult == Some(item.score) && b.a >= 0 && b.b >= 0 && !Finished(b)
                 && ((item.winner == Int(0) && item.score == List([Int(b.a + 1), Int(b.b)]))
                     || (item.winner == Int(1) && item.score == List([Int(b.a), Int(b.b + 1)])))
  {
    if IsPair(item.score) {
      assert item.score.items == [Int(item.score.items[0].n), Int(item.score.items[1].n)];
    }
  }

  datatype GameKey = GameKey(setNo: Json, score: seq<Json>)

  /** Set number and score tuple; anything that is not a list counts as the empty tuple. */
  function KeyOfGame(item: Item): GameKey {
    GameKey(item.setNo, if item.score.List? then item.score.items else [])
  }

  /** Rows whose start is looked up: not in a tie-break, not terminal. */
  predicate Ordinary(item: Item) {
    !item.tieBreak && item.quality != FROM_GAME_RESULT && item.quality != FROM_TIEBREAK_RESULT
  }

  ghost function Starts(items: seq<Item>, key: GameKey): set<Score> {
    set i | 0 <= i < |items| && KeyOfGame(items[i]) == key && StartGiven(items[i]).Some? :: StartGiven(items[i]).value
  }

  /** The starts looked up for a row are those given by rows of the same set with the same score. */
  lemma StartsMeaning(items: seq<Item>, i: nat, b: Score)
    requires i < |items|
    ensures b in Starts(items, KeyOfGame(items[i]))
            <==> exists j :: 0 <= j < |items| && items[j].setNo == items[i].setNo && items[j].score == items[i].score
                   && StartGiven(items[j]) == Some(b)
  {
    var key := KeyOfGame(items[i]);
    if b in Starts(items, key) {
      var j :| 0 <= j < |items| && KeyOfGame(items[j]) == key && StartGiven(items[j]) == Some(b);
      assert items[j].score.List? && |items[j].score.items| == 2;
    }
    if j :| 0 <= j < |items| && items[j].setNo == items[i].setNo && items[j].score == items[i].score
            && StartGiven(items[j]) == Some(b) {
      assert KeyOfGame(items[j]) == key && StartGiven(items[j]).Some?;
    }
  }

  /** Each ordinary row gets the one start its terminal rows agree on, and otherwise none. */
  method PointEventsForAlignment(items: seq<Item>, flashscore: bool) returns (rows: seq<AlignedItem>)
    ensures |rows| == |items| && forall i :: 0 <= i < |items| ==> rows[i].item == items[i]
    ensures forall i :: 0 <= i < |items| && (!flashscore || !Ordinary(items[i])) ==> rows[i].start == Untouched
    ensures forall i, b :: 0 <= i < |items| && flashscore && Ordinary(items[i]) ==>
      (rows[i].start == At(b) <==> Starts(items, KeyOfGame(items[i])) == {b})
    ensures forall i :: 0 <= i < |items| ==>
      (rows[i].start == Untouched
       <==> !flashscore || items[i].tieBreak || items[i].quality == Text("terminal_from_game_result")
            || items[i].quality == Text("terminal_from_tiebreak_result"))
  {
    rows := [];
    if !flashscore {
      for i := 0 to |items|
        invariant |rows| == i && forall j :: 0 <= j < i ==> rows[j] == AlignedItem(items[j], Untouched)
      {
        rows := rows + [AlignedItem(items[i], Untouched)];
      }
      return;
    }
    var starts: map<GameKey, set<Score>> := map[];
    for i := 0 to |items|
      invariant forall k :: (if k in starts then starts[k] else {}) == Starts(items[..i], k)
    {
      StartsStep(items, i);
      var start, k := StartGiven(items[i]), KeyOfGame(items[i]);
      if start.Some? {
        starts := starts[k := (if k in starts then starts[k] else {}) + {start.value}];
      }
    }
    assert items[..|items|] == items;
    for i := 0 to |items|
      invariant |rows| == i && forall j :: 0 <= j < i ==> rows[j] == AlignedItem(items[j],
        if Ordinary(items[j]) then TheOnly(Starts(items, KeyOfGame(items[j]))) else Untouched)
    {
      var start := Untouched;
      if Ordinary(items[i]) {
        var k := KeyOfGame(items[i]);
        var candidates := if k in starts then starts[k] else {};
        start := Unknown;
        if |candidates| == 1 {
          var only :| only in candidates;
          TheOnlyIsSingleton(candidates, only);
          start := At(only);
        }
      }
      rows := rows + [AlignedItem(items[i], start)];
    }
    forall i, b | 0 <= i < |items|
      ensures TheOnly(Starts(items, KeyOfGame(items[i]))) == At(b) <==> Starts(items, KeyOfGame(items[i])) == {b}
    {
      TheOnlyIsSingleton(Starts(items, KeyOfGame(items[i])), b);
    }
  }

  ghost function TheOnly(candidates: set<Score>): GameStart {
    if |candidates| == 1 then (var b :| b in candidates; At(b)) else Unknown
  }

  lemma TheOnlyIsSingleton(candidates: set<Score>, b: Score)
    ensures TheOnly(candidates) == At(b) <==> candidates == {b}
    ensures |candidates| == 1 && b in candidates ==> candidates == {b}
  {
    if |candidates| == 1 {
      var x :| x in candidates;
      assert |candidates - {x}| == 0;
      assert candidates - {x} == {};
      assert candidates == {x};
    }
  }

  ghost function OwnStart(item: Item, key: GameKey): set<Score> {
    if KeyOfGame(item) == key && StartGiven(item).Some? then {StartGiven(item).value} else {}
  }

  lemma StartsStep(items: seq<Item>, i: nat)
    requires i < |items|
    ensures forall k :: Starts(items[..i + 1], k) == Starts(items[..i], k) + OwnStart(items[i], k)
  {
    var was, now := items[..i], items[..i + 1];
    forall k ensures Starts(now, k) == Starts(was, k) + OwnStart(items[i], k) {
      assert now[i] == items[i];
      forall b | b in Starts(was, k) ensures b in Starts(now, k) {
        var j :| 0 <= j < |was| && KeyOfGame(was[j]) == k && StartGiven(was[j]) == Some(b);
        assert now[j] == was[j];
      }
      forall b | b in Starts(now, k) && !(KeyOfGame(items[i]) == k && StartGiven(items[i]) == Some(b))
        ensures b in Starts(was, k)
      {
        var j :| 0 <= j < |now| && KeyOfGame(now[j]) == k && StartGiven(now[j]) == Some(b);
        assert was[j] == now[j];
      }
    }
  }

  // ----- Tapes of legal sets.

  /** Game number `step` of set `setNo`: from run[step] to run[step + 1]. */
  datatype GameRef = GameRef(setNo: int, step: nat)

  function ScoreJson(s: Score): Json {
    List([Int(s.a), Int(s.b)])
  }

  /**
   Every row tells its own game: it carries the score after that game, and if it is a terminal
   row that gives a start, its winner is the one who won the game.
   */
  ghost predicate Tape(items: seq<Item>, owner: seq<GameRef>, runs: map<int, seq<Score>>) {
    && |owner| == |items|
    && (forall n :: n in runs ==> |runs[n]| >= 1 && LegalRun(runs[n], runs[n][|runs[n]| - 1]))
    && forall i :: 0 <= i < |items| ==> TellsGame(items[i], owner[i], runs)
  }

  ghost predicate TellsGame(item: Item, g: GameRef, runs: map<int, seq<Score>>) {
    && g.setNo in runs && g.step + 1 < |runs[g.setNo]|
    && item.setNo == Int(g.setNo) && item.score == ScoreJson(runs[g.setNo][g.step + 1])
    && (item.quality == FROM_GAME_RESULT && IsSide(item.winner) ==>
          runs[g.setNo][g.step + 1] == Won(runs[g.setNo][g.step], item.winner.n))
  }

  /** A confirmed terminal row of a tape, with its result repeated in state_after. */
  predicate Confirms(item: Item) {
    item.quality == FROM_GAME_RESULT && item.confirmed == Bool(true) && IsSide(item.winner)
        && item.afterResult == Some(item.score)
  }

  ghost predicate HasTerminal(items: seq<Item>, owner: seq<GameRef>, g: GameRef)
    requires |owner| == |items|
  {
    exists i :: 0 <= i < |items| && owner[i] == g && Confirms(items[i])
  }

  lemma TapeStart(item: Item, g: GameRef, runs: map<int, seq<Score>>)
    requires TellsGame(item, g, runs) && LegalRun(runs[g.setNo], runs[g.setNo][|runs[g.setNo]| - 1])
    ensures StartGiven(item) == if Confirms(item) then Some(runs[g.setNo][g.step]) else None
  {
    var run := runs[g.setNo];
    RunScores(run, run[|run| - 1], g.step);
    StartBefore(item, run[g.step], run[g.step + 1]);
  }

  lemma StartBefore(item: Item, before: Score, after: Score)
    requires item.score == ScoreJson(after) && Open(before)
    requires item.quality == FROM_GAME_RESULT && IsSide(item.winner) ==> after == Won(before, item.winner.n)
    ensures StartGiven(item) == if Confirms(item) then Some(before) else None
  {
    OpenUnfinished(before);
    if Confirms(item) {
      assert AsScore(item.score) == after;
      assert Unwon(after, item.winner.n) == before;
    }
  }

  /**
   On a tape of legal sets, the starts found for a row are its own game's start if that game has
   a confirmed terminal row, and none otherwise: never another game's.
   */
  lemma TapeStarts(items: seq<Item>, owner: seq<GameRef>, runs: map<int, seq<Score>>, i: nat)
    requires Tape(items, owner, runs) && i < |items|
    ensures Starts(items, KeyOfGame(items[i])) ==
      if HasTerminal(items, owner, owner[i]) then {runs[owner[i].setNo][owner[i].step]} else {}
  {
    OwnRows(items, owner, runs, i);
    if HasTerminal(items, owner, owner[i]) {
      TerminalStarts(items, owner, runs, i);
    }
  }

  lemma TerminalStarts(items: seq<Item>, owner: seq<GameRef>, runs: map<int, seq<Score>>, i: nat)
    requires Tape(items, owner, runs) && i < |items| && HasTerminal(items, owner, owner[i])
    ensures runs[owner[i].setNo][owner[i].step] in Starts(items, KeyOfGame(items[i]))
  {
    var j :| 0 <= j < |items| && owner[j] == owner[i] && Confirms(items[j]);
    TapeStart(items[j], owner[j], runs);
    assert KeyOfGame(items[j]) == KeyOfGame(items[i]);
    assert StartGiven(items[j]).value in Starts(items, KeyOfGame(items[i]));
  }

  /** Rows under the same key are of the same game, and the terminal ones give its start. */
  lemma OwnRows(items: seq<Item>, owner: seq<GameRef>, runs: map<int, seq<Score>>, i: nat)
    requires Tape(items, owner, runs) && i < |items|
    ensures forall j :: 0 <= j < |items| && KeyOfGame(items[j]) == KeyOfGame(items[i]) ==>
      owner[j] == owner[i]
      && StartGiven(items[j]) == if Confirms(items[j]) then Some(runs[owner[i].setNo][owner[i].step]) else None
  {
    forall j | 0 <= j < |items| && KeyOfGame(items[j]) == KeyOfGame(items[i])
      ensures owner[j] == owner[i]
      ensures StartGiven(items[j]) == if Confirms(items[j]) then Some(runs[owner[i].setNo][owner[i].step]) else None
    {
      SameScoreSameGame(items[i], owner[i], items[j], owner[j], runs);
      TapeStart(items[j], owner[j], runs);
    }
  }

  lemma SameScoreSameGame(x: Item, g: GameRef, y: Item, h: GameRef, runs: map<int, seq<Score>>)
    requires TellsGame(x, g, runs) && TellsGame(y, h, runs) && KeyOfGame(x) == KeyOfGame(y)
    requires LegalRun(runs[g.setNo], runs[g.setNo][|runs[g.setNo]| - 1])
    ensures g == h
  {
    var run := runs[g.setNo];
    assert h.setNo == g.setNo && ScoreJson(run[g.step + 1]) == ScoreJson(run[h.step + 1]);
    RunSums(run, run[|run| - 1], g.step + 1);
    RunSums(run, run[|run| - 1], h.step + 1);
  }

  /** Aligning the tape of any legal sets: the true start or none, row by row. */
  method AlignTape(items: seq<Item>, owner: seq<GameRef>, runs: map<int, seq<Score>>) returns (rows: seq<AlignedItem>)
    requires Tape(items, owner, runs)
    ensures |rows| == |items|
    ensures forall i :: 0 <= i < |items| ==>
      rows[i].start
      == if items[i].tieBreak || items[i].quality == Text("terminal_from_game_result")
            || items[i].quality == Text("terminal_from_tiebreak_result") then Untouched
         else if HasTerminal(items, owner, owner[i]) then At(runs[owner[i].setNo][owner[i].step]) else Unknown
  {
    rows := PointEventsForAlignment(items, true);
    forall i | 0 <= i < |items| && Ordinary(items[i])
      ensures rows[i].start
              == if HasTerminal(items, owner, owner[i]) then At(runs[owner[i].setNo][owner[i].step]) else Unknown
    {
      TapeStarts(items, owner, runs, i);
      var b := runs[owner[i].setNo][owner[i].step];
      assert rows[i].start == At(b) <==> Starts(items, KeyOfGame(items[i])) == {b};
      if rows[i].start.At? {
        assert rows[i].start == At(rows[i].start.score)
            <==> Starts(items, KeyOfGame(items[i])) == {rows[i].start.score};
      }
    }
  }
}
