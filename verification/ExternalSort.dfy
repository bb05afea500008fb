/**
 Sorting the shards one by one and merging them 64 at a time until at most 64 files are left,
 reusing every file whose recorded fingerprints still hold.
 */
module ExternalSort {
  import opened Bytes
  import opened Options
  import opened Sequences
  import opened Examples
  import opened StableMerge
  import opened Jsonl
  import opened StreamMerge

  const FAN_IN := 64

  /** How many groups of 64 cover n files. */
  function Groups(n: nat): nat {
    (n + FAN_IN - 1) / FAN_IN
  }

  /** Output files of the sort: a sorted shard, or a group of one merge level. */
  datatype Name = Shard(number: nat) | Group(level: nat, group: nat)

  /** The .meta.json beside an output. */
  datatype Meta = Meta(inputs: seq<Fingerprint>, output: Fingerprint)

  datatype SortOutcome = SortedFiles(paths: seq<Name>) | Unreadable | CutOff

  lemma SameTiesSameSort(a: seq<Example>, b: seq<Example>)
    requires SameTies(a, b)
    ensures StableSort(a) == StableSort(b)
  {
    StableSortCharacterised(a, StableSort(a));
    StableSortCharacterised(b, StableSort(a));
    assert SameTies(StableSort(a), b);
  }

  /** Replacing a stretch of runs by its stable sort keeps the order inside every key. */
  lemma SortedTogether(done: seq<seq<Example>>, merged: seq<Example>, was: seq<seq<Example>>,
      stretch: seq<seq<Example>>)
    requires SameTies(Concat(done), Concat(was)) && merged == StableSort(Concat(stretch))
    ensures SameTies(Concat(done + [merged]), Concat(was + stretch))
  {
    ConcatAppend(done, [merged]);
    ConcatAppend(was, stretch);
    assert Concat([merged]) == merged;
    forall k ensures WithKey(Concat(done + [merged]), k) == WithKey(Concat(was + stretch), k) {
      WithKeyAppend(Concat(done), merged, k);
      WithKeyAppend(Concat(was), Concat(stretch), k);
      SortWithKey(Concat(stretch), k);
      assert WithKey(Concat(done), k) == WithKey(Concat(was), k);
    }
  }

  /** The in-memory merge of up to 64 sorted inputs. */
  method KWayMerge(runs: seq<seq<Example>>) returns (out: seq<Example>)
    requires forall i :: 0 <= i < |runs| ==> Sorted(runs[i])
    ensures out == StableSort(Concat(runs))
  {
    var rest, heap := runs, Heads(runs);
    ghost var before: seq<seq<Example>> := seq(|runs|, _ => []);
    ConcatEmpty(before);
    out := [];
    while heap != map[]
      invariant Progress(runs, before, rest) && heap == Heads(rest)
      invariant out == StableSort(Concat(before))
      decreases |Concat(rest)|
    {
      var i := PopLeast(heap, |runs|);
      HeapHeadLeast(rest, heap, i);
      ProgressStep(runs, before, rest, i);
      HeadsStep(rest, i);
      out := out + [heap[i]];
      heap := if |rest[i]| == 1 then heap - {i} else heap[i := rest[i][1]];
      before, rest := before[i := before[i] + [rest[i][0]]], rest[i := rest[i][1..]];
    }
    ProgressEnd(runs, before, rest);
  }

  lemma ProgressEnd(runs: seq<seq<Example>>, before: seq<seq<Example>>, rest: seq<seq<Example>>)
    requires Progress(runs, before, rest) && Heads(rest) == map[]
    ensures before == runs
  {
    forall i | 0 <= i < |runs| ensures before[i] == runs[i] {
      assert i !in Heads(rest);
    }
  }

  lemma HeadsStep(rest: seq<seq<Example>>, i: nat)
    requires i < |rest| && rest[i] != []
    ensures Heads(rest[i := rest[i][1..]]) == if |rest[i]| == 1 then Heads(rest) - {i} else Heads(rest)[i := rest[i][1]]
  {
  }

  lemma HeapHeadLeast(rest: seq<seq<Example>>, heap: map<nat, Example>, i: nat)
    requires heap == Heads(rest) && i in heap && forall j :: j in heap ==> Precedes(heap[i], i, heap[j], j)
    ensures Least(rest, i)
  {
    forall j | 0 <= j < |rest| && rest[j] != [] ensures Precedes(rest[i][0], i, rest[j][0], j) {
      assert j in heap;
    }
  }

  lemma ProgressStep(runs: seq<seq<Example>>, before: seq<seq<Example>>, rest: seq<seq<Example>>, i: nat)
    requires Progress(runs, before, rest) && Least(rest, i)
    ensures Progress(runs, before[i := before[i] + [rest[i][0]]], rest[i := rest[i][1..]])
    ensures StableSort(Concat(before[i := before[i] + [rest[i][0]]])) == StableSort(Concat(before)) + [rest[i][0]]
    ensures |Concat(rest[i := rest[i][1..]])| < |Concat(rest)|
  {
    ShorterRest(rest, i);
    MergeStep(before, rest, i);
    assert rest[i] == [rest[i][0]] + rest[i][1..];
    assert (before[i] + [rest[i][0]]) + rest[i][1..] == before[i] + rest[i];
    SortedSuffix([rest[i][0]], rest[i][1..]);
  }

  function Heads(rest: seq<seq<Example>>): map<nat, Example> {
    map i: nat | i < |rest| && rest[i] != [] :: rest[i][0]
  }

  ghost predicate Progress(runs: seq<seq<Example>>, before: seq<seq<Example>>, rest: seq<seq<Example>>) {
    && |before| == |rest| == |runs| && Cut(before, rest)
    && forall i :: 0 <= i < |runs| ==> Sorted(rest[i]) && before[i] + rest[i] == runs[i]
  }

  lemma {:induction false} ShorterRest(rest: seq<seq<Example>>, i: nat)
    requires i < |rest| && rest[i] != []
    ensures |Concat(rest[i := rest[i][1..]])| < |Concat(rest)|
  {
    var rest' := rest[i := rest[i][1..]];
    if i == 0 {
      assert rest'[1..] == rest[1..];
    } else {
      assert rest'[1..] == rest[1..][i - 1 := rest[1..][i - 1][1..]];
      ShorterRest(rest[1..], i - 1);
    }
  }

  method ReadRows(c: Codec, b: seq<byte>) returns (rows: Option<seq<Example>>)
    ensures rows.Some? ==> rows.value == Rows(c, b)
    ensures WellFormed(c, b) ==> rows.Some?
  {
    var at, found := 0, [];
    ghost var all := Rows(c, b);
    ghost var rest := all;
    assert b[0..] == b && all == [] + rest;
    while true
      invariant Boundary(b, at) && rest == Rows(c, b[at..]) && all == found + rest
      decreases |rest|
    {
      var start, end, row, ok := NextRow(c, b, at);
      if !ok {
        return None;
      }
      if row.None? {
        return Some(found);
      }
      ghost var next := Rows(c, b[end..]);
      Regroup(found, [row.value], next);
      at, found, rest := end, found + [row.value], next;
    }
  }

  /** Every other file stays as it was. */
  ghost predicate OnlyChanged(was: map<Name, Fingerprint>, now: map<Name, Fingerprint>, output: Name) {
    forall n :: n in was && n != output ==> n in now && now[n] == was[n]
  }

  class SortDir {
    const volume: Volume
    var files: map<Name, Fingerprint>
    var metas: map<Name, Meta>

    constructor (volume: Volume)
      requires volume.Sound()
      ensures Valid() && this.volume == volume
    {
      this.volume := volume;
      files, metas := map[], map[];
    }

    /** Every recorded output is the rendered stable sort of its recorded inputs. */
    ghost predicate Valid()
      reads this
    {
      volume.Sound() && forall n :: n in metas ==>
          volume.content(metas[n].output) == RenderAll(volume.codec, volume.Expected(metas[n].inputs))
    }

    predicate Cached(output: Name, inputs: seq<Fingerprint>)
      reads this
    {
      output in files && output in metas && metas[output] == Meta(inputs, files[output])
    }

    /** The file holds exactly these rows, in this order. */
    ghost predicate Holds(files: map<Name, Fingerprint>, name: Name, rows: seq<Example>) {
      name in files && volume.content(files[name]) == RenderAll(volume.codec, rows)
    }

    /** Replace the output file, then record it; the cut may fall before, between or after. */
    method Publish(output: Name, inputs: seq<Fingerprint>, rows: seq<Example>, power: nat) returns (ok: bool, left: nat)
      requires Valid() && rows == volume.Expected(inputs)
      modifies this
      ensures Valid() && OnlyChanged(old(files), files, output)
      ensures ok ==> Holds(files, output, rows) && Cached(output, inputs)
      ensures if ok then power == left + 2 else power < 2
    {
      if power == 0 {
        return false, 0;
      }
      files := files[output := volume.stat(RenderAll(volume.codec, rows))];
      if power == 1 {
        return false, 0;
      }
      metas := metas[output := Meta(inputs, files[output])];
      return true, power - 2;
    }

    method SortShard(source: Fingerprint, number: nat, power: nat) returns (outcome: SortOutcome, left: nat)
      requires Valid()
      modifies this
      ensures Valid() && OnlyChanged(old(files), files, Shard(number))
      ensures outcome.SortedFiles? ==>
          outcome.paths == [Shard(number)] &&
            Holds(files, Shard(number), StableSort(Rows(volume.codec, volume.content(source))))
      ensures outcome.Unreadable? ==> !WellFormed(volume.codec, volume.content(source))
      ensures (outcome.SortedFiles? ==> power <= left + 2) && (outcome.CutOff? ==> power < 2)
    {
      assert volume.Runs([source]) == [Rows(volume.codec, volume.content(source))];
      ConcatOne(Rows(volume.codec, volume.content(source)));
      left := power;
      if !Cached(Shard(number), [source]) {
        var rows := ReadRows(volume.codec, volume.content(source));
        if rows.None? {
          return Unreadable, left;
        }
        var ok;
        ok, left := Publish(Shard(number), [source], StableSort(rows.value), power);
        if !ok {
          return CutOff, left;
        }
      }
      outcome := SortedFiles([Shard(number)]);
    }

    /** The paths hold sorted runs which, one after the other, keep the ties of `all`. */
    ghost predicate HoldsRuns(files: map<Name, Fingerprint>, paths: seq<Name>, runs: seq<seq<Example>>,
        all: seq<Example>) {
      && |paths| == |runs| && SameTies(Concat(runs), all)
      && forall i :: 0 <= i < |paths| ==> Sorted(runs[i]) && Holds(files, paths[i], runs[i])
    }

    /** Merge one group of inputs into the given output. */
    method MergeGroup(inputs: seq<Name>, output: Name, power: nat, ghost runs: seq<seq<Example>>)
      returns (ok: bool, left: nat)
      requires Valid() && |inputs| == |runs| && output !in inputs
      requires forall i :: 0 <= i < |runs| ==> Sorted(runs[i]) && Holds(files, inputs[i], runs[i])
      modifies this
      ensures Valid() && OnlyChanged(old(files), files, output)
      ensures ok ==> Holds(files, output, StableSort(Concat(runs)))
      ensures if ok then power <= left + 2 else power < 2
    {
      forall i | 0 <= i < |inputs| ensures inputs[i] in files {
        assert Holds(files, inputs[i], runs[i]);
      }
      left := power;
      var prints := Prints(inputs);
      forall i | 0 <= i < |inputs| ensures volume.Runs(prints)[i] == runs[i] {
        assert Holds(files, inputs[i], runs[i]);
        RoundTrip(volume.codec, runs[i]);
      }
      assert volume.Runs(prints) == runs;
      if Cached(output, prints) {
        return true, left;
      }
      var open := ReadAll(prints, runs);
      var rows := KWayMerge(open);
      ok, left := Publish(output, prints, rows, left);
    }

    function Prints(paths: seq<Name>): (prints: seq<Fingerprint>)
      requires forall i :: 0 <= i < |paths| ==> paths[i] in files
      reads this
      ensures |prints| == |paths| && forall i :: 0 <= i < |paths| ==> prints[i] == files[paths[i]]
    {
      var now := files;
      seq(|paths|, i requires 0 <= i < |paths| && paths[i] in now => now[paths[i]])
    }

    /** Open the inputs of a merge; they are our own outputs, so every line parses. */
    method ReadAll(prints: seq<Fingerprint>, ghost runs: seq<seq<Example>>) returns (open: seq<seq<Example>>)
      requires Valid() && |prints| == |runs|
      requires forall i :: 0 <= i < |runs| ==> volume.content(prints[i]) == RenderAll(volume.codec, runs[i])
      ensures open == runs
    {
      open := [];
      for i := 0 to |prints|
        invariant open == runs[..i]
      {
        RoundTrip(volume.codec, runs[i]);
        var rows := ReadRows(volume.codec, volume.content(prints[i]));
        open := open + [rows.value];
      }
    }

    lemma StillHolds(was: map<Name, Fingerprint>, now: map<Name, Fingerprint>, output: Name, paths: seq<Name>,
        runs: seq<seq<Example>>, all: seq<Example>)
      requires HoldsRuns(was, paths, runs, all) && OnlyChanged(was, now, output) && output !in paths
      ensures HoldsRuns(now, paths, runs, all)
    {
    }

    lemma OneMore(files: map<Name, Fingerprint>, paths: seq<Name>, runs: seq<seq<Example>>, was: seq<seq<Example>>,
        output: Name, merged: seq<Example>, stretch: seq<seq<Example>>)
      requires HoldsRuns(files, paths, runs, Concat(was)) && Holds(files, output, merged) &&
          merged == StableSort(Concat(stretch))
      ensures HoldsRuns(files, paths + [output], runs + [merged], Concat(was + stretch))
    {
      SortedTogether(runs, merged, was, stretch);
      StableSortSorted(Concat(stretch));
    }

    lemma HoldsSlice(files: map<Name, Fingerprint>, paths: seq<Name>, runs: seq<seq<Example>>, all: seq<Example>,
        a: nat, b: nat)
      requires HoldsRuns(files, paths, runs, all) && a <= b <= |paths|
      ensures forall i :: 0 <= i < b - a ==> Sorted(runs[a..b][i]) && Holds(files, paths[a..b][i], runs[a..b][i])
    {
    }

    /** The first `done` paths are merged into the files of `next`. */
    ghost predicate MergedTo(files: map<Name, Fingerprint>, paths: seq<Name>, runs: seq<seq<Example>>,
        all: seq<Example>, done: nat, level: nat, next: seq<Name>, nextRuns: seq<seq<Example>>) {
      && HoldsRuns(files, paths, runs, all)
      && done <= |paths| && HoldsRuns(files, next, nextRuns, Concat(runs[..done]))
      && forall i :: 0 <= i < |next| ==> next[i] == Group(level, i)
    }

    lemma LevelStep(was: map<Name, Fingerprint>, now: map<Name, Fingerprint>, paths: seq<Name>, runs: seq<seq<Example>>,
        all: seq<Example>, level: nat, next: seq<Name>, nextRuns: seq<seq<Example>>, a: nat, b: nat)
      requires MergedTo(was, paths, runs, all, a, level, next, nextRuns) && a <= b <= |paths|
      requires OnlyChanged(was, now, Group(level, |next|)) && Group(level, |next|) !in paths
      requires Holds(now, Group(level, |next|), StableSort(Concat(runs[a..b])))
      ensures MergedTo(now, paths, runs, all, b, level, next + [Group(level, |next|)],
                nextRuns + [StableSort(Concat(runs[a..b]))])
    {
      var output := Group(level, |next|);
      assert forall n :: n in next ==> n.group < |next|;
      StillHolds(was, now, output, paths, runs, all);
      NextGroup(was, now, runs, next, nextRuns, a, b, output);
    }

    lemma NextGroup(was: map<Name, Fingerprint>, now: map<Name, Fingerprint>, runs: seq<seq<Example>>, next: seq<Name>,
        nextRuns: seq<seq<Example>>, a: nat, b: nat, output: Name)
      requires a <= b <= |runs| && HoldsRuns(was, next, nextRuns, Concat(runs[..a]))
      requires OnlyChanged(was, now, output) && output !in next
      requires Holds(now, output, StableSort(Concat(runs[a..b])))
      ensures HoldsRuns(now, next + [output], nextRuns + [StableSort(Concat(runs[a..b]))], Concat(runs[..b]))
    {
      StillHolds(was, now, output, next, nextRuns, Concat(runs[..a]));
      OneMore(now, next, nextRuns, runs[..a], output, StableSort(Concat(runs[a..b])), runs[a..b]);
      assert runs[..a] + runs[a..b] == runs[..b];
    }

    /** `done` of `all` paths make `groups` groups. */
    ghost predicate GroupedTo(done: nat, all: nat, groups: nat) {
      done <= all && (done == all || done == FAN_IN * groups) && groups == Groups(done)
    }

    lemma GroupMore(done: nat, all: nat, groups: nat)
      requires GroupedTo(done, all, groups) && done < all
      ensures done / FAN_IN == groups < Groups(all)
      ensures GroupedTo(if done + FAN_IN < all then done + FAN_IN else all, all, groups + 1)
    {
    }

    /** One merge level: every 64 neighbours become one file. */
    method MergeLevel(paths: seq<Name>, level: nat, power: nat, ghost runs: seq<seq<Example>>, ghost all: seq<Example>)
      returns (ok: bool, left: nat, next: seq<Name>, ghost nextRuns: seq<seq<Example>>)
      requires Valid() && HoldsRuns(files, paths, runs, all)
      requires forall g: nat :: Group(level, g) !in paths
      modifies this
      ensures Valid()
      ensures ok ==> HoldsRuns(files, next, nextRuns, all) && |next| == (|paths| + 63) / 64
      ensures ok ==> forall n :: n in next ==> n.Group? && n.level == level
      ensures if ok then power <= left + 2 * |next| else power < 2 * (Groups(|paths|))
    {
      next, nextRuns, left := [], [], power;
      var offset := 0;
      while offset < |paths|
        invariant GroupedTo(offset, |paths|, |next|)
        invariant Valid()
        invariant MergedTo(files, paths, runs, all, offset, level, next, nextRuns)
        invariant power <= left + 2 * |next|
        decreases |paths| - offset
      {
        var end := if offset + FAN_IN < |paths| then offset + FAN_IN else |paths|;
        var output := Group(level, offset / FAN_IN);
        ghost var was := files;
        GroupMore(offset, |paths|, |next|);
        HoldsSlice(was, paths, runs, all, offset, end);
        ok, left := MergeGroup(paths[offset..end], output, left, runs[offset..end]);
        if !ok {
          return;
        }
        LevelStep(was, files, paths, runs, all, level, next, nextRuns, offset, end);
        next, nextRuns := next + [output], nextRuns + [StableSort(Concat(runs[offset..end]))];
        offset := end;
      }
      ok := true;
      assert runs[..|paths|] == runs;
    }

    /** Shards, then levels of merges until at most 64 files are left. */
    method SortExampleFiles(sources: seq<Fingerprint>, power: nat)
      returns (outcome: SortOutcome, left: nat, ghost runs: seq<seq<Example>>)
      requires Valid()
      modifies this
      ensures Valid()
      ensures outcome.SortedFiles? ==>
          |outcome.paths| <= 64 && HoldsRuns(files, outcome.paths, runs, Concat(volume.Runs(sources)))
      ensures outcome.Unreadable? ==>
          exists i :: 0 <= i < |sources| && !WellFormed(volume.codec, volume.content(sources[i]))
      ensures outcome.CutOff? ==> power < 4 * |sources|
    {
      var paths;
      outcome, left, runs := SortShards(sources, power);
      if !outcome.SortedFiles? {
        return;
      }
      paths := outcome.paths;
      var level := 0;
      while |paths| > FAN_IN
        invariant Valid() && HoldsRuns(files, paths, runs, Concat(volume.Runs(sources)))
        invariant forall n :: n in paths ==> n.Shard? || n.level <= level
        invariant |paths| <= |sources|
        invariant power <= left + 2 * |sources| + 2 * (|sources| - |paths|)
        decreases |paths|
      {
        level := level + 1;
        var ok;
        ok, left, paths, runs := MergeLevel(paths, level, left, runs, Concat(volume.Runs(sources)));
        if !ok {
          return CutOff, left, runs;
        }
      }
      outcome := SortedFiles(paths);
    }

    /** The first `done` shards are sorted into these paths. */
    ghost predicate ShardsSorted(files: map<Name, Fingerprint>, paths: seq<Name>, runs: seq<seq<Example>>,
        sources: seq<Fingerprint>, done: nat) {
      && |paths| == done <= |sources| && HoldsRuns(files, paths, runs, Concat(volume.Runs(sources[..done])))
      && forall j :: 0 <= j < done ==> paths[j] == Shard(j + 1)
    }

    lemma ShardStep(was: map<Name, Fingerprint>, now: map<Name, Fingerprint>, paths: seq<Name>, runs: seq<seq<Example>>,
                    sources: seq<Fingerprint>, i: nat)
      requires i < |sources| && ShardsSorted(was, paths, runs, sources, i) && OnlyChanged(was, now, Shard(i + 1))
      requires Holds(now, Shard(i + 1), StableSort(Rows(volume.codec, volume.content(sources[i]))))
      ensures var sorted := StableSort(Rows(volume.codec, volume.content(sources[i])));
        ShardsSorted(now, paths + [Shard(i + 1)], runs + [sorted], sources, i + 1)
    {
      assert forall n :: n in paths ==> n.number <= i;
      var rows := Rows(volume.codec, volume.content(sources[i]));
      ConcatOne(rows);
      StillHolds(was, now, Shard(i + 1), paths, runs, Concat(volume.Runs(sources[..i])));
      OneMore(now, paths, runs, volume.Runs(sources[..i]), Shard(i + 1), StableSort(rows), [rows]);
      RunsMore(sources, i);
    }

    lemma RunsMore(sources: seq<Fingerprint>, i: nat)
      requires i < |sources|
      ensures volume.Runs(sources[..i + 1])
           == volume.Runs(sources[..i]) + [Rows(volume.codec, volume.content(sources[i]))]
    {
    }

    method SortShards(sources: seq<Fingerprint>, power: nat)
      returns (outcome: SortOutcome, left: nat, ghost runs: seq<seq<Example>>)
      requires Valid()
      modifies this
      ensures Valid()
      ensures outcome.SortedFiles? ==>
          |outcome.paths| == |sources| && HoldsRuns(files, outcome.paths, runs, Concat(volume.Runs(sources)))
      ensures outcome.SortedFiles? ==> (forall n :: n in outcome.paths ==> n.Shard?) && power <= left + 2 * |sources|
      ensures outcome.Unreadable? ==>
          exists i :: 0 <= i < |sources| && !WellFormed(volume.codec, volume.content(sources[i]))
      ensures outcome.CutOff? ==> power < 2 * |sources|
    {
      var paths := [];
      runs, left := [], power;
      for i := 0 to |sources|
        invariant Valid() && ShardsSorted(files, paths, runs, sources, i)
        invariant power <= left + 2 * i
      {
        ghost var was := files;
        outcome, left := SortShard(sources[i], i + 1, left);
        if !outcome.SortedFiles? {
          return;
        }
        ghost var rows := Rows(volume.codec, volume.content(sources[i]));
        ShardStep(was, files, paths, runs, sources, i);
        paths, runs := paths + outcome.paths, runs + [StableSort(rows)];
      }
      assert sources[..|sources|] == sources;
      outcome := SortedFiles(paths);
    }

    /** Opening the sorted files as merge inputs gives the one-shot answer of the sources. */
    lemma SameAnswer(paths: seq<Name>, runs: seq<seq<Example>>, prints: seq<Fingerprint>, sources: seq<Fingerprint>)
      requires volume.Sound() && HoldsRuns(files, paths, runs, Concat(volume.Runs(sources)))
      requires |prints| == |paths| && forall i :: 0 <= i < |paths| ==> prints[i] == files[paths[i]]
      ensures volume.Runs(prints) == runs && volume.Expected(prints) == volume.Expected(sources)
      ensures forall i :: 0 <= i < |prints| ==> WellFormed(volume.codec, volume.content(prints[i]))
    {
      forall i | 0 <= i < |paths|
        ensures volume.Runs(prints)[i] == runs[i] && WellFormed(volume.codec, volume.content(prints[i]))
      {
        RoundTrip(volume.codec, runs[i]);
      }
      assert volume.Runs(prints) == runs;
      SameTiesSameSort(Concat(runs), Concat(volume.Runs(sources)));
    }
  }

  /**
   From batch files to the published training examples: the file holds the stable sort of all
   batches, whatever was cut off, reused or left behind by earlier attempts.
   */
  method WriteTrainingExamples(dir: SortDir, job: MergeJob, sources: seq<Fingerprint>, sortPower: nat, mergePower: nat,
      kept: nat)
    returns (o: Outcome)
    requires dir.Valid() && job.Valid() && dir.volume == job.volume
    modifies dir, job
    ensures dir.Valid() && job.Valid()
    ensures o.Published? ==>
        job.manifest.Some? && job.Current(job.manifest.value.inputs) && job.manifest.value.result == o.result
    ensures o.Published? ==>
        dir.volume.content(job.manifest.value.output)
            == RenderAll(dir.volume.codec, StableSort(Concat(dir.volume.Runs(sources))))
    ensures dir.volume.InRowOrder(sources)
    ensures o.Malformed? ==>
        exists i :: 0 <= i < |sources| && !WellFormed(dir.volume.codec, dir.volume.content(sources[i]))
    ensures o.Refused? ==> exists inputs ::
        old(job.Stuck(inputs)) && job.Stuck(inputs) && dir.volume.Expected(inputs) == dir.volume.Expected(sources)
    ensures sortPower >= 4 * |sources| && mergePower >= 2 * |dir.volume.Expected(sources)| + 6 ==> !o.Interrupted?
  {
    dir.volume.ExpectedInOrder(sources);
    var outcome, left, runs := dir.SortExampleFiles(sources, sortPower);
    match outcome {
      case Unreadable => return Malformed;
      case CutOff => return Interrupted;
      case SortedFiles(paths) =>
        var prints := dir.Prints(paths);
        dir.SameAnswer(paths, runs, prints, sources);
        o := job.Run(prints, mergePower, kept);
    }
  }
}
