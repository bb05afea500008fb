/**
 The streaming merge: one pass over sorted inputs that survives being cut off anywhere, by
 saving input offsets beside a truncatable output.
 */
module StreamMerge {
  import opened Bytes
  import opened Options
  import opened Examples
  import opened StableMerge
  import opened Jsonl

  datatype Fingerprint = Fingerprint(device: nat, inode: nat, size: nat, mtime: nat, ctime: nat)

  /** merge_state.json */
  datatype MergeState = MergeState(inputs: seq<Fingerprint>, offsets: seq<nat>, bytes: nat, count: nat)

  datatype Result = Result(path: string, examples: nat, sha256: string, logicalDigest: string)

  /** merge_manifest.json */
  datatype Manifest = Manifest(inputs: seq<Fingerprint>, output: Fingerprint, result: Result)

  /** Refused: the final re-read raised. Malformed: an input line did not parse. Interrupted: cut off. */
  datatype Outcome = Published(result: Result) | Refused | Malformed | Interrupted

  /** How the row loop ends: at the end of the inputs, cut off, or on a line that does not parse. */
  datatype Phase = Done | Lost | BadLine

  const CHECKPOINT_ROWS := 10000

  /** What lies outside the program: JSON, digests, and files behind their fingerprints. */
  datatype Volume = Volume(
    codec: Codec,
    content: Fingerprint -> seq<byte>,
    stat: seq<byte> -> Fingerprint,
    sha256: seq<byte> -> string,
    logical: seq<Example> -> string)
  {
    ghost predicate Sound() {
      codec.Faithful() && forall b :: content(stat(b)) == b
    }

    ghost function Runs(inputs: seq<Fingerprint>): seq<seq<Example>> {
      seq(|inputs|, i requires 0 <= i < |inputs| => Rows(codec, content(inputs[i])))
    }

    /** The one-shot answer: the stable sort of all inputs, one after the other. */
    ghost function Expected(inputs: seq<Fingerprint>): seq<Example> {
      StableSort(Concat(Runs(inputs)))
    }

    ghost predicate OnBoundaries(s: MergeState) {
      |s.offsets| == |s.inputs| && forall i :: 0 <= i < |s.inputs| ==> Boundary(content(s.inputs[i]), s.offsets[i])
    }

    /** The rows in front of the saved offsets, input by input. */
    ghost function Before(s: MergeState): seq<seq<Example>>
      requires OnBoundaries(s)
    {
      seq(|s.inputs|, i requires 0 <= i < |s.inputs| => Rows(codec, content(s.inputs[i])[..s.offsets[i]]))
    }

    ghost function Rest(s: MergeState): seq<seq<Example>>
      requires OnBoundaries(s)
    {
      seq(|s.inputs|, i requires 0 <= i < |s.inputs| => Rows(codec, content(s.inputs[i])[s.offsets[i]..]))
    }

    /** The output that belongs to a state: the merge of exactly the rows before its offsets. */
    ghost function OutputOf(s: MergeState): seq<byte>
      requires OnBoundaries(s)
    {
      RenderAll(codec, StableSort(Concat(Before(s))))
    }

    /** Everything a saved state promises apart from the output file. */
    ghost predicate Aligned(s: MergeState) {
      && OnBoundaries(s)
      && Cut(Before(s), Rest(s))
      && s.count == |Concat(Before(s))|
      && s.bytes == |OutputOf(s)|
    }

    /** The output file holds what the state says it holds, and perhaps a tail. */
    ghost predicate Synced(s: MergeState, file: seq<byte>)
      requires Aligned(s)
    {
      s.bytes <= |file| && file[..s.bytes] == OutputOf(s)
    }

    lemma SyncedFront(s: MergeState, file: seq<byte>, n: nat)
      requires Aligned(s) && Synced(s, file) && s.bytes <= n <= |file|
      ensures Synced(s, file[..n])
    {
      assert file[..n][..s.bytes] == file[..s.bytes];
    }

    ghost predicate Correct(inputs: seq<Fingerprint>, output: Fingerprint, r: Result) {
      && content(output) == RenderAll(codec, Expected(inputs))
      && r == Result(PathOf(logical(Expected(inputs))), |Expected(inputs)|, sha256(content(output)),
           logical(Expected(inputs)))
    }

    /** The file is named by the first twelve characters of the digest of its rows. */
    ghost predicate Named(inputs: seq<Fingerprint>, r: Result) {
      && r.logicalDigest == logical(Expected(inputs)) && r.examples == |Expected(inputs)|
      && (|r.logicalDigest| >= 12 ==> r.path == "tennis_training_examples_" + r.logicalDigest[..12] + ".jsonl")
    }

    /** The answer is ordered by the fields of its rows. */
    ghost predicate InRowOrder(inputs: seq<Fingerprint>) {
      var rows := Expected(inputs);
      forall i, j :: 0 <= i < j < |rows| ==> RowLeq(rows[i], rows[j])
    }

    lemma ExpectedInOrder(inputs: seq<Fingerprint>)
      ensures InRowOrder(inputs)
    {
      StableSortMeaning(Concat(Runs(inputs)), Expected(inputs));
    }

    /** A row is emitted: its offset moves to the next row, its bytes are written. */
    lemma EmitStep(s: MergeState, i: nat, next: nat, r: Example)
      requires Aligned(s) && i < |s.inputs|
      requires forall j :: 0 <= j < |s.inputs| ==> Sorted(Runs(s.inputs)[j])
      requires Least(Rest(s), i) && r == Rest(s)[i][0]
      requires Boundary(content(s.inputs[i]), next)
      requires Rows(codec, content(s.inputs[i])[next..]) == Rest(s)[i][1..]
      ensures var s' := MergeState(s.inputs, s.offsets[i := next], s.bytes + |codec.render(r)|, s.count + 1);
        Aligned(s') && OutputOf(s') == OutputOf(s) + codec.render(r) && Rest(s') == Rest(s)[i := Rest(s)[i][1..]]
    {
      var s' := MergeState(s.inputs, s.offsets[i := next], s.bytes + |codec.render(r)|, s.count + 1);
      AdvanceOne(s, i, next, r);
      MovedOffset(s, s', i, next);
      RestSorted(s);
      MergeStep(Before(s), Rest(s), i);
      RenderOneMore(Concat(Before(s)), Concat(Before(s')), r);
    }

    lemma RestSorted(s: MergeState)
      requires OnBoundaries(s)
      requires forall j :: 0 <= j < |s.inputs| ==> Sorted(Runs(s.inputs)[j])
      ensures forall j :: 0 <= j < |s.inputs| ==> Sorted(Rest(s)[j])
    {
      forall j | 0 <= j < |s.inputs| ensures Sorted(Rest(s)[j]) {
        var b, off := content(s.inputs[j]), s.offsets[j];
        RowsSplit(codec, b, off);
        assert Sorted(Runs(s.inputs)[j]);
        SortedSuffix(Rows(codec, b[..off]), Rows(codec, b[off..]));
      }
    }

    lemma RenderOneMore(a: seq<Example>, b: seq<Example>, r: Example)
      requires StableSort(b) == StableSort(a) + [r]
      ensures RenderAll(codec, StableSort(b)) == RenderAll(codec, StableSort(a)) + codec.render(r)
      ensures |b| == |a| + 1
    {
      var out := StableSort(a);
      RenderAllAppend(codec, out, [r]);
      RenderSingle(codec, r);
      StableSortElements(a);
      StableSortElements(b);
    }

    lemma AdvanceOne(s: MergeState, i: nat, next: nat, r: Example)
      requires OnBoundaries(s) && i < |s.inputs|
      requires Boundary(content(s.inputs[i]), next)
      requires Rest(s)[i] != [] && r == Rest(s)[i][0]
      requires Rows(codec, content(s.inputs[i])[next..]) == Rest(s)[i][1..]
      ensures Rows(codec, content(s.inputs[i])[..next]) == Before(s)[i] + [r]
    {
      var b := content(s.inputs[i]);
      RowsSplit(codec, b, next);
      RowsSplit(codec, b, s.offsets[i]);
      SameSplit(Rows(codec, b[..next]), Before(s)[i], Rest(s)[i]);
    }

    /** With nothing left to read, the output is the whole answer. */
    lemma AtEnd(s: MergeState)
      requires Aligned(s)
      requires forall i :: 0 <= i < |s.inputs| ==> Rest(s)[i] == []
      ensures OutputOf(s) == RenderAll(codec, Expected(s.inputs)) && s.count == |Expected(s.inputs)|
    {
      forall i | 0 <= i < |s.inputs| ensures Before(s)[i] == Runs(s.inputs)[i] {
        RowsSplit(codec, content(s.inputs[i]), s.offsets[i]);
        assert Rest(s)[i] == [];
      }
      assert Before(s) == Runs(s.inputs);
      StableSortElements(Concat(Runs(s.inputs)));
    }

    /** Moving an offset over blank lines changes nothing. */
    lemma SkipBlanks(s: MergeState, i: nat, next: nat)
      requires Aligned(s) && i < |s.inputs|
      requires Boundary(content(s.inputs[i]), next) && Rows(codec, content(s.inputs[i])[next..]) == Rest(s)[i]
      ensures Aligned(s.(offsets := s.offsets[i := next])) &&
          OutputOf(s.(offsets := s.offsets[i := next])) == OutputOf(s)
      ensures Rest(s.(offsets := s.offsets[i := next])) == Rest(s)
    {
      var s' := s.(offsets := s.offsets[i := next]);
      SkippedOnlyBlanks(content(s.inputs[i]), s.offsets[i], next);
      MovedOffset(s, s', i, next);
      assert Before(s)[i := Before(s)[i]] == Before(s) && Rest(s)[i := Rest(s)[i]] == Rest(s);
    }

    lemma SkippedOnlyBlanks(b: seq<byte>, offset: nat, next: nat)
      requires Boundary(b, offset) && Boundary(b, next) && Rows(codec, b[next..]) == Rows(codec, b[offset..])
      ensures Rows(codec, b[..next]) == Rows(codec, b[..offset])
    {
      RowsSplit(codec, b, next);
      RowsSplit(codec, b, offset);
      SameTail(Rows(codec, b[..next]), Rows(codec, b[..offset]), Rows(codec, b[offset..]));
    }

    lemma MovedOffset(s: MergeState, s': MergeState, i: nat, next: nat)
      requires OnBoundaries(s) && i < |s.inputs| && Boundary(content(s.inputs[i]), next)
      requires s'.inputs == s.inputs && s'.offsets == s.offsets[i := next]
      ensures OnBoundaries(s')
      ensures Before(s') == Before(s)[i := Rows(codec, content(s.inputs[i])[..next])]
      ensures Rest(s') == Rest(s)[i := Rows(codec, content(s.inputs[i])[next..])]
    {
      forall j | 0 <= j < |s.inputs|
        ensures Before(s')[j] == Before(s)[i := Rows(codec, content(s.inputs[i])[..next])][j]
        ensures Rest(s')[j] == Rest(s)[i := Rows(codec, content(s.inputs[i])[next..])][j]
      {
        assert s'.offsets[j] == if j == i then next else s.offsets[j];
      }
    }

    lemma RowsLeft(s: MergeState)
      requires Aligned(s)
      ensures s.count + |Concat(Rest(s))| == |Expected(s.inputs)|
    {
      forall j | 0 <= j < |s.inputs| ensures Runs(s.inputs)[j] == Before(s)[j] + Rest(s)[j] {
        RowsSplit(codec, content(s.inputs[j]), s.offsets[j]);
      }
      ConcatLengths(Before(s), Rest(s), Runs(s.inputs));
      StableSortElements(Concat(Runs(s.inputs)));
    }

    lemma FreshAligned(inputs: seq<Fingerprint>)
      ensures Aligned(Fresh(inputs)) && OutputOf(Fresh(inputs)) == []
    {
      var s := Fresh(inputs);
      forall i | 0 <= i < |inputs| ensures Before(s)[i] == [] {
        assert content(inputs[i])[..0] == [];
      }
      ConcatEmpty(Before(s));
    }

    /** A state that has emitted anything has at least five bytes of output. */
    lemma OutputNotTiny(s: MergeState)
      requires Sound() && Aligned(s)
      ensures s.bytes == 0 || s.bytes >= 5
    {
      var out := StableSort(Concat(Before(s)));
      if out != [] {
        assert |codec.render(out[0])| >= 5;
      }
    }
  }

  function PathOf(logicalDigest: string): string {
    "tennis_training_examples_" + (if |logicalDigest| < 12 then logicalDigest else logicalDigest[..12]) + ".jsonl"
  }

  function Fresh(inputs: seq<Fingerprint>): MergeState {
    MergeState(inputs, seq(|inputs|, _ => 0), 0, 0)
  }

  /** The merge of one input of one row. */
  lemma OneRow(volume: Volume, input: Fingerprint, r: Example)
    requires Rows(volume.codec, volume.content(input)) == [r]
    ensures volume.Runs([input]) == [[r]] && Sorted(volume.Runs([input])[0])
    ensures volume.Expected([input]) == [r] && |volume.Expected([input])| == 1
  {
    assert volume.Runs([input]) == [[r]];
    ConcatOne([r]);
    StableSortCharacterised([r], [r]);
  }

  lemma RenderSingle(c: Codec, r: Example)
    ensures RenderAll(c, [r]) == c.render(r)
  {
    assert [r][1..] == [];
  }

  lemma SameSplit(head: seq<Example>, a: seq<Example>, b: seq<Example>)
    requires b != [] && head + b[1..] == a + b
    ensures head == a + [b[0]]
  {
    assert |head| == |a| + 1;
    assert head == (a + b)[..|head|];
  }

  lemma SameTail(head: seq<Example>, a: seq<Example>, b: seq<Example>)
    requires head + b == a + b
    ensures head == a
  {
    assert |head| == |a|;
    assert head == (head + b)[..|head|] && a == (a + b)[..|a|];
  }

  lemma {:induction false} ConcatLengths(a: seq<seq<Example>>, b: seq<seq<Example>>, c: seq<seq<Example>>)
    requires |a| == |b| == |c| && forall i :: 0 <= i < |c| ==> c[i] == a[i] + b[i]
    ensures |Concat(c)| == |Concat(a)| + |Concat(b)|
  {
    if c != [] {
      ConcatLengths(a[1..], b[1..], c[1..]);
    }
  }

  lemma SortedSuffix(a: seq<Example>, b: seq<Example>)
    requires Sorted(a + b)
    ensures Sorted(b)
  {
    forall i, j | 0 <= i < j < |b| ensures KeyLeq(KeyOf(b[i]), KeyOf(b[j])) {
      assert (a + b)[|a| + i] == b[i] && (a + b)[|a| + j] == b[j];
    }
  }

  lemma {:induction false} ConcatEmpty(runs: seq<seq<Example>>)
    requires forall i :: 0 <= i < |runs| ==> runs[i] == []
    ensures Concat(runs) == []
  {
    if runs != [] {
      ConcatEmpty(runs[1..]);
    }
  }

  lemma LineSlices(b: seq<byte>, start: nat, end: nat)
    requires start < |b| && end == start + LineEnd(b[start..])
    ensures start < end <= |b| && b[start..][..LineEnd(b[start..])] == b[start..end] &&
        b[start..][LineEnd(b[start..])..] == b[end..]
    ensures Boundary(b, end)
  {
    var n := LineEnd(b[start..]);
    assert b[start..][n - 1] == b[end - 1];
  }

  /** What one line at a boundary contributes. */
  lemma LineAt(c: Codec, b: seq<byte>, start: nat, end: nat)
    requires start < |b| && Boundary(b, start) && end == start + LineEnd(b[start..])
    ensures start < end <= |b| && Boundary(b, end)
    ensures Rows(c, b[start..]) == RowOf(c, b[start..end]) + Rows(c, b[end..])
  {
    LineSlices(b, start, end);
    FirstLine(c, b[start..]);
  }

  lemma LineParses(c: Codec, b: seq<byte>, start: nat, end: nat)
    requires start < |b| && Boundary(b, start) && end == start + LineEnd(b[start..]) && end <= |b|
    requires WellFormed(c, b)
    ensures Blank(b[start..end]) || c.parse(b[start..end]).Some?
  {
    LineSlices(b, start, end);
    FirstLine(c, b[start..]);
    WellFormedSuffix(c, b, start);
  }

  /** The row that comes next, if any, and where its line ends. */
  ghost predicate Waiting(c: Codec, b: seq<byte>, rest: seq<Example>, next: Option<Example>, end: nat) {
    match next
    case None => rest == []
    case Some(r) => Boundary(b, end) && rest == [r] + Rows(c, b[end..])
  }

  /** The first row at or after an offset, and where its line starts and ends. */
  method NextRow(c: Codec, b: seq<byte>, position: nat) returns (start: nat, end: nat, row: Option<Example>, ok: bool)
    requires Boundary(b, position)
    ensures Boundary(b, start) && Boundary(b, end)
    ensures ok ==> Waiting(c, b, Rows(c, b[position..]), row, end) && (row.None? ==> start == |b|)
    ensures Rows(c, b[start..]) == Rows(c, b[position..])
    ensures WellFormed(c, b) ==> ok
  {
    start, row, ok := position, None, true;
    while start < |b|
      invariant Boundary(b, start)
      invariant Rows(c, b[start..]) == Rows(c, b[position..])
    {
      end := start + LineEnd(b[start..]);
      LineAt(c, b, start, end);
      var line := b[start..end];
      if !Blank(line) {
        row := c.parse(line);
        ok := row.Some?;
        if WellFormed(c, b) {
          LineParses(c, b, start, end);
        }
        return;
      }
      start := end;
    }
    end := start;
  }

  /** The heap: at most one waiting row per input, so comparisons stop at (key, input). */
  method PopLeast(heap: map<nat, Example>, inputs: nat) returns (least: nat)
    requires heap != map[] && forall i :: i in heap ==> i < inputs
    ensures least in heap && forall j :: j in heap ==> Precedes(heap[least], least, heap[j], j)
  {
    least :| least in heap;
    KeyLeqTotal(KeyOf(heap[least]), KeyOf(heap[least]));
    var unseen := heap.Keys - {least};
    while unseen != {}
      invariant unseen <= heap.Keys && least in heap.Keys - unseen
      invariant forall j :: j in heap.Keys - unseen ==> Precedes(heap[least], least, heap[j], j)
      decreases unseen
    {
      var j :| j in unseen;
      var was := least;
      PrecedesTotal(heap[j], j, heap[least], least);
      KeyLeqTotal(KeyOf(heap[j]), KeyOf(heap[j]));
      if Precedes(heap[j], j, heap[least], least) {
        least := j;
      }
      forall k | k in heap.Keys - unseen ensures Precedes(heap[least], least, heap[k], k) {
        PrecedesTransitive(heap[least], least, heap[was], was, heap[k], k);
      }
      unseen := unseen - {j};
    }
  }

  lemma PrecedesTotal(a: Example, i: nat, b: Example, j: nat)
    ensures Precedes(a, i, b, j) || Precedes(b, j, a, i)
  {
    KeyLeqTotal(KeyOf(a), KeyOf(b));
  }

  lemma PrecedesTransitive(a: Example, i: nat, b: Example, j: nat, c: Example, k: nat)
    requires Precedes(a, i, b, j) && Precedes(b, j, c, k)
    ensures Precedes(a, i, c, k)
  {
    KeyLeqTransitive(KeyOf(a), KeyOf(b), KeyOf(c));
    if KeyOf(a) == KeyOf(c) {
      KeyLeqAntisymmetric(KeyOf(a), KeyOf(b));
    }
  }

  method ReadBack(c: Codec, b: seq<byte>) returns (rows: Option<seq<Example>>)
    ensures rows == Reread(c, b)
  {
    var at, found := 0, [];
    assert b[at..] == b;
    PrependNothing(Reread(c, b));
    while at < |b|
      invariant 0 <= at <= |b|
      invariant Reread(c, b) == Prepend(found, Reread(c, b[at..]))
    {
      var end := at + LineEnd(b[at..]);
      RereadFirst(c, b, at, end);
      match c.parse(b[at..end]) {
        case None => return None;
        case Some(r) =>
          PrependOne(found, r, Reread(c, b[end..]));
          found := found + [r];
      }
      at := end;
    }
    assert found + [] == found;
    rows := Some(found);
  }

  lemma RereadFirst(c: Codec, b: seq<byte>, at: nat, end: nat)
    requires at < |b| && end == at + LineEnd(b[at..])
    ensures end <= |b|
    ensures Reread(c, b[at..])
        == match c.parse(b[at..end]) case None => None case Some(r) => Prepend([r], Reread(c, b[end..]))
  {
    LineSlices(b, at, end);
  }

  lemma PrependNothing(rest: Option<seq<Example>>)
    ensures Prepend([], rest) == rest
  {
    if rest.Some? {
      assert [] + rest.value == rest.value;
    }
  }

  lemma PrependOne(found: seq<Example>, r: Example, rest: Option<seq<Example>>)
    ensures Prepend(found, Prepend([r], rest)) == Prepend(found + [r], rest)
  {
    if rest.Some? {
      assert found + ([r] + rest.value) == (found + [r]) + rest.value;
    }
  }

  function Prepend(found: seq<Example>, rest: Option<seq<Example>>): Option<seq<Example>> {
    match rest case Some(r) => Some(found + r) case None => None
  }

  /**
   The state promises output over a file that is empty or opens with NULs. The file is then
   extended with NULs, and the final re-read refuses it.
   */
  predicate Stranded(s: MergeState, file: seq<byte>) {
    s.bytes >= 4 && forall k :: 0 <= k < 4 && k < |file| ==> file[k] == 0
  }

  /** What truncate(n) leaves: the front of the file, extended with NULs if it was shorter. */
  function Truncated(file: seq<byte>, n: nat): (t: seq<byte>)
    ensures |t| == n
    ensures n <= |file| ==> t == file[..n]
    ensures n > |file| ==> t[..|file|] == file && forall k :: |file| <= k < n ==> t[k] == 0
    ensures n >= 4 && (forall k :: 0 <= k < 4 && k < |file| ==> file[k] == 0) ==> StartsWithNuls(t)
  {
    if n <= |file| then file[..n] else file + seq(n - |file|, _ => 0)
  }

  /**
   The durable files of one merge. Every method may be cut off: `power` counts the points it
   still passes, and `kept` how much unsynced output then survives.
   */
  class MergeJob {
    const volume: Volume
    var temporary: Option<seq<byte>>
    var saved: Option<MergeState>
    var manifest: Option<Manifest>
    var finals: map<string, Fingerprint>

    constructor (volume: Volume)
      requires volume.Sound()
      ensures Valid() && this.volume == volume
      ensures temporary == None && saved == None && manifest == None && finals == map[]
    {
      this.volume := volume;
      temporary, saved, manifest, finals := None, None, None, map[];
    }

    ghost predicate Valid()
      reads this
    {
      && volume.Sound()
      && (saved.Some? ==>
        && volume.Aligned(saved.value)
        && (temporary.Some? ==> volume.Synced(saved.value, temporary.value) || Stranded(saved.value, temporary.value)))
      && (manifest.Some? ==> volume.Correct(manifest.value.inputs, manifest.value.output, manifest.value.result))
    }

    /** The manifest answers for these inputs and its file is untouched. */
    predicate Current(inputs: seq<Fingerprint>)
      reads this
    {
      && manifest.Some? && manifest.value.inputs == inputs
      && manifest.value.result.path in finals && finals[manifest.value.result.path] == manifest.value.output
    }

    /** The file the result names is there, and is the rendering of the one-shot answer. */
    ghost predicate Answered(inputs: seq<Fingerprint>, r: Result)
      reads this
    {
      Current(inputs) && manifest.value.result == r && volume.Correct(inputs, manifest.value.output, r)
    }

    predicate Stuck(inputs: seq<Fingerprint>)
      reads this
    {
      saved.Some? && saved.value.inputs == inputs && temporary.Some? && Stranded(saved.value, temporary.value)
    }

    method Run(inputs: seq<Fingerprint>, power: nat, kept: nat) returns (o: Outcome)
      requires Valid()
      requires forall i :: 0 <= i < |inputs| ==> Sorted(volume.Runs(inputs)[i])
      modifies this
      ensures Valid()
      ensures o.Published? ==> Answered(inputs, o.result)
      ensures o.Published? ==> volume.Named(inputs, o.result) && volume.InRowOrder(inputs)
      ensures o.Published? ==> old(Current(inputs)) || !old(Stuck(inputs))
      ensures o.Refused? ==> !old(Current(inputs)) && old(Stuck(inputs))
      ensures o.Malformed? ==> exists i :: 0 <= i < |inputs| && !WellFormed(volume.codec, volume.content(inputs[i]))
      ensures power >= 2 * |volume.Expected(inputs)| + 6 ==> !o.Interrupted?
      ensures power >= 2 * |volume.Expected(inputs)| + 6 &&
          (forall i :: 0 <= i < |inputs| ==> WellFormed(volume.codec, volume.content(inputs[i])))
        ==> (o.Published? <==> old(Current(inputs)) || !old(Stuck(inputs)))
      ensures old(Stuck(inputs)) && !old(Current(inputs)) ==> Stuck(inputs) && !Current(inputs)
      ensures Stuck(inputs) && !old(Stuck(inputs)) ==>
        power == 1 && o.Interrupted? && old(saved.Some? && saved.value.inputs == inputs && temporary.None?)
      ensures forall other :: Stuck(other) && !old(Stuck(other)) ==> power == 1 && o.Interrupted?
    {
      volume.ExpectedInOrder(inputs);
      if Current(inputs) {
        return Published(manifest.value.result);
      }
      var left, done := Resume(inputs, power);
      if !done {
        return Interrupted;
      }
      o := Continue(inputs, left, kept);
    }

    method Continue(inputs: seq<Fingerprint>, power: nat, kept: nat) returns (o: Outcome)
      requires Valid() && saved.Some? && saved.value.inputs == inputs && temporary.Some? && !Current(inputs)
      requires forall i :: 0 <= i < |inputs| ==> Sorted(volume.Runs(inputs)[i])
      modifies this
      ensures Valid()
      ensures o.Published? ==> Answered(inputs, o.result) && !old(Stuck(inputs))
      ensures o.Refused? ==> old(Stuck(inputs))
      ensures o.Malformed? ==> exists i :: 0 <= i < |inputs| && !WellFormed(volume.codec, volume.content(inputs[i]))
      ensures power >= 2 * |volume.Expected(inputs)| + 4 ==> !o.Interrupted?
      ensures old(Stuck(inputs)) ==> Stuck(inputs) && !Current(inputs)
      ensures Stuck(inputs) ==> old(Stuck(inputs))
      ensures saved.Some? && saved.value.inputs == inputs
    {
      var phase, left := Stream(inputs, power, kept);
      match phase {
        case BadLine => return Malformed;
        case Lost => return Interrupted;
        case Done =>
      }
      o := Finish(inputs, left);
    }

    /** Start over unless the saved state belongs to these inputs and its output exists. */
    method Resume(inputs: seq<Fingerprint>, power: nat) returns (left: nat, done: bool)
      requires Valid()
      modifies `temporary, `saved
      ensures Valid()
      ensures done ==> saved.Some? && saved.value.inputs == inputs && temporary.Some?
      ensures Stuck(inputs) ==> old(Stuck(inputs)) || !done
      ensures old(saved.Some? && saved.value.inputs == inputs && temporary.Some?) ==>
          done && left == power && saved == old(saved) && temporary == old(temporary)
      ensures !old(saved.Some? && saved.value.inputs == inputs && temporary.Some?) ==>
        if power == 0 then !done && saved == old(saved) && temporary == old(temporary)
        else if power == 1 then !done && saved == old(saved) && temporary == Some([])
        else done && left == power - 2 && saved == Some(Fresh(inputs)) && temporary == Some([])
    {
      left, done := power, true;
      if saved.None? || saved.value.inputs != inputs || temporary.None? {
        if left == 0 {
          return 0, false;
        }
        if saved.Some? {
          volume.OutputNotTiny(saved.value);
        }
        temporary := Some([]);
        left := left - 1;
        if left == 0 {
          return 0, false;
        }
        volume.FreshAligned(inputs);
        saved := Some(Fresh(inputs));
        left := left - 1;
      }
    }

    /** The volatile half: `heap` holds the next row of every input, `ends` where its line ends. */
    ghost predicate HeapAt(s: MergeState, heap: map<nat, Example>, ends: seq<nat>, i: nat)
      requires volume.OnBoundaries(s) && i < |s.inputs| == |ends|
    {
      Waiting(volume.codec, volume.content(s.inputs[i]), volume.Rest(s)[i],
        if i in heap then Some(heap[i]) else None, ends[i])
    }

    ghost predicate HeapOk(s: MergeState, heap: map<nat, Example>, ends: seq<nat>)
      requires volume.OnBoundaries(s) && |s.inputs| == |ends|
    {
      && (forall i :: i in heap ==> i < |s.inputs|)
      && (forall i :: 0 <= i < |s.inputs| ==> HeapAt(s, heap, ends, i))
    }

    /** How the output as the process sees it relates to the durable state. */
    ghost predicate ViewOk(s: MergeState, view: seq<byte>, synced: nat, stuck: bool)
      requires volume.Aligned(s)
      reads this
    {
      && saved.Some? && volume.Aligned(saved.value) && synced <= |view|
      && (!stuck ==> view == volume.OutputOf(s) && volume.Synced(saved.value, view) && saved.value.bytes <= synced)
      && (stuck ==> StartsWithNuls(view) && saved.value.bytes >= 4)
    }

    lemma SyncedNotStranded(s: MergeState, file: seq<byte>)
      requires volume.Sound() && volume.Aligned(s) && volume.Synced(s, file)
      ensures !Stranded(s, file)
    {
      var out := StableSort(Concat(volume.Before(s)));
      if s.bytes >= 4 {
        assert out != [];
        var line := volume.codec.render(out[0]);
        assert |line| >= 5 && volume.codec.parse(line) == Some(out[0]);
        assert !StartsWithNuls(line);
        assert forall k :: 0 <= k < |line| ==> file[..s.bytes][k] == line[k];
      }
    }

    /** The heap's least entry is the row a merge emits next. */
    lemma HeapLeast(s: MergeState, heap: map<nat, Example>, ends: seq<nat>, i: nat)
      requires volume.OnBoundaries(s) && |s.inputs| == |ends| && HeapOk(s, heap, ends)
      requires i in heap && forall j :: j in heap ==> Precedes(heap[i], i, heap[j], j)
      ensures Least(volume.Rest(s), i) && HeapAt(s, heap, ends, i)
    {
      assert HeapAt(s, heap, ends, i);
      forall j | 0 <= j < |s.inputs| && volume.Rest(s)[j] != []
        ensures Precedes(volume.Rest(s)[i][0], i, volume.Rest(s)[j][0], j)
      {
        assert HeapAt(s, heap, ends, j);
      }
    }

    /** Being cut off keeps the files in order: the visible output is a prefix no shorter than the synced part. */
    method PowerCut(ghost s: MergeState, view: seq<byte>, synced: nat, kept: nat, ghost stuck: bool)
      requires volume.Sound() && volume.Aligned(s) && ViewOk(s, view, synced, stuck)
      modifies `temporary
      ensures temporary.Some? && temporary.value <= view && (kept >= |view| ==> temporary.value == view)
      ensures !stuck ==> volume.Synced(saved.value, temporary.value) && !Stranded(saved.value, temporary.value)
      ensures stuck ==> Stranded(saved.value, temporary.value)
    {
      var n := if kept < synced then synced else if kept < |view| then kept else |view|;
      CutView(s, view, synced, n, stuck);
      temporary := Some(view[..n]);
      assert view[..|view|] == view;
    }

    lemma CutView(s: MergeState, view: seq<byte>, synced: nat, n: nat, stuck: bool)
      requires volume.Sound() && volume.Aligned(s) && ViewOk(s, view, synced, stuck) && synced <= n <= |view|
      ensures stuck ==> Stranded(saved.value, view[..n])
      ensures !stuck ==> volume.Synced(saved.value, view[..n]) && !Stranded(saved.value, view[..n])
    {
      if stuck {
        NulsStrand(saved.value, view, n);
      } else {
        volume.SyncedFront(saved.value, view, n);
        SyncedNotStranded(saved.value, view[..n]);
      }
    }

    lemma NulsStrand(s: MergeState, view: seq<byte>, n: nat)
      requires s.bytes >= 4 && StartsWithNuls(view) && n <= |view|
      ensures Stranded(s, view[..n])
    {
      forall k | 0 <= k < 4 && k < n ensures view[..n][k] == 0 {
        assert view[k] == 0;
      }
    }

    /** Fill the heap with the first row at or after every saved offset. */
    method Open(start: MergeState) returns (s: MergeState, heap: map<nat, Example>, ends: seq<nat>, ok: bool)
      requires volume.Aligned(start)
      ensures volume.Aligned(s) && s == start.(offsets := s.offsets) && volume.OutputOf(s) == volume.OutputOf(start)
      ensures |ends| == |s.inputs| && (ok ==> HeapOk(s, heap, ends))
      ensures !ok ==> exists i :: 0 <= i < |s.inputs| && !WellFormed(volume.codec, volume.content(s.inputs[i]))
    {
      s, heap, ends, ok := start, map[], seq(|start.inputs|, _ => 0), true;
      for index := 0 to |s.inputs|
        invariant s == start.(offsets := s.offsets) && volume.Aligned(s) && volume.OutputOf(s) == volume.OutputOf(start)
        invariant |ends| == |s.inputs| && ok
        invariant forall i :: i in heap ==> i < index
        invariant forall i :: 0 <= i < index ==> HeapAt(s, heap, ends, i)
      {
        var first, end, row;
        first, end, row, ok := NextRow(volume.codec, volume.content(s.inputs[index]), s.offsets[index]);
        if !ok {
          return;
        }
        volume.SkipBlanks(s, index, first);
        ghost var was, heapWas, endsWas := s, heap, ends;
        s, ends := s.(offsets := s.offsets[index := first]), ends[index := end];
        if row.Some? {
          heap := heap[index := row.value];
        }
        Pushed(was, heapWas, endsWas, s, heap, ends, index, row);
      }
    }

    lemma Pushed(s: MergeState, heap: map<nat, Example>, ends: seq<nat>, s': MergeState, heap': map<nat, Example>,
        ends': seq<nat>, index: nat, row: Option<Example>)
      requires volume.OnBoundaries(s) && volume.OnBoundaries(s') && s'.inputs == s.inputs && |ends| == |s.inputs|
      requires volume.Rest(s') == volume.Rest(s)
      requires index < |s.inputs| == |ends'| && ends' == ends[index := ends'[index]]
      requires heap' == (if row.Some? then heap[index := row.value] else heap) && forall i :: i in heap ==> i < index
      requires forall i :: 0 <= i < index ==> HeapAt(s, heap, ends, i)
      requires Waiting(volume.codec, volume.content(s.inputs[index]), volume.Rest(s)[index], row, ends'[index])
      ensures forall i :: 0 <= i <= index ==> HeapAt(s', heap', ends', i)
    {
      forall i | 0 <= i <= index ensures HeapAt(s', heap', ends', i) {
        if i < index {
          assert HeapAt(s, heap, ends, i);
        }
      }
    }

    /** The proof of one round of the row loop. */
    lemma Emit(s: MergeState, was: seq<byte>, i: nat, next: nat, r: Example, synced: nat, stuck: bool)
      returns (s': MergeState)
      requires volume.Sound() && volume.Aligned(s) && s.bytes == |was| && ViewOk(s, was, synced, stuck)
      requires forall j :: 0 <= j < |s.inputs| ==> Sorted(volume.Runs(s.inputs)[j])
      requires i < |s.inputs| && Least(volume.Rest(s), i) && r == volume.Rest(s)[i][0]
      requires Boundary(volume.content(s.inputs[i]), next)
      requires Rows(volume.codec, volume.content(s.inputs[i])[next..]) == volume.Rest(s)[i][1..]
      ensures s' == MergeState(s.inputs, s.offsets[i := next], |was + volume.codec.render(r)|, s.count + 1)
      ensures volume.Aligned(s') && ViewOk(s', was + volume.codec.render(r), synced, stuck)
      ensures volume.Rest(s') == volume.Rest(s)[i := volume.Rest(s)[i][1..]]
      ensures s.count < |volume.Expected(s.inputs)|
    {
      volume.EmitStep(s, i, next, r);
      volume.RowsLeft(s);
      ConcatMember(volume.Rest(s), r);
      s' := MergeState(s.inputs, s.offsets[i := next], |was + volume.codec.render(r)|, s.count + 1);
      ViewGrows(s, s', was, volume.codec.render(r), synced, stuck);
    }

    lemma ViewGrows(s: MergeState, s': MergeState, was: seq<byte>, line: seq<byte>, synced: nat, stuck: bool)
      requires volume.Aligned(s) && volume.Aligned(s') && ViewOk(s, was, synced, stuck)
      requires volume.OutputOf(s') == volume.OutputOf(s) + line
      ensures ViewOk(s', was + line, synced, stuck)
    {
      if !stuck {
        assert (was + line)[..saved.value.bytes] == was[..saved.value.bytes];
      }
    }

    lemma EmitLeast(s: MergeState, heap: map<nat, Example>, ends: seq<nat>, was: seq<byte>, i: nat, next: nat,
        synced: nat, stuck: bool)
      returns (s': MergeState)
      requires Looping(s.inputs, s, heap, ends, was, synced, stuck)
      requires forall j :: 0 <= j < |s.inputs| ==> Sorted(volume.Runs(s.inputs)[j])
      requires i < |s.inputs| && i in heap && HeapAt(s, heap, ends, i) && Least(volume.Rest(s), i)
      requires var b := volume.content(s.inputs[i]);
        Boundary(b, next) && Rows(volume.codec, b[next..]) == Rows(volume.codec, b[ends[i]..])
      ensures var line := volume.codec.render(heap[i]);
        && s' == MergeState(s.inputs, s.offsets[i := next], |was + line|, s.count + 1)
        && volume.Aligned(s') && ViewOk(s', was + line, synced, stuck)
      ensures volume.Rest(s')[i] == Rows(volume.codec, volume.content(s.inputs[i])[ends[i]..])
      ensures s.count < |volume.Expected(s.inputs)|
    {
      var rest := Rows(volume.codec, volume.content(s.inputs[i])[ends[i]..]);
      assert ([heap[i]] + rest)[1..] == rest;
      s' := Emit(s, was, i, next, heap[i], synced, stuck);
    }

    method Pop(state: MergeState, heap: map<nat, Example>, ends: seq<nat>) returns (index: nat)
      requires volume.OnBoundaries(state) && |state.inputs| == |ends| && HeapOk(state, heap, ends) && heap != map[]
      ensures index in heap && index < |state.inputs|
      ensures HeapAt(state, heap, ends, index) && Least(volume.Rest(state), index)
    {
      index := PopLeast(heap, |state.inputs|);
      HeapLeast(state, heap, ends, index);
    }

    /** One round: pop the least row, write it, refill from its input. `state.bytes` is the output's length. */
    method Round(state: MergeState, heap: map<nat, Example>, ends: seq<nat>, view: seq<byte>, ghost synced: nat,
        ghost stuck: bool)
      returns (state': MergeState, heap': map<nat, Example>, ends': seq<nat>, view': seq<byte>, ok: bool)
      requires Looping(state.inputs, state, heap, ends, view, synced, stuck) && heap != map[]
      requires forall j :: 0 <= j < |state.inputs| ==> Sorted(volume.Runs(state.inputs)[j])
      ensures volume.Aligned(state') && state'.inputs == state.inputs && state'.bytes == |view'| &&
          ViewOk(state', view', synced, stuck)
      ensures state'.count == state.count + 1 <= |volume.Expected(state.inputs)|
      ensures |ends'| == |state.inputs| && (ok ==> HeapOk(state', heap', ends'))
      ensures (forall i :: 0 <= i < |state.inputs| ==> WellFormed(volume.codec, volume.content(state.inputs[i]))) ==> ok
    {
      var index := Pop(state, heap, ends);
      var row := heap[index];
      var first, end, next;
      first, end, next, ok := NextRow(volume.codec, volume.content(state.inputs[index]), ends[index]);
      view' := view + volume.codec.render(row);
      state' := MergeState(state.inputs, state.offsets[index := first], |view'|, state.count + 1);
      heap', ends' := if next.Some? then heap[index := next.value] else heap - {index}, ends[index := end];
      RoundKeeps(state, heap, ends, view, index, first, end, next, ok, synced, stuck);
    }

    lemma RoundKeeps(s: MergeState, heap: map<nat, Example>, ends: seq<nat>, view: seq<byte>, index: nat, first: nat,
        end: nat, next: Option<Example>, ok: bool, synced: nat, stuck: bool)
      requires Looping(s.inputs, s, heap, ends, view, synced, stuck)
      requires forall j :: 0 <= j < |s.inputs| ==> Sorted(volume.Runs(s.inputs)[j])
      requires index < |s.inputs| && index in heap && HeapAt(s, heap, ends, index) && Least(volume.Rest(s), index)
      requires var b := volume.content(s.inputs[index]);
        && Boundary(b, first) && Rows(volume.codec, b[first..]) == Rows(volume.codec, b[ends[index]..])
        && (ok ==> Waiting(volume.codec, b, Rows(volume.codec, b[ends[index]..]), next, end))
      ensures var view' := view + volume.codec.render(heap[index]);
        var s' := MergeState(s.inputs, s.offsets[index := first], |view'|, s.count + 1);
        && volume.Aligned(s') && ViewOk(s', view', synced, stuck) && s.count < |volume.Expected(s.inputs)|
        && (ok ==> HeapOk(s', if next.Some? then heap[index := next.value] else heap - {index}, ends[index := end]))
    {
      var s' := EmitLeast(s, heap, ends, view, index, first, synced, stuck);
      if ok {
        Refilled(s, s', heap, if next.Some? then heap[index := next.value] else heap - {index}, ends,
          ends[index := end], index, next, end);
      }
    }

    lemma Refilled(s: MergeState, s': MergeState, heap: map<nat, Example>, heap': map<nat, Example>, ends: seq<nat>,
        ends': seq<nat>, index: nat, next: Option<Example>, end: nat)
      requires volume.OnBoundaries(s) && volume.OnBoundaries(s') && s'.inputs == s.inputs && |ends| == |s.inputs|
      requires index < |s.inputs| && index in heap && HeapOk(s, heap, ends)
      requires forall i :: 0 <= i < |s.inputs| && i != index ==> s'.offsets[i] == s.offsets[i]
      requires heap' == (if next.Some? then heap[index := next.value] else heap - {index}) &&
          ends' == ends[index := end]
      requires Waiting(volume.codec, volume.content(s.inputs[index]), volume.Rest(s')[index], next, end)
      ensures HeapOk(s', heap', ends')
    {
      forall i | 0 <= i < |s.inputs| ensures HeapAt(s', heap', ends', i) {
        assert HeapAt(s, heap, ends, i);
      }
    }

    /** The row loop, with its checkpoint every CHECKPOINT_ROWS rows. */
    method Stream(inputs: seq<Fingerprint>, power: nat, kept: nat) returns (phase: Phase, left: nat)
      requires Valid() && saved.Some? && saved.value.inputs == inputs && temporary.Some?
      requires forall i :: 0 <= i < |inputs| ==> Sorted(volume.Runs(inputs)[i])
      modifies `temporary, `saved
      ensures Valid() && saved.Some? && saved.value.inputs == inputs && temporary.Some?
      ensures Stuck(inputs) <==> old(Stuck(inputs))
      ensures phase.BadLine? ==> exists i :: 0 <= i < |inputs| && !WellFormed(volume.codec, volume.content(inputs[i]))
      ensures phase.Done? ==> saved.value.count == |volume.Expected(inputs)| && saved.value.bytes == |temporary.value|
      ensures phase.Done? && !Stuck(inputs) ==> temporary.value == RenderAll(volume.codec, volume.Expected(inputs))
      ensures phase.Done? && Stuck(inputs) ==> StartsWithNuls(temporary.value)
      ensures power >= 2 * |volume.Expected(inputs)| + 2 ==>
          !phase.Lost? && (phase.Done? ==> left >= power - 2 * |volume.Expected(inputs)| - 2)
    {
      ghost var stuck := Stuck(inputs);
      var state, heap, ends, ok := Open(saved.value);
      if !ok {
        return BadLine, power;
      }
      var view := Truncated(temporary.value, state.bytes);
      var synced: nat := if |temporary.value| < state.bytes then |temporary.value| else state.bytes;
      ResumedView(state, temporary.value, stuck);
      state, view, synced, phase, left := Loop(state, heap, ends, view, synced, power, kept, stuck);
      if !phase.Done? {
        return;
      }
      if left == 0 {
        PowerCut(state, view, synced, kept, stuck);
        return Lost, 0;
      }
      ok, left := Checkpoint(state, view, left - 1, stuck);
      phase := if ok then Done else Lost;
    }

    /** Cut to the saved length, the file is the output of the saved state, or a stranded one stays stranded. */
    lemma ResumedView(s: MergeState, file: seq<byte>, stuck: bool)
      requires saved.Some? && volume.Aligned(saved.value) && volume.Aligned(s)
      requires s.bytes == saved.value.bytes && volume.OutputOf(s) == volume.OutputOf(saved.value)
      requires if stuck then Stranded(saved.value, file) else volume.Synced(saved.value, file)
      ensures ViewOk(s, Truncated(file, s.bytes), if |file| < s.bytes then |file| else s.bytes, stuck)
    {
      var view := Truncated(file, s.bytes);
      assert view[..|view|] == view;
    }

    method Loop(first: MergeState, heap0: map<nat, Example>, ends0: seq<nat>, view0: seq<byte>, synced0: nat,
        power: nat, kept: nat, ghost stuck: bool)
      returns (state: MergeState, view: seq<byte>, synced: nat, phase: Phase, left: nat)
      requires volume.Sound() && volume.Aligned(first) && first.bytes == |view0| && ViewOk(first, view0, synced0, stuck)
      requires saved.value.inputs == first.inputs && temporary.Some?
      requires stuck <==> Stranded(saved.value, temporary.value)
      requires !stuck ==> volume.Synced(saved.value, temporary.value)
      requires |ends0| == |first.inputs| && HeapOk(first, heap0, ends0)
      requires forall i :: 0 <= i < |first.inputs| ==> Sorted(volume.Runs(first.inputs)[i])
      modifies `temporary, `saved
      ensures saved.Some? && saved.value.inputs == first.inputs && temporary.Some? && volume.Aligned(saved.value)
      ensures stuck <==> Stranded(saved.value, temporary.value)
      ensures !stuck ==> volume.Synced(saved.value, temporary.value)
      ensures phase.BadLine? ==>
          exists i :: 0 <= i < |first.inputs| && !WellFormed(volume.codec, volume.content(first.inputs[i]))
      ensures phase.Done? ==>
          volume.Aligned(state) && state.inputs == first.inputs && state.bytes == |view| &&
            ViewOk(state, view, synced, stuck)
      ensures phase.Done? ==> state.count == |volume.Expected(first.inputs)|
      ensures phase.Done? && !stuck ==> view == RenderAll(volume.codec, volume.Expected(first.inputs))
      ensures power > 2 * |volume.Expected(first.inputs)| ==>
          !phase.Lost? && left >= power - 2 * |volume.Expected(first.inputs)|
    {
      var heap, ends, ok := heap0, ends0, true;
      state, view, synced, phase, left := first, view0, synced0, Lost, power;
      volume.RowsLeft(state);
      while heap != map[]
        invariant Looping(first.inputs, state, heap, ends, view, synced, stuck) && Durable(first.inputs, stuck)
        invariant power <= left + 2 * state.count
        decreases |volume.Expected(first.inputs)| - state.count
      {
        state, heap, ends, view, synced, phase, left :=
          Advance(first.inputs, state, heap, ends, view, synced, left, kept, stuck);
        if !phase.Done? {
          return;
        }
      }
      NothingLeft(state, heap, ends);
      phase := Done;
    }

    /** The durable files belong to these inputs and are as stranded, or as sound, as they were. */
    ghost predicate Durable(inputs: seq<Fingerprint>, stuck: bool)
      reads this
    {
      && saved.Some? && saved.value.inputs == inputs && temporary.Some? && volume.Aligned(saved.value)
      && (stuck <==> Stranded(saved.value, temporary.value))
      && (!stuck ==> volume.Synced(saved.value, temporary.value))
    }

    /** What the loop has in memory between two rows. */
    ghost predicate Looping(inputs: seq<Fingerprint>, s: MergeState, heap: map<nat, Example>, ends: seq<nat>,
        view: seq<byte>, synced: nat, stuck: bool)
      reads this
    {
      && volume.Sound() && s.inputs == inputs && volume.Aligned(s) && s.bytes == |view|
      && ViewOk(s, view, synced, stuck) && |ends| == |s.inputs| && HeapOk(s, heap, ends)
      && s.count <= |volume.Expected(inputs)|
    }

    /** One row more, and a checkpoint if it is due; or the cut or the bad line that ends it. */
    method Advance(inputs: seq<Fingerprint>, state: MergeState, heap: map<nat, Example>, ends: seq<nat>,
        view: seq<byte>, synced: nat, power: nat, kept: nat, ghost stuck: bool)
      returns (state': MergeState, heap': map<nat, Example>, ends': seq<nat>, view': seq<byte>, synced': nat,
        phase: Phase, left: nat)
      requires Looping(inputs, state, heap, ends, view, synced, stuck) && Durable(inputs, stuck) && heap != map[]
      requires forall i :: 0 <= i < |inputs| ==> Sorted(volume.Runs(inputs)[i])
      modifies `temporary, `saved
      ensures Durable(inputs, stuck)
      ensures phase.Done? ==>
          Looping(inputs, state', heap', ends', view', synced', stuck) && state'.count == state.count + 1
      ensures phase.BadLine? ==> exists i :: 0 <= i < |inputs| && !WellFormed(volume.codec, volume.content(inputs[i]))
      ensures if phase.Lost? then power < 2 else power <= left + 2
      ensures phase.Done? ==> saved == if state'.count % 10000 == 0 then Some(state') else old(saved)
      ensures power > 0 ==> state.count < |volume.Expected(inputs)|
    {
      state', heap', ends', view', synced', phase, left := state, heap, ends, view, synced, Lost, power;
      if left == 0 {
        PowerCut(state, view, synced, kept, stuck);
        return;
      }
      left := left - 1;
      var ok;
      state', heap', ends', view', ok := Round(state, heap, ends, view, synced, stuck);
      if !ok {
        PowerCut(state', view', |view'|, |view'|, stuck);
        phase := BadLine;
        return;
      }
      if state'.count % CHECKPOINT_ROWS == 0 {
        ok, left := Checkpoint(state', view', left, stuck);
        if !ok {
          return;
        }
        synced' := |view'|;
      }
      phase := Done;
    }

    lemma NothingLeft(s: MergeState, heap: map<nat, Example>, ends: seq<nat>)
      requires volume.Aligned(s) && |ends| == |s.inputs| && HeapOk(s, heap, ends) && heap == map[]
      ensures volume.OutputOf(s) == RenderAll(volume.codec, volume.Expected(s.inputs)) &&
          s.count == |volume.Expected(s.inputs)|
    {
      forall i | 0 <= i < |s.inputs| ensures volume.Rest(s)[i] == [] {
        assert HeapAt(s, heap, ends, i);
      }
      volume.AtEnd(s);
    }

    /** Read the output back, give it its final name, and write the manifest. */
    method Finish(inputs: seq<Fingerprint>, power: nat) returns (o: Outcome)
      requires Valid() && !Current(inputs) && saved.Some? && saved.value.inputs == inputs && temporary.Some?
      requires saved.value.count == |volume.Expected(inputs)| && saved.value.bytes == |temporary.value|
      requires !Stuck(inputs) ==> temporary.value == RenderAll(volume.codec, volume.Expected(inputs))
      requires Stuck(inputs) ==> StartsWithNuls(temporary.value)
      modifies `temporary, `manifest, `finals
      ensures Valid()
      ensures old(Stuck(inputs)) ==> o == Refused && temporary == old(temporary) && !Current(inputs)
      ensures !old(Stuck(inputs)) ==>
        if power == 0 then o == Interrupted && temporary == old(temporary) && manifest == old(manifest)
            && finals == old(finals)
        else temporary == None && if power == 1 then o == Interrupted && manifest == old(manifest)
        else o.Published? && Answered(inputs, o.result)
    {
      var rows := ReadBack(volume.codec, temporary.value);
      if !Stuck(inputs) {
        RoundTrip(volume.codec, volume.Expected(inputs));
      } else {
        NulsRefused(volume.codec, temporary.value);
      }
      if rows.None? || |rows.value| != saved.value.count {
        return Refused;
      }
      if power == 0 {
        return Interrupted;
      }
      var digest := volume.logical(rows.value);
      var result := Result(PathOf(digest), |rows.value|, volume.sha256(temporary.value), digest);
      var output := volume.stat(temporary.value);
      finals, temporary := finals[result.path := output], None;
      if power == 1 {
        return Interrupted;
      }
      manifest := Some(Manifest(inputs, output, result));
      return Published(result);
    }

    /** Flush the output, then save the state; the cut may fall between the two. */
    method Checkpoint(s: MergeState, view: seq<byte>, power: nat, ghost stuck: bool) returns (ok: bool, left: nat)
      requires volume.Sound() && volume.Aligned(s) && s.bytes == |view| && ViewOk(s, view, |view|, stuck)
      modifies `temporary, `saved
      ensures temporary == Some(view) && (ok <==> power > 0) && (ok ==> left == power - 1)
      ensures saved == if ok then Some(s) else old(saved)
      ensures ViewOk(s, view, |view|, stuck)
      ensures stuck <==> Stranded(saved.value, temporary.value)
      ensures !stuck ==> volume.Synced(saved.value, temporary.value)
    {
      PowerCut(s, view, |view|, |view|, stuck);
      ok, left := power > 0, power;
      if ok {
        left := left - 1;
        saved := Some(s);
        if !stuck {
          SyncedNotStranded(s, view);
        }
      }
    }
  }

  /**
   The stuck state arises: the output has been renamed, the manifest not yet written, and the
   rerun is cut off after emptying the output but before saving the fresh state.
   */
  method StrandedByTwoCuts(volume: Volume, input: Fingerprint, r: Example) returns (job: MergeJob)
    requires volume.Sound()
    requires Rows(volume.codec, volume.content(input)) == [r] && WellFormed(volume.codec, volume.content(input))
    ensures job.Valid() && job.Stuck([input]) && !job.Current([input])
  {
    job := OneRowWritten(volume, input, r);
    var o := job.Finish([input], 1);
    var left, done := job.Resume([input], 1);
  }

  method OneRowBegun(volume: Volume, input: Fingerprint) returns (job: MergeJob)
    requires volume.Sound()
    ensures fresh(job) && job.Valid() && job.volume == volume && job.manifest == None
    ensures job.saved == Some(Fresh([input])) && job.temporary == Some([])
  {
    job := new MergeJob(volume);
    var left, done := job.Resume([input], 2);
  }

  /** The output of a merge of one row, complete but not yet renamed. */
  method OneRowWritten(volume: Volume, input: Fingerprint, r: Example) returns (job: MergeJob)
    requires volume.Sound()
    requires Rows(volume.codec, volume.content(input)) == [r] && WellFormed(volume.codec, volume.content(input))
    ensures fresh(job) && job.Valid() && job.volume == volume && job.manifest == None && !job.Stuck([input])
    ensures job.saved.Some? && job.saved.value.inputs == [input] && job.saved.value.bytes >= 4
    ensures job.saved.value.count == |volume.Expected([input])|
    ensures job.temporary == Some(RenderAll(volume.codec, volume.Expected([input])))
    ensures job.saved.value.bytes == |job.temporary.value|
  {
    job := OneRowBegun(volume, input);
    OneRow(volume, input, r);
    var phase, left;
    phase, left := job.Stream([input], 4, 0);
    RenderSingle(volume.codec, r);
    volume.OutputNotTiny(job.saved.value);
    assert !WellFormed(volume.codec, volume.content([input][0])) || phase.Done?;
  }
}
