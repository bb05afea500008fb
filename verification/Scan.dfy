/** The chunked scan of all examples: one record per (target, event), committed with its cursor. */
module Scan {
  import opened Bytes
  import opened Options
  import opened Examples
  import opened StableMerge
  import opened Jsonl
  import opened StreamMerge

  const CHUNK_ROWS := 5000

  datatype RecordKey = RecordKey(target: string, event: string)

  datatype Record = Record(
    labels: set<int>,
    forecastAt: Option<int>,
    availableAt: Option<int>,
    missing: set<string>,
    uncertified: bool)

  type Table = map<RecordKey, Record>

  datatype ScanState = ScanState(inputs: seq<Fingerprint>, file: nat, offset: nat, rows: nat, complete: bool)

  datatype ScanOutcome = Complete(records: Table) | InputsChanged | BadRow | CutOff

  const EMPTY := Record({}, None, None, {}, false)

  function RecordKeyOf(r: Example): RecordKey {
    RecordKey(r.target, r.event)
  }

  function Earlier(a: Option<int>, b: Option<int>): Option<int> {
    if a.None? then b else if b.None? then a else if b.value < a.value then b else a
  }

  function Later(a: Option<int>, b: Option<int>): Option<int> {
    if a.None? then b else if b.None? then a else if b.value > a.value then b else a
  }

  /** Folding a stored record and a fresh one together. */
  function Combine(a: Record, b: Record): Record {
    Record(a.labels + b.labels, Earlier(a.forecastAt, b.forecastAt), Later(a.availableAt, b.availableAt),
           a.missing + b.missing, a.uncertified || b.uncertified)
  }

  /** One row taken into a record. */
  function Absorb(item: Record, r: Example): Record {
    Combine(item, Record({r.outcome}, Some(r.observedAt), r.availableAt, r.missing, !r.certified || r.missing != {}))
  }

  /** One pass over all rows. */
  function Aggregate(rows: seq<Example>): Table {
    if rows == [] then map[]
    else
      var before := Aggregate(rows[..|rows| - 1]);
      var r := rows[|rows| - 1];
      var k := RecordKeyOf(r);
      before[k := Absorb(if k in before then before[k] else EMPTY, r)]
  }

  /** A chunk's groups stored into the table. */
  function Merge(stored: Table, groups: Table): Table {
    map k | k in stored.Keys + groups.Keys ::
      if k !in groups then stored[k] else if k !in stored then groups[k] else Combine(stored[k], groups[k])
  }

  lemma CombineAssociative(a: Record, b: Record, c: Record)
    ensures Combine(Combine(a, b), c) == Combine(a, Combine(b, c))
  {
    assert (a.labels + b.labels) + c.labels == a.labels + (b.labels + c.labels);
    assert (a.missing + b.missing) + c.missing == a.missing + (b.missing + c.missing);
  }

  /** Where the rows are cut into chunks does not matter. */
  lemma {:induction false} AggregateSplit(a: seq<Example>, b: seq<Example>)
    ensures Aggregate(a + b) == Merge(Aggregate(a), Aggregate(b))
  {
    if b == [] {
      assert a + b == a;
      assert Merge(Aggregate(a), map[]) == Aggregate(a);
    } else {
      var r, front := b[|b| - 1], b[..|b| - 1];
      AggregateSplit(a, front);
      assert (a + b)[..|a + b| - 1] == a + front;
      MergeAbsorb(Aggregate(a), Aggregate(front), r);
    }
  }

  lemma MergeAbsorb(stored: Table, groups: Table, r: Example)
    ensures var k := RecordKeyOf(r);
      var both := Merge(stored, groups);
      both[k := Absorb(if k in both then both[k] else EMPTY, r)]
        == Merge(stored, groups[k := Absorb(if k in groups then groups[k] else EMPTY, r)])
  {
    var k := RecordKeyOf(r);
    var one := Absorb(EMPTY, r);
    assert forall item :: Absorb(item, r) == Combine(item, one);
    if k in stored && k in groups {
      CombineAssociative(stored[k], groups[k], one);
    }
  }

  ghost function Own(rows: seq<Example>, k: RecordKey): set<Example> {
    set r | r in rows && RecordKeyOf(r) == k
  }

  /** What one record says about the rows of its key, without any order of folding. */
  ghost predicate Describes(own: set<Example>, rec: Record) {
    && rec.labels == (set r | r in own :: r.outcome)
    && rec.missing == (set r, f | r in own && f in r.missing :: f)
    && (rec.uncertified <==> exists r :: r in own && (!r.certified || r.missing != {}))
    && DescribesTimes(own, rec.forecastAt, rec.availableAt)
  }

  ghost predicate DescribesTimes(own: set<Example>, forecast: Option<int>, available: Option<int>) {
    && (forecast.Some? <==> own != {})
    && (forecast.Some? ==> exists r :: r in own && r.observedAt == forecast.value)
    && (forall r :: r in own ==> forecast.value <= r.observedAt)
    && (available.Some? ==> exists r :: r in own && r.availableAt == available)
    && (forall r :: r in own && r.availableAt.Some? ==> available.Some? && r.availableAt.value <= available.value)
  }

  lemma AbsorbDescribes(own: set<Example>, rec: Record, r: Example)
    requires Describes(own, rec)
    ensures Describes(own + {r}, Absorb(rec, r))
  {
    var now := Absorb(rec, r);
    assert r in own + {r};
    assert now.labels == (set x | x in own + {r} :: x.outcome);
    assert now.missing == (set x, f | x in own + {r} && f in x.missing :: f);
    TimesAbsorb(own, rec, r);
  }

  lemma TimesAbsorb(own: set<Example>, rec: Record, r: Example)
    requires DescribesTimes(own, rec.forecastAt, rec.availableAt)
    ensures DescribesTimes(own + {r}, Absorb(rec, r).forecastAt, Absorb(rec, r).availableAt)
  {
    assert r in own + {r};
    assert forall x :: x in own ==> x in own + {r};
  }

  /** The table has a record exactly for the keys that occur, and each record is what it should be. */
  lemma {:induction false} AggregateMeaning(rows: seq<Example>, k: RecordKey)
    ensures k in Aggregate(rows) <==> exists r :: r in rows && RecordKeyOf(r) == k
    ensures Describes(Own(rows, k), if k in Aggregate(rows) then Aggregate(rows)[k] else EMPTY)
  {
    if rows != [] {
      var front, r := rows[..|rows| - 1], rows[|rows| - 1];
      AggregateMeaning(front, k);
      assert rows == front + [r];
      if RecordKeyOf(r) == k {
        assert Own(rows, k) == Own(front, k) + {r};
        AbsorbDescribes(Own(front, k), if k in Aggregate(front) then Aggregate(front)[k] else EMPTY, r);
      } else {
        assert Own(rows, k) == Own(front, k);
      }
    }
  }

  /** The same for a target and an event: its record describes exactly the rows of that target and event. */
  lemma RecordMeaning(rows: seq<Example>, target: string, event: string)
    ensures RecordKey(target, event) in Aggregate(rows)
            <==> exists r :: r in rows && r.target == target && r.event == event
    ensures RecordKey(target, event) in Aggregate(rows) ==>
      var own := set r | r in rows && r.target == target && r.event == event;
      Describes(own, Aggregate(rows)[RecordKey(target, event)])
  {
    var k := RecordKey(target, event);
    AggregateMeaning(rows, k);
    assert (set r | r in rows && r.target == target && r.event == event) == Own(rows, k);
  }

  /** One record for every target and event that occur, and it describes their rows. */
  ghost predicate Told(records: Table, rows: seq<Example>) {
    forall target, event :: var k := RecordKey(target, event);
      && (k in records <==> exists r :: r in rows && r.target == target && r.event == event)
      && (k in records ==>
            var own := set r | r in rows && r.target == target && r.event == event; Describes(own, records[k]))
  }

  lemma AllTold(rows: seq<Example>)
    ensures Told(Aggregate(rows), rows)
  {
    forall target, event
      ensures RecordKey(target, event) in Aggregate(rows)
              <==> exists r :: r in rows && r.target == target && r.event == event
      ensures RecordKey(target, event) in Aggregate(rows) ==>
        var own := set r | r in rows && r.target == target && r.event == event;
        Describes(own, Aggregate(rows)[RecordKey(target, event)])
    {
      RecordMeaning(rows, target, event);
    }
  }

  /** Read up to CHUNK_ROWS rows, grouping as we go; blank lines do not count. */
  method ReadChunk(c: Codec, b: seq<byte>, from: nat)
      returns (groups: Table, offset: nat, lines: nat, ok: bool, ghost chunk: seq<Example>)
    requires Boundary(b, from)
    ensures !ok ==> !WellFormed(c, b)
    ensures ok ==> Boundary(b, offset) && Rows(c, b[..offset]) == Rows(c, b[..from]) + chunk
    ensures ok ==> groups == Aggregate(chunk) && lines == |chunk|
    ensures ok && lines < 5000 ==> offset == |b|
    ensures lines <= 5000
  {
    groups, offset, lines, ok, chunk := map[], from, 0, true, [];
    while lines < CHUNK_ROWS
      invariant ok && lines == |chunk| <= CHUNK_ROWS
      invariant ReadTo(c, b, from, offset, chunk) && groups == Aggregate(chunk)
      decreases CHUNK_ROWS - lines
    {
      var start, end, row;
      start, end, row, ok := NextRow(c, b, offset);
      if !ok {
        return;
      }
      if row.None? {
        ReadSoFar(c, b, from, start, chunk);
        offset := start;
        return;
      }
      var k := RecordKeyOf(row.value);
      NextRead(c, b, from, offset, chunk, end, row.value);
      AggregateStep(chunk, row.value);
      groups := groups[k := Absorb(if k in groups then groups[k] else EMPTY, row.value)];
      offset, lines, chunk := end, lines + 1, chunk + [row.value];
    }
    ReadSoFar(c, b, from, offset, chunk);
  }

  ghost predicate ReadTo(c: Codec, b: seq<byte>, from: nat, offset: nat, chunk: seq<Example>)
    requires from <= |b|
  {
    Boundary(b, offset) && Rows(c, b[from..]) == chunk + Rows(c, b[offset..])
  }

  lemma NextRead(c: Codec, b: seq<byte>, from: nat, offset: nat, chunk: seq<Example>, end: nat, r: Example)
    requires from <= |b| && ReadTo(c, b, from, offset, chunk)
    requires Boundary(b, end) && Rows(c, b[offset..]) == [r] + Rows(c, b[end..])
    ensures ReadTo(c, b, from, end, chunk + [r])
  {
    assert chunk + ([r] + Rows(c, b[end..])) == (chunk + [r]) + Rows(c, b[end..]);
  }

  lemma AggregateStep(chunk: seq<Example>, r: Example)
    ensures var groups, k := Aggregate(chunk), RecordKeyOf(r);
      Aggregate(chunk + [r]) == groups[k := Absorb(if k in groups then groups[k] else EMPTY, r)]
  {
    assert (chunk + [r])[..|chunk + [r]| - 1] == chunk;
  }

  lemma ReadSoFar(c: Codec, b: seq<byte>, from: nat, offset: nat, chunk: seq<Example>)
    requires Boundary(b, from) && Boundary(b, offset)
    requires Rows(c, b[from..]) == chunk + Rows(c, b[offset..])
    ensures Rows(c, b[..offset]) == Rows(c, b[..from]) + chunk
  {
    RowsSplit(c, b, from);
    RowsSplit(c, b, offset);
    FrontUpTo(Rows(c, b[..from]), Rows(c, b[from..]), Rows(c, b[..offset]), Rows(c, b[offset..]), chunk);
  }

  lemma FrontUpTo(front: seq<Example>, back: seq<Example>, more: seq<Example>, less: seq<Example>, chunk: seq<Example>)
    requires front + back == more + less && back == chunk + less
    ensures more == front + chunk
  {
    assert front + (chunk + less) == (front + chunk) + less;
    SameTail(more, front + chunk, less);
  }

  /** The scan database. A chunk's records and its cursor are committed together. */
  class ScanDb {
    const volume: Volume
    var records: Table
    var state: Option<ScanState>

    constructor (volume: Volume)
      ensures Valid() && this.volume == volume && state == None
    {
      this.volume := volume;
      records, state := map[], None;
    }

    /** The rows in front of the cursor. */
    ghost function RowsDone(s: ScanState): seq<Example>
      requires s.file < |s.inputs| ==> s.offset <= |volume.content(s.inputs[s.file])|
      requires s.file <= |s.inputs|
    {
      Concat(volume.Runs(s.inputs[..s.file]))
        + (if s.file < |s.inputs| then Rows(volume.codec, volume.content(s.inputs[s.file])[..s.offset]) else [])
    }

    ghost predicate CursorOk(s: ScanState) {
      && s.file <= |s.inputs|
      && (s.file < |s.inputs| ==> Boundary(volume.content(s.inputs[s.file]), s.offset))
      && (s.complete ==> s.file == |s.inputs|)
    }

    ghost predicate Valid()
      reads this
    {
      match state
      case None => records == map[]
      case Some(s) => Committed(s)
    }

    ghost predicate Committed(s: ScanState)
      reads this
    {
      CursorOk(s) && records == Aggregate(RowsDone(s)) && s.rows == |RowsDone(s)|
    }

    /** Scan until done, or until `commits` transactions have gone through and the process dies. */
    method Run(inputs: seq<Fingerprint>, commits: nat) returns (o: ScanOutcome)
      requires Valid()
      modifies this
      ensures Valid()
      ensures o.InputsChanged? <==> old(state.Some? && state.value.inputs != inputs)
      ensures o.Complete? ==> o.records == records == Aggregate(Concat(volume.Runs(inputs)))
      ensures o.Complete? ==> Told(o.records, Concat(volume.Runs(inputs)))
      ensures o.Complete? ==> state.Some? && state.value.complete && state.value.rows == |Concat(volume.Runs(inputs))|
      ensures o.CutOff? ==> commits <= |inputs| + |Concat(volume.Runs(inputs))|
      ensures o.BadRow? ==> exists i :: 0 <= i < |inputs| && !WellFormed(volume.codec, volume.content(inputs[i]))
    {
      var s := if state.Some? then state.value else ScanState(inputs, 0, 0, 0, false);
      if s.inputs != inputs {
        return InputsChanged;
      }
      var left: nat := commits;
      while !s.complete
        invariant s.inputs == inputs && Committed(s)
        invariant state.Some? ==> state == Some(s)
        invariant commits <= left + s.rows + s.file + (if s.complete then 1 else 0)
        invariant state.None? ==> records == map[] && !s.complete
        decreases left
      {
        if left == 0 {
          DoneBounded(s);
          return CutOff;
        }
        left := left - 1;
        if s.file >= |inputs| {
          s := s.(complete := true);
          state := Some(s);
        } else {
          var ok;
          ok, s := ScanChunk(s);
          if !ok {
            return BadRow;
          }
        }
      }
      assert inputs[..|inputs|] == inputs;
      assert RowsDone(s) == Concat(volume.Runs(inputs));
      AllTold(Concat(volume.Runs(inputs)));
      o := Complete(records);
    }

    /** One transaction: a chunk's groups folded into the stored records, and the cursor behind it. */
    method ScanChunk(s: ScanState) returns (ok: bool, s': ScanState)
      requires Committed(s) && !s.complete && s.file < |s.inputs|
      modifies this
      ensures !ok ==>
          records == old(records) && state == old(state) && s' == s &&
            !WellFormed(volume.codec, volume.content(s.inputs[s.file]))
      ensures ok ==>
          Committed(s') && state == Some(s') && s'.inputs == s.inputs && !s'.complete &&
            s'.rows + s'.file > s.rows + s.file
    {
      var groups, offset, lines, read, chunk := ReadChunk(volume.codec, volume.content(s.inputs[s.file]), s.offset);
      if !read {
        return false, s;
      }
      AggregateSplit(RowsDone(s), chunk);
      s' := s.(offset := offset, rows := s.rows + lines);
      if lines < CHUNK_ROWS {
        s' := s'.(file := s.file + 1, offset := 0);
        NextFile(s, s', chunk);
      } else {
        SameFile(s, s', chunk);
      }
      ok, records, state := true, Merge(records, groups), Some(s');
    }

    lemma SameFile(s: ScanState, s': ScanState, chunk: seq<Example>)
      requires CursorOk(s) && !s.complete && s.file < |s.inputs| && s' == s.(offset := s'.offset, rows := s'.rows)
      requires Boundary(volume.content(s.inputs[s.file]), s'.offset)
      requires Rows(volume.codec, volume.content(s.inputs[s.file])[..s'.offset])
            == Rows(volume.codec, volume.content(s.inputs[s.file])[..s.offset]) + chunk
      ensures CursorOk(s') && RowsDone(s') == RowsDone(s) + chunk
    {
    }

    lemma NextFile(s: ScanState, s': ScanState, chunk: seq<Example>)
      requires CursorOk(s) && !s.complete && s.file < |s.inputs| &&
          s' == s.(file := s.file + 1, offset := 0, rows := s'.rows)
      requires Rows(volume.codec, volume.content(s.inputs[s.file])[..|volume.content(s.inputs[s.file])|])
            == Rows(volume.codec, volume.content(s.inputs[s.file])[..s.offset]) + chunk
      ensures CursorOk(s') && RowsDone(s') == RowsDone(s) + chunk
    {
      var b := volume.content(s.inputs[s.file]);
      var done := volume.Runs(s.inputs[..s.file]);
      assert b[..|b|] == b;
      RunsAppend(s.inputs, s.file);
      assert Concat(done) + (Rows(volume.codec, b[..s.offset]) + chunk)
          == (Concat(done) + Rows(volume.codec, b[..s.offset])) + chunk;
      if s'.file < |s.inputs| {
        assert volume.content(s.inputs[s'.file])[..0] == [];
      }
    }

    lemma RunsAppend(inputs: seq<Fingerprint>, n: nat)
      requires n < |inputs|
      ensures Concat(volume.Runs(inputs[..n + 1]))
          == Concat(volume.Runs(inputs[..n])) + Rows(volume.codec, volume.content(inputs[n]))
    {
      var b := volume.content(inputs[n]);
      assert volume.Runs(inputs[..n + 1]) == volume.Runs(inputs[..n]) + [Rows(volume.codec, b)];
      ConcatAppend(volume.Runs(inputs[..n]), [Rows(volume.codec, b)]);
      ConcatOne(Rows(volume.codec, b));
    }

    lemma RunsSplit(inputs: seq<Fingerprint>, n: nat)
      requires n <= |inputs|
      ensures Concat(volume.Runs(inputs)) == Concat(volume.Runs(inputs[..n])) + Concat(volume.Runs(inputs[n..]))
    {
      assert volume.Runs(inputs) == volume.Runs(inputs[..n]) + volume.Runs(inputs[n..]);
      ConcatAppend(volume.Runs(inputs[..n]), volume.Runs(inputs[n..]));
    }

    lemma FrontRows(b: seq<byte>, offset: nat)
      requires Boundary(b, offset)
      ensures |Rows(volume.codec, b[..offset])| <= |Rows(volume.codec, b)|
    {
      RowsSplit(volume.codec, b, offset);
    }

    lemma FrontRuns(inputs: seq<Fingerprint>, n: nat)
      requires n < |inputs|
      ensures |Concat(volume.Runs(inputs[..n]))| + |Rows(volume.codec, volume.content(inputs[n]))|
           <= |Concat(volume.Runs(inputs))|
    {
      RunsAppend(inputs, n);
      RunsSplit(inputs, n + 1);
    }

    lemma DoneBounded(s: ScanState)
      requires CursorOk(s)
      ensures |RowsDone(s)| <= |Concat(volume.Runs(s.inputs))|
    {
      if s.file < |s.inputs| {
        FrontRows(volume.content(s.inputs[s.file]), s.offset);
        FrontRuns(s.inputs, s.file);
      } else {
        RunsSplit(s.inputs, s.file);
      }
    }
  }
}
