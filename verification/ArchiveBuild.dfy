/** Building the archive, sealing its membership, and reading one event back. */
module ArchiveBuild {
  import opened Bytes
  import opened Options
  import opened Sequences
  import opened Frames
  import opened Archive
  import opened Sorting

  /** The published directory: event files and the sealed list of events. */
  datatype Directory = Directory(files: map<Uuid, seq<byte>>, members: set<Uuid>, records: nat)

  datatype BuildResult =
    | Built(directory: Directory)
    | SourceCountMismatch
    | Oversized
    | BadRow
    | DuplicateKey
    | OutputCountMismatch

  datatype Snapshot = Snapshot(id: Uuid, at: Delta, blob: seq<byte>)

  datatype ReadResult = Snapshots(rows: seq<Snapshot>) | FileMissing | FileUnexpected | Truncated | PayloadMismatch

  lemma RowFramesAppend(rows: seq<CacheRow>, row: CacheRow)
    ensures RowFrames(rows + [row]) == RowFrames(rows) + [Frame(row.event, row.blob)]
  {
  }

  /** Every row goes into the bucket of its event's first byte. */
  method Partition(rows: seq<CacheRow>) returns (buckets: array<seq<byte>>, ok: bool)
    ensures fresh(buckets) && buckets.Length == 256
    ensures ok <==> forall i :: 0 <= i < |rows| ==> |rows[i].blob| < MAX_BLOB
    ensures ok ==> forall k :: 0 <= k < 256 ==> buckets[k] == EncodeFrames(RowFrames(Bucket(rows, k)))
  {
    buckets := new seq<byte>[256](_ => []);
    for i := 0 to |rows|
      invariant forall j :: 0 <= j < i ==> |rows[j].blob| < MAX_BLOB
      invariant InBuckets(buckets[..], rows[..i])
    {
      var row := rows[i];
      if |row.blob| >= MAX_BLOB {
        return buckets, false;
      }
      IntoBucket(buckets[..], rows, i);
      buckets[row.event[0]] := buckets[row.event[0]] + EncodeFrame(Frame(row.event, row.blob));
    }
    assert rows[..|rows|] == rows;
    ok := true;
  }

  ghost predicate InBuckets(buckets: seq<seq<byte>>, rows: seq<CacheRow>) {
    |buckets| == 256 && forall k :: 0 <= k < 256 ==> buckets[k] == EncodeFrames(RowFrames(Bucket(rows, k)))
  }

  lemma IntoBucket(buckets: seq<seq<byte>>, rows: seq<CacheRow>, i: nat)
    requires i < |rows| && InBuckets(buckets, rows[..i])
    ensures var at: nat := rows[i].event[0] as int;
      InBuckets(buckets[at := buckets[at] + EncodeFrame(Frame(rows[i].event, rows[i].blob))], rows[..i + 1])
  {
    forall k | 0 <= k < 256
      ensures EncodeFrames(RowFrames(Bucket(rows[..i + 1], k)))
           == buckets[k] + if rows[i].event[0] == k then EncodeFrame(Frame(rows[i].event, rows[i].blob)) else []
    {
      BucketStep(rows, i, k);
    }
  }

  lemma BucketStep(rows: seq<CacheRow>, i: nat, k: nat)
    requires i < |rows|
    ensures Bucket(rows[..i + 1], k) == Bucket(rows[..i], k) + if rows[i].event[0] == k then [rows[i]] else []
    ensures EncodeFrames(RowFrames(Bucket(rows[..i + 1], k)))
         == EncodeFrames(RowFrames(Bucket(rows[..i], k))) + if rows[i].event[0]
             == k then EncodeFrame(Frame(rows[i].event, rows[i].blob)) else []
  {
    assert rows[..i + 1][..i] == rows[..i];
    if rows[i].event[0] == k {
      RowFramesAppend(Bucket(rows[..i], k), rows[i]);
      EncodeAppend(RowFrames(Bucket(rows[..i], k)), Frame(rows[i].event, rows[i].blob));
    } else {
      assert Bucket(rows[..i], k) + [] == Bucket(rows[..i], k);
    }
  }

  function Lookup(groups: map<Uuid, seq<Entry>>, event: Uuid): seq<Entry> {
    if event in groups then groups[event] else []
  }

  function EventsOf(rows: seq<CacheRow>): set<Uuid> {
    set row | row in rows :: row.event
  }

  lemma {:induction false} NoEntries(decode: Decoder, rows: seq<CacheRow>, e: Uuid)
    requires e !in EventsOf(rows)
    ensures EntriesOf(decode, rows, e) == []
  {
    if rows != [] {
      assert rows[|rows| - 1] in rows;
      assert EventsOf(rows[..|rows| - 1]) <= EventsOf(rows);
      NoEntries(decode, rows[..|rows| - 1], e);
    }
  }

  /** One group per event of the rows, holding the event's entries. */
  ghost predicate Grouped(groups: map<Uuid, seq<Entry>>, decode: Decoder, rows: seq<CacheRow>) {
    groups.Keys == EventsOf(rows) && forall e :: e in groups ==> groups[e] == EntriesOf(decode, rows, e)
  }

  lemma GroupedStep(groups: map<Uuid, seq<Entry>>, decode: Decoder, rows: seq<CacheRow>, row: CacheRow)
    requires Grouped(groups, decode, rows) && EntryFor(decode, row).Some?
    ensures Grouped(groups[row.event := Lookup(groups, row.event) + [EntryFor(decode, row).value]], decode, rows
        + [row])
  {
    var now := groups[row.event := Lookup(groups, row.event) + [EntryFor(decode, row).value]];
    assert (rows + [row])[..|rows + [row]| - 1] == rows;
    if row.event !in groups {
      NoEntries(decode, rows, row.event);
    }
    assert now.Keys == EventsOf(rows + [row]) by {
      assert forall r :: r in rows + [row] <==> r in rows || r == row;
    }
  }

  /** Read a bucket record by record, check each, and group by event. */
  method GroupBucket(bucket: seq<byte>, decode: Decoder, ghost rows: seq<CacheRow>)
      returns (groups: map<Uuid, seq<Entry>>, ok: bool)
    requires bucket == EncodeFrames(RowFrames(rows)) && forall i :: 0 <= i < |rows| ==> |rows[i].blob| < MAX_BLOB
    ensures ok <==> GoodRows(decode, rows)
    ensures ok ==> Grouped(groups, decode, rows)
  {
    groups := map[];
    var rest := bucket;
    ghost var k := 0;
    assert rows[0..] == rows;
    while rest != []
      invariant 0 <= k <= |rows| && rest == EncodeFrames(RowFrames(rows[k..]))
      invariant GoodRows(decode, rows[..k]) && Grouped(groups, decode, rows[..k])
      decreases |rows| - k
    {
      NextFrame(rows, k);
      var frame := FirstFrame(BUCKET_HEAD, rest).value;
      var event: Uuid := frame.head;
      var payload := decode(frame.blob);
      if payload.None? || payload.value.event != event {
        assert !GoodRow(decode, rows[k]);
        return groups, false;
      }
      assert rows[..k + 1] == rows[..k] + [rows[k]];
      GroupedStep(groups, decode, rows[..k], rows[k]);
      groups := groups[event := Lookup(groups, event)
          + [Entry(Micros(payload.value.at), payload.value.id, frame.blob)]];
      rest := rest[BUCKET_HEAD + 4 + |frame.blob|..];
      k := k + 1;
    }
    if k < |rows| {
      NextFrame(rows, k);
    }
    assert rows[..k] == rows;
    ok := true;
  }

  lemma NextFrame(rows: seq<CacheRow>, k: nat)
    requires k < |rows| && |rows[k].blob| < MAX_BLOB
    ensures var rest := EncodeFrames(RowFrames(rows[k..]));
      && FirstFrame(BUCKET_HEAD, rest) == Some(Frame(rows[k].event, rows[k].blob))
      && rest[BUCKET_HEAD + 4 + |rows[k].blob|..] == EncodeFrames(RowFrames(rows[k + 1..]))
  {
    var f := Frame(rows[k].event, rows[k].blob);
    assert RowFrames(rows[k..])[0] == f && RowFrames(rows[k..])[1..] == RowFrames(rows[k + 1..]);
    FirstFrameOf(BUCKET_HEAD, f, EncodeFrames(RowFrames(rows[k + 1..])));
  }

  lemma WriteStep(sorted: seq<Entry>, i: nat)
    requires AllStorable(sorted) && i < |sorted|
    ensures EncodeFrames(EntryFrames(sorted[..i + 1]))
        == EncodeFrames(EntryFrames(sorted[..i])) + EncodeFrame(EntryFrame(sorted[i]))
  {
    assert EntryFrames(sorted[..i + 1]) == EntryFrames(sorted[..i]) + [EntryFrame(sorted[i])];
    EncodeAppend(EntryFrames(sorted[..i]), EntryFrame(sorted[i]));
  }

  /** Sort one event's entries, refuse a repeated key, write the records. */
  method WriteEvent(entries: seq<Entry>) returns (file: Option<seq<byte>>)
    requires AllStorable(entries)
    ensures file.Some? <==> DistinctKeys(entries)
    ensures file.Some? ==> HoldsSorted(file.value, entries)
  {
    var sorted := SortEntries(entries);
    SortProperties(entries);
    SortDistinct(entries);
    SortedStorable(entries);
    var bytes := [];
    for i := 0 to |sorted|
      invariant bytes == EncodeFrames(EntryFrames(sorted[..i]))
      invariant forall j :: 0 < j < i ==> !SameKey(sorted[j - 1], sorted[j])
    {
      if i > 0 && SameKey(sorted[i - 1], sorted[i]) {
        return None;
      }
      WriteStep(sorted, i);
      bytes := bytes + EncodeFrame(EntryFrame(sorted[i]));
    }
    NeighboursSuffice(sorted);
    assert sorted[..|sorted|] == sorted;
    file := Some(bytes);
  }

  /** How many rows belong to none of the given events. */
  ghost function Outside(rows: seq<CacheRow>, events: set<Uuid>): nat {
    if rows == [] then 0
    else Outside(rows[..|rows| - 1], events) + if rows[|rows| - 1].event in events then 0 else 1
  }

  lemma {:induction false} OutsideNone(rows: seq<CacheRow>)
    ensures Outside(rows, {}) == |rows|
  {
    if rows != [] {
      OutsideNone(rows[..|rows| - 1]);
    }
  }

  lemma {:induction false} OutsideAll(rows: seq<CacheRow>, events: set<Uuid>)
    requires forall row :: row in rows ==> row.event in events
    ensures Outside(rows, events) == 0
  {
    if rows != [] {
      OutsideAll(rows[..|rows| - 1], events);
    }
  }

  lemma {:induction false} OutsideOneMore(decode: Decoder, rows: seq<CacheRow>, events: set<Uuid>, e: Uuid)
    requires GoodRows(decode, rows) && e !in events
    ensures Outside(rows, events) == Outside(rows, events + {e}) + |EntriesOf(decode, rows, e)|
  {
    if rows != [] {
      assert GoodRow(decode, rows[|rows| - 1]);
      OutsideOneMore(decode, rows[..|rows| - 1], events, e);
    }
  }

  /** These events have their files, the others are as before. */
  ghost predicate Written(files: map<Uuid, seq<byte>>, was: map<Uuid, seq<byte>>, events: set<Uuid>, decode: Decoder,
      rows: seq<CacheRow>) {
    && files.Keys == was.Keys + events
    && (forall e: Uuid :: e in events ==> HoldsSorted(files[e], EntriesOf(decode, rows, e)))
    && forall e: Uuid :: e in was && e !in events ==> files[e] == was[e]
  }

  method WriteGroup(groups: map<Uuid, seq<Entry>>, event: Uuid, decode: Decoder, ghost rows: seq<CacheRow>)
      returns (file: Option<seq<byte>>)
    requires GoodRows(decode, rows) && Grouped(groups, decode, rows) && event in groups
    ensures file.Some? <==> DistinctKeys(EntriesOf(decode, rows, event))
    ensures file.Some? ==> HoldsSorted(file.value, EntriesOf(decode, rows, event))
    ensures groups[event] == EntriesOf(decode, rows, event)
  {
    EntriesStorable(decode, rows, event);
    file := WriteEvent(groups[event]);
  }

  /** Write the files of one bucket. */
  method WriteBucket(groups: map<Uuid, seq<Entry>>, decode: Decoder, ghost rows: seq<CacheRow>,
      was: map<Uuid, seq<byte>>)
    returns (files: map<Uuid, seq<byte>>, count: nat, ok: bool)
    requires GoodRows(decode, rows) && Grouped(groups, decode, rows)
    ensures ok <==> forall e :: e in groups ==> DistinctKeys(EntriesOf(decode, rows, e))
    ensures ok ==> Written(files, was, groups.Keys, decode, rows) && count == |rows|
  {
    files, count := was, 0;
    var todo := groups.Keys;
    ghost var done: set<Uuid> := {};
    OutsideNone(rows);
    while todo != {}
      invariant done !! todo && done + todo == groups.Keys
      invariant WrittenSoFar(files, was, done, count, decode, rows)
      decreases todo
    {
      var event :| event in todo;
      var file := WriteGroup(groups, event, decode, rows);
      if file.None? {
        return files, count, false;
      }
      WrittenOneMore(files, was, done, count, event, file.value, decode, rows);
      files, count, todo := files[event := file.value], count + |groups[event]|, todo - {event};
      done := done + {event};
    }
    OutsideAll(rows, groups.Keys);
    ok := true;
  }

  ghost predicate WrittenSoFar(files: map<Uuid, seq<byte>>, was: map<Uuid, seq<byte>>, done: set<Uuid>, count: nat,
      decode: Decoder, rows: seq<CacheRow>) {
    && Written(files, was, done, decode, rows) && count + Outside(rows, done) == |rows|
    && forall e :: e in done ==> DistinctKeys(EntriesOf(decode, rows, e))
  }

  lemma WrittenOneMore(files: map<Uuid, seq<byte>>, was: map<Uuid, seq<byte>>, done: set<Uuid>, count: nat, e: Uuid,
      file: seq<byte>, decode: Decoder, rows: seq<CacheRow>)
    requires GoodRows(decode, rows) && WrittenSoFar(files, was, done, count, decode, rows) && e !in done
    requires HoldsSorted(file, EntriesOf(decode, rows, e)) && DistinctKeys(EntriesOf(decode, rows, e))
    ensures WrittenSoFar(files[e := file], was, done + {e}, count + |EntriesOf(decode, rows, e)|, decode, rows)
  {
    OutsideOneMore(decode, rows, done, e);
    var now := files[e := file];
    assert now.Keys == was.Keys + (done + {e});
    forall x: Uuid | x in done + {e} ensures HoldsSorted(now[x], EntriesOf(decode, rows, x)) {
      if x != e {
        assert x in done;
      }
    }
  }

  /** One file per event of the cache, each with its rows sorted, and the sealed list of events. */
  ghost predicate Archived(d: Directory, decode: Decoder, rows: seq<CacheRow>) {
    && d.files.Keys == EventsOf(rows) == d.members && d.records == |rows|
    && forall e: Uuid :: e in d.files ==> HoldsSorted(d.files[e], EntriesOf(decode, rows, e))
  }

  /** The files of all events whose first byte is below `index`. */
  ghost predicate WrittenBelow(files: map<Uuid, seq<byte>>, index: nat, decode: Decoder, rows: seq<CacheRow>) {
    && (forall e: Uuid :: e in files <==> e in EventsOf(rows) && e[0] < index)
    && forall e: Uuid :: e in files ==> HoldsSorted(files[e], EntriesOf(decode, rows, e))
  }

  ghost function RowsBelow(rows: seq<CacheRow>, index: nat): nat {
    if rows == [] then 0 else RowsBelow(rows[..|rows| - 1], index) + if rows[|rows| - 1].event[0] < index then 1 else 0
  }

  lemma {:induction false} BelowOneMore(rows: seq<CacheRow>, index: nat)
    ensures RowsBelow(rows, index + 1) == RowsBelow(rows, index) + |Bucket(rows, index)|
    ensures RowsBelow(rows, 0) == 0 && RowsBelow(rows, 256) == |rows|
  {
    if rows != [] {
      BelowOneMore(rows[..|rows| - 1], index);
    }
  }

  ghost predicate BucketsGood(decode: Decoder, rows: seq<CacheRow>, n: nat) {
    forall k :: 0 <= k < n ==> GoodRows(decode, Bucket(rows, k))
  }

  lemma BucketsGoodIffAll(decode: Decoder, rows: seq<CacheRow>)
    ensures BucketsGood(decode, rows, 256) <==> GoodRows(decode, rows)
  {
    if GoodRows(decode, rows) {
      forall k, i | 0 <= k < 256 && 0 <= i < |Bucket(rows, k)| ensures GoodRow(decode, Bucket(rows, k)[i]) {
        BucketRows(rows, k, Bucket(rows, k)[i]);
      }
    }
    if BucketsGood(decode, rows, 256) {
      forall i | 0 <= i < |rows| ensures GoodRow(decode, rows[i]) {
        BucketRows(rows, rows[i].event[0], rows[i]);
      }
    }
  }

  lemma GroupsOfBucket(groups: map<Uuid, seq<Entry>>, index: nat, decode: Decoder, rows: seq<CacheRow>)
    requires Grouped(groups, decode, Bucket(rows, index))
    ensures forall e: Uuid :: e in groups <==> e in EventsOf(rows) && e[0] == index
    ensures forall e: Uuid :: e in groups ==> EntriesOf(decode, Bucket(rows, index), e) == EntriesOf(decode, rows, e)
  {
    forall e: Uuid ensures e in groups <==> e in EventsOf(rows) && e[0] == index {
      if e in groups {
        assert e in EventsOf(Bucket(rows, index));
        var row :| row in Bucket(rows, index) && row.event == e;
        BucketRows(rows, index, row);
      }
      if e in EventsOf(rows) && e[0] == index {
        var row :| row in rows && row.event == e;
        BucketRows(rows, index, row);
      }
    }
    forall e: Uuid | e in groups ensures EntriesOf(decode, Bucket(rows, index), e) == EntriesOf(decode, rows, e) {
      BucketKeepsEvent(decode, rows, index, e);
    }
  }

  ghost predicate DistinctSnapshots(decode: Decoder, rows: seq<CacheRow>) {
    forall e: Uuid :: DistinctKeys(EntriesOf(decode, rows, e))
  }

  /** No snapshot key twice among the events whose first byte is below `index`. */
  ghost predicate DistinctBelow(decode: Decoder, rows: seq<CacheRow>, index: nat) {
    forall e: Uuid :: e in EventsOf(rows) && e[0] < index ==> DistinctKeys(EntriesOf(decode, rows, e))
  }

  /** Two rows of one event decode to the same snapshot id at the same instant. */
  ghost predicate Twice(decode: Decoder, a: CacheRow, b: CacheRow) {
    var p, q := decode(a.blob), decode(b.blob);
    a.event == b.event && p.Some? && q.Some? && p.value.id == q.value.id && p.value.at == q.value.at
  }

  lemma {:induction false} EntryFromRow(decode: Decoder, rows: seq<CacheRow>, event: Uuid, e: Entry)
    ensures e in EntriesOf(decode, rows, event)
      <==> exists k :: 0 <= k < |rows| && rows[k].event == event && EntryFor(decode, rows[k]) == Some(e)
  {
    if rows != [] {
      var front, last := rows[..|rows| - 1], |rows| - 1;
      EntryFromRow(decode, front, event, e);
      if k :| 0 <= k < last && front[k].event == event && EntryFor(decode, front[k]) == Some(e) {
        assert rows[k] == front[k];
      }
      if k :| 0 <= k < |rows| && rows[k].event == event && EntryFor(decode, rows[k]) == Some(e) {
        assert k < last ==> front[k] == rows[k];
      }
    }
  }

  lemma DistinctOneMore(s: seq<Entry>, e: Entry)
    ensures DistinctKeys(s + [e]) <==> DistinctKeys(s) && forall x :: x in s ==> !SameKey(x, e)
  {
    var t := s + [e];
    if DistinctKeys(t) {
      forall i, j | 0 <= i < j < |s| ensures !SameKey(s[i], s[j]) {
        assert t[i] == s[i] && t[j] == s[j];
      }
      forall x | x in s ensures !SameKey(x, e) {
        var i :| 0 <= i < |s| && s[i] == x;
        assert t[i] == x && t[|s|] == e;
      }
    }
  }

  lemma SameKeyMeans(decode: Decoder, a: CacheRow, b: CacheRow)
    requires a.event == b.event && EntryFor(decode, a).Some? && EntryFor(decode, b).Some?
    ensures SameKey(EntryFor(decode, a).value, EntryFor(decode, b).value) <==> Twice(decode, a, b)
  {
    InstantRoundTrip(decode(a.blob).value.at);
    InstantRoundTrip(decode(b.blob).value.at);
  }

  /** On the rows: the keys of an event are distinct exactly when no two of its rows repeat one another. */
  lemma {:induction false} DistinctMeaning(decode: Decoder, rows: seq<CacheRow>, event: Uuid)
    requires GoodRows(decode, rows)
    ensures DistinctKeys(EntriesOf(decode, rows, event)) <==> NoneTwice(decode, rows, event)
  {
    if rows != [] {
      var front, last := rows[..|rows| - 1], rows[|rows| - 1];
      DistinctMeaning(decode, front, event);
      assert rows == front + [last] && GoodRow(decode, last);
      NoneTwiceMore(decode, front, last, event);
      var s := EntriesOf(decode, front, event);
      if last.event == event {
        LastDistinct(decode, front, last);
        assert EntriesOf(decode, rows, event) == s + [EntryFor(decode, last).value];
      } else {
        assert EntriesOf(decode, rows, event) == s + [] == s;
        assert forall i :: 0 <= i < |front| && front[i].event == event ==> !Twice(decode, front[i], last);
      }
    }
  }

  ghost predicate NoneTwice(decode: Decoder, rows: seq<CacheRow>, event: Uuid) {
    forall i, j :: 0 <= i < j < |rows| && rows[i].event == event ==> !Twice(decode, rows[i], rows[j])
  }

  lemma NoneTwiceMore(decode: Decoder, front: seq<CacheRow>, last: CacheRow, event: Uuid)
    ensures NoneTwice(decode, front + [last], event)
      <==> && NoneTwice(decode, front, event)
           && forall i :: 0 <= i < |front| && front[i].event == event ==> !Twice(decode, front[i], last)
  {
    var rows := front + [last];
    if NoneTwice(decode, rows, event) {
      forall i, j | 0 <= i < j < |front| && front[i].event == event ensures !Twice(decode, front[i], front[j]) {
        assert rows[i] == front[i] && rows[j] == front[j];
      }
      forall i | 0 <= i < |front| && front[i].event == event ensures !Twice(decode, front[i], last) {
        assert rows[i] == front[i] && rows[|front|] == last;
      }
    }
  }

  lemma LastDistinct(decode: Decoder, front: seq<CacheRow>, last: CacheRow)
    requires GoodRows(decode, front) && EntryFor(decode, last).Some?
    ensures var s, e := EntriesOf(decode, front, last.event), EntryFor(decode, last).value;
      DistinctKeys(s + [e])
      <==> && DistinctKeys(s)
           && forall i :: 0 <= i < |front| && front[i].event == last.event ==> !Twice(decode, front[i], last)
  {
    var s, e := EntriesOf(decode, front, last.event), EntryFor(decode, last).value;
    DistinctOneMore(s, e);
    forall x ensures x in s
      <==> exists k :: 0 <= k < |front| && front[k].event == last.event && EntryFor(decode, front[k]) == Some(x)
    {
      EntryFromRow(decode, front, last.event, x);
    }
    forall i | 0 <= i < |front| && front[i].event == last.event
      ensures EntryFor(decode, front[i]).Some?
      ensures SameKey(EntryFor(decode, front[i]).value, e) <==> Twice(decode, front[i], last)
    {
      assert GoodRow(decode, front[i]);
      SameKeyMeans(decode, front[i], last);
    }
  }

  lemma AllDistinct(decode: Decoder, rows: seq<CacheRow>)
    requires GoodRows(decode, rows)
    ensures DistinctSnapshots(decode, rows) <==> forall i, j :: 0 <= i < j < |rows| ==> !Twice(decode, rows[i], rows[j])
  {
    forall e: Uuid ensures DistinctKeys(EntriesOf(decode, rows, e)) <==> NoneTwice(decode, rows, e) {
      DistinctMeaning(decode, rows, e);
    }
    if DistinctSnapshots(decode, rows) {
      forall i, j | 0 <= i < j < |rows| ensures !Twice(decode, rows[i], rows[j]) {
        assert NoneTwice(decode, rows, rows[i].event);
      }
    }
  }

  lemma DistinctBelowAll(decode: Decoder, rows: seq<CacheRow>)
    ensures DistinctBelow(decode, rows, 256) <==> DistinctSnapshots(decode, rows)
  {
    if DistinctBelow(decode, rows, 256) {
      forall e: Uuid ensures DistinctKeys(EntriesOf(decode, rows, e)) {
        if e !in EventsOf(rows) {
          NoEntries(decode, rows, e);
        }
      }
    }
  }

  /** Group and write one bucket. */
  method BuildBucket(bucket: seq<byte>, index: nat, decode: Decoder, was: map<Uuid, seq<byte>>,
      ghost rows: seq<CacheRow>)
    returns (files: map<Uuid, seq<byte>>, count: nat, good: bool, distinct: bool)
    requires bucket == EncodeFrames(RowFrames(Bucket(rows, index)))
    requires forall i :: 0 <= i < |rows| ==> |rows[i].blob| < MAX_BLOB
    requires WrittenBelow(was, index, decode, rows) && DistinctBelow(decode, rows, index)
    ensures good <==> GoodRows(decode, Bucket(rows, index))
    ensures good ==> (distinct <==> DistinctBelow(decode, rows, index + 1))
    ensures good && distinct ==> WrittenBelow(files, index + 1, decode, rows) && count == |Bucket(rows, index)|
  {
    forall i | 0 <= i < |Bucket(rows, index)| ensures |Bucket(rows, index)[i].blob| < MAX_BLOB {
      BucketRows(rows, index, Bucket(rows, index)[i]);
    }
    files, count, distinct := was, 0, false;
    var groups;
    groups, good := GroupBucket(bucket, decode, Bucket(rows, index));
    if good {
      GroupsOfBucket(groups, index, decode, rows);
      files, count, distinct := WriteBucket(groups, decode, Bucket(rows, index), was);
    }
  }

  /** Partition, group, sort, write; publish only when every count agrees. */
  method Build(rows: seq<CacheRow>, savedRows: nat, decode: Decoder) returns (r: BuildResult)
    ensures r.Built? <==> |rows| == savedRows && GoodRows(decode, rows) && DistinctSnapshots(decode, rows)
    ensures r.Built? ==> Archived(r.directory, decode, rows)
    ensures r.Oversized? <==> exists i :: 0 <= i < |rows| && |rows[i].blob| >= 0x1_0000_0000
    ensures r.SourceCountMismatch? <==> !r.Oversized? && |rows| != savedRows
    ensures (r.BadRow? ==> !GoodRows(decode, rows)) && (r.DuplicateKey? ==> !DistinctSnapshots(decode, rows))
    ensures !r.OutputCountMismatch?
    ensures r.Built? ==> forall i, j :: 0 <= i < j < |rows| ==> !Twice(decode, rows[i], rows[j])
    ensures r.DuplicateKey? && GoodRows(decode, rows) ==>
        exists i, j :: 0 <= i < j < |rows| && Twice(decode, rows[i], rows[j])
  {
    if GoodRows(decode, rows) {
      AllDistinct(decode, rows);
    }
    var buckets, packed := Partition(rows);
    if !packed {
      assert exists i :: 0 <= i < |rows| && !GoodRow(decode, rows[i]);
      return Oversized;
    }
    if |rows| != savedRows {
      return SourceCountMismatch;
    }
    BucketsGoodIffAll(decode, rows);
    DistinctBelowAll(decode, rows);
    BelowOneMore(rows, 0);
    var files, counts, good, distinct := BuildFiles(buckets, decode, rows);
    if !good {
      return BadRow;
    }
    if !distinct {
      return DuplicateKey;
    }
    if counts != |rows| {
      return OutputCountMismatch;
    }
    r := Built(Seal(files, |rows|));
  }

  /** All buckets in turn, stopping at the first bad row or repeated key. */
  method BuildFiles(buckets: array<seq<byte>>, decode: Decoder, ghost rows: seq<CacheRow>)
    returns (files: map<Uuid, seq<byte>>, counts: nat, good: bool, distinct: bool)
    requires buckets.Length == 256 && forall k :: 0 <= k < 256 ==>
        buckets[k] == EncodeFrames(RowFrames(Bucket(rows, k)))
    requires forall i :: 0 <= i < |rows| ==> |rows[i].blob| < MAX_BLOB
    ensures !good ==> !BucketsGood(decode, rows, 256)
    ensures good && !distinct ==> !DistinctBelow(decode, rows, 256)
    ensures good && distinct ==> BucketsGood(decode, rows, 256) && DistinctBelow(decode, rows, 256)
    ensures good && distinct ==> WrittenBelow(files, 256, decode, rows) && counts == RowsBelow(rows, 256)
  {
    files, counts, good, distinct := map[], 0, true, true;
    BelowOneMore(rows, 0);
    for index := 0 to 256
      invariant good && distinct && BuiltBelow(files, counts, index, decode, rows)
    {
      var count;
      files, count, good, distinct := BuildBucket(buckets[index], index, decode, files, rows);
      if !good || !distinct {
        NotBelow(rows, index, decode);
        return;
      }
      BelowOneMore(rows, index);
      BucketsOneMore(decode, rows, index);
      counts := counts + count;
    }
  }

  ghost predicate BuiltBelow(files: map<Uuid, seq<byte>>, counts: nat, index: nat, decode: Decoder,
      rows: seq<CacheRow>) {
    && BucketsGood(decode, rows, index) && DistinctBelow(decode, rows, index)
    && WrittenBelow(files, index, decode, rows) && counts == RowsBelow(rows, index)
  }

  lemma BucketsOneMore(decode: Decoder, rows: seq<CacheRow>, index: nat)
    ensures BucketsGood(decode, rows, index + 1)
            <==> BucketsGood(decode, rows, index) && GoodRows(decode, Bucket(rows, index))
  {
  }

  lemma NotBelow(rows: seq<CacheRow>, index: nat, decode: Decoder)
    requires index < 256
    ensures !GoodRows(decode, Bucket(rows, index)) ==> !BucketsGood(decode, rows, 256)
    ensures !DistinctBelow(decode, rows, index + 1) ==> !DistinctBelow(decode, rows, 256)
  {
  }

  /** The sealed membership is the set of event files. */
  function Seal(files: map<Uuid, seq<byte>>, records: nat): Directory {
    Directory(files, files.Keys, records)
  }

  // ----- Reading one event.

  /** The entries in a file, or None where the reader raises on a cut header or payload. */
  function ReadFile(file: seq<byte>): Option<seq<Entry>> {
    match ParseFrames(EVENT_HEAD, file)
    case None => None
    case Some(frames) => Some(FrameEntries(frames))
  }

  /** The entries a reader gets to see: those in front of the first record that is cut short. */
  function Leading(file: seq<byte>): seq<Entry>
    decreases |file|
  {
    if file == [] then []
    else
      match FirstFrame(EVENT_HEAD, file)
      case None => []
      case Some(f) => [FrameEntry(f)] + Leading(file[EVENT_HEAD + 4 + |f.blob|..])
  }

  function FrameEntries(frames: seq<Frame>): seq<Entry>
    requires forall i :: 0 <= i < |frames| ==> |frames[i].head| == EVENT_HEAD
  {
    seq(|frames|, i requires 0 <= i < |frames| => FrameEntry(frames[i]))
  }

  /** Whether a record's payload repeats its key and the event it is filed under. */
  predicate PayloadAgrees(decode: Decoder, event: Uuid, e: Entry) {
    match decode(e.blob)
    case None => false
    case Some(p) => p.id == e.id && p.event == event && p.at == FromMicros(e.micros)
  }

  function SnapshotOf(e: Entry): Snapshot {
    Snapshot(e.id, FromMicros(e.micros), e.blob)
  }

  predicate AllAgree(decode: Decoder, event: Uuid, entries: seq<Entry>) {
    forall i :: 0 <= i < |entries| ==> PayloadAgrees(decode, event, entries[i])
  }

  function SnapshotsOf(entries: seq<Entry>): seq<Snapshot> {
    seq(|entries|, i requires 0 <= i < |entries| => SnapshotOf(entries[i]))
  }

  /** What reading an event's file gives: its rows, or the error of the first record that is cut or disagrees. */
  ghost function Expected(file: seq<byte>, event: Uuid, payload: bool, decode: Decoder): ReadResult {
    if payload && !AllAgree(decode, event, Leading(file)) then PayloadMismatch
    else match ReadFile(file) case None => Truncated case Some(entries) => Snapshots(SnapshotsOf(entries))
  }

  /** Membership and presence of the file first, then the file itself. */
  method IterEvent(d: Directory, event: Uuid, payload: bool, decode: Decoder) returns (r: ReadResult)
    ensures event !in d.files ==> r == if event in d.members then FileMissing else Snapshots([])
    ensures event in d.files && event !in d.members ==> r == FileUnexpected
    ensures event in d.files && event in d.members ==> r == Expected(d.files[event], event, payload, decode)
    ensures event in d.files && event in d.members ==>
      (r.PayloadMismatch? <==> payload && exists e :: e in Leading(d.files[event]) && Disagrees(e, event, decode))
  {
    if event !in d.files {
      return if event in d.members then FileMissing else Snapshots([]);
    }
    if event !in d.members {
      return FileUnexpected;
    }
    r := ReadRecords(d.files[event], event, payload, decode);
    ExpectedMismatch(d.files[event], event, payload, decode);
  }

  lemma ExpectedMismatch(file: seq<byte>, event: Uuid, payload: bool, decode: Decoder)
    ensures Expected(file, event, payload, decode).PayloadMismatch?
      <==> payload && exists e :: e in Leading(file) && Disagrees(e, event, decode)
  {
    AllAgreeMeaning(Leading(file), event, decode);
  }

  lemma AllAgreeMeaning(entries: seq<Entry>, event: Uuid, decode: Decoder)
    ensures AllAgree(decode, event, entries) <==> forall e :: e in entries ==> !Disagrees(e, event, decode)
  {
    forall e | e in entries ensures PayloadAgrees(decode, event, e) <==> !Disagrees(e, event, decode) {
      AgreesMeaning(e, event, decode);
    }
  }

  lemma AgreesMeaning(e: Entry, event: Uuid, decode: Decoder)
    ensures PayloadAgrees(decode, event, e) <==> !Disagrees(e, event, decode)
  {
    FromMicrosOrder(e.micros, e.micros);
    if decode(e.blob).Some? {
      InstantRoundTrip(decode(e.blob).value.at);
    }
  }

  /** The payload of a record does not decode, or names another snapshot, event or instant. */
  ghost predicate Disagrees(e: Entry, event: Uuid, decode: Decoder) {
    var p := decode(e.blob);
    p.None? || p.value.id != e.id || p.value.event != event || Micros(p.value.at) != e.micros
  }

  /** Read a file record by record; with `payload`, check every record against its payload. */
  method ReadRecords(file: seq<byte>, event: Uuid, payload: bool, decode: Decoder) returns (r: ReadResult)
    ensures r == Expected(file, event, payload, decode)
  {
    var rest, rows := file, [];
    ghost var seen: seq<Entry> := [];
    JoinedEmpty(ReadFile(rest));
    while rest != []
      invariant ReadSoFar(file, seen, rest)
      invariant rows == SnapshotsOf(seen) && (!payload || AllAgree(decode, event, seen))
      decreases |rest|
    {
      var frame := FirstFrame(EVENT_HEAD, rest);
      if frame.None? {
        return Truncated;
      }
      var entry := FrameEntry(frame.value);
      ReadOneMore(file, seen, rest, frame.value);
      if payload && !PayloadAgrees(decode, event, entry) {
        return PayloadMismatch;
      }
      AgreeOneMore(decode, event, seen, entry);
      rows, seen := rows + [SnapshotOf(entry)], seen + [entry];
      rest := rest[EVENT_HEAD + 4 + |frame.value.blob|..];
    }
    EndAt(file, seen);
    r := Snapshots(rows);
  }

  /** `seen` are the entries in front of `rest`. */
  ghost predicate ReadSoFar(file: seq<byte>, seen: seq<Entry>, rest: seq<byte>) {
    ReadFile(file) == Joined(seen, ReadFile(rest)) && Leading(file) == seen + Leading(rest)
  }

  lemma AgreeOneMore(decode: Decoder, event: Uuid, seen: seq<Entry>, e: Entry)
    ensures SnapshotsOf(seen + [e]) == SnapshotsOf(seen) + [SnapshotOf(e)]
    ensures AllAgree(decode, event, seen + [e]) <==> AllAgree(decode, event, seen) && PayloadAgrees(decode, event, e)
  {
    assert forall i :: 0 <= i < |seen| ==> (seen + [e])[i] == seen[i];
    assert (seen + [e])[|seen|] == e;
  }

  lemma EndAt(file: seq<byte>, seen: seq<Entry>)
    requires ReadSoFar(file, seen, [])
    ensures ReadFile(file) == Some(seen) && Leading(file) == seen
  {
    assert FrameEntries([]) == [] && seen + [] == seen;
  }

  lemma ReadOneMore(file: seq<byte>, seen: seq<Entry>, rest: seq<byte>, frame: Frame)
    requires ReadSoFar(file, seen, rest) && rest != [] && FirstFrame(EVENT_HEAD, rest) == Some(frame)
    ensures ReadSoFar(file, seen + [FrameEntry(frame)], rest[EVENT_HEAD + 4 + |frame.blob|..])
    ensures |Leading(file)| > |seen| && Leading(file)[|seen|] == FrameEntry(frame)
  {
    var tail := rest[EVENT_HEAD + 4 + |frame.blob|..];
    ReadFirst(rest, frame);
    JoinedStep(seen, FrameEntry(frame), ReadFile(tail));
    Regroup(seen, [FrameEntry(frame)], Leading(tail));
  }

  ghost function Joined(seen: seq<Entry>, rest: Option<seq<Entry>>): Option<seq<Entry>> {
    match rest case None => None case Some(s) => Some(seen + s)
  }

  lemma JoinedEmpty(rest: Option<seq<Entry>>)
    ensures Joined([], rest) == rest
  {
    if rest.Some? {
      assert [] + rest.value == rest.value;
    }
  }

  lemma JoinedStep(seen: seq<Entry>, e: Entry, rest: Option<seq<Entry>>)
    ensures Joined(seen, Joined([e], rest)) == Joined(seen + [e], rest)
  {
    if rest.Some? {
      assert seen + ([e] + rest.value) == (seen + [e]) + rest.value;
    }
  }

  lemma ReadFirst(file: seq<byte>, frame: Frame)
    requires file != [] && FirstFrame(EVENT_HEAD, file) == Some(frame)
    ensures ReadFile(file) == Joined([FrameEntry(frame)], ReadFile(file[EVENT_HEAD + 4 + |frame.blob|..]))
  {
    var rest := ParseFrames(EVENT_HEAD, file[EVENT_HEAD + 4 + |frame.blob|..]);
    if rest.Some? {
      assert FrameEntries([frame] + rest.value) == [FrameEntry(frame)] + FrameEntries(rest.value);
    }
  }

  /** A file without a cut shows all its entries. */
  lemma {:induction false} LeadingOfWhole(file: seq<byte>)
    requires ReadFile(file).Some?
    ensures Leading(file) == ReadFile(file).value
    decreases |file|
  {
    if file != [] {
      var f := FirstFrame(EVENT_HEAD, file).value;
      ReadFirst(file, f);
      LeadingOfWhole(file[EVENT_HEAD + 4 + |f.blob|..]);
    }
  }

  lemma StoredReads(entries: seq<Entry>)
    requires AllStorable(entries)
    ensures ReadFile(EncodeFrames(EntryFrames(entries))) == Some(entries)
    ensures AllPackable(EVENT_HEAD, EntryFrames(entries))
  {
    forall i | 0 <= i < |entries|
      ensures FrameEntry(EntryFrame(entries[i])) == entries[i] && Packable(EVENT_HEAD, EntryFrame(entries[i]))
    {
      EntryFrameRoundTrip(entries[i]);
    }
    FramesRoundTrip(EVENT_HEAD, EntryFrames(entries));
    assert FrameEntries(EntryFrames(entries)) == entries;
  }

  /** The decoded rows of an event are real: every one comes from a row of the cache and agrees with its payload. */
  lemma {:induction false} EntriesAgree(decode: Decoder, rows: seq<CacheRow>, event: Uuid)
    requires GoodRows(decode, rows)
    ensures AllAgree(decode, event, EntriesOf(decode, rows, event))
  {
    if rows != [] {
      var row := rows[|rows| - 1];
      assert GoodRow(decode, row);
      EntriesAgree(decode, rows[..|rows| - 1], event);
      InstantRoundTrip(decode(row.blob).value.at);
    }
  }

  function Blobs(entries: seq<Entry>): seq<seq<byte>> {
    seq(|entries|, i requires 0 <= i < |entries| => entries[i].blob)
  }

  /** The payloads of an event's rows, in the order of the cache. */
  function BlobsOf(rows: seq<CacheRow>, event: Uuid): seq<seq<byte>> {
    if rows == [] then []
    else
      var row := rows[|rows| - 1];
      BlobsOf(rows[..|rows| - 1], event) + if row.event == event then [row.blob] else []
  }

  lemma {:induction false} EntryBlobs(decode: Decoder, rows: seq<CacheRow>, event: Uuid)
    requires GoodRows(decode, rows)
    ensures Blobs(EntriesOf(decode, rows, event)) == BlobsOf(rows, event)
  {
    if rows != [] {
      EntryBlobs(decode, rows[..|rows| - 1], event);
      assert GoodRow(decode, rows[|rows| - 1]);
    }
  }

  lemma {:induction false} InsertBlobs(e: Entry, s: seq<Entry>)
    ensures multiset(Blobs(Insert(e, s, EntryLeq))) == multiset{e.blob} + multiset(Blobs(s))
  {
    if s != [] && !EntryLeq(e, s[0]) {
      InsertBlobs(e, s[1..]);
      BlobsFirst(s);
      BlobsFirst(Insert(e, s, EntryLeq));
      assert Insert(e, s, EntryLeq)[1..] == Insert(e, s[1..], EntryLeq);
    } else {
      BlobsFirst([e] + s);
      assert ([e] + s)[1..] == s;
    }
  }

  lemma BlobsFirst(s: seq<Entry>)
    requires s != []
    ensures Blobs(s) == [s[0].blob] + Blobs(s[1..])
  {
  }

  lemma {:induction false} SortBlobs(s: seq<Entry>)
    ensures multiset(Blobs(SortEntries(s))) == multiset(Blobs(s))
  {
    if s != [] {
      SortBlobs(s[1..]);
      InsertBlobs(s[0], SortEntries(s[1..]));
      BlobsFirst(s);
    }
  }

  /** Snapshot a comes before b: at an earlier instant, or at the same one with the smaller id. */
  predicate Before(a: Snapshot, b: Snapshot) {
    Earlier(a.at, b.at) || (a.at == b.at && a.id != b.id && BytesLeq(a.id, b.id))
  }

  /** These are the event's rows of the cache, as their payloads tell them, each once and in order. */
  ghost predicate EventRead(out: seq<Snapshot>, rows: seq<CacheRow>, decode: Decoder, event: Uuid) {
    && (forall i :: 0 <= i < |out| ==>
          decode(out[i].blob).Some?
          && var p := decode(out[i].blob).value; p.id == out[i].id && p.event == event && p.at == out[i].at)
    && multiset(seq(|out|, i requires 0 <= i < |out| => out[i].blob)) == multiset(BlobsOf(rows, event))
    && forall i, j :: 0 <= i < j < |out| ==> Before(out[i], out[j])
  }

  lemma EntriesRead(entries: seq<Entry>, rows: seq<CacheRow>, decode: Decoder, event: Uuid)
    requires GoodRows(decode, rows) && entries == SortEntries(EntriesOf(decode, rows, event))
    requires AllAgree(decode, event, entries) && StrictlyInOrder(entries)
    ensures EventRead(SnapshotsOf(entries), rows, decode, event)
  {
    var out := SnapshotsOf(entries);
    SortBlobs(EntriesOf(decode, rows, event));
    EntryBlobs(decode, rows, event);
    assert seq(|out|, i requires 0 <= i < |out| => out[i].blob) == Blobs(entries);
    forall i | 0 <= i < |out|
      ensures decode(out[i].blob).Some?
        && var p := decode(out[i].blob).value; p.id == out[i].id && p.event == event && p.at == out[i].at
    {
      assert PayloadAgrees(decode, event, entries[i]);
    }
    forall i, j | 0 <= i < j < |out| ensures Before(out[i], out[j]) {
      EntryBefore(entries[i], entries[j]);
    }
  }

  lemma EntryBefore(a: Entry, b: Entry)
    requires EntryLeq(a, b) && !SameKey(a, b)
    ensures Before(SnapshotOf(a), SnapshotOf(b))
  {
    FromMicrosOrder(a.micros, b.micros);
  }

  /**
   Round trip: a built archive gives back, for every event, exactly that event's rows of the
   cache, each once, strictly ordered by instant and id, with exact instants.
   */
  method BuildThenRead(rows: seq<CacheRow>, decode: Decoder, event: Uuid, payload: bool) returns (r: ReadResult)
    requires GoodRows(decode, rows) && DistinctSnapshots(decode, rows)
    ensures var entries := SortEntries(EntriesOf(decode, rows, event));
      && r == Snapshots(SnapshotsOf(entries)) && AllAgree(decode, event, entries)
      && multiset(entries) == multiset(EntriesOf(decode, rows, event)) && StrictlyInOrder(entries)
    ensures r.Snapshots? && EventRead(r.rows, rows, decode, event)
  {
    var built := Build(rows, |rows|, decode);
    r := IterEvent(built.directory, event, payload, decode);
    ghost var entries := SortEntries(EntriesOf(decode, rows, event));
    SortProperties(EntriesOf(decode, rows, event));
    SortDistinct(EntriesOf(decode, rows, event));
    EntriesAgree(decode, rows, event);
    forall i | 0 <= i < |entries| ensures PayloadAgrees(decode, event, entries[i]) {
      assert entries[i] in multiset(entries);
      assert entries[i] in EntriesOf(decode, rows, event);
    }
    EntriesRead(entries, rows, decode, event);
    if event in built.directory.files {
      StoredReads(entries);
      LeadingOfWhole(EncodeFrames(EntryFrames(entries)));
    } else {
      NoEntries(decode, rows, event);
    }
  }

  /** An event file cut anywhere but at the end of a record is rejected; at the end of a record it is a prefix. */
  lemma CutEventFile(entries: seq<Entry>, n: nat)
    requires AllStorable(entries) && n <= |EncodeFrames(EntryFrames(entries))|
    ensures var cut := EncodeFrames(EntryFrames(entries))[..n];
      && (ReadFile(cut).Some? <==> RecordEnd(EntryFrames(entries), n))
      && (ReadFile(cut).Some? ==> ReadFile(cut).value <= entries)
  {
    StoredReads(entries);
    CutFile(EVENT_HEAD, EntryFrames(entries), n);
    var cut := EncodeFrames(EntryFrames(entries))[..n];
    if ReadFile(cut).Some? {
      var frames := ParseFrames(EVENT_HEAD, cut).value;
      forall i | 0 <= i < |frames| ensures FrameEntry(frames[i]) == entries[i] {
        EntryFrameRoundTrip(entries[i]);
      }
    }
  }
}
