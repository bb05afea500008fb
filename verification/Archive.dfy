/** The per-event snapshot archive: built from the cache through 256 buckets, read event by event. */
module Archive {
  import opened Bytes
  import opened Sorting
  import opened Options
  import opened Frames

  type Uuid = b: seq<byte> | |b| == 16 witness seq(16, _ => 0)

  // ----- Instants as Python's timedelta from 1970, and as microseconds.

  datatype Delta = Delta(days: int, seconds: int, micros: int)

  const DAY_MICROS := 86400 * 1000000

  /** A normalised timedelta from the epoch to an instant in the years 1 to 9999. */
  type Instant = d: Delta | InRange(d) witness Delta(0, 0, 0)

  predicate InRange(d: Delta) {
    0 <= d.seconds < 86400 && 0 <= d.micros < 1000000 && -719162 <= d.days <= 2932896
  }

  function Micros(d: Delta): int {
    (d.days * 86400 + d.seconds) * 1000000 + d.micros
  }

  /** timedelta(microseconds=m), normalised with floor division. */
  function FromMicros(m: int): Delta {
    Delta(m / DAY_MICROS, (m % DAY_MICROS) / 1000000, m % 1000000)
  }

  /** Exact for every instant, also before 1970. */
  lemma InstantRoundTrip(d: Instant)
    ensures FromMicros(Micros(d)) == d
    ensures -0x8000_0000_0000_0000 <= Micros(d) < 0x8000_0000_0000_0000
  {
    var rest := d.seconds * 1000000 + d.micros;
    assert Micros(d) == d.days * DAY_MICROS + rest && 0 <= rest < DAY_MICROS;
    assert Micros(d) / DAY_MICROS == d.days;
  }

  /** By days, then seconds, then microseconds. */
  predicate Earlier(a: Delta, b: Delta) {
    || a.days < b.days
    || (a.days == b.days && a.seconds < b.seconds)
    || (a.days == b.days && a.seconds == b.seconds && a.micros < b.micros)
  }

  lemma FromMicrosOrder(m: int, n: int)
    ensures m < n <==> Earlier(FromMicros(m), FromMicros(n))
    ensures Micros(FromMicros(m)) == m
  {
    Normalised(m);
    Normalised(n);
  }

  lemma Normalised(m: int)
    ensures var d := FromMicros(m); Micros(d) == m && 0 <= d.seconds < 86400 && 0 <= d.micros < 1000000
  {
    var day, rest := m / DAY_MICROS, m % DAY_MICROS;
    var s, u := rest / 1000000, rest % 1000000;
    assert m == 1000000 * (day * 86400 + s) + u;
    Remainder(day * 86400 + s, u);
  }

  lemma Remainder(k: int, u: int)
    requires 0 <= u < 1000000
    ensures (1000000 * k + u) % 1000000 == u
  {
  }

  // ----- Rows, entries, order.

  datatype CacheRow = CacheRow(event: Uuid, blob: seq<byte>)

  /** What a blob says once inflated and decoded. */
  datatype Payload = Payload(id: Uuid, event: Uuid, at: Instant)

  type Decoder = seq<byte> -> Option<Payload>

  datatype Entry = Entry(micros: int, id: Uuid, blob: seq<byte>)

  predicate EntryLeq(a: Entry, b: Entry) {
    a.micros < b.micros || (a.micros == b.micros && BytesLeq(a.id, b.id))
  }

  predicate SameKey(a: Entry, b: Entry) {
    a.micros == b.micros && a.id == b.id
  }

  lemma EntryOrder()
    ensures TotalOrder(EntryLeq)
  {
    forall a: Entry, b: Entry ensures EntryLeq(a, b) || EntryLeq(b, a) {
      BytesLeqTotal(a.id, b.id);
    }
    forall a, b, c | EntryLeq(a, b) && EntryLeq(b, c) ensures EntryLeq(a, c) {
      if a.micros == b.micros == c.micros {
        BytesLeqTransitive(a.id, b.id, c.id);
      }
    }
  }

  ghost predicate InOrder(s: seq<Entry>) {
    forall i, j :: 0 <= i < j < |s| ==> EntryLeq(s[i], s[j])
  }

  /** In order, and no snapshot key twice. */
  ghost predicate StrictlyInOrder(s: seq<Entry>) {
    forall i, j :: 0 <= i < j < |s| ==> EntryLeq(s[i], s[j]) && !SameKey(s[i], s[j])
  }

  ghost predicate DistinctKeys(s: seq<Entry>) {
    forall i, j :: 0 <= i < j < |s| ==> !SameKey(s[i], s[j])
  }

  /** rows.sort by time and id. */
  function SortEntries(s: seq<Entry>): seq<Entry> {
    Sort(s, EntryLeq)
  }

  lemma SortProperties(s: seq<Entry>)
    ensures InOrder(SortEntries(s)) && multiset(SortEntries(s)) == multiset(s)
  {
    EntryOrder();
    SortAscends(s, EntryLeq);
    SortElements(s, EntryLeq);
  }

  lemma SortDistinct(s: seq<Entry>)
    ensures DistinctKeys(SortEntries(s)) <==> DistinctKeys(s)
  {
    SortApart(s, EntryLeq, SameKey);
    assert Apart(s, SameKey) <==> DistinctKeys(s);
  }

  /** In a sorted list, equal keys stand next to each other. */
  lemma NeighboursSuffice(s: seq<Entry>)
    requires InOrder(s) && forall i :: 0 < i < |s| ==> !SameKey(s[i - 1], s[i])
    ensures StrictlyInOrder(s)
  {
    forall i, j | 0 <= i < j < |s| ensures !SameKey(s[i], s[j]) {
      assert !SameKey(s[(i + 1) - 1], s[i + 1]);
      if SameKey(s[i], s[j]) {
        if i + 1 < j {
          assert EntryLeq(s[i], s[i + 1]) && EntryLeq(s[i + 1], s[j]);
          BytesLeqAntisymmetric(s[i].id, s[i + 1].id);
        }
      }
    }
  }

  // ----- Rows of one event, rows of one bucket.

  function EntryFor(decode: Decoder, row: CacheRow): Option<Entry> {
    match decode(row.blob)
    case None => None
    case Some(p) => Some(Entry(Micros(p.at), p.id, row.blob))
  }

  /** The blob decodes, names its own event, and its length fits four bytes. */
  predicate GoodRow(decode: Decoder, row: CacheRow) {
    decode(row.blob).Some? && decode(row.blob).value.event == row.event && |row.blob| < MAX_BLOB
  }

  predicate GoodRows(decode: Decoder, rows: seq<CacheRow>) {
    forall i :: 0 <= i < |rows| ==> GoodRow(decode, rows[i])
  }

  /** The event's rows, decoded, in the order of the cache. */
  function EntriesOf(decode: Decoder, rows: seq<CacheRow>, event: Uuid): seq<Entry> {
    if rows == [] then []
    else
      var front, row := rows[..|rows| - 1], rows[|rows| - 1];
      EntriesOf(decode, front, event)
        + if row.event == event && EntryFor(decode, row).Some? then [EntryFor(decode, row).value] else []
  }

  function Bucket(rows: seq<CacheRow>, index: nat): seq<CacheRow> {
    if rows == [] then []
    else
      var front, row := rows[..|rows| - 1], rows[|rows| - 1];
      Bucket(front, index) + if row.event[0] == index then [row] else []
  }

  lemma {:induction false} BucketKeepsEvent(decode: Decoder, rows: seq<CacheRow>, index: nat, event: Uuid)
    ensures EntriesOf(decode, Bucket(rows, index), event)
            == if event[0] == index then EntriesOf(decode, rows, event) else []
  {
    if rows != [] {
      var front, row := rows[..|rows| - 1], rows[|rows| - 1];
      BucketKeepsEvent(decode, front, index, event);
      var b := Bucket(front, index);
      if row.event[0] == index {
        assert (b + [row])[..|b + [row]| - 1] == b;
      } else {
        assert b + [] == b;
      }
    }
  }

  lemma {:induction false} BucketRows(rows: seq<CacheRow>, index: nat, row: CacheRow)
    ensures row in Bucket(rows, index) <==> row in rows && row.event[0] == index
  {
    if rows != [] {
      BucketRows(rows[..|rows| - 1], index, row);
      assert rows == rows[..|rows| - 1] + [rows[|rows| - 1]];
    }
  }

  function RowFrames(rows: seq<CacheRow>): seq<Frame> {
    seq(|rows|, i requires 0 <= i < |rows| => Frame(rows[i].event, rows[i].blob))
  }

  const BUCKET_HEAD := 16
  const EVENT_HEAD := 24

  /** The event file's record of an entry. */
  function EntryFrame(e: Entry): Frame
    requires -0x8000_0000_0000_0000 <= e.micros < 0x8000_0000_0000_0000
  {
    Frame(e.id + PackSigned(e.micros), e.blob)
  }

  function FrameEntry(f: Frame): Entry
    requires |f.head| == EVENT_HEAD
  {
    Entry(UnpackSigned(f.head[16..]), f.head[..16], f.blob)
  }

  predicate Storable(e: Entry) {
    -0x8000_0000_0000_0000 <= e.micros < 0x8000_0000_0000_0000 && |e.blob| < MAX_BLOB
  }

  predicate AllStorable(s: seq<Entry>) {
    forall i :: 0 <= i < |s| ==> Storable(s[i])
  }

  function EntryFrames(s: seq<Entry>): seq<Frame>
    requires AllStorable(s)
  {
    seq(|s|, i requires 0 <= i < |s| => EntryFrame(s[i]))
  }

  lemma EntryFrameRoundTrip(e: Entry)
    requires Storable(e)
    ensures FrameEntry(EntryFrame(e)) == e && Packable(EVENT_HEAD, EntryFrame(e))
  {
    SignedRoundTrip(e.micros);
    assert EntryFrame(e).head[16..] == PackSigned(e.micros) && EntryFrame(e).head[..16] == e.id;
  }

  /** The record of an entry: 16 bytes of id, 8 of time in two's complement, 4 of length, the payload. */
  lemma RecordLayout(e: Entry)
    requires Storable(e)
    ensures var b := EncodeFrame(EntryFrame(e));
      && |b| == 28 + |e.blob| && b[..16] == e.id && b[28..] == e.blob
      && 0x1_0000_0000 * Unpack(b[16..20]) + Unpack(b[20..24])
         == (if e.micros < 0 then e.micros + 0x1_0000_0000_0000_0000 else e.micros)
      && Unpack(b[24..28]) == |e.blob|
  {
    var b, head := EncodeFrame(EntryFrame(e)), EntryFrame(e).head;
    var time := PackSigned(e.micros);
    assert b == (e.id + time) + (Pack(|e.blob|, 4) + e.blob);
    assert b[..16] == e.id && b[24..28] == Pack(|e.blob|, 4);
    assert b[16..20] == time[..4] && b[20..24] == time[4..];
    Pow256Values();
    UnpackPack(if e.micros < 0 then e.micros + 0x1_0000_0000_0000_0000 else e.micros, 8);
    UnpackPack(|e.blob|, 4);
    BigEndian(time);
  }

  lemma {:induction false} EntriesStorable(decode: Decoder, rows: seq<CacheRow>, event: Uuid)
    requires GoodRows(decode, rows)
    ensures AllStorable(EntriesOf(decode, rows, event))
  {
    if rows != [] {
      var front, row := rows[..|rows| - 1], rows[|rows| - 1];
      assert GoodRow(decode, row);
      EntriesStorable(decode, front, event);
      InstantRoundTrip(decode(row.blob).value.at);
    }
  }

  /** The file is the records of these entries, sorted. */
  ghost predicate HoldsSorted(file: seq<byte>, entries: seq<Entry>) {
    AllStorable(SortEntries(entries)) && file == EncodeFrames(EntryFrames(SortEntries(entries)))
  }

  lemma SortedStorable(s: seq<Entry>)
    requires AllStorable(s)
    ensures AllStorable(SortEntries(s))
  {
    SortProperties(s);
    var t := SortEntries(s);
    forall i | 0 <= i < |t| ensures Storable(t[i]) {
      assert t[i] in multiset(t);
      assert t[i] in s;
    }
  }
}
