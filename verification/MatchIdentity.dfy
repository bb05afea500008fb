/** Match ids that survive a rebuild: a rebuilt match takes the id of the one stored match it shares sources with. */
module MatchIdentity {
  import opened Options
  import opened Identity

  /** An entry of a stored source list; anything but text is skipped. */
  datatype Entry = Text(s: string) | Other

  /** The stored sources: a list, or text that is no JSON. */
  datatype Stored = List(entries: seq<Entry>) | Unreadable

  datatype Existing = Existing(id: string, key: string, sources: Stored, duplicateOf: Option<string>)

  datatype Owner = Owner(id: string, key: string)

  /** A rebuilt match: its first two columns, its source list and the other columns. */
  datatype Row = Row(id: string, key: string, sources: seq<string>, others: string)

  function Entries(e: Existing): seq<Entry> {
    if e.sources.List? then e.sources.entries else []
  }

  /** e may give its id away for the alias s. */
  predicate Lists(e: Existing, s: string) {
    e.duplicateOf.None? && ':' in s && Text(s) in Entries(e)
  }

  predicate Shares(e: Existing, row: Row) {
    exists s :: s in row.sources && Lists(e, s)
  }

  /** The stored survivors that share a source with the row. */
  ghost function Owners(existing: seq<Existing>, row: Row): set<Owner> {
    set e | e in existing && Shares(e, row) :: Owner(e.id, e.key)
  }

  /** The only survivor, if there is exactly one. */
  ghost function Claim(existing: seq<Existing>, row: Row): Option<Owner> {
    Only(Owners(existing, row))
  }

  ghost function ClaimedId(existing: seq<Existing>, row: Row): Option<string> {
    match Claim(existing, row) case None => None case Some(o) => Some(o.id)
  }

  ghost function Claims(existing: seq<Existing>, rows: seq<Row>): seq<Option<string>> {
    seq(|rows|, i requires 0 <= i < |rows| => ClaimedId(existing, rows[i]))
  }

  /** The i-th row after the rebuild: the first row to claim a survivor becomes it, all others stay. */
  ghost function Kept(existing: seq<Existing>, rows: seq<Row>, i: nat): Row
    requires i < |rows|
  {
    if First(Claims(existing, rows), i) then
      var o := Claim(existing, rows[i]).value;
      rows[i].(id := o.id, key := o.key)
    else rows[i]
  }

  ghost function Preserved(existing: seq<Existing>, rows: seq<Row>): seq<Row> {
    seq(|rows|, i requires 0 <= i < |rows| => Kept(existing, rows, i))
  }

  /** A row's owners, on the stored fields: survivors that list one of its sources, which has to contain a colon. */
  lemma OwnersMeaning(existing: seq<Existing>, row: Row, id: string, key: string)
    ensures Owner(id, key) in Owners(existing, row)
      <==> exists e, s :: e in existing && e.id == id && e.key == key && e.duplicateOf == None && s in row.sources
             && ':' in s && e.sources.List? && Text(s) in e.sources.entries
  {
    forall e, s | e in existing && e.id == id && e.key == key && Lists(e, s) && s in row.sources
      ensures Owner(id, key) in Owners(existing, row)
    {
      assert Shares(e, row);
    }
    if Owner(id, key) in Owners(existing, row) {
      var e :| e in existing && Shares(e, row) && e.id == id && e.key == key;
      var s :| s in row.sources && Lists(e, s);
      assert e.sources.List?;
    }
  }

  // ---- the loops ----------------------------------------------------------------------

  function At(aliases: map<string, set<Owner>>, s: string): set<Owner> {
    if s in aliases then aliases[s] else {}
  }

  ghost function AliasOwners(existing: seq<Existing>, s: string): set<Owner> {
    set e | e in existing && Lists(e, s) :: Owner(e.id, e.key)
  }

  ghost predicate Covers(aliases: map<string, set<Owner>>, existing: seq<Existing>) {
    forall s :: At(aliases, s) == AliasOwners(existing, s)
  }

  ghost predicate Partly(aliases: map<string, set<Owner>>, existing: seq<Existing>, o: Owner, entries: seq<Entry>) {
    forall s :: At(aliases, s) == AliasOwners(existing, s) + if ':' in s && Text(s) in entries then {o} else {}
  }

  lemma PartlyStep(aliases: map<string, set<Owner>>, existing: seq<Existing>, o: Owner, entries: seq<Entry>, j: nat)
    requires j < |entries| && Partly(aliases, existing, o, entries[..j])
    ensures var e := entries[j];
      var more := if e.Text? && ':' in e.s then aliases[e.s := At(aliases, e.s) + {o}] else aliases;
      Partly(more, existing, o, entries[..j + 1])
  {
    assert entries[..j + 1] == entries[..j] + [entries[j]];
    assert forall x :: x in entries[..j + 1] <==> x in entries[..j] || x == entries[j];
  }

  /** The aliases of one more stored match. */
  method AddAliases(before: map<string, set<Owner>>, e: Existing, ghost existing: seq<Existing>)
      returns (aliases: map<string, set<Owner>>)
    requires Covers(before, existing)
    ensures Covers(aliases, existing + [e])
  {
    aliases := before;
    assert forall s ::
        AliasOwners(existing + [e], s) == AliasOwners(existing, s) + if Lists(e, s) then {Owner(e.id, e.key)} else {};
    if e.duplicateOf.Some? {
      return;
    }
    var o, entries := Owner(e.id, e.key), Entries(e);
    for j := 0 to |entries|
      invariant Partly(aliases, existing, o, entries[..j])
    {
      PartlyStep(aliases, existing, o, entries, j);
      var entry := entries[j];
      if entry.Text? && ':' in entry.s {
        aliases := aliases[entry.s := At(aliases, entry.s) + {o}];
      }
    }
    assert entries[..|entries|] == entries;
  }

  method BuildAliases(existing: seq<Existing>) returns (aliases: map<string, set<Owner>>)
    ensures Covers(aliases, existing)
  {
    aliases := map[];
    for i := 0 to |existing|
      invariant Covers(aliases, existing[..i])
    {
      assert existing[..i + 1] == existing[..i] + [existing[i]];
      aliases := AddAliases(aliases, existing[i], existing[..i]);
    }
    assert existing[..|existing|] == existing;
  }

  lemma MatchedAreOwners(aliases: map<string, set<Owner>>, existing: seq<Existing>, row: Row)
    requires Covers(aliases, existing)
    ensures (set s, o | s in row.sources && o in At(aliases, s) :: o) == Owners(existing, row)
  {
    forall o ensures o in (set s, p | s in row.sources && p in At(aliases, s) :: p) <==> o in Owners(existing, row) {
      if o in Owners(existing, row) {
        var e :| e in existing && Shares(e, row) && o == Owner(e.id, e.key);
        var s :| s in row.sources && Lists(e, s);
        assert o in AliasOwners(existing, s);
      }
    }
  }

  /** One row: its only owner's id, unless an earlier row has used it. */
  method KeepRow(rows: seq<Row>, i: nat, aliases: map<string, set<Owner>>, used: set<string>,
      ghost existing: seq<Existing>)
    returns (row: Row, used': set<string>)
    requires i < |rows| && Covers(aliases, existing) && used == Used(Claims(existing, rows)[..i])
    ensures row == Kept(existing, rows, i) && used' == Used(Claims(existing, rows)[..i + 1])
  {
    ghost var claims := Claims(existing, rows);
    row, used' := rows[i], used;
    var matched := set s, o | s in row.sources && o in At(aliases, s) :: o;
    MatchedAreOwners(aliases, existing, row);
    if |matched| == 1 {
      var o :| o in matched;
      OnlyElement(matched, o);
      UsedMeansNotFirst(claims, i);
      if o.id !in used {
        row, used' := row.(id := o.id, key := o.key), used + {o.id};
      }
    } else {
      UnusedStays(claims, i);
    }
  }

  /** Rows in their order; an owner's id is handed out once. */
  method PreserveMatchIds(rows: seq<Row>, existing: seq<Existing>) returns (preserved: seq<Row>)
    ensures preserved == Preserved(existing, rows)
  {
    var aliases := BuildAliases(existing);
    var used: set<string> := {};
    preserved := [];
    for i := 0 to |rows|
      invariant preserved == Preserved(existing, rows)[..i]
      invariant used == Used(Claims(existing, rows)[..i])
    {
      var row;
      row, used := KeepRow(rows, i, aliases, used, existing);
      preserved := preserved + [row];
    }
  }

  // ---- what is kept -------------------------------------------------------------------

  /** Row order and all other columns stay; id and key change together, to those of a survivor that shares a source. */
  lemma ColumnsStay(existing: seq<Existing>, rows: seq<Row>, i: nat)
    requires i < |rows|
    ensures |Preserved(existing, rows)| == |rows|
    ensures var row := Preserved(existing, rows)[i];
      && row.sources == rows[i].sources && row.others == rows[i].others
      && (row == rows[i] || exists e :: e in existing && Shares(e, rows[i]) && row.id == e.id && row.key == e.key)
  {
  }

  /** No stored id goes to two rows, and a row that shares sources with two survivors takes neither. */
  lemma SurvivorGivenOnce(existing: seq<Existing>, rows: seq<Row>, i: nat, j: nat)
    requires i < j < |rows|
    requires First(Claims(existing, rows), i) && First(Claims(existing, rows), j)
    ensures Preserved(existing, rows)[i].id != Preserved(existing, rows)[j].id
    ensures forall o :: o in Owners(existing, rows[i]) ==>
        o.id == Preserved(existing, rows)[i].id && o.key == Preserved(existing, rows)[i].key
  {
    assert Claims(existing, rows)[i] != Claims(existing, rows)[j];
  }

  function Survivors(existing: seq<Existing>): seq<Existing> {
    if existing == [] then []
    else (if existing[0].duplicateOf.None? then [existing[0]] else []) + Survivors(existing[1..])
  }

  lemma {:induction false} SurvivorsMembers(existing: seq<Existing>, e: Existing)
    ensures e in Survivors(existing) <==> e in existing && e.duplicateOf.None?
  {
    if existing != [] {
      SurvivorsMembers(existing[1..], e);
    }
  }

  /** Rows marked duplicate own nothing: leaving them out changes no row. */
  lemma DuplicatesOwnNothing(existing: seq<Existing>, rows: seq<Row>)
    ensures Preserved(existing, rows) == Preserved(Survivors(existing), rows)
  {
    forall row ensures Owners(existing, row) == Owners(Survivors(existing), row) {
      forall e ensures e in existing && Shares(e, row) <==> e in Survivors(existing) && Shares(e, row) {
        SurvivorsMembers(existing, e);
      }
    }
    assert Claims(existing, rows) == Claims(Survivors(existing), rows);
  }

  // ---- rebuilding again ---------------------------------------------------------------

  /** The rows as the next rebuild finds them. */
  function StoredRows(rows: seq<Row>): seq<Existing> {
    seq(|rows|, i requires 0 <= i < |rows| => StoredRow(rows[i]))
  }

  function StoredRow(row: Row): Existing {
    Existing(row.id, row.key, List(seq(|row.sources|, i requires 0 <= i < |row.sources| => Text(row.sources[i]))), None)
  }

  predicate HasAlias(row: Row) {
    exists s :: s in row.sources && ':' in s
  }

  lemma StoredShares(row: Row, other: Row)
    ensures Shares(StoredRow(row), other) <==> exists s :: s in other.sources && s in row.sources && ':' in s
  {
    var entries := Entries(StoredRow(row));
    forall s ensures Text(s) in entries <==> s in row.sources {
      if s in row.sources {
        var i :| 0 <= i < |row.sources| && row.sources[i] == s;
        assert entries[i] == Text(s);
      }
    }
  }

  /** Every row with an alias finds itself among the stored rows. */
  lemma OwnsItself(stored: seq<Row>, row: Row, i: nat)
    requires i < |stored| && stored[i].sources == row.sources
    ensures if HasAlias(row) then Owner(stored[i].id, stored[i].key) in Owners(StoredRows(stored), row)
            else Owners(StoredRows(stored), row) == {}
  {
    StoredShares(stored[i], row);
    assert StoredRows(stored)[i] == StoredRow(stored[i]);
    forall e | e in StoredRows(stored) && Shares(e, row) ensures HasAlias(row) {
    }
  }

  /** Rebuilding the stored rows themselves changes nothing, whatever they are. */
  lemma Fixpoint(rows: seq<Row>)
    ensures Preserved(StoredRows(rows), rows) == rows
  {
    forall i | 0 <= i < |rows| ensures Kept(StoredRows(rows), rows, i) == rows[i] {
      OwnsItself(rows, rows[i], i);
    }
  }

  ghost predicate DisjointSources(rows: seq<Row>) {
    forall i, j, s :: 0 <= i < j < |rows| && s in rows[i].sources && ':' in s ==> s !in rows[j].sources
  }

  /** With disjoint sources a stored row is the only owner of its own rebuilt row. */
  lemma OwnsItselfOnly(stored: seq<Row>, rows: seq<Row>, i: nat)
    requires i < |rows| == |stored| && DisjointSources(rows)
    requires forall k :: 0 <= k < |rows| ==> stored[k].sources == rows[k].sources
    ensures Claim(StoredRows(stored), rows[i])
            == if HasAlias(rows[i]) then Some(Owner(stored[i].id, stored[i].key)) else None
  {
    OwnsItself(stored, rows[i], i);
    forall e | e in StoredRows(stored) && Shares(e, rows[i]) ensures e == StoredRow(stored[i]) {
      var k :| 0 <= k < |stored| && e == StoredRow(stored[k]);
      StoredShares(stored[k], rows[i]);
    }
    if HasAlias(rows[i]) {
      assert Owners(StoredRows(stored), rows[i]) == {Owner(stored[i].id, stored[i].key)};
    }
  }

  /**
   Row i takes over a survivor's id, and an earlier row with an alias has that very id as its fresh one
   and keeps it.
   */
  ghost predicate Collides(existing: seq<Existing>, rows: seq<Row>, j: nat, i: nat)
    requires j < i < |rows|
  {
    var claims := Claims(existing, rows);
    && First(claims, i) && Claim(existing, rows[i]) != Some(Owner(rows[i].id, rows[i].key))
    && !First(claims, j) && HasAlias(rows[j]) && claims[i] == Some(rows[j].id)
  }

  /** The same rebuild over its own result gives that result again, unless a fresh id collides with a kept one. */
  lemma RebuildStable(existing: seq<Existing>, rows: seq<Row>)
    requires DisjointSources(rows)
    ensures Preserved(StoredRows(Preserved(existing, rows)), rows) == Preserved(existing, rows)
            <==> forall j, i :: 0 <= j < i < |rows| ==> !Collides(existing, rows, j, i)
  {
    var out := Preserved(existing, rows);
    var again := Preserved(StoredRows(out), rows);
    if again == out {
      forall j, i | 0 <= j < i < |rows| ensures !Collides(existing, rows, j, i) {
        RowStable(existing, rows, i);
      }
    }
    if forall j, i :: 0 <= j < i < |rows| ==> !Collides(existing, rows, j, i) {
      forall i | 0 <= i < |rows| ensures again[i] == out[i] {
        RowStable(existing, rows, i);
      }
    }
  }

  ghost predicate Blocked(stored: seq<Row>, rows: seq<Row>, i: nat)
    requires i < |rows| == |stored|
  {
    exists j :: 0 <= j < i && HasAlias(rows[j]) && stored[j].id == stored[i].id
  }

  /** What becomes of a row when the stored rows have its sources. */
  lemma KeptAgain(stored: seq<Row>, rows: seq<Row>, i: nat)
    requires i < |rows| == |stored| && DisjointSources(rows)
    requires forall k :: 0 <= k < |rows| ==> stored[k].sources == rows[k].sources
    ensures Kept(StoredRows(stored), rows, i)
            == if HasAlias(rows[i]) && !Blocked(stored, rows, i)
               then rows[i].(id := stored[i].id, key := stored[i].key)
               else rows[i]
  {
    var claims := Claims(StoredRows(stored), rows);
    OwnsItselfOnly(stored, rows, i);
    forall j | 0 <= j < i ensures claims[j] == if HasAlias(rows[j]) then Some(stored[j].id) else None {
      OwnsItselfOnly(stored, rows, j);
    }
  }

  lemma RowStable(existing: seq<Existing>, rows: seq<Row>, i: nat)
    requires DisjointSources(rows) && i < |rows|
    ensures Preserved(StoredRows(Preserved(existing, rows)), rows)[i] == Preserved(existing, rows)[i]
            <==> forall j :: 0 <= j < i ==> !Collides(existing, rows, j, i)
  {
    var out := Preserved(existing, rows);
    forall k | 0 <= k < |rows|
      ensures out[k].sources == rows[k].sources && out[k] == rows[k].(id := out[k].id, key := out[k].key)
    {
      ColumnsStay(existing, rows, k);
    }
    KeptAgain(out, rows, i);
    if out[i] != rows[i] {
      assert HasAlias(rows[i]);
      forall j | 0 <= j < i ensures Collides(existing, rows, j, i) <==> HasAlias(rows[j]) && out[j].id == out[i].id {
      }
      assert Blocked(out, rows, i) <==> exists j :: 0 <= j < i && Collides(existing, rows, j, i);
    }
  }

  /** Such a collision is possible: the fresh id of a new match is one that another match keeps. */
  lemma FreshIdCollides() returns (existing: seq<Existing>, rows: seq<Row>)
    ensures DisjointSources(rows)
    ensures Preserved(StoredRows(Preserved(existing, rows)), rows) != Preserved(existing, rows)
  {
    var new_, kept := Row("x", "k", ["s:1"], ""), Row("y", "l", ["s:2"], "");
    var stored := Existing("x", "m", List([Text("s:2")]), None);
    existing, rows := [stored], [new_, kept];
    assert "s:1"[1] == ':' && "s:2"[1] == ':' && "s:1"[2] != "s:2"[2];
    assert Lists(stored, "s:2") && Shares(stored, kept);
    assert !Shares(stored, new_) && Owners(existing, new_) == {};
    assert Owners(existing, kept) == {Owner("x", "m")};
    assert Claims(existing, rows)[1] == Some("x") && Claims(existing, rows)[0] == None;
    assert "s:1" in new_.sources && HasAlias(new_);
    assert Collides(existing, rows, 0, 1);
    RebuildStable(existing, rows);
  }
}
