/** Training examples and the key by which the audit orders them. */
module Examples {
  import opened Options
  import opened Texts

  /** One line of an example file. `others` stands for the fields no step here looks at. */
  datatype Example = Example(
    target: string,
    event: string,
    snapshot: Option<string>,
    outcome: int,
    observedAt: int,
    availableAt: Option<int>,
    missing: set<string>,
    certified: bool,
    others: string)

  datatype Key = Key(target: string, event: string, snapshot: string, outcome: int)

  function KeyOf(r: Example): Key {
    Key(r.target, r.event, if r.snapshot.Some? then r.snapshot.value else "", r.outcome)
  }

  /** The tuple order of the sort key: the first component that differs decides. */
  predicate KeyLeq(a: Key, b: Key) {
    if a.target != b.target then TextLeq(a.target, b.target)
    else if a.event != b.event then TextLeq(a.event, b.event)
    else if a.snapshot != b.snapshot then TextLeq(a.snapshot, b.snapshot)
    else a.outcome <= b.outcome
  }

  /** The text of a snapshot id; a missing one counts as empty. */
  function SnapshotText(r: Example): string {
    match r.snapshot case Some(id) => id case None => ""
  }

  /** The order of rows, field by field. */
  predicate RowLeq(a: Example, b: Example) {
    || TextLess(a.target, b.target)
    || (a.target == b.target && TextLess(a.event, b.event))
    || (a.target == b.target && a.event == b.event && TextLess(SnapshotText(a), SnapshotText(b)))
    || (a.target == b.target && a.event == b.event && SnapshotText(a) == SnapshotText(b) && a.outcome <= b.outcome)
  }

  predicate SameFields(a: Example, b: Example) {
    a.target == b.target && a.event == b.event && SnapshotText(a) == SnapshotText(b) && a.outcome == b.outcome
  }

  /** Rows are ordered by target, then event, then snapshot, then outcome; and nothing else makes their keys differ. */
  lemma KeyOrder(a: Example, b: Example)
    ensures KeyLeq(KeyOf(a), KeyOf(b)) <==> RowLeq(a, b)
    ensures KeyOf(a) == KeyOf(b) <==> SameFields(a, b)
  {
  }

  lemma KeyLeqTotal(a: Key, b: Key)
    ensures KeyLeq(a, b) || KeyLeq(b, a)
  {
    TextLeqTotal(a.target, b.target);
    TextLeqTotal(a.event, b.event);
    TextLeqTotal(a.snapshot, b.snapshot);
  }

  lemma KeyLeqAntisymmetric(a: Key, b: Key)
    requires KeyLeq(a, b) && KeyLeq(b, a)
    ensures a == b
  {
    if a.target != b.target {
      TextLeqAntisymmetric(a.target, b.target);
    } else if a.event != b.event {
      TextLeqAntisymmetric(a.event, b.event);
    } else if a.snapshot != b.snapshot {
      TextLeqAntisymmetric(a.snapshot, b.snapshot);
    }
  }

  lemma KeyLeqTransitive(a: Key, b: Key, c: Key)
    requires KeyLeq(a, b) && KeyLeq(b, c)
    ensures KeyLeq(a, c)
  {
    if a.target != b.target && b.target != c.target {
      TextLeqTransitive(a.target, b.target, c.target);
      if a.target == c.target {
        TextLeqAntisymmetric(a.target, b.target);
      }
    } else if a.target == b.target == c.target {
      if a.event != b.event && b.event != c.event {
        TextLeqTransitive(a.event, b.event, c.event);
        if a.event == c.event {
          TextLeqAntisymmetric(a.event, b.event);
        }
      } else if a.event == b.event == c.event {
        if a.snapshot != b.snapshot && b.snapshot != c.snapshot {
          TextLeqTransitive(a.snapshot, b.snapshot, c.snapshot);
          if a.snapshot == c.snapshot {
            TextLeqAntisymmetric(a.snapshot, b.snapshot);
          }
        }
      }
    }
  }
}
