/** The batch loop of the census: a checkpoint over a frozen list of event ids. */
module Census {
  import opened Options
  import opened Texts
  import opened Sorting

  const SPLIT_ABOVE_ROWS := 20000

  /** A batch being worked on; `indexed` once its snapshot index has been digested. */
  datatype Pending = Pending(number: nat, ids: seq<string>, indexed: bool)

  datatype Batch = Batch(number: nat, ids: seq<string>)

  /** checkpoint.json, replaced atomically. */
  datatype Checkpoint = Checkpoint(
    cursor: Option<string>, pending: Option<Pending>, completed: seq<Batch>, nextNumber: nat)

  /** Died: the process ended inside a batch, by a cut or by an exception. */
  datatype Outcome = Incomplete | Complete | MembershipBroken | Died

  datatype Step = Turned | Exhausted | TurnDied

  ghost predicate StrictlySorted(ids: seq<string>) {
    forall i, j :: 0 <= i < j < |ids| ==> TextLess(ids[i], ids[j])
  }

  /** The ids of the completed batches, in order. */
  function Scanned(batches: seq<Batch>): seq<string> {
    if batches == [] then [] else Scanned(batches[..|batches| - 1]) + batches[|batches| - 1].ids
  }

  method BisectRight(ids: seq<string>, x: string) returns (at: nat)
    requires StrictlySorted(ids)
    ensures at <= |ids|
    ensures forall i :: 0 <= i < at ==> TextLeq(ids[i], x)
    ensures forall i :: at <= i < |ids| ==> !TextLeq(ids[i], x)
  {
    var lo, hi := 0, |ids|;
    while lo < hi
      invariant 0 <= lo <= hi <= |ids|
      invariant forall i :: 0 <= i < lo ==> TextLeq(ids[i], x)
      invariant forall i :: hi <= i < |ids| ==> !TextLeq(ids[i], x)
    {
      var mid := (lo + hi) / 2;
      if TextLeq(ids[mid], x) {
        BelowToo(ids, mid, x);
        lo := mid + 1;
      } else {
        AboveToo(ids, mid, x);
        hi := mid;
      }
    }
    at := lo;
  }

  lemma BelowToo(ids: seq<string>, mid: nat, x: string)
    requires StrictlySorted(ids) && mid < |ids| && TextLeq(ids[mid], x)
    ensures forall i :: 0 <= i <= mid ==> TextLeq(ids[i], x)
  {
    forall i | 0 <= i < mid ensures TextLeq(ids[i], x) {
      TextLeqTransitive(ids[i], ids[mid], x);
    }
  }

  lemma AboveToo(ids: seq<string>, mid: nat, x: string)
    requires StrictlySorted(ids) && mid < |ids| && !TextLeq(ids[mid], x)
    ensures forall i :: mid <= i < |ids| ==> !TextLeq(ids[i], x)
  {
    forall i | mid < i < |ids| && TextLeq(ids[i], x) ensures false {
      TextLeqTransitive(ids[mid], ids[i], x);
    }
  }

  // ----- The membership check in front of the final report.

  /** No id twice, and together exactly the frozen ids. */
  predicate MembershipOk(scanned: seq<string>, frozen: seq<string>) {
    |scanned| == |(set id | id in scanned)| && Sort(scanned, TextLeq) == frozen
  }

  lemma {:induction false} DistinctCount(ids: seq<string>)
    requires StrictlySorted(ids)
    ensures |(set id | id in ids)| == |ids|
  {
    if ids != [] {
      var front := ids[..|ids| - 1];
      DistinctCount(front);
      var last := ids[|ids| - 1];
      assert (set id | id in ids) == (set id | id in front) + {last};
      assert last !in front;
    }
  }

  /** For a prefix of the frozen ids, the check passes exactly when nothing is missing. */
  lemma MembershipIffAll(scanned: seq<string>, frozen: seq<string>)
    requires StrictlySorted(frozen) && scanned <= frozen
    ensures MembershipOk(scanned, frozen) <==> scanned == frozen
  {
    SortElements(scanned, TextLeq);
    if scanned == frozen {
      SortFixed(frozen, TextLeq);
      DistinctCount(frozen);
    }
  }

  // ----- The loop.

  /** The checkpoint describes a prefix of the frozen ids, and the pending batch comes next. */
  ghost predicate InOrder(c: Checkpoint, frozen: seq<string>) {
    var done := Scanned(c.completed);
    && done <= frozen
    && c.cursor == (if done == [] then None else Some(done[|done| - 1]))
    && c.nextNumber == |c.completed| + 1
    && (forall i :: 0 <= i < |c.completed| ==> c.completed[i].ids != [] && c.completed[i].number == i + 1)
    && (c.pending.Some? ==>
      && c.pending.value.ids != [] && c.pending.value.ids <= frozen[|done|..]
      && c.pending.value.number == c.nextNumber)
  }

  class CensusRun {
    const frozen: seq<string>
    const batchSize: nat
    var saved: Checkpoint

    constructor (frozen: seq<string>, batchSize: nat)
      requires StrictlySorted(frozen) && 1 <= batchSize <= 100
      ensures Valid() && this.frozen == frozen && this.batchSize == batchSize && Done() == 0
    {
      this.frozen, this.batchSize := frozen, batchSize;
      saved := Checkpoint(None, None, [], 1);
    }

    ghost predicate Valid()
      reads this
    {
      && StrictlySorted(frozen) && 1 <= batchSize && InOrder(saved, frozen)
      && (saved.pending.Some? ==> |saved.pending.value.ids| <= batchSize)
    }

    /** The batch the checkpoint holds as pending is one whose report raises. */
    ghost predicate PendingIn(fails: set<seq<string>>)
      reads this
    {
      saved.pending.Some? && saved.pending.value.ids in fails
    }

    ghost function Done(): nat
      reads this
    {
      |Scanned(saved.completed)|
    }

    /** The ids whose turn it is: those pending, or else the next ones, as many as a batch holds. */
    ghost function Due(): seq<string>
      requires Valid()
      reads this
    {
      if saved.pending.Some? then saved.pending.value.ids
      else if Done() + batchSize < |frozen| then frozen[Done()..Done() + batchSize]
      else frozen[Done()..]
    }

    /**
     Work for at most `turns` batches. `saves` checkpoint writes succeed before the process
     dies; `fails` lists the batches whose report raises; `rowsIn` counts a batch's index rows.
     */
    method Run(turns: nat, saves: nat, fails: set<seq<string>>, rowsIn: seq<string> -> nat) returns (o: Outcome)
      requires Valid()
      modifies this
      ensures Valid() && old(saved).completed <= saved.completed
      ensures o != MembershipBroken
      ensures o == Complete <==> o != Died && Scanned(saved.completed) == frozen && saved.pending == None
      ensures o == Complete ==> MembershipOk(Scanned(saved.completed), frozen)
      ensures o == Incomplete ==> Done() < |frozen| && Done() >= old(Done()) + turns
      ensures o == Died ==> PendingIn(fails) || saves < 4 * (|frozen| - old(Done()))
    {
      var turn, left: nat, going := 0, saves, true;
      while turn < turns && going
        invariant Valid() && old(saved).completed <= saved.completed
        invariant going ==> Done() >= old(Done()) + turn
        invariant !going ==> saved.pending == None && Done() == |frozen|
        invariant saves <= left + 4 * (Done() - old(Done()))
        decreases turns - turn, going
      {
        var step;
        step, left := Turn(left, fails, rowsIn);
        match step {
          case TurnDied => return Died;
          case Exhausted => going := false;
          case Turned => turn := turn + 1;
        }
      }
      var offset := Offset();
      if saved.pending.Some? || offset < |frozen| {
        return Incomplete;
      }
      o := if MembershipOk(Scanned(saved.completed), frozen) then Complete else MembershipBroken;
      MembershipIffAll(Scanned(saved.completed), frozen);
    }

    /** Where the next batch starts. */
    method Offset() returns (offset: nat)
      requires Valid()
      ensures offset == Done()
    {
      ghost var done := Scanned(saved.completed);
      match saved.cursor {
        case None => offset := 0;
        case Some(cursor) =>
          offset := BisectRight(frozen, cursor);
          TextLeqReflexive(cursor);
          assert frozen[|done| - 1] == cursor;
          if |done| < offset {
            TextLeqAntisymmetric(frozen[|done|], cursor);
          }
      }
    }

    /** One round of the loop: take up or resume a batch, split it if too large, complete it. */
    method Turn(saves: nat, fails: set<seq<string>>, rowsIn: seq<string> -> nat) returns (step: Step, left: nat)
      requires Valid()
      modifies this
      ensures Valid()
      ensures step == Exhausted ==> saved == old(saved) && saved.pending == None && Done() == |frozen| && left == saves
      ensures step == Turned ==>
          exists ids :: Completes(old(saved), saved, ids) && 0 < |ids| <= batchSize &&
            (|ids| == 1 || rowsIn(ids) <= 20000)
      ensures step == Turned ==>
          var due := old(Due());
          Completes(old(saved), saved, if rowsIn(due) > 20000 && |due| > 1 then due[..1] else due)
      ensures step == Turned ==> Done() > old(Done()) && saved.pending == None && saves <= left + 4
      ensures step == TurnDied ==>
          saved.completed == old(saved).completed && Done() < |frozen| && (PendingIn(fails) || saves < 4)
    {
      step, left := TakeUp(saves);
      if step != Turned {
        return;
      }
      var split;
      split, left := SplitLarge(left, rowsIn);
      if !split || saved.pending.value.ids in fails || left == 0 {
        return TurnDied, left;
      }
      ghost var ids := saved.pending.value.ids;
      CompletePending();
      assert Completes(old(saved), saved, ids);
      return Turned, left - 1;
    }

    /** A pending batch with too many rows shrinks to its first event. */
    method SplitLarge(saves: nat, rowsIn: seq<string> -> nat) returns (ok: bool, left: nat)
      requires Valid() && saved.pending.Some?
      modifies this
      ensures Valid() && saved.pending.Some? && saved.completed == old(saved).completed
      ensures if ok then saves <= left + 1 else saves == 0
      ensures ok ==> |saved.pending.value.ids| == 1 || rowsIn(saved.pending.value.ids) <= 20000
      ensures ok ==> var due := old(saved).pending.value.ids;
          saved.pending.value.ids == if rowsIn(due) > 20000 && |due| > 1 then due[..1] else due
      ensures !ok ==> saved == old(saved)
    {
      var pending := saved.pending.value;
      ok, left := true, saves;
      if rowsIn(pending.ids) > SPLIT_ABOVE_ROWS && |pending.ids| > 1 {
        if left == 0 {
          return false, left;
        }
        saved := saved.(pending := Some(pending.(ids := pending.ids[..1])));
        left := left - 1;
      }
    }

    method CompletePending()
      requires Valid() && saved.pending.Some?
      modifies this
      ensures Valid() && saved.pending == None && Completes(old(saved), saved, old(saved).pending.value.ids)
    {
      ghost var was := saved;
      var pending := saved.pending.value;
      saved := Checkpoint(Some(pending.ids[|pending.ids| - 1]), None,
                          saved.completed + [Batch(pending.number, pending.ids)], pending.number + 1);
    }

    /** Take the next ids as pending batch, or keep the one the checkpoint has, and index it. */
    method TakeUp(saves: nat) returns (step: Step, left: nat)
      requires Valid()
      modifies this
      ensures Valid() && saved.completed == old(saved).completed
      ensures step == Exhausted ==> saved == old(saved) && saved.pending == None && Done() == |frozen| && left == saves
      ensures step != Exhausted ==> Done() < |frozen|
      ensures step == Turned ==> saved.pending.Some? && saved.pending.value.indexed && saves <= left + 2
      ensures step == Turned ==> saved.pending.value.ids == old(Due())
      ensures step == TurnDied ==> saves < 2
    {
      left := saves;
      if saved.pending.None? {
        var offset := Offset();
        var end := if offset + batchSize < |frozen| then offset + batchSize else |frozen|;
        var ids := frozen[offset..end];
        if ids == [] {
          return Exhausted, left;
        }
        if left == 0 {
          return TurnDied, left;
        }
        saved := saved.(pending := Some(Pending(saved.nextNumber, ids, false)));
        assert ids <= frozen[offset..];
        left := left - 1;
      }
      if !saved.pending.value.indexed {
        if left == 0 {
          return TurnDied, left;
        }
        saved := saved.(pending := Some(saved.pending.value.(indexed := true)));
        left := left - 1;
      }
      step := Turned;
    }
  }

  /** A batch is appended and the cursor moves to its last id. */
  ghost predicate Completes(c: Checkpoint, c': Checkpoint, ids: seq<string>) {
    && |c'.completed| == |c.completed| + 1 && c.completed <= c'.completed
    && c'.completed[|c.completed|].ids == ids
    && Scanned(c'.completed) == Scanned(c.completed) + ids
  }

}
