/**
 The bankroll ledger under its two triggers: entries can only be appended, and every update of
 a balance queues a check that runs when the transaction commits. Amounts are whole cents.
 */
module Ledger {
  import opened Options

  const INITIAL_DEPOSIT := "INITIAL_DEPOSIT"

  /** NUMERIC(12, 2) holds less than this many cents, on either side of zero. */
  const NUMERIC_LIMIT := 1000000000000

  datatype Account = Account(balance: int, initial: int)

  datatype Entry = Entry(account: nat, kind: string, amount: int)

  /** One statement. `TouchEntries` is an UPDATE or DELETE of ledger entries matching `rows` rows. */
  datatype Statement =
    | InsertAccount(id: nat, account: Account)
    | UpdateBalance(id: nat, balance: int)
    | UpdateInitial(id: nat, initial: int)
    | InsertEntry(entry: Entry)
    | TouchEntries(rows: nat)

  /** A queued row event of the balance trigger: NEW.id and NEW.balance. */
  datatype RowEvent = RowEvent(id: nat, balance: int)

  datatype Work = Work(accounts: map<nat, Account>, entries: seq<Entry>, queue: seq<RowEvent>)

  function LedgerSum(entries: seq<Entry>, id: nat): int {
    if entries == [] then 0
    else
      var last := entries[|entries| - 1];
      var counts := last.account == id && last.kind != INITIAL_DEPOSIT;
      LedgerSum(entries[..|entries| - 1], id) + if counts then last.amount else 0
  }

  predicate Numeric(cents: int) {
    -NUMERIC_LIMIT < cents < NUMERIC_LIMIT
  }

  /** The balance is within a cent of the initial balance plus the non-deposit entries. */
  predicate Balanced(accounts: map<nat, Account>, entries: seq<Entry>, id: nat)
    requires id in accounts
  {
    -1 <= accounts[id].balance - (accounts[id].initial + LedgerSum(entries, id)) <= 1
  }

  /** The sums the check computes fit their NUMERIC(12, 2) variables. */
  predicate Computable(accounts: map<nat, Account>, entries: seq<Entry>, id: nat)
    requires id in accounts
  {
    Numeric(LedgerSum(entries, id)) && Numeric(accounts[id].initial + LedgerSum(entries, id))
  }

  /** fn_verify_virtual_account_balance, run at commit: stale events are skipped. */
  predicate Check(accounts: map<nat, Account>, entries: seq<Entry>, e: RowEvent)
    requires e.id in accounts
  {
    accounts[e.id].balance != e.balance || (Computable(accounts, entries, e.id) && Balanced(accounts, entries, e.id))
  }

  /** One statement inside a transaction, or None where it raises. */
  function Execute(w: Work, s: Statement): Option<Work> {
    match s
    case InsertAccount(id, account) =>
      if id in w.accounts then None else Some(w.(accounts := w.accounts[id := account]))
    case UpdateBalance(id, balance) =>
      if id !in w.accounts then Some(w)
      else Some(w.(accounts := w.accounts[id := w.accounts[id].(balance := balance)],
                   queue := w.queue + [RowEvent(id, balance)]))
    case UpdateInitial(id, initial) =>
      if id !in w.accounts then Some(w) else Some(w.(accounts := w.accounts[id := w.accounts[id].(initial := initial)]))
    case InsertEntry(entry) => if entry.account !in w.accounts then None else Some(w.(entries := w.entries + [entry]))
    case TouchEntries(rows) => if rows > 0 then None else Some(w)
  }

  /** The statements in turn; None as soon as one raises. */
  function ExecuteAll(w: Work, txn: seq<Statement>): Option<Work> {
    if txn == [] then Some(w)
    else
      match ExecuteAll(w, txn[..|txn| - 1])
      case None => None
      case Some(x) => Execute(x, txn[|txn| - 1])
  }

  /** The accounts whose balance the transaction has set so far. */
  ghost predicate Updated(w: Work, id: nat) {
    exists i :: 0 <= i < |w.queue| && w.queue[i].id == id
  }

  /** The queue knows, for every updated account, the balance it has now. */
  ghost predicate QueueCurrent(w: Work) {
    && (forall i :: 0 <= i < |w.queue| ==> w.queue[i].id in w.accounts)
    && (forall id :: Updated(w, id) ==> RowEvent(id, w.accounts[id].balance) in w.queue)
  }

  lemma ExecuteKeepsQueue(w: Work, s: Statement)
    requires QueueCurrent(w) && Execute(w, s).Some?
    ensures QueueCurrent(Execute(w, s).value)
  {
    var x := Execute(w, s).value;
    forall id | Updated(x, id) ensures id in x.accounts && RowEvent(id, x.accounts[id].balance) in x.queue {
      if s.UpdateBalance? && s.id == id && s.id in w.accounts {
        assert x.queue[|w.queue|] == RowEvent(id, x.accounts[id].balance);
      } else {
        var i :| 0 <= i < |x.queue| && x.queue[i].id == id;
        assert w.queue[i].id == id;
        assert RowEvent(id, w.accounts[id].balance) in w.queue;
      }
    }
  }

  /** Skipping stale events never skips the last update: the queue decides like the updated accounts do. */
  lemma QueueDecides(w: Work)
    requires QueueCurrent(w)
    ensures (forall i :: 0 <= i < |w.queue| ==> Check(w.accounts, w.entries, w.queue[i]))
       <==> (forall id :: Updated(w, id) ==>
           Computable(w.accounts, w.entries, id) && Balanced(w.accounts, w.entries, id))
  {
    if forall i :: 0 <= i < |w.queue| ==> Check(w.accounts, w.entries, w.queue[i]) {
      forall id | Updated(w, id) ensures Computable(w.accounts, w.entries, id) && Balanced(w.accounts, w.entries, id) {
        var i :| 0 <= i < |w.queue| && w.queue[i] == RowEvent(id, w.accounts[id].balance);
        assert Check(w.accounts, w.entries, w.queue[i]);
      }
    }
    if forall id :: Updated(w, id) ==> Computable(w.accounts, w.entries, id) && Balanced(w.accounts, w.entries, id) {
      forall i | 0 <= i < |w.queue| ensures Check(w.accounts, w.entries, w.queue[i]) {
        assert Updated(w, w.queue[i].id);
      }
    }
  }

  lemma {:induction false} FailureStays(w: Work, txn: seq<Statement>, n: nat)
    requires n <= |txn| && ExecuteAll(w, txn[..n]) == None
    ensures ExecuteAll(w, txn) == None
    decreases |txn| - n
  {
    if n == |txn| {
      assert txn[..n] == txn;
    } else {
      assert txn[..n + 1][..n] == txn[..n];
      FailureStays(w, txn, n + 1);
    }
  }

  /** Entries and accounts only grow, and entries keep their accounts. */
  ghost predicate Progressed(start: Work, w: Work) {
    && start.entries <= w.entries && start.accounts.Keys <= w.accounts.Keys
    && forall i :: 0 <= i < |w.entries| ==> w.entries[i].account in w.accounts
  }

  /** What holds after any number of statements. */
  lemma {:induction false} ExecuteAllKeeps(start: Work, txn: seq<Statement>)
    requires Progressed(start, start) && start.queue == [] && ExecuteAll(start, txn).Some?
    ensures Progressed(start, ExecuteAll(start, txn).value) && QueueCurrent(ExecuteAll(start, txn).value)
  {
    if txn != [] {
      var front, s := txn[..|txn| - 1], txn[|txn| - 1];
      ExecuteAllKeeps(start, front);
      ExecuteKeepsQueue(ExecuteAll(start, front).value, s);
    }
  }

  /** What the transaction's statements lead to, before the deferred checks. */
  ghost function Outcome(accounts: map<nat, Account>, entries: seq<Entry>, txn: seq<Statement>): Option<Work> {
    ExecuteAll(Work(accounts, entries, []), txn)
  }

  /** Every account whose balance the work set satisfies the ledger equation. */
  ghost predicate UpdatedBalanced(w: Work)
    requires QueueCurrent(w)
  {
    forall id :: Updated(w, id) ==> Computable(w.accounts, w.entries, id) && Balanced(w.accounts, w.entries, id)
  }

  // ---- what a commit leaves -------------------------------------------------------------

  /** The committed tables. */
  datatype Books = Books(accounts: map<nat, Account>, entries: seq<Entry>)

  /** No statement raises and every account the transaction sets is balanced in the end. */
  ghost predicate Commits(b: Books, txn: seq<Statement>) {
    var w := Outcome(b.accounts, b.entries, txn);
    w.Some? && QueueCurrent(w.value) && UpdatedBalanced(w.value)
  }

  ghost function AfterOne(b: Books, txn: seq<Statement>): Books {
    if Commits(b, txn) then
      var w := Outcome(b.accounts, b.entries, txn).value;
      Books(w.accounts, w.entries)
    else b
  }

  /** The tables after a history of transactions. */
  ghost function After(b: Books, history: seq<seq<Statement>>): Books {
    if history == [] then b else AfterOne(After(b, history[..|history| - 1]), history[|history| - 1])
  }

  /** After the commit an account is balanced exactly if the statements keep it. */
  ghost predicate KeepsExactly(b: Books, txn: seq<Statement>) {
    var after := AfterOne(b, txn);
    forall id :: id in after.accounts ==>
      (Balanced(after.accounts, after.entries, id) <==> Keeps(b.accounts, b.entries, txn, id))
  }

  /** Which transactions of the history committed, and that each kept exactly what its statements say. */
  ghost predicate Told(b: Books, history: seq<seq<Statement>>, committed: seq<bool>) {
    && |committed| == |history|
    && forall i :: 0 <= i < |history| ==> ToldOne(After(b, history[..i]), history[i], committed[i])
  }

  ghost predicate ToldOne(before: Books, txn: seq<Statement>, ok: bool) {
    ok == Commits(before, txn) && (ok ==> KeepsExactly(before, txn))
  }

  lemma ToldMore(b: Books, history: seq<seq<Statement>>, committed: seq<bool>, i: nat, ok: bool)
    requires i < |history| && Told(b, history[..i], committed)
    requires ok == Commits(After(b, history[..i]), history[i])
    requires ok ==> KeepsExactly(After(b, history[..i]), history[i])
    ensures Told(b, history[..i + 1], committed + [ok])
  {
    var front, longer := history[..i], history[..i + 1];
    forall j | 0 <= j <= i ensures ToldOne(After(b, longer[..j]), longer[j], (committed + [ok])[j]) {
      assert longer[..j] == history[..j];
      if j < i {
        assert front[..j] == history[..j];
        assert ToldOne(After(b, front[..j]), front[j], committed[j]);
        assert (committed + [ok])[j] == committed[j];
      } else {
        assert longer[j] == history[i] && (committed + [ok])[j] == ok;
      }
    }
  }

  lemma AfterMore(b: Books, history: seq<seq<Statement>>, i: nat)
    requires i < |history|
    ensures After(b, history[..i + 1]) == AfterOne(After(b, history[..i]), history[i])
    ensures BalancedAfter(b, history[..i + 1])
            <==> if Commits(After(b, history[..i]), history[i]) then KeepsAll(After(b, history[..i]), history[i])
                 else BalancedAfter(b, history[..i])
  {
    assert history[..i + 1][..i] == history[..i];
  }

  /** All accounts are balanced after the history, as its last committed transaction decides. */
  ghost predicate BalancedAfter(b: Books, history: seq<seq<Statement>>) {
    if history == [] then forall id :: id in b.accounts ==> Balanced(b.accounts, b.entries, id)
    else
      var front, last := history[..|history| - 1], history[|history| - 1];
      if Commits(After(b, front), last) then KeepsAll(After(b, front), last) else BalancedAfter(b, front)
  }

  ghost predicate KeepsAll(b: Books, txn: seq<Statement>) {
    forall id :: id in AfterOne(b, txn).accounts ==> Keeps(b.accounts, b.entries, txn, id)
  }

  // ---- read off the statements ----------------------------------------------------------

  /** The account as it is before the transaction sets anything: it stands, or a statement inserts it. */
  function Opening(txn: seq<Statement>, id: nat, standing: Option<Account>): Option<Account> {
    if txn == [] then standing
    else
      var last := txn[|txn| - 1];
      if last.InsertAccount? && last.id == id then Some(last.account) else Opening(txn[..|txn| - 1], id, standing)
  }

  /** The initial balance the statements leave; changing that of an account that does not stand has no effect. */
  function InitialAfter(txn: seq<Statement>, id: nat, standing: Option<Account>): int {
    if txn == [] then if standing.Some? then standing.value.initial else 0
    else
      var front, last := txn[..|txn| - 1], txn[|txn| - 1];
      if last.InsertAccount? && last.id == id then last.account.initial
      else if last.UpdateInitial? && last.id == id && Opening(front, id, standing).Some? then last.initial
      else InitialAfter(front, id, standing)
  }

  /** The balance the statements leave; setting that of an account that does not stand has no effect. */
  function BalanceAfter(txn: seq<Statement>, id: nat, standing: Option<Account>): int {
    if txn == [] then if standing.Some? then standing.value.balance else 0
    else
      var front, last := txn[..|txn| - 1], txn[|txn| - 1];
      if last.InsertAccount? && last.id == id then last.account.balance
      else if last.UpdateBalance? && last.id == id && Opening(front, id, standing).Some? then last.balance
      else BalanceAfter(front, id, standing)
  }

  /** What the statements add to the account's non-deposit entries. */
  function Added(txn: seq<Statement>, id: nat): int {
    if txn == [] then 0
    else
      var last := txn[|txn| - 1];
      var counts := last.InsertEntry? && last.entry.account == id && last.entry.kind != INITIAL_DEPOSIT;
      Added(txn[..|txn| - 1], id) + if counts then last.entry.amount else 0
  }

  /** The balance is set somewhere, once the account stands. */
  function Sets(txn: seq<Statement>, id: nat, standing: Option<Account>): bool {
    txn != []
    && var front, last := txn[..|txn| - 1], txn[|txn| - 1];
       Sets(front, id, standing) || (last.UpdateBalance? && last.id == id && Opening(front, id, standing).Some?)
  }

  function Standing(accounts: map<nat, Account>, id: nat): Option<Account> {
    if id in accounts then Some(accounts[id]) else None
  }

  /** What decides, before the transaction, whether an account will be balanced after its commit. */
  predicate Keeps(accounts: map<nat, Account>, entries: seq<Entry>, txn: seq<Statement>, id: nat) {
    var standing := Standing(accounts, id);
    var opening := Opening(txn, id, standing);
    || Sets(txn, id, standing)
    || (opening.Some?
        && -1 <= opening.value.balance - (InitialAfter(txn, id, standing) + LedgerSum(entries, id)
             + Added(txn, id)) <= 1)
  }

  class Database {
    var accounts: map<nat, Account>
    var entries: seq<Entry>

    constructor ()
      ensures Valid() && accounts == map[] && entries == []
    {
      accounts, entries := map[], [];
    }

    /** Foreign key: every entry belongs to an account. */
    ghost predicate Valid()
      reads this
    {
      forall i :: 0 <= i < |entries| ==> entries[i].account in accounts
    }

    /**
     Run a transaction; commit its work, or leave everything as it was. It commits exactly when
     no statement raises and every account it set is balanced in the end.
     */
    method Commit(txn: seq<Statement>) returns (committed: bool)
      requires Valid()
      modifies this
      ensures Valid() && old(entries) <= entries && old(accounts).Keys <= accounts.Keys
      ensures Outcome(old(accounts), old(entries), txn).Some? ==>
          QueueCurrent(Outcome(old(accounts), old(entries), txn).value)
      ensures committed <==> Commits(old(Books(accounts, entries)), txn)
      ensures committed <==> Allowed(old(Books(accounts, entries)), txn)
      ensures Books(accounts, entries) == AfterOne(old(Books(accounts, entries)), txn)
      ensures committed ==> KeepsExactly(old(Books(accounts, entries)), txn)
    {
      CommitsExactly(Books(accounts, entries), txn);
      ghost var start := Work(accounts, entries, []);
      var result := Perform(txn);
      if result.None? {
        return false;
      }
      var w := result.value;
      ExecuteAllKeeps(start, txn);
      QueueDecides(w);
      committed := Verified(w);
      if committed {
        forall id | id in w.accounts
          ensures Balanced(w.accounts, w.entries, id) <==> Keeps(accounts, entries, txn, id)
        {
          CommitKeeps(start, txn, id);
        }
        accounts, entries := w.accounts, w.entries;
      }
    }

    /** The statements in turn, until one raises. */
    method Perform(txn: seq<Statement>) returns (result: Option<Work>)
      ensures result == ExecuteAll(Work(accounts, entries, []), txn)
    {
      var w := Work(accounts, entries, []);
      ghost var start := w;
      for i := 0 to |txn|
        invariant ExecuteAll(start, txn[..i]) == Some(w)
      {
        assert txn[..i + 1][..i] == txn[..i];
        var next := Execute(w, txn[i]);
        if next.None? {
          FailureStays(start, txn, i + 1);
          return None;
        }
        w := next.value;
      }
      assert txn[..|txn|] == txn;
      result := Some(w);
    }

    /** The queued checks in turn, until one raises. */
    method Verified(w: Work) returns (ok: bool)
      requires QueueCurrent(w)
      ensures ok <==> forall i :: 0 <= i < |w.queue| ==> Check(w.accounts, w.entries, w.queue[i])
    {
      for i := 0 to |w.queue|
        invariant forall j :: 0 <= j < i ==> Check(w.accounts, w.entries, w.queue[j])
      {
        if !Check(w.accounts, w.entries, w.queue[i]) {
          return false;
        }
      }
      ok := true;
    }

    /**
     A whole history: which transactions commit, what they leave, and which accounts are balanced
     after each of them. In the end all are exactly if the last commit keeps all.
     */
    method Run(history: seq<seq<Statement>>) returns (committed: seq<bool>)
      requires Valid()
      modifies this
      ensures Valid() && old(entries) <= entries && |committed| == |history|
      ensures Books(accounts, entries) == After(old(Books(accounts, entries)), history)
      ensures Told(old(Books(accounts, entries)), history, committed)
      ensures AllBalanced() <==> BalancedAfter(old(Books(accounts, entries)), history)
    {
      committed := [];
      ghost var start := Books(accounts, entries);
      for i := 0 to |history|
        invariant Valid() && old(entries) <= entries && |committed| == i
        invariant Books(accounts, entries) == After(start, history[..i]) && Told(start, history[..i], committed)
        invariant AllBalanced() <==> BalancedAfter(start, history[..i])
      {
        ghost var before := Books(accounts, entries);
        var ok := Commit(history[i]);
        ToldMore(start, history, committed, i, ok);
        AfterMore(start, history, i);
        committed := committed + [ok];
        assert ok ==> (AllBalanced() <==> KeepsAll(before, history[i]));
      }
      assert history[..|history|] == history;
    }

    ghost predicate AllBalanced()
      reads this
    {
      forall id :: id in accounts ==> Balanced(accounts, entries, id)
    }
  }

  lemma {:induction false} NoEntriesNoSum(entries: seq<Entry>, id: nat)
    requires forall i :: 0 <= i < |entries| ==> entries[i].account != id
    ensures LedgerSum(entries, id) == 0
  {
    if entries != [] {
      NoEntriesNoSum(entries[..|entries| - 1], id);
    }
  }

  lemma SumOneMore(entries: seq<Entry>, e: Entry, id: nat)
    ensures LedgerSum([], id) == 0
    ensures var counts := e.account == id && e.kind != "INITIAL_DEPOSIT";
      LedgerSum(entries + [e], id) == LedgerSum(entries, id) + if counts then e.amount else 0
  {
    assert (entries + [e])[..|entries|] == entries;
  }

  /** What the statements have done to one account so far, read off them. */
  ghost predicate Followed(start: Work, txn: seq<Statement>, w: Work, id: nat) {
    var standing := Standing(start.accounts, id);
    && (id in w.accounts <==> Opening(txn, id, standing).Some?)
    && LedgerSum(w.entries, id) == LedgerSum(start.entries, id) + Added(txn, id)
    && (Updated(w, id) <==> Sets(txn, id, standing))
    && (id in w.accounts ==> w.accounts[id].initial == InitialAfter(txn, id, standing))
    && (id in w.accounts ==> w.accounts[id].balance == BalanceAfter(txn, id, standing))
    && (id in w.accounts && !Updated(w, id) ==> w.accounts[id].balance == Opening(txn, id, standing).value.balance)
  }

  lemma UpdatedOneMore(w: Work, s: Statement, id: nat)
    requires Execute(w, s).Some?
    ensures Updated(Execute(w, s).value, id) <==> Updated(w, id) || (s.UpdateBalance? && s.id == id && id in w.accounts)
  {
    var x := Execute(w, s).value;
    if Updated(w, id) {
      var i :| 0 <= i < |w.queue| && w.queue[i].id == id;
      assert x.queue[i].id == id;
    }
    if s.UpdateBalance? && s.id == id && id in w.accounts {
      assert x.queue[|w.queue|].id == id;
    }
  }

  lemma FollowedStep(start: Work, txn: seq<Statement>, w: Work, id: nat)
    requires txn != [] && Followed(start, txn[..|txn| - 1], w, id) && Execute(w, txn[|txn| - 1]).Some?
    ensures Followed(start, txn, Execute(w, txn[|txn| - 1]).value, id)
  {
    FollowedSums(txn, w, id);
    FollowedAccount(txn, Standing(start.accounts, id), w, id);
    UpdatedOneMore(w, txn[|txn| - 1], id);
  }

  lemma FollowedSums(txn: seq<Statement>, w: Work, id: nat)
    requires txn != [] && Execute(w, txn[|txn| - 1]).Some?
    ensures LedgerSum(Execute(w, txn[|txn| - 1]).value.entries, id) - LedgerSum(w.entries, id)
         == Added(txn, id) - Added(txn[..|txn| - 1], id)
  {
    var front, last := txn[..|txn| - 1], txn[|txn| - 1];
    var x := Execute(w, last).value;
    if last.InsertEntry? {
      SumOneMore(w.entries, last.entry, id);
      assert x.entries == w.entries + [last.entry];
    } else {
      assert x.entries == w.entries && Added(txn, id) == Added(front, id);
    }
  }

  lemma FollowedAccount(txn: seq<Statement>, standing: Option<Account>, w: Work, id: nat)
    requires txn != [] && Execute(w, txn[|txn| - 1]).Some?
    requires id in w.accounts <==> Opening(txn[..|txn| - 1], id, standing).Some?
    requires id in w.accounts ==> w.accounts[id].initial == InitialAfter(txn[..|txn| - 1], id, standing)
    requires id in w.accounts ==> w.accounts[id].balance == BalanceAfter(txn[..|txn| - 1], id, standing)
    ensures var s, after := txn[|txn| - 1], Execute(w, txn[|txn| - 1]).value.accounts;
      && (id in after <==> Opening(txn, id, standing).Some?)
      && (id in after ==> after[id].initial == InitialAfter(txn, id, standing))
      && (id in after ==> after[id].balance == BalanceAfter(txn, id, standing))
      && (id in after && !(s.UpdateBalance? && s.id == id) ==>
            after[id].balance
            == if id in w.accounts then w.accounts[id].balance else Opening(txn, id, standing).value.balance)
  {
  }

  lemma {:induction false} FollowedAll(start: Work, txn: seq<Statement>, id: nat)
    requires start.queue == [] && ExecuteAll(start, txn).Some?
    ensures Followed(start, txn, ExecuteAll(start, txn).value, id)
  {
    if txn != [] {
      FollowedAll(start, txn[..|txn| - 1], id);
      FollowedStep(start, txn, ExecuteAll(start, txn[..|txn| - 1]).value, id);
    }
  }

  /**
   The exact condition: after a commit an account is balanced if and only if the transaction sets
   its balance, or its balance fits the initial balance and entries the statements leave.
   */
  lemma CommitKeeps(start: Work, txn: seq<Statement>, id: nat)
    requires start.queue == [] && ExecuteAll(start, txn).Some?
    requires QueueCurrent(ExecuteAll(start, txn).value) && UpdatedBalanced(ExecuteAll(start, txn).value)
    requires id in ExecuteAll(start, txn).value.accounts
    ensures var w := ExecuteAll(start, txn).value;
      Balanced(w.accounts, w.entries, id) <==> Keeps(start.accounts, start.entries, txn, id)
  {
    FollowedAll(start, txn, id);
  }

  // ---- which transactions commit --------------------------------------------------------

  /** Statement i raises: it touches entries, or inserts an account that stands, or an entry of one that does not. */
  predicate Raises(accounts: map<nat, Account>, txn: seq<Statement>, i: nat)
    requires i < |txn|
  {
    match txn[i]
    case TouchEntries(rows) => rows > 0
    case InsertAccount(id, _) => Opening(txn[..i], id, Standing(accounts, id)).Some?
    case InsertEntry(e) => Opening(txn[..i], e.account, Standing(accounts, e.account)).None?
    case UpdateBalance(_, _) => false
    case UpdateInitial(_, _) => false
  }

  /** A transaction fails exactly when one of its statements raises. */
  lemma {:induction false} FailsExactly(start: Work, txn: seq<Statement>)
    requires start.queue == []
    ensures ExecuteAll(start, txn) == None <==> exists i :: 0 <= i < |txn| && Raises(start.accounts, txn, i)
  {
    if txn != [] {
      var front, last := txn[..|txn| - 1], |txn| - 1;
      FailsExactly(start, front);
      forall i | 0 <= i < last ensures Raises(start.accounts, txn, i) <==> Raises(start.accounts, front, i) {
        assert txn[..i] == front[..i];
      }
      if ExecuteAll(start, front).Some? {
        LastFails(start, txn);
      } else {
        var i :| 0 <= i < last && Raises(start.accounts, front, i);
        assert Raises(start.accounts, txn, i);
      }
    }
  }

  lemma LastFails(start: Work, txn: seq<Statement>)
    requires start.queue == [] && txn != [] && ExecuteAll(start, txn[..|txn| - 1]).Some?
    ensures Execute(ExecuteAll(start, txn[..|txn| - 1]).value, txn[|txn| - 1]) == None
            <==> Raises(start.accounts, txn, |txn| - 1)
  {
    match txn[|txn| - 1]
    case InsertAccount(id, _) => FollowedAll(start, txn[..|txn| - 1], id);
    case InsertEntry(e) => FollowedAll(start, txn[..|txn| - 1], e.account);
    case _ =>
  }

  /** The equation as the check computes it, read off the statements. */
  predicate Fits(b: Books, txn: seq<Statement>, id: nat) {
    var standing := Standing(b.accounts, id);
    var sum := LedgerSum(b.entries, id) + Added(txn, id);
    var expected := InitialAfter(txn, id, standing) + sum;
    && -1000000000000 < sum < 1000000000000 && -1000000000000 < expected < 1000000000000
    && expected - 1 <= BalanceAfter(txn, id, standing) <= expected + 1
  }

  /** No statement raises, and every balance that is set fits in the end. */
  ghost predicate Allowed(b: Books, txn: seq<Statement>) {
    && (forall i :: 0 <= i < |txn| ==> !Raises(b.accounts, txn, i))
    && (forall id :: Sets(txn, id, Standing(b.accounts, id)) ==> Fits(b, txn, id))
  }

  /** Whether a transaction commits, read off its statements. */
  lemma CommitsExactly(b: Books, txn: seq<Statement>)
    requires forall i :: 0 <= i < |b.entries| ==> b.entries[i].account in b.accounts
    ensures Commits(b, txn) <==> Allowed(b, txn)
  {
    var start := Work(b.accounts, b.entries, []);
    FailsExactly(start, txn);
    if ExecuteAll(start, txn).Some? {
      ExecuteAllKeeps(start, txn);
      var w := ExecuteAll(start, txn).value;
      forall id ensures Updated(w, id) <==> Sets(txn, id, Standing(b.accounts, id)) {
        FollowedAll(start, txn, id);
      }
      forall id | Updated(w, id)
        ensures Fits(b, txn, id) <==> Computable(w.accounts, w.entries, id) && Balanced(w.accounts, w.entries, id)
      {
        FollowedAll(start, txn, id);
      }
    }
  }

  // ---- careful transactions -------------------------------------------------------------

  /**
   Whoever adds a counting entry or changes an initial balance also sets the balance, somewhere in
   the transaction, and new accounts start at their initial balance or are set.
   */
  predicate Careful(accounts: map<nat, Account>, txn: seq<Statement>) {
    forall i :: 0 <= i < |txn| ==> CarefulWith(accounts, txn, txn[i])
  }

  predicate CarefulWith(accounts: map<nat, Account>, txn: seq<Statement>, s: Statement) {
    match s
    case InsertAccount(id, account) =>
      -1 <= account.balance - account.initial <= 1 || Sets(txn, id, Standing(accounts, id))
    case UpdateInitial(id, _) => Sets(txn, id, Standing(accounts, id))
    case InsertEntry(entry) =>
      entry.kind == INITIAL_DEPOSIT || Sets(txn, entry.account, Standing(accounts, entry.account))
    case _ => true
  }

  /** Statements that leave an account's equation alone. */
  ghost predicate LeftAlone(txn: seq<Statement>, id: nat, standing: Option<Account>) {
    var opening := Opening(txn, id, standing);
    && Added(txn, id) == 0
    && (standing.Some? ==> opening == standing)
    && (opening.Some? ==> InitialAfter(txn, id, standing) == opening.value.initial)
    && (standing.None? && opening.Some? ==> -1 <= opening.value.balance - opening.value.initial <= 1)
  }

  lemma {:induction false} CarefulLeavesAlone(start: Work, txn: seq<Statement>, n: nat, id: nat)
    requires n <= |txn| && Careful(start.accounts, txn) && !Sets(txn, id, Standing(start.accounts, id))
    requires start.queue == [] && ExecuteAll(start, txn[..n]).Some?
    ensures LeftAlone(txn[..n], id, Standing(start.accounts, id))
  {
    if n > 0 {
      assert txn[..n][..n - 1] == txn[..n - 1];
      CarefulLeavesAlone(start, txn, n - 1, id);
      FollowedAll(start, txn[..n - 1], id);
      assert CarefulWith(start.accounts, txn, txn[n - 1]);
    }
  }

  /** A careful transaction keeps every account of a balanced ledger balanced. */
  lemma CarefulKeeps(b: Books, txn: seq<Statement>)
    requires Careful(b.accounts, txn) && Commits(b, txn)
    requires forall i :: 0 <= i < |b.entries| ==> b.entries[i].account in b.accounts
    requires forall id :: id in b.accounts ==> Balanced(b.accounts, b.entries, id)
    ensures KeepsAll(b, txn)
  {
    var start := Work(b.accounts, b.entries, []);
    assert txn[..|txn|] == txn;
    forall id | id in AfterOne(b, txn).accounts ensures Keeps(b.accounts, b.entries, txn, id) {
      FollowedAll(start, txn, id);
      if !Sets(txn, id, Standing(b.accounts, id)) {
        CarefulLeavesAlone(start, txn, |txn|, id);
        if id !in b.accounts {
          NoEntriesNoSum(b.entries, id);
        }
      }
    }
  }

  /** Foreign key and equation hold for all accounts. */
  ghost predicate InBalance(b: Books) {
    && (forall i :: 0 <= i < |b.entries| ==> b.entries[i].account in b.accounts)
    && (forall id :: id in b.accounts ==> Balanced(b.accounts, b.entries, id))
  }

  /** A history of careful transactions keeps a balanced ledger balanced. */
  lemma {:induction false} CarefulHistory(b: Books, history: seq<seq<Statement>>)
    requires InBalance(b)
    requires forall i :: 0 <= i < |history| ==> Careful(After(b, history[..i]).accounts, history[i])
    ensures InBalance(After(b, history)) && BalancedAfter(b, history)
  {
    if history != [] {
      var front, last := history[..|history| - 1], history[|history| - 1];
      forall i | 0 <= i < |front| ensures history[..i] == front[..i] {
      }
      CarefulHistory(b, front);
      CarefulOne(After(b, front), last);
    }
  }

  lemma CarefulOne(b: Books, txn: seq<Statement>)
    requires InBalance(b) && Careful(b.accounts, txn)
    ensures InBalance(AfterOne(b, txn)) && (Commits(b, txn) ==> KeepsAll(b, txn))
  {
    if Commits(b, txn) {
      var start := Work(b.accounts, b.entries, []);
      CarefulKeeps(b, txn);
      ExecuteAllKeeps(start, txn);
      forall id | id in AfterOne(b, txn).accounts
        ensures Balanced(AfterOne(b, txn).accounts, AfterOne(b, txn).entries, id)
      {
        CommitKeeps(start, txn, id);
      }
    }
  }

  /** Without care: a lone entry fires no trigger, commits, and leaves the equation broken. */
  lemma LoneEntryBreaksBalance()
    ensures var start := Work(map[1 := Account(10000, 10000)], [], []);
      var txn := [InsertEntry(Entry(1, "BET_PLACED", -2500))];
      var w := ExecuteAll(start, txn);
      && Balanced(start.accounts, start.entries, 1)
      && w.Some? && QueueCurrent(w.value) && UpdatedBalanced(w.value) && !Balanced(w.value.accounts, w.value.entries, 1)
  {
    var start := Work(map[1 := Account(10000, 10000)], [], []);
    var e := Entry(1, "BET_PLACED", -2500);
    assert [InsertEntry(e)][..0] == [];
    SumOneMore([], e, 1);
    assert [] + [e] == [e];
  }
}
