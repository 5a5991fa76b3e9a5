/**
 * The free-tier ledger: the guarded append of one submitted entry, the
 * remembered category per type, and the bound the guards keep.
 */
module Budget {
  import opened Dates
  import opened Categories
  import opened Entries
  import opened Summaries

  /** Entry cap of the free tier. */
  const MaxEntriesFree: nat := 20

  /** Why a submitted entry is turned away. */
  datatype Rejection =
    | NonPositiveAmount    // the amount is zero or negative
    | EntryLimitReached    // the ledger already holds MaxEntriesFree rows
    | OutsideCurrentMonth  // the entry's month or year differs from today's

  datatype AddOutcome = Added | Rejected(reason: Rejection)

  /** Whether the check that reports `check` fails on a ledger of `count` rows. */
  predicate Fails(check: Rejection, count: nat, entry: Transaction, today: Date) {
    match check
    case NonPositiveAmount => entry.amount <= 0
    case EntryLimitReached => count >= MaxEntriesFree
    case OutsideCurrentMonth => !SameMonth(entry.date, today)
  }

  /** The order in which the checks run. */
  const CheckOrder: seq<Rejection> := [NonPositiveAmount, EntryLimitReached, OutsideCurrentMonth]

  /** Reference semantics of a guard list: the first check in `checks` that fails, if any. */
  function FirstFailure(checks: seq<Rejection>, count: nat, entry: Transaction, today: Date): (r: AddOutcome)
    ensures r.Rejected? ==> r.reason in checks && Fails(r.reason, count, entry, today)
  {
    if checks == [] then Added
    else if Fails(checks[0], count, entry, today) then Rejected(checks[0])
    else FirstFailure(checks[1..], count, entry, today)
  }

  /** A guard list rejects with `k` exactly when `k` fails and every check before it passes. */
  lemma {:induction false} FirstFailureIsFirst(checks: seq<Rejection>, count: nat, entry: Transaction, today: Date, n: nat)
    requires n < |checks|
    ensures FirstFailure(checks, count, entry, today) == Rejected(checks[n])
        <== Fails(checks[n], count, entry, today) && forall j :: 0 <= j < n ==> !Fails(checks[j], count, entry, today)
  {
    if n > 0 && !Fails(checks[0], count, entry, today) {
      FirstFailureIsFirst(checks[1..], count, entry, today, n - 1);
    }
  }

  /** A guard list accepts exactly when no check in it fails. */
  lemma {:induction false} FirstFailureAccepts(checks: seq<Rejection>, count: nat, entry: Transaction, today: Date)
    ensures FirstFailure(checks, count, entry, today) == Added
        <==> forall j :: 0 <= j < |checks| ==> !Fails(checks[j], count, entry, today)
  {
    if checks != [] {
      FirstFailureAccepts(checks[1..], count, entry, today);
      assert forall j :: 1 <= j < |checks| ==> checks[j] == checks[1..][j - 1];
    }
  }

  /** The if/elif chain run on submit against a ledger of `count` rows. */
  function Check(count: nat, entry: Transaction, today: Date): (r: AddOutcome)
    ensures r == Added <==> entry.amount > 0 && count < MaxEntriesFree && SameMonth(entry.date, today)
  {
    if entry.amount <= 0 then Rejected(NonPositiveAmount)
    else if count >= MaxEntriesFree then Rejected(EntryLimitReached)
    else if entry.date.month != today.month || entry.date.year != today.year then Rejected(OutsideCurrentMonth)
    else Added
  }

  /** The chain reports the first failing check in CheckOrder: the amount, then the count, then the date. */
  lemma CheckIsFirstFailure(count: nat, entry: Transaction, today: Date)
    ensures Check(count, entry, today) == FirstFailure(CheckOrder, count, entry, today)
  {
    var rest := CheckOrder[1..];
    assert rest == [EntryLimitReached, OutsideCurrentMonth];
    assert rest[1..] == [OutsideCurrentMonth];
    assert rest[1..][1..] == [];
    assert FirstFailure(rest[1..], count, entry, today)
        == if Fails(OutsideCurrentMonth, count, entry, today) then Rejected(OutsideCurrentMonth) else Added;
    assert FirstFailure(rest, count, entry, today)
        == if Fails(EntryLimitReached, count, entry, today) then Rejected(EntryLimitReached)
           else FirstFailure(rest[1..], count, entry, today);
  }

  /** The session state the append touches: the stored rows and the last category used per type. */
  datatype State = State(rows: seq<Transaction>, lastCategories: map<TxType, Category>)

  /** A fresh session. */
  const Empty: State := State([], map[])

  /** The state after one submission: the row and its category are recorded only when every check passes. */
  function Apply(s: State, entry: Transaction, today: Date): (r: State)
    ensures r == s <==> Check(|s.rows|, entry, today).Rejected?
    ensures |r.rows| == |s.rows| + (if Check(|s.rows|, entry, today) == Added then 1 else 0)
    ensures r.rows[..|s.rows|] == s.rows
  {
    assert (s.rows + [entry])[..|s.rows|] == s.rows;
    if Check(|s.rows|, entry, today) == Added
    then State(s.rows + [entry], s.lastCategories[entry.kind := entry.category])
    else s
  }

  /** A rejected submission changes neither the rows nor the remembered categories. */
  lemma RejectedChangesNothing(s: State, entry: Transaction, today: Date)
    requires Check(|s.rows|, entry, today).Rejected?
    ensures Apply(s, entry, today).rows == s.rows
    ensures Apply(s, entry, today).lastCategories == s.lastCategories
  {
  }

  /**
   * An accepted submission adds exactly one row, at the end, equal to the
   * entry, keeps the earlier rows in order, and remembers the category for
   * the entry's type only.
   */
  lemma AcceptedAppendsOne(s: State, entry: Transaction, today: Date)
    requires Check(|s.rows|, entry, today) == Added
    ensures |Apply(s, entry, today).rows| == |s.rows| + 1
    ensures Apply(s, entry, today).rows[|s.rows|] == entry
    ensures Apply(s, entry, today).rows[..|s.rows|] == s.rows
    ensures Apply(s, entry, today).lastCategories[entry.kind] == entry.category
    ensures forall t :: t != entry.kind ==>
      (t in Apply(s, entry, today).lastCategories <==> t in s.lastCategories)
      && (t in s.lastCategories ==> Apply(s, entry, today).lastCategories[t] == s.lastCategories[t])
  {
    assert (s.rows + [entry])[..|s.rows|] == s.rows;
  }

  /** After an accepted entry with an allowed category, the form pre-selects that category for its type and no other default moves. */
  lemma DefaultAfterAccepted(s: State, entry: Transaction, today: Date, t: TxType)
    requires Check(|s.rows|, entry, today) == Added
    requires entry.category in CategoriesFor(entry.kind)
    ensures DefaultCategory(Apply(s, entry, today).lastCategories, entry.kind) == entry.category
    ensures t != entry.kind ==>
      DefaultCategory(Apply(s, entry, today).lastCategories, t) == DefaultCategory(s.lastCategories, t)
  {
    DefaultCategoryRemembers(s.lastCategories, entry.kind, entry.category);
    if t != entry.kind {
      DefaultCategoryIndependent(s.lastCategories, entry.kind, entry.category, t);
    }
  }

  /** What the guards keep true of every reachable session. */
  ghost predicate Inv(s: State) {
    |s.rows| <= MaxEntriesFree && AllPositive(s.rows)
  }

  lemma ApplyPreservesInv(s: State, entry: Transaction, today: Date)
    requires Inv(s)
    ensures Inv(Apply(s, entry, today))
  {
  }

  /** One press of the submit button: the entry and the date the clock gave at that moment. */
  datatype Submission = Submission(entry: Transaction, today: Date)

  /**
   * The session after a sequence of submissions, starting from a fresh
   * session: however many entries are submitted, it never exceeds the cap
   * and holds only positive amounts.
   */
  function Replay(subs: seq<Submission>): (r: State)
    ensures Inv(r)
    ensures |r.rows| <= |subs|
    decreases |subs|
  {
    if subs == [] then Empty
    else
      var last := subs[|subs| - 1];
      var before := Replay(subs[..|subs| - 1]);
      ApplyPreservesInv(before, last.entry, last.today);
      Apply(before, last.entry, last.today)
  }

  /** Every stored row was submitted with a date in the month and year of "today" at its submission. */
  lemma {:induction false} ReplayRowsInMonth(subs: seq<Submission>)
    ensures forall i :: 0 <= i < |Replay(subs).rows| ==>
      exists j :: (0 <= j < |subs| && subs[j].entry == Replay(subs).rows[i]
                   && SameMonth(subs[j].entry.date, subs[j].today))
    decreases |subs|
  {
    if subs != [] {
      var n := |subs| - 1;
      var prefix := subs[..n];
      var before := Replay(prefix);
      ReplayRowsInMonth(prefix);
      var after := Replay(subs);
      assert after == Apply(before, subs[n].entry, subs[n].today);
      forall i | 0 <= i < |after.rows|
        ensures exists j :: (0 <= j < |subs| && subs[j].entry == after.rows[i]
                             && SameMonth(subs[j].entry.date, subs[j].today))
      {
        if i < |before.rows| {
          assert after.rows[i] == before.rows[i];
          var j :| 0 <= j < |prefix| && prefix[j].entry == before.rows[i]
            && SameMonth(prefix[j].entry.date, prefix[j].today);
          assert subs[j] == prefix[j];
          assert 0 <= j < |subs| && subs[j].entry == after.rows[i] && SameMonth(subs[j].entry.date, subs[j].today);
        } else {
          assert Check(|before.rows|, subs[n].entry, subs[n].today) == Added;
          assert after.rows[i] == subs[n].entry;
          assert SameMonth(subs[n].entry.date, subs[n].today);
        }
      }
    } else {
      assert Replay(subs).rows == [];
    }
  }

  /** An accepted entry raises the total of its own type by its amount and leaves the other totals alone. */
  lemma TotalsAfterAccepted(s: State, entry: Transaction, today: Date, t: TxType)
    requires Check(|s.rows|, entry, today) == Added
    ensures Total(Apply(s, entry, today).rows, t)
         == Total(s.rows, t) + (if entry.kind == t then entry.amount else 0)
  {
    TotalAfterAppend(s.rows, entry, t);
  }

  /** In any reachable session the three type totals are non-negative and add up to the whole Amount column. */
  lemma ReplayTotals(subs: seq<Submission>)
    ensures Total(Replay(subs).rows, Income) >= 0
    ensures Total(Replay(subs).rows, Expense) >= 0
    ensures Total(Replay(subs).rows, Saving) >= 0
    ensures Total(Replay(subs).rows, Income) + Total(Replay(subs).rows, Expense) + Total(Replay(subs).rows, Saving)
         == SumAmounts(Replay(subs).rows)
  {
    var rows := Replay(subs).rows;
    TotalSign(rows, Income);
    TotalSign(rows, Expense);
    TotalSign(rows, Saving);
    TotalsPartition(rows);
  }

  /**
   * The session's ledger. `insertedOn` records, for each stored row, the
   * "today" of the submission that stored it.
   */
  class Ledger {
    var transactions: seq<Transaction>
    var lastCategories: map<TxType, Category>
    ghost var insertedOn: seq<Date>

    ghost predicate Valid()
      reads this
    {
      && Inv(State(transactions, lastCategories))
      && |insertedOn| == |transactions|
      && forall i :: 0 <= i < |transactions| ==> SameMonth(transactions[i].date, insertedOn[i])
    }

    /** The state as a value. */
    function Current(): State
      reads this
    {
      State(transactions, lastCategories)
    }

    /** A new session starts with no rows and no remembered categories. */
    constructor ()
      ensures Valid()
      ensures Current() == Empty && insertedOn == []
    {
      transactions := [];
      lastCategories := map[];
      insertedOn := [];
    }

    /** Submits `entry` on the day `today`. */
    method Add(entry: Transaction, today: Date) returns (outcome: AddOutcome)
      requires Valid()
      modifies this
      ensures Valid()
      ensures outcome == Check(old(|transactions|), entry, today)
      ensures Current() == Apply(old(Current()), entry, today)
      ensures insertedOn == if outcome == Added then old(insertedOn) + [today] else old(insertedOn)
    {
      if entry.amount <= 0 {
        outcome := Rejected(NonPositiveAmount);
      } else if |transactions| >= MaxEntriesFree {
        outcome := Rejected(EntryLimitReached);
      } else if entry.date.month != today.month || entry.date.year != today.year {
        outcome := Rejected(OutsideCurrentMonth);
      } else {
        transactions := transactions + [entry];
        lastCategories := lastCategories[entry.kind := entry.category];
        insertedOn := insertedOn + [today];
        outcome := Added;
      }
    }
  }
}
