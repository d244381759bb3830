// The table of attendance period locks: one row per month and branch, kept when
// it is unlocked.

module Locks {
  import opened Common
  import opened Calendar

  // branch None is a company-wide lock. The partial unique indexes make this a key.
  datatype LockKey = LockKey(month: Month, branch: Option<int>)

  // true while the row's status is 'locked', false once it is 'unlocked'.
  type LockTable = map<LockKey, bool>

  datatype LockError = BranchRequired | BranchNotFound | DateOverflow | AlreadyLocked | RowRefused

  predicate RowLocked(t: LockTable, key: LockKey) {
    key in t && t[key]
  }

  // A company lock covers every branch; a branch lock only that branch.
  predicate IsLocked(t: LockTable, m: Month, branch: Option<int>) {
    RowLocked(t, LockKey(m, None)) || (branch.Some? && RowLocked(t, LockKey(m, branch)))
  }

  // What the database accepts as a new row: unused key, year in range, known branch.
  predicate Accepts(t: LockTable, key: LockKey, branches: set<int>) {
    && key !in t
    && 1900 <= YearOf(key.month) <= 2100
    && (key.branch.Some? ==> key.branch.value in branches)
  }

  function CreateAll(t: LockTable, months: seq<Month>, branch: Option<int>, branches: set<int>): Option<LockTable>
    decreases |months|
  {
    if months == [] then Some(t)
    else if !Accepts(t, LockKey(months[0], branch), branches) then None
    else CreateAll(t[LockKey(months[0], branch) := true], months[1..], branch, branches)
  }

  // Whether the lock is checked against a branch depends on branch_id alone; the
  // scope only decides whether branch_id is validated.
  function LockPeriod(t: LockTable, branchScope: bool, branch: Option<int>, start: int, end: int, branches: set<int>)
    : Outcome<LockTable, LockError>
    requires start >= 1
  {
    if branchScope && branch.None? then Refused(BranchRequired)
    else if branchScope && branch.value !in branches then Refused(BranchNotFound)
    else match MonthCover(start, end)
      case None => Refused(DateOverflow)
      case Some(months) =>
        if exists i :: 0 <= i < |months| && IsLocked(t, months[i], branch) then Refused(AlreadyLocked)
        else match CreateAll(t, months, branch, branches)
          case None => Refused(RowRefused)
          case Some(t') => Done(t')
  }

  function Unlock(t: LockTable, key: LockKey): LockTable {
    if RowLocked(t, key) then t[key := false] else t
  }

  function UnlockAll(t: LockTable, months: seq<Month>, branch: Option<int>): LockTable
    decreases |months|
  {
    if months == [] then t else UnlockAll(Unlock(t, LockKey(months[0], branch)), months[1..], branch)
  }

  function UnlockPeriod(t: LockTable, branchScope: bool, branch: Option<int>, start: int, end: int, branches: set<int>)
    : Outcome<LockTable, LockError>
    requires start >= 1
  {
    if branchScope && branch.None? then Refused(BranchRequired)
    else if branchScope && branch.value !in branches then Refused(BranchNotFound)
    else match MonthCover(start, end)
      case None => Refused(DateOverflow)
      case Some(months) => Done(UnlockAll(t, months, branch))
  }

  predicate InPeriod(m: Month, start: int, end: int)
    requires start >= 1
  {
    start <= end && MonthOf(start) <= m <= MonthOf(end)
  }

  ghost predicate Distinct(ms: seq<Month>) {
    forall i, j :: 0 <= i < j < |ms| ==> ms[i] != ms[j]
  }

  lemma {:induction false} CreateAllExact(t: LockTable, months: seq<Month>, branch: Option<int>, branches: set<int>)
    requires Distinct(months)
    ensures CreateAll(t, months, branch, branches).Some? <==>
            forall i :: 0 <= i < |months| ==> Accepts(t, LockKey(months[i], branch), branches)
    ensures CreateAll(t, months, branch, branches).Some? ==>
            var t' := CreateAll(t, months, branch, branches).value;
            && (forall k :: k in t' <==> k in t || (k.branch == branch && k.month in months))
            && (forall k :: k in t' ==> t'[k] == (if k.branch == branch && k.month in months then true else t[k]))
    decreases |months|
  {
    if months != [] {
      var t1 := t[LockKey(months[0], branch) := true];
      CreateAllExact(t1, months[1..], branch, branches);
      assert forall i :: 0 < i < |months| ==> months[i] == months[1..][i - 1];
      assert forall i :: 0 < i < |months| ==>
        (Accepts(t1, LockKey(months[i], branch), branches) <==> Accepts(t, LockKey(months[i], branch), branches));
    }
  }

  lemma {:induction false} UnlockAllExact(t: LockTable, months: seq<Month>, branch: Option<int>)
    ensures var t' := UnlockAll(t, months, branch);
            && t'.Keys == t.Keys
            && (forall k :: k in t ==> t'[k] == (t[k] && !(k.branch == branch && k.month in months)))
    decreases |months|
  {
    if months != [] {
      UnlockAllExact(Unlock(t, LockKey(months[0], branch)), months[1..], branch);
    }
  }

  lemma CoverIsPeriod(start: int, end: int)
    requires start >= 1 && MonthCover(start, end).Some?
    ensures var ms := MonthCover(start, end).value;
            Distinct(ms) && forall m :: m in ms <==> InPeriod(m, start, end)
  {
    var ms := MonthCover(start, end).value;
    forall m: Month | InPeriod(m, start, end)
      ensures m in ms
    {
      assert ms[m - MonthOf(start)] == m;
    }
  }

  lemma AllAccepted(t: LockTable, branch: Option<int>, start: int, end: int, branches: set<int>)
    requires 1 <= start <= end && MonthCover(start, end).Some?
    ensures var ms := MonthCover(start, end).value;
            (forall i :: 0 <= i < |ms| ==> Accepts(t, LockKey(ms[i], branch), branches)) <==>
            (forall m: Month :: InPeriod(m, start, end) ==> Accepts(t, LockKey(m, branch), branches))
  {
    CoverIsPeriod(start, end);
    var ms := MonthCover(start, end).value;
    if forall i :: 0 <= i < |ms| ==> Accepts(t, LockKey(ms[i], branch), branches) {
      forall m: Month | InPeriod(m, start, end)
        ensures Accepts(t, LockKey(m, branch), branches)
      {
        assert m in ms;
      }
    }
    assert forall i :: 0 <= i < |ms| ==> ms[i] in ms;
  }

  lemma SomeLocked(t: LockTable, branch: Option<int>, start: int, end: int)
    requires 1 <= start <= end && MonthCover(start, end).Some?
    ensures var ms := MonthCover(start, end).value;
            (exists i :: 0 <= i < |ms| && IsLocked(t, ms[i], branch)) <==>
            (exists m: Month :: InPeriod(m, start, end) && IsLocked(t, m, branch))
  {
    CoverIsPeriod(start, end);
    var ms := MonthCover(start, end).value;
    if m: Month :| InPeriod(m, start, end) && IsLocked(t, m, branch) {
      assert m in ms;
    }
    if i :| 0 <= i < |ms| && IsLocked(t, ms[i], branch) {
      assert ms[i] in ms;
    }
  }

  // Valid arguments, and every month of the period free: not covered by a lock,
  // and its row acceptable, so in particular never locked before for this key.
  ghost predicate Lockable(t: LockTable, branchScope: bool, branch: Option<int>, start: int, end: int, branches: set<int>)
    requires start >= 1
  {
    && (branchScope ==> branch.Some? && branch.value in branches)
    && forall m: Month :: InPeriod(m, start, end) ==> Accepts(t, LockKey(m, branch), branches) && !IsLocked(t, m, branch)
  }

  lemma LastYearUnlockable(t: LockTable, branch: Option<int>, start: int, end: int, branches: set<int>)
    requires 1 <= start <= end && MonthCover(start, end).None?
    ensures InPeriod(MonthOf(end), start, end) && !Accepts(t, LockKey(MonthOf(end), branch), branches)
  {
    MonthOfMonotone(start, end);
  }

  // Locking succeeds exactly on a lockable period.
  lemma LockSucceedsExactly(t: LockTable, branchScope: bool, branch: Option<int>, start: int, end: int, branches: set<int>)
    requires 1 <= start <= end
    ensures LockPeriod(t, branchScope, branch, start, end, branches).Done?
            <==> Lockable(t, branchScope, branch, start, end, branches)
  {
    if MonthCover(start, end).Some? {
      CoverIsPeriod(start, end);
      CreateAllExact(t, MonthCover(start, end).value, branch, branches);
      AllAccepted(t, branch, start, end, branches);
      SomeLocked(t, branch, start, end);
    } else {
      LastYearUnlockable(t, branch, start, end, branches);
    }
  }

  // A successful lock adds the rows of all months of the period and changes no
  // other row; a refused one adds none.
  lemma LockExact(t: LockTable, branchScope: bool, branch: Option<int>, start: int, end: int, branches: set<int>)
    requires 1 <= start <= end
    requires LockPeriod(t, branchScope, branch, start, end, branches).Done?
    ensures var t' := LockPeriod(t, branchScope, branch, start, end, branches).state;
            && (forall k :: k in t' <==> k in t || (k.branch == branch && InPeriod(k.month, start, end)))
            && (forall k :: k in t' ==> t'[k] == (if k.branch == branch && InPeriod(k.month, start, end) then true else t[k]))
  {
    CoverIsPeriod(start, end);
    CreateAllExact(t, MonthCover(start, end).value, branch, branches);
  }

  // After a successful lock exactly the asked months and branches are covered in
  // addition.
  lemma LockCovers(t: LockTable, branchScope: bool, branch: Option<int>, start: int, end: int, branches: set<int>, m: Month, b: Option<int>)
    requires 1 <= start <= end
    requires LockPeriod(t, branchScope, branch, start, end, branches).Done?
    ensures var t' := LockPeriod(t, branchScope, branch, start, end, branches).state;
            IsLocked(t', m, b) <==> IsLocked(t, m, b) || (InPeriod(m, start, end) && (branch.None? || branch == b))
  {
    LockExact(t, branchScope, branch, start, end, branches);
  }

  // Locking and then unlocking the same scope and period restores the lock state
  // of every month and branch.
  lemma LockUnlockRestores(t: LockTable, branchScope: bool, branch: Option<int>, start: int, end: int, branches: set<int>)
    requires 1 <= start <= end
    requires LockPeriod(t, branchScope, branch, start, end, branches).Done?
    ensures var t1 := LockPeriod(t, branchScope, branch, start, end, branches).state;
            var r := UnlockPeriod(t1, branchScope, branch, start, end, branches);
            r.Done? && forall m, b :: IsLocked(r.state, m, b) <==> IsLocked(t, m, b)
  {
    LockExact(t, branchScope, branch, start, end, branches);
    CoverIsPeriod(start, end);
    var t1 := LockPeriod(t, branchScope, branch, start, end, branches).state;
    UnlockAllExact(t1, MonthCover(start, end).value, branch);
    var t2 := UnlockPeriod(t1, branchScope, branch, start, end, branches).state;
    forall k: LockKey
      ensures RowLocked(t2, k) <==> RowLocked(t, k)
    {
    }
  }

  // An unlock goes through exactly for a valid scope and a period that ends before
  // December 9999; it unlocks the rows of this branch and these months and keeps all
  // rows in the table.
  lemma UnlockExact(t: LockTable, branchScope: bool, branch: Option<int>, start: int, end: int, branches: set<int>)
    requires 1 <= start <= end
    ensures var r := UnlockPeriod(t, branchScope, branch, start, end, branches);
            && (r.Done? <==> (branchScope ==> branch.Some? && branch.value in branches) && MonthOf(end) < LAST_MONTH)
            && (r.Done? ==> r.state.Keys == t.Keys
                            && forall k :: k in t ==> r.state[k] == (t[k] && !(k.branch == branch && InPeriod(k.month, start, end))))
  {
    if MonthCover(start, end).Some? {
      CoverIsPeriod(start, end);
      UnlockAllExact(t, MonthCover(start, end).value, branch);
    }
  }

  // The round trip is not repeatable: the unlocked rows stay, and a second lock of
  // any period that meets the first is refused.
  lemma RelockRefused(t: LockTable, branchScope: bool, branch: Option<int>, start: int, end: int, branches: set<int>,
                      start2: int, end2: int, m: Month)
    requires 1 <= start <= end && 1 <= start2 <= end2
    requires LockPeriod(t, branchScope, branch, start, end, branches).Done?
    requires InPeriod(m, start, end) && InPeriod(m, start2, end2)
    ensures var t1 := LockPeriod(t, branchScope, branch, start, end, branches).state;
            var t2 := UnlockPeriod(t1, branchScope, branch, start, end, branches).state;
            LockPeriod(t2, branchScope, branch, start2, end2, branches).Refused?
  {
    LockExact(t, branchScope, branch, start, end, branches);
    var t1 := LockPeriod(t, branchScope, branch, start, end, branches).state;
    UnlockAllExact(t1, MonthCover(start, end).value, branch);
    var t2 := UnlockPeriod(t1, branchScope, branch, start, end, branches).state;
    assert LockKey(m, branch) in t2;
    LockSucceedsExactly(t2, branchScope, branch, start2, end2, branches);
  }
}
