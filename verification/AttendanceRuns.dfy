// Whole runs of the attendance operations: the summary agrees with the ledger,
// locks hold, finalisation is absorbing and generation adds each row once.

module AttendanceRuns {
  import opened Common
  import opened Timeline
  import opened Sessions
  import opened Ledger
  import opened DayRow
  import opened Calendar
  import opened Locks
  import opened AttendanceStore

  datatype Step =
    | Mark(key: Key, status: Status, leave: bool, shiftKnown: bool)
    | Manual(clk: Clock, key: Key, inTime: Time, outTime: Time)
    | OverrideDay(key: Key, updates: Updates, shiftKnown: bool)
    | Punched(clk: Clock, key: Key, stamp: Stamp)
    | Posted(clk: Clock, serial: string, records: seq<Record>)
    | Generated(from: Date, to: Date, branch: Option<int>, dept: Option<int>, ids: set<EmpId>)
    | Finalized(clk: Clock, target: Option<Date>, reached: set<Key>)
    | Rescheduled(clk: Clock, key: Key)
    | Corrected(clk: Clock, key: Key, inMinute: int, outMinute: int)
    | LockMonths(branchScope: bool, branch: Option<int>, start: nat, end: nat)
    | UnlockMonths(branchScope: bool, branch: Option<int>, start: nat, end: nat)

  function Kept(st: Store, r: Outcome<Store, Error>): Store {
    if r.Done? then r.state else st
  }

  function KeptLocks(st: Store, r: Outcome<LockTable, LockError>): Store {
    if r.Done? then st.(locks := r.state) else st
  }

  // One call of the service, successful or not.
  function Apply(cfg: Config, st: Store, s: Step): Store {
    match s
    case Mark(k, status, leave, known) => Kept(st, MarkDay(cfg, st, k, status, leave, known))
    case Manual(clk, k, i, o) => Kept(st, CreateManual(cfg, clk, st, k, i, o))
    case OverrideDay(k, u, known) => Kept(st, Override(cfg, st, k, u, known))
    case Punched(clk, k, p) => Kept(st, AddPunch(cfg, clk, st, k, p))
    case Posted(clk, serial, rs) => Post(cfg, clk, st, serial, rs)
    case Generated(from, to, b, d, ids) => Generate(cfg, st, from, to, b, d, ids)
    case Finalized(clk, target, reached) => FinalizeRun(cfg, clk, st, target, reached)
    case Rescheduled(clk, k) => Kept(st, Reschedule(cfg, clk, st, k))
    case Corrected(clk, k, i, o) => Kept(st, Correct(cfg, clk, st, k, i, o))
    case LockMonths(scope, b, start, end) =>
      if start == 0 then st else KeptLocks(st, LockPeriod(st.locks, scope, b, start, end, cfg.branches))
    case UnlockMonths(scope, b, start, end) =>
      if start == 0 then st else KeptLocks(st, UnlockPeriod(st.locks, scope, b, start, end, cfg.branches))
  }

  function Run(cfg: Config, st: Store, steps: seq<Step>): Store {
    if steps == [] then st else Apply(cfg, Run(cfg, st, steps[..|steps| - 1]), steps[|steps| - 1])
  }

  // --- The summary agrees with the ledger ---

  // First and last punch are both unset, or the earliest and latest valid punch.
  ghost predicate EndsAgree(row: Row, ledger: seq<Punch>) {
    && (row.firstIn.None? <==> row.lastOut.None?)
    && (row.firstIn.None? <==> forall p :: p in ledger ==> !p.valid)
    && (row.firstIn.Some? ==>
          && (forall p :: p in ledger && p.valid ==> row.firstIn.value <= p.stamp.time <= row.lastOut.value)
          && (exists p :: p in ledger && p.valid && p.stamp.time == row.firstIn.value)
          && (exists p :: p in ledger && p.valid && p.stamp.time == row.lastOut.value))
  }

  ghost predicate DayOk(day: Day) {
    Numbered(day.ledger) && EndsAgree(day.row, day.ledger)
  }

  ghost predicate StoreOk(st: Store) {
    forall k :: k in st.days ==> DayOk(st.days[k])
  }

  lemma RecomputedOk(cfg: Config, clk: Clock, k: Key, day: Day)
    requires Numbered(day.ledger) && Recomputed(cfg, clk, k, day).Some?
    ensures DayOk(Recomputed(cfg, clk, k, day).value)
  {
    var ps := SortedValid(day.ledger);
    var row := Recomputed(cfg, clk, k, day).value.row;
    forall p
      ensures p in ps <==> p in day.ledger && p.valid
    {
      InSortedValid(day.ledger, p);
    }
    SortedValidSorts(day.ledger);
    if ps != [] {
      assert ps[0] in ps && ps[|ps| - 1] in ps;
      forall p | p in day.ledger && p.valid
        ensures row.firstIn.value <= p.stamp.time <= row.lastOut.value
      {
        var i :| 0 <= i < |ps| && ps[i] == p;
        assert i > 0 ==> KeyLeq(ps[0], ps[i]);
        assert i < |ps| - 1 ==> KeyLeq(ps[i], ps[|ps| - 1]);
      }
    }
  }

  lemma SavedOk(cfg: Config, clk: Clock, st: Store, k: Key, day: Day)
    requires StoreOk(st) && Numbered(day.ledger)
    ensures StoreOk(Kept(st, Saved(st, k, Recomputed(cfg, clk, k, day))))
  {
    if Recomputed(cfg, clk, k, day).Some? {
      RecomputedOk(cfg, clk, k, day);
    }
  }

  lemma {:induction false} UploadsKeepOk(cfg: Config, clk: Clock, st: Store, rs: seq<Record>)
    requires StoreOk(st)
    ensures StoreOk(UploadAll(cfg, clk, st, rs))
  {
    if rs != [] {
      var before := UploadAll(cfg, clk, st, rs[..|rs| - 1]);
      UploadsKeepOk(cfg, clk, st, rs[..|rs| - 1]);
      var r := rs[|rs| - 1];
      var wanted := Wanted(cfg, before.locks, r);
      if wanted.Some? {
        var u := wanted.value;
        SavedOk(cfg, clk, before, u.key, Appended(DayFor(cfg, before.days, u.key), u.stamp));
      }
    }
  }

  lemma {:induction false} AddedRows(cfg: Config, days: Days, sel: seq<EmpId>, d: Date)
    ensures var ds := AddRows(cfg, days, sel, d);
            && (forall k :: k in ds <==> k in days || (k.date == d && k.emp in sel))
            && (forall k :: k in ds ==> ds[k] == if k in days then days[k] else GeneratedDay(cfg, k))
  {
    if sel != [] {
      AddedRows(cfg, days, sel[..|sel| - 1], d);
      assert sel == sel[..|sel| - 1] + [sel[|sel| - 1]];
      assert forall k: Key :: k == Key(k.emp, k.date);
    }
  }

  lemma {:induction false} GenerationKeepsOk(cfg: Config, st: Store, sel: seq<EmpId>, branch: Option<int>, from: Date, n: nat)
    requires StoreOk(st)
    ensures StoreOk(GeneratedFrom(cfg, st, sel, branch, from, n))
  {
    if n > 0 {
      GenerationKeepsOk(cfg, st, sel, branch, from, n - 1);
      AddedRows(cfg, GeneratedFrom(cfg, st, sel, branch, from, n - 1).days, sel, from + n - 1);
    }
  }

  lemma FinalizeKeepsOk(cfg: Config, clk: Clock, st: Store, target: Option<Date>, reached: set<Key>)
    requires StoreOk(st)
    ensures StoreOk(FinalizedPart(cfg, clk, st, target, reached))
  {
    hide Recomputed, DayOk;
    forall k | k in st.days && Recomputed(cfg, clk, k, st.days[k]).Some?
      ensures DayOk(Recomputed(cfg, clk, k, st.days[k]).value)
    {
      DayOkNumbered(st.days[k]);
      RecomputedOk(cfg, clk, k, st.days[k]);
    }
  }

  lemma DayOkNumbered(day: Day)
    requires DayOk(day)
    ensures Numbered(day.ledger)
  {
  }

  lemma RescheduleKeepsOk(cfg: Config, clk: Clock, st: Store, k: Key)
    requires StoreOk(st)
    ensures StoreOk(Kept(st, Reschedule(cfg, clk, st, k)))
  {
    hide Recomputed, Frozen;
    if k in st.days {
      SavedOk(cfg, clk, st, k, st.days[k]);
    }
  }

  lemma ManualKeepsOk(cfg: Config, clk: Clock, st: Store, k: Key, inTime: Time, outTime: Time)
    requires StoreOk(st)
    ensures StoreOk(Kept(st, CreateManual(cfg, clk, st, k, inTime, outTime)))
  {
    hide Recomputed, Frozen;
    var day := Appended(Appended(FreshDay(cfg, k, Present, true), Stamp(inTime, In)), Stamp(outTime, Out));
    assert Numbered(day.ledger);
    SavedOk(cfg, clk, st, k, day);
  }

  lemma CorrectionKeepsOk(cfg: Config, clk: Clock, st: Store, k: Key, inMinute: int, outMinute: int)
    requires StoreOk(st)
    ensures StoreOk(Kept(st, Correct(cfg, clk, st, k, inMinute, outMinute)))
  {
    hide Recomputed, Frozen;
    if k in st.days {
      var day := CorrectedDay(st.days[k], k.date, inMinute, outMinute);
      assert Numbered(day.ledger);
      SavedOk(cfg, clk, st, k, day);
    }
  }

  lemma PunchKeepsOk(cfg: Config, clk: Clock, st: Store, k: Key, p: Stamp)
    requires StoreOk(st)
    ensures StoreOk(Kept(st, AddPunch(cfg, clk, st, k, p)))
  {
    hide Recomputed, Frozen;
    SavedOk(cfg, clk, st, k, Appended(DayFor(cfg, st.days, k), p));
  }

  lemma MarkKeepsOk(cfg: Config, st: Store, k: Key, status: Status, leave: bool, shiftKnown: bool)
    requires StoreOk(st)
    ensures StoreOk(Kept(st, MarkDay(cfg, st, k, status, leave, shiftKnown)))
  {
  }

  lemma OverrideKeepsOk(cfg: Config, st: Store, k: Key, u: Updates, shiftKnown: bool)
    requires StoreOk(st)
    ensures StoreOk(Kept(st, Override(cfg, st, k, u, shiftKnown)))
  {
  }

  lemma StepKeepsOk(cfg: Config, st: Store, s: Step)
    requires StoreOk(st)
    ensures StoreOk(Apply(cfg, st, s))
  {
    hide UploadAll, FinalizedPart, Blocked, Reschedule, Correct, CreateManual, AddPunch, MarkDay, Override, LockPeriod, UnlockPeriod, GeneratedFrom;
    match s {
      case Manual(clk, k, i, o) => ManualKeepsOk(cfg, clk, st, k, i, o);
      case Punched(clk, k, p) => PunchKeepsOk(cfg, clk, st, k, p);
      case Corrected(clk, k, i, o) => CorrectionKeepsOk(cfg, clk, st, k, i, o);
      case Posted(clk, serial, rs) => UploadsKeepOk(At(cfg, serial), clk, st, rs);
      case Generated(from, to, b, d, ids) => GenerationKeepsOk(cfg, st, Selected(cfg, cfg.roster, b, d, ids), b, from, Covered(from, to));
      case Finalized(clk, target, reached) =>
        FinalizeKeepsOk(cfg, clk, st, target, if Blocked(cfg, clk, st, target) then reached else st.days.Keys);
      case Rescheduled(clk, k) => RescheduleKeepsOk(cfg, clk, st, k);
      case Mark(k, status, leave, known) => MarkKeepsOk(cfg, st, k, status, leave, known);
      case OverrideDay(k, u, known) => OverrideKeepsOk(cfg, st, k, u, known);
      case _ =>
    }
  }

  // In every state of every run, sequence numbers are 1..n and the two ends of
  // each day agree with its valid punches.
  lemma {:induction false} RunsKeepOk(cfg: Config, st: Store, steps: seq<Step>)
    requires StoreOk(st)
    ensures StoreOk(Run(cfg, st, steps))
  {
    if steps != [] {
      RunsKeepOk(cfg, st, steps[..|steps| - 1]);
      StepKeepsOk(cfg, Run(cfg, st, steps[..|steps| - 1]), steps[|steps| - 1]);
    }
  }

  // --- Locks ---

  function DayAt(st: Store, k: Key): Option<Day> {
    if k in st.days then Some(st.days[k]) else None
  }

  // Whether a step can lift the lock of a month.
  predicate Lifts(s: Step, m: Month, branch: Option<int>) {
    s.UnlockMonths? && s.branch == branch && s.start > 0 && InPeriod(m, s.start, s.end)
  }

  lemma LockStays(cfg: Config, st: Store, s: Step, m: Month, branch: Option<int>)
    requires RowLocked(st.locks, LockKey(m, branch)) && !Lifts(s, m, branch)
    ensures RowLocked(Apply(cfg, st, s).locks, LockKey(m, branch))
  {
    match s {
      case LockMonths(scope, b, start, end) =>
        if start > 0 {
          var r := LockPeriod(st.locks, scope, b, start, end, cfg.branches);
          if r.Done? {
            CoverIsPeriod(start, end);
            CreateAllExact(st.locks, MonthCover(start, end).value, b, cfg.branches);
          }
        }
      case UnlockMonths(scope, b, start, end) =>
        if start > 0 {
          var r := UnlockPeriod(st.locks, scope, b, start, end, cfg.branches);
          if r.Done? {
            CoverIsPeriod(start, end);
            UnlockAllExact(st.locks, MonthCover(start, end).value, b);
          }
        }
      case Posted(clk, serial, rs) => UploadsKeepLocks(At(cfg, serial), clk, st, rs);
      case Generated(from, to, b, d, ids) => GenerationKeepsLocks(cfg, st, Selected(cfg, cfg.roster, b, d, ids), b, from, Covered(from, to));
      case _ =>
    }
  }

  lemma {:induction false} UploadsKeepLocks(cfg: Config, clk: Clock, st: Store, rs: seq<Record>)
    ensures UploadAll(cfg, clk, st, rs).locks == st.locks && UploadAll(cfg, clk, st, rs).logs == st.logs
  {
    if rs != [] {
      UploadsKeepLocks(cfg, clk, st, rs[..|rs| - 1]);
    }
  }

  lemma {:induction false} GenerationKeepsLocks(cfg: Config, st: Store, sel: seq<EmpId>, branch: Option<int>, from: Date, n: nat)
    ensures var st' := GeneratedFrom(cfg, st, sel, branch, from, n); st'.locks == st.locks && st'.logs == st.logs
  {
    if n > 0 {
      GenerationKeepsLocks(cfg, st, sel, branch, from, n - 1);
    }
  }

  lemma {:induction false} UploadsSpareFrozen(cfg: Config, clk: Clock, st: Store, rs: seq<Record>, k: Key)
    requires Frozen(cfg, st.locks, k)
    ensures DayAt(UploadAll(cfg, clk, st, rs), k) == DayAt(st, k)
  {
    if rs != [] {
      UploadsSpareFrozen(cfg, clk, st, rs[..|rs| - 1], k);
      UploadsKeepLocks(cfg, clk, st, rs[..|rs| - 1]);
    }
  }

  // Generation leaves alone every date that is locked for the branch it was
  // called with.
  lemma {:induction false} GenerationSparesLocked(cfg: Config, st: Store, sel: seq<EmpId>, branch: Option<int>, from: Date, n: nat, k: Key)
    requires IsLocked(st.locks, MonthOf(k.date), branch)
    ensures DayAt(GeneratedFrom(cfg, st, sel, branch, from, n), k) == DayAt(st, k)
  {
    if n > 0 {
      GenerationSparesLocked(cfg, st, sel, branch, from, n - 1, k);
      GenerationKeepsLocks(cfg, st, sel, branch, from, n - 1);
      AddedRows(cfg, GeneratedFrom(cfg, st, sel, branch, from, n - 1).days, sel, from + n - 1);
    }
  }

  lemma CompanyLockStep(cfg: Config, st: Store, s: Step, k: Key)
    requires RowLocked(st.locks, LockKey(MonthOf(k.date), None))
    ensures DayAt(Apply(cfg, st, s), k) == DayAt(st, k)
  {
    match s {
      case Posted(clk, serial, rs) => UploadsSpareFrozen(At(cfg, serial), clk, st, rs, k);
      case Generated(from, to, b, d, ids) =>
        GenerationSparesLocked(cfg, st, Selected(cfg, cfg.roster, b, d, ids), b, from, Covered(from, to), k);
      case _ =>
    }
  }

  // While a company lock covers a month, no run of other steps changes, adds or
  // removes a day or punch in it.
  lemma {:induction false} CompanyLockFreezes(cfg: Config, st: Store, steps: seq<Step>, k: Key)
    requires RowLocked(st.locks, LockKey(MonthOf(k.date), None))
    requires forall i :: 0 <= i < |steps| ==> !Lifts(steps[i], MonthOf(k.date), None)
    ensures RowLocked(Run(cfg, st, steps).locks, LockKey(MonthOf(k.date), None))
    ensures DayAt(Run(cfg, st, steps), k) == DayAt(st, k)
  {
    if steps != [] {
      var front, last := steps[..|steps| - 1], steps[|steps| - 1];
      CompanyLockFreezes(cfg, st, front, k);
      LockStays(cfg, Run(cfg, st, front), last, MonthOf(k.date), None);
      CompanyLockStep(cfg, Run(cfg, st, front), last, k);
    }
  }

  // Paths on which the lock of the employee's own branch counts: all but
  // finalisation, and generation for all branches at once.
  predicate ChecksBranch(s: Step) {
    !s.Finalized? && (s.Generated? ==> s.branch.Some?)
  }

  // Generation for another branch does not select the employee.
  lemma OtherBranchSpares(cfg: Config, st: Store, b: int, dept: Option<int>, ids: set<EmpId>, from: Date, n: nat, k: Key)
    requires k.emp in cfg.employees && cfg.employees[k.emp].branch != b
    ensures DayAt(GeneratedFrom(cfg, st, Selected(cfg, cfg.roster, Some(b), dept, ids), Some(b), from, n), k) == DayAt(st, k)
  {
    hide GeneratedFrom, GeneratedDay, IsLocked;
    SelectedExact(cfg, cfg.roster, Some(b), dept, ids, k.emp);
    GenerationExact(cfg, st, Selected(cfg, cfg.roster, Some(b), dept, ids), Some(b), from, n);
  }

  // While a branch lock covers a month, no run of such steps changes, adds or
  // removes a day or punch of an employee of the branch in it.
  lemma {:induction false} BranchLockFreezes(cfg: Config, st: Store, steps: seq<Step>, k: Key)
    requires k.emp in cfg.employees
    requires RowLocked(st.locks, LockKey(MonthOf(k.date), Some(cfg.employees[k.emp].branch)))
    requires forall i :: 0 <= i < |steps| ==>
      ChecksBranch(steps[i]) && !Lifts(steps[i], MonthOf(k.date), Some(cfg.employees[k.emp].branch))
    ensures RowLocked(Run(cfg, st, steps).locks, LockKey(MonthOf(k.date), Some(cfg.employees[k.emp].branch)))
    ensures DayAt(Run(cfg, st, steps), k) == DayAt(st, k)
  {
    hide Apply, ChecksBranch, Lifts;
    if steps != [] {
      var front, last := steps[..|steps| - 1], steps[|steps| - 1];
      BranchLockFreezes(cfg, st, front, k);
      LockStays(cfg, Run(cfg, st, front), last, MonthOf(k.date), Some(cfg.employees[k.emp].branch));
      BranchLockStep(cfg, Run(cfg, st, front), last, k);
    }
  }

  lemma BranchLockStep(cfg: Config, st: Store, s: Step, k: Key)
    requires k.emp in cfg.employees && ChecksBranch(s)
    requires RowLocked(st.locks, LockKey(MonthOf(k.date), Some(cfg.employees[k.emp].branch)))
    ensures DayAt(Apply(cfg, st, s), k) == DayAt(st, k)
  {
    hide UploadAll, GeneratedFrom, Recomputed, LockPeriod, UnlockPeriod, FinalizedPart;
    match s {
      case Posted(clk, serial, rs) => UploadsSpareFrozen(At(cfg, serial), clk, st, rs, k);
      case Generated(from, to, b, d, ids) =>
        if b.value == cfg.employees[k.emp].branch {
          GenerationSparesLocked(cfg, st, Selected(cfg, cfg.roster, b, d, ids), b, from, Covered(from, to), k);
        } else {
          OtherBranchSpares(cfg, st, b.value, d, ids, from, Covered(from, to), k);
        }
      case _ =>
    }
  }

  ghost predicate SameCompanyLocks(t: LockTable, u: LockTable) {
    forall m: Month :: RowLocked(t, LockKey(m, None)) <==> RowLocked(u, LockKey(m, None))
  }

  // The two exceptions are real: finalisation and generation without a branch act
  // on the days as if no branch lock existed.
  lemma FinalizeIgnoresBranchLocks(cfg: Config, clk: Clock, st: Store, u: LockTable, target: Option<Date>)
    requires SameCompanyLocks(st.locks, u)
    ensures var r, r' := Finalize(cfg, clk, st, target), Finalize(cfg, clk, st.(locks := u), target);
            r.Done? == r'.Done? && (r.Done? ==> r.state.days == r'.state.days)
  {
    var st' := st.(locks := u);
    assert forall k :: Finalizable(st, clk, target, k) <==> Finalizable(st', clk, target, k);
    assert forall k :: k in st.days ==> (Unfinalizable(cfg, clk, st, target, k) <==> Unfinalizable(cfg, clk, st', target, k));
    var r, r' := Finalize(cfg, clk, st, target), Finalize(cfg, clk, st', target);
    assert r.Done? == r'.Done?;
  }

  lemma {:induction false} GenerationIgnoresBranchLocks(cfg: Config, st: Store, u: LockTable, sel: seq<EmpId>, from: Date, n: nat)
    requires SameCompanyLocks(st.locks, u)
    ensures GeneratedFrom(cfg, st, sel, None, from, n).days == GeneratedFrom(cfg, st.(locks := u), sel, None, from, n).days
  {
    if n > 0 {
      GenerationIgnoresBranchLocks(cfg, st, u, sel, from, n - 1);
      GenerationKeepsLocks(cfg, st, sel, None, from, n - 1);
      GenerationKeepsLocks(cfg, st.(locks := u), sel, None, from, n - 1);
    }
  }

  // --- Finalisation ---

  function Limit(clk: Clock, target: Option<Date>): Date {
    if target.Some? && target.value < clk.today then target.value else clk.today - 1
  }

  // A past day, not after the target date if one is given, in no company-locked month.
  predicate Due(st: Store, clk: Clock, target: Option<Date>, k: Key) {
    k.date < clk.today && (target.Some? ==> k.date <= target.value) && !RowLocked(st.locks, LockKey(MonthOf(k.date), None))
  }

  // Finalisation succeeds exactly when every day it selects can be recomputed; it
  // then replaces the summaries of those days by the pure function of ledger,
  // schedule, leave flag and prior status, and touches neither today nor a
  // company-locked month nor any punch.
  lemma FinalizeExact(cfg: Config, clk: Clock, st: Store, target: Option<Date>)
    ensures var r := Finalize(cfg, clk, st, target);
            && (r.Done? <==> forall k :: k in st.days && Due(st, clk, target, k) ==>
                  Computable(st.days[k].row, DayLine(st.days[k].ledger)))
            && (r.Done? ==>
                  && r.state.days.Keys == st.days.Keys && r.state.locks == st.locks && r.state.logs == st.logs
                  && (forall k :: k in st.days ==> r.state.days[k].ledger == st.days[k].ledger)
                  && (forall k :: k in st.days && !Due(st, clk, target, k) ==> r.state.days[k] == st.days[k])
                  && (forall k :: k in st.days && Due(st, clk, target, k) ==>
                        Computable(st.days[k].row, DayLine(st.days[k].ledger))
                        && r.state.days[k].row == Derive(cfg.settings, clk, Off(cfg, k), k.date, st.days[k].row, DayLine(st.days[k].ledger))))
  {
    hide MonthOf, DayLine, Derive, Computable;
    assert forall k :: Finalizable(st, clk, target, k) <==> Due(st, clk, target, k);
    assert forall k :: k in st.days ==>
      (Unfinalizable(cfg, clk, st, target, k) <==>
       Finalizable(st, clk, target, k) && !Computable(st.days[k].row, DayLine(st.days[k].ledger)));
  }

  // What a run leaves behind when it raises: every day is as before or as finalised,
  // today and locked months are as before, and no punch changes.
  lemma FinalizeRunExact(cfg: Config, clk: Clock, st: Store, target: Option<Date>, reached: set<Key>)
    ensures var st' := FinalizeRun(cfg, clk, st, target, reached);
            && st'.days.Keys == st.days.Keys && st'.locks == st.locks && st'.logs == st.logs
            && (forall k :: k in st.days ==>
                  && st'.days[k].ledger == st.days[k].ledger
                  && (k.date >= clk.today || RowLocked(st.locks, LockKey(MonthOf(k.date), None)) ==> st'.days[k] == st.days[k])
                  && (k in reached || !Blocked(cfg, clk, st, target) ==> st'.days[k] == FinalDay(cfg, clk, st, target, k))
                  && (k !in reached && Blocked(cfg, clk, st, target) ==> st'.days[k] == st.days[k]))
  {
  }

  lemma LaterFinalizeSeesSame(cfg: Config, clk1: Clock, t1: Option<Date>, clk2: Clock, t2: Option<Date>, st: Store, k: Key)
    requires Limit(clk1, t1) <= Limit(clk2, t2) && k in st.days
    ensures var d := FinalDay(cfg, clk1, st, t1, k);
            && Recomputed(cfg, clk2, k, d).Some? == Recomputed(cfg, clk2, k, st.days[k]).Some?
            && (Finalizable(st, clk2, t2, k) && Recomputed(cfg, clk2, k, d).Some? ==>
                  Recomputed(cfg, clk2, k, d) == Recomputed(cfg, clk2, k, st.days[k]))
            && (!Finalizable(st, clk2, t2, k) ==> d == st.days[k])
  {
    var ts := DayLine(st.days[k].ledger);
    if Finalizable(st, clk1, t1, k) && Computable(st.days[k].row, ts) {
      RecomputeAbsorbs(cfg.settings, clk1, clk2, Off(cfg, k), k.date, st.days[k].row, ts, ts);
    }
  }

  // However far an earlier run got, finished or not, a later run up to a date not
  // before it gives the same days, or raises just the same, as without the earlier
  // run; whatever the clocks were.
  lemma FinalizeAbsorbs(cfg: Config, clk1: Clock, t1: Option<Date>, reached: set<Key>, clk2: Clock, t2: Option<Date>, st: Store)
    requires Limit(clk1, t1) <= Limit(clk2, t2)
    ensures Finalize(cfg, clk2, FinalizedPart(cfg, clk1, st, t1, reached), t2) == Finalize(cfg, clk2, st, t2)
    ensures Finalize(cfg, clk2, FinalizeRun(cfg, clk1, st, t1, reached), t2) == Finalize(cfg, clk2, st, t2)
  {
    PartAbsorbs(cfg, clk1, t1, reached, clk2, t2, st);
    PartAbsorbs(cfg, clk1, t1, if Blocked(cfg, clk1, st, t1) then reached else st.days.Keys, clk2, t2, st);
  }

  lemma PartAbsorbs(cfg: Config, clk1: Clock, t1: Option<Date>, reached: set<Key>, clk2: Clock, t2: Option<Date>, st: Store)
    requires Limit(clk1, t1) <= Limit(clk2, t2)
    ensures Finalize(cfg, clk2, FinalizedPart(cfg, clk1, st, t1, reached), t2) == Finalize(cfg, clk2, st, t2)
  {
    hide Recomputed, IsLocked;
    var mid := FinalizedPart(cfg, clk1, st, t1, reached);
    forall k | k in st.days
      ensures Unfinalizable(cfg, clk2, mid, t2, k) <==> Unfinalizable(cfg, clk2, st, t2, k)
      ensures !Unfinalizable(cfg, clk2, st, t2, k) ==> FinalDay(cfg, clk2, mid, t2, k) == FinalDay(cfg, clk2, st, t2, k)
    {
      LaterFinalizeSeesSame(cfg, clk1, t1, clk2, t2, st, k);
    }
    var a, b := Finalize(cfg, clk2, mid, t2), Finalize(cfg, clk2, st, t2);
    assert a.Done? == b.Done?;
    if a.Done? {
      assert a.state.days == b.state.days;
    }
  }

  // --- When finalisation raises ---

  // Every day can be recomputed as it stands.
  ghost predicate Fit(st: Store) {
    forall k :: k in st.days ==> Computable(st.days[k].row, DayLine(st.days[k].ledger))
  }

  // The shift of the day has an end but no start.
  predicate HalfPlanned(cfg: Config, k: Key) {
    PlannedStart(cfg, k).None? && PlannedEnd(cfg, k).Some?
  }

  lemma SavedFit(cfg: Config, clk: Clock, st: Store, k: Key, day: Day)
    requires Fit(st)
    ensures Fit(Kept(st, Saved(st, k, Recomputed(cfg, clk, k, day))))
  {
  }

  lemma {:induction false} UploadsKeepFit(cfg: Config, clk: Clock, st: Store, rs: seq<Record>)
    requires Fit(st)
    ensures Fit(UploadAll(cfg, clk, st, rs))
  {
    hide Recomputed, Computable;
    if rs != [] {
      var before := UploadAll(cfg, clk, st, rs[..|rs| - 1]);
      UploadsKeepFit(cfg, clk, st, rs[..|rs| - 1]);
      var wanted := Wanted(cfg, before.locks, rs[|rs| - 1]);
      if wanted.Some? {
        SavedFit(cfg, clk, before, wanted.value.key, Appended(DayFor(cfg, before.days, wanted.value.key), wanted.value.stamp));
      }
    }
  }

  lemma {:induction false} GenerationKeepsFit(cfg: Config, st: Store, sel: seq<EmpId>, branch: Option<int>, from: Date, n: nat)
    requires Fit(st)
    ensures Fit(GeneratedFrom(cfg, st, sel, branch, from, n))
  {
    GenerationExact(cfg, st, sel, branch, from, n);
    assert DayLine([]) == [];
  }

  lemma FinalizeKeepsFit(cfg: Config, clk: Clock, st: Store, target: Option<Date>, reached: set<Key>)
    requires Fit(st)
    ensures Fit(FinalizedPart(cfg, clk, st, target, reached))
  {
  }

  // A reschedule keeps every day computable exactly unless it puts a half shift on
  // a day that has a valid punch.
  lemma RescheduleFitExactly(cfg: Config, clk: Clock, st: Store, k: Key)
    requires Fit(st) && Reschedule(cfg, clk, st, k).Done?
    ensures Fit(Reschedule(cfg, clk, st, k).state) <==> !(HalfPlanned(cfg, k) && exists p :: p in st.days[k].ledger && p.valid)
  {
    hide Reschedule, Fit, HalfPlanned, DayLine;
    RescheduleInDays(cfg, clk, st, k);
    LineEmptyExactly(st.days[k].ledger);
    if HalfPlanned(cfg, k) {
      HalfRescheduleFit(cfg, clk, st, k);
    } else {
      WholeRescheduleFit(cfg, clk, st, k);
    }
  }

  lemma RescheduleInDays(cfg: Config, clk: Clock, st: Store, k: Key)
    requires Reschedule(cfg, clk, st, k).Done?
    ensures k in st.days
  {
    hide Recomputed, Frozen;
  }

  lemma HalfRescheduleFit(cfg: Config, clk: Clock, st: Store, k: Key)
    requires Fit(st) && Reschedule(cfg, clk, st, k).Done? && HalfPlanned(cfg, k) && k in st.days
    ensures Fit(Reschedule(cfg, clk, st, k).state) <==> DayLine(st.days[k].ledger) == []
  {
    hide Recomputed, Frozen, DayLine;
    var day := st.days[k].(row := st.days[k].row.(start := PlannedStart(cfg, k), end := PlannedEnd(cfg, k)));
    assert Reschedule(cfg, clk, st, k) == Done(st.(days := st.days[k := day]));
    OneDayFit(st, k, day);
  }

  lemma WholeRescheduleFit(cfg: Config, clk: Clock, st: Store, k: Key)
    requires Fit(st) && Reschedule(cfg, clk, st, k).Done? && !HalfPlanned(cfg, k) && k in st.days
    ensures Fit(Reschedule(cfg, clk, st, k).state)
  {
    hide Recomputed, Frozen, DayLine, Fit;
    match cfg.plan(k.emp, k.date) {
      case ResolveFails => SavedFit(cfg, clk, st, k, st.days[k]);
      case NoTiming =>
      case Timing(s, e, _) => OneDayFit(st, k, st.days[k].(row := st.days[k].row.(start := s, end := e)));
    }
  }

  lemma OneDayFit(st: Store, k: Key, day: Day)
    requires Fit(st)
    ensures Fit(st.(days := st.days[k := day])) <==> Computable(day.row, DayLine(day.ledger))
  {
    hide DayLine, Computable;
    if Fit(st.(days := st.days[k := day])) {
      assert st.(days := st.days[k := day]).days[k] == day;
    }
  }

  lemma LineEmptyExactly(ledger: seq<Punch>)
    ensures DayLine(ledger) == [] <==> !exists p :: p in ledger && p.valid
  {
    var ps := SortedValid(ledger);
    if ps != [] {
      InSortedValid(ledger, ps[0]);
    }
    if p :| p in ledger && p.valid {
      InSortedValid(ledger, p);
    }
  }

  lemma MarkKeepsFit(cfg: Config, st: Store, k: Key, status: Status, leave: bool, shiftKnown: bool)
    requires Fit(st)
    ensures Fit(Kept(st, MarkDay(cfg, st, k, status, leave, shiftKnown)))
  {
  }

  lemma OverrideKeepsFit(cfg: Config, st: Store, k: Key, u: Updates, shiftKnown: bool)
    requires Fit(st)
    ensures Fit(Kept(st, Override(cfg, st, k, u, shiftKnown)))
  {
  }

  lemma PunchKeepsFit(cfg: Config, clk: Clock, st: Store, k: Key, p: Stamp)
    requires Fit(st)
    ensures Fit(Kept(st, AddPunch(cfg, clk, st, k, p)))
  {
    hide Recomputed, Frozen, Fit;
    SavedFit(cfg, clk, st, k, Appended(DayFor(cfg, st.days, k), p));
  }

  lemma ManualKeepsFit(cfg: Config, clk: Clock, st: Store, k: Key, inTime: Time, outTime: Time)
    requires Fit(st)
    ensures Fit(Kept(st, CreateManual(cfg, clk, st, k, inTime, outTime)))
  {
    hide Recomputed, Frozen, Fit;
    SavedFit(cfg, clk, st, k, Appended(Appended(FreshDay(cfg, k, Present, true), Stamp(inTime, In)), Stamp(outTime, Out)));
  }

  lemma CorrectionKeepsFit(cfg: Config, clk: Clock, st: Store, k: Key, inMinute: int, outMinute: int)
    requires Fit(st)
    ensures Fit(Kept(st, Correct(cfg, clk, st, k, inMinute, outMinute)))
  {
    hide Recomputed, Frozen, Fit;
    if k in st.days {
      SavedFit(cfg, clk, st, k, CorrectedDay(st.days[k], k.date, inMinute, outMinute));
    }
  }

  lemma RescheduleKeepsFit(cfg: Config, clk: Clock, st: Store, k: Key)
    requires Fit(st) && !HalfPlanned(cfg, k)
    ensures Fit(Kept(st, Reschedule(cfg, clk, st, k)))
  {
    hide Recomputed, Frozen, Fit;
    if Reschedule(cfg, clk, st, k).Done? {
      RescheduleFitExactly(cfg, clk, st, k);
    }
  }

  lemma StepKeepsFit(cfg: Config, st: Store, s: Step)
    requires Fit(st) && (s.Rescheduled? ==> !HalfPlanned(cfg, s.key))
    ensures Fit(Apply(cfg, st, s))
  {
    hide UploadAll, FinalizedPart, Blocked, Reschedule, Correct, CreateManual, AddPunch, MarkDay, Override, LockPeriod, UnlockPeriod, GeneratedFrom;
    match s {
      case Manual(clk, k, i, o) => ManualKeepsFit(cfg, clk, st, k, i, o);
      case Punched(clk, k, p) => PunchKeepsFit(cfg, clk, st, k, p);
      case Corrected(clk, k, i, o) => CorrectionKeepsFit(cfg, clk, st, k, i, o);
      case Posted(clk, serial, rs) => UploadsKeepFit(At(cfg, serial), clk, st, rs);
      case Generated(from, to, b, d, ids) => GenerationKeepsFit(cfg, st, Selected(cfg, cfg.roster, b, d, ids), b, from, Covered(from, to));
      case Finalized(clk, target, reached) =>
        FinalizeKeepsFit(cfg, clk, st, target, if Blocked(cfg, clk, st, target) then reached else st.days.Keys);
      case Rescheduled(clk, k) => RescheduleKeepsFit(cfg, clk, st, k);
      case Mark(k, status, leave, known) => MarkKeepsFit(cfg, st, k, status, leave, known);
      case OverrideDay(k, u, known) => OverrideKeepsFit(cfg, st, k, u, known);
      case _ =>
    }
  }

  lemma {:induction false} RunsKeepFit(cfg: Config, st: Store, steps: seq<Step>)
    requires Fit(st) && forall i :: 0 <= i < |steps| && steps[i].Rescheduled? ==> !HalfPlanned(cfg, steps[i].key)
    ensures Fit(Run(cfg, st, steps))
  {
    hide Apply, Fit, HalfPlanned;
    if steps != [] {
      RunsKeepFit(cfg, st, steps[..|steps| - 1]);
      StepKeepsFit(cfg, Run(cfg, st, steps[..|steps| - 1]), steps[|steps| - 1]);
    }
  }

  // Uploads, punches and corrections that would leave a day that cannot be
  // recomputed are rolled back, so no run without a half reschedule ever makes
  // finalisation raise, whenever and up to whichever date it is called.
  lemma FinalizeNeverRaises(cfg: Config, st: Store, steps: seq<Step>, clk: Clock, target: Option<Date>)
    requires Fit(st) && forall i :: 0 <= i < |steps| && steps[i].Rescheduled? ==> !HalfPlanned(cfg, steps[i].key)
    ensures Finalize(cfg, clk, Run(cfg, st, steps), target).Done?
  {
    RunsKeepFit(cfg, st, steps);
    FinalizeExact(cfg, clk, Run(cfg, st, steps), target);
  }

  // One selected day with an expected end, no expected start and a valid punch
  // makes finalisation raise.
  lemma HalfScheduledDayBlocksFinalize(cfg: Config, clk: Clock, st: Store, target: Option<Date>, k: Key)
    requires k in st.days && Finalizable(st, clk, target, k)
    requires st.days[k].row.end.Some? && st.days[k].row.start.None?
    requires exists p :: p in st.days[k].ledger && p.valid
    ensures Blocked(cfg, clk, st, target) && Finalize(cfg, clk, st, target) == Refused(RecomputeFailed)
  {
    LineEmptyExactly(st.days[k].ledger);
    assert Unfinalizable(cfg, clk, st, target, k);
  }

  // A run from empty tables that gets there: a day marked by hand, a punch on it,
  // and a recompute on demand after its shift was given an end only.
  lemma HalfRescheduleBlocks(cfg: Config, k: Key, status: Status, clk: Clock, p: Stamp, later: Clock)
    requires k.emp in cfg.employees && HalfPlanned(cfg, k) && k.date < later.today
    ensures var steps := [Mark(k, status, false, true), Punched(clk, k, p), Rescheduled(clk, k)];
            Finalize(cfg, later, Run(cfg, Store(map[], map[], map[]), steps), None) == Refused(RecomputeFailed)
  {
    hide Run, Blocked, Finalizable;
    HalfRescheduled(cfg, k, status, clk, p);
    var st := Run(cfg, Store(map[], map[], map[]), [Mark(k, status, false, true), Punched(clk, k, p), Rescheduled(clk, k)]);
    NoLockFinalizable(st, later, k);
    HalfScheduledDayBlocksFinalize(cfg, later, st, None, k);
  }

  lemma HalfRescheduled(cfg: Config, k: Key, status: Status, clk: Clock, p: Stamp)
    requires k.emp in cfg.employees && HalfPlanned(cfg, k)
    ensures var st := Run(cfg, Store(map[], map[], map[]), [Mark(k, status, false, true), Punched(clk, k, p), Rescheduled(clk, k)]);
            && st.locks == map[] && st.days.Keys == {k} && st.days[k].row.start.None? && st.days[k].row.end.Some?
            && exists q :: q in st.days[k].ledger && q.valid
  {
    hide Apply;
    var s0 := Store(map[], map[], map[]);
    var e1, e2, e3 := Mark(k, status, false, true), Punched(clk, k, p), Rescheduled(clk, k);
    var s1 := Apply(cfg, s0, e1);
    var s2 := Apply(cfg, s1, e2);
    var s3 := Apply(cfg, s2, e3);
    RunThree(cfg, s0, e1, e2, e3);
    MarkedAlone(cfg, k, status);
    PunchOnUnplannedDay(cfg, clk, s1, k, p);
    RescheduledDay(cfg, clk, s2, k);
    assert p == s3.days[k].ledger[0].stamp && s3.days[k].ledger[0] in s3.days[k].ledger;
  }

  lemma NoLockFinalizable(st: Store, clk: Clock, k: Key)
    requires st.locks == map[] && k.date < clk.today
    ensures Finalizable(st, clk, None, k)
  {
  }

  lemma MarkedAlone(cfg: Config, k: Key, status: Status)
    requires k.emp in cfg.employees
    ensures Apply(cfg, Store(map[], map[], map[]), Mark(k, status, false, true))
         == Store(map[k := Day(Blank(None, None, status, true, false), [])], map[], map[])
  {
  }

  lemma PunchOnUnplannedDay(cfg: Config, clk: Clock, st: Store, k: Key, p: Stamp)
    requires k.emp in cfg.employees && k in st.days && st.locks == map[] && st.days[k].row.end.None?
    ensures var st' := Apply(cfg, st, Punched(clk, k, p));
            && st'.days.Keys == st.days.Keys && st'.locks == st.locks
            && st'.days[k].ledger == st.days[k].ledger + [Punch(|st.days[k].ledger| + 1, p, true)]
  {
    var d := Recomputed(cfg, clk, k, Appended(st.days[k], p));
    assert d.Some? && !Frozen(cfg, st.locks, k);
    SavedDay(st, k, d, AddPunch(cfg, clk, st, k, p));
  }

  lemma SavedDay(st: Store, k: Key, d: Option<Day>, r: Outcome<Store, Error>)
    requires r == Saved(st, k, d) && d.Some?
    ensures r == Done(st.(days := st.days[k := d.value]))
  {
  }

  lemma RescheduledDay(cfg: Config, clk: Clock, st: Store, k: Key)
    requires k.emp in cfg.employees && k in st.days && st.locks == map[] && HalfPlanned(cfg, k)
    ensures var st' := Apply(cfg, st, Rescheduled(clk, k));
            && st'.days.Keys == st.days.Keys && st'.locks == st.locks && st'.days[k].ledger == st.days[k].ledger
            && st'.days[k].row.start.None? && st'.days[k].row.end.Some?
  {
    assert !Frozen(cfg, st.locks, k);
  }

  lemma RunTwo(cfg: Config, st: Store, e1: Step, e2: Step)
    ensures Run(cfg, st, [e1]) == Apply(cfg, st, e1) && Run(cfg, st, [e1, e2]) == Apply(cfg, Apply(cfg, st, e1), e2)
  {
    hide Apply;
    assert [e1, e2][..1] == [e1] && [e1][..0] == [];
    assert Run(cfg, st, [e1]) == Apply(cfg, Run(cfg, st, []), e1);
  }

  lemma RunSnoc(cfg: Config, st: Store, steps: seq<Step>, s: Step)
    ensures Run(cfg, st, steps + [s]) == Apply(cfg, Run(cfg, st, steps), s)
  {
    hide Apply;
    assert (steps + [s])[..|steps|] == steps;
  }

  lemma RunThree(cfg: Config, st: Store, e1: Step, e2: Step, e3: Step)
    ensures Run(cfg, st, [e1, e2, e3]) == Apply(cfg, Apply(cfg, Apply(cfg, st, e1), e2), e3)
  {
    hide Apply;
    assert [e1, e2, e3][..2] == [e1, e2] && [e1, e2][..1] == [e1] && [e1][..0] == [];
    assert Run(cfg, st, [e1]) == Apply(cfg, Run(cfg, st, []), e1);
    assert Run(cfg, st, [e1, e2]) == Apply(cfg, Run(cfg, st, [e1]), e2);
  }

  // --- Generation ---

  lemma {:induction false} GenerationExact(cfg: Config, st: Store, sel: seq<EmpId>, branch: Option<int>, from: Date, n: nat)
    ensures var st' := GeneratedFrom(cfg, st, sel, branch, from, n);
            && st'.locks == st.locks && st'.logs == st.logs
            && (forall k :: k in st'.days <==>
                  k in st.days || (k.emp in sel && from <= k.date < from + n && !IsLocked(st.locks, MonthOf(k.date), branch)))
            && (forall k :: k in st'.days ==> st'.days[k] == if k in st.days then st.days[k] else GeneratedDay(cfg, k))
  {
    hide GeneratedOn, GeneratedDay, IsLocked;
    if n > 0 {
      GenerationExact(cfg, st, sel, branch, from, n - 1);
      GeneratedOnExact(cfg, GeneratedFrom(cfg, st, sel, branch, from, n - 1), sel, branch, from + n - 1);
    }
  }

  lemma GeneratedOnExact(cfg: Config, st: Store, sel: seq<EmpId>, branch: Option<int>, d: Date)
    ensures var st' := GeneratedOn(cfg, st, sel, branch, d);
            && st'.locks == st.locks && st'.logs == st.logs
            && (forall k :: k in st'.days <==> k in st.days || (k.emp in sel && k.date == d && !IsLocked(st.locks, MonthOf(d), branch)))
            && (forall k :: k in st'.days ==> st'.days[k] == if k in st.days then st.days[k] else GeneratedDay(cfg, k))
  {
    AddedRows(cfg, st.days, sel, d);
  }

  lemma {:induction false} SelectedExact(cfg: Config, roster: seq<EmpId>, branch: Option<int>, dept: Option<int>, ids: set<EmpId>, e: EmpId)
    ensures e in Selected(cfg, roster, branch, dept, ids) <==> e in roster && Matches(cfg, branch, dept, ids, e)
  {
    if roster != [] {
      SelectedExact(cfg, roster[..|roster| - 1], branch, dept, ids, e);
      assert roster == roster[..|roster| - 1] + [roster[|roster| - 1]];
    }
  }

  // An active employee of the branch and department a request names, if it does, and
  // among the ids it lists, if it lists any.
  predicate Asked(employee: Employee, e: EmpId, branch: Option<int>, dept: Option<int>, ids: set<EmpId>) {
    && employee.active
    && (branch.None? || employee.branch == branch.value) && (dept.None? || employee.dept == dept.value)
    && (ids == {} || e in ids)
  }

  // Every selected active employee ends up with one row for each covered date
  // that is not locked; rows that existed are untouched; a second call adds none.
  lemma GenerateExactlyOnce(cfg: Config, st: Store, from: Date, to: Date, branch: Option<int>, dept: Option<int>, ids: set<EmpId>)
    ensures var st' := Generate(cfg, st, from, to, branch, dept, ids);
            && (forall k :: k in st'.days <==>
                  k in st.days || (k.emp in cfg.roster && k.emp in cfg.employees && Asked(cfg.employees[k.emp], k.emp, branch, dept, ids)
                                   && from <= k.date <= to && k.date < from + 366
                                   && !IsLocked(st.locks, MonthOf(k.date), branch)))
            && (forall k :: k in st.days ==> st'.days[k] == st.days[k])
            && Generate(cfg, st', from, to, branch, dept, ids) == st'
  {
    var sel, n := Selected(cfg, cfg.roster, branch, dept, ids), Covered(from, to);
    var st' := Generate(cfg, st, from, to, branch, dept, ids);
    GenerationExact(cfg, st, sel, branch, from, n);
    GenerationExact(cfg, st', sel, branch, from, n);
    forall e
      ensures e in sel <==> e in cfg.roster && e in cfg.employees && Asked(cfg.employees[e], e, branch, dept, ids)
    {
      SelectedExact(cfg, cfg.roster, branch, dept, ids, e);
    }
    assert Generate(cfg, st', from, to, branch, dept, ids).days == st'.days;
  }

  // A generated row without punches is finalised to holiday, leave or absent,
  // except on a weekly-off.
  lemma GeneratedThenFinalized(cfg: Config, clk: Clock, st: Store, target: Option<Date>, k: Key)
    requires k in st.days && st.days[k] == GeneratedDay(cfg, k) && Finalizable(st, clk, target, k) && !Off(cfg, k)
    ensures FinalDay(cfg, clk, st, target, k).row.status
         == if cfg.holiday(k.emp, k.date) then Holiday else if cfg.approvedLeave(k.emp, k.date) then OnLeave else Absent
    ensures var r := Finalize(cfg, clk, st, target);
            r.Done? ==> r.state.days[k] == FinalDay(cfg, clk, st, target, k)
  {
    assert DayLine([]) == [];
  }
}
