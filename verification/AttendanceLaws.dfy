// More laws of attendance runs: where a branch lock does not hold, what a raising
// finalisation leaves, what a status set by hand is worth, and when the minutes of a
// day are those of its punches.

// The paths that ignore branch locks do change locked days.
module BranchLockLimits {
  import opened Common
  import opened DayRow
  import opened Ledger
  import opened Calendar
  import opened Locks
  import opened AttendanceStore
  import opened AttendanceRuns

  // An ordinary working day of an active employee of a known branch.
  ghost predicate Ordinary(cfg: Config, k: Key) {
    && k.emp in cfg.roster && k.emp in cfg.employees && cfg.employees[k.emp].active && cfg.employees[k.emp].branch in cfg.branches
    && !cfg.holiday(k.emp, k.date) && !cfg.approvedLeave(k.emp, k.date) && !Off(cfg, k) && !GeneratedStatus(cfg, k).WeekOff?
    && k.date >= 1 && 1900 <= YearOf(MonthOf(k.date)) <= 2100
  }

  function BranchLock(cfg: Config, k: Key): Step
    requires k.emp in cfg.employees
  {
    var d: nat := if k.date >= 1 then k.date else 0;
    LockMonths(true, Some(cfg.employees[k.emp].branch), d, d)
  }

  lemma BranchLockApplies(cfg: Config, st: Store, k: Key)
    requires Ordinary(cfg, k) && st.locks == map[]
    ensures var st' := Apply(cfg, st, BranchLock(cfg, k));
            && st'.days == st.days && st'.logs == st.logs
            && RowLocked(st'.locks, LockKey(MonthOf(k.date), Some(cfg.employees[k.emp].branch)))
            && forall m: Month :: !RowLocked(st'.locks, LockKey(m, None))
  {
    var b := Some(cfg.employees[k.emp].branch);
    forall m: Month | InPeriod(m, k.date, k.date)
      ensures Accepts(st.locks, LockKey(m, b), cfg.branches) && !IsLocked(st.locks, m, b)
    {
      assert m == MonthOf(k.date);
    }
    LockSucceedsExactly(st.locks, true, b, k.date, k.date, cfg.branches);
    LockExact(st.locks, true, b, k.date, k.date, cfg.branches);
  }

  // A run in which a day is generated, its month locked for the branch, and the
  // day still turned into an absence by finalisation.
  lemma BranchLockedDayIsFinalized(cfg: Config, k: Key, clk: Clock)
    requires Ordinary(cfg, k) && k.date < clk.today
    ensures var s0 := Store(map[], map[], map[]);
            var generate, finalize := Generated(k.date, k.date, None, None, {k.emp}), Finalized(clk, None, {});
            var locked := Run(cfg, s0, [generate, BranchLock(cfg, k)]);
            var after := Run(cfg, s0, [generate, BranchLock(cfg, k), finalize]);
            && RowLocked(locked.locks, LockKey(MonthOf(k.date), Some(cfg.employees[k.emp].branch)))
            && k in locked.days && locked.days[k].row.status.NotMarked?
            && k in after.days && after.days[k].row.status.Absent?
  {
    hide Apply, Generate, Blocked, Finalizable, GeneratedDay, Recomputed;
    var s0 := Store(map[], map[], map[]);
    var e1, e2, e3 := Generated(k.date, k.date, None, None, {k.emp}), BranchLock(cfg, k), Finalized(clk, None, {});
    RunThree(cfg, s0, e1, e2, e3);
    RunTwo(cfg, s0, e1, e2);
    var s1 := Apply(cfg, s0, e1);
    GeneratedAlone(cfg, k);
    BranchLockApplies(cfg, s1, k);
    var s2 := Apply(cfg, s1, e2);
    FitGenerated(cfg, s2);
    FinalizeExact(cfg, clk, s2, None);
    NoCompanyLockFinalizable(s2, clk, k);
    GeneratedThenFinalized(cfg, clk, s2, None, k);
    FinalizeApplies(cfg, clk, s2);
    GeneratedIsNotMarked(cfg, k);
  }

  // And one in which generation for all branches adds a day to a locked branch.
  lemma BranchLockedDayIsGenerated(cfg: Config, k: Key)
    requires Ordinary(cfg, k)
    ensures var s0 := Store(map[], map[], map[]);
            var generate := Generated(k.date, k.date, None, None, {k.emp});
            var locked, after := Run(cfg, s0, [BranchLock(cfg, k)]), Run(cfg, s0, [BranchLock(cfg, k), generate]);
            && RowLocked(locked.locks, LockKey(MonthOf(k.date), Some(cfg.employees[k.emp].branch)))
            && k !in locked.days && k in after.days
  {
    hide Apply, Generate;
    var s0 := Store(map[], map[], map[]);
    var e1, e2 := BranchLock(cfg, k), Generated(k.date, k.date, None, None, {k.emp});
    RunTwo(cfg, s0, e1, e2);
    BranchLockApplies(cfg, s0, k);
    var s1 := Apply(cfg, s0, e1);
    assert !IsLocked(s1.locks, MonthOf(k.date), None);
    GenerateExactlyOnce(cfg, s1, k.date, k.date, None, None, {k.emp});
    GenerateApplies(cfg, s1, e2);
  }

  lemma GenerateApplies(cfg: Config, st: Store, s: Step)
    requires s.Generated?
    ensures Apply(cfg, st, s) == Generate(cfg, st, s.from, s.to, s.branch, s.dept, s.ids)
  {
  }

  lemma FinalizeApplies(cfg: Config, clk: Clock, st: Store)
    requires Finalize(cfg, clk, st, None).Done?
    ensures Apply(cfg, st, Finalized(clk, None, {})) == Finalize(cfg, clk, st, None).state
  {
  }

  lemma GeneratedAlone(cfg: Config, k: Key)
    requires Ordinary(cfg, k)
    ensures var st := Apply(cfg, Store(map[], map[], map[]), Generated(k.date, k.date, None, None, {k.emp}));
            k in st.days && st.locks == map[] && forall j :: j in st.days ==> st.days[j] == GeneratedDay(cfg, j)
  {
    hide Generate, GeneratedDay;
    var s0 := Store(map[], map[], map[]);
    GenerateApplies(cfg, s0, Generated(k.date, k.date, None, None, {k.emp}));
    GenerateExactlyOnce(cfg, s0, k.date, k.date, None, None, {k.emp});
    GenerateRows(cfg, s0, k.date, k.date, None, None, {k.emp});
  }

  lemma GenerateRows(cfg: Config, st: Store, from: Date, to: Date, branch: Option<int>, dept: Option<int>, ids: set<EmpId>)
    ensures var st' := Generate(cfg, st, from, to, branch, dept, ids);
            st'.locks == st.locks && forall j :: j in st'.days ==> st'.days[j] == if j in st.days then st.days[j] else GeneratedDay(cfg, j)
  {
    hide GeneratedDay, GeneratedFrom;
    GenerationExact(cfg, st, Selected(cfg, cfg.roster, branch, dept, ids), branch, from, Covered(from, to));
  }

  lemma FitGenerated(cfg: Config, st: Store)
    requires forall j :: j in st.days ==> st.days[j] == GeneratedDay(cfg, j)
    ensures Fit(st)
  {
    assert DayLine([]) == [];
  }

  lemma GeneratedIsNotMarked(cfg: Config, k: Key)
    requires Ordinary(cfg, k)
    ensures GeneratedDay(cfg, k).row.status.NotMarked?
  {
  }

  lemma NoCompanyLockFinalizable(st: Store, clk: Clock, k: Key)
    requires k.date < clk.today && !RowLocked(st.locks, LockKey(MonthOf(k.date), None))
    ensures Finalizable(st, clk, None, k)
  {
  }
}

// A finalisation that raises and is committed half done.
module FinalizeLimits {
  import opened Common
  import opened Sessions
  import opened DayRow
  import opened AttendanceStore
  import opened AttendanceRuns
  import opened BranchLockLimits

  // A run from empty tables: day `half` is marked, punched and rescheduled to an end
  // only, day `plain` is generated, and a finalisation that reaches `plain` first
  // raises at `half`. It leaves `plain` absent and `half` as it was.
  lemma RaisingRunLeavesPart(cfg: Config, half: Key, plain: Key, status: Status, clk: Clock, p: Stamp, later: Clock)
    requires half.emp in cfg.employees && HalfPlanned(cfg, half) && Ordinary(cfg, plain) && half != plain
    requires half.date < later.today && plain.date < later.today
    ensures var steps := [Mark(half, status, false, true), Punched(clk, half, p), Rescheduled(clk, half)]
                         + [Generated(plain.date, plain.date, None, None, {plain.emp})];
            var before := Run(cfg, Store(map[], map[], map[]), steps);
            var after := Run(cfg, Store(map[], map[], map[]), steps + [Finalized(later, None, {plain})]);
            && Finalize(cfg, later, before, None) == Refused(RecomputeFailed)
            && before.days.Keys == after.days.Keys == {half, plain}
            && before.days[plain].row.status.NotMarked? && after.days[plain].row.status.Absent?
            && after.days[half] == before.days[half]
  {
    hide Apply, Run, Finalize, Blocked, Finalizable, FinalDay, GeneratedDay, Generate;
    var s0 := Store(map[], map[], map[]);
    var first := [Mark(half, status, false, true), Punched(clk, half, p), Rescheduled(clk, half)];
    var generate, finalize := Generated(plain.date, plain.date, None, None, {plain.emp}), Finalized(later, None, {plain});
    RunSnoc(cfg, s0, first, generate);
    RunSnoc(cfg, s0, first + [generate], finalize);
    HalfRescheduled(cfg, half, status, clk, p);
    var s1 := Run(cfg, s0, first);
    var s2 := Apply(cfg, s1, generate);
    GeneratedBeside(cfg, s1, half, plain);
    NoLockFinalizable(s2, later, half);
    NoLockFinalizable(s2, later, plain);
    HalfScheduledDayBlocksFinalize(cfg, later, s2, None, half);
    GeneratedIsNotMarked(cfg, plain);
    GeneratedThenFinalized(cfg, later, s2, None, plain);
    FinalizeRunExact(cfg, later, s2, None, {plain});
    FinalizedApplies(cfg, s2, finalize);
  }

  lemma FinalizedApplies(cfg: Config, st: Store, s: Step)
    requires s.Finalized?
    ensures Apply(cfg, st, s) == FinalizeRun(cfg, s.clk, st, s.target, s.reached)
  {
  }

  lemma GeneratedBeside(cfg: Config, st: Store, other: Key, k: Key)
    requires Ordinary(cfg, k) && st.locks == map[] && st.days.Keys == {other} && other != k
    ensures var st' := Apply(cfg, st, Generated(k.date, k.date, None, None, {k.emp}));
            && st'.locks == map[] && st'.days.Keys == {other, k} && st'.days[other] == st.days[other] && st'.days[k] == GeneratedDay(cfg, k)
  {
    hide Generate, GeneratedDay;
    var generate := Generated(k.date, k.date, None, None, {k.emp});
    GenerateApplies(cfg, st, generate);
    GenerateExactlyOnce(cfg, st, k.date, k.date, None, None, {k.emp});
    GenerateRows(cfg, st, k.date, k.date, None, None, {k.emp});
    var st' := Apply(cfg, st, generate);
    forall j
      ensures j in st'.days <==> j in {other, k}
    {
      assert j == Key(j.emp, j.date);
    }
  }
}

// Marking and overriding by hand.
module HandMade {
  import opened Common
  import opened Timeline
  import opened Sessions
  import opened DayRow
  import opened Calendar
  import opened Locks
  import opened AttendanceStore
  import opened AttendanceRuns

  // The day is there, set by hand, with this status.
  ghost predicate SetByHand(st: Store, k: Key, status: Status) {
    k in st.days && st.days[k].row.manual && st.days[k].row.status == status
  }

  lemma SavedKeepsHand(cfg: Config, clk: Clock, st: Store, j: Key, day: Day, k: Key, status: Status)
    requires SetByHand(st, k, status) && (j == k ==> day.row.manual && day.row.status == status)
    ensures SetByHand(Kept(st, Saved(st, j, Recomputed(cfg, clk, j, day))), k, status)
  {
  }

  lemma {:induction false} UploadsKeepHand(cfg: Config, clk: Clock, st: Store, rs: seq<Record>, k: Key, status: Status)
    requires SetByHand(st, k, status)
    ensures SetByHand(UploadAll(cfg, clk, st, rs), k, status)
  {
    hide Recomputed, Frozen;
    if rs != [] {
      var before := UploadAll(cfg, clk, st, rs[..|rs| - 1]);
      UploadsKeepHand(cfg, clk, st, rs[..|rs| - 1], k, status);
      var wanted := Wanted(cfg, before.locks, rs[|rs| - 1]);
      if wanted.Some? {
        SavedKeepsHand(cfg, clk, before, wanted.value.key, Appended(DayFor(cfg, before.days, wanted.value.key), wanted.value.stamp), k, status);
      }
    }
  }

  lemma FinalizeKeepsHand(cfg: Config, clk: Clock, st: Store, target: Option<Date>, reached: set<Key>, k: Key, status: Status)
    requires SetByHand(st, k, status)
    ensures SetByHand(FinalizedPart(cfg, clk, st, target, reached), k, status)
  {
  }

  lemma PunchKeepsHand(cfg: Config, clk: Clock, st: Store, j: Key, p: Stamp, k: Key, status: Status)
    requires SetByHand(st, k, status)
    ensures SetByHand(Kept(st, AddPunch(cfg, clk, st, j, p)), k, status)
  {
    hide Recomputed, Frozen;
    SavedKeepsHand(cfg, clk, st, j, Appended(DayFor(cfg, st.days, j), p), k, status);
  }

  lemma ManualKeepsHand(cfg: Config, clk: Clock, st: Store, j: Key, inTime: Time, outTime: Time, k: Key, status: Status)
    requires SetByHand(st, k, status)
    ensures SetByHand(Kept(st, CreateManual(cfg, clk, st, j, inTime, outTime)), k, status)
  {
    hide Recomputed, Frozen;
    if j != k {
      SavedKeepsHand(cfg, clk, st, j, Appended(Appended(FreshDay(cfg, j, Present, true), Stamp(inTime, In)), Stamp(outTime, Out)), k, status);
    }
  }

  lemma CorrectionKeepsHand(cfg: Config, clk: Clock, st: Store, j: Key, inMinute: int, outMinute: int, k: Key, status: Status)
    requires SetByHand(st, k, status)
    ensures SetByHand(Kept(st, Correct(cfg, clk, st, j, inMinute, outMinute)), k, status)
  {
    hide Recomputed, Frozen;
    if j in st.days {
      SavedKeepsHand(cfg, clk, st, j, CorrectedDay(st.days[j], j.date, inMinute, outMinute), k, status);
    }
  }

  lemma RescheduleKeepsHand(cfg: Config, clk: Clock, st: Store, j: Key, k: Key, status: Status)
    requires SetByHand(st, k, status)
    ensures SetByHand(Kept(st, Reschedule(cfg, clk, st, j)), k, status)
  {
    hide Recomputed, Frozen;
    if j in st.days {
      SavedKeepsHand(cfg, clk, st, j, st.days[j], k, status);
    }
  }

  lemma OverrideKeepsHand(cfg: Config, st: Store, j: Key, u: Updates, shiftKnown: bool, k: Key, status: Status)
    requires SetByHand(st, k, status) && (j == k ==> u.status.None?)
    ensures SetByHand(Kept(st, Override(cfg, st, j, u, shiftKnown)), k, status)
  {
  }

  lemma MarkKeepsHand(cfg: Config, st: Store, j: Key, s: Status, leave: bool, shiftKnown: bool, k: Key, status: Status)
    requires SetByHand(st, k, status)
    ensures SetByHand(Kept(st, MarkDay(cfg, st, j, s, leave, shiftKnown)), k, status)
  {
  }

  lemma GenerationKeepsHand(cfg: Config, st: Store, from: Date, to: Date, b: Option<int>, d: Option<int>, ids: set<EmpId>, k: Key, status: Status)
    requires SetByHand(st, k, status)
    ensures SetByHand(Generate(cfg, st, from, to, b, d, ids), k, status)
  {
    hide Generate;
    GenerateExactlyOnce(cfg, st, from, to, b, d, ids);
  }

  lemma StepKeepsHand(cfg: Config, st: Store, s: Step, k: Key, status: Status)
    requires SetByHand(st, k, status) && (s.OverrideDay? && s.key == k ==> s.updates.status.None?)
    ensures SetByHand(Apply(cfg, st, s), k, status)
  {
    hide UploadAll, FinalizedPart, Blocked, Reschedule, Correct, CreateManual, AddPunch, MarkDay, Override, LockPeriod, UnlockPeriod, Generate;
    match s {
      case Manual(clk, j, i, o) => ManualKeepsHand(cfg, clk, st, j, i, o, k, status);
      case Punched(clk, j, p) => PunchKeepsHand(cfg, clk, st, j, p, k, status);
      case Corrected(clk, j, i, o) => CorrectionKeepsHand(cfg, clk, st, j, i, o, k, status);
      case Posted(clk, serial, rs) => UploadsKeepHand(At(cfg, serial), clk, st, rs, k, status);
      case Generated(from, to, b, d, ids) => GenerationKeepsHand(cfg, st, from, to, b, d, ids, k, status);
      case Finalized(clk, target, reached) =>
        FinalizeKeepsHand(cfg, clk, st, target, if Blocked(cfg, clk, st, target) then reached else st.days.Keys, k, status);
      case Rescheduled(clk, j) => RescheduleKeepsHand(cfg, clk, st, j, k, status);
      case Mark(j, x, leave, known) => MarkKeepsHand(cfg, st, j, x, leave, known, k, status);
      case OverrideDay(j, u, known) => OverrideKeepsHand(cfg, st, j, u, known, k, status);
      case _ =>
    }
  }

  // A status set by hand stays through every run that does not override it again:
  // no upload, punch, correction, recompute, generation or finalisation changes it.
  lemma {:induction false} HandMadeStatusStays(cfg: Config, st: Store, steps: seq<Step>, k: Key, status: Status)
    requires SetByHand(st, k, status)
    requires forall i :: 0 <= i < |steps| && steps[i].OverrideDay? && steps[i].key == k ==> steps[i].updates.status.None?
    ensures SetByHand(Run(cfg, st, steps), k, status)
  {
    hide Apply, SetByHand;
    if steps != [] {
      var front := steps[..|steps| - 1];
      HandMadeStatusStays(cfg, st, front, k, status);
      StepKeepsHand(cfg, Run(cfg, st, front), steps[|steps| - 1], k, status);
    }
  }

  // Marking a day is the way in: it works exactly where it may, and then stands.
  lemma MarkingExact(cfg: Config, st: Store, k: Key, status: Status, leave: bool, shiftKnown: bool)
    ensures var r := MarkDay(cfg, st, k, status, leave, shiftKnown);
            && (r.Done? <==> k.emp in cfg.employees && shiftKnown && k !in st.days
                             && !RowLocked(st.locks, LockKey(MonthOf(k.date), None))
                             && !RowLocked(st.locks, LockKey(MonthOf(k.date), Some(cfg.employees[k.emp].branch))))
            && (r.Done? ==> SetByHand(r.state, k, status) && r.state.days - {k} == st.days - {k}
                            && r.state.days.Keys == st.days.Keys + {k} && r.state.locks == st.locks && r.state.logs == st.logs
                            && r.state.days[k].ledger == [] && r.state.days[k].row.leave == leave
                            && r.state.days[k].row.start.None? && r.state.days[k].row.end.None?)
  {
  }

  // An override of minutes does not last: the next recompute of the day writes the
  // minutes of its punches as if there had been no override. Its status does.
  lemma OverriddenMinutesAreTransient(cfg: Config, clk: Clock, k: Key, day: Day, u: Updates)
    ensures var plain := Recomputed(cfg, clk, k, day);
            var after := Recomputed(cfg, clk, k, day.(row := OverriddenRow(day.row, u)));
            && plain.Some? == after.Some?
            && (plain.Some? ==>
                  && after.value.row.working == plain.value.row.working && after.value.row.breaks == plain.value.row.breaks
                  && after.value.row.overtime == plain.value.row.overtime
                  && after.value.row.late == plain.value.row.late && after.value.row.early == plain.value.row.early
                  && after.value.row.status == Or(u.status, day.row.status))
  {
  }
}

// When the minutes stored for a day are those of its punches.
module SettledMinutes {
  import opened Common
  import opened Timeline
  import opened Sessions
  import opened Ledger
  import opened DayRow
  import opened Locks
  import opened AttendanceStore
  import opened AttendanceRuns

  predicate SameMinutes(a: Row, b: Row) {
    && a.firstIn == b.firstIn && a.lastOut == b.lastOut && a.working == b.working && a.breaks == b.breaks
    && a.late == b.late && a.early == b.early && a.overtime == b.overtime
  }

  // The row shows the minutes of its own ledger and expected times once the day is
  // over. The weekly-off flag only moves the status.
  predicate Settled(cs: Settings, k: Key, day: Day) {
    var ts := DayLine(day.ledger);
    Computable(day.row, ts) && SameMinutes(day.row, Derive(cs, Clock(k.date + 1, 0), false, k.date, day.row, ts))
  }

  ghost predicate SettledIn(cs: Settings, st: Store, k: Key) {
    k in st.days ==> Settled(cs, k, st.days[k])
  }

  // A step that neither sees the day k running nor writes its minutes or its
  // expected times directly.
  predicate Leaves(cfg: Config, s: Step, k: Key) {
    && (s.Manual? || s.Punched? || s.Posted? || s.Finalized? || s.Rescheduled? || s.Corrected? ==> s.clk.today != k.date)
    && (s.OverrideDay? && s.key == k ==>
          s.updates.working.None? && s.updates.breaks.None? && s.updates.overtime.None? && s.updates.late.None? && s.updates.early.None?)
    && (s.Rescheduled? && s.key == k ==> !cfg.plan(k.emp, k.date).Timing?)
  }

  lemma RecomputedSettles(cfg: Config, clk: Clock, k: Key, day: Day)
    requires k.date != clk.today && Recomputed(cfg, clk, k, day).Some?
    ensures Settled(cfg.settings, k, Recomputed(cfg, clk, k, day).value)
  {
    hide Walk, DayLine, Late, Early, ShiftMinutes, Minutes, StatusOf;
    var cs, ts := cfg.settings, DayLine(day.ledger);
    assert Totals(cs, clk, k.date, ts) == Totals(cs, Clock(k.date + 1, 0), k.date, ts);
  }

  lemma BlankSettled(cs: Settings, k: Key, start: Option<TimeOfDay>, end: Option<TimeOfDay>, status: Status, manual: bool, leave: bool)
    ensures Settled(cs, k, Day(Blank(start, end, status, manual, leave), []))
  {
    assert DayLine([]) == [];
  }

  lemma NoPunchesNoMinutes(cs: Settings, clk: Clock, date: Date, start: Option<TimeOfDay>)
    ensures Totals(cs, clk, date, []) == (0, 0) && Late(cs, date, start, []) == 0
  {
  }

  lemma SavedSettled(cfg: Config, clk: Clock, st: Store, j: Key, day: Day, k: Key)
    requires SettledIn(cfg.settings, st, k) && k.date != clk.today
    ensures SettledIn(cfg.settings, Kept(st, Saved(st, j, Recomputed(cfg, clk, j, day))), k)
  {
    hide Recomputed, Settled;
    if j == k && Recomputed(cfg, clk, j, day).Some? {
      RecomputedSettles(cfg, clk, k, day);
    }
  }

  lemma {:induction false} UploadsSettled(cfg: Config, clk: Clock, st: Store, rs: seq<Record>, k: Key)
    requires SettledIn(cfg.settings, st, k) && k.date != clk.today
    ensures SettledIn(cfg.settings, UploadAll(cfg, clk, st, rs), k)
  {
    hide Recomputed, Frozen, SettledIn;
    if rs != [] {
      var before := UploadAll(cfg, clk, st, rs[..|rs| - 1]);
      UploadsSettled(cfg, clk, st, rs[..|rs| - 1], k);
      var wanted := Wanted(cfg, before.locks, rs[|rs| - 1]);
      if wanted.Some? {
        SavedSettled(cfg, clk, before, wanted.value.key, Appended(DayFor(cfg, before.days, wanted.value.key), wanted.value.stamp), k);
      }
    }
  }

  lemma FinalizeSettled(cfg: Config, clk: Clock, st: Store, target: Option<Date>, reached: set<Key>, k: Key)
    requires SettledIn(cfg.settings, st, k) && k.date != clk.today
    ensures SettledIn(cfg.settings, FinalizedPart(cfg, clk, st, target, reached), k)
  {
    hide Recomputed, Settled;
    if k in st.days && Recomputed(cfg, clk, k, st.days[k]).Some? {
      RecomputedSettles(cfg, clk, k, st.days[k]);
    }
  }

  lemma PunchSettled(cfg: Config, clk: Clock, st: Store, j: Key, p: Stamp, k: Key)
    requires SettledIn(cfg.settings, st, k) && k.date != clk.today
    ensures SettledIn(cfg.settings, Kept(st, AddPunch(cfg, clk, st, j, p)), k)
  {
    hide Recomputed, Frozen, SettledIn;
    SavedSettled(cfg, clk, st, j, Appended(DayFor(cfg, st.days, j), p), k);
  }

  lemma ManualSettled(cfg: Config, clk: Clock, st: Store, j: Key, inTime: Time, outTime: Time, k: Key)
    requires SettledIn(cfg.settings, st, k) && k.date != clk.today
    ensures SettledIn(cfg.settings, Kept(st, CreateManual(cfg, clk, st, j, inTime, outTime)), k)
  {
    hide Recomputed, Frozen, SettledIn;
    SavedSettled(cfg, clk, st, j, Appended(Appended(FreshDay(cfg, j, Present, true), Stamp(inTime, In)), Stamp(outTime, Out)), k);
  }

  lemma CorrectionSettled(cfg: Config, clk: Clock, st: Store, j: Key, inMinute: int, outMinute: int, k: Key)
    requires SettledIn(cfg.settings, st, k) && k.date != clk.today
    ensures SettledIn(cfg.settings, Kept(st, Correct(cfg, clk, st, j, inMinute, outMinute)), k)
  {
    hide Recomputed, Frozen, SettledIn;
    if j in st.days {
      SavedSettled(cfg, clk, st, j, CorrectedDay(st.days[j], j.date, inMinute, outMinute), k);
    }
  }

  lemma RescheduleSettled(cfg: Config, clk: Clock, st: Store, j: Key, k: Key)
    requires SettledIn(cfg.settings, st, k) && k.date != clk.today && (j == k ==> !cfg.plan(k.emp, k.date).Timing?)
    ensures SettledIn(cfg.settings, Kept(st, Reschedule(cfg, clk, st, j)), k)
  {
    hide Recomputed, Frozen, Settled;
    if j in st.days {
      SavedSettled(cfg, clk, st, j, st.days[j], k);
    }
  }

  // A reschedule that does write expected times keeps a settled day settled exactly
  // when the punches make the same lateness, early leaving and overtime against the
  // new times; worked and break minutes do not depend on them.
  lemma RescheduleSettledExactly(cfg: Config, clk: Clock, st: Store, k: Key)
    requires k in st.days && Settled(cfg.settings, k, st.days[k]) && cfg.plan(k.emp, k.date).Timing? && Reschedule(cfg, clk, st, k).Done?
    ensures var row, ts, start, end := st.days[k].row, DayLine(st.days[k].ledger), PlannedStart(cfg, k), PlannedEnd(cfg, k);
            SettledIn(cfg.settings, Reschedule(cfg, clk, st, k).state, k)
            <==> ts == []
                 || (&& (end.None? || start.Some?)
                     && row.late == Late(cfg.settings, k.date, start, ts)
                     && row.early == (if end.Some? then Early(k.date, start.value, end.value, ts) else 0)
                     && row.overtime == Max(0, row.working - ShiftMinutes(start, end)))
  {
    hide Frozen, DayLine, Late, Early, Walk, Minutes, StatusOf;
    var day := st.days[k].(row := st.days[k].row.(start := PlannedStart(cfg, k), end := PlannedEnd(cfg, k)));
    assert Reschedule(cfg, clk, st, k) == Done(st.(days := st.days[k := day]));
    NoPunchesNoMinutes(cfg.settings, Clock(k.date + 1, 0), k.date, st.days[k].row.start);
    NoPunchesNoMinutes(cfg.settings, Clock(k.date + 1, 0), k.date, PlannedStart(cfg, k));
    var st' := Reschedule(cfg, clk, st, k).state;
    assert st'.days[k] == day && DayLine(day.ledger) == DayLine(st.days[k].ledger);
    assert SettledIn(cfg.settings, st', k) <==> Settled(cfg.settings, k, day);
  }

  lemma OverrideSettled(cfg: Config, st: Store, j: Key, u: Updates, shiftKnown: bool, k: Key)
    requires SettledIn(cfg.settings, st, k)
    requires j == k ==> u.working.None? && u.breaks.None? && u.overtime.None? && u.late.None? && u.early.None?
    ensures SettledIn(cfg.settings, Kept(st, Override(cfg, st, j, u, shiftKnown)), k)
  {
    hide Frozen, DayLine, Walk, Minutes, Late, Early, ShiftMinutes, StatusOf;
  }

  lemma MarkSettled(cfg: Config, st: Store, j: Key, status: Status, leave: bool, shiftKnown: bool, k: Key)
    requires SettledIn(cfg.settings, st, k)
    ensures SettledIn(cfg.settings, Kept(st, MarkDay(cfg, st, j, status, leave, shiftKnown)), k)
  {
    hide Frozen, Settled;
    BlankSettled(cfg.settings, j, None, None, status, true, leave);
  }

  lemma GenerationSettled(cfg: Config, st: Store, sel: seq<EmpId>, branch: Option<int>, from: Date, n: nat, k: Key)
    requires SettledIn(cfg.settings, st, k)
    ensures SettledIn(cfg.settings, GeneratedFrom(cfg, st, sel, branch, from, n), k)
  {
    hide GeneratedFrom, Settled;
    GenerationExact(cfg, st, sel, branch, from, n);
    BlankSettled(cfg.settings, k, PlannedStart(cfg, k), PlannedEnd(cfg, k), GeneratedStatus(cfg, k), false, false);
  }

  lemma StepSettled(cfg: Config, st: Store, s: Step, k: Key)
    requires SettledIn(cfg.settings, st, k) && Leaves(cfg, s, k)
    ensures SettledIn(cfg.settings, Apply(cfg, st, s), k)
  {
    hide UploadAll, FinalizedPart, Blocked, Reschedule, Correct, CreateManual, AddPunch, MarkDay, Override, LockPeriod, UnlockPeriod, GeneratedFrom, Settled;
    match s {
      case Manual(clk, j, i, o) => ManualSettled(cfg, clk, st, j, i, o, k);
      case Punched(clk, j, p) => PunchSettled(cfg, clk, st, j, p, k);
      case Corrected(clk, j, i, o) => CorrectionSettled(cfg, clk, st, j, i, o, k);
      case Posted(clk, serial, rs) => UploadsSettled(At(cfg, serial), clk, st, rs, k);
      case Generated(from, to, b, d, ids) => GenerationSettled(cfg, st, Selected(cfg, cfg.roster, b, d, ids), b, from, Covered(from, to), k);
      case Finalized(clk, target, reached) =>
        FinalizeSettled(cfg, clk, st, target, if Blocked(cfg, clk, st, target) then reached else st.days.Keys, k);
      case Rescheduled(clk, j) => RescheduleSettled(cfg, clk, st, j, k);
      case Mark(j, x, leave, known) => MarkSettled(cfg, st, j, x, leave, known, k);
      case OverrideDay(j, u, known) => OverrideSettled(cfg, st, j, u, known, k);
      case _ =>
    }
  }

  lemma {:induction false} UploadsKeepDays(cfg: Config, clk: Clock, st: Store, rs: seq<Record>)
    ensures st.days.Keys <= UploadAll(cfg, clk, st, rs).days.Keys
  {
    hide Insertion;
    if rs != [] {
      UploadsKeepDays(cfg, clk, st, rs[..|rs| - 1]);
    }
  }

  lemma StepKeepsDays(cfg: Config, st: Store, s: Step)
    ensures st.days.Keys <= Apply(cfg, st, s).days.Keys
  {
    hide Recomputed, Frozen, UploadAll, GeneratedFrom, LockPeriod, UnlockPeriod, Blocked, FinalDay;
    match s {
      case Posted(clk, serial, rs) => UploadsKeepDays(At(cfg, serial), clk, st, rs);
      case Generated(from, to, b, d, ids) => GenerationExact(cfg, st, Selected(cfg, cfg.roster, b, d, ids), b, from, Covered(from, to));
      case _ =>
    }
  }

  // No run removes a day.
  lemma {:induction false} RunsKeepDays(cfg: Config, st: Store, steps: seq<Step>)
    ensures st.days.Keys <= Run(cfg, st, steps).days.Keys
  {
    hide Apply;
    if steps != [] {
      RunsKeepDays(cfg, st, steps[..|steps| - 1]);
      StepKeepsDays(cfg, Run(cfg, st, steps[..|steps| - 1]), steps[|steps| - 1]);
    }
  }

  // A day that is not there yet, or whose minutes are those of its punches, stays so
  // through every run of such steps: uploads, punches, manual days, corrections,
  // recomputes, generation and finalisation, finished or not.
  lemma {:induction false} MinutesStaySettled(cfg: Config, st: Store, steps: seq<Step>, k: Key)
    requires SettledIn(cfg.settings, st, k) && forall i :: 0 <= i < |steps| ==> Leaves(cfg, steps[i], k)
    ensures SettledIn(cfg.settings, Run(cfg, st, steps), k)
  {
    hide Apply, SettledIn, Leaves;
    if steps != [] {
      var front := steps[..|steps| - 1];
      MinutesStaySettled(cfg, st, front, k);
      StepSettled(cfg, Run(cfg, st, front), steps[|steps| - 1], k);
    }
  }

  // Whatever a day has been through, live accrual, overrides and reschedules
  // included: a finalisation that rewrites it settles its minutes, and they then stay
  // those of its punches.
  lemma FinalizationSettles(cfg: Config, st: Store, clk: Clock, target: Option<Date>, reached: set<Key>, steps: seq<Step>, k: Key)
    requires k in st.days && Finalizable(st, clk, target, k) && Computable(st.days[k].row, DayLine(st.days[k].ledger))
    requires k in reached || !Blocked(cfg, clk, st, target)
    requires forall i :: 0 <= i < |steps| ==> Leaves(cfg, steps[i], k)
    ensures var st' := Run(cfg, FinalizeRun(cfg, clk, st, target, reached), steps);
            k in st'.days && Settled(cfg.settings, k, st'.days[k])
  {
    hide Run, Leaves, DayLine, Settled, Blocked;
    RecomputedSettles(cfg, clk, k, st.days[k]);
    var st1 := FinalizeRun(cfg, clk, st, target, reached);
    MinutesStaySettled(cfg, st1, steps, k);
    RunsKeepDays(cfg, st1, steps);
  }
}
