// Days, punches and locks as one value, and what each attendance operation does
// to it. An operation that raises leaves the value as it was; only finalisation
// keeps what it had done before it raised.

module AttendanceStore {
  import opened Common
  import opened Timeline
  import opened Sessions
  import opened Ledger
  import opened DayRow
  import opened Calendar
  import opened Locks

  type EmpId = int

  datatype Key = Key(emp: EmpId, date: Date)

  // A day row with the punches that refer to it, in order of insertion.
  datatype Day = Day(row: Row, ledger: seq<Punch>)

  type Days = map<Key, Day>

  // `logs` holds total_logs per device serial number.
  datatype Store = Store(days: Days, locks: LockTable, logs: map<string, nat>)

  // A non-deleted employee.
  datatype Employee = Employee(branch: int, dept: int, active: bool)

  // Outcome of resolving the shift of an employee for a date. `weekOff` is the
  // flag read during generation, None when reading it raises.
  datatype Plan = ResolveFails | NoTiming | Timing(start: Option<TimeOfDay>, end: Option<TimeOfDay>, weekOff: Option<bool>)

  datatype Config = Config(
    employees: map<EmpId, Employee>,
    roster: seq<EmpId>,                        // the employee table in row order
    branches: set<int>,
    plan: (EmpId, Date) -> Plan,
    weeklyOff: (EmpId, Date) -> bool,
    holiday: (EmpId, Date) -> bool,
    approvedLeave: (EmpId, Date) -> bool,
    zones: string -> string -> Option<(Time, Date)>,   // by serial number: device text to UTC instant and local date
    instant: string -> Option<(Time, Date)>,   // the same for the device at hand
    resolve: string -> Option<EmpId>,          // device PIN to employee
    settings: Settings)

  datatype Error =
    | EmployeeNotFound | PeriodLocked | DayExists | DayNotFound | ShiftNotFound
    | ShiftUnresolved | RecomputeFailed | BadValue | BadClockText

  // --- Helpers shared by the operations ---

  // check_period_locked with an employee: the branch is the employee's own.
  predicate Frozen(cfg: Config, t: LockTable, k: Key) {
    IsLocked(t, MonthOf(k.date), if k.emp in cfg.employees then Some(cfg.employees[k.emp].branch) else None)
  }

  function PlannedStart(cfg: Config, k: Key): Option<TimeOfDay> {
    match cfg.plan(k.emp, k.date)
    case Timing(s, _, _) => s
    case _ => None
  }

  function PlannedEnd(cfg: Config, k: Key): Option<TimeOfDay> {
    match cfg.plan(k.emp, k.date)
    case Timing(_, e, _) => e
    case _ => None
  }

  function FreshDay(cfg: Config, k: Key, status: Status, manual: bool): Day {
    Day(Blank(PlannedStart(cfg, k), PlannedEnd(cfg, k), status, manual, false), [])
  }

  // The weekly-off flag the metrics engine sees; a failing lookup counts as no.
  predicate Off(cfg: Config, k: Key) {
    !cfg.plan(k.emp, k.date).ResolveFails? && cfg.weeklyOff(k.emp, k.date)
  }

  function Appended(day: Day, p: Stamp): Day {
    day.(ledger := day.ledger + [Punch(|day.ledger| + 1, p, true)])
  }

  // _recompute_day_metrics; None when it raises.
  function Recomputed(cfg: Config, clk: Clock, k: Key, day: Day): Option<Day> {
    var ts := DayLine(day.ledger);
    if Computable(day.row, ts) then Some(day.(row := Derive(cfg.settings, clk, Off(cfg, k), k.date, day.row, ts)))
    else None
  }

  function Saved(st: Store, k: Key, day: Option<Day>): Outcome<Store, Error> {
    match day
    case None => Refused(RecomputeFailed)
    case Some(d) => Done(st.(days := st.days[k := d]))
  }

  // --- Marking by hand ---

  function MarkDay(cfg: Config, st: Store, k: Key, status: Status, leave: bool, shiftKnown: bool): Outcome<Store, Error> {
    if k.emp !in cfg.employees then Refused(EmployeeNotFound)
    else if Frozen(cfg, st.locks, k) then Refused(PeriodLocked)
    else if !shiftKnown then Refused(ShiftNotFound)
    else if k in st.days then Refused(DayExists)
    else Done(st.(days := st.days[k := Day(Blank(None, None, status, true, leave), [])]))
  }

  function CreateManual(cfg: Config, clk: Clock, st: Store, k: Key, inTime: Time, outTime: Time): Outcome<Store, Error> {
    if k.emp !in cfg.employees then Refused(EmployeeNotFound)
    else if Frozen(cfg, st.locks, k) then Refused(PeriodLocked)
    else if k in st.days then Refused(DayExists)
    else if cfg.plan(k.emp, k.date).ResolveFails? then Refused(ShiftUnresolved)
    else
      var day := Appended(Appended(FreshDay(cfg, k, Present, true), Stamp(inTime, In)), Stamp(outTime, Out));
      Saved(st, k, Recomputed(cfg, clk, k, day))
  }

  // Fields an override may set; None leaves the field alone.
  datatype Updates = Updates(status: Option<Status>, leave: Option<bool>, working: Option<int>, breaks: Option<int>,
                             overtime: Option<int>, late: Option<int>, early: Option<int>)

  function Or<T>(o: Option<T>, fallback: T): T {
    if o.Some? then o.value else fallback
  }

  function OverriddenRow(r: Row, u: Updates): Row {
    r.(manual := true, status := Or(u.status, r.status), leave := Or(u.leave, r.leave), working := Or(u.working, r.working),
       breaks := Or(u.breaks, r.breaks), overtime := Or(u.overtime, r.overtime), late := Or(u.late, r.late), early := Or(u.early, r.early))
  }

  // The table's CHECK constraints.
  predicate NonNegative(r: Row) {
    r.working >= 0 && r.breaks >= 0 && r.overtime >= 0 && r.late >= 0 && r.early >= 0
  }

  function Override(cfg: Config, st: Store, k: Key, u: Updates, shiftKnown: bool): Outcome<Store, Error> {
    if k !in st.days then Refused(DayNotFound)
    else if Frozen(cfg, st.locks, k) then Refused(PeriodLocked)
    else if k.emp !in cfg.employees then Refused(EmployeeNotFound)
    else if !shiftKnown then Refused(ShiftNotFound)
    else
      var row := OverriddenRow(st.days[k].row, u);
      if !NonNegative(row) then Refused(BadValue)
      else Done(st.(days := st.days[k := st.days[k].(row := row)]))
  }

  // `k.date` is the date part of the punch time in its own time zone.
  function AddPunch(cfg: Config, clk: Clock, st: Store, k: Key, p: Stamp): Outcome<Store, Error> {
    if k.emp !in cfg.employees then Refused(EmployeeNotFound)
    else if Frozen(cfg, st.locks, k) then Refused(PeriodLocked)
    else if k !in st.days && cfg.plan(k.emp, k.date).ResolveFails? then Refused(ShiftUnresolved)
    else
      var day := if k in st.days then st.days[k] else FreshDay(cfg, k, NotMarked, false);
      Saved(st, k, Recomputed(cfg, clk, k, Appended(day, p)))
  }

  // --- Corrections ---

  function Invalidated(ledger: seq<Punch>): (r: seq<Punch>)
    ensures |r| == |ledger|
  {
    seq(|ledger|, i requires 0 <= i < |ledger| => ledger[i].(valid := false))
  }

  function CorrectedIn(date: Date, inMinute: int): Time {
    date * DAY + inMinute * MINUTE
  }

  function CorrectedOut(date: Date, inMinute: int, outMinute: int): Time {
    date * DAY + outMinute * MINUTE + (if outMinute < inMinute then DAY else 0)
  }

  function CorrectedDay(day: Day, date: Date, inMinute: int, outMinute: int): Day {
    var d := Day(day.row.(regularized := true), Invalidated(day.ledger));
    Appended(Appended(d, Stamp(CorrectedIn(date, inMinute), In)), Stamp(CorrectedOut(date, inMinute, outMinute), Out))
  }

  // The attendance part of an approved correction: nothing to do without a day row.
  function ApplyCorrection(cfg: Config, clk: Clock, st: Store, k: Key, inMinute: int, outMinute: int): Outcome<Store, Error> {
    if k !in st.days then Done(st)
    else Saved(st, k, Recomputed(cfg, clk, k, CorrectedDay(st.days[k], k.date, inMinute, outMinute)))
  }

  // approve_correction up to its transaction, then the rewrite of the day.
  function Correct(cfg: Config, clk: Clock, st: Store, k: Key, inMinute: int, outMinute: int): Outcome<Store, Error> {
    if Frozen(cfg, st.locks, k) then Refused(PeriodLocked)
    else if k.emp !in cfg.employees then Refused(EmployeeNotFound)
    else ApplyCorrection(cfg, clk, st, k, inMinute, outMinute)
  }

  // --- Midnight finalisation ---

  predicate Finalizable(st: Store, clk: Clock, target: Option<Date>, k: Key) {
    && k.date <= (if target.Some? && target.value < clk.today then target.value else clk.today - 1)
    && !IsLocked(st.locks, MonthOf(k.date), None)
  }

  predicate Unfinalizable(cfg: Config, clk: Clock, st: Store, target: Option<Date>, k: Key)
    requires k in st.days
  {
    Finalizable(st, clk, target, k) && Recomputed(cfg, clk, k, st.days[k]).None?
  }

  function FinalDay(cfg: Config, clk: Clock, st: Store, target: Option<Date>, k: Key): Day
    requires k in st.days
  {
    if Finalizable(st, clk, target, k) && Recomputed(cfg, clk, k, st.days[k]).Some?
    then Recomputed(cfg, clk, k, st.days[k]).value else st.days[k]
  }

  // Some selected day cannot be recomputed.
  predicate Blocked(cfg: Config, clk: Clock, st: Store, target: Option<Date>) {
    exists k :: k in st.days && Unfinalizable(cfg, clk, st, target, k)
  }

  // The store once the days in `reached` have been finalised.
  function FinalizedPart(cfg: Config, clk: Clock, st: Store, target: Option<Date>, reached: set<Key>): Store {
    st.(days := map k | k in st.days :: if k in reached then FinalDay(cfg, clk, st, target, k) else st.days[k])
  }

  // A run that gets through; it raises at a day that cannot be recomputed.
  function Finalize(cfg: Config, clk: Clock, st: Store, target: Option<Date>): Outcome<Store, Error> {
    if Blocked(cfg, clk, st, target) then Refused(RecomputeFailed)
    else Done(FinalizedPart(cfg, clk, st, target, st.days.Keys))
  }

  // What a run leaves behind. Nothing is rolled back when it raises: the job that
  // called it commits the days reached by then, whichever the query yielded first.
  function FinalizeRun(cfg: Config, clk: Clock, st: Store, target: Option<Date>, reached: set<Key>): Store {
    FinalizedPart(cfg, clk, st, target, if Blocked(cfg, clk, st, target) then reached else st.days.Keys)
  }

  // --- Recompute on demand ---

  // recompute_attendance: the new expected times are written and nothing else,
  // because the recompute sits in the handler of a failing resolution.
  function Reschedule(cfg: Config, clk: Clock, st: Store, k: Key): Outcome<Store, Error> {
    if k.emp !in cfg.employees then Refused(EmployeeNotFound)
    else if Frozen(cfg, st.locks, k) then Refused(PeriodLocked)
    else if k !in st.days then Refused(DayNotFound)
    else match cfg.plan(k.emp, k.date)
      case ResolveFails => Saved(st, k, Recomputed(cfg, clk, k, st.days[k]))
      case NoTiming => Done(st)
      case Timing(s, e, _) => Done(st.(days := st.days[k := st.days[k].(row := st.days[k].row.(start := s, end := e))]))
  }

  // --- Batch generation ---

  predicate Matches(cfg: Config, branch: Option<int>, dept: Option<int>, ids: set<EmpId>, e: EmpId) {
    && e in cfg.employees && cfg.employees[e].active
    && (branch.Some? ==> cfg.employees[e].branch == branch.value)
    && (dept.Some? ==> cfg.employees[e].dept == dept.value)
    && (ids != {} ==> e in ids)
  }

  // The employees a request selects, in table order; an empty id list is no filter.
  function Selected(cfg: Config, roster: seq<EmpId>, branch: Option<int>, dept: Option<int>, ids: set<EmpId>): seq<EmpId> {
    if roster == [] then []
    else
      var e := roster[|roster| - 1];
      Selected(cfg, roster[..|roster| - 1], branch, dept, ids) + (if Matches(cfg, branch, dept, ids, e) then [e] else [])
  }

  // Holiday before leave before week-off before not-marked.
  function GeneratedStatus(cfg: Config, k: Key): Status {
    if cfg.holiday(k.emp, k.date) then Holiday
    else if cfg.approvedLeave(k.emp, k.date) then OnLeave
    else match cfg.plan(k.emp, k.date)
      case Timing(_, _, Some(true)) => WeekOff
      case _ => NotMarked
  }

  function GeneratedDay(cfg: Config, k: Key): Day {
    FreshDay(cfg, k, GeneratedStatus(cfg, k), false)
  }

  // One row for each selected employee that has none on date d.
  function AddRows(cfg: Config, days: Days, sel: seq<EmpId>, d: Date): Days {
    if sel == [] then days
    else
      var ds, k := AddRows(cfg, days, sel[..|sel| - 1], d), Key(sel[|sel| - 1], d);
      if k in ds then ds else ds[k := GeneratedDay(cfg, k)]
  }

  function GeneratedOn(cfg: Config, st: Store, sel: seq<EmpId>, branch: Option<int>, d: Date): Store {
    if IsLocked(st.locks, MonthOf(d), branch) then st else st.(days := AddRows(cfg, st.days, sel, d))
  }

  function GeneratedFrom(cfg: Config, st: Store, sel: seq<EmpId>, branch: Option<int>, from: Date, n: nat): Store {
    if n == 0 then st else GeneratedOn(cfg, GeneratedFrom(cfg, st, sel, branch, from, n - 1), sel, branch, from + n - 1)
  }

  // Dates covered by a request: at most 366 from its start.
  function Covered(from: Date, to: Date): nat {
    if to < from then 0 else if to - from + 1 > 366 then 366 else to - from + 1
  }

  function Generate(cfg: Config, st: Store, from: Date, to: Date, branch: Option<int>, dept: Option<int>, ids: set<EmpId>): Store {
    GeneratedFrom(cfg, st, Selected(cfg, cfg.roster, branch, dept, ids), branch, from, Covered(from, to))
  }

  // --- Device uploads ---

  // One parsed line of a device upload.
  datatype Record = Record(pin: string, time: string, status: string, verify: string, work: string)

  function KindOf(status: string): Kind {
    if status == "0" || status == "4" then In
    else if status == "1" || status == "5" then Out
    else if status == "2" then BreakOut
    else if status == "3" then BreakIn
    else In
  }

  predicate PunchExists(days: Days, e: EmpId, p: Stamp) {
    exists k :: k in days && k.emp == e && exists i :: 0 <= i < |days[k].ledger| && days[k].ledger[i].stamp == p
  }

  datatype Upload = Upload(key: Key, stamp: Stamp)

  // The day and punch a record asks for; None when the record is skipped for its
  // timestamp, its PIN or a period lock.
  function Wanted(cfg: Config, t: LockTable, r: Record): Option<Upload> {
    match cfg.instant(r.time)
    case None => None
    case Some((utc, date)) =>
      match cfg.resolve(r.pin)
      case None => None
      case Some(e) =>
        if e !in cfg.employees || Frozen(cfg, t, Key(e, date)) then None
        else Some(Upload(Key(e, date), Stamp(utc, KindOf(r.status))))
  }

  function DayFor(cfg: Config, days: Days, k: Key): Day {
    if k in days then days[k] else FreshDay(cfg, k, NotMarked, false)
  }

  // The day after one record, if the record leads to an insertion.
  function Insertion(cfg: Config, clk: Clock, st: Store, r: Record): Option<(Key, Day)> {
    match Wanted(cfg, st.locks, r)
    case None => None
    case Some(u) =>
      if PunchExists(st.days, u.key.emp, u.stamp) then None
      else match Recomputed(cfg, clk, u.key, Appended(DayFor(cfg, st.days, u.key), u.stamp))
        case None => None
        case Some(d) => Some((u.key, d))
  }

  function UploadOne(cfg: Config, clk: Clock, st: Store, r: Record): Store {
    match Insertion(cfg, clk, st, r)
    case None => st
    case Some((k, d)) => st.(days := st.days[k := d])
  }

  function UploadAll(cfg: Config, clk: Clock, st: Store, rs: seq<Record>): Store {
    if rs == [] then st
    else UploadOne(cfg, clk, UploadAll(cfg, clk, st, rs[..|rs| - 1]), rs[|rs| - 1])
  }

  function Inserted(cfg: Config, clk: Clock, st: Store, rs: seq<Record>): (n: nat)
    ensures n <= |rs|
  {
    if rs == [] then 0
    else Inserted(cfg, clk, st, rs[..|rs| - 1])
         + (if Insertion(cfg, clk, UploadAll(cfg, clk, st, rs[..|rs| - 1]), rs[|rs| - 1]).Some? then 1 else 0)
  }

  // The configuration as the device with this serial number sees it.
  function At(cfg: Config, serial: string): Config {
    cfg.(instant := cfg.zones(serial))
  }

  function Logged(st: Store, serial: string): nat {
    if serial in st.logs then st.logs[serial] else 0
  }

  // An ATTLOG post of already parsed records; an unknown device registers itself.
  function Post(cfg: Config, clk: Clock, st: Store, serial: string, rs: seq<Record>): Store {
    UploadAll(At(cfg, serial), clk, st, rs).(logs := st.logs[serial := Logged(st, serial) + Inserted(At(cfg, serial), clk, st, rs)])
  }
}
