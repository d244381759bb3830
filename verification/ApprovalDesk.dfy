// Approval envelopes, the requests behind them, leave balances and the attendance
// tables as one value, and what each approval operation does to it.

module ApprovalDesk {
  import opened Common
  import opened DayRow
  import opened Calendar
  import opened Text
  import opened ClockText
  import opened Corrections
  import opened AttendanceStore

  datatype Verdict = Pending | Approved | Rejected

  datatype RequestType = Attendance | Leave | LoginReset

  // `ref` is the polymorphic reference: its table is chosen by `kind`.
  datatype Envelope = Envelope(kind: RequestType, ref: nat, emp: EmpId, status: Verdict)

  // Durations and balances are in hundredths of a day.
  datatype LeaveRow = LeaveRow(leaveType: int, start: Date, duration: nat, status: Verdict)

  datatype Regularization = Regularization(emp: EmpId, date: Date, text: string, status: Verdict)

  datatype ResetRow = ResetRow(emp: EmpId, status: Verdict)

  datatype BalanceKey = BalanceKey(emp: EmpId, leaveType: int, cycleYear: int)

  datatype Balance = Balance(used: int, closing: int)

  // Leave settings; without a settings row the cycle is the calendar year.
  datatype Cycle = Cycle(financial: bool, startMonth: int)

  // The next row id of each of the four tables that get new rows.
  datatype Serials = Serials(envelope: nat, leave: nat, reg: nat, reset: nat)

  datatype Office = Office(
    envelopes: map<nat, Envelope>,
    leaves: map<nat, LeaveRow>,
    regs: map<nat, Regularization>,
    resets: map<nat, ResetRow>,
    balances: map<BalanceKey, Balance>,
    next: Serials,
    store: Store)

  // No envelope and no request yet.
  function Empty(balances: map<BalanceKey, Balance>, st: Store): Office {
    Office(map[], map[], map[], map[], balances, Serials(0, 0, 0, 0), st)
  }

  // The deciding user: the employee linked to the account and the data scope.
  datatype Reviewer = Reviewer(linked: Option<EmpId>, branch: Option<int>, dept: Option<int>)

  datatype Fault =
    | EnvelopeNotFound | AlreadyDecided | EmployeeUnknown | OutOfScope | SelfApproval | SourceNotFound
    | BalanceNotFound | InsufficientBalance | RemarksRequired | DuplicatePending | FeatureDisabled
    | AttendanceFault(error: Error) | NotificationFailed

  // A call that fails can still have changed the tables.
  datatype Answer = Answer(office: Office, fault: Option<Fault>)

  function CycleYear(cycle: Cycle, start: Date): int {
    var m := MonthOf(start);
    if cycle.financial && m % 12 + 1 < cycle.startMonth then YearOf(m) - 1 else YearOf(m)
  }

  function SourceStatus(o: Office, kind: RequestType, ref: nat): Option<Verdict> {
    match kind
    case Attendance => if ref in o.regs then Some(o.regs[ref].status) else None
    case Leave => if ref in o.leaves then Some(o.leaves[ref].status) else None
    case LoginReset => if ref in o.resets then Some(o.resets[ref].status) else None
  }

  // The id the next source row of this type will get.
  function NextRef(o: Office, kind: RequestType): nat {
    match kind
    case Attendance => o.next.reg
    case Leave => o.next.leave
    case LoginReset => o.next.reset
  }

  // --- Deciding ---

  // The checks made before anything is written.
  function Screen(cfg: Config, o: Office, id: nat, who: Reviewer): Option<Fault> {
    if id !in o.envelopes then Some(EnvelopeNotFound)
    else
      var e := o.envelopes[id];
      if !e.status.Pending? then Some(AlreadyDecided)
      else if e.emp !in cfg.employees then Some(EmployeeUnknown)
      else if who.branch.Some? && cfg.employees[e.emp].branch != who.branch.value then Some(OutOfScope)
      else if who.dept.Some? && cfg.employees[e.emp].dept != who.dept.value then Some(OutOfScope)
      else if who.linked == Some(e.emp) then Some(SelfApproval)
      else None
  }

  function WithVerdict(o: Office, id: nat, v: Verdict): map<nat, Envelope>
    requires id in o.envelopes
  {
    o.envelopes[id := o.envelopes[id].(status := v)]
  }

  // approve_correction, also reached directly by its own route. The envelope's
  // request type is not consulted.
  function DecideCorrection(cfg: Config, clk: Clock, o: Office, id: nat, v: Verdict): Outcome<Office, Fault> {
    if id !in o.envelopes then Refused(EnvelopeNotFound)
    else if !o.envelopes[id].status.Pending? then Refused(AlreadyDecided)
    else
      var ref := o.envelopes[id].ref;
      if ref !in o.regs then Refused(SourceNotFound)
      else
        var reg := o.regs[ref];
        var k := Key(reg.emp, reg.date);
        if Frozen(cfg, o.store.locks, k) then Refused(AttendanceFault(PeriodLocked))
        else if k.emp !in cfg.employees then Refused(EmployeeUnknown)
        else
          var marked := o.(envelopes := WithVerdict(o, id, v), regs := o.regs[ref := reg.(status := v)]);
          if v != Approved || k !in o.store.days then Done(marked)
          else match ParseSpan(reg.text)
            case None => Refused(AttendanceFault(BadClockText))
            case Some((i, t)) =>
              match ApplyCorrection(cfg, clk, o.store, k, i, t)
              case Refused(e) => Refused(AttendanceFault(e))
              case Done(st) => Done(marked.(store := st))
  }

  function BalanceKeyOf(cycle: Cycle, o: Office, id: nat): BalanceKey
    requires id in o.envelopes && o.envelopes[id].ref in o.leaves
  {
    var e := o.envelopes[id];
    var row := o.leaves[e.ref];
    BalanceKey(e.emp, row.leaveType, CycleYear(cycle, row.start))
  }

  function DecideLeave(cycle: Cycle, o: Office, id: nat, v: Verdict): Outcome<Office, Fault>
    requires id in o.envelopes
  {
    var ref := o.envelopes[id].ref;
    if ref !in o.leaves then Refused(SourceNotFound)
    else
      var row := o.leaves[ref];
      var marked := o.(envelopes := WithVerdict(o, id, v), leaves := o.leaves[ref := row.(status := v)]);
      if v != Approved then Done(marked)
      else
        var key := BalanceKeyOf(cycle, o, id);
        if key !in o.balances then Refused(BalanceNotFound)
        else
          var b := o.balances[key];
          if b.closing < row.duration then Refused(InsufficientBalance)
          else Done(marked.(balances := o.balances[key := Balance(b.used + row.duration, b.closing - row.duration)]))
  }

  function DecideReset(o: Office, id: nat, v: Verdict): Outcome<Office, Fault>
    requires id in o.envelopes
  {
    var ref := o.envelopes[id].ref;
    if ref !in o.resets then Refused(SourceNotFound)
    else Done(o.(envelopes := WithVerdict(o, id, v), resets := o.resets[ref := o.resets[ref].(status := v)]))
  }

  function Decide(cfg: Config, cycle: Cycle, clk: Clock, o: Office, id: nat, v: Verdict): Outcome<Office, Fault>
    requires id in o.envelopes
  {
    match o.envelopes[id].kind
    case Attendance => DecideCorrection(cfg, clk, o, id, v)
    case Leave => DecideLeave(cycle, o, id, v)
    case LoginReset => DecideReset(o, id, v)
  }

  // approve_request and reject_request. `notified` says whether the notification
  // and audit rows at the end are written; an attendance decision is committed
  // before them, the others are not.
  function Judge(cfg: Config, cycle: Cycle, clk: Clock, o: Office, id: nat, who: Reviewer, v: Verdict, notified: bool): Answer {
    var screened := Screen(cfg, o, id, who);
    if screened.Some? then Answer(o, screened)
    else match Decide(cfg, cycle, clk, o, id, v)
      case Refused(f) => Answer(o, Some(f))
      case Done(o') =>
        if notified then Answer(o', None)
        else Answer(if o.envelopes[id].kind.Attendance? then o' else o, Some(NotificationFailed))
  }

  function Approve(cfg: Config, cycle: Cycle, clk: Clock, o: Office, id: nat, who: Reviewer, notified: bool): Answer {
    Judge(cfg, cycle, clk, o, id, who, Approved, notified)
  }

  function Reject(cfg: Config, cycle: Cycle, clk: Clock, o: Office, id: nat, remarks: string, who: Reviewer, notified: bool): Answer {
    if Strip(remarks) == "" then Answer(o, Some(RemarksRequired)) else Judge(cfg, cycle, clk, o, id, who, Rejected, notified)
  }

  // --- Bulk decisions ---

  datatype Item = Item(id: nat, notified: bool)

  datatype Line = Line(id: nat, fault: Option<Fault>)

  datatype Batch = Batch(office: Office, lines: seq<Line>)

  function JudgeAll(cfg: Config, cycle: Cycle, clk: Clock, o: Office, items: seq<Item>, who: Reviewer, v: Verdict): (b: Batch)
    ensures |b.lines| == |items|
  {
    if items == [] then Batch(o, [])
    else
      var b, item := JudgeAll(cfg, cycle, clk, o, items[..|items| - 1], who, v), items[|items| - 1];
      var a := Judge(cfg, cycle, clk, b.office, item.id, who, v, item.notified);
      Batch(a.office, b.lines + [Line(item.id, a.fault)])
  }

  // --- Cancelling and submitting ---

  // Hard-deletes the envelope and, if still there, its source row.
  function Cancel(o: Office, id: nat): Outcome<Office, Fault> {
    if id !in o.envelopes then Refused(EnvelopeNotFound)
    else
      var e := o.envelopes[id];
      if !e.status.Pending? then Refused(AlreadyDecided)
      else
        var o' := o.(envelopes := o.envelopes - {id});
        Done(match e.kind
             case Attendance => o'.(regs := o.regs - {e.ref})
             case Leave => o'.(leaves := o.leaves - {e.ref})
             case LoginReset => o'.(resets := o.resets - {e.ref}))
  }

  function WithEnvelope(o: Office, kind: RequestType, ref: nat, emp: EmpId): Office {
    o.(envelopes := o.envelopes[o.next.envelope := Envelope(kind, ref, emp, Pending)],
       next := o.next.(envelope := o.next.envelope + 1))
  }

  // submit_approval_request: any existing source row, whatever its status and
  // whether or not it already has an envelope.
  function Submit(cfg: Config, o: Office, kind: RequestType, ref: nat, emp: EmpId): Outcome<Office, Fault> {
    if emp !in cfg.employees then Refused(EmployeeUnknown)
    else if SourceStatus(o, kind, ref).None? then Refused(SourceNotFound)
    else Done(WithEnvelope(o, kind, ref, emp))
  }

  function WithReg(o: Office, reg: Regularization): Office {
    o.(regs := o.regs[o.next.reg := reg], next := o.next.(reg := o.next.reg + 1))
  }

  function WithRegularization(o: Office, k: Key, requestedIn: Wall, requestedOut: Wall): Office {
    var reg := Regularization(k.emp, k.date, RequestText(requestedIn, requestedOut), Pending);
    WithEnvelope(WithReg(o, reg), Attendance, o.next.reg, k.emp)
  }

  predicate RegularizationPending(o: Office, k: Key) {
    exists r :: r in o.regs && o.regs[r].emp == k.emp && o.regs[r].date == k.date && o.regs[r].status.Pending?
  }

  // submit_attendance_regularization
  function SubmitRegularization(cfg: Config, o: Office, k: Key, requestedIn: Wall, requestedOut: Wall): Outcome<Office, Fault> {
    if k.emp !in cfg.employees then Refused(EmployeeUnknown)
    else if RegularizationPending(o, k) then Refused(DuplicatePending)
    else Done(WithRegularization(o, k, requestedIn, requestedOut))
  }

  // request_correction of the attendance service: needs a day, looks at the lock,
  // does not look for a pending request.
  function RequestCorrection(cfg: Config, o: Office, enabled: bool, k: Key, requestedIn: Wall, requestedOut: Wall): Outcome<Office, Fault> {
    if !enabled then Refused(FeatureDisabled)
    else if k.emp !in cfg.employees then Refused(EmployeeUnknown)
    else if k !in o.store.days then Refused(AttendanceFault(DayNotFound))
    else if Frozen(cfg, o.store.locks, k) then Refused(AttendanceFault(PeriodLocked))
    else Done(WithRegularization(o, k, requestedIn, requestedOut))
  }

  predicate ResetPending(o: Office, emp: EmpId) {
    exists r :: r in o.resets && o.resets[r].emp == emp && o.resets[r].status.Pending?
  }

  function WithReset(o: Office, emp: EmpId): Office {
    WithEnvelope(o.(resets := o.resets[o.next.reset := ResetRow(emp, Pending)], next := o.next.(reset := o.next.reset + 1)),
                 LoginReset, o.next.reset, emp)
  }

  // submit_login_reset_request
  function SubmitReset(cfg: Config, o: Office, emp: EmpId): Outcome<Office, Fault> {
    if emp !in cfg.employees then Refused(EmployeeUnknown)
    else if ResetPending(o, emp) then Refused(DuplicatePending)
    else Done(WithReset(o, emp))
  }

  function WithLeave(o: Office, emp: EmpId, row: LeaveRow): Office {
    WithEnvelope(o.(leaves := o.leaves[o.next.leave := row], next := o.next.(leave := o.next.leave + 1)), Leave, o.next.leave, emp)
  }

  // A leave application that passed the leave module's own checks.
  function FileLeave(cfg: Config, o: Office, emp: EmpId, leaveType: int, start: Date, duration: nat): Outcome<Office, Fault> {
    if emp !in cfg.employees then Refused(EmployeeUnknown)
    else Done(WithLeave(o, emp, LeaveRow(leaveType, start, duration, Pending)))
  }
}
