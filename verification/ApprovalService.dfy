// The approval service as an object that updates its tables, and the attendance
// service it delegates to, in place. All of them share one session: a transaction
// block commits it or rolls it back to its last commit, also when it runs inside
// another block or inside the savepoint of a bulk item.

module ApprovalService {
  import opened Common
  import opened DayRow
  import opened Text
  import opened ClockText
  import opened Corrections
  import opened AttendanceStore
  import opened AttendanceService
  import opened ApprovalDesk

  // The verdict written on the leave row, if there is one, and nothing else.
  function WithLeaveVerdict(o: Office, ref: nat, v: Verdict): Office {
    if ref in o.leaves then o.(leaves := o.leaves[ref := o.leaves[ref].(status := v)]) else o
  }

  class Approvals {
    var envelopes: map<nat, Envelope>
    var leaves: map<nat, LeaveRow>
    var regs: map<nat, Regularization>
    var resets: map<nat, ResetRow>
    var balances: map<BalanceKey, Balance>
    var next: Serials
    var committed: Office   // the tables as of the last commit
    const attendance: Service
    const cycle: Cycle

    constructor (attendance: Service, cycle: Cycle, balances: map<BalanceKey, Balance>)
      ensures this.attendance == attendance && this.cycle == cycle && Clean()
      ensures View() == Empty(balances, attendance.View())
    {
      this.attendance, this.cycle, this.balances := attendance, cycle, balances;
      envelopes, leaves, regs, resets, next := map[], map[], map[], map[], Serials(0, 0, 0, 0);
      committed := Empty(balances, attendance.View());
    }

    function View(): Office
      reads this, attendance
    {
      Office(envelopes, leaves, regs, resets, balances, next, attendance.View())
    }

    // Nothing is pending in the session.
    ghost predicate Clean()
      reads this, attendance
    {
      committed == View()
    }

    method Commit()
      modifies this`committed
      ensures Clean()
    {
      committed := View();
    }

    method Rollback()
      modifies this, attendance
      ensures View() == old(committed) && Clean()
    {
      envelopes, leaves, regs, resets := committed.envelopes, committed.leaves, committed.regs, committed.resets;
      balances, next := committed.balances, committed.next;
      attendance.days, attendance.locks, attendance.logs := committed.store.days, committed.store.locks, committed.store.logs;
    }

    ghost predicate Answers(fault: Option<Fault>, before: Office, spec: Outcome<Office, Fault>)
      reads this, attendance
    {
      match spec
      case Done(o) => fault == None && View() == o
      case Refused(f) => fault == Some(f) && View() == before
    }

    // --- Decisions ---

    method ScreenDecision(id: nat, who: Reviewer) returns (fault: Option<Fault>)
      ensures fault == Screen(attendance.cfg, View(), id, who)
    {
      if id !in envelopes {
        return Some(EnvelopeNotFound);
      }
      var e := envelopes[id];
      if e.status != Pending {
        return Some(AlreadyDecided);
      }
      if e.emp !in attendance.cfg.employees {
        return Some(EmployeeUnknown);
      }
      var employee := attendance.cfg.employees[e.emp];
      if who.branch.Some? && employee.branch != who.branch.value {
        return Some(OutOfScope);
      }
      if who.dept.Some? && employee.dept != who.dept.value {
        return Some(OutOfScope);
      }
      if who.linked == Some(e.emp) {
        return Some(SelfApproval);
      }
      return None;
    }

    // A transaction of its own: on return nothing is pending, whoever called it.
    method ApproveCorrection(id: nat, v: Verdict, clk: Clock) returns (fault: Option<Fault>)
      requires Clean()
      modifies this, attendance
      ensures Clean() && Answers(fault, old(View()), DecideCorrection(attendance.cfg, clk, old(View()), id, v))
    {
      if id !in envelopes {
        return Some(EnvelopeNotFound);
      }
      if envelopes[id].status != Pending {
        return Some(AlreadyDecided);
      }
      var ref := envelopes[id].ref;
      if ref !in regs {
        return Some(SourceNotFound);
      }
      var reg := regs[ref];
      var k := Key(reg.emp, reg.date);
      if Frozen(attendance.cfg, attendance.locks, k) {
        return Some(AttendanceFault(PeriodLocked));
      }
      if k.emp !in attendance.cfg.employees {
        return Some(EmployeeUnknown);
      }
      envelopes := envelopes[id := envelopes[id].(status := v)];
      regs := regs[ref := reg.(status := v)];
      if v == Approved && k in attendance.days {
        var span := ParseSpan(reg.text);
        if span.None? {
          Rollback();
          return Some(AttendanceFault(BadClockText));
        }
        var reply := attendance.CorrectDay(k, span.value.0, span.value.1, clk);
        if reply.Failed? {
          Rollback();
          return Some(AttendanceFault(reply.error));
        }
      }
      Commit();
      return None;
    }

    // The leave row is written before the balance is looked at, so a failure leaves
    // it pending in the session for the caller's block to undo.
    method DecideLeaveRequest(id: nat, v: Verdict) returns (fault: Option<Fault>)
      requires id in envelopes
      modifies this`envelopes, this`leaves, this`balances
      ensures match DecideLeave(cycle, old(View()), id, v)
              case Done(o) => fault == None && View() == o
              case Refused(f) => fault == Some(f) && View() == WithLeaveVerdict(old(View()), old(envelopes[id].ref), v)
    {
      var e := envelopes[id];
      if e.ref !in leaves {
        return Some(SourceNotFound);
      }
      leaves := leaves[e.ref := leaves[e.ref].(status := v)];
      if v == Approved {
        var row := leaves[e.ref];
        var key := BalanceKey(e.emp, row.leaveType, CycleYear(cycle, row.start));
        if key !in balances {
          return Some(BalanceNotFound);
        }
        var b := balances[key];
        if b.closing < row.duration {
          return Some(InsufficientBalance);
        }
        balances := balances[key := Balance(b.used + row.duration, b.closing - row.duration)];
      }
      envelopes := envelopes[id := e.(status := v)];
      return None;
    }

    method DecideLoginReset(id: nat, v: Verdict) returns (fault: Option<Fault>)
      requires id in envelopes
      modifies this`envelopes, this`resets
      ensures Answers(fault, old(View()), DecideReset(old(View()), id, v))
    {
      var e := envelopes[id];
      if e.ref !in resets {
        return Some(SourceNotFound);
      }
      resets := resets[e.ref := resets[e.ref].(status := v)];
      envelopes := envelopes[id := e.(status := v)];
      return None;
    }

    // One transaction block around the decision and the notification. By the time
    // the notification of an attendance decision fails, the inner block has committed.
    method JudgeRequest(id: nat, who: Reviewer, v: Verdict, notified: bool, clk: Clock) returns (fault: Option<Fault>)
      requires Clean()
      modifies this, attendance
      ensures Clean() && Answer(View(), fault) == Judge(attendance.cfg, cycle, clk, old(View()), id, who, v, notified)
    {
      fault := ScreenDecision(id, who);
      if fault.Some? {
        return;
      }
      match envelopes[id].kind {
        case Attendance => fault := ApproveCorrection(id, v, clk);
        case Leave => fault := DecideLeaveRequest(id, v);
        case LoginReset => fault := DecideLoginReset(id, v);
      }
      if fault.None? && !notified {
        fault := Some(NotificationFailed);
      }
      if fault.Some? {
        Rollback();
      } else {
        Commit();
      }
    }

    method ApproveRequest(id: nat, who: Reviewer, notified: bool, clk: Clock) returns (fault: Option<Fault>)
      requires Clean()
      modifies this, attendance
      ensures Clean() && Answer(View(), fault) == Approve(attendance.cfg, cycle, clk, old(View()), id, who, notified)
    {
      fault := JudgeRequest(id, who, Approved, notified, clk);
    }

    method RejectRequest(id: nat, remarks: string, who: Reviewer, notified: bool, clk: Clock) returns (fault: Option<Fault>)
      requires Clean()
      modifies this, attendance
      ensures Clean() && Answer(View(), fault) == Reject(attendance.cfg, cycle, clk, old(View()), id, remarks, who, notified)
    {
      if Strip(remarks) == "" {
        return Some(RemarksRequired);
      }
      fault := JudgeRequest(id, who, Rejected, notified, clk);
    }

    // One decision per item inside its own savepoint; a failure is reported and the
    // loop goes on. A failing item rolls back the whole session, not its savepoint,
    // but every item before it has left nothing pending.
    method BulkApprove(items: seq<Item>, who: Reviewer, clk: Clock) returns (lines: seq<Line>)
      requires Clean()
      modifies this, attendance
      ensures Clean() && Batch(View(), lines) == JudgeAll(attendance.cfg, cycle, clk, old(View()), items, who, Approved)
    {
      lines := [];
      var i := 0;
      while i < |items|
        invariant i <= |items| && Clean()
        invariant Batch(View(), lines) == JudgeAll(attendance.cfg, cycle, clk, old(View()), items[..i], who, Approved)
      {
        assert items[..i + 1][..i] == items[..i];
        var fault := ApproveRequest(items[i].id, who, items[i].notified, clk);
        lines := lines + [Line(items[i].id, fault)];
        i := i + 1;
      }
      assert items[..i] == items;
      Commit();
    }

    method BulkReject(items: seq<Item>, remarks: string, who: Reviewer, clk: Clock) returns (result: Outcome<seq<Line>, Fault>)
      requires Clean()
      modifies this, attendance
      ensures Clean()
      ensures if Strip(remarks) == "" then result == Refused(RemarksRequired) && View() == old(View())
              else result.Done? && Batch(View(), result.state) == JudgeAll(attendance.cfg, cycle, clk, old(View()), items, who, Rejected)
    {
      if Strip(remarks) == "" {
        return Refused(RemarksRequired);
      }
      var lines := [];
      var i := 0;
      while i < |items|
        invariant i <= |items| && Clean()
        invariant Batch(View(), lines) == JudgeAll(attendance.cfg, cycle, clk, old(View()), items[..i], who, Rejected)
      {
        assert items[..i + 1][..i] == items[..i];
        var fault := RejectRequest(items[i].id, remarks, who, items[i].notified, clk);
        lines := lines + [Line(items[i].id, fault)];
        i := i + 1;
      }
      assert items[..i] == items;
      Commit();
      return Done(lines);
    }

    // --- Cancelling and submitting ---

    method CancelApprovalRequest(id: nat) returns (fault: Option<Fault>)
      requires Clean()
      modifies this`envelopes, this`leaves, this`regs, this`resets, this`committed
      ensures Clean() && Answers(fault, old(View()), Cancel(old(View()), id))
    {
      if id !in envelopes {
        return Some(EnvelopeNotFound);
      }
      var e := envelopes[id];
      if e.status != Pending {
        return Some(AlreadyDecided);
      }
      match e.kind {
        case Attendance => regs := regs - {e.ref};
        case Leave => leaves := leaves - {e.ref};
        case LoginReset => resets := resets - {e.ref};
      }
      envelopes := envelopes - {id};
      Commit();
      return None;
    }

    method CreateEnvelope(kind: RequestType, ref: nat, emp: EmpId)
      modifies this`envelopes, this`next
      ensures View() == WithEnvelope(old(View()), kind, ref, emp)
    {
      envelopes := envelopes[next.envelope := Envelope(kind, ref, emp, Pending)];
      next := next.(envelope := next.envelope + 1);
    }

    method SubmitApprovalRequest(kind: RequestType, ref: nat, emp: EmpId) returns (fault: Option<Fault>)
      requires Clean()
      modifies this`envelopes, this`next, this`committed
      ensures Clean() && Answers(fault, old(View()), Submit(attendance.cfg, old(View()), kind, ref, emp))
    {
      if emp !in attendance.cfg.employees {
        return Some(EmployeeUnknown);
      }
      var found := match kind
        case Attendance => ref in regs
        case Leave => ref in leaves
        case LoginReset => ref in resets;
      if !found {
        return Some(SourceNotFound);
      }
      CreateEnvelope(kind, ref, emp);
      Commit();
      return None;
    }

    method CreateRegularization(k: Key, requestedIn: Wall, requestedOut: Wall)
      modifies this`envelopes, this`regs, this`next
      ensures View() == WithRegularization(old(View()), k, requestedIn, requestedOut)
    {
      var ref := next.reg;
      regs := regs[ref := Regularization(k.emp, k.date, RequestText(requestedIn, requestedOut), Pending)];
      next := next.(reg := ref + 1);
      CreateEnvelope(Attendance, ref, k.emp);
    }

    method SubmitAttendanceRegularization(k: Key, requestedIn: Wall, requestedOut: Wall) returns (fault: Option<Fault>)
      requires Clean()
      modifies this`envelopes, this`regs, this`next, this`committed
      ensures Clean() && Answers(fault, old(View()), SubmitRegularization(attendance.cfg, old(View()), k, requestedIn, requestedOut))
    {
      if k.emp !in attendance.cfg.employees {
        return Some(EmployeeUnknown);
      }
      if exists r :: r in regs && regs[r].emp == k.emp && regs[r].date == k.date && regs[r].status.Pending? {
        return Some(DuplicatePending);
      }
      CreateRegularization(k, requestedIn, requestedOut);
      Commit();
      return None;
    }

    method RequestDayCorrection(enabled: bool, k: Key, requestedIn: Wall, requestedOut: Wall) returns (fault: Option<Fault>)
      requires Clean()
      modifies this`envelopes, this`regs, this`next, this`committed
      ensures Clean() && Answers(fault, old(View()), RequestCorrection(attendance.cfg, old(View()), enabled, k, requestedIn, requestedOut))
    {
      if !enabled {
        return Some(FeatureDisabled);
      }
      if k.emp !in attendance.cfg.employees {
        return Some(EmployeeUnknown);
      }
      if k !in attendance.days {
        return Some(AttendanceFault(DayNotFound));
      }
      if Frozen(attendance.cfg, attendance.locks, k) {
        return Some(AttendanceFault(PeriodLocked));
      }
      CreateRegularization(k, requestedIn, requestedOut);
      Commit();
      return None;
    }

    method SubmitLoginResetRequest(emp: EmpId) returns (fault: Option<Fault>)
      requires Clean()
      modifies this`envelopes, this`resets, this`next, this`committed
      ensures Clean() && Answers(fault, old(View()), SubmitReset(attendance.cfg, old(View()), emp))
    {
      if emp !in attendance.cfg.employees {
        return Some(EmployeeUnknown);
      }
      if exists r :: r in resets && resets[r].emp == emp && resets[r].status.Pending? {
        return Some(DuplicatePending);
      }
      var ref := next.reset;
      resets := resets[ref := ResetRow(emp, Pending)];
      next := next.(reset := ref + 1);
      CreateEnvelope(LoginReset, ref, emp);
      Commit();
      return None;
    }
  }
}
