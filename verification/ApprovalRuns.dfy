// Whole runs of the approval service, interleaved with attendance operations.

module ApprovalRuns {
  import opened Common
  import opened DayRow
  import opened Calendar
  import opened Locks
  import opened AttendanceStore
  import opened ClockText
  import opened Corrections
  import opened ApprovalDesk
  import AttendanceRuns

  datatype Step =
    | Approving(clk: Clock, id: nat, who: Reviewer, notified: bool)
    | Rejecting(clk: Clock, id: nat, remarks: string, who: Reviewer, notified: bool)
    | Correcting(clk: Clock, id: nat, verdict: Verdict)
    | Cancelling(id: nat)
    | Submitting(kind: RequestType, ref: nat, emp: EmpId)
    | Regularizing(key: Key, requestedIn: Wall, requestedOut: Wall)
    | Requesting(enabled: bool, key: Key, requestedIn: Wall, requestedOut: Wall)
    | Resetting(emp: EmpId)
    | Filing(emp: EmpId, leaveType: int, start: Date, duration: nat)
    | Attending(step: AttendanceRuns.Step)

  function Kept(o: Office, r: Outcome<Office, Fault>): Office {
    if r.Done? then r.state else o
  }

  // One call, successful or not.
  function Apply(cfg: Config, cycle: Cycle, o: Office, s: Step): Office {
    match s
    case Approving(clk, id, who, notified) => Approve(cfg, cycle, clk, o, id, who, notified).office
    case Rejecting(clk, id, remarks, who, notified) => Reject(cfg, cycle, clk, o, id, remarks, who, notified).office
    case Correcting(clk, id, v) => Kept(o, DecideCorrection(cfg, clk, o, id, v))
    case Cancelling(id) => Kept(o, Cancel(o, id))
    case Submitting(kind, ref, emp) => Kept(o, Submit(cfg, o, kind, ref, emp))
    case Regularizing(k, i, t) => Kept(o, SubmitRegularization(cfg, o, k, i, t))
    case Requesting(enabled, k, i, t) => Kept(o, RequestCorrection(cfg, o, enabled, k, i, t))
    case Resetting(emp) => Kept(o, SubmitReset(cfg, o, emp))
    case Filing(emp, lt, start, d) => Kept(o, FileLeave(cfg, o, emp, lt, start, d))
    case Attending(a) => o.(store := AttendanceRuns.Apply(cfg, o.store, a))
  }

  function Run(cfg: Config, cycle: Cycle, o: Office, steps: seq<Step>): Office {
    if steps == [] then o else Apply(cfg, cycle, Run(cfg, cycle, o, steps[..|steps| - 1]), steps[|steps| - 1])
  }

  lemma RunNothing(cfg: Config, cycle: Cycle, o: Office)
    ensures Run(cfg, cycle, o, []) == o
  {
  }

  lemma RunSnoc(cfg: Config, cycle: Cycle, o: Office, steps: seq<Step>, s: Step)
    ensures Run(cfg, cycle, o, steps + [s]) == Apply(cfg, cycle, Run(cfg, cycle, o, steps), s)
  {
    hide Apply;
    assert (steps + [s])[..|steps|] == steps;
  }

  // --- The leave cycle ---

  // A date belongs to the cycle that starts at or before its month and ends within
  // twelve months.
  lemma CycleYearExact(cycle: Cycle, start: Date, year: int)
    requires 1 <= cycle.startMonth <= 12
    ensures var first := 12 * year + (if cycle.financial then cycle.startMonth - 1 else 0);
            CycleYear(cycle, start) == year <==> first <= MonthOf(start) < first + 12
  {
  }

  // Later dates never fall into an earlier cycle.
  lemma CycleYearMonotone(cycle: Cycle, a: Date, b: Date)
    requires 1 <= cycle.startMonth <= 12 && 1 <= a <= b
    ensures CycleYear(cycle, a) <= CycleYear(cycle, b)
  {
    MonthOfMonotone(a, b);
    CycleYearExact(cycle, a, CycleYear(cycle, a));
    CycleYearExact(cycle, b, CycleYear(cycle, b));
  }

  // --- A single decision ---

  // A failed decision changes nothing, except an attendance decision that failed
  // only after its correction was committed.
  lemma FailureIsAtomicExactly(cfg: Config, cycle: Cycle, clk: Clock, o: Office, id: nat, who: Reviewer, v: Verdict, notified: bool)
    requires v != Pending && Judge(cfg, cycle, clk, o, id, who, v, notified).fault.Some?
    ensures Judge(cfg, cycle, clk, o, id, who, v, notified).office == o
        <==> !(&& !notified && Screen(cfg, o, id, who).None? && o.envelopes[id].kind.Attendance?
               && DecideCorrection(cfg, clk, o, id, v).Done?)
  {
    if Screen(cfg, o, id, who).None? && o.envelopes[id].kind.Attendance? {
      var r := DecideCorrection(cfg, clk, o, id, v);
      assert r.Done? ==> r.state.envelopes[id].status == v;
    }
  }

  // The employee is known, in the reviewer's scope, and not the reviewer.
  predicate MayDecide(cfg: Config, emp: EmpId, who: Reviewer) {
    && emp in cfg.employees && who.linked != Some(emp)
    && (who.branch.Some? ==> cfg.employees[emp].branch == who.branch.value)
    && (who.dept.Some? ==> cfg.employees[emp].dept == who.dept.value)
  }

  // The day of the correction is in no locked month of its employee; to approve it,
  // the stored text must read as two clocks and the day, if it is there, must not have
  // an expected end without an expected start.
  predicate Correctable(cfg: Config, st: Store, reg: Regularization, v: Verdict) {
    var k := Key(reg.emp, reg.date);
    && k.emp in cfg.employees
    && !RowLocked(st.locks, LockKey(MonthOf(k.date), None))
    && !RowLocked(st.locks, LockKey(MonthOf(k.date), Some(cfg.employees[k.emp].branch)))
    && (v.Approved? && k in st.days ==>
          ParseSpan(reg.text).Some? && (st.days[k].row.end.None? || st.days[k].row.start.Some?))
  }

  // What the rule of each request type asks for: the source row, and for an approval
  // an attendance day that can be corrected or a balance that covers the leave.
  predicate Decidable(cfg: Config, cycle: Cycle, o: Office, id: nat, v: Verdict)
    requires id in o.envelopes
  {
    var ref := o.envelopes[id].ref;
    match o.envelopes[id].kind
    case Attendance => ref in o.regs && Correctable(cfg, o.store, o.regs[ref], v)
    case Leave =>
      && ref in o.leaves
      && (v.Approved? ==>
            var key := BalanceKeyOf(cycle, o, id); key in o.balances && o.balances[key].closing >= o.leaves[ref].duration)
    case LoginReset => ref in o.resets
  }

  lemma DecideSucceedsExactly(cfg: Config, cycle: Cycle, clk: Clock, o: Office, id: nat, v: Verdict)
    requires id in o.envelopes && o.envelopes[id].status.Pending?
    ensures Decide(cfg, cycle, clk, o, id, v).Done? <==> Decidable(cfg, cycle, o, id, v)
  {
    hide DecideCorrection, Correctable, CycleYear;
    if o.envelopes[id].kind.Attendance? && o.envelopes[id].ref in o.regs {
      CorrectionSucceedsExactly(cfg, clk, o, id, v);
    } else if o.envelopes[id].kind.Attendance? {
      CorrectionKeepsIds(cfg, clk, o, id, v);
    }
  }

  lemma CorrectionSucceedsExactly(cfg: Config, clk: Clock, o: Office, id: nat, v: Verdict)
    requires id in o.envelopes && o.envelopes[id].status.Pending? && o.envelopes[id].ref in o.regs
    ensures DecideCorrection(cfg, clk, o, id, v).Done? <==> Correctable(cfg, o.store, o.regs[o.envelopes[id].ref], v)
  {
    hide ApplyCorrection, ParseSpan;
    var reg := o.regs[o.envelopes[id].ref];
    var k := Key(reg.emp, reg.date);
    if k in o.store.days && ParseSpan(reg.text).Some? {
      var span := ParseSpan(reg.text).value;
      CorrectionApplies(cfg, clk, o.store, k, span.0, span.1);
    }
  }

  // A corrected day always has valid punches, so it needs a complete schedule.
  lemma CorrectionApplies(cfg: Config, clk: Clock, st: Store, k: Key, inMinute: nat, outMinute: nat)
    requires inMinute < 1440 && outMinute < 1440 && k in st.days
    ensures ApplyCorrection(cfg, clk, st, k, inMinute, outMinute).Done? <==> st.days[k].row.end.None? || st.days[k].row.start.Some?
  {
    CorrectedLine(st.days[k], k.date, inMinute, outMinute);
  }

  // A decision changes the office exactly when the envelope is pending and belongs
  // to an employee in the reviewer's scope who is not the reviewer, the rule of its
  // type is met, and the call got through or had committed.
  lemma DecisionTakesEffectExactly(cfg: Config, cycle: Cycle, clk: Clock, o: Office, id: nat, who: Reviewer, v: Verdict, notified: bool)
    requires v != Pending
    ensures Judge(cfg, cycle, clk, o, id, who, v, notified).office != o
        <==> && id in o.envelopes && o.envelopes[id].status.Pending? && MayDecide(cfg, o.envelopes[id].emp, who)
             && Decidable(cfg, cycle, o, id, v)
             && (notified || o.envelopes[id].kind.Attendance?)
  {
    hide Decidable, DecideCorrection, DecideLeave, DecideReset;
    if Screen(cfg, o, id, who).None? {
      DecideSucceedsExactly(cfg, cycle, clk, o, id, v);
      if Decide(cfg, cycle, clk, o, id, v).Done? {
        DecisionExact(cfg, cycle, clk, o, id, who, v, true);
        JudgeOf(cfg, cycle, clk, o, id, who, v, true, Decide(cfg, cycle, clk, o, id, v));
        assert Decide(cfg, cycle, clk, o, id, v).state.envelopes[id].status == v;
      }
    }
  }

  // The verdict v was written on envelope id and on its source row; every other
  // envelope and source row keeps its status, and no row came or went.
  ghost predicate Ruled(o: Office, o': Office, id: nat, v: Verdict) {
    && id in o.envelopes && o.envelopes[id].status.Pending?
    && o'.envelopes == WithVerdict(o, id, v) && o'.next == o.next
    && SourceStatus(o, o.envelopes[id].kind, o.envelopes[id].ref).Some?
    && (forall kind, ref ::
          SourceStatus(o', kind, ref)
          == if kind == o.envelopes[id].kind && ref == o.envelopes[id].ref then Some(v) else SourceStatus(o, kind, ref))
    && SameLeaves(o.leaves, o'.leaves)
  }

  // Equal leave rows up to their status.
  ghost predicate SameLeaves(m: map<nat, LeaveRow>, n: map<nat, LeaveRow>) {
    m.Keys == n.Keys && forall r :: r in m ==> n[r] == m[r].(status := n[r].status)
  }

  lemma LeaveRules(cycle: Cycle, o: Office, id: nat, v: Verdict)
    requires id in o.envelopes && o.envelopes[id].status.Pending? && o.envelopes[id].kind.Leave? && DecideLeave(cycle, o, id, v).Done?
    ensures Ruled(o, DecideLeave(cycle, o, id, v).state, id, v)
  {
  }

  lemma ResetRules(o: Office, id: nat, v: Verdict)
    requires id in o.envelopes && o.envelopes[id].status.Pending? && o.envelopes[id].kind.LoginReset? && DecideReset(o, id, v).Done?
    ensures Ruled(o, DecideReset(o, id, v).state, id, v)
  {
  }

  lemma CorrectionRules(cfg: Config, clk: Clock, o: Office, id: nat, v: Verdict)
    requires DecideCorrection(cfg, clk, o, id, v).Done? && o.envelopes[id].kind.Attendance?
    ensures Ruled(o, DecideCorrection(cfg, clk, o, id, v).state, id, v)
  {
    CorrectionKeepsIds(cfg, clk, o, id, v);
    var o' := DecideCorrection(cfg, clk, o, id, v).state;
    RegsOnly(o, o', id, v);
  }

  lemma RegsOnly(o: Office, o': Office, id: nat, v: Verdict)
    requires id in o.envelopes && o.envelopes[id].status.Pending? && o.envelopes[id].kind.Attendance? && o.envelopes[id].ref in o.regs
    requires o' == o.(envelopes := WithVerdict(o, id, v), store := o'.store,
                      regs := o.regs[o.envelopes[id].ref := o.regs[o.envelopes[id].ref].(status := v)])
    ensures Ruled(o, o', id, v)
  {
  }

  // A decision either leaves the office alone or rules on exactly its envelope,
  // and it does rule when it succeeds.
  lemma DecisionExact(cfg: Config, cycle: Cycle, clk: Clock, o: Office, id: nat, who: Reviewer, v: Verdict, notified: bool)
    requires v != Pending
    ensures var a := Judge(cfg, cycle, clk, o, id, who, v, notified);
            (a.office == o || Ruled(o, a.office, id, v)) && (a.fault.None? ==> Ruled(o, a.office, id, v))
  {
    if Screen(cfg, o, id, who).None? {
      var r := Decide(cfg, cycle, clk, o, id, v);
      if r.Done? {
        assert Ruled(o, r.state, id, v) by {
          match o.envelopes[id].kind {
            case Attendance => CorrectionRules(cfg, clk, o, id, v);
            case Leave => LeaveRules(cycle, o, id, v);
            case LoginReset => ResetRules(o, id, v);
          }
        }
        JudgeOf(cfg, cycle, clk, o, id, who, v, notified, r);
      }
    }
  }

  lemma JudgeOf(cfg: Config, cycle: Cycle, clk: Clock, o: Office, id: nat, who: Reviewer, v: Verdict, notified: bool, r: Outcome<Office, Fault>)
    requires Screen(cfg, o, id, who).None? && r == Decide(cfg, cycle, clk, o, id, v)
    ensures var a := Judge(cfg, cycle, clk, o, id, who, v, notified);
            if r.Done? then a.office == r.state || a.office == o else a == Answer(o, Some(r.error))
    ensures r.Done? && Judge(cfg, cycle, clk, o, id, who, v, notified).fault.None?
            ==> Judge(cfg, cycle, clk, o, id, who, v, notified).office == r.state
  {
  }

  // --- Decided envelopes ---

  ghost predicate Below(ids: set<nat>, n: nat) {
    forall i :: i in ids ==> i < n
  }

  // Row ids in use are below the counter.
  ghost predicate Counted(o: Office) {
    && Below(o.envelopes.Keys, o.next.envelope) && Below(o.regs.Keys, o.next.reg)
    && Below(o.leaves.Keys, o.next.leave) && Below(o.resets.Keys, o.next.reset)
  }

  lemma StepKeepsCounted(cfg: Config, cycle: Cycle, o: Office, s: Step)
    requires Counted(o)
    ensures Counted(Apply(cfg, cycle, o, s)) && o.next.envelope <= Apply(cfg, cycle, o, s).next.envelope
  {
    hide Judge, DecideCorrection, AttendanceRuns.Apply, Frozen, RequestText;
    match s {
      case Approving(clk, id, who, notified) => JudgeKeepsIds(cfg, cycle, clk, o, id, who, Approved, notified);
      case Rejecting(clk, id, remarks, who, notified) => JudgeKeepsIds(cfg, cycle, clk, o, id, who, Rejected, notified);
      case Correcting(clk, id, v) => CorrectionKeepsIds(cfg, clk, o, id, v);
      case Cancelling(id) =>
      case Attending(a) =>
      case _ => SubmissionKeepsCounted(cfg, cycle, o, s);
    }
  }

  predicate Submission(s: Step) {
    s.Submitting? || s.Regularizing? || s.Requesting? || s.Resetting? || s.Filing?
  }

  // What a submission adds when it is accepted.
  lemma SubmissionExact(cfg: Config, cycle: Cycle, o: Office, s: Step)
    requires Submission(s) && Apply(cfg, cycle, o, s) != o
    ensures Apply(cfg, cycle, o, s) ==
      match s
      case Submitting(kind, ref, emp) => WithEnvelope(o, kind, ref, emp)
      case Regularizing(k, i, t) => WithRegularization(o, k, i, t)
      case Requesting(enabled, k, i, t) => WithRegularization(o, k, i, t)
      case Resetting(emp) => WithReset(o, emp)
      case Filing(emp, lt, start, d) => WithLeave(o, emp, LeaveRow(lt, start, d, Pending))
      case _ => o
  {
    hide RequestText, Frozen, AttendanceRuns.Apply, Judge, DecideCorrection, Cancel;
  }

  lemma SubmissionKeepsCounted(cfg: Config, cycle: Cycle, o: Office, s: Step)
    requires Counted(o) && Submission(s)
    ensures Counted(Apply(cfg, cycle, o, s)) && o.next.envelope <= Apply(cfg, cycle, o, s).next.envelope
  {
    hide RequestText, Frozen, AttendanceRuns.Apply, Judge, DecideCorrection, Cancel;
    if Apply(cfg, cycle, o, s) != o {
      SubmissionExact(cfg, cycle, o, s);
    }
  }

  ghost predicate SameIds(o: Office, o': Office) {
    && o'.envelopes.Keys == o.envelopes.Keys && o'.regs.Keys == o.regs.Keys && o'.leaves.Keys == o.leaves.Keys
    && o'.resets.Keys == o.resets.Keys && o'.balances.Keys == o.balances.Keys && o'.next == o.next
  }

  // A decision adds and removes no row.
  lemma JudgeKeepsIds(cfg: Config, cycle: Cycle, clk: Clock, o: Office, id: nat, who: Reviewer, v: Verdict, notified: bool)
    ensures SameIds(o, Judge(cfg, cycle, clk, o, id, who, v, notified).office)
  {
    hide DecideCorrection, DecideLeave, DecideReset, SameIds;
    SameIdsReflexive(o);
    if Screen(cfg, o, id, who).None? {
      match o.envelopes[id].kind {
        case Attendance => CorrectionSameIds(cfg, clk, o, id, v);
        case Leave => LeaveSameIds(cycle, o, id, v);
        case LoginReset => ResetSameIds(o, id, v);
      }
    }
  }

  lemma SameIdsReflexive(o: Office)
    ensures SameIds(o, o)
  {
  }

  lemma LeaveSameIds(cycle: Cycle, o: Office, id: nat, v: Verdict)
    requires id in o.envelopes
    ensures SameIds(o, Kept(o, DecideLeave(cycle, o, id, v)))
  {
  }

  lemma ResetSameIds(o: Office, id: nat, v: Verdict)
    requires id in o.envelopes
    ensures SameIds(o, Kept(o, DecideReset(o, id, v)))
  {
  }

  lemma CorrectionSameIds(cfg: Config, clk: Clock, o: Office, id: nat, v: Verdict)
    ensures SameIds(o, Kept(o, DecideCorrection(cfg, clk, o, id, v)))
  {
    hide DecideCorrection;
    CorrectionKeepsIds(cfg, clk, o, id, v);
  }

  lemma CorrectionKeepsIds(cfg: Config, clk: Clock, o: Office, id: nat, v: Verdict)
    ensures var r := DecideCorrection(cfg, clk, o, id, v);
            r.Done? ==>
              && id in o.envelopes && o.envelopes[id].status.Pending? && o.envelopes[id].ref in o.regs
              && r.state == o.(envelopes := WithVerdict(o, id, v), store := r.state.store,
                               regs := o.regs[o.envelopes[id].ref := o.regs[o.envelopes[id].ref].(status := v)])
  {
    hide ApplyCorrection, Frozen, ParseSpan;
  }

  // Once approved or rejected an envelope never changes and never disappears.
  lemma {:induction false} DecidedStays(cfg: Config, cycle: Cycle, o: Office, steps: seq<Step>, id: nat)
    requires Counted(o) && id in o.envelopes && !o.envelopes[id].status.Pending?
    ensures var o' := Run(cfg, cycle, o, steps);
            Counted(o') && id in o'.envelopes && o'.envelopes[id] == o.envelopes[id]
  {
    if steps != [] {
      var front, last := steps[..|steps| - 1], steps[|steps| - 1];
      DecidedStays(cfg, cycle, o, front, id);
      StepKeepsCounted(cfg, cycle, Run(cfg, cycle, o, front), last);
      StepSparesDecided(cfg, cycle, Run(cfg, cycle, o, front), last, id);
    }
  }

  lemma StepSparesDecided(cfg: Config, cycle: Cycle, o: Office, s: Step, id: nat)
    requires Counted(o) && id in o.envelopes && !o.envelopes[id].status.Pending?
    ensures var o' := Apply(cfg, cycle, o, s); id in o'.envelopes && o'.envelopes[id] == o.envelopes[id]
  {
    hide Judge, DecideCorrection, AttendanceRuns.Apply, RequestText, Frozen, Submit, SubmitRegularization, RequestCorrection, SubmitReset, FileLeave;
    match s {
      case Approving(clk, j, who, notified) => JudgeSpares(cfg, cycle, clk, o, j, who, Approved, notified, id);
      case Rejecting(clk, j, remarks, who, notified) => JudgeSpares(cfg, cycle, clk, o, j, who, Rejected, notified, id);
      case Correcting(clk, j, v) => CorrectionKeepsIds(cfg, clk, o, j, v);
      case Cancelling(j) =>
      case Attending(a) =>
      case _ => SubmissionSpares(cfg, cycle, o, s, id);
    }
  }

  lemma SubmissionSpares(cfg: Config, cycle: Cycle, o: Office, s: Step, id: nat)
    requires Counted(o) && id in o.envelopes && Submission(s)
    ensures var o' := Apply(cfg, cycle, o, s); id in o'.envelopes && o'.envelopes[id] == o.envelopes[id]
  {
    hide Judge, DecideCorrection, AttendanceRuns.Apply, Cancel, RequestText, Frozen;
    if Apply(cfg, cycle, o, s) != o {
      SubmissionExact(cfg, cycle, o, s);
    }
  }

  lemma JudgeSpares(cfg: Config, cycle: Cycle, clk: Clock, o: Office, j: nat, who: Reviewer, v: Verdict, notified: bool, id: nat)
    requires id in o.envelopes && !o.envelopes[id].status.Pending? && v != Pending
    ensures var o' := Judge(cfg, cycle, clk, o, j, who, v, notified).office;
            id in o'.envelopes && o'.envelopes[id] == o.envelopes[id]
  {
    DecisionExact(cfg, cycle, clk, o, j, who, v, notified);
  }

  // --- Envelope and source agree ---

  // Every envelope has its source row, with the same status.
  ghost predicate Linked(o: Office) {
    forall id :: id in o.envelopes ==> SourceStatus(o, o.envelopes[id].kind, o.envelopes[id].ref) == Some(o.envelopes[id].status)
  }

  predicate Refers(e: Envelope, kind: RequestType, ref: nat) {
    e.kind == kind && e.ref == ref
  }

  // No source row has two envelopes.
  ghost predicate OneEnvelopeEach(o: Office) {
    forall i, j :: i in o.envelopes && j in o.envelopes && i != j ==> !Refers(o.envelopes[i], o.envelopes[j].kind, o.envelopes[j].ref)
  }

  ghost predicate Sound(o: Office) {
    Counted(o) && Linked(o) && OneEnvelopeEach(o)
  }

  ghost predicate Referenced(o: Office, kind: RequestType, ref: nat) {
    exists id :: id in o.envelopes && Refers(o.envelopes[id], kind, ref)
  }

  lemma RulingKeepsSound(o: Office, o': Office, id: nat, v: Verdict)
    requires Sound(o) && Ruled(o, o', id, v) && Counted(o')
    ensures Sound(o')
  {
    forall i | i in o'.envelopes
      ensures SourceStatus(o', o'.envelopes[i].kind, o'.envelopes[i].ref) == Some(o'.envelopes[i].status)
    {
      assert i != id ==> !Refers(o.envelopes[i], o.envelopes[id].kind, o.envelopes[id].ref);
    }
  }

  lemma CancelKeepsSound(o: Office, id: nat)
    requires Sound(o)
    ensures Sound(Kept(o, Cancel(o, id)))
  {
    hide Linked, OneEnvelopeEach;
    if Cancel(o, id).Done? {
      CancelExact(o, id);
      RemovalKeepsSound(o, Cancel(o, id).state, id);
    }
  }

  // A cancelled request is gone together with its source row, and nothing else.
  lemma CancelExact(o: Office, id: nat)
    requires Counted(o) && Cancel(o, id).Done?
    ensures var o' := Cancel(o, id).state;
            && Counted(o') && id in o.envelopes && o.envelopes[id].status.Pending? && o'.envelopes == o.envelopes - {id}
            && (forall kind, ref ::
                  SourceStatus(o', kind, ref) == if Refers(o.envelopes[id], kind, ref) then None else SourceStatus(o, kind, ref))
  {
  }

  lemma RemovalKeepsSound(o: Office, o': Office, id: nat)
    requires Sound(o) && Counted(o') && id in o.envelopes && o'.envelopes == o.envelopes - {id}
    requires forall kind, ref :: !Refers(o.envelopes[id], kind, ref) ==> SourceStatus(o', kind, ref) == SourceStatus(o, kind, ref)
    ensures Sound(o')
  {
    forall i | i in o'.envelopes
      ensures SourceStatus(o', o.envelopes[i].kind, o.envelopes[i].ref) == Some(o.envelopes[i].status)
    {
      assert !Refers(o.envelopes[id], o.envelopes[i].kind, o.envelopes[i].ref);
    }
  }

  // An envelope for a pending source row that has none.
  lemma EnvelopeKeepsSound(o: Office, kind: RequestType, ref: nat, emp: EmpId)
    requires Sound(o) && SourceStatus(o, kind, ref) == Some(Pending) && !Referenced(o, kind, ref)
    ensures Sound(WithEnvelope(o, kind, ref, emp))
  {
  }

  // A source row that nobody refers to yet.
  lemma NewSourceKeepsSound(o: Office, o': Office, kind: RequestType)
    requires Sound(o) && Counted(o') && o'.envelopes == o.envelopes
    requires SourceStatus(o', kind, NextRef(o, kind)) == Some(Pending)
    requires forall k, r :: k != kind || r != NextRef(o, kind) ==> SourceStatus(o', k, r) == SourceStatus(o, k, r)
    ensures Sound(o') && !Referenced(o', kind, NextRef(o, kind))
  {
    forall i | i in o.envelopes
      ensures !Refers(o.envelopes[i], kind, NextRef(o, kind))
    {
      assert SourceStatus(o, o.envelopes[i].kind, o.envelopes[i].ref).Some?;
    }
  }

  // Steps that cannot break the agreement: a generic submission names a pending
  // source row without an envelope, and the correction route is used on
  // attendance envelopes.
  ghost predicate Proper(o: Office, s: Step) {
    && (s.Submitting? ==> SourceStatus(o, s.kind, s.ref) == Some(Pending) && !Referenced(o, s.kind, s.ref))
    && (s.Correcting? ==> s.id in o.envelopes ==> o.envelopes[s.id].kind.Attendance?)
  }

  lemma DecisionKeepsSound(cfg: Config, cycle: Cycle, clk: Clock, o: Office, id: nat, who: Reviewer, v: Verdict, notified: bool)
    requires Sound(o) && v != Pending
    ensures Sound(Judge(cfg, cycle, clk, o, id, who, v, notified).office)
  {
    hide Judge, Linked, OneEnvelopeEach;
    var o' := Judge(cfg, cycle, clk, o, id, who, v, notified).office;
    DecisionExact(cfg, cycle, clk, o, id, who, v, notified);
    JudgeKeepsIds(cfg, cycle, clk, o, id, who, v, notified);
    if o' != o {
      RulingKeepsSound(o, o', id, v);
    }
  }

  lemma CorrectionKeepsSound(cfg: Config, clk: Clock, o: Office, id: nat, v: Verdict)
    requires Sound(o) && (id in o.envelopes ==> o.envelopes[id].kind.Attendance?)
    ensures Sound(Kept(o, DecideCorrection(cfg, clk, o, id, v)))
  {
    hide DecideCorrection, Linked, OneEnvelopeEach;
    CorrectionKeepsIds(cfg, clk, o, id, v);
    if DecideCorrection(cfg, clk, o, id, v).Done? {
      CorrectionRules(cfg, clk, o, id, v);
      RulingKeepsSound(o, DecideCorrection(cfg, clk, o, id, v).state, id, v);
    }
  }

  lemma StoreKeepsSound(o: Office, st: Store)
    requires Sound(o)
    ensures Sound(o.(store := st))
  {
  }

  lemma StepKeepsSound(cfg: Config, cycle: Cycle, o: Office, s: Step)
    requires Sound(o) && Proper(o, s)
    ensures Sound(Apply(cfg, cycle, o, s))
  {
    hide Judge, DecideCorrection, AttendanceRuns.Apply, Cancel, Sound;
    match s {
      case Approving(clk, id, who, notified) => DecisionKeepsSound(cfg, cycle, clk, o, id, who, Approved, notified);
      case Rejecting(clk, id, remarks, who, notified) => DecisionKeepsSound(cfg, cycle, clk, o, id, who, Rejected, notified);
      case Correcting(clk, id, v) => CorrectionKeepsSound(cfg, clk, o, id, v);
      case Cancelling(id) => CancelKeepsSound(o, id);
      case Attending(a) => StoreKeepsSound(o, AttendanceRuns.Apply(cfg, o.store, a));
      case _ => SubmissionKeepsSound(cfg, cycle, o, s);
    }
  }

  lemma SubmissionKeepsSound(cfg: Config, cycle: Cycle, o: Office, s: Step)
    requires Sound(o) && Proper(o, s) && Submission(s)
    ensures Sound(Apply(cfg, cycle, o, s))
  {
    hide Judge, DecideCorrection, AttendanceRuns.Apply, Cancel, WithRegularization, WithReset, WithLeave, Sound;
    var o' := Apply(cfg, cycle, o, s);
    if o' == o {
      return;
    }
    SubmissionExact(cfg, cycle, o, s);
    match s {
      case Submitting(kind, ref, emp) => EnvelopeKeepsSound(o, kind, ref, emp);
      case Regularizing(k, i, t) => RegularizationKeepsSound(o, k, i, t);
      case Requesting(enabled, k, i, t) => RegularizationKeepsSound(o, k, i, t);
      case Resetting(emp) => ResetKeepsSound(o, emp);
      case Filing(emp, lt, start, d) => LeaveKeepsSound(o, emp, LeaveRow(lt, start, d, Pending));
    }
  }

  lemma ResetKeepsSound(o: Office, emp: EmpId)
    requires Sound(o)
    ensures Sound(WithReset(o, emp))
  {
    hide Linked, OneEnvelopeEach, Referenced;
    var mid := o.(resets := o.resets[o.next.reset := ResetRow(emp, Pending)], next := o.next.(reset := o.next.reset + 1));
    NewSourceKeepsSound(o, mid, LoginReset);
    EnvelopeKeepsSound(mid, LoginReset, o.next.reset, emp);
  }

  lemma LeaveKeepsSound(o: Office, emp: EmpId, row: LeaveRow)
    requires Sound(o) && row.status.Pending?
    ensures Sound(WithLeave(o, emp, row))
  {
    hide Linked, OneEnvelopeEach, Referenced;
    var mid := o.(leaves := o.leaves[o.next.leave := row], next := o.next.(leave := o.next.leave + 1));
    NewSourceKeepsSound(o, mid, Leave);
    EnvelopeKeepsSound(mid, Leave, o.next.leave, emp);
  }

  lemma RegularizationKeepsSound(o: Office, k: Key, requestedIn: Wall, requestedOut: Wall)
    requires Sound(o)
    ensures Sound(WithRegularization(o, k, requestedIn, requestedOut))
  {
    hide RequestText, Linked, OneEnvelopeEach, Referenced;
    var reg := Regularization(k.emp, k.date, RequestText(requestedIn, requestedOut), Pending);
    NewSourceKeepsSound(o, WithReg(o, reg), Attendance);
    EnvelopeKeepsSound(WithReg(o, reg), Attendance, o.next.reg, k.emp);
  }

  ghost predicate ProperRun(cfg: Config, cycle: Cycle, o: Office, steps: seq<Step>) {
    forall i :: 0 <= i < |steps| ==> Proper(Run(cfg, cycle, o, steps[..i]), steps[i])
  }

  lemma ProperFront(cfg: Config, cycle: Cycle, o: Office, steps: seq<Step>)
    requires steps != [] && ProperRun(cfg, cycle, o, steps)
    ensures ProperRun(cfg, cycle, o, steps[..|steps| - 1])
    ensures Proper(Run(cfg, cycle, o, steps[..|steps| - 1]), steps[|steps| - 1])
  {
    var front := steps[..|steps| - 1];
    forall i | 0 <= i < |front|
      ensures Proper(Run(cfg, cycle, o, front[..i]), front[i])
    {
      assert front[..i] == steps[..i];
    }
  }

  // Envelope and source agree in every state of every such run.
  lemma {:induction false} RunsKeepSound(cfg: Config, cycle: Cycle, o: Office, steps: seq<Step>)
    requires Sound(o) && ProperRun(cfg, cycle, o, steps)
    ensures Sound(Run(cfg, cycle, o, steps))
  {
    if steps != [] {
      var front, last := steps[..|steps| - 1], steps[|steps| - 1];
      ProperFront(cfg, cycle, o, steps);
      RunsKeepSound(cfg, cycle, o, front);
      StepKeepsSound(cfg, cycle, Run(cfg, cycle, o, front), last);
    }
  }
}
