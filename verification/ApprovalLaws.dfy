// Laws of approval runs: when envelope and source agree, what submissions add and
// cancelling undoes, bulk decisions, and what a run does to the attendance tables.

// When the agreement of envelope and source is kept, exactly.
module Agreement {
  import opened Common
  import opened DayRow
  import opened AttendanceStore
  import opened ApprovalDesk
  import opened ApprovalRuns
  import opened ClockText
  import opened Corrections

  // A generic submission keeps it exactly when the request is pending and has no
  // envelope yet.
  lemma SubmissionSoundExactly(cfg: Config, o: Office, kind: RequestType, ref: nat, emp: EmpId)
    requires Sound(o) && Submit(cfg, o, kind, ref, emp).Done?
    ensures Sound(Submit(cfg, o, kind, ref, emp).state) <==> SourceStatus(o, kind, ref) == Some(Pending) && !Referenced(o, kind, ref)
  {
    var o' := WithEnvelope(o, kind, ref, emp);
    if SourceStatus(o, kind, ref) == Some(Pending) && !Referenced(o, kind, ref) {
      EnvelopeKeepsSound(o, kind, ref, emp);
    } else if Sound(o') {
      assert SourceStatus(o', o'.envelopes[o.next.envelope].kind, o'.envelopes[o.next.envelope].ref) == Some(Pending);
      SecondEnvelope(o, kind, ref, emp);
    }
  }

  lemma SecondEnvelope(o: Office, kind: RequestType, ref: nat, emp: EmpId)
    requires Sound(o)
    ensures Referenced(o, kind, ref) ==> !OneEnvelopeEach(WithEnvelope(o, kind, ref, emp))
  {
    var o' := WithEnvelope(o, kind, ref, emp);
    if id :| id in o.envelopes && Refers(o.envelopes[id], kind, ref) {
      assert Refers(o'.envelopes[id], o'.envelopes[o.next.envelope].kind, o'.envelopes[o.next.envelope].ref);
    }
  }

  // The correction route does not look at the request type. On an envelope of
  // another type it keeps the agreement only if it decides nothing.
  lemma CorrectionSoundExactly(cfg: Config, clk: Clock, o: Office, id: nat, v: Verdict)
    requires Sound(o) && DecideCorrection(cfg, clk, o, id, v).Done?
    ensures Sound(DecideCorrection(cfg, clk, o, id, v).state)
        <==> || o.envelopes[id].kind.Attendance?
             || (v == Pending && (o.regs[o.envelopes[id].ref].status.Pending? || !Referenced(o, Attendance, o.envelopes[id].ref)))
  {
    CorrectionKeepsIds(cfg, clk, o, id, v);
    var o' := DecideCorrection(cfg, clk, o, id, v).state;
    if o.envelopes[id].kind.Attendance? {
      CorrectionRules(cfg, clk, o, id, v);
      RulingKeepsSound(o, o', id, v);
    } else {
      OtherTypeExactly(o, o', id, v);
    }
  }

  lemma OtherTypeExactly(o: Office, o': Office, id: nat, v: Verdict)
    requires Sound(o) && id in o.envelopes && o.envelopes[id].status.Pending? && !o.envelopes[id].kind.Attendance? && o.envelopes[id].ref in o.regs
    requires o' == o.(envelopes := WithVerdict(o, id, v), store := o'.store,
                      regs := o.regs[o.envelopes[id].ref := o.regs[o.envelopes[id].ref].(status := v)])
    ensures Sound(o') <==> v == Pending && (o.regs[o.envelopes[id].ref].status.Pending? || !Referenced(o, Attendance, o.envelopes[id].ref))
  {
    var e := o.envelopes[id];
    assert SourceStatus(o', e.kind, e.ref) == SourceStatus(o, e.kind, e.ref) == Some(Pending);
    if v == Pending {
      assert o'.envelopes == o.envelopes;
      if Referenced(o, Attendance, e.ref) {
        var j :| j in o.envelopes && Refers(o.envelopes[j], Attendance, e.ref);
        assert SourceStatus(o, o.envelopes[j].kind, o.envelopes[j].ref) == Some(o.envelopes[j].status);
        assert SourceStatus(o', o.envelopes[j].kind, o.envelopes[j].ref) == Some(Pending);
      } else {
        forall j | j in o.envelopes
          ensures SourceStatus(o', o.envelopes[j].kind, o.envelopes[j].ref) == SourceStatus(o, o.envelopes[j].kind, o.envelopes[j].ref)
        {
          assert !Refers(o.envelopes[j], Attendance, e.ref);
        }
      }
    } else {
      assert o'.envelopes[id].status == v;
    }
  }

  // A run from empty tables that loses it: ids of leaves and of corrections both
  // start at one place, so the first leave's envelope names the first correction. The
  // correction route decides the leave's envelope with it: the leave itself stays
  // pending and no balance moves.
  lemma CorrectionRouteDecidesLeave(cfg: Config, cycle: Cycle, clk: Clock, balances: map<BalanceKey, Balance>, st: Store, e: EmpId,
                                    leaveType: int, start: Date, duration: nat, k: Key, requestedIn: Wall, requestedOut: Wall, v: Verdict)
    requires e in cfg.employees && k.emp in cfg.employees && !Frozen(cfg, st.locks, k)
    requires v.Rejected? || (v.Approved? && k !in st.days)
    ensures var o := Run(cfg, cycle, Empty(balances, st),
                         [] + [Filing(e, leaveType, start, duration)] + [Regularizing(k, requestedIn, requestedOut)] + [Correcting(clk, 0, v)]);
            && 0 in o.envelopes && o.envelopes[0] == Envelope(Leave, 0, e, v)
            && 0 in o.leaves && o.leaves[0].status.Pending? && o.balances == balances
            && 1 in o.envelopes && o.envelopes[1] == Envelope(Attendance, 0, k.emp, Pending)
            && 0 in o.regs && o.regs[0].status == v
            && !Linked(o)
  {
    hide Apply, Run, Linked, RequestText;
    var s1, s2, s3 := Filing(e, leaveType, start, duration), Regularizing(k, requestedIn, requestedOut), Correcting(clk, 0, v);
    var o0 := Empty(balances, st);
    RunNothing(cfg, cycle, o0);
    RunSnoc(cfg, cycle, o0, [], s1);
    RunSnoc(cfg, cycle, o0, [] + [s1], s2);
    RunSnoc(cfg, cycle, o0, [] + [s1] + [s2], s3);
    FiledAndRequested(cfg, cycle, balances, st, e, leaveType, start, duration, k, requestedIn, requestedOut);
    var o2 := Run(cfg, cycle, o0, [] + [s1] + [s2]);
    DecidedAcross(cfg, cycle, clk, o2, e, k, v);
  }

  lemma FiledAndRequested(cfg: Config, cycle: Cycle, balances: map<BalanceKey, Balance>, st: Store, e: EmpId, leaveType: int,
                          start: Date, duration: nat, k: Key, requestedIn: Wall, requestedOut: Wall)
    requires e in cfg.employees && k.emp in cfg.employees
    ensures var o := Apply(cfg, cycle, Apply(cfg, cycle, Empty(balances, st), Filing(e, leaveType, start, duration)), Regularizing(k, requestedIn, requestedOut));
            && o.envelopes == map[0 := Envelope(Leave, 0, e, Pending), 1 := Envelope(Attendance, 0, k.emp, Pending)]
            && o.leaves == map[0 := LeaveRow(leaveType, start, duration, Pending)] && o.balances == balances && o.store == st
            && o.regs == map[0 := Regularization(k.emp, k.date, RequestText(requestedIn, requestedOut), Pending)]
  {
    hide Judge, DecideCorrection, AttendanceRuns.Apply, RequestText;
  }

  lemma DecidedAcross(cfg: Config, cycle: Cycle, clk: Clock, o: Office, e: EmpId, k: Key, v: Verdict)
    requires o.envelopes == map[0 := Envelope(Leave, 0, e, Pending), 1 := Envelope(Attendance, 0, k.emp, Pending)]
    requires o.leaves.Keys == {0} && o.leaves[0].status.Pending?
    requires o.regs.Keys == {0} && o.regs[0].emp == k.emp && o.regs[0].date == k.date && o.regs[0].status.Pending?
    requires k.emp in cfg.employees && !Frozen(cfg, o.store.locks, k) && (v.Rejected? || (v.Approved? && k !in o.store.days))
    ensures var o' := Apply(cfg, cycle, o, Correcting(clk, 0, v));
            && o'.envelopes == o.envelopes[0 := Envelope(Leave, 0, e, v)] && o'.leaves == o.leaves && o'.balances == o.balances
            && 0 in o'.regs && o'.regs[0].status == v && !Linked(o')
  {
    hide Frozen, ParseSpan, ApplyCorrection, AttendanceRuns.Apply, Judge;
    assert Key(o.regs[0].emp, o.regs[0].date) == k;
    var o' := Apply(cfg, cycle, o, Correcting(clk, 0, v));
    assert SourceStatus(o', o'.envelopes[0].kind, o'.envelopes[0].ref) == Some(Pending);
  }
}

// What submitting adds and cancelling takes away.
module Submissions {
  import opened Common
  import opened Text
  import opened DayRow
  import opened Calendar
  import opened Locks
  import opened AttendanceStore
  import opened Corrections
  import opened ApprovalDesk
  import opened ApprovalRuns

  // Whom the envelope is for, of which type, and what its new source row holds.
  ghost predicate Contents(s: Step, o: Office, e: Envelope) {
    match s
    case Submitting(kind, ref, emp) => e == Envelope(kind, ref, emp, Pending)
    case Regularizing(k, i, t) =>
      e.kind.Attendance? && e.emp == k.emp && e.ref in o.regs && o.regs[e.ref] == Regularization(k.emp, k.date, RequestText(i, t), Pending)
    case Requesting(_, k, i, t) =>
      e.kind.Attendance? && e.emp == k.emp && e.ref in o.regs && o.regs[e.ref] == Regularization(k.emp, k.date, RequestText(i, t), Pending)
    case Resetting(emp) => e.kind.LoginReset? && e.emp == emp && e.ref in o.resets && o.resets[e.ref] == ResetRow(emp, Pending)
    case Filing(emp, lt, start, d) => e.kind.Leave? && e.emp == emp && e.ref in o.leaves && o.leaves[e.ref] == LeaveRow(lt, start, d, Pending)
    case _ => true
  }

  // When each submission is accepted: the employee is known, and the generic one finds
  // its source row, the approval module's correction and the reset find no pending one,
  // and the attendance module's correction finds the feature on, the day there and no
  // lock over it.
  lemma SubmissionAcceptedExactly(cfg: Config, cycle: Cycle, o: Office, s: Step)
    requires Counted(o) && Submission(s)
    ensures Apply(cfg, cycle, o, s) != o <==>
      match s
      case Submitting(kind, ref, emp) => emp in cfg.employees && SourceStatus(o, kind, ref).Some?
      case Regularizing(k, _, _) => k.emp in cfg.employees && NonePending(o, k)
      case Requesting(enabled, k, _, _) =>
        && enabled && k.emp in cfg.employees && k in o.store.days
        && !RowLocked(o.store.locks, LockKey(MonthOf(k.date), None))
        && !RowLocked(o.store.locks, LockKey(MonthOf(k.date), Some(cfg.employees[k.emp].branch)))
      case Resetting(emp) => emp in cfg.employees && forall r :: r in o.resets && o.resets[r].emp == emp ==> !o.resets[r].status.Pending?
      case Filing(emp, _, _, _) => emp in cfg.employees
      case _ => true
  {
    hide RequestText, AttendanceRuns.Apply, Judge, DecideCorrection, Cancel, MonthOf;
    assert o.next.envelope !in o.envelopes;
    if Apply(cfg, cycle, o, s) != o {
      SubmissionExact(cfg, cycle, o, s);
    }
  }

  ghost predicate NonePending(o: Office, k: Key) {
    forall r :: r in o.regs && o.regs[r].emp == k.emp && o.regs[r].date == k.date ==> !o.regs[r].status.Pending?
  }

  // A rejection needs remarks that are not all whitespace; with them it is decided as
  // an approval is, with the other verdict.
  lemma RejectionNeedsRemarks(cfg: Config, cycle: Cycle, clk: Clock, o: Office, id: nat, remarks: string, who: Reviewer, notified: bool)
    ensures Reject(cfg, cycle, clk, o, id, remarks, who, notified)
         == if exists i :: 0 <= i < |remarks| && !IsSpace(remarks[i]) then Judge(cfg, cycle, clk, o, id, who, Rejected, notified)
            else Answer(o, Some(RemarksRequired))
  {
    hide Judge, Strip;
    StripsToNothingExactly(remarks);
  }

  // An accepted submission adds one pending envelope under a new id. Unless it is
  // the generic one, it also adds the pending source row the envelope names, under an
  // id its table did not use. Every other row, balance and day is untouched.
  lemma SubmissionAdds(cfg: Config, cycle: Cycle, o: Office, s: Step)
    requires Counted(o) && Submission(s) && Apply(cfg, cycle, o, s) != o
    ensures var o', id := Apply(cfg, cycle, o, s), o.next.envelope;
            && id !in o.envelopes && o'.envelopes.Keys == o.envelopes.Keys + {id} && o'.envelopes[id].status.Pending?
            && (forall i :: i in o.envelopes ==> o'.envelopes[i] == o.envelopes[i])
            && Contents(s, o', o'.envelopes[id])
            && SourceStatus(o', o'.envelopes[id].kind, o'.envelopes[id].ref).Some?
            && (!s.Submitting? ==>
                  && SourceStatus(o, o'.envelopes[id].kind, o'.envelopes[id].ref).None?
                  && SourceStatus(o', o'.envelopes[id].kind, o'.envelopes[id].ref) == Some(Pending))
            && (forall kind, ref :: !Refers(o'.envelopes[id], kind, ref) ==> SourceStatus(o', kind, ref) == SourceStatus(o, kind, ref))
            && o'.balances == o.balances && o'.store == o.store
  {
    hide Apply, RequestText;
    SubmissionExact(cfg, cycle, o, s);
    if s.Submitting? {
      GenericNeedsSource(cfg, cycle, o, s);
    }
  }

  lemma GenericNeedsSource(cfg: Config, cycle: Cycle, o: Office, s: Step)
    requires s.Submitting? && Apply(cfg, cycle, o, s) != o
    ensures SourceStatus(o, s.kind, s.ref).Some?
  {
    hide Judge, DecideCorrection, AttendanceRuns.Apply, RequestText, Frozen, Cancel;
  }

  // Cancelling right after submitting restores every table; only the ids are spent.
  lemma CancelUndoesSubmission(cfg: Config, cycle: Cycle, o: Office, s: Step)
    requires Counted(o) && Submission(s) && !s.Submitting? && Apply(cfg, cycle, o, s) != o
    ensures var o' := Apply(cfg, cycle, o, s);
            Cancel(o', o.next.envelope) == Done(o.(next := o'.next))
  {
    hide Apply, RequestText;
    SubmissionExact(cfg, cycle, o, s);
    var r := Cancel(Apply(cfg, cycle, o, s), o.next.envelope);
    match s {
      case Regularizing(k, i, t) => assert r.state.regs == o.regs && r.state.envelopes == o.envelopes;
      case Requesting(enabled, k, i, t) => assert r.state.regs == o.regs && r.state.envelopes == o.envelopes;
      case Resetting(emp) => assert r.state.resets == o.resets && r.state.envelopes == o.envelopes;
      case Filing(emp, lt, start, d) => assert r.state.leaves == o.leaves && r.state.envelopes == o.envelopes;
    }
  }

  // The generic submission does not own its source row, but cancelling deletes it.
  lemma CancelTakesSharedSource(cfg: Config, o: Office, kind: RequestType, ref: nat, emp: EmpId)
    requires Counted(o) && Submit(cfg, o, kind, ref, emp).Done?
    ensures var r := Cancel(Submit(cfg, o, kind, ref, emp).state, o.next.envelope);
            SourceStatus(o, kind, ref).Some? && r.Done? && r.state.envelopes == o.envelopes && SourceStatus(r.state, kind, ref).None?
  {
    var r := Cancel(WithEnvelope(o, kind, ref, emp), o.next.envelope);
    assert r.state.envelopes == o.envelopes;
  }

  // --- One pending request per day and per employee ---

  // Both are pending and for the same day.
  predicate Rivals(a: Regularization, b: Regularization) {
    a.status.Pending? && b.status.Pending? && a.emp == b.emp && a.date == b.date
  }

  ghost predicate OnePendingEach(o: Office) {
    && (forall r, q :: r in o.regs && q in o.regs && Rivals(o.regs[r], o.regs[q]) ==> r == q)
    && (forall r, q :: r in o.resets && q in o.resets && o.resets[r] == o.resets[q] && o.resets[r].status.Pending? ==> r == q)
  }

  // No request was added, and none became pending again.
  ghost predicate NoNewPending(o: Office, o': Office) {
    && (forall r :: r in o'.regs ==> r in o.regs && o'.regs[r].(status := o.regs[r].status) == o.regs[r]
                                     && (o'.regs[r].status.Pending? ==> o.regs[r].status.Pending?))
    && (forall r :: r in o'.resets ==> r in o.resets && o'.resets[r].(status := o.resets[r].status) == o.resets[r]
                                       && (o'.resets[r].status.Pending? ==> o.resets[r].status.Pending?))
  }

  lemma NoNewPendingKeeps(o: Office, o': Office)
    requires OnePendingEach(o) && NoNewPending(o, o')
    ensures OnePendingEach(o')
  {
  }

  lemma CorrectionNoNewPending(cfg: Config, clk: Clock, o: Office, id: nat, v: Verdict)
    requires Sound(o) && (id in o.envelopes ==> o.envelopes[id].kind.Attendance?)
    ensures NoNewPending(o, Kept(o, DecideCorrection(cfg, clk, o, id, v)))
  {
    hide DecideCorrection;
    CorrectionKeepsIds(cfg, clk, o, id, v);
    if DecideCorrection(cfg, clk, o, id, v).Done? {
      assert SourceStatus(o, o.envelopes[id].kind, o.envelopes[id].ref) == Some(Pending);
    }
  }

  lemma DecisionNoNewPending(cfg: Config, cycle: Cycle, clk: Clock, o: Office, id: nat, who: Reviewer, v: Verdict, notified: bool)
    requires Sound(o) && v != Pending
    ensures NoNewPending(o, Judge(cfg, cycle, clk, o, id, who, v, notified).office)
  {
    hide DecideCorrection, NoNewPending;
    SelfNoNewPending(o);
    if Screen(cfg, o, id, who).None? {
      match o.envelopes[id].kind {
        case Attendance => CorrectionNoNewPending(cfg, clk, o, id, v);
        case Leave => LeaveNoNewPending(cycle, o, id, v);
        case LoginReset => ResetNoNewPending(o, id, v);
      }
    }
  }

  lemma SelfNoNewPending(o: Office)
    ensures NoNewPending(o, o)
  {
  }

  lemma LeaveNoNewPending(cycle: Cycle, o: Office, id: nat, v: Verdict)
    requires id in o.envelopes
    ensures NoNewPending(o, Kept(o, DecideLeave(cycle, o, id, v)))
  {
  }

  lemma ResetNoNewPending(o: Office, id: nat, v: Verdict)
    requires id in o.envelopes && v != Pending
    ensures NoNewPending(o, Kept(o, DecideReset(o, id, v)))
  {
  }

  lemma CancelNoNewPending(o: Office, id: nat)
    ensures NoNewPending(o, Kept(o, Cancel(o, id)))
  {
  }

  lemma StoreNoNewPending(o: Office, st: Store)
    ensures NoNewPending(o, o.(store := st))
  {
  }

  // The two submissions that look for a pending request first.
  lemma RegularizingKeepsOne(cfg: Config, o: Office, k: Key, requestedIn: Wall, requestedOut: Wall)
    requires Counted(o) && OnePendingEach(o)
    ensures OnePendingEach(Kept(o, SubmitRegularization(cfg, o, k, requestedIn, requestedOut)))
  {
    hide RequestText;
  }

  lemma ResettingKeepsOne(cfg: Config, o: Office, emp: EmpId)
    requires Counted(o) && OnePendingEach(o)
    ensures OnePendingEach(Kept(o, SubmitReset(cfg, o, emp)))
  {
  }

  lemma OthersKeepOne(cfg: Config, o: Office, s: Step)
    requires OnePendingEach(o)
    ensures s.Submitting? ==> OnePendingEach(Kept(o, Submit(cfg, o, s.kind, s.ref, s.emp)))
    ensures s.Filing? ==> OnePendingEach(Kept(o, FileLeave(cfg, o, s.emp, s.leaveType, s.start, s.duration)))
  {
  }

  // The attendance route looks at the day and its lock only, so what it accepts keeps
  // this exactly when the day has no pending correction: the test the approval
  // module makes before it accepts one.
  lemma RequestingKeepsOneExactly(cfg: Config, o: Office, enabled: bool, k: Key, requestedIn: Wall, requestedOut: Wall)
    requires Counted(o) && OnePendingEach(o) && RequestCorrection(cfg, o, enabled, k, requestedIn, requestedOut).Done?
    ensures OnePendingEach(RequestCorrection(cfg, o, enabled, k, requestedIn, requestedOut).state) <==> !RegularizationPending(o, k)
  {
    hide RequestText, Frozen;
    var o' := RequestCorrection(cfg, o, enabled, k, requestedIn, requestedOut).state;
    var n := o.next.reg;
    assert n in o'.regs && n !in o.regs;
    if r :| r in o.regs && o.regs[r].emp == k.emp && o.regs[r].date == k.date && o.regs[r].status.Pending? {
      assert r in o'.regs && Rivals(o'.regs[r], o'.regs[n]);
    }
  }

  // A request through the attendance module, accepted although the day has a pending one.
  predicate Duplicates(cfg: Config, o: Office, s: Step) {
    && s.Requesting? && RequestCorrection(cfg, o, s.enabled, s.key, s.requestedIn, s.requestedOut).Done?
    && RegularizationPending(o, s.key)
  }

  lemma StepKeepsOneExactly(cfg: Config, cycle: Cycle, o: Office, s: Step)
    requires Sound(o) && Proper(o, s) && OnePendingEach(o)
    ensures OnePendingEach(Apply(cfg, cycle, o, s)) <==> !Duplicates(cfg, o, s)
  {
    hide Judge, DecideCorrection, AttendanceRuns.Apply, Cancel, Submit, SubmitRegularization, RequestCorrection, RegularizationPending, SubmitReset,
         FileLeave, OnePendingEach, NoNewPending, Linked, OneEnvelopeEach, Counted;
    var o' := Apply(cfg, cycle, o, s);
    match s {
      case Approving(clk, id, who, notified) =>
        DecisionNoNewPending(cfg, cycle, clk, o, id, who, Approved, notified);
        NoNewPendingKeeps(o, o');
      case Rejecting(clk, id, remarks, who, notified) =>
        DecisionNoNewPending(cfg, cycle, clk, o, id, who, Rejected, notified);
        SelfNoNewPending(o);
        NoNewPendingKeeps(o, o');
      case Correcting(clk, id, v) =>
        CorrectionNoNewPending(cfg, clk, o, id, v);
        NoNewPendingKeeps(o, o');
      case Cancelling(id) =>
        CancelNoNewPending(o, id);
        NoNewPendingKeeps(o, o');
      case Attending(a) =>
        StoreNoNewPending(o, AttendanceRuns.Apply(cfg, o.store, a));
        NoNewPendingKeeps(o, o');
      case Regularizing(k, i, t) => RegularizingKeepsOne(cfg, o, k, i, t);
      case Requesting(enabled, k, i, t) =>
        if RequestCorrection(cfg, o, enabled, k, i, t).Done? {
          RequestingKeepsOneExactly(cfg, o, enabled, k, i, t);
        }
      case Resetting(emp) => ResettingKeepsOne(cfg, o, emp);
      case _ => OthersKeepOne(cfg, o, s);
    }
  }

  // At most one pending correction per employee and day and one pending reset per
  // employee, in every state the run goes through.
  ghost predicate OneThroughout(cfg: Config, cycle: Cycle, o: Office, steps: seq<Step>) {
    forall i :: 0 <= i <= |steps| ==> OnePendingEach(Run(cfg, cycle, o, steps[..i]))
  }

  ghost predicate NoDuplicates(cfg: Config, cycle: Cycle, o: Office, steps: seq<Step>) {
    forall i :: 0 <= i < |steps| ==> !Duplicates(cfg, Run(cfg, cycle, o, steps[..i]), steps[i])
  }

  lemma FrontOfRun(cfg: Config, cycle: Cycle, o: Office, steps: seq<Step>)
    requires steps != []
    ensures var front, last := steps[..|steps| - 1], steps[|steps| - 1];
            && (OneThroughout(cfg, cycle, o, steps) <==> OneThroughout(cfg, cycle, o, front) && OnePendingEach(Run(cfg, cycle, o, steps)))
            && (NoDuplicates(cfg, cycle, o, steps) <==>
                  NoDuplicates(cfg, cycle, o, front) && !Duplicates(cfg, Run(cfg, cycle, o, front), last))
            && (OneThroughout(cfg, cycle, o, front) ==> OnePendingEach(Run(cfg, cycle, o, front)))
  {
    hide OnePendingEach, Duplicates, Run;
    var front := steps[..|steps| - 1];
    assert steps[..|steps|] == steps && front[..|front|] == front;
    assert forall i :: 0 <= i <= |front| ==> steps[..i] == front[..i];
    if OneThroughout(cfg, cycle, o, front) && OnePendingEach(Run(cfg, cycle, o, steps)) {
      forall i | 0 <= i <= |steps|
        ensures OnePendingEach(Run(cfg, cycle, o, steps[..i]))
      {
        assert i <= |front| ==> steps[..i] == front[..i];
      }
    }
    if OneThroughout(cfg, cycle, o, steps) {
      assert OnePendingEach(Run(cfg, cycle, o, steps[..|steps|]));
      forall i | 0 <= i <= |front|
        ensures OnePendingEach(Run(cfg, cycle, o, front[..i]))
      {
        assert steps[..i] == front[..i];
      }
    }
    if NoDuplicates(cfg, cycle, o, steps) {
      forall i | 0 <= i < |front|
        ensures !Duplicates(cfg, Run(cfg, cycle, o, front[..i]), front[i])
      {
        assert steps[..i] == front[..i] && steps[i] == front[i];
      }
    }
    assert OneThroughout(cfg, cycle, o, front) ==> OnePendingEach(Run(cfg, cycle, o, front[..|front|]));
  }

  // A proper run keeps that exactly when the attendance module never accepted a
  // request for a day that had a pending one.
  lemma {:induction false} OnePendingRequestEach(cfg: Config, cycle: Cycle, o: Office, steps: seq<Step>)
    requires Sound(o) && ProperRun(cfg, cycle, o, steps) && OnePendingEach(o)
    ensures OneThroughout(cfg, cycle, o, steps) <==> NoDuplicates(cfg, cycle, o, steps)
  {
    hide Apply, OnePendingEach, Sound, Proper, Duplicates;
    if steps == [] {
      assert steps[..0] == [] && Run(cfg, cycle, o, []) == o;
    } else {
      var front := steps[..|steps| - 1];
      ProperFront(cfg, cycle, o, steps);
      OnePendingRequestEach(cfg, cycle, o, front);
      FrontOfRun(cfg, cycle, o, steps);
      if OneThroughout(cfg, cycle, o, front) {
        RunsKeepSound(cfg, cycle, o, front);
        StepKeepsOneExactly(cfg, cycle, Run(cfg, cycle, o, front), steps[|steps| - 1]);
      }
    }
  }

  // A run from empty tables that loses it: a day marked by hand and two requests for
  // it through the attendance module. Both are then pending.
  lemma AttendanceRouteDuplicates(cfg: Config, cycle: Cycle, balances: map<BalanceKey, Balance>, k: Key, status: Status,
                                  in1: Wall, out1: Wall, in2: Wall, out2: Wall)
    requires k.emp in cfg.employees
    ensures var o := Run(cfg, cycle, Empty(balances, Store(map[], map[], map[])),
                         [] + [Attending(AttendanceRuns.Mark(k, status, false, true))] + [Requesting(true, k, in1, out1)] + [Requesting(true, k, in2, out2)]);
            && 0 in o.regs && 1 in o.regs && Rivals(o.regs[0], o.regs[1]) && o.regs[0].date == k.date && o.regs[0].emp == k.emp
            && !OnePendingEach(o)
  {
    hide Apply, Run, RequestText, OnePendingEach;
    var s1, s2, s3 := Attending(AttendanceRuns.Mark(k, status, false, true)), Requesting(true, k, in1, out1), Requesting(true, k, in2, out2);
    var o0 := Empty(balances, Store(map[], map[], map[]));
    RunNothing(cfg, cycle, o0);
    RunSnoc(cfg, cycle, o0, [], s1);
    RunSnoc(cfg, cycle, o0, [] + [s1], s2);
    RunSnoc(cfg, cycle, o0, [] + [s1] + [s2], s3);
    var o1 := Apply(cfg, cycle, o0, s1);
    MarkedOffice(cfg, cycle, balances, k, status);
    RequestedTwice(cfg, cycle, o1, k, in1, out1, in2, out2);
  }

  lemma MarkedOffice(cfg: Config, cycle: Cycle, balances: map<BalanceKey, Balance>, k: Key, status: Status)
    requires k.emp in cfg.employees
    ensures var o := Apply(cfg, cycle, Empty(balances, Store(map[], map[], map[])), Attending(AttendanceRuns.Mark(k, status, false, true)));
            k in o.store.days && o.store.locks == map[] && o.regs == map[] && o.next.reg == 0
  {
    hide AttendanceRuns.Apply;
    AttendanceRuns.MarkedAlone(cfg, k, status);
  }

  lemma RequestedTwice(cfg: Config, cycle: Cycle, o: Office, k: Key, in1: Wall, out1: Wall, in2: Wall, out2: Wall)
    requires k.emp in cfg.employees && k in o.store.days && o.store.locks == map[] && o.regs == map[] && o.next.reg == 0
    ensures var o' := Apply(cfg, cycle, Apply(cfg, cycle, o, Requesting(true, k, in1, out1)), Requesting(true, k, in2, out2));
            && 0 in o'.regs && 1 in o'.regs && Rivals(o'.regs[0], o'.regs[1]) && o'.regs[0].date == k.date && o'.regs[0].emp == k.emp
            && !OnePendingEach(o')
  {
    hide RequestText, Judge, DecideCorrection, AttendanceRuns.Apply;
    assert !Frozen(cfg, o.store.locks, k);
  }
}

// Bulk decisions.
module BulkLaws {
  import opened Common
  import opened DayRow
  import opened Text
  import opened AttendanceStore
  import opened ApprovalDesk
  import opened ApprovalRuns

  function Singles(clk: Clock, items: seq<Item>, who: Reviewer, v: Verdict, remarks: string): (steps: seq<Step>)
    ensures |steps| == |items|
  {
    seq(|items|, i requires 0 <= i < |items| =>
      if v.Rejected? then Rejecting(clk, items[i].id, remarks, who, items[i].notified)
      else Approving(clk, items[i].id, who, items[i].notified))
  }

  // A bulk decision ends where deciding one by one ends.
  lemma {:induction false} BulkIsFold(cfg: Config, cycle: Cycle, clk: Clock, o: Office, items: seq<Item>, who: Reviewer, v: Verdict, remarks: string)
    requires v.Approved? || (v.Rejected? && Strip(remarks) != "")
    ensures JudgeAll(cfg, cycle, clk, o, items, who, v).office == Run(cfg, cycle, o, Singles(clk, items, who, v, remarks))
  {
    hide Judge, Strip;
    if items != [] {
      BulkIsFold(cfg, cycle, clk, o, items[..|items| - 1], who, v, remarks);
      assert Singles(clk, items, who, v, remarks)[..|items| - 1] == Singles(clk, items[..|items| - 1], who, v, remarks);
    }
  }

  // One line per item, in order, each telling what its own decision did to the
  // tables as the items before it left them.
  lemma {:induction false} OneLineEach(cfg: Config, cycle: Cycle, clk: Clock, o: Office, items: seq<Item>, who: Reviewer, v: Verdict, i: nat)
    requires i < |items|
    ensures var b := JudgeAll(cfg, cycle, clk, o, items, who, v);
            var before := JudgeAll(cfg, cycle, clk, o, items[..i], who, v).office;
            b.lines[i] == Line(items[i].id, Judge(cfg, cycle, clk, before, items[i].id, who, v, items[i].notified).fault)
  {
    if i < |items| - 1 {
      OneLineEach(cfg, cycle, clk, o, items[..|items| - 1], who, v, i);
      assert items[..|items| - 1][..i] == items[..i];
    }
  }

  // A decided envelope stays decided through the rest of a batch.
  lemma {:induction false} BatchSparesDecided(cfg: Config, cycle: Cycle, clk: Clock, o: Office, items: seq<Item>, who: Reviewer, v: Verdict, m: nat, id: nat)
    requires v != Pending && m <= |items|
    requires var mid := JudgeAll(cfg, cycle, clk, o, items[..m], who, v).office;
             id in mid.envelopes && !mid.envelopes[id].status.Pending?
    ensures var end := JudgeAll(cfg, cycle, clk, o, items, who, v).office;
            id in end.envelopes && !end.envelopes[id].status.Pending?
  {
    if m < |items| {
      var front, last := items[..|items| - 1], items[|items| - 1];
      assert front[..m] == items[..m];
      BatchSparesDecided(cfg, cycle, clk, o, front, who, v, m, id);
      JudgeSpares(cfg, cycle, clk, JudgeAll(cfg, cycle, clk, o, front, who, v).office, last.id, who, v, last.notified, id);
    } else {
      assert items[..m] == items;
    }
  }

  // An id that is repeated succeeds at most once; afterwards it is reported as
  // already decided.
  lemma RepeatIsRefused(cfg: Config, cycle: Cycle, clk: Clock, o: Office, items: seq<Item>, who: Reviewer, v: Verdict, i: nat, j: nat)
    requires v != Pending && i < j < |items| && items[i].id == items[j].id
    requires JudgeAll(cfg, cycle, clk, o, items, who, v).lines[i].fault.None?
    ensures JudgeAll(cfg, cycle, clk, o, items, who, v).lines[j].fault == Some(AlreadyDecided)
  {
    hide DecideCorrection, DecideLeave, DecideReset;
    var id := items[i].id;
    var before := JudgeAll(cfg, cycle, clk, o, items[..i], who, v).office;
    OneLineEach(cfg, cycle, clk, o, items, who, v, i);
    OneLineEach(cfg, cycle, clk, o, items, who, v, j);
    DecisionExact(cfg, cycle, clk, before, id, who, v, items[i].notified);
    assert items[..i + 1][..i] == items[..i];
    assert items[..j][..i + 1] == items[..i + 1];
    BatchSparesDecided(cfg, cycle, clk, o, items[..j], who, v, i + 1, id);
  }
}

// What approval runs do to the attendance tables.
module ApprovalTrace {
  import opened Common
  import opened DayRow
  import opened Calendar
  import opened Locks
  import opened AttendanceStore
  import opened ClockText
  import opened ApprovalDesk
  import opened ApprovalRuns

  ghost predicate Caused(a: AttendanceRuns.Step, steps: seq<Step>) {
    a.Corrected? || Attending(a) in steps
  }

  lemma CorrectionIsStep(cfg: Config, clk: Clock, o: Office, id: nat, v: Verdict) returns (a: seq<AttendanceRuns.Step>)
    requires DecideCorrection(cfg, clk, o, id, v).Done?
    ensures |a| <= 1 && (a != [] ==> a[0].Corrected?)
    ensures DecideCorrection(cfg, clk, o, id, v).state.store == if a == [] then o.store else AttendanceRuns.Apply(cfg, o.store, a[0])
  {
    hide ApplyCorrection, ParseSpan, Frozen;
    var reg := o.regs[o.envelopes[id].ref];
    var k := Key(reg.emp, reg.date);
    if v != Approved || k !in o.store.days {
      return [];
    }
    var span := ParseSpan(reg.text).value;
    return [AttendanceRuns.Corrected(clk, k, span.0, span.1)];
  }

  lemma StepIsStep(cfg: Config, cycle: Cycle, o: Office, s: Step) returns (a: seq<AttendanceRuns.Step>)
    ensures |a| <= 1 && (a != [] ==> Caused(a[0], [s]))
    ensures Apply(cfg, cycle, o, s).store == if a == [] then o.store else AttendanceRuns.Apply(cfg, o.store, a[0])
  {
    hide Judge, DecideCorrection, AttendanceRuns.Apply, Frozen;
    match s {
      case Approving(clk, id, who, notified) => a := DecisionIsStep(cfg, cycle, clk, o, id, who, Approved, notified);
      case Rejecting(clk, id, remarks, who, notified) => a := DecisionIsStep(cfg, cycle, clk, o, id, who, Rejected, notified);
        if Apply(cfg, cycle, o, s) == o { a := []; }
      case Correcting(clk, id, v) =>
        a := [];
        if DecideCorrection(cfg, clk, o, id, v).Done? {
          a := CorrectionIsStep(cfg, clk, o, id, v);
        }
      case Attending(t) => a := [t];
      case _ => a := [];
    }
  }

  lemma DecisionIsStep(cfg: Config, cycle: Cycle, clk: Clock, o: Office, id: nat, who: Reviewer, v: Verdict, notified: bool)
    returns (a: seq<AttendanceRuns.Step>)
    ensures |a| <= 1 && (a != [] ==> a[0].Corrected?)
    ensures Judge(cfg, cycle, clk, o, id, who, v, notified).office.store == if a == [] then o.store else AttendanceRuns.Apply(cfg, o.store, a[0])
  {
    hide DecideCorrection, AttendanceRuns.Apply;
    a := [];
    if Screen(cfg, o, id, who).None? && o.envelopes[id].kind.Attendance? && DecideCorrection(cfg, clk, o, id, v).Done? {
      a := CorrectionIsStep(cfg, clk, o, id, v);
    }
  }

  // Every run leaves the attendance tables where some run of attendance operations
  // leaves them, made of the run's own attendance steps and of corrections.
  lemma {:induction false} RunIsRun(cfg: Config, cycle: Cycle, o: Office, steps: seq<Step>) returns (trace: seq<AttendanceRuns.Step>)
    ensures Run(cfg, cycle, o, steps).store == AttendanceRuns.Run(cfg, o.store, trace)
    ensures forall a :: a in trace ==> Caused(a, steps)
  {
    hide Apply, AttendanceRuns.Apply;
    trace := [];
    if steps != [] {
      var front, last := steps[..|steps| - 1], steps[|steps| - 1];
      var before := RunIsRun(cfg, cycle, o, front);
      var a := StepIsStep(cfg, cycle, Run(cfg, cycle, o, front), last);
      trace := before + a;
      TraceGrows(cfg, o.store, before, a);
      CausedGrows(before, a, front, last);
      assert steps == front + [last];
    }
  }

  lemma TraceGrows(cfg: Config, st: Store, before: seq<AttendanceRuns.Step>, a: seq<AttendanceRuns.Step>)
    requires |a| <= 1
    ensures AttendanceRuns.Run(cfg, st, before + a)
         == if a == [] then AttendanceRuns.Run(cfg, st, before) else AttendanceRuns.Apply(cfg, AttendanceRuns.Run(cfg, st, before), a[0])
  {
    hide AttendanceRuns.Apply;
    if a == [] {
      assert before + a == before;
    } else {
      assert (before + a)[..|before|] == before;
    }
  }

  lemma CausedGrows(before: seq<AttendanceRuns.Step>, a: seq<AttendanceRuns.Step>, front: seq<Step>, last: Step)
    requires forall x :: x in before ==> Caused(x, front)
    requires |a| <= 1 && (a != [] ==> Caused(a[0], [last]))
    ensures forall x :: x in before + a ==> Caused(x, front + [last])
  {
  }

  // So sequence numbers, first and last punch stay right under approvals too.
  lemma ApprovalsKeepOk(cfg: Config, cycle: Cycle, o: Office, steps: seq<Step>)
    requires AttendanceRuns.StoreOk(o.store)
    ensures AttendanceRuns.StoreOk(Run(cfg, cycle, o, steps).store)
  {
    var trace := RunIsRun(cfg, cycle, o, steps);
    AttendanceRuns.RunsKeepOk(cfg, o.store, trace);
  }

  // And no approval gets past a company lock.
  lemma ApprovalsRespectLocks(cfg: Config, cycle: Cycle, o: Office, steps: seq<Step>, k: Key)
    requires RowLocked(o.store.locks, LockKey(MonthOf(k.date), None))
    requires forall i :: 0 <= i < |steps| && steps[i].Attending? ==> !AttendanceRuns.Lifts(steps[i].step, MonthOf(k.date), None)
    ensures AttendanceRuns.DayAt(Run(cfg, cycle, o, steps).store, k) == AttendanceRuns.DayAt(o.store, k)
  {
    var trace := RunIsRun(cfg, cycle, o, steps);
    forall i | 0 <= i < |trace|
      ensures !AttendanceRuns.Lifts(trace[i], MonthOf(k.date), None)
    {
      assert trace[i] in trace;
    }
    AttendanceRuns.CompanyLockFreezes(cfg, o.store, trace, k);
  }

  // Under a branch lock the same holds for runs without the two paths that ignore it.
  lemma ApprovalsRespectBranchLocks(cfg: Config, cycle: Cycle, o: Office, steps: seq<Step>, k: Key)
    requires k.emp in cfg.employees
    requires RowLocked(o.store.locks, LockKey(MonthOf(k.date), Some(cfg.employees[k.emp].branch)))
    requires forall i :: 0 <= i < |steps| && steps[i].Attending? ==>
      AttendanceRuns.ChecksBranch(steps[i].step)
      && !AttendanceRuns.Lifts(steps[i].step, MonthOf(k.date), Some(cfg.employees[k.emp].branch))
    ensures AttendanceRuns.DayAt(Run(cfg, cycle, o, steps).store, k) == AttendanceRuns.DayAt(o.store, k)
  {
    var trace := RunIsRun(cfg, cycle, o, steps);
    var branch := Some(cfg.employees[k.emp].branch);
    forall i | 0 <= i < |trace|
      ensures AttendanceRuns.ChecksBranch(trace[i]) && !AttendanceRuns.Lifts(trace[i], MonthOf(k.date), branch)
    {
      assert trace[i] in trace;
      if !trace[i].Corrected? {
        var j :| 0 <= j < |steps| && steps[j] == Attending(trace[i]);
      }
    }
    AttendanceRuns.BranchLockFreezes(cfg, o.store, trace, k);
  }
}
