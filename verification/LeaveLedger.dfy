// Leave balances over whole runs of approvals.

module LeaveLedger {
  import opened Common
  import opened DayRow
  import opened AttendanceStore
  import opened ApprovalDesk
  import opened ApprovalRuns

  // --- What holds on every run ---

  // The two columns of a balance move in step and no balance row comes or goes.
  ghost predicate Balanced(o: Office, o': Office) {
    && o'.balances.Keys == o.balances.Keys
    && forall key :: key in o.balances ==>
         && o'.balances[key].used + o'.balances[key].closing == o.balances[key].used + o.balances[key].closing
         && o'.balances[key].used >= o.balances[key].used
         && (o.balances[key].closing >= 0 ==> o'.balances[key].closing >= 0)
  }

  lemma DecisionBalances(cfg: Config, cycle: Cycle, clk: Clock, o: Office, id: nat, who: Reviewer, v: Verdict, notified: bool)
    ensures Balanced(o, Judge(cfg, cycle, clk, o, id, who, v, notified).office)
  {
    hide DecideCorrection, Frozen;
    if Screen(cfg, o, id, who).None? {
      var r := Decide(cfg, cycle, clk, o, id, v);
      JudgeOf(cfg, cycle, clk, o, id, who, v, notified, r);
      if o.envelopes[id].kind.Attendance? {
        CorrectionKeepsIds(cfg, clk, o, id, v);
      }
    }
  }

  lemma StepBalances(cfg: Config, cycle: Cycle, o: Office, s: Step)
    ensures Balanced(o, Apply(cfg, cycle, o, s))
  {
    hide Judge, DecideCorrection, AttendanceRuns.Apply, Frozen;
    match s {
      case Approving(clk, id, who, notified) => DecisionBalances(cfg, cycle, clk, o, id, who, Approved, notified);
      case Rejecting(clk, id, remarks, who, notified) => DecisionBalances(cfg, cycle, clk, o, id, who, Rejected, notified);
      case Correcting(clk, id, v) => CorrectionKeepsIds(cfg, clk, o, id, v);
      case _ =>
    }
  }

  // Over any run, used + closing stays the same for each employee, leave type and
  // cycle year, used never shrinks and closing never becomes negative.
  lemma {:induction false} Conservation(cfg: Config, cycle: Cycle, o: Office, steps: seq<Step>)
    ensures Balanced(o, Run(cfg, cycle, o, steps))
  {
    if steps != [] {
      Conservation(cfg, cycle, o, steps[..|steps| - 1]);
      StepBalances(cfg, cycle, Run(cfg, cycle, o, steps[..|steps| - 1]), steps[|steps| - 1]);
    }
  }

  // --- What was used is what was approved ---

  // Days an envelope has taken from a balance: the duration of its leave once it
  // is approved.
  function Share(cycle: Cycle, o: Office, key: BalanceKey, id: nat): nat {
    if id in o.envelopes && o.envelopes[id].kind.Leave? && o.envelopes[id].status.Approved?
       && o.envelopes[id].ref in o.leaves && BalanceKeyOf(cycle, o, id) == key
    then o.leaves[o.envelopes[id].ref].duration else 0
  }

  // The durations of the approved leave envelopes with ids below n.
  function Spent(cycle: Cycle, o: Office, key: BalanceKey, n: nat): nat {
    if n == 0 then 0 else Spent(cycle, o, key, n - 1) + Share(cycle, o, key, n - 1)
  }

  lemma {:induction false} SpentSame(cycle: Cycle, o: Office, o': Office, key: BalanceKey, n: nat)
    requires forall j :: 0 <= j < n ==> Share(cycle, o', key, j) == Share(cycle, o, key, j)
    ensures Spent(cycle, o', key, n) == Spent(cycle, o, key, n)
  {
    if n > 0 {
      SpentSame(cycle, o, o', key, n - 1);
    }
  }

  lemma {:induction false} SpentAt(cycle: Cycle, o: Office, o': Office, key: BalanceKey, n: nat, id: nat)
    requires id < n && forall j :: 0 <= j < n && j != id ==> Share(cycle, o', key, j) == Share(cycle, o, key, j)
    ensures Spent(cycle, o', key, n) - Spent(cycle, o, key, n) == Share(cycle, o', key, id) - Share(cycle, o, key, id)
  {
    if id == n - 1 {
      SpentSame(cycle, o, o', key, n - 1);
    } else {
      SpentAt(cycle, o, o', key, n - 1, id);
    }
  }

  lemma {:induction false} SpentBeyond(cycle: Cycle, o: Office, key: BalanceKey, m: nat, n: nat)
    requires m <= n && forall j :: m <= j < n ==> Share(cycle, o, key, j) == 0
    ensures Spent(cycle, o, key, n) == Spent(cycle, o, key, m)
  {
    if m < n {
      SpentBeyond(cycle, o, key, m, n - 1);
    }
  }

  // A verdict moves the share of its own envelope only.
  lemma RulingSpends(cycle: Cycle, o: Office, o': Office, key: BalanceKey, id: nat, v: Verdict)
    requires Counted(o) && Ruled(o, o', id, v)
    ensures Spent(cycle, o', key, o'.next.envelope) - Spent(cycle, o, key, o.next.envelope) == Share(cycle, o', key, id)
  {
    forall j | 0 <= j < o.next.envelope && j != id
      ensures Share(cycle, o', key, j) == Share(cycle, o, key, j)
    {
    }
    SpentAt(cycle, o, o', key, o.next.envelope, id);
  }

  lemma CancelSpends(cycle: Cycle, o: Office, key: BalanceKey, id: nat)
    requires Sound(o)
    ensures var o' := Kept(o, Cancel(o, id)); Spent(cycle, o', key, o'.next.envelope) == Spent(cycle, o, key, o.next.envelope) && o'.balances == o.balances
  {
    hide CycleYear, Spent;
    var r := Cancel(o, id);
    if r.Done? {
      forall j | 0 <= j < o.next.envelope
        ensures Share(cycle, r.state, key, j) == Share(cycle, o, key, j)
      {
        assert j in o.envelopes && j != id ==> !Refers(o.envelopes[j], o.envelopes[id].kind, o.envelopes[id].ref);
      }
      SpentSame(cycle, o, r.state, key, o.next.envelope);
    }
  }

  // New rows are pending and nobody approved refers to them.
  lemma AdditionSpends(cycle: Cycle, o: Office, o': Office, key: BalanceKey)
    requires Sound(o) && o.next.envelope <= o'.next.envelope && o'.balances == o.balances
    requires forall j :: j in o.envelopes ==> j in o'.envelopes && o'.envelopes[j] == o.envelopes[j]
    requires forall j :: j in o'.envelopes && j !in o.envelopes ==> o'.envelopes[j].status.Pending?
    requires forall r :: r in o.leaves ==> r in o'.leaves && o'.leaves[r] == o.leaves[r]
    ensures Spent(cycle, o', key, o'.next.envelope) == Spent(cycle, o, key, o.next.envelope)
  {
    forall j: nat
      ensures Share(cycle, o', key, j) == Share(cycle, o, key, j)
    {
      if j in o.envelopes {
        assert SourceStatus(o, o.envelopes[j].kind, o.envelopes[j].ref).Some?;
      }
    }
    SpentSame(cycle, o, o', key, o.next.envelope);
    SpentBeyond(cycle, o', key, o.next.envelope, o'.next.envelope);
  }

  lemma StoreSpends(cycle: Cycle, o: Office, o': Office, key: BalanceKey)
    requires o' == o.(store := o'.store)
    ensures Spent(cycle, o', key, o'.next.envelope) == Spent(cycle, o, key, o.next.envelope)
  {
    SpentSame(cycle, o, o', key, o.next.envelope);
  }

  ghost predicate Accounted(cycle: Cycle, o: Office, o': Office, key: BalanceKey)
    requires key in o.balances && key in o'.balances
  {
    o'.balances[key].used - o.balances[key].used == Spent(cycle, o', key, o'.next.envelope) - Spent(cycle, o, key, o.next.envelope)
  }

  lemma DecisionAccounts(cfg: Config, cycle: Cycle, clk: Clock, o: Office, id: nat, who: Reviewer, v: Verdict,
                         notified: bool, key: BalanceKey)
    requires Sound(o) && v != Pending && key in o.balances
    ensures var o' := Judge(cfg, cycle, clk, o, id, who, v, notified).office;
            key in o'.balances && Accounted(cycle, o, o', key)
  {
    var o' := Judge(cfg, cycle, clk, o, id, who, v, notified).office;
    DecisionExact(cfg, cycle, clk, o, id, who, v, notified);
    if o' != o {
      RulingSpends(cycle, o, o', key, id, v);
      var r := Decide(cfg, cycle, clk, o, id, v);
      JudgeOf(cfg, cycle, clk, o, id, who, v, notified, r);
      if o.envelopes[id].kind.Attendance? {
        CorrectionKeepsIds(cfg, clk, o, id, v);
      }
    }
  }

  lemma StepAccounts(cfg: Config, cycle: Cycle, o: Office, s: Step, key: BalanceKey)
    requires Sound(o) && Proper(o, s) && key in o.balances
    ensures var o' := Apply(cfg, cycle, o, s); key in o'.balances && Accounted(cycle, o, o', key)
  {
    hide Judge, DecideCorrection, AttendanceRuns.Apply, Submit, SubmitRegularization, RequestCorrection, SubmitReset, FileLeave, Cancel, Counted, Linked, OneEnvelopeEach, Spent;
    var o' := Apply(cfg, cycle, o, s);
    match s {
      case Approving(clk, id, who, notified) => DecisionAccounts(cfg, cycle, clk, o, id, who, Approved, notified, key);
      case Rejecting(clk, id, remarks, who, notified) => DecisionAccounts(cfg, cycle, clk, o, id, who, Rejected, notified, key);
      case Correcting(clk, id, v) => CorrectionAccounts(cfg, cycle, clk, o, id, v, key);
      case Cancelling(id) => CancelSpends(cycle, o, key, id);
      case Attending(a) => StoreSpends(cycle, o, o', key);
      case _ => SubmissionAccounts(cfg, cycle, o, s, key);
    }
  }

  lemma CorrectionAccounts(cfg: Config, cycle: Cycle, clk: Clock, o: Office, id: nat, v: Verdict, key: BalanceKey)
    requires Sound(o) && key in o.balances && (id in o.envelopes ==> o.envelopes[id].kind.Attendance?)
    ensures var o' := Kept(o, DecideCorrection(cfg, clk, o, id, v)); key in o'.balances && Accounted(cycle, o, o', key)
  {
    CorrectionKeepsIds(cfg, clk, o, id, v);
    if DecideCorrection(cfg, clk, o, id, v).Done? {
      CorrectionRules(cfg, clk, o, id, v);
      RulingSpends(cycle, o, DecideCorrection(cfg, clk, o, id, v).state, key, id, v);
    }
  }

  lemma SubmissionAccounts(cfg: Config, cycle: Cycle, o: Office, s: Step, key: BalanceKey)
    requires Sound(o) && Submission(s) && key in o.balances
    ensures var o' := Apply(cfg, cycle, o, s); key in o'.balances && Accounted(cycle, o, o', key)
  {
    hide Judge, DecideCorrection, AttendanceRuns.Apply, Cancel, Spent, Linked, OneEnvelopeEach;
    var o' := Apply(cfg, cycle, o, s);
    if o' != o {
      SubmissionExact(cfg, cycle, o, s);
      AdditionSpends(cycle, o, o', key);
    }
  }

  // Over a run that keeps one envelope per request, the days used from a balance
  // grow by exactly the durations of the leave envelopes approved into it.
  lemma {:induction false} UsedIsApproved(cfg: Config, cycle: Cycle, o: Office, steps: seq<Step>, key: BalanceKey)
    requires Sound(o) && ProperRun(cfg, cycle, o, steps) && key in o.balances
    ensures var o' := Run(cfg, cycle, o, steps); key in o'.balances && Accounted(cycle, o, o', key)
  {
    if steps != [] {
      var front, last := steps[..|steps| - 1], steps[|steps| - 1];
      ProperFront(cfg, cycle, o, steps);
      UsedIsApproved(cfg, cycle, o, front, key);
      RunsKeepSound(cfg, cycle, o, front);
      StepAccounts(cfg, cycle, Run(cfg, cycle, o, front), last, key);
    }
  }

  // Deciding a leave: an approval needs the balance of the envelope's employee, the
  // leave's type and the cycle year of its first day, moves the leave's duration from
  // closing to used there, and touches no other balance; a rejection touches none.
  lemma LeaveDecisionExact(cycle: Cycle, o: Office, id: nat, v: Verdict)
    requires id in o.envelopes && o.envelopes[id].ref in o.leaves && v != Pending
    ensures var row := o.leaves[o.envelopes[id].ref];
            var key := BalanceKey(o.envelopes[id].emp, row.leaveType, CycleYear(cycle, row.start));
            var r := DecideLeave(cycle, o, id, v);
            && (r.Done? <==> v.Rejected? || (key in o.balances && o.balances[key].closing >= row.duration))
            && (r.Done? && v.Rejected? ==> r.state.balances == o.balances)
            && (r.Done? && v.Approved? ==>
                  r.state.balances == o.balances[key := Balance(o.balances[key].used + row.duration, o.balances[key].closing - row.duration)])
            && (r.Done? ==> id in r.state.envelopes && r.state.envelopes[id].status == v && r.state.leaves == o.leaves[o.envelopes[id].ref := row.(status := v)])
  {
    hide CycleYear;
  }

  // A leave request with two envelopes, which a generic submission allows, can be
  // approved twice and is then charged twice.
  lemma SharedRequestChargedTwice(cfg: Config, cycle: Cycle, clk: Clock, o: Office, i: nat, j: nat, who: Reviewer)
    requires i != j && Screen(cfg, o, i, who).None? && Screen(cfg, o, j, who).None?
    requires o.envelopes[i].kind.Leave? && o.envelopes[j] == o.envelopes[i] && o.envelopes[i].ref in o.leaves
    requires BalanceKeyOf(cycle, o, i) in o.balances
    requires o.balances[BalanceKeyOf(cycle, o, i)].closing >= 2 * o.leaves[o.envelopes[i].ref].duration
    ensures var a := Approve(cfg, cycle, clk, o, i, who, true);
            var b := Approve(cfg, cycle, clk, a.office, j, who, true);
            && a.fault.None? && b.fault.None?
            && BalanceKeyOf(cycle, o, i) in b.office.balances
            && b.office.balances[BalanceKeyOf(cycle, o, i)].used
               == o.balances[BalanceKeyOf(cycle, o, i)].used + 2 * o.leaves[o.envelopes[i].ref].duration
  {
    var a := Approve(cfg, cycle, clk, o, i, who, true);
    assert a.fault.None? && a.office.envelopes[j] == o.envelopes[j];
    assert BalanceKeyOf(cycle, a.office, j) == BalanceKeyOf(cycle, o, i);
  }

  // A run from empty tables that gets there: a filed leave, a generic submission of
  // the same leave, and both envelopes approved. The only caller of the generic
  // submission in the repository passes a leave it has just created.
  lemma TwiceChargedRun(cfg: Config, cycle: Cycle, clk: Clock, balances: map<BalanceKey, Balance>, st: Store, e: EmpId, leaveType: int,
                        start: Date, duration: nat, who: Reviewer)
    requires e in cfg.employees && who == Reviewer(None, None, None)
    requires var key := BalanceKey(e, leaveType, CycleYear(cycle, start)); key in balances && balances[key].closing >= 2 * duration
    ensures var key := BalanceKey(e, leaveType, CycleYear(cycle, start));
            var o := Run(cfg, cycle, Empty(balances, st),
                         [] + [Filing(e, leaveType, start, duration)] + [Submitting(Leave, 0, e)]
                         + [Approving(clk, 0, who, true)] + [Approving(clk, 1, who, true)]);
            key in o.balances && o.balances[key].used == balances[key].used + 2 * duration
  {
    hide Apply, Run, CycleYear;
    var s1, s2, s3, s4 := Filing(e, leaveType, start, duration), Submitting(Leave, 0, e), Approving(clk, 0, who, true), Approving(clk, 1, who, true);
    var o0 := Empty(balances, st);
    RunNothing(cfg, cycle, o0);
    RunSnoc(cfg, cycle, o0, [], s1);
    RunSnoc(cfg, cycle, o0, [] + [s1], s2);
    RunSnoc(cfg, cycle, o0, [] + [s1] + [s2], s3);
    RunSnoc(cfg, cycle, o0, [] + [s1] + [s2] + [s3], s4);
    var o2 := Run(cfg, cycle, o0, [] + [s1] + [s2]);
    FiledTwice(cfg, cycle, balances, st, e, leaveType, start, duration);
    SharedRequestChargedTwice(cfg, cycle, clk, o2, 0, 1, who);
    ApprovingApplies(cfg, cycle, o2, s3);
    ApprovingApplies(cfg, cycle, Apply(cfg, cycle, o2, s3), s4);
  }

  lemma ApprovingApplies(cfg: Config, cycle: Cycle, o: Office, s: Step)
    requires s.Approving?
    ensures Apply(cfg, cycle, o, s) == Approve(cfg, cycle, s.clk, o, s.id, s.who, s.notified).office
  {
    hide Approve;
  }

  lemma FiledTwice(cfg: Config, cycle: Cycle, balances: map<BalanceKey, Balance>, st: Store, e: EmpId, leaveType: int, start: Date, duration: nat)
    requires e in cfg.employees
    ensures var o := Apply(cfg, cycle, Apply(cfg, cycle, Empty(balances, st), Filing(e, leaveType, start, duration)), Submitting(Leave, 0, e));
            && o.envelopes == map[0 := Envelope(Leave, 0, e, Pending), 1 := Envelope(Leave, 0, e, Pending)]
            && o.leaves == map[0 := LeaveRow(leaveType, start, duration, Pending)] && o.balances == balances
  {
    hide Judge, DecideCorrection, AttendanceRuns.Apply;
  }
}
