// A correction on its whole way: filed through either module, stored as text, left
// alone by whatever happens next, decided, and written on the day.

module CorrectionPath {
  import opened Common
  import opened Timeline
  import opened Sessions
  import opened Ledger
  import opened DayRow
  import opened AttendanceStore
  import opened ClockText
  import opened Corrections
  import opened ApprovalDesk
  import opened ApprovalRuns

  // --- The request keeps what was asked for ---

  // Rows that are still there ask for what they asked, and ids are not used again.
  ghost predicate Requests(o: Office, o': Office) {
    && o.next.reg <= o'.next.reg && o.next.envelope <= o'.next.envelope
    && (forall r :: r in o'.regs && r < o.next.reg ==> r in o.regs && o'.regs[r].(status := o.regs[r].status) == o.regs[r])
    && (forall i :: i in o'.envelopes && i < o.next.envelope ==>
          i in o.envelopes && o'.envelopes[i].(status := o.envelopes[i].status) == o.envelopes[i])
  }

  lemma RequestsReflexive(o: Office)
    ensures Requests(o, o)
  {
  }

  lemma RequestsTransitive(a: Office, b: Office, c: Office)
    requires Requests(a, b) && Requests(b, c)
    ensures Requests(a, c)
  {
  }

  lemma CorrectionKeepsRequests(cfg: Config, clk: Clock, o: Office, id: nat, v: Verdict)
    ensures Requests(o, Kept(o, DecideCorrection(cfg, clk, o, id, v)))
  {
    hide DecideCorrection;
    CorrectionKeepsIds(cfg, clk, o, id, v);
  }

  lemma JudgeKeepsRequests(cfg: Config, cycle: Cycle, clk: Clock, o: Office, id: nat, who: Reviewer, v: Verdict, notified: bool)
    ensures Requests(o, Judge(cfg, cycle, clk, o, id, who, v, notified).office)
  {
    hide DecideCorrection, Requests;
    RequestsReflexive(o);
    if Screen(cfg, o, id, who).None? {
      match o.envelopes[id].kind {
        case Attendance => CorrectionKeepsRequests(cfg, clk, o, id, v);
        case Leave => LeaveKeepsRequests(cycle, o, id, v);
        case LoginReset => ResetKeepsRequests(o, id, v);
      }
    }
  }

  lemma LeaveKeepsRequests(cycle: Cycle, o: Office, id: nat, v: Verdict)
    requires id in o.envelopes
    ensures Requests(o, Kept(o, DecideLeave(cycle, o, id, v)))
  {
  }

  lemma ResetKeepsRequests(o: Office, id: nat, v: Verdict)
    requires id in o.envelopes
    ensures Requests(o, Kept(o, DecideReset(o, id, v)))
  {
  }

  lemma CancelKeepsRequests(o: Office, id: nat)
    ensures Requests(o, Kept(o, Cancel(o, id)))
  {
  }

  lemma SubmissionKeepsRequests(cfg: Config, cycle: Cycle, o: Office, s: Step)
    requires Submission(s)
    ensures Requests(o, Apply(cfg, cycle, o, s))
  {
    hide RequestText, AttendanceRuns.Apply, Judge, DecideCorrection, Cancel, Apply;
    if Apply(cfg, cycle, o, s) != o {
      SubmissionExact(cfg, cycle, o, s);
    }
  }

  lemma StepKeepsRequests(cfg: Config, cycle: Cycle, o: Office, s: Step)
    ensures Requests(o, Apply(cfg, cycle, o, s))
  {
    hide Judge, DecideCorrection, AttendanceRuns.Apply, Cancel, Submit, SubmitRegularization, RequestCorrection, SubmitReset, FileLeave, Requests;
    RequestsReflexive(o);
    match s {
      case Approving(clk, id, who, notified) => JudgeKeepsRequests(cfg, cycle, clk, o, id, who, Approved, notified);
      case Rejecting(clk, id, remarks, who, notified) => JudgeKeepsRequests(cfg, cycle, clk, o, id, who, Rejected, notified);
      case Correcting(clk, id, v) => CorrectionKeepsRequests(cfg, clk, o, id, v);
      case Cancelling(id) => CancelKeepsRequests(o, id);
      case Attending(a) => SameTables(o, AttendanceRuns.Apply(cfg, o.store, a));
      case _ => SubmissionKeepsRequests(cfg, cycle, o, s);
    }
  }

  lemma SameTables(o: Office, st: Store)
    ensures Requests(o, o.(store := st))
  {
  }

  lemma {:induction false} RunKeepsRequests(cfg: Config, cycle: Cycle, o: Office, steps: seq<Step>)
    ensures Requests(o, Run(cfg, cycle, o, steps))
  {
    hide Apply, Requests;
    if steps == [] {
      RequestsReflexive(o);
    } else {
      var front, last := steps[..|steps| - 1], steps[|steps| - 1];
      RunKeepsRequests(cfg, cycle, o, front);
      StepKeepsRequests(cfg, cycle, Run(cfg, cycle, o, front), last);
      RequestsTransitive(o, Run(cfg, cycle, o, front), Run(cfg, cycle, o, steps));
    }
  }

  // --- What an approval writes on the day ---

  // Minute of the day that a wall clock shows.
  function Minute(w: Wall): int {
    (w % (24 * 60 * 60_000_000)) / 60_000_000
  }

  // Every earlier punch invalid, then the two requested ones: IN at the requested
  // start, OUT at the requested end, on the next day if its clock is earlier.
  ghost predicate Rewritten(date: Date, requestedIn: Wall, requestedOut: Wall, before: Day, after: Day) {
    var n := |before.ledger|;
    var inTime := date * DAY + Minute(requestedIn) * MINUTE;
    var outTime := date * DAY + Minute(requestedOut) * MINUTE + (if Minute(requestedOut) < Minute(requestedIn) then DAY else 0);
    && |after.ledger| == n + 2
    && (forall i :: 0 <= i < n ==> !after.ledger[i].valid && after.ledger[i].stamp == before.ledger[i].stamp
                                   && after.ledger[i].seqNo == before.ledger[i].seqNo)
    && after.ledger[n] == Punch(n + 1, Stamp(inTime, In), true) && after.ledger[n + 1] == Punch(n + 2, Stamp(outTime, Out), true)
    && after.row.firstIn == Some(inTime) && after.row.lastOut == Some(outTime) && after.row.regularized
    && after.row.start == before.row.start && after.row.end == before.row.end
  }

  // Worked minutes are the minutes from one clock to the other; the requested span
  // in whole minutes exactly when that is under a day and the seconds are in order.
  ghost predicate Worked(requestedIn: Wall, requestedOut: Wall, row: Row) {
    && row.working == (Minute(requestedOut) - Minute(requestedIn)) % 1440 && row.breaks == 0
    && (requestedIn <= requestedOut ==>
          (row.working == Minutes(requestedOut - requestedIn)
           <==> Minutes(requestedOut - requestedIn) < 1440 && requestedIn % MINUTE <= requestedOut % MINUTE))
  }

  // The text of the request names these two times.
  predicate AsksFor(reg: Regularization, k: Key, requestedIn: Wall, requestedOut: Wall) {
    reg.emp == k.emp && reg.date == k.date && reg.text == RequestText(requestedIn, requestedOut)
  }

  lemma TextReads(requestedIn: Wall, requestedOut: Wall)
    ensures ParseSpan(RequestText(requestedIn, requestedOut)) == Some((Minute(requestedIn), Minute(requestedOut)))
  {
    hide ParseSpan, PrintSpan;
    SpanRoundTrip(ShownMinute(requestedIn), ShownMinute(requestedOut));
  }

  lemma ApplicationRewrites(cfg: Config, clk: Clock, st: Store, k: Key, requestedIn: Wall, requestedOut: Wall)
    requires k in st.days && ApplyCorrection(cfg, clk, st, k, Minute(requestedIn), Minute(requestedOut)).Done?
    ensures var st' := ApplyCorrection(cfg, clk, st, k, Minute(requestedIn), Minute(requestedOut)).state;
            && k in st'.days && st' == st.(days := st.days[k := st'.days[k]])
            && Rewritten(k.date, requestedIn, requestedOut, st.days[k], st'.days[k])
            && (k.date != clk.today && !cfg.settings.mode.SinglePunch? ==> Worked(requestedIn, requestedOut, st'.days[k].row))
  {
    hide DayLine, Totals, Late, Early, StatusOf, ShiftMinutes;
    var i: nat, o: nat := ShownMinute(requestedIn), ShownMinute(requestedOut);
    CorrectedLine(st.days[k], k.date, i, o);
    if k.date != clk.today && !cfg.settings.mode.SinglePunch? {
      CorrectedMetrics(cfg, clk, st, k, i, o);
      GapIsClocks(k.date, requestedIn, requestedOut);
    }
  }

  lemma GapIsClocks(date: Date, requestedIn: Wall, requestedOut: Wall)
    ensures Gap(Minute(requestedIn), Minute(requestedOut)) == (Minute(requestedOut) - Minute(requestedIn)) % 1440
    ensures requestedIn <= requestedOut ==>
              (Gap(Minute(requestedIn), Minute(requestedOut)) == Minutes(requestedOut - requestedIn)
               <==> Minutes(requestedOut - requestedIn) < 1440 && requestedIn % MINUTE <= requestedOut % MINUTE)
  {
    CorrectedOrder(date, ShownMinute(requestedIn), ShownMinute(requestedOut));
    if requestedIn <= requestedOut {
      GapIsRequestedSpan(requestedIn, requestedOut);
    }
  }

  // The direct route: what an approved correction leaves. Without a day row it
  // touches no day.
  lemma CorrectionWrites(cfg: Config, clk: Clock, o: Office, id: nat, k: Key, requestedIn: Wall, requestedOut: Wall)
    requires id in o.envelopes && o.envelopes[id].ref in o.regs && AsksFor(o.regs[o.envelopes[id].ref], k, requestedIn, requestedOut)
    requires DecideCorrection(cfg, clk, o, id, Approved).Done?
    ensures Written(cfg, clk, k, requestedIn, requestedOut, o.store, DecideCorrection(cfg, clk, o, id, Approved).state.store)
  {
    hide ApplyCorrection, ParseSpan, Frozen, Rewritten, Worked, RequestText, Minute;
    TextReads(requestedIn, requestedOut);
    if k in o.store.days {
      var r := ApplyCorrection(cfg, clk, o.store, k, Minute(requestedIn), Minute(requestedOut));
      assert r.Done? && DecideCorrection(cfg, clk, o, id, Approved).state.store == r.state;
      ApplicationRewrites(cfg, clk, o.store, k, requestedIn, requestedOut);
    }
  }

  // Only the day asked for changed, if it is there, and it was rewritten.
  ghost predicate Written(cfg: Config, clk: Clock, k: Key, requestedIn: Wall, requestedOut: Wall, st: Store, st': Store) {
    if k !in st.days then st' == st
    else
      && k in st'.days && st' == st.(days := st.days[k := st'.days[k]])
      && Rewritten(k.date, requestedIn, requestedOut, st.days[k], st'.days[k])
      && (k.date != clk.today && !cfg.settings.mode.SinglePunch? ==> Worked(requestedIn, requestedOut, st'.days[k].row))
  }

  // What a filed request looks like right after it was accepted.
  lemma FiledAsks(cfg: Config, cycle: Cycle, o: Office, s: Step)
    requires Counted(o) && (s.Regularizing? || s.Requesting?) && Apply(cfg, cycle, o, s) != o
    ensures var o', id := Apply(cfg, cycle, o, s), o.next.envelope;
            && id in o'.envelopes && o'.envelopes[id] == Envelope(Attendance, o.next.reg, s.key.emp, Pending)
            && o.next.reg in o'.regs && AsksFor(o'.regs[o.next.reg], s.key, s.requestedIn, s.requestedOut)
            && o'.next.envelope == id + 1 && o'.next.reg == o.next.reg + 1
  {
    hide Apply, RequestText;
    SubmissionExact(cfg, cycle, o, s);
  }

  // A correction filed through either module, then any run of other steps, then its
  // approval through the approval module or directly: the day carries exactly the
  // requested times, or no day changed because there was none. A rejection touches
  // no day.
  lemma FiledCorrectionIsApplied(cfg: Config, cycle: Cycle, o: Office, s: Step, steps: seq<Step>, clk: Clock, who: Reviewer, notified: bool)
    requires Counted(o) && (s.Regularizing? || s.Requesting?) && Apply(cfg, cycle, o, s) != o
    requires o.next.envelope in Run(cfg, cycle, Apply(cfg, cycle, o, s), steps).envelopes
    ensures var id, mid := o.next.envelope, Run(cfg, cycle, Apply(cfg, cycle, o, s), steps);
            var direct, judged := DecideCorrection(cfg, clk, mid, id, Approved), Judge(cfg, cycle, clk, mid, id, who, Approved, notified).office;
            && (direct.Done? ==> Written(cfg, clk, s.key, s.requestedIn, s.requestedOut, mid.store, direct.state.store))
            && (judged != mid ==> Written(cfg, clk, s.key, s.requestedIn, s.requestedOut, mid.store, judged.store))
            && Judge(cfg, cycle, clk, mid, id, who, Rejected, notified).office.store == mid.store
            && (var r := DecideCorrection(cfg, clk, mid, id, Rejected); r.Done? ==> r.state.store == mid.store)
  {
    hide Apply, Run, DecideCorrection, Written, AsksFor;
    var filed := Apply(cfg, cycle, o, s);
    var id, mid := o.next.envelope, Run(cfg, cycle, filed, steps);
    FiledAsks(cfg, cycle, o, s);
    RunKeepsRequests(cfg, cycle, filed, steps);
    RejectionTouchesNoDay(cfg, cycle, clk, mid, id, who, notified);
    var ref := mid.envelopes[id].ref;
    assert mid.envelopes[id].kind.Attendance? && ref == o.next.reg;
    CorrectionKeepsIds(cfg, clk, mid, id, Approved);
    if ref in mid.regs {
      StillAsks(filed.regs[ref], mid.regs[ref], s.key, s.requestedIn, s.requestedOut);
      if DecideCorrection(cfg, clk, mid, id, Approved).Done? {
        CorrectionWrites(cfg, clk, mid, id, s.key, s.requestedIn, s.requestedOut);
      }
    }
  }

  lemma StillAsks(a: Regularization, b: Regularization, k: Key, requestedIn: Wall, requestedOut: Wall)
    requires AsksFor(a, k, requestedIn, requestedOut) && b.(status := a.status) == a
    ensures AsksFor(b, k, requestedIn, requestedOut)
  {
  }

  // Rejecting changes no attendance table, and neither does any decision on a leave
  // or a login reset.
  lemma RejectionTouchesNoDay(cfg: Config, cycle: Cycle, clk: Clock, o: Office, id: nat, who: Reviewer, notified: bool)
    ensures Judge(cfg, cycle, clk, o, id, who, Rejected, notified).office.store == o.store
    ensures DecideCorrection(cfg, clk, o, id, Rejected).Done? ==> DecideCorrection(cfg, clk, o, id, Rejected).state.store == o.store
    ensures id in o.envelopes && !o.envelopes[id].kind.Attendance? ==> Judge(cfg, cycle, clk, o, id, who, Approved, notified).office.store == o.store
  {
    hide ApplyCorrection, ParseSpan, Frozen;
  }
}
