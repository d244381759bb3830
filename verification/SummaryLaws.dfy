// What a summary row says, in terms of the punches, thresholds and times around it.

module SummaryLaws {
  import opened Common
  import opened Timeline
  import opened Sessions
  import opened Ledger
  import opened DayRow
  import opened AttendanceStore
  import opened AttendanceRuns

  // --- Status ---

  ghost predicate Punched(day: Day) {
    exists p :: p in day.ledger && p.valid
  }

  // Set neither by hand nor by a leave, and no weekly off.
  predicate Plain(cfg: Config, k: Key, row: Row) {
    && !row.manual && !row.leave
    && (cfg.plan(k.emp, k.date).ResolveFails? || !cfg.weeklyOff(k.emp, k.date))
  }

  // Which worked minutes make which status on a plain day with a punch.
  lemma PunchedStatusExact(cfg: Config, clk: Clock, k: Key, day: Day)
    requires Recomputed(cfg, clk, k, day).Some? && Plain(cfg, k, day.row) && Punched(day)
    ensures var r, cs := Recomputed(cfg, clk, k, day).value.row, cfg.settings;
            && (r.status.Present? <==> r.working >= cs.fullDay || (k.date == clk.today && r.working < cs.halfDay))
            && (r.status.HalfDay? <==> cs.halfDay <= r.working < cs.fullDay)
            && (r.status.Absent? <==> k.date != clk.today && r.working < cs.fullDay && r.working < cs.halfDay)
  {
    hide Totals, DayLine, Late, Early, ShiftMinutes;
    LineEmptyExactly(day.ledger);
  }

  // The other days: the first reason that applies among set by hand, leave, weekly
  // off, and no punch at all.
  lemma OtherStatusExact(cfg: Config, clk: Clock, k: Key, day: Day)
    requires Recomputed(cfg, clk, k, day).Some? && !(Plain(cfg, k, day.row) && Punched(day))
    ensures var before, after := day.row.status, Recomputed(cfg, clk, k, day).value.row.status;
            && (day.row.manual ==> after == before)
            && (!day.row.manual && day.row.leave ==> after == OnLeave)
            && (!day.row.manual && !day.row.leave && !Plain(cfg, k, day.row) ==> after == if Punched(day) then Present else WeekOff)
            && (Plain(cfg, k, day.row) && (before.Holiday? || before.OnLeave?) ==> after == before)
            && (Plain(cfg, k, day.row) && !before.Holiday? && !before.OnLeave? ==>
                  after == if k.date == clk.today then NotMarked else Absent)
  {
    hide Totals, DayLine, Late, Early, ShiftMinutes;
    LineEmptyExactly(day.ledger);
  }

  // Absent, half day, present.
  function Rank(s: Status): nat {
    match s
    case Present => 2
    case HalfDay => 1
    case _ => 0
  }

  // More worked minutes never make a worse status of a past day. On the running day
  // they do, exactly when they reach the half-day threshold without the full-day one.
  lemma MoreWorkNeverWorse(cfg: Config, clk: Clock, k: Key, a: Day, b: Day)
    requires Plain(cfg, k, a.row) && Plain(cfg, k, b.row) && Punched(a) && Punched(b)
    requires Recomputed(cfg, clk, k, a).Some? && Recomputed(cfg, clk, k, b).Some?
    requires Recomputed(cfg, clk, k, a).value.row.working <= Recomputed(cfg, clk, k, b).value.row.working
    ensures var x, y := Recomputed(cfg, clk, k, a).value.row, Recomputed(cfg, clk, k, b).value.row;
            Rank(y.status) >= Rank(x.status)
            <==> !(k.date == clk.today && x.working < cfg.settings.halfDay <= y.working < cfg.settings.fullDay)
  {
    hide Recomputed, Punched, Plain;
    PunchedStatusExact(cfg, clk, k, a);
    PunchedStatusExact(cfg, clk, k, b);
    StatusIsOne(cfg, clk, k, a);
    StatusIsOne(cfg, clk, k, b);
  }

  lemma StatusIsOne(cfg: Config, clk: Clock, k: Key, day: Day)
    requires Recomputed(cfg, clk, k, day).Some? && Plain(cfg, k, day.row) && Punched(day)
    ensures var s := Recomputed(cfg, clk, k, day).value.row.status; s.Present? || s.HalfDay? || s.Absent?
  {
    hide Totals, DayLine, Late, Early, ShiftMinutes;
    LineEmptyExactly(day.ledger);
  }

  // --- Minutes ---

  // On the running day the minutes shown are those the day would have, once past,
  // had it been closed, or the break ended, at this very moment. Only the first-last
  // mode, which counts between recorded punches, does not let work run on.
  lemma LiveIsClosedNow(cs: Settings, clk: Clock, later: Clock, date: Date, ts: seq<Stamp>)
    requires date == clk.today && date != later.today && ts != [] && Chronological(ts) && ts[|ts| - 1].time <= clk.now
    ensures var last := ts[|ts| - 1].kind;
            var closed := ts + [Stamp(clk.now, if last.In? || last.BreakIn? then Out else In)];
            && Totals(cs, clk, date, ts).1 == Totals(cs, later, date, closed).1
            && (!cs.mode.FirstLast? ==> Totals(cs, clk, date, ts).0 == Totals(cs, later, date, closed).0)
            && (cs.mode.FirstLast? ==>
                  Totals(cs, clk, date, ts).0 == Max(0, Minutes(ts[|ts| - 1].time - ts[0].time) - Totals(cs, clk, date, ts).1))
  {
    var last := ts[|ts| - 1].kind;
    var p := Stamp(clk.now, if last.In? || last.BreakIn? then Out else In);
    assert (ts + [p])[..|ts|] == ts && ts[..|ts|] == ts;
    WalkState(ts, |ts|);
  }

  // The single-punch mode credits a full day for any punch, and more only if more was
  // worked; a past plain day with a punch is then always present.
  lemma SinglePunchExact(cfg: Config, clk: Clock, k: Key, day: Day)
    requires Recomputed(cfg, clk, k, day).Some? && Punched(day) && k.date != clk.today && cfg.settings.mode.SinglePunch?
    ensures var r, worked := Recomputed(cfg, clk, k, day).value.row, TotalLength(DayLine(day.ledger), SessionsUpTo(DayLine(day.ledger), |DayLine(day.ledger)|));
            && r.working >= cfg.settings.fullDay && r.working >= worked && (r.working == cfg.settings.fullDay || r.working == worked)
            && (Plain(cfg, k, day.row) ==> r.status.Present?)
  {
    hide DayLine, Late, Early, ShiftMinutes, SessionsUpTo, TotalLength;
    LineEmptyExactly(day.ledger);
    WalkIsSessionsAndGaps(DayLine(day.ledger));
  }

  // Overtime is what was worked beyond the minutes from the expected start to the
  // expected end around the clock; beyond 480 if they share a minute or one is unset.
  lemma OvertimeExact(cs: Settings, clk: Clock, off: bool, date: Date, row: Row, ts: seq<Stamp>)
    requires Computable(row, ts)
    ensures var r := Derive(cs, clk, off, date, row, ts);
            var span := if row.start.Some? && row.end.Some? then (row.end.value / MINUTE - row.start.value / MINUTE) % 1440 else 0;
            r.overtime == Max(0, r.working - (if span > 0 then span else 480))
  {
    hide Totals, Late, Early, StatusOf;
  }

  // --- Punches set by hand ---

  // A manual day: exactly when it is accepted, and what it holds. The in time is the
  // IN punch; work is the time between the two, none if they are the wrong way round.
  lemma ManualDayExact(cfg: Config, clk: Clock, st: Store, k: Key, inTime: Time, outTime: Time)
    ensures var r := CreateManual(cfg, clk, st, k, inTime, outTime);
            && (r.Done? <==> && k.emp in cfg.employees && k !in st.days && !Frozen(cfg, st.locks, k)
                             && !cfg.plan(k.emp, k.date).ResolveFails? && !HalfPlanned(cfg, k))
            && (r.Done? ==> k in r.state.days && r.state == st.(days := st.days[k := r.state.days[k]])
                            && ManualDay(cfg, clk, k, inTime, outTime, r.state.days[k]))
  {
    hide Frozen, DayLine, Derive, Totals;
    var day := Appended(Appended(FreshDay(cfg, k, Present, true), Stamp(inTime, In)), Stamp(outTime, Out));
    assert day.ledger == [Punch(1, Stamp(inTime, In), true), Punch(2, Stamp(outTime, Out), true)];
    PairOfPunches(day.ledger, Stamp(inTime, In), Stamp(outTime, Out));
    if Recomputed(cfg, clk, k, day).Some? {
      DerivedMinutes(cfg, clk, k, day);
      PairWorked(cfg.settings, clk, k.date, Stamp(inTime, In), Stamp(outTime, Out));
    }
  }

  ghost predicate ManualDay(cfg: Config, clk: Clock, k: Key, inTime: Time, outTime: Time, day: Day) {
    && day.ledger == [Punch(1, Stamp(inTime, In), true), Punch(2, Stamp(outTime, Out), true)]
    && day.row.manual && day.row.status.Present? && !day.row.leave
    && day.row.firstIn == Some(if inTime <= outTime then inTime else outTime)
    && day.row.lastOut == Some(if inTime <= outTime then outTime else inTime)
    && (k.date != clk.today && cfg.settings.mode.AllPunches? ==>
          && day.row.working == (if inTime <= outTime then Minutes(outTime - inTime) else 0)
          && day.row.breaks == (if inTime <= outTime then 0 else Minutes(inTime - outTime)))
  }

  lemma PairOfPunches(ledger: seq<Punch>, a: Stamp, b: Stamp)
    requires ledger == [Punch(1, a, true), Punch(2, b, true)]
    ensures DayLine(ledger) == if a.time <= b.time then [a, b] else [b, a]
  {
    hide DayLine, Place;
    var one := [Punch(1, a, true)];
    assert [] + one == one && ledger == one + [Punch(2, b, true)];
    NoLine([]);
    AppendPlaces([], a);
    AppendPlaces(one, b);
    PlaceSecond(a, b);
  }

  lemma NoLine(ledger: seq<Punch>)
    requires ledger == []
    ensures DayLine(ledger) == []
  {
  }

  lemma PlaceSecond(a: Stamp, b: Stamp)
    ensures Place([], a) == [a] && Place([a], b) == if a.time <= b.time then [a, b] else [b, a]
  {
    assert [a][..0] == [];
  }

  lemma DerivedMinutes(cfg: Config, clk: Clock, k: Key, day: Day)
    requires Recomputed(cfg, clk, k, day).Some?
    ensures var r, ts := Recomputed(cfg, clk, k, day).value, DayLine(day.ledger);
            && r.ledger == day.ledger
            && (r.row.working, r.row.breaks) == Totals(cfg.settings, clk, k.date, ts)
            && r.row.manual == day.row.manual && r.row.leave == day.row.leave && (day.row.manual ==> r.row.status == day.row.status)
            && r.row.start == day.row.start && r.row.end == day.row.end
            && (ts != [] ==> r.row.firstIn == Some(ts[0].time) && r.row.lastOut == Some(ts[|ts| - 1].time))
  {
    hide DayLine, Totals, Late, Early, ShiftMinutes;
  }

  lemma PairWorked(cs: Settings, clk: Clock, date: Date, i: Stamp, o: Stamp)
    requires i.kind.In? && o.kind.Out?
    ensures date != clk.today && cs.mode.AllPunches? ==>
              Totals(cs, clk, date, if i.time <= o.time then [i, o] else [o, i])
              == if i.time <= o.time then (Minutes(o.time - i.time), 0) else (0, Minutes(i.time - o.time))
  {
    var ts := if i.time <= o.time then [i, o] else [o, i];
    assert ts[..1] == [ts[0]] && ts[..1][..0] == [];
    assert Walk(ts[..1]) == Advance(Walk([]), ts[0]);
    assert Walk(ts) == Advance(Walk(ts[..1]), ts[1]);
  }

  // A punch added by hand: exactly when it is accepted; it goes to the end of its
  // day's ledger as given, and a day that was missing gets the planned times.
  lemma AddedPunchExact(cfg: Config, clk: Clock, st: Store, k: Key, p: Stamp)
    ensures var r := AddPunch(cfg, clk, st, k, p);
            && (r.Done? <==> && k.emp in cfg.employees && !Frozen(cfg, st.locks, k)
                             && (if k in st.days then st.days[k].row.end.None? || st.days[k].row.start.Some?
                                 else !cfg.plan(k.emp, k.date).ResolveFails? && !HalfPlanned(cfg, k)))
            && (r.Done? ==>
                  && k in r.state.days && r.state == st.(days := st.days[k := r.state.days[k]])
                  && r.state.days[k].ledger == (var before := if k in st.days then st.days[k].ledger else [];
                                                before + [Punch(|before| + 1, p, true)])
                  && (k !in st.days ==> !r.state.days[k].row.manual && !r.state.days[k].row.leave
                                        && PlannedTimes(cfg, k, r.state.days[k].row)))
  {
    hide Frozen, DayLine, Derive;
    var day := if k in st.days then st.days[k] else FreshDay(cfg, k, NotMarked, false);
    AppendedLine(day.ledger, p);
    if Recomputed(cfg, clk, k, Appended(day, p)).Some? {
      DerivedMinutes(cfg, clk, k, Appended(day, p));
    }
  }

  lemma AppendedLine(ledger: seq<Punch>, p: Stamp)
    ensures DayLine(ledger + [Punch(|ledger| + 1, p, true)]) != []
  {
    var all := ledger + [Punch(|ledger| + 1, p, true)];
    assert all[|all| - 1] in all;
    LineEmptyExactly(all);
  }

  // The expected times are those of the resolved shift, unset without one.
  predicate PlannedTimes(cfg: Config, k: Key, row: Row) {
    match cfg.plan(k.emp, k.date)
    case Timing(s, e, _) => row.start == s && row.end == e
    case _ => row.start.None? && row.end.None?
  }

  // A generated day has no punch and no minutes, the planned times, and the first
  // status that applies among holiday, leave, week-off and not-marked.
  lemma GeneratedRowsExact(cfg: Config, st: Store, from: Date, to: Date, branch: Option<int>, dept: Option<int>, ids: set<EmpId>, k: Key)
    requires k !in st.days && k in Generate(cfg, st, from, to, branch, dept, ids).days
    ensures var day := Generate(cfg, st, from, to, branch, dept, ids).days[k];
            && day.ledger == [] && !day.row.manual && !day.row.leave && !day.row.regularized && PlannedTimes(cfg, k, day.row)
            && day.row.firstIn.None? && day.row.lastOut.None?
            && day.row.working == day.row.breaks == day.row.late == day.row.early == day.row.overtime == 0
            && (cfg.holiday(k.emp, k.date) ==> day.row.status.Holiday?)
            && (!cfg.holiday(k.emp, k.date) && cfg.approvedLeave(k.emp, k.date) ==> day.row.status.OnLeave?)
            && (!cfg.holiday(k.emp, k.date) && !cfg.approvedLeave(k.emp, k.date) ==>
                  day.row.status == if cfg.plan(k.emp, k.date).Timing? && cfg.plan(k.emp, k.date).weekOff == Some(true) then WeekOff else NotMarked)
  {
    hide GeneratedFrom;
    GenerationExact(cfg, st, Selected(cfg, cfg.roster, branch, dept, ids), branch, from, Covered(from, to));
  }

  // --- Overrides ---

  // An override: exactly when it is accepted, and which column each field lands in.
  // A field that is not given keeps its value, and so do the punches and all other days.
  lemma OverrideExact(cfg: Config, st: Store, k: Key, u: Updates, shiftKnown: bool)
    ensures var r := Override(cfg, st, k, u, shiftKnown);
            && (r.Done? <==> && k in st.days && k.emp in cfg.employees && shiftKnown && !Frozen(cfg, st.locks, k)
                             && NoNegative(u, st.days[k].row))
            && (r.Done? ==> r.state == st.(days := st.days[k := r.state.days[k]]) && k in r.state.days
                            && r.state.days[k].ledger == st.days[k].ledger && Overridden(st.days[k].row, u, r.state.days[k].row))
  {
    hide Frozen;
  }

  predicate NoNegative(u: Updates, row: Row) {
    && (if u.working.Some? then u.working.value else row.working) >= 0
    && (if u.breaks.Some? then u.breaks.value else row.breaks) >= 0
    && (if u.overtime.Some? then u.overtime.value else row.overtime) >= 0
    && (if u.late.Some? then u.late.value else row.late) >= 0
    && (if u.early.Some? then u.early.value else row.early) >= 0
  }

  predicate Overridden(before: Row, u: Updates, after: Row) {
    && after.manual
    && (if u.status.Some? then after.status == u.status.value else after.status == before.status)
    && (if u.leave.Some? then after.leave == u.leave.value else after.leave == before.leave)
    && (if u.working.Some? then after.working == u.working.value else after.working == before.working)
    && (if u.breaks.Some? then after.breaks == u.breaks.value else after.breaks == before.breaks)
    && (if u.overtime.Some? then after.overtime == u.overtime.value else after.overtime == before.overtime)
    && (if u.late.Some? then after.late == u.late.value else after.late == before.late)
    && (if u.early.Some? then after.early == u.early.value else after.early == before.early)
    && after.start == before.start && after.end == before.end && after.regularized == before.regularized
    && after.firstIn == before.firstIn && after.lastOut == before.lastOut
  }
}
