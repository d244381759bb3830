// The attendance service and the device upload handler as objects that update
// their tables in place. Each method makes exactly the change of its
// specification in AttendanceStore, or refuses and restores the tables;
// finalisation has no such protection and keeps what it had done.

module AttendanceService {
  import opened Common
  import opened Timeline
  import opened Sessions
  import opened Ledger
  import opened DayRow
  import opened Calendar
  import opened Locks
  import opened AttendanceStore

  datatype Reply = Ok | Failed(error: Error)

  lemma LogsIrrelevant(cfg: Config, clk: Clock, st: Store, logs: map<string, nat>, r: Record)
    ensures Insertion(cfg, clk, st.(logs := logs), r) == Insertion(cfg, clk, st, r)
    ensures UploadOne(cfg, clk, st.(logs := logs), r) == UploadOne(cfg, clk, st, r).(logs := logs)
  {
  }

  lemma ZoneIrrelevant(cfg: Config, serial: string, clk: Clock, k: Key, day: Day)
    ensures Recomputed(At(cfg, serial), clk, k, day) == Recomputed(cfg, clk, k, day)
    ensures FreshDay(At(cfg, serial), k, NotMarked, false) == FreshDay(cfg, k, NotMarked, false)
  {
  }

  // What finalisation does to a day depends on that day and the locks only.
  lemma FinalDayIsLocal(cfg: Config, clk: Clock, s: Store, t: Store, target: Option<Date>, k: Key)
    requires k in s.days && k in t.days && s.days[k] == t.days[k] && s.locks == t.locks
    ensures Unfinalizable(cfg, clk, s, target, k) <==> Unfinalizable(cfg, clk, t, target, k)
    ensures FinalDay(cfg, clk, s, target, k) == FinalDay(cfg, clk, t, target, k)
  {
  }

  lemma InvalidatedStep(ps: seq<Punch>, i: nat)
    requires i < |ps|
    ensures (Invalidated(ps[..i]) + ps[i..])[i := ps[i].(valid := false)] == Invalidated(ps[..i + 1]) + ps[i + 1..]
  {
  }

  class Service {
    var days: Days
    var locks: LockTable
    var logs: map<string, nat>
    const cfg: Config

    constructor (cfg: Config)
      ensures this.cfg == cfg && View() == Store(map[], map[], map[])
    {
      this.cfg := cfg;
      days, locks, logs := map[], map[], map[];
    }

    function View(): Store
      reads this
    {
      Store(days, locks, logs)
    }

    // What a method that can refuse promises.
    ghost predicate Answers(reply: Reply, before: Store, spec: Outcome<Store, Error>)
      reads this
    {
      match spec
      case Done(st) => reply == Ok && View() == st
      case Refused(e) => reply == Failed(e) && View() == before
    }

    // Worked and break minutes of a day line, with live accrual and the mode.
    method MeasureDay(ts: seq<Stamp>, date: Date, clk: Clock) returns (working: int, breaks: int)
      ensures (working, breaks) == Totals(cfg.settings, clk, date, ts)
    {
      hide Walk;
      var m := Accumulate(ts);
      working, breaks := m.working, m.breaks;
      if m.currentIn.Some? && date == clk.today {
        working := working + Max(0, Minutes(clk.now - m.currentIn.value));
      } else if m.previousOut.Some? && date == clk.today {
        breaks := breaks + Max(0, Minutes(clk.now - m.previousOut.value));
      }
      NeverBothSet(ts);
      if |ts| > 0 {
        match cfg.settings.mode {
          case AllPunches =>
          case FirstLast => working := Max(0, Minutes(ts[|ts| - 1].time - ts[0].time) - breaks);
          case SinglePunch => working := Max(working, cfg.settings.fullDay);
        }
      }
    }

    // Rebuild the summary of one day from its punches.
    method RecomputeDayMetrics(k: Key, clk: Clock) returns (ok: bool)
      requires k in days
      modifies this`days
      ensures ok == Recomputed(cfg, clk, k, old(days)[k]).Some?
      ensures days == if ok then old(days)[k := Recomputed(cfg, clk, k, old(days)[k]).value] else old(days)
    {
      var day := days[k];
      var row := day.row;
      var ts := DayLine(day.ledger);
      var firstIn: Option<Time>, lastOut: Option<Time> := None, None;
      if |ts| > 0 {
        firstIn, lastOut := Some(ts[0].time), Some(ts[|ts| - 1].time);
      }
      var working, breaks := MeasureDay(ts, k.date, clk);
      var shift := ShiftMinutes(row.start, row.end);
      var overtime := if working > shift then working - shift else 0;
      var late := Late(cfg.settings, k.date, row.start, ts);
      var early := 0;
      if lastOut.Some? && row.end.Some? {
        if row.start.None? {
          return false;
        }
        early := Early(k.date, row.start.value, row.end.value, ts);
      }
      var status := StatusOf(cfg.settings, clk, Off(cfg, k), k.date, row, |ts| > 0, working);
      row := row.(firstIn := firstIn, lastOut := lastOut, working := working, breaks := breaks,
                  late := late, early := early, overtime := overtime, status := status);
      days := days[k := day.(row := row)];
      ok := true;
    }

    method AppendPunch(k: Key, p: Stamp)
      requires k in days
      modifies this`days
      ensures days == old(days)[k := Appended(old(days)[k], p)]
    {
      var seqNo := |days[k].ledger| + 1;
      days := days[k := days[k].(ledger := days[k].ledger + [Punch(seqNo, p, true)])];
    }

    method CreateAttendanceDay(k: Key, status: Status, leave: bool, shiftKnown: bool) returns (reply: Reply)
      modifies this`days
      ensures Answers(reply, old(View()), MarkDay(cfg, old(View()), k, status, leave, shiftKnown))
    {
      if k.emp !in cfg.employees {
        return Failed(EmployeeNotFound);
      }
      if Frozen(cfg, locks, k) {
        return Failed(PeriodLocked);
      }
      if !shiftKnown {
        return Failed(ShiftNotFound);
      }
      if k in days {
        return Failed(DayExists);
      }
      days := days[k := Day(Blank(None, None, status, true, leave), [])];
      return Ok;
    }

    method CreateManualAttendance(k: Key, inTime: Time, outTime: Time, clk: Clock) returns (reply: Reply)
      modifies this`days
      ensures Answers(reply, old(View()), CreateManual(cfg, clk, old(View()), k, inTime, outTime))
    {
      if k.emp !in cfg.employees {
        return Failed(EmployeeNotFound);
      }
      if Frozen(cfg, locks, k) {
        return Failed(PeriodLocked);
      }
      if k in days {
        return Failed(DayExists);
      }
      var saved := days;
      if cfg.plan(k.emp, k.date).ResolveFails? {
        return Failed(ShiftUnresolved);
      }
      days := days[k := FreshDay(cfg, k, Present, true)];
      AppendPunch(k, Stamp(inTime, In));
      AppendPunch(k, Stamp(outTime, Out));
      var ok := RecomputeDayMetrics(k, clk);
      if !ok {
        days := saved;
        return Failed(RecomputeFailed);
      }
      return Ok;
    }

    method OverrideAttendanceDay(k: Key, u: Updates, shiftKnown: bool) returns (reply: Reply)
      modifies this`days
      ensures Answers(reply, old(View()), Override(cfg, old(View()), k, u, shiftKnown))
    {
      if k !in days {
        return Failed(DayNotFound);
      }
      if Frozen(cfg, locks, k) {
        return Failed(PeriodLocked);
      }
      if k.emp !in cfg.employees {
        return Failed(EmployeeNotFound);
      }
      if !shiftKnown {
        return Failed(ShiftNotFound);
      }
      var row := OverriddenRow(days[k].row, u);
      if !NonNegative(row) {
        return Failed(BadValue);
      }
      days := days[k := days[k].(row := row)];
      return Ok;
    }

    method AddManualPunch(k: Key, p: Stamp, clk: Clock) returns (reply: Reply)
      modifies this`days
      ensures Answers(reply, old(View()), AddPunch(cfg, clk, old(View()), k, p))
    {
      hide Recomputed;
      if k.emp !in cfg.employees {
        return Failed(EmployeeNotFound);
      }
      if Frozen(cfg, locks, k) {
        return Failed(PeriodLocked);
      }
      var saved := days;
      if k !in days {
        if cfg.plan(k.emp, k.date).ResolveFails? {
          return Failed(ShiftUnresolved);
        }
        days := days[k := FreshDay(cfg, k, NotMarked, false)];
      }
      AppendPunch(k, p);
      var ok := RecomputeDayMetrics(k, clk);
      if !ok {
        days := saved;
        return Failed(RecomputeFailed);
      }
      return Ok;
    }

    method InvalidatePunches(k: Key)
      requires k in days
      modifies this`days
      ensures days == old(days)[k := old(days)[k].(ledger := Invalidated(old(days)[k].ledger))]
    {
      var existing := days[k].ledger;
      var i := 0;
      while i < |existing|
        invariant i <= |existing| && k in days
        invariant days == old(days)[k := old(days)[k].(ledger := days[k].ledger)]
        invariant days[k].ledger == Invalidated(existing[..i]) + existing[i..]
      {
        InvalidatedStep(existing, i);
        days := days[k := days[k].(ledger := days[k].ledger[i := existing[i].(valid := false)])];
        i := i + 1;
      }
      assert existing[..i] == existing && days[k].ledger == Invalidated(existing);
    }

    // The part of approve_correction that rewrites the day.
    method CorrectDay(k: Key, inMinute: int, outMinute: int, clk: Clock) returns (reply: Reply)
      modifies this`days
      ensures Answers(reply, old(View()), ApplyCorrection(cfg, clk, old(View()), k, inMinute, outMinute))
    {
      hide Recomputed;
      if k !in days {
        return Ok;
      }
      var saved := days;
      InvalidatePunches(k);
      AppendPunch(k, Stamp(CorrectedIn(k.date, inMinute), In));
      AppendPunch(k, Stamp(CorrectedOut(k.date, inMinute, outMinute), Out));
      days := days[k := days[k].(row := days[k].row.(regularized := true))];
      assert days == saved[k := CorrectedDay(saved[k], k.date, inMinute, outMinute)];
      var ok := RecomputeDayMetrics(k, clk);
      if !ok {
        days := saved;
        return Failed(RecomputeFailed);
      }
      return Ok;
    }

    // One pass of the loop; false when it raises.
    method FinalizeDay(k: Key, target: Option<Date>, upTo: Date, clk: Clock) returns (ok: bool)
      requires k in days && upTo == (if target.Some? && target.value < clk.today then target.value else clk.today - 1)
      modifies this`days
      ensures ok == !Unfinalizable(cfg, clk, old(View()), target, k)
      ensures days == if ok then old(days)[k := FinalDay(cfg, clk, old(View()), target, k)] else old(days)
    {
      hide Recomputed, IsLocked, MonthOf;
      ok := true;
      if k.date <= upTo && !IsLocked(locks, MonthOf(k.date), None) {
        ok := RecomputeDayMetrics(k, clk);
      } else {
        assert days == days[k := days[k]];
      }
    }

    // Days are rewritten one by one; a day that cannot be recomputed ends the run
    // and leaves the days reached before it as they are by then.
    method FinalizeUnclosedDays(target: Option<Date>, clk: Clock) returns (reply: Reply, ghost reached: set<Key>)
      modifies this`days
      ensures View() == FinalizeRun(cfg, clk, old(View()), target, reached)
      ensures reply == if Blocked(cfg, clk, old(View()), target) then Failed(RecomputeFailed) else Ok
      ensures forall k :: k in old(days) && k in reached ==> !Unfinalizable(cfg, clk, old(View()), target, k)
    {
      hide FinalDay, Unfinalizable;
      ghost var st := View();
      var upTo := if target.Some? && target.value < clk.today then target.value else clk.today - 1;
      var todo := days.Keys;
      while todo != {}
        invariant todo <= st.days.Keys == days.Keys
        invariant forall k :: k in st.days && k !in todo ==>
          !Unfinalizable(cfg, clk, st, target, k) && days[k] == FinalDay(cfg, clk, st, target, k)
        invariant forall k :: k in todo ==> days[k] == st.days[k]
        decreases todo
      {
        var k :| k in todo;
        FinalDayIsLocal(cfg, clk, View(), st, target, k);
        var ok := FinalizeDay(k, target, upTo, clk);
        if !ok {
          return Failed(RecomputeFailed), st.days.Keys - todo;
        }
        todo := todo - {k};
      }
      return Ok, st.days.Keys;
    }

    method RecomputeAttendance(k: Key, clk: Clock) returns (reply: Reply)
      modifies this`days
      ensures Answers(reply, old(View()), Reschedule(cfg, clk, old(View()), k))
    {
      if k.emp !in cfg.employees {
        return Failed(EmployeeNotFound);
      }
      if Frozen(cfg, locks, k) {
        return Failed(PeriodLocked);
      }
      if k !in days {
        return Failed(DayNotFound);
      }
      match cfg.plan(k.emp, k.date) {
        case ResolveFails =>
          var ok := RecomputeDayMetrics(k, clk);
          if !ok {
            return Failed(RecomputeFailed);
          }
        case NoTiming =>
        case Timing(s, e, _) =>
          days := days[k := days[k].(row := days[k].row.(start := s, end := e))];
      }
      return Ok;
    }

    method SelectEmployees(branch: Option<int>, dept: Option<int>, ids: set<EmpId>) returns (sel: seq<EmpId>)
      ensures sel == Selected(cfg, cfg.roster, branch, dept, ids)
    {
      sel := [];
      var i := 0;
      while i < |cfg.roster|
        invariant i <= |cfg.roster|
        invariant sel == Selected(cfg, cfg.roster[..i], branch, dept, ids)
      {
        assert cfg.roster[..i + 1][..i] == cfg.roster[..i];
        if Matches(cfg, branch, dept, ids, cfg.roster[i]) {
          sel := sel + [cfg.roster[i]];
        }
        i := i + 1;
      }
      assert cfg.roster[..i] == cfg.roster;
    }

    // The rows missing on one date.
    method GenerateForDate(sel: seq<EmpId>, d: Date) returns (inserted: nat)
      modifies this`days
      ensures days == AddRows(cfg, old(days), sel, d)
      ensures |days| == |old(days)| + inserted
    {
      inserted := 0;
      var i := 0;
      while i < |sel|
        invariant i <= |sel|
        invariant days == AddRows(cfg, old(days), sel[..i], d)
        invariant |days| == |old(days)| + inserted
      {
        assert sel[..i + 1][..i] == sel[..i];
        var k := Key(sel[i], d);
        if k !in days {
          days := days[k := GeneratedDay(cfg, k)];
          inserted := inserted + 1;
        }
        i := i + 1;
      }
      assert sel[..i] == sel;
    }

    // Dates locked for the requested branch are skipped; the result is the number
    // of rows added.
    method GenerateForRange(from: Date, to: Date, branch: Option<int>, dept: Option<int>, ids: set<EmpId>) returns (inserted: nat)
      modifies this`days
      ensures View() == Generate(cfg, old(View()), from, to, branch, dept, ids)
      ensures |days| == |old(days)| + inserted
    {
      inserted := 0;
      if to < from {
        return;
      }
      var n := if to - from + 1 > 366 then 366 else to - from + 1;
      var sel := SelectEmployees(branch, dept, ids);
      var i := 0;
      while i < n
        invariant i <= n
        invariant View() == GeneratedFrom(cfg, old(View()), sel, branch, from, i)
        invariant |days| == |old(days)| + inserted
      {
        if !IsLocked(locks, MonthOf(from + i), branch) {
          var added := GenerateForDate(sel, from + i);
          inserted := inserted + added;
        }
        i := i + 1;
      }
    }

    method LockAttendance(branchScope: bool, branch: Option<int>, start: int, end: int) returns (reply: Outcome<(), LockError>)
      requires IsDate(start) && IsDate(end)
      modifies this`locks
      ensures match LockPeriod(old(locks), branchScope, branch, start, end, cfg.branches)
              case Done(t) => reply == Done(()) && locks == t
              case Refused(e) => reply == Refused(e) && locks == old(locks)
    {
      if branchScope {
        if branch.None? {
          return Refused(BranchRequired);
        }
        if branch.value !in cfg.branches {
          return Refused(BranchNotFound);
        }
      }
      var cover := MonthsBetween(start, end);
      if cover.None? {
        return Refused(DateOverflow);
      }
      var months := cover.value;
      var i := 0;
      while i < |months|
        invariant i <= |months|
        invariant forall j :: 0 <= j < i ==> !IsLocked(locks, months[j], branch)
      {
        if IsLocked(locks, months[i], branch) {
          return Refused(AlreadyLocked);
        }
        i := i + 1;
      }
      var saved := locks;
      i := 0;
      while i < |months|
        invariant i <= |months|
        invariant CreateAll(locks, months[i..], branch, cfg.branches) == CreateAll(saved, months, branch, cfg.branches)
      {
        var key := LockKey(months[i], branch);
        assert months[i..][1..] == months[i + 1..];
        if !Accepts(locks, key, cfg.branches) {
          locks := saved;
          return Refused(RowRefused);
        }
        locks := locks[key := true];
        i := i + 1;
      }
      return Done(());
    }

    method UnlockAttendance(branchScope: bool, branch: Option<int>, start: int, end: int) returns (reply: Outcome<(), LockError>)
      requires IsDate(start) && IsDate(end)
      modifies this`locks
      ensures match UnlockPeriod(old(locks), branchScope, branch, start, end, cfg.branches)
              case Done(t) => reply == Done(()) && locks == t
              case Refused(e) => reply == Refused(e) && locks == old(locks)
    {
      if branchScope {
        if branch.None? {
          return Refused(BranchRequired);
        }
        if branch.value !in cfg.branches {
          return Refused(BranchNotFound);
        }
      }
      var cover := MonthsBetween(start, end);
      if cover.None? {
        return Refused(DateOverflow);
      }
      var months := cover.value;
      var i := 0;
      while i < |months|
        invariant i <= |months|
        invariant UnlockAll(locks, months[i..], branch) == UnlockAll(old(locks), months, branch)
      {
        var key := LockKey(months[i], branch);
        assert months[i..][1..] == months[i + 1..];
        if RowLocked(locks, key) {
          locks := locks[key := false];
        }
        i := i + 1;
      }
      return Done(());
    }

    // An unknown device is registered with an empty counter.
    method RegisterDevice(serial: string)
      modifies this`logs
      ensures logs == old(logs)[serial := Logged(old(View()), serial)]
    {
      if serial !in logs {
        logs := logs[serial := 0];
      }
    }

    // The ATTLOG loop: skip, or insert a punch inside its own savepoint.
    method HandleAttlog(serial: string, records: seq<Record>, clk: Clock)
      modifies this
      ensures View() == Post(cfg, clk, old(View()), serial, records)
    {
      ghost var dev := At(cfg, serial);
      RegisterDevice(serial);
      var inserted := 0;
      var i := 0;
      while i < |records|
        invariant i <= |records|
        invariant Store(days, locks, old(logs)) == UploadAll(dev, clk, old(View()), records[..i])
        invariant inserted == Inserted(dev, clk, old(View()), records[..i])
        invariant logs == old(logs)[serial := Logged(old(View()), serial)]
      {
        assert records[..i + 1][..i] == records[..i];
        LogsIrrelevant(dev, clk, View(), old(logs), records[i]);
        var ok := HandleRecord(serial, records[i], clk);
        if ok {
          inserted := inserted + 1;
        }
        i := i + 1;
      }
      assert records[..i] == records;
      if inserted > 0 {
        logs := logs[serial := logs[serial] + inserted];
      }
    }

    method HandleRecord(serial: string, r: Record, clk: Clock) returns (inserted: bool)
      modifies this`days
      ensures inserted == Insertion(At(cfg, serial), clk, old(View()), r).Some?
      ensures View() == UploadOne(At(cfg, serial), clk, old(View()), r)
    {
      hide Recomputed;
      var at := cfg.zones(serial)(r.time);
      if at.None? {
        return false;
      }
      var (utc, date) := at.value;
      var emp := cfg.resolve(r.pin);
      if emp.None? || emp.value !in cfg.employees {
        return false;
      }
      var k := Key(emp.value, date);
      if Frozen(cfg, locks, k) {
        return false;
      }
      var p := Stamp(utc, KindOf(r.status));
      if PunchExists(days, k.emp, p) {
        return false;
      }
      var saved := days;
      if k !in days {
        days := days[k := FreshDay(cfg, k, NotMarked, false)];
      }
      AppendPunch(k, p);
      ZoneIrrelevant(cfg, serial, clk, k, days[k]);
      var ok := RecomputeDayMetrics(k, clk);
      if !ok {
        days := saved;
        return false;
      }
      return true;
    }
  }
}
