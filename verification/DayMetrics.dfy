// The punch ledger of a day and the summary row derived from it.

module Ledger {
  import opened Sessions

  datatype Punch = Punch(seqNo: nat, stamp: Stamp, valid: bool)

  // Sort key of the metrics engine: (punch_time, sequence_no).
  predicate KeyLeq(p: Punch, q: Punch) {
    p.stamp.time < q.stamp.time || (p.stamp.time == q.stamp.time && p.seqNo <= q.seqNo)
  }

  ghost predicate KeySorted(ps: seq<Punch>) {
    forall i, j :: 0 <= i < j < |ps| ==> KeyLeq(ps[i], ps[j])
  }

  function Insert(ps: seq<Punch>, p: Punch): (r: seq<Punch>)
    ensures |r| == |ps| + 1
  {
    if ps == [] || KeyLeq(ps[|ps| - 1], p) then ps + [p]
    else Insert(ps[..|ps| - 1], p) + [ps[|ps| - 1]]
  }

  lemma {:induction false} InsertKeeps(ps: seq<Punch>, p: Punch)
    ensures multiset(Insert(ps, p)) == multiset(ps) + multiset{p}
  {
    if ps == [] || KeyLeq(ps[|ps| - 1], p) {
    } else {
      InsertKeeps(ps[..|ps| - 1], p);
      assert ps == ps[..|ps| - 1] + [ps[|ps| - 1]];
    }
  }

  lemma {:induction false} InsertSorts(ps: seq<Punch>, p: Punch)
    requires KeySorted(ps)
    ensures KeySorted(Insert(ps, p))
    ensures forall x :: x in Insert(ps, p) ==> x == p || x in ps
  {
    if ps == [] || KeyLeq(ps[|ps| - 1], p) {
      forall i | 0 <= i < |ps|
        ensures KeyLeq(ps[i], p)
      {
        assert i < |ps| - 1 ==> KeyLeq(ps[i], ps[|ps| - 1]);
      }
    } else {
      var front, last := ps[..|ps| - 1], ps[|ps| - 1];
      InsertSorts(front, p);
      var r := Insert(front, p);
      forall i | 0 <= i < |r|
        ensures KeyLeq(r[i], last)
      {
        assert r[i] in r;
      }
    }
  }

  function ValidOnly(ledger: seq<Punch>): seq<Punch> {
    if ledger == [] then []
    else ValidOnly(ledger[..|ledger| - 1]) + (if ledger[|ledger| - 1].valid then [ledger[|ledger| - 1]] else [])
  }

  // sorted([p for p in punches if p.is_valid], key=(punch_time, sequence_no))
  function SortedValid(ledger: seq<Punch>): seq<Punch> {
    if ledger == [] then []
    else
      var front, last := ledger[..|ledger| - 1], ledger[|ledger| - 1];
      if last.valid then Insert(SortedValid(front), last) else SortedValid(front)
  }

  // The valid punches, each as often as it was recorded, in key order.
  lemma {:induction false} SortedValidSorts(ledger: seq<Punch>)
    ensures KeySorted(SortedValid(ledger))
    ensures multiset(SortedValid(ledger)) == multiset(ValidOnly(ledger))
  {
    if ledger != [] {
      var front, last := ledger[..|ledger| - 1], ledger[|ledger| - 1];
      SortedValidSorts(front);
      if last.valid {
        InsertSorts(SortedValid(front), last);
        InsertKeeps(SortedValid(front), last);
      }
    }
  }

  function Stamps(ps: seq<Punch>): (r: seq<Stamp>)
    ensures |r| == |ps|
    ensures forall i :: 0 <= i < |ps| ==> r[i] == ps[i].stamp
  {
    seq(|ps|, i requires 0 <= i < |ps| => ps[i].stamp)
  }

  // The day as the engine sees it.
  function DayLine(ledger: seq<Punch>): (r: seq<Stamp>)
    ensures Chronological(r)
  {
    SortedValidSorts(ledger);
    Stamps(SortedValid(ledger))
  }

  lemma {:induction false} InValidOnly(ledger: seq<Punch>, p: Punch)
    ensures p in ValidOnly(ledger) <==> p in ledger && p.valid
  {
    if ledger != [] {
      InValidOnly(ledger[..|ledger| - 1], p);
      assert ledger == ledger[..|ledger| - 1] + [ledger[|ledger| - 1]];
    }
  }

  lemma InSortedValid(ledger: seq<Punch>, p: Punch)
    ensures p in SortedValid(ledger) <==> p in ledger && p.valid
  {
    InValidOnly(ledger, p);
    SortedValidSorts(ledger);
    assert p in multiset(SortedValid(ledger)) <==> p in multiset(ValidOnly(ledger));
  }

  // Sequence numbers of a day are exactly 1..n, in order of insertion.
  ghost predicate Numbered(ledger: seq<Punch>) {
    forall i :: 0 <= i < |ledger| ==> ledger[i].seqNo == i + 1
  }

  // Where a new punch lands on the day line: after every punch at or before it.
  function Place(ts: seq<Stamp>, p: Stamp): (r: seq<Stamp>)
    ensures |r| == |ts| + 1
  {
    if ts == [] || ts[|ts| - 1].time <= p.time then ts + [p]
    else Place(ts[..|ts| - 1], p) + [ts[|ts| - 1]]
  }

  lemma {:induction false} InsertIsPlace(ps: seq<Punch>, p: Punch)
    requires forall q :: q in ps ==> q.seqNo < p.seqNo
    ensures Stamps(Insert(ps, p)) == Place(Stamps(ps), p.stamp)
  {
    if ps == [] || KeyLeq(ps[|ps| - 1], p) {
    } else {
      var front := ps[..|ps| - 1];
      InsertIsPlace(front, p);
      assert Stamps(ps)[..|ps| - 1] == Stamps(front);
    }
  }

  // Appending a valid punch with the next sequence number places it on the line.
  lemma AppendPlaces(ledger: seq<Punch>, p: Stamp)
    requires Numbered(ledger)
    ensures Numbered(ledger + [Punch(|ledger| + 1, p, true)])
    ensures DayLine(ledger + [Punch(|ledger| + 1, p, true)]) == Place(DayLine(ledger), p)
  {
    var q := Punch(|ledger| + 1, p, true);
    assert (ledger + [q])[..|ledger|] == ledger;
    forall x | x in SortedValid(ledger)
      ensures x.seqNo < q.seqNo
    {
      InSortedValid(ledger, x);
    }
    InsertIsPlace(SortedValid(ledger), q);
  }

  // Two punches at different instants can be placed in either order.
  lemma {:induction false} PlaceCommutes(ts: seq<Stamp>, p: Stamp, q: Stamp)
    requires p.time != q.time && Chronological(ts)
    ensures Place(Place(ts, p), q) == Place(Place(ts, q), p)
  {
    if ts == [] {
      assert [p, q][..1] == [p] && [q, p][..1] == [q];
    } else {
      var front, last := ts[..|ts| - 1], ts[|ts| - 1];
      assert (ts + [p])[..|ts|] == ts && (ts + [q])[..|ts|] == ts;
      PlaceCommutes(front, p, q);
      assert (Place(front, p) + [last])[..|ts|] == Place(front, p);
      assert (Place(front, q) + [last])[..|ts|] == Place(front, q);
    }
  }
}

module DayRow {
  import opened Common
  import opened Timeline
  import opened Sessions

  // Date: a Python date's ordinal.
  type Date = int

  datatype Status = Present | Absent | HalfDay | WeekOff | Holiday | OnLeave | NotMarked

  // Payroll's attendance mode; any other text behaves as AllPunches.
  datatype Mode = AllPunches | FirstLast | SinglePunch

  datatype Settings = Settings(mode: Mode, fullDay: nat, halfDay: nat, grace: nat)

  datatype Clock = Clock(today: Date, now: Time)

  datatype Row = Row(
    start: Option<TimeOfDay>, end: Option<TimeOfDay>,
    status: Status, manual: bool, leave: bool, regularized: bool,
    firstIn: Option<Time>, lastOut: Option<Time>,
    working: int, breaks: int, late: int, early: int, overtime: int)

  function Blank(start: Option<TimeOfDay>, end: Option<TimeOfDay>, status: Status, manual: bool, leave: bool): Row {
    Row(start, end, status, manual, leave, false, None, None, 0, 0, 0, 0, 0)
  }

  // Length of the scheduled shift in minutes, 480 when there is none.
  function ShiftMinutes(start: Option<TimeOfDay>, end: Option<TimeOfDay>): int {
    if start.Some? && end.Some? then
      var s, e := MinuteOfDay(start.value), MinuteOfDay(end.value);
      var e' := if e < s then e + 1440 else e;
      if e' > s then e' - s else 480
    else 480
  }

  function ShiftStart(date: Date, start: TimeOfDay): Time {
    date * DAY + start
  }

  function ShiftEnd(date: Date, start: TimeOfDay, end: TimeOfDay): Time {
    date * DAY + end + (if end < start then DAY else 0)
  }

  // Minutes worked and on break, with live accrual on the current day.
  function Totals(cfg: Settings, clk: Clock, date: Date, ts: seq<Stamp>): (int, int) {
    var m := Walk(ts);
    var live := date == clk.today;
    var working := m.working + (if live && m.currentIn.Some? then Max(0, Minutes(clk.now - m.currentIn.value)) else 0);
    var breaks := m.breaks + (if live && m.currentIn.None? && m.previousOut.Some? then Max(0, Minutes(clk.now - m.previousOut.value)) else 0);
    if ts == [] then (working, breaks)
    else match cfg.mode
      case AllPunches => (working, breaks)
      case FirstLast => (Max(0, Minutes(ts[|ts| - 1].time - ts[0].time) - breaks), breaks)
      case SinglePunch => (Max(working, cfg.fullDay), breaks)
  }

  function Late(cfg: Settings, date: Date, start: Option<TimeOfDay>, ts: seq<Stamp>): int {
    if ts != [] && start.Some? && ts[0].time > ShiftStart(date, start.value) + cfg.grace * MINUTE
    then Minutes(ts[0].time - ShiftStart(date, start.value)) else 0
  }

  function Early(date: Date, start: TimeOfDay, end: TimeOfDay, ts: seq<Stamp>): int {
    if ts != [] && ts[|ts| - 1].time < ShiftEnd(date, start, end)
    then Minutes(ShiftEnd(date, start, end) - ts[|ts| - 1].time) else 0
  }

  function StatusOf(cfg: Settings, clk: Clock, off: bool, date: Date, row: Row, punched: bool, working: int): Status {
    if row.manual then row.status
    else if row.leave then OnLeave
    else if off then (if punched then Present else WeekOff)
    else if !punched then
      (if row.status.Holiday? || row.status.OnLeave? then row.status
       else if date == clk.today then NotMarked else Absent)
    else if working >= cfg.fullDay then Present
    else if working >= cfg.halfDay then HalfDay
    else if date == clk.today then Present
    else Absent
  }

  // A row with an expected end but no expected start cannot be recomputed once it
  // has a valid punch: the two times are compared without a null check.
  predicate Computable(row: Row, ts: seq<Stamp>) {
    ts == [] || row.end.None? || row.start.Some?
  }

  // The pure function of ledger, schedule, leave flag and prior status.
  function Derive(cfg: Settings, clk: Clock, off: bool, date: Date, row: Row, ts: seq<Stamp>): Row
    requires Computable(row, ts)
  {
    var (working, breaks) := Totals(cfg, clk, date, ts);
    var shift := ShiftMinutes(row.start, row.end);
    row.(firstIn := if ts == [] then None else Some(ts[0].time),
         lastOut := if ts == [] then None else Some(ts[|ts| - 1].time),
         working := working, breaks := breaks,
         late := Late(cfg, date, row.start, ts),
         early := if ts != [] && row.end.Some? then Early(date, row.start.value, row.end.value, ts) else 0,
         overtime := if working > shift then working - shift else 0,
         status := StatusOf(cfg, clk, off, date, row, ts != [], working))
  }

  // The table's CHECK constraints hold on every day, today included.
  lemma MetricsNonNegative(cfg: Settings, clk: Clock, off: bool, date: Date, row: Row, ts: seq<Stamp>)
    requires Chronological(ts) && Computable(row, ts)
    ensures var r := Derive(cfg, clk, off, date, row, ts);
            r.working >= 0 && r.breaks >= 0 && r.late >= 0 && r.early >= 0 && r.overtime >= 0
  {
    if ts != [] {
      WalkWithin(ts);
    }
  }

  // Lateness is the whole minutes from the scheduled start, none within the grace
  // period; a lateness that counts is never below the grace period.
  lemma LateExact(cfg: Settings, date: Date, start: TimeOfDay, ts: seq<Stamp>)
    requires ts != []
    ensures var late, delay := Late(cfg, date, Some(start), ts), ts[0].time - (date * DAY + start);
            && (late == 0 <==> delay <= cfg.grace * MINUTE || delay < MINUTE)
            && (late != 0 ==> late >= cfg.grace && MINUTE * late <= delay < MINUTE * (late + 1))
  {
    var delay := ts[0].time - ShiftStart(date, start);
    if delay > cfg.grace * MINUTE {
      assert delay >= 0;
    }
  }

  // Leaving early has no grace: zero exactly when less than a minute is missing.
  lemma EarlyExact(date: Date, start: TimeOfDay, end: TimeOfDay, ts: seq<Stamp>)
    requires ts != []
    ensures var early, rest := Early(date, start, end, ts), date * DAY + end + (if end < start then DAY else 0) - ts[|ts| - 1].time;
            && (early == 0 <==> rest < MINUTE)
            && (early != 0 ==> MINUTE * early <= rest < MINUTE * (early + 1))
  {
  }

  // The first-last mode splits the whole span of a past day into work and break,
  // and never counts less work than the all-punches mode.
  lemma FirstLastExact(cfg: Settings, clk: Clock, date: Date, ts: seq<Stamp>)
    requires date != clk.today && ts != [] && Chronological(ts) && cfg.mode.FirstLast?
    ensures var (working, breaks) := Totals(cfg, clk, date, ts);
            && working + breaks == Minutes(ts[|ts| - 1].time - ts[0].time)
            && breaks == Totals(cfg.(mode := AllPunches), clk, date, ts).1
            && working >= Totals(cfg.(mode := AllPunches), clk, date, ts).0
  {
    WalkWithin(ts);
  }

  // Recomputing after a recompute only depends on the latest ledger: whatever the
  // earlier clock and ledger were, the later result is that of computing once.
  lemma RecomputeAbsorbs(cfg: Settings, clk1: Clock, clk2: Clock, off: bool, date: Date, row: Row,
                         ts1: seq<Stamp>, ts2: seq<Stamp>)
    requires Computable(row, ts1) && Computable(row, ts2)
    requires ts1 != [] ==> ts2 != []
    ensures Derive(cfg, clk2, off, date, Derive(cfg, clk1, off, date, row, ts1), ts2)
         == Derive(cfg, clk2, off, date, row, ts2)
  {
    var r1 := Derive(cfg, clk1, off, date, row, ts1);
    var w := Totals(cfg, clk2, date, ts2).0;
    assert StatusOf(cfg, clk2, off, date, r1, ts2 != [], w) == StatusOf(cfg, clk2, off, date, row, ts2 != [], w);
  }

  // --- Two clocks ---

  // Whole minutes that have run since the last session or break was opened.
  function Elapsed(clk: Clock, date: Date, ts: seq<Stamp>): int {
    if date == clk.today then Max(0, Minutes(clk.now - Anchor(Walk(ts), 0))) else 0
  }

  // Running time that the totals of the mode do not show.
  predicate Swallowed(cfg: Settings, m: Meter, e1: int, e2: int) {
    m.currentIn.Some? &&
    match cfg.mode
    case AllPunches => false
    case FirstLast => true
    case SinglePunch => m.working + e1 <= cfg.fullDay && m.working + e2 <= cfg.fullDay
  }

  // Both clocks have the day past or both have it running, or the status does not
  // depend on that; and as many whole minutes have run, or the mode hides them.
  predicate SameReading(cfg: Settings, c1: Clock, c2: Clock, off: bool, date: Date, row: Row, ts: seq<Stamp>) {
    var e1, e2 := Elapsed(c1, date, ts), Elapsed(c2, date, ts);
    var worked := Totals(cfg, c1, date, ts).0;
    && (e1 == e2 || Swallowed(cfg, Walk(ts), e1, e2))
    && ((date == c1.today) == (date == c2.today) || row.manual || row.leave || off || worked >= cfg.halfDay || worked >= cfg.fullDay)
  }

  lemma TotalsExact(cfg: Settings, c1: Clock, c2: Clock, date: Date, ts: seq<Stamp>)
    requires ts != []
    ensures Totals(cfg, c1, date, ts) == Totals(cfg, c2, date, ts)
        <==> Elapsed(c1, date, ts) == Elapsed(c2, date, ts) || Swallowed(cfg, Walk(ts), Elapsed(c1, date, ts), Elapsed(c2, date, ts))
  {
    hide Walk, Totals, Elapsed;
    TotalsShape(cfg, c1, date, ts);
    TotalsShape(cfg, c2, date, ts);
    ElapsedNonNegative(c1, date, ts);
    ElapsedNonNegative(c2, date, ts);
  }

  lemma ElapsedNonNegative(clk: Clock, date: Date, ts: seq<Stamp>)
    ensures Elapsed(clk, date, ts) >= 0
  {
  }

  // Exactly one of the two variables is set, and it is the one that keeps running.
  lemma TotalsShape(cfg: Settings, clk: Clock, date: Date, ts: seq<Stamp>)
    requires ts != []
    ensures var m, e := Walk(ts), Elapsed(clk, date, ts);
            && (m.currentIn.None? <==> m.previousOut.Some?)
            && Totals(cfg, clk, date, ts) ==
               (var working, breaks := if m.currentIn.Some? then m.working + e else m.working, if m.currentIn.Some? then m.breaks else m.breaks + e;
                match cfg.mode
                case AllPunches => (working, breaks)
                case FirstLast => (Max(0, Minutes(ts[|ts| - 1].time - ts[0].time) - breaks), breaks)
                case SinglePunch => (Max(working, cfg.fullDay), breaks))
  {
    hide Walk, Minutes;
    WalkState(ts, |ts|);
    assert ts[..|ts|] == ts;
  }

  // The summary of a punched day reads the same at two times exactly under that
  // condition; on a day past for both it always does.
  lemma ReadingExact(cfg: Settings, c1: Clock, c2: Clock, off: bool, date: Date, row: Row, ts: seq<Stamp>)
    requires ts != [] && Computable(row, ts)
    ensures Derive(cfg, c1, off, date, row, ts) == Derive(cfg, c2, off, date, row, ts) <==> SameReading(cfg, c1, c2, off, date, row, ts)
    ensures date != c1.today && date != c2.today ==> SameReading(cfg, c1, c2, off, date, row, ts)
  {
    TotalsExact(cfg, c1, c2, date, ts);
    var r1, r2 := Derive(cfg, c1, off, date, row, ts), Derive(cfg, c2, off, date, row, ts);
    assert (r1.working, r1.breaks) == Totals(cfg, c1, date, ts) && (r2.working, r2.breaks) == Totals(cfg, c2, date, ts);
  }

  // --- Tiling of a past day ---

  // Both times fall in one minute, the end on an earlier second: the end moves to
  // the next day but the shift length stays at the default.
  predicate SameMinuteOvernight(start: TimeOfDay, end: TimeOfDay) {
    MinuteOfDay(start) == MinuteOfDay(end) && end < start
  }

  ghost predicate Tiles(cfg: Settings, date: Date, start: TimeOfDay, end: TimeOfDay, r: Row) {
    r.late > 0 && r.early > 0 ==>
      r.late + r.working + r.breaks + r.early <= ShiftMinutes(Some(start), Some(end)) && r.overtime == 0
  }

  lemma ShiftLength(date: Date, start: TimeOfDay, end: TimeOfDay)
    requires !SameMinuteOvernight(start, end) && ShiftStart(date, start) < ShiftEnd(date, start, end)
    ensures ShiftEnd(date, start, end) - ShiftStart(date, start) < MINUTE * (ShiftMinutes(Some(start), Some(end)) + 1)
  {
  }

  lemma PastTotals(cfg: Settings, clk: Clock, date: Date, ts: seq<Stamp>)
    requires date != clk.today && ts != [] && Chronological(ts) && !cfg.mode.SinglePunch?
    ensures var (working, breaks) := Totals(cfg, clk, date, ts);
            working >= 0 && breaks >= 0 && MINUTE * (working + breaks) <= ts[|ts| - 1].time - ts[0].time
  {
    WalkWithin(ts);
  }

  // Late arrival, work, breaks and early leaving fit into the shift.
  lemma TilingHolds(cfg: Settings, clk: Clock, off: bool, date: Date, row: Row, ts: seq<Stamp>)
    requires date != clk.today && Chronological(ts) && !cfg.mode.SinglePunch?
    requires row.start.Some? && row.end.Some? && !SameMinuteOvernight(row.start.value, row.end.value)
    ensures Tiles(cfg, date, row.start.value, row.end.value, Derive(cfg, clk, off, date, row, ts))
  {
    var r := Derive(cfg, clk, off, date, row, ts);
    if r.late > 0 && r.early > 0 {
      PastTotals(cfg, clk, date, ts);
      var s, e := ShiftStart(date, row.start.value), ShiftEnd(date, row.start.value, row.end.value);
      var first, last := ts[0].time, ts[|ts| - 1].time;
      assert MINUTE * r.late <= first - s && MINUTE * r.early <= e - last && first <= last;
      ShiftLength(date, row.start.value, row.end.value);
    }
  }

  // The exception is real: a same-minute overnight shift is broken by an IN soon
  // after the start and an OUT just before the end.
  lemma TilingFails(cfg: Settings, clk: Clock, off: bool, date: Date, row: Row)
    requires date != clk.today && !cfg.mode.SinglePunch? && cfg.grace <= 120
    requires row.start.Some? && row.end.Some? && SameMinuteOvernight(row.start.value, row.end.value)
    ensures exists ts :: Chronological(ts) && !Tiles(cfg, date, row.start.value, row.end.value, Derive(cfg, clk, off, date, row, ts))
  {
    var s, e := ShiftStart(date, row.start.value), ShiftEnd(date, row.start.value, row.end.value);
    var first, last := s + (cfg.grace + 1) * MINUTE, e - MINUTE;
    var ts := [Stamp(first, In), Stamp(last, Out)];
    assert DAY - MINUTE < e - s < DAY;
    assert ts[..1] == [ts[0]] && ts[..1][..0] == [];
    assert Walk(ts[..1]) == Meter(0, 0, Some(first), None);
    var m := Walk(ts);
    assert m == Meter(Max(0, Minutes(last - first)), 0, None, Some(last));
    var r := Derive(cfg, clk, off, date, row, ts);
    assert r.late == cfg.grace + 1 && r.early == 1;
    assert r.working + r.breaks >= Minutes(last - first) >= 1300 - cfg.grace;
    assert !Tiles(cfg, date, row.start.value, row.end.value, r);
  }

  // A shift tiles every past day exactly when it is not a same-minute overnight one.
  lemma TilingExact(cfg: Settings, clk: Clock, off: bool, date: Date, row: Row)
    requires date != clk.today && !cfg.mode.SinglePunch? && cfg.grace <= 120
    requires row.start.Some? && row.end.Some?
    ensures (forall ts :: Chronological(ts) ==> Tiles(cfg, date, row.start.value, row.end.value, Derive(cfg, clk, off, date, row, ts)))
            <==> !SameMinuteOvernight(row.start.value, row.end.value)
  {
    if SameMinuteOvernight(row.start.value, row.end.value) {
      TilingFails(cfg, clk, off, date, row);
    } else {
      forall ts | Chronological(ts)
        ensures Tiles(cfg, date, row.start.value, row.end.value, Derive(cfg, clk, off, date, row, ts))
      {
        TilingHolds(cfg, clk, off, date, row, ts);
      }
    }
  }
}
