// What an uploaded record leaves behind, told with the device's own codes and
// texts, and what the device total counts.

module UploadMeaning {
  import opened Common
  import opened Timeline
  import opened Sessions
  import opened Ledger
  import opened DayRow
  import opened Calendar
  import opened Locks
  import opened AttendanceStore
  import opened AttendanceRuns
  import opened Payload
  import opened PayloadRoundTrip
  import opened UploadLaws
  import opened SummaryLaws

  // The device's status codes. Codes it does not know count as a check-in.
  predicate Means(code: string, kind: Kind) {
    match kind
    case In => code == "0" || code == "4" || (code != "1" && code != "2" && code != "3" && code != "5")
    case Out => code == "1" || code == "5"
    case BreakOut => code == "2"
    case BreakIn => code == "3"
  }

  lemma MeansKind(code: string, kind: Kind)
    ensures Means(code, kind) <==> KindOf(code) == kind
  {
  }

  // The employee has no punch of this instant and type on any day.
  ghost predicate Unrecorded(days: Days, e: EmpId, p: Stamp) {
    forall k, i :: k in days && k.emp == e && 0 <= i < |days[k].ledger| ==> days[k].ledger[i].stamp != p
  }

  // Nothing of the kind is on record, no lock covers the day, and its expected times
  // allow a punch.
  ghost predicate Takes(cfg: Config, st: Store, k: Key, p: Stamp) {
    && k.emp in cfg.employees
    && !RowLocked(st.locks, LockKey(MonthOf(k.date), None))
    && !RowLocked(st.locks, LockKey(MonthOf(k.date), Some(cfg.employees[k.emp].branch)))
    && Unrecorded(st.days, k.emp, p)
    && (if k in st.days then st.days[k].row.end.None? || st.days[k].row.start.Some? else !HalfPlanned(cfg, k))
  }

  function TotalOf(st: Store, serial: string): nat {
    if serial in st.logs then st.logs[serial] else 0
  }

  function LedgerOf(st: Store, k: Key): seq<Punch> {
    if k in st.days then st.days[k].ledger else []
  }

  // One readable record of a known PIN: exactly when it is taken, which punch it
  // leaves on which day, and that nothing else changes but the total.
  lemma RecordExact(cfg: Config, clk: Clock, st: Store, serial: string, r: Record, k: Key, p: Stamp)
    requires cfg.zones(serial)(r.time) == Some((p.time, k.date)) && cfg.resolve(r.pin) == Some(k.emp) && Means(r.status, p.kind)
    ensures var st' := Post(cfg, clk, st, serial, [r]);
            if Takes(cfg, st, k, p) then
              && k in st'.days && st'.days == st.days[k := st'.days[k]] && st'.locks == st.locks
              && st'.days[k].ledger == LedgerOf(st, k) + [Punch(|LedgerOf(st, k)| + 1, p, true)]
              && (k !in st.days ==> !st'.days[k].row.manual && !st'.days[k].row.leave && PlannedTimes(cfg, k, st'.days[k].row))
              && st'.logs == st.logs[serial := TotalOf(st, serial) + 1]
            else st' == st.(logs := st.logs[serial := TotalOf(st, serial)])
  {
    hide Recomputed, Derive, IsLocked, KindOf, Means;
    MeansKind(r.status, p.kind);
    OneRecord(At(cfg, serial), clk, st, r);
    TakesExactly(cfg, serial, st, r, k, p);
    if Takes(cfg, st, k, p) {
      InsertionShape(At(cfg, serial), clk, st, r);
      InsertedRow(At(cfg, serial), clk, k, DayFor(At(cfg, serial), st.days, k), p);
    } else {
      NotInserted(At(cfg, serial), clk, st, r);
    }
  }

  lemma OneRecord(cfg: Config, clk: Clock, st: Store, r: Record)
    ensures UploadAll(cfg, clk, st, [r]) == UploadOne(cfg, clk, st, r)
    ensures Inserted(cfg, clk, st, [r]) == if Insertable(cfg, st, r) then 1 else 0
  {
    hide UploadOne;
    assert [r][..0] == [];
    assert UploadAll(cfg, clk, st, []) == st;
    InsertableExact(cfg, clk, st, r);
  }

  lemma TakesExactly(cfg: Config, serial: string, st: Store, r: Record, k: Key, p: Stamp)
    requires cfg.zones(serial)(r.time) == Some((p.time, k.date)) && cfg.resolve(r.pin) == Some(k.emp) && KindOf(r.status) == p.kind
    ensures Insertable(At(cfg, serial), st, r) <==> Takes(cfg, st, k, p)
    ensures Takes(cfg, st, k, p) ==> Wanted(At(cfg, serial), st.locks, r) == Some(Upload(k, p))
  {
    hide KindOf;
    if PunchExists(st.days, k.emp, p) {
      var l :| l in st.days && l.emp == k.emp && exists i :: 0 <= i < |st.days[l].ledger| && st.days[l].ledger[i].stamp == p;
    }
  }

  lemma InsertedRow(cfg: Config, clk: Clock, k: Key, day: Day, p: Stamp)
    requires Recomputed(cfg, clk, k, Appended(day, p)).Some?
    ensures var r := Recomputed(cfg, clk, k, Appended(day, p)).value.row;
            r.manual == day.row.manual && r.leave == day.row.leave && r.start == day.row.start && r.end == day.row.end
  {
    DerivedMinutes(cfg, clk, k, Appended(day, p));
  }

  // A record whose text is no timestamp or whose PIN is nobody's is skipped.
  lemma UnreadableSkipped(cfg: Config, clk: Clock, st: Store, serial: string, r: Record)
    requires cfg.zones(serial)(r.time).None? || cfg.resolve(r.pin).None?
    ensures Post(cfg, clk, st, serial, [r]) == st.(logs := st.logs[serial := TotalOf(st, serial)])
  {
    OneRecord(At(cfg, serial), clk, st, r);
    NotInserted(At(cfg, serial), clk, st, r);
  }

  // --- Several new punches of one day ---

  function NewPunches(n: nat, ps: seq<Stamp>): seq<Punch> {
    seq(|ps|, i requires 0 <= i < |ps| => Punch(n + i + 1, ps[i], true))
  }

  // What records ask of day k, each for a punch of its own that is not on record.
  ghost predicate AllNew(cfg: Config, st: Store, rs: seq<Record>, k: Key, ps: seq<Stamp>) {
    && |rs| == |ps| && Schedulable(DayFor(cfg, st.days, k).row)
    && (forall i :: 0 <= i < |rs| ==> Wanted(cfg, st.locks, rs[i]) == Some(Upload(k, ps[i])) && !PunchExists(st.days, k.emp, ps[i]))
    && (forall i, j :: 0 <= i < j < |ps| ==> ps[i] != ps[j])
  }

  lemma {:induction false} AllInserted(cfg: Config, clk: Clock, st: Store, rs: seq<Record>, k: Key, ps: seq<Stamp>)
    requires AllNew(cfg, st, rs, k, ps)
    ensures var t := UploadAll(cfg, clk, st, rs);
            && t.locks == st.locks && Inserted(cfg, clk, st, rs) == |rs|
            && (rs == [] ==> t == st)
            && (rs != [] ==> k in t.days && t.days == st.days[k := t.days[k]])
            && DayFor(cfg, t.days, k).ledger == DayFor(cfg, st.days, k).ledger + NewPunches(|DayFor(cfg, st.days, k).ledger|, ps)
            && Schedulable(DayFor(cfg, t.days, k).row)
  {
    hide Recomputed, Wanted, FreshDay, UploadOne, Insertion, PunchExists;
    if rs != [] {
      var n := |rs| - 1;
      AllInserted(cfg, clk, st, rs[..n], k, ps[..n]);
      var mid := UploadAll(cfg, clk, st, rs[..n]);
      StillNew(cfg, st, mid, k, ps);
      InsertableExact(cfg, clk, mid, rs[n]);
      InsertionShape(cfg, clk, mid, rs[n]);
    }
  }

  lemma StillNew(cfg: Config, st: Store, mid: Store, k: Key, ps: seq<Stamp>)
    requires ps != [] && !PunchExists(st.days, k.emp, ps[|ps| - 1]) && forall i, j :: 0 <= i < j < |ps| ==> ps[i] != ps[j]
    requires if |ps| == 1 then mid == st else k in mid.days && mid.days == st.days[k := mid.days[k]]
    requires DayFor(cfg, mid.days, k).ledger
          == DayFor(cfg, st.days, k).ledger + NewPunches(|DayFor(cfg, st.days, k).ledger|, ps[..|ps| - 1])
    ensures !PunchExists(mid.days, k.emp, ps[|ps| - 1])
  {
    hide FreshDay;
    var p := ps[|ps| - 1];
    forall l, i | l in mid.days && l.emp == k.emp && 0 <= i < |mid.days[l].ledger|
      ensures mid.days[l].ledger[i].stamp != p
    {
      if l == k {
        if i < |DayFor(cfg, st.days, k).ledger| {
          NotAmong(cfg, st, k, p, i);
        }
      } else {
        assert mid.days[l] == st.days[l] && st.days[l].ledger[i] == mid.days[l].ledger[i];
      }
    }
  }

  lemma NotAmong(cfg: Config, st: Store, k: Key, p: Stamp, i: nat)
    requires !PunchExists(st.days, k.emp, p) && i < |DayFor(cfg, st.days, k).ledger|
    ensures DayFor(cfg, st.days, k).ledger[i].stamp != p
  {
    if k in st.days {
      assert st.days[k].ledger[i] == DayFor(cfg, st.days, k).ledger[i];
    }
  }

  // --- A day told in the device's codes ---

  // The device's text and PIN name this instant, day and employee.
  ghost predicate Reads(cfg: Config, serial: string, r: Record, k: Key, t: Time) {
    cfg.zones(serial)(r.time) == Some((t, k.date)) && cfg.resolve(r.pin) == Some(k.emp)
  }

  // From an empty store, records of different instants or types of one day: the day
  // holds one valid punch for each, in the order they came, and the summary is that
  // of the punches.
  lemma PostedDay(cfg: Config, clk: Clock, serial: string, rs: seq<Record>, k: Key, ps: seq<Stamp>)
    requires |rs| == |ps| > 0 && k.emp in cfg.employees && !HalfPlanned(cfg, k)
    requires forall i :: 0 <= i < |rs| ==> Reads(cfg, serial, rs[i], k, ps[i].time) && Means(rs[i].status, ps[i].kind)
    requires forall i, j :: 0 <= i < j < |ps| ==> ps[i] != ps[j]
    ensures var t := Post(cfg, clk, Store(map[], map[], map[]), serial, rs);
            && t.days.Keys == {k} && t.logs == map[serial := |rs|] && t.locks == map[]
            && t.days[k].ledger == NewPunches(0, ps)
            && DayLine(t.days[k].ledger) != []
            && (t.days[k].row.working, t.days[k].row.breaks) == Totals(cfg.settings, clk, k.date, DayLine(t.days[k].ledger))
            && t.days[k].row.firstIn == Some(DayLine(t.days[k].ledger)[0].time)
            && t.days[k].row.lastOut == Some(DayLine(t.days[k].ledger)[|DayLine(t.days[k].ledger)| - 1].time)
  {
    hide UploadAll, Inserted, Totals, DayLine, Means, KindOf, Derive, Wanted;
    var dev, s0 := At(cfg, serial), Store(map[], map[], map[]);
    forall i | 0 <= i < |rs|
      ensures Wanted(dev, s0.locks, rs[i]) == Some(Upload(k, ps[i]))
    {
      MeansKind(rs[i].status, ps[i].kind);
      ReadsWanted(cfg, serial, rs[i], k, ps[i]);
    }
    AllInserted(dev, clk, s0, rs, k, ps);
    UploadsDerive(dev, clk, s0, rs, k);
    assert [] + NewPunches(0, ps) == NewPunches(0, ps);
    DerivedRow(dev, clk, k, DayFor(dev, s0.days, k), UploadAll(dev, clk, s0, rs).days[k]);
  }

  lemma ReadsWanted(cfg: Config, serial: string, r: Record, k: Key, p: Stamp)
    requires Reads(cfg, serial, r, k, p.time) && KindOf(r.status) == p.kind && k.emp in cfg.employees
    ensures Wanted(At(cfg, serial), map[], r) == Some(Upload(k, p))
  {
    hide KindOf;
  }

  lemma DerivedRow(cfg: Config, clk: Clock, k: Key, prior: Day, day: Day)
    requires Derived(cfg, clk, k, prior, day) && |day.ledger| > |prior.ledger|
    ensures var line := DayLine(day.ledger);
            && line != [] && (day.row.working, day.row.breaks) == Totals(cfg.settings, clk, k.date, line)
            && day.row.firstIn == Some(line[0].time) && day.row.lastOut == Some(line[|line| - 1].time)
  {
    hide DayLine, Totals, Late, Early, ShiftMinutes, StatusOf;
  }

  lemma TextOfThree(pin: string, time: string, code: string)
    requires Clean(pin) && Clean(time) && Clean(code) && pin[0] != '#'
    ensures ParsePayload(pin + "\t" + time + "\t" + code) == [Record(pin, time, code, "1", "0")]
  {
    var fs := [pin, time, code];
    JoinShape(fs, '\t');
    TabPartsJoin(fs);
    OneLine(Join(fs, '\t'));
    assert fs[1..] == [time, code] && fs[1..][1..] == [code];
    assert Join([code], '\t') == code;
    assert Join([time, code], '\t') == time + "\t" + code;
    assert Join(fs, '\t') == pin + "\t" + time + "\t" + code;
    assert fs[2..] == [code];
  }

  // From an empty store, a check-in line and a later check-out line of a past day, in
  // either order: first punch, last punch and the minutes between them.
  lemma CheckInCheckOut(cfg: Config, clk: Clock, serial: string, pin: string, inText: string, outText: string, k: Key, i: Time, o: Time,
                        swapped: bool)
    requires Clean(pin) && Clean(inText) && Clean(outText) && pin[0] != '#'
    requires cfg.zones(serial)(inText) == Some((i, k.date)) && cfg.zones(serial)(outText) == Some((o, k.date)) && i < o
    requires cfg.resolve(pin) == Some(k.emp) && k.emp in cfg.employees && !HalfPlanned(cfg, k)
    requires k.date != clk.today && cfg.settings.mode.AllPunches?
    ensures var checkIn, checkOut := pin + "\t" + inText + "\t" + "0", pin + "\t" + outText + "\t" + "1";
            var body := if swapped then checkOut + ['\n'] + checkIn else checkIn + ['\n'] + checkOut;
            var t := Post(cfg, clk, Store(map[], map[], map[]), serial, ParsePayload(body));
            && t.days.Keys == {k} && t.logs == map[serial := 2]
            && t.days[k].row.firstIn == Some(i) && t.days[k].row.lastOut == Some(o)
            && t.days[k].row.working == Minutes(o - i) && t.days[k].row.breaks == 0
  {
    hide Post, ParsePayload, HalfPlanned, Totals, Clean;
    var a, b := Record(pin, inText, "0", "1", "0"), Record(pin, outText, "1", "1", "0");
    var p, q := Stamp(i, In), Stamp(o, Out);
    CodesAreClean();
    TextOfThree(pin, inText, "0");
    TextOfThree(pin, outText, "1");
    var checkIn, checkOut := pin + "\t" + inText + "\t" + "0", pin + "\t" + outText + "\t" + "1";
    PairWorked(cfg.settings, clk, k.date, p, q);
    if swapped {
      AppendLine(checkOut, checkIn, [b], a);
      assert [b] + [a] == [b, a];
      PostedDay(cfg, clk, serial, [b, a], k, [q, p]);
      assert NewPunches(0, [q, p]) == [Punch(1, q, true), Punch(2, p, true)];
      PairOfPunches(NewPunches(0, [q, p]), q, p);
    } else {
      AppendLine(checkIn, checkOut, [a], b);
      assert [a] + [b] == [a, b];
      PostedDay(cfg, clk, serial, [a, b], k, [p, q]);
      assert NewPunches(0, [p, q]) == [Punch(1, p, true), Punch(2, q, true)];
      PairOfPunches(NewPunches(0, [p, q]), p, q);
    }
  }

  lemma CodesAreClean()
    ensures Clean("0") && Clean("1")
  {
  }

  // A check-in, a break from code 2 to code 3 and a check-out of a past day: work on
  // both sides of the break, and the break between.
  lemma BreakIsTaken(cfg: Config, clk: Clock, serial: string, rs: seq<Record>, k: Key, t1: Time, t2: Time, t3: Time, t4: Time)
    requires |rs| == 4 && rs[0].status == "0" && rs[1].status == "2" && rs[2].status == "3" && rs[3].status == "1"
    requires Reads(cfg, serial, rs[0], k, t1) && Reads(cfg, serial, rs[1], k, t2) && Reads(cfg, serial, rs[2], k, t3) && Reads(cfg, serial, rs[3], k, t4)
    requires t1 <= t2 <= t3 <= t4 && k.emp in cfg.employees && !HalfPlanned(cfg, k) && k.date != clk.today && cfg.settings.mode.AllPunches?
    ensures var t := Post(cfg, clk, Store(map[], map[], map[]), serial, rs);
            && t.days.Keys == {k} && t.logs == map[serial := 4]
            && t.days[k].row.firstIn == Some(t1) && t.days[k].row.lastOut == Some(t4)
            && t.days[k].row.working == Minutes(t2 - t1) + Minutes(t4 - t3) && t.days[k].row.breaks == Minutes(t3 - t2)
  {
    hide Post, HalfPlanned, Totals, DayLine, Reads;
    var ps := [Stamp(t1, In), Stamp(t2, BreakOut), Stamp(t3, BreakIn), Stamp(t4, Out)];
    PostedDay(cfg, clk, serial, rs, k, ps);
    LineInOrder(ps);
    FourTotals(cfg.settings, clk, k.date, t1, t2, t3, t4);
  }

  // Punches recorded in the order of time are read in that order.
  lemma {:induction false} LineInOrder(ps: seq<Stamp>)
    requires Chronological(ps)
    ensures DayLine(NewPunches(0, ps)) == ps && Numbered(NewPunches(0, ps))
  {
    hide DayLine;
    if ps == [] {
      NoLine(NewPunches(0, ps));
    } else {
      var front, p := ps[..|ps| - 1], ps[|ps| - 1];
      LineInOrder(front);
      AppendPlaces(NewPunches(0, front), p);
      assert NewPunches(0, ps) == NewPunches(0, front) + [Punch(|front| + 1, p, true)];
      assert front == [] || front[|front| - 1].time <= p.time;
      assert front + [p] == ps;
    }
  }

  lemma FourTotals(cs: Settings, clk: Clock, date: Date, t1: Time, t2: Time, t3: Time, t4: Time)
    requires t1 <= t2 <= t3 <= t4 && date != clk.today && cs.mode.AllPunches?
    ensures Totals(cs, clk, date, [Stamp(t1, In), Stamp(t2, BreakOut), Stamp(t3, BreakIn), Stamp(t4, Out)])
         == (Minutes(t2 - t1) + Minutes(t4 - t3), Minutes(t3 - t2))
  {
    var ts := [Stamp(t1, In), Stamp(t2, BreakOut), Stamp(t3, BreakIn), Stamp(t4, Out)];
    assert ts[..3][..2] == ts[..2] && ts[..2][..1] == ts[..1] && ts[..1][..0] == [];
    assert Walk(ts[..1]) == Advance(Walk([]), ts[0]);
    assert Walk(ts[..2]) == Advance(Walk(ts[..1]), ts[1]);
    assert Walk(ts[..3]) == Advance(Walk(ts[..2]), ts[2]);
    assert Walk(ts) == Advance(Walk(ts[..3]), ts[3]);
  }

  // --- What the device total counts ---

  // Every recorded punch, as its day and place in the ledger.
  ghost function Spots(days: Days): set<(Key, int)> {
    set k, i | k in days && 0 <= i < |days[k].ledger| :: (k, i)
  }

  lemma SpotsAfter(days: Days, k: Key, prior: Day, d: Day)
    requires (if k in days then days[k] == prior else prior.ledger == []) && |d.ledger| == |prior.ledger| + 1
    ensures |Spots(days[k := d])| == |Spots(days)| + 1
  {
    var spot := (k, |prior.ledger|);
    assert spot !in Spots(days);
    SpotsGrow(days, k, prior, d);
    assert |Spots(days) + {spot}| == |Spots(days)| + 1;
  }

  lemma SpotsGrow(days: Days, k: Key, prior: Day, d: Day)
    requires (if k in days then days[k] == prior else prior.ledger == []) && |d.ledger| == |prior.ledger| + 1
    ensures Spots(days[k := d]) == Spots(days) + {(k, |prior.ledger|)}
  {
  }

  lemma {:induction false} InsertedCounts(cfg: Config, clk: Clock, st: Store, rs: seq<Record>)
    ensures |Spots(UploadAll(cfg, clk, st, rs).days)| == |Spots(st.days)| + Inserted(cfg, clk, st, rs)
  {
    hide UploadOne, Insertion, Recomputed, Spots;
    if rs != [] {
      var front, last := rs[..|rs| - 1], rs[|rs| - 1];
      var mid := UploadAll(cfg, clk, st, front);
      InsertedCounts(cfg, clk, st, front);
      InsertableExact(cfg, clk, mid, last);
      if Insertable(cfg, mid, last) {
        InsertionShape(cfg, clk, mid, last);
        var u := Wanted(cfg, mid.locks, last).value;
        var prior := DayFor(cfg, mid.days, u.key);
        SpotsAfter(mid.days, u.key, prior, Recomputed(cfg, clk, u.key, Appended(prior, u.stamp)).value);
      } else {
        NotInserted(cfg, clk, mid, last);
      }
    }
  }

  // Every post raises the device's total by exactly the number of punches it added,
  // and no other device's.
  lemma TotalCountsPunches(cfg: Config, clk: Clock, st: Store, serial: string, rs: seq<Record>)
    ensures var t := Post(cfg, clk, st, serial, rs);
            && serial in t.logs && t.logs == st.logs[serial := t.logs[serial]]
            && t.logs[serial] - TotalOf(st, serial) == |Spots(t.days)| - |Spots(st.days)|
  {
    hide UploadAll, Inserted, Spots;
    InsertedCounts(At(cfg, serial), clk, st, rs);
  }
}
