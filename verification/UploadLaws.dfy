// Device uploads: replaying changes nothing, no punch is recorded twice, and
// batching matters only for a day that is still running.

module UploadLaws {
  import opened Common
  import opened Timeline
  import opened Sessions
  import opened Ledger
  import opened DayRow
  import opened AttendanceStore

  // --- When a record leads to an insertion, whatever the clock ---

  // An expected end without an expected start makes every recompute of a punched
  // day raise, so the punch is rolled back.
  predicate Schedulable(row: Row) {
    row.end.None? || row.start.Some?
  }

  predicate Insertable(cfg: Config, st: Store, r: Record) {
    var w := Wanted(cfg, st.locks, r);
    w.Some? && !PunchExists(st.days, w.value.key.emp, w.value.stamp) && Schedulable(DayFor(cfg, st.days, w.value.key).row)
  }

  lemma AppendedRecomputes(cfg: Config, clk: Clock, k: Key, day: Day, p: Stamp)
    ensures Recomputed(cfg, clk, k, Appended(day, p)).Some? <==> Schedulable(day.row)
  {
    var d := Appended(day, p);
    InSortedValid(d.ledger, d.ledger[|d.ledger| - 1]);
    assert DayLine(d.ledger) != [];
  }

  lemma InsertableExact(cfg: Config, clk: Clock, st: Store, r: Record)
    ensures Insertion(cfg, clk, st, r).Some? <==> Insertable(cfg, st, r)
  {
    var w := Wanted(cfg, st.locks, r);
    if w.Some? {
      AppendedRecomputes(cfg, clk, w.value.key, DayFor(cfg, st.days, w.value.key), w.value.stamp);
    }
  }

  // What an inserted record does to its day; every other day is left alone.
  lemma InsertionShape(cfg: Config, clk: Clock, st: Store, r: Record)
    requires Insertable(cfg, st, r)
    ensures var u := Wanted(cfg, st.locks, r).value;
            var day := DayFor(cfg, st.days, u.key);
            var d := Recomputed(cfg, clk, u.key, Appended(day, u.stamp));
            d.Some? && UploadOne(cfg, clk, st, r) == st.(days := st.days[u.key := d.value])
            && d.value.ledger == day.ledger + [Punch(|day.ledger| + 1, u.stamp, true)]
            && d.value.row.start == day.row.start && d.value.row.end == day.row.end
  {
    InsertableExact(cfg, clk, st, r);
  }

  lemma NotInserted(cfg: Config, clk: Clock, st: Store, r: Record)
    requires !Insertable(cfg, st, r)
    ensures UploadOne(cfg, clk, st, r) == st
  {
    InsertableExact(cfg, clk, st, r);
  }

  lemma UploadKeepsLocks(cfg: Config, clk: Clock, st: Store, r: Record)
    ensures UploadOne(cfg, clk, st, r).locks == st.locks && UploadOne(cfg, clk, st, r).logs == st.logs
  {
  }

  lemma UploadKeepsPunches(cfg: Config, clk: Clock, st: Store, b: Record, e: EmpId, p: Stamp)
    requires PunchExists(st.days, e, p)
    ensures PunchExists(UploadOne(cfg, clk, st, b).days, e, p)
  {
    if Insertable(cfg, st, b) {
      InsertionShape(cfg, clk, st, b);
      var k :| k in st.days && k.emp == e && exists i :: 0 <= i < |st.days[k].ledger| && st.days[k].ledger[i].stamp == p;
      var i :| 0 <= i < |st.days[k].ledger| && st.days[k].ledger[i].stamp == p;
      var days := UploadOne(cfg, clk, st, b).days;
      assert k in days && days[k].ledger[i].stamp == p;
    } else {
      NotInserted(cfg, clk, st, b);
    }
  }

  lemma UploadKeepsSchedule(cfg: Config, clk: Clock, st: Store, b: Record, k: Key)
    ensures Schedulable(DayFor(cfg, UploadOne(cfg, clk, st, b).days, k).row) <==> Schedulable(DayFor(cfg, st.days, k).row)
  {
    if Insertable(cfg, st, b) {
      InsertionShape(cfg, clk, st, b);
    } else {
      NotInserted(cfg, clk, st, b);
    }
  }

  // A record that is skipped stays skipped, whatever is uploaded next.
  lemma SkippedStays(cfg: Config, clk: Clock, st: Store, r: Record, b: Record)
    requires !Insertable(cfg, st, r)
    ensures !Insertable(cfg, UploadOne(cfg, clk, st, b), r)
  {
    UploadKeepsLocks(cfg, clk, st, b);
    var w := Wanted(cfg, st.locks, r);
    if w.Some? {
      UploadKeepsSchedule(cfg, clk, st, b, w.value.key);
      if PunchExists(st.days, w.value.key.emp, w.value.stamp) {
        UploadKeepsPunches(cfg, clk, st, b, w.value.key.emp, w.value.stamp);
      }
    }
  }

  lemma InsertedOnce(cfg: Config, clk: Clock, st: Store, r: Record)
    ensures !Insertable(cfg, UploadOne(cfg, clk, st, r), r)
  {
    if Insertable(cfg, st, r) {
      InsertionShape(cfg, clk, st, r);
      var u := Wanted(cfg, st.locks, r).value;
      var days := UploadOne(cfg, clk, st, r).days;
      assert days[u.key].ledger[|days[u.key].ledger| - 1].stamp == u.stamp;
    } else {
      NotInserted(cfg, clk, st, r);
    }
  }

  // --- Replay ---

  lemma {:induction false} PostedIsSkipped(cfg: Config, clk: Clock, st: Store, rs: seq<Record>, r: Record)
    requires r in rs
    ensures !Insertable(cfg, UploadAll(cfg, clk, st, rs), r)
  {
    var front, last := rs[..|rs| - 1], rs[|rs| - 1];
    var mid := UploadAll(cfg, clk, st, front);
    assert rs == front + [last];
    if r == last {
      InsertedOnce(cfg, clk, mid, r);
    } else {
      PostedIsSkipped(cfg, clk, st, front, r);
      SkippedStays(cfg, clk, mid, r, last);
    }
  }

  lemma {:induction false} NothingToInsert(cfg: Config, clk: Clock, st: Store, rs: seq<Record>)
    requires forall r :: r in rs ==> !Insertable(cfg, st, r)
    ensures UploadAll(cfg, clk, st, rs) == st && Inserted(cfg, clk, st, rs) == 0
  {
    if rs != [] {
      var front, last := rs[..|rs| - 1], rs[|rs| - 1];
      NothingToInsert(cfg, clk, st, front);
      NotInserted(cfg, clk, st, last);
      InsertableExact(cfg, clk, st, last);
    }
  }

  // Posting again any of the records already posted, at any later time, inserts
  // no punch and changes no day, lock or counter.
  lemma ReplayIsIdempotent(cfg: Config, clk1: Clock, clk2: Clock, st: Store, serial: string, rs: seq<Record>, again: seq<Record>)
    requires forall r :: r in again ==> r in rs
    ensures Post(cfg, clk2, Post(cfg, clk1, st, serial, rs), serial, again) == Post(cfg, clk1, st, serial, rs)
  {
    hide UploadAll, Inserted;
    var dev := At(cfg, serial);
    var st1 := Post(cfg, clk1, st, serial, rs);
    forall r | r in again
      ensures !Insertable(dev, st1, r)
    {
      PostedIsSkipped(dev, clk1, st, rs, r);
    }
    NothingToInsert(dev, clk2, st1, again);
    assert st1.logs[serial := st1.logs[serial]] == st1.logs;
  }

  // --- No duplicates ---

  // Where a punch of an employee with this instant and type is recorded.
  ghost function Copies(days: Days, e: EmpId, p: Stamp): set<(Key, int)> {
    set k, i | k in days && k.emp == e && 0 <= i < |days[k].ledger| && days[k].ledger[i].stamp == p :: (k, i)
  }

  lemma CopiesExist(days: Days, e: EmpId, p: Stamp)
    ensures PunchExists(days, e, p) <==> Copies(days, e, p) != {}
  {
    if PunchExists(days, e, p) {
      var k :| k in days && k.emp == e && exists i :: 0 <= i < |days[k].ledger| && days[k].ledger[i].stamp == p;
      var i :| 0 <= i < |days[k].ledger| && days[k].ledger[i].stamp == p;
      assert (k, i) in Copies(days, e, p);
    }
    if Copies(days, e, p) != {} {
      var c :| c in Copies(days, e, p);
      assert days[c.0].ledger[c.1].stamp == p;
    }
  }

  lemma CopiesAfterAppend(days: Days, k: Key, prior: Day, d: Day, q: Punch, e: EmpId, p: Stamp)
    requires if k in days then days[k] == prior else prior.ledger == []
    requires d.ledger == prior.ledger + [q]
    ensures Copies(days[k := d], e, p) == Copies(days, e, p) + (if k.emp == e && q.stamp == p then {(k, |prior.ledger|)} else {})
  {
    var after := days[k := d];
    forall l, i | (l, i) in Copies(days, e, p)
      ensures (l, i) in Copies(after, e, p)
    {
      assert l == k ==> d.ledger[i] == prior.ledger[i];
    }
  }

  lemma CopiesAfterOne(cfg: Config, clk: Clock, st: Store, r: Record, e: EmpId, p: Stamp)
    ensures var before, after := Copies(st.days, e, p), Copies(UploadOne(cfg, clk, st, r).days, e, p);
            after == before || (before == {} && |after| == 1)
  {
    if Insertable(cfg, st, r) {
      InsertionShape(cfg, clk, st, r);
      var u := Wanted(cfg, st.locks, r).value;
      var day := DayFor(cfg, st.days, u.key);
      var d := Recomputed(cfg, clk, u.key, Appended(day, u.stamp)).value;
      CopiesAfterAppend(st.days, u.key, day, d, Punch(|day.ledger| + 1, u.stamp, true), e, p);
      CopiesExist(st.days, e, p);
    } else {
      NotInserted(cfg, clk, st, r);
    }
  }

  // An upload never adds a punch whose employee, instant and type are already
  // recorded, in the store or earlier in the same payload.
  lemma {:induction false} NoNewDuplicates(cfg: Config, clk: Clock, st: Store, rs: seq<Record>, e: EmpId, p: Stamp)
    ensures var before, after := Copies(st.days, e, p), Copies(UploadAll(cfg, clk, st, rs).days, e, p);
            if before == {} then |after| <= 1 else after == before
  {
    if rs != [] {
      var front := rs[..|rs| - 1];
      NoNewDuplicates(cfg, clk, st, front, e, p);
      CopiesAfterOne(cfg, clk, UploadAll(cfg, clk, st, front), rs[|rs| - 1], e, p);
    }
  }

  // --- Batching ---

  lemma {:induction false} UploadSplits(cfg: Config, clk: Clock, st: Store, a: seq<Record>, b: seq<Record>)
    ensures UploadAll(cfg, clk, st, a + b) == UploadAll(cfg, clk, UploadAll(cfg, clk, st, a), b)
    ensures Inserted(cfg, clk, st, a + b) == Inserted(cfg, clk, st, a) + Inserted(cfg, clk, UploadAll(cfg, clk, st, a), b)
  {
    if b == [] {
      assert a + b == a;
    } else {
      UploadSplits(cfg, clk, st, a, b[..|b| - 1]);
      assert (a + b)[..|a + b| - 1] == a + b[..|b| - 1];
    }
  }

  lemma {:induction false} UploadIgnoresLogs(cfg: Config, clk: Clock, st: Store, logs: map<string, nat>, rs: seq<Record>)
    ensures UploadAll(cfg, clk, st.(logs := logs), rs) == UploadAll(cfg, clk, st, rs).(logs := logs)
    ensures Inserted(cfg, clk, st.(logs := logs), rs) == Inserted(cfg, clk, st, rs)
  {
    if rs != [] {
      UploadIgnoresLogs(cfg, clk, st, logs, rs[..|rs| - 1]);
    }
  }

  // --- Two posts are made at two times ---

  // The same days with the same punches and the same expected times.
  ghost predicate Alike(s: Store, t: Store) {
    && s.days.Keys == t.days.Keys && s.locks == t.locks
    && forall k :: k in s.days ==> AlikeDays(s.days[k], t.days[k])
  }

  predicate AlikeDays(a: Day, b: Day) {
    a.ledger == b.ledger && a.row.start == b.row.start && a.row.end == b.row.end
  }

  lemma AlikeExists(s: Store, t: Store, e: EmpId, p: Stamp)
    requires Alike(s, t)
    ensures PunchExists(s.days, e, p) <==> PunchExists(t.days, e, p)
  {
    assert forall k :: k in s.days ==> s.days[k].ledger == t.days[k].ledger;
  }

  lemma AlikeInserts(cfg: Config, c1: Clock, c2: Clock, s: Store, t: Store, r: Record)
    requires Alike(s, t)
    ensures Insertable(cfg, s, r) <==> Insertable(cfg, t, r)
    ensures Alike(UploadOne(cfg, c1, s, r), UploadOne(cfg, c2, t, r))
  {
    hide UploadOne, Insertion, Wanted, Recomputed, PunchExists, FreshDay;
    var w := Wanted(cfg, s.locks, r);
    if w.Some? {
      AlikeExists(s, t, w.value.key.emp, w.value.stamp);
    }
    if Insertable(cfg, s, r) {
      InsertionShape(cfg, c1, s, r);
      InsertionShape(cfg, c2, t, r);
    } else {
      NotInserted(cfg, c1, s, r);
      NotInserted(cfg, c2, t, r);
    }
  }

  // Which punches an upload adds does not depend on when it comes.
  lemma {:induction false} UploadsAlike(cfg: Config, c1: Clock, c2: Clock, s: Store, t: Store, rs: seq<Record>)
    requires Alike(s, t)
    ensures Alike(UploadAll(cfg, c1, s, rs), UploadAll(cfg, c2, t, rs)) && Inserted(cfg, c1, s, rs) == Inserted(cfg, c2, t, rs)
  {
    hide UploadOne, Insertion, Alike;
    if rs != [] {
      var front, last := rs[..|rs| - 1], rs[|rs| - 1];
      UploadsAlike(cfg, c1, c2, s, t, front);
      var s1, t1 := UploadAll(cfg, c1, s, front), UploadAll(cfg, c2, t, front);
      AlikeInserts(cfg, c1, c2, s1, t1, last);
      InsertableExact(cfg, c1, s1, last);
      InsertableExact(cfg, c2, t1, last);
    }
  }

  // The day is as it was, or got punches and the summary of its whole ledger at
  // this time.
  ghost predicate Derived(cfg: Config, clk: Clock, k: Key, prior: Day, day: Day) {
    var line := DayLine(day.ledger);
    if |day.ledger| == |prior.ledger| then day == prior
    else |day.ledger| > |prior.ledger| && Schedulable(prior.row) && line != []
         && day.row == Derive(cfg.settings, clk, Off(cfg, k), k.date, prior.row, line)
  }

  lemma DerivedStep(cfg: Config, clk: Clock, k: Key, prior: Day, day: Day, p: Stamp, d: Day)
    requires Derived(cfg, clk, k, prior, day) && Schedulable(day.row) && Recomputed(cfg, clk, k, Appended(day, p)) == Some(d)
    ensures Derived(cfg, clk, k, prior, d)
  {
    InSortedValid(d.ledger, d.ledger[|d.ledger| - 1]);
    if |day.ledger| > |prior.ledger| {
      RecomputeAbsorbs(cfg.settings, clk, clk, Off(cfg, k), k.date, prior.row, DayLine(day.ledger), DayLine(d.ledger));
    }
  }

  lemma {:induction false} UploadsDerive(cfg: Config, clk: Clock, st: Store, rs: seq<Record>, k: Key)
    ensures k in st.days ==> k in UploadAll(cfg, clk, st, rs).days
    ensures k in UploadAll(cfg, clk, st, rs).days ==>
              Derived(cfg, clk, k, DayFor(cfg, st.days, k), UploadAll(cfg, clk, st, rs).days[k])
  {
    hide Derived, Recomputed, UploadOne, Insertion;
    if rs == [] {
      DerivedSame(cfg, clk, k, DayFor(cfg, st.days, k));
    } else {
      var front, last := rs[..|rs| - 1], rs[|rs| - 1];
      var mid := UploadAll(cfg, clk, st, front);
      UploadsDerive(cfg, clk, st, front, k);
      if Insertable(cfg, mid, last) {
        InsertionShape(cfg, clk, mid, last);
        var u := Wanted(cfg, mid.locks, last).value;
        if u.key == k {
          if k !in mid.days {
            DerivedSame(cfg, clk, k, DayFor(cfg, st.days, k));
          }
          DerivedStep(cfg, clk, k, DayFor(cfg, st.days, k), DayFor(cfg, mid.days, k), u.stamp,
                      Recomputed(cfg, clk, k, Appended(DayFor(cfg, mid.days, k), u.stamp)).value);
        }
      } else {
        NotInserted(cfg, clk, mid, last);
      }
    }
  }

  lemma DerivedSame(cfg: Config, clk: Clock, k: Key, day: Day)
    ensures Derived(cfg, clk, k, day, day)
  {
  }

  // The first upload added a punch to the day.
  predicate Touched(cfg: Config, before: Store, after: Store, k: Key)
    requires k in after.days
  {
    |after.days[k].ledger| > |DayFor(cfg, before.days, k).ledger|
  }

  // The row of a day after two uploads agrees with the one after a joint upload at
  // the second time, exactly unless only the first of the two touched the day and
  // the two times read it differently.
  ghost predicate RowAgrees(cfg: Config, c1: Clock, c2: Clock, st: Store, mid: Store, two: Store, k: Key)
    requires k in two.days
  {
    k in mid.days && Touched(cfg, st, mid, k) && !Touched(cfg, mid, two, k) ==>
      SameReading(cfg.settings, c1, c2, Off(cfg, k), k.date, DayFor(cfg, st.days, k).row, DayLine(two.days[k].ledger))
  }

  lemma RowAtTwoTimes(cfg: Config, c1: Clock, c2: Clock, st: Store, a: seq<Record>, b: seq<Record>, k: Key,
                      mid: Store, two: Store, one: Store)
    requires mid == UploadAll(cfg, c1, st, a) && two == UploadAll(cfg, c2, mid, b) && one == UploadAll(cfg, c2, st, a + b)
    requires k in two.days && k in one.days && AlikeDays(one.days[k], two.days[k])
    ensures one.days[k] == two.days[k] <==> RowAgrees(cfg, c1, c2, st, mid, two, k)
  {
    hide UploadAll;
    UploadsDerive(cfg, c1, st, a, k);
    UploadsDerive(cfg, c2, mid, b, k);
    UploadsDerive(cfg, c2, st, a + b, k);
    DayAtTwoTimes(cfg, c1, c2, k, DayFor(cfg, st.days, k), DayFor(cfg, mid.days, k), two.days[k], one.days[k]);
  }

  lemma DayAtTwoTimes(cfg: Config, c1: Clock, c2: Clock, k: Key, prior: Day, mid: Day, two: Day, one: Day)
    requires Derived(cfg, c1, k, prior, mid) && Derived(cfg, c2, k, mid, two) && Derived(cfg, c2, k, prior, one)
    requires one.ledger == two.ledger
    ensures one == two <==>
            (|mid.ledger| > |prior.ledger| && |two.ledger| == |mid.ledger| ==>
               SameReading(cfg.settings, c1, c2, Off(cfg, k), k.date, prior.row, DayLine(two.ledger)))
  {
    var line := DayLine(two.ledger);
    if |mid.ledger| > |prior.ledger| {
      if |two.ledger| == |mid.ledger| {
        ReadingExact(cfg.settings, c1, c2, Off(cfg, k), k.date, prior.row, line);
      } else {
        RecomputeAbsorbs(cfg.settings, c1, c2, Off(cfg, k), k.date, prior.row, DayLine(mid.ledger), line);
      }
    }
  }

  // Posting in two batches, at two times, leaves the days, punches, locks and totals
  // of one joint post, whenever that comes. If it comes with the second batch, the
  // summaries agree as well, except on a day that only the first batch touched and
  // that reads differently by then; never on a day that is past both times.
  lemma BatchesCompose(cfg: Config, c1: Clock, c2: Clock, c: Clock, st: Store, serial: string, a: seq<Record>, b: seq<Record>)
    ensures var dev := At(cfg, serial);
            var mid := Post(cfg, c1, st, serial, a);
            var two, one := Post(cfg, c2, mid, serial, b), Post(cfg, c, st, serial, a + b);
            && Alike(one, two) && one.logs == two.logs
            && (c == c2 ==> forall k :: k in two.days ==>
                  && (one.days[k] == two.days[k] <==> RowAgrees(dev, c1, c2, st, mid, two, k))
                  && (k.date != c1.today && k.date != c2.today ==> one.days[k] == two.days[k]))
            && (c == c1 == c2 ==> one == two)
  {
    hide UploadAll, Inserted, Alike, RowAgrees, SameReading;
    var dev := At(cfg, serial);
    var first := UploadAll(dev, c1, st, a);
    var mid := Post(cfg, c1, st, serial, a);
    UploadIgnoresLogs(dev, c2, first, mid.logs, b);
    var second := UploadAll(dev, c2, first, b);
    AlikeSelf(st);
    UploadsAlike(dev, c, c1, st, st, a);
    UploadsAlike(dev, c, c2, UploadAll(dev, c, st, a), first, b);
    UploadSplits(dev, c, st, a, b);
    var joint := UploadAll(dev, c, st, a + b);
    AlikeLogs(joint, second, Post(cfg, c, st, serial, a + b), Post(cfg, c2, mid, serial, b));
    if c == c2 {
      forall k | k in second.days
        ensures k in joint.days && (joint.days[k] == second.days[k] <==> RowAgrees(dev, c1, c2, st, first, second, k))
        ensures k.date != c1.today && k.date != c2.today ==> RowAgrees(dev, c1, c2, st, first, second, k)
        ensures c1 == c2 ==> RowAgrees(dev, c1, c2, st, first, second, k)
      {
        AlikeAt(joint, second, k);
        RowAtTwoTimes(dev, c1, c2, st, a, b, k, first, second, joint);
        if (k.date != c1.today && k.date != c2.today) || c1 == c2 {
          AgreesWhenPast(dev, c1, c2, st, a, b, first, second, k);
        }
      }
      forall k | k in second.days
        ensures RowAgrees(dev, c1, c2, st, first, second, k) <==> RowAgrees(dev, c1, c2, st, mid, Post(cfg, c2, mid, serial, b), k)
      {
        AgreesWithoutLogs(dev, c1, c2, st, first, second, mid, Post(cfg, c2, mid, serial, b), k);
      }
      AlikeKeys(joint, second);
      if c1 == c2 {
        assert joint.days == second.days;
      }
    }
  }

  lemma AlikeSelf(s: Store)
    ensures Alike(s, s)
  {
  }

  lemma AlikeKeys(s: Store, t: Store)
    requires Alike(s, t)
    ensures s.days.Keys == t.days.Keys && s.locks == t.locks
  {
  }

  lemma AlikeAt(s: Store, t: Store, k: Key)
    requires Alike(s, t) && k in t.days
    ensures k in s.days && AlikeDays(s.days[k], t.days[k])
  {
  }

  lemma AlikeLogs(s: Store, t: Store, s': Store, t': Store)
    requires Alike(s, t) && s'.days == s.days && s'.locks == s.locks && t'.days == t.days && t'.locks == t.locks
    ensures Alike(s', t')
  {
  }

  lemma AgreesWithoutLogs(cfg: Config, c1: Clock, c2: Clock, st: Store, mid: Store, two: Store, mid': Store, two': Store, k: Key)
    requires mid'.days == mid.days && two'.days == two.days && k in two.days
    ensures RowAgrees(cfg, c1, c2, st, mid, two, k) <==> RowAgrees(cfg, c1, c2, st, mid', two', k)
  {
  }

  lemma AgreesWhenPast(cfg: Config, c1: Clock, c2: Clock, st: Store, a: seq<Record>, b: seq<Record>, mid: Store, two: Store, k: Key)
    requires mid == UploadAll(cfg, c1, st, a) && two == UploadAll(cfg, c2, mid, b) && k in two.days
    requires (k.date != c1.today && k.date != c2.today) || c1 == c2
    ensures RowAgrees(cfg, c1, c2, st, mid, two, k)
  {
    hide UploadAll;
    UploadsDerive(cfg, c1, st, a, k);
    UploadsDerive(cfg, c2, mid, b, k);
    if k in mid.days && Touched(cfg, st, mid, k) && !Touched(cfg, mid, two, k) {
      ReadingExact(cfg.settings, c1, c2, Off(cfg, k), k.date, DayFor(cfg, st.days, k).row, DayLine(two.days[k].ledger));
    }
  }

  // An IN punched today and posted alone: the device's words, the employee and a
  // day without a half shift.
  ghost predicate ClocksIn(cfg: Config, serial: string, r: Record, e: EmpId, today: Date, t: Time) {
    && cfg.zones(serial)(r.time) == Some((t, today)) && cfg.resolve(r.pin) == Some(e) && e in cfg.employees
    && KindOf(r.status) == In && PlannedEnd(cfg, Key(e, today)).None?
  }

  lemma ClockedIn(cfg: Config, clk: Clock, serial: string, r: Record, e: EmpId, t: Time)
    requires ClocksIn(cfg, serial, r, e, clk.today, t) && cfg.settings.mode.AllPunches? && t <= clk.now
    ensures var days := UploadAll(At(cfg, serial), clk, Store(map[], map[], map[]), [r]).days;
            Key(e, clk.today) in days && days[Key(e, clk.today)].row.working == Minutes(clk.now - t)
  {
    var dev, s0, k, p := At(cfg, serial), Store(map[], map[], map[]), Key(e, clk.today), Stamp(t, In);
    assert [r][..0] == [] && UploadAll(dev, clk, s0, []) == s0;
    assert Wanted(dev, s0.locks, r) == Some(Upload(k, p));
    InsertionShape(dev, clk, s0, r);
    var fresh' := FreshDay(dev, k, NotMarked, false);
    assert Appended(fresh', p).ledger == [Punch(1, p, true)];
    assert [Punch(1, p, true)][..0] == [];
    assert SortedValid([Punch(1, p, true)]) == [Punch(1, p, true)];
    assert DayLine([Punch(1, p, true)]) == [p];
    assert [p][..0] == [] && Walk([p]) == Advance(Walk([]), p);
  }

  // Two posts and a joint one do differ: an IN of today, posted at once, shows the
  // minutes worked by then; posted with the second batch it shows more.
  lemma SeparatePostsDiffer(cfg: Config, c1: Clock, c2: Clock, serial: string, r: Record, e: EmpId, t: Time)
    requires ClocksIn(cfg, serial, r, e, c1.today, t) && cfg.settings.mode.AllPunches?
    requires c1.today == c2.today && t <= c1.now && c1.now + MINUTE <= c2.now
    ensures var s0, k := Store(map[], map[], map[]), Key(e, c1.today);
            var two, one := Post(cfg, c2, Post(cfg, c1, s0, serial, [r]), serial, []), Post(cfg, c2, s0, serial, [r] + []);
            k in two.days && k in one.days && two.days[k].row.working < one.days[k].row.working
  {
    hide UploadAll, ClocksIn;
    var s0 := Store(map[], map[], map[]);
    ClockedIn(cfg, c1, serial, r, e, t);
    ClockedIn(cfg, c2, serial, r, e, t);
    UploadNothing(At(cfg, serial), c2, Post(cfg, c1, s0, serial, [r]));
    assert [r] + [] == [r];
  }

  lemma UploadNothing(cfg: Config, clk: Clock, st: Store)
    ensures UploadAll(cfg, clk, st, []) == st
  {
  }
}
