// Does the order of the records of an upload matter, and exactly when.

// Order-insensitivity of uploads.
module UploadOrder {
  import opened Common
  import opened Sessions
  import opened Ledger
  import opened DayRow
  import opened Locks
  import opened AttendanceStore
  import opened UploadLaws

  datatype Mark = Mark(stamp: Stamp, valid: bool)

  // The punches of a day without their order.
  function Marks(ledger: seq<Punch>): multiset<Mark> {
    if ledger == [] then multiset{}
    else Marks(ledger[..|ledger| - 1]) + multiset{Mark(ledger[|ledger| - 1].stamp, ledger[|ledger| - 1].valid)}
  }

  lemma {:induction false} MarksHold(ledger: seq<Punch>, p: Stamp)
    ensures (exists i :: 0 <= i < |ledger| && ledger[i].stamp == p) <==> Mark(p, true) in Marks(ledger) || Mark(p, false) in Marks(ledger)
  {
    if ledger != [] {
      var front, last := ledger[..|ledger| - 1], ledger[|ledger| - 1];
      MarksHold(front, p);
      if i :| 0 <= i < |ledger| && ledger[i].stamp == p {
        if i < |front| {
          assert front[i].stamp == p;
        }
      }
      if i :| 0 <= i < |front| && front[i].stamp == p {
        assert ledger[i].stamp == p;
      }
      if last.stamp == p {
        assert ledger[|ledger| - 1].stamp == p;
      }
    }
  }

  // How closely two day lines are compared: by every type, or only by what opens
  // and what closes a session.
  datatype Grain = Types | Faces

  function Seen(g: Grain, p: Stamp): Stamp {
    if g.Types? then p else Stamp(p.time, if p.kind.Opens() then In else Out)
  }

  function Look(g: Grain, ts: seq<Stamp>): (r: seq<Stamp>)
    ensures |r| == |ts|
  {
    if ts == [] then [] else Look(g, ts[..|ts| - 1]) + [Seen(g, ts[|ts| - 1])]
  }

  lemma {:induction false} LookPlace(g: Grain, ts: seq<Stamp>, p: Stamp)
    ensures Look(g, Place(ts, p)) == Place(Look(g, ts), Seen(g, p))
  {
    if ts == [] || ts[|ts| - 1].time <= p.time {
      assert (ts + [p])[..|ts|] == ts;
    } else {
      var front, last := ts[..|ts| - 1], ts[|ts| - 1];
      LookPlace(g, front, p);
      assert (Place(front, p) + [last])[..|ts|] == Place(front, p);
      assert Look(g, ts)[..|ts| - 1] == Look(g, front);
    }
  }

  lemma {:induction false} LookWalks(g: Grain, ts: seq<Stamp>)
    ensures Walk(Look(g, ts)) == Walk(ts)
    ensures forall i :: 0 <= i < |ts| ==> Look(g, ts)[i].time == ts[i].time
  {
    if ts != [] {
      LookWalks(g, ts[..|ts| - 1]);
      assert Look(g, ts)[..|ts| - 1] == Look(g, ts[..|ts| - 1]);
    }
  }

  lemma LookEnds(g: Grain, ts: seq<Stamp>, us: seq<Stamp>)
    requires Look(g, ts) == Look(g, us)
    ensures |ts| == |us| && Walk(ts) == Walk(us)
    ensures ts != [] ==> ts[0].time == us[0].time && ts[|ts| - 1].time == us[|us| - 1].time
  {
    hide Look, Walk;
    LookWalks(g, ts);
    LookWalks(g, us);
    if ts != [] {
      assert Look(g, ts)[0].time == ts[0].time && Look(g, us)[0].time == us[0].time;
      assert Look(g, ts)[|ts| - 1].time == ts[|ts| - 1].time && Look(g, us)[|us| - 1].time == us[|us| - 1].time;
    }
  }

  // A summary depends on no more than times and faces.
  lemma LookDerives(g: Grain, cfg: Config, clk: Clock, k: Key, row: Row, ts: seq<Stamp>, us: seq<Stamp>)
    requires Look(g, ts) == Look(g, us) && Computable(row, ts) && Computable(row, us)
    ensures Derive(cfg.settings, clk, Off(cfg, k), k.date, row, ts) == Derive(cfg.settings, clk, Off(cfg, k), k.date, row, us)
  {
    hide Look, Walk, StatusOf, ShiftMinutes, Timeline.Minutes, ShiftStart, ShiftEnd, Off;
    LookEnds(g, ts, us);
    var cs, off := cfg.settings, Off(cfg, k);
    assert Totals(cs, clk, k.date, ts) == Totals(cs, clk, k.date, us);
    assert Late(cs, k.date, row.start, ts) == Late(cs, k.date, row.start, us);
  }

  lemma PlacesCommute(g: Grain, ts: seq<Stamp>, p: Stamp, q: Stamp)
    requires Chronological(ts) && (p.time != q.time || Seen(g, p) == Seen(g, q))
    ensures Look(g, Place(Place(ts, p), q)) == Look(g, Place(Place(ts, q), p))
  {
    if p.time != q.time {
      PlaceCommutes(ts, p, q);
    } else {
      LookPlace(g, ts, p);
      LookPlace(g, ts, q);
      LookPlace(g, Place(ts, p), q);
      LookPlace(g, Place(ts, q), p);
    }
  }

  // Equal summaries, day lines that look the same and the same punches up to their
  // numbering.
  ghost predicate SameDay(g: Grain, a: Day, b: Day) {
    && a.row == b.row && Look(g, DayLine(a.ledger)) == Look(g, DayLine(b.ledger)) && Marks(a.ledger) == Marks(b.ledger)
    && Numbered(a.ledger) && Numbered(b.ledger)
  }

  ghost predicate Same(g: Grain, s: Store, t: Store) {
    && s.days.Keys == t.days.Keys && s.locks == t.locks
    && forall k :: k in s.days ==> SameDay(g, s.days[k], t.days[k])
  }

  lemma SameExists(g: Grain, s: Store, t: Store, e: EmpId, p: Stamp)
    requires Same(g, s, t)
    ensures PunchExists(s.days, e, p) <==> PunchExists(t.days, e, p)
  {
    forall k | k in s.days
      ensures (exists i :: 0 <= i < |s.days[k].ledger| && s.days[k].ledger[i].stamp == p) <==>
              (exists i :: 0 <= i < |t.days[k].ledger| && t.days[k].ledger[i].stamp == p)
    {
      MarksHold(s.days[k].ledger, p);
      MarksHold(t.days[k].ledger, p);
    }
  }

  // The row and line of a day after one more valid punch.
  lemma AppendedDay(cfg: Config, clk: Clock, k: Key, day: Day, p: Stamp)
    requires Numbered(day.ledger) && Schedulable(day.row)
    ensures var line := Place(DayLine(day.ledger), p);
            var d := Recomputed(cfg, clk, k, Appended(day, p));
            && d.Some? && Computable(day.row, line)
            && d.value.row == Derive(cfg.settings, clk, Off(cfg, k), k.date, day.row, line)
            && DayLine(d.value.ledger) == line
            && Marks(d.value.ledger) == Marks(day.ledger) + multiset{Mark(p, true)}
            && Numbered(d.value.ledger)
  {
    AppendPlaces(day.ledger, p);
    assert Appended(day, p).ledger[..|day.ledger|] == day.ledger;
  }

  lemma SameDayAppends(g: Grain, cfg: Config, clk: Clock, k: Key, a: Day, b: Day, p: Stamp)
    requires SameDay(g, a, b) && Schedulable(a.row)
    ensures var d, e := Recomputed(cfg, clk, k, Appended(a, p)), Recomputed(cfg, clk, k, Appended(b, p));
            d.Some? && e.Some? && SameDay(g, d.value, e.value)
  {
    hide Recomputed, Derive, Look, Place, Marks;
    AppendedDay(cfg, clk, k, a, p);
    AppendedDay(cfg, clk, k, b, p);
    LookPlace(g, DayLine(a.ledger), p);
    LookPlace(g, DayLine(b.ledger), p);
    LookDerives(g, cfg, clk, k, a.row, Place(DayLine(a.ledger), p), Place(DayLine(b.ledger), p));
  }

  lemma SameUpdates(g: Grain, s: Store, t: Store, k: Key, d: Day, e: Day)
    requires Same(g, s, t) && SameDay(g, d, e)
    ensures Same(g, s.(days := s.days[k := d]), t.(days := t.days[k := e]))
  {
  }

  // Equivalent stores stay equivalent under the same record.
  lemma UploadRespectsSame(g: Grain, cfg: Config, clk: Clock, s: Store, t: Store, r: Record)
    requires Same(g, s, t)
    ensures Insertable(cfg, s, r) <==> Insertable(cfg, t, r)
    ensures Same(g, UploadOne(cfg, clk, s, r), UploadOne(cfg, clk, t, r))
  {
    var w := Wanted(cfg, s.locks, r);
    if w.None? {
      NotInserted(cfg, clk, s, r);
      NotInserted(cfg, clk, t, r);
      return;
    }
    var k, p := w.value.key, w.value.stamp;
    var a, b := DayFor(cfg, s.days, k), DayFor(cfg, t.days, k);
    SameExists(g, s, t, k.emp, p);
    assert SameDay(g, a, b);
    if Insertable(cfg, s, r) {
      InsertionShape(cfg, clk, s, r);
      InsertionShape(cfg, clk, t, r);
      SameDayAppends(g, cfg, clk, k, a, b, p);
      SameUpdates(g, s, t, k, Recomputed(cfg, clk, k, Appended(a, p)).value, Recomputed(cfg, clk, k, Appended(b, p)).value);
    } else {
      NotInserted(cfg, clk, s, r);
      NotInserted(cfg, clk, t, r);
    }
  }

  // Two uploads of one employee at one instant: of one day and of types that look
  // different, or of two days and of one type.
  predicate Clash(g: Grain, u: Upload, v: Upload) {
    && u.key.emp == v.key.emp && u.stamp.time == v.stamp.time
    && (if u.key == v.key then Seen(g, u.stamp) != Seen(g, v.stamp) else u.stamp == v.stamp)
  }

  // No clash between two records that are both new to the store.
  predicate Compatible(g: Grain, cfg: Config, s: Store, a: Record, b: Record) {
    Insertable(cfg, s, a) && Insertable(cfg, s, b) ==> !Clash(g, Wanted(cfg, s.locks, a).value, Wanted(cfg, s.locks, b).value)
  }

  ghost predicate NumberedStore(s: Store) {
    forall k :: k in s.days ==> Numbered(s.days[k].ledger)
  }

  lemma UploadNumbers(cfg: Config, clk: Clock, s: Store, r: Record)
    requires NumberedStore(s)
    ensures NumberedStore(UploadOne(cfg, clk, s, r))
  {
    if Insertable(cfg, s, r) {
      InsertionShape(cfg, clk, s, r);
    } else {
      NotInserted(cfg, clk, s, r);
    }
  }

  lemma SameReflexive(g: Grain, s: Store)
    requires NumberedStore(s)
    ensures Same(g, s, s)
  {
  }

  lemma OnlyNewPunch(cfg: Config, clk: Clock, s: Store, a: Record, e: EmpId, p: Stamp)
    requires Insertable(cfg, s, a)
    requires PunchExists(UploadOne(cfg, clk, s, a).days, e, p)
    ensures PunchExists(s.days, e, p) || (Wanted(cfg, s.locks, a).value.key.emp == e && Wanted(cfg, s.locks, a).value.stamp == p)
  {
    hide Recomputed, IsLocked;
    InsertionShape(cfg, clk, s, a);
    var u := Wanted(cfg, s.locks, a).value;
    var days := UploadOne(cfg, clk, s, a).days;
    var k :| k in days && k.emp == e && exists i :: 0 <= i < |days[k].ledger| && days[k].ledger[i].stamp == p;
    var i :| 0 <= i < |days[k].ledger| && days[k].ledger[i].stamp == p;
    if k in s.days && i < |s.days[k].ledger| {
      assert s.days[k].ledger[i].stamp == p;
    }
  }

  // The second of two insertable records with different punches is still
  // insertable after the first.
  lemma StillInsertable(cfg: Config, clk: Clock, s: Store, a: Record, b: Record)
    requires Insertable(cfg, s, a) && Insertable(cfg, s, b)
    requires var u, v := Wanted(cfg, s.locks, a).value, Wanted(cfg, s.locks, b).value;
             u.key.emp != v.key.emp || u.stamp != v.stamp
    ensures Insertable(cfg, UploadOne(cfg, clk, s, a), b)
  {
    var v := Wanted(cfg, s.locks, b).value;
    UploadKeepsLocks(cfg, clk, s, a);
    UploadKeepsSchedule(cfg, clk, s, a, v.key);
    if PunchExists(UploadOne(cfg, clk, s, a).days, v.key.emp, v.stamp) {
      OnlyNewPunch(cfg, clk, s, a, v.key.emp, v.stamp);
      assert false;
    }
  }

  // A day that received p and then q was computed from the line with both.
  lemma TwoAppends(cfg: Config, clk: Clock, k: Key, day: Day, p: Stamp, q: Stamp, d: Day, e: Day)
    requires Numbered(day.ledger) && Schedulable(day.row)
    requires Recomputed(cfg, clk, k, Appended(day, p)) == Some(d) && Recomputed(cfg, clk, k, Appended(d, q)) == Some(e)
    ensures var line := Place(Place(DayLine(day.ledger), p), q);
            && Computable(day.row, line)
            && e.row == Derive(cfg.settings, clk, Off(cfg, k), k.date, day.row, line)
            && DayLine(e.ledger) == line && Numbered(e.ledger)
            && Marks(e.ledger) == Marks(day.ledger) + multiset{Mark(p, true)} + multiset{Mark(q, true)}
  {
    AppendedDay(cfg, clk, k, day, p);
    AppendedDay(cfg, clk, k, d, q);
    var line := Place(DayLine(day.ledger), p);
    RecomputeAbsorbs(cfg.settings, clk, clk, Off(cfg, k), k.date, day.row, line, Place(line, q));
  }

  // Two punches of one day at different instants, or that look the same, give the
  // same day in either order.
  lemma DayCommutes(g: Grain, cfg: Config, clk: Clock, k: Key, day: Day, p: Stamp, q: Stamp, dp: Day, dpq: Day, dq: Day, dqp: Day)
    requires Numbered(day.ledger) && Schedulable(day.row) && (p.time != q.time || Seen(g, p) == Seen(g, q))
    requires Recomputed(cfg, clk, k, Appended(day, p)) == Some(dp) && Recomputed(cfg, clk, k, Appended(dp, q)) == Some(dpq)
    requires Recomputed(cfg, clk, k, Appended(day, q)) == Some(dq) && Recomputed(cfg, clk, k, Appended(dq, p)) == Some(dqp)
    ensures SameDay(g, dpq, dqp)
  {
    hide Recomputed, Derive, Look, Place, Marks, Seen;
    TwoAppends(cfg, clk, k, day, p, q, dp, dpq);
    TwoAppends(cfg, clk, k, day, q, p, dq, dqp);
    var line := DayLine(day.ledger);
    PlacesCommute(g, line, p, q);
    LookDerives(g, cfg, clk, k, day.row, Place(Place(line, p), q), Place(Place(line, q), p));
  }

  // The day an insertion writes.
  lemma InsertedDay(cfg: Config, clk: Clock, s: Store, r: Record) returns (u: Upload, d: Day)
    requires Insertable(cfg, s, r) && NumberedStore(s)
    ensures Wanted(cfg, s.locks, r) == Some(u) && Schedulable(DayFor(cfg, s.days, u.key).row) && Numbered(d.ledger)
    ensures Recomputed(cfg, clk, u.key, Appended(DayFor(cfg, s.days, u.key), u.stamp)) == Some(d)
    ensures UploadOne(cfg, clk, s, r) == s.(days := s.days[u.key := d])
  {
    InsertionShape(cfg, clk, s, r);
    u := Wanted(cfg, s.locks, r).value;
    d := Recomputed(cfg, clk, u.key, Appended(DayFor(cfg, s.days, u.key), u.stamp)).value;
  }

  // Two updates of the store in either order, given the four days they write.
  lemma UpdatesCommute(g: Grain, s: Store, k: Key, l: Key, dk: Day, dl: Day, dkl: Day, dlk: Day)
    requires NumberedStore(s)
    requires if k == l then SameDay(g, dkl, dlk) else dkl == dl && dlk == dk && Numbered(dk.ledger) && Numbered(dl.ledger)
    ensures Same(g, s.(days := s.days[k := dk][l := dkl]), s.(days := s.days[l := dl][k := dlk]))
  {
  }

  lemma BothInserted(g: Grain, cfg: Config, clk: Clock, s: Store, a: Record, b: Record)
    requires NumberedStore(s) && Compatible(g, cfg, s, a, b)
    requires Insertable(cfg, s, a) && Insertable(cfg, s, b)
    requires var u, v := Wanted(cfg, s.locks, a).value, Wanted(cfg, s.locks, b).value;
             u.key.emp != v.key.emp || u.stamp != v.stamp
    ensures Same(g, UploadOne(cfg, clk, UploadOne(cfg, clk, s, a), b), UploadOne(cfg, clk, UploadOne(cfg, clk, s, b), a))
  {
    var sa, sb := UploadOne(cfg, clk, s, a), UploadOne(cfg, clk, s, b);
    StillInsertable(cfg, clk, s, a, b);
    StillInsertable(cfg, clk, s, b, a);
    UploadNumbers(cfg, clk, s, a);
    UploadNumbers(cfg, clk, s, b);
    BothInsertedIn(g, cfg, clk, s, a, b, sa, sb, UploadOne(cfg, clk, sa, b), UploadOne(cfg, clk, sb, a));
  }

  lemma BothInsertedIn(g: Grain, cfg: Config, clk: Clock, s: Store, a: Record, b: Record, sa: Store, sb: Store, sab: Store, sba: Store)
    requires NumberedStore(s) && NumberedStore(sa) && NumberedStore(sb) && Compatible(g, cfg, s, a, b)
    requires Insertable(cfg, s, a) && Insertable(cfg, s, b) && Insertable(cfg, sa, b) && Insertable(cfg, sb, a)
    requires Wanted(cfg, s.locks, a).value.key.emp != Wanted(cfg, s.locks, b).value.key.emp
             || Wanted(cfg, s.locks, a).value.stamp != Wanted(cfg, s.locks, b).value.stamp
    requires UploadOne(cfg, clk, s, a) == sa && UploadOne(cfg, clk, s, b) == sb
    requires UploadOne(cfg, clk, sa, b) == sab && UploadOne(cfg, clk, sb, a) == sba
    ensures Same(g, sab, sba)
  {
    var u, du := InsertedDay(cfg, clk, s, a);
    var v, dv := InsertedDay(cfg, clk, s, b);
    var v', duv := InsertedDay(cfg, clk, sa, b);
    var u', dvu := InsertedDay(cfg, clk, sb, a);
    InsertedPair(g, cfg, clk, s, u, v, du, dv, duv, dvu);
  }

  lemma InsertedPair(g: Grain, cfg: Config, clk: Clock, s: Store, u: Upload, v: Upload, du: Day, dv: Day, duv: Day, dvu: Day)
    requires NumberedStore(s) && Numbered(du.ledger) && Numbered(dv.ledger)
    requires u.key == v.key ==> (u.stamp.time != v.stamp.time || Seen(g, u.stamp) == Seen(g, v.stamp)) && Schedulable(DayFor(cfg, s.days, u.key).row)
    requires Recomputed(cfg, clk, u.key, Appended(DayFor(cfg, s.days, u.key), u.stamp)) == Some(du)
    requires Recomputed(cfg, clk, v.key, Appended(DayFor(cfg, s.days, v.key), v.stamp)) == Some(dv)
    requires Recomputed(cfg, clk, v.key, Appended(DayFor(cfg, s.days[u.key := du], v.key), v.stamp)) == Some(duv)
    requires Recomputed(cfg, clk, u.key, Appended(DayFor(cfg, s.days[v.key := dv], u.key), u.stamp)) == Some(dvu)
    ensures Same(g, s.(days := s.days[u.key := du][v.key := duv]), s.(days := s.days[v.key := dv][u.key := dvu]))
  {
    if u.key == v.key {
      DayCommutes(g, cfg, clk, u.key, DayFor(cfg, s.days, u.key), u.stamp, v.stamp, du, duv, dv, dvu);
    }
    UpdatesCommute(g, s, u.key, v.key, du, dv, duv, dvu);
  }

  function Count(b: bool): nat {
    if b then 1 else 0
  }

  // Adjacent records can be swapped.
  lemma SwapAdjacent(g: Grain, cfg: Config, clk: Clock, s: Store, a: Record, b: Record)
    requires NumberedStore(s) && Compatible(g, cfg, s, a, b)
    ensures var sa, sb := UploadOne(cfg, clk, s, a), UploadOne(cfg, clk, s, b);
            && Same(g, UploadOne(cfg, clk, sa, b), UploadOne(cfg, clk, sb, a))
            && Count(Insertable(cfg, s, a)) + Count(Insertable(cfg, sa, b)) == Count(Insertable(cfg, s, b)) + Count(Insertable(cfg, sb, a))
  {
    var sa, sb := UploadOne(cfg, clk, s, a), UploadOne(cfg, clk, s, b);
    UploadNumbers(cfg, clk, s, a);
    UploadNumbers(cfg, clk, s, b);
    SameReflexive(g, sa);
    SameReflexive(g, sb);
    if !Insertable(cfg, s, a) {
      NotInserted(cfg, clk, s, a);
      SkippedStays(cfg, clk, s, a, b);
      NotInserted(cfg, clk, sb, a);
    } else if !Insertable(cfg, s, b) {
      NotInserted(cfg, clk, s, b);
      SkippedStays(cfg, clk, s, b, a);
      NotInserted(cfg, clk, sa, b);
    } else {
      var u, v := Wanted(cfg, s.locks, a).value, Wanted(cfg, s.locks, b).value;
      if u.key.emp == v.key.emp && u.stamp == v.stamp {
        InsertionShape(cfg, clk, s, a);
        InsertionShape(cfg, clk, s, b);
        InsertedOnce(cfg, clk, s, a);
        InsertedOnce(cfg, clk, s, b);
        assert sa == sb;
        assert Insertable(cfg, sa, a) <==> Insertable(cfg, sa, b);
        NotInserted(cfg, clk, sa, b);
        NotInserted(cfg, clk, sb, a);
      } else {
        StillInsertable(cfg, clk, s, a, b);
        StillInsertable(cfg, clk, s, b, a);
        BothInserted(g, cfg, clk, s, a, b);
      }
    }
  }

  lemma {:induction false} UploadsNumber(cfg: Config, clk: Clock, s: Store, rs: seq<Record>)
    requires NumberedStore(s)
    ensures NumberedStore(UploadAll(cfg, clk, s, rs)) && UploadAll(cfg, clk, s, rs).locks == s.locks
  {
    if rs != [] {
      UploadsNumber(cfg, clk, s, rs[..|rs| - 1]);
      UploadNumbers(cfg, clk, UploadAll(cfg, clk, s, rs[..|rs| - 1]), rs[|rs| - 1]);
    }
  }

  lemma UploadSnoc(cfg: Config, clk: Clock, s: Store, rs: seq<Record>, r: Record)
    ensures UploadAll(cfg, clk, s, rs + [r]) == UploadOne(cfg, clk, UploadAll(cfg, clk, s, rs), r)
    ensures Inserted(cfg, clk, s, rs + [r]) == Inserted(cfg, clk, s, rs) + Count(Insertable(cfg, UploadAll(cfg, clk, s, rs), r))
  {
    assert (rs + [r])[..|rs|] == rs;
    InsertableExact(cfg, clk, UploadAll(cfg, clk, s, rs), r);
  }

  lemma SameTransitive(g: Grain, s: Store, t: Store, u: Store)
    requires Same(g, s, t) && Same(g, t, u)
    ensures Same(g, s, u)
  {
  }

  ghost predicate AllCompatible(g: Grain, cfg: Config, s: Store, rs: seq<Record>) {
    forall a, b :: a in rs && b in rs ==> Compatible(g, cfg, s, a, b)
  }

  lemma {:induction false} NeverInserted(cfg: Config, clk: Clock, s: Store, rs: seq<Record>, r: Record)
    requires !Insertable(cfg, s, r)
    ensures !Insertable(cfg, UploadAll(cfg, clk, s, rs), r)
  {
    hide Insertable, UploadOne;
    if rs != [] {
      NeverInserted(cfg, clk, s, rs[..|rs| - 1], r);
      SkippedStays(cfg, clk, UploadAll(cfg, clk, s, rs[..|rs| - 1]), r, rs[|rs| - 1]);
    }
  }

  // Compatible records stay so while others are uploaded.
  lemma StaysCompatible(g: Grain, cfg: Config, clk: Clock, s: Store, rs: seq<Record>, a: Record, b: Record)
    requires Compatible(g, cfg, s, a, b) && UploadAll(cfg, clk, s, rs).locks == s.locks
    ensures Compatible(g, cfg, UploadAll(cfg, clk, s, rs), a, b)
  {
    hide Insertable, UploadAll, Wanted;
    if !Insertable(cfg, s, a) {
      NeverInserted(cfg, clk, s, rs, a);
    }
    if !Insertable(cfg, s, b) {
      NeverInserted(cfg, clk, s, rs, b);
    }
  }

  // Record i can be uploaded last.
  lemma {:induction false} MoveLast(g: Grain, cfg: Config, clk: Clock, s: Store, q: seq<Record>, i: nat)
    requires NumberedStore(s) && i < |q| && AllCompatible(g, cfg, s, q)
    ensures var q' := q[..i] + q[i + 1..] + [q[i]];
            Same(g, UploadAll(cfg, clk, s, q), UploadAll(cfg, clk, s, q')) && Inserted(cfg, clk, s, q) == Inserted(cfg, clk, s, q')
  {
    hide UploadAll, UploadOne, Inserted, Compatible, Insertable, Same, NumberedStore;
    var x, n := q[i], |q| - 1;
    UploadsNumber(cfg, clk, s, q);
    if i == n {
      assert q[..i] + q[i + 1..] + [x] == q;
      SameReflexive(g, UploadAll(cfg, clk, s, q));
    } else {
      var q0, y := q[..n], q[n];
      var rest := q0[..i] + q0[i + 1..];
      MoveLast(g, cfg, clk, s, q0, i);
      assert q == q0 + [y];
      assert q[..i] + q[i + 1..] + [x] == rest + [y] + [x];
      var base := UploadAll(cfg, clk, s, rest);
      UploadSnoc(cfg, clk, s, q0, y);
      UploadSnoc(cfg, clk, s, rest, x);
      UploadSnoc(cfg, clk, s, rest, y);
      UploadSnoc(cfg, clk, s, rest + [y], x);
      UploadRespectsSame(g, cfg, clk, UploadAll(cfg, clk, s, q0), UploadAll(cfg, clk, s, rest + [x]), y);
      UploadsNumber(cfg, clk, s, rest);
      assert x in q && y in q;
      StaysCompatible(g, cfg, clk, s, rest, x, y);
      SwapAdjacent(g, cfg, clk, base, x, y);
      SameTransitive(g, UploadAll(cfg, clk, s, q), UploadOne(cfg, clk, UploadOne(cfg, clk, base, x), y),
                     UploadAll(cfg, clk, s, rest + [y] + [x]));
    }
  }

  lemma FindInPermutation(front: seq<Record>, x: Record, q: seq<Record>) returns (i: nat)
    requires multiset(front + [x]) == multiset(q)
    ensures i < |q| && q[i] == x && multiset(front) == multiset(q[..i] + q[i + 1..])
  {
    assert x in multiset(q);
    i :| 0 <= i < |q| && q[i] == x;
    assert q == q[..i] + [x] + q[i + 1..];
    assert multiset(q) == multiset(q[..i]) + multiset{x} + multiset(q[i + 1..]);
    assert multiset(q[..i] + q[i + 1..]) == multiset(q) - multiset{x};
    assert multiset(front) == multiset(front + [x]) - multiset{x};
  }

  lemma {:induction false} Permuted(g: Grain, cfg: Config, clk: Clock, s: Store, p: seq<Record>, q: seq<Record>)
    requires NumberedStore(s) && multiset(p) == multiset(q) && AllCompatible(g, cfg, s, q)
    ensures Same(g, UploadAll(cfg, clk, s, p), UploadAll(cfg, clk, s, q)) && Inserted(cfg, clk, s, p) == Inserted(cfg, clk, s, q)
    decreases |p|
  {
    assert |p| == |multiset(p)| == |multiset(q)| == |q|;
    if p == [] {
      SameReflexive(g, s);
    } else {
      var front, x := p[..|p| - 1], p[|p| - 1];
      assert p == front + [x];
      var i := FindInPermutation(front, x, q);
      var rest := q[..i] + q[i + 1..];
      MoveLast(g, cfg, clk, s, q, i);
      assert forall r :: r in rest ==> r in q;
      Permuted(g, cfg, clk, s, front, rest);
      PermutedStep(g, cfg, clk, s, front, rest, x, q);
    }
  }

  lemma PermutedStep(g: Grain, cfg: Config, clk: Clock, s: Store, front: seq<Record>, rest: seq<Record>, x: Record, q: seq<Record>)
    requires Same(g, UploadAll(cfg, clk, s, front), UploadAll(cfg, clk, s, rest))
    requires Inserted(cfg, clk, s, front) == Inserted(cfg, clk, s, rest)
    requires Same(g, UploadAll(cfg, clk, s, q), UploadAll(cfg, clk, s, rest + [x]))
    requires Inserted(cfg, clk, s, q) == Inserted(cfg, clk, s, rest + [x])
    ensures Same(g, UploadAll(cfg, clk, s, front + [x]), UploadAll(cfg, clk, s, q))
    ensures Inserted(cfg, clk, s, front + [x]) == Inserted(cfg, clk, s, q)
  {
    UploadSnoc(cfg, clk, s, front, x);
    UploadSnoc(cfg, clk, s, rest, x);
    UploadRespectsSame(g, cfg, clk, UploadAll(cfg, clk, s, front), UploadAll(cfg, clk, s, rest), x);
    SameSymmetric(g, UploadAll(cfg, clk, s, q), UploadAll(cfg, clk, s, rest + [x]));
    SameTransitive(g, UploadAll(cfg, clk, s, front + [x]), UploadAll(cfg, clk, s, rest + [x]), UploadAll(cfg, clk, s, q));
  }

  lemma SameSymmetric(g: Grain, s: Store, t: Store)
    requires Same(g, s, t)
    ensures Same(g, t, s)
  {
  }

  // If no two new records of the payload clash, any order of it gives every day the
  // same summary, look of the day line and punches up to numbering, and the device
  // the same total. At the grain of faces an IN and a BREAK_IN at one instant do not
  // clash, nor do an OUT and a BREAK_OUT: no summary shows their order.
  lemma OrderDoesNotMatter(g: Grain, cfg: Config, clk: Clock, st: Store, serial: string, p: seq<Record>, q: seq<Record>)
    requires NumberedStore(st) && multiset(p) == multiset(q) && AllCompatible(g, At(cfg, serial), st, p)
    ensures var s, t := Post(cfg, clk, st, serial, p), Post(cfg, clk, st, serial, q);
            Same(g, s, t) && s.logs == t.logs
  {
    hide Compatible, UploadAll, Inserted;
    var dev := At(cfg, serial);
    forall a, b | a in q && b in q
      ensures Compatible(g, dev, st, a, b)
    {
      assert a in multiset(p) && b in multiset(p);
    }
    Permuted(g, dev, clk, st, p, q);
    SameLogs(g, UploadAll(dev, clk, st, p), UploadAll(dev, clk, st, q), Post(cfg, clk, st, serial, p), Post(cfg, clk, st, serial, q));
  }

  lemma SameLogs(g: Grain, s: Store, t: Store, s': Store, t': Store)
    requires s'.days == s.days && s'.locks == s.locks && t'.days == t.days && t'.locks == t.locks
    ensures Same(g, s, t) <==> Same(g, s', t')
  {
  }
}

// Exactly when the order of an upload matters.
module UploadTies {
  import opened Common
  import opened Timeline
  import opened Sessions
  import opened Ledger
  import opened DayRow
  import opened AttendanceStore
  import opened UploadLaws
  import opened UploadOrder

  // --- A tie keeps the order in which it was recorded ---

  // What a line shows at one instant, in order.
  function Ties(ts: seq<Stamp>, t: Time): seq<Stamp> {
    if ts == [] then []
    else Ties(ts[..|ts| - 1], t) + (if ts[|ts| - 1].time == t then [ts[|ts| - 1]] else [])
  }

  lemma {:induction false} TiesPlace(ts: seq<Stamp>, r: Stamp, t: Time)
    ensures Ties(Place(ts, r), t) == if r.time == t then Ties(ts, t) + [r] else Ties(ts, t)
  {
    if ts == [] || ts[|ts| - 1].time <= r.time {
      assert (ts + [r])[..|ts|] == ts;
    } else {
      TiesPlace(ts[..|ts| - 1], r, t);
      var front, last := Place(ts[..|ts| - 1], r), ts[|ts| - 1];
      assert (front + [last])[..|front|] == front;
    }
  }

  function TiesOn(g: Grain, s: Store, k: Key, t: Time): seq<Stamp> {
    if k in s.days then Ties(Look(g, DayLine(s.days[k].ledger)), t) else []
  }

  // An inserted punch comes after what its day showed at its instant; nothing else
  // changes there.
  lemma TiesGrowOne(g: Grain, cfg: Config, clk: Clock, s: Store, r: Record, k: Key, t: Time)
    requires NumberedStore(s)
    ensures var w := Wanted(cfg, s.locks, r);
            TiesOn(g, UploadOne(cfg, clk, s, r), k, t)
            == TiesOn(g, s, k, t) + (if Insertable(cfg, s, r) && w.value.key == k && w.value.stamp.time == t then [Seen(g, w.value.stamp)] else [])
  {
    hide UploadOne, Recomputed, Wanted, Ties, Look, PunchExists;
    if Insertable(cfg, s, r) {
      InsertionShape(cfg, clk, s, r);
      var u := Wanted(cfg, s.locks, r).value;
      if u.key == k {
        var day := DayFor(cfg, s.days, k);
        AppendPlaces(day.ledger, u.stamp);
        LookPlace(g, DayLine(day.ledger), u.stamp);
        TiesPlace(Look(g, DayLine(day.ledger)), Seen(g, u.stamp), t);
        NothingShown(g, cfg, s, k, t);
      }
    } else {
      NotInserted(cfg, clk, s, r);
    }
  }

  lemma NothingShown(g: Grain, cfg: Config, s: Store, k: Key, t: Time)
    ensures TiesOn(g, s, k, t) == Ties(Look(g, DayLine(DayFor(cfg, s.days, k).ledger)), t)
  {
  }

  lemma {:induction false} TiesGrow(g: Grain, cfg: Config, clk: Clock, s: Store, rs: seq<Record>, k: Key, t: Time)
    requires NumberedStore(s)
    ensures TiesOn(g, s, k, t) <= TiesOn(g, UploadAll(cfg, clk, s, rs), k, t)
  {
    hide UploadOne, TiesOn, NumberedStore, Insertable, Wanted;
    if rs != [] {
      TiesGrow(g, cfg, clk, s, rs[..|rs| - 1], k, t);
      UploadsNumber(cfg, clk, s, rs[..|rs| - 1]);
      TiesGrowOne(g, cfg, clk, UploadAll(cfg, clk, s, rs[..|rs| - 1]), rs[|rs| - 1], k, t);
    }
  }

  // --- A clash makes two orders differ ---

  lemma {:induction false} TwoFirst(cfg: Config, clk: Clock, s: Store, a: Record, b: Record, rest: seq<Record>)
    ensures UploadAll(cfg, clk, s, [a, b] + rest) == UploadAll(cfg, clk, UploadOne(cfg, clk, UploadOne(cfg, clk, s, a), b), rest)
  {
    hide UploadOne;
    UploadSplits(cfg, clk, s, [a, b], rest);
    assert [a, b][..1] == [a] && [a][..0] == [];
    assert UploadAll(cfg, clk, s, [a]) == UploadOne(cfg, clk, UploadAll(cfg, clk, s, []), a);
  }

  // Two records of one day and instant: the line shows them as they came.
  lemma TieRecorded(g: Grain, cfg: Config, clk: Clock, s: Store, a: Record, b: Record, rest: seq<Record>)
    requires NumberedStore(s) && Insertable(cfg, s, a) && Insertable(cfg, s, b)
    requires var u, v := Wanted(cfg, s.locks, a).value, Wanted(cfg, s.locks, b).value;
             u.key == v.key && u.stamp.time == v.stamp.time && u.stamp != v.stamp
    ensures var u, v := Wanted(cfg, s.locks, a).value, Wanted(cfg, s.locks, b).value;
            TiesOn(g, s, u.key, u.stamp.time) + [Seen(g, u.stamp), Seen(g, v.stamp)]
            <= TiesOn(g, UploadAll(cfg, clk, s, [a, b] + rest), u.key, u.stamp.time)
  {
    hide UploadAll, UploadOne, Wanted, NumberedStore, PunchExists, TiesOn;
    var u, v := Wanted(cfg, s.locks, a).value, Wanted(cfg, s.locks, b).value;
    var sa := UploadOne(cfg, clk, s, a);
    UploadNumbers(cfg, clk, s, a);
    UploadNumbers(cfg, clk, sa, b);
    UploadKeepsLocks(cfg, clk, s, a);
    StillInsertable(cfg, clk, s, a, b);
    TwoFirst(cfg, clk, s, a, b, rest);
    TiesGrowOne(g, cfg, clk, s, a, u.key, u.stamp.time);
    TiesGrowOne(g, cfg, clk, sa, b, u.key, u.stamp.time);
    TiesGrow(g, cfg, clk, UploadOne(cfg, clk, sa, b), rest, u.key, u.stamp.time);
  }

  lemma TypesClash(g: Grain, cfg: Config, clk: Clock, s: Store, a: Record, b: Record, rest: seq<Record>)
    requires NumberedStore(s) && Insertable(cfg, s, a) && Insertable(cfg, s, b)
    requires var u, v := Wanted(cfg, s.locks, a).value, Wanted(cfg, s.locks, b).value;
             u.key == v.key && u.stamp.time == v.stamp.time && Seen(g, u.stamp) != Seen(g, v.stamp)
    ensures !Same(g, UploadAll(cfg, clk, s, [a, b] + rest), UploadAll(cfg, clk, s, [b, a] + rest))
  {
    hide UploadAll, Wanted, NumberedStore, PunchExists, TiesOn;
    var u, v := Wanted(cfg, s.locks, a).value, Wanted(cfg, s.locks, b).value;
    TieRecorded(g, cfg, clk, s, a, b, rest);
    TieRecorded(g, cfg, clk, s, b, a, rest);
    var before, p, q := TiesOn(g, s, u.key, u.stamp.time), Seen(g, u.stamp), Seen(g, v.stamp);
    var x, y := UploadAll(cfg, clk, s, [a, b] + rest), UploadAll(cfg, clk, s, [b, a] + rest);
    assert (before + [p, q])[|before|] == p && (before + [q, p])[|before|] == q;
    if Same(g, x, y) {
      SameTies(g, x, y, u.key, u.stamp.time);
    }
  }

  lemma SameTies(g: Grain, s: Store, t: Store, k: Key, time: Time)
    requires Same(g, s, t)
    ensures TiesOn(g, s, k, time) == TiesOn(g, t, k, time)
  {
  }

  // One stamp for two days: the first record wins, and the punch is on its day only.
  lemma DaysClash(g: Grain, cfg: Config, clk: Clock, s: Store, a: Record, b: Record, rest: seq<Record>)
    requires NumberedStore(s) && Insertable(cfg, s, a) && Insertable(cfg, s, b)
    requires var u, v := Wanted(cfg, s.locks, a).value, Wanted(cfg, s.locks, b).value;
             u.key.emp == v.key.emp && u.key != v.key && u.stamp == v.stamp
    ensures !Same(g, UploadAll(cfg, clk, s, [a, b] + rest), UploadAll(cfg, clk, s, [b, a] + rest))
  {
    hide UploadAll, Wanted, PunchExists, Copies, Same;
    var u, v := Wanted(cfg, s.locks, a).value, Wanted(cfg, s.locks, b).value;
    var x := FirstKeeps(cfg, clk, s, a, b, rest);
    var y := FirstKeeps(cfg, clk, s, b, a, rest);
    NoNewDuplicates(cfg, clk, s, [a, b] + rest, u.key.emp, u.stamp);
    NewMeansNoCopy(cfg, s, a);
    var after, other := UploadAll(cfg, clk, s, [a, b] + rest), UploadAll(cfg, clk, s, [b, a] + rest);
    if Same(g, after, other) {
      CopyInSame(g, after, other, v.key, v.stamp, y);
      TwoCopies(after.days, u.key, x, v.key, u.stamp);
    }
  }

  lemma NewMeansNoCopy(cfg: Config, s: Store, a: Record)
    requires Insertable(cfg, s, a)
    ensures var u := Wanted(cfg, s.locks, a).value; Copies(s.days, u.key.emp, u.stamp) == {}
  {
    var u := Wanted(cfg, s.locks, a).value;
    CopiesExist(s.days, u.key.emp, u.stamp);
  }

  // Where the first of the records lands and stays.
  lemma FirstKeeps(cfg: Config, clk: Clock, s: Store, a: Record, b: Record, rest: seq<Record>) returns (i: nat)
    requires Insertable(cfg, s, a)
    ensures var u, t := Wanted(cfg, s.locks, a).value, UploadAll(cfg, clk, s, [a, b] + rest);
            u.key in t.days && i < |t.days[u.key].ledger| && t.days[u.key].ledger[i].stamp == u.stamp
  {
    hide UploadAll, UploadOne, Wanted, PunchExists, Recomputed;
    var u := Wanted(cfg, s.locks, a).value;
    InsertionShape(cfg, clk, s, a);
    var sa := UploadOne(cfg, clk, s, a);
    i := |DayFor(cfg, s.days, u.key).ledger|;
    UploadSplits(cfg, clk, s, [a], [b] + rest);
    assert [a] + ([b] + rest) == [a, b] + rest;
    OneFirst(cfg, clk, s, a);
    LedgersGrow(cfg, clk, sa, [b] + rest, u.key);
  }

  lemma OneFirst(cfg: Config, clk: Clock, s: Store, a: Record)
    ensures UploadAll(cfg, clk, s, [a]) == UploadOne(cfg, clk, s, a)
  {
    hide UploadOne;
    assert [a][..0] == [] && UploadAll(cfg, clk, s, []) == s;
  }

  lemma {:induction false} LedgersGrow(cfg: Config, clk: Clock, s: Store, rs: seq<Record>, k: Key)
    requires k in s.days
    ensures var t := UploadAll(cfg, clk, s, rs); k in t.days && s.days[k].ledger <= t.days[k].ledger
  {
    hide UploadOne, Recomputed;
    if rs != [] {
      var mid, last := UploadAll(cfg, clk, s, rs[..|rs| - 1]), rs[|rs| - 1];
      LedgersGrow(cfg, clk, s, rs[..|rs| - 1], k);
      if Insertable(cfg, mid, last) {
        InsertionShape(cfg, clk, mid, last);
      } else {
        NotInserted(cfg, clk, mid, last);
      }
    }
  }

  lemma CopyInSame(g: Grain, s: Store, t: Store, k: Key, p: Stamp, i: nat)
    requires Same(g, s, t) && k in t.days && i < |t.days[k].ledger| && t.days[k].ledger[i].stamp == p
    ensures k in s.days && exists j :: 0 <= j < |s.days[k].ledger| && s.days[k].ledger[j].stamp == p
  {
    MarksHold(s.days[k].ledger, p);
    MarksHold(t.days[k].ledger, p);
  }

  lemma TwoCopies(days: Days, k: Key, i: nat, l: Key, p: Stamp)
    requires k.emp == l.emp && k != l && k in days && l in days
    requires i < |days[k].ledger| && days[k].ledger[i].stamp == p
    requires exists j :: 0 <= j < |days[l].ledger| && days[l].ledger[j].stamp == p
    ensures |Copies(days, k.emp, p)| > 1
  {
    var j :| 0 <= j < |days[l].ledger| && days[l].ledger[j].stamp == p;
    var two := {(k, i as int), (l, j)};
    assert two <= Copies(days, k.emp, p) && |two| == 2;
    Subset(two, Copies(days, k.emp, p));
  }

  lemma Subset<T>(a: set<T>, b: set<T>)
    requires a <= b
    ensures |a| <= |b|
  {
    assert b == a + (b - a);
  }

  lemma ClashMatters(g: Grain, cfg: Config, clk: Clock, s: Store, a: Record, b: Record, rest: seq<Record>)
    requires NumberedStore(s) && !Compatible(g, cfg, s, a, b)
    ensures !Same(g, UploadAll(cfg, clk, s, [a, b] + rest), UploadAll(cfg, clk, s, [b, a] + rest))
  {
    hide UploadAll, Wanted, PunchExists, Same, NumberedStore;
    var u, v := Wanted(cfg, s.locks, a).value, Wanted(cfg, s.locks, b).value;
    if u.key == v.key {
      TypesClash(g, cfg, clk, s, a, b, rest);
    } else {
      DaysClash(g, cfg, clk, s, a, b, rest);
    }
  }

  // --- The exact condition ---

  ghost predicate AllOrdersAgree(g: Grain, cfg: Config, clk: Clock, st: Store, serial: string, rs: seq<Record>) {
    forall q :: multiset(q) == multiset(rs) ==>
      Same(g, Post(cfg, clk, st, serial, rs), Post(cfg, clk, st, serial, q))
      && Post(cfg, clk, st, serial, rs).logs == Post(cfg, clk, st, serial, q).logs
  }

  // All orders of a payload give the same days and total, at either grain, exactly
  // when no two of its new records are of one employee and one instant and look
  // different on one day, or ask for one punch on two days.
  lemma OrderMattersExactly(g: Grain, cfg: Config, clk: Clock, st: Store, serial: string, rs: seq<Record>)
    requires NumberedStore(st)
    ensures AllOrdersAgree(g, cfg, clk, st, serial, rs) <==> AllCompatible(g, At(cfg, serial), st, rs)
  {
    hide Post, Same, Compatible, NumberedStore;
    if AllCompatible(g, At(cfg, serial), st, rs) {
      forall q | multiset(q) == multiset(rs)
        ensures Same(g, Post(cfg, clk, st, serial, rs), Post(cfg, clk, st, serial, q))
        ensures Post(cfg, clk, st, serial, rs).logs == Post(cfg, clk, st, serial, q).logs
      {
        OrderDoesNotMatter(g, cfg, clk, st, serial, rs, q);
      }
    } else {
      var a, b :| a in rs && b in rs && !Compatible(g, At(cfg, serial), st, a, b);
      TwoOrdersDiffer(g, cfg, clk, st, serial, rs, a, b);
    }
  }

  lemma TwoOrdersDiffer(g: Grain, cfg: Config, clk: Clock, st: Store, serial: string, rs: seq<Record>, a: Record, b: Record)
    requires NumberedStore(st) && a in rs && b in rs && !Compatible(g, At(cfg, serial), st, a, b)
    ensures !AllOrdersAgree(g, cfg, clk, st, serial, rs)
  {
    hide UploadAll, Inserted, Insertable, Wanted;
    assert a != b;
    var rest := WithoutTwo(rs, a, b);
    var p, q := [a, b] + rest, [b, a] + rest;
    assert multiset(p) == multiset(rs) && multiset(q) == multiset(rs);
    var dev := At(cfg, serial);
    ClashMatters(g, dev, clk, st, a, b, rest);
    PostsDiffer(g, cfg, clk, st, serial, p, q);
    if AllOrdersAgree(g, cfg, clk, st, serial, rs) {
      SameSymmetric(g, Post(cfg, clk, st, serial, rs), Post(cfg, clk, st, serial, p));
      SameTransitive(g, Post(cfg, clk, st, serial, p), Post(cfg, clk, st, serial, rs), Post(cfg, clk, st, serial, q));
    }
  }

  lemma PostsDiffer(g: Grain, cfg: Config, clk: Clock, st: Store, serial: string, p: seq<Record>, q: seq<Record>)
    requires !Same(g, UploadAll(At(cfg, serial), clk, st, p), UploadAll(At(cfg, serial), clk, st, q))
    ensures !Same(g, Post(cfg, clk, st, serial, p), Post(cfg, clk, st, serial, q))
  {
    hide UploadAll, Inserted, Same;
    SameLogs(g, UploadAll(At(cfg, serial), clk, st, p), UploadAll(At(cfg, serial), clk, st, q),
             Post(cfg, clk, st, serial, p), Post(cfg, clk, st, serial, q));
  }

  lemma WithoutTwo<T>(rs: seq<T>, a: T, b: T) returns (rest: seq<T>)
    requires a in rs && b in rs && a != b
    ensures multiset([a, b] + rest) == multiset(rs) && multiset([b, a] + rest) == multiset(rs)
  {
    var once := WithoutOne(rs, a);
    assert b in multiset([a] + once);
    rest := WithoutOne(once, b);
    assert [a, b] + rest == [a] + ([b] + rest);
    assert multiset([b, a] + rest) == multiset([b]) + multiset([a]) + multiset(rest);
  }

  lemma WithoutOne<T>(rs: seq<T>, a: T) returns (rest: seq<T>)
    requires a in rs
    ensures multiset([a] + rest) == multiset(rs)
  {
    var i :| 0 <= i < |rs| && rs[i] == a;
    rest := rs[..i] + rs[i + 1..];
    assert rs == rs[..i] + [a] + rs[i + 1..];
  }

  // --- An upload whose order matters ---

  // The device's words ask for this punch of this day.
  ghost predicate Asks(cfg: Config, serial: string, r: Record, k: Key, p: Stamp) {
    && cfg.zones(serial)(r.time) == Some((p.time, k.date)) && KindOf(r.status) == p.kind
    && cfg.resolve(r.pin) == Some(k.emp) && k.emp in cfg.employees
  }

  lemma AskedWanted(cfg: Config, serial: string, r: Record, k: Key, p: Stamp)
    requires Asks(cfg, serial, r, k, p)
    ensures Wanted(At(cfg, serial), map[], r) == Some(Upload(k, p))
  {
  }

  // A store whose only day is k.
  ghost predicate OnlyDay(cfg: Config, s: Store, k: Key, ledger: seq<Punch>) {
    && s.locks == map[] && s.days.Keys == (if ledger == [] then {} else {k})
    && (ledger != [] ==> s.days[k].ledger == ledger && s.days[k].row.end.None?)
  }

  lemma AskedInserts(cfg: Config, serial: string, clk: Clock, s: Store, r: Record, k: Key, p: Stamp, ledger: seq<Punch>)
    requires Asks(cfg, serial, r, k, p) && PlannedEnd(cfg, k).None? && OnlyDay(cfg, s, k, ledger)
    requires forall i :: 0 <= i < |ledger| ==> ledger[i].stamp != p
    ensures OnlyDay(cfg, UploadOne(At(cfg, serial), clk, s, r), k, ledger + [Punch(|ledger| + 1, p, true)])
  {
    hide UploadOne, Recomputed, Asks, Wanted;
    AskedWanted(cfg, serial, r, k, p);
    assert !PunchExists(s.days, k.emp, p);
    InsertionShape(At(cfg, serial), clk, s, r);
  }

  // Three records of one day from an empty store: its summary is that of the
  // punches placed one after the other.
  lemma ThreeRecords(cfg: Config, serial: string, clk: Clock, k: Key, r1: Record, r2: Record, r3: Record, p1: Stamp, p2: Stamp, p3: Stamp)
    requires Asks(cfg, serial, r1, k, p1) && Asks(cfg, serial, r2, k, p2) && Asks(cfg, serial, r3, k, p3)
    requires PlannedEnd(cfg, k).None? && p1 != p2 && p1 != p3 && p2 != p3
    ensures var t := UploadAll(At(cfg, serial), clk, Store(map[], map[], map[]), [r1, r2, r3]);
            k in t.days && t.days[k].row.working == Totals(cfg.settings, clk, k.date, Place(Place(Place([], p1), p2), p3)).0
  {
    hide UploadOne, Asks, Totals, OnlyDay;
    var dev, s0 := At(cfg, serial), Store(map[], map[], map[]);
    EmptyHasNoDay(cfg, s0, k);
    var l1 := [Punch(1, p1, true)];
    var l2 := l1 + [Punch(2, p2, true)];
    var s1 := UploadOne(dev, clk, s0, r1);
    AskedInserts(cfg, serial, clk, s0, r1, k, p1, []);
    assert [] + [Punch(1, p1, true)] == l1;
    var s2 := UploadOne(dev, clk, s1, r2);
    AskedInserts(cfg, serial, clk, s1, r2, k, p2, l1);
    AskedInserts(cfg, serial, clk, s2, r3, k, p3, l2);
    assert [r1, r2, r3] == [r1, r2] + [r3];
    TwoFirst(dev, clk, s0, r1, r2, [r3]);
    OneFirst(dev, clk, s2, r3);
    var t := UploadOne(dev, clk, s2, r3);
    OnlyDayLine(cfg, t, k, p1, p2, p3);
    UploadsDerive(dev, clk, s0, [r1, r2, r3], k);
    WorkedOf(dev, clk, k, DayFor(dev, s0.days, k), t.days[k]);
  }

  lemma EmptyHasNoDay(cfg: Config, s: Store, k: Key)
    requires s.days == map[] && s.locks == map[]
    ensures OnlyDay(cfg, s, k, [])
  {
  }

  lemma OnlyDayLine(cfg: Config, t: Store, k: Key, p1: Stamp, p2: Stamp, p3: Stamp)
    requires OnlyDay(cfg, t, k, [Punch(1, p1, true)] + [Punch(2, p2, true)] + [Punch(3, p3, true)])
    ensures k in t.days && |t.days[k].ledger| == 3 && DayLine(t.days[k].ledger) == Place(Place(Place([], p1), p2), p3)
  {
    assert [] + [Punch(1, p1, true)] == [Punch(1, p1, true)];
    AppendPlaces([], p1);
    AppendPlaces([Punch(1, p1, true)], p2);
    AppendPlaces([Punch(1, p1, true)] + [Punch(2, p2, true)], p3);
    assert DayLine([]) == [];
  }

  lemma WorkedOf(cfg: Config, clk: Clock, k: Key, prior: Day, day: Day)
    requires Derived(cfg, clk, k, prior, day) && |day.ledger| > |prior.ledger|
    ensures day.row.working == Totals(cfg.settings, clk, k.date, DayLine(day.ledger)).0
  {
  }

  // An IN and an OUT at one instant, and an OUT an hour later, of a past day: posted
  // with the IN first they make no work, with the OUT first an hour.
  lemma TieOrderMatters(cfg: Config, serial: string, clk: Clock, k: Key, t: Time, i: Record, o: Record, later: Record)
    requires Asks(cfg, serial, i, k, Stamp(t, In)) && Asks(cfg, serial, o, k, Stamp(t, Out))
    requires Asks(cfg, serial, later, k, Stamp(t + 60 * MINUTE, Out))
    requires PlannedEnd(cfg, k).None? && cfg.settings.mode.AllPunches? && k.date < clk.today
    ensures var s0 := Store(map[], map[], map[]);
            var x, y := Post(cfg, clk, s0, serial, [i, o, later]), Post(cfg, clk, s0, serial, [o, i, later]);
            k in x.days && k in y.days && x.days[k].row.working == 0 && y.days[k].row.working == 60
  {
    hide UploadAll, Inserted, Asks;
    var p, q, r := Stamp(t, In), Stamp(t, Out), Stamp(t + 60 * MINUTE, Out);
    ThreeRecords(cfg, serial, clk, k, i, o, later, p, q, r);
    ThreeRecords(cfg, serial, clk, k, o, i, later, q, p, r);
    assert Place(Place(Place([], p), q), r) == [p, q, r] && Place(Place(Place([], q), p), r) == [q, p, r];
    WalkThree(p, q, r);
    WalkThree(q, p, r);
  }

  lemma WalkThree(a: Stamp, b: Stamp, c: Stamp)
    ensures Walk([a, b, c]) == Advance(Advance(Advance(Meter(0, 0, None, None), a), b), c)
  {
    assert [a, b, c][..2] == [a, b] && [a, b][..1] == [a] && [a][..0] == [];
    assert Walk([a]) == Advance(Walk([]), a);
    assert Walk([a, b]) == Advance(Walk([a]), b);
  }

  // One punch on two days, as from two texts of which one names a local time that the
  // clocks skipped: it goes to the day of the record that comes first.
  lemma DateOrderMatters(cfg: Config, serial: string, clk: Clock, k: Key, l: Key, p: Stamp, a: Record, b: Record)
    requires Asks(cfg, serial, a, k, p) && Asks(cfg, serial, b, l, p) && k.emp == l.emp && k != l
    requires PlannedEnd(cfg, k).None? && PlannedEnd(cfg, l).None?
    ensures var s0 := Store(map[], map[], map[]);
            Post(cfg, clk, s0, serial, [a, b]).days.Keys == {k} && Post(cfg, clk, s0, serial, [b, a]).days.Keys == {l}
  {
    FirstTakesPunch(cfg, serial, clk, k, l, p, a, b);
    FirstTakesPunch(cfg, serial, clk, l, k, p, b, a);
  }

  lemma FirstTakesPunch(cfg: Config, serial: string, clk: Clock, k: Key, l: Key, p: Stamp, a: Record, b: Record)
    requires Asks(cfg, serial, a, k, p) && Asks(cfg, serial, b, l, p) && k.emp == l.emp && PlannedEnd(cfg, k).None?
    ensures Post(cfg, clk, Store(map[], map[], map[]), serial, [a, b]).days.Keys == {k}
  {
    hide UploadAll, UploadOne, Inserted, Asks, Wanted;
    var dev, s0 := At(cfg, serial), Store(map[], map[], map[]);
    EmptyHasNoDay(cfg, s0, k);
    AskedInserts(cfg, serial, clk, s0, a, k, p, []);
    var s1 := UploadOne(dev, clk, s0, a);
    AskedWanted(cfg, serial, b, l, p);
    assert [] + [Punch(1, p, true)] == [Punch(1, p, true)] && s1.days[k].ledger[0].stamp == p;
    assert PunchExists(s1.days, l.emp, p);
    NotInserted(dev, clk, s1, b);
    TwoFirst(dev, clk, s0, a, b, []);
    assert [a, b] + [] == [a, b] && UploadAll(dev, clk, s1, []) == s1 by { NothingPosted(dev, clk, s1); }
  }

  lemma NothingPosted(cfg: Config, clk: Clock, s: Store)
    ensures UploadAll(cfg, clk, s, []) == s
  {
  }
}
