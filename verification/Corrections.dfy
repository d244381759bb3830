// Attendance corrections: the clock text a request stores, how an approval reads
// it back, and what the corrected day then measures.

module ClockText {
  import opened Common
  import opened Text

  const SEPARATOR := " - "

  function DigitChar(d: nat): char
    requires d < 10
  {
    '0' + d as char
  }

  function DigitValue(c: char): (d: nat)
    requires IsDigit(c)
    ensures d < 10
  {
    (c - '0') as nat
  }

  // strftime("%H:%M") of a minute of the day.
  function PrintClock(m: nat): (s: string)
    requires m < 1440
    ensures |s| == 5
  {
    [DigitChar(m / 600), DigitChar(m / 60 % 10), ':', DigitChar(m % 60 / 10), DigitChar(m % 10)]
  }

  // One or two digits.
  function Number(s: string): Option<nat> {
    if |s| == 1 && IsDigit(s[0]) then Some(DigitValue(s[0]))
    else if |s| == 2 && IsDigit(s[0]) && IsDigit(s[1]) then Some(10 * DigitValue(s[0]) + DigitValue(s[1]))
    else None
  }

  function HourAndMinute(h: string, m: string): Option<nat> {
    match (Number(h), Number(m))
    case (Some(hour), Some(minute)) => if hour < 24 && minute < 60 then Some(60 * hour + minute) else None
    case _ => None
  }

  // strptime(s, "%H:%M"): None when it raises.
  function ParseClock(s: string): (r: Option<nat>)
    ensures r.Some? ==> r.value < 1440
  {
    if |s| >= 2 && s[1] == ':' then HourAndMinute(s[..1], s[2..])
    else if |s| >= 3 && s[2] == ':' then HourAndMinute(s[..2], s[3..])
    else None
  }

  // split(" - "), with the piece read so far.
  function SplitSpan(s: string, piece: string): (parts: seq<string>)
    ensures |parts| >= 1
    decreases |s|
  {
    if |s| >= 3 && s[..3] == SEPARATOR then [piece] + SplitSpan(s[3..], "")
    else if s == "" then [piece]
    else SplitSpan(s[1..], piece + [s[0]])
  }

  function PrintSpan(inMinute: nat, outMinute: nat): string
    requires inMinute < 1440 && outMinute < 1440
  {
    PrintClock(inMinute) + SEPARATOR + PrintClock(outMinute)
  }

  // The two clock times of a stored text; pieces after the second are ignored.
  function ParseSpan(text: string): (r: Option<(nat, nat)>)
    ensures r.Some? ==> r.value.0 < 1440 && r.value.1 < 1440
  {
    var parts := SplitSpan(text, "");
    if |parts| < 2 then None
    else match (ParseClock(parts[0]), ParseClock(parts[1]))
      case (Some(i), Some(o)) => Some((i, o))
      case _ => None
  }

  lemma ClockRoundTrip(m: nat)
    requires m < 1440
    ensures ParseClock(PrintClock(m)) == Some(m)
  {
    var s := PrintClock(m);
    var h := [DigitChar(m / 600), DigitChar(m / 60 % 10)];
    var n := [DigitChar(m % 60 / 10), DigitChar(m % 10)];
    assert s[..2] == h && s[3..] == n;
    assert DigitValue(h[0]) == m / 600 && DigitValue(h[1]) == m / 60 % 10;
    assert DigitValue(n[0]) == m % 60 / 10 && DigitValue(n[1]) == m % 10;
    assert m / 600 == m / 60 / 10;
    assert m % 10 == m % 60 % 10;
  }

  lemma ClockDigits(a: nat, b: nat, c: nat, d: nat)
    requires 10 * a + b < 24 && b < 10 && 10 * c + d < 60 && d < 10
    ensures var m := 60 * (10 * a + b) + 10 * c + d;
            m / 600 == a && m / 60 % 10 == b && m % 60 / 10 == c && m % 10 == d
  {
    var m := 60 * (10 * a + b) + 10 * c + d;
    assert m / 60 == 10 * a + b && m % 60 == 10 * c + d;
    assert m == 600 * a + (60 * b + 10 * c + d);
    assert m == 10 * (60 * a + 6 * b + c) + d;
  }

  // A five-character clock that parses is the printed form of what it parses to.
  lemma PrintsWhatItParsed(s: string)
    requires |s| == 5 && ParseClock(s).Some?
    ensures s == PrintClock(ParseClock(s).value)
  {
    if s[1] != ':' {
      var h, n := s[..2], s[3..];
      assert ParseClock(s) == HourAndMinute(h, n);
      assert h == [s[0], s[1]] && n == [s[3], s[4]];
      var a, b, c, d := DigitValue(s[0]), DigitValue(s[1]), DigitValue(s[3]), DigitValue(s[4]);
      ClockDigits(a, b, c, d);
      assert s == [DigitChar(a), DigitChar(b), ':', DigitChar(c), DigitChar(d)];
    }
  }

  lemma {:induction false} SplitStep(s: string, rest: string, piece: string)
    requires forall i :: 0 <= i < |s| ==> s[i] != ' '
    ensures SplitSpan(s + rest, piece) == SplitSpan(rest, piece + s)
  {
    if s == "" {
      assert s + rest == rest && piece + s == piece;
    } else {
      var all := s + rest;
      assert all[0] == s[0] && all[1..] == s[1..] + rest;
      assert |all| >= 3 ==> all[..3][0] == s[0];
      assert all[..0] == "";
      SplitStep(s[1..], rest, piece + [s[0]]);
      assert piece + [s[0]] + s[1..] == piece + s;
    }
  }

  // The stored text reads back to the minutes it was printed from.
  lemma SpanRoundTrip(inMinute: nat, outMinute: nat)
    requires inMinute < 1440 && outMinute < 1440
    ensures ParseSpan(PrintSpan(inMinute, outMinute)) == Some((inMinute, outMinute))
  {
    var a, b := PrintClock(inMinute), PrintClock(outMinute);
    var rest := SEPARATOR + b;
    assert PrintSpan(inMinute, outMinute) == a + rest;
    SplitStep(a, rest, "");
    assert "" + a == a && rest[..3] == SEPARATOR && rest[3..] == b;
    SplitStep(b, "", "");
    assert b + "" == b && "" + b == b;
    ClockRoundTrip(inMinute);
    ClockRoundTrip(outMinute);
  }
}

module Corrections {
  import opened Common
  import opened Timeline
  import opened Sessions
  import opened Ledger
  import opened DayRow
  import opened AttendanceStore
  import opened ClockText

  // A requested instant as its own clock shows it, microseconds since day 0.
  type Wall = t: int | 0 <= t witness 0

  // Minute of the day printed for it; seconds are dropped.
  function ShownMinute(w: Wall): (m: nat)
    ensures m < 1440
  {
    w % DAY / MINUTE
  }

  function RequestText(requestedIn: Wall, requestedOut: Wall): string {
    PrintSpan(ShownMinute(requestedIn), ShownMinute(requestedOut))
  }

  // Minutes from the corrected IN to the corrected OUT.
  function Gap(inMinute: nat, outMinute: nat): int {
    Minutes(CorrectedOut(0, inMinute, outMinute) - CorrectedIn(0, inMinute))
  }

  // The corrected OUT never precedes the corrected IN and follows it within a day.
  lemma CorrectedOrder(date: Date, inMinute: nat, outMinute: nat)
    requires inMinute < 1440 && outMinute < 1440
    ensures 0 <= Gap(inMinute, outMinute) < 1440
    ensures CorrectedOut(date, inMinute, outMinute) - CorrectedIn(date, inMinute) == MINUTE * Gap(inMinute, outMinute)
    ensures Gap(inMinute, outMinute) == (outMinute - inMinute) % 1440
  {
  }

  lemma ShownSplits(w: Wall)
    ensures w == DAY * (w / DAY) + MINUTE * ShownMinute(w) + w % MINUTE
  {
    var r := w % DAY;
    assert r == MINUTE * (r / MINUTE) + r % MINUTE;
    assert w % MINUTE == r % MINUTE by {
      assert w == MINUTE * (1440 * (w / DAY)) + r;
      ModShift(1440 * (w / DAY), r);
    }
  }

  lemma ModShift(q: int, r: int)
    ensures (MINUTE * q + r) % MINUTE == r % MINUTE
  {
  }

  lemma SpanMinutes(shown: int, inRest: int, outRest: int)
    requires 0 <= inRest < MINUTE && 0 <= outRest < MINUTE && MINUTE * shown + outRest - inRest >= 0
    ensures Minutes(MINUTE * shown + outRest - inRest) == if inRest <= outRest then shown else shown - 1
  {
  }

  // The gap is the requested span in whole minutes exactly when that span is under
  // a day and dropping the seconds does not lengthen it.
  lemma GapIsRequestedSpan(requestedIn: Wall, requestedOut: Wall)
    requires requestedIn <= requestedOut
    ensures Gap(ShownMinute(requestedIn), ShownMinute(requestedOut)) == Minutes(requestedOut - requestedIn)
        <==> Minutes(requestedOut - requestedIn) < 1440 && requestedIn % MINUTE <= requestedOut % MINUTE
  {
    var i, o := ShownMinute(requestedIn), ShownMinute(requestedOut);
    ShownSplits(requestedIn);
    ShownSplits(requestedOut);
    CorrectedOrder(0, i, o);
    var days := requestedOut / DAY - requestedIn / DAY;
    SpanOfParts(days, i, o, requestedIn % MINUTE, requestedOut % MINUTE, Gap(i, o), requestedOut - requestedIn);
  }

  lemma SpanOfParts(days: int, i: nat, o: nat, inRest: int, outRest: int, gap: int, span: int)
    requires i < 1440 && o < 1440 && 0 <= inRest < MINUTE && 0 <= outRest < MINUTE
    requires span == DAY * days + MINUTE * (o - i) + outRest - inRest && span >= 0
    requires gap == (o - i) % 1440
    ensures gap == Minutes(span) <==> Minutes(span) < 1440 && inRest <= outRest
  {
    var shown := 1440 * days + o - i;
    SpanMinutes(shown, inRest, outRest);
    assert gap == if o < i then o - i + 1440 else o - i;
  }

  // --- The corrected day ---

  lemma {:induction false} NothingValid(ledger: seq<Punch>)
    requires forall i :: 0 <= i < |ledger| ==> !ledger[i].valid
    ensures SortedValid(ledger) == []
  {
    if ledger != [] {
      NothingValid(ledger[..|ledger| - 1]);
    }
  }

  // Whatever was recorded before, the day line becomes the corrected pair.
  lemma CorrectedLine(day: Day, date: Date, inMinute: nat, outMinute: nat)
    requires inMinute < 1440 && outMinute < 1440
    ensures var a, b := Stamp(CorrectedIn(date, inMinute), In), Stamp(CorrectedOut(date, inMinute, outMinute), Out);
            var d := CorrectedDay(day, date, inMinute, outMinute);
            DayLine(d.ledger) == [a, b] && |d.ledger| == |day.ledger| + 2 && d.row == day.row.(regularized := true)
  {
    var old' := Invalidated(day.ledger);
    NothingValid(old');
    CorrectedOrder(date, inMinute, outMinute);
    PairLine(old', Stamp(CorrectedIn(date, inMinute), In), Stamp(CorrectedOut(date, inMinute, outMinute), Out));
  }

  lemma PairLine(ledger: seq<Punch>, a: Stamp, b: Stamp)
    requires SortedValid(ledger) == [] && a.time <= b.time
    ensures DayLine(ledger + [Punch(|ledger| + 1, a, true)] + [Punch(|ledger| + 2, b, true)]) == [a, b]
  {
    var p, q := Punch(|ledger| + 1, a, true), Punch(|ledger| + 2, b, true);
    SortedAppend(ledger, p);
    SortedAppend(ledger + [p], q);
    assert Insert([], p) == [p] && Insert([p], q) == [p, q];
    StampsOfPair(SortedValid(ledger + [p] + [q]), p, q);
  }

  lemma SortedAppend(ledger: seq<Punch>, p: Punch)
    requires p.valid
    ensures SortedValid(ledger + [p]) == Insert(SortedValid(ledger), p)
  {
    assert (ledger + [p])[..|ledger|] == ledger;
  }

  lemma StampsOfPair(ps: seq<Punch>, p: Punch, q: Punch)
    requires ps == [p, q]
    ensures Stamps(ps) == [p.stamp, q.stamp]
  {
  }

  // An approved correction of a past day leaves exactly the two corrected punches
  // valid; work is the gap between them and there is no break. It is refused
  // exactly when the day has an expected end without an expected start.
  lemma CorrectedMetrics(cfg: Config, clk: Clock, st: Store, k: Key, inMinute: nat, outMinute: nat)
    requires inMinute < 1440 && outMinute < 1440
    requires k in st.days && k.date != clk.today && !cfg.settings.mode.SinglePunch?
    ensures var r := ApplyCorrection(cfg, clk, st, k, inMinute, outMinute);
            && (r.Done? <==> st.days[k].row.end.None? || st.days[k].row.start.Some?)
            && (r.Done? ==>
                  && k in r.state.days
                  && r.state == st.(days := st.days[k := r.state.days[k]])
                  && Corrected(r.state.days[k], k.date, inMinute, outMinute))
  {
    var a, b := Stamp(CorrectedIn(k.date, inMinute), In), Stamp(CorrectedOut(k.date, inMinute, outMinute), Out);
    var d := CorrectedDay(st.days[k], k.date, inMinute, outMinute);
    CorrectedLine(st.days[k], k.date, inMinute, outMinute);
    CorrectedOrder(k.date, inMinute, outMinute);
    PairTotals(cfg.settings, clk, k.date, a, b);
  }

  ghost predicate Corrected(day: Day, date: Date, inMinute: nat, outMinute: nat) {
    var a, b := Stamp(CorrectedIn(date, inMinute), In), Stamp(CorrectedOut(date, inMinute, outMinute), Out);
    && DayLine(day.ledger) == [a, b]
    && day.row.firstIn == Some(a.time) && day.row.lastOut == Some(b.time)
    && day.row.working == Gap(inMinute, outMinute) && day.row.breaks == 0 && day.row.regularized
  }

  lemma PairTotals(cfg: Settings, clk: Clock, date: Date, a: Stamp, b: Stamp)
    requires a.kind == In && b.kind == Out && a.time <= b.time && date != clk.today && !cfg.mode.SinglePunch?
    ensures Totals(cfg, clk, date, [a, b]) == (Minutes(b.time - a.time), 0)
  {
    var ts := [a, b];
    assert ts[..1] == [a] && ts[..1][..0] == [];
    assert Walk([a]) == Meter(0, 0, Some(a.time), None);
    assert Walk(ts) == Meter(Minutes(b.time - a.time), 0, None, Some(b.time));
  }

  // From request to summary: the times asked for, printed, stored, parsed and
  // applied, are the times worked.
  lemma CorrectionRoundTrip(cfg: Config, clk: Clock, st: Store, k: Key, requestedIn: Wall, requestedOut: Wall)
    requires requestedIn <= requestedOut && Minutes(requestedOut - requestedIn) < 1440
    requires requestedIn % MINUTE <= requestedOut % MINUTE
    requires k in st.days && k.date != clk.today && !cfg.settings.mode.SinglePunch?
    requires st.days[k].row.end.None? || st.days[k].row.start.Some?
    ensures var span := ParseSpan(RequestText(requestedIn, requestedOut));
            && span.Some?
            && var r := ApplyCorrection(cfg, clk, st, k, span.value.0, span.value.1);
            && r.Done? && k in r.state.days
            && r.state.days[k].row.working == Minutes(requestedOut - requestedIn) && r.state.days[k].row.breaks == 0
  {
    SpanRoundTrip(ShownMinute(requestedIn), ShownMinute(requestedOut));
    CorrectedMetrics(cfg, clk, st, k, ShownMinute(requestedIn), ShownMinute(requestedOut));
    GapIsRequestedSpan(requestedIn, requestedOut);
  }
}
