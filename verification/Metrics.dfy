// Worked and break time of one day: the two-variable walk over the day's valid
// punches, and what it computes.

module Sessions {
  import opened Common
  import opened Timeline

  datatype Kind = In | Out | BreakIn | BreakOut {
    // IN and BREAK_IN open a working session, OUT and BREAK_OUT close it.
    predicate Opens() { In? || BreakIn? }
  }

  datatype Stamp = Stamp(time: Time, kind: Kind)

  ghost predicate Chronological(ts: seq<Stamp>) {
    forall i, j :: 0 <= i < j < |ts| ==> ts[i].time <= ts[j].time
  }

  datatype Meter = Meter(working: int, breaks: int, currentIn: Option<Time>, previousOut: Option<Time>)

  // Specification of the loop, one punch at a time.
  function Advance(m: Meter, p: Stamp): Meter {
    if p.kind.Opens() then
      Meter(m.working,
            if m.previousOut.Some? then m.breaks + Max(0, Minutes(p.time - m.previousOut.value)) else m.breaks,
            if m.currentIn.None? then Some(p.time) else m.currentIn,
            None)
    else
      Meter(if m.currentIn.Some? then m.working + Max(0, Minutes(p.time - m.currentIn.value)) else m.working,
            m.breaks, None, Some(p.time))
  }

  function Walk(ts: seq<Stamp>): Meter {
    if ts == [] then Meter(0, 0, None, None) else Advance(Walk(ts[..|ts| - 1]), ts[|ts| - 1])
  }

  method Accumulate(ts: seq<Stamp>) returns (m: Meter)
    ensures m == Walk(ts)
  {
    var working, breaks := 0, 0;
    var currentIn: Option<Time>, previousOut: Option<Time> := None, None;
    var i := 0;
    while i < |ts|
      invariant i <= |ts|
      invariant Meter(working, breaks, currentIn, previousOut) == Walk(ts[..i])
    {
      var p := ts[i];
      if p.kind.Opens() {
        if currentIn.None? {
          currentIn := Some(p.time);
        }
        if previousOut.Some? {
          breaks := breaks + Max(0, Minutes(p.time - previousOut.value));
          previousOut := None;
        }
      } else {
        if currentIn.Some? {
          working := working + Max(0, Minutes(p.time - currentIn.value));
          currentIn := None;
        }
        previousOut := Some(p.time);
      }
      assert ts[..i + 1][..i] == ts[..i];
      i := i + 1;
    }
    assert ts[..i] == ts;
    m := Meter(working, breaks, currentIn, previousOut);
  }

  // --- What the walk means, without its state ---

  // A working session runs from the first of a maximal block of opening punches
  // to the closing punch that ends the block.
  ghost predicate IsSession(ts: seq<Stamp>, s: nat, e: nat) {
    && s < e < |ts|
    && (forall k :: s <= k < e ==> ts[k].kind.Opens())
    && !ts[e].kind.Opens()
    && (s == 0 || !ts[s - 1].kind.Opens())
  }

  // A break runs from a closing punch to the opening punch right after it.
  ghost predicate IsGap(ts: seq<Stamp>, s: nat, e: nat) {
    e == s + 1 && e < |ts| && !ts[s].kind.Opens() && ts[e].kind.Opens()
  }

  datatype Span = Span(start: nat, end: nat)

  // First punch of the opening block that contains punch k.
  function BlockStart(ts: seq<Stamp>, k: nat): (s: nat)
    requires k < |ts| && ts[k].kind.Opens()
    ensures s <= k && (forall i :: s <= i <= k ==> ts[i].kind.Opens())
    ensures s == 0 || !ts[s - 1].kind.Opens()
  {
    if k > 0 && ts[k - 1].kind.Opens() then BlockStart(ts, k - 1) else k
  }

  // All sessions that end before punch n, in order.
  function SessionsUpTo(ts: seq<Stamp>, n: nat): seq<Span>
    requires n <= |ts|
  {
    if n == 0 then []
    else SessionsUpTo(ts, n - 1)
         + (if n >= 2 && !ts[n - 1].kind.Opens() && ts[n - 2].kind.Opens() then [Span(BlockStart(ts, n - 2), n - 1)] else [])
  }

  function GapsUpTo(ts: seq<Stamp>, n: nat): seq<Span>
    requires n <= |ts|
  {
    if n == 0 then []
    else GapsUpTo(ts, n - 1)
         + (if n >= 2 && ts[n - 1].kind.Opens() && !ts[n - 2].kind.Opens() then [Span(n - 2, n - 1)] else [])
  }

  ghost predicate InOrder(spans: seq<Span>) {
    forall i, j :: 0 <= i < j < |spans| ==> spans[i].end < spans[j].end
  }

  // The list holds exactly the sessions, each once.
  lemma {:induction false} SessionsExact(ts: seq<Stamp>, n: nat)
    requires n <= |ts|
    ensures InOrder(SessionsUpTo(ts, n))
    ensures forall x: Span :: x in SessionsUpTo(ts, n) <==> IsSession(ts, x.start, x.end) && x.end < n
  {
    if n > 0 {
      SessionsExact(ts, n - 1);
      forall x: Span | IsSession(ts, x.start, x.end) && x.end == n - 1
        ensures x in SessionsUpTo(ts, n)
      {
        assert ts[n - 2].kind.Opens();
        var b := BlockStart(ts, n - 2);
        assert b > 0 ==> !ts[b - 1].kind.Opens();
        assert x.start > 0 ==> !ts[x.start - 1].kind.Opens();
        assert x.start == b;
      }
    }
  }

  lemma {:induction false} GapsExact(ts: seq<Stamp>, n: nat)
    requires n <= |ts|
    ensures InOrder(GapsUpTo(ts, n))
    ensures forall x: Span :: x in GapsUpTo(ts, n) <==> IsGap(ts, x.start, x.end) && x.end < n
  {
    if n > 0 {
      GapsExact(ts, n - 1);
    }
  }

  // Whole minutes of a span of the day.
  function Length(ts: seq<Stamp>, x: Span): int {
    if x.start < |ts| && x.end < |ts| then Minutes(ts[x.end].time - ts[x.start].time) else 0
  }

  function TotalLength(ts: seq<Stamp>, spans: seq<Span>): int {
    if spans == [] then 0
    else TotalLength(ts, spans[..|spans| - 1]) + Length(ts, spans[|spans| - 1])
  }

  lemma TotalLengthSnoc(ts: seq<Stamp>, spans: seq<Span>, x: Span)
    ensures TotalLength(ts, spans + [x]) == TotalLength(ts, spans) + Length(ts, x)
  {
    assert (spans + [x])[..|spans|] == spans;
  }

  // The block that ends at punch n - 1 is what the two variables remember: the
  // first IN of the block, or the OUT just seen; never both.
  lemma {:induction false} WalkState(ts: seq<Stamp>, n: nat)
    requires n <= |ts|
    ensures var m := Walk(ts[..n]);
            && (n == 0 ==> m.currentIn.None? && m.previousOut.None?)
            && (n > 0 && ts[n - 1].kind.Opens() ==>
                  m.currentIn == Some(ts[BlockStart(ts, n - 1)].time) && m.previousOut.None?)
            && (n > 0 && !ts[n - 1].kind.Opens() ==> m.currentIn.None? && m.previousOut == Some(ts[n - 1].time))
  {
    if n > 0 {
      WalkState(ts, n - 1);
      assert ts[..n][..n - 1] == ts[..n - 1];
    }
  }

  lemma NeverBothSet(ts: seq<Stamp>)
    ensures Walk(ts).currentIn.None? || Walk(ts).previousOut.None?
  {
    WalkState(ts, |ts|);
    assert ts[..|ts|] == ts;
  }

  lemma WalkStep(ts: seq<Stamp>, n: nat)
    requires 0 < n <= |ts|
    ensures Walk(ts[..n]) == Advance(Walk(ts[..n - 1]), ts[n - 1])
  {
    assert ts[..n][..n - 1] == ts[..n - 1];
  }

  // The last punch closes a session exactly when an opening punch precedes it.
  lemma WorkingStep(ts: seq<Stamp>, n: nat)
    requires 0 < n <= |ts| && Chronological(ts)
    ensures Walk(ts[..n]).working - Walk(ts[..n - 1]).working ==
            if n >= 2 && !ts[n - 1].kind.Opens() && ts[n - 2].kind.Opens()
            then Length(ts, Span(BlockStart(ts, n - 2), n - 1)) else 0
  {
    WalkStep(ts, n);
    WalkState(ts, n - 1);
    if n >= 2 && ts[n - 2].kind.Opens() {
      var b := BlockStart(ts, n - 2);
      assert ts[b].time <= ts[n - 1].time;
    }
  }

  // An opening punch closes a gap exactly when a closing punch precedes it.
  lemma BreakStep(ts: seq<Stamp>, n: nat)
    requires 0 < n <= |ts| && Chronological(ts)
    ensures Walk(ts[..n]).breaks - Walk(ts[..n - 1]).breaks ==
            if n >= 2 && ts[n - 1].kind.Opens() && !ts[n - 2].kind.Opens() then Length(ts, Span(n - 2, n - 1)) else 0
  {
    WalkStep(ts, n);
    WalkState(ts, n - 1);
    if n >= 2 {
      assert ts[n - 2].time <= ts[n - 1].time;
    }
  }

  lemma {:induction false} WorkingIsSessions(ts: seq<Stamp>, n: nat)
    requires n <= |ts| && Chronological(ts)
    ensures Walk(ts[..n]).working == TotalLength(ts, SessionsUpTo(ts, n))
  {
    if n > 0 {
      WorkingIsSessions(ts, n - 1);
      WorkingStep(ts, n);
      if n >= 2 && !ts[n - 1].kind.Opens() && ts[n - 2].kind.Opens() {
        TotalLengthSnoc(ts, SessionsUpTo(ts, n - 1), Span(BlockStart(ts, n - 2), n - 1));
      } else {
        assert SessionsUpTo(ts, n) == SessionsUpTo(ts, n - 1);
      }
    }
  }

  lemma {:induction false} BreaksAreGaps(ts: seq<Stamp>, n: nat)
    requires n <= |ts| && Chronological(ts)
    ensures Walk(ts[..n]).breaks == TotalLength(ts, GapsUpTo(ts, n))
  {
    if n > 0 {
      BreaksAreGaps(ts, n - 1);
      BreakStep(ts, n);
      if n >= 2 && ts[n - 1].kind.Opens() && !ts[n - 2].kind.Opens() {
        TotalLengthSnoc(ts, GapsUpTo(ts, n - 1), Span(n - 2, n - 1));
      } else {
        assert GapsUpTo(ts, n) == GapsUpTo(ts, n - 1);
      }
    }
  }

  // Worked time is the whole minutes of the sessions, break time the whole
  // minutes of the gaps.
  lemma WalkIsSessionsAndGaps(ts: seq<Stamp>)
    requires Chronological(ts)
    ensures Walk(ts).working == TotalLength(ts, SessionsUpTo(ts, |ts|))
    ensures Walk(ts).breaks == TotalLength(ts, GapsUpTo(ts, |ts|))
  {
    WorkingIsSessions(ts, |ts|);
    BreaksAreGaps(ts, |ts|);
    assert ts[..|ts|] == ts;
  }

  // --- Bounds ---

  // The instant up to which time has been accounted for.
  function Anchor(m: Meter, first: Time): Time {
    if m.currentIn.Some? then m.currentIn.value
    else if m.previousOut.Some? then m.previousOut.value else first
  }

  lemma {:induction false} WalkWithin(ts: seq<Stamp>)
    requires ts != [] && Chronological(ts)
    ensures var m := Walk(ts);
            && m.working >= 0 && m.breaks >= 0
            && MINUTE * (m.working + m.breaks) <= Anchor(m, ts[0].time) - ts[0].time
            && Anchor(m, ts[0].time) <= ts[|ts| - 1].time
  {
    var n := |ts|;
    if n == 1 {
      assert ts[..0] == [];
      assert Walk(ts) == Advance(Walk(ts[..0]), ts[0]);
    } else {
      WalkWithin(ts[..n - 1]);
    }
  }

  // Worked plus break never exceeds the span from first to last punch.
  lemma WorkAndBreakWithinSpan(ts: seq<Stamp>)
    requires ts != [] && Chronological(ts)
    ensures var m := Walk(ts);
            MINUTE * (m.working + m.breaks) <= ts[|ts| - 1].time - ts[0].time
  {
    WalkWithin(ts);
  }

  // Starts with an opening punch, ends with a closing one, and no closing punch
  // follows another.
  predicate WellPaired(ts: seq<Stamp>) {
    && ts != [] && ts[0].kind.Opens() && !ts[|ts| - 1].kind.Opens()
    && forall i :: 0 < i < |ts| ==> ts[i - 1].kind.Opens() || ts[i].kind.Opens()
  }

  lemma {:induction false} ShortfallSoFar(ts: seq<Stamp>, n: nat)
    requires 0 < n <= |ts| && Chronological(ts)
    requires ts[0].kind.Opens() && forall i :: 0 < i < |ts| ==> ts[i - 1].kind.Opens() || ts[i].kind.Opens()
    ensures var m := Walk(ts[..n]);
            Anchor(m, ts[0].time) - ts[0].time - MINUTE * (m.working + m.breaks)
            <= (MINUTE - 1) * (|SessionsUpTo(ts, n)| + |GapsUpTo(ts, n)|)
  {
    assert ts[..n][..n - 1] == ts[..n - 1];
    if n == 1 {
      assert Walk(ts[..1]) == Advance(Walk(ts[..0]), ts[0]);
    } else {
      ShortfallSoFar(ts, n - 1);
      WalkState(ts, n - 1);
      WalkState(ts, n);
      var b := if ts[n - 2].kind.Opens() then BlockStart(ts, n - 2) else n - 2;
      assert ts[b].time <= ts[n - 1].time;
    }
  }

  // On a well-paired day only truncation is lost: less than one minute for each
  // session and each gap.
  lemma WellPairedShortfall(ts: seq<Stamp>)
    requires WellPaired(ts) && Chronological(ts)
    ensures var m := Walk(ts);
            0 <= ts[|ts| - 1].time - ts[0].time - MINUTE * (m.working + m.breaks)
            <= (MINUTE - 1) * (|SessionsUpTo(ts, |ts|)| + |GapsUpTo(ts, |ts|)|)
  {
    WorkAndBreakWithinSpan(ts);
    ShortfallSoFar(ts, |ts|);
    WalkState(ts, |ts|);
    assert ts[..|ts|] == ts;
  }
}
