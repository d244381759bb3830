// The fixed-window counter: interleaved callers of one key, a timed bound, and
// the two-counter dependency.

module RedisKey {
  import opened Common

  // One counter key. `expiry` is the absolute second at which it disappears.
  datatype Entry = Absent | Live(count: nat, expiry: Option<nat>)

  // What a command issued at `now` sees: an expired key is gone.
  function Seen(e: Entry, now: nat): Entry {
    if e.Live? && e.expiry.Some? && e.expiry.value <= now then Absent else e
  }

  function Incr(e: Entry): (r: Entry)
    ensures r.Live?
  {
    match e
    case Absent => Live(1, None)
    case Live(c, t) => Live(c + 1, t)
  }

  // EXPIRE: no effect on a missing key; a zero window deletes at once.
  function Expire(e: Entry, now: nat, window: nat): Entry {
    if e.Absent? || window == 0 then Absent else Live(e.count, Some(now + window))
  }

  // TTL: -2 without a key, -1 without an expiry.
  function Ttl(e: Entry, now: nat): int {
    match e
    case Absent => -2
    case Live(_, None) => -1
    case Live(_, Some(t)) => t - now
  }
}

// Concurrent callers of enforce_counter on one key. INCR, EXPIRE and TTL are
// separate atomic commands; between them a caller may die or lose the backend.
module LimiterInterleaving {
  import opened Common
  import opened RedisKey

  // `life` numbers the lifetimes of the key: it grows whenever INCR creates it.
  datatype Phase =
    | Fresh
    | Counted(life: nat, count: nat)
    | Rearming(life: nat, count: nat)
    | Returned(life: nat, count: nat, ttl: int)
    | Crashed(life: nat, count: nat)
    | FailedOpen(life: nat, count: nat)

  datatype World = World(now: nat, key: Entry, life: nat, callers: seq<Phase>)

  datatype Event =
    | DoIncr(i: nat)
    | DoTtl(i: nat)
    | DoExpire(i: nat)
    | Crash(i: nat)
    | BackendError(i: nat)
    | Tick

  function Init(n: nat): World {
    World(0, Absent, 0, seq(n, _ => Fresh))
  }

  // The command a caller issues next is fixed by counter_incr: EXPIRE after a
  // count of 1 or a negative TTL, TTL after any other count.
  predicate Enabled(w: World, e: Event) {
    match e
    case Tick => true
    case DoIncr(i) => i < |w.callers| && w.callers[i].Fresh?
    case DoTtl(i) => i < |w.callers| && w.callers[i].Counted? && w.callers[i].count != 1
    case DoExpire(i) => i < |w.callers| && (w.callers[i].Rearming? || (w.callers[i].Counted? && w.callers[i].count == 1))
    case Crash(i) => i < |w.callers| && Busy(w.callers[i])
    case BackendError(i) => i < |w.callers| && Busy(w.callers[i])
  }

  predicate Busy(p: Phase) {
    p.Fresh? || p.Counted? || p.Rearming?
  }

  // An event that is not enabled changes nothing.
  function Step(w: World, e: Event, window: nat): (v: World)
    ensures |v.callers| == |w.callers|
  {
    if !Enabled(w, e) then w else
      match e
      case Tick => w.(now := w.now + 1, key := Seen(w.key, w.now + 1))
      case DoIncr(i) =>
        var key := Incr(w.key);
        var life := if w.key.Absent? then w.life + 1 else w.life;
        w.(key := key, life := life, callers := w.callers[i := Counted(life, key.count)])
      case DoTtl(i) =>
        var p := w.callers[i];
        var ttl := Ttl(w.key, w.now);
        w.(callers := w.callers[i := if ttl < 0 then Rearming(p.life, p.count) else Returned(p.life, p.count, ttl)])
      case DoExpire(i) =>
        var p := w.callers[i];
        w.(key := Expire(w.key, w.now, window), callers := w.callers[i := Returned(p.life, p.count, window)])
      case Crash(i) => w.(callers := w.callers[i := Crashed(Life(w.callers[i]), Count(w.callers[i]))])
      case BackendError(i) => w.(callers := w.callers[i := FailedOpen(Life(w.callers[i]), Count(w.callers[i]))])
  }

  // The world after any interleaving of n callers.
  function Run(n: nat, events: seq<Event>, window: nat): (w: World)
    ensures |w.callers| == n
  {
    if events == [] then Init(n)
    else Step(Run(n, events[..|events| - 1], window), events[|events| - 1], window)
  }

  // Zero before INCR has answered.
  function Life(p: Phase): nat {
    if p.Fresh? then 0 else p.life
  }

  function Count(p: Phase): nat {
    if p.Fresh? then 0 else p.count
  }

  // Armed keys disappear within one window.
  predicate ArmedOrAbsent(w: World, window: nat) {
    w.key.Absent? || (w.key.expiry.Some? && w.now < w.key.expiry.value <= w.now + window)
  }

  // The caller whose INCR created the running lifetime has not issued its EXPIRE:
  // either it still will, or it died or lost the backend first.
  predicate OwesExpire(w: World, i: nat) {
    i < |w.callers| && Life(w.callers[i]) == w.life && Count(w.callers[i]) == 1
    && (w.callers[i].Counted? || w.callers[i].Crashed? || w.callers[i].FailedOpen?)
  }

  ghost predicate KeyOwed(w: World, window: nat) {
    ArmedOrAbsent(w, window) || (w.key.expiry.None? && exists i :: OwesExpire(w, i))
  }

  // Counts handed out in one lifetime start at 1, never exceed the key's count
  // and never repeat.
  ghost predicate TicketsOk(w: World) {
    && (w.key.Live? ==> w.key.count >= 1 && w.life >= 1)
    && (forall i :: 0 <= i < |w.callers| && Life(w.callers[i]) != 0 ==>
          Life(w.callers[i]) <= w.life && Count(w.callers[i]) >= 1
          && (Life(w.callers[i]) == w.life && w.key.Live? ==> Count(w.callers[i]) <= w.key.count))
    && (forall i, j :: 0 <= i < j < |w.callers| && Life(w.callers[i]) == Life(w.callers[j]) != 0 ==>
          Count(w.callers[i]) != Count(w.callers[j]))
  }

  predicate PhaseOk(p: Phase, window: nat) {
    match p
    case Counted(life, _) => life != 0
    case Rearming(life, _) => life != 0
    case Returned(life, _, ttl) => life != 0 && ttl <= window && (window > 0 ==> ttl > 0)
    case _ => true
  }

  ghost predicate Inv(w: World, window: nat) {
    && KeyOwed(w, window)
    && TicketsOk(w)
    && (forall i :: 0 <= i < |w.callers| ==> PhaseOk(w.callers[i], window))
  }

  // A caller that moves on keeps its lifetime and count.
  lemma MoveKeepsTickets(w: World, v: World, i: nat)
    requires TicketsOk(w) && i < |w.callers| == |v.callers| && v.callers == w.callers[i := v.callers[i]]
    requires Life(v.callers[i]) == Life(w.callers[i]) && Count(v.callers[i]) == Count(w.callers[i])
    requires v.life == w.life && (v.key.Live? ==> w.key.Live? && v.key.count == w.key.count)
    ensures TicketsOk(v)
  {
    assert forall j :: 0 <= j < |w.callers| ==> Life(v.callers[j]) == Life(w.callers[j]) && Count(v.callers[j]) == Count(w.callers[j]);
  }

  lemma IncrKeepsTickets(w: World, i: nat, window: nat)
    requires TicketsOk(w) && Enabled(w, DoIncr(i))
    ensures TicketsOk(Step(w, DoIncr(i), window))
  {
    var v := Step(w, DoIncr(i), window);
    assert forall j :: 0 <= j < |w.callers| && j != i ==> v.callers[j] == w.callers[j];
    forall j | 0 <= j < |w.callers| && j != i && Life(w.callers[j]) == v.life
      ensures Count(w.callers[j]) < v.key.count
    {
    }
  }

  lemma StepKeepsTickets(w: World, e: Event, window: nat)
    requires TicketsOk(w)
    ensures TicketsOk(Step(w, e, window))
  {
    if Enabled(w, e) {
      match e {
        case Tick =>
        case DoIncr(i) => IncrKeepsTickets(w, i, window);
        case _ => MoveKeepsTickets(w, Step(w, e, window), e.i);
      }
    }
  }

  lemma StepKeepsOwed(w: World, e: Event, window: nat)
    requires KeyOwed(w, window) && TicketsOk(w)
    ensures KeyOwed(Step(w, e, window), window)
  {
    var v := Step(w, e, window);
    if !ArmedOrAbsent(v, window) {
      if e.DoIncr? && Enabled(w, e) && w.key.Absent? {
        assert OwesExpire(v, e.i);
      } else {
        var k :| OwesExpire(w, k);
        assert OwesExpire(v, k);
      }
    }
  }

  lemma StepKeepsPhases(w: World, e: Event, window: nat)
    requires Inv(w, window)
    ensures forall i :: 0 <= i < |w.callers| ==> PhaseOk(Step(w, e, window).callers[i], window)
  {
  }

  lemma {:induction false} RunInv(n: nat, events: seq<Event>, window: nat)
    ensures Inv(Run(n, events, window), window)
  {
    if events != [] {
      var front, last := events[..|events| - 1], events[|events| - 1];
      var v := Run(n, front, window);
      RunInv(n, front, window);
      StepKeepsTickets(v, last, window);
      StepKeepsOwed(v, last, window);
      StepKeepsPhases(v, last, window);
    }
  }

  // Every count up to that of the key was handed to some caller of its lifetime.
  ghost predicate NoGaps(w: World) {
    w.key.Live? ==> forall c: nat :: 1 <= c <= w.key.count ==> Handed(w, c)
  }

  ghost predicate Handed(w: World, c: nat) {
    exists i :: HasTicket(w, i, c)
  }

  predicate HasTicket(w: World, i: nat, c: nat) {
    i < |w.callers| && Life(w.callers[i]) == w.life && Count(w.callers[i]) == c
  }

  lemma StepKeepsNoGaps(w: World, e: Event, window: nat)
    requires Inv(w, window) && NoGaps(w)
    ensures NoGaps(Step(w, e, window))
  {
    var v := Step(w, e, window);
    if v.key.Live? && Enabled(w, e) {
      forall c: nat | 1 <= c <= v.key.count
        ensures Handed(v, c)
      {
        if e.DoIncr? && c == v.key.count {
          assert HasTicket(v, e.i, c);
        } else {
          assert Handed(w, c);
          var i :| HasTicket(w, i, c);
          assert HasTicket(v, i, c);
        }
      }
    }
  }

  // INCR answers 1, 2, 3 and so on: in every interleaving each number up to the
  // key's count was answered to exactly one caller of the key's lifetime.
  lemma {:induction false} EveryCountOnce(n: nat, events: seq<Event>, window: nat)
    ensures var w := Run(n, events, window);
            && NoGaps(w)
            && (w.key.Live? ==> forall i, j, c: nat :: HasTicket(w, i, c) && HasTicket(w, j, c) && c >= 1 ==> i == j)
  {
    RunInv(n, events, window);
    if events != [] {
      EveryCountOnce(n, events[..|events| - 1], window);
      RunInv(n, events[..|events| - 1], window);
      StepKeepsNoGaps(Run(n, events[..|events| - 1], window), events[|events| - 1], window);
    }
  }

  // Callers that INCRed in lifetime `life` and were let through by their count.
  ghost function Admitted(w: World, life: nat, attempts: nat): set<nat> {
    set i | 0 <= i < |w.callers| && w.callers[i].Returned? && w.callers[i].life == life && w.callers[i].count <= attempts
  }

  // Callers that INCRed in lifetime `life` and were let through because the
  // backend failed afterwards.
  ghost function Waved(w: World, life: nat): set<nat> {
    set i | 0 <= i < |w.callers| && w.callers[i].FailedOpen? && w.callers[i].life == life
  }

  lemma {:induction false} DistinctCounts(w: World, s: set<nat>, life: nat, bound: nat)
    requires forall i :: i in s ==> i < |w.callers| && Life(w.callers[i]) == life && 1 <= Count(w.callers[i]) <= bound
    requires forall i, j :: i in s && j in s && i != j ==> Count(w.callers[i]) != Count(w.callers[j])
    ensures |s| <= bound
    decreases bound
  {
    if i :| i in s && Count(w.callers[i]) == bound {
      DistinctCounts(w, s - {i}, life, bound - 1);
    } else if bound == 0 {
      assert forall i :: i !in s;
    } else {
      DistinctCounts(w, s, life, bound - 1);
    }
  }

  // Each lifetime of a key admits at most `attempts` callers.
  lemma LifetimeBound(n: nat, events: seq<Event>, window: nat, life: nat, attempts: nat)
    ensures |Admitted(Run(n, events, window), life, attempts)| <= attempts
  {
    RunInv(n, events, window);
    var w := Run(n, events, window);
    var s := Admitted(w, life, attempts);
    forall i, j | i in s && j in s && i != j
      ensures Count(w.callers[i]) != Count(w.callers[j])
    {
      if i < j {
        assert Life(w.callers[i]) == Life(w.callers[j]) != 0;
      } else {
        assert Life(w.callers[j]) == Life(w.callers[i]) != 0;
      }
    }
    DistinctCounts(w, s, life, attempts);
  }

  lemma RunSnoc(n: nat, events: seq<Event>, e: Event, window: nat)
    ensures Run(n, events + [e], window) == Step(Run(n, events, window), e, window)
  {
    assert (events + [e])[..|events|] == events;
  }

  // A call that completes finds the key armed for at most one window, or gone,
  // whatever the other callers did in between; an orphan left by a dead creator
  // is therefore re-armed by the next call that completes.
  lemma CompletionArms(n: nat, events: seq<Event>, e: Event, i: nat, window: nat)
    requires i < n && !Run(n, events, window).callers[i].Returned?
    requires Run(n, events + [e], window).callers[i].Returned?
    ensures var w := Run(n, events + [e], window);
            ArmedOrAbsent(w, window) && (window > 0 ==> 0 < w.callers[i].ttl <= window)
  {
    RunInv(n, events, window);
    RunInv(n, events + [e], window);
    RunSnoc(n, events, e, window);
    StepArms(Run(n, events, window), Run(n, events + [e], window), e, i, window);
  }

  lemma StepArms(v: World, w: World, e: Event, i: nat, window: nat)
    requires Inv(v, window) && Inv(w, window) && w == Step(v, e, window)
    requires i < |v.callers| && !v.callers[i].Returned? && w.callers[i].Returned?
    ensures ArmedOrAbsent(w, window) && (window > 0 ==> 0 < w.callers[i].ttl <= window)
  {
    assert PhaseOk(w.callers[i], window);
  }

  // A key is without an expiry only while the call that created it has yet to
  // issue EXPIRE or never will.
  lemma UnarmedIsOwed(n: nat, events: seq<Event>, window: nat)
    ensures var w := Run(n, events, window); ArmedOrAbsent(w, window) || exists i :: OwesExpire(w, i)
  {
    RunInv(n, events, window);
  }

  // The callers of one lifetime that were let through, by their count or because
  // the backend failed after their INCR.
  ghost function LetThrough(w: World, life: nat, attempts: nat): set<nat> {
    Admitted(w, life, attempts) + Waved(w, life)
  }

  // Each caller below i counts and then loses the backend.
  function Outage(i: nat): seq<Event> {
    if i == 0 then [] else Outage(i - 1) + [DoIncr(i - 1)] + [BackendError(i - 1)]
  }

  ghost predicate OutageState(w: World, n: nat, i: nat) {
    && |w.callers| == n && w.key == (if i == 0 then Absent else Live(i, None)) && w.life == (if i == 0 then 0 else 1)
    && forall k :: 0 <= k < n ==> w.callers[k] == if k < i then FailedOpen(1, k + 1) else Fresh
  }

  lemma {:induction false} OutageLetsAllThrough(n: nat, i: nat, window: nat)
    requires i <= n
    ensures OutageState(Run(n, Outage(i), window), n, i)
  {
    hide Step, OutageState;
    if i == 0 {
      OutageStart(n, window);
    } else {
      OutageLetsAllThrough(n, i - 1, window);
      RunSnoc(n, Outage(i - 1), DoIncr(i - 1), window);
      RunSnoc(n, Outage(i - 1) + [DoIncr(i - 1)], BackendError(i - 1), window);
      OutageStep(Run(n, Outage(i - 1), window), n, i - 1, window);
    }
  }

  lemma OutageStart(n: nat, window: nat)
    ensures OutageState(Run(n, [], window), n, 0)
  {
  }

  lemma OutageStep(w: World, n: nat, i: nat, window: nat)
    requires i < n && OutageState(w, n, i)
    ensures OutageState(Step(Step(w, DoIncr(i), window), BackendError(i), window), n, i + 1)
  {
    var v := Step(w, DoIncr(i), window);
    assert v.callers[i] == Counted(1, i + 1);
  }

  lemma {:induction false} FirstN(n: nat, s: set<nat>)
    requires forall k: nat :: k in s <==> k < n
    ensures |s| == n
  {
    if n == 0 {
      assert forall k :: k !in s;
    } else {
      FirstN(n - 1, s - {n - 1});
    }
  }

  // Backend errors after INCR lift the limit, whatever it is: some run lets more
  // than `attempts` callers through in one lifetime of the key.
  lemma FailOpenExceedsAttempts(attempts: nat, window: nat)
    ensures exists n, events :: |LetThrough(Run(n, events, window), 1, attempts)| > attempts
  {
    var n := attempts + 1;
    var w := Run(n, Outage(n), window);
    OutageLetsAllThrough(n, n, window);
    assert OutageState(w, n, n);
    forall k: nat
      ensures k in LetThrough(w, 1, attempts) <==> k < n
    {
      if k < n {
        assert w.callers[k] == FailedOpen(1, k + 1);
      }
    }
    FirstN(n, LetThrough(w, 1, attempts));
  }
}

// Atomic calls without backend failure: counter_incr as one step, on a clock.
module FixedWindow {
  import opened Common
  import opened RedisKey

  datatype Verdict = Verdict(entry: Entry, count: nat, ttl: int)

  // counter_incr run without interleaving at second `now`.
  function Hit(e: Entry, now: nat, window: nat): Verdict {
    var e1 := Incr(Seen(e, now));
    if e1.count == 1 then Verdict(Expire(e1, now, window), 1, window)
    else
      var ttl := Ttl(e1, now);
      if ttl < 0 then Verdict(Expire(e1, now, window), e1.count, window)
      else Verdict(e1, e1.count, ttl)
  }

  // Some(delay) is the 429 answer with its Retry-After.
  function Refusal(v: Verdict, attempts: nat, window: nat): Option<int> {
    if v.count > attempts then Some(if v.ttl > 0 then v.ttl else window) else None
  }

  predicate Ordered(times: seq<nat>) {
    forall i, j :: 0 <= i < j < |times| ==> times[i] <= times[j]
  }

  // The key after the calls at `times`, starting without a key.
  function Serve(times: seq<nat>, window: nat): Entry {
    if times == [] then Absent
    else Hit(Serve(times[..|times| - 1], window), times[|times| - 1], window).entry
  }

  function CallAt(times: seq<nat>, k: nat, window: nat): Verdict
    requires k < |times|
  {
    Hit(Serve(times[..k], window), times[k], window)
  }

  // Reference: the second at which the window that serves call k opened, and the
  // call's position in that window.
  function Opened(times: seq<nat>, k: nat, window: nat): (s: nat)
    requires k < |times|
    ensures s <= times[k] || k > 0
  {
    if k > 0 && times[k] < Opened(times, k - 1, window) + window then Opened(times, k - 1, window) else times[k]
  }

  function Position(times: seq<nat>, k: nat, window: nat): (p: nat)
    requires k < |times|
    ensures p >= 1
  {
    if k > 0 && times[k] < Opened(times, k - 1, window) + window then Position(times, k - 1, window) + 1 else 1
  }

  // The key/TTL code implements the reference windows: the count is the position
  // in the window and the TTL is what is left of it.
  lemma {:induction false} HitRefinesWindow(times: seq<nat>, k: nat, window: nat)
    requires k < |times| && Ordered(times) && window > 0
    ensures Opened(times, k, window) <= times[k] < Opened(times, k, window) + window
    ensures CallAt(times, k, window) ==
            Verdict(Live(Position(times, k, window), Some(Opened(times, k, window) + window)),
                    Position(times, k, window), Opened(times, k, window) + window - times[k])
  {
    if k > 0 {
      HitRefinesWindow(times, k - 1, window);
      assert times[..k][..k - 1] == times[..k - 1];
      assert Serve(times[..k], window) == CallAt(times, k - 1, window).entry;
    }
  }

  // Earlier calls that fell into the window of call k.
  ghost function InWindow(times: seq<nat>, k: nat, window: nat): set<nat>
    requires k < |times|
  {
    set i: nat | i < k && times[i] >= Opened(times, k, window)
  }

  // The position in the window is one more than the calls that fell into it before.
  lemma {:induction false} PositionCounts(times: seq<nat>, k: nat, window: nat)
    requires k < |times| && Ordered(times) && window > 0
    ensures |InWindow(times, k, window)| + 1 == Position(times, k, window)
  {
    if k == 0 {
      assert InWindow(times, 0, window) == {};
    } else {
      PositionCounts(times, k - 1, window);
      HitRefinesWindow(times, k - 1, window);
      if times[k] < Opened(times, k - 1, window) + window {
        assert InWindow(times, k, window) == InWindow(times, k - 1, window) + {k - 1};
      } else {
        assert InWindow(times, k, window) == {};
      }
    }
  }

  // Calls in [i, j) that are let through.
  function Granted(times: seq<nat>, i: nat, j: nat, attempts: nat, window: nat): nat
    requires i <= j <= |times|
  {
    if i == j then 0
    else Granted(times, i, j - 1, attempts, window)
         + (if Refusal(CallAt(times, j - 1, window), attempts, window).None? then 1 else 0)
  }

  lemma {:induction false} GrantedSplit(times: seq<nat>, i: nat, m: nat, j: nat, attempts: nat, window: nat)
    requires i <= m <= j <= |times|
    ensures Granted(times, i, j, attempts, window) == Granted(times, i, m, attempts, window) + Granted(times, m, j, attempts, window)
  {
    if m < j {
      GrantedSplit(times, i, m, j - 1, attempts, window);
    }
  }

  // No window opens in (i, j): positions keep growing, so at most `attempts` pass.
  lemma {:induction false} OneWindow(times: seq<nat>, i: nat, j: nat, attempts: nat, window: nat)
    requires i < j <= |times| && Ordered(times) && window > 0
    requires forall k :: i < k < j ==> Position(times, k, window) > 1
    ensures Granted(times, i, j, attempts, window) <= attempts
    ensures Granted(times, i, j, attempts, window) <= Position(times, j - 1, window)
  {
    HitRefinesWindow(times, j - 1, window);
    if i < j - 1 {
      OneWindow(times, i, j - 1, attempts, window);
    }
  }

  lemma {:induction false} WindowsApart(times: seq<nat>, i: nat, k: nat, window: nat)
    requires i < k < |times| && Ordered(times) && window > 0
    requires Position(times, k, window) == 1
    ensures times[k] >= Opened(times, i, window) + window
  {
    HitRefinesWindow(times, k - 1, window);
    if i < k - 1 {
      OpenedMonotone(times, i, k - 1, window);
    }
  }

  lemma {:induction false} OpenedMonotone(times: seq<nat>, i: nat, k: nat, window: nat)
    requires i <= k < |times| && Ordered(times) && window > 0
    ensures Opened(times, i, window) <= Opened(times, k, window)
  {
    if i < k {
      OpenedMonotone(times, i, k - 1, window);
      HitRefinesWindow(times, k - 1, window);
    }
  }

  // Any stretch of time no longer than the window admits at most 2 * attempts.
  lemma TimedBound(times: seq<nat>, i: nat, j: nat, attempts: nat, window: nat)
    requires i < j <= |times| && Ordered(times) && window > 0
    requires times[j - 1] - times[i] <= window
    ensures Granted(times, i, j, attempts, window) <= 2 * attempts
  {
    if k :| i < k < j && Position(times, k, window) == 1 {
      HitRefinesWindow(times, i, window);
      WindowsApart(times, i, k, window);
      forall m | i < m < j && m != k
        ensures Position(times, m, window) > 1
      {
        if Position(times, m, window) == 1 {
          var first, second := if m < k then m else k, if m < k then k else m;
          WindowsApart(times, i, first, window);
          HitRefinesWindow(times, first, window);
          WindowsApart(times, first, second, window);
        }
      }
      OneWindow(times, i, k, attempts, window);
      OneWindow(times, k, j, attempts, window);
      GrantedSplit(times, i, k, j, attempts, window);
    } else {
      OneWindow(times, i, j, attempts, window);
    }
  }

  // `attempts` calls at second 0 and again at second `window`.
  function TwoBursts(attempts: nat, window: nat): (times: seq<nat>)
    ensures Ordered(times) && |times| == 2 * attempts
  {
    seq(2 * attempts, k => if k < attempts then 0 else window)
  }

  lemma {:induction false} BurstPosition(attempts: nat, window: nat, k: nat)
    requires k < 2 * attempts && window > 0
    ensures var times := TwoBursts(attempts, window);
            && Opened(times, k, window) == times[k]
            && Position(times, k, window) == (if k < attempts then k + 1 else k - attempts + 1)
  {
    if k > 0 {
      BurstPosition(attempts, window, k - 1);
    }
  }

  // The timed bound is attained, so it cannot be improved.
  lemma {:induction false} TimedBoundIsTight(attempts: nat, window: nat, j: nat)
    requires j <= 2 * attempts && window > 0
    ensures var times := TwoBursts(attempts, window);
            && Granted(times, 0, j, attempts, window) == j
            && (attempts > 0 ==> times[2 * attempts - 1] - times[0] == window)
  {
    if j > 0 {
      TimedBoundIsTight(attempts, window, j - 1);
      BurstPosition(attempts, window, j - 1);
      HitRefinesWindow(TwoBursts(attempts, window), j - 1, window);
    }
  }

  // A zero window, which the settings exclude, would never limit anyone: every call
  // would be the first of its window.
  lemma ZeroWindowNeverRefuses(times: seq<nat>, k: nat, attempts: nat)
    requires k < |times| && attempts > 0
    ensures Refusal(CallAt(times, k, 0), attempts, 0).None?
  {
    assert Serve(times[..k], 0).Absent? by {
      if k > 0 {
        ZeroWindowLeavesNoKey(times[..k]);
      }
    }
  }

  lemma {:induction false} ZeroWindowLeavesNoKey(times: seq<nat>)
    ensures Serve(times, 0).Absent?
  {
    if times != [] {
      ZeroWindowLeavesNoKey(times[..|times| - 1]);
    }
  }

  // Retry-After is exact for a lone caller: refused now, it is admitted on its
  // next try if and only if it waited at least that long.
  lemma RetryAfterExact(times: seq<nat>, again: nat, attempts: nat, window: nat)
    requires times != [] && Ordered(times) && times[|times| - 1] <= again && window > 0 && attempts > 0
    requires Refusal(CallAt(times, |times| - 1, window), attempts, window).Some?
    ensures var delay := Refusal(CallAt(times, |times| - 1, window), attempts, window).value;
            && 0 < delay <= window
            && (Refusal(CallAt(times + [again], |times|, window), attempts, window).None?
                <==> again >= times[|times| - 1] + delay)
  {
    var next := times + [again];
    HitRefinesWindow(times, |times| - 1, window);
    HitRefinesWindow(next, |times|, window);
    HitRefinesWindow(next, |times| - 1, window);
    assert next[..|times| - 1] == times[..|times| - 1];
  }
}

// The dependency: an IP counter and then, if the body names an account, an
// identifier counter in the same store.
module RateLimit {
  import opened Common
  import opened RedisKey
  import opened FixedWindow

  function CounterKey(scope: string, bucket: string, value: string): string {
    "ratelimit:" + scope + ":" + bucket + ":" + value
  }

  // Within a scope no IP shares its counter with an account.
  lemma BucketsDisjoint(scope: string, ip: string, identifier: string)
    ensures CounterKey(scope, "ip", ip) != CounterKey(scope, "id", identifier)
  {
    var n := |"ratelimit:" + scope + ":"|;
    assert CounterKey(scope, "ip", ip)[n + 1] == 'p';
    assert CounterKey(scope, "id", identifier)[n + 1] == 'd';
  }

  // One scope keeps different values apart.
  lemma CounterKeyInjective(scope: string, bucket: string, v: string, w: string)
    requires CounterKey(scope, bucket, v) == CounterKey(scope, bucket, w)
    ensures v == w
  {
    var n := |"ratelimit:" + scope + ":" + bucket + ":"|;
    assert CounterKey(scope, bucket, v)[n..] == v;
    assert CounterKey(scope, bucket, w)[n..] == w;
  }

  function At(keys: map<string, Entry>, key: string): Entry {
    if key in keys then keys[key] else Absent
  }

  // --- Calls that lose the backend on the way ---

  // Commands a call on this key issues: INCR, EXPIRE or TTL, and EXPIRE again for a
  // key found without an expiry.
  function Commands(e: Entry, now: nat): nat {
    var e1 := Incr(Seen(e, now));
    if e1.count > 1 && Ttl(e1, now) < 0 then 3 else 2
  }

  // The key after the first `answered` commands of a call.
  function HitSoFar(e: Entry, now: nat, window: nat, answered: nat): Entry {
    if answered == 0 then e
    else if answered < Commands(e, now) then Incr(Seen(e, now))
    else Hit(e, now, window).entry
  }

  // Some(delay) is the 429 answer; a call without all its replies fails open.
  function Answer(e: Entry, now: nat, attempts: nat, window: nat, answered: nat): Option<int> {
    if answered < Commands(e, now) then None else Refusal(Hit(e, now, window), attempts, window)
  }

  // A lost call costs at most one count and never a wrong one: once INCR was
  // answered the count is that of a full call, and until then nothing moved.
  lemma LostCallCounts(e: Entry, now: nat, attempts: nat, window: nat, answered: nat)
    requires window > 0
    ensures Answer(e, now, attempts, window, answered).Some? ==>
              answered >= (if Seen(e, now).Live? && Seen(e, now).count > 0 && Seen(e, now).expiry.None? then 3 else 2)
    ensures if answered == 0 then HitSoFar(e, now, window, answered) == e
            else HitSoFar(e, now, window, answered).Live?
                 && HitSoFar(e, now, window, answered).count == Hit(e, now, window).count
  {
  }

  // What it can leave behind is a key without expiry; the next call that keeps the
  // backend repairs that.
  lemma NextCallRearms(e: Entry, now: nat, later: nat, window: nat, answered: nat)
    requires window > 0 && now <= later
    ensures var repaired := Hit(HitSoFar(e, now, window, answered), later, window).entry;
            repaired.Live? && repaired.expiry.Some? && later < repaired.expiry.value
  {
  }

  // --- Requests whose commands are all answered ---

  datatype Request = Request(ip: string, account: Option<string>, now: nat)

  const ALL: nat := 3

  // The dependency on one request: the keys it leaves and its answer.
  function Served(keys: map<string, Entry>, scope: string, q: Request, attempts: nat, window: nat): (map<string, Entry>, Option<int>) {
    var ipKey := CounterKey(scope, "ip", q.ip);
    var ipAnswer := Answer(At(keys, ipKey), q.now, attempts, window, ALL);
    var keys1 := keys[ipKey := HitSoFar(At(keys, ipKey), q.now, window, ALL)];
    if ipAnswer.Some? || q.account.None? then (keys1, ipAnswer)
    else
      var idKey := CounterKey(scope, "id", q.account.value);
      (keys1[idKey := HitSoFar(At(keys1, idKey), q.now, window, ALL)], Answer(At(keys1, idKey), q.now, attempts, window, ALL))
  }

  // All counters of a scope after some requests.
  function KeysAfter(scope: string, qs: seq<Request>, attempts: nat, window: nat): map<string, Entry> {
    if qs == [] then map[]
    else Served(KeysAfter(scope, qs[..|qs| - 1], attempts, window), scope, qs[|qs| - 1], attempts, window).0
  }

  function AnswerTo(scope: string, qs: seq<Request>, k: nat, attempts: nat, window: nat): Option<int>
    requires k < |qs|
  {
    Served(KeysAfter(scope, qs[..k], attempts, window), scope, qs[k], attempts, window).1
  }

  // Whether a request counts on a key: always on that of its IP, and on that of its
  // account if the IP was let past.
  predicate Hits(keys: map<string, Entry>, scope: string, q: Request, key: string, attempts: nat, window: nat) {
    || key == CounterKey(scope, "ip", q.ip)
    || (q.account.Some? && key == CounterKey(scope, "id", q.account.value)
        && Served(keys, scope, q.(account := None), attempts, window).1.None?)
  }

  // When the requests counted on a key came.
  function HitTimes(scope: string, qs: seq<Request>, key: string, attempts: nat, window: nat): seq<nat> {
    if qs == [] then []
    else
      var front, q := qs[..|qs| - 1], qs[|qs| - 1];
      HitTimes(scope, front, key, attempts, window)
      + (if Hits(KeysAfter(scope, front, attempts, window), scope, q, key, attempts, window) then [q.now] else [])
  }

  predicate InTime(qs: seq<Request>) {
    forall i, j :: 0 <= i < j < |qs| ==> qs[i].now <= qs[j].now
  }

  // With every reply the answer is that of the atomic call.
  lemma AllAnswered(e: Entry, now: nat, attempts: nat, window: nat)
    ensures HitSoFar(e, now, window, ALL) == Hit(e, now, window).entry
    ensures Answer(e, now, attempts, window, ALL) == Refusal(Hit(e, now, window), attempts, window)
  {
  }

  // A request counts once on each key it hits and leaves the others alone.
  lemma ServedKey(keys: map<string, Entry>, scope: string, q: Request, key: string, attempts: nat, window: nat)
    ensures At(Served(keys, scope, q, attempts, window).0, key)
         == if Hits(keys, scope, q, key, attempts, window) then HitSoFar(At(keys, key), q.now, window, ALL) else At(keys, key)
  {
    hide HitSoFar, Answer, CounterKey;
    if q.account.Some? {
      BucketsDisjoint(scope, q.ip, q.account.value);
    }
  }

  // Each counter of the object is the reference counter of the requests that hit it.
  lemma {:induction false} CountersAreWindows(scope: string, qs: seq<Request>, key: string, attempts: nat, window: nat)
    ensures At(KeysAfter(scope, qs, attempts, window), key) == Serve(HitTimes(scope, qs, key, attempts, window), window)
  {
    hide Hit, HitSoFar, Served, Hits;
    if qs != [] {
      var front, q := qs[..|qs| - 1], qs[|qs| - 1];
      CountersAreWindows(scope, front, key, attempts, window);
      var keys := KeysAfter(scope, front, attempts, window);
      var times := HitTimes(scope, front, key, attempts, window);
      ServedKey(keys, scope, q, key, attempts, window);
      AllAnswered(At(keys, key), q.now, attempts, window);
      HitTimesSnoc(scope, qs, key, attempts, window);
      ServeSnoc(times, q.now, window);
      assert times + [] == times;
    }
  }

  lemma ServeSnoc(times: seq<nat>, now: nat, window: nat)
    ensures Serve(times + [now], window) == Hit(Serve(times, window), now, window).entry
  {
    assert (times + [now])[..|times|] == times;
  }

  // All calls of a counter up to request k, that one included.
  function CallTimes(scope: string, qs: seq<Request>, k: nat, key: string, attempts: nat, window: nat): (times: seq<nat>)
    requires k < |qs|
    ensures times != [] && times[|times| - 1] == qs[k].now
  {
    HitTimes(scope, qs[..k], key, attempts, window) + [qs[k].now]
  }

  // Seconds until the window of the last call ends, if `attempts` calls had fallen
  // into it before.
  ghost function Wait(times: seq<nat>, attempts: nat, window: nat): Option<int>
    requires times != []
  {
    var k := |times| - 1;
    if |InWindow(times, k, window)| >= attempts then Some(Opened(times, k, window) + window - times[k]) else None
  }

  lemma CallWaits(times: seq<nat>, now: nat, attempts: nat, window: nat)
    requires Ordered(times + [now]) && window > 0
    ensures Refusal(Hit(Serve(times, window), now, window), attempts, window) == Wait(times + [now], attempts, window)
    ensures Wait(times + [now], attempts, window).Some? ==> 0 < Wait(times + [now], attempts, window).value <= window
  {
    var all := times + [now];
    assert all[..|times|] == times;
    HitRefinesWindow(all, |times|, window);
    PositionCounts(all, |times|, window);
  }

  lemma {:induction false} HitTimesInTime(scope: string, qs: seq<Request>, key: string, last: nat, attempts: nat, window: nat)
    requires InTime(qs) && forall i :: 0 <= i < |qs| ==> qs[i].now <= last
    ensures Ordered(HitTimes(scope, qs, key, attempts, window) + [last])
  {
    hide Hits, KeysAfter;
    if qs != [] {
      var now := qs[|qs| - 1].now;
      HitTimesInTime(scope, qs[..|qs| - 1], key, now, attempts, window);
      var front := HitTimes(scope, qs[..|qs| - 1], key, attempts, window);
      forall i | 0 <= i < |front|
        ensures front[i] <= now
      {
        assert (front + [now])[i] <= (front + [now])[|front|];
      }
      assert forall i, j :: 0 <= i < j < |front| ==> front[i] == (front + [now])[i] && front[j] == (front + [now])[j];
    }
  }

  // A request is refused exactly when `attempts` calls had already fallen into the
  // current window of its IP, or, the IP being let past, of its account. The delay
  // is what is left of that window: positive and at most a window.
  lemma RefusedExactly(scope: string, qs: seq<Request>, k: nat, attempts: nat, window: nat)
    requires k < |qs| && InTime(qs) && window > 0
    ensures var q, answer := qs[k], AnswerTo(scope, qs, k, attempts, window);
            var byIp := Wait(CallTimes(scope, qs, k, CounterKey(scope, "ip", q.ip), attempts, window), attempts, window);
            && (byIp.Some? || q.account.None? ==> answer == byIp)
            && (byIp.None? && q.account.Some? ==>
                  answer == Wait(CallTimes(scope, qs, k, CounterKey(scope, "id", q.account.value), attempts, window), attempts, window))
            && (answer.Some? ==> 0 < answer.value <= window)
  {
    hide Hit, Refusal, HitSoFar, Answer, CounterKey, Wait, HitTimes;
    var q, front := qs[k], qs[..k];
    var ipKey := CounterKey(scope, "ip", q.ip);
    AnswerOnKey(scope, front, q, ipKey, attempts, window);
    if q.account.Some? {
      BucketsDisjoint(scope, q.ip, q.account.value);
      AnswerOnKey(scope, front, q, CounterKey(scope, "id", q.account.value), attempts, window);
    }
  }

  lemma AnswerOnKey(scope: string, qs: seq<Request>, q: Request, key: string, attempts: nat, window: nat)
    requires InTime(qs) && (forall i :: 0 <= i < |qs| ==> qs[i].now <= q.now) && window > 0
    ensures var wait := Wait(HitTimes(scope, qs, key, attempts, window) + [q.now], attempts, window);
            && Answer(At(KeysAfter(scope, qs, attempts, window), key), q.now, attempts, window, ALL) == wait
            && (wait.Some? ==> 0 < wait.value <= window)
  {
    hide Hit, Refusal, HitSoFar, Answer, Wait, KeysAfter, HitTimes;
    CountersAreWindows(scope, qs, key, attempts, window);
    AllAnswered(At(KeysAfter(scope, qs, attempts, window), key), q.now, attempts, window);
    HitTimesInTime(scope, qs, key, q.now, attempts, window);
    CallWaits(HitTimes(scope, qs, key, attempts, window), q.now, attempts, window);
  }

  // Requests in [i, j) that count on a key and are let through.
  function LetThrough(scope: string, qs: seq<Request>, i: nat, j: nat, key: string, attempts: nat, window: nat): nat
    requires i <= j <= |qs|
  {
    if i == j then 0
    else LetThrough(scope, qs, i, j - 1, key, attempts, window)
         + (if Hits(KeysAfter(scope, qs[..j - 1], attempts, window), scope, qs[j - 1], key, attempts, window)
               && AnswerTo(scope, qs, j - 1, attempts, window).None? then 1 else 0)
  }

  // Requests of earlier hits are a prefix of those of later ones, and what is between
  // came between.
  lemma {:induction false} HitTimesGrow(scope: string, qs: seq<Request>, i: nat, j: nat, key: string, attempts: nat, window: nat)
    requires i <= j <= |qs|
    ensures var a, b := HitTimes(scope, qs[..i], key, attempts, window), HitTimes(scope, qs[..j], key, attempts, window);
            a <= b && forall m :: |a| <= m < |b| ==> exists n :: i <= n < j && b[m] == qs[n].now
  {
    hide Hits, KeysAfter;
    if i < j {
      HitTimesGrow(scope, qs, i, j - 1, key, attempts, window);
      assert qs[..j][..j - 1] == qs[..j - 1];
      var a, c, b := HitTimes(scope, qs[..i], key, attempts, window), HitTimes(scope, qs[..j - 1], key, attempts, window),
                     HitTimes(scope, qs[..j], key, attempts, window);
      assert c <= b && (|b| > |c| ==> b[|c|] == qs[j - 1].now);
      forall m | |a| <= m < |b|
        ensures exists n :: i <= n < j && b[m] == qs[n].now
      {
        if m < |c| {
          var n :| i <= n < j - 1 && c[m] == qs[n].now;
          assert b[m] == qs[n].now;
        } else {
          assert b[m] == qs[j - 1].now;
        }
      }
    }
  }

  // Whoever is let through was let past each counter it hit.
  lemma {:induction false} LetThroughIsGranted(scope: string, qs: seq<Request>, i: nat, j: nat, key: string, attempts: nat, window: nat)
    requires i <= j <= |qs|
    ensures var a, b := HitTimes(scope, qs[..i], key, attempts, window), HitTimes(scope, qs[..j], key, attempts, window);
            |a| <= |b| && LetThrough(scope, qs, i, j, key, attempts, window) <= Granted(b, |a|, |b|, attempts, window)
  {
    hide Served, KeysAfter, Hits, Granted, HitTimes;
    var a := HitTimes(scope, qs[..i], key, attempts, window);
    if i < j {
      var c, b := HitTimes(scope, qs[..j - 1], key, attempts, window), HitTimes(scope, qs[..j], key, attempts, window);
      LetThroughIsGranted(scope, qs, i, j - 1, key, attempts, window);
      HitTimesGrow(scope, qs, j - 1, j, key, attempts, window);
      assert qs[..j][..j - 1] == qs[..j - 1];
      HitTimesSnoc(scope, qs[..j], key, attempts, window);
      if Hits(KeysAfter(scope, qs[..j - 1], attempts, window), scope, qs[j - 1], key, attempts, window) {
        GrantedSnoc(c, qs[j - 1].now, |a|, attempts, window);
        if AnswerTo(scope, qs, j - 1, attempts, window).None? {
          LetPastEach(scope, qs[..j - 1], qs[j - 1], key, attempts, window);
        }
      } else {
        assert b == c;
      }
    }
  }

  lemma HitTimesSnoc(scope: string, qs: seq<Request>, key: string, attempts: nat, window: nat)
    requires qs != []
    ensures var front, q := qs[..|qs| - 1], qs[|qs| - 1];
            HitTimes(scope, qs, key, attempts, window)
            == HitTimes(scope, front, key, attempts, window)
               + (if Hits(KeysAfter(scope, front, attempts, window), scope, q, key, attempts, window) then [q.now] else [])
  {
  }

  lemma GrantedSnoc(c: seq<nat>, now: nat, i: nat, attempts: nat, window: nat)
    requires i <= |c|
    ensures Granted(c + [now], i, |c| + 1, attempts, window)
         == Granted(c, i, |c|, attempts, window) + (if Refusal(Hit(Serve(c, window), now, window), attempts, window).None? then 1 else 0)
  {
    hide Hit, Refusal, Serve;
    GrantedPrefix(c, c + [now], i, |c|, attempts, window);
    assert (c + [now])[..|c|] == c;
  }

  lemma LetPastEach(scope: string, qs: seq<Request>, q: Request, key: string, attempts: nat, window: nat)
    requires Hits(KeysAfter(scope, qs, attempts, window), scope, q, key, attempts, window)
    requires Served(KeysAfter(scope, qs, attempts, window), scope, q, attempts, window).1.None?
    ensures Refusal(Hit(Serve(HitTimes(scope, qs, key, attempts, window), window), q.now, window), attempts, window).None?
  {
    hide Hit, Refusal, HitSoFar, Answer, CounterKey, HitTimes;
    var keys := KeysAfter(scope, qs, attempts, window);
    CountersAreWindows(scope, qs, key, attempts, window);
    AllAnswered(At(keys, key), q.now, attempts, window);
    if q.account.Some? {
      BucketsDisjoint(scope, q.ip, q.account.value);
    }
  }

  lemma {:induction false} GrantedPrefix(c: seq<nat>, b: seq<nat>, i: nat, j: nat, attempts: nat, window: nat)
    requires c <= b && i <= j <= |c|
    ensures Granted(c, i, j, attempts, window) == Granted(b, i, j, attempts, window)
  {
    hide Hit, Refusal;
    if i < j {
      GrantedPrefix(c, b, i, j - 1, attempts, window);
      assert c[..j - 1] == b[..j - 1] && c[j - 1] == b[j - 1];
    }
  }

  // In any stretch of time no longer than the window at most 2 * attempts requests of
  // one IP, or of one account, are let through.
  lemma EnforceBound(scope: string, qs: seq<Request>, i: nat, j: nat, key: string, attempts: nat, window: nat)
    requires i < j <= |qs| && InTime(qs) && window > 0 && qs[j - 1].now - qs[i].now <= window
    ensures LetThrough(scope, qs, i, j, key, attempts, window) <= 2 * attempts
  {
    hide Hits, KeysAfter, Granted, HitTimes, AnswerTo;
    var a, b := HitTimes(scope, qs[..i], key, attempts, window), HitTimes(scope, qs[..j], key, attempts, window);
    LetThroughIsGranted(scope, qs, i, j, key, attempts, window);
    HitTimesGrow(scope, qs, i, j, key, attempts, window);
    if |a| == |b| {
      NoneGranted(b, |a|, attempts, window);
    } else {
      HitTimesInTime(scope, qs[..j], key, qs[j - 1].now, attempts, window);
      assert forall x, y :: 0 <= x < y < |b| ==> b[x] == (b + [qs[j - 1].now])[x] && b[y] == (b + [qs[j - 1].now])[y];
      var n :| i <= n < j && b[|a|] == qs[n].now;
      var m :| i <= m < j && b[|b| - 1] == qs[m].now;
      TimedBound(b, |a|, |b|, attempts, window);
    }
  }

  lemma NoneGranted(times: seq<nat>, i: nat, attempts: nat, window: nat)
    requires i <= |times|
    ensures Granted(times, i, i, attempts, window) == 0
  {
  }

  // `attempts` requests of one IP at second 0 and as many at second `window`.
  function TwoBurstsOf(ip: string, attempts: nat, window: nat): (qs: seq<Request>)
    ensures |qs| == 2 * attempts && InTime(qs)
  {
    seq(2 * attempts, k => Request(ip, None, if k < attempts then 0 else window))
  }

  lemma {:induction false} BurstsHit(scope: string, ip: string, j: nat, attempts: nat, window: nat)
    requires j <= 2 * attempts
    ensures HitTimes(scope, TwoBurstsOf(ip, attempts, window)[..j], CounterKey(scope, "ip", ip), attempts, window) == TwoBursts(attempts, window)[..j]
  {
    if j > 0 {
      BurstsHit(scope, ip, j - 1, attempts, window);
      assert TwoBurstsOf(ip, attempts, window)[..j][..j - 1] == TwoBurstsOf(ip, attempts, window)[..j - 1];
      assert TwoBursts(attempts, window)[..j] == TwoBursts(attempts, window)[..j - 1] + [TwoBursts(attempts, window)[j - 1]];
    }
  }

  // That bound is attained: every request of the two bursts is let through.
  lemma {:induction false} EnforceBoundIsTight(scope: string, ip: string, j: nat, attempts: nat, window: nat)
    requires j <= 2 * attempts && window > 0
    ensures LetThrough(scope, TwoBurstsOf(ip, attempts, window), 0, j, CounterKey(scope, "ip", ip), attempts, window) == j
  {
    hide Hit, CounterKey;
    if j > 0 {
      var qs, times := TwoBurstsOf(ip, attempts, window), TwoBursts(attempts, window);
      EnforceBoundIsTight(scope, ip, j - 1, attempts, window);
      BurstsHit(scope, ip, j - 1, attempts, window);
      BurstPosition(attempts, window, j - 1);
      HitRefinesWindow(times, j - 1, window);
      CountersAreWindows(scope, qs[..j - 1], CounterKey(scope, "ip", ip), attempts, window);
      AllAnswered(At(KeysAfter(scope, qs[..j - 1], attempts, window), CounterKey(scope, "ip", ip)), times[j - 1], attempts, window);
    }
  }

  // Refused, a client without an account that is alone on its IP is let through on
  // its next try exactly if it waited as long as it was told.
  lemma WaitingHelpsExactly(scope: string, qs: seq<Request>, ip: string, now: nat, again: nat, attempts: nat, window: nat)
    requires InTime(qs + [Request(ip, None, now)]) && now <= again && window > 0 && attempts > 0
    requires AnswerTo(scope, qs + [Request(ip, None, now)], |qs|, attempts, window).Some?
    ensures var first, second := Request(ip, None, now), Request(ip, None, again);
            AnswerTo(scope, qs + [first] + [second], |qs| + 1, attempts, window).None?
            <==> again >= now + AnswerTo(scope, qs + [first], |qs|, attempts, window).value
  {
    hide Hit, Refusal, HitSoFar, Answer, CounterKey, KeysAfter;
    var first, second, key := Request(ip, None, now), Request(ip, None, again), CounterKey(scope, "ip", ip);
    assert (qs + [first])[..|qs|] == qs && (qs + [first] + [second])[..|qs| + 1] == qs + [first];
    var times := HitTimes(scope, qs, key, attempts, window);
    HitTimesInTime(scope, qs, key, now, attempts, window);
    assert HitTimes(scope, qs + [first], key, attempts, window) == times + [now];
    CountersAreWindows(scope, qs, key, attempts, window);
    CountersAreWindows(scope, qs + [first], key, attempts, window);
    AllAnswered(At(KeysAfter(scope, qs, attempts, window), key), now, attempts, window);
    AllAnswered(At(KeysAfter(scope, qs + [first], attempts, window), key), again, attempts, window);
    assert (times + [now])[..|times|] == times && (times + [now] + [again])[..|times| + 1] == times + [now];
    RetryAfterExact(times + [now], again, attempts, window);
  }

  class Limiter {
    var keys: map<string, Entry>
    const attempts: nat
    const window: nat

    constructor (attempts: nat, window: nat)
      ensures keys == map[] && this.attempts == attempts && this.window == window
    {
      keys := map[];
      this.attempts := attempts;
      this.window := window;
    }

    ghost predicate OnlyTouches(before: map<string, Entry>, touched: set<string>)
      reads this
    {
      forall k :: k !in touched ==> At(keys, k) == At(before, k)
    }

    // INCR, then EXPIRE or TTL as the reply demands. The backend answers the first
    // `answered` commands of the call; None when one it needed went unanswered.
    method CounterIncr(key: string, now: nat, answered: nat) returns (reply: Option<(nat, int)>)
      modifies this
      ensures var e := At(old(keys), key);
              && At(keys, key) == HitSoFar(e, now, window, answered)
              && reply == (if answered >= Commands(e, now) then Some((Hit(e, now, window).count, Hit(e, now, window).ttl)) else None)
      ensures OnlyTouches(old(keys), {key})
    {
      if answered == 0 {
        return None;
      }
      var e := Incr(Seen(At(keys, key), now));
      keys := keys[key := e];
      if answered == 1 {
        return None;
      }
      if e.count == 1 {
        keys := keys[key := Expire(e, now, window)];
        return Some((1, window));
      }
      var ttl := Ttl(e, now);
      if ttl < 0 {
        if answered == 2 {
          return None;
        }
        keys := keys[key := Expire(e, now, window)];
        ttl := window;
      }
      return Some((e.count, ttl));
    }

    // A call that loses the backend is let through, but may have counted.
    method EnforceCounter(key: string, now: nat, answered: nat) returns (refusal: Option<int>)
      modifies this
      ensures At(keys, key) == HitSoFar(At(old(keys), key), now, window, answered)
      ensures refusal == Answer(At(old(keys), key), now, attempts, window, answered)
      ensures OnlyTouches(old(keys), {key})
    {
      var reply := CounterIncr(key, now, answered);
      var (count, ttl) := if reply.Some? then reply.value else (0, 0);
      refusal := if count > attempts then Some(if ttl > 0 then ttl else window) else None;
    }

    // A refused IP never reaches the account's counter, so it cannot spend the
    // budget of an account; an admitted request goes on to the account's counter,
    // which can lose the backend on its own.
    method Enforce(scope: string, ip: string, account: Option<string>, now: nat, enabled: bool, ipAnswered: nat, idAnswered: nat)
      returns (refusal: Option<int>)
      modifies this
      ensures !enabled ==> refusal.None? && keys == old(keys)
      ensures enabled ==>
                var ipKey := CounterKey(scope, "ip", ip);
                var ipAnswer := Answer(At(old(keys), ipKey), now, attempts, window, ipAnswered);
                && At(keys, ipKey) == HitSoFar(At(old(keys), ipKey), now, window, ipAnswered)
                && (ipAnswer.Some? || account.None? ==> refusal == ipAnswer && OnlyTouches(old(keys), {ipKey}))
                && (ipAnswer.None? && account.Some? ==>
                      var idKey := CounterKey(scope, "id", account.value);
                      && At(keys, idKey) == HitSoFar(At(old(keys), idKey), now, window, idAnswered)
                      && refusal == Answer(At(old(keys), idKey), now, attempts, window, idAnswered)
                      && OnlyTouches(old(keys), {ipKey, idKey}))
      ensures enabled && ipAnswered >= ALL && idAnswered >= ALL ==>
                var (served, answer) := Served(old(keys), scope, Request(ip, account, now), attempts, window);
                refusal == answer && forall k :: At(keys, k) == At(served, k)
    {
      if !enabled {
        return None;
      }
      refusal := EnforceCounter(CounterKey(scope, "ip", ip), now, ipAnswered);
      if refusal.Some? || account.None? {
        return;
      }
      BucketsDisjoint(scope, ip, account.value);
      refusal := EnforceCounter(CounterKey(scope, "id", account.value), now, idAnswered);
    }
  }
}
