// The response interceptor of the HTTP client: one token refresh at a time,
// other unauthorised requests queued behind it and released together.

module RefreshProtocol {

  datatype Phase =
    | Idle               // not sent yet
    | InFlight           // sent, no answer yet
    | Waiting            // in failedQueue
    | Refreshing         // awaiting refreshSession()
    | Settled(ok: bool)  // the caller's promise is resolved or rejected

  // `flight` numbers the refresh a queued request waits for.
  datatype Arrival = Arrival(request: nat, flight: nat)
  datatype Release = Release(request: nat, flight: nat, ok: bool)

  datatype Net = Net(
    phase: seq<Phase>,        // per request
    retried: seq<bool>,       // config._retry
    sends: seq<nat>,          // transmissions so far
    isRefreshing: bool,
    queue: seq<nat>,          // failedQueue, oldest first
    outcomes: seq<bool>,      // finished refreshes, in order
    arrivals: seq<Arrival>,   // every push on failedQueue, in order
    releases: seq<Release>)   // every resolve/reject by processQueue, in order

  datatype Event =
    | Send(r: nat)
    | Reply(r: nat, ok: bool)       // success, or an error other than 401
    | Unauthorized(r: nat)          // 401
    | RefreshDone(r: nat, ok: bool) // refreshSession() resolved or rejected

  function Init(n: nat): Net {
    Net(seq(n, _ => Idle), seq(n, _ => false), seq(n, _ => 0), false, [], [], [], [])
  }

  predicate Enabled(net: Net, e: Event) {
    && e.r < |net.phase| == |net.retried| == |net.sends|
    && match e
       case Send(r) => net.phase[r].Idle?
       case Reply(r, _) => net.phase[r].InFlight?
       case Unauthorized(r) => net.phase[r].InFlight?
       case RefreshDone(r, _) => net.phase[r].Refreshing?
  }

  // `exempt` marks the login and refresh endpoints, whose 401 is final.
  function OnUnauthorized(net: Net, r: nat, exempt: set<nat>): Net
    requires Enabled(net, Unauthorized(r))
  {
    if net.retried[r] || r in exempt then net.(phase := net.phase[r := Settled(false)])
    else if net.isRefreshing then
      net.(phase := net.phase[r := Waiting], queue := net.queue + [r],
           arrivals := net.arrivals + [Arrival(r, |net.outcomes|)])
    else
      net.(phase := net.phase[r := Refreshing], retried := net.retried[r := true], isRefreshing := true)
  }

  // Released requests are sent again, or rejected with the refresh error.
  function Released(phase: seq<Phase>, queue: seq<nat>, ok: bool): (p: seq<Phase>)
    ensures |p| == |phase|
  {
    seq(|phase|, i requires 0 <= i < |phase| => if i in queue then (if ok then InFlight else Settled(false)) else phase[i])
  }

  function Resent(sends: seq<nat>, queue: seq<nat>, ok: bool): (p: seq<nat>)
    ensures |p| == |sends|
  {
    seq(|sends|, i requires 0 <= i < |sends| => if ok && i in queue then sends[i] + 1 else sends[i])
  }

  function Releases(queue: seq<nat>, flight: nat, ok: bool): (p: seq<Release>)
    ensures |p| == |queue|
  {
    seq(|queue|, i requires 0 <= i < |queue| => Release(queue[i], flight, ok))
  }

  // Draining, resending and clearing the flag run without yielding.
  function OnRefreshDone(net: Net, r: nat, ok: bool): Net
    requires Enabled(net, RefreshDone(r, ok))
  {
    net.(phase := Released(net.phase, net.queue + [r], ok),
         sends := Resent(net.sends, net.queue + [r], ok),
         isRefreshing := false,
         queue := [],
         outcomes := net.outcomes + [ok],
         releases := net.releases + Releases(net.queue, |net.outcomes|, ok))
  }

  function Step(net: Net, e: Event, exempt: set<nat>): Net
    requires Enabled(net, e)
  {
    match e
    case Send(r) => net.(phase := net.phase[r := InFlight], sends := net.sends[r := net.sends[r] + 1])
    case Reply(r, ok) => net.(phase := net.phase[r := Settled(ok)])
    case Unauthorized(r) => OnUnauthorized(net, r, exempt)
    case RefreshDone(r, ok) => OnRefreshDone(net, r, ok)
  }

  // A run is a sequence of events each of which can happen when it does.
  predicate Feasible(net: Net, events: seq<Event>, exempt: set<nat>)
    decreases |events|
  {
    events == [] || (Enabled(net, events[0]) && Feasible(Step(net, events[0], exempt), events[1..], exempt))
  }

  function Run(net: Net, events: seq<Event>, exempt: set<nat>): Net
    requires Feasible(net, events, exempt)
    decreases |events|
  {
    if events == [] then net else Run(Step(net, events[0], exempt), events[1..], exempt)
  }

  function Trues(s: seq<bool>): (n: nat)
    ensures n <= |s|
  {
    if s == [] then 0 else (if s[0] then 1 else 0) + Trues(s[1..])
  }

  lemma {:induction false} TruesSet(s: seq<bool>, i: nat)
    requires i < |s| && !s[i]
    ensures Trues(s[i := true]) == Trues(s) + 1
  {
    if i == 0 {
      assert s[0 := true][1..] == s[1..];
    } else {
      TruesSet(s[1..], i - 1);
      assert s[i := true][1..] == s[1..][i - 1 := true];
    }
  }

  lemma {:induction false} NoTrues(s: seq<bool>)
    requires forall i :: 0 <= i < |s| ==> !s[i]
    ensures Trues(s) == 0
  {
    if s != [] {
      NoTrues(s[1..]);
    }
  }

  // --- What every reachable state satisfies ---

  // The queue holds exactly the waiting requests, each once, and only while a
  // refresh is running.
  ghost predicate QueueOk(net: Net) {
    && (forall i :: 0 <= i < |net.phase| ==> (net.phase[i].Waiting? <==> i in net.queue))
    && (forall k :: 0 <= k < |net.queue| ==> net.queue[k] < |net.phase|)
    && (forall j, k :: 0 <= j < k < |net.queue| ==> net.queue[j] != net.queue[k])
    && (net.queue != [] ==> net.isRefreshing)
  }

  // One refresh at most, and exactly while the flag is up; every refresh that
  // was started took a fresh _retry.
  ghost predicate FlightOk(net: Net) {
    && (forall i, j :: 0 <= i < j < |net.phase| ==> !(net.phase[i].Refreshing? && net.phase[j].Refreshing?))
    && (net.isRefreshing <==> exists i :: 0 <= i < |net.phase| && net.phase[i].Refreshing?)
    && |net.outcomes| + (if net.isRefreshing then 1 else 0) == Trues(net.retried)
  }

  // Releases are the arrivals, in order, each with the outcome of its flight.
  ghost predicate FifoOk(net: Net) {
    && |net.arrivals| == |net.releases| + |net.queue|
    && (forall k :: 0 <= k < |net.releases| ==>
          var x := net.releases[k];
          Arrival(x.request, x.flight) == net.arrivals[k] && x.flight < |net.outcomes| && x.ok == net.outcomes[x.flight])
    && (forall k :: 0 <= k < |net.queue| ==>
          net.arrivals[|net.releases| + k] == Arrival(net.queue[k], |net.outcomes|))
  }

  ghost predicate SendsOk(net: Net) {
    forall i :: 0 <= i < |net.sends| ==>
      net.sends[i] <= 1 + |net.outcomes| && (i < |net.phase| && net.phase[i].Idle? ==> net.sends[i] == 0)
  }

  ghost predicate Inv(net: Net) {
    |net.phase| == |net.retried| == |net.sends| && QueueOk(net) && FlightOk(net) && FifoOk(net) && SendsOk(net)
  }

  lemma InitInv(n: nat)
    ensures Inv(Init(n))
  {
    NoTrues(Init(n).retried);
  }

  lemma StepKeepsQueue(net: Net, e: Event, exempt: set<nat>)
    requires Inv(net) && Enabled(net, e)
    ensures QueueOk(Step(net, e, exempt))
  {
    hide FifoOk, SendsOk, FlightOk;
  }

  lemma RefreshDoneKeepsFlight(net: Net, r: nat, ok: bool)
    requires Inv(net) && Enabled(net, RefreshDone(r, ok))
    ensures FlightOk(OnRefreshDone(net, r, ok))
  {
    var v := OnRefreshDone(net, r, ok);
    forall i | 0 <= i < |v.phase|
      ensures !v.phase[i].Refreshing?
    {
      assert i < r ==> !net.phase[i].Refreshing?;
      assert r < i ==> !net.phase[i].Refreshing?;
    }
  }

  lemma StepKeepsFlight(net: Net, e: Event, exempt: set<nat>)
    requires Inv(net) && Enabled(net, e)
    ensures FlightOk(Step(net, e, exempt))
  {
    hide QueueOk, FifoOk, SendsOk, Released, Resent, Releases;
    var v := Step(net, e, exempt);
    match e {
      case Unauthorized(r) =>
        if v.retried != net.retried {
          TruesSet(net.retried, r);
          assert v.phase[r].Refreshing?;
        } else if net.isRefreshing {
          var i :| 0 <= i < |net.phase| && net.phase[i].Refreshing?;
          assert v.phase[i].Refreshing?;
        }
      case RefreshDone(r, ok) => RefreshDoneKeepsFlight(net, r, ok);
      case _ =>
        if net.isRefreshing {
          var i :| 0 <= i < |net.phase| && net.phase[i].Refreshing?;
          assert v.phase[i].Refreshing?;
        }
    }
  }

  lemma ReleaseKeepsFifo(net: Net, r: nat, ok: bool)
    requires Inv(net) && Enabled(net, RefreshDone(r, ok))
    ensures FifoOk(OnRefreshDone(net, r, ok))
  {
    hide QueueOk, FlightOk, SendsOk, Released, Resent;
    var v := OnRefreshDone(net, r, ok);
    var m := |net.releases|;
    forall k | 0 <= k < |v.releases|
      ensures var x := v.releases[k];
              Arrival(x.request, x.flight) == v.arrivals[k] && x.flight < |v.outcomes| && x.ok == v.outcomes[x.flight]
    {
      if k < m {
        assert v.releases[k] == net.releases[k];
      } else {
        assert v.releases[k] == Releases(net.queue, |net.outcomes|, ok)[k - m];
        assert net.arrivals[m + (k - m)] == Arrival(net.queue[k - m], |net.outcomes|);
      }
    }
  }

  lemma StepKeepsFifo(net: Net, e: Event, exempt: set<nat>)
    requires Inv(net) && Enabled(net, e)
    ensures FifoOk(Step(net, e, exempt))
  {
    hide QueueOk, FlightOk, SendsOk, OnRefreshDone;
    if e.RefreshDone? {
      ReleaseKeepsFifo(net, e.r, e.ok);
    }
  }

  lemma StepKeepsSends(net: Net, e: Event, exempt: set<nat>)
    requires Inv(net) && Enabled(net, e)
    ensures SendsOk(Step(net, e, exempt))
  {
  }

  lemma StepKeepsInv(net: Net, e: Event, exempt: set<nat>)
    requires Inv(net) && Enabled(net, e)
    ensures Inv(Step(net, e, exempt))
  {
    StepKeepsQueue(net, e, exempt);
    StepKeepsFlight(net, e, exempt);
    StepKeepsFifo(net, e, exempt);
    StepKeepsSends(net, e, exempt);
  }

  lemma {:induction false} RunKeepsInv(net: Net, events: seq<Event>, exempt: set<nat>)
    requires Inv(net) && Feasible(net, events, exempt)
    ensures Inv(Run(net, events, exempt))
    ensures |Run(net, events, exempt).phase| == |net.phase|
    decreases |events|
  {
    if events != [] {
      StepKeepsInv(net, events[0], exempt);
      RunKeepsInv(Step(net, events[0], exempt), events[1..], exempt);
    }
  }

  // In every run of n requests: a single refresh at a time, exactly while the
  // flag is up; a non-empty queue only behind it; at most n refreshes in all;
  // and no request transmitted more than n + 1 times.
  lemma SingleFlight(n: nat, events: seq<Event>, exempt: set<nat>)
    requires Feasible(Init(n), events, exempt)
    ensures var net := Run(Init(n), events, exempt);
            && (forall i, j :: 0 <= i < j < |net.phase| ==> !(net.phase[i].Refreshing? && net.phase[j].Refreshing?))
            && (net.isRefreshing <==> exists i :: 0 <= i < |net.phase| && net.phase[i].Refreshing?)
            && (net.queue != [] ==> net.isRefreshing)
            && |net.outcomes| + (if net.isRefreshing then 1 else 0) <= n
            && (forall i :: 0 <= i < |net.sends| ==> net.sends[i] <= n + 1)
  {
    InitInv(n);
    RunKeepsInv(Init(n), events, exempt);
  }

  // Every queued request is released exactly once, in order of arrival, with the
  // outcome of the refresh it waited for; the rest still wait, in order.
  lemma ReleasedInOrder(n: nat, events: seq<Event>, exempt: set<nat>)
    requires Feasible(Init(n), events, exempt)
    ensures FifoOk(Run(Init(n), events, exempt))
  {
    InitInv(n);
    RunKeepsInv(Init(n), events, exempt);
  }

  // --- What each answer means for a request ---

  // Login and refresh calls stay out of it: never queued, never refreshing, never
  // marked as retried, sent at most once.
  ghost predicate StaysOut(net: Net, exempt: set<nat>) {
    forall r :: r in exempt && r < |net.phase| == |net.retried| == |net.sends| ==>
      && !net.phase[r].Waiting? && !net.phase[r].Refreshing? && !net.retried[r]
      && net.sends[r] == (if net.phase[r].Idle? then 0 else 1)
  }

  lemma StepStaysOut(net: Net, e: Event, exempt: set<nat>)
    requires Inv(net) && StaysOut(net, exempt) && Enabled(net, e)
    ensures StaysOut(Step(net, e, exempt), exempt)
  {
    hide FifoOk, SendsOk, FlightOk, Releases;
  }

  lemma {:induction false} RunStaysOut(net: Net, events: seq<Event>, exempt: set<nat>)
    requires Inv(net) && StaysOut(net, exempt) && Feasible(net, events, exempt)
    ensures StaysOut(Run(net, events, exempt), exempt)
    decreases |events|
  {
    hide Inv, StaysOut, Step;
    if events != [] {
      StepKeepsInv(net, events[0], exempt);
      StepStaysOut(net, events[0], exempt);
      RunStaysOut(Step(net, events[0], exempt), events[1..], exempt);
    }
  }

  // In every run of n requests the 401 of an exempt request is its final failure and
  // leaves the flag, the queue and every other request alone, while the first 401 of
  // any other request makes it refresh, or wait for the refresh that is running.
  lemma ExemptNeverRefreshes(n: nat, events: seq<Event>, exempt: set<nat>, r: nat)
    requires Feasible(Init(n), events, exempt) && r < n
    ensures StaysOut(Run(Init(n), events, exempt), exempt)
    ensures var net := Run(Init(n), events, exempt);
            && |net.phase| == |net.retried| == n
            && (Enabled(net, Unauthorized(r)) ==>
              var after := Step(net, Unauthorized(r), exempt);
              && |after.phase| == |after.retried| == n
              && (forall i :: 0 <= i < n && i != r ==> after.phase[i] == net.phase[i] && after.retried[i] == net.retried[i])
              && after.sends == net.sends && after.outcomes == net.outcomes && after.releases == net.releases
              && (r in exempt || net.retried[r] ==>
                    after.phase[r] == Settled(false) && after.retried == net.retried
                    && after.isRefreshing == net.isRefreshing && after.queue == net.queue)
              && (r !in exempt && !net.retried[r] ==>
                    && after.isRefreshing
                    && (if net.isRefreshing then after.phase[r].Waiting? && after.queue == net.queue + [r] && !after.retried[r]
                        else after.phase[r].Refreshing? && after.queue == net.queue && after.retried[r])))
  {
    hide Run, Feasible;
    InitInv(n);
    RunKeepsInv(Init(n), events, exempt);
    RunStaysOut(Init(n), events, exempt);
  }

  // When a refresh ends, the refresher and everyone who waits are sent again if it
  // got a token, and have failed if not; nobody else notices, and the next 401 starts
  // a refresh of its own.
  lemma RefreshReleasesAll(n: nat, events: seq<Event>, exempt: set<nat>, r: nat, ok: bool)
    requires Feasible(Init(n), events, exempt) && Enabled(Run(Init(n), events, exempt), RefreshDone(r, ok))
    ensures var net := Run(Init(n), events, exempt);
            var after := Step(net, RefreshDone(r, ok), exempt);
            && !after.isRefreshing && after.queue == [] && after.retried == net.retried && after.outcomes == net.outcomes + [ok]
            && |after.phase| == |after.sends| == |net.phase| == |net.sends| == n
            && forall i :: 0 <= i < n ==>
                 if i == r || net.phase[i].Waiting? then
                   after.phase[i] == (if ok then InFlight else Settled(false)) && after.sends[i] == net.sends[i] + (if ok then 1 else 0)
                 else after.phase[i] == net.phase[i] && after.sends[i] == net.sends[i]
  {
    hide Run, Feasible, FifoOk, SendsOk, FlightOk, Releases;
    InitInv(n);
    RunKeepsInv(Init(n), events, exempt);
  }

  // What a caller was told never changes, and its request is not sent again.
  lemma {:induction false} SettledStays(net: Net, events: seq<Event>, exempt: set<nat>, i: nat)
    requires Inv(net) && Feasible(net, events, exempt) && i < |net.phase| && net.phase[i].Settled?
    ensures var after := Run(net, events, exempt);
            |after.phase| == |after.sends| == |net.phase| && after.phase[i] == net.phase[i] && after.sends[i] == net.sends[i]
    decreases |events|
  {
    hide Inv, Step;
    if events == [] {
      SameLengths(net);
    } else {
      StepSparesSettled(net, events[0], exempt, i);
      StepKeepsInv(net, events[0], exempt);
      SettledStays(Step(net, events[0], exempt), events[1..], exempt, i);
    }
  }

  lemma SameLengths(net: Net)
    requires Inv(net)
    ensures |net.phase| == |net.retried| == |net.sends|
  {
  }

  lemma StepSparesSettled(net: Net, e: Event, exempt: set<nat>, i: nat)
    requires Inv(net) && Enabled(net, e) && i < |net.phase| && net.phase[i].Settled?
    ensures var after := Step(net, e, exempt);
            |after.phase| == |net.phase| == |after.sends| == |net.sends| && after.phase[i] == net.phase[i] && after.sends[i] == net.sends[i]
  {
    hide FifoOk, SendsOk, FlightOk, Releases;
  }

  // A request is told what the server answered: success, or the error.
  lemma ReplySettles(net: Net, r: nat, ok: bool, exempt: set<nat>)
    requires Enabled(net, Reply(r, ok))
    ensures var after := Step(net, Reply(r, ok), exempt);
            after.phase[r] == Settled(ok) && after == net.(phase := after.phase)
            && forall i :: 0 <= i < |net.phase| && i != r ==> after.phase[i] == net.phase[i]
  {
  }

  // --- Termination ---

  function Weight(p: Phase): nat {
    match p
    case Idle => 3
    case InFlight => 2
    case Waiting => 1
    case Refreshing => 1
    case Settled(_) => 0
  }

  function Work(phase: seq<Phase>): (w: nat)
    ensures w <= 3 * |phase|
  {
    if phase == [] then 0 else Weight(phase[0]) + Work(phase[1..])
  }

  lemma {:induction false} WorkUpdate(phase: seq<Phase>, i: nat, p: Phase)
    requires i < |phase|
    ensures Work(phase[i := p]) == Work(phase) - Weight(phase[i]) + Weight(p)
  {
    if i == 0 {
      assert phase[0 := p][1..] == phase[1..];
    } else {
      WorkUpdate(phase[1..], i - 1, p);
      assert phase[i := p][1..] == phase[1..][i - 1 := p];
    }
  }

  // Refreshes that can still start or finish.
  function Tokens(net: Net): nat {
    2 * (|net.retried| - Trues(net.retried)) + (if net.isRefreshing then 1 else 0)
  }

  function Measure(net: Net): nat {
    Tokens(net) * (3 * |net.phase| + 1) + Work(net.phase)
  }

  lemma {:induction false} Multiply(k: nat, m: nat)
    requires k > 0
    ensures k * m >= m
  {
    if k > 1 {
      Multiply(k - 1, m);
      assert k * m == (k - 1) * m + m;
    }
  }

  lemma FewerTokens(a: nat, b: nat, n: nat, v: nat, w: nat)
    requires a < b && v <= 3 * n
    ensures a * (3 * n + 1) + v < b * (3 * n + 1) + w
  {
    Multiply(b - a, 3 * n + 1);
    assert b * (3 * n + 1) == a * (3 * n + 1) + (b - a) * (3 * n + 1);
  }

  // The measure goes down at every event, although a refresh sends every queued
  // request again.
  lemma MeasureDecreases(net: Net, e: Event, exempt: set<nat>)
    requires Inv(net) && Enabled(net, e)
    ensures Measure(Step(net, e, exempt)) < Measure(net)
  {
    hide FifoOk, SendsOk, QueueOk, Releases, Resent;
    var v := Step(net, e, exempt);
    if v.retried != net.retried {
      TruesSet(net.retried, e.r);
      FewerTokens(Tokens(v), Tokens(net), |net.phase|, Work(v.phase), Work(net.phase));
    } else if e.RefreshDone? {
      assert net.phase[e.r].Refreshing?;
      FewerTokens(Tokens(v), Tokens(net), |net.phase|, Work(v.phase), Work(net.phase));
    } else {
      WorkUpdate(net.phase, e.r, v.phase[e.r]);
      assert v.phase == net.phase[e.r := v.phase[e.r]];
    }
  }

  lemma {:induction false} RunBounded(net: Net, events: seq<Event>, exempt: set<nat>)
    requires Inv(net) && Feasible(net, events, exempt)
    ensures |events| + Measure(Run(net, events, exempt)) <= Measure(net)
    decreases |events|
  {
    if events != [] {
      StepKeepsInv(net, events[0], exempt);
      MeasureDecreases(net, events[0], exempt);
      RunBounded(Step(net, events[0], exempt), events[1..], exempt);
    }
  }

  // Unless every request is settled, something can happen: nobody waits for a
  // refresh that is not running.
  lemma NeverStuck(net: Net)
    requires Inv(net)
    requires exists i :: 0 <= i < |net.phase| && !net.phase[i].Settled?
    ensures exists e :: Enabled(net, e)
  {
    var i :| 0 <= i < |net.phase| && !net.phase[i].Settled?;
    match net.phase[i] {
      case Idle => assert Enabled(net, Send(i));
      case InFlight => assert Enabled(net, Reply(i, true));
      case Refreshing => assert Enabled(net, RefreshDone(i, true));
      case Waiting =>
        assert i in net.queue;
        var k :| 0 <= k < |net.phase| && net.phase[k].Refreshing?;
        assert Enabled(net, RefreshDone(k, true));
    }
  }

  // Whatever the server answers, a run of n requests has at most
  // 2n(3n + 1) + 3n events, and one that cannot go on has settled every request.
  lemma EveryRunSettles(n: nat, events: seq<Event>, exempt: set<nat>)
    requires Feasible(Init(n), events, exempt)
    ensures |events| <= 2 * n * (3 * n + 1) + 3 * n
    ensures var net := Run(Init(n), events, exempt);
            (forall e :: !Enabled(net, e)) ==> forall i :: 0 <= i < |net.phase| ==> net.phase[i].Settled?
  {
    hide Run, Feasible, FifoOk, SendsOk, QueueOk, Step;
    InitInv(n);
    RunKeepsInv(Init(n), events, exempt);
    RunBounded(Init(n), events, exempt);
    NoTrues(Init(n).retried);
    var net := Run(Init(n), events, exempt);
    if (forall e :: !Enabled(net, e)) && exists i :: 0 <= i < |net.phase| && !net.phase[i].Settled? {
      NeverStuck(net);
      assert false;
    }
  }

  // --- The bound on transmissions is attained ---

  // Every request was sent and is in flight again; requests 1..j have refreshed,
  // and request 0 was queued behind each of them.
  ghost predicate AfterRounds(net: Net, n: nat, j: nat) {
    && |net.phase| == |net.retried| == |net.sends| == n && 0 <= j < n
    && (forall i :: 0 <= i < n ==> net.phase[i].InFlight? && (net.retried[i] <==> 1 <= i <= j))
    && net.sends[0] == j + 1 && net.queue == [] && !net.isRefreshing
  }

  // One more round: another request refreshes with request 0 queued behind it.
  lemma Round(net: Net, n: nat, j: nat) returns (next: Net)
    requires AfterRounds(net, n, j) && j + 1 < n
    ensures AfterRounds(next, n, j + 1)
    ensures forall rest :: Feasible(next, rest, {}) ==>
              var events := [Unauthorized(j + 1), Unauthorized(0), RefreshDone(j + 1, true)] + rest;
              Feasible(net, events, {}) && Run(net, events, {}) == Run(next, rest, {})
  {
    hide Run, Feasible;
    var a := Step(net, Unauthorized(j + 1), {});
    var b := Step(a, Unauthorized(0), {});
    next := Step(b, RefreshDone(j + 1, true), {});
    forall rest | Feasible(next, rest, {})
      ensures var events := [Unauthorized(j + 1), Unauthorized(0), RefreshDone(j + 1, true)] + rest;
              Feasible(net, events, {}) && Run(net, events, {}) == Run(next, rest, {})
    {
      RunConsThree(net, Unauthorized(j + 1), Unauthorized(0), RefreshDone(j + 1, true), rest, {});
    }
  }

  lemma RunConsThree(net: Net, e1: Event, e2: Event, e3: Event, rest: seq<Event>, exempt: set<nat>)
    requires Enabled(net, e1) && Enabled(Step(net, e1, exempt), e2) && Enabled(Step(Step(net, e1, exempt), e2, exempt), e3)
    requires Feasible(Step(Step(Step(net, e1, exempt), e2, exempt), e3, exempt), rest, exempt)
    ensures Feasible(net, [e1, e2, e3] + rest, exempt)
    ensures Run(net, [e1, e2, e3] + rest, exempt) == Run(Step(Step(Step(net, e1, exempt), e2, exempt), e3, exempt), rest, exempt)
  {
    hide Run, Feasible, Step;
    var a := Step(net, e1, exempt);
    var b := Step(a, e2, exempt);
    RunCons(b, e3, rest, exempt);
    RunCons(a, e2, [e3] + rest, exempt);
    RunCons(net, e1, [e2] + ([e3] + rest), exempt);
    assert [e1] + ([e2] + ([e3] + rest)) == [e1, e2, e3] + rest;
  }

  lemma {:induction false} Rounds(net: Net, n: nat, j: nat) returns (events: seq<Event>)
    requires AfterRounds(net, n, j)
    ensures Feasible(net, events, {}) && |Run(net, events, {}).sends| == n && Run(net, events, {}).sends[0] == n + 1
    decreases n - j
  {
    hide Run, Feasible;
    if j + 1 < n {
      var next := Round(net, n, j);
      var rest := Rounds(next, n, j + 1);
      events := [Unauthorized(j + 1), Unauthorized(0), RefreshDone(j + 1, true)] + rest;
    } else {
      events := LastRound(net, n, j);
    }
  }

  // Request 0 was never marked as retried, so it refreshes for itself.
  lemma LastRound(net: Net, n: nat, j: nat) returns (events: seq<Event>)
    requires AfterRounds(net, n, j) && j + 1 == n
    ensures Feasible(net, events, {}) && |Run(net, events, {}).sends| == n && Run(net, events, {}).sends[0] == n + 1
  {
    hide Run, Feasible;
    var a := Step(net, Unauthorized(0), {});
    var b := Step(a, RefreshDone(0, true), {});
    RunNil(b, {});
    RunCons(a, RefreshDone(0, true), [], {});
    RunCons(net, Unauthorized(0), [RefreshDone(0, true)] + [], {});
    events := [Unauthorized(0)] + ([RefreshDone(0, true)] + []);
  }

  // Requests below i are sent, the others not yet.
  ghost predicate SentBelow(net: Net, n: nat, i: nat) {
    && |net.phase| == |net.retried| == |net.sends| == n && i <= n
    && (forall k :: 0 <= k < n ==> !net.retried[k] && net.phase[k] == (if k < i then InFlight else Idle))
    && (forall k :: 0 <= k < n ==> net.sends[k] == (if k < i then 1 else 0))
    && net.queue == [] && !net.isRefreshing
  }

  lemma {:induction false} SendRest(net: Net, n: nat, i: nat) returns (events: seq<Event>)
    requires SentBelow(net, n, i) && n > 0
    ensures Feasible(net, events, {}) && |Run(net, events, {}).sends| == n && Run(net, events, {}).sends[0] == n + 1
    decreases n - i
  {
    hide Run, Feasible;
    if i == n {
      events := Rounds(net, n, 0);
    } else {
      var next := Step(net, Send(i), {});
      var rest := SendRest(next, n, i + 1);
      RunCons(net, Send(i), rest, {});
      events := [Send(i)] + rest;
    }
  }

  // A queued request is sent again without being marked as retried. For every n
  // there is a run of n requests in which one is queued behind the refresh of each
  // other request and then refreshes for itself: it is transmitted n + 1 times.
  lemma QueuedRequestMayRefreshAgain(n: nat)
    requires n > 0
    ensures exists events :: Feasible(Init(n), events, {}) && var net := Run(Init(n), events, {}); |net.sends| == n && net.sends[0] == n + 1
  {
    hide Run, Feasible;
    var events := SendRest(Init(n), n, 0);
  }

  lemma RunNil(net: Net, exempt: set<nat>)
    ensures Feasible(net, [], exempt) && Run(net, [], exempt) == net
  {
  }

  lemma RunCons(net: Net, e: Event, events: seq<Event>, exempt: set<nat>)
    requires Enabled(net, e) && Feasible(Step(net, e, exempt), events, exempt)
    ensures Feasible(net, [e] + events, exempt)
    ensures Run(net, [e] + events, exempt) == Run(Step(net, e, exempt), events, exempt)
  {
    assert ([e] + events)[1..] == events;
  }
}

// The module-level state of the client and its handlers, each proved to make
// the protocol step it stands for.
module AxiosClient {
  import opened RefreshProtocol

  class Client {
    var isRefreshing: bool
    var failedQueue: seq<nat>
    var phase: seq<Phase>
    var retried: seq<bool>
    var sends: seq<nat>
    const exempt: set<nat>
    ghost var outcomes: seq<bool>
    ghost var arrivals: seq<Arrival>
    ghost var releases: seq<Release>

    constructor (n: nat, exempt: set<nat>)
      ensures View() == Init(n) && this.exempt == exempt
    {
      isRefreshing, failedQueue := false, [];
      phase, retried, sends := seq(n, _ => Idle), seq(n, _ => false), seq(n, _ => 0);
      this.exempt := exempt;
      outcomes, arrivals, releases := [], [], [];
    }

    ghost function View(): Net
      reads this
    {
      Net(phase, retried, sends, isRefreshing, failedQueue, outcomes, arrivals, releases)
    }

    method Transmit(r: nat)
      requires Enabled(View(), Send(r))
      modifies this
      ensures View() == Step(old(View()), Send(r), exempt)
    {
      phase, sends := phase[r := InFlight], sends[r := sends[r] + 1];
    }

    method HandleReply(r: nat, ok: bool)
      requires Enabled(View(), Reply(r, ok))
      modifies this
      ensures View() == Step(old(View()), Reply(r, ok), exempt)
    {
      phase := phase[r := Settled(ok)];
    }

    // The interceptor up to its first await.
    method HandleUnauthorized(r: nat)
      requires Enabled(View(), Unauthorized(r))
      modifies this
      ensures View() == Step(old(View()), Unauthorized(r), exempt)
    {
      if !retried[r] && r !in exempt {
        if isRefreshing {
          failedQueue := failedQueue + [r];
          arrivals := arrivals + [Arrival(r, |outcomes|)];
          phase := phase[r := Waiting];
          return;
        }
        retried := retried[r := true];
        isRefreshing := true;
        phase := phase[r := Refreshing];
        return;
      }
      phase := phase[r := Settled(false)];
    }

    method ProcessQueue(ok: bool)
      requires |phase| == |sends|
      requires forall k :: 0 <= k < |failedQueue| ==> failedQueue[k] < |phase|
      requires forall j, k :: 0 <= j < k < |failedQueue| ==> failedQueue[j] != failedQueue[k]
      modifies this
      ensures View() == old(View()).(phase := Released(old(phase), old(failedQueue), ok),
                                     sends := Resent(old(sends), old(failedQueue), ok),
                                     queue := [],
                                     releases := old(releases) + Releases(old(failedQueue), |outcomes|, ok))
    {
      var i := 0;
      while i < |failedQueue|
        invariant i <= |failedQueue|
        invariant failedQueue == old(failedQueue) && retried == old(retried) && isRefreshing == old(isRefreshing)
        invariant outcomes == old(outcomes) && arrivals == old(arrivals)
        invariant phase == Released(old(phase), failedQueue[..i], ok)
        invariant sends == Resent(old(sends), failedQueue[..i], ok)
        invariant releases == old(releases) + Releases(failedQueue[..i], |outcomes|, ok)
      {
        var r := failedQueue[i];
        assert r !in failedQueue[..i];
        if ok {
          phase, sends := phase[r := InFlight], sends[r := sends[r] + 1];
        } else {
          phase := phase[r := Settled(false)];
        }
        releases := releases + [Release(r, |outcomes|, ok)];
        assert failedQueue[..i + 1] == failedQueue[..i] + [r];
        i := i + 1;
      }
      assert failedQueue[..i] == failedQueue;
      failedQueue := [];
    }

    // The continuation of the refresher: drain, resend or reject, clear the flag.
    method HandleRefreshDone(r: nat, ok: bool)
      requires Inv(View()) && Enabled(View(), RefreshDone(r, ok))
      modifies this
      ensures View() == Step(old(View()), RefreshDone(r, ok), exempt)
    {
      ProcessQueue(ok);
      if ok {
        phase, sends := phase[r := InFlight], sends[r := sends[r] + 1];
      } else {
        phase := phase[r := Settled(false)];
      }
      isRefreshing := false;
      outcomes := outcomes + [ok];
    }
  }
}
