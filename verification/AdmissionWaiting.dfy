/** Bounded waiting over runs of the admission protocol: how many polls of others can be served
    while one request stays in its loop. */
module AdmissionWaiting {
  import opened Basics
  import opened Scheduling
  import opened Admission
  import opened AdmissionQueue
  import opened AdmissionRuns
  import opened AdmissionSlots
  import opened DispatchOrder

  /** A poll whose request was dispatched: it leaves its loop for a slot, or because none of its
      candidates is large enough. */
  ghost predicate ServedByPoll(e: Event, g': Gateway) {
    e.Poll? && e.r in g'.phases && (g'.phases[e.r].Running? || g'.phases[e.r] == Gone(NoBackend))
  }

  /** Polls served in the events i up to j of a run. */
  ghost function PollsServed(states: seq<Gateway>, events: seq<Event>, i: nat, j: nat): nat
    requires i <= j <= |events| < |states|
    decreases j - i
  {
    if i == j then 0
    else PollsServed(states, events, i, j - 1) + if ServedByPoll(events[j - 1], states[j]) then 1 else 0
  }

  /** The session of request r in tier zero, and whether the head of its queue has a candidate at time t. */
  ghost predicate HeadHasCandidate(g: Gateway, s: SessionId, t: int) {
    HasLane(g.queue, 0, s) && !HeadIsBlocked(g, LaneOf(g.queue, 0, s), t)
  }

  ghost predicate InLoop(g: Gateway, r: RequestId) { r in g.requests && r in g.phases && g.phases[r].Waiting? }

  // ---------------------------------------------------------------- a waiter's place in the queue

  lemma NotQueuedNoCopies(g: Gateway, r: RequestId, s: SessionId)
    requires QueueInv(g) && r in g.requests && s == g.requests[r].QueueSession(r) && !Waits(g.queue, 0, s, r)
    ensures Copies(g.queue, r) == 0
  {
    forall p | p in g.queue.tiers ensures FreeOf(g.queue.tiers[p], r) {
      NotQueuedInTier(g, r, s, p);
    }
    NoCopiesInTiers(g.queue.tiers, g.queue.tiers.Keys, r);
  }

  lemma NotQueuedInTier(g: Gateway, r: RequestId, s: SessionId, p: int)
    requires QueueInv(g) && r in g.requests && s == g.requests[r].QueueSession(r) && !Waits(g.queue, 0, s, r) && p in g.queue.tiers
    ensures FreeOf(g.queue.tiers[p], r)
  {
    var lanes := g.queue.tiers[p];
    assert GoodLanes(p, lanes) && LanesPlaced(g.requests, lanes);
    forall i, k | 0 <= i < |lanes| && 0 <= k < |lanes[i].entries| ensures lanes[i].entries[k].requestId != r {
      if lanes[i].entries[k].requestId == r {
        assert Placed(g.requests, lanes[i].entries[k]);
        FindIs(lanes, i, s);
        FirstIsFound(lanes[i].entries, k, r);
        assert false;
      }
    }
  }

  lemma FirstIsFound(entries: seq<Entry>, k: nat, r: RequestId)
    requires k < |entries| && entries[k].requestId == r
    ensures FirstOf(entries, r) < |entries|
  {
  }

  /** Whoever is in the loop has a place in its own session. */
  lemma WaiterHasPlace(g: Gateway, r: RequestId)
    requires QueueInv(g) && InLoop(g, r)
    ensures Waits(g.queue, 0, g.requests[r].QueueSession(r), r)
  {
    assert Copies(g.queue, r) == WaitCount(g.phases, r);
    if !Waits(g.queue, 0, g.requests[r].QueueSession(r), r) {
      NotQueuedNoCopies(g, r, g.requests[r].QueueSession(r));
    }
  }

  lemma TierZeroOnly(g: Gateway, p: int, i: nat)
    requires QueueInv(g) && p in g.queue.tiers && i < |g.queue.tiers[p]|
    ensures p == 0
  {
    var lanes := g.queue.tiers[p];
    assert GoodLanes(p, lanes) && LanesPlaced(g.requests, lanes);
    assert Placed(g.requests, lanes[i].entries[0]);
  }

  // ---------------------------------------------------------------- one event

  /** The bound of a waiter r does not grow, and shrinks by what a step counts. */
  ghost predicate Closer(q: Queue<Callback>, q': Queue<Callback>, s: SessionId, r: RequestId, n: nat, counted: nat) {
    Waits(q, 0, s, r) && Waits(q', 0, s, r) && WaitBound(q', 0, s, r, n) + counted <= WaitBound(q, 0, s, r, n)
  }

  lemma LeavingCloser(q: Queue<Callback>, x: RequestId, xs: SessionId, s: SessionId, r: RequestId, n: nat)
    requires Good(q) && Waits(q, 0, s, r) && x != r
    ensures Closer(q, Cancel(q, x, xs, 0), s, r, n, 0)
  {
    CancelKeepsBound(q, x, xs, 0, 0, s, r, n);
  }

  lemma JoiningCloser(q: Queue<Callback>, e: Entry, callback: Callback, s: SessionId, r: RequestId, n: nat)
    requires Good(q) && Waits(q, 0, s, r)
    ensures Closer(q, Enqueue(q, e, Some(callback)), s, r, n, 0) && Good(Enqueue(q, e, Some(callback)))
  {
    EnqueueKeepsPlace(q, e, Some(callback), 0, s, r);
    EnqueueIsGood(q, e, Some(callback));
  }

  lemma AdmitCloser(cfg: Config, g: Gateway, g': Gateway, x: RequestId, capable: seq<HostId>, at: int, later: int, winner: Option<HostId>,
                    s: SessionId, r: RequestId, n: nat)
    requires QueueInv(g) && AdmitStep(cfg, g, g', x, capable, at, later, winner) && Waits(g.queue, 0, s, r) && x != r
    ensures Closer(g.queue, g'.queue, s, r, n, 0)
  {
    var e, callback := QueueEntry(x, g.requests[x], g.phases[x].since), Callback(g.requests[x].LeaseToken(), capable);
    AdmitCases(cfg, g, g', x, capable, at, later, winner);
    JoiningCloser(g.queue, e, callback, s, r, n);
    LeavingCloser(Enqueue(g.queue, e, Some(callback)), x, g.requests[x].QueueSession(x), s, r, n);
  }

  /** How a turn of the loop relates to being served. */
  lemma PollOutcome(cfg: Config, g: Gateway, g': Gateway, x: RequestId, at: int, later: int, winner: Option<HostId>)
    requires PollStep(cfg, g, g', x, at, later, winner)
    ensures x in g'.phases
    ensures var served := g'.phases[x].Running? || g'.phases[x] == Gone(NoBackend);
            var env := PollEnv(g, g.phases[x].callback, at, later);
            if served then
              Dispatch(g.queue, env, Some(x)).1 == Some(x) && g'.queue == LeaveQueue(g, Dispatch(g.queue, env, Some(x)).0, x)
            else g'.queue == g.queue || g'.queue == LeaveQueue(g, g.queue, x)
  {
  }

  lemma ServingCloser(g: Gateway, x: RequestId, callback: Callback, at: int, later: int, s: SessionId, r: RequestId, n: nat)
    requires Registered(g) && QueueInv(g) && x in g.requests && x != r && Waits(g.queue, 0, s, r) && |LanesOf(g.queue, 0)| <= n
    requires Dispatch(g.queue, PollEnv(g, callback, at, later), Some(x)).1 == Some(x) && HeadHasCandidate(g, s, later)
    ensures Closer(g.queue, LeaveQueue(g, Dispatch(g.queue, PollEnv(g, callback, at, later), Some(x)).0, x), s, r, n, 1)
  {
    var env := PollEnv(g, callback, at, later);
    var (p, i) := Pick(g.queue, env);
    TierZeroOnly(g, p, i);
    HeadIsReady(g, callback, at, later, 0, SessionsAhead(g.queue, 0, s));
    ServeLowersBound(g.queue, env, i, 0, s, r, n);
    TakeIsGood(g.queue, p, i);
    LeavingCloser(Take(g.queue, p, i), x, g.requests[x].QueueSession(x), s, r, n);
  }

  lemma PollCloser(cfg: Config, g: Gateway, g': Gateway, x: RequestId, at: int, later: int, winner: Option<HostId>,
                   s: SessionId, r: RequestId, n: nat)
    requires QueueInv(g) && PollStep(cfg, g, g', x, at, later, winner) && Waits(g.queue, 0, s, r) && |LanesOf(g.queue, 0)| <= n
    requires x == r ==> r in g'.phases && g'.phases[r].Waiting?
    requires x in g'.phases && (g'.phases[x].Running? || g'.phases[x] == Gone(NoBackend)) ==> HeadHasCandidate(g, s, later)
    ensures Closer(g.queue, g'.queue, s, r, n, if g'.phases[x].Running? || g'.phases[x] == Gone(NoBackend) then 1 else 0)
  {
    PollOutcome(cfg, g, g', x, at, later, winner);
    if x == r {
      PollCases(cfg, g, g', x, at, later, winner);
    } else if g'.phases[x].Running? || g'.phases[x] == Gone(NoBackend) {
      ServingCloser(g, x, g.phases[x].callback, at, later, s, r, n);
    } else {
      LeavingCloser(g.queue, x, g.requests[x].QueueSession(x), s, r, n);
    }
  }

  lemma DisconnectCloser(g: Gateway, g': Gateway, x: RequestId, s: SessionId, r: RequestId, n: nat)
    requires QueueInv(g) && DisconnectStep(g, g', x) && Waits(g.queue, 0, s, r) && x != r
    ensures Closer(g.queue, g'.queue, s, r, n, 0)
  {
    LeavingCloser(g.queue, x, g.requests[x].QueueSession(x), s, r, n);
  }

  /** One event while r stays in its loop. */
  lemma NextCloser(cfg: Config, g: Gateway, e: Event, g': Gateway, r: RequestId, s: SessionId, n: nat)
    requires QueueInv(g) && Next(cfg, g, e, g') && InLoop(g, r) && InLoop(g', r) && s == g.requests[r].QueueSession(r)
    requires |LanesOf(g.queue, 0)| <= n
    requires ServedByPoll(e, g') ==> HeadHasCandidate(g, s, e.later)
    ensures Closer(g.queue, g'.queue, s, r, n, if ServedByPoll(e, g') then 1 else 0)
  {
    WaiterHasPlace(g, r);
    match e
    case Admit(x, capable, at, later, winner) => AdmitCloser(cfg, g, g', x, capable, at, later, winner, s, r, n);
    case Poll(x, at, later, winner) => PollCloser(cfg, g, g', x, at, later, winner, s, r, n);
    case Disconnect(x) => DisconnectCloser(g, g', x, s, r, n);
    case _ =>
  }

  // ---------------------------------------------------------------- a whole stay in the loop

  /** From state i to state j request r is in its loop, its tier never holds more than n sessions,
      and the head of its session has a candidate whenever a poll is served. */
  ghost predicate Stays(states: seq<Gateway>, events: seq<Event>, i: nat, j: nat, r: RequestId, s: SessionId, n: nat)
    requires i <= j <= |events| < |states|
  {
    && (forall k :: i <= k <= j ==> InLoop(states[k], r) && states[k].requests[r].QueueSession(r) == s)
    && (forall k :: i <= k <= j ==> |LanesOf(states[k].queue, 0)| <= n)
    && (forall k :: i <= k < j && ServedByPoll(events[k], states[k + 1]) ==> HeadHasCandidate(states[k], s, events[k].later))
  }

  lemma CloserThenCloser(a: Queue<Callback>, b: Queue<Callback>, c: Queue<Callback>, s: SessionId, r: RequestId, n: nat, x: nat, y: nat)
    requires Closer(a, b, s, r, n, x) && Closer(b, c, s, r, n, y)
    ensures Closer(a, c, s, r, n, x + y)
  {
  }

  lemma RunStepCloser(cfg: Config, states: seq<Gateway>, events: seq<Event>, k: nat, r: RequestId, s: SessionId, n: nat)
    requires IsRun(cfg, states, events) && k < |events| && InLoop(states[k], r) && InLoop(states[k + 1], r)
    requires s == states[k].requests[r].QueueSession(r) && |LanesOf(states[k].queue, 0)| <= n
    requires ServedByPoll(events[k], states[k + 1]) ==> HeadHasCandidate(states[k], s, events[k].later)
    ensures Closer(states[k].queue, states[k + 1].queue, s, r, n, if ServedByPoll(events[k], states[k + 1]) then 1 else 0)
  {
    RunKeepsInv(cfg, states, events, k);
    NextCloser(cfg, states[k], events[k], states[k + 1], r, s, n);
  }

  lemma StartsCloser(cfg: Config, states: seq<Gateway>, events: seq<Event>, i: nat, r: RequestId, s: SessionId, n: nat)
    requires IsRun(cfg, states, events) && i < |states| && InLoop(states[i], r) && s == states[i].requests[r].QueueSession(r)
    ensures Closer(states[i].queue, states[i].queue, s, r, n, 0)
  {
    RunKeepsInv(cfg, states, events, i);
    WaiterHasPlace(states[i], r);
  }

  ghost predicate StepCloser(states: seq<Gateway>, events: seq<Event>, k: nat, s: SessionId, r: RequestId, n: nat)
    requires k < |events| < |states|
  {
    Closer(states[k].queue, states[k + 1].queue, s, r, n, if ServedByPoll(events[k], states[k + 1]) then 1 else 0)
  }

  lemma {:induction false} StepsAddUp(states: seq<Gateway>, events: seq<Event>, i: nat, j: nat, s: SessionId, r: RequestId, n: nat)
    requires i <= j <= |events| < |states| && Closer(states[i].queue, states[i].queue, s, r, n, 0)
    requires forall k :: i <= k < j ==> StepCloser(states, events, k, s, r, n)
    ensures Closer(states[i].queue, states[j].queue, s, r, n, PollsServed(states, events, i, j))
    decreases j - i
  {
    if i < j {
      StepsAddUp(states, events, i, j - 1, s, r, n);
      assert StepCloser(states, events, j - 1, s, r, n);
      CloserThenCloser(states[i].queue, states[j - 1].queue, states[j].queue, s, r, n, PollsServed(states, events, i, j - 1),
                       if ServedByPoll(events[j - 1], states[j]) then 1 else 0);
    }
  }

  lemma StayShrinksBound(cfg: Config, states: seq<Gateway>, events: seq<Event>, i: nat, j: nat, r: RequestId, s: SessionId, n: nat)
    requires IsRun(cfg, states, events) && i <= j < |states| && Stays(states, events, i, j, r, s, n)
    ensures Closer(states[i].queue, states[j].queue, s, r, n, PollsServed(states, events, i, j))
  {
    StartsCloser(cfg, states, events, i, r, s, n);
    forall k | i <= k < j ensures StepCloser(states, events, k, s, r, n) {
      RunStepCloser(cfg, states, events, k, r, s, n);
    }
    StepsAddUp(states, events, i, j, s, r, n);
  }

  /** Bounded waiting over runs: from joining the loop with a sessions and k own entries ahead, at
      most a + k * n polls of others are served while the request is still in the loop. */
  lemma WaitingIsBounded(cfg: Config, states: seq<Gateway>, events: seq<Event>, i: nat, j: nat, r: RequestId, s: SessionId, n: nat)
    requires IsRun(cfg, states, events) && i <= j < |states| && Stays(states, events, i, j, r, s, n)
    ensures HasLane(states[i].queue, 0, s)
    ensures PollsServed(states, events, i, j) <= SessionsAhead(states[i].queue, 0, s) + EntriesAhead(states[i].queue, 0, s, r) * n
  {
    StayShrinksBound(cfg, states, events, i, j, r, s, n);
    TimesIsProduct(EntriesAhead(states[i].queue, 0, s, r), n);
  }
}
