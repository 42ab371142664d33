/** What every run of the admission protocol guarantees. */
module AdmissionRuns {
  import opened Basics
  import opened Leases
  import opened LeaseRuns
  import opened LeaseTerms
  import opened Scheduling
  import opened Admission
  import opened AdmissionSlots
  import DispatchOrder
  import opened AdmissionQueue

  // ---------------------------------------------------------------- leases

  /** Every lease in the book was issued for its host, and a waiter's callback carries its own token. */
  ghost predicate LeaseInv(g: Gateway) {
    && Paired(g.leases)
    && (forall k :: k in g.leases.byToken ==> k in g.issued && g.issued[k] == g.leases.byToken[k].hostId)
    && (forall r :: r in g.phases && g.phases[r].Waiting? ==>
          r in g.requests && g.phases[r].callback.token == g.requests[r].LeaseToken())
  }

  /** Nobody waits past the dispatch timeout. */
  ghost predicate WaitInv(cfg: Config, g: Gateway) {
    forall r :: r in g.phases && g.phases[r].Waiting? ==> g.phases[r].waited < cfg.waitTimeout
  }

  lemma ShedKeepsIssued(g: Gateway, g': Gateway, t: int)
    requires LeaseInv(g) && Shed(g.leases, g'.leases, t) && g'.issued == g.issued
    ensures forall k :: k in g'.leases.byToken ==> k in g'.issued && g'.issued[k] == g'.leases.byToken[k].hostId
  {
    forall k | k in g'.leases.byToken ensures k in g'.issued && g'.issued[k] == g'.leases.byToken[k].hostId {
      var lease := g'.leases.byToken[k];
      assert g'.leases.byHost[lease.hostId] == lease;
      assert g.leases.byHost[lease.hostId] == lease;
    }
  }

  lemma LeaseEventKeepsIssued(settings: Settings, g: Gateway, op: Op, at: int, k: Token)
    requires LeaseInv(g) && (op.OpReserve? ==> op.request.newToken !in g.issued)
    requires k in Lazy(settings, g.leases, op, at).0.byToken
    ensures var (leases, outcome) := Lazy(settings, g.leases, op, at);
            || (k in g.leases.byToken && leases.byToken[k].hostId == g.leases.byToken[k].hostId)
            || (op.OpReserve? && outcome.Granted? && k == op.request.newToken && leases.byToken[k].hostId == outcome.lease.hostId)
  {
    if k in g.leases.byToken {
      LazyKeepsTerms(settings, g.leases, op, at, k);
    } else {
      if !(op.OpReserve? && op.request.newToken == k) {
        LazyNeverRevives(settings, g.leases, op, at, k);
      }
    }
  }

  lemma LeaseEventKeepsLeases(cfg: Config, g: Gateway, op: Op, at: int, g': Gateway)
    requires LeaseInv(g) && Next(cfg, g, LeaseEvent(op, at), g')
    ensures LeaseInv(g')
  {
    LazyKeepsPaired(cfg.leaseSettings, g.leases, op, at);
    forall k | k in g'.leases.byToken ensures k in g'.issued && g'.issued[k] == g'.leases.byToken[k].hostId {
      LeaseEventKeepsIssued(cfg.leaseSettings, g, op, at, k);
    }
  }

  /** Every waiter after a step waited before it with the same callback, or comes from a known
      request and carries its token; requests stay as they are. */
  ghost predicate WaitersCarried(cfg: Config, g: Gateway, g': Gateway) {
    && (forall x :: x in g.requests ==> x in g'.requests && g'.requests[x] == g.requests[x])
    && forall r :: r in g'.phases && g'.phases[r].Waiting? ==> WaiterCarried(cfg, g, g', r)
  }

  ghost predicate WaiterCarried(cfg: Config, g: Gateway, g': Gateway, r: RequestId)
    requires r in g'.phases && g'.phases[r].Waiting?
  {
    && r in g.phases && (g.phases[r].Waiting? || r in g.requests)
    && (if g.phases[r].Waiting? then g'.phases[r].callback == g.phases[r].callback
        else g'.phases[r].callback.token == g.requests[r].LeaseToken())
    && (g'.phases[r] == g.phases[r] || g'.phases[r].waited < cfg.waitTimeout)
  }

  lemma AdmitWaits(cfg: Config, g: Gateway, g': Gateway, r: RequestId, capable: seq<HostId>, at: int, later: int, winner: Option<HostId>)
    requires AdmitStep(cfg, g, g', r, capable, at, later, winner) && g'.requests == g.requests
    ensures WaitersCarried(cfg, g, g')
  {
    AdmitCases(cfg, g, g', r, capable, at, later, winner);
  }

  lemma PollWaits(cfg: Config, g: Gateway, g': Gateway, r: RequestId, at: int, later: int, winner: Option<HostId>)
    requires PollStep(cfg, g, g', r, at, later, winner) && g'.requests == g.requests
    ensures WaitersCarried(cfg, g, g')
  {
    PollCases(cfg, g, g', r, at, later, winner);
  }

  lemma QuietWaits(cfg: Config, g: Gateway, g': Gateway, r: RequestId)
    requires r in g'.phases && !g'.phases[r].Waiting? && g'.phases == g.phases[r := g'.phases[r]]
    requires forall x :: x in g.requests ==> x in g'.requests && g'.requests[x] == g.requests[x]
    ensures WaitersCarried(cfg, g, g')
  {
  }

  /** A waiting phase reached by an event is a new wait or the next turn of an old one. */
  lemma NextCarriesWaiters(cfg: Config, g: Gateway, e: Event, g': Gateway)
    requires Next(cfg, g, e, g')
    ensures WaitersCarried(cfg, g, g')
  {
    match e
    case Admit(r, capable, at, later, winner) => AdmitWaits(cfg, g, g', r, capable, at, later, winner);
    case Poll(r, at, later, winner) => PollWaits(cfg, g, g', r, at, later, winner);
    case Arrive(r, request, at) => QuietWaits(cfg, g, g', r);
    case Finish(r) => QuietWaits(cfg, g, g', r);
    case BeginClose(r) => QuietWaits(cfg, g, g', r);
    case EndClose(r) => QuietWaits(cfg, g, g', r);
    case Disconnect(r) => QuietWaits(cfg, g, g', r);
    case LeaseEvent(_, _) =>
    case HealthChange(_) =>
  }

  lemma SheddingKeepsLeases(cfg: Config, g: Gateway, g': Gateway, t: int)
    requires LeaseInv(g) && Shed(g.leases, g'.leases, t) && g'.issued == g.issued && WaitersCarried(cfg, g, g')
    ensures LeaseInv(g')
  {
    ShedKeepsIssued(g, g', t);
    forall r | r in g'.phases && g'.phases[r].Waiting?
      ensures r in g'.requests && g'.phases[r].callback.token == g'.requests[r].LeaseToken()
    {
      assert WaiterCarried(cfg, g, g', r);
    }
  }

  lemma ChatEventKeepsLeases(cfg: Config, g: Gateway, e: Event, g': Gateway)
    requires LeaseInv(g) && Next(cfg, g, e, g') && Subject(e).Some?
    ensures LeaseInv(g')
  {
    NextCarriesWaiters(cfg, g, e, g');
    ChatEventSheds(cfg, g, e, g');
    SheddingKeepsLeases(cfg, g, g', g'.clock);
  }

  lemma NextKeepsLeases(cfg: Config, g: Gateway, e: Event, g': Gateway)
    requires LeaseInv(g) && Next(cfg, g, e, g')
    ensures LeaseInv(g')
  {
    if Subject(e).Some? {
      ChatEventKeepsLeases(cfg, g, e, g');
    } else if e.LeaseEvent? {
      LeaseEventKeepsLeases(cfg, g, e.op, e.at, g');
    }
  }

  lemma ChatEventSheds(cfg: Config, g: Gateway, e: Event, g': Gateway)
    requires Next(cfg, g, e, g') && Subject(e).Some?
    ensures Shed(g.leases, g'.leases, g'.clock) && g'.issued == g.issued
  {
  }

  // ---------------------------------------------------------------- the invariant

  ghost predicate Inv(cfg: Config, g: Gateway) { SlotInv(g) && QueueInv(g) && LeaseInv(g) && WaitInv(cfg, g) }

  lemma InitInv(cfg: Config, g: Gateway)
    requires Init(g)
    ensures Inv(cfg, g)
  {
    EmptyQueueMatches();
    assert forall h :: Owners(g.phases, h) == {};
  }

  lemma NextKeepsWaits(cfg: Config, g: Gateway, e: Event, g': Gateway)
    requires WaitInv(cfg, g) && Next(cfg, g, e, g')
    ensures WaitInv(cfg, g')
  {
    NextCarriesWaiters(cfg, g, e, g');
    forall r | r in g'.phases && g'.phases[r].Waiting? ensures g'.phases[r].waited < cfg.waitTimeout {
      assert WaiterCarried(cfg, g, g', r);
    }
  }

  lemma NextKeepsInv(cfg: Config, g: Gateway, e: Event, g': Gateway)
    requires Inv(cfg, g) && Next(cfg, g, e, g')
    ensures Inv(cfg, g')
  {
    NextKeepsSlots(cfg, g, e, g');
    NextKeepsQueue(cfg, g, e, g');
    NextKeepsLeases(cfg, g, e, g');
    NextKeepsWaits(cfg, g, e, g');
  }

  /** What holds at the start and survives every step holds along a run. */
  lemma {:induction false} AlongRun<S, E>(states: seq<S>, events: seq<E>, step: (S, E, S) -> bool, good: S -> bool, n: nat)
    requires |states| == |events| + 1 && n < |states| && good(states[0])
    requires forall i :: 0 <= i < |events| && good(states[i]) && step(states[i], events[i], states[i + 1]) ==> good(states[i + 1])
    requires forall i :: 0 <= i < |events| ==> step(states[i], events[i], states[i + 1])
    ensures good(states[n])
  {
    if n > 0 {
      AlongRun(states, events, step, good, n - 1);
    }
  }

  lemma RunKeepsInv(cfg: Config, states: seq<Gateway>, events: seq<Event>, n: nat)
    requires IsRun(cfg, states, events) && n < |states|
    ensures Inv(cfg, states[n])
  {
    var step := (g: Gateway, e: Event, g': Gateway) => Next(cfg, g, e, g');
    var good := (g: Gateway) => Inv(cfg, g);
    InitInv(cfg, states[0]);
    forall i | 0 <= i < |events| && good(states[i]) && step(states[i], events[i], states[i + 1]) ensures good(states[i + 1]) {
      NextKeepsInv(cfg, states[i], events[i], states[i + 1]);
    }
    AlongRun(states, events, step, good, n);
  }

  /** In every reachable state a host's counter is the number of requests holding its slots,
      never negative and never above its capacity. */
  lemma NoOversubscription(cfg: Config, states: seq<Gateway>, events: seq<Event>, n: nat, h: HostId)
    requires IsRun(cfg, states, events) && n < |states| && h in states[n].table
    ensures h in states[n].inFlight && states[n].inFlight[h] == |Owners(states[n].phases, h)|
    ensures 0 <= states[n].inFlight[h] <= Max(0, states[n].table[h].maxConcurrent)
  {
    RunKeepsInv(cfg, states, events, n);
  }

  /** In every reachable state the queue holds each waiting request once and nothing else, keeps
      callbacks for exactly those, and its depth is their number. */
  lemma QueueIsTheWaitingLoop(cfg: Config, states: seq<Gateway>, events: seq<Event>, n: nat)
    requires IsRun(cfg, states, events) && n < |states|
    ensures var g := states[n];
            && (forall r :: Copies(g.queue, r) == if r in g.phases && g.phases[r].Waiting? then 1 else 0)
            && DepthOf(g.queue) == |set r | r in g.phases && g.phases[r].Waiting?|
            && g.queue.callbacks.Keys == set r | r in g.phases && g.phases[r].Waiting?
            && (forall r :: r in g.phases && g.phases[r].Waiting? ==> g.phases[r].waited < cfg.waitTimeout)
  {
    RunKeepsInv(cfg, states, events, n);
    forall r ensures Copies(states[n].queue, r) == if r in states[n].phases && states[n].phases[r].Waiting? then 1 else 0 {
      assert Copies(states[n].queue, r) == WaitCount(states[n].phases, r);
    }
  }

  // ---------------------------------------------------------------- lease isolation

  ghost predicate Admits(g: Gateway, g': Gateway, r: RequestId, h: HostId) {
    Owned(g, r) == None && Owned(g', r) == Some(h)
  }

  /** The clock reading by which an admission chose its host. */
  function AdmissionTime(e: Event): int
    requires e.Admit? || e.Poll?
  {
    if e.Admit? then e.later else e.at
  }

  lemma RoutedToCandidate(g: Gateway, g': Gateway, r: RequestId, candidates: set<HostId>, winner: Option<HostId>, h: HostId)
    requires r in g.requests && Routes(g, g', r, candidates, winner) && Admits(g, g', r, h)
    ensures h in candidates
  {
  }

  lemma AdmitTakesCandidate(cfg: Config, g: Gateway, g': Gateway, r: RequestId, capable: seq<HostId>, at: int, later: int, winner: Option<HostId>, h: HostId)
    requires AdmitStep(cfg, g, g', r, capable, at, later, winner) && Admits(g, g', r, h)
    ensures h in Candidates(g, Callback(g.requests[r].LeaseToken(), capable), later)
  {
    RoutedToCandidate(g, g', r, Candidates(g, Callback(g.requests[r].LeaseToken(), capable), later), winner, h);
  }

  lemma PollTakesCandidate(cfg: Config, g: Gateway, g': Gateway, r: RequestId, at: int, later: int, winner: Option<HostId>, h: HostId)
    requires PollStep(cfg, g, g', r, at, later, winner) && Admits(g, g', r, h)
    ensures h in Candidates(g, g.phases[r].callback, at)
  {
    RoutedToCandidate(g, g', r, Candidates(g, g.phases[r].callback, at), winner, h);
  }

  /** An admission gives a candidate of the request's own callback at the admission time. */
  lemma AdmissionComesFromCandidates(cfg: Config, g: Gateway, e: Event, g': Gateway, r: RequestId, h: HostId)
    requires LeaseInv(g) && Next(cfg, g, e, g') && Admits(g, g', r, h)
    ensures (e.Admit? || e.Poll?) && e.r == r && r in g.requests
    ensures g.clock <= AdmissionTime(e) <= g'.clock
    ensures exists capable :: h in Candidates(g, Callback(g.requests[r].LeaseToken(), capable), AdmissionTime(e))
  {
    NextIsSlotStep(cfg, g, e, g');
    match e
    case Admit(s, capable, at, later, winner) =>
      AdmitTakesCandidate(cfg, g, g', r, capable, at, later, winner, h);
    case Poll(s, at, later, winner) =>
      PollTakesCandidate(cfg, g, g', r, at, later, winner, h);
      assert g.phases[r].callback == Callback(g.requests[r].LeaseToken(), g.phases[r].callback.capable);
    case _ =>
  }

  /** The request came with a lease header that is not empty. */
  predicate Pinned(request: ChatRequest) { request.leaseHeader.Some? && request.leaseHeader.value != "" }

  /** What is true of the lease table and the request whenever host h is given to request r at time t. */
  ghost predicate Isolated(g: Gateway, r: RequestId, h: HostId, t: int) {
    && r in g.requests
    && var header := g.requests[r].leaseHeader;
       && (Pinned(g.requests[r]) ==> Lives(g.leases, header.value, t) && header.value in g.issued && g.issued[header.value] == h)
       && (!Pinned(g.requests[r]) ==> !HeldNow(g.leases, h, t))
       && (HeldNow(g.leases, h, t) ==> header == Some(g.leases.byHost[h].token))
       && h in g.table && h in g.inFlight && g.inFlight[h] < g.table[h].maxConcurrent && h in g.healthy
  }

  lemma CandidateIsIsolated(g: Gateway, r: RequestId, capable: seq<HostId>, h: HostId, t: int)
    requires LeaseInv(g) && r in g.requests && h in Candidates(g, Callback(g.requests[r].LeaseToken(), capable), t)
    ensures Isolated(g, r, h, t)
  {
    assert Open(g.leases, g.requests[r].LeaseToken(), h, t);
  }

  lemma AdmissionIsIsolated(cfg: Config, g: Gateway, e: Event, g': Gateway, r: RequestId, h: HostId)
    requires LeaseInv(g) && Next(cfg, g, e, g') && Admits(g, g', r, h)
    ensures (e.Admit? || e.Poll?) && e.r == r && Isolated(g, r, h, AdmissionTime(e))
  {
    AdmissionComesFromCandidates(cfg, g, e, g', r, h);
    var capable :| h in Candidates(g, Callback(g.requests[r].LeaseToken(), capable), AdmissionTime(e));
    CandidateIsIsolated(g, r, capable, h, AdmissionTime(e));
  }

  /** Lease isolation: a request with a lease header that is not empty is admitted only on the host
      that token was issued for and only while its lease lives, any other request only on a host
      nobody holds; so whoever is admitted on a held host carries the holding lease's token. */
  lemma AdmissionsAreIsolated(cfg: Config, states: seq<Gateway>, events: seq<Event>, n: nat, r: RequestId, h: HostId)
    requires IsRun(cfg, states, events) && n < |events| && Admits(states[n], states[n + 1], r, h)
    ensures var e := events[n];
            (e.Admit? || e.Poll?) && e.r == r && Isolated(states[n], r, h, AdmissionTime(e))
  {
    RunKeepsInv(cfg, states, events, n);
    AdmissionIsIsolated(cfg, states[n], events[n], states[n + 1], r, h);
  }

  /** Issued tokens and requests stay as they are, and the clock does not go back. */
  ghost predicate Grows(g: Gateway, g': Gateway) {
    && (forall k :: k in g.issued ==> k in g'.issued && g'.issued[k] == g.issued[k])
    && (forall r :: r in g.requests ==> r in g'.requests && g'.requests[r] == g.requests[r])
    && g.clock <= g'.clock
  }

  lemma NextOnlyGrows(cfg: Config, g: Gateway, e: Event, g': Gateway)
    requires Next(cfg, g, e, g')
    ensures Grows(g, g')
  {
  }

  lemma {:induction false} GrowsAlong(states: seq<Gateway>, i: nat, j: nat)
    requires i <= j < |states| && forall k :: i <= k < j ==> Grows(states[k], states[k + 1])
    ensures Grows(states[i], states[j])
    decreases j - i
  {
    if i < j {
      GrowsAlong(states, i, j - 1);
      assert Grows(states[j - 1], states[j]);
    }
  }

  lemma RunsOnlyGrow(cfg: Config, states: seq<Gateway>, events: seq<Event>, i: nat, j: nat)
    requires IsRun(cfg, states, events) && i <= j < |states|
    ensures Grows(states[i], states[j])
  {
    forall k | i <= k < j ensures Grows(states[k], states[k + 1]) {
      NextOnlyGrows(cfg, states[k], events[k], states[k + 1]);
    }
    GrowsAlong(states, i, j);
  }

  /** All requests with one lease header are served by one host, whatever happens to its lease. */
  lemma TokenPinsOneHost(cfg: Config, states: seq<Gateway>, events: seq<Event>, i: nat, j: nat, r: RequestId, s: RequestId, a: HostId, b: HostId)
    requires IsRun(cfg, states, events) && i <= j < |events|
    requires Admits(states[i], states[i + 1], r, a) && Admits(states[j], states[j + 1], s, b)
    requires r in states[i].requests && s in states[j].requests && Pinned(states[i].requests[r])
    requires states[i].requests[r].leaseHeader == states[j].requests[s].leaseHeader
    ensures a == b
  {
    AdmissionsAreIsolated(cfg, states, events, i, r, a);
    AdmissionsAreIsolated(cfg, states, events, j, s, b);
    RunsOnlyGrow(cfg, states, events, i, j);
  }

  // ---------------------------------------------------------------- no overtaking among waiters

  lemma FreeCandidateMeansCapacity(g: Gateway, callback: Callback, t: int)
    requires Registered(g)
    ensures HasFreeCapacity(Loads(g), Some(Candidates(g, callback, t))) <==> Candidates(g, callback, t) != {}
  {
    if h :| h in Candidates(g, callback, t) {
      var i :| 0 <= i < |g.order| && g.order[i] == h;
      assert Loads(g)[i].hostId == h;
    }
  }

  lemma AdmittedByPollIsPicked(cfg: Config, g: Gateway, r: RequestId, at: int, later: int, winner: Option<HostId>, g': Gateway, h: HostId)
    requires PollStep(cfg, g, g', r, at, later, winner) && Admits(g, g', r, h)
    ensures var env := PollEnv(g, g.phases[r].callback, at, later);
            && SomePick(g.queue, env)
            && var (p, i) := Pick(g.queue, env); g.queue.tiers[p][i].entries[0].requestId == r
  {
  }

  lemma HeadIsACopy(q: Queue<Callback>, p: int, i: nat)
    requires p in q.tiers && i < |q.tiers[p]| && q.tiers[p][i].entries != []
    ensures Copies(q, q.tiers[p][i].entries[0].requestId) >= 1
  {
    var x := q.tiers[p][i].entries[0].requestId;
    WeightInSplit(q.tiers, q.tiers.Keys, p, Only(x));
    DispatchOrder.TierWeightSplit(q.tiers[p], i, Only(x));
  }

  /** Every session head is a waiter with its own callback queued. */
  lemma HeadsWait(g: Gateway, p: int, i: nat)
    requires QueueInv(g) && p in g.queue.tiers && i < |g.queue.tiers[p]|
    ensures g.queue.tiers[p][i].entries != []
    ensures var x := g.queue.tiers[p][i].entries[0].requestId;
            x in g.phases && g.phases[x].Waiting? && x in g.queue.callbacks && g.queue.callbacks[x] == g.phases[x].callback
  {
    assert GoodLanes(p, g.queue.tiers[p]);
    HeadIsACopy(g.queue, p, i);
    var x := g.queue.tiers[p][i].entries[0].requestId;
    assert Copies(g.queue, x) == WaitCount(g.phases, x);
  }

  ghost predicate HeadIsBlocked(g: Gateway, lane: Lane, t: int) {
    && lane.entries != []
    && var x := lane.entries[0].requestId;
       x in g.phases && g.phases[x].Waiting? && Candidates(g, g.phases[x].callback, t) == {}
  }

  /** A session head is ready in a poll exactly when it has a candidate at the callbacks' clock reading. */
  lemma HeadIsReady(g: Gateway, callback: Callback, at: int, later: int, p: int, i: nat)
    requires Registered(g) && QueueInv(g) && p in g.queue.tiers && i < |g.queue.tiers[p]|
    ensures Ready(g.queue, g.queue.tiers[p][i], PollEnv(g, callback, at, later)) <==> !HeadIsBlocked(g, g.queue.tiers[p][i], later)
  {
    var lane, env := g.queue.tiers[p][i], PollEnv(g, callback, at, later);
    HeadsWait(g, p, i);
    var x := lane.entries[0].requestId;
    FreeCandidateMeansCapacity(g, g.phases[x].callback, later);
    assert Allowed(g.queue, lane.entries[0], env) == Some(Candidates(g, g.phases[x].callback, later));
  }

  /** Request r heads a session, and every session before it in priority and rotation order is
      headed by a waiter that has no candidate at time t. */
  ghost predicate FirstUnblocked(g: Gateway, r: RequestId, t: int, p: int, i: nat) {
    && p in g.queue.tiers && i < |g.queue.tiers[p]| && g.queue.tiers[p][i].entries != []
    && g.queue.tiers[p][i].entries[0].requestId == r
    && (forall j :: 0 <= j < i ==> HeadIsBlocked(g, g.queue.tiers[p][j], t))
    && (forall p', j :: p' in g.queue.tiers && p' < p && 0 <= j < |g.queue.tiers[p']| ==> HeadIsBlocked(g, g.queue.tiers[p'][j], t))
  }

  lemma PollServesFirstUnblocked(cfg: Config, g: Gateway, r: RequestId, at: int, later: int, winner: Option<HostId>, g': Gateway, h: HostId)
    requires Registered(g) && QueueInv(g) && PollStep(cfg, g, g', r, at, later, winner) && Admits(g, g', r, h)
    ensures exists p, i: nat :: FirstUnblocked(g, r, later, p, i)
  {
    var callback := g.phases[r].callback;
    var env := PollEnv(g, callback, at, later);
    AdmittedByPollIsPicked(cfg, g, r, at, later, winner, g', h);
    var (p, i) := Pick(g.queue, env);
    forall j | 0 <= j < i ensures HeadIsBlocked(g, g.queue.tiers[p][j], later) {
      HeadIsReady(g, callback, at, later, p, j);
    }
    forall p', j | p' in g.queue.tiers && p' < p && 0 <= j < |g.queue.tiers[p']|
      ensures HeadIsBlocked(g, g.queue.tiers[p'][j], later)
    {
      HeadIsReady(g, callback, at, later, p', j);
    }
    assert FirstUnblocked(g, r, later, p, i);
  }

  /** In any run a waiter admitted by its poll heads its session, and every session before it is
      headed by a waiter that had no candidate of its own at that moment. */
  lemma PollDoesNotOvertake(cfg: Config, states: seq<Gateway>, events: seq<Event>, n: nat, r: RequestId, h: HostId)
    requires IsRun(cfg, states, events) && n < |events| && events[n].Poll? && Admits(states[n], states[n + 1], r, h)
    ensures exists p, i: nat :: FirstUnblocked(states[n], r, events[n].later, p, i)
  {
    RunKeepsInv(cfg, states, events, n);
    PollOvertakesNobody(cfg, states[n], events[n], states[n + 1], r, h);
  }

  lemma PollOvertakesNobody(cfg: Config, g: Gateway, e: Event, g': Gateway, r: RequestId, h: HostId)
    requires Inv(cfg, g) && Next(cfg, g, e, g') && e.Poll? && Admits(g, g', r, h)
    ensures exists p, i: nat :: FirstUnblocked(g, r, e.later, p, i)
  {
    AdmissionIsIsolated(cfg, g, e, g', r, h);
    PollServesFirstUnblocked(cfg, g, r, e.at, e.later, e.winner, g', h);
  }

  // ---------------------------------------------------------------- one slot, one release

  /** How far a request has come; no event takes it back. */
  function Stage(g: Gateway, r: RequestId): nat {
    if r !in g.phases then 0
    else
      match g.phases[r]
      case Probing(_) => 1
      case Waiting(_, _) => 2
      case Running(_) => 3
      case Closing(_) => 4
      case Gone(_) => 5
  }

  lemma OthersStay(g: Gateway, g': Gateway, s: RequestId, r: RequestId)
    requires s in g'.phases && g'.phases == g.phases[s := g'.phases[s]] && r != s
    ensures Stage(g', r) == Stage(g, r) && Owned(g', r) == Owned(g, r)
  {
  }

  lemma AdmitAdvances(cfg: Config, g: Gateway, g': Gateway, s: RequestId, capable: seq<HostId>, at: int, later: int, winner: Option<HostId>)
    requires AdmitStep(cfg, g, g', s, capable, at, later, winner)
    ensures s in g'.phases && g'.phases == g.phases[s := g'.phases[s]]
    ensures Stage(g, s) == 1 <= Stage(g', s) && Owned(g, s).None?
  {
    AdmitCases(cfg, g, g', s, capable, at, later, winner);
  }

  lemma PollAdvances(cfg: Config, g: Gateway, g': Gateway, s: RequestId, at: int, later: int, winner: Option<HostId>)
    requires PollStep(cfg, g, g', s, at, later, winner)
    ensures s in g'.phases && g'.phases == g.phases[s := g'.phases[s]]
    ensures Stage(g, s) == 2 <= Stage(g', s) && Owned(g, s).None?
  {
    PollCases(cfg, g, g', s, at, later, winner);
  }

  lemma EndAdvances(cfg: Config, g: Gateway, e: Event, g': Gateway)
    requires Next(cfg, g, e, g') && (e.Arrive? || e.Finish? || e.BeginClose? || e.EndClose? || e.Disconnect?)
    ensures e.r in g'.phases && g'.phases == g.phases[e.r := g'.phases[e.r]]
    ensures Stage(g, e.r) <= Stage(g', e.r)
    ensures Owned(g, e.r).Some? && Owned(g', e.r).Some? ==> Owned(g', e.r) == Owned(g, e.r)
  {
  }

  lemma SubjectAdvances(cfg: Config, g: Gateway, e: Event, g': Gateway, s: RequestId)
    requires Next(cfg, g, e, g') && Subject(e) == Some(s)
    ensures s in g'.phases && g'.phases == g.phases[s := g'.phases[s]] && Stage(g, s) <= Stage(g', s)
    ensures Owned(g, s).Some? && Owned(g', s).Some? ==> Owned(g', s) == Owned(g, s)
  {
    match e
    case Admit(_, capable, at, later, winner) => AdmitAdvances(cfg, g, g', s, capable, at, later, winner);
    case Poll(_, at, later, winner) => PollAdvances(cfg, g, g', s, at, later, winner);
    case _ => EndAdvances(cfg, g, e, g');
  }

  lemma NextAdvances(cfg: Config, g: Gateway, e: Event, g': Gateway, r: RequestId)
    requires Next(cfg, g, e, g')
    ensures Stage(g, r) <= Stage(g', r)
    ensures Owned(g, r).Some? && Owned(g', r).Some? ==> Owned(g', r) == Owned(g, r)
  {
    if Subject(e).Some? {
      SubjectAdvances(cfg, g, e, g', Subject(e).value);
      if r != Subject(e).value {
        OthersStay(g, g', Subject(e).value, r);
      }
    }
  }

  ghost predicate Acquires(g: Gateway, g': Gateway, r: RequestId) { Owned(g, r).None? && Owned(g', r).Some? }

  ghost predicate Releases(g: Gateway, g': Gateway, r: RequestId) { Owned(g, r).Some? && Owned(g', r).None? }

  /** Slots taken, and slots given back, by request r over a sequence of states. */
  ghost function Acquired(states: seq<Gateway>, r: RequestId): nat {
    if |states| < 2 then 0
    else Acquired(states[..|states| - 1], r) + if Acquires(states[|states| - 2], states[|states| - 1], r) then 1 else 0
  }

  ghost function Released(states: seq<Gateway>, r: RequestId): nat {
    if |states| < 2 then 0
    else Released(states[..|states| - 1], r) + if Releases(states[|states| - 2], states[|states| - 1], r) then 1 else 0
  }

  /** a slots taken and b given back fit the state g. */
  ghost predicate Balanced(a: nat, b: nat, g: Gateway, r: RequestId) {
    a <= 1 && a == b + (if Owned(g, r).Some? then 1 else 0) && (Stage(g, r) < 3 ==> a == 0)
  }

  lemma BalancedStep(cfg: Config, g: Gateway, e: Event, g': Gateway, r: RequestId, a: nat, b: nat)
    requires Next(cfg, g, e, g') && Balanced(a, b, g, r)
    ensures Balanced(a + (if Acquires(g, g', r) then 1 else 0), b + (if Releases(g, g', r) then 1 else 0), g', r)
  {
    NextAdvances(cfg, g, e, g', r);
  }

  lemma CountsOfMore(states: seq<Gateway>, n: nat, r: RequestId)
    requires 0 < n < |states|
    ensures Acquired(states[..n + 1], r) == Acquired(states[..n], r) + if Acquires(states[n - 1], states[n], r) then 1 else 0
    ensures Released(states[..n + 1], r) == Released(states[..n], r) + if Releases(states[n - 1], states[n], r) then 1 else 0
  {
    assert states[..n + 1][..n] == states[..n];
  }

  lemma {:induction false} BalancedUpTo(cfg: Config, states: seq<Gateway>, events: seq<Event>, r: RequestId, n: nat)
    requires IsRun(cfg, states, events) && n < |states|
    ensures Balanced(Acquired(states[..n + 1], r), Released(states[..n + 1], r), states[n], r)
  {
    if n > 0 {
      BalancedUpTo(cfg, states, events, r, n - 1);
      CountsOfMore(states, n, r);
      BalancedStep(cfg, states[n - 1], events[n - 1], states[n], r, Acquired(states[..n], r), Released(states[..n], r));
    }
  }

  /** Over any run a request takes at most one slot and gives it back exactly once: it has given
      back what it took, unless it still holds it. */
  lemma SlotsAreReleasedOnce(cfg: Config, states: seq<Gateway>, events: seq<Event>, r: RequestId)
    requires IsRun(cfg, states, events)
    ensures var last := states[|states| - 1];
            && Acquired(states, r) <= 1
            && Acquired(states, r) == Released(states, r) + (if Owned(last, r).Some? then 1 else 0)
            && (Stage(last, r) < 3 ==> Acquired(states, r) == 0)
  {
    var n := |events|;
    BalancedUpTo(cfg, states, events, r, n);
    assert states[..n + 1] == states;
  }

  /** A slot is given back exactly when a collected call ends or is disconnected, and when a stream
      has closed its chunks. */
  lemma SlotsComeBackExactly(cfg: Config, g: Gateway, e: Event, g': Gateway, r: RequestId)
    requires Next(cfg, g, e, g')
    ensures Releases(g, g', r)
            <==> || e == Finish(r) || e == EndClose(r)
                 || (e == Disconnect(r) && r in g.requests && !g.requests[r].stream && r in g.phases && g.phases[r].Running?)
  {
    if Subject(e) == Some(r) {
      OwnEventReleases(cfg, g, e, g', r);
    } else {
      NextIsSlotStep(cfg, g, e, g');
    }
  }

  lemma OwnEventReleases(cfg: Config, g: Gateway, e: Event, g': Gateway, r: RequestId)
    requires Next(cfg, g, e, g') && Subject(e) == Some(r)
    ensures Releases(g, g', r)
            <==> || e == Finish(r) || e == EndClose(r)
                 || (e == Disconnect(r) && r in g.requests && !g.requests[r].stream && r in g.phases && g.phases[r].Running?)
  {
    match e
    case Admit(s, capable, at, later, winner) => AdmitAdvances(cfg, g, g', s, capable, at, later, winner);
    case Poll(s, at, later, winner) => PollAdvances(cfg, g, g', s, at, later, winner);
    case _ =>
  }

  /** A stream gives its slot back only when its chunks have been closed. */
  lemma StreamsReleaseAfterClosing(cfg: Config, g: Gateway, e: Event, g': Gateway, r: RequestId)
    requires Next(cfg, g, e, g') && Releases(g, g', r) && r in g.requests && g.requests[r].stream
    ensures e == EndClose(r) && g.phases[r].Closing?
  {
    match e
    case Admit(s, capable, at, later, winner) => AdmitCases(cfg, g, g', s, capable, at, later, winner);
    case Poll(s, at, later, winner) => PollCases(cfg, g, g', s, at, later, winner);
    case _ =>
  }

  /** A waiter that leaves without a slot takes nothing with it: no counter moves, and neither
      its entry nor its callback stays behind. */
  lemma LeavingTheLoopTakesNoSlot(cfg: Config, g: Gateway, e: Event, g': Gateway, r: RequestId)
    requires Inv(cfg, g) && Next(cfg, g, e, g')
    requires r in g.phases && g.phases[r].Waiting? && r in g'.phases && g'.phases[r].Gone?
    ensures g'.inFlight == g.inFlight && Copies(g'.queue, r) == 0 && r !in g'.queue.callbacks
  {
    NextKeepsQueue(cfg, g, e, g');
    assert Copies(g'.queue, r) == WaitCount(g'.phases, r);
    LeavingKeepsCounters(cfg, g, e, g', r);
  }

  lemma LeavingKeepsCounters(cfg: Config, g: Gateway, e: Event, g': Gateway, r: RequestId)
    requires Next(cfg, g, e, g') && r in g.phases && g.phases[r].Waiting? && r in g'.phases && g'.phases[r].Gone?
    ensures g'.inFlight == g.inFlight
  {
    NextIsSlotStep(cfg, g, e, g');
    if Subject(e).Some? && Subject(e).value != r {
      assert g'.phases[r] == g.phases[r] by { OnlySubjectMoves(cfg, g, e, g', r); }
    }
  }

  lemma OnlySubjectMoves(cfg: Config, g: Gateway, e: Event, g': Gateway, r: RequestId)
    requires Next(cfg, g, e, g') && Subject(e) != Some(r) && r in g.phases && r in g'.phases
    ensures g'.phases[r] == g.phases[r]
  {
    NextIsSlotStep(cfg, g, e, g');
  }
}
