/** What an arrival and an admission come to, told by the request's own header, the ends of the
    leases, the health verdicts, the counters and the characters of the request; and under which
    session a waiter queues. */
module AdmissionEntry {
  import opened Basics
  import opened Leases
  import opened LeaseTerms
  import opened Scheduling
  import opened Admission
  import opened AdmissionQueue
  import opened AdmissionRuns
  import opened AdmissionSlots
  import opened AdmissionWaiting
  import opened DispatchOrder
  import Routing

  /** The lease a request names lives, or it names none. */
  ghost predicate HeaderLives(g: Gateway, request: ChatRequest, t: int) {
    Pinned(request) ==> Lives(g.leases, request.leaseHeader.value, t)
  }

  /** The host a live header is for, or without a header any host nobody holds. */
  ghost predicate OpenTo(g: Gateway, request: ChatRequest, h: HostId, t: int) {
    if Pinned(request) then Lives(g.leases, request.leaseHeader.value, t) && g.leases.byToken[request.leaseHeader.value].hostId == h
    else !HeldNow(g.leases, h, t)
  }

  /** A capable host that is open to the request, healthy and below its capacity. */
  ghost predicate Usable(g: Gateway, request: ChatRequest, capable: seq<HostId>, h: HostId, t: int) {
    && h in capable && OpenTo(g, request, h, t) && h in g.healthy
    && h in g.table && h in g.inFlight && g.inFlight[h] < g.table[h].maxConcurrent
  }

  /** The host's context window has a token for every four characters of the request. */
  ghost predicate LargeEnough(g: Gateway, request: ChatRequest, h: HostId) {
    h in g.table && |Together(request.contents)| <= 4 * g.table[h].contextWindow
  }

  lemma HeaderTells(g: Gateway, request: ChatRequest, h: HostId, t: int)
    ensures LeaseOk(g.leases, request.LeaseToken(), t) <==> HeaderLives(g, request, t)
    ensures Open(g.leases, request.LeaseToken(), h, t) <==> OpenTo(g, request, h, t)
  {
  }

  ghost function UsableHosts(g: Gateway, request: ChatRequest, capable: seq<HostId>, t: int): set<HostId> {
    set h | h in capable && Usable(g, request, capable, h, t)
  }

  lemma CandidatesAreUsable(g: Gateway, request: ChatRequest, capable: seq<HostId>, t: int)
    ensures Candidates(g, Callback(request.LeaseToken(), capable), t) == UsableHosts(g, request, capable, t)
  {
    forall h ensures h in Candidates(g, Callback(request.LeaseToken(), capable), t) <==> Usable(g, request, capable, h, t) {
      HeaderTells(g, request, h, t);
    }
  }

  // ---------------------------------------------------------------- arrival

  /** An arrival ends at once exactly when its header names a lease that does not live. */
  lemma ArrivalOutcome(g: Gateway, g': Gateway, r: RequestId, request: ChatRequest, at: int)
    requires ArriveNext(g, g', r, request, at)
    ensures r in g'.phases && (g'.phases[r] == Gone(LeaseLost) || g'.phases[r] == Probing(at))
    ensures g'.phases[r] == Gone(LeaseLost) <==> Pinned(request) && !Lives(g.leases, request.leaseHeader.value, at)
    ensures g'.inFlight == g.inFlight && g'.queue == g.queue
  {
    HeaderTells(g, request, "", at);
  }

  // ---------------------------------------------------------------- routing

  /** What becomes of a request with usable hosts: it takes a slot of one that is large enough, or
      leaves because none is. */
  ghost predicate TakesFitting(g: Gateway, g': Gateway, r: RequestId, request: ChatRequest, usable: set<HostId>) {
    && r in g'.phases
    && if exists h :: h in usable && LargeEnough(g, request, h) then
         && g'.phases[r].Running? && g'.phases[r].host in usable && LargeEnough(g, request, g'.phases[r].host)
         && g'.phases[r].host in g.inFlight
         && g'.inFlight == g.inFlight[g'.phases[r].host := g.inFlight[g'.phases[r].host] + 1]
       else g'.phases[r] == Gone(NoBackend) && g'.inFlight == g.inFlight
  }

  lemma RoutingTakesFitting(g: Gateway, g': Gateway, r: RequestId, candidates: set<HostId>, winner: Option<HostId>)
    requires r in g.requests && Routes(g, g', r, candidates, winner)
    ensures TakesFitting(g, g', r, g.requests[r], candidates)
  {
    var fitting := Fitting(g, candidates, g.requests[r].TokenBudget());
    forall h ensures h in fitting <==> h in candidates && LargeEnough(g, g.requests[r], h) {
      if h in g.table {
        Routing.FitsByCharacters(g.requests[r].contents, g.table[h].contextWindow);
      }
    }
    if fitting != {} {
      assert winner.value in fitting;
    } else {
      assert forall h :: h !in fitting;
    }
  }

  // ---------------------------------------------------------------- admission

  /** At both clock readings the lease the request names lives, and at the first some capable host
      is open to it. */
  ghost predicate MayEnter(g: Gateway, request: ChatRequest, capable: seq<HostId>, at: int, later: int) {
    && HeaderLives(g, request, at) && HeaderLives(g, request, later)
    && exists h :: h in capable && OpenTo(g, request, h, at)
  }

  /** Who may not enter leaves at once, for its lease or for want of a host. */
  lemma TurnedAway(cfg: Config, g: Gateway, g': Gateway, r: RequestId, capable: seq<HostId>, at: int, later: int, winner: Option<HostId>)
    requires AdmitStep(cfg, g, g', r, capable, at, later, winner) && !MayEnter(g, g.requests[r], capable, at, later)
    ensures r in g'.phases && g'.inFlight == g.inFlight && g'.queue == g.queue
    ensures var served := exists h :: h in capable && OpenTo(g, g.requests[r], h, at);
            g'.phases[r] == if HeaderLives(g, g.requests[r], at) && !served then Gone(NotServed) else Gone(LeaseLost)
  {
    forall h ensures Open(g.leases, g.requests[r].LeaseToken(), h, at) <==> OpenTo(g, g.requests[r], h, at) {
      HeaderTells(g, g.requests[r], h, at);
    }
    HeaderTells(g, g.requests[r], "", at);
    HeaderTells(g, g.requests[r], "", later);
  }

  lemma EnteringSettles(cfg: Config, g: Gateway, g': Gateway, r: RequestId, capable: seq<HostId>, at: int, later: int, winner: Option<HostId>)
    requires AdmitStep(cfg, g, g', r, capable, at, later, winner) && MayEnter(g, g.requests[r], capable, at, later)
    ensures Settles(cfg, g, g', r, Callback(g.requests[r].LeaseToken(), capable), later, winner)
    ensures LeaseOk(g.leases, g.requests[r].LeaseToken(), later)
  {
    forall h ensures Open(g.leases, g.requests[r].LeaseToken(), h, at) <==> OpenTo(g, g.requests[r], h, at) {
      HeaderTells(g, g.requests[r], h, at);
    }
    HeaderTells(g, g.requests[r], "", at);
    HeaderTells(g, g.requests[r], "", later);
  }

  /** Who may enter takes a slot when some host is usable, and joins the queue only when none is. */
  lemma EntryOutcome(cfg: Config, g: Gateway, g': Gateway, r: RequestId, capable: seq<HostId>, at: int, later: int, winner: Option<HostId>)
    requires AdmitStep(cfg, g, g', r, capable, at, later, winner) && MayEnter(g, g.requests[r], capable, at, later)
    ensures r in g'.phases
    ensures var usable := UsableHosts(g, g.requests[r], capable, later);
            if usable != {} then TakesFitting(g, g', r, g.requests[r], usable) && g'.queue == g.queue
            else
              && g'.inFlight == g.inFlight
              && (0 < cfg.waitTimeout ==> g'.phases[r].Waiting? && g'.phases[r].waited == 0 && g'.phases[r].callback.capable == capable)
              && (cfg.waitTimeout <= 0 ==> g'.phases[r] == Gone(TimedOut))
  {
    var callback := Callback(g.requests[r].LeaseToken(), capable);
    EnteringSettles(cfg, g, g', r, capable, at, later, winner);
    CandidatesAreUsable(g, g.requests[r], capable, later);
    if Candidates(g, callback, later) != {} {
      RoutingTakesFitting(g, g', r, Candidates(g, callback, later), winner);
    }
  }

  // ---------------------------------------------------------------- sessions in the queue

  /** The session a waiter queues under is its own when that is not empty, else one named after the request. */
  ghost predicate QueuesUnder(request: ChatRequest, r: RequestId, s: SessionId) {
    if request.sessionId.Some? && request.sessionId.value != "" then s == request.sessionId.value else s == r
  }

  /** Every entry stands in the only tier there is, under the session of its request. */
  ghost predicate EntriesInSessions(g: Gateway) {
    forall p :: p in g.queue.tiers ==> TierInSessions(g, p, g.queue.tiers[p])
  }

  ghost predicate TierInSessions(g: Gateway, p: int, lanes: seq<Lane>) {
    && (lanes != [] ==> p == 0)
    && forall i, k :: 0 <= i < |lanes| && 0 <= k < |lanes[i].entries| ==> InItsSession(g, lanes[i].entries[k], lanes[i].session)
  }

  ghost predicate InItsSession(g: Gateway, e: Entry, s: SessionId) {
    e.requestId in g.requests && QueuesUnder(g.requests[e.requestId], e.requestId, s)
  }

  ghost predicate HasEntry(g: Gateway, r: RequestId) {
    0 in g.queue.tiers && exists i, k :: 0 <= i < |g.queue.tiers[0]| && 0 <= k < |g.queue.tiers[0][i].entries|
                                         && g.queue.tiers[0][i].entries[k].requestId == r
  }

  /** In every reachable state each waiter stands in the queue, and whatever stands there does so
      under the session of its request. */
  lemma WaitersQueueUnderTheirSession(cfg: Config, states: seq<Gateway>, events: seq<Event>, n: nat, r: RequestId)
    requires IsRun(cfg, states, events) && n < |states|
    ensures EntriesInSessions(states[n])
    ensures r in states[n].phases && states[n].phases[r].Waiting? ==> HasEntry(states[n], r)
  {
    RunKeepsInv(cfg, states, events, n);
    SessionsOfEntries(states[n]);
    if r in states[n].phases && states[n].phases[r].Waiting? {
      WaiterHasEntry(states[n], r);
    }
  }

  lemma SessionsOfEntries(g: Gateway)
    requires QueueInv(g)
    ensures EntriesInSessions(g)
  {
    forall p | p in g.queue.tiers ensures TierInSessions(g, p, g.queue.tiers[p]) {
      SessionsOfTier(g, p);
    }
  }

  lemma SessionsOfTier(g: Gateway, p: int)
    requires QueueInv(g) && p in g.queue.tiers
    ensures TierInSessions(g, p, g.queue.tiers[p])
  {
    assert GoodLanes(p, g.queue.tiers[p]) && LanesPlaced(g.requests, g.queue.tiers[p]);
    PlacedInSessions(g, p, g.queue.tiers[p]);
  }

  lemma PlacedInSessions(g: Gateway, p: int, lanes: seq<Lane>)
    requires GoodLanes(p, lanes) && LanesPlaced(g.requests, lanes)
    ensures TierInSessions(g, p, lanes)
  {
    forall i, k | 0 <= i < |lanes| && 0 <= k < |lanes[i].entries| ensures InItsSession(g, lanes[i].entries[k], lanes[i].session) {
      assert Placed(g.requests, lanes[i].entries[k]);
    }
    if lanes != [] {
      assert Placed(g.requests, lanes[0].entries[0]);
    }
  }

  lemma WaiterHasEntry(g: Gateway, r: RequestId)
    requires QueueInv(g) && InLoop(g, r)
    ensures HasEntry(g, r)
  {
    var s := g.requests[r].QueueSession(r);
    WaiterHasPlace(g, r);
    var i, k := SessionsAhead(g.queue, 0, s), EntriesAhead(g.queue, 0, s, r);
    assert g.queue.tiers[0][i].entries[k].requestId == r;
  }
}
