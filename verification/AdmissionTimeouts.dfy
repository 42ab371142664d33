/** Timeouts of the polling loop over runs of the admission protocol: what the time waited counts,
    when a waiter has left at the latest, and what each turn of the loop comes to. */
module AdmissionTimeouts {
  import opened Basics
  import opened Scheduling
  import opened Admission
  import opened AdmissionEntry
  import opened AdmissionQueue
  import opened AdmissionRuns
  import opened AdmissionSlots
  import opened LeaseTerms

  predicate IsPollOf(e: Event, r: RequestId) { e.Poll? && e.r == r }

  /** The turns of its polling loop that request r takes in the first n events. */
  function OwnPolls(events: seq<Event>, r: RequestId, n: nat): nat
    requires n <= |events|
  {
    if n == 0 then 0 else OwnPolls(events, r, n - 1) + if IsPollOf(events[n - 1], r) then 1 else 0
  }

  // ---------------------------------------------------------------- the time waited

  /** After these turns of its own, a waiter has waited one interval for each; before its loop a request took none. */
  ghost predicate WaitedFor(cfg: Config, g: Gateway, r: RequestId, turns: nat) {
    && (r in g.phases && g.phases[r].Waiting? ==> g.phases[r].waited == turns * cfg.pollInterval)
    && (Stage(g, r) < 2 ==> turns == 0)
  }

  lemma OneMoreTurn(turns: nat, interval: int)
    ensures (turns + 1) * interval == turns * interval + interval && 0 * interval == 0
  {
  }

  lemma AdmitKeepsWaited(cfg: Config, g: Gateway, g': Gateway, r: RequestId, capable: seq<HostId>, at: int, later: int, winner: Option<HostId>, turns: nat)
    requires AdmitStep(cfg, g, g', r, capable, at, later, winner) && WaitedFor(cfg, g, r, turns)
    ensures WaitedFor(cfg, g', r, turns)
  {
    AdmitCases(cfg, g, g', r, capable, at, later, winner);
    OneMoreTurn(turns, cfg.pollInterval);
  }

  lemma PollAddsOneInterval(cfg: Config, g: Gateway, g': Gateway, r: RequestId, at: int, later: int, winner: Option<HostId>)
    requires PollStep(cfg, g, g', r, at, later, winner)
    ensures r in g'.phases && !g'.phases[r].Probing?
    ensures g'.phases[r].Waiting? ==> g'.phases[r].waited == g.phases[r].waited + cfg.pollInterval
  {
  }

  lemma PollKeepsWaited(cfg: Config, g: Gateway, g': Gateway, r: RequestId, at: int, later: int, winner: Option<HostId>, turns: nat)
    requires PollStep(cfg, g, g', r, at, later, winner) && WaitedFor(cfg, g, r, turns)
    ensures WaitedFor(cfg, g', r, turns + 1)
  {
    PollAddsOneInterval(cfg, g, g', r, at, later, winner);
    OneMoreTurn(turns, cfg.pollInterval);
  }

  lemma EndKeepsWaited(cfg: Config, g: Gateway, e: Event, g': Gateway, turns: nat)
    requires Next(cfg, g, e, g') && Subject(e).Some? && !e.Admit? && !e.Poll? && WaitedFor(cfg, g, e.r, turns)
    ensures WaitedFor(cfg, g', e.r, turns)
  {
    EndAdvances(cfg, g, e, g');
    assert !g'.phases[e.r].Waiting?;
  }

  lemma SubjectKeepsWaited(cfg: Config, g: Gateway, e: Event, g': Gateway, r: RequestId, turns: nat)
    requires Next(cfg, g, e, g') && Subject(e) == Some(r) && WaitedFor(cfg, g, r, turns)
    ensures WaitedFor(cfg, g', r, turns + if e.Poll? then 1 else 0)
  {
    match e
    case Admit(_, capable, at, later, winner) => AdmitKeepsWaited(cfg, g, g', r, capable, at, later, winner, turns);
    case Poll(_, at, later, winner) => PollKeepsWaited(cfg, g, g', r, at, later, winner, turns);
    case _ => EndKeepsWaited(cfg, g, e, g', turns);
  }

  lemma OthersKeepWaited(cfg: Config, g: Gateway, g': Gateway, r: RequestId, turns: nat)
    requires WaitedFor(cfg, g, r, turns) && (r in g'.phases <==> r in g.phases) && (r in g.phases ==> g'.phases[r] == g.phases[r])
    ensures WaitedFor(cfg, g', r, turns)
  {
  }

  lemma NextKeepsWaited(cfg: Config, g: Gateway, e: Event, g': Gateway, r: RequestId, turns: nat)
    requires Next(cfg, g, e, g') && WaitedFor(cfg, g, r, turns)
    ensures WaitedFor(cfg, g', r, turns + if IsPollOf(e, r) then 1 else 0)
  {
    if Subject(e) == Some(r) {
      SubjectKeepsWaited(cfg, g, e, g', r, turns);
    } else {
      NextIsSlotStep(cfg, g, e, g');
      OthersKeepWaited(cfg, g, g', r, turns);
    }
  }

  /** Whatever turns went before, one event counts as it should. */
  ghost predicate CountsTurn(cfg: Config, g: Gateway, e: Event, g': Gateway, r: RequestId) {
    forall turns: nat :: WaitedFor(cfg, g, r, turns) ==> WaitedFor(cfg, g', r, turns + if IsPollOf(e, r) then 1 else 0)
  }

  lemma NextCountsTurn(cfg: Config, g: Gateway, e: Event, g': Gateway, r: RequestId)
    requires Next(cfg, g, e, g')
    ensures CountsTurn(cfg, g, e, g', r)
  {
    forall turns: nat | WaitedFor(cfg, g, r, turns) ensures WaitedFor(cfg, g', r, turns + if IsPollOf(e, r) then 1 else 0) {
      NextKeepsWaited(cfg, g, e, g', r, turns);
    }
  }

  lemma {:induction false} TurnsAddUp(cfg: Config, states: seq<Gateway>, events: seq<Event>, n: nat, r: RequestId)
    requires n < |states| == |events| + 1 && Stage(states[0], r) == 0
    requires forall k :: 0 <= k < |events| ==> CountsTurn(cfg, states[k], events[k], states[k + 1], r)
    ensures WaitedFor(cfg, states[n], r, OwnPolls(events, r, n))
  {
    if n > 0 {
      TurnsAddUp(cfg, states, events, n - 1, r);
      assert CountsTurn(cfg, states[n - 1], events[n - 1], states[n], r);
    }
  }

  lemma WaitedForTurns(cfg: Config, states: seq<Gateway>, events: seq<Event>, n: nat, r: RequestId)
    requires IsRun(cfg, states, events) && n < |states|
    ensures WaitedFor(cfg, states[n], r, OwnPolls(events, r, n))
  {
    forall k | 0 <= k < |events| ensures CountsTurn(cfg, states[k], events[k], states[k + 1], r) {
      NextCountsTurn(cfg, states[k], events[k], states[k + 1], r);
    }
    TurnsAddUp(cfg, states, events, n, r);
  }

  /** In every reachable state a waiter has waited one poll interval for each turn it took, and less
      than the timeout: who took turns for the whole timeout is no longer in the loop. */
  lemma WaitedCountsOwnPolls(cfg: Config, states: seq<Gateway>, events: seq<Event>, n: nat, r: RequestId)
    requires IsRun(cfg, states, events) && n < |states| && r in states[n].phases && states[n].phases[r].Waiting?
    ensures states[n].phases[r].waited == OwnPolls(events, r, n) * cfg.pollInterval < cfg.waitTimeout
  {
    WaitedForTurns(cfg, states, events, n, r);
    RunKeepsInv(cfg, states, events, n);
  }

  // ---------------------------------------------------------------- leaving in time

  lemma {:induction false} FewTurns(events: seq<Event>, r: RequestId, n: nat, k: nat)
    requires n <= |events|
    requires forall m :: 0 <= m < n && IsPollOf(events[m], r) ==> OwnPolls(events, r, m) < k
    ensures OwnPolls(events, r, n) <= k
  {
    if n > 0 {
      FewTurns(events, r, n - 1, k);
    }
  }

  lemma PollerWaits(cfg: Config, states: seq<Gateway>, events: seq<Event>, m: nat, r: RequestId)
    requires IsRun(cfg, states, events) && m < |events| && IsPollOf(events[m], r)
    ensures r in states[m].phases && states[m].phases[r].Waiting?
  {
    assert Next(cfg, states[m], events[m], states[m + 1]);
  }

  lemma SmallerFactor(a: int, b: int, x: int)
    requires a * x < b * x && x > 0
    ensures a < b
  {
  }

  /** Nobody stays longer than the timeout: however many turns it takes to cover the timeout, no
      request takes more in all, and one that took them has left the loop. */
  lemma LeavesInTime(cfg: Config, states: seq<Gateway>, events: seq<Event>, n: nat, r: RequestId, k: nat)
    requires IsRun(cfg, states, events) && n < |states| && 0 < cfg.pollInterval && cfg.waitTimeout <= k * cfg.pollInterval
    ensures OwnPolls(events, r, n) <= k
    ensures OwnPolls(events, r, n) == k ==> !(r in states[n].phases && states[n].phases[r].Waiting?)
  {
    forall m | 0 <= m < n && IsPollOf(events[m], r) ensures OwnPolls(events, r, m) < k {
      PollerWaits(cfg, states, events, m, r);
      WaitedCountsOwnPolls(cfg, states, events, m, r);
      SmallerFactor(OwnPolls(events, r, m), k, cfg.pollInterval);
    }
    FewTurns(events, r, n, k);
    if r in states[n].phases && states[n].phases[r].Waiting? {
      WaitedCountsOwnPolls(cfg, states, events, n, r);
      SmallerFactor(OwnPolls(events, r, n), k, cfg.pollInterval);
    }
  }

  // ---------------------------------------------------------------- what a turn comes to

  lemma DispatchedMeansPicked(q: Queue<Callback>, env: Env<Callback>, r: RequestId)
    ensures Dispatch(q, env, Some(r)).1 == Some(r)
            <==> HasFreeCapacity(env.hosts, env.available)
                 && exists p, i: nat :: IsPick(q, env, p, i) && q.tiers[p][i].entries[0].requestId == r
  {
    if p, i: nat :| IsPick(q, env, p, i) && q.tiers[p][i].entries[0].requestId == r {
      PickIsUnique(q, env, p, i);
    }
  }

  /** Request r stands first of all session heads with a candidate at time t. */
  ghost predicate IsNext(g: Gateway, r: RequestId, t: int) {
    exists p, i: nat :: FirstUnblocked(g, r, t, p, i) && !HeadIsBlocked(g, g.queue.tiers[p][i], t)
  }

  lemma PickIsFirstUnblocked(g: Gateway, callback: Callback, at: int, later: int, r: RequestId, p: int, i: nat)
    requires Registered(g) && QueueInv(g)
    ensures IsPick(g.queue, PollEnv(g, callback, at, later), p, i) && g.queue.tiers[p][i].entries[0].requestId == r
            <==> FirstUnblocked(g, r, later, p, i) && !HeadIsBlocked(g, g.queue.tiers[p][i], later)
  {
    if p in g.queue.tiers && i < |g.queue.tiers[p]| {
      HeadsWait(g, p, i);
    }
    forall p', j: nat | p' in g.queue.tiers && j < |g.queue.tiers[p']|
      ensures Ready(g.queue, g.queue.tiers[p'][j], PollEnv(g, callback, at, later)) <==> !HeadIsBlocked(g, g.queue.tiers[p'][j], later)
    {
      HeadIsReady(g, callback, at, later, p', j);
    }
  }

  lemma DispatchedMeansNext(g: Gateway, callback: Callback, at: int, later: int, r: RequestId)
    requires Registered(g) && QueueInv(g)
    ensures Dispatch(g.queue, PollEnv(g, callback, at, later), Some(r)).1 == Some(r)
            <==> Candidates(g, callback, at) != {} && IsNext(g, r, later)
  {
    var env := PollEnv(g, callback, at, later);
    DispatchedMeansPicked(g.queue, env, r);
    FreeCandidateMeansCapacity(g, callback, at);
    forall p, i: nat
      ensures IsPick(g.queue, env, p, i) && g.queue.tiers[p][i].entries[0].requestId == r
              <==> FirstUnblocked(g, r, later, p, i) && !HeadIsBlocked(g, g.queue.tiers[p][i], later)
    {
      PickIsFirstUnblocked(g, callback, at, later, r, p, i);
    }
  }

  /** A turn that serves r: it has a usable host at both clock readings and stands first of all
      session heads that have one at the second. */
  ghost predicate IsServed(g: Gateway, r: RequestId, at: int, later: int)
    requires r in g.requests && r in g.phases && g.phases[r].Waiting?
  {
    UsableHosts(g, g.requests[r], g.phases[r].callback.capable, at) != {} && IsNext(g, r, later)
  }

  /** What one turn of r's loop comes to when it brings the time waited to `waited`. */
  ghost predicate TurnComesTo(cfg: Config, g: Gateway, g': Gateway, r: RequestId, at: int, later: int, waited: int)
    requires r in g.requests && r in g.phases && g.phases[r].Waiting?
  {
    && r in g'.phases
    && if !HeaderLives(g, g.requests[r], at) then g'.phases[r] == Gone(LeaseLost) && g'.inFlight == g.inFlight
       else if IsServed(g, r, at, later) then
         TakesFitting(g, g', r, g.requests[r], UsableHosts(g, g.requests[r], g.phases[r].callback.capable, at))
       else
         && g'.inFlight == g.inFlight
         && g'.phases[r] == if waited < cfg.waitTimeout then Waiting(g.phases[r].callback, waited) else Gone(TimedOut)
  }

  lemma PollComesTo(cfg: Config, g: Gateway, g': Gateway, r: RequestId, at: int, later: int, winner: Option<HostId>)
    requires QueueInv(g) && LeaseInv(g) && PollStep(cfg, g, g', r, at, later, winner)
    ensures TurnComesTo(cfg, g, g', r, at, later, g.phases[r].waited + cfg.pollInterval)
  {
    var callback := g.phases[r].callback;
    assert callback == Callback(g.requests[r].LeaseToken(), callback.capable);
    HeaderTells(g, g.requests[r], "", at);
    CandidatesAreUsable(g, g.requests[r], callback.capable, at);
    DispatchedMeansNext(g, callback, at, later, r);
    if LeaseOk(g.leases, callback.token, at) && IsServed(g, r, at, later) {
      RoutingTakesFitting(g, g', r, Candidates(g, callback, at), winner);
    }
  }

  lemma PollTakesATurn(cfg: Config, g: Gateway, e: Event, g': Gateway, r: RequestId, waited: int)
    requires QueueInv(g) && LeaseInv(g) && Next(cfg, g, e, g') && IsPollOf(e, r)
    requires r in g.phases && g.phases[r].Waiting? && waited == g.phases[r].waited + cfg.pollInterval
    ensures r in g.requests && TurnComesTo(cfg, g, g', r, e.at, e.later, waited)
  {
    PollComesTo(cfg, g, g', r, e.at, e.later, e.winner);
  }

  lemma TurnOfRun(cfg: Config, states: seq<Gateway>, events: seq<Event>, n: nat, r: RequestId, waited: int)
    requires IsRun(cfg, states, events) && n < |events| && IsPollOf(events[n], r)
    requires r in states[n].phases && states[n].phases[r].Waiting? && waited == states[n].phases[r].waited + cfg.pollInterval
    ensures r in states[n].requests && TurnComesTo(cfg, states[n], states[n + 1], r, events[n].at, events[n].later, waited)
  {
    RunKeepsInv(cfg, states, events, n);
    assert Next(cfg, states[n], events[n], states[n + 1]);
    PollTakesATurn(cfg, states[n], events[n], states[n + 1], r, waited);
  }

  lemma TurnAddsInterval(events: seq<Event>, n: nat, r: RequestId, interval: int)
    requires n < |events| && IsPollOf(events[n], r)
    ensures OwnPolls(events, r, n + 1) * interval == OwnPolls(events, r, n) * interval + interval
  {
    OneMoreTurn(OwnPolls(events, r, n), interval);
  }

  /** In any run a turn ends the wait for a lost lease, serves the request, leaves it waiting, or
      times it out, by the number of turns it has taken. */
  lemma TurnOutcome(cfg: Config, states: seq<Gateway>, events: seq<Event>, n: nat, r: RequestId)
    requires IsRun(cfg, states, events) && n < |events| && IsPollOf(events[n], r)
    ensures r in states[n].requests && r in states[n].phases && states[n].phases[r].Waiting?
    ensures TurnComesTo(cfg, states[n], states[n + 1], r, events[n].at, events[n].later, OwnPolls(events, r, n + 1) * cfg.pollInterval)
  {
    PollerWaits(cfg, states, events, n, r);
    WaitedCountsOwnPolls(cfg, states, events, n, r);
    TurnAddsInterval(events, n, r, cfg.pollInterval);
    TurnOfRun(cfg, states, events, n, r, OwnPolls(events, r, n + 1) * cfg.pollInterval);
  }

  /** A turn times a request out exactly when it reaches the timeout, its lease is fine and it is not served. */
  lemma TimesOutExactlyWhen(cfg: Config, states: seq<Gateway>, events: seq<Event>, n: nat, r: RequestId)
    requires IsRun(cfg, states, events) && n < |events| && IsPollOf(events[n], r)
    ensures r in states[n].requests && r in states[n].phases && states[n].phases[r].Waiting? && r in states[n + 1].phases
    ensures states[n + 1].phases[r] == Gone(TimedOut)
            <==> && cfg.waitTimeout <= OwnPolls(events, r, n + 1) * cfg.pollInterval
                 && HeaderLives(states[n], states[n].requests[r], events[n].at)
                 && !IsServed(states[n], r, events[n].at, events[n].later)
  {
    TurnOutcome(cfg, states, events, n, r);
  }

  /** A session head is blocked exactly when no host it may use is usable. */
  lemma BlockedMeansNoUsableHost(cfg: Config, states: seq<Gateway>, events: seq<Event>, n: nat, p: int, i: nat, t: int)
    requires IsRun(cfg, states, events) && n < |states| && p in states[n].queue.tiers && i < |states[n].queue.tiers[p]|
    ensures states[n].queue.tiers[p][i].entries != []
    ensures var g := states[n];
            var x := g.queue.tiers[p][i].entries[0].requestId;
            && x in g.requests && x in g.phases && g.phases[x].Waiting?
            && (HeadIsBlocked(g, g.queue.tiers[p][i], t)
                <==> UsableHosts(g, g.requests[x], g.phases[x].callback.capable, t) == {})
  {
    RunKeepsInv(cfg, states, events, n);
    BlockedHead(states[n], p, i, t);
  }

  lemma BlockedHead(g: Gateway, p: int, i: nat, t: int)
    requires QueueInv(g) && LeaseInv(g) && p in g.queue.tiers && i < |g.queue.tiers[p]|
    ensures g.queue.tiers[p][i].entries != []
    ensures var x := g.queue.tiers[p][i].entries[0].requestId;
            && x in g.requests && x in g.phases && g.phases[x].Waiting?
            && (HeadIsBlocked(g, g.queue.tiers[p][i], t)
                <==> UsableHosts(g, g.requests[x], g.phases[x].callback.capable, t) == {})
  {
    HeadsWait(g, p, i);
    var x := g.queue.tiers[p][i].entries[0].requestId;
    var callback := g.phases[x].callback;
    assert callback == Callback(g.requests[x].LeaseToken(), callback.capable);
    CandidatesAreUsable(g, g.requests[x], callback.capable, t);
  }
}
