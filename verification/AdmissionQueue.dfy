/** The scheduling queue inside the admission protocol: the queued entries are exactly the
    requests in their polling loops, on every path into and out of the loop. */
module AdmissionQueue {
  import opened Basics
  import opened Scheduling
  import opened DispatchOrder
  import opened Admission

  type Requests = map<RequestId, ChatRequest>

  /** An entry stands in tier zero, under the session its request queues with. */
  ghost predicate Placed(requests: Requests, e: Entry) {
    e.requestId in requests && e.sessionId == requests[e.requestId].QueueSession(e.requestId) && e.priority == 0
  }

  ghost predicate LanesPlaced(requests: Requests, lanes: seq<Lane>) {
    forall i, k :: 0 <= i < |lanes| && 0 <= k < |lanes[i].entries| ==> Placed(requests, lanes[i].entries[k])
  }

  ghost predicate AllPlaced<C>(requests: Requests, q: Queue<C>) {
    forall p :: p in q.tiers ==> LanesPlaced(requests, q.tiers[p])
  }

  // ---------------------------------------------------------------- placement is kept

  lemma EnqueuePlaced<C>(requests: Requests, q: Queue<C>, e: Entry, callback: Option<C>)
    requires AllPlaced(requests, q) && Placed(requests, e)
    ensures AllPlaced(requests, Enqueue(q, e, callback))
  {
    assert LanesPlaced(requests, LanesOf(q, e.priority));
    assert LanesPlaced(requests, AddEntry(LanesOf(q, e.priority), e));
  }

  lemma CancelPlaced<C>(requests: Requests, q: Queue<C>, r: RequestId, s: SessionId, p: int)
    requires AllPlaced(requests, q)
    ensures AllPlaced(requests, Cancel(q, r, s, p))
  {
    if p in q.tiers {
      var lanes := q.tiers[p];
      var i := Find(lanes, s);
      if i < |lanes| {
        var kept := Without(lanes[i].entries, r);
        forall k | 0 <= k < |kept| ensures Placed(requests, kept[k]) {
          assert kept[k] in lanes[i].entries;
        }
        assert LanesPlaced(requests, RemoveEntry(lanes, s, r));
      }
    }
  }

  lemma TakePlaced<C>(requests: Requests, q: Queue<C>, p: int, i: nat)
    requires AllPlaced(requests, q) && p in q.tiers && i < |q.tiers[p]| && q.tiers[p][i].entries != []
    ensures AllPlaced(requests, Take(q, p, i))
  {
    assert LanesPlaced(requests, q.tiers[p]);
    assert LanesPlaced(requests, Serve(q.tiers[p], i));
  }

  lemma MoreRequestsPlaced<C>(requests: Requests, more: Requests, q: Queue<C>)
    requires AllPlaced(requests, q) && forall r :: r in requests ==> r in more && more[r] == requests[r]
    ensures AllPlaced(more, q)
  {
  }

  // ---------------------------------------------------------------- where copies can be

  lemma {:induction false} NoCopiesInEntries(entries: seq<Entry>, r: RequestId)
    requires forall k :: 0 <= k < |entries| ==> entries[k].requestId != r
    ensures EntryWeight(entries, Only(r)) == 0
  {
    if entries != [] {
      NoCopiesInEntries(entries[1..], r);
    }
  }

  ghost predicate FreeOf(lanes: seq<Lane>, r: RequestId) {
    forall i, k :: 0 <= i < |lanes| && 0 <= k < |lanes[i].entries| ==> lanes[i].entries[k].requestId != r
  }

  lemma {:induction false} NoCopiesInLanes(lanes: seq<Lane>, r: RequestId)
    requires FreeOf(lanes, r)
    ensures TierWeight(lanes, Only(r)) == 0
  {
    if lanes != [] {
      NoCopiesInEntries(lanes[0].entries, r);
      NoCopiesInLanes(lanes[1..], r);
    }
  }

  lemma {:induction false} NoCopiesInTiers(tiers: map<int, seq<Lane>>, ps: set<int>, r: RequestId)
    requires ps <= tiers.Keys && forall p :: p in ps ==> FreeOf(tiers[p], r)
    ensures WeightIn(tiers, ps, Only(r)) == 0
  {
    if ps != {} {
      var p := Chosen(ps);
      assert FreeOf(tiers[p], r);
      NoCopiesInLanes(tiers[p], r);
      NoCopiesInTiers(tiers, ps - {p}, r);
    }
  }

  /** When entries are placed, leaving the queue removes every copy of the request. */
  lemma LeavingRemovesAll<C>(requests: Requests, q: Queue<C>, r: RequestId)
    requires Good(q) && AllPlaced(requests, q) && r in requests
    ensures Copies(Cancel(q, r, requests[r].QueueSession(r), 0), r) == 0
  {
    var s := requests[r].QueueSession(r);
    var q' := Cancel(q, r, s, 0);
    CancelIsGood(q, r, s, 0);
    CancelPlaced(requests, q, r, s, 0);
    forall p | p in q'.tiers ensures FreeOf(q'.tiers[p], r) {
      LeftTierIsFree(requests, q, r, p);
    }
    NoCopiesInTiers(q'.tiers, q'.tiers.Keys, r);
  }

  lemma LeftTierIsFree<C>(requests: Requests, q: Queue<C>, r: RequestId, p: int)
    requires Good(q) && AllPlaced(requests, q) && r in requests && p in q.tiers
    requires var q' := Cancel(q, r, requests[r].QueueSession(r), 0); Good(q') && AllPlaced(requests, q')
    ensures FreeOf(Cancel(q, r, requests[r].QueueSession(r), 0).tiers[p], r)
  {
    var s := requests[r].QueueSession(r);
    var q' := Cancel(q, r, s, 0);
    var lanes := q'.tiers[p];
    assert GoodLanes(p, lanes) && LanesPlaced(requests, lanes);
    forall i, k | 0 <= i < |lanes| && 0 <= k < |lanes[i].entries| ensures lanes[i].entries[k].requestId != r {
      assert Placed(requests, lanes[i].entries[k]);
      if p == 0 && lanes[i].session == s {
        LeftLaneIsClean(q, r, s, i, k);
      }
    }
  }

  lemma LeftLaneIsClean<C>(q: Queue<C>, r: RequestId, s: SessionId, i: nat, k: nat)
    requires Good(q) && 0 in q.tiers
    requires var lanes := RemoveEntry(q.tiers[0], s, r);
             i < |lanes| && k < |lanes[i].entries| && lanes[i].session == s
    ensures RemoveEntry(q.tiers[0], s, r)[i].entries[k].requestId != r
  {
    var lanes := q.tiers[0];
    assert GoodLanes(0, lanes);
    var at := Find(lanes, s);
    var kept := Without(lanes[at].entries, r);
    if kept != [] {
      assert i == at;
      assert kept[k] in kept;
    }
  }

  // ---------------------------------------------------------------- the queue matches the waiters

  ghost function Waiters(phases: map<RequestId, Phase>): set<RequestId> { set r | r in phases && phases[r].Waiting? }

  ghost function WaitingCallbacks(phases: map<RequestId, Phase>): map<RequestId, Callback> {
    map r | r in phases && phases[r].Waiting? :: phases[r].callback
  }

  function WaitCount(phases: map<RequestId, Phase>, r: RequestId): nat {
    if r in phases && phases[r].Waiting? then 1 else 0
  }

  ghost predicate CopiesMatch(q: Queue<Callback>, phases: map<RequestId, Phase>) {
    forall r :: Copies(q, r) == WaitCount(phases, r)
  }

  /** Each waiter is queued once with its own callback, nobody else is, and the depth is their number. */
  ghost predicate QueueMatches(q: Queue<Callback>, requests: Requests, phases: map<RequestId, Phase>) {
    && Good(q) && AllPlaced(requests, q) && CopiesMatch(q, phases)
    && q.callbacks == WaitingCallbacks(phases)
    && DepthOf(q) == |Waiters(phases)|
  }

  ghost predicate QueueInv(g: Gateway) { g.requests.Keys == g.phases.Keys && QueueMatches(g.queue, g.requests, g.phases) }

  lemma WaitersAfter(phases: map<RequestId, Phase>, r: RequestId, phase: Phase)
    ensures var phases' := phases[r := phase];
            |Waiters(phases')| == |Waiters(phases)| - WaitCount(phases, r) + WaitCount(phases', r)
  {
    var others := Waiters(phases) - {r};
    assert Waiters(phases) == if WaitCount(phases, r) == 1 then others + {r} else others;
    assert Waiters(phases[r := phase]) == if phase.Waiting? then others + {r} else others;
  }

  lemma {:induction false} TimesOne(n: nat)
    ensures Times(n, 1) == n && Times(n, 0) == 0
  {
    if n > 0 {
      TimesOne(n - 1);
    }
  }

  lemma LeavingCounts(q: Queue<Callback>, requests: Requests, r: RequestId, x: RequestId)
    requires Good(q) && AllPlaced(requests, q) && r in requests
    ensures var q' := Cancel(q, r, requests[r].QueueSession(r), 0);
            Copies(q', x) == (if x == r then 0 else Copies(q, x)) && DepthOf(q') == DepthOf(q) - Copies(q, r)
  {
    var s := requests[r].QueueSession(r);
    var n := LaneCopies(q, r, s, 0);
    TimesOne(n);
    LeavingRemovesAll(requests, q, r);
    CancelRemovesOnlyItsCopies(q, r, s, 0, Only(r));
    CancelRemovesOnlyItsCopies(q, r, s, 0, Only(x));
    CancelRemovesOnlyItsCopies(q, r, s, 0, Each());
  }

  /** A request that is in the loop at most once leaves the queue: its entry and callback go. */
  lemma LeavingMatches(q: Queue<Callback>, requests: Requests, phases: map<RequestId, Phase>, r: RequestId, phase: Phase)
    requires QueueMatches(q, requests, phases) && r in requests && !phase.Waiting?
    ensures QueueMatches(Cancel(q, r, requests[r].QueueSession(r), 0), requests, phases[r := phase])
  {
    var s := requests[r].QueueSession(r);
    var q', phases' := Cancel(q, r, s, 0), phases[r := phase];
    CancelIsGood(q, r, s, 0);
    CancelPlaced(requests, q, r, s, 0);
    LeavingCounts(q, requests, r, r);
    WaitersAfter(phases, r, phase);
    forall x ensures Copies(q', x) == WaitCount(phases', x) {
      LeavingCounts(q, requests, r, x);
    }
    assert q'.callbacks == WaitingCallbacks(phases');
  }

  lemma LeavingTo(q: Queue<Callback>, requests: Requests, phases: map<RequestId, Phase>, r: RequestId, phase: Phase,
                  phases': map<RequestId, Phase>)
    requires QueueMatches(q, requests, phases) && r in requests && !phase.Waiting? && phases' == phases[r := phase]
    ensures QueueMatches(Cancel(q, r, requests[r].QueueSession(r), 0), requests, phases')
  {
    LeavingMatches(q, requests, phases, r, phase);
  }

  lemma JoiningCounts(q: Queue<Callback>, e: Entry, callback: Option<Callback>, x: RequestId)
    ensures var q' := Enqueue(q, e, callback);
            Copies(q', x) == Copies(q, x) + (if x == e.requestId then 1 else 0) && DepthOf(q') == DepthOf(q) + 1
  {
    EnqueueAddsOne(q, e, callback, Only(x));
    EnqueueAddsOne(q, e, callback, Each());
  }

  lemma ServingCounts(q: Queue<Callback>, p: int, i: nat, x: RequestId)
    requires p in q.tiers && i < |q.tiers[p]| && q.tiers[p][i].entries != []
    ensures var q' := Take(q, p, i);
            && Copies(q', x) + (if x == q.tiers[p][i].entries[0].requestId then 1 else 0) == Copies(q, x)
            && DepthOf(q') + 1 == DepthOf(q)
  {
    TakeRemovesOne(q, p, i, Only(x));
    TakeRemovesOne(q, p, i, Each());
  }

  lemma JoinedCopies(q: Queue<Callback>, phases: map<RequestId, Phase>, e: Entry, callback: Callback)
    requires CopiesMatch(q, phases) && WaitCount(phases, e.requestId) == 0
    ensures CopiesMatch(Enqueue(q, e, Some(callback)), phases[e.requestId := Waiting(callback, 0)])
  {
    var q', phases' := Enqueue(q, e, Some(callback)), phases[e.requestId := Waiting(callback, 0)];
    forall x ensures Copies(q', x) == WaitCount(phases', x) {
      JoiningCounts(q, e, Some(callback), x);
      assert Copies(q, x) == WaitCount(phases, x);
    }
  }

  lemma CallbacksAfter(phases: map<RequestId, Phase>, r: RequestId, phase: Phase)
    ensures WaitingCallbacks(phases[r := phase]) ==
            if phase.Waiting? then WaitingCallbacks(phases)[r := phase.callback] else WaitingCallbacks(phases) - {r}
  {
  }

  lemma JoiningMatches(q: Queue<Callback>, requests: Requests, phases: map<RequestId, Phase>, r: RequestId, since: int, callback: Callback)
    requires QueueMatches(q, requests, phases) && r in requests && WaitCount(phases, r) == 0
    ensures QueueMatches(Enqueue(q, QueueEntry(r, requests[r], since), Some(callback)), requests, phases[r := Waiting(callback, 0)])
  {
    var e := QueueEntry(r, requests[r], since);
    EnqueueIsGood(q, e, Some(callback));
    EnqueuePlaced(requests, q, e, Some(callback));
    JoinedCopies(q, phases, e, callback);
    JoiningCounts(q, e, Some(callback), r);
    WaitersAfter(phases, r, Waiting(callback, 0));
    CallbacksAfter(phases, r, Waiting(callback, 0));
  }

  lemma ServedCopies(q: Queue<Callback>, phases: map<RequestId, Phase>, p: int, i: nat, phase: Phase)
    requires CopiesMatch(q, phases) && p in q.tiers && i < |q.tiers[p]| && q.tiers[p][i].entries != [] && !phase.Waiting?
    requires WaitCount(phases, q.tiers[p][i].entries[0].requestId) == 1
    ensures CopiesMatch(Take(q, p, i), phases[q.tiers[p][i].entries[0].requestId := phase])
  {
    var r := q.tiers[p][i].entries[0].requestId;
    var q', phases' := Take(q, p, i), phases[r := phase];
    forall x ensures Copies(q', x) == WaitCount(phases', x) {
      ServingCounts(q, p, i, x);
      assert Copies(q, x) == WaitCount(phases, x);
    }
  }

  lemma ServedMatches(q: Queue<Callback>, requests: Requests, phases: map<RequestId, Phase>, p: int, i: nat, phase: Phase)
    requires QueueMatches(q, requests, phases) && p in q.tiers && i < |q.tiers[p]| && q.tiers[p][i].entries != [] && !phase.Waiting?
    requires WaitCount(phases, q.tiers[p][i].entries[0].requestId) == 1
    ensures QueueMatches(Take(q, p, i), requests, phases[q.tiers[p][i].entries[0].requestId := phase])
  {
    var r := q.tiers[p][i].entries[0].requestId;
    TakeIsGood(q, p, i);
    TakePlaced(requests, q, p, i);
    ServedCopies(q, phases, p, i, phase);
    ServingCounts(q, p, i, r);
    WaitersAfter(phases, r, phase);
    CallbacksAfter(phases, r, phase);
  }

  lemma DispatchedMatches(q: Queue<Callback>, requests: Requests, phases: map<RequestId, Phase>, env: Env<Callback>, r: RequestId, phase: Phase)
    requires QueueMatches(q, requests, phases) && WaitCount(phases, r) == 1 && !phase.Waiting?
    requires Dispatch(q, env, Some(r)).1 == Some(r)
    ensures QueueMatches(Dispatch(q, env, Some(r)).0, requests, phases[r := phase])
  {
    var (p, i) := Pick(q, env);
    ServedMatches(q, requests, phases, p, i, phase);
  }

  /** A phase change outside the loop leaves the match as it is. */
  lemma StayingMatches(q: Queue<Callback>, requests: Requests, phases: map<RequestId, Phase>, r: RequestId, phase: Phase)
    requires QueueMatches(q, requests, phases)
    requires phase.Waiting? <==> WaitCount(phases, r) == 1
    requires phase.Waiting? ==> phase.callback == phases[r].callback
    ensures QueueMatches(q, requests, phases[r := phase])
  {
    var phases' := phases[r := phase];
    WaitersAfter(phases, r, phase);
    forall x ensures Copies(q, x) == WaitCount(phases', x) {
      assert WaitCount(phases', x) == WaitCount(phases, x);
    }
    assert WaitingCallbacks(phases') == WaitingCallbacks(phases);
  }

  /** The three ways admission ends: outside the loop, in it, or in and out of it at once. */
  lemma AdmitCases(cfg: Config, g: Gateway, g': Gateway, r: RequestId, capable: seq<HostId>, at: int, later: int, winner: Option<HostId>)
    requires AdmitStep(cfg, g, g', r, capable, at, later, winner)
    ensures var callback := Callback(g.requests[r].LeaseToken(), capable);
            var queued := Enqueue(g.queue, QueueEntry(r, g.requests[r], g.phases[r].since), Some(callback));
            && r in g'.phases && g'.phases == g.phases[r := g'.phases[r]]
            && (|| (!g'.phases[r].Waiting? && g'.queue == g.queue)
                || (g'.phases[r] == Waiting(callback, 0) && g'.queue == queued)
                || (!g'.phases[r].Waiting? && g'.queue == LeaveQueue(g, queued, r)))
  {
  }

  lemma Overwritten(phases: map<RequestId, Phase>, r: RequestId, a: Phase, b: Phase)
    ensures phases[r := a][r := b] == phases[r := b]
  {
  }

  lemma JoinThenLeaveMatches(q: Queue<Callback>, requests: Requests, phases: map<RequestId, Phase>, r: RequestId, since: int,
                             callback: Callback, phase: Phase)
    requires QueueMatches(q, requests, phases) && r in requests && WaitCount(phases, r) == 0 && !phase.Waiting?
    ensures QueueMatches(Cancel(Enqueue(q, QueueEntry(r, requests[r], since), Some(callback)), r, requests[r].QueueSession(r), 0),
                         requests, phases[r := phase])
  {
    JoiningMatches(q, requests, phases, r, since, callback);
    Overwritten(phases, r, Waiting(callback, 0), phase);
    LeavingTo(Enqueue(q, QueueEntry(r, requests[r], since), Some(callback)), requests, phases[r := Waiting(callback, 0)], r, phase,
              phases[r := phase]);
  }

  lemma AdmitKeepsQueue(cfg: Config, g: Gateway, g': Gateway, r: RequestId, capable: seq<HostId>, at: int, later: int, winner: Option<HostId>)
    requires QueueInv(g) && g'.requests == g.requests && AdmitStep(cfg, g, g', r, capable, at, later, winner)
    ensures QueueInv(g')
  {
    var callback := Callback(g.requests[r].LeaseToken(), capable);
    AdmitCases(cfg, g, g', r, capable, at, later, winner);
    if g'.phases[r].Waiting? {
      JoiningMatches(g.queue, g.requests, g.phases, r, g.phases[r].since, callback);
    } else if g'.queue == g.queue {
      StayingMatches(g.queue, g.requests, g.phases, r, g'.phases[r]);
    } else {
      JoinThenLeaveMatches(g.queue, g.requests, g.phases, r, g.phases[r].since, callback, g'.phases[r]);
    }
  }

  lemma LeavingAgainMatches(q: Queue<Callback>, requests: Requests, phases: map<RequestId, Phase>, r: RequestId)
    requires QueueMatches(q, requests, phases) && r in requests && r in phases && !phases[r].Waiting?
    ensures QueueMatches(Cancel(q, r, requests[r].QueueSession(r), 0), requests, phases)
  {
    LeavingMatches(q, requests, phases, r, phases[r]);
    assert phases[r := phases[r]] == phases;
  }

  lemma DispatchThenLeaveMatches(g: Gateway, env: Env<Callback>, r: RequestId, phase: Phase)
    requires QueueInv(g) && WaitCount(g.phases, r) == 1 && !phase.Waiting?
    requires Dispatch(g.queue, env, Some(r)).1 == Some(r)
    ensures QueueMatches(LeaveQueue(g, Dispatch(g.queue, env, Some(r)).0, r), g.requests, g.phases[r := phase])
  {
    DispatchedMatches(g.queue, g.requests, g.phases, env, r, phase);
    LeavingAgainMatches(Dispatch(g.queue, env, Some(r)).0, g.requests, g.phases[r := phase], r);
  }

  /** The four ways a turn of the polling loop ends. */
  lemma PollCases(cfg: Config, g: Gateway, g': Gateway, r: RequestId, at: int, later: int, winner: Option<HostId>)
    requires PollStep(cfg, g, g', r, at, later, winner)
    ensures var callback := g.phases[r].callback;
            var env := PollEnv(g, callback, at, later);
            && g'.phases == g.phases[r := g'.phases[r]]
            && (|| (g'.phases[r].Waiting? && g'.phases[r].callback == callback && g'.queue == g.queue)
                || (!g'.phases[r].Waiting? && g'.queue == LeaveQueue(g, g.queue, r))
                || (&& !g'.phases[r].Waiting? && Dispatch(g.queue, env, Some(r)).1 == Some(r)
                    && g'.queue == LeaveQueue(g, Dispatch(g.queue, env, Some(r)).0, r)))
  {
  }

  lemma PollKeepsQueue(cfg: Config, g: Gateway, g': Gateway, r: RequestId, at: int, later: int, winner: Option<HostId>)
    requires QueueInv(g) && g'.requests == g.requests && PollStep(cfg, g, g', r, at, later, winner)
    ensures QueueInv(g')
  {
    var env := PollEnv(g, g.phases[r].callback, at, later);
    PollCases(cfg, g, g', r, at, later, winner);
    if g'.phases[r].Waiting? {
      StayingMatches(g.queue, g.requests, g.phases, r, g'.phases[r]);
    } else if g'.queue == LeaveQueue(g, g.queue, r) {
      LeavingMatches(g.queue, g.requests, g.phases, r, g'.phases[r]);
    } else {
      DispatchThenLeaveMatches(g, env, r, g'.phases[r]);
    }
  }

  lemma ArriveKeepsQueue(g: Gateway, g': Gateway, r: RequestId, request: ChatRequest)
    requires QueueInv(g) && r !in g.requests && g'.requests == g.requests[r := request] && g'.queue == g.queue
    requires r in g'.phases && !g'.phases[r].Waiting? && g'.phases == g.phases[r := g'.phases[r]]
    ensures QueueInv(g')
  {
    MoreRequestsPlaced(g.requests, g'.requests, g.queue);
    StayingMatches(g.queue, g'.requests, g.phases, r, g'.phases[r]);
  }

  /** A step outside the loop: one phase that is not a wait becomes another, the queue is not touched. */
  lemma OutsideKeepsQueue(g: Gateway, g': Gateway, r: RequestId)
    requires QueueInv(g) && g'.requests == g.requests && g'.queue == g.queue
    requires r in g.phases && !g.phases[r].Waiting? && r in g'.phases && !g'.phases[r].Waiting?
    requires g'.phases == g.phases[r := g'.phases[r]]
    ensures QueueInv(g')
  {
    StayingMatches(g.queue, g.requests, g.phases, r, g'.phases[r]);
  }

  lemma DisconnectKeepsQueue(g: Gateway, g': Gateway, r: RequestId)
    requires QueueInv(g) && g'.requests == g.requests && DisconnectStep(g, g', r)
    ensures QueueInv(g')
  {
    if g.phases[r].Waiting? {
      LeavingMatches(g.queue, g.requests, g.phases, r, g'.phases[r]);
    } else {
      OutsideKeepsQueue(g, g', r);
    }
  }

  lemma EndKeepsQueue(cfg: Config, g: Gateway, e: Event, g': Gateway)
    requires QueueInv(g) && Next(cfg, g, e, g') && (e.Finish? || e.BeginClose? || e.EndClose?)
    ensures QueueInv(g')
  {
    OutsideKeepsQueue(g, g', e.r);
  }

  /** Every event keeps the queue equal to the waiters. */
  lemma NextKeepsQueue(cfg: Config, g: Gateway, e: Event, g': Gateway)
    requires QueueInv(g) && Next(cfg, g, e, g')
    ensures QueueInv(g')
  {
    match e
    case Arrive(r, request, at) => ArriveKeepsQueue(g, g', r, request);
    case Admit(r, capable, at, later, winner) => AdmitKeepsQueue(cfg, g, g', r, capable, at, later, winner);
    case Poll(r, at, later, winner) => PollKeepsQueue(cfg, g, g', r, at, later, winner);
    case Disconnect(r) => DisconnectKeepsQueue(g, g', r);
    case Finish(_) => EndKeepsQueue(cfg, g, e, g');
    case BeginClose(_) => EndKeepsQueue(cfg, g, e, g');
    case EndClose(_) => EndKeepsQueue(cfg, g, e, g');
    case LeaseEvent(_, _) =>
    case HealthChange(_) =>
  }

  lemma EmptyQueueMatches()
    ensures QueueMatches(EmptyQueue(), map[], map[])
  {
    assert WaitingCallbacks(map[]) == map[];
    assert Waiters(map[]) == {};
  }
}
