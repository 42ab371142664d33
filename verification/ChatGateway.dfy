/** The chat-completions handler (api/app.py) over the real components. Each method is the code
    between two awaits of one request, and its contract is the event of the admission protocol
    that this code performs. */
module ChatGateway {
  import opened Basics
  import opened Leases
  import opened LeaseRuns
  import opened Scheduling
  import opened Registry
  import opened Admission
  import Routing

  // ---------------------------------------------------------------- shedding leases

  lemma ShedRefl(t: Table, now: int)
    requires Paired(t)
    ensures Shed(t, t, now)
  {
  }

  lemma ShedTrans(a: Table, b: Table, c: Table, t: int, later: int)
    requires Shed(a, b, t) && Shed(b, c, later) && t <= later
    ensures Shed(a, c, later)
  {
  }

  lemma RequireSheds(t: Table, k: Token, now: int)
    requires Paired(t)
    ensures Shed(t, RequireSpec(t, k, now).0, now)
  {
  }

  lemma HeldSheds(t: Table, h: HostId, now: int)
    requires Paired(t)
    ensures Shed(t, HeldSpec(t, h, now).0, now)
  {
  }

  /** Shedding expired leases changes no later answer about a token or a host. */
  lemma ShedKeepsAnswers(a: Table, b: Table, t: int, later: int)
    requires Paired(a) && Shed(a, b, t) && t <= later
    ensures forall k :: TokenLive(a, k, later) <==> TokenLive(b, k, later)
    ensures forall k :: TokenLive(a, k, later) ==> a.byToken[k] == b.byToken[k]
    ensures forall h :: HolderAt(a, h, later) == HolderAt(b, h, later)
  {
    forall k ensures TokenLive(a, k, later) <==> TokenLive(b, k, later)
             ensures TokenLive(a, k, later) ==> a.byToken[k] == b.byToken[k]
    {
      if k in a.byToken && !Expired(a.byToken[k], later) {
        var h := a.byToken[k].hostId;
        assert h in b.byHost && b.byHost[h] == a.byToken[k];
      }
      if k in b.byToken {
        var h := b.byToken[k].hostId;
        assert a.byHost[h] == b.byToken[k];
      }
    }
  }

  lemma ShedKeepsCandidates(a: Table, b: Table, t: int, later: int, healthy: set<HostId>,
                            table: map<HostId, Host>, inFlight: map<HostId, int>, callback: Callback)
    requires Paired(a) && Shed(a, b, t) && t <= later
    ensures CandidatesIn(a, healthy, table, inFlight, callback, later) == CandidatesIn(b, healthy, table, inFlight, callback, later)
  {
    ShedKeepsAnswers(a, b, t, later);
    forall h ensures Open(a, callback.token, h, later) <==> Open(b, callback.token, h, later) {
      assert callback.token.Some? ==> (TokenLive(a, callback.token.value, later) <==> TokenLive(b, callback.token.value, later));
    }
  }

  /** Callbacks that answer alike make dispatches alike. */
  lemma SameAnswersSameDispatch<C>(q: Queue<C>, a: Env<C>, b: Env<C>, only: Option<RequestId>)
    requires a.hosts == b.hosts && a.available == b.available && forall c :: a.answer(c) == b.answer(c)
    ensures Dispatch(q, a, only) == Dispatch(q, b, only)
  {
    forall p, i: nat ensures IsPick(q, a, p, i) <==> IsPick(q, b, p, i) {
      assert forall lane :: Ready(q, lane, a) <==> Ready(q, lane, b);
    }
    if SomePick(q, a) {
      PickIsUnique(q, b, Pick(q, a).0, Pick(q, a).1);
    }
  }

  // ---------------------------------------------------------------- the handler

  function TableOf(hosts: map<HostId, HostInfo>): map<HostId, Host> {
    map h | h in hosts :: Host(hosts[h].maxConcurrent, hosts[h].contextWindow)
  }

  function CountersOf(hosts: map<HostId, HostInfo>): map<HostId, int> { map h | h in hosts :: hosts[h].inFlight }

  function BackendIds(candidates: seq<Routing.Candidate>): set<HostId> { set c | c in candidates :: c.backendId }

  lemma CountersMove(hosts: map<HostId, HostInfo>, h: HostId, n: int)
    requires h in hosts
    ensures CountersOf(hosts[h := hosts[h].(inFlight := n)]) == CountersOf(hosts)[h := n]
  {
  }

  lemma TableStays(hosts: map<HostId, HostInfo>, h: HostId, n: int)
    requires h in hosts
    ensures TableOf(hosts[h := hosts[h].(inFlight := n)]) == TableOf(hosts)
  {
  }

  lemma SlotMoves(hosts: map<HostId, HostInfo>, moved: map<HostId, HostInfo>, h: HostId, n: int)
    requires h in hosts && moved == hosts[h := hosts[h].(inFlight := n)]
    ensures TableOf(moved) == TableOf(hosts) && CountersOf(moved) == CountersOf(hosts)[h := n]
    ensures CountersOf(hosts)[h] == hosts[h].inFlight
  {
    CountersMove(hosts, h, n);
    TableStays(hosts, h, n);
  }

  method Acquire(registry: HostRegistry, h: HostId)
    requires registry.Valid() && h in registry.hosts
    modifies registry`hosts
    ensures registry.Valid() && TableOf(registry.hosts) == old(TableOf(registry.hosts))
    ensures CountersOf(registry.hosts) == old(CountersOf(registry.hosts))[h := old(CountersOf(registry.hosts))[h] + 1]
  {
    ghost var before := registry.hosts;
    registry.AcquireSlot(h);
    SlotMoves(before, registry.hosts, h, before[h].inFlight + 1);
  }

  method Release(registry: HostRegistry, h: HostId)
    requires registry.Valid() && h in registry.hosts
    modifies registry`hosts
    ensures registry.Valid() && TableOf(registry.hosts) == old(TableOf(registry.hosts))
    ensures CountersOf(registry.hosts) == old(CountersOf(registry.hosts))[h := old(CountersOf(registry.hosts))[h] - 1]
  {
    ghost var before := registry.hosts;
    registry.ReleaseSlot(h);
    SlotMoves(before, registry.hosts, h, before[h].inFlight - 1);
  }

  lemma Routed(g: Gateway, g': Gateway, r: RequestId, candidates: set<HostId>, w: HostId)
    requires r in g.requests && w in Fitting(g, candidates, g.requests[r].TokenBudget()) && w in g.inFlight
    requires g'.inFlight == g.inFlight[w := g.inFlight[w] + 1] && g'.phases == g.phases[r := Running(w)]
    ensures Routes(g, g', r, candidates, Some(w))
  {
  }

  class Handler {
    const cfg: Config
    const registry: HostRegistry
    const book: NodeLeaseBook
    const queue: SchedulingQueue<Callback>
    const router: Routing.RoutingEngine
    /** What the health monitor says now. */
    var healthy: set<HostId>
    var requests: map<RequestId, ChatRequest>
    var phases: map<RequestId, Phase>
    ghost var clock: int
    ghost var issued: map<Token, HostId>

    ghost predicate Valid()
      reads this, registry, book, queue
    {
      registry.Valid() && book.Valid() && queue.Valid() && book.settings == cfg.leaseSettings
    }

    ghost function State(): Gateway
      requires Valid()
      reads this, registry, book, queue
    {
      Gateway(clock, registry.order, TableOf(registry.hosts), CountersOf(registry.hosts), healthy,
              book.State(), issued, queue.View(), requests, phases)
    }

    constructor (cfg: Config, registry: HostRegistry, book: NodeLeaseBook, queue: SchedulingQueue<Callback>, router: Routing.RoutingEngine)
      requires registry.Valid() && book.Valid() && queue.Valid() && book.settings == cfg.leaseSettings
      requires (forall h :: h in registry.hosts ==> registry.hosts[h].inFlight == 0)
      requires book.State() == EmptyTable() && queue.View() == EmptyQueue()
      ensures this.registry == registry && this.book == book && this.queue == queue && this.router == router && this.cfg == cfg
      ensures Valid() && Init(State())
    {
      this.cfg, this.registry, this.book, this.queue, this.router := cfg, registry, book, queue, router;
      healthy, requests, phases, clock, issued := {}, map[], map[], 0, map[];
    }

    /** Whether a request may use a host at all, leases considered. */
    method MayUse(callback: Callback, leased: Option<Lease>, h: HostId, at: int, ghost before: Table) returns (usable: bool)
      requires Valid() && Paired(before) && Shed(before, book.State(), at)
      requires leased.Some? <==> callback.token.Some?
      requires leased.Some? ==> TokenLive(before, callback.token.value, at) && before.byToken[callback.token.value] == leased.value
      modifies book
      ensures Valid() && Shed(before, book.State(), at)
      ensures usable <==> Open(before, callback.token, h, at)
    {
      if leased.Some? {
        return h == leased.value.hostId;
      }
      ghost var t := book.State();
      HeldSheds(t, h, at);
      ShedKeepsAnswers(before, t, at, at);
      var held := book.IsHeld(h, at);
      ShedTrans(before, t, book.State(), at, at);
      return !held;
    }

    /** The hosts a request may use now, or the error that its lease is gone. */
    method CurrentCandidates(callback: Callback, at: int) returns (lost: bool, candidates: seq<Routing.Candidate>)
      requires Valid()
      modifies book
      ensures Valid() && Shed(old(book.State()), book.State(), at)
      ensures lost == !LeaseOk(old(book.State()), callback.token, at)
      ensures !lost ==> BackendIds(candidates) == Candidates(old(State()), callback, at)
      ensures WindowsMatch(candidates)
    {
      candidates := [];
      ghost var before := book.State();
      ghost var table, counters := TableOf(registry.hosts), CountersOf(registry.hosts);
      var leased: Option<Lease> := None;
      ShedRefl(before, at);
      if callback.token.Some? {
        RequireSheds(before, callback.token.value, at);
        var live := book.Require(callback.token.value, at);
        if live.Err? {
          return true, [];
        }
        leased := Some(live.value);
      }
      var capable := callback.capable;
      for i := 0 to |capable|
        invariant Valid() && Shed(before, book.State(), at)
        invariant BackendIds(candidates) == CandidatesIn(before, healthy, table, counters, Callback(callback.token, capable[..i]), at)
        invariant WindowsMatch(candidates)
      {
        var h := capable[i];
        var usable := MayUse(callback, leased, h, at, before);
        OneMoreCandidate(before, healthy, table, counters, callback.token, capable, i, at);
        if usable && h in healthy && h in registry.hosts && registry.hosts[h].inFlight < registry.hosts[h].maxConcurrent {
          var info := registry.hosts[h];
          var ratio := if info.maxConcurrent > 0 then Routing.LoadRatio(info.inFlight, info.maxConcurrent) else 0.0;
          candidates := AddCandidate(candidates, Routing.Candidate(h, ratio, info.contextWindow));
        }
      }
      assert capable[..|capable|] == capable;
      return false, candidates;
    }

    method CountUp(h: HostId)
      requires Valid() && h in registry.hosts
      modifies registry`hosts
      ensures Valid() && State() == old(State()).(inFlight := old(State()).inFlight[h := old(State()).inFlight[h] + 1])
    {
      Acquire(registry, h);
    }

    method CountDown(h: HostId)
      requires Valid() && h in registry.hosts
      modifies registry`hosts
      ensures Valid() && State() == old(State()).(inFlight := old(State()).inFlight[h := old(State()).inFlight[h] - 1])
    {
      Release(registry, h);
    }

    /** Take a slot of host w for request r. */
    method TakeSlot(r: RequestId, w: HostId)
      requires Valid() && w in registry.hosts
      modifies this`phases, registry`hosts
      ensures Valid()
      ensures State() == old(State()).(phases := old(phases)[r := Running(w)],
                                       inFlight := old(State()).inFlight[w := old(State()).inFlight[w] + 1])
    {
      CountUp(w);
      phases := phases[r := Running(w)];
    }

    /** The router's choice among candidates; None: no candidate's window is large enough. */
    method ChooseBackend(r: RequestId, candidates: seq<Routing.Candidate>) returns (winner: Option<HostId>)
      requires Valid() && r in requests && WindowsMatch(candidates)
      modifies router
      ensures Valid() && State() == old(State())
      ensures var fitting := Fitting(State(), BackendIds(candidates), requests[r].TokenBudget());
              if winner.None? then fitting == {} else winner.value in fitting
    {
      var request := requests[r];
      ghost var ctx := Routing.Context(request.taskType, request.TokenBudget());
      ghost var before := router.stickyAssignments;
      var decision := router.SelectBackend(request.contents, request.taskType, candidates, request.sessionId);
      RoutedFits(router.engine, before, candidates, ctx, request.sessionId, router.stickyAssignments, decision);
      FittingWindows(State(), candidates, ctx.tokenBudget);
      return if decision.None? then None else Some(decision.value.backendId);
    }

    /** Let the router choose among candidates and take the winner's slot. */
    method Route(r: RequestId, candidates: seq<Routing.Candidate>) returns (winner: Option<HostId>)
      requires Valid() && r in requests && WindowsMatch(candidates)
      modifies this`phases, registry, router
      ensures Valid() && Routes(old(State()), State(), r, BackendIds(candidates), winner)
      ensures State() == old(State()).(phases := State().phases, inFlight := State().inFlight)
    {
      ghost var g := State();
      winner := ChooseBackend(r, candidates);
      if winner.None? {
        phases := phases[r := Gone(NoBackend)];
      } else {
        assert winner.value in g.table;
        TakeSlot(r, winner.value);
        Routed(g, State(), r, BackendIds(candidates), winner.value);
      }
    }

    /** A request comes in: its lease is checked before models are discovered. */
    method ArriveRequest(r: RequestId, request: ChatRequest, at: int)
      requires Valid() && clock <= at && r !in requests && r !in phases
      modifies this`requests, this`phases, this`clock, book
      ensures Valid() && ArriveNext(old(State()), State(), r, request, at)
    {
      ghost var before := book.State();
      var token := request.LeaseToken();
      var lost := false;
      ShedRefl(before, at);
      if token.Some? {
        RequireSheds(before, token.value, at);
        var live := book.Require(token.value, at);
        lost := live.Err?;
      }
      ghost var g := State();
      requests := requests[r := request];
      phases := phases[r := if lost then Gone(LeaseLost) else Probing(at)];
      clock := at;
      ArriveIsNext(g.(leases := before), State(), r, request, at);
    }

    /** Leases are read once more and the model's hosts narrowed; true says the lease is gone. */
    method Narrow(callback: Callback, at: int) returns (lost: bool, anyOpen: bool)
      requires Valid()
      modifies book
      ensures Valid() && Shed(old(book.State()), book.State(), at)
      ensures lost == !LeaseOk(old(book.State()), callback.token, at)
      ensures !lost ==> (anyOpen <==> exists h :: h in callback.capable && Open(old(book.State()), callback.token, h, at))
    {
      ghost var before := book.State();
      var leased: Option<Lease> := None;
      ShedRefl(before, at);
      if callback.token.Some? {
        RequireSheds(before, callback.token.value, at);
        var live := book.Require(callback.token.value, at);
        if live.Err? {
          return true, false;
        }
        leased := Some(live.value);
      }
      lost, anyOpen := false, false;
      for i := 0 to |callback.capable|
        invariant Valid() && Shed(before, book.State(), at)
        invariant anyOpen <==> exists k :: 0 <= k < i && Open(before, callback.token, callback.capable[k], at)
      {
        var usable := MayUse(callback, leased, callback.capable[i], at, before);
        anyOpen := anyOpen || usable;
      }
    }

    /** Enter the waiting loop, or leave it at once when there is no time to wait. */
    method JoinQueue(r: RequestId, callback: Callback)
      requires Valid() && r in requests && r in phases && phases[r].Probing?
      modifies this`phases, queue
      ensures Valid()
      ensures var g := old(State());
              var queued := Enqueue(g.queue, QueueEntry(r, g.requests[r], g.phases[r].since), Some(callback));
              State() == if 0 < cfg.waitTimeout then g.(queue := queued, phases := g.phases[r := Waiting(callback, 0)])
                         else g.(queue := LeaveQueue(g, queued, r), phases := g.phases[r := Gone(TimedOut)])
    {
      var session := requests[r].QueueSession(r);
      queue.EnqueueEntry(r, session, 0, phases[r].since, Some(callback));
      if 0 < cfg.waitTimeout {
        phases := phases[r := Waiting(callback, 0)];
      } else {
        queue.CancelEntry(r, session, 0);
        phases := phases[r := Gone(TimedOut)];
      }
    }

    method Settle(r: RequestId, callback: Callback, later: int) returns (winner: Option<HostId>)
      requires Valid() && r in requests && r in phases && phases[r].Probing?
      modifies this`phases, book, queue, registry, router
      ensures Valid() && Shed(old(book.State()), book.State(), later)
      ensures Settles(cfg, old(State()), State(), r, callback, later, winner)
      ensures SameFrame(old(State()), State()) && requests == old(requests) && clock == old(clock)
    {
      ghost var g := State();
      var lost, candidates := CurrentCandidates(callback, later);
      ghost var g1 := State();
      assert g1 == g.(leases := g1.leases);
      if lost {
        phases := phases[r := Gone(LeaseLost)];
        return None;
      }
      if candidates != [] {
        assert candidates[0].backendId in BackendIds(candidates);
        winner := Route(r, candidates);
        RoutesIgnoresLeases(g, g1, State(), r, BackendIds(candidates), winner);
        return;
      }
      assert BackendIds(candidates) == {};
      JoinQueue(r, callback);
      return None;
    }

    method Refuse(r: RequestId, exit: Exit, later: int)
      requires Valid() && r in requests && r in phases
      modifies this`phases, this`clock
      ensures Valid() && State() == old(State()).(phases := old(phases)[r := Gone(exit)], clock := later)
    {
      phases := phases[r := Gone(exit)];
      clock := later;
    }

    ghost method Tick(later: int)
      requires Valid()
      modifies this`clock
      ensures Valid() && State() == old(State()).(clock := later)
    {
      clock := later;
    }

    /** After model discovery: an error, a slot, or a place in the queue. */
    method AdmitRequest(r: RequestId, capable: seq<HostId>, at: int, later: int) returns (winner: Option<HostId>)
      requires Valid() && r in requests && r in phases && phases[r].Probing? && clock <= at <= later
      requires forall h :: h in capable ==> h in registry.hosts
      modifies this`phases, this`clock, book, queue, registry, router
      ensures Valid() && AdmitNext(cfg, old(State()), State(), r, capable, at, later, winner)
    {
      ghost var g := State();
      var callback := Callback(requests[r].LeaseToken(), capable);
      var lost, anyOpen := Narrow(callback, at);
      ghost var g1 := State();
      if lost || !anyOpen {
        Refuse(r, if lost then LeaseLost else NotServed, later);
        RefusalIsNext(cfg, g, g1, State(), r, capable, at, later, lost);
        return None;
      }
      winner := Settle(r, callback, later);
      ghost var g2 := State();
      Tick(later);
      SettledIsNext(cfg, g, g1, g2, State(), r, capable, at, later, winner);
    }

    /** Ask the queue whether request r is next, its candidates being `offered` and every
        queued callback answering as it does at `later`. */
    method TryDispatch(r: RequestId, offered: set<HostId>, later: int) returns (dispatched: Option<RequestId>)
      requires Valid()
      modifies queue
      ensures Valid() && Registered(old(State()))
      ensures var g := old(State());
              var env := EnvAt(g, offered, later);
              State() == g.(queue := Dispatch(g.queue, env, Some(r)).0) && dispatched == Dispatch(g.queue, env, Some(r)).1
    {
      ghost var g := State();
      assert Registered(g);
      var loads := registry.Loads();
      assert loads == Loads(g);
      var leases, online, table, counters := Table(book.byHost, book.byToken), healthy, TableOf(registry.hosts), CountersOf(registry.hosts);
      var env := Env(loads, Some(offered), (c: Callback) => CandidatesIn(leases, online, table, counters, c, later));
      dispatched := queue.DispatchEntry(env, Some(r));
      SameAnswersSameDispatch(g.queue, env, EnvAt(g, offered, later), Some(r));
    }

    /** Leave the waiting loop without a slot. */
    method LeaveLoop(r: RequestId, exit: Exit)
      requires Valid() && r in requests
      modifies this`phases, queue
      ensures Valid()
      ensures State() == old(State()).(queue := LeaveQueue(old(State()), old(State()).queue, r), phases := old(phases)[r := Gone(exit)])
    {
      queue.CancelEntry(r, requests[r].QueueSession(r), 0);
      phases := phases[r := Gone(exit)];
    }

    /** Dispatched: the entry is cancelled all the same, and the request routed. */
    method StartDispatched(r: RequestId, candidates: seq<Routing.Candidate>) returns (winner: Option<HostId>)
      requires Valid() && r in requests && WindowsMatch(candidates)
      modifies this`phases, queue, registry, router
      ensures Valid() && Routes(old(State()), State(), r, BackendIds(candidates), winner)
      ensures State() == old(State()).(queue := LeaveQueue(old(State()), old(State()).queue, r),
                                       phases := State().phases, inFlight := State().inFlight)
    {
      ghost var g := State();
      queue.CancelEntry(r, requests[r].QueueSession(r), 0);
      ghost var g1 := State();
      winner := Route(r, candidates);
      RoutesIgnoresQueue(g, g1, State(), r, BackendIds(candidates), winner);
    }

    /** Start request r if it is next in line. */
    method TryStart(r: RequestId, candidates: seq<Routing.Candidate>, later: int) returns (started: bool, winner: Option<HostId>)
      requires Valid() && r in requests && WindowsMatch(candidates)
      modifies this`phases, queue, registry, router
      ensures Valid() && Registered(old(State()))
      ensures var g := old(State());
              var (q, dispatched) := Dispatch(g.queue, EnvAt(g, BackendIds(candidates), later), Some(r));
              && (started <==> dispatched == Some(r))
              && (started ==> Routes(g, State(), r, BackendIds(candidates), winner)
                              && State() == g.(queue := LeaveQueue(g, q, r), phases := State().phases, inFlight := State().inFlight))
              && (!started ==> State() == g)
    {
      ghost var g := State();
      var dispatched := TryDispatch(r, BackendIds(candidates), later);
      if dispatched != Some(r) {
        return false, None;
      }
      ghost var g1 := State();
      winner := StartDispatched(r, candidates);
      RoutesIgnoresQueue(g, g1, State(), r, BackendIds(candidates), winner);
      return true, winner;
    }

    /** A turn of the polling loop once the candidates are known. */
    method TakeTurn(r: RequestId, candidates: seq<Routing.Candidate>, later: int, waited: int) returns (winner: Option<HostId>)
      requires Valid() && r in requests && r in phases && phases[r].Waiting? && WindowsMatch(candidates)
      modifies this`phases, queue, registry, router
      ensures Valid() && Registered(old(State()))
      ensures Turn(cfg, old(State()), State(), r, BackendIds(candidates), later, waited, winner)
      ensures State() == old(State()).(queue := State().queue, phases := State().phases, inFlight := State().inFlight)
    {
      if candidates != [] {
        assert candidates[0].backendId in BackendIds(candidates);
        var started;
        started, winner := TryStart(r, candidates, later);
        if started {
          return;
        }
      } else {
        assert BackendIds(candidates) == {};
        assert Registered(State());
      }
      winner := None;
      if waited < cfg.waitTimeout {
        phases := phases[r := Waiting(phases[r].callback, waited)];
      } else {
        LeaveLoop(r, TimedOut);
      }
    }

    /** One turn of the polling loop, after its sleep. */
    method PollRequest(r: RequestId, at: int, later: int) returns (winner: Option<HostId>)
      requires Valid() && r in requests && r in phases && phases[r].Waiting? && clock <= at <= later
      modifies this`phases, this`clock, book, queue, registry, router
      ensures Valid() && PollNext(cfg, old(State()), State(), r, at, later, winner)
    {
      ghost var g := State();
      assert Registered(g);
      var callback := phases[r].callback;
      var waited := phases[r].waited + cfg.pollInterval;
      var lost, candidates := CurrentCandidates(callback, at);
      clock := later;
      ghost var g1 := State();
      assert g1 == g.(leases := g1.leases, clock := later);
      ShedRefl(g1.leases, later);
      ShedTrans(g.leases, g1.leases, g1.leases, at, later);
      if lost {
        LeaveLoop(r, LeaseLost);
        return None;
      }
      winner := TakeTurn(r, candidates, later, waited);
      TurnAfterShed(cfg, g, g1, State(), r, callback, at, later, winner);
    }

    /** Give the slot of a running or closing request back. */
    method GiveSlot(r: RequestId, h: HostId, exit: Exit)
      requires Valid() && h in registry.hosts
      modifies this`phases, registry`hosts
      ensures Valid()
      ensures State() == old(State()).(phases := old(phases)[r := Gone(exit)],
                                       inFlight := old(State()).inFlight[h := old(State()).inFlight[h] - 1])
    {
      CountDown(h);
      phases := phases[r := Gone(exit)];
    }

    /** A non-streaming backend call is over, with a result or an error. */
    method FinishRequest(r: RequestId)
      requires Valid() && r in requests && r in phases && phases[r].Running? && !requests[r].stream
      requires phases[r].host in registry.hosts
      modifies this`phases, registry
      ensures Valid() && FinishNext(old(State()), State(), r)
    {
      ghost var g := State();
      GiveSlot(r, phases[r].host, Completed);
      FinishIsNext(g, State(), r);
    }

    /** A stream starts closing its chunks. */
    method BeginCloseRequest(r: RequestId)
      requires Valid() && r in requests && r in phases && phases[r].Running? && requests[r].stream
      modifies this`phases
      ensures Valid() && BeginCloseNext(old(State()), State(), r)
    {
      ghost var g := State();
      phases := phases[r := Closing(phases[r].host)];
      BeginCloseIsNext(g, State(), r);
    }

    /** A stream's chunks are closed; its slot goes back. */
    method EndCloseRequest(r: RequestId)
      requires Valid() && r in requests && r in phases && phases[r].Closing?
      requires phases[r].host in registry.hosts
      modifies this`phases, registry
      ensures Valid() && EndCloseNext(old(State()), State(), r)
    {
      ghost var g := State();
      GiveSlot(r, phases[r].host, Completed);
      EndCloseIsNext(g, State(), r);
    }

    /** The client goes away. */
    method DisconnectRequest(r: RequestId)
      requires Valid() && r in requests && r in phases && !phases[r].Gone? && !phases[r].Closing?
      requires phases[r].Running? ==> phases[r].host in registry.hosts
      modifies this`phases, queue, registry
      ensures Valid() && DisconnectNext(old(State()), State(), r)
    {
      ghost var g := State();
      match phases[r]
      case Probing(_) => phases := phases[r := Gone(Disconnected)];
        ProbingDisconnects(g, State(), r);
      case Waiting(_, _) => LeaveLoop(r, Disconnected);
        WaitingDisconnects(g, State(), r);
      case Running(h) => StopRunning(r, h);
    }

    method StopRunning(r: RequestId, h: HostId)
      requires Valid() && r in requests && r in phases && phases[r] == Running(h) && h in registry.hosts
      modifies this`phases, registry`hosts
      ensures Valid() && DisconnectNext(old(State()), State(), r)
    {
      if requests[r].stream {
        StopStream(r, h);
      } else {
        StopCall(r, h);
      }
    }

    method StopStream(r: RequestId, h: HostId)
      requires Valid() && r in requests && r in phases && phases[r] == Running(h) && requests[r].stream
      modifies this`phases
      ensures Valid() && DisconnectNext(old(State()), State(), r)
    {
      ghost var g := State();
      phases := phases[r := Closing(h)];
      StreamDisconnects(g, State(), r);
    }

    method StopCall(r: RequestId, h: HostId)
      requires Valid() && r in requests && r in phases && phases[r] == Running(h) && h in registry.hosts && !requests[r].stream
      modifies this`phases, registry`hosts
      ensures Valid() && DisconnectNext(old(State()), State(), r)
    {
      ghost var g := State();
      GiveSlot(r, h, Disconnected);
      CallDisconnects(g, State(), r);
    }

    /** The health monitor's verdicts change. */
    method SetHealthy(hosts: set<HostId>)
      requires Valid()
      modifies this`healthy
      ensures Valid() && State() == old(State()).(healthy := hosts)
    {
      healthy := hosts;
    }

    /** One operation of the lease book. */
    method CallBook(op: Op, at: int) returns (outcome: Outcome)
      requires Valid() && (op.OpReserve? ==> op.request.newToken !in book.byToken)
      modifies book
      ensures Valid()
      ensures (book.State(), outcome) == Lazy(cfg.leaseSettings, old(book.State()), op, at)
    {
      match op
      case OpReserve(req) => var r := book.Reserve(req, at); outcome := FromResult(r);
      case OpRequire(k) => var r := book.Require(k, at); outcome := FromResult(r);
      case OpIsHeld(h) => var held := book.IsHeld(h, at); outcome := Held(held);
      case OpHeartbeat(k) => var r := book.Heartbeat(k, at); outcome := FromResult(r);
      case OpRelease(k) => var r := book.Release(k, at); outcome := FromResult(r);
      case OpForceRelease(h) => var r := book.ForceRelease(h, at); outcome := FromResult(r);
      case OpView(h) => var view := book.View(h, at); outcome := Viewed(view);
    }

    /** One call of the lease endpoints. */
    method LeaseCall(op: Op, at: int) returns (outcome: Outcome)
      requires Valid() && clock <= at
      requires op.OpReserve? ==> op.request.newToken !in issued && op.request.newToken !in book.byToken
      modifies this`clock, this`issued, book
      ensures Valid() && LeaseNext(cfg, old(State()), State(), op, at)
      ensures outcome == Lazy(cfg.leaseSettings, old(book.State()), op, at).1
    {
      ghost var g := State();
      outcome := CallBook(op, at);
      if op.OpReserve? && outcome.Granted? {
        issued := issued[op.request.newToken := outcome.lease.hostId];
      }
      clock := at;
      assert State() == g.(clock := at, leases := book.State(), issued := issued);
    }

    ghost predicate WindowsMatch(candidates: seq<Routing.Candidate>)
      reads this, registry
    {
      forall c :: c in candidates ==> c.backendId in registry.hosts && c.contextWindow == registry.hosts[c.backendId].contextWindow
    }
  }

  function AddCandidate(candidates: seq<Routing.Candidate>, c: Routing.Candidate): (more: seq<Routing.Candidate>)
    ensures forall x :: x in more <==> x in candidates || x == c
    ensures BackendIds(more) == BackendIds(candidates) + {c.backendId}
  {
    assert forall x :: x in candidates + [c] <==> x in candidates || x == c;
    candidates + [c]
  }

  lemma OneMoreCandidate(leases: Table, healthy: set<HostId>, table: map<HostId, Host>, inFlight: map<HostId, int>,
                         token: Option<Token>, capable: seq<HostId>, i: nat, t: int)
    requires i < |capable|
    ensures CandidatesIn(leases, healthy, table, inFlight, Callback(token, capable[..i + 1]), t)
            == CandidatesIn(leases, healthy, table, inFlight, Callback(token, capable[..i]), t)
               + if Open(leases, token, capable[i], t) && capable[i] in healthy && HasSlot(table, inFlight, capable[i])
                 then {capable[i]} else {}
  {
    assert capable[..i + 1] == capable[..i] + [capable[i]];
  }

  /** Whatever the router decides, it chooses among candidates whose window is large enough. */
  lemma RoutedFits(engine: Routing.Engine, before: Routing.Assignments, candidates: seq<Routing.Candidate>, ctx: Routing.Context,
                   session: Option<SessionId>, after: Routing.Assignments, decision: Option<Routing.Decision>)
    requires Routing.Routed(engine, before, candidates, ctx, session, after, decision)
    ensures decision.None? <==> forall c :: c in candidates ==> c.contextWindow < ctx.tokenBudget
    ensures decision.Some? ==> exists c :: c in candidates && c.contextWindow >= ctx.tokenBudget && c.backendId == decision.value.backendId
  {
    var eligible := Routing.Eligible(candidates, ctx.tokenBudget);
    var scores := Routing.ScoreMap(engine.policy, eligible, ctx);
    assert forall c :: c in eligible ==> c.backendId in scores;
    if decision.Some? {
      assert decision.value.backendId in scores;
    }
  }

  lemma RoutesIgnoresLeases(g: Gateway, g1: Gateway, g': Gateway, r: RequestId, candidates: set<HostId>, winner: Option<HostId>)
    requires g1 == g.(leases := g1.leases, clock := g1.clock) && r in g.requests && Routes(g1, g', r, candidates, winner)
    ensures Routes(g, g', r, candidates, winner)
  {
    assert Fitting(g, candidates, g.requests[r].TokenBudget()) == Fitting(g1, candidates, g.requests[r].TokenBudget());
  }

  /** What a dispatch sees when `offered` are the poller's candidates and callbacks are asked at `later`. */
  ghost function EnvAt(g: Gateway, offered: set<HostId>, later: int): Env<Callback>
    requires Registered(g)
  {
    Env(Loads(g), Some(offered), (c: Callback) => Candidates(g, c, later))
  }

  /** Dispatching after a look at the leases is dispatching from the state before it. */
  lemma DispatchAfterShed(g: Gateway, g1: Gateway, callback: Callback, offered: set<HostId>, at: int, later: int, r: RequestId)
    requires Registered(g) && Paired(g.leases) && Shed(g.leases, g1.leases, at) && at <= later
    requires g1 == g.(leases := g1.leases, clock := g1.clock) && offered == Candidates(g, callback, at)
    ensures Dispatch(g1.queue, EnvAt(g1, offered, later), Some(r)) == Dispatch(g.queue, PollEnv(g, callback, at, later), Some(r))
  {
    forall c ensures Candidates(g, c, later) == Candidates(g1, c, later) {
      ShedKeepsCandidates(g.leases, g1.leases, at, later, g.healthy, g.table, g.inFlight, c);
    }
    assert Loads(g) == Loads(g1);
    SameAnswersSameDispatch(g.queue, EnvAt(g1, offered, later), PollEnv(g, callback, at, later), Some(r));
  }

  /** A turn of the polling loop whose candidates are `offered` and which has now waited that long. */
  ghost predicate Turn(cfg: Config, g: Gateway, g': Gateway, r: RequestId, offered: set<HostId>, later: int, waited: int, winner: Option<HostId>)
    requires Registered(g) && r in g.requests && r in g.phases && g.phases[r].Waiting?
  {
    var (q, dispatched) := Dispatch(g.queue, EnvAt(g, offered, later), Some(r));
    if offered != {} && dispatched == Some(r) then
      Routes(g, g', r, offered, winner) && g'.queue == LeaveQueue(g, q, r)
    else if waited < cfg.waitTimeout then
      MovesTo(g, g', r, Waiting(g.phases[r].callback, waited)) && g'.queue == g.queue
    else MovesTo(g, g', r, Gone(TimedOut)) && g'.queue == LeaveQueue(g, g.queue, r)
  }

  /** A turn taken after the look at the leases is the protocol's polling step. */
  lemma TurnAfterShed(cfg: Config, g: Gateway, g1: Gateway, g': Gateway, r: RequestId, callback: Callback, at: int, later: int, winner: Option<HostId>)
    requires Registered(g) && Paired(g.leases) && Shed(g.leases, g1.leases, at) && at <= later
    requires g1 == g.(leases := g1.leases, clock := g1.clock)
    requires r in g.requests && r in g.phases && g.phases[r].Waiting? && callback == g.phases[r].callback
    requires LeaseOk(g.leases, callback.token, at)
    requires Turn(cfg, g1, g', r, Candidates(g, callback, at), later, g.phases[r].waited + cfg.pollInterval, winner)
    ensures PollStep(cfg, g, g', r, at, later, winner)
  {
    var offered := Candidates(g, callback, at);
    DispatchAfterShed(g, g1, callback, offered, at, later, r);
    if offered != {} && Dispatch(g.queue, PollEnv(g, callback, at, later), Some(r)).1 == Some(r) {
      RoutesIgnoresLeases(g, g1, g', r, offered, winner);
    }
  }

  lemma RoutesIgnoresQueue(g: Gateway, g1: Gateway, g': Gateway, r: RequestId, candidates: set<HostId>, winner: Option<HostId>)
    requires g1 == g.(queue := g1.queue) && r in g.requests && Routes(g1, g', r, candidates, winner)
    ensures Routes(g, g', r, candidates, winner)
  {
    assert Fitting(g, candidates, g.requests[r].TokenBudget()) == Fitting(g1, candidates, g.requests[r].TokenBudget());
  }

  /** The registry's hosts, the health verdicts and the issued tokens are as before. */
  ghost predicate SameFrame(g: Gateway, g': Gateway) {
    g'.order == g.order && g'.table == g.table && g'.healthy == g.healthy && g'.issued == g.issued
  }

  // ---------------------------------------------------------------- steps over states

  lemma FinishIsNext(g: Gateway, g': Gateway, r: RequestId)
    requires Paired(g.leases) && r in g.requests && r in g.phases && g.phases[r].Running? && !g.requests[r].stream
    requires g.phases[r].host in g.inFlight
    requires g' == g.(phases := g.phases[r := Gone(Completed)], inFlight := g.inFlight[g.phases[r].host := g.inFlight[g.phases[r].host] - 1])
    ensures FinishNext(g, g', r)
  {
    ShedRefl(g.leases, g.clock);
  }

  lemma BeginCloseIsNext(g: Gateway, g': Gateway, r: RequestId)
    requires Paired(g.leases) && r in g.requests && r in g.phases && g.phases[r].Running? && g.requests[r].stream
    requires g' == g.(phases := g.phases[r := Closing(g.phases[r].host)])
    ensures BeginCloseNext(g, g', r)
  {
    ShedRefl(g.leases, g.clock);
  }

  lemma EndCloseIsNext(g: Gateway, g': Gateway, r: RequestId)
    requires Paired(g.leases) && r in g.requests && r in g.phases && g.phases[r].Closing? && g.phases[r].host in g.inFlight
    requires g' == g.(phases := g.phases[r := Gone(Completed)], inFlight := g.inFlight[g.phases[r].host := g.inFlight[g.phases[r].host] - 1])
    ensures EndCloseNext(g, g', r)
  {
    ShedRefl(g.leases, g.clock);
  }

  lemma ProbingDisconnects(g: Gateway, g': Gateway, r: RequestId)
    requires Paired(g.leases) && r in g.requests && r in g.phases && g.phases[r].Probing?
    requires g' == g.(phases := g.phases[r := Gone(Disconnected)])
    ensures DisconnectNext(g, g', r)
  {
    ShedRefl(g.leases, g.clock);
  }

  lemma WaitingDisconnects(g: Gateway, g': Gateway, r: RequestId)
    requires Paired(g.leases) && r in g.requests && r in g.phases && g.phases[r].Waiting?
    requires g' == g.(queue := LeaveQueue(g, g.queue, r), phases := g.phases[r := Gone(Disconnected)])
    ensures DisconnectNext(g, g', r)
  {
    ShedRefl(g.leases, g.clock);
  }

  lemma StreamDisconnects(g: Gateway, g': Gateway, r: RequestId)
    requires Paired(g.leases) && r in g.requests && r in g.phases && g.phases[r].Running? && g.requests[r].stream
    requires g' == g.(phases := g.phases[r := Closing(g.phases[r].host)])
    ensures DisconnectNext(g, g', r)
  {
    ShedRefl(g.leases, g.clock);
  }

  lemma CallDisconnects(g: Gateway, g': Gateway, r: RequestId)
    requires Paired(g.leases) && r in g.requests && r in g.phases && g.phases[r].Running? && !g.requests[r].stream
    requires g.phases[r].host in g.inFlight
    requires g' == g.(phases := g.phases[r := Gone(Disconnected)], inFlight := g.inFlight[g.phases[r].host := g.inFlight[g.phases[r].host] - 1])
    ensures DisconnectNext(g, g', r)
  {
    ShedRefl(g.leases, g.clock);
  }

  lemma ArriveIsNext(g: Gateway, g': Gateway, r: RequestId, request: ChatRequest, at: int)
    requires g.clock <= at && r !in g.requests && r !in g.phases && Shed(g.leases, g'.leases, at)
    requires g' == g.(clock := at, leases := g'.leases, requests := g.requests[r := request],
                      phases := g.phases[r := if LeaseOk(g.leases, request.LeaseToken(), at) then Probing(at) else Gone(LeaseLost)])
    ensures ArriveNext(g, g', r, request, at)
  {
  }

  lemma RefusalIsNext(cfg: Config, g: Gateway, g1: Gateway, g': Gateway, r: RequestId, capable: seq<HostId>, at: int, later: int, lost: bool)
    requires r in g.requests && r in g.phases && g.phases[r].Probing? && Registered(g) && forall h :: h in capable ==> h in g.table
    requires g.clock <= at <= later && Shed(g.leases, g1.leases, at) && g1 == g.(leases := g1.leases)
    requires lost <==> !LeaseOk(g.leases, g.requests[r].LeaseToken(), at)
    requires !lost ==> !exists h :: h in capable && Open(g.leases, g.requests[r].LeaseToken(), h, at)
    requires g' == g1.(clock := later, phases := g.phases[r := Gone(if lost then LeaseLost else NotServed)])
    ensures AdmitNext(cfg, g, g', r, capable, at, later, None)
  {
    ShedRefl(g1.leases, later);
    ShedTrans(g.leases, g1.leases, g1.leases, at, later);
  }

  lemma SettledIsNext(cfg: Config, g: Gateway, g1: Gateway, g2: Gateway, g': Gateway, r: RequestId, capable: seq<HostId>,
                      at: int, later: int, winner: Option<HostId>)
    requires Paired(g.leases) && Shed(g.leases, g1.leases, at) && g1 == g.(leases := g1.leases) && Shed(g1.leases, g2.leases, later)
    requires r in g.requests && r in g.phases && g.phases[r].Probing? && Registered(g) && forall h :: h in capable ==> h in g.table
    requires g.clock <= at <= later && LeaseOk(g.leases, g.requests[r].LeaseToken(), at)
    requires exists h :: h in capable && Open(g.leases, g.requests[r].LeaseToken(), h, at)
    requires Settles(cfg, g1, g2, r, Callback(g.requests[r].LeaseToken(), capable), later, winner)
    requires SameFrame(g1, g2) && g2.requests == g.requests && g' == g2.(clock := later)
    ensures AdmitNext(cfg, g, g', r, capable, at, later, winner)
  {
    var callback := Callback(g.requests[r].LeaseToken(), capable);
    ShedTrans(g.leases, g1.leases, g2.leases, at, later);
    SettlesAfterShed(cfg, g, g1, g2, r, callback, at, later, winner);
    assert Settles(cfg, g, g', r, callback, later, winner);
  }

  /** Settling after a first look at the leases is settling from the state before it. */
  lemma SettlesAfterShed(cfg: Config, g: Gateway, g1: Gateway, g': Gateway, r: RequestId, callback: Callback, at: int, later: int, winner: Option<HostId>)
    requires Paired(g.leases) && Shed(g.leases, g1.leases, at) && at <= later && g1 == g.(leases := g1.leases)
    requires r in g.requests && r in g.phases && g.phases[r].Probing?
    requires Settles(cfg, g1, g', r, callback, later, winner)
    ensures Settles(cfg, g, g', r, callback, later, winner)
  {
    ShedKeepsAnswers(g.leases, g1.leases, at, later);
    ShedKeepsCandidates(g.leases, g1.leases, at, later, g.healthy, g.table, g.inFlight, callback);
  }

  /** Fitting hosts are the ids of the candidates whose window is large enough. */
  lemma FittingWindows(g: Gateway, candidates: seq<Routing.Candidate>, budget: int)
    requires forall c :: c in candidates ==> c.backendId in g.table && c.contextWindow == g.table[c.backendId].contextWindow
    ensures forall h :: h in Fitting(g, BackendIds(candidates), budget)
                        <==> exists c :: c in candidates && c.contextWindow >= budget && c.backendId == h
    ensures (Fitting(g, BackendIds(candidates), budget) == {}) <==> forall c :: c in candidates ==> c.contextWindow < budget
  {
    forall h | h in Fitting(g, BackendIds(candidates), budget)
      ensures exists c :: c in candidates && c.contextWindow >= budget && c.backendId == h
    {
      var c :| c in candidates && c.backendId == h;
    }
    forall c | c in candidates && c.contextWindow >= budget
      ensures c.backendId in Fitting(g, BackendIds(candidates), budget)
    {
      assert c.backendId in BackendIds(candidates);
    }
  }
}
