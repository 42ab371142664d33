/** The admission protocol of chat completions (api/app.py, with the scheduling queue, the host
    registry, the lease book and the ownership of streams) as a state machine.

    Tasks switch only where the source awaits, so every stretch between two awaits is one event.
    A request is Probing while models are discovered, Waiting in its polling loop, Running on a
    host whose slot it holds, Closing while a stream's chunks are closed, and Gone afterwards. */
module Admission {
  import opened Basics
  import opened Leases
  import opened LeaseRuns
  import opened Scheduling
  import Routing

  datatype Config = Config(leaseSettings: Settings, waitTimeout: int, pollInterval: int)

  datatype ChatRequest = ChatRequest(leaseHeader: Option<string>, sessionId: Option<SessionId>, stream: bool,
                                     contents: seq<string>, taskType: Option<string>)
  {
    function TokenBudget(): int { Routing.EstimateTokenBudget(contents) }

    /** An empty lease header counts as none. */
    function LeaseToken(): Option<Token> { if leaseHeader == Some("") then None else leaseHeader }

    /** The session a waiting request queues under: its own, or one of its own making. */
    function QueueSession(r: RequestId): SessionId {
      if sessionId == None || sessionId == Some("") then r else sessionId.value
    }
  }

  datatype Host = Host(maxConcurrent: int, contextWindow: int)

  /** What a queued request's eligibility callback captured. */
  datatype Callback = Callback(token: Option<Token>, capable: seq<HostId>)

  datatype Exit = Completed | LeaseLost | NotServed | NoBackend | TimedOut | Disconnected

  datatype Phase =
    | Probing(since: int)
    | Waiting(callback: Callback, waited: int)
    | Running(host: HostId)
    | Closing(host: HostId)
    | Gone(exit: Exit)

  datatype Gateway = Gateway(
    clock: int,
    order: seq<HostId>, table: map<HostId, Host>, inFlight: map<HostId, int>, healthy: set<HostId>,
    leases: Table, issued: map<Token, HostId>,
    queue: Queue<Callback>,
    requests: map<RequestId, ChatRequest>, phases: map<RequestId, Phase>)

  /** `at` and `later` are the clock readings a stretch takes; `winner` is the router's choice. */
  datatype Event =
    | Arrive(r: RequestId, request: ChatRequest, at: int)
    | Admit(r: RequestId, capable: seq<HostId>, at: int, later: int, winner: Option<HostId>)
    | Poll(r: RequestId, at: int, later: int, winner: Option<HostId>)
    | Finish(r: RequestId)
    | BeginClose(r: RequestId)
    | EndClose(r: RequestId)
    | Disconnect(r: RequestId)
    | LeaseEvent(op: Op, at: int)
    | HealthChange(healthy: set<HostId>)

  // ---------------------------------------------------------------- candidates

  predicate TokenLive(leases: Table, token: Token, t: int) { RequireSpec(leases, token, t).1.Ok? }

  predicate LeaseOk(leases: Table, token: Option<Token>, t: int) { token.Some? ==> TokenLive(leases, token.value, t) }

  /** The lease holding a host at time t, if any. */
  function HolderAt(leases: Table, h: HostId, t: int): Option<Lease> { HeldSpec(leases, h, t).1 }

  /** A pinned request may use its leased host only; any other request only hosts nobody holds. */
  predicate Open(leases: Table, token: Option<Token>, h: HostId, t: int) {
    if token.Some? then TokenLive(leases, token.value, t) && leases.byToken[token.value].hostId == h
    else HolderAt(leases, h, t) == None
  }

  predicate HasSlot(table: map<HostId, Host>, inFlight: map<HostId, int>, h: HostId) {
    h in table && h in inFlight && inFlight[h] < table[h].maxConcurrent
  }

  /** The hosts a callback would name from these tables at time t: open to it, healthy, with a free slot. */
  function CandidatesIn(leases: Table, healthy: set<HostId>, table: map<HostId, Host>, inFlight: map<HostId, int>,
                        callback: Callback, t: int): set<HostId> {
    set h | h in callback.capable && Open(leases, callback.token, h, t) && h in healthy && HasSlot(table, inFlight, h)
  }

  function Candidates(g: Gateway, callback: Callback, t: int): set<HostId> {
    CandidatesIn(g.leases, g.healthy, g.table, g.inFlight, callback, t)
  }

  function Fitting(g: Gateway, candidates: set<HostId>, budget: int): set<HostId> {
    set h | h in candidates && h in g.table && g.table[h].contextWindow >= budget
  }

  /** What the registry reports to a dispatch. */
  function Loads(g: Gateway): (loads: seq<HostLoad>)
    requires forall h :: h in g.order ==> h in g.table && h in g.inFlight
    ensures |loads| == |g.order|
    ensures forall i :: 0 <= i < |loads| ==> loads[i] == HostLoad(g.order[i], g.inFlight[g.order[i]], g.table[g.order[i]].maxConcurrent)
  {
    seq(|g.order|, i requires 0 <= i < |g.order| =>
      HostLoad(g.order[i], g.inFlight[g.order[i]], g.table[g.order[i]].maxConcurrent))
  }

  /** The environment of a poll: the poller's candidates at `at`, every callback asked at `later`. */
  ghost function PollEnv(g: Gateway, callback: Callback, at: int, later: int): Env<Callback>
    requires Registered(g)
  {
    Env(Loads(g), Some(Candidates(g, callback, at)), (c: Callback) => Candidates(g, c, later))
  }

  /** The registry lists its hosts once each, with a counter for each. */
  ghost predicate Registered(g: Gateway) {
    && g.inFlight.Keys == g.table.Keys
    && (forall h :: h in g.order <==> h in g.table)
    && (forall i, j :: 0 <= i < j < |g.order| ==> g.order[i] != g.order[j])
  }

  // ---------------------------------------------------------------- steps

  /** Expired leases may be dropped along the way; live ones stay. */
  ghost predicate Shed(before: Table, after: Table, t: int) {
    && Paired(after)
    && (forall h :: h in after.byHost ==> h in before.byHost && after.byHost[h] == before.byHost[h])
    && (forall h :: h in before.byHost && !Expired(before.byHost[h], t) ==> h in after.byHost)
  }

  /** Routing a request with candidates: it takes a slot of the winner, or leaves if none fits. */
  ghost predicate Routes(g: Gateway, g': Gateway, r: RequestId, candidates: set<HostId>, winner: Option<HostId>)
    requires r in g.requests
  {
    var fitting := Fitting(g, candidates, g.requests[r].TokenBudget());
    if fitting == {} then
      winner == None && g'.inFlight == g.inFlight && g'.phases == g.phases[r := Gone(NoBackend)]
    else
      && winner.Some? && winner.value in fitting && winner.value in g.inFlight
      && g'.inFlight == g.inFlight[winner.value := g.inFlight[winner.value] + 1]
      && g'.phases == g.phases[r := Running(winner.value)]
  }

  ghost predicate MovesTo(g: Gateway, g': Gateway, r: RequestId, phase: Phase) {
    g'.phases == g.phases[r := phase] && g'.inFlight == g.inFlight
  }

  function QueueEntry(r: RequestId, request: ChatRequest, at: int): Entry { Entry(r, request.QueueSession(r), 0, at) }

  function LeaveQueue(g: Gateway, q: Queue<Callback>, r: RequestId): Queue<Callback>
    requires r in g.requests
  {
    Cancel(q, r, g.requests[r].QueueSession(r), 0)
  }

  /** A request with its callback takes a slot, joins the queue, or finds its lease gone. */
  ghost predicate Settles(cfg: Config, g: Gateway, g': Gateway, r: RequestId, callback: Callback, later: int, winner: Option<HostId>)
    requires r in g.requests && r in g.phases && g.phases[r].Probing?
  {
    if !LeaseOk(g.leases, callback.token, later) then
      MovesTo(g, g', r, Gone(LeaseLost)) && g'.queue == g.queue
    else if Candidates(g, callback, later) != {} then
      Routes(g, g', r, Candidates(g, callback, later), winner) && g'.queue == g.queue
    else
      var queued := Enqueue(g.queue, QueueEntry(r, g.requests[r], g.phases[r].since), Some(callback));
      if 0 < cfg.waitTimeout then MovesTo(g, g', r, Waiting(callback, 0)) && g'.queue == queued
      else MovesTo(g, g', r, Gone(TimedOut)) && g'.queue == LeaveQueue(g, queued, r)
  }

  /** From the end of model discovery to a slot, the queue, or an error. */
  ghost predicate AdmitStep(cfg: Config, g: Gateway, g': Gateway, r: RequestId, capable: seq<HostId>, at: int, later: int, winner: Option<HostId>) {
    && r in g.requests && r in g.phases && g.phases[r].Probing? && Registered(g)
    && (forall h :: h in capable ==> h in g.table)
    && var callback := Callback(g.requests[r].LeaseToken(), capable);
       if !LeaseOk(g.leases, callback.token, at) then
         MovesTo(g, g', r, Gone(LeaseLost)) && g'.queue == g.queue
       else if !exists h :: h in capable && Open(g.leases, callback.token, h, at) then
         MovesTo(g, g', r, Gone(NotServed)) && g'.queue == g.queue
       else Settles(cfg, g, g', r, callback, later, winner)
  }

  /** One turn of the polling loop, after its sleep. */
  ghost predicate PollStep(cfg: Config, g: Gateway, g': Gateway, r: RequestId, at: int, later: int, winner: Option<HostId>) {
    && r in g.requests && r in g.phases && g.phases[r].Waiting? && Registered(g)
    && var callback := g.phases[r].callback;
       var waited := g.phases[r].waited + cfg.pollInterval;
       var candidates := Candidates(g, callback, at);
       if !LeaseOk(g.leases, callback.token, at) then
         MovesTo(g, g', r, Gone(LeaseLost)) && g'.queue == LeaveQueue(g, g.queue, r)
       else
         var (queue, dispatched) := Dispatch(g.queue, PollEnv(g, callback, at, later), Some(r));
         if candidates != {} && dispatched == Some(r) then
           Routes(g, g', r, candidates, winner) && g'.queue == LeaveQueue(g, queue, r)
         else if waited < cfg.waitTimeout then
           MovesTo(g, g', r, Waiting(callback, waited)) && g'.queue == g.queue
         else MovesTo(g, g', r, Gone(TimedOut)) && g'.queue == LeaveQueue(g, g.queue, r)
  }

  /** A slot is given back as the request moves on. */
  ghost predicate ReleasesTo(g: Gateway, g': Gateway, r: RequestId, h: HostId, exit: Exit) {
    && h in g.inFlight
    && g'.inFlight == g.inFlight[h := g.inFlight[h] - 1]
    && g'.phases == g.phases[r := Gone(exit)]
  }

  ghost predicate DisconnectStep(g: Gateway, g': Gateway, r: RequestId) {
    && r in g.requests && r in g.phases
    && match g.phases[r]
       case Probing(_) => MovesTo(g, g', r, Gone(Disconnected)) && g'.queue == g.queue
       case Waiting(_, _) => MovesTo(g, g', r, Gone(Disconnected)) && g'.queue == LeaveQueue(g, g.queue, r)
       case Running(h) =>
         && g'.queue == g.queue
         && (if g.requests[r].stream then MovesTo(g, g', r, Closing(h)) else ReleasesTo(g, g', r, h, Disconnected))
       case Closing(_) => false
       case Gone(_) => false
  }

  /** What a chat event leaves alone: everything but its own request, the queue, the slots and the
      clock; leases may only be shed. */
  ghost predicate ChatFrame(g: Gateway, g': Gateway, at: int, later: int) {
    && g.clock <= at <= later && g'.clock == later
    && g'.order == g.order && g'.table == g.table && g'.healthy == g.healthy
    && g'.issued == g.issued && Shed(g.leases, g'.leases, later)
  }

  ghost predicate ArriveNext(g: Gateway, g': Gateway, r: RequestId, request: ChatRequest, at: int) {
    && ChatFrame(g, g', at, at) && r !in g.requests && r !in g.phases
    && g'.requests == g.requests[r := request] && g'.queue == g.queue
    && MovesTo(g, g', r, if LeaseOk(g.leases, request.LeaseToken(), at) then Probing(at) else Gone(LeaseLost))
  }

  ghost predicate AdmitNext(cfg: Config, g: Gateway, g': Gateway, r: RequestId, capable: seq<HostId>, at: int, later: int, winner: Option<HostId>) {
    ChatFrame(g, g', at, later) && g'.requests == g.requests && AdmitStep(cfg, g, g', r, capable, at, later, winner)
  }

  ghost predicate PollNext(cfg: Config, g: Gateway, g': Gateway, r: RequestId, at: int, later: int, winner: Option<HostId>) {
    ChatFrame(g, g', at, later) && g'.requests == g.requests && PollStep(cfg, g, g', r, at, later, winner)
  }

  /** A collected call is over. */
  ghost predicate FinishNext(g: Gateway, g': Gateway, r: RequestId) {
    && ChatFrame(g, g', g.clock, g.clock) && g'.requests == g.requests && g'.queue == g.queue
    && r in g.requests && r in g.phases && g.phases[r].Running? && !g.requests[r].stream
    && ReleasesTo(g, g', r, g.phases[r].host, Completed)
  }

  /** A stream starts closing its chunks, still holding its slot. */
  ghost predicate BeginCloseNext(g: Gateway, g': Gateway, r: RequestId) {
    && ChatFrame(g, g', g.clock, g.clock) && g'.requests == g.requests && g'.queue == g.queue
    && r in g.requests && r in g.phases && g.phases[r].Running? && g.requests[r].stream
    && MovesTo(g, g', r, Closing(g.phases[r].host))
  }

  /** A stream's chunks are closed. */
  ghost predicate EndCloseNext(g: Gateway, g': Gateway, r: RequestId) {
    && ChatFrame(g, g', g.clock, g.clock) && g'.requests == g.requests && g'.queue == g.queue
    && r in g.requests && r in g.phases && g.phases[r].Closing?
    && ReleasesTo(g, g', r, g.phases[r].host, Completed)
  }

  ghost predicate DisconnectNext(g: Gateway, g': Gateway, r: RequestId) {
    ChatFrame(g, g', g.clock, g.clock) && g'.requests == g.requests && DisconnectStep(g, g', r)
  }

  ghost predicate LeaseNext(cfg: Config, g: Gateway, g': Gateway, op: Op, at: int) {
    && g.clock <= at && (op.OpReserve? ==> op.request.newToken !in g.issued)
    && var (leases, outcome) := Lazy(cfg.leaseSettings, g.leases, op, at);
       g' == g.(clock := at, leases := leases,
                issued := if op.OpReserve? && outcome.Granted? then g.issued[op.request.newToken := outcome.lease.hostId] else g.issued)
  }

  /** One event takes the gateway from g to g'. */
  ghost predicate Next(cfg: Config, g: Gateway, e: Event, g': Gateway) {
    match e
    case Arrive(r, request, at) => ArriveNext(g, g', r, request, at)
    case Admit(r, capable, at, later, winner) => AdmitNext(cfg, g, g', r, capable, at, later, winner)
    case Poll(r, at, later, winner) => PollNext(cfg, g, g', r, at, later, winner)
    case Finish(r) => FinishNext(g, g', r)
    case BeginClose(r) => BeginCloseNext(g, g', r)
    case EndClose(r) => EndCloseNext(g, g', r)
    case Disconnect(r) => DisconnectNext(g, g', r)
    case LeaseEvent(op, at) => LeaseNext(cfg, g, g', op, at)
    case HealthChange(healthy) => g' == g.(healthy := healthy)
  }

  ghost predicate Init(g: Gateway) {
    && Registered(g) && (forall h :: h in g.inFlight ==> g.inFlight[h] == 0)
    && g.leases == EmptyTable() && g.issued == map[] && g.queue == EmptyQueue()
    && g.requests == map[] && g.phases == map[]
  }

  /** A finite run: the states passed through and the events between them. */
  ghost predicate IsRun(cfg: Config, states: seq<Gateway>, events: seq<Event>) {
    && |states| == |events| + 1 && Init(states[0])
    && forall i :: 0 <= i < |events| ==> Next(cfg, states[i], events[i], states[i + 1])
  }
}
