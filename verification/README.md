# LLM home lab gateway: a verified model

The gateway admits chat requests to a small fleet of model hosts. Requests run concurrently on one
event loop and share per-host slot counters, a priority queue with session round robin, and a table
of node leases that expire. This project models that protocol and the stateful components around it
in Dafny, and proves what they promise over every input and every run.

How the pieces fit together:

- `SchedulingQueue.dfy`, `LeaseBook.dfy`, `HostRegistry.dfy`, `Routing.dfy` and `Lifetime.dfy` are the
  shared objects as classes with the source's fields. Each method is proved against a specification
  on values: `Enqueue`, `Cancel`, `Dispatch`; `ReserveSpec`, `RequireSpec`, `HeldSpec`, ...; `Routed`.
- `Admission.dfy` is the admission protocol as a state machine. Tasks switch only where the source
  awaits, so each stretch between two awaits is one event. `ChatGateway.dfy` is the handler: a class
  over the shared objects whose every public method is proved to be exactly one named step
  (`ArriveNext`, `AdmitNext`, `PollNext`, ...), and `Next` is the case distinction over those steps.
  `AdmissionSlots.dfy`, `AdmissionQueue.dfy` and `AdmissionRuns.dfy` prove the invariant and what
  follows from it for every run; `AdmissionWaiting.dfy` carries bounded waiting over to runs;
  `AdmissionEntry.dfy` and `AdmissionTimeouts.dfy` say what arrivals, admissions and turns of the loop
  come to in terms of headers, leases, counters, characters and counted turns.
- `DispatchOrder.dfy` and `LeaseRuns.dfy` prove the order, conservation and bounded waiting of the
  queue, and that the book's lazy expiry refines a book that purges before every operation;
  `LeaseTerms.dfy` proves what a holder asks for, gets and can rely on.
- `Assembler.dfy`, `ContextCache.dfy`, `HealthMonitor.dfy`, `Windows.dfy`, `Percentile.dfy`,
  `MetricsRegistry.dfy`, `MetricsFigures.dfy`, `CompletionLog.dfy`, `Backend.dfy`, `ResponseModes.dfy`, `MetricsText.dfy`,
  `MetricsRoundTrip.dfy`, `MetricsPage.dfy` and `MetricsInjection.dfy` prove the other stateful
  algorithms against what they mean over the full history of calls, probes, samples or attempts.
- `Basics.dfy`, `Text.dfy`, `TextLines.dfy` and `Decimals.dfy` hold shared vocabulary.

Times and durations are integers (microseconds where a constant of the source matters). Scores, ratios
and rates are reals, the 95th percentile is the exact rational 95/100. Clock readings, fresh tokens,
backend behaviour, model discovery and the health verdicts the handler sees are inputs.

Where the code does not meet a property everywhere, the model keeps the code and states the exact
condition:

- The two response modes give the same health verdict exactly when some chunk has a finish reason or
  there is no text at all: the collected completion takes a missing reason for "stop", the stream does
  not. A chunk with a null content makes the streaming handler fail while the collected one ignores it.
- While no listed host id spans lines, a metrics page reads back exactly when every host id with
  figures is non-empty and holds no double quote; a page that reads back never has figures for
  another kind of id. A registered host without any figures whose id holds a line break can put a
  cell of another host on the page. An integer survives exactly when it is representable as a double.
- With completions recorded in order, a count is exact exactly when no time it should count lies one
  window or more before the latest record; so a query no earlier than every record is exact, in
  whatever order they came, and an earlier one can miss some but never counts too many.
- A refused status ends the retry loop only when its body arrives; a connection failure while the
  body is read is retried like any other.
- Evicting from the head of a deque is exact exactly when nothing too old stands behind something
  young enough; clock readings in order guarantee that, and a late record breaks it.
- A counter is bounded by `max(0, max_concurrent_requests)`, since the source does not reject a
  negative capacity.

`dafny verify --verification-time-limit 0 dfyconfig.toml` checks the whole project.

## Model

| member | source | states |
|---|---|---|
| Scheduling.SchedulingQueue.EnqueueEntry | src/llm_home_lab/scheduling/queue.py:25-41 | the three linked maps keep their invariant (each rotation duplicate-free, listing exactly its tier's sessions, no session queue empty) and become the abstract queue with the entry at the back of its session, a new session at the back of the rotation |
| Scheduling.SchedulingQueue.CancelEntry | src/llm_home_lab/scheduling/queue.py:48-66 | every copy of the request leaves its own session queue, an emptied session leaves tier and rotation, the callback goes even when there is no such session |
| Scheduling.SchedulingQueue.Depth | src/llm_home_lab/scheduling/queue.py:43-46 | the sum over tiers and sessions is the number of entries queued |
| Scheduling.SchedulingQueue.DispatchEntry | src/llm_home_lab/scheduling/queue.py:68-102 | the loops over sorted tiers and rotations return and leave exactly what the one declarative pick (first ready head in priority and rotation order) says, named request or not |
| Scheduling.SchedulingQueue.FirstReadyIn | src/llm_home_lab/scheduling/queue.py:84-90 | the place of the first session in a rotation whose head has a free allowed host, every one before it having none |
| Scheduling.SchedulingQueue.PopHead | src/llm_home_lab/scheduling/queue.py:93-100 | the head leaves with its callback; its session goes to the back of the rotation, or away when empty |
| Scheduling.SortedKeys | src/llm_home_lab/scheduling/queue.py:78-78 | the priorities in increasing order, each once |
| Scheduling.PickIsUnique | src/llm_home_lab/scheduling/queue.py:78-100 | a state has at most one first ready head, so dispatch is a function of the state |
| Scheduling.EnqueueIsGood | src/llm_home_lab/scheduling/queue.py:35-41 | enqueueing keeps sessions distinct and queues non-empty in every tier |
| Scheduling.CancelIsGood | src/llm_home_lab/scheduling/queue.py:50-66 | cancelling keeps sessions distinct and queues non-empty in every tier |
| Scheduling.TakeIsGood | src/llm_home_lab/scheduling/queue.py:93-99 | serving a head keeps sessions distinct and queues non-empty in every tier |
| DispatchOrder.DispatchGivesUpOnlyWhenBlocked | src/llm_home_lab/scheduling/queue.py:75-102 | an unnamed dispatch returns nothing if and only if the caller's hosts have no free slot or no session head anywhere has a free allowed host |
| DispatchOrder.NoOvertaking | src/llm_home_lab/scheduling/queue.py:78-102 | whoever is returned is a ready head before which every head in (priority, rotation) order is blocked |
| DispatchOrder.DispatchReturnsFirstToRun | src/llm_home_lab/scheduling/queue.py:68-102 | r is returned if and only if the caller's hosts have room, nobody else is named, and r heads a session for which some host has room that its callback (without one, the caller) names, no session in the same rotation before it and none of a smaller priority number having such a host |
| DispatchOrder.NamedDispatchAgrees | src/llm_home_lab/scheduling/queue.py:91-92 | naming r returns r exactly when the unnamed dispatch would, and otherwise leaves the queue unchanged |
| DispatchOrder.EnqueueAddsOne | src/llm_home_lab/scheduling/queue.py:39-41 | for every weighing of request ids the total grows by the new entry's weight: nothing is lost or doubled |
| DispatchOrder.DispatchRemovesOne | src/llm_home_lab/scheduling/queue.py:93-100 | for every weighing the total falls by exactly the returned request's weight |
| DispatchOrder.CancelRemovesOnlyItsCopies | src/llm_home_lab/scheduling/queue.py:54-66 | for every weighing the total falls by the copies of the cancelled request in its own session and nothing else |
| DispatchOrder.ServeMovesUp | src/llm_home_lab/scheduling/queue.py:93-99 | when a waiter's session is eligible and the tier is served, the waiter is returned, or one session fewer is ahead, or its session goes to the back with one entry fewer ahead |
| DispatchOrder.CancelMovesUp | src/llm_home_lab/scheduling/queue.py:48-66 | somebody else's cancellation never moves a waiter back |
| DispatchOrder.EnqueueKeepsPlace | src/llm_home_lab/scheduling/queue.py:35-41 | somebody else's arrival never moves a waiter back |
| DispatchOrder.BoundedWaiting | src/llm_home_lab/scheduling/queue.py:35-100 | over any run of enqueues, cancels and dispatches, a waiter with p sessions and k own entries ahead, at most n sessions in the rotation, is returned within p + 1 + k·n successful dispatches of its tier |
| Leases.NodeLeaseBook.Reserve | src/llm_home_lab/leases/book.py:38-69 | result, error kind and both indexes after a reservation, the indexes staying in bijection |
| Leases.NodeLeaseBook.Decide | src/llm_home_lab/leases/book.py:63-69 | an unregistered named host is reported, a registered one checked, and without a name any host chosen |
| Leases.NodeLeaseBook.Grant | src/llm_home_lab/leases/book.py:184-196 | the new lease is entered under its host and its token, no other lease is touched |
| Leases.NodeLeaseBook.Require | src/llm_home_lab/leases/book.py:71-79 | a live token gives its lease; an expired one is dropped from both indexes and reported as ended, an unknown one as not held |
| Leases.NodeLeaseBook.IsHeld | src/llm_home_lab/leases/book.py:81-89 | true exactly when the host's lease is live; an expired one is dropped |
| Leases.NodeLeaseBook.Heartbeat | src/llm_home_lab/leases/book.py:91-99 | a live lease is renewed in both indexes to exactly one ttl from now, cut short only by its ceiling |
| Leases.NodeLeaseBook.Release | src/llm_home_lab/leases/book.py:101-105 | a live lease leaves both indexes |
| Leases.NodeLeaseBook.ForceRelease | src/llm_home_lab/leases/book.py:107-114 | after a purge the host's lease leaves both indexes, or there is none to find |
| Leases.NodeLeaseBook.View | src/llm_home_lab/leases/book.py:116-128 | what is shown of a live lease; it expires soon exactly when one of its two ends is at most that far ahead; an expired one is dropped |
| Leases.NodeLeaseBook.PurgeUnlocked | src/llm_home_lab/leases/book.py:210-217 | dropping expired leases one by one leaves exactly the live ones in both indexes |
| Leases.ChosenIsFree | src/llm_home_lab/leases/book.py:139-182 | a reservation is granted only on a known host that nobody holds |
| LeaseRuns.LazyKeepsPaired | src/llm_home_lab/leases/book.py:61-128 | every operation keeps the two indexes a bijection, so no drop removes another host's lease |
| LeaseRuns.LazyStepAgrees | src/llm_home_lab/leases/book.py:61-128 | one operation of the lazy book and of a book purged first answer alike (only the kind of refusal of a dead token may differ) and stay equal on live leases |
| LeaseRuns.LazyRefinesEager | src/llm_home_lab/leases/book.py:61-221 | for non-decreasing times every run of operations gives the same answers as the book that purges before each operation |
| LeaseRuns.TokenKeepsItsTerms | src/llm_home_lab/leases/book.py:91-105 | over any run a token still in the book stands for the same host, holder, creation and ceiling |
| LeaseRuns.GoneForGood | src/llm_home_lab/leases/book.py:184-221 | a token that left the book never comes back unless drawn again |
| LeaseRuns.GrantedTerms | src/llm_home_lab/leases/book.py:184-196 | a grant or renewal lasts exactly one ttl, cut short only by the ceiling fixed at the grant: the one asked for, else the default one |
| LeaseRuns.HoldsEnd | src/llm_home_lab/leases/book.py:71-99 | however often renewed, a hold is over once its ceiling has passed, and once a ttl has passed without renewal |
| LeaseTerms.AnswersFollowTheEnds | src/llm_home_lab/leases/book.py:71-89 | a token is accepted, and a host reported held, exactly while both ends of the lease lie ahead |
| LeaseTerms.HoldLasts | src/llm_home_lab/leases/book.py:71-114 | after a grant or a renewal, whatever operations follow in time order except a release of the token or a forced release of its host, the token is accepted and holds its host at every moment less than one ttl later and before the ceiling asked for (else the default one) |
| LeaseTerms.RefusedAtOnce | src/llm_home_lab/leases/book.py:48-59 | a reservation is refused for its holder exactly when that is blank, for its ceiling exactly when the one asked for is not positive or exceeds the maximum, and then nothing is dropped |
| LeaseTerms.GrantedExactlyWhen | src/llm_home_lab/leases/book.py:61-182 | an acceptable request is granted exactly when a serving host is free that is the named one, or healthy when none is named, and whose taking leaves the minimum of healthy free hosts |
| LeaseTerms.GrantIsAsAsked | src/llm_home_lab/leases/book.py:184-196 | the lease of a grant: a serving host nobody held, the trimmed holder, the drawn token, created now, ending with the ceiling asked for or the default one, and after one ttl unless renewed |
| LeaseTerms.RefusalTellsWhy | src/llm_home_lab/leases/book.py:65-182 | an acceptable request that is not granted gets the one reason that applies first, with the figures it names, and a roster of every host with its status and hold |
| LeaseRuns.ActiveCountIsCardinality | src/llm_home_lab/leases/book.py:198-199 | with distinct ids the count of active nodes is the number of healthy hosts nobody holds |
| LeaseRuns.ReserveKeepsMinimum | src/llm_home_lab/leases/book.py:148-182 | a reservation never takes healthy unleased hosts below the smaller of the minimum and the number of healthy hosts |
| LeaseRuns.MinimumStaysActive | src/llm_home_lab/leases/book.py:61-199 | with a fixed fleet no run of book operations leaves routing below its minimum, then or later |
| LeaseRuns.AnyGrantsLeast | src/llm_home_lab/leases/book.py:157-182 | without a named host the least id among healthy, matching, free hosts is granted, and refused only when there is none or no spare |
| LeaseRuns.NamedGrant | src/llm_home_lab/leases/book.py:130-155 | a named host is granted exactly when it serves the model, is free and, if healthy, can be spared |
| Registry.HostRegistry.Register | src/llm_home_lab/registry/registry.py:18-33 | capacity and capabilities are replaced, the running count of an existing host is kept, a new one starts at zero |
| Registry.HostRegistry.AcquireSlot | src/llm_home_lab/registry/registry.py:46-47 | one host's counter grows by one, nothing else changes |
| Registry.HostRegistry.ReleaseSlot | src/llm_home_lab/registry/registry.py:49-50 | one host's counter falls by one, nothing else changes |
| Registry.HostRegistry.Heartbeat | src/llm_home_lab/registry/registry.py:52-56 | a known host's last-seen time is set, an unknown one is reported |
| Registry.HostRegistry.Loads | src/llm_home_lab/registry/registry.py:40-41 | the hosts in registration order with their counters and capacities |
| Lifetime.SlotStream.Next | src/llm_home_lab/api/lifetime.py:67-74 | a chunk is passed on; an end, an error or a cancellation closes the stream first and is then passed on; a closed stream only stops |
| Lifetime.SlotStream.Close | src/llm_home_lab/api/lifetime.py:76-84 | the chunks are closed and then the slot released, once, even when closing the chunks fails |
| Lifetime.Respond | src/llm_home_lab/api/lifetime.py:92-96 | however the response ends, effects are exactly one close followed by one release, and what was sent is a prefix of what the source produced |
| Routing.ScoreCandidates | src/llm_home_lab/routing/engine.py:18-32 | the nested loops give each backend the sum of the applicable rules, the last of equal ids counting, and the names of the rules that applied |
| Routing.BestOf | src/llm_home_lab/routing/engine.py:70-74 | no backend scores better than the winner and none that scores the same has a smaller id |
| Routing.RoutingEngine.SelectBackend | src/llm_home_lab/routing/engine.py:44-86 | the decision and the sticky record: an eligible recorded backend wins, otherwise a best one does, which is recorded only for a session without a record |
| Routing.BestIsUnique | src/llm_home_lab/routing/engine.py:70-73 | at most one backend is best |
| Routing.FitsByCharacters | src/llm_home_lab/routing/engine.py:13-15 | a context window is large enough exactly when all contents together have at most four characters for each of its tokens |
| Routing.WinnerFits | src/llm_home_lab/routing/engine.py:44-86 | a routing call has a decision if and only if some candidate's window is large enough for all characters, and decides for one whose window is |
| Routing.RuleCounts | src/llm_home_lab/routing/engine.py:26-29 | a rule counts, and is named, exactly when it has no task type or the request's |
| Routing.ScoresAddUp | src/llm_home_lab/routing/engine.py:24-28 | the scores of rules add up |
| Basics.AtMostIsByFirstDifference | src/llm_home_lab/routing/engine.py:70-73 | ties go by the first differing character, a proper prefix first |
| Routing.OrderDoesNotMatter | src/llm_home_lab/routing/engine.py:44-86 | with distinct backends, reordered candidates give the same decision and the same record |
| Routing.DefaultPicksLeastLoaded | src/llm_home_lab/main.py:116-119 | under the default policy every decision that does not follow an eligible record is the eligible host with the least in-flight over capacity, of equal ones the one with the least id |
| Routing.StickyForever | src/llm_home_lab/routing/engine.py:61-80 | over any run a session's record never changes and is followed whenever its backend is eligible |
| Routing.RecordIsFirstDecision | src/llm_home_lab/routing/engine.py:74-80 | a session's record is written by its first call that is routed at all: it is that call's best backend, and no earlier call of the session had a decision |
| ChatGateway.Handler.constructor | src/llm_home_lab/api/app.py:122-154 | a handler over empty shared objects starts in an initial state of the protocol |
| ChatGateway.Handler.ArriveRequest | src/llm_home_lab/api/app.py:643-653 | is the protocol's arrival: a dead lease ends the request before model discovery |
| ChatGateway.Handler.AdmitRequest | src/llm_home_lab/api/app.py:654-748 | is the protocol's admission: from the end of discovery to a slot, the queue or an error, without a switch of tasks |
| ChatGateway.Handler.CurrentCandidates | src/llm_home_lab/api/app.py:227-246 | the loop collects exactly the capable hosts that are open to the request, healthy and below capacity, dropping at most expired leases, or finds the lease gone |
| ChatGateway.Handler.MayUse | src/llm_home_lab/api/app.py:692-700 | a pinned request may use its leased host only, any other request only hosts nobody holds |
| ChatGateway.Handler.Narrow | src/llm_home_lab/api/app.py:654-684 | whether the lease is gone and whether any capable host is open to the request |
| ChatGateway.Handler.Settle | src/llm_home_lab/api/app.py:709-748 | with candidates the request takes a slot, without it joins the queue, or times out at once when no waiting is allowed |
| ChatGateway.Handler.Route | src/llm_home_lab/api/app.py:746-748 | the slot taken is that of a candidate whose context window fits, or none fits and no counter moves |
| ChatGateway.Handler.PollRequest | src/llm_home_lab/api/app.py:722-748 | is one turn of the protocol's waiting loop, cancelling the queue entry on every way out |
| ChatGateway.Handler.TakeTurn | src/llm_home_lab/api/app.py:725-748 | candidates, dispatch, routing and the slot are one atomic step |
| ChatGateway.Handler.FinishRequest | src/llm_home_lab/api/app.py:774-783 | is the protocol's end of a collected call: its slot is given back with a result or an error alike |
| ChatGateway.Handler.BeginCloseRequest | src/llm_home_lab/api/lifetime.py:76-81 | is the start of closing a stream: the slot is still held |
| ChatGateway.Handler.EndCloseRequest | src/llm_home_lab/api/lifetime.py:82-84 | is the end of closing a stream: the slot is given back |
| ChatGateway.Handler.DisconnectRequest | src/llm_home_lab/api/lifetime.py:39-53 | is the protocol's disconnect: a waiter leaves the queue, a collected call gives its slot back, a stream starts closing |
| ChatGateway.Handler.SetHealthy | src/llm_home_lab/health/monitor.py:26-27 | a change of the health verdicts touches nothing else of the gateway |
| ChatGateway.Handler.LeaseCall | src/llm_home_lab/api/app.py:516-545 | is one lease event of the protocol, answering as the book's specification does |
| ChatGateway.ShedKeepsAnswers | src/llm_home_lab/leases/book.py:71-89 | dropping expired leases along the way changes no later answer about tokens or hosts |
| ChatGateway.DispatchAfterShed | src/llm_home_lab/api/app.py:725-735 | dispatch decides the same whether or not expired leases were dropped before it |
| AdmissionSlots.NextIsSlotStep | src/llm_home_lab/api/app.py:746-783 | every event either moves no slot, or gives one request one slot of a host below capacity, or takes one back |
| AdmissionSlots.NextKeepsSlots | src/llm_home_lab/api/app.py:689-783 | every event keeps each counter equal to the number of requests owning a slot there, within capacity |
| AdmissionQueue.NextKeepsQueue | src/llm_home_lab/api/app.py:710-744 | every event keeps the queue holding each waiter once under its own session and nothing else |
| AdmissionRuns.RunKeepsInv | src/llm_home_lab/api/app.py:643-783 | the invariant of slots, queue, leases and waiting holds in every state of every run |
| AdmissionRuns.NoOversubscription | src/llm_home_lab/api/app.py:227-246 | in every reachable state 0 <= in_flight <= max(0, capacity) and in_flight is the number of requests owning a slot |
| AdmissionRuns.QueueIsTheWaitingLoop | src/llm_home_lab/api/app.py:710-744 | in every reachable state the queued ids are the waiting requests, each once, the depth is their number, and callbacks exist for exactly those |
| AdmissionRuns.AdmissionsAreIsolated | src/llm_home_lab/api/app.py:649-709 | in every run a request with a lease header that is not empty is admitted only on the host that token was issued for and only while its lease lives, one with an empty header or none only on a host nobody holds, and whoever enters a held host carries the holding token |
| AdmissionRuns.TokenPinsOneHost | src/llm_home_lab/api/app.py:657-664 | all requests with one lease header that is not empty are admitted on one host, whatever happens to its lease meanwhile |
| AdmissionEntry.ArrivalOutcome | src/llm_home_lab/api/app.py:649-653 | an arrival ends at once if and only if its header is not empty and names a lease that does not live |
| AdmissionEntry.TurnedAway | src/llm_home_lab/api/app.py:654-709 | at admission a request whose header names a dead lease is told so, and one with no capable host open to it is told that; neither takes a slot or a place |
| AdmissionEntry.EntryOutcome | src/llm_home_lab/api/app.py:709-748 | every other request takes a slot whenever some capable host is open to it, healthy and below capacity: of one whose window has a token for every four characters, or it leaves because none has; it joins the queue with nothing waited only when no such host is usable |
| AdmissionEntry.WaitersQueueUnderTheirSession | src/llm_home_lab/api/app.py:710-721 | in every reachable state each waiter stands in the queue, and every entry stands under its request's own session id when that is not empty, else under the request's own id |
| AdmissionTimeouts.WaitedCountsOwnPolls | src/llm_home_lab/api/app.py:712-724 | in every reachable state a waiter has waited one poll interval for each turn of its own loop, and less than the timeout |
| AdmissionTimeouts.LeavesInTime | src/llm_home_lab/api/app.py:722-742 | with a positive interval no request takes more turns than the least number that cover the timeout, and who took that many has left the loop |
| AdmissionTimeouts.TurnOutcome | src/llm_home_lab/api/app.py:722-748 | what each turn comes to in any run: a dead lease ends the wait; a request with a usable host that stands first of all session heads with one is served; otherwise it stays with its turns times the interval waited, or times out |
| AdmissionTimeouts.TimesOutExactlyWhen | src/llm_home_lab/api/app.py:722-742 | a turn times a request out if and only if its turns cover the timeout, its lease is fine and it is not served |
| AdmissionTimeouts.BlockedMeansNoUsableHost | src/llm_home_lab/api/app.py:689-708 | a session head is passed over exactly when none of its capable hosts is open to it, healthy and below capacity |
| AdmissionRuns.PollDoesNotOvertake | src/llm_home_lab/api/app.py:725-736 | in any run a waiter admitted by its poll heads its session, and every session before it in priority and rotation order is headed by a waiter that had no candidate of its own at that moment |
| AdmissionRuns.HeadsWait | src/llm_home_lab/api/app.py:714-744 | every session head in the queue is a waiting request with its own callback |
| AdmissionWaiting.NextCloser | src/llm_home_lab/api/app.py:709-748 | while a request stays in its loop no event moves it back in the queue, and a poll of another request that is served while the head of its own session has a candidate brings it one closer |
| AdmissionWaiting.WaitingIsBounded | src/llm_home_lab/api/app.py:722-744 | over any run, while a request is in its loop with a sessions and k own entries ahead at the start, at most n sessions in the tier and the head of its session having a candidate whenever a poll is served, at most a + k·n polls of others are served |
| AdmissionRuns.NextAdvances | src/llm_home_lab/api/app.py:643-783 | no event takes a request back to an earlier stage or moves its slot to another host |
| AdmissionRuns.SlotsAreReleasedOnce | src/llm_home_lab/api/lifetime.py:56-84 | over any run a request takes at most one slot and has given it back exactly once unless it still holds it |
| AdmissionRuns.SlotsComeBackExactly | src/llm_home_lab/api/lifetime.py:39-84 | a slot is given back in exactly three events: a collected call ends, a collected call is disconnected, a stream has closed its chunks |
| AdmissionRuns.StreamsReleaseAfterClosing | src/llm_home_lab/api/lifetime.py:76-84 | a stream's slot is given back only at the end of closing its chunks |
| AdmissionRuns.LeavingTheLoopTakesNoSlot | src/llm_home_lab/api/app.py:737-744 | a waiter that times out, disconnects or loses its lease moves no counter and leaves neither entry nor callback behind |
| AdmissionRuns.RunsOnlyGrow | src/llm_home_lab/leases/book.py:184-196 | over a run the host a token was issued for and a request's own data never change, and the clock never goes back |
| Assembly.AssembleContext | src/llm_home_lab/context/assembler.py:11-41 | the result is the optional summary and the newest messages, with its compacted flag and dropped count |
| Assembly.KeepNewest | src/llm_home_lab/context/assembler.py:29-35 | the backward loop keeps the longest suffix that fits by per-message rounded cost, at least one message |
| Assembly.RoundingIsSubadditive | src/llm_home_lab/context/assembler.py:6-8 | rounding each message up costs at least as much as rounding the list up |
| Assembly.KeptWithinBudget | src/llm_home_lab/context/assembler.py:11-41 | the estimate of the whole result is within the budget whenever two or more raw messages are kept |
| Assembly.CompactedExactly | src/llm_home_lab/context/assembler.py:23-40 | compacted if and only if there are two or more raw messages and the full estimate exceeds the budget |
| Assembly.KeptIsLongest | src/llm_home_lab/context/assembler.py:29-35 | no longer suffix fits what the summary leaves of the budget, unless everything is kept |
| Assembly.KeptGrowsWithBudget | src/llm_home_lab/context/assembler.py:11-41 | a larger budget never keeps fewer messages |
| Assembly.EstimateInCharacters | src/llm_home_lab/context/assembler.py:6-8 | a list fits a budget exactly when its contents together have at most four characters for each token |
| Assembly.ResultIsSummaryAndNewest | src/llm_home_lab/context/assembler.py:11-41 | the result is the summary in one system message, if there is one, then the newest messages as they are, one of them always; the others are counted as dropped |
| Assembly.KeptWithinCharacters | src/llm_home_lab/context/assembler.py:11-41 | with two or more messages kept, the contents of the result have at most four characters for each token of the budget |
| Assembly.CompactedByCharacters | src/llm_home_lab/context/assembler.py:23-40 | compacted if and only if there are two or more messages and all contents with the summary have more than four characters for each token of the budget |
| Assembly.LongestThatFits | src/llm_home_lab/context/assembler.py:26-35 | a compacted session keeps the longest suffix whose messages, each of c tokens with 4(c - 1) < length <= 4c, fit what the summary leaves of the budget, or its newest message |
| Caching.KeyDeterminesResult | src/llm_home_lab/context/cache.py:10-17 | the assembled result can be computed from the cache key alone |
| Caching.SameKeySameResult | src/llm_home_lab/context/cache.py:10-17 | sessions and budgets with one key assemble alike |
| Caching.KeysAgreeExactlyWhen | src/llm_home_lab/context/cache.py:10-17 | two keys are equal if and only if session, budget, summary text and coverage, and number, role and content of every message are |
| Caching.ContextCache.Assemble | src/llm_home_lab/context/cache.py:33-51 | the value is what the assembler computes for this very session, hits and misses add up to the calls, and order and entries are those of the most recently used keys of the trace |
| Caching.ContextCache.Insert | src/llm_home_lab/context/cache.py:46-49 | a new key goes to the end, past the limit the oldest goes, and no other value changes |
| Caching.ContextCache.Touch | src/llm_home_lab/context/cache.py:36-39 | a held key becomes the most recent one |
| Caching.HeldStep | src/llm_home_lab/context/cache.py:36-49 | one more use of a key changes the held keys and the hit count of a trace as the cache does |
| Caching.RecencyByLastUse | src/llm_home_lab/context/cache.py:36-47 | keys are ordered by their last use in the trace |
| Caching.HoldsMostRecent | src/llm_home_lab/context/cache.py:48-49 | a key is held exactly when fewer than the limit of distinct keys were used since its own last use |
| Caching.LargerHoldsMore | src/llm_home_lab/context/cache.py:21-49 | on one trace a larger cache holds everything a smaller one does |
| Caching.HitsGrowWithSize | src/llm_home_lab/context/cache.py:36-49 | on one trace hits never fall as the limit grows |
| Health.HealthMonitor.IsHealthy | src/llm_home_lab/health/monitor.py:26-27 | the verdict is a function of the backend's whole probe history, healthy when never probed |
| Health.HealthMonitor.FailureCount | src/llm_home_lab/health/monitor.py:38-42 | the failures among the last twenty probes of the history |
| Health.HealthMonitor.RecordProbe | src/llm_home_lab/health/monitor.py:44-61 | after any probe sequence every state and the event list are those of the full history |
| Health.HealthMonitor.Advance | src/llm_home_lab/health/monitor.py:48-81 | a healthy state's failures are the trailing failure run; an unhealthy one's time is the last failure's and its successes those a cooldown or more later |
| Health.HealthyMeansEveryRunRecovered | src/llm_home_lab/health/monitor.py:56-81 | healthy exactly when every failure run that reached the threshold was followed by a recovery; a healthy backend's current run is below the threshold |
| Health.EventsAreChanges | src/llm_home_lab/health/monitor.py:83-89 | a backend's recorded events are the changes of health along its own history |
| Health.EventsAlternate | src/llm_home_lab/health/monitor.py:58-81 | events of a backend alternate, the first from healthy to unhealthy, and their parity tells its health |
| Health.RecoveryWaitsForCooldown | src/llm_home_lab/health/monitor.py:71-81 | for non-decreasing times a recovery comes at least one cooldown after its failover |
| Health.FailureRunTrips | src/llm_home_lab/health/monitor.py:48-61 | a healthy backend becomes unhealthy exactly at the failure that makes its run of failures as long as the threshold |
| Health.SuccessRunRecovers | src/llm_home_lab/health/monitor.py:63-81 | after its last failure an unhealthy backend is healthy again exactly once as many successes as the recovery threshold, at least one, came a cooldown or more after that failure |
| Health.HistoriesAddUp | src/llm_home_lab/health/monitor.py:44-46 | a backend's history is made of its own probes in order |
| Percentiles.PercentileIsNearestRank | src/llm_home_lab/observability/metrics.py:257-260 | at least that percentage of the values are at most the percentile and fewer lie strictly below it |
| Percentiles.NearestRankIsUnique | src/llm_home_lab/observability/metrics.py:257-260 | only one value meets both bounds |
| Percentiles.SortedIsOrdered | src/llm_home_lab/observability/metrics.py:258-258 | the values are put in non-decreasing order |
| Percentiles.SortedCounts | src/llm_home_lab/observability/metrics.py:258-258 | sorting keeps how many values are at most, and below, any bound |
| Windows.EvictionExactWhenOldestFirst | src/llm_home_lab/observability/metrics.py:66-68 | evicting from the head leaves exactly the young entries if and only if nothing too old stands behind a young one |
| Windows.DequeIsExact | src/llm_home_lab/observability/metrics.py:25-34 | for non-decreasing times the deque holds exactly the full history's entries of age at most the window |
| Windows.LateRecordIsStuck | src/llm_home_lab/observability/metrics.py:66-68 | a record with an earlier time than the one before it can outlive the window |
| Metrics.EvictOld | src/llm_home_lab/observability/metrics.py:66-68 | the loop drops from the head while it is older than the window |
| Metrics.MetricsRegistry.RecordRequest | src/llm_home_lab/observability/metrics.py:25-30 | the endpoint's deque follows the history of calls, no other deque moves |
| Metrics.MetricsRegistry.RecordFailoverOutcome | src/llm_home_lab/observability/metrics.py:32-34 | the failover deque follows the history of calls |
| Metrics.MetricsRegistry.Snapshot | src/llm_home_lab/observability/metrics.py:70-90 | for non-decreasing times availability, p95 and failover rate are those of exactly the full history's samples and outcomes of age at most the window |
| Metrics.EndpointsSplitTheWindow | src/llm_home_lab/observability/metrics.py:73-83 | adding up over endpoints counts every recent sample once |
| Metrics.SameTalliesSameFigures | src/llm_home_lab/observability/metrics.py:81-83 | the figures do not depend on the order in which endpoints are gone through |
| Metrics.FiguresAreExact | src/llm_home_lab/observability/metrics.py:70-90 | the figures over the deques equal the figures over the full history's window |
| MetricsFigures.FiguresDescribeCalls | src/llm_home_lab/observability/metrics.py:70-90 | counted over the calls themselves: availability is the share of recent requests with a status below 500, at least 95 percent of them were no slower than the latency figure and fewer were faster, and the failover rate is the share of recent outcomes that succeeded |
| Completions.CompletionLog.Open | src/llm_home_lab/observability/completion_log.py:28-37 | a window that is not positive is refused |
| Completions.CompletionLog.Record | src/llm_home_lab/observability/completion_log.py:43-48 | the completion is added to its host's history and the deque keeps what dropping from the head leaves |
| Completions.CompletionLog.Count | src/llm_home_lab/observability/completion_log.py:50-54 | the full-history count of the half-open window for a query no earlier than any record, in whatever order they came; with records in order, exact if and only if no time to be counted is one window or more before the latest record; never more than the full-history count |
| Completions.CompletionLog.TasksPerHour | src/llm_home_lab/observability/completion_log.py:56-57 | for every query the rate is what the deque counts over the time observed and at most the full-history rate; for a query no earlier than any record it is the full-history rate |
| Completions.Observed | src/llm_home_lab/observability/completion_log.py:59-60 | positive, at most the window, at least a minute when the window allows, and the whole window once it has passed |
| Completions.RateTellsCompletions | src/llm_home_lab/observability/completion_log.py:50-60 | the rate is the number of completions in the window per hour of the time observed: the window once it has passed or when it is at most a minute, before that the time passed, in the first minute a whole minute |
| Completions.RateOfOneHour | src/llm_home_lab/observability/completion_log.py:56-60 | for a window of one hour the rate is the plain count once it has passed, and sixty times the count in the first minute |
| Completions.CountIsExact | src/llm_home_lab/observability/completion_log.py:43-54 | nothing dropped was still in the window of such a query |
| Completions.ExactWhenNoneMissed | src/llm_home_lab/observability/completion_log.py:43-54 | with records in order a query is exact if and only if no recorded time in its window lies one window or more before the latest record |
| Completions.KeptInOrder | src/llm_home_lab/observability/completion_log.py:43-48 | with records in order the deque is the whole history without what the latest record made old |
| Completions.EarlierQueryMisses | src/llm_home_lab/observability/completion_log.py:43-54 | a concrete query before the latest record that misses a completion |
| Backend.ReadLines | src/llm_home_lab/backends/lmstudio.py:140-162 | the chunks up to the end mark or undecodable data, and which of them ended the reading |
| Backend.StreamChunks | src/llm_home_lab/backends/lmstudio.py:123-183 | all chunks come from the last attempt sent, every earlier one failed in transport without a chunk, at most max(0, retries + 1) requests go out, and the outcome is that attempt's |
| Backend.RetryIsTransparent | src/llm_home_lab/backends/llamaserver.py:109-167 | the caller sees exactly what the first attempt that is not a bare connection failure did, as if it were the only one |
| Backend.AllFailed | src/llm_home_lab/backends/llamaserver.py:164-167 | when every allowed attempt is a bare connection failure, or none is allowed, there is no chunk and a connection error |
| Backend.NothingAfterATimeoutOrRefusal | src/llm_home_lab/backends/llamaserver.py:118-152 | nothing is sent after a timeout or a refused status, and that is the outcome |
| Backend.RefusedOutcome | src/llm_home_lab/backends/lmstudio.py:134-138 | a status outside the two hundreds gives no chunk and is the outcome, unless its body times out or the connection fails; only the latter is tried again |
| Backend.EndedOutcome | src/llm_home_lab/backends/lmstudio.py:140-148 | lines that reach an end mark complete, at undecodable data they fail, whatever the connection does afterwards, and neither is tried again |
| Backend.UnendedOutcome | src/llm_home_lab/backends/lmstudio.py:140-178 | without either the connection decides, and a failure is tried again exactly when no line carried a choice or a usage |
| Backend.ChunksAddUp | src/llm_home_lab/backends/lmstudio.py:140-162 | chunks come in the order of the lines that carry them |
| ResponseModes.Complete | src/llm_home_lab/backends/lmstudio.py:88-118 | the joined text, the last finish reason or "stop", the last usage or none |
| ResponseModes.Stream | src/llm_home_lab/api/app.py:854-898 | the deltas forwarded join to the same text, usage is the last one, the verdict is some text and a last reason "stop"; a null content fails without a verdict |
| ResponseModes.JoinedBlank | src/llm_home_lab/api/app.py:873-874 | the joined text is whitespace exactly when every piece is, wherever the pieces are cut |
| ResponseModes.JoinedIsTogether | src/llm_home_lab/backends/lmstudio.py:88-118 | the text is the pieces put together in order, a null piece adding nothing |
| ResponseModes.VerdictsMean | src/llm_home_lab/api/app.py:850-898 | a streamed response is healthy exactly when some piece is more than whitespace and the last reason given is "stop"; a collected one also when no chunk gives a reason |
| ResponseModes.VerdictsAgreeExactlyWhen | src/llm_home_lab/api/app.py:850-851 | the verdicts agree if and only if some chunk has a finish reason or there is no text |
| ResponseModes.MissingReasonSplitsTheModes | src/llm_home_lab/api/app.py:898-898 | a text without a finish reason is healthy when collected and unhealthy when streamed |
| ResponseModes.Compare | src/llm_home_lab/api/app.py:791-803 | the two modes run on the same chunks agree exactly under the same condition and when no content is null |
| Text.StripEmptyIffBlank | src/llm_home_lab/api/app.py:850-851 | stripping leaves nothing exactly when there was nothing but whitespace |
| TextLines.SplitUndoesJoin | src/llm_home_lab/diagnostics/metrics_parser.py:45-45 | lines that hold no line boundary come back from the text that joins them |
| Decimals.DecimalReadsBack | src/llm_home_lab/diagnostics/metrics_parser.py:7-11 | the decimal text of any integer reads back as that integer and holds no whitespace |
| Decimals.DoubleExactWhenRepresentable | src/llm_home_lab/diagnostics/metrics_parser.py:7-11 | an integer survives the trip through a double exactly when it is a multiple of the spacing of doubles of its size |
| Decimals.SmallIsRepresentable | src/llm_home_lab/diagnostics/metrics_parser.py:7-11 | integers up to 9007199254740992 in size survive |
| Decimals.FirstLostInteger | src/llm_home_lab/diagnostics/metrics_parser.py:7-11 | 9007199254740993 does not |
| MetricsText.ParseMetricsText | src/llm_home_lab/diagnostics/metrics_parser.py:43-70 | the loop over lines is the fold of the one-line step |
| MetricsText.ParseLine | src/llm_home_lab/diagnostics/metrics_parser.py:46-68 | skipping, the two plain figures and the first matching family, in the source's order |
| MetricsRoundTrip.PlainNeedsOwnName | src/llm_home_lab/diagnostics/metrics_parser.py:22-24 | a plain pattern matches only a line of its own name followed by whitespace |
| MetricsRoundTrip.HostNeedsOwnName | src/llm_home_lab/diagnostics/metrics_parser.py:23-40 | a per-host pattern matches only a line of its own name followed by a brace, so no family is taken for another |
| MetricsRoundTrip.HostMatches | src/llm_home_lab/diagnostics/metrics_parser.py:23-40 | a rendered host line gives its id and its value back |
| MetricsRoundTrip.HostStep | src/llm_home_lab/diagnostics/metrics_parser.py:46-68 | a rendered host line sets its own family's entry for its host, and nothing when the family is not read |
| MetricsPage.RenderPrometheus | src/llm_home_lab/observability/metrics.py:121-254 | the page is made of the source's blocks in the source's order, and reads back cell by cell when ids with figures are fit and no other listed id spans lines |
| MetricsPage.RoundTripExactlyWhenFit | src/llm_home_lab/diagnostics/metrics_parser.py:43-70 | while no host id listed with a saturation spans lines, reading a rendered page gives back queue depth, latency figure and every per-host cell, and no other cell, if and only if every host id with figures is non-empty, on one line and without a double quote |
| MetricsPage.ReadBackNeedsFitIds | src/llm_home_lab/diagnostics/metrics_parser.py:23-40 | whatever hosts a page lists, if it reads back then every host id with figures is non-empty, on one line and without a double quote |
| MetricsInjection.LineBreakInjectsUsage | src/llm_home_lab/observability/metrics.py:144-153 | a registered host without figures whose id holds a line break makes the page read back a token usage of another host that nobody recorded, for any such host and number, although every id with figures is fit |
| MetricsPage.ParsedIdsAreFit | src/llm_home_lab/diagnostics/metrics_parser.py:23-40 | whatever the text, no id that is empty, holds a quote or spans lines is ever read |
| MetricsPage.IntegersComeBackWhenRepresentable | src/llm_home_lab/diagnostics/metrics_parser.py:7-11 | on a page whose ids with figures are fit and whose other ids stay on one line, an integer comes back unchanged if and only if it is representable as a double |

## Left out

- Re-registration and deregistration of a host while requests wait or run: the protocol's host table is fixed, because a registration replaces the object that waiting requests still refer to and a removal drops its counter.
- The health monitor inside the handler: the handler sees a set of healthy hosts that may change at any event; `Health` is proved on its own.
- ChatGateway.Handler.CurrentCandidates: which expired leases get dropped along the way is only bounded (live ones stay), not pinned down, because other requests' callbacks drop some too inside a dispatch.
- Metrics side effects of the handler (token usage, failover outcomes, completion records) and per-host totals, minima and maxima: counters that only add easy members; the page renders them as given.
- The clock inside one dispatch: the source reads the lease clock afresh in each queued callback, the model asks all callbacks of one dispatch at the second of the two readings of a poll.
- Kinds of errors between "reserved", "capacity exceeded" and "not served" are one exit of the protocol.
- Fairness between queued requests and new arrivals: a new request that sees a free slot does not queue.
- Overlapping closes of one stream from two tasks: a stream is driven by one task at a time.
- The lock of the lease book, and threads: each public method is one atomic step.
- Aliasing of cached contexts: the cache returns the stored object, the model its value.
- A consumer that closes a backend stream early, and the shielded cleanup of the connection.
- Model discovery, alias round robin and payload building: the capable hosts and the decoded lines are inputs.
- HTTP, server-sent event framing, JSON decoding, SQLite storage, authentication, lease path rewriting, alerts, the terminal UI and the command line.
- Floating-point rounding of averages, ratios and scores; the texts of floating-point figures are opaque. A page integer beyond the range of doubles, on which the source's reader raises, is modelled as its rounding.
- Help and type comment lines of the metrics page are inputs that start with a hash sign and stay on one line.
- Host saturation when a capacity is zero, where the source divides by zero.
