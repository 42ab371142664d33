/** What the scheduling queue promises over single calls and over whole runs:
    dispatch order, conservation of entries, and bounded waiting. */
module DispatchOrder {
  import opened Basics
  import opened Scheduling

  // ---------------------------------------------------------------- dispatch order

  ghost predicate SomeReady<C>(q: Queue<C>, env: Env<C>) {
    exists p, i :: p in q.tiers && 0 <= i < |q.tiers[p]| && Ready(q, q.tiers[p][i], env)
  }

  ghost predicate TierReady<C>(q: Queue<C>, env: Env<C>, p: int) {
    p in q.tiers && exists i :: 0 <= i < |q.tiers[p]| && Ready(q, q.tiers[p][i], env)
  }

  lemma {:induction false} LeastReadyTier<C>(q: Queue<C>, env: Env<C>, ps: set<int>) returns (p: int)
    requires exists p :: p in ps && TierReady(q, env, p)
    ensures p in ps && TierReady(q, env, p)
    ensures forall x :: x in ps && x < p ==> !TierReady(q, env, x)
  {
    p :| p in ps && TierReady(q, env, p);
    if x :| x in ps && x < p && TierReady(q, env, x) {
      p := LeastReadyTier(q, env, ps - {p});
    }
  }

  /** Some lane is ready exactly when the queue has a pick. */
  lemma ReadyMeansPick<C>(q: Queue<C>, env: Env<C>)
    ensures SomeReady(q, env) <==> SomePick(q, env)
  {
    if SomeReady(q, env) {
      var p0, i0 :| p0 in q.tiers && 0 <= i0 < |q.tiers[p0]| && Ready(q, q.tiers[p0][i0], env);
      assert TierReady(q, env, p0);
      var p := LeastReadyTier(q, env, q.tiers.Keys);
      var i :| 0 <= i < |q.tiers[p]| && Ready(q, q.tiers[p][i], env);
      i := FirstReady(q, env, q.tiers[p], i);
      forall p', j | p' in q.tiers && p' < p && 0 <= j < |q.tiers[p']|
        ensures !Ready(q, q.tiers[p'][j], env)
      {
        assert !TierReady(q, env, p');
      }
      assert IsPick(q, env, p, i);
    }
  }

  lemma {:induction false} FirstReady<C>(q: Queue<C>, env: Env<C>, lanes: seq<Lane>, k: nat) returns (i: nat)
    requires k < |lanes| && Ready(q, lanes[k], env)
    ensures i < |lanes| && Ready(q, lanes[i], env)
    ensures forall j :: 0 <= j < i ==> !Ready(q, lanes[j], env)
  {
    i := k;
    if j :| 0 <= j < k && Ready(q, lanes[j], env) {
      i := FirstReady(q, env, lanes, j);
    }
  }

  /** Some host has room, among those named when any are. */
  lemma CapacityMeans(hosts: seq<HostLoad>, available: Option<set<HostId>>)
    ensures HasFreeCapacity(hosts, available)
            <==> exists host :: host in hosts && host.inFlight < host.maxConcurrent && (available.Some? ==> host.hostId in available.value)
  {
    if HasFreeCapacity(hosts, available) {
      var i :| 0 <= i < |hosts| && hosts[i].inFlight < hosts[i].maxConcurrent && (available == None || hosts[i].hostId in available.value);
      assert hosts[i] in hosts;
    }
  }

  /** A session's head can run: some host has room that its callback names, or without a callback
      one that the caller offers. */
  ghost predicate CanRun<C>(q: Queue<C>, lane: Lane, env: Env<C>) {
    && lane.entries != []
    && var r := lane.entries[0].requestId;
       exists host :: && host in env.hosts && host.inFlight < host.maxConcurrent
                      && (r in q.callbacks ==> host.hostId in env.answer(q.callbacks[r]))
                      && (r !in q.callbacks && env.available.Some? ==> host.hostId in env.available.value)
  }

  lemma ReadyMeans<C>(q: Queue<C>, lane: Lane, env: Env<C>)
    ensures Ready(q, lane, env) <==> CanRun(q, lane, env)
  {
    if lane.entries != [] {
      CapacityMeans(env.hosts, Allowed(q, lane.entries[0], env));
    }
  }

  /** The head of lane i in tier p can run, and nobody before it can: neither in the same tier
      nor in one of a smaller priority number. */
  ghost predicate FirstToRun<C>(q: Queue<C>, env: Env<C>, p: int, i: nat) {
    && p in q.tiers && i < |q.tiers[p]| && CanRun(q, q.tiers[p][i], env)
    && forall p', j :: p' in q.tiers && 0 <= j < |q.tiers[p']| && (p' < p || (p' == p && j < i)) ==> !CanRun(q, q.tiers[p'][j], env)
  }

  lemma PickIsFirstToRun<C>(q: Queue<C>, env: Env<C>, p: int, i: nat)
    ensures IsPick(q, env, p, i) <==> FirstToRun(q, env, p, i)
  {
    forall p', j | p' in q.tiers && 0 <= j < |q.tiers[p']| ensures Ready(q, q.tiers[p'][j], env) <==> CanRun(q, q.tiers[p'][j], env) {
      ReadyMeans(q, q.tiers[p'][j], env);
    }
  }

  /** A dispatch returns the first head that can run, when the caller's hosts have room and no other
      request is named; else nobody. */
  lemma DispatchReturnsFirstToRun<C>(q: Queue<C>, env: Env<C>, only: Option<RequestId>, r: RequestId)
    ensures Dispatch(q, env, only).1 == Some(r)
            <==> && (exists host :: host in env.hosts && host.inFlight < host.maxConcurrent
                                    && (env.available.Some? ==> host.hostId in env.available.value))
                 && (only == None || only == Some(r))
                 && exists p, i: nat :: FirstToRun(q, env, p, i) && q.tiers[p][i].entries[0].requestId == r
  {
    CapacityMeans(env.hosts, env.available);
    forall p, i: nat ensures IsPick(q, env, p, i) <==> FirstToRun(q, env, p, i) {
      PickIsFirstToRun(q, env, p, i);
    }
    if SomePick(q, env) {
      var (p, i) := Pick(q, env);
      assert FirstToRun(q, env, p, i);
      forall p', i': nat | FirstToRun(q, env, p', i') ensures (p', i') == (p, i) {
        PickIsUnique(q, env, p', i');
      }
    }
  }

  /** An unnamed dispatch gives up only when the offered hosts are full or every head is blocked. */
  lemma DispatchGivesUpOnlyWhenBlocked<C>(q: Queue<C>, env: Env<C>)
    ensures Dispatch(q, env, None).1 == None
            <==> !HasFreeCapacity(env.hosts, env.available) || !SomeReady(q, env)
  {
    ReadyMeansPick(q, env);
  }

  /** A dispatch serves a ready head, every lane before it in (priority, rotation) order being blocked. */
  lemma NoOvertaking<C>(q: Queue<C>, env: Env<C>, only: Option<RequestId>, r: RequestId)
    requires Good(q) && Dispatch(q, env, only).1 == Some(r)
    ensures exists p, i: nat :: IsPick(q, env, p, i) && q.tiers[p][i].entries[0].requestId == r
                           && Dispatch(q, env, only).0 == Take(q, p, i)
    ensures only == None || only == Some(r)
  {
    var (p, i) := Pick(q, env);
    assert IsPick(q, env, p, i);
  }

  /** Naming a request returns it exactly when it is next in line; otherwise nothing changes. */
  lemma NamedDispatchAgrees<C>(q: Queue<C>, env: Env<C>, r: RequestId)
    ensures Dispatch(q, env, Some(r)).1 == Some(r) <==> Dispatch(q, env, None).1 == Some(r)
    ensures Dispatch(q, env, Some(r)) ==
            if Dispatch(q, env, None).1 == Some(r) then Dispatch(q, env, None) else (q, None)
  {
  }

  // ---------------------------------------------------------------- conservation

  lemma {:induction false} EntryWeightConcat(a: seq<Entry>, b: seq<Entry>, w: Weight)
    ensures EntryWeight(a + b, w) == EntryWeight(a, w) + EntryWeight(b, w)
  {
    if a == [] {
      assert a + b == b;
    } else {
      EntryWeightConcat(a[1..], b, w);
      assert (a + b)[1..] == a[1..] + b;
    }
  }

  lemma {:induction false} TierWeightConcat(a: seq<Lane>, b: seq<Lane>, w: Weight)
    ensures TierWeight(a + b, w) == TierWeight(a, w) + TierWeight(b, w)
  {
    if a == [] {
      assert a + b == b;
    } else {
      TierWeightConcat(a[1..], b, w);
      assert (a + b)[1..] == a[1..] + b;
    }
  }

  lemma TierWeightSplit(lanes: seq<Lane>, i: nat, w: Weight)
    requires i < |lanes|
    ensures TierWeight(lanes, w) == TierWeight(DropLane(lanes, i), w) + EntryWeight(lanes[i].entries, w)
  {
    TierWeightConcat(lanes[..i], lanes[i..], w);
    TierWeightConcat(lanes[..i], lanes[i + 1..], w);
    assert lanes == lanes[..i] + lanes[i..];
    assert lanes[i..][1..] == lanes[i + 1..];
  }

  lemma TierWeightUpdate(lanes: seq<Lane>, i: nat, lane: Lane, w: Weight)
    requires i < |lanes|
    ensures TierWeight(lanes[i := lane], w) == TierWeight(DropLane(lanes, i), w) + EntryWeight(lane.entries, w)
  {
    TierWeightSplit(lanes[i := lane], i, w);
    assert DropLane(lanes[i := lane], i) == DropLane(lanes, i);
  }

  lemma {:induction false} WeightInFrame(tiers: map<int, seq<Lane>>, tiers': map<int, seq<Lane>>, ps: set<int>, w: Weight)
    requires ps <= tiers.Keys && ps <= tiers'.Keys
    requires forall p :: p in ps ==> tiers[p] == tiers'[p]
    ensures WeightIn(tiers, ps, w) == WeightIn(tiers', ps, w)
  {
    if ps != {} {
      WeightInFrame(tiers, tiers', ps - {Chosen(ps)}, w);
    }
  }

  lemma TotalWeightUpdate<C>(q: Queue<C>, q': Queue<C>, p: int, lanes: seq<Lane>, w: Weight)
    requires q'.tiers == q.tiers[p := lanes]
    ensures TotalWeight(q', w) + TierWeight(LanesOf(q, p), w) == TotalWeight(q, w) + TierWeight(lanes, w)
  {
    var others := q.tiers.Keys - {p};
    WeightInFrame(q.tiers, q'.tiers, others, w);
    WeightInSplit(q'.tiers, q'.tiers.Keys, p, w);
    assert q'.tiers.Keys - {p} == others;
    if p in q.tiers {
      WeightInSplit(q.tiers, q.tiers.Keys, p, w);
    } else {
      assert others == q.tiers.Keys;
    }
  }

  /** Enqueueing adds one entry and disturbs no other. */
  lemma EnqueueAddsOne<C>(q: Queue<C>, e: Entry, callback: Option<C>, w: Weight)
    ensures TotalWeight(Enqueue(q, e, callback), w) == TotalWeight(q, w) + w(e.requestId)
  {
    var lanes := LanesOf(q, e.priority);
    var i := Find(lanes, e.sessionId);
    assert EntryWeight([e], w) == w(e.requestId) + EntryWeight([], w);
    if i < |lanes| {
      TierWeightSplit(lanes, i, w);
      TierWeightUpdate(lanes, i, Lane(e.sessionId, lanes[i].entries + [e]), w);
      EntryWeightConcat(lanes[i].entries, [e], w);
    } else {
      var added := [Lane(e.sessionId, [e])];
      TierWeightConcat(lanes, added, w);
      assert added[1..] == [];
    }
    TotalWeightUpdate(q, Enqueue(q, e, callback), e.priority, AddEntry(lanes, e), w);
  }

  lemma TakeRemovesOne<C>(q: Queue<C>, p: int, i: nat, w: Weight)
    requires p in q.tiers && i < |q.tiers[p]| && q.tiers[p][i].entries != []
    ensures TotalWeight(Take(q, p, i), w) + w(q.tiers[p][i].entries[0].requestId) == TotalWeight(q, w)
  {
    var lanes := q.tiers[p];
    var rest := lanes[i].entries[1..];
    TierWeightSplit(lanes, i, w);
    if rest != [] {
      TierWeightConcat(DropLane(lanes, i), [Lane(lanes[i].session, rest)], w);
    } else {
      assert Serve(lanes, i) == DropLane(lanes, i);
    }
    TotalWeightUpdate(q, Take(q, p, i), p, Serve(lanes, i), w);
  }

  /** A successful dispatch removes one entry and nothing else; a failed one removes nothing. */
  lemma DispatchRemovesOne<C>(q: Queue<C>, env: Env<C>, only: Option<RequestId>, w: Weight)
    ensures var (q', r) := Dispatch(q, env, only);
            TotalWeight(q, w) == TotalWeight(q', w) + if r.Some? then w(r.value) else 0
  {
    if Dispatch(q, env, only).1.Some? {
      var (p, i) := Pick(q, env);
      TakeRemovesOne(q, p, i, w);
    }
  }

  function Times(n: nat, x: nat): nat { if n == 0 then 0 else x + Times(n - 1, x) }

  lemma HeadWeight(e: Entry, rest: seq<Entry>, w: Weight)
    ensures EntryWeight([e] + rest, w) == w(e.requestId) + EntryWeight(rest, w)
  {
    assert ([e] + rest)[1..] == rest;
  }

  lemma TimesMore(n: nat, x: nat)
    ensures Times(n + 1, x) == x + Times(n, x)
  {
  }

  lemma HeadRemoved(e: Entry, rest: seq<Entry>, w: Weight)
    requires EntryWeight(rest, w) == EntryWeight(Without(rest, e.requestId), w) + Times(EntryWeight(rest, Only(e.requestId)), w(e.requestId))
    ensures EntryWeight([e] + rest, w) ==
            EntryWeight(Without(rest, e.requestId), w) + Times(EntryWeight([e] + rest, Only(e.requestId)), w(e.requestId))
  {
    HeadWeight(e, rest, w);
    HeadWeight(e, rest, Only(e.requestId));
    TimesMore(EntryWeight(rest, Only(e.requestId)), w(e.requestId));
  }

  lemma HeadKept(e: Entry, rest: seq<Entry>, r: RequestId, w: Weight)
    requires e.requestId != r
    requires EntryWeight(rest, w) == EntryWeight(Without(rest, r), w) + Times(EntryWeight(rest, Only(r)), w(r))
    ensures EntryWeight([e] + rest, w) == EntryWeight([e] + Without(rest, r), w) + Times(EntryWeight([e] + rest, Only(r)), w(r))
  {
    HeadWeight(e, rest, w);
    HeadWeight(e, rest, Only(r));
    HeadWeight(e, Without(rest, r), w);
  }

  lemma {:induction false} WithoutWeight(entries: seq<Entry>, r: RequestId, w: Weight)
    ensures EntryWeight(entries, w) == EntryWeight(Without(entries, r), w) + Times(EntryWeight(entries, Only(r)), w(r))
  {
    if entries != [] {
      var e, rest := entries[0], entries[1..];
      WithoutWeight(rest, r, w);
      assert entries == [e] + rest;
      if e.requestId == r {
        HeadRemoved(e, rest, w);
      } else {
        HeadKept(e, rest, r, w);
      }
    }
  }

  /** The copies of r waiting in the lane of session s, tier p. */
  ghost function LaneCopies<C>(q: Queue<C>, r: RequestId, s: SessionId, p: int): nat {
    var lanes := LanesOf(q, p);
    var i := Find(lanes, s);
    if i < |lanes| then EntryWeight(lanes[i].entries, Only(r)) else 0
  }

  /** Cancelling removes every copy of the request from its own lane, and no other entry. */
  lemma CancelRemovesOnlyItsCopies<C>(q: Queue<C>, r: RequestId, s: SessionId, p: int, w: Weight)
    ensures TotalWeight(q, w) == TotalWeight(Cancel(q, r, s, p), w) + Times(LaneCopies(q, r, s, p), w(r))
  {
    var lanes := LanesOf(q, p);
    var i := Find(lanes, s);
    if i < |lanes| {
      var kept := Without(lanes[i].entries, r);
      WithoutWeight(lanes[i].entries, r, w);
      TierWeightSplit(lanes, i, w);
      TierWeightUpdate(lanes, i, Lane(s, kept), w);
      TotalWeightUpdate(q, Cancel(q, r, s, p), p, RemoveEntry(lanes, s, r), w);
    } else if p in q.tiers {
      assert q.tiers[p := lanes] == q.tiers;
    }
  }

  // ---------------------------------------------------------------- bounded waiting

  datatype Op<!C> =
    | OpEnqueue(entry: Entry, callback: Option<C>)
    | OpCancel(requestId: RequestId, sessionId: SessionId, priority: int)
    | OpDispatch(env: Env<C>, only: Option<RequestId>)

  /** The queue after an operation, and the request a dispatch returned. */
  ghost function Apply<C>(q: Queue<C>, op: Op<C>): (Queue<C>, Option<RequestId>) {
    match op
    case OpEnqueue(e, callback) => (Enqueue(q, e, callback), None)
    case OpCancel(r, s, p) => (Cancel(q, r, s, p), None)
    case OpDispatch(env, only) => Dispatch(q, env, only)
  }

  ghost predicate ServesTier<C>(q: Queue<C>, op: Op<C>, p: int) {
    op.OpDispatch? && Dispatch(q, op.env, op.only).1.Some? && Pick(q, op.env).0 == p
  }

  /** How many operations of a run serve tier p. */
  ghost function TierServes<C>(q: Queue<C>, ops: seq<Op<C>>, p: int): nat
    decreases |ops|
  {
    if ops == [] then 0
    else (if ServesTier(q, ops[0], p) then 1 else 0) + TierServes(Apply(q, ops[0]).0, ops[1..], p)
  }

  ghost predicate Served<C>(q: Queue<C>, ops: seq<Op<C>>, r: RequestId)
    decreases |ops|
  {
    ops != [] && (Apply(q, ops[0]).1 == Some(r) || Served(Apply(q, ops[0]).0, ops[1..], r))
  }

  /** Index of the first entry of a request, or the number of entries. */
  function FirstOf(entries: seq<Entry>, r: RequestId): (k: nat)
    ensures k <= |entries|
    ensures k < |entries| ==> entries[k].requestId == r
    ensures forall j :: 0 <= j < k ==> entries[j].requestId != r
  {
    if entries == [] || entries[0].requestId == r then 0 else 1 + FirstOf(entries[1..], r)
  }

  /** Sessions ahead of s in the rotation of tier p. */
  function SessionsAhead<C>(q: Queue<C>, p: int, s: SessionId): nat { Find(LanesOf(q, p), s) }

  ghost predicate HasLane<C>(q: Queue<C>, p: int, s: SessionId) { Find(LanesOf(q, p), s) < |LanesOf(q, p)| }

  function LaneOf<C>(q: Queue<C>, p: int, s: SessionId): Lane
    requires HasLane(q, p, s)
  {
    LanesOf(q, p)[Find(LanesOf(q, p), s)]
  }

  /** Entries ahead of r in its own session. */
  function EntriesAhead<C>(q: Queue<C>, p: int, s: SessionId, r: RequestId): nat
    requires HasLane(q, p, s)
  {
    FirstOf(LaneOf(q, p, s).entries, r)
  }

  ghost predicate Waits<C>(q: Queue<C>, p: int, s: SessionId, r: RequestId) {
    HasLane(q, p, s) && EntriesAhead(q, p, s, r) < |LaneOf(q, p, s).entries|
  }

  /** While r waits: nobody cancels it, its tier never holds more than n sessions, and the
      head of its session is eligible whenever the tier is served. */
  ghost predicate Undisturbed<C>(q: Queue<C>, ops: seq<Op<C>>, p: int, s: SessionId, r: RequestId, n: nat)
    decreases |ops|
  {
    |LanesOf(q, p)| <= n &&
    (ops != [] ==>
       && ops[0] != OpCancel(r, s, p)
       && (ServesTier(q, ops[0], p) ==> HasLane(q, p, s) && Ready(q, LaneOf(q, p, s), ops[0].env))
       && (Apply(q, ops[0]).1 == Some(r) || Undisturbed(Apply(q, ops[0]).0, ops[1..], p, s, r, n)))
  }

  lemma {:induction false} FindIs(lanes: seq<Lane>, i: nat, s: SessionId)
    requires i < |lanes| && lanes[i].session == s && forall j :: 0 <= j < i ==> lanes[j].session != s
    ensures Find(lanes, s) == i
  {
    assert Find(lanes, s) <= i;
  }

  lemma FirstOfIs(entries: seq<Entry>, k: nat, r: RequestId)
    requires k < |entries| && entries[k].requestId == r && forall j :: 0 <= j < k ==> entries[j].requestId != r
    ensures FirstOf(entries, r) == k
  {
  }

  lemma EnqueueKeepsPlace<C>(q: Queue<C>, e: Entry, callback: Option<C>, p: int, s: SessionId, r: RequestId)
    requires Good(q) && Waits(q, p, s, r)
    ensures var q' := Enqueue(q, e, callback);
            Waits(q', p, s, r) && SessionsAhead(q', p, s) == SessionsAhead(q, p, s)
            && EntriesAhead(q', p, s, r) == EntriesAhead(q, p, s, r)
  {
    var lanes, q' := LanesOf(q, p), Enqueue(q, e, callback);
    FindIs(LanesOf(q', p), Find(lanes, s), s);
    FirstOfIs(LaneOf(q', p, s).entries, EntriesAhead(q, p, s, r), r);
  }

  lemma {:induction false} WithoutMovesUp(entries: seq<Entry>, x: RequestId, r: RequestId)
    requires x != r && FirstOf(entries, r) < |entries|
    ensures FirstOf(Without(entries, x), r) <= FirstOf(entries, r)
    ensures FirstOf(Without(entries, x), r) < |Without(entries, x)|
  {
    if entries[0].requestId != r {
      WithoutMovesUp(entries[1..], x, r);
    }
    if entries[0].requestId != x {
      assert Without(entries, x)[1..] == Without(entries[1..], x);
    }
  }

  /** A cancellation in the waiter's own session. */
  lemma OwnCancelMovesUp<C>(q: Queue<C>, x: RequestId, p: int, s: SessionId, r: RequestId)
    requires Good(q) && Waits(q, p, s, r) && x != r
    ensures var q' := Cancel(q, x, s, p);
            Waits(q', p, s, r) && SessionsAhead(q', p, s) <= SessionsAhead(q, p, s)
            && EntriesAhead(q', p, s, r) <= EntriesAhead(q, p, s, r)
  {
    var lanes, i := LanesOf(q, p), SessionsAhead(q, p, s);
    assert GoodLanes(p, lanes);
    WithoutMovesUp(lanes[i].entries, x, r);
    FindIs(LanesOf(Cancel(q, x, s, p), p), i, s);
  }

  /** Where the lane at place `at` stands when lane k is dropped, and what stands before it. */
  lemma PlaceAfterDrop(lanes: seq<Lane>, k: nat, at: nat, s: SessionId)
    requires k < |lanes| && at < |lanes| && k != at && lanes[at].session == s
    requires forall j :: 0 <= j < at ==> lanes[j].session != s
    ensures var out, i := DropLane(lanes, k), if k < at then at - 1 else at;
            i < |out| && out[i] == lanes[at] && forall j :: 0 <= j < i ==> out[j].session != s
  {
    var out, i := DropLane(lanes, k), if k < at then at - 1 else at;
    forall j | 0 <= j < i ensures out[j].session != s {
      assert out[j] == lanes[if j < k then j else j + 1];
    }
  }

  lemma FindAfterDrop(lanes: seq<Lane>, k: nat, s: SessionId)
    requires k < |lanes| && Find(lanes, s) < |lanes| && k != Find(lanes, s)
    ensures var i := if k < Find(lanes, s) then Find(lanes, s) - 1 else Find(lanes, s);
            Find(DropLane(lanes, k), s) == i && i < |DropLane(lanes, k)| && DropLane(lanes, k)[i] == lanes[Find(lanes, s)]
  {
    var at := Find(lanes, s);
    PlaceAfterDrop(lanes, k, at, s);
    FindIs(DropLane(lanes, k), if k < at then at - 1 else at, s);
  }

  lemma FindAfterReplace(lanes: seq<Lane>, k: nat, s: SessionId, entries: seq<Entry>)
    requires k < |lanes| && Find(lanes, s) < |lanes| && k != Find(lanes, s)
    ensures Find(lanes[k := Lane(lanes[k].session, entries)], s) == Find(lanes, s)
  {
    FindIs(lanes[k := Lane(lanes[k].session, entries)], Find(lanes, s), s);
  }

  /** A cancellation in another session of the tier. */
  lemma NeighbourCancelMovesUp<C>(q: Queue<C>, x: RequestId, xs: SessionId, p: int, s: SessionId, r: RequestId)
    requires Waits(q, p, s, r) && xs != s && HasLane(q, p, xs)
    ensures var q' := Cancel(q, x, xs, p);
            Waits(q', p, s, r) && SessionsAhead(q', p, s) <= SessionsAhead(q, p, s)
            && EntriesAhead(q', p, s, r) == EntriesAhead(q, p, s, r)
  {
    var lanes, k := LanesOf(q, p), SessionsAhead(q, p, xs);
    var kept := Without(lanes[k].entries, x);
    if kept == [] {
      FindAfterDrop(lanes, k, s);
    } else {
      FindAfterReplace(lanes, k, s, kept);
    }
  }

  lemma CancelMovesUp<C>(q: Queue<C>, x: RequestId, xs: SessionId, xp: int, p: int, s: SessionId, r: RequestId)
    requires Good(q) && Waits(q, p, s, r) && (x, xs, xp) != (r, s, p)
    ensures var q' := Cancel(q, x, xs, xp);
            Waits(q', p, s, r) && SessionsAhead(q', p, s) <= SessionsAhead(q, p, s)
            && EntriesAhead(q', p, s, r) <= EntriesAhead(q, p, s, r)
  {
    if xp == p && HasLane(q, p, xs) {
      if xs == s {
        OwnCancelMovesUp(q, x, p, s, r);
      } else {
        NeighbourCancelMovesUp(q, x, xs, p, s, r);
      }
    } else {
      assert LanesOf(Cancel(q, x, xs, xp), p) == LanesOf(q, p);
    }
  }

  /** A session ahead of s is served: s comes one place forward. */
  lemma OtherServed<C>(q: Queue<C>, i: nat, p: int, s: SessionId, r: RequestId)
    requires Good(q) && Waits(q, p, s, r) && p in q.tiers && i < SessionsAhead(q, p, s)
    ensures var q' := Take(q, p, i);
            Waits(q', p, s, r) && SessionsAhead(q', p, s) == SessionsAhead(q, p, s) - 1
            && EntriesAhead(q', p, s, r) == EntriesAhead(q, p, s, r)
  {
    assert GoodLanes(p, q.tiers[p]);
    FindIs(LanesOf(Take(q, p, i), p), SessionsAhead(q, p, s) - 1, s);
  }

  /** The session s itself is served and its head is not r: it goes to the back with one entry fewer. */
  lemma OwnServed<C>(q: Queue<C>, p: int, s: SessionId, r: RequestId)
    requires Good(q) && Waits(q, p, s, r) && p in q.tiers && EntriesAhead(q, p, s, r) > 0
    ensures var q' := Take(q, p, SessionsAhead(q, p, s));
            Waits(q', p, s, r) && SessionsAhead(q', p, s) == |LanesOf(q, p)| - 1
            && EntriesAhead(q', p, s, r) == EntriesAhead(q, p, s, r) - 1
  {
    var lanes, at := q.tiers[p], SessionsAhead(q, p, s);
    assert GoodLanes(p, lanes);
    var rest := lanes[at].entries[1..];
    assert rest[EntriesAhead(q, p, s, r) - 1].requestId == r;
    FindIs(LanesOf(Take(q, p, at), p), |lanes| - 1, s);
    FirstOfIs(rest, EntriesAhead(q, p, s, r) - 1, r);
  }

  /** Serving the tier while the head of s is eligible: either r is returned, or a session
      ahead of s goes, or s goes to the back with one entry fewer ahead of r. */
  lemma ServeMovesUp<C>(q: Queue<C>, env: Env<C>, i: nat, p: int, s: SessionId, r: RequestId)
    requires Good(q) && Waits(q, p, s, r) && IsPick(q, env, p, i) && Ready(q, LaneOf(q, p, s), env)
    ensures var q' := Take(q, p, i);
            var ahead, before := SessionsAhead(q, p, s), EntriesAhead(q, p, s, r);
            || q.tiers[p][i].entries[0].requestId == r
            || (Waits(q', p, s, r) && SessionsAhead(q', p, s) == ahead - 1 && EntriesAhead(q', p, s, r) == before)
            || (Waits(q', p, s, r) && SessionsAhead(q', p, s) == |LanesOf(q, p)| - 1
                && EntriesAhead(q', p, s, r) == before - 1)
  {
    var at := SessionsAhead(q, p, s);
    assert i <= at;
    if i < at {
      OtherServed(q, i, p, s, r);
    } else if EntriesAhead(q, p, s, r) > 0 {
      OwnServed(q, p, s, r);
    }
  }

  /** p sessions and k entries ahead, at most n sessions: p + 1 + k * n. */
  function WaitBound<C>(q: Queue<C>, p: int, s: SessionId, r: RequestId, n: nat): nat
    requires HasLane(q, p, s)
  {
    SessionsAhead(q, p, s) + 1 + Times(EntriesAhead(q, p, s, r), n)
  }

  lemma ApplyIsGood<C>(q: Queue<C>, op: Op<C>)
    requires Good(q)
    ensures Good(Apply(q, op).0)
  {
    match op
    case OpEnqueue(e, callback) => EnqueueIsGood(q, e, callback);
    case OpCancel(r, s, p) => CancelIsGood(q, r, s, p);
    case OpDispatch(env, only) =>
      if Dispatch(q, env, only).1.Some? {
        TakeIsGood(q, Pick(q, env).0, Pick(q, env).1);
      }
  }

  /** A step that serves the tier returns r or lowers the bound by one. */
  lemma ServeLowersBound<C>(q: Queue<C>, env: Env<C>, i: nat, p: int, s: SessionId, r: RequestId, n: nat)
    requires Good(q) && Waits(q, p, s, r) && IsPick(q, env, p, i) && Ready(q, LaneOf(q, p, s), env) && |LanesOf(q, p)| <= n
    requires q.tiers[p][i].entries[0].requestId != r
    ensures Waits(Take(q, p, i), p, s, r) && WaitBound(Take(q, p, i), p, s, r, n) + 1 <= WaitBound(q, p, s, r, n)
  {
    var q' := Take(q, p, i);
    ServeMovesUp(q, env, i, p, s, r);
    if EntriesAhead(q', p, s, r) != EntriesAhead(q, p, s, r) {
      TimesMore(EntriesAhead(q', p, s, r), n);
    }
  }

  lemma CancelKeepsBound<C>(q: Queue<C>, x: RequestId, xs: SessionId, xp: int, p: int, s: SessionId, r: RequestId, n: nat)
    requires Good(q) && Waits(q, p, s, r) && (x, xs, xp) != (r, s, p)
    ensures var q' := Cancel(q, x, xs, xp); Waits(q', p, s, r) && WaitBound(q', p, s, r, n) <= WaitBound(q, p, s, r, n)
  {
    CancelMovesUp(q, x, xs, xp, p, s, r);
    TimesMonotone(EntriesAhead(Cancel(q, x, xs, xp), p, s, r), EntriesAhead(q, p, s, r), n);
  }

  lemma ElsewhereServed<C>(q: Queue<C>, other: int, i: nat, p: int, s: SessionId, r: RequestId, n: nat)
    requires Waits(q, p, s, r) && other in q.tiers && i < |q.tiers[other]| && q.tiers[other][i].entries != [] && other != p
    ensures var q' := Take(q, other, i); Waits(q', p, s, r) && WaitBound(q', p, s, r, n) == WaitBound(q, p, s, r, n)
  {
    assert LanesOf(Take(q, other, i), p) == LanesOf(q, p);
  }

  lemma DispatchStep<C>(q: Queue<C>, env: Env<C>, only: Option<RequestId>, p: int, s: SessionId, r: RequestId, n: nat)
    requires Good(q) && Waits(q, p, s, r) && |LanesOf(q, p)| <= n
    requires ServesTier(q, OpDispatch(env, only), p) ==> Ready(q, LaneOf(q, p, s), env)
    ensures var (q', served) := Dispatch(q, env, only);
            served == Some(r)
            || (Waits(q', p, s, r)
                && WaitBound(q', p, s, r, n) + (if ServesTier(q, OpDispatch(env, only), p) then 1 else 0) <= WaitBound(q, p, s, r, n))
  {
    var (q', served) := Dispatch(q, env, only);
    if served.Some? && served != Some(r) {
      var (tier, i) := Pick(q, env);
      if tier == p {
        ServeLowersBound(q, env, i, p, s, r, n);
      } else {
        ElsewhereServed(q, tier, i, p, s, r, n);
      }
    }
  }

  lemma WaitStep<C>(q: Queue<C>, op: Op<C>, p: int, s: SessionId, r: RequestId, n: nat)
    requires Good(q) && Waits(q, p, s, r) && |LanesOf(q, p)| <= n && op != OpCancel(r, s, p)
    requires ServesTier(q, op, p) ==> Ready(q, LaneOf(q, p, s), op.env)
    ensures var (q', served) := Apply(q, op);
            served == Some(r)
            || (Waits(q', p, s, r)
                && WaitBound(q', p, s, r, n) + (if ServesTier(q, op, p) then 1 else 0) <= WaitBound(q, p, s, r, n))
  {
    match op
    case OpEnqueue(e, callback) => EnqueueKeepsPlace(q, e, callback, p, s, r);
    case OpCancel(x, xs, xp) => CancelKeepsBound(q, x, xs, xp, p, s, r, n);
    case OpDispatch(env, only) => DispatchStep(q, env, only, p, s, r, n);
  }

  lemma {:induction false} TimesMonotone(a: nat, b: nat, n: nat)
    requires a <= b
    ensures Times(a, n) <= Times(b, n)
  {
    if a < b {
      TimesMonotone(a, b - 1, n);
    }
  }

  lemma {:induction false} TimesIsProduct(k: nat, n: nat)
    ensures Times(k, n) == k * n
  {
    if k > 0 {
      TimesIsProduct(k - 1, n);
    }
  }

  /** What the first operation of an undisturbed run does to a waiter it does not return. */
  lemma FirstStep<C>(q: Queue<C>, ops: seq<Op<C>>, p: int, s: SessionId, r: RequestId, n: nat)
    requires Good(q) && Waits(q, p, s, r) && Undisturbed(q, ops, p, s, r, n) && ops != [] && Apply(q, ops[0]).1 != Some(r)
    ensures var q' := Apply(q, ops[0]).0;
            && Good(q') && Waits(q', p, s, r) && Undisturbed(q', ops[1..], p, s, r, n)
            && WaitBound(q', p, s, r, n) + (if ServesTier(q, ops[0], p) then 1 else 0) <= WaitBound(q, p, s, r, n)
  {
    WaitStep(q, ops[0], p, s, r, n);
    ApplyIsGood(q, ops[0]);
  }

  lemma {:induction false} WaitingWithin<C>(q: Queue<C>, ops: seq<Op<C>>, p: int, s: SessionId, r: RequestId, n: nat, b: nat)
    requires Good(q) && Waits(q, p, s, r) && Undisturbed(q, ops, p, s, r, n) && WaitBound(q, p, s, r, n) <= b
    requires TierServes(q, ops, p) >= b
    ensures Served(q, ops, r)
    decreases |ops|
  {
    if Apply(q, ops[0]).1 != Some(r) {
      FirstStep(q, ops, p, s, r, n);
      WaitingWithin(Apply(q, ops[0]).0, ops[1..], p, s, r, n, if ServesTier(q, ops[0], p) then b - 1 else b);
    }
  }

  /** Bounded waiting: with a sessions and k own entries ahead and at most n sessions, a run that
      serves the tier a + 1 + k * n times has served r. */
  lemma BoundedWaiting<C>(q: Queue<C>, ops: seq<Op<C>>, p: int, s: SessionId, r: RequestId, n: nat)
    requires Good(q) && Waits(q, p, s, r) && Undisturbed(q, ops, p, s, r, n)
    ensures TierServes(q, ops, p) >= SessionsAhead(q, p, s) + 1 + EntriesAhead(q, p, s, r) * n ==> Served(q, ops, r)
  {
    TimesIsProduct(EntriesAhead(q, p, s, r), n);
    if TierServes(q, ops, p) >= WaitBound(q, p, s, r, n) {
      WaitingWithin(q, ops, p, s, r, n, WaitBound(q, p, s, r, n));
    }
  }
}
