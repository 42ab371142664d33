/** The scheduling queue (scheduling/queue.py).

    The source keeps three dictionaries: the session queues of every priority tier, the
    rotation of session names of every tier, and the eligibility callbacks of queued
    requests. The specification keeps one sequence of lanes per tier, in rotation order. */
module Scheduling {
  import opened Basics

  datatype Entry = Entry(requestId: RequestId, sessionId: SessionId, priority: int, at: int)

  /** What the registry reports of a host. */
  datatype HostLoad = HostLoad(hostId: HostId, inFlight: int, maxConcurrent: int)

  /** Everything a dispatch reads beside the queue: the registry, the hosts offered by the
      caller, and the answer each callback gives at this moment. */
  datatype Env<!C> = Env(hosts: seq<HostLoad>, available: Option<set<HostId>>, answer: C -> set<HostId>)

  predicate HasFreeCapacity(hosts: seq<HostLoad>, available: Option<set<HostId>>) {
    exists i :: 0 <= i < |hosts| && hosts[i].inFlight < hosts[i].maxConcurrent
      && (available == None || hosts[i].hostId in available.value)
  }

  // ---------------------------------------------------------------- specification

  /** One session of a tier with its waiting entries, oldest first. */
  datatype Lane = Lane(session: SessionId, entries: seq<Entry>)

  datatype Queue<C> = Queue(tiers: map<int, seq<Lane>>, callbacks: map<RequestId, C>)

  function EmptyQueue<C>(): Queue<C> { Queue(map[], map[]) }

  ghost predicate GoodLanes(p: int, lanes: seq<Lane>) {
    && (forall i, j :: 0 <= i < j < |lanes| ==> lanes[i].session != lanes[j].session)
    && (forall i :: 0 <= i < |lanes| ==> lanes[i].entries != [])
    && (forall i, k :: 0 <= i < |lanes| && 0 <= k < |lanes[i].entries| ==>
          lanes[i].entries[k].sessionId == lanes[i].session && lanes[i].entries[k].priority == p)
  }

  ghost predicate Good<C>(q: Queue<C>) {
    forall p :: p in q.tiers ==> GoodLanes(p, q.tiers[p])
  }

  function LanesOf<C>(q: Queue<C>, p: int): seq<Lane> {
    if p in q.tiers then q.tiers[p] else []
  }

  /** Position of a session in the rotation, or the rotation's length. */
  function Find(lanes: seq<Lane>, s: SessionId): (i: nat)
    ensures i <= |lanes|
    ensures i < |lanes| ==> lanes[i].session == s
    ensures forall j :: 0 <= j < i ==> lanes[j].session != s
  {
    if lanes == [] || lanes[0].session == s then 0 else 1 + Find(lanes[1..], s)
  }

  function AddEntry(lanes: seq<Lane>, e: Entry): seq<Lane> {
    var i := Find(lanes, e.sessionId);
    if i < |lanes| then lanes[i := Lane(e.sessionId, lanes[i].entries + [e])]
    else lanes + [Lane(e.sessionId, [e])]
  }

  function Enqueue<C>(q: Queue<C>, e: Entry, callback: Option<C>): Queue<C> {
    Queue(q.tiers[e.priority := AddEntry(LanesOf(q, e.priority), e)],
          if callback.Some? then q.callbacks[e.requestId := callback.value] else q.callbacks)
  }

  /** The entries of other requests, in order. */
  function Without(entries: seq<Entry>, r: RequestId): (kept: seq<Entry>)
    ensures |kept| <= |entries|
    ensures |kept| == |entries| <==> kept == entries
    ensures forall e :: e in kept <==> e in entries && e.requestId != r
  {
    if entries == [] then []
    else if entries[0].requestId == r then Without(entries[1..], r)
    else [entries[0]] + Without(entries[1..], r)
  }

  function DropLane(lanes: seq<Lane>, i: nat): seq<Lane>
    requires i < |lanes|
  {
    lanes[..i] + lanes[i + 1..]
  }

  function RemoveEntry(lanes: seq<Lane>, s: SessionId, r: RequestId): seq<Lane> {
    var i := Find(lanes, s);
    if i == |lanes| then lanes
    else
      var kept := Without(lanes[i].entries, r);
      if kept == [] then DropLane(lanes, i) else lanes[i := Lane(s, kept)]
  }

  function Cancel<C>(q: Queue<C>, r: RequestId, s: SessionId, p: int): Queue<C> {
    Queue(if p in q.tiers then q.tiers[p := RemoveEntry(q.tiers[p], s, r)] else q.tiers,
          q.callbacks - {r})
  }

  function Allowed<C>(q: Queue<C>, e: Entry, env: Env<C>): Option<set<HostId>> {
    if e.requestId in q.callbacks then Some(env.answer(q.callbacks[e.requestId])) else env.available
  }

  predicate Ready<C>(q: Queue<C>, lane: Lane, env: Env<C>) {
    lane.entries != [] && HasFreeCapacity(env.hosts, Allowed(q, lane.entries[0], env))
  }

  /** Lane i of tier p is ready and every lane before it, in (priority, rotation) order, is not. */
  ghost predicate IsPick<C>(q: Queue<C>, env: Env<C>, p: int, i: nat) {
    && p in q.tiers && i < |q.tiers[p]| && Ready(q, q.tiers[p][i], env)
    && (forall j :: 0 <= j < i ==> !Ready(q, q.tiers[p][j], env))
    && (forall p', j :: p' in q.tiers && p' < p && 0 <= j < |q.tiers[p']| ==> !Ready(q, q.tiers[p'][j], env))
  }

  ghost predicate SomePick<C>(q: Queue<C>, env: Env<C>) {
    exists p, i :: IsPick(q, env, p, i)
  }

  ghost function Pick<C>(q: Queue<C>, env: Env<C>): (pick: (int, nat))
    requires SomePick(q, env)
    ensures IsPick(q, env, pick.0, pick.1)
  {
    var p, i :| IsPick(q, env, p, i);
    (p, i)
  }

  /** Serve the head of lane i; the lane goes to the back of the rotation or away. */
  function Serve(lanes: seq<Lane>, i: nat): seq<Lane>
    requires i < |lanes| && lanes[i].entries != []
  {
    var rest := lanes[i].entries[1..];
    DropLane(lanes, i) + if rest == [] then [] else [Lane(lanes[i].session, rest)]
  }

  function Take<C>(q: Queue<C>, p: int, i: nat): Queue<C>
    requires p in q.tiers && i < |q.tiers[p]| && q.tiers[p][i].entries != []
  {
    Queue(q.tiers[p := Serve(q.tiers[p], i)], q.callbacks - {q.tiers[p][i].entries[0].requestId})
  }

  /** What a dispatch returns and leaves behind. */
  ghost function Dispatch<C>(q: Queue<C>, env: Env<C>, only: Option<RequestId>): (Queue<C>, Option<RequestId>) {
    if !HasFreeCapacity(env.hosts, env.available) || !SomePick(q, env) then (q, None)
    else
      var (p, i) := Pick(q, env);
      var r := q.tiers[p][i].entries[0].requestId;
      if only.Some? && only.value != r then (q, None) else (Take(q, p, i), Some(r))
  }

  lemma PickIsUnique<C>(q: Queue<C>, env: Env<C>, p: int, i: nat)
    requires IsPick(q, env, p, i)
    ensures Pick(q, env) == (p, i)
  {
    var (p', i') := Pick(q, env);
    assert Ready(q, q.tiers[p][i], env) && Ready(q, q.tiers[p'][i'], env);
  }

  /** The total weight of the queued entries, for any weighing of request ids: with weight one
      everywhere it is the depth, with weight one at r only it counts the copies of r. */
  type Weight = RequestId -> nat

  ghost function EntryWeight(entries: seq<Entry>, w: Weight): nat {
    if entries == [] then 0 else w(entries[0].requestId) + EntryWeight(entries[1..], w)
  }

  ghost function TierWeight(lanes: seq<Lane>, w: Weight): nat {
    if lanes == [] then 0 else EntryWeight(lanes[0].entries, w) + TierWeight(lanes[1..], w)
  }

  ghost function WeightIn(tiers: map<int, seq<Lane>>, ps: set<int>, w: Weight): nat
    requires ps <= tiers.Keys
  {
    if ps == {} then 0
    else
      var p := Chosen(ps);
      TierWeight(tiers[p], w) + WeightIn(tiers, ps - {p}, w)
  }

  ghost function TotalWeight<C>(q: Queue<C>, w: Weight): nat { WeightIn(q.tiers, q.tiers.Keys, w) }

  function Each(): Weight { (_: RequestId) => 1 }

  function Only(r: RequestId): Weight { (x: RequestId) => if x == r then 1 else 0 }

  ghost function DepthOf<C>(q: Queue<C>): nat { TotalWeight(q, Each()) }

  ghost function Copies<C>(q: Queue<C>, r: RequestId): nat { TotalWeight(q, Only(r)) }

  lemma {:induction false} WeightInSplit(tiers: map<int, seq<Lane>>, ps: set<int>, p: int, w: Weight)
    requires ps <= tiers.Keys && p in ps
    ensures WeightIn(tiers, ps, w) == TierWeight(tiers[p], w) + WeightIn(tiers, ps - {p}, w)
  {
    var c := Chosen(ps);
    if c != p {
      WeightInSplit(tiers, ps - {c}, p, w);
      WeightInSplit(tiers, ps - {p}, c, w);
      assert ps - {c} - {p} == ps - {p} - {c};
    }
  }

  lemma {:induction false} EachWeighsOne(entries: seq<Entry>)
    ensures EntryWeight(entries, Each()) == |entries|
  {
    if entries != [] {
      EachWeighsOne(entries[1..]);
    }
  }

  // ---------------------------------------------------------------- implementation

  type Tier = map<SessionId, seq<Entry>>

  /** A rotation repeats nothing and lists exactly the sessions of its tier. */
  ghost predicate LinkedTier(tier: Tier, rotation: seq<SessionId>) {
    NoDup(rotation) && forall s :: s in rotation <==> s in tier
  }

  function Lanes(tier: Tier, rotation: seq<SessionId>): (lanes: seq<Lane>)
    requires forall s :: s in rotation ==> s in tier
    ensures |lanes| == |rotation|
    ensures forall i :: 0 <= i < |lanes| ==> lanes[i] == Lane(rotation[i], tier[rotation[i]])
  {
    seq(|rotation|, i requires 0 <= i < |rotation| => Lane(rotation[i], tier[rotation[i]]))
  }

  ghost predicate LinkedAll(tiers: map<int, Tier>, rotations: map<int, seq<SessionId>>) {
    tiers.Keys == rotations.Keys && forall p :: p in rotations ==> LinkedTier(tiers[p], rotations[p])
  }

  ghost function AllLanes(tiers: map<int, Tier>, rotations: map<int, seq<SessionId>>): (all: map<int, seq<Lane>>)
    requires LinkedAll(tiers, rotations)
    ensures all.Keys == rotations.Keys
    ensures forall p :: p in rotations ==> all[p] == Lanes(tiers[p], rotations[p])
  {
    map p | p in rotations :: Lanes(tiers[p], rotations[p])
  }

  lemma AllLanesAfterUpdate(tiers: map<int, Tier>, rotations: map<int, seq<SessionId>>, p: int, tier: Tier, rotation: seq<SessionId>)
    requires LinkedAll(tiers, rotations) && LinkedTier(tier, rotation)
    ensures LinkedAll(tiers[p := tier], rotations[p := rotation])
    ensures AllLanes(tiers[p := tier], rotations[p := rotation]) == AllLanes(tiers, rotations)[p := Lanes(tier, rotation)]
  {
  }

  lemma LanesOfTier<C>(tiers: map<int, Tier>, rotations: map<int, seq<SessionId>>, callbacks: map<RequestId, C>, p: int)
    requires LinkedAll(tiers, rotations)
    ensures LinkedTier(if p in tiers then tiers[p] else map[], if p in rotations then rotations[p] else [])
    ensures LanesOf(Queue(AllLanes(tiers, rotations), callbacks), p) ==
            Lanes(if p in tiers then tiers[p] else map[], if p in rotations then rotations[p] else [])
  {
  }

  lemma LanesWithout(tier: Tier, rotation: seq<SessionId>, s: SessionId)
    requires LinkedTier(tier, rotation) && s !in tier
    ensures Find(Lanes(tier, rotation), s) == |rotation|
  {
    assert forall j :: 0 <= j < |rotation| ==> rotation[j] in tier;
  }

  lemma LanesAfterAppend(tier: Tier, rotation: seq<SessionId>, e: Entry)
    requires LinkedTier(tier, rotation)
    ensures var s := e.sessionId;
            var tier' := tier[s := (if s in tier then tier[s] else []) + [e]];
            var rotation' := if s in tier then rotation else rotation + [s];
            LinkedTier(tier', rotation') && Lanes(tier', rotation') == AddEntry(Lanes(tier, rotation), e)
  {
    var s := e.sessionId;
    if s in tier {
      var i := Find(Lanes(tier, rotation), s);
      assert s in rotation;
      assert i < |rotation| && rotation[i] == s;
      LanesAfterReplace(tier, rotation, i, tier[s] + [e]);
    } else {
      LanesWithout(tier, rotation, s);
      assert [] + [e] == [e];
      assert Lanes(tier[s := [e]], rotation + [s]) == Lanes(tier, rotation) + [Lane(s, [e])];
    }
  }

  lemma LanesAfterReplace(tier: Tier, rotation: seq<SessionId>, i: nat, entries: seq<Entry>)
    requires LinkedTier(tier, rotation) && i < |rotation|
    ensures var tier' := tier[rotation[i] := entries];
            LinkedTier(tier', rotation)
            && Lanes(tier', rotation) == Lanes(tier, rotation)[i := Lane(rotation[i], entries)]
  {
    assert rotation[i] in rotation;
  }

  lemma WithoutPlace(rotation: seq<SessionId>, i: nat)
    requires NoDup(rotation) && i < |rotation|
    ensures NoDup(rotation[..i] + rotation[i + 1..])
    ensures forall s :: s in rotation[..i] + rotation[i + 1..] <==> s in rotation && s != rotation[i]
  {
    var out := rotation[..i] + rotation[i + 1..];
    forall s | s in rotation && s != rotation[i] ensures s in out {
      var k :| 0 <= k < |rotation| && rotation[k] == s;
      assert if k < i then out[k] == s else out[k - 1] == s;
    }
    forall s | s in out ensures s in rotation && s != rotation[i] {
      var k :| 0 <= k < |out| && out[k] == s;
      assert if k < i then rotation[k] == s else rotation[k + 1] == s;
    }
  }

  lemma LanesAfterDrop(tier: Tier, rotation: seq<SessionId>, i: nat)
    requires LinkedTier(tier, rotation) && i < |rotation|
    ensures var rotation' := rotation[..i] + rotation[i + 1..];
            LinkedTier(tier - {rotation[i]}, rotation')
            && Lanes(tier - {rotation[i]}, rotation') == DropLane(Lanes(tier, rotation), i)
  {
    var rotation', tier' := rotation[..i] + rotation[i + 1..], tier - {rotation[i]};
    WithoutPlace(rotation, i);
    assert LinkedTier(tier', rotation');
    var lanes, dropped := Lanes(tier', rotation'), DropLane(Lanes(tier, rotation), i);
    forall k | 0 <= k < |lanes| ensures lanes[k] == dropped[k] {
      assert rotation'[k] in rotation';
    }
  }

  /** A session put back after being dropped stands at the end of the rotation. */
  lemma LanesAfterReturn(tier: Tier, others: seq<SessionId>, s: SessionId, entries: seq<Entry>)
    requires LinkedTier(tier - {s}, others)
    ensures LinkedTier(tier[s := entries], others + [s])
    ensures Lanes(tier[s := entries], others + [s]) == Lanes(tier - {s}, others) + [Lane(s, entries)]
  {
    assert s !in others;
    assert forall x :: x in others + [s] <==> x in others || x == s;
  }

  lemma LanesAfterServe(tier: Tier, rotation: seq<SessionId>, i: nat)
    requires LinkedTier(tier, rotation) && i < |rotation| && tier[rotation[i]] != []
    ensures var s := rotation[i];
            var rest := tier[s][1..];
            var out := rotation[..i] + rotation[i + 1..];
            var tier' := if rest == [] then tier - {s} else tier[s := rest];
            var rotation' := if rest == [] then out else out + [s];
            LinkedTier(tier', rotation') && Lanes(tier', rotation') == Serve(Lanes(tier, rotation), i)
  {
    var s := rotation[i];
    LanesAfterDrop(tier, rotation, i);
    if tier[s][1..] != [] {
      LanesAfterReturn(tier, rotation[..i] + rotation[i + 1..], s, tier[s][1..]);
    }
  }

  method Least(keys: set<int>) returns (least: int)
    requires keys != {}
    ensures least in keys && forall x :: x in keys ==> least <= x
  {
    least := AnyOf(keys);
    var rest := keys - {least};
    while rest != {}
      invariant rest <= keys && least in keys
      invariant forall x :: x in keys && x !in rest ==> least <= x
      decreases rest
    {
      var x := AnyOf(rest);
      rest := rest - {x};
      if x < least {
        least := x;
      }
    }
  }

  /** The keys of a dictionary in increasing order. */
  method SortedKeys(keys: set<int>) returns (sorted: seq<int>)
    ensures forall i, j :: 0 <= i < j < |sorted| ==> sorted[i] < sorted[j]
    ensures forall p :: p in sorted <==> p in keys
  {
    sorted := [];
    var rest := keys;
    while rest != {}
      invariant rest <= keys
      invariant forall i, j :: 0 <= i < j < |sorted| ==> sorted[i] < sorted[j]
      invariant forall p :: p in sorted <==> p in keys - rest
      invariant forall i, x :: 0 <= i < |sorted| && x in rest ==> sorted[i] < x
      decreases rest
    {
      var least := Least(rest);
      sorted := sorted + [least];
      rest := rest - {least};
    }
  }

  class SchedulingQueue<C> {
    var eligibility: map<RequestId, C>
    var tiers: map<int, Tier>
    var rotations: map<int, seq<SessionId>>

    ghost predicate Linked()
      reads this
    {
      LinkedAll(tiers, rotations)
    }

    ghost predicate Valid()
      reads this
    {
      Linked() && Good(View())
    }

    ghost function View(): Queue<C>
      requires Linked()
      reads this
    {
      Queue(AllLanes(tiers, rotations), eligibility)
    }

    constructor ()
      ensures Valid() && View() == EmptyQueue()
    {
      eligibility, tiers, rotations := map[], map[], map[];
    }

    /** Replace one tier and its rotation. */
    method SetTier(p: int, tier: Tier, rotation: seq<SessionId>)
      requires Linked() && LinkedTier(tier, rotation)
      modifies this`tiers, this`rotations
      ensures Linked()
      ensures View() == Queue(old(View()).tiers[p := Lanes(tier, rotation)], eligibility)
    {
      AllLanesAfterUpdate(tiers, rotations, p, tier, rotation);
      tiers := tiers[p := tier];
      rotations := rotations[p := rotation];
    }

    /** Append to one session queue; a new session goes to the back of the rotation. */
    method Append(entry: Entry)
      requires Linked()
      modifies this`tiers, this`rotations
      ensures Linked()
      ensures View() == Queue(old(View()).tiers[entry.priority := AddEntry(LanesOf(old(View()), entry.priority), entry)], eligibility)
    {
      var p, s := entry.priority, entry.sessionId;
      var tier := if p in tiers then tiers[p] else map[];
      var rotation := if p in rotations then rotations[p] else [];
      LanesOfTier(tiers, rotations, eligibility, p);
      LanesAfterAppend(tier, rotation, entry);
      if s !in tier {
        SetTier(p, tier[s := [entry]], rotation + [s]);
      } else {
        SetTier(p, tier[s := tier[s] + [entry]], rotation);
      }
    }

    method EnqueueEntry(requestId: RequestId, sessionId: SessionId, priority: int, at: int, eligibleHostIds: Option<C>)
      requires Valid()
      modifies this
      ensures Valid()
      ensures View() == Enqueue(old(View()), Entry(requestId, sessionId, priority, at), eligibleHostIds)
    {
      var entry := Entry(requestId, sessionId, priority, at);
      EnqueueIsGood(View(), entry, eligibleHostIds);
      if eligibleHostIds.Some? {
        eligibility := eligibility[requestId := eligibleHostIds.value];
      }
      Append(entry);
    }

    method CancelEntry(requestId: RequestId, sessionId: SessionId, priority: int)
      requires Valid()
      modifies this
      ensures Valid()
      ensures View() == Cancel(old(View()), requestId, sessionId, priority)
    {
      ghost var before := View();
      CancelIsGood(before, requestId, sessionId, priority);
      eligibility := eligibility - {requestId};
      if priority !in tiers {
        return;
      }
      var tier, rotation := tiers[priority], rotations[priority];
      ghost var lanes := before.tiers[priority];
      assert before.tiers[priority := lanes] == before.tiers;
      if sessionId !in tier {
        LanesWithout(tier, rotation, sessionId);
        return;
      }
      var at := IndexOf(rotation, sessionId);
      assert at == Find(lanes, sessionId);
      var remaining := Without(tier[sessionId], requestId);
      if |remaining| == |tier[sessionId]| {
        assert lanes == RemoveEntry(lanes, sessionId, requestId);
        return;
      }
      if remaining != [] {
        LanesAfterReplace(tier, rotation, at, remaining);
        SetTier(priority, tier[sessionId := remaining], rotation);
      } else {
        LanesAfterDrop(tier, rotation, at);
        SetTier(priority, tier - {sessionId}, rotation[..at] + rotation[at + 1..]);
      }
    }

    /** The number of queued entries of all tiers. */
    method Depth() returns (depth: nat)
      requires Valid()
      ensures depth == DepthOf(View())
    {
      depth := 0;
      var rest := tiers.Keys;
      while rest != {}
        invariant rest <= tiers.Keys
        invariant depth + WeightIn(View().tiers, rest, Each()) == DepthOf(View())
        decreases rest
      {
        var p := AnyOf(rest);
        WeightInSplit(View().tiers, rest, p, Each());
        var tier, rotation := tiers[p], rotations[p];
        ghost var lanes := View().tiers[p];
        var before := depth;
        for i := 0 to |rotation|
          invariant depth + TierWeight(lanes[i..], Each()) == before + TierWeight(lanes, Each())
        {
          assert lanes[i..][1..] == lanes[i + 1..];
          EachWeighsOne(lanes[i].entries);
          depth := depth + |tier[rotation[i]]|;
        }
        rest := rest - {p};
      }
    }

    method DispatchEntry(env: Env<C>, only: Option<RequestId>) returns (dispatched: Option<RequestId>)
      requires Valid()
      modifies this
      ensures Valid()
      ensures (View(), dispatched) == Dispatch(old(View()), env, only)
    {
      ghost var before := View();
      if !HasFreeCapacity(env.hosts, env.available) {
        return None;
      }
      var priorities := SortedKeys(tiers.Keys);
      for n := 0 to |priorities|
        invariant Valid() && View() == before
        invariant forall m :: 0 <= m < n ==> NoneReady(before, priorities[m], env)
      {
        var priority := priorities[n];
        assert priority in priorities;
        var i := FirstReadyIn(priority, env);
        if i < |rotations[priority]| {
          var entry: Entry := tiers[priority][rotations[priority][i]][0];
          PickFound(before, env, priorities, n, i);
          if only.Some? && entry.requestId != only.value {
            return None;
          }
          PopHead(priority, i);
          return Some(entry.requestId);
        }
      }
      NothingReady(before, env, priorities);
      return None;
    }

    /** The first session of a rotation whose head has a free allowed host, or the rotation's length. */
    method FirstReadyIn(priority: int, env: Env<C>) returns (i: nat)
      requires Valid() && priority in rotations
      ensures i <= |rotations[priority]|
      ensures forall j :: 0 <= j < i ==> !Ready(View(), View().tiers[priority][j], env)
      ensures i < |rotations[priority]| ==> Ready(View(), View().tiers[priority][i], env)
    {
      var tier, rotation := tiers[priority], rotations[priority];
      ghost var lanes := View().tiers[priority];
      i := 0;
      while i < |rotation|
        invariant 0 <= i <= |rotation|
        invariant forall j :: 0 <= j < i ==> !Ready(View(), lanes[j], env)
      {
        var sessionId := rotation[i];
        assert lanes[i] == Lane(sessionId, tier[sessionId]);
        var entry: Entry := tier[sessionId][0];
        var allowed := if entry.requestId in eligibility then Some(env.answer(eligibility[entry.requestId]))
          else env.available;
        if HasFreeCapacity(env.hosts, allowed) {
          break;
        }
        i := i + 1;
      }
    }

    /** Pop the head of one session queue; its session goes to the back of the rotation, or leaves it. */
    method PopHead(priority: int, i: nat)
      requires Valid() && priority in rotations && i < |rotations[priority]|
      modifies this
      ensures Valid() && View() == Take(old(View()), priority, i)
    {
      TakeIsGood(View(), priority, i);
      var head: Entry := tiers[priority][rotations[priority][i]][0];
      eligibility := eligibility - {head.requestId};
      Rotate(priority, i);
    }

    method Rotate(priority: int, i: nat)
      requires Linked() && priority in rotations && i < |rotations[priority]|
      requires View().tiers[priority][i].entries != []
      modifies this`tiers, this`rotations
      ensures Linked()
      ensures View() == Queue(old(View()).tiers[priority := Serve(old(View()).tiers[priority], i)], eligibility)
    {
      var tier, rotation := tiers[priority], rotations[priority];
      var sessionId := rotation[i];
      LanesAfterServe(tier, rotation, i);
      var rest := tier[sessionId][1..];
      var others := rotation[..i] + rotation[i + 1..];
      if rest != [] {
        SetTier(priority, tier[sessionId := rest], others + [sessionId]);
      } else {
        SetTier(priority, tier - {sessionId}, others);
      }
    }
  }

  ghost predicate NoneReady<C>(q: Queue<C>, p: int, env: Env<C>) {
    p in q.tiers ==> forall j :: 0 <= j < |q.tiers[p]| ==> !Ready(q, q.tiers[p][j], env)
  }

  lemma NothingReady<C>(q: Queue<C>, env: Env<C>, priorities: seq<int>)
    requires forall p :: p in priorities <==> p in q.tiers
    requires forall m :: 0 <= m < |priorities| ==> NoneReady(q, priorities[m], env)
    ensures !SomePick(q, env)
  {
    forall p, i: nat ensures !IsPick(q, env, p, i) {
      if p in priorities {
        var m :| 0 <= m < |priorities| && priorities[m] == p;
        assert NoneReady(q, p, env);
      }
    }
  }

  lemma PickFound<C>(q: Queue<C>, env: Env<C>, priorities: seq<int>, n: nat, i: nat)
    requires n < |priorities| && forall p :: p in priorities <==> p in q.tiers
    requires forall i, j :: 0 <= i < j < |priorities| ==> priorities[i] < priorities[j]
    requires forall m :: 0 <= m < n ==> NoneReady(q, priorities[m], env)
    requires priorities[n] in q.tiers && i < |q.tiers[priorities[n]]| && Ready(q, q.tiers[priorities[n]][i], env)
    requires forall j :: 0 <= j < i ==> !Ready(q, q.tiers[priorities[n]][j], env)
    ensures IsPick(q, env, priorities[n], i) && SomePick(q, env) && Pick(q, env) == (priorities[n], i)
  {
    forall p', j | p' in q.tiers && p' < priorities[n] && 0 <= j < |q.tiers[p']|
      ensures !Ready(q, q.tiers[p'][j], env)
    {
      assert p' in priorities;
      var m :| 0 <= m < |priorities| && priorities[m] == p';
      assert m < n;
    }
    PickIsUnique(q, env, priorities[n], i);
  }

  method IndexOf(names: seq<SessionId>, s: SessionId) returns (i: nat)
    requires s in names
    ensures i < |names| && names[i] == s && forall j :: 0 <= j < i ==> names[j] != s
  {
    i := 0;
    while names[i] != s
      invariant i < |names| && forall j :: 0 <= j < i ==> names[j] != s
      decreases |names| - i
    {
      i := i + 1;
    }
  }

  lemma EnqueueIsGood<C>(q: Queue<C>, e: Entry, callback: Option<C>)
    requires Good(q)
    ensures Good(Enqueue(q, e, callback))
  {
    assert GoodLanes(e.priority, LanesOf(q, e.priority));
    assert GoodLanes(e.priority, AddEntry(LanesOf(q, e.priority), e));
  }

  lemma CancelIsGood<C>(q: Queue<C>, r: RequestId, s: SessionId, p: int)
    requires Good(q)
    ensures Good(Cancel(q, r, s, p))
  {
    if p in q.tiers {
      var lanes := q.tiers[p];
      var i := Find(lanes, s);
      if i < |lanes| {
        var kept := Without(lanes[i].entries, r);
        forall k | 0 <= k < |kept| ensures kept[k].sessionId == s && kept[k].priority == p {
          assert kept[k] in lanes[i].entries;
        }
        assert GoodLanes(p, RemoveEntry(lanes, s, r));
      }
    }
  }

  lemma TakeIsGood<C>(q: Queue<C>, p: int, i: nat)
    requires Good(q) && p in q.tiers && i < |q.tiers[p]|
    ensures Good(Take(q, p, i))
  {
    assert GoodLanes(p, q.tiers[p]);
    assert GoodLanes(p, Serve(q.tiers[p], i));
  }
}
