/** The in-memory metrics registry's rolling window (observability/metrics.py). */
module Metrics {
  import opened Basics
  import opened Percentiles
  import opened Windows

  datatype Request = Request(status: int, latency: int)

  type Sample = Timed<Request>

  datatype Call = Requested(endpoint: string, sample: Sample) | FailedOver(outcome: Timed<bool>) | Looked(at: int)

  datatype Sli = Sli(availability: real, p95Latency: int, failoverSuccessRate: Option<real>)

  // ---------------------------------------------------------------- specification

  function CallTime(call: Call): int {
    match call
    case Requested(_, sample) => sample.at
    case FailedOver(outcome) => outcome.at
    case Looked(at) => at
  }

  ghost predicate CallsInOrder(calls: seq<Call>) {
    forall i, j :: 0 <= i <= j < |calls| ==> CallTime(calls[i]) <= CallTime(calls[j])
  }

  /** What one endpoint's deque goes through: its own requests and every look. */
  function OpOn(call: Call, e: string): seq<Op<Request>> {
    match call
    case Requested(endpoint, sample) => if endpoint == e then [Push(sample)] else []
    case FailedOver(_) => []
    case Looked(at) => [Tick(at)]
  }

  function OpsOn(calls: seq<Call>, e: string): seq<Op<Request>> {
    if calls == [] then [] else OpsOn(calls[..|calls| - 1], e) + OpOn(calls[|calls| - 1], e)
  }

  function FailoverOp(call: Call): seq<Op<bool>> {
    match call
    case Requested(_, _) => []
    case FailedOver(outcome) => [Push(outcome)]
    case Looked(at) => [Tick(at)]
  }

  function FailoverOps(calls: seq<Call>): seq<Op<bool>> {
    if calls == [] then [] else FailoverOps(calls[..|calls| - 1]) + FailoverOp(calls[|calls| - 1])
  }

  /** Every request recorded, whatever its endpoint. */
  function AllRequests(calls: seq<Call>): seq<Sample> {
    if calls == [] then []
    else
      var call := calls[|calls| - 1];
      AllRequests(calls[..|calls| - 1]) + if call.Requested? then [call.sample] else []
  }

  datatype Question = Anything | NoServerError | LatencyAtMost(bound: int) | LatencyBelow(bound: int)

  predicate Meets(sample: Sample, q: Question) {
    match q
    case Anything => true
    case NoServerError => sample.value.status < 500
    case LatencyAtMost(v) => sample.value.latency <= v
    case LatencyBelow(v) => sample.value.latency < v
  }

  function Tally(samples: seq<Sample>, q: Question): nat {
    if samples == [] then 0 else Tally(samples[1..], q) + if Meets(samples[0], q) then 1 else 0
  }

  function Latencies(samples: seq<Sample>): (r: seq<int>)
    ensures |r| == |samples|
  {
    if samples == [] then [] else [samples[0].value.latency] + Latencies(samples[1..])
  }

  function Successes(outcomes: seq<Timed<bool>>): nat {
    if outcomes == [] then 0 else Successes(outcomes[1..]) + if outcomes[0].value then 1 else 0
  }

  /** The figures over a list of samples and of failover outcomes. */
  function SliOf(samples: seq<Sample>, failovers: seq<Timed<bool>>): Sli {
    Sli(if samples == [] then 1.0 else Tally(samples, NoServerError) as real / |samples| as real,
        if samples == [] then 0 else Percentile(Latencies(samples), 95),
        if failovers == [] then None else Some(Successes(failovers) as real / |failovers| as real))
  }

  // ---------------------------------------------------------------- order of the samples does not matter

  ghost predicate SameTallies(a: seq<Sample>, b: seq<Sample>) {
    forall q :: Tally(a, q) == Tally(b, q)
  }

  lemma {:induction false} TallyCounts(samples: seq<Sample>, v: int)
    ensures Tally(samples, Anything) == |samples|
    ensures Tally(samples, LatencyAtMost(v)) == AtMostCount(Latencies(samples), v)
    ensures Tally(samples, LatencyBelow(v)) == BelowCount(Latencies(samples), v)
  {
    if samples != [] {
      TallyCounts(samples[1..], v);
      assert Latencies(samples)[1..] == Latencies(samples[1..]);
    }
  }

  /** The figures depend on the samples only, not on the order endpoints are gone through. */
  lemma SameTalliesSameFigures(a: seq<Sample>, b: seq<Sample>, failovers: seq<Timed<bool>>)
    requires SameTallies(a, b)
    ensures SliOf(a, failovers) == SliOf(b, failovers)
  {
    TallyCounts(a, 0);
    TallyCounts(b, 0);
    assert Tally(a, Anything) == Tally(b, Anything);
    assert Tally(a, NoServerError) == Tally(b, NoServerError);
    if a != [] {
      var x, y := Latencies(a), Latencies(b);
      var v := Percentile(x, 95);
      PercentileIsNearestRank(x, 95);
      TallyCounts(a, v);
      TallyCounts(b, v);
      assert Tally(a, LatencyAtMost(v)) == Tally(b, LatencyAtMost(v));
      assert Tally(a, LatencyBelow(v)) == Tally(b, LatencyBelow(v));
      PercentileIsNearestRank(y, 95);
      NearestRankIsUnique(y, 95, v, Percentile(y, 95));
    }
  }

  // ---------------------------------------------------------------- endpoints split the samples

  lemma {:induction false} TallyAppend(a: seq<Sample>, b: seq<Sample>, q: Question)
    ensures Tally(a + b, q) == Tally(a, q) + Tally(b, q)
  {
    if a == [] {
      assert a + b == b;
    } else {
      TallyAppend(a[1..], b, q);
      assert (a + b)[1..] == a[1..] + b;
    }
  }

  /** The samples of the window on one endpoint that answer a question. */
  ghost function TallyOn(e: string, calls: seq<Call>, at: int, window: int, q: Question): nat {
    Tally(InWindow(Pushed(OpsOn(calls, e)), at, window), q)
  }

  ghost function TallyOver(es: seq<string>, calls: seq<Call>, at: int, window: int, q: Question): nat {
    if es == [] then 0 else TallyOn(es[0], calls, at, window, q) + TallyOver(es[1..], calls, at, window, q)
  }

  function Young(sample: Sample, at: int, window: int, q: Question): nat {
    if at - sample.at <= window && Meets(sample, q) then 1 else 0
  }

  lemma WindowOfMore(samples: seq<Sample>, more: Sample, at: int, window: int, q: Question)
    ensures Tally(InWindow(samples + [more], at, window), q) == Tally(InWindow(samples, at, window), q) + Young(more, at, window, q)
  {
    InWindowAppend(samples, [more], at, window);
    TallyAppend(InWindow(samples, at, window), InWindow([more], at, window), q);
  }

  lemma OneMoreOn(e: string, calls: seq<Call>, call: Call, at: int, window: int, q: Question)
    ensures TallyOn(e, calls + [call], at, window, q) ==
            TallyOn(e, calls, at, window, q) + if call.Requested? && call.endpoint == e then Young(call.sample, at, window, q) else 0
  {
    var ops := OpsOn(calls, e);
    assert (calls + [call])[..|calls|] == calls;
    assert OpsOn(calls + [call], e) == ops + OpOn(call, e);
    if OpOn(call, e) != [] {
      assert (ops + OpOn(call, e))[..|ops|] == ops;
      if call.Requested? {
        WindowOfMore(Pushed(ops), call.sample, at, window, q);
      } else {
        assert Pushed(ops + OpOn(call, e)) == Pushed(ops);
      }
    } else {
      assert ops + OpOn(call, e) == ops;
    }
  }

  /** n for every place of e in the list. */
  ghost function AddedAt(es: seq<string>, e: string, n: nat): nat {
    if es == [] then 0 else (if es[0] == e then n else 0) + AddedAt(es[1..], e, n)
  }

  lemma {:induction false} AddedOnce(es: seq<string>, e: string, n: nat)
    requires NoDup(es)
    ensures AddedAt(es, e, n) == if e in es then n else 0
  {
    if es != [] {
      assert NoDup(es[1..]) && es[0] !in es[1..];
      AddedOnce(es[1..], e, n);
      assert es == [es[0]] + es[1..];
    }
  }

  lemma {:induction false} OneMoreOver(es: seq<string>, calls: seq<Call>, call: Call, at: int, window: int, q: Question)
    ensures TallyOver(es, calls + [call], at, window, q) ==
            TallyOver(es, calls, at, window, q) + if call.Requested? then AddedAt(es, call.endpoint, Young(call.sample, at, window, q)) else 0
  {
    if es != [] {
      OneMoreOn(es[0], calls, call, at, window, q);
      OneMoreOver(es[1..], calls, call, at, window, q);
    }
  }

  ghost predicate Covers(es: seq<string>, calls: seq<Call>) {
    forall i :: 0 <= i < |calls| && calls[i].Requested? ==> calls[i].endpoint in es
  }

  /** Adding up over the endpoints counts every recent sample once. */
  lemma {:induction false} EndpointsSplitTheWindow(es: seq<string>, calls: seq<Call>, at: int, window: int, q: Question)
    requires NoDup(es) && Covers(es, calls)
    ensures TallyOver(es, calls, at, window, q) == Tally(InWindow(AllRequests(calls), at, window), q)
  {
    if calls == [] {
      NothingYet(es, at, window, q);
    } else {
      var init, call := calls[..|calls| - 1], calls[|calls| - 1];
      assert calls == init + [call];
      assert Covers(es, init);
      EndpointsSplitTheWindow(es, init, at, window, q);
      OneMoreOver(es, init, call, at, window, q);
      if call.Requested? {
        AddedOnce(es, call.endpoint, Young(call.sample, at, window, q));
        WindowOfMore(AllRequests(init), call.sample, at, window, q);
      } else {
        assert AllRequests(calls) == AllRequests(init);
      }
    }
  }

  lemma {:induction false} NothingYet(es: seq<string>, at: int, window: int, q: Question)
    ensures TallyOver(es, [], at, window, q) == 0
  {
    if es != [] {
      NothingYet(es[1..], at, window, q);
    }
  }

  // ---------------------------------------------------------------- the deques follow the calls

  /** In order, and all over by a given time. */
  ghost predicate InOrderUpTo<T>(ops: seq<Op<T>>, end: int) {
    InOrder(ops) && forall i :: 0 <= i < |ops| ==> TimeOf(ops[i]) <= end
  }

  lemma OneMoreInOrder<T>(ops: seq<Op<T>>, more: seq<Op<T>>, end: int, later: int)
    requires InOrderUpTo(ops, end) && end <= later
    requires |more| <= 1 && (more != [] ==> TimeOf(more[0]) == later)
    ensures InOrderUpTo(ops + more, later)
  {
  }

  lemma {:induction false} OpsInOrder(calls: seq<Call>, e: string)
    requires CallsInOrder(calls) && calls != []
    ensures InOrderUpTo(OpsOn(calls, e), CallTime(calls[|calls| - 1]))
    ensures InOrderUpTo(FailoverOps(calls), CallTime(calls[|calls| - 1]))
  {
    var init, call := calls[..|calls| - 1], calls[|calls| - 1];
    var end := if init == [] then CallTime(call) else CallTime(init[|init| - 1]);
    assert CallsInOrder(init);
    if init != [] {
      OpsInOrder(init, e);
    }
    OneMoreInOrder(OpsOn(init, e), OpOn(call, e), end, CallTime(call));
    OneMoreInOrder(FailoverOps(init), FailoverOp(call), end, CallTime(call));
  }

  function Held(requests: map<string, seq<Sample>>, e: string): seq<Sample> {
    if e in requests then requests[e] else []
  }

  /** The deques hold what the calls so far put there. */
  ghost predicate Tracks(window: int, endpoints: seq<string>, requests: map<string, seq<Sample>>, calls: seq<Call>) {
    && NoDup(endpoints) && Covers(endpoints, calls)
    && (forall e :: e in endpoints <==> e in requests)
    && forall e :: Held(requests, e) == DequeAfter(OpsOn(calls, e), window)
  }

  function AfterCall(deque: seq<Sample>, call: Call, e: string, window: int): seq<Sample> {
    match call
    case Requested(endpoint, sample) => if endpoint == e then Evict(deque + [sample], sample.at, window) else deque
    case FailedOver(_) => deque
    case Looked(at) => Evict(deque, at, window)
  }

  function FailoversAfter(deque: seq<Timed<bool>>, call: Call, window: int): seq<Timed<bool>> {
    match call
    case Requested(_, _) => deque
    case FailedOver(outcome) => Evict(deque + [outcome], outcome.at, window)
    case Looked(at) => Evict(deque, at, window)
  }

  lemma DequeStep(calls: seq<Call>, call: Call, e: string, window: int)
    ensures DequeAfter(OpsOn(calls + [call], e), window) == AfterCall(DequeAfter(OpsOn(calls, e), window), call, e, window)
  {
    var ops := OpsOn(calls, e);
    assert (calls + [call])[..|calls|] == calls;
    assert OpsOn(calls + [call], e) == ops + OpOn(call, e);
    if OpOn(call, e) != [] {
      assert (ops + OpOn(call, e))[..|ops|] == ops;
    } else {
      assert ops + OpOn(call, e) == ops;
    }
  }

  lemma FailoverStep(calls: seq<Call>, call: Call, window: int)
    ensures DequeAfter(FailoverOps(calls + [call]), window) == FailoversAfter(DequeAfter(FailoverOps(calls), window), call, window)
  {
    var ops := FailoverOps(calls);
    assert (calls + [call])[..|calls|] == calls;
    assert FailoverOps(calls + [call]) == ops + FailoverOp(call);
    if FailoverOp(call) != [] {
      assert (ops + FailoverOp(call))[..|ops|] == ops;
    } else {
      assert ops + FailoverOp(call) == ops;
    }
  }

  lemma TracksStep(window: int, endpoints: seq<string>, requests: map<string, seq<Sample>>, calls: seq<Call>,
                   call: Call, endpoints': seq<string>, requests': map<string, seq<Sample>>)
    requires Tracks(window, endpoints, requests, calls)
    requires endpoints' == if call.Requested? && call.endpoint !in endpoints then endpoints + [call.endpoint] else endpoints
    requires requests'.Keys == requests.Keys + if call.Requested? then {call.endpoint} else {}
    requires forall e :: Held(requests', e) == AfterCall(Held(requests, e), call, e, window)
    ensures Tracks(window, endpoints', requests', calls + [call])
  {
    assert NoDup(endpoints') && Covers(endpoints', calls + [call]);
    forall e ensures e in endpoints' <==> e in requests' {
      assert e in requests' <==> e in requests'.Keys;
      assert e in endpoints <==> e in requests;
    }
    forall e ensures Held(requests', e) == DequeAfter(OpsOn(calls + [call], e), window) {
      DequeStep(calls, call, e, window);
    }
  }

  lemma RecordTracks(window: int, endpoints: seq<string>, requests: map<string, seq<Sample>>, calls: seq<Call>, e: string, sample: Sample)
    requires Tracks(window, endpoints, requests, calls)
    ensures Tracks(window, if e in requests then endpoints else endpoints + [e],
                   requests[e := Evict(Held(requests, e) + [sample], sample.at, window)], calls + [Requested(e, sample)])
  {
    var kept := Evict(Held(requests, e) + [sample], sample.at, window);
    assert e in requests <==> e in endpoints;
    TracksStep(window, endpoints, requests, calls, Requested(e, sample),
               if e in requests then endpoints else endpoints + [e], requests[e := kept]);
  }

  /** All samples held, endpoint by endpoint. */
  function Gathered(es: seq<string>, requests: map<string, seq<Sample>>): seq<Sample> {
    if es == [] then [] else Held(requests, es[0]) + Gathered(es[1..], requests)
  }

  lemma {:induction false} GatheredIsTheWindow(es: seq<string>, requests: map<string, seq<Sample>>, calls: seq<Call>, at: int, window: int, q: Question)
    requires forall i :: 0 <= i < |es| ==> Held(requests, es[i]) == InWindow(Pushed(OpsOn(calls, es[i])), at, window)
    ensures Tally(Gathered(es, requests), q) == TallyOver(es, calls, at, window, q)
  {
    if es != [] {
      GatheredIsTheWindow(es[1..], requests, calls, at, window, q);
      TallyAppend(Held(requests, es[0]), Gathered(es[1..], requests), q);
    }
  }

  /** After a look, with clock readings that never went back, the figures are those of the whole
      history's samples and outcomes of age at most the window. */
  lemma FiguresAreExact(window: int, endpoints: seq<string>, requests: map<string, seq<Sample>>, calls: seq<Call>, at: int)
    requires calls != [] && calls[|calls| - 1] == Looked(at) && CallsInOrder(calls)
    requires Tracks(window, endpoints, requests, calls)
    ensures SliOf(Gathered(endpoints, requests), DequeAfter(FailoverOps(calls), window)) ==
            SliOf(InWindow(AllRequests(calls), at, window), InWindow(Pushed(FailoverOps(calls)), at, window))
  {
    OpsInOrder(calls, "");
    DequeIsExact(FailoverOps(calls), window);
    forall i | 0 <= i < |endpoints|
      ensures Held(requests, endpoints[i]) == InWindow(Pushed(OpsOn(calls, endpoints[i])), at, window)
    {
      OpsInOrder(calls, endpoints[i]);
      DequeIsExact(OpsOn(calls, endpoints[i]), window);
    }
    var held, whole := Gathered(endpoints, requests), InWindow(AllRequests(calls), at, window);
    forall q ensures Tally(held, q) == Tally(whole, q) {
      GatheredIsTheWindow(endpoints, requests, calls, at, window, q);
      EndpointsSplitTheWindow(endpoints, calls, at, window, q);
    }
    SameTalliesSameFigures(held, whole, DequeAfter(FailoverOps(calls), window));
  }

  // ---------------------------------------------------------------- the registry

  method EvictOld<T>(entries: seq<Timed<T>>, at: int, window: int) returns (kept: seq<Timed<T>>)
    ensures kept == Evict(entries, at, window)
  {
    kept := entries;
    while kept != [] && at - kept[0].at > window
      invariant Evict(kept, at, window) == Evict(entries, at, window)
    {
      kept := kept[1..];
    }
  }

  method GatherAll(endpoints: seq<string>, requests: map<string, seq<Sample>>) returns (samples: seq<Sample>)
    ensures samples == Gathered(endpoints, requests)
  {
    samples := [];
    for i := 0 to |endpoints|
      invariant samples + Gathered(endpoints[i..], requests) == Gathered(endpoints, requests)
    {
      assert endpoints[i..][1..] == endpoints[i + 1..];
      samples := samples + Held(requests, endpoints[i]);
    }
  }

  class MetricsRegistry {
    const window: int
    /** Endpoints in the order they were first seen. */
    var endpoints: seq<string>
    var requests: map<string, seq<Sample>>
    var failovers: seq<Timed<bool>>
    /** Every call so far. */
    ghost var calls: seq<Call>

    ghost predicate Valid()
      reads this
    {
      && Tracks(window, endpoints, requests, calls)
      && failovers == DequeAfter(FailoverOps(calls), window)
    }

    constructor (window: int)
      ensures Valid() && this.window == window && calls == []
    {
      this.window := window;
      endpoints, requests, failovers, calls := [], map[], [], [];
    }

    method RecordRequest(endpoint: string, status: int, latency: int, at: int)
      requires Valid()
      modifies this
      ensures Valid() && calls == old(calls) + [Requested(endpoint, Timed(Request(status, latency), at))]
    {
      ghost var call := Requested(endpoint, Timed(Request(status, latency), at));
      var samples := Held(requests, endpoint) + [Timed(Request(status, latency), at)];
      var kept := EvictOld(samples, at, window);
      RecordTracks(window, endpoints, requests, calls, endpoint, Timed(Request(status, latency), at));
      if endpoint !in requests {
        endpoints := endpoints + [endpoint];
      }
      requests := requests[endpoint := kept];
      FailoverStep(calls, call, window);
      calls := calls + [call];
    }

    method RecordFailoverOutcome(succeeded: bool, at: int)
      requires Valid()
      modifies this
      ensures Valid() && calls == old(calls) + [FailedOver(Timed(succeeded, at))]
    {
      ghost var call := FailedOver(Timed(succeeded, at));
      failovers := EvictOld(failovers + [Timed(succeeded, at)], at, window);
      FailoverStep(calls, call, window);
      TracksStep(window, old(endpoints), old(requests), calls, call, endpoints, requests);
      calls := calls + [call];
    }

    method EvictAll(at: int)
      requires Valid()
      modifies this`requests
      ensures requests.Keys == old(requests).Keys
      ensures forall e :: Held(requests, e) == Evict(old(Held(requests, e)), at, window)
    {
      ghost var before := requests;
      for i := 0 to |endpoints|
        invariant requests.Keys == before.Keys
        invariant forall j :: 0 <= j < i ==> requests[endpoints[j]] == Evict(before[endpoints[j]], at, window)
        invariant forall j :: i <= j < |endpoints| ==> requests[endpoints[j]] == before[endpoints[j]]
      {
        var kept := EvictOld(requests[endpoints[i]], at, window);
        requests := requests[endpoints[i] := kept];
      }
      forall e ensures Held(requests, e) == Evict(Held(before, e), at, window) {
        if e in before {
          assert e in endpoints;
        }
      }
    }

    method Snapshot(at: int) returns (sli: Sli)
      requires Valid()
      modifies this
      ensures Valid() && calls == old(calls) + [Looked(at)]
      ensures sli == SliOf(Gathered(endpoints, requests), failovers)
      ensures CallsInOrder(calls) ==>
        sli == SliOf(InWindow(AllRequests(calls), at, window), InWindow(Pushed(FailoverOps(calls)), at, window))
    {
      ghost var call := Looked(at);
      EvictAll(at);
      var samples := GatherAll(endpoints, requests);
      failovers := EvictOld(failovers, at, window);
      FailoverStep(calls, call, window);
      TracksStep(window, old(endpoints), old(requests), calls, call, endpoints, requests);
      calls := calls + [call];
      sli := SliOf(samples, failovers);
      if CallsInOrder(calls) {
        FiguresAreExact(window, endpoints, requests, calls, at);
      }
    }
  }
}
