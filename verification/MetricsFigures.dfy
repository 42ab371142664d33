/** What the registry's figures say of the calls themselves, counted over the whole history. */
module MetricsFigures {
  import opened Basics
  import opened Metrics
  import opened Percentiles
  import opened Windows

  // ---------------------------------------------------------------- which calls count

  /** A request recorded no longer ago than the window. */
  function RecentRequest(at: int, window: int): Call -> bool {
    (c: Call) => c.Requested? && at - c.sample.at <= window
  }

  /** One of those answered with a status below 500. */
  function RecentFine(at: int, window: int): Call -> bool {
    (c: Call) => c.Requested? && at - c.sample.at <= window && c.sample.value.status < 500
  }

  function RecentNoSlower(at: int, window: int, latency: int): Call -> bool {
    (c: Call) => c.Requested? && at - c.sample.at <= window && c.sample.value.latency <= latency
  }

  function RecentFaster(at: int, window: int, latency: int): Call -> bool {
    (c: Call) => c.Requested? && at - c.sample.at <= window && c.sample.value.latency < latency
  }

  /** A failover outcome recorded no longer ago than the window. */
  function RecentOutcome(at: int, window: int): Call -> bool {
    (c: Call) => c.FailedOver? && at - c.outcome.at <= window
  }

  function RecentSuccess(at: int, window: int): Call -> bool {
    (c: Call) => c.FailedOver? && at - c.outcome.at <= window && c.outcome.value
  }

  // ---------------------------------------------------------------- counting requests

  function Asked(at: int, window: int, q: Question): Call -> bool {
    (c: Call) => c.Requested? && Young(c.sample, at, window, q) == 1
  }

  lemma TallyOfMore(calls: seq<Call>, call: Call, at: int, window: int, q: Question)
    ensures Tally(InWindow(AllRequests(calls + [call]), at, window), q) ==
            Tally(InWindow(AllRequests(calls), at, window), q) + if Asked(at, window, q)(call) then 1 else 0
  {
    assert (calls + [call])[..|calls|] == calls;
    if call.Requested? {
      WindowOfMore(AllRequests(calls), call.sample, at, window, q);
    } else {
      assert AllRequests(calls + [call]) == AllRequests(calls);
    }
  }

  lemma {:induction false} RequestsAreTallied(calls: seq<Call>, at: int, window: int, q: Question)
    ensures Tally(InWindow(AllRequests(calls), at, window), q) == |Places(calls, Asked(at, window, q))|
  {
    if calls == [] {
      NoPlaces(Asked(at, window, q));
    } else {
      var n := |calls| - 1;
      assert calls == calls[..n] + [calls[n]];
      RequestsAreTallied(calls[..n], at, window, q);
      TallyOfMore(calls[..n], calls[n], at, window, q);
      PlacesOfMore(calls[..n], calls[n], Asked(at, window, q));
    }
  }

  lemma AllTallied(calls: seq<Call>, at: int, window: int)
    ensures |InWindow(AllRequests(calls), at, window)| == |Places(calls, RecentRequest(at, window))|
  {
    TallyCounts(InWindow(AllRequests(calls), at, window), 0);
    RequestsAreTallied(calls, at, window, Anything);
    SamePlaces(calls, Asked(at, window, Anything), RecentRequest(at, window));
  }

  lemma FineTallied(calls: seq<Call>, at: int, window: int)
    ensures Tally(InWindow(AllRequests(calls), at, window), NoServerError) == |Places(calls, RecentFine(at, window))|
  {
    RequestsAreTallied(calls, at, window, NoServerError);
    SamePlaces(calls, Asked(at, window, NoServerError), RecentFine(at, window));
  }

  lemma NoSlowerTallied(calls: seq<Call>, at: int, window: int, latency: int)
    ensures AtMostCount(Latencies(InWindow(AllRequests(calls), at, window)), latency) == |Places(calls, RecentNoSlower(at, window, latency))|
  {
    TallyCounts(InWindow(AllRequests(calls), at, window), latency);
    RequestsAreTallied(calls, at, window, LatencyAtMost(latency));
    SamePlaces(calls, Asked(at, window, LatencyAtMost(latency)), RecentNoSlower(at, window, latency));
  }

  lemma FasterTallied(calls: seq<Call>, at: int, window: int, latency: int)
    ensures BelowCount(Latencies(InWindow(AllRequests(calls), at, window)), latency) == |Places(calls, RecentFaster(at, window, latency))|
  {
    TallyCounts(InWindow(AllRequests(calls), at, window), latency);
    RequestsAreTallied(calls, at, window, LatencyBelow(latency));
    SamePlaces(calls, Asked(at, window, LatencyBelow(latency)), RecentFaster(at, window, latency));
  }

  // ---------------------------------------------------------------- counting failovers

  lemma {:induction false} SuccessesAppend(a: seq<Timed<bool>>, b: seq<Timed<bool>>)
    ensures Successes(a + b) == Successes(a) + Successes(b)
  {
    if a == [] {
      assert a + b == b;
    } else {
      SuccessesAppend(a[1..], b);
      assert (a + b)[1..] == a[1..] + b;
    }
  }

  /** Everything in the window of the failover outcomes. */
  function OutcomesIn(calls: seq<Call>, at: int, window: int): seq<Timed<bool>> {
    InWindow(Pushed(FailoverOps(calls)), at, window)
  }

  lemma PushedFailovers(calls: seq<Call>, call: Call)
    ensures Pushed(FailoverOps(calls + [call])) == Pushed(FailoverOps(calls)) + if call.FailedOver? then [call.outcome] else []
  {
    var ops, more := FailoverOps(calls), FailoverOp(call);
    assert (calls + [call])[..|calls|] == calls;
    if more != [] {
      assert (ops + more)[..|ops|] == ops;
    } else {
      assert ops + more == ops;
    }
  }

  lemma OutcomesOfMore(calls: seq<Call>, call: Call, at: int, window: int)
    ensures OutcomesIn(calls + [call], at, window) ==
            OutcomesIn(calls, at, window) + if RecentOutcome(at, window)(call) then [call.outcome] else []
  {
    var more := if call.FailedOver? then [call.outcome] else [];
    PushedFailovers(calls, call);
    InWindowAppend(Pushed(FailoverOps(calls)), more, at, window);
    assert InWindow(more, at, window) == if RecentOutcome(at, window)(call) then [call.outcome] else [];
  }

  lemma {:induction false} OutcomesAreCounted(calls: seq<Call>, at: int, window: int)
    ensures |OutcomesIn(calls, at, window)| == |Places(calls, RecentOutcome(at, window))|
    ensures Successes(OutcomesIn(calls, at, window)) == |Places(calls, RecentSuccess(at, window))|
  {
    if calls == [] {
      NoPlaces(RecentOutcome(at, window));
      NoPlaces(RecentSuccess(at, window));
    } else {
      var n := |calls| - 1;
      var more := if RecentOutcome(at, window)(calls[n]) then [calls[n].outcome] else [];
      assert calls == calls[..n] + [calls[n]];
      OutcomesAreCounted(calls[..n], at, window);
      OutcomesOfMore(calls[..n], calls[n], at, window);
      SuccessesAppend(OutcomesIn(calls[..n], at, window), more);
      PlacesOfMore(calls[..n], calls[n], RecentOutcome(at, window));
      PlacesOfMore(calls[..n], calls[n], RecentSuccess(at, window));
    }
  }

  // ---------------------------------------------------------------- the figures

  /** A share of a whole. */
  ghost predicate IsShare(share: real, part: nat, all: nat) { share * all as real == part as real }

  lemma Quotient(part: nat, all: nat)
    requires all > 0
    ensures IsShare(part as real / all as real, part, all)
  {
  }

  /** Without recent requests the availability is one and the latency zero; else the availability is
      the share of requests with a status below 500, and at least 95 percent of the requests were no
      slower than the latency while fewer were faster. */
  ghost predicate DescribesRequests(availability: real, p95: int, calls: seq<Call>, at: int, window: int) {
    var n := |Places(calls, RecentRequest(at, window))|;
    if n == 0 then availability == 1.0 && p95 == 0
    else
      && IsShare(availability, |Places(calls, RecentFine(at, window))|, n)
      && |Places(calls, RecentNoSlower(at, window, p95))| * 100 >= 95 * n
      && |Places(calls, RecentFaster(at, window, p95))| * 100 < 95 * n
  }

  /** Without recent outcomes there is no failover rate, else it is the share of successes. */
  ghost predicate DescribesFailovers(rate: Option<real>, calls: seq<Call>, at: int, window: int) {
    var n := |Places(calls, RecentOutcome(at, window))|;
    if n == 0 then rate == None else rate.Some? && IsShare(rate.value, |Places(calls, RecentSuccess(at, window))|, n)
  }

  lemma AvailabilityIsShare(samples: seq<Sample>, outcomes: seq<Timed<bool>>)
    requires samples != []
    ensures IsShare(SliOf(samples, outcomes).availability, Tally(samples, NoServerError), |samples|)
  {
    Quotient(Tally(samples, NoServerError), |samples|);
  }

  lemma RateIsShare(samples: seq<Sample>, outcomes: seq<Timed<bool>>)
    requires outcomes != []
    ensures SliOf(samples, outcomes).failoverSuccessRate.Some?
    ensures IsShare(SliOf(samples, outcomes).failoverSuccessRate.value, Successes(outcomes), |outcomes|)
  {
    Quotient(Successes(outcomes), |outcomes|);
  }

  lemma LatencyIsNearestRank(samples: seq<Sample>, outcomes: seq<Timed<bool>>)
    requires samples != []
    ensures var p95 := SliOf(samples, outcomes).p95Latency;
            && AtMostCount(Latencies(samples), p95) * 100 >= 95 * |samples|
            && BelowCount(Latencies(samples), p95) * 100 < 95 * |samples|
  {
    PercentileIsNearestRank(Latencies(samples), 95);
  }

  lemma RequestsDescribed(calls: seq<Call>, at: int, window: int, outcomes: seq<Timed<bool>>)
    ensures var sli := SliOf(InWindow(AllRequests(calls), at, window), outcomes);
            DescribesRequests(sli.availability, sli.p95Latency, calls, at, window)
  {
    var samples := InWindow(AllRequests(calls), at, window);
    var p95 := SliOf(samples, outcomes).p95Latency;
    AllTallied(calls, at, window);
    if samples != [] {
      FineTallied(calls, at, window);
      NoSlowerTallied(calls, at, window, p95);
      FasterTallied(calls, at, window, p95);
      AvailabilityIsShare(samples, outcomes);
      LatencyIsNearestRank(samples, outcomes);
    }
  }

  lemma FailoversDescribed(calls: seq<Call>, at: int, window: int, samples: seq<Sample>)
    ensures DescribesFailovers(SliOf(samples, OutcomesIn(calls, at, window)).failoverSuccessRate, calls, at, window)
  {
    OutcomesAreCounted(calls, at, window);
    if OutcomesIn(calls, at, window) != [] {
      RateIsShare(samples, OutcomesIn(calls, at, window));
    }
  }

  /** The figures of a snapshot are what their names say of the calls in its window. */
  lemma FiguresDescribeCalls(calls: seq<Call>, at: int, window: int)
    ensures var sli := SliOf(InWindow(AllRequests(calls), at, window), InWindow(Pushed(FailoverOps(calls)), at, window));
            && DescribesRequests(sli.availability, sli.p95Latency, calls, at, window)
            && DescribesFailovers(sli.failoverSuccessRate, calls, at, window)
  {
    RequestsDescribed(calls, at, window, OutcomesIn(calls, at, window));
    FailoversDescribed(calls, at, window, InWindow(AllRequests(calls), at, window));
  }
}
