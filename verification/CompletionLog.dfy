/** Completions per host behind the throughput figures (observability/completion_log.py).
    Times are microseconds. */
module Completions {
  import opened Basics

  const HOUR := 3_600_000_000
  const MIN_OBSERVED := 60_000_000

  // ---------------------------------------------------------------- specification

  function CountIn(times: seq<int>, after: int, upTo: int): nat {
    if times == [] then 0 else CountIn(times[1..], after, upTo) + if after < times[0] <= upTo then 1 else 0
  }

  function DropOld(times: seq<int>, cutoff: int): seq<int> {
    if times != [] && times[0] <= cutoff then DropOld(times[1..], cutoff) else times
  }

  /** What the log keeps of a host's completions, in the order they were recorded. */
  function Kept(window: int, times: seq<int>): seq<int> {
    if times == [] then []
    else
      var at := times[|times| - 1];
      DropOld(Kept(window, times[..|times| - 1]) + [at], at - window)
  }

  function Observed(window: int, startedAt: int, at: int): (observed: int)
    requires window > 0
    ensures 0 < observed <= window
    ensures at - startedAt >= window ==> observed == window
    ensures window >= MIN_OBSERVED ==> observed >= MIN_OBSERVED
  {
    Min(window, Max(at - startedAt, MIN_OBSERVED))
  }

  // ---------------------------------------------------------------- nothing counted is dropped

  lemma {:induction false} CountInAppend(a: seq<int>, b: seq<int>, after: int, upTo: int)
    ensures CountIn(a + b, after, upTo) == CountIn(a, after, upTo) + CountIn(b, after, upTo)
  {
    if a == [] {
      assert a + b == b;
    } else {
      CountInAppend(a[1..], b, after, upTo);
      assert (a + b)[1..] == a[1..] + b;
    }
  }

  lemma {:induction false} DroppedAreNotCounted(times: seq<int>, cutoff: int, after: int, upTo: int)
    ensures CountIn(DropOld(times, cutoff), after, upTo) <= CountIn(times, after, upTo)
    ensures cutoff <= after ==> CountIn(DropOld(times, cutoff), after, upTo) == CountIn(times, after, upTo)
  {
    if times != [] && times[0] <= cutoff {
      DroppedAreNotCounted(times[1..], cutoff, after, upTo);
    }
  }

  /** For a query no earlier than any record, what was dropped was already out of the window,
      whatever order the records came in; an earlier query can only miss some. */
  lemma {:induction false} CountIsExact(window: int, times: seq<int>, at: int)
    ensures CountIn(Kept(window, times), at - window, at) <= CountIn(times, at - window, at)
    ensures (forall t :: t in times ==> t <= at) ==>
      CountIn(Kept(window, times), at - window, at) == CountIn(times, at - window, at)
  {
    if times != [] {
      var init, last := times[..|times| - 1], times[|times| - 1];
      assert times == init + [last];
      assert last in times && forall t :: t in init ==> t in times;
      CountIsExact(window, init, at);
      CountInAppend(Kept(window, init), [last], at - window, at);
      CountInAppend(init, [last], at - window, at);
      DroppedAreNotCounted(Kept(window, init) + [last], last - window, at - window, at);
    }
  }

  lemma {:induction false} LaterCutoffDropsMore(times: seq<int>, more: seq<int>, earlier: int, later: int)
    requires earlier <= later
    ensures DropOld(DropOld(times, earlier) + more, later) == DropOld(times + more, later)
  {
    if times != [] && times[0] <= earlier {
      LaterCutoffDropsMore(times[1..], more, earlier, later);
      assert (times + more)[1..] == times[1..] + more;
    }
  }

  lemma KeptOfMore(window: int, times: seq<int>, at: int)
    ensures Kept(window, times + [at]) == DropOld(Kept(window, times) + [at], at - window)
  {
    assert (times + [at])[..|times|] == times;
  }

  /** With records in order the deque is the history without what the latest record made old. */
  lemma {:induction false} KeptInOrder(window: int, times: seq<int>)
    requires NonDecreasing(times) && times != []
    ensures Kept(window, times) == DropOld(times, times[|times| - 1] - window)
  {
    var n := |times| - 1;
    var init, last := times[..n], times[n];
    assert times == init + [last];
    KeptOfMore(window, init, last);
    if n > 0 {
      KeptInOrder(window, init);
      assert times[n - 1] <= last;
      LaterCutoffDropsMore(init, [last], times[n - 1] - window, last - window);
    }
  }

  /** Dropping from the head of an ordered list moves the lower end of what is counted. */
  lemma {:induction false} DropMovesLowerEnd(times: seq<int>, cutoff: int, after: int, upTo: int)
    requires NonDecreasing(times)
    ensures CountIn(DropOld(times, cutoff), after, upTo) == CountIn(times, Max(after, cutoff), upTo)
  {
    if times != [] {
      assert NonDecreasing(times[1..]);
      DropMovesLowerEnd(times[1..], cutoff, after, upTo);
      if times[0] > cutoff {
        assert forall t :: t in times ==> t > cutoff;
        SameAbove(times, after, Max(after, cutoff), upTo);
      }
    }
  }

  lemma {:induction false} SameAbove(times: seq<int>, after: int, higher: int, upTo: int)
    requires after <= higher && forall t :: t in times ==> t > higher || t <= after
    ensures CountIn(times, after, upTo) == CountIn(times, higher, upTo)
  {
    if times != [] {
      assert times[0] in times && forall t :: t in times[1..] ==> t in times;
      SameAbove(times[1..], after, higher, upTo);
    }
  }

  /** A recorded time that a query at `at` should count but that the latest record made old. */
  predicate IsMissed(window: int, last: int, at: int, t: int) { at - window < t <= at && t <= last - window }

  lemma {:induction false} HigherEndCountsFewer(times: seq<int>, after: int, higher: int, upTo: int)
    requires after <= higher
    ensures CountIn(times, higher, upTo) <= CountIn(times, after, upTo)
    ensures CountIn(times, higher, upTo) == CountIn(times, after, upTo)
            <==> forall t :: t in times ==> !(after < t <= higher && t <= upTo)
  {
    if times != [] {
      var rest := times[1..];
      HigherEndCountsFewer(rest, after, higher, upTo);
      assert times[0] in times && forall t :: t in times <==> t == times[0] || t in rest;
    }
  }

  /** With records in order a query is exact exactly when no time it should count is one window
      or more before the latest record. */
  lemma ExactWhenNoneMissed(window: int, times: seq<int>, at: int)
    requires NonDecreasing(times) && times != []
    ensures CountIn(Kept(window, times), at - window, at) == CountIn(times, at - window, at)
            <==> forall t :: t in times ==> !IsMissed(window, times[|times| - 1], at, t)
  {
    var last := times[|times| - 1];
    KeptInOrder(window, times);
    DropMovesLowerEnd(times, last - window, at - window, at);
    HigherEndCountsFewer(times, at - window, Max(at - window, last - window), at);
    forall t | t in times
      ensures IsMissed(window, last, at, t) <==> at - window < t <= Max(at - window, last - window) && t <= at
    {
    }
  }

  lemma KeptCountMeans(window: int, times: seq<int>, at: int)
    ensures var kept, all := CountIn(Kept(window, times), at - window, at), CountIn(times, at - window, at);
            && kept <= all
            && ((forall t :: t in times ==> t <= at) ==> kept == all)
            && (times != [] && NonDecreasing(times) ==>
                  (kept == all <==> forall t :: t in times ==> !IsMissed(window, times[|times| - 1], at, t)))
  {
    CountIsExact(window, times, at);
    if times != [] && NonDecreasing(times) {
      ExactWhenNoneMissed(window, times, at);
    }
  }

  /** Such a time: with 90 and 200 recorded, a query at 95 misses the first. */
  lemma EarlierQueryMisses()
    ensures var times := [90, 200];
            CountIn(Kept(10, times), 95 - 10, 95) == 0 && CountIn(times, 95 - 10, 95) == 1
  {
    KeptInOrder(10, [90, 200]);
    assert [90, 200][1..] == [200];
    assert DropOld([90, 200], 190) == DropOld([200], 190) == [200];
    assert CountIn([90, 200], 85, 95) == CountIn([200], 85, 95) + 1;
  }

  /** Completions per hour, when n were seen in the time observed. */
  function Rate(n: nat, observed: int): (rate: real)
    requires observed > 0
    ensures rate * observed as real == (n * HOUR) as real && rate >= 0.0
  {
    (n * HOUR) as real / observed as real
  }

  lemma RateGrows(n: nat, more: nat, observed: int)
    requires n <= more && observed > 0
    ensures Rate(n, observed) <= Rate(more, observed)
  {
    QuotientGrows((n * HOUR) as real, (more * HOUR) as real, observed as real);
  }

  lemma QuotientGrows(x: real, y: real, d: real)
    requires x <= y && d > 0.0
    ensures x / d <= y / d
  {
  }

  // ---------------------------------------------------------------- the rate told by the completions

  function Between(after: int, upTo: int): int -> bool { (t: int) => after < t <= upTo }

  lemma {:induction false} CountIsPlaces(times: seq<int>, after: int, upTo: int)
    ensures CountIn(times, after, upTo) == |Places(times, Between(after, upTo))|
  {
    if times == [] {
      NoPlaces(Between(after, upTo));
    } else {
      var n := |times| - 1;
      assert times == times[..n] + [times[n]];
      CountIsPlaces(times[..n], after, upTo);
      CountInAppend(times[..n], [times[n]], after, upTo);
      PlacesOfMore(times[..n], times[n], Between(after, upTo));
    }
  }

  /** So many completions in so much time, told per hour. */
  ghost predicate PerHour(rate: real, n: nat, time: int) { rate * time as real == (3_600_000_000 * n) as real }

  lemma RateIsPerHour(n: nat, observed: int)
    requires observed > 0
    ensures PerHour(Rate(n, observed), n, observed)
  {
  }

  /** The rate tells the completions in the window per hour of the time observed: the whole window once
      that has passed, before that what has passed, but from a minute on, and never more than the window. */
  lemma RateTellsCompletions(window: int, startedAt: int, times: seq<int>, at: int)
    requires window > 0
    ensures var n := |Places(times, Between(at - window, at))|;
            var rate := Rate(CountIn(times, at - window, at), Observed(window, startedAt, at));
            var passed := at - startedAt;
            && (window <= passed || window <= 60_000_000 ==> PerHour(rate, n, window))
            && (60_000_000 <= passed <= window ==> PerHour(rate, n, passed))
            && (passed <= 60_000_000 <= window ==> PerHour(rate, n, 60_000_000))
  {
    CountIsPlaces(times, at - window, at);
    RateIsPerHour(CountIn(times, at - window, at), Observed(window, startedAt, at));
  }

  /** For a window of one hour that has passed the rate is the plain count; in the first minute it
      is sixty times the count. */
  lemma RateOfOneHour(startedAt: int, times: seq<int>, at: int)
    ensures var rate := Rate(CountIn(times, at - 3_600_000_000, at), Observed(3_600_000_000, startedAt, at));
            var n := |Places(times, Between(at - 3_600_000_000, at))|;
            && (at - startedAt >= 3_600_000_000 ==> rate == n as real)
            && (at - startedAt <= 60_000_000 ==> rate == (60 * n) as real)
  {
    CountIsPlaces(times, at - 3_600_000_000, at);
  }

  // ---------------------------------------------------------------- the log

  method DropHeads(times: seq<int>, cutoff: int) returns (rest: seq<int>)
    ensures rest == DropOld(times, cutoff)
  {
    rest := times;
    while rest != [] && rest[0] <= cutoff
      invariant DropOld(rest, cutoff) == DropOld(times, cutoff)
    {
      rest := rest[1..];
    }
  }

  class CompletionLog {
    const window: int
    const startedAt: int
    var completions: map<HostId, seq<int>>
    /** Every completion recorded, per host. */
    ghost var recorded: map<HostId, seq<int>>

    ghost predicate Valid()
      reads this
    {
      && window > 0 && recorded.Keys == completions.Keys
      && forall h :: h in completions ==> completions[h] == Kept(window, recorded[h])
    }

    ghost function Recorded(hostId: HostId): seq<int>
      reads this
    {
      if hostId in recorded then recorded[hostId] else []
    }

    constructor (window: int, now: int)
      requires window > 0
      ensures Valid() && this.window == window && startedAt == now && recorded == map[]
    {
      this.window, startedAt, completions, recorded := window, now, map[], map[];
    }

    /** Opening a log over a window that is not positive is refused. */
    static method Open(window: int, now: int) returns (log: Option<CompletionLog>)
      ensures log.Some? <==> window > 0
      ensures log.Some? ==> fresh(log.value) && log.value.Valid() && log.value.window == window && log.value.recorded == map[]
    {
      if window <= 0 {
        return None;
      }
      var created := new CompletionLog(window, now);
      return Some(created);
    }

    method Record(hostId: HostId, at: int)
      requires Valid()
      modifies this
      ensures Valid() && recorded == old(recorded)[hostId := old(Recorded(hostId)) + [at]]
    {
      ghost var before := Recorded(hostId);
      var times := DropHeads((if hostId in completions then completions[hostId] else []) + [at], at - window);
      KeptOfMore(window, before, at);
      assert times == Kept(window, before + [at]);
      completions := completions[hostId := times];
      recorded := recorded[hostId := before + [at]];
    }

    /** The count over the deque; exact for a query no earlier than any record and, with records in
        order, exactly when no time it should count is missed; never too large. */
    method Count(hostId: HostId, at: int) returns (count: nat)
      requires Valid()
      ensures count == CountIn(Kept(window, Recorded(hostId)), at - window, at)
      ensures count <= CountIn(Recorded(hostId), at - window, at)
      ensures (forall t :: t in Recorded(hostId) ==> t <= at) ==> count == CountIn(Recorded(hostId), at - window, at)
      ensures Recorded(hostId) != [] && NonDecreasing(Recorded(hostId)) ==>
        (count == CountIn(Recorded(hostId), at - window, at) <==>
         forall t :: t in Recorded(hostId) ==> !IsMissed(window, Recorded(hostId)[|Recorded(hostId)| - 1], at, t))
    {
      KeptCountMeans(window, Recorded(hostId), at);
      count := CountKept(hostId, at);
    }

    method CountKept(hostId: HostId, at: int) returns (count: nat)
      requires Valid()
      ensures count == CountIn(Kept(window, Recorded(hostId)), at - window, at)
    {
      var times := if hostId in completions then completions[hostId] else [];
      count := 0;
      for i := 0 to |times|
        invariant count + CountIn(times[i..], at - window, at) == CountIn(times, at - window, at)
      {
        assert times[i..][1..] == times[i + 1..];
        if at - window < times[i] <= at {
          count := count + 1;
        }
      }
    }

    /** The rate is over the time observed; after a full window it is the plain count per window. */
    method TasksPerHour(hostId: HostId, at: int) returns (rate: real)
      requires Valid()
      ensures rate == Rate(CountIn(Kept(window, Recorded(hostId)), at - window, at), Observed(window, startedAt, at))
      ensures rate <= Rate(CountIn(Recorded(hostId), at - window, at), Observed(window, startedAt, at))
      ensures (forall t :: t in Recorded(hostId) ==> t <= at) ==>
        rate == Rate(CountIn(Recorded(hostId), at - window, at), Observed(window, startedAt, at))
    {
      var count := Count(hostId, at);
      RateGrows(count, CountIn(Recorded(hostId), at - window, at), Observed(window, startedAt, at));
      rate := Rate(count, Observed(window, startedAt, at));
    }
  }
}
