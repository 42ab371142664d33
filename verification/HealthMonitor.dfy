/** Backend health with hysteresis (health/monitor.py), specified by the whole probe history. */
module Health {
  import opened Basics

  datatype Config = Config(failureThreshold: int, recoveryThreshold: int, cooldown: int)

  datatype Observation = Observation(healthy: bool, at: int)

  datatype Probe = Probe(backendId: HostId, seen: Observation)

  datatype Event = Event(backendId: HostId, fromHealthy: bool, toHealthy: bool, at: int)

  type History = seq<Observation>

  // ---------------------------------------------------------------- specification

  function TrailingFailures(h: History): nat {
    if h == [] || h[|h| - 1].healthy then 0 else 1 + TrailingFailures(h[..|h| - 1])
  }

  /** Time of the last failed probe. */
  function LastFailure(h: History): Option<int> {
    if h == [] then None
    else if !h[|h| - 1].healthy then Some(h[|h| - 1].at)
    else LastFailure(h[..|h| - 1])
  }

  /** The last probe succeeded a cooldown or more after the last failure. */
  predicate IsCooled(cfg: Config, h: History) {
    && h != [] && h[|h| - 1].healthy && LastFailure(h[..|h| - 1]).Some?
    && h[|h| - 1].at >= LastFailure(h[..|h| - 1]).value + cfg.cooldown
  }

  /** Successes since the last failure that came at least a cooldown after it. */
  function CooledSuccesses(cfg: Config, h: History): nat {
    if h == [] || !h[|h| - 1].healthy then 0
    else CooledSuccesses(cfg, h[..|h| - 1]) + if IsCooled(cfg, h) then 1 else 0
  }

  /** The last probe completes a run of failures as long as the threshold. */
  predicate Trips(cfg: Config, h: History) {
    h != [] && !h[|h| - 1].healthy && TrailingFailures(h) >= cfg.failureThreshold
  }

  /** The last probe completes the cooled successes that recovery takes. */
  predicate Recovers(cfg: Config, h: History) {
    IsCooled(cfg, h) && CooledSuccesses(cfg, h) >= cfg.recoveryThreshold
  }

  /** Health after a history, one probe at a time. */
  predicate Healthy(cfg: Config, h: History) {
    h == [] || if Healthy(cfg, h[..|h| - 1]) then !Trips(cfg, h) else Recovers(cfg, h)
  }

  /** The probes of one backend, in order. */
  function HistoryOf(log: seq<Probe>, b: HostId): History {
    if log == [] then []
    else
      var n := |log| - 1;
      HistoryOf(log[..n], b) + if log[n].backendId == b then [log[n].seen] else []
  }

  /** The change that one more probe brings, if any. */
  function Change(cfg: Config, b: HostId, h: History, o: Observation): seq<Event> {
    var was, now := Healthy(cfg, h), Healthy(cfg, h + [o]);
    if was != now then [Event(b, was, now, o.at)] else []
  }

  /** The changes of health along a history. */
  function Changes(cfg: Config, b: HostId, h: History): seq<Event> {
    if h == [] then []
    else Changes(cfg, b, h[..|h| - 1]) + Change(cfg, b, h[..|h| - 1], h[|h| - 1])
  }

  /** The changes of all backends in the order their probes came. */
  function AllChanges(cfg: Config, log: seq<Probe>): seq<Event> {
    if log == [] then []
    else
      var n := |log| - 1;
      AllChanges(cfg, log[..n]) + Change(cfg, log[n].backendId, HistoryOf(log[..n], log[n].backendId), log[n].seen)
  }

  // ---------------------------------------------------------------- the monitor

  const HISTORY_LENGTH := 20

  datatype BackendState = BackendState(isHealthy: bool, consecutiveFailures: nat, consecutiveSuccesses: nat,
                                       unhealthySince: Option<int>, history: seq<bool>)

  const NEW_STATE := BackendState(true, 0, 0, None, [])

  function Verdicts(h: History): (v: seq<bool>)
    ensures |v| == |h|
    ensures forall i :: 0 <= i < |h| ==> v[i] == h[i].healthy
  {
    seq(|h|, i requires 0 <= i < |h| => h[i].healthy)
  }

  function Recent(v: seq<bool>): seq<bool> { if |v| <= HISTORY_LENGTH then v else v[|v| - HISTORY_LENGTH..] }

  /** What a backend's state says of its history. */
  ghost predicate Reflects(cfg: Config, state: BackendState, h: History) {
    && state.isHealthy == Healthy(cfg, h)
    && state.history == Recent(Verdicts(h))
    && if state.isHealthy then
         && state.consecutiveFailures == TrailingFailures(h) && state.consecutiveSuccesses == 0
         && state.unhealthySince == None
       else
         && state.unhealthySince == LastFailure(h) && state.unhealthySince.Some?
         && state.consecutiveSuccesses == CooledSuccesses(cfg, h)
  }

  ghost predicate AllReflect(cfg: Config, states: map<HostId, BackendState>, log: seq<Probe>) {
    && (forall b :: b in states ==> Reflects(cfg, states[b], HistoryOf(log, b)))
    && (forall b :: b !in states ==> HistoryOf(log, b) == [])
  }

  lemma AllReflectStep(cfg: Config, states: map<HostId, BackendState>, log: seq<Probe>, p: Probe, next: BackendState)
    requires AllReflect(cfg, states, log)
    requires Reflects(cfg, next, HistoryOf(log, p.backendId) + [p.seen])
    ensures AllReflect(cfg, states[p.backendId := next], log + [p])
  {
    var later, more := states[p.backendId := next], log + [p];
    assert more[..|log|] == log;
    forall b | b in later ensures Reflects(cfg, later[b], HistoryOf(more, b)) {
      if b != p.backendId {
        assert HistoryOf(more, b) == HistoryOf(log, b);
      }
    }
    forall b | b !in later ensures HistoryOf(more, b) == [] {
      assert HistoryOf(more, b) == HistoryOf(log, b);
    }
  }

  lemma StateReflects(cfg: Config, states: map<HostId, BackendState>, log: seq<Probe>, b: HostId)
    requires AllReflect(cfg, states, log)
    ensures Reflects(cfg, if b in states then states[b] else NEW_STATE, HistoryOf(log, b))
  {
  }

  lemma ProbeStep(cfg: Config, states: map<HostId, BackendState>, log: seq<Probe>, p: Probe, next: BackendState, change: Option<bool>)
    requires AllReflect(cfg, states, log) && Reflects(cfg, next, HistoryOf(log, p.backendId) + [p.seen])
    requires var h := HistoryOf(log, p.backendId);
             change == if Healthy(cfg, h + [p.seen]) == Healthy(cfg, h) then None else Some(Healthy(cfg, h + [p.seen]))
    ensures AllReflect(cfg, states[p.backendId := next], log + [p])
    ensures AllChanges(cfg, log + [p]) ==
            AllChanges(cfg, log) + if change.Some? then [Event(p.backendId, !change.value, change.value, p.seen.at)] else []
  {
    AllReflectStep(cfg, states, log, p, next);
    ChangesStep(cfg, log, p);
  }

  class HealthMonitor {
    const cfg: Config
    var states: map<HostId, BackendState>
    var events: seq<Event>
    /** Every probe so far. */
    ghost var log: seq<Probe>

    ghost predicate Valid()
      reads this
    {
      AllReflect(cfg, states, log) && events == AllChanges(cfg, log)
    }

    constructor (cfg: Config)
      ensures Valid() && this.cfg == cfg && log == []
    {
      this.cfg := cfg;
      states, events, log := map[], [], [];
    }

    /** A backend never probed counts as healthy. */
    method IsHealthy(backendId: HostId) returns (healthy: bool)
      requires Valid()
      ensures healthy == Healthy(cfg, HistoryOf(log, backendId))
    {
      return if backendId in states then states[backendId].isHealthy else true;
    }

    /** Failures among the last twenty probes. */
    method FailureCount(backendId: HostId) returns (count: nat)
      requires Valid()
      ensures count == LastTwentyFailures(HistoryOf(log, backendId))
    {
      StateRemembers(cfg, states, log, backendId);
      if backendId !in states {
        return 0;
      }
      count := CountFailures(states[backendId].history);
    }

    static method CountFailures(history: seq<bool>) returns (count: nat)
      ensures count == FailuresIn(history)
    {
      count := 0;
      for i := 0 to |history|
        invariant count == FailuresIn(history[..i])
      {
        assert history[..i + 1][..i] == history[..i];
        if !history[i] {
          count := count + 1;
        }
      }
      assert history[..|history|] == history;
    }

    method RecordProbe(backendId: HostId, healthy: bool, at: int)
      requires Valid()
      modifies this
      ensures Valid() && log == old(log) + [Probe(backendId, Observation(healthy, at))]
    {
      ghost var p := Probe(backendId, Observation(healthy, at));
      StateReflects(cfg, states, log, backendId);
      var state := if backendId in states then states[backendId] else NEW_STATE;
      var next, change := Advance(state, healthy, at, HistoryOf(log, backendId));
      ProbeStep(cfg, states, log, p, next, change);
      states := states[backendId := next];
      if change.Some? {
        events := events + [Event(backendId, !change.value, change.value, at)];
      }
      log := log + [p];
    }

    /** The next state of a backend, and its new health when that changed. */
    method Advance(state: BackendState, healthy: bool, at: int, ghost h: History) returns (next: BackendState, change: Option<bool>)
      requires Reflects(cfg, state, h)
      ensures var more := h + [Observation(healthy, at)];
              && Reflects(cfg, next, more)
              && change == if Healthy(cfg, more) == Healthy(cfg, h) then None else Some(Healthy(cfg, more))
    {
      ghost var more := h + [Observation(healthy, at)];
      assert more[..|h|] == h;
      RecentStep(h, Observation(healthy, at));
      var history := state.history + [healthy];
      if |history| > HISTORY_LENGTH {
        history := history[1..];
      }
      next := state.(history := history);
      change := None;
      if !state.isHealthy {
        if !healthy {
          next := next.(consecutiveSuccesses := 0, unhealthySince := Some(at));
          return;
        }
        if state.unhealthySince.None? || at < state.unhealthySince.value + cfg.cooldown {
          return;
        }
        next := next.(consecutiveSuccesses := state.consecutiveSuccesses + 1);
        if next.consecutiveSuccesses >= cfg.recoveryThreshold {
          next := next.(isHealthy := true, consecutiveFailures := 0, consecutiveSuccesses := 0, unhealthySince := None);
          change := Some(true);
        }
        return;
      }
      if healthy {
        next := next.(consecutiveFailures := 0);
        return;
      }
      next := next.(consecutiveFailures := state.consecutiveFailures + 1);
      if next.consecutiveFailures >= cfg.failureThreshold {
        next := next.(isHealthy := false, unhealthySince := Some(at), consecutiveSuccesses := 0);
        change := Some(false);
      }
    }
  }

  function FailuresIn(v: seq<bool>): nat {
    if v == [] then 0 else FailuresIn(v[..|v| - 1]) + if v[|v| - 1] then 0 else 1
  }

  lemma StateRemembers(cfg: Config, states: map<HostId, BackendState>, log: seq<Probe>, b: HostId)
    requires AllReflect(cfg, states, log)
    ensures LastTwentyFailures(HistoryOf(log, b)) == if b in states then FailuresIn(states[b].history) else 0
  {
    if b in states {
      assert Reflects(cfg, states[b], HistoryOf(log, b));
      FailuresAmongLastTwenty(HistoryOf(log, b));
    } else {
      assert FailuresFrom([], -20) == {};
    }
  }

  /** How many of the last twenty probes failed. */
  ghost function LastTwentyFailures(h: History): nat { |FailuresFrom(h, |h| - 20)| }

  /** Which of the probes from place m on failed. */
  ghost function FailuresFrom(h: History, m: int): set<int> { set i | 0 <= i < |h| && m <= i && !h[i].healthy }

  lemma {:induction false} FailuresArePlaces(h: History, m: nat)
    requires m <= |h|
    ensures FailuresIn(Verdicts(h)[m..]) == |FailuresFrom(h, m)|
  {
    if |h| == m {
      assert FailuresFrom(h, m) == {};
    } else {
      var n := |h| - 1;
      FailuresArePlaces(h[..n], m);
      assert Verdicts(h)[m..][..n - m] == Verdicts(h[..n])[m..];
      var before := FailuresFrom(h[..n], m);
      assert FailuresFrom(h, m) == if h[n].healthy then before else before + {n};
    }
  }

  lemma FailuresAmongLastTwenty(h: History)
    ensures FailuresIn(Recent(Verdicts(h))) == LastTwentyFailures(h)
  {
    var m := if |h| <= 20 then 0 else |h| - 20;
    FailuresArePlaces(h, m);
    assert Recent(Verdicts(h)) == Verdicts(h)[m..];
    assert FailuresFrom(h, |h| - 20) == FailuresFrom(h, m);
  }

  lemma RecentStep(h: History, o: Observation)
    ensures var r := Recent(Verdicts(h)) + [o.healthy];
            Recent(Verdicts(h + [o])) == if |r| > HISTORY_LENGTH then r[1..] else r
  {
    assert Verdicts(h + [o]) == Verdicts(h) + [o.healthy];
  }

  lemma ChangesStep(cfg: Config, log: seq<Probe>, p: Probe)
    ensures AllChanges(cfg, log + [p]) == AllChanges(cfg, log) + Change(cfg, p.backendId, HistoryOf(log, p.backendId), p.seen)
  {
    assert (log + [p])[..|log|] == log;
  }

  // ---------------------------------------------------------------- health as a statement about the whole history

  ghost predicate RecoveredAfter(cfg: Config, h: History, i: nat) {
    exists j :: i < j <= |h| && Recovers(cfg, h[..j])
  }

  /** A backend is healthy exactly when every run of failures that reached the threshold was
      followed by a recovery. */
  ghost predicate HealthyBy(cfg: Config, h: History) {
    forall i :: 0 <= i <= |h| && Trips(cfg, h[..i]) ==> RecoveredAfter(cfg, h, i)
  }

  lemma PrefixesOfMore(h: History, o: Observation, i: nat)
    requires i <= |h|
    ensures (h + [o])[..i] == h[..i]
  {
  }

  lemma TripDecides(cfg: Config, h: History, o: Observation)
    requires HealthyBy(cfg, h)
    ensures HealthyBy(cfg, h + [o]) <==> !Trips(cfg, h + [o])
  {
    var more := h + [o];
    assert more[..|more|] == more;
    forall i | 0 <= i <= |h| && Trips(cfg, more[..i]) ensures RecoveredAfter(cfg, more, i) {
      PrefixesOfMore(h, o, i);
      assert RecoveredAfter(cfg, h, i);
      var j :| i < j <= |h| && Recovers(cfg, h[..j]);
      PrefixesOfMore(h, o, j);
      assert Recovers(cfg, more[..j]);
    }
    assert !RecoveredAfter(cfg, more, |more|);
  }

  lemma RecoveryDecides(cfg: Config, h: History, o: Observation)
    requires !HealthyBy(cfg, h)
    ensures HealthyBy(cfg, h + [o]) <==> Recovers(cfg, h + [o])
  {
    var more := h + [o];
    assert more[..|more|] == more;
    if Recovers(cfg, more) {
      forall i | 0 <= i <= |more| && Trips(cfg, more[..i]) ensures RecoveredAfter(cfg, more, i) {
        assert i < |more|;
        assert Recovers(cfg, more[..|more|]);
      }
    } else {
      var i :| 0 <= i <= |h| && Trips(cfg, h[..i]) && !RecoveredAfter(cfg, h, i);
      PrefixesOfMore(h, o, i);
      if RecoveredAfter(cfg, more, i) {
        var j :| i < j <= |more| && Recovers(cfg, more[..j]);
        PrefixesOfMore(h, o, j);
      }
    }
  }

  /** The probe-by-probe account agrees with the statement about all runs of failures. */
  lemma {:induction false} HealthyMeansEveryRunRecovered(cfg: Config, h: History)
    ensures Healthy(cfg, h) <==> HealthyBy(cfg, h)
    ensures Healthy(cfg, h) ==> TrailingFailures(h) == 0 || TrailingFailures(h) < cfg.failureThreshold
  {
    if h != [] {
      var n := |h| - 1;
      HealthyMeansEveryRunRecovered(cfg, h[..n]);
      assert h == h[..n] + [h[n]];
      if Healthy(cfg, h[..n]) {
        TripDecides(cfg, h[..n], h[n]);
      } else {
        RecoveryDecides(cfg, h[..n], h[n]);
      }
    }
  }

  // ---------------------------------------------------------------- what events say

  function EventsOf(events: seq<Event>, b: HostId): seq<Event> {
    if events == [] then []
    else
      var n := |events| - 1;
      EventsOf(events[..n], b) + if events[n].backendId == b then [events[n]] else []
  }

  /** A backend's events are the changes along its own history. */
  lemma {:induction false} EventsAreChanges(cfg: Config, log: seq<Probe>, b: HostId)
    ensures EventsOf(AllChanges(cfg, log), b) == Changes(cfg, b, HistoryOf(log, b))
  {
    if log != [] {
      var n := |log| - 1;
      EventsAreChanges(cfg, log[..n], b);
      var p := log[n];
      var h := HistoryOf(log[..n], b);
      var change := Change(cfg, p.backendId, HistoryOf(log[..n], p.backendId), p.seen);
      EventsOfMore(AllChanges(cfg, log[..n]), change, b);
      OwnChanges(cfg, b, h, p.seen);
      assert HistoryOf(log, b) == if p.backendId == b then h + [p.seen] else h;
    }
  }

  lemma OwnChanges(cfg: Config, b: HostId, h: History, o: Observation)
    ensures Changes(cfg, b, h + [o]) == Changes(cfg, b, h) + Change(cfg, b, h, o)
  {
    assert (h + [o])[..|h|] == h;
  }

  lemma EventsOfMore(events: seq<Event>, more: seq<Event>, b: HostId)
    requires |more| <= 1
    ensures EventsOf(events + more, b) == EventsOf(events, b) + if more != [] && more[0].backendId == b then more else []
  {
    assert (events + more)[..|events|] == events;
    assert more == [] ==> events + more == events;
  }

  /** Changes that alternate, the first one from healthy to unhealthy. */
  ghost predicate Alternate(events: seq<Event>) {
    forall i :: 0 <= i < |events| ==> events[i].toHealthy == (i % 2 == 1) && events[i].fromHealthy == (i % 2 == 0)
  }

  lemma OneMoreAlternates(events: seq<Event>, change: seq<Event>)
    requires Alternate(events) && |change| <= 1
    requires change != [] ==> change[0].toHealthy == (|events| % 2 == 1) && change[0].fromHealthy == (|events| % 2 == 0)
    ensures Alternate(events + change) && |events + change| == |events| + |change|
  {
  }

  /** Events of a backend alternate, and their number tells its health. */
  lemma {:induction false} EventsAlternate(cfg: Config, b: HostId, h: History)
    ensures Alternate(Changes(cfg, b, h)) && Healthy(cfg, h) == (|Changes(cfg, b, h)| % 2 == 0)
  {
    if h != [] {
      var n := |h| - 1;
      EventsAlternate(cfg, b, h[..n]);
      assert h == h[..n] + [h[n]];
      OneMoreAlternates(Changes(cfg, b, h[..n]), Change(cfg, b, h[..n], h[n]));
    }
  }

  ghost predicate InTime(h: History) {
    forall i, j :: 0 <= i <= j < |h| ==> h[i].at <= h[j].at
  }

  lemma {:induction false} LastFailureInTime(h: History, t: int)
    requires InTime(h) && LastFailure(h).Some? && h != [] && h[|h| - 1].at <= t
    ensures LastFailure(h).value <= t
  {
    if h[|h| - 1].healthy {
      LastFailureInTime(h[..|h| - 1], h[|h| - 1].at);
    }
  }

  /** With a clock that does not go back, every recovery comes at least a cooldown after its failover. */
  lemma {:induction false} RecoveryWaitsForCooldown(cfg: Config, b: HostId, h: History)
    requires InTime(h)
    ensures var events := Changes(cfg, b, h);
            && (forall i :: 1 <= i < |events| && events[i].toHealthy ==> events[i].at >= events[i - 1].at + cfg.cooldown)
            && (!Healthy(cfg, h) ==> events != [] && LastFailure(h).Some? && events[|events| - 1].at <= LastFailure(h).value)
  {
    if h != [] {
      var n := |h| - 1;
      var before := h[..n];
      assert h == before + [h[n]];
      RecoveryWaitsForCooldown(cfg, b, before);
      EventsAlternate(cfg, b, before);
      if !Healthy(cfg, before) {
        LastFailureInTime(before, h[n].at);
      }
    }
  }

  // ---------------------------------------------------------------- the thresholds

  /** A run of probes that all failed, or all succeeded. */
  ghost predicate AllSay(probes: History, healthy: bool) { forall i :: 0 <= i < |probes| ==> probes[i].healthy == healthy }

  lemma {:induction false} FailuresTrail(h: History, failures: History)
    requires AllSay(failures, false) && (h == [] || h[|h| - 1].healthy)
    ensures TrailingFailures(h + failures) == |failures|
  {
    if failures == [] {
      assert h + failures == h;
    } else {
      var n := |failures| - 1;
      FailuresTrail(h, failures[..n]);
      assert (h + failures)[..|h| + n] == h + failures[..n];
    }
  }

  /** A healthy backend becomes unhealthy at the failure that makes a run as long as the failure threshold, not before. */
  lemma {:induction false} FailureRunTrips(cfg: Config, h: History, failures: History)
    requires Healthy(cfg, h) && (h == [] || h[|h| - 1].healthy) && AllSay(failures, false)
    ensures Healthy(cfg, h + failures) <==> failures == [] || |failures| < cfg.failureThreshold
  {
    if failures == [] {
      assert h + failures == h;
    } else {
      var n := |failures| - 1;
      FailureRunTrips(cfg, h, failures[..n]);
      FailuresTrail(h, failures);
      assert (h + failures)[..|h| + n] == h + failures[..n];
    }
  }

  /** Those of the successes that come a cooldown or more after time t. */
  ghost function CooledPlaces(cfg: Config, t: int, successes: History): set<int> {
    set i | 0 <= i < |successes| && successes[i].at >= t + cfg.cooldown
  }

  lemma CooledPlacesOfMore(cfg: Config, t: int, successes: History)
    requires successes != []
    ensures var n := |successes| - 1;
            |CooledPlaces(cfg, t, successes)| == |CooledPlaces(cfg, t, successes[..n])| + if successes[n].at >= t + cfg.cooldown then 1 else 0
  {
    var n := |successes| - 1;
    var before := CooledPlaces(cfg, t, successes[..n]);
    assert CooledPlaces(cfg, t, successes) == if successes[n].at >= t + cfg.cooldown then before + {n} else before;
  }

  lemma {:induction false} SuccessesCool(cfg: Config, h: History, successes: History)
    requires h != [] && !h[|h| - 1].healthy && AllSay(successes, true)
    ensures LastFailure(h + successes) == Some(h[|h| - 1].at)
    ensures CooledSuccesses(cfg, h + successes) == |CooledPlaces(cfg, h[|h| - 1].at, successes)|
  {
    var t := h[|h| - 1].at;
    if successes == [] {
      assert h + successes == h;
      assert CooledPlaces(cfg, t, successes) == {};
    } else {
      var n := |successes| - 1;
      SuccessesCool(cfg, h, successes[..n]);
      CooledPlacesOfMore(cfg, t, successes);
      assert (h + successes)[..|h| + n] == h + successes[..n];
    }
  }

  /** An unhealthy backend recovers after its last failure at the success that makes as many of
      them as the recovery threshold, at least one, come a cooldown or more after that failure. */
  lemma {:induction false} SuccessRunRecovers(cfg: Config, h: History, successes: History)
    requires !Healthy(cfg, h) && h != [] && !h[|h| - 1].healthy && AllSay(successes, true)
    ensures var cooled := |CooledPlaces(cfg, h[|h| - 1].at, successes)|;
            Healthy(cfg, h + successes) <==> cooled >= 1 && cooled >= cfg.recoveryThreshold
  {
    var t := h[|h| - 1].at;
    if successes == [] {
      assert h + successes == h;
      assert CooledPlaces(cfg, t, successes) == {};
    } else {
      var n := |successes| - 1;
      SuccessRunRecovers(cfg, h, successes[..n]);
      SuccessesCool(cfg, h, successes);
      SuccessesCool(cfg, h, successes[..n]);
      CooledPlacesOfMore(cfg, t, successes);
      assert (h + successes)[..|h| + n] == h + successes[..n];
    }
  }

  /** A backend's history is made of its own probes in order. */
  lemma {:induction false} HistoriesAddUp(a: seq<Probe>, b: seq<Probe>, backend: HostId)
    ensures HistoryOf(a + b, backend) == HistoryOf(a, backend) + HistoryOf(b, backend)
    ensures |a| == 1 ==> HistoryOf(a, backend) == if a[0].backendId == backend then [a[0].seen] else []
    decreases |b|
  {
    if |a| == 1 {
      assert a[..0] == [];
    }
    if b == [] {
      assert a + b == a;
    } else {
      var n := |b| - 1;
      HistoriesAddUp(a, b[..n], backend);
      assert (a + b)[..|a| + n] == a + b[..n];
    }
  }
}
