/** The routing engine (routing/engine.py): the best-scored eligible backend, ties broken by
    the least id, with sticky sessions. Scores are exact reals. */
module Routing {
  import opened Basics

  datatype Candidate = Candidate(backendId: HostId, latency: real, contextWindow: int)

  datatype Context = Context(taskType: Option<string>, tokenBudget: int)

  datatype Rule = Rule(name: string, score: (Candidate, Context) -> real, taskType: Option<string>)
  {
    predicate AppliesTo(task: Option<string>) { taskType == None || taskType == task }
  }

  type Policy = seq<Rule>

  datatype Decision = Decision(backendId: HostId, scores: map<HostId, real>, matchedRules: map<HostId, seq<string>>)

  /** Four characters to a token, rounded up. */
  function EstimateTokenBudget(contents: seq<string>): nat { (Chars(contents) + 3) / 4 }

  function Chars(contents: seq<string>): nat {
    if contents == [] then 0 else |contents[0]| + Chars(contents[1..])
  }

  // ---------------------------------------------------------------- specification

  function Eligible(candidates: seq<Candidate>, budget: int): (r: seq<Candidate>)
    ensures forall c :: c in r <==> c in candidates && c.contextWindow >= budget
  {
    if candidates == [] then []
    else if candidates[0].contextWindow >= budget then [candidates[0]] + Eligible(candidates[1..], budget)
    else Eligible(candidates[1..], budget)
  }

  /** The sum of the applicable rules' scores. */
  function Score(rules: seq<Rule>, c: Candidate, ctx: Context): real {
    if rules == [] then 0.0
    else
      var n := |rules| - 1;
      Score(rules[..n], c, ctx) + if rules[n].AppliesTo(ctx.taskType) then rules[n].score(c, ctx) else 0.0
  }

  function MatchedNames(rules: seq<Rule>, ctx: Context): seq<string> {
    if rules == [] then []
    else
      var n := |rules| - 1;
      MatchedNames(rules[..n], ctx) + if rules[n].AppliesTo(ctx.taskType) then [rules[n].name] else []
  }

  /** Scores by backend id; of candidates that share an id the last one counts. */
  function ScoreMap(policy: Policy, eligible: seq<Candidate>, ctx: Context): (scores: map<HostId, real>)
    ensures forall h :: h in scores <==> exists c :: c in eligible && c.backendId == h
  {
    if eligible == [] then map[]
    else
      var last := eligible[|eligible| - 1];
      assert forall c :: c in eligible <==> c in eligible[..|eligible| - 1] || c == last;
      ScoreMap(policy, eligible[..|eligible| - 1], ctx)[last.backendId := Score(policy, last, ctx)]
  }

  /** No backend scores better, and among equals this id is the least. */
  ghost predicate IsBest(scores: map<HostId, real>, w: HostId) {
    w in scores && forall h :: h in scores ==> scores[h] < scores[w] || (scores[h] == scores[w] && AtMost(w, h))
  }

  datatype Engine = Engine(policy: Policy, stickySessions: bool)

  type Assignments = map<SessionId, HostId>

  /** What one routing call may return and leave recorded. */
  ghost predicate Routed(engine: Engine, before: Assignments, candidates: seq<Candidate>, ctx: Context,
                         session: Option<SessionId>, after: Assignments, decision: Option<Decision>) {
    var scores := ScoreMap(engine.policy, Eligible(candidates, ctx.tokenBudget), ctx);
    var bound := engine.stickySessions && session.Some? && session.value in before;
    if scores == map[] then decision == None && after == before
    else
      && decision.Some? && decision.value.scores == scores
      && decision.value.matchedRules == (map h | h in scores :: MatchedNames(engine.policy, ctx))
      && var w := decision.value.backendId;
         if bound && before[session.value] in scores then w == before[session.value] && after == before
         else
           && IsBest(scores, w)
           && after == if engine.stickySessions && session.Some? && !bound then before[session.value := w] else before
  }

  // ---------------------------------------------------------------- implementation

  method ScoreCandidates(policy: Policy, eligible: seq<Candidate>, ctx: Context)
    returns (scores: map<HostId, real>, matchedRules: map<HostId, seq<string>>)
    ensures scores == ScoreMap(policy, eligible, ctx)
    ensures matchedRules == map h | h in scores :: MatchedNames(policy, ctx)
  {
    scores, matchedRules := map[], map[];
    for i := 0 to |eligible|
      invariant scores == ScoreMap(policy, eligible[..i], ctx)
      invariant matchedRules == map h | h in scores :: MatchedNames(policy, ctx)
    {
      var candidate := eligible[i];
      var total, matched := 0.0, [];
      for k := 0 to |policy|
        invariant total == Score(policy[..k], candidate, ctx)
        invariant matched == MatchedNames(policy[..k], ctx)
      {
        assert policy[..k + 1][..k] == policy[..k];
        if policy[k].AppliesTo(ctx.taskType) {
          total := total + policy[k].score(candidate, ctx);
          matched := matched + [policy[k].name];
        }
      }
      assert policy[..|policy|] == policy;
      assert eligible[..i + 1][..i] == eligible[..i];
      scores := scores[candidate.backendId := total];
      matchedRules := matchedRules[candidate.backendId := matched];
    }
    assert eligible[..|eligible|] == eligible;
  }

  /** The first candidate with the least (negated score, id) pair. */
  method BestOf(eligible: seq<Candidate>, scores: map<HostId, real>) returns (winner: HostId)
    requires eligible != []
    requires forall h :: h in scores <==> exists c :: c in eligible && c.backendId == h
    ensures IsBest(scores, winner)
  {
    winner := eligible[0].backendId;
    AtMostTotal(winner, winner);
    for i := 1 to |eligible|
      invariant winner in scores
      invariant forall k :: 0 <= k < i ==> Beats(scores, winner, eligible[k].backendId)
    {
      var h := eligible[i].backendId;
      AtMostTotal(winner, h);
      if scores[h] > scores[winner] || (scores[h] == scores[winner] && !AtMost(winner, h)) {
        forall k | 0 <= k < i ensures Beats(scores, h, eligible[k].backendId) {
          BeatsTransitive(scores, h, winner, eligible[k].backendId);
        }
        AtMostTotal(h, h);
        winner := h;
      }
    }
  }

  ghost predicate Beats(scores: map<HostId, real>, w: HostId, h: HostId) {
    w in scores && h in scores && (scores[h] < scores[w] || (scores[h] == scores[w] && AtMost(w, h)))
  }

  lemma BeatsTransitive(scores: map<HostId, real>, a: HostId, b: HostId, c: HostId)
    requires Beats(scores, a, b) && Beats(scores, b, c)
    ensures Beats(scores, a, c)
  {
    if scores[a] == scores[b] == scores[c] {
      AtMostTransitive(a, b, c);
    }
  }

  class RoutingEngine {
    const engine: Engine
    var stickyAssignments: Assignments

    constructor (policy: Policy, stickySessionsEnabled: bool)
      ensures engine == Engine(policy, stickySessionsEnabled) && stickyAssignments == map[]
    {
      engine := Engine(policy, stickySessionsEnabled);
      stickyAssignments := map[];
    }

    /** None stands for the error that no candidate's context window is large enough. */
    method SelectBackend(contents: seq<string>, taskType: Option<string>, candidates: seq<Candidate>, sessionId: Option<SessionId>)
      returns (decision: Option<Decision>)
      modifies this
      ensures Routed(engine, old(stickyAssignments), candidates, Context(taskType, EstimateTokenBudget(contents)),
                     sessionId, stickyAssignments, decision)
    {
      var tokenBudget := EstimateTokenBudget(contents);
      var eligible := Eligible(candidates, tokenBudget);
      if eligible == [] {
        return None;
      }
      var context := Context(taskType, tokenBudget);
      assert eligible[0] in eligible;
      var scores, matchedRules := ScoreCandidates(engine.policy, eligible, context);
      assert eligible[0].backendId in scores;
      var sticky := if sessionId.Some? && engine.stickySessions && sessionId.value in stickyAssignments
        then Some(stickyAssignments[sessionId.value]) else None;
      var winner;
      if sticky.Some? && sticky.value in scores {
        winner := sticky.value;
      } else {
        winner := BestOf(eligible, scores);
        if sessionId.Some? && engine.stickySessions && sessionId.value !in stickyAssignments {
          stickyAssignments := stickyAssignments[sessionId.value := winner];
        }
      }
      decision := Some(Decision(winner, scores, matchedRules));
    }
  }

  // ---------------------------------------------------------------- properties

  lemma {:induction false} CharsTogether(contents: seq<string>)
    ensures Chars(contents) == |Together(contents)|
  {
    if contents != [] {
      CharsTogether(contents[1..]);
      TogetherFromFront(contents);
    }
  }

  /** A context window is large enough exactly when it has a token for every four characters of
      all contents together, the last token perhaps not full. */
  lemma FitsByCharacters(contents: seq<string>, window: int)
    ensures EstimateTokenBudget(contents) <= window <==> |Together(contents)| <= 4 * window
  {
    CharsTogether(contents);
  }

  /** A routing call fails exactly when no candidate's window is large enough for all characters,
      and otherwise decides for a candidate whose window is. */
  lemma WinnerFits(engine: Engine, before: Assignments, candidates: seq<Candidate>, contents: seq<string>, taskType: Option<string>,
                   session: Option<SessionId>, after: Assignments, decision: Option<Decision>)
    requires Routed(engine, before, candidates, Context(taskType, EstimateTokenBudget(contents)), session, after, decision)
    ensures decision.Some? <==> exists c :: c in candidates && |Together(contents)| <= 4 * c.contextWindow
    ensures decision.Some? ==>
              exists c :: c in candidates && c.backendId == decision.value.backendId && |Together(contents)| <= 4 * c.contextWindow
  {
    var eligible := Eligible(candidates, EstimateTokenBudget(contents));
    var scores := ScoreMap(engine.policy, eligible, Context(taskType, EstimateTokenBudget(contents)));
    forall c | c in candidates ensures c in eligible <==> |Together(contents)| <= 4 * c.contextWindow {
      FitsByCharacters(contents, c.contextWindow);
    }
    if decision.Some? {
      var c :| c in eligible && c.backendId == decision.value.backendId;
    } else {
      forall c | c in candidates ensures c !in eligible {
        assert c.backendId !in scores;
      }
    }
  }

  /** A rule counts, and is named, exactly when it has no task type or the request's. */
  lemma RuleCounts(rule: Rule, c: Candidate, ctx: Context)
    ensures var counts := rule.taskType == None || rule.taskType == ctx.taskType;
            && Score([rule], c, ctx) == (if counts then rule.score(c, ctx) else 0.0)
            && MatchedNames([rule], ctx) == (if counts then [rule.name] else [])
  {
    assert [rule][..0] == [];
  }

  /** The scores of rules add up. */
  lemma {:induction false} ScoresAddUp(a: Policy, b: Policy, c: Candidate, ctx: Context)
    ensures Score(a + b, c, ctx) == Score(a, c, ctx) + Score(b, c, ctx)
    decreases |b|
  {
    if b == [] {
      assert a + b == a;
    } else {
      var n := |b| - 1;
      ScoresAddUp(a, b[..n], c, ctx);
      ScoreOfOneMore(a + b[..n], b[n], c, ctx);
      ScoreOfOneMore(b[..n], b[n], c, ctx);
      assert a + b == a + b[..n] + [b[n]] && b == b[..n] + [b[n]];
    }
  }

  /** The names of the rules that count come in the policy's order. */
  lemma {:induction false} NamesAddUp(a: Policy, b: Policy, ctx: Context)
    ensures MatchedNames(a + b, ctx) == MatchedNames(a, ctx) + MatchedNames(b, ctx)
    decreases |b|
  {
    if b == [] {
      assert a + b == a;
    } else {
      var n := |b| - 1;
      NamesAddUp(a, b[..n], ctx);
      assert (a + b)[..|a| + n] == a + b[..n];
    }
  }

  lemma ScoreOfOneMore(a: Policy, rule: Rule, c: Candidate, ctx: Context)
    ensures Score(a + [rule], c, ctx) == Score(a, c, ctx) + Score([rule], c, ctx)
  {
    assert (a + [rule])[..|a|] == a && [rule][..0] == [];
  }

  /** At most one backend is best. */
  lemma BestIsUnique(scores: map<HostId, real>, a: HostId, b: HostId)
    requires IsBest(scores, a) && IsBest(scores, b)
    ensures a == b
  {
    AtMostAntisymmetric(a, b);
  }

  ghost predicate DistinctBackends(candidates: seq<Candidate>) {
    forall i, j :: 0 <= i < j < |candidates| ==> candidates[i].backendId != candidates[j].backendId
  }

  lemma {:induction false} DistinctEligible(candidates: seq<Candidate>, budget: int)
    requires DistinctBackends(candidates)
    ensures DistinctBackends(Eligible(candidates, budget))
  {
    if candidates != [] {
      DistinctEligible(candidates[1..], budget);
      var rest := Eligible(candidates[1..], budget);
      forall k | 0 <= k < |rest| ensures rest[k].backendId != candidates[0].backendId {
        assert rest[k] in candidates[1..];
        var m :| 0 <= m < |candidates[1..]| && candidates[1..][m] == rest[k];
        assert candidates[m + 1] == rest[k];
      }
    }
  }

  lemma {:induction false} ScoreAt(policy: Policy, eligible: seq<Candidate>, ctx: Context, k: nat)
    requires DistinctBackends(eligible) && k < |eligible|
    ensures var scores := ScoreMap(policy, eligible, ctx);
            eligible[k].backendId in scores && scores[eligible[k].backendId] == Score(policy, eligible[k], ctx)
  {
    var n := |eligible| - 1;
    if k < n {
      ScoreAt(policy, eligible[..n], ctx, k);
    }
  }

  lemma ScoreOfCandidate(policy: Policy, eligible: seq<Candidate>, ctx: Context, c: Candidate)
    requires DistinctBackends(eligible) && c in eligible
    ensures c.backendId in ScoreMap(policy, eligible, ctx)
    ensures ScoreMap(policy, eligible, ctx)[c.backendId] == Score(policy, c, ctx)
  {
    var k :| 0 <= k < |eligible| && eligible[k] == c;
    ScoreAt(policy, eligible, ctx, k);
  }

  lemma SameScores(policy: Policy, a: seq<Candidate>, b: seq<Candidate>, ctx: Context)
    requires DistinctBackends(a) && DistinctBackends(b) && forall c :: c in a <==> c in b
    ensures ScoreMap(policy, a, ctx) == ScoreMap(policy, b, ctx)
  {
    var x, y := ScoreMap(policy, a, ctx), ScoreMap(policy, b, ctx);
    forall h | h in x ensures h in y && x[h] == y[h] {
      var c :| c in a && c.backendId == h;
      ScoreOfCandidate(policy, a, ctx, c);
      ScoreOfCandidate(policy, b, ctx, c);
    }
    forall h | h in y ensures h in x {
      var c :| c in b && c.backendId == h;
    }
  }

  /** With distinct backends, candidates given in another order lead to the same decision and record. */
  lemma OrderDoesNotMatter(engine: Engine, before: Assignments, a: seq<Candidate>, b: seq<Candidate>, ctx: Context,
                           session: Option<SessionId>, after: Assignments, decision: Option<Decision>,
                           after': Assignments, decision': Option<Decision>)
    requires DistinctBackends(a) && DistinctBackends(b) && multiset(a) == multiset(b)
    requires Routed(engine, before, a, ctx, session, after, decision)
    requires Routed(engine, before, b, ctx, session, after', decision')
    ensures decision == decision' && after == after'
  {
    assert forall c :: c in a <==> c in multiset(a);
    assert forall c :: c in b <==> c in multiset(b);
    DistinctEligible(a, ctx.tokenBudget);
    DistinctEligible(b, ctx.tokenBudget);
    SameScores(engine.policy, Eligible(a, ctx.tokenBudget), Eligible(b, ctx.tokenBudget), ctx);
    if decision.Some? && IsBest(decision.value.scores, decision.value.backendId)
       && IsBest(decision.value.scores, decision'.value.backendId) {
      BestIsUnique(decision.value.scores, decision.value.backendId, decision'.value.backendId);
    }
  }

  datatype Call = Call(candidates: seq<Candidate>, ctx: Context, session: Option<SessionId>, decision: Option<Decision>)

  /** The recorded backend of a call's session is among its eligible candidates. */
  ghost predicate RecordEligible(engine: Engine, call: Call, s: SessionId, h: HostId) {
    && engine.stickySessions && call.session == Some(s)
    && exists c :: c in call.candidates && c.contextWindow >= call.ctx.tokenBudget && c.backendId == h
  }

  /** The policy the service starts with: prefer the lower latency, which is a host's load ratio. */
  const DEFAULT_POLICY: Policy := [Rule("prefer-lower-latency", (c: Candidate, ctx: Context) => -c.latency, None)]

  function LoadRatio(inFlight: int, maxConcurrent: int): real
    requires maxConcurrent > 0
  {
    inFlight as real / maxConcurrent as real
  }

  lemma DefaultScore(c: Candidate, ctx: Context)
    ensures Score(DEFAULT_POLICY, c, ctx) == -c.latency
  {
    assert DEFAULT_POLICY[..0] == [];
  }

  lemma RatioOrder(a: int, m: int, b: int, n: int)
    requires m > 0 && n > 0 && LoadRatio(a, m) <= LoadRatio(b, n)
    ensures a * n <= b * m
  {
    var x, y := LoadRatio(a, m), LoadRatio(b, n);
    assert x * m as real == a as real && y * n as real == b as real;
    assert x * (m as real * n as real) <= y * (m as real * n as real);
    assert (a * n) as real == a as real * n as real;
    assert (b * m) as real == b as real * m as real;
  }

  lemma SameRatio(a: int, m: int, b: int, n: int)
    requires m > 0 && n > 0 && a * n == b * m
    ensures LoadRatio(a, m) == LoadRatio(b, n)
  {
    var x, y := LoadRatio(a, m), LoadRatio(b, n);
    var k := m as real * n as real;
    assert x * m as real == a as real && y * n as real == b as real;
    assert (a * n) as real == a as real * n as real && (b * m) as real == b as real * m as real;
    assert x * k == a as real * n as real && y * k == b as real * m as real;
    assert (x - y) * k == 0.0;
  }

  /** Whether the record of the call's session decides it. */
  ghost predicate FollowsRecord(engine: Engine, before: Assignments, call: Call) {
    && call.session.Some? && call.session.value in before
    && RecordEligible(engine, call, call.session.value, before[call.session.value])
  }

  lemma FreshIsBest(engine: Engine, before: Assignments, call: Call, after: Assignments)
    requires Routed(engine, before, call.candidates, call.ctx, call.session, after, call.decision)
    requires call.decision.Some? && !FollowsRecord(engine, before, call)
    ensures IsBest(call.decision.value.scores, call.decision.value.backendId)
  {
    if engine.stickySessions && call.session.Some? && call.session.value in before {
      var h := before[call.session.value];
      assert !RecordEligible(engine, call, call.session.value, h);
      forall c | c in Eligible(call.candidates, call.ctx.tokenBudget) ensures c.backendId != h {
        assert c in call.candidates && c.contextWindow >= call.ctx.tokenBudget;
      }
      assert h !in call.decision.value.scores;
    }
  }

  ghost predicate HasLoads(candidates: seq<Candidate>, loads: map<HostId, (int, int)>) {
    forall c :: c in candidates ==>
      c.backendId in loads && loads[c.backendId].1 > 0 && c.latency == LoadRatio(loads[c.backendId].0, loads[c.backendId].1)
  }

  /** A host's share of its capacity in use is at most another's, and on equal shares its id is too. */
  predicate LessLoaded(loads: map<HostId, (int, int)>, w: HostId, h: HostId) {
    && w in loads && h in loads
    && loads[w].0 * loads[h].1 <= loads[h].0 * loads[w].1
    && (loads[w].0 * loads[h].1 == loads[h].0 * loads[w].1 ==> AtMost(w, h))
  }

  lemma WinnerIsLessLoaded(eligible: seq<Candidate>, ctx: Context, loads: map<HostId, (int, int)>, w: Candidate, c: Candidate)
    requires DistinctBackends(eligible) && HasLoads(eligible, loads) && w in eligible && c in eligible
    requires IsBest(ScoreMap(DEFAULT_POLICY, eligible, ctx), w.backendId)
    ensures LessLoaded(loads, w.backendId, c.backendId)
  {
    ScoreOfCandidate(DEFAULT_POLICY, eligible, ctx, w);
    ScoreOfCandidate(DEFAULT_POLICY, eligible, ctx, c);
    DefaultScore(w, ctx);
    DefaultScore(c, ctx);
    var (a, m) := loads[w.backendId];
    var (b, n) := loads[c.backendId];
    RatioOrder(a, m, b, n);
    if a * n == b * m {
      SameRatio(a, m, b, n);
    }
  }

  /** Under the default policy a decision that follows no record is the eligible host with the
      least in-flight share of its capacity, of equal ones the one with the least id. */
  lemma DefaultPicksLeastLoaded(sticky: bool, before: Assignments, call: Call, after: Assignments, loads: map<HostId, (int, int)>)
    requires DistinctBackends(call.candidates) && HasLoads(call.candidates, loads)
    requires Routed(Engine(DEFAULT_POLICY, sticky), before, call.candidates, call.ctx, call.session, after, call.decision)
    requires call.decision.Some? && !FollowsRecord(Engine(DEFAULT_POLICY, sticky), before, call)
    ensures exists w :: w in call.candidates && w.contextWindow >= call.ctx.tokenBudget && w.backendId == call.decision.value.backendId
    ensures forall c :: c in call.candidates && c.contextWindow >= call.ctx.tokenBudget ==>
              LessLoaded(loads, call.decision.value.backendId, c.backendId)
  {
    var eligible := Eligible(call.candidates, call.ctx.tokenBudget);
    DistinctEligible(call.candidates, call.ctx.tokenBudget);
    FreshIsBest(Engine(DEFAULT_POLICY, sticky), before, call, after);
    var w :| w in eligible && w.backendId == call.decision.value.backendId;
    forall c | c in call.candidates && c.contextWindow >= call.ctx.tokenBudget
      ensures LessLoaded(loads, w.backendId, c.backendId)
    {
      WinnerIsLessLoaded(eligible, call.ctx, loads, w, c);
    }
  }

  // ---------------------------------------------------------------- sticky sessions over runs

  /** A run of routing calls: the records before, between and after them. */
  ghost predicate IsRoutingRun(engine: Engine, records: seq<Assignments>, calls: seq<Call>) {
    && |records| == |calls| + 1
    && forall i :: 0 <= i < |calls| ==>
         Routed(engine, records[i], calls[i].candidates, calls[i].ctx, calls[i].session, records[i + 1], calls[i].decision)
  }

  lemma StickyStep(engine: Engine, before: Assignments, call: Call, after: Assignments, s: SessionId)
    requires Routed(engine, before, call.candidates, call.ctx, call.session, after, call.decision) && s in before
    ensures s in after && after[s] == before[s]
    ensures RecordEligible(engine, call, s, before[s]) ==> call.decision.Some? && call.decision.value.backendId == before[s]
  {
    var eligible := Eligible(call.candidates, call.ctx.tokenBudget);
    if RecordEligible(engine, call, s, before[s]) {
      var c :| c in call.candidates && c.contextWindow >= call.ctx.tokenBudget && c.backendId == before[s];
      assert c in eligible;
      assert before[s] in ScoreMap(engine.policy, eligible, call.ctx);
    }
  }

  /** A sticky record is never changed, and it is followed whenever its backend is eligible. */
  lemma {:induction false} StickyForever(engine: Engine, records: seq<Assignments>, calls: seq<Call>, i: nat, j: nat, s: SessionId)
    requires IsRoutingRun(engine, records, calls) && i <= j < |calls| && s in records[i]
    ensures s in records[j + 1] && records[j + 1][s] == records[i][s]
    ensures RecordEligible(engine, calls[j], s, records[i][s]) ==>
              calls[j].decision.Some? && calls[j].decision.value.backendId == records[i][s]
    decreases j - i
  {
    if i < j {
      StickyForever(engine, records, calls, i, j - 1, s);
    }
    StickyStep(engine, records[j], calls[j], records[j + 1], s);
  }

  /** A record is written by the first call of its session that is routed at all. */
  lemma RecordIsFirstDecision(engine: Engine, records: seq<Assignments>, calls: seq<Call>, i: nat, s: SessionId)
    requires IsRoutingRun(engine, records, calls) && i < |calls| && s !in records[i] && s in records[i + 1]
    ensures engine.stickySessions && calls[i].session == Some(s) && calls[i].decision.Some?
    ensures records[i + 1] == records[i][s := calls[i].decision.value.backendId]
    ensures IsBest(calls[i].decision.value.scores, calls[i].decision.value.backendId)
    ensures forall j :: 0 <= j < i && calls[j].session == Some(s) ==> calls[j].decision == None
  {
    assert Routed(engine, records[i], calls[i].candidates, calls[i].ctx, calls[i].session, records[i + 1], calls[i].decision);
    forall j | 0 <= j < i && calls[j].session == Some(s) ensures calls[j].decision == None {
      UnrecordedWasNotRouted(engine, records, calls, j, i, s);
    }
  }

  lemma UnrecordedWasNotRouted(engine: Engine, records: seq<Assignments>, calls: seq<Call>, j: nat, i: nat, s: SessionId)
    requires IsRoutingRun(engine, records, calls) && j < i <= |calls| && s !in records[i]
    requires engine.stickySessions && calls[j].session == Some(s)
    ensures calls[j].decision == None
  {
    assert Routed(engine, records[j], calls[j].candidates, calls[j].ctx, calls[j].session, records[j + 1], calls[j].decision);
    if s in records[j + 1] && j + 1 < i {
      StickyForever(engine, records, calls, j + 1, i - 1, s);
    }
  }
}
