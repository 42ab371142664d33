/** What the lease book promises over whole runs: dropping expired leases late is the same as
    dropping them at once, no hold outlives its terms, and routing keeps its minimum of nodes. */
module LeaseRuns {
  import opened Basics
  import opened Leases

  datatype Op =
    | OpReserve(request: Request)
    | OpRequire(token: Token)
    | OpIsHeld(hostId: HostId)
    | OpHeartbeat(token: Token)
    | OpRelease(token: Token)
    | OpForceRelease(hostId: HostId)
    | OpView(hostId: HostId)

  datatype Timed = Timed(op: Op, now: int)

  datatype Outcome = Granted(lease: Lease) | Failed(error: Error) | Held(held: bool) | Viewed(view: Option<LeaseView>)

  function FromResult(r: Result<Lease>): Outcome {
    match r
    case Ok(lease) => Granted(lease)
    case Err(e) => Failed(e)
  }

  /** One operation of the book as the source runs it. */
  function Lazy(settings: Settings, t: Table, op: Op, now: int): (Table, Outcome) {
    match op
    case OpReserve(req) => var (t', r) := ReserveSpec(settings, t, req, now); (t', FromResult(r))
    case OpRequire(k) => var (t', r) := RequireSpec(t, k, now); (t', FromResult(r))
    case OpIsHeld(h) => var (t', l) := HeldSpec(t, h, now); (t', Held(l.Some?))
    case OpHeartbeat(k) => var (t', r) := HeartbeatSpec(settings, t, k, now); (t', FromResult(r))
    case OpRelease(k) => var (t', r) := ReleaseSpec(t, k, now); (t', FromResult(r))
    case OpForceRelease(h) => var (t', r) := ForceReleaseSpec(t, h, now); (t', FromResult(r))
    case OpView(h) =>
      var (t', l) := HeldSpec(t, h, now);
      (t', Viewed(if l.Some? then Some(PublicView(settings, l.value, now)) else None))
  }

  // ---------------------------------------------------------------- the eager book

  ghost predicate HasToken(live: ByHost, k: Token) { exists h :: h in live && live[h].token == k }

  ghost function HostOf(live: ByHost, k: Token): (h: HostId)
    requires HasToken(live, k)
    ensures h in live && live[h].token == k
  {
    var h :| h in live && live[h].token == k;
    h
  }

  /** A book with one dictionary that first forgets every expired lease. */
  ghost function Eager(settings: Settings, book: ByHost, op: Op, now: int): (ByHost, Outcome) {
    var live := Unexpired(book, now);
    match op
    case OpReserve(req) =>
      if Complaint(settings, req).Some? then (live, Failed(Complaint(settings, req).value))
      else (match Choose(settings, live, req)
            case Err(e) => (live, Failed(e))
            case Ok(h) => (live[h := NewLease(settings, h, req, now)], Granted(NewLease(settings, h, req, now))))
    case OpRequire(k) => (live, if HasToken(live, k) then Granted(live[HostOf(live, k)]) else Failed(NotHeld))
    case OpIsHeld(h) => (live, Held(h in live))
    case OpHeartbeat(k) =>
      if HasToken(live, k) then
        var renewed := Renewed(settings, live[HostOf(live, k)], now);
        (live[renewed.hostId := renewed], Granted(renewed))
      else (live, Failed(NotHeld))
    case OpRelease(k) =>
      if HasToken(live, k) then (live - {HostOf(live, k)}, Granted(live[HostOf(live, k)])) else (live, Failed(NotHeld))
    case OpForceRelease(h) => if h in live then (live - {h}, Granted(live[h])) else (live, Failed(NotFound(h)))
    case OpView(h) => (live, Viewed(if h in live then Some(PublicView(settings, live[h], now)) else None))
  }

  /** The same answer, except that an ended lease may be reported as one never held. */
  predicate Agree(a: Outcome, b: Outcome) {
    a == b || (a.Failed? && b.Failed? && (a.error.Ended? || a.error == NotHeld) && b.error == NotHeld)
  }

  /** The random token of a reservation is not one the book still knows. */
  predicate UsesNewToken(t: Table, op: Op) { op.OpReserve? ==> op.request.newToken !in t.byToken }

  lemma PairedTokens(t: Table, k: Token, now: int)
    requires Paired(t)
    ensures var live := Unexpired(t.byHost, now);
            HasToken(live, k) <==> k in t.byToken && !Expired(t.byToken[k], now)
    ensures var live := Unexpired(t.byHost, now);
            HasToken(live, k) ==> HostOf(live, k) == t.byToken[k].hostId && live[HostOf(live, k)] == t.byToken[k]
  {
    var live := Unexpired(t.byHost, now);
    if k in t.byToken && !Expired(t.byToken[k], now) {
      assert t.byToken[k].hostId in live;
    }
  }

  lemma ReserveKeepsPaired(settings: Settings, t: Table, req: Request, now: int)
    requires Paired(t) && req.newToken !in t.byToken
    ensures Paired(ReserveSpec(settings, t, req, now).0)
  {
    if Complaint(settings, req).None? {
      var purged := Purged(t, now);
      PurgeKeepsPaired(t, now);
      if Choose(settings, purged.byHost, req).Ok? {
        ChosenIsFree(settings, purged.byHost, req);
        PutKeepsPaired(purged, NewLease(settings, Choose(settings, purged.byHost, req).value, req, now));
      }
    }
  }

  lemma PurgeKeepsPaired(t: Table, now: int)
    requires Paired(t)
    ensures Paired(Purged(t, now))
  {
  }

  /** A new lease of a free host with a new token, or a renewal in place, keeps the indexes paired. */
  lemma PutKeepsPaired(t: Table, lease: Lease)
    requires Paired(t)
    requires if lease.token in t.byToken then t.byToken[lease.token].hostId == lease.hostId else lease.hostId !in t.byHost
    ensures Paired(Put(t, lease))
  {
  }

  lemma DropKeepsPaired(t: Table, lease: Lease)
    requires Paired(t) && lease.hostId in t.byHost && t.byHost[lease.hostId] == lease
    ensures Paired(Drop(t, lease))
  {
  }

  lemma HeartbeatKeepsPaired(settings: Settings, t: Table, k: Token, now: int)
    requires Paired(t)
    ensures Paired(HeartbeatSpec(settings, t, k, now).0)
  {
    if k in t.byToken {
      DropKeepsPaired(t, t.byToken[k]);
      PutKeepsPaired(t, Renewed(settings, t.byToken[k], now));
    }
  }

  lemma LookupsKeepPaired(t: Table, k: Token, h: HostId, now: int)
    requires Paired(t)
    ensures Paired(RequireSpec(t, k, now).0) && Paired(ReleaseSpec(t, k, now).0) && Paired(HeldSpec(t, h, now).0)
  {
    if k in t.byToken {
      DropKeepsPaired(t, t.byToken[k]);
    }
    if h in t.byHost {
      DropKeepsPaired(t, t.byHost[h]);
    }
  }

  lemma ForceReleaseKeepsPaired(t: Table, h: HostId, now: int)
    requires Paired(t)
    ensures Paired(ForceReleaseSpec(t, h, now).0)
  {
    var purged := Purged(t, now);
    PurgeKeepsPaired(t, now);
    if h in purged.byHost {
      DropKeepsPaired(purged, purged.byHost[h]);
    }
  }

  lemma LazyKeepsPaired(settings: Settings, t: Table, op: Op, now: int)
    requires Paired(t) && UsesNewToken(t, op)
    ensures Paired(Lazy(settings, t, op, now).0)
  {
    match op
    case OpReserve(req) => ReserveKeepsPaired(settings, t, req, now);
    case OpRequire(k) => LookupsKeepPaired(t, k, "", now);
    case OpIsHeld(h) => LookupsKeepPaired(t, "", h, now);
    case OpHeartbeat(k) => HeartbeatKeepsPaired(settings, t, k, now);
    case OpRelease(k) => LookupsKeepPaired(t, k, "", now);
    case OpForceRelease(h) => ForceReleaseKeepsPaired(t, h, now);
    case OpView(h) => LookupsKeepPaired(t, "", h, now);
  }

  lemma FilterTwice(byHost: ByHost, now: int)
    ensures Unexpired(Unexpired(byHost, now), now) == Unexpired(byHost, now)
  {
  }

  lemma FilterDrop(byHost: ByHost, h: HostId, now: int)
    ensures Unexpired(byHost - {h}, now) == Unexpired(byHost, now) - {h}
    ensures h !in Unexpired(byHost, now) ==> Unexpired(byHost - {h}, now) == Unexpired(byHost, now)
  {
  }

  lemma FilterPut(byHost: ByHost, h: HostId, lease: Lease, now: int)
    ensures Unexpired(byHost[h := lease], now) == Unexpired(Unexpired(byHost, now)[h := lease], now)
  {
  }

  /** What a token or host lookup does to the live leases: nothing. */
  lemma RequireIsQuiet(t: Table, k: Token, now: int)
    requires Paired(t)
    ensures Unexpired(RequireSpec(t, k, now).0.byHost, now) == Unexpired(t.byHost, now)
    ensures RequireSpec(t, k, now).1.Ok? <==> HasToken(Unexpired(t.byHost, now), k)
    ensures RequireSpec(t, k, now).1.Ok? ==>
              RequireSpec(t, k, now) == (t, Ok(t.byToken[k]))
              && HostOf(Unexpired(t.byHost, now), k) == t.byToken[k].hostId
              && Unexpired(t.byHost, now)[t.byToken[k].hostId] == t.byToken[k]
  {
    PairedTokens(t, k, now);
    if k in t.byToken {
      FilterDrop(t.byHost, t.byToken[k].hostId, now);
    }
  }

  lemma HeldIsQuiet(t: Table, h: HostId, now: int)
    requires Paired(t)
    ensures Unexpired(HeldSpec(t, h, now).0.byHost, now) == Unexpired(t.byHost, now)
    ensures HeldSpec(t, h, now).1 == if h in Unexpired(t.byHost, now) then Some(Unexpired(t.byHost, now)[h]) else None
  {
    FilterDrop(t.byHost, h, now);
  }

  lemma LazyStepAgrees(settings: Settings, t: Table, book: ByHost, op: Op, now: int)
    requires Paired(t) && UsesNewToken(t, op)
    requires Unexpired(t.byHost, now) == Unexpired(book, now)
    ensures var (t', a) := Lazy(settings, t, op, now);
            var (book', b) := Eager(settings, book, op, now);
            Agree(a, b) && Unexpired(t'.byHost, now) == Unexpired(book', now)
  {
    var live := Unexpired(book, now);
    FilterTwice(book, now);
    match op
    case OpReserve(req) =>
    case OpRequire(k) => RequireIsQuiet(t, k, now);
    case OpIsHeld(h) => HeldIsQuiet(t, h, now);
    case OpView(h) => HeldIsQuiet(t, h, now);
    case OpHeartbeat(k) =>
      RequireIsQuiet(t, k, now);
      if HasToken(live, k) {
        FilterPut(t.byHost, HostOf(live, k), Renewed(settings, t.byToken[k], now), now);
      }
    case OpRelease(k) =>
      RequireIsQuiet(t, k, now);
      if HasToken(live, k) {
        FilterDrop(t.byHost, HostOf(live, k), now);
        FilterDrop(live, HostOf(live, k), now);
      }
    case OpForceRelease(h) =>
      FilterDrop(live, h, now);
  }

  lemma UnexpiredLater(a: ByHost, b: ByHost, now: int, later: int)
    requires Unexpired(a, now) == Unexpired(b, now) && now <= later
    ensures Unexpired(a, later) == Unexpired(b, later)
  {
    forall h ensures h in Unexpired(a, later) <==> h in Unexpired(b, later) {
      assert h in Unexpired(a, now) <==> h in Unexpired(b, now);
    }
    forall h | h in Unexpired(a, later) ensures a[h] == b[h] {
      assert Unexpired(a, now)[h] == Unexpired(b, now)[h];
    }
  }

  // ---------------------------------------------------------------- runs

  ghost predicate InOrder(ops: seq<Timed>, from: int) {
    ops == [] || (from <= ops[0].now && InOrder(ops[1..], ops[0].now))
  }

  /** Every reservation of the run draws a token the book does not hold at that moment. */
  ghost predicate NewTokens(settings: Settings, t: Table, ops: seq<Timed>)
    decreases |ops|
  {
    ops == [] || (UsesNewToken(t, ops[0].op) && NewTokens(settings, Lazy(settings, t, ops[0].op, ops[0].now).0, ops[1..]))
  }

  function LazyOutcomes(settings: Settings, t: Table, ops: seq<Timed>): seq<Outcome>
    decreases |ops|
  {
    if ops == [] then []
    else
      var (t', a) := Lazy(settings, t, ops[0].op, ops[0].now);
      [a] + LazyOutcomes(settings, t', ops[1..])
  }

  function LazyAfter(settings: Settings, t: Table, ops: seq<Timed>): Table
    decreases |ops|
  {
    if ops == [] then t else LazyAfter(settings, Lazy(settings, t, ops[0].op, ops[0].now).0, ops[1..])
  }

  ghost function EagerOutcomes(settings: Settings, book: ByHost, ops: seq<Timed>): seq<Outcome>
    decreases |ops|
  {
    if ops == [] then []
    else
      var (book', a) := Eager(settings, book, ops[0].op, ops[0].now);
      [a] + EagerOutcomes(settings, book', ops[1..])
  }

  /** Over any run with a clock that never goes back, the lazy book answers as the eager one. */
  lemma {:induction false} LazyRefinesEager(settings: Settings, t: Table, book: ByHost, ops: seq<Timed>, from: int)
    requires Paired(t) && Unexpired(t.byHost, from) == Unexpired(book, from)
    requires InOrder(ops, from) && NewTokens(settings, t, ops)
    ensures var lazy, eager := LazyOutcomes(settings, t, ops), EagerOutcomes(settings, book, ops);
            |lazy| == |eager| == |ops| && forall i :: 0 <= i < |ops| ==> Agree(lazy[i], eager[i])
    decreases |ops|
  {
    if ops != [] {
      var op, now := ops[0].op, ops[0].now;
      UnexpiredLater(t.byHost, book, from, now);
      LazyStepAgrees(settings, t, book, op, now);
      LazyKeepsPaired(settings, t, op, now);
      LazyRefinesEager(settings, Lazy(settings, t, op, now).0, Eager(settings, book, op, now).0, ops[1..], now);
    }
  }

  // ---------------------------------------------------------------- terms of a hold

  /** Lease b is lease a, possibly renewed: same token, host, holder and ceiling. */
  predicate SameTerms(a: Lease, b: Lease) {
    b.(expiresAt := a.expiresAt) == a && (a.expiresAt <= a.hardExpiresAt ==> b.expiresAt <= b.hardExpiresAt)
  }

  lemma LazyKeepsTerms(settings: Settings, t: Table, op: Op, now: int, k: Token)
    requires Paired(t) && UsesNewToken(t, op) && k in t.byToken
    ensures var t' := Lazy(settings, t, op, now).0;
            k in t'.byToken ==> SameTerms(t.byToken[k], t'.byToken[k])
                                && (op != OpHeartbeat(k) ==> t'.byToken[k] == t.byToken[k])
  {
  }

  lemma LazyNeverRevives(settings: Settings, t: Table, op: Op, now: int, k: Token)
    requires Paired(t) && k !in t.byToken && !(op.OpReserve? && op.request.newToken == k)
    ensures k !in Lazy(settings, t, op, now).0.byToken
  {
  }

  ghost predicate NeverRedrawn(ops: seq<Timed>, k: Token) {
    forall i :: 0 <= i < |ops| && ops[i].op.OpReserve? ==> ops[i].op.request.newToken != k
  }

  /** Whatever happens in between, a token still in the book stands for the hold it was granted. */
  lemma {:induction false} TokenKeepsItsTerms(settings: Settings, t: Table, ops: seq<Timed>, k: Token)
    requires Paired(t) && k in t.byToken && NewTokens(settings, t, ops) && NeverRedrawn(ops, k)
    ensures var t' := LazyAfter(settings, t, ops);
            k in t'.byToken ==> SameTerms(t.byToken[k], t'.byToken[k])
    ensures var t' := LazyAfter(settings, t, ops);
            k in t'.byToken && (forall i :: 0 <= i < |ops| ==> ops[i].op != OpHeartbeat(k)) ==> t'.byToken[k] == t.byToken[k]
    decreases |ops|
  {
    if ops != [] {
      var t1 := Lazy(settings, t, ops[0].op, ops[0].now).0;
      LazyKeepsTerms(settings, t, ops[0].op, ops[0].now, k);
      LazyKeepsPaired(settings, t, ops[0].op, ops[0].now);
      if k in t1.byToken {
        TokenKeepsItsTerms(settings, t1, ops[1..], k);
      } else {
        GoneForGood(settings, t1, ops[1..], k);
      }
    }
  }

  lemma {:induction false} GoneForGood(settings: Settings, t: Table, ops: seq<Timed>, k: Token)
    requires Paired(t) && k !in t.byToken && NewTokens(settings, t, ops) && NeverRedrawn(ops, k)
    ensures k !in LazyAfter(settings, t, ops).byToken
    decreases |ops|
  {
    if ops != [] {
      LazyNeverRevives(settings, t, ops[0].op, ops[0].now, k);
      LazyKeepsPaired(settings, t, ops[0].op, ops[0].now);
      GoneForGood(settings, Lazy(settings, t, ops[0].op, ops[0].now).0, ops[1..], k);
    }
  }

  /** A grant or a renewal lasts one ttl, cut short only by the ceiling fixed at the grant. */
  lemma GrantedTerms(settings: Settings, t: Table, op: Op, now: int)
    requires Paired(t) && settings.Valid() && UsesNewToken(t, op) && (op.OpReserve? || op.OpHeartbeat?)
    requires Lazy(settings, t, op, now).1.Granted?
    ensures var (t', a) := Lazy(settings, t, op, now);
            && a.lease.token in t'.byToken && t'.byToken[a.lease.token] == a.lease
            && a.lease.expiresAt <= a.lease.hardExpiresAt && a.lease.expiresAt <= now + settings.ttl
            && (op.OpReserve? ==> a.lease.createdAt == now && now < a.lease.expiresAt
                                  && a.lease.hardExpiresAt <= now + settings.maxCeiling
                                  && (op.request.ceiling.Some? ==> a.lease.hardExpiresAt == now + op.request.ceiling.value)
                                  && (op.request.ceiling.None? ==> a.lease.hardExpiresAt == now + settings.defaultCeiling))
            && (op.OpHeartbeat? ==> op.token in t.byToken && a.lease.hardExpiresAt == t.byToken[op.token].hardExpiresAt)
            && (a.lease.expiresAt == now + settings.ttl || a.lease.expiresAt == a.lease.hardExpiresAt)
  {
  }

  /** After a grant or renewal at `now`, any run follows; at `later` the token is refused once its
      ceiling has passed, however often it was renewed, and once a ttl has passed unrenewed. */
  lemma HoldsEnd(settings: Settings, t: Table, op: Op, now: int, ops: seq<Timed>, later: int)
    requires Paired(t) && settings.Valid() && UsesNewToken(t, op) && (op.OpReserve? || op.OpHeartbeat?)
    requires Lazy(settings, t, op, now).1.Granted?
    requires var (t', a) := Lazy(settings, t, op, now);
             NewTokens(settings, t', ops) && NeverRedrawn(ops, a.lease.token)
    ensures var (t', a) := Lazy(settings, t, op, now);
            var unrenewed := forall i :: 0 <= i < |ops| ==> ops[i].op != OpHeartbeat(a.lease.token);
            later >= a.lease.hardExpiresAt || (unrenewed && later >= now + settings.ttl)
            ==> RequireSpec(LazyAfter(settings, t', ops), a.lease.token, later).1.Err?
  {
    var (t', a) := Lazy(settings, t, op, now);
    GrantedTerms(settings, t, op, now);
    LazyKeepsPaired(settings, t, op, now);
    TokenKeepsItsTerms(settings, t', ops, a.lease.token);
  }

  // ---------------------------------------------------------------- minimum of active nodes

  ghost function HealthyIds(hosts: seq<ReservableHost>): set<HostId> {
    if hosts == [] then {}
    else if hosts[0].healthy then {hosts[0].hostId} + HealthyIds(hosts[1..])
    else HealthyIds(hosts[1..])
  }

  ghost predicate Names(hosts: seq<ReservableHost>, h: HostId) { exists host :: host in hosts && host.hostId == h }

  ghost predicate DistinctIds(hosts: seq<ReservableHost>) {
    hosts == [] || (!Names(hosts[1..], hosts[0].hostId) && DistinctIds(hosts[1..]))
  }

  /** A host list that names each id once, with exactly these ids healthy. */
  ghost predicate Fleet(hosts: seq<ReservableHost>, healthy: set<HostId>) {
    DistinctIds(hosts) && HealthyIds(hosts) == healthy
  }

  lemma {:induction false} DistinctHosts(hosts: seq<ReservableHost>, a: ReservableHost, b: ReservableHost)
    requires DistinctIds(hosts) && a in hosts && b in hosts && a.hostId == b.hostId
    ensures a == b
  {
    if a in hosts[1..] && b in hosts[1..] {
      DistinctHosts(hosts[1..], a, b);
    } else {
      assert {a, b} <= {hosts[0]} + set host | host in hosts[1..];
    }
  }

  lemma {:induction false} HealthyHost(hosts: seq<ReservableHost>, h: HostId)
    requires h in HealthyIds(hosts)
    ensures exists host :: host in hosts && host.hostId == h && host.healthy
  {
    if hosts[0].healthy && hosts[0].hostId == h {
      assert hosts[0] in hosts;
    } else {
      HealthyHost(hosts[1..], h);
    }
  }

  ghost predicate SameFleet(op: Op, healthy: set<HostId>) { op.OpReserve? ==> Fleet(op.request.hosts, healthy) }

  ghost function ActiveNodes(healthy: set<HostId>, byHost: ByHost, now: int): nat { |healthy - Unexpired(byHost, now).Keys| }

  lemma AddBack(ids: set<HostId>, held: set<HostId>, h: HostId)
    requires h !in ids
    ensures |({h} + ids) - held| == |ids - held| + if h in held then 0 else 1
  {
    if h in held {
      assert ({h} + ids) - held == ids - held;
    } else {
      assert ({h} + ids) - held == (ids - held) + {h};
    }
  }

  lemma {:induction false} ActiveCountIsCardinality(hosts: seq<ReservableHost>, byHost: ByHost)
    requires DistinctIds(hosts)
    ensures ActiveCount(hosts, byHost) == |HealthyIds(hosts) - byHost.Keys|
  {
    var held := byHost.Keys;
    if hosts == [] {
      assert HealthyIds(hosts) - held == {};
    } else {
      var h, rest := hosts[0].hostId, HealthyIds(hosts[1..]);
      ActiveCountIsCardinality(hosts[1..], byHost);
      if hosts[0].healthy {
        if h in rest {
          HealthyHost(hosts[1..], h);
        }
        AddBack(rest, held, h);
      }
    }
  }

  lemma SmallerSet(a: set<HostId>, b: set<HostId>)
    requires a <= b
    ensures |a| <= |b|
  {
    assert b == a + (b - a);
  }

  lemma FewerHeldMoreActive(healthy: set<HostId>, a: ByHost, now: int, b: ByHost, later: int)
    requires Unexpired(b, later).Keys <= Unexpired(a, now).Keys
    ensures ActiveNodes(healthy, a, now) <= ActiveNodes(healthy, b, later)
  {
    SmallerSet(healthy - Unexpired(a, now).Keys, healthy - Unexpired(b, later).Keys);
  }

  lemma ReserveKeepsMinimum(settings: Settings, t: Table, req: Request, now: int, healthy: set<HostId>)
    requires Paired(t) && settings.Valid() && Fleet(req.hosts, healthy)
    requires ActiveNodes(healthy, t.byHost, now) >= Min(settings.minActiveNodes, |healthy|)
    ensures ActiveNodes(healthy, ReserveSpec(settings, t, req, now).0.byHost, now) >= Min(settings.minActiveNodes, |healthy|)
  {
    var live := Unexpired(t.byHost, now);
    var t' := ReserveSpec(settings, t, req, now).0;
    FilterTwice(t.byHost, now);
    if Complaint(settings, req).None? && Choose(settings, live, req).Ok? {
      var h := Choose(settings, live, req).value;
      assert Unexpired(t'.byHost, now).Keys <= live.Keys + {h};
      SmallerSet(healthy - (live.Keys + {h}), healthy - Unexpired(t'.byHost, now).Keys);
      GrantLeavesMinimum(settings, live, req, healthy);
    }
  }

  lemma TakeAway(healthy: set<HostId>, held: set<HostId>, h: HostId)
    requires h !in held
    ensures |healthy - (held + {h})| == |healthy - held| - if h in healthy then 1 else 0
  {
    if h in healthy {
      assert healthy - held == (healthy - (held + {h})) + {h};
    } else {
      assert healthy - held == healthy - (held + {h});
    }
  }

  lemma GrantLeavesMinimum(settings: Settings, live: ByHost, req: Request, healthy: set<HostId>)
    requires settings.Valid() && Fleet(req.hosts, healthy) && Choose(settings, live, req).Ok?
    requires |healthy - live.Keys| >= Min(settings.minActiveNodes, |healthy|)
    ensures |healthy - (live.Keys + {Choose(settings, live, req).value})| >= Min(settings.minActiveNodes, |healthy|)
  {
    var h := Choose(settings, live, req).value;
    ChosenIsFree(settings, live, req);
    ActiveCountIsCardinality(req.hosts, live);
    TakeAway(healthy, live.Keys, h);
    if h in healthy {
      ChosenLeavesSpare(settings, live, req);
    }
  }

  /** Granting a healthy host leaves the minimum. */
  lemma ChosenLeavesSpare(settings: Settings, live: ByHost, req: Request)
    requires DistinctIds(req.hosts) && Choose(settings, live, req).Ok?
    requires Choose(settings, live, req).value in HealthyIds(req.hosts)
    ensures ActiveCount(req.hosts, live) - 1 >= settings.minActiveNodes
  {
    if req.hostId.Some? {
      var found := Known(req.hosts, req.hostId.value).value;
      HealthyHost(req.hosts, found.hostId);
      var host :| host in req.hosts && host.hostId == found.hostId && host.healthy;
      DistinctHosts(req.hosts, found, host);
    }
  }

  lemma OthersHoldNoMore(settings: Settings, t: Table, op: Op, now: int)
    requires Paired(t) && !op.OpReserve?
    ensures Unexpired(Lazy(settings, t, op, now).0.byHost, now).Keys <= Unexpired(t.byHost, now).Keys
  {
    if op.OpHeartbeat? {
      RequireIsQuiet(t, op.token, now);
    }
  }

  lemma StepKeepsMinimum(settings: Settings, t: Table, op: Op, now: int, healthy: set<HostId>)
    requires Paired(t) && settings.Valid() && UsesNewToken(t, op) && SameFleet(op, healthy)
    requires ActiveNodes(healthy, t.byHost, now) >= Min(settings.minActiveNodes, |healthy|)
    ensures ActiveNodes(healthy, Lazy(settings, t, op, now).0.byHost, now) >= Min(settings.minActiveNodes, |healthy|)
  {
    if op.OpReserve? {
      ReserveKeepsMinimum(settings, t, op.request, now, healthy);
    } else {
      var t' := Lazy(settings, t, op, now).0;
      OthersHoldNoMore(settings, t, op, now);
      FewerHeldMoreActive(healthy, t.byHost, now, t'.byHost, now);
    }
  }

  ghost predicate FleetRun(ops: seq<Timed>, healthy: set<HostId>) {
    ops == [] || (SameFleet(ops[0].op, healthy) && FleetRun(ops[1..], healthy))
  }

  /** The clock does not go back from `from`, through the run, to `later`. */
  ghost predicate InOrderUntil(ops: seq<Timed>, from: int, later: int) {
    if ops == [] then from <= later else from <= ops[0].now && InOrderUntil(ops[1..], ops[0].now, later)
  }

  /** With a fixed fleet, no run of operations leaves routing below its minimum, then or later. */
  lemma {:induction false} MinimumStaysActive(settings: Settings, t: Table, ops: seq<Timed>, from: int, later: int, healthy: set<HostId>)
    requires Paired(t) && settings.Valid() && NewTokens(settings, t, ops)
    requires InOrderUntil(ops, from, later) && FleetRun(ops, healthy)
    requires ActiveNodes(healthy, t.byHost, from) >= Min(settings.minActiveNodes, |healthy|)
    ensures ActiveNodes(healthy, LazyAfter(settings, t, ops).byHost, later) >= Min(settings.minActiveNodes, |healthy|)
    decreases |ops|
  {
    var now := if ops == [] then later else ops[0].now;
    LaterHoldsLess(t.byHost, from, now);
    FewerHeldMoreActive(healthy, t.byHost, from, t.byHost, now);
    if ops != [] {
      var t' := Lazy(settings, t, ops[0].op, now).0;
      StepKeepsMinimum(settings, t, ops[0].op, now, healthy);
      LazyKeepsPaired(settings, t, ops[0].op, now);
      MinimumStaysActive(settings, t', ops[1..], now, later, healthy);
    }
  }

  lemma LaterHoldsLess(byHost: ByHost, now: int, later: int)
    requires now <= later
    ensures Unexpired(byHost, later).Keys <= Unexpired(byHost, now).Keys
  {
  }

  // ---------------------------------------------------------------- which host is granted

  ghost predicate Candidate(byHost: ByHost, req: Request, host: ReservableHost) {
    host in req.hosts && host.healthy && (req.model.Some? ==> host.servesRequestedModel) && host.hostId !in byHost
  }

  /** Without a named host, a reservation gets the least id among healthy, matching, free hosts,
      and is refused only when there is none or none can be spared. */
  lemma AnyGrantsLeast(settings: Settings, byHost: ByHost, req: Request)
    requires req.hostId == None
    ensures Choose(settings, byHost, req).Ok?
            <==> ActiveCount(req.hosts, byHost) > settings.minActiveNodes && exists host :: Candidate(byHost, req, host)
    ensures Choose(settings, byHost, req).Ok? ==>
              && (exists host :: Candidate(byHost, req, host) && host.hostId == Choose(settings, byHost, req).value)
              && (forall host :: Candidate(byHost, req, host) ==> AtMost(Choose(settings, byHost, req).value, host.hostId))
  {
    var activeFree := Healthy(Free(Matching(req.hosts, req.model), byHost));
    assert forall host :: host in activeFree <==> Candidate(byHost, req, host);
    if activeFree != [] {
      assert Candidate(byHost, req, activeFree[0]);
      var host :| host in activeFree && host.hostId == LeastId(activeFree);
      assert Candidate(byHost, req, host);
    }
  }

  /** A named host is granted exactly when it is registered, serves the model, is not reserved,
      and is either offline already or can be spared. */
  lemma NamedGrant(settings: Settings, byHost: ByHost, req: Request, host: ReservableHost)
    requires req.hostId == Some(host.hostId) && host in req.hosts && DistinctIds(req.hosts)
    ensures Choose(settings, byHost, req) == Ok(host.hostId)
            <==> && (req.model.Some? ==> host.servesRequestedModel) && host.hostId !in byHost
                 && (host.healthy ==> ActiveCount(req.hosts, byHost) > settings.minActiveNodes)
  {
    DistinctHosts(req.hosts, Known(req.hosts, host.hostId).value, host);
  }
}
