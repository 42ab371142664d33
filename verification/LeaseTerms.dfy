/** What a hold is worth, in its holder's terms: what a reservation asks for and gets, what a
    renewal extends, and how long a holder can rely on either. */
module LeaseTerms {
  import opened Basics
  import opened Text
  import opened Leases
  import opened LeaseRuns

  /** The token stands for a lease whose two ends both lie ahead. */
  predicate Lives(t: Table, k: Token, now: int) {
    k in t.byToken && now < t.byToken[k].expiresAt && now < t.byToken[k].hardExpiresAt
  }

  /** The host is under a lease whose two ends both lie ahead. */
  predicate HeldNow(t: Table, h: HostId, now: int) {
    h in t.byHost && now < t.byHost[h].expiresAt && now < t.byHost[h].hardExpiresAt
  }

  /** A token is accepted exactly while its lease lives, a host reported held exactly while its lease does. */
  lemma AnswersFollowTheEnds(t: Table, k: Token, h: HostId, now: int)
    ensures RequireSpec(t, k, now).1.Ok? <==> Lives(t, k, now)
    ensures RequireSpec(t, k, now).1.Ok? ==> RequireSpec(t, k, now).1.value == t.byToken[k]
    ensures HeldSpec(t, h, now).1.Some? <==> HeldNow(t, h, now)
    ensures HeldSpec(t, h, now).1.Some? ==> HeldSpec(t, h, now).1.value == t.byHost[h]
  {
  }

  // ---------------------------------------------------------------- what is refused at once

  /** A reservation is refused for its holder exactly when that is blank; for its ceiling exactly
      when the one asked for is not positive or too long; none is too long when none is asked for. */
  lemma RefusedAtOnce(settings: Settings, t: Table, req: Request, now: int)
    requires settings.Valid()
    ensures var r := ReserveSpec(settings, t, req, now).1;
            && (r == Err(EmptyHolder) <==> Blank(req.holder))
            && (r == Err(CeilingNotPositive) <==> !Blank(req.holder) && req.ceiling.Some? && req.ceiling.value <= 0)
            && (r.Err? && r.error.CeilingTooLong? <==>
                !Blank(req.holder) && req.ceiling.Some? && req.ceiling.value > settings.maxCeiling)
            && (r.Err? && r.error.CeilingTooLong? ==> r.error == CeilingTooLong(req.ceiling.value, settings.maxCeiling))
    ensures var (t', r) := ReserveSpec(settings, t, req, now);
            r.Err? && (r.error.EmptyHolder? || r.error.CeilingNotPositive? || r.error.CeilingTooLong?) ==> t' == t
  {
    StripEmptyIffBlank(req.holder);
    if Complaint(settings, req).None? && Choose(settings, Purged(t, now).byHost, req).Err? {
      RefusedForItsHost(settings, Purged(t, now).byHost, req);
    }
  }

  /** A choice of host is never refused for its holder or ceiling. */
  lemma RefusedForItsHost(settings: Settings, byHost: ByHost, req: Request)
    requires Choose(settings, byHost, req).Err?
    ensures Choose(settings, byHost, req).error.NotRegistered? || Choose(settings, byHost, req).error.Refused?
  {
  }

  // ---------------------------------------------------------------- when a host is granted

  /** The ids of healthy hosts of the list that nobody holds. */
  ghost function Spare(t: Table, hosts: seq<ReservableHost>, now: int): set<HostId> {
    set host | host in hosts && host.healthy && !HeldNow(t, host.hostId, now) :: host.hostId
  }

  /** A host of the list that serves what is asked for and that nobody holds. */
  ghost predicate IsFree(t: Table, req: Request, host: ReservableHost, now: int) {
    host in req.hosts && (req.model.Some? ==> host.servesRequestedModel) && !HeldNow(t, host.hostId, now)
  }

  lemma {:induction false} HealthyIdsAre(hosts: seq<ReservableHost>)
    ensures HealthyIds(hosts) == set host | host in hosts && host.healthy :: host.hostId
  {
    if hosts != [] {
      HealthyIdsAre(hosts[1..]);
      assert forall host :: host in hosts <==> host == hosts[0] || host in hosts[1..];
    }
  }

  lemma SpareAreHealthy(t: Table, hosts: seq<ReservableHost>, now: int)
    ensures HealthyIds(hosts) - Purged(t, now).byHost.Keys == Spare(t, hosts, now)
  {
    HealthyIdsAre(hosts);
    assert forall h :: h in Purged(t, now).byHost.Keys <==> HeldNow(t, h, now);
  }

  lemma SpareIsActive(t: Table, hosts: seq<ReservableHost>, now: int)
    requires DistinctIds(hosts)
    ensures ActiveCount(hosts, Purged(t, now).byHost) == |Spare(t, hosts, now)|
  {
    ActiveCountIsCardinality(hosts, Purged(t, now).byHost);
    SpareAreHealthy(t, hosts, now);
  }

  /** An acceptable request without a named host is granted exactly when more healthy hosts are free
      than must stay and one of them serves; with a named one exactly when that is registered,
      serves, is free and, if healthy, can be spared. */
  lemma GrantedExactlyWhen(settings: Settings, t: Table, req: Request, now: int)
    requires settings.Valid() && DistinctIds(req.hosts)
    requires !Blank(req.holder) && (req.ceiling.Some? ==> 0 < req.ceiling.value <= settings.maxCeiling)
    ensures var spare := |Spare(t, req.hosts, now)| > settings.minActiveNodes;
            ReserveSpec(settings, t, req, now).1.Ok?
            <==> exists host :: IsFree(t, req, host, now)
                   && if req.hostId.None? then host.healthy && spare else host.hostId == req.hostId.value && (host.healthy ==> spare)
  {
    StripEmptyIffBlank(req.holder);
    SpareIsActive(t, req.hosts, now);
    if req.hostId.None? {
      AnyGranted(settings, t, req, now);
    } else {
      NamedGranted(settings, t, req, now);
    }
  }

  lemma AnyGranted(settings: Settings, t: Table, req: Request, now: int)
    requires req.hostId.None?
    ensures Choose(settings, Purged(t, now).byHost, req).Ok?
            <==> ActiveCount(req.hosts, Purged(t, now).byHost) > settings.minActiveNodes
                 && exists host :: IsFree(t, req, host, now) && host.healthy
  {
    var live := Purged(t, now).byHost;
    AnyGrantsLeast(settings, live, req);
    assert forall host :: Candidate(live, req, host) <==> IsFree(t, req, host, now) && host.healthy;
  }

  lemma NamedGranted(settings: Settings, t: Table, req: Request, now: int)
    requires req.hostId.Some? && DistinctIds(req.hosts)
    ensures Choose(settings, Purged(t, now).byHost, req).Ok?
            <==> exists host :: IsFree(t, req, host, now) && host.hostId == req.hostId.value
                   && (host.healthy ==> ActiveCount(req.hosts, Purged(t, now).byHost) > settings.minActiveNodes)
  {
    var live := Purged(t, now).byHost;
    var found := Known(req.hosts, req.hostId.value);
    if found.Some? {
      NamedGrant(settings, live, req, found.value);
      forall host | IsFree(t, req, host, now) && host.hostId == req.hostId.value ensures host == found.value {
        DistinctHosts(req.hosts, host, found.value);
      }
    }
  }

  // ---------------------------------------------------------------- why a host is refused

  /** Every line of a roster tells a host of the list, its status, and who holds it until when, if anybody does. */
  ghost predicate IsRoster(t: Table, hosts: seq<ReservableHost>, now: int, roster: seq<RosterLine>) {
    && |roster| == |hosts|
    && forall i :: 0 <= i < |hosts| ==>
         && roster[i].hostId == hosts[i].hostId && roster[i].status == hosts[i].status
         && (roster[i].hold.Some? <==> HeldNow(t, hosts[i].hostId, now))
         && (HeldNow(t, hosts[i].hostId, now) ==>
               var lease := t.byHost[hosts[i].hostId]; roster[i].hold == Some(Hold(lease.holder, lease.expiresAt, lease.hardExpiresAt)))
  }

  lemma RosterTells(t: Table, hosts: seq<ReservableHost>, now: int)
    ensures IsRoster(t, hosts, now, Roster(hosts, Purged(t, now).byHost))
  {
  }

  /** The reason a named host is refused: it does not serve, somebody holds it, or too few would be left. */
  ghost predicate TellsWhyNamed(settings: Settings, t: Table, req: Request, host: ReservableHost, now: int, reason: Reason) {
    if req.model.Some? && !host.servesRequestedModel then reason == DoesNotServe(host.hostId, req.model.value)
    else if HeldNow(t, host.hostId, now) then
      reason == AlreadyReserved(host.hostId, t.byHost[host.hostId].holder, t.byHost[host.hostId].expiresAt)
    else reason == WouldLeave(host.hostId, |Spare(t, req.hosts, now)| - 1, settings.minActiveNodes)
  }

  lemma NamedRefusal(settings: Settings, t: Table, req: Request, host: ReservableHost, now: int)
    requires DistinctIds(req.hosts) && host in req.hosts && req.hostId == Some(host.hostId)
    ensures var choice := Choose(settings, Purged(t, now).byHost, req);
            choice.Err? ==>
              && choice.error.Refused? && choice.error.roster == Roster(req.hosts, Purged(t, now).byHost)
              && TellsWhyNamed(settings, t, req, host, now, choice.error.reason)
  {
    DistinctHosts(req.hosts, Known(req.hosts, host.hostId).value, host);
    SpareIsActive(t, req.hosts, now);
  }

  /** The reason a request without a name is refused: nobody serves, all who do are held, or too few would be left. */
  ghost predicate TellsWhyAny(settings: Settings, t: Table, req: Request, now: int, reason: Reason) {
    if !exists host :: host in req.hosts && (req.model.Some? ==> host.servesRequestedModel) then
      reason == if req.model.Some? then NoneServes(req.model.value) else NoneRegistered
    else if !exists host :: IsFree(t, req, host, now) then reason == NoneFree
    else reason == BelowMinimum(settings.minActiveNodes)
  }

  lemma AnyRefusal(settings: Settings, t: Table, req: Request, now: int)
    requires req.hostId.None?
    ensures var choice := Choose(settings, Purged(t, now).byHost, req);
            choice.Err? ==>
              && choice.error.Refused? && choice.error.roster == Roster(req.hosts, Purged(t, now).byHost)
              && TellsWhyAny(settings, t, req, now, choice.error.reason)
  {
    var matching := Matching(req.hosts, req.model);
    var free := Free(matching, Purged(t, now).byHost);
    assert forall host :: host in matching <==> host in req.hosts && (req.model.Some? ==> host.servesRequestedModel);
    assert forall host :: host in free <==> IsFree(t, req, host, now);
    assert matching != [] ==> matching[0] in matching;
    assert free != [] ==> free[0] in free;
  }

  /** An acceptable request that is not granted is told why, with a roster of all hosts. */
  lemma RefusalTellsWhy(settings: Settings, t: Table, req: Request, now: int)
    requires settings.Valid() && DistinctIds(req.hosts)
    requires !Blank(req.holder) && (req.ceiling.Some? ==> 0 < req.ceiling.value <= settings.maxCeiling)
    requires ReserveSpec(settings, t, req, now).1.Err?
    ensures var error := ReserveSpec(settings, t, req, now).1.error;
            if req.hostId.Some? && !exists host :: host in req.hosts && host.hostId == req.hostId.value then
              error == NotRegistered(req.hostId.value)
            else
              && error.Refused? && IsRoster(t, req.hosts, now, error.roster)
              && if req.hostId.None? then TellsWhyAny(settings, t, req, now, error.reason)
                 else exists host :: host in req.hosts && host.hostId == req.hostId.value
                                     && TellsWhyNamed(settings, t, req, host, now, error.reason)
  {
    StripEmptyIffBlank(req.holder);
    RosterTells(t, req.hosts, now);
    if req.hostId.None? {
      AnyRefusal(settings, t, req, now);
    } else if Known(req.hosts, req.hostId.value).Some? {
      NamedRefusal(settings, t, req, Known(req.hosts, req.hostId.value).value, now);
    }
  }

  // ---------------------------------------------------------------- what a grant says

  /** `cleaned` is `text` without the whitespace at its ends. */
  ghost predicate IsTrimmed(cleaned: string, text: string) {
    && (cleaned != [] ==> !IsSpace(cleaned[0]) && !IsSpace(cleaned[|cleaned| - 1]))
    && exists before, after :: Blank(before) && Blank(after) && text == before + cleaned + after
  }

  /** A grant is for a host of the list that serves what is asked for and that nobody held, under
      the drawn token, from now to the ceiling asked for, else the default one, and for no more
      than one ttl before it is renewed. */
  lemma GrantIsAsAsked(settings: Settings, t: Table, req: Request, now: int)
    requires ReserveSpec(settings, t, req, now).1.Ok?
    ensures var lease := ReserveSpec(settings, t, req, now).1.value;
            && lease.token == req.newToken && lease.createdAt == now && IsTrimmed(lease.holder, req.holder)
            && (req.ceiling.Some? ==> lease.hardExpiresAt == now + req.ceiling.value)
            && (req.ceiling.None? ==> lease.hardExpiresAt == now + settings.defaultCeiling)
            && lease.expiresAt <= now + settings.ttl && lease.expiresAt <= lease.hardExpiresAt
            && (lease.expiresAt == now + settings.ttl || lease.expiresAt == lease.hardExpiresAt)
            && (req.hostId.Some? ==> lease.hostId == req.hostId.value)
            && !HeldNow(t, lease.hostId, now)
            && exists host :: host in req.hosts && host.hostId == lease.hostId && (req.model.Some? ==> host.servesRequestedModel)
  {
    StripIsTrimmed(req.holder);
    ChosenIsFree(settings, Purged(t, now).byHost, req);
  }

  lemma StripIsTrimmed(text: string)
    ensures IsTrimmed(Strip(text), text)
  {
    var before := StripLeftDrops(text);
    var after := StripRightDrops(StripLeft(text));
    assert text == before + Strip(text) + after;
    if Strip(text) != [] {
      assert Strip(text)[0] == StripLeft(text)[0];
    }
  }

  lemma {:induction false} StripLeftDrops(text: string) returns (before: string)
    ensures Blank(before) && text == before + StripLeft(text)
  {
    if text != [] && IsSpace(text[0]) {
      var more := StripLeftDrops(text[1..]);
      before := [text[0]] + more;
      assert text == [text[0]] + text[1..];
    } else {
      before := [];
    }
  }

  lemma {:induction false} StripRightDrops(text: string) returns (after: string)
    ensures Blank(after) && text == StripRight(text) + after
  {
    if text != [] && IsSpace(text[|text| - 1]) {
      var more := StripRightDrops(text[..|text| - 1]);
      after := more + [text[|text| - 1]];
      assert text == text[..|text| - 1] + [text[|text| - 1]];
    } else {
      after := [];
    }
  }

  // ---------------------------------------------------------------- how long a holder can rely on it

  /** Token k holds host h at least until `until`. */
  ghost predicate HoldsUntil(t: Table, k: Token, h: HostId, until: int) {
    && k in t.byToken && t.byToken[k].hostId == h
    && until <= t.byToken[k].expiresAt && until <= t.byToken[k].hardExpiresAt
  }

  /** Neither the holder gives it back nor the operator takes it away. */
  ghost predicate LeftAlone(ops: seq<Timed>, k: Token, h: HostId) {
    forall i :: 0 <= i < |ops| ==> ops[i].op != OpRelease(k) && ops[i].op != OpForceRelease(h)
  }

  /** No operation before `until` other than those two shortens a hold; a renewal may extend it. */
  lemma StepKeepsHold(settings: Settings, t: Table, op: Op, now: int, k: Token, h: HostId, until: int)
    requires Paired(t) && UsesNewToken(t, op) && HoldsUntil(t, k, h, until)
    requires now < until <= now + settings.ttl
    requires op != OpRelease(k) && op != OpForceRelease(h)
    ensures HoldsUntil(Lazy(settings, t, op, now).0, k, h, until)
  {
  }

  lemma {:induction false} RunKeepsHold(settings: Settings, t: Table, ops: seq<Timed>, k: Token, h: HostId, from: int, later: int, until: int)
    requires Paired(t) && NewTokens(settings, t, ops) && InOrderUntil(ops, from, later) && LeftAlone(ops, k, h)
    requires HoldsUntil(t, k, h, until) && later < until <= from + settings.ttl
    ensures HoldsUntil(LazyAfter(settings, t, ops), k, h, until) && Paired(LazyAfter(settings, t, ops))
    decreases |ops|
  {
    if ops != [] {
      OrderReaches(ops, from, later);
      StepKeepsHold(settings, t, ops[0].op, ops[0].now, k, h, until);
      LazyKeepsPaired(settings, t, ops[0].op, ops[0].now);
      RunKeepsHold(settings, Lazy(settings, t, ops[0].op, ops[0].now).0, ops[1..], k, h, ops[0].now, later, until);
    }
  }

  lemma {:induction false} OrderReaches(ops: seq<Timed>, from: int, later: int)
    requires InOrderUntil(ops, from, later)
    ensures from <= later && (ops != [] ==> from <= ops[0].now <= later)
  {
    if ops != [] {
      OrderReaches(ops[1..], ops[0].now, later);
    }
  }

  /** The ceiling of the hold a grant or a renewal is about: the one asked for, else the default
      one, counted from the grant. */
  ghost predicate WithinCeiling(settings: Settings, t: Table, op: Op, now: int, later: int) {
    match op
    case OpReserve(req) => if req.ceiling.Some? then later < now + req.ceiling.value else later < now + settings.defaultCeiling
    case OpHeartbeat(k) => k in t.byToken && later < t.byToken[k].hardExpiresAt
    case _ => false
  }

  lemma GrantHolds(settings: Settings, t: Table, op: Op, now: int, later: int)
    requires Paired(t) && UsesNewToken(t, op) && Lazy(settings, t, op, now).1.Granted?
    requires now <= later < now + settings.ttl && WithinCeiling(settings, t, op, now, later)
    ensures var (t', a) := Lazy(settings, t, op, now);
            HoldsUntil(t', a.lease.token, a.lease.hostId, later + 1)
  {
  }

  /** A hold can be relied on: after a grant or renewal at `now`, whatever operations follow in time
      order, unless they release the token or its host, the token is accepted and its host is held
      by it at every moment less than one ttl later and before the ceiling. */
  lemma HoldLasts(settings: Settings, t: Table, op: Op, now: int, ops: seq<Timed>, later: int)
    requires Paired(t) && UsesNewToken(t, op) && (op.OpReserve? || op.OpHeartbeat?)
    requires Lazy(settings, t, op, now).1.Granted?
    requires var (t', a) := Lazy(settings, t, op, now);
             NewTokens(settings, t', ops) && InOrderUntil(ops, now, later) && LeftAlone(ops, a.lease.token, a.lease.hostId)
    requires later < now + settings.ttl && WithinCeiling(settings, t, op, now, later)
    ensures var (t', a) := Lazy(settings, t, op, now);
            var after := LazyAfter(settings, t', ops);
            && RequireSpec(after, a.lease.token, later).1.Ok?
            && RequireSpec(after, a.lease.token, later).1.value.hostId == a.lease.hostId
            && HeldSpec(after, a.lease.hostId, later).1.Some?
            && HeldSpec(after, a.lease.hostId, later).1.value.token == a.lease.token
  {
    var (t', a) := Lazy(settings, t, op, now);
    OrderReaches(ops, now, later);
    LazyKeepsPaired(settings, t, op, now);
    GrantHolds(settings, t, op, now, later);
    RunKeepsHold(settings, t', ops, a.lease.token, a.lease.hostId, now, later, later + 1);
    HoldAnswers(LazyAfter(settings, t', ops), a.lease.token, a.lease.hostId, later);
  }

  lemma HoldAnswers(t: Table, k: Token, h: HostId, later: int)
    requires Paired(t) && HoldsUntil(t, k, h, later + 1)
    ensures RequireSpec(t, k, later).1 == Ok(t.byToken[k])
    ensures HeldSpec(t, h, later).1.Some? && HeldSpec(t, h, later).1.value.token == k
  {
  }
}
