/** Node leases (leases/book.py, leases/models.py): two dictionaries, by host and by token,
    from which an expired lease is dropped only when an operation meets it. Time is an
    integer and never read here: callers pass it. */
module Leases {
  import opened Basics
  import opened Text

  datatype Settings = Settings(ttl: int, defaultCeiling: int, maxCeiling: int, minActiveNodes: int, expiringSoon: int)
  {
    predicate Valid() {
      ttl > 0 && 0 < defaultCeiling <= maxCeiling && minActiveNodes >= 0 && expiringSoon >= 0
    }
  }

  datatype ReservableHost = ReservableHost(hostId: HostId, status: string, healthy: bool, servesRequestedModel: bool)

  datatype Lease = Lease(hostId: HostId, holder: string, token: Token, expiresAt: int, hardExpiresAt: int, createdAt: int)

  datatype LeaseView = LeaseView(hostId: HostId, holder: string, expiresAt: int, hardExpiresAt: int, expiringSoon: bool)

  datatype Hold = Hold(holder: string, until: int, ceiling: int)

  datatype RosterLine = RosterLine(hostId: HostId, status: string, hold: Option<Hold>)

  datatype Reason =
    | DoesNotServe(hostId: HostId, model: string)
    | AlreadyReserved(hostId: HostId, holder: string, until: int)
    | WouldLeave(hostId: HostId, remaining: int, minimum: int)
    | NoneServes(model: string)
    | NoneRegistered
    | NoneFree
    | BelowMinimum(minimum: int)

  datatype Error =
    | EmptyHolder
    | CeilingNotPositive
    | CeilingTooLong(asked: int, maximum: int)
    | NotRegistered(hostId: HostId)
    | Refused(reason: Reason, roster: seq<RosterLine>)
    | NotHeld
    | Ended(hostId: HostId, holder: string)
    | NotFound(hostId: HostId)

  datatype Result<+T> = Ok(value: T) | Err(error: Error)

  /** What a caller asks for; `newToken` is the random token a grant would use. */
  datatype Request = Request(holder: string, hosts: seq<ReservableHost>, hostId: Option<HostId>,
                             model: Option<string>, ceiling: Option<int>, newToken: Token)

  // ---------------------------------------------------------------- the tables

  type ByHost = map<HostId, Lease>

  datatype Table = Table(byHost: ByHost, byToken: map<Token, Lease>)

  function EmptyTable(): Table { Table(map[], map[]) }

  predicate Expired(lease: Lease, now: int) { now >= lease.expiresAt || now >= lease.hardExpiresAt }

  /** The two dictionaries hold the same leases, each under its own host and its own token. */
  ghost predicate Paired(t: Table) {
    && (forall h :: h in t.byHost ==> t.byHost[h].hostId == h)
    && (forall h :: h in t.byHost ==> t.byHost[h].token in t.byToken && t.byToken[t.byHost[h].token] == t.byHost[h])
    && (forall k :: k in t.byToken ==> t.byToken[k].token == k)
    && (forall k :: k in t.byToken ==> t.byToken[k].hostId in t.byHost && t.byHost[t.byToken[k].hostId] == t.byToken[k])
  }

  function Unexpired(byHost: ByHost, now: int): (live: ByHost)
    ensures forall h :: h in live <==> h in byHost && !Expired(byHost[h], now)
    ensures forall h :: h in live ==> live[h] == byHost[h]
  {
    map h | h in byHost && !Expired(byHost[h], now) :: byHost[h]
  }

  function Purged(t: Table, now: int): Table {
    Table(Unexpired(t.byHost, now), map k | k in t.byToken && !Expired(t.byToken[k], now) :: t.byToken[k])
  }

  function Drop(t: Table, lease: Lease): Table { Table(t.byHost - {lease.hostId}, t.byToken - {lease.token}) }

  function Put(t: Table, lease: Lease): Table { Table(t.byHost[lease.hostId := lease], t.byToken[lease.token := lease]) }

  // ---------------------------------------------------------------- reserving

  /** The registered host of that id; the last one when a list repeats an id. */
  function Known(hosts: seq<ReservableHost>, hostId: HostId): (found: Option<ReservableHost>)
    ensures found.Some? ==> found.value in hosts && found.value.hostId == hostId
    ensures found.None? ==> forall host :: host in hosts ==> host.hostId != hostId
  {
    if hosts == [] then None
    else if hosts[|hosts| - 1].hostId == hostId then Some(hosts[|hosts| - 1])
    else Known(hosts[..|hosts| - 1], hostId)
  }

  function ActiveCount(hosts: seq<ReservableHost>, byHost: ByHost): nat {
    if hosts == [] then 0
    else (if hosts[0].healthy && hosts[0].hostId !in byHost then 1 else 0) + ActiveCount(hosts[1..], byHost)
  }

  predicate Matches(host: ReservableHost, model: Option<string>) { model == None || host.servesRequestedModel }

  function Matching(hosts: seq<ReservableHost>, model: Option<string>): (r: seq<ReservableHost>)
    ensures forall host :: host in r <==> host in hosts && Matches(host, model)
  {
    if hosts == [] then []
    else if Matches(hosts[0], model) then [hosts[0]] + Matching(hosts[1..], model)
    else Matching(hosts[1..], model)
  }

  function Free(hosts: seq<ReservableHost>, byHost: ByHost): (r: seq<ReservableHost>)
    ensures forall host :: host in r <==> host in hosts && host.hostId !in byHost
  {
    if hosts == [] then []
    else if hosts[0].hostId !in byHost then [hosts[0]] + Free(hosts[1..], byHost)
    else Free(hosts[1..], byHost)
  }

  function Healthy(hosts: seq<ReservableHost>): (r: seq<ReservableHost>)
    ensures forall host :: host in r <==> host in hosts && host.healthy
  {
    if hosts == [] then []
    else if hosts[0].healthy then [hosts[0]] + Healthy(hosts[1..])
    else Healthy(hosts[1..])
  }

  /** The id a list sorted by id would begin with. */
  function LeastId(hosts: seq<ReservableHost>): (id: HostId)
    requires hosts != []
    ensures exists host :: host in hosts && host.hostId == id
    ensures forall host :: host in hosts ==> AtMost(id, host.hostId)
  {
    if |hosts| == 1 then
      AtMostTotal(hosts[0].hostId, hosts[0].hostId);
      hosts[0].hostId
    else
      var rest := LeastId(hosts[1..]);
      AtMostTotal(hosts[0].hostId, rest);
      AtMostTotal(hosts[0].hostId, hosts[0].hostId);
      assert forall host :: host in hosts ==> host == hosts[0] || host in hosts[1..];
      if AtMost(hosts[0].hostId, rest) then
        LeastIdStep(hosts, rest);
        hosts[0].hostId
      else rest
  }

  lemma LeastIdStep(hosts: seq<ReservableHost>, rest: HostId)
    requires |hosts| > 1 && AtMost(hosts[0].hostId, rest)
    requires forall host :: host in hosts[1..] ==> AtMost(rest, host.hostId)
    ensures forall host :: host in hosts ==> AtMost(hosts[0].hostId, host.hostId)
  {
    forall host | host in hosts ensures AtMost(hosts[0].hostId, host.hostId) {
      if host in hosts[1..] {
        AtMostTransitive(hosts[0].hostId, rest, host.hostId);
      } else {
        AtMostTotal(host.hostId, host.hostId);
      }
    }
  }

  function Roster(hosts: seq<ReservableHost>, byHost: ByHost): seq<RosterLine> {
    seq(|hosts|, i requires 0 <= i < |hosts| =>
      var h := hosts[i].hostId;
      RosterLine(h, hosts[i].status,
                 if h in byHost then Some(Hold(byHost[h].holder, byHost[h].expiresAt, byHost[h].hardExpiresAt)) else None))
  }

  function ChosenCeiling(settings: Settings, asked: Option<int>): int {
    if asked.None? then settings.defaultCeiling else asked.value
  }

  /** The complaint about the request itself, if there is one. */
  function Complaint(settings: Settings, req: Request): Option<Error> {
    var ceiling := ChosenCeiling(settings, req.ceiling);
    if Strip(req.holder) == [] then Some(EmptyHolder)
    else if ceiling <= 0 then Some(CeilingNotPositive)
    else if ceiling > settings.maxCeiling then Some(CeilingTooLong(ceiling, settings.maxCeiling))
    else None
  }

  function ChooseSpecific(settings: Settings, byHost: ByHost, req: Request, host: ReservableHost): Result<HostId> {
    if !Matches(host, req.model) then Err(Refused(DoesNotServe(host.hostId, req.model.value), Roster(req.hosts, byHost)))
    else if host.hostId in byHost then
      var existing := byHost[host.hostId];
      Err(Refused(AlreadyReserved(host.hostId, existing.holder, existing.expiresAt), Roster(req.hosts, byHost)))
    else if host.healthy && ActiveCount(req.hosts, byHost) - 1 < settings.minActiveNodes then
      Err(Refused(WouldLeave(host.hostId, ActiveCount(req.hosts, byHost) - 1, settings.minActiveNodes), Roster(req.hosts, byHost)))
    else Ok(host.hostId)
  }

  function ChooseAny(settings: Settings, byHost: ByHost, req: Request): Result<HostId> {
    var matching := Matching(req.hosts, req.model);
    var free := Free(matching, byHost);
    var activeFree := Healthy(free);
    if matching == [] then
      Err(Refused(if req.model.Some? then NoneServes(req.model.value) else NoneRegistered, Roster(req.hosts, byHost)))
    else if free == [] then Err(Refused(NoneFree, Roster(req.hosts, byHost)))
    else if ActiveCount(req.hosts, byHost) - settings.minActiveNodes <= 0 || activeFree == [] then
      Err(Refused(BelowMinimum(settings.minActiveNodes), Roster(req.hosts, byHost)))
    else Ok(LeastId(activeFree))
  }

  /** The host a well-formed request gets from a table without expired leases. */
  function Choose(settings: Settings, byHost: ByHost, req: Request): Result<HostId> {
    if req.hostId.None? then ChooseAny(settings, byHost, req)
    else
      match Known(req.hosts, req.hostId.value)
      case None => Err(NotRegistered(req.hostId.value))
      case Some(host) => ChooseSpecific(settings, byHost, req, host)
  }

  lemma ChosenIsFree(settings: Settings, byHost: ByHost, req: Request)
    requires Choose(settings, byHost, req).Ok?
    ensures var h := Choose(settings, byHost, req).value;
            h !in byHost && exists host :: host in req.hosts && host.hostId == h && Matches(host, req.model)
  {
    if req.hostId.None? {
      var activeFree := Healthy(Free(Matching(req.hosts, req.model), byHost));
      var host :| host in activeFree && host.hostId == LeastId(activeFree);
      assert host in req.hosts && Matches(host, req.model);
    } else {
      var host := Known(req.hosts, req.hostId.value).value;
      assert host in req.hosts && Matches(host, req.model);
    }
  }

  function NewLease(settings: Settings, hostId: HostId, req: Request, now: int): Lease {
    var hard := now + ChosenCeiling(settings, req.ceiling);
    Lease(hostId, Strip(req.holder), req.newToken, Min(now + settings.ttl, hard), hard, now)
  }

  function ReserveSpec(settings: Settings, t: Table, req: Request, now: int): (Table, Result<Lease>) {
    if Complaint(settings, req).Some? then (t, Err(Complaint(settings, req).value))
    else
      var purged := Purged(t, now);
      match Choose(settings, purged.byHost, req)
      case Err(e) => (purged, Err(e))
      case Ok(h) =>
        var lease := NewLease(settings, h, req, now);
        (Put(purged, lease), Ok(lease))
  }

  /** A well-formed reservation is decided by the choice among the live leases. */
  lemma ReserveFollowsChoice(settings: Settings, t: Table, req: Request, now: int, choice: Result<HostId>)
    requires Complaint(settings, req).None? && choice == Choose(settings, Purged(t, now).byHost, req)
    ensures choice.Err? ==> ReserveSpec(settings, t, req, now) == (Purged(t, now), Err(choice.error))
    ensures choice.Ok? ==>
              var lease := NewLease(settings, choice.value, req, now);
              ReserveSpec(settings, t, req, now) == (Put(Purged(t, now), lease), Ok(lease))
    ensures choice.Ok? ==> choice.value !in Purged(t, now).byHost
  {
    if choice.Ok? {
      ChosenIsFree(settings, Purged(t, now).byHost, req);
    }
  }

  // ---------------------------------------------------------------- looking up

  /** The live lease of a token; an expired one is dropped on the way. */
  function RequireSpec(t: Table, token: Token, now: int): (Table, Result<Lease>) {
    if token !in t.byToken then (t, Err(NotHeld))
    else
      var lease := t.byToken[token];
      if Expired(lease, now) then (Drop(t, lease), Err(Ended(lease.hostId, lease.holder))) else (t, Ok(lease))
  }

  function HeldSpec(t: Table, hostId: HostId, now: int): (Table, Option<Lease>) {
    if hostId !in t.byHost then (t, None)
    else if Expired(t.byHost[hostId], now) then (Drop(t, t.byHost[hostId]), None)
    else (t, Some(t.byHost[hostId]))
  }

  function Renewed(settings: Settings, lease: Lease, now: int): Lease {
    lease.(expiresAt := Min(now + settings.ttl, lease.hardExpiresAt))
  }

  function HeartbeatSpec(settings: Settings, t: Table, token: Token, now: int): (Table, Result<Lease>) {
    match RequireSpec(t, token, now)
    case (t', Err(e)) => (t', Err(e))
    case (t', Ok(lease)) => (Put(t', Renewed(settings, lease, now)), Ok(Renewed(settings, lease, now)))
  }

  function ReleaseSpec(t: Table, token: Token, now: int): (Table, Result<Lease>) {
    match RequireSpec(t, token, now)
    case (t', Err(e)) => (t', Err(e))
    case (t', Ok(lease)) => (Drop(t', lease), Ok(lease))
  }

  function ForceReleaseSpec(t: Table, hostId: HostId, now: int): (Table, Result<Lease>) {
    var purged := Purged(t, now);
    if hostId !in purged.byHost then (purged, Err(NotFound(hostId)))
    else (Drop(purged, purged.byHost[hostId]), Ok(purged.byHost[hostId]))
  }

  function PublicView(settings: Settings, lease: Lease, now: int): LeaseView {
    LeaseView(lease.hostId, lease.holder, lease.expiresAt, lease.hardExpiresAt,
              Min(lease.expiresAt, lease.hardExpiresAt) - now <= settings.expiringSoon)
  }

  // ---------------------------------------------------------------- the book

  class NodeLeaseBook {
    const settings: Settings
    var byHost: ByHost
    var byToken: map<Token, Lease>

    ghost function State(): Table
      reads this
    {
      Table(byHost, byToken)
    }

    ghost predicate Valid()
      reads this
    {
      Paired(State())
    }

    constructor (settings: Settings)
      requires settings.Valid()
      ensures Valid() && this.settings == settings && State() == EmptyTable()
    {
      this.settings := settings;
      byHost, byToken := map[], map[];
    }

    method Reserve(req: Request, now: int) returns (r: Result<Lease>)
      requires Valid() && req.newToken !in byToken
      modifies this
      ensures Valid()
      ensures (State(), r) == ReserveSpec(settings, old(State()), req, now)
    {
      var cleaned := Strip(req.holder);
      if cleaned == [] {
        return Err(EmptyHolder);
      }
      var ceiling := if req.ceiling.None? then settings.defaultCeiling else req.ceiling.value;
      if ceiling <= 0 {
        return Err(CeilingNotPositive);
      }
      if ceiling > settings.maxCeiling {
        return Err(CeilingTooLong(ceiling, settings.maxCeiling));
      }
      r := ReserveChecked(req, cleaned, ceiling, now);
    }

    /** A reservation whose holder and ceiling are acceptable. */
    method ReserveChecked(req: Request, cleaned: string, ceiling: int, now: int) returns (r: Result<Lease>)
      requires Valid() && req.newToken !in byToken && Complaint(settings, req).None?
      requires cleaned == Strip(req.holder) && ceiling == ChosenCeiling(settings, req.ceiling)
      modifies this
      ensures Valid()
      ensures (State(), r) == ReserveSpec(settings, old(State()), req, now)
    {
      ghost var before := State();
      PurgeUnlocked(now);
      var choice := Decide(req);
      ReserveFollowsChoice(settings, before, req, now, choice);
      r := GrantChosen(choice, cleaned, req.newToken, ceiling, now);
    }

    /** Grant the chosen host, or pass the refusal on. */
    method GrantChosen(choice: Result<HostId>, holder: string, token: Token, ceiling: int, now: int) returns (r: Result<Lease>)
      requires Valid() && token !in byToken && (choice.Ok? ==> choice.value !in byHost)
      modifies this
      ensures Valid()
      ensures choice.Err? ==> r == Err(choice.error) && State() == old(State())
      ensures choice.Ok? ==>
                var lease := Lease(choice.value, holder, token, Min(now + settings.ttl, now + ceiling), now + ceiling, now);
                r == Ok(lease) && State() == Put(old(State()), lease)
    {
      if choice.Err? {
        return Err(choice.error);
      }
      var lease := Grant(choice.value, holder, token, ceiling, now);
      return Ok(lease);
    }

    /** The host a well-formed request gets, if any. */
    method Decide(req: Request) returns (choice: Result<HostId>)
      ensures choice == Choose(settings, byHost, req)
    {
      if req.hostId.Some? {
        var host := Known(req.hosts, req.hostId.value);
        if host.None? {
          return Err(NotRegistered(req.hostId.value));
        }
        return ChooseSpecific(settings, byHost, req, host.value);
      }
      return ChooseAny(settings, byHost, req);
    }

    method Grant(hostId: HostId, holder: string, token: Token, ceiling: int, now: int) returns (lease: Lease)
      requires Valid() && hostId !in byHost && token !in byToken
      modifies this
      ensures Valid() && State() == Put(old(State()), lease)
      ensures lease == Lease(hostId, holder, token, Min(now + settings.ttl, now + ceiling), now + ceiling, now)
    {
      var hardExpiresAt := now + ceiling;
      lease := Lease(hostId, holder, token, Min(now + settings.ttl, hardExpiresAt), hardExpiresAt, now);
      byHost := byHost[hostId := lease];
      byToken := byToken[lease.token := lease];
    }

    method Require(token: Token, now: int) returns (r: Result<Lease>)
      requires Valid()
      modifies this
      ensures Valid() && (State(), r) == RequireSpec(old(State()), token, now)
    {
      if token !in byToken {
        return Err(NotHeld);
      }
      var lease := byToken[token];
      if now >= lease.expiresAt || now >= lease.hardExpiresAt {
        DropUnlocked(lease);
        return Err(Ended(lease.hostId, lease.holder));
      }
      return Ok(lease);
    }

    method IsHeld(hostId: HostId, now: int) returns (held: bool)
      requires Valid()
      modifies this
      ensures Valid() && State() == HeldSpec(old(State()), hostId, now).0
      ensures held <==> HeldSpec(old(State()), hostId, now).1.Some?
    {
      if hostId !in byHost {
        return false;
      }
      var lease := byHost[hostId];
      if now >= lease.expiresAt || now >= lease.hardExpiresAt {
        DropUnlocked(lease);
        return false;
      }
      return true;
    }

    method Heartbeat(token: Token, now: int) returns (r: Result<Lease>)
      requires Valid()
      modifies this
      ensures Valid() && (State(), r) == HeartbeatSpec(settings, old(State()), token, now)
      ensures r.Ok? ==> && token in old(byToken)
                        && r.value == old(byToken)[token].(expiresAt := r.value.expiresAt)
                        && r.value.expiresAt <= now + settings.ttl && r.value.expiresAt <= r.value.hardExpiresAt
                        && (r.value.expiresAt == now + settings.ttl || r.value.expiresAt == r.value.hardExpiresAt)
    {
      r := Require(token, now);
      if r.Ok? {
        var updated := r.value.(expiresAt := Min(now + settings.ttl, r.value.hardExpiresAt));
        byHost := byHost[updated.hostId := updated];
        byToken := byToken[updated.token := updated];
        r := Ok(updated);
      }
    }

    method Release(token: Token, now: int) returns (r: Result<Lease>)
      requires Valid()
      modifies this
      ensures Valid() && (State(), r) == ReleaseSpec(old(State()), token, now)
    {
      r := Require(token, now);
      if r.Ok? {
        DropUnlocked(r.value);
      }
    }

    method ForceRelease(hostId: HostId, now: int) returns (r: Result<Lease>)
      requires Valid()
      modifies this
      ensures Valid() && (State(), r) == ForceReleaseSpec(old(State()), hostId, now)
    {
      PurgeUnlocked(now);
      if hostId !in byHost {
        return Err(NotFound(hostId));
      }
      var lease := byHost[hostId];
      DropUnlocked(lease);
      return Ok(lease);
    }

    method View(hostId: HostId, now: int) returns (view: Option<LeaseView>)
      requires Valid()
      modifies this
      ensures Valid() && State() == HeldSpec(old(State()), hostId, now).0
      ensures var held := HeldSpec(old(State()), hostId, now).1;
              view == if held.Some? then Some(PublicView(settings, held.value, now)) else None
      ensures view.Some? ==>
                && view.value.hostId == hostId && view.value.holder == old(byHost)[hostId].holder
                && view.value.expiresAt == old(byHost)[hostId].expiresAt && view.value.hardExpiresAt == old(byHost)[hostId].hardExpiresAt
                && (view.value.expiringSoon
                    <==> view.value.expiresAt <= now + settings.expiringSoon || view.value.hardExpiresAt <= now + settings.expiringSoon)
    {
      if hostId !in byHost {
        return None;
      }
      var lease := byHost[hostId];
      if now >= lease.expiresAt || now >= lease.hardExpiresAt {
        DropUnlocked(lease);
        return None;
      }
      var remaining := Min(lease.expiresAt, lease.hardExpiresAt) - now;
      return Some(LeaseView(lease.hostId, lease.holder, lease.expiresAt, lease.hardExpiresAt,
                            remaining <= settings.expiringSoon));
    }

    method DropUnlocked(lease: Lease)
      requires Valid() && lease.hostId in byHost && byHost[lease.hostId] == lease
      modifies this
      ensures Valid() && State() == Drop(old(State()), lease)
    {
      byHost := byHost - {lease.hostId};
      byToken := byToken - {lease.token};
    }

    /** Drop every expired lease, one at a time. */
    method PurgeUnlocked(now: int)
      requires Valid()
      modifies this
      ensures Valid() && State() == Purged(old(State()), now)
    {
      ghost var before := State();
      var expired := set h | h in byHost && Expired(byHost[h], now);
      while expired != {}
        invariant Valid()
        invariant expired == set h | h in byHost && Expired(byHost[h], now)
        invariant Purged(State(), now) == Purged(before, now)
        decreases expired
      {
        var h := AnyOf(expired);
        DropExpired(State(), byHost[h], now);
        DropUnlocked(byHost[h]);
        expired := expired - {h};
      }
      assert forall h :: h in byHost ==> h !in expired;
      NothingToPurge(State(), now);
    }
  }

  lemma DropExpired(t: Table, lease: Lease, now: int)
    requires Paired(t) && lease.hostId in t.byHost && t.byHost[lease.hostId] == lease && Expired(lease, now)
    ensures Paired(Drop(t, lease))
    ensures Purged(Drop(t, lease), now) == Purged(t, now)
  {
  }

  lemma NothingToPurge(t: Table, now: int)
    requires Paired(t) && forall h :: h in t.byHost ==> !Expired(t.byHost[h], now)
    ensures Purged(t, now) == t
  {
    assert Unexpired(t.byHost, now) == t.byHost;
    assert Purged(t, now).byToken == t.byToken;
  }
}
