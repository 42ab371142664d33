/** Slot accounting in the admission protocol: counters, owners and capacity. */
module AdmissionSlots {
  import opened Basics
  import opened Leases
  import opened LeaseRuns
  import opened Scheduling
  import opened DispatchOrder
  import opened Admission

  // ---------------------------------------------------------------- slots

  function OwnedHost(phase: Phase): Option<HostId> {
    match phase
    case Running(h) => Some(h)
    case Closing(h) => Some(h)
    case _ => None
  }

  /** The requests holding a slot of h. */
  ghost function Owners(phases: map<RequestId, Phase>, h: HostId): set<RequestId> {
    set r | r in phases && OwnedHost(phases[r]) == Some(h)
  }

  function Owns(phases: map<RequestId, Phase>, r: RequestId, h: HostId): nat {
    if r in phases && OwnedHost(phases[r]) == Some(h) then 1 else 0
  }

  /** Every counter equals the number of owners and stays within the host's capacity. */
  ghost predicate SlotInv(g: Gateway) {
    && Registered(g)
    && (forall h :: h in g.table ==> g.inFlight[h] == |Owners(g.phases, h)|)
    && (forall h :: h in g.table ==> g.inFlight[h] <= Max(0, g.table[h].maxConcurrent))
    && (forall r :: r in g.phases && OwnedHost(g.phases[r]).Some? ==> OwnedHost(g.phases[r]).value in g.table)
  }

  lemma OwnersAfter(phases: map<RequestId, Phase>, r: RequestId, phase: Phase, h: HostId)
    ensures var phases' := phases[r := phase];
            |Owners(phases', h)| == |Owners(phases, h)| - Owns(phases, r, h) + Owns(phases', r, h)
  {
    var phases' := phases[r := phase];
    var others := Owners(phases, h) - {r};
    assert Owners(phases, h) == if Owns(phases, r, h) == 1 then others + {r} else others;
    assert Owners(phases', h) == if Owns(phases', r, h) == 1 then others + {r} else others;
  }

  ghost function Owned(g: Gateway, r: RequestId): Option<HostId> {
    if r in g.phases then OwnedHost(g.phases[r]) else None
  }

  /** Request r changes phase and neither takes nor gives a slot. */
  ghost predicate Keeps(g: Gateway, g': Gateway, r: RequestId) {
    r in g'.phases && MovesTo(g, g', r, g'.phases[r]) && Owned(g', r) == Owned(g, r)
  }

  /** Request r takes a free slot of h. */
  ghost predicate Takes(g: Gateway, g': Gateway, r: RequestId, h: HostId) {
    && HasSlot(g.table, g.inFlight, h) && Owned(g, r) == None
    && g'.inFlight == g.inFlight[h := g.inFlight[h] + 1] && g'.phases == g.phases[r := Running(h)]
  }

  /** Request r gives its slot of h back. */
  ghost predicate Gives(g: Gateway, g': Gateway, r: RequestId, h: HostId) {
    && r in g'.phases && g'.phases[r].Gone? && Owned(g, r) == Some(h)
    && ReleasesTo(g, g', r, h, g'.phases[r].exit)
  }

  ghost predicate SlotStep(g: Gateway, g': Gateway, r: RequestId) {
    && g'.order == g.order && g'.table == g.table
    && (Keeps(g, g', r) || (exists h :: Takes(g, g', r, h)) || (exists h :: Gives(g, g', r, h)))
  }

  /** One request changing phase moves each counter with the owners of its host. */
  lemma CountersFollow(g: Gateway, g': Gateway, r: RequestId, h: HostId)
    requires SlotInv(g) && h in g.table && r in g'.phases && g'.phases == g.phases[r := g'.phases[r]]
    requires h in g'.inFlight && g'.inFlight[h] == g.inFlight[h] - Owns(g.phases, r, h) + Owns(g'.phases, r, h)
    ensures g'.inFlight[h] == |Owners(g'.phases, h)|
  {
    OwnersAfter(g.phases, r, g'.phases[r], h);
  }

  lemma KeepingKeepsSlots(g: Gateway, g': Gateway, r: RequestId)
    requires SlotInv(g) && g'.order == g.order && g'.table == g.table && Keeps(g, g', r)
    ensures SlotInv(g')
  {
    forall h | h in g'.table ensures g'.inFlight[h] == |Owners(g'.phases, h)| {
      CountersFollow(g, g', r, h);
    }
  }

  lemma TakingKeepsSlots(g: Gateway, g': Gateway, r: RequestId, x: HostId)
    requires SlotInv(g) && g'.order == g.order && g'.table == g.table && Takes(g, g', r, x)
    ensures SlotInv(g')
  {
    forall h | h in g'.table ensures g'.inFlight[h] == |Owners(g'.phases, h)| {
      CountersFollow(g, g', r, h);
    }
  }

  lemma GivingKeepsSlots(g: Gateway, g': Gateway, r: RequestId, x: HostId)
    requires SlotInv(g) && g'.order == g.order && g'.table == g.table && Gives(g, g', r, x)
    ensures SlotInv(g')
  {
    forall h | h in g'.table ensures g'.inFlight[h] == |Owners(g'.phases, h)| {
      CountersFollow(g, g', r, h);
    }
  }

  lemma SlotStepKeepsSlots(g: Gateway, g': Gateway, r: RequestId)
    requires SlotInv(g) && SlotStep(g, g', r)
    ensures SlotInv(g')
  {
    if Keeps(g, g', r) {
      KeepingKeepsSlots(g, g', r);
    } else if x :| Takes(g, g', r, x) {
      TakingKeepsSlots(g, g', r, x);
    } else {
      var x :| Gives(g, g', r, x);
      GivingKeepsSlots(g, g', r, x);
    }
  }

  lemma RouteIsSlotStep(g: Gateway, g': Gateway, r: RequestId, callback: Callback, t: int, winner: Option<HostId>)
    requires g'.order == g.order && g'.table == g.table
    requires r in g.requests && Owned(g, r) == None && Routes(g, g', r, Candidates(g, callback, t), winner)
    ensures SlotStep(g, g', r)
  {
    if winner.Some? {
      assert Takes(g, g', r, winner.value);
    }
  }

  lemma AdmitIsSlotStep(cfg: Config, g: Gateway, g': Gateway, r: RequestId, capable: seq<HostId>, at: int, later: int, winner: Option<HostId>)
    requires g'.order == g.order && g'.table == g.table && AdmitStep(cfg, g, g', r, capable, at, later, winner)
    ensures SlotStep(g, g', r)
  {
    var callback := Callback(g.requests[r].LeaseToken(), capable);
    if Routes(g, g', r, Candidates(g, callback, later), winner) {
      RouteIsSlotStep(g, g', r, callback, later, winner);
    }
  }

  lemma PollIsSlotStep(cfg: Config, g: Gateway, g': Gateway, r: RequestId, at: int, later: int, winner: Option<HostId>)
    requires g'.order == g.order && g'.table == g.table && PollStep(cfg, g, g', r, at, later, winner)
    ensures SlotStep(g, g', r)
  {
    var callback := g.phases[r].callback;
    if Routes(g, g', r, Candidates(g, callback, at), winner) {
      RouteIsSlotStep(g, g', r, callback, at, winner);
    }
  }

  /** The request an event is about. */
  function Subject(e: Event): Option<RequestId> {
    match e
    case LeaseEvent(_, _) => None
    case HealthChange(_) => None
    case _ => Some(e.r)
  }

  lemma NextIsSlotStep(cfg: Config, g: Gateway, e: Event, g': Gateway)
    requires Next(cfg, g, e, g')
    ensures if Subject(e).Some? then SlotStep(g, g', Subject(e).value)
            else g'.order == g.order && g'.table == g.table && g'.inFlight == g.inFlight && g'.phases == g.phases
  {
    match e
    case Arrive(r, request, at) => assert Keeps(g, g', r);
    case Admit(r, capable, at, later, winner) => AdmitIsSlotStep(cfg, g, g', r, capable, at, later, winner);
    case Poll(r, at, later, winner) => PollIsSlotStep(cfg, g, g', r, at, later, winner);
    case Finish(r) => assert Gives(g, g', r, g.phases[r].host);
    case BeginClose(r) => assert Keeps(g, g', r);
    case EndClose(r) => assert Gives(g, g', r, g.phases[r].host);
    case Disconnect(r) =>
      if g.phases[r].Running? && !g.requests[r].stream {
        assert Gives(g, g', r, g.phases[r].host);
      } else {
        assert Keeps(g, g', r);
      }
    case LeaseEvent(op, at) =>
    case HealthChange(healthy) =>
  }

  lemma NextKeepsSlots(cfg: Config, g: Gateway, e: Event, g': Gateway)
    requires SlotInv(g) && Next(cfg, g, e, g')
    ensures SlotInv(g')
  {
    NextIsSlotStep(cfg, g, e, g');
    if Subject(e).Some? {
      SlotStepKeepsSlots(g, g', Subject(e).value);
    }
  }
}
