/** The in-memory host registry (registry/registry.py): hosts in registration order, each with
    the number of requests it is serving. */
module Registry {
  import opened Basics
  import opened Scheduling

  datatype HostInfo = HostInfo(maxConcurrent: int, contextWindow: int, inFlight: int, lastSeen: int)

  class HostRegistry {
    var order: seq<HostId>
    var hosts: map<HostId, HostInfo>

    ghost predicate Valid()
      reads this
    {
      && (forall h :: h in order <==> h in hosts)
      && (forall i, j :: 0 <= i < j < |order| ==> order[i] != order[j])
    }

    constructor ()
      ensures Valid() && hosts == map[] && order == []
    {
      order, hosts := [], map[];
    }

    /** A new host starts idle; a known one keeps its place and its running requests. */
    method Register(hostId: HostId, maxConcurrent: int, contextWindow: int, at: int)
      requires Valid()
      modifies this
      ensures Valid()
      ensures order == if hostId in old(hosts) then old(order) else old(order) + [hostId]
      ensures hosts == old(hosts)[hostId := HostInfo(maxConcurrent, contextWindow,
                                                     if hostId in old(hosts) then old(hosts)[hostId].inFlight else 0, at)]
    {
      var inFlight := if hostId in hosts then hosts[hostId].inFlight else 0;
      if hostId !in hosts {
        order := order + [hostId];
      }
      hosts := hosts[hostId := HostInfo(maxConcurrent, contextWindow, inFlight, at)];
    }

    /** Hosts with their load, in registration order. */
    method Loads() returns (loads: seq<HostLoad>)
      requires Valid()
      ensures |loads| == |order|
      ensures forall i :: 0 <= i < |order| ==>
                order[i] in hosts && loads[i] == HostLoad(order[i], hosts[order[i]].inFlight, hosts[order[i]].maxConcurrent)
    {
      loads := [];
      for i := 0 to |order|
        invariant |loads| == i
        invariant forall k :: 0 <= k < i ==>
                      order[k] in hosts && loads[k] == HostLoad(order[k], hosts[order[k]].inFlight, hosts[order[k]].maxConcurrent)
      {
        var h := order[i];
        assert h in order;
        loads := loads + [HostLoad(h, hosts[h].inFlight, hosts[h].maxConcurrent)];
      }
    }

    method AcquireSlot(hostId: HostId)
      requires Valid() && hostId in hosts
      modifies this`hosts
      ensures Valid()
      ensures hosts == old(hosts)[hostId := old(hosts)[hostId].(inFlight := old(hosts)[hostId].inFlight + 1)]
    {
      hosts := hosts[hostId := hosts[hostId].(inFlight := hosts[hostId].inFlight + 1)];
    }

    method ReleaseSlot(hostId: HostId)
      requires Valid() && hostId in hosts
      modifies this`hosts
      ensures Valid()
      ensures hosts == old(hosts)[hostId := old(hosts)[hostId].(inFlight := old(hosts)[hostId].inFlight - 1)]
    {
      hosts := hosts[hostId := hosts[hostId].(inFlight := hosts[hostId].inFlight - 1)];
    }

    /** False stands for the error that the host has no registration. */
    method Heartbeat(hostId: HostId, at: int) returns (known: bool)
      requires Valid()
      modifies this`hosts
      ensures Valid() && known == (hostId in old(hosts))
      ensures hosts == if known then old(hosts)[hostId := old(hosts)[hostId].(lastSeen := at)] else old(hosts)
    {
      known := hostId in hosts;
      if known {
        hosts := hosts[hostId := hosts[hostId].(lastSeen := at)];
      }
    }
  }
}
