/** `common/offer.go` as it runs: an OfferHelper with two mutable resource groups. Every method is proved to do
    to the fields what the function of the same name in Offers does to their value. */
module OfferHelpers {
  import opened Options
  import opened PortRanges
  import opened Offers

  // ---------- reading an offer ----------

  method GetResource(kind: Kind, resources: seq<Resource>, withReservation: bool) returns (val: real)
    ensures val == Scalar(kind, resources, withReservation)
  {
    val := 0.0;
    for i := 0 to |resources|
      invariant val == Scalar(kind, resources[..i], withReservation)
    {
      assert resources[..i + 1][..i] == resources[..i];
      if Selected(resources[i], kind.Name(), withReservation) {
        val := val + resources[i].scalar;
      }
    }
    assert resources[..|resources|] == resources;
  }

  method GetPorts(resources: seq<Resource>, withReservation: bool) returns (val: seq<nat>)
    ensures val == PortList(resources, withReservation)
  {
    hide Expand;
    val := [];
    for i := 0 to |resources|
      invariant val == PortList(resources[..i], withReservation)
    {
      assert resources[..i + 1][..i] == resources[..i];
      if Selected(resources[i], "ports", withReservation) {
        var ports := RangesToArray(resources[i].ranges);
        val := val + ports;
      }
    }
    assert resources[..|resources|] == resources;
  }

  method GetPersistenceIds(resources: seq<Resource>) returns (val: seq<string>)
    ensures val == PersistenceIds(resources)
  {
    val := [];
    for i := 0 to |resources|
      invariant val == PersistenceIds(resources[..i])
    {
      assert resources[..i + 1][..i] == resources[..i];
      if IsReservedVolume(resources[i]) {
        val := val + [resources[i].disk.value.persistenceId];
      }
    }
    assert resources[..|resources|] == resources;
  }

  method CopyReservedVolumes(resources: seq<Resource>) returns (reserved: seq<Resource>)
    ensures reserved == CopyVolumes(resources)
  {
    reserved := [];
    for i := 0 to |resources|
      invariant reserved == CopyVolumes(resources[..i])
    {
      assert resources[..i + 1][..i] == resources[..i];
      var r := resources[i];
      if IsReservedVolume(r) {
        reserved := reserved + [Resource("disk", r.scalar, [], r.role, r.reservation, r.disk)];
      }
    }
    assert resources[..|resources|] == resources;
  }

  method CopyReservedResources(resources: seq<Resource>) returns (reserved: seq<Resource>)
    ensures reserved == CopyReserved(resources)
  {
    reserved := [];
    for i := 0 to |resources|
      invariant reserved == CopyReserved(resources[..i])
    {
      assert resources[..i + 1][..i] == resources[..i];
      var r := resources[i];
      if IsReservedResource(r) {
        reserved := reserved + [Resource(r.name, r.scalar, [], r.role, r.reservation, None)];
      }
    }
    assert resources[..|resources|] == resources;
  }

  // ---------- the pools ----------

  /** A non-positive number of ports draws nothing. */
  lemma NoWindow(ports: seq<nat>, pick: nat)
    ensures forall n: int :: n <= 0 ==> Window(ports, n, pick) == [] && Left(ports, n, pick) == ports
  {
  }

  lemma AskedPorts(pool: seq<nat>, n: int, pick: nat, principal: string, role: string)
    requires n <= |pool|
    ensures var (r, p) := Reservation(principal, role);
            PortsAsk(Window(pool, n, pick), principal, role) ==
            if n > 0 then [Resource("ports", 0.0, RangesOf(Window(pool, n, pick)), r, p, None)] else []
  {
    hide RangesOf;
  }

  class ResourceGroup {
    var cpus: real
    var mem: real
    var disk: real
    var ports: seq<nat>

    function View(): Pool
      reads this
    {
      Pool(cpus, mem, disk, ports)
    }

    constructor (cpus: real, mem: real, disk: real, ports: seq<nat>)
      ensures View() == Pool(cpus, mem, disk, ports)
    {
      this.cpus, this.mem, this.disk, this.ports := cpus, mem, disk, ports;
    }

    /** The ports in the window leave the list; they are returned as ranges. */
    method TakePorts(n: nat, pick: nat) returns (ranges: seq<PortRange>)
      requires 0 < n <= |ports|
      modifies `ports
      ensures ranges == RangesOf(Window(old(ports), n, pick))
      ensures ports == Left(old(ports), n, pick)
    {
      hide RangesOf;
      var sliceLoc := WindowStart(|ports|, n, pick);
      var taking := new nat[n](i requires 0 <= i < n && sliceLoc + n <= |ports| reads this => ports[sliceLoc + i]);
      assert taking[..] == ports[sliceLoc..sliceLoc + n];
      ports := ports[..sliceLoc] + ports[sliceLoc + n..];
      ranges := ArrayToRanges(taking);
    }

    /** apply: draw from this group and return what was asked for. */
    method Apply(cpus: real, mem: real, disk: real, ports: int,
                 principal: string, role: string, persistenceId: string, containerPath: string, pick: nat)
      returns (ask: seq<Resource>)
      requires ports <= |this.ports|
      modifies this
      ensures Draw(View(), ask) ==
              Offers.Apply(old(View()), cpus, mem, disk, ports, principal, role, persistenceId, containerPath, pick)
    {
      hide RangesOf, Window, Left;
      ask := [];
      var reserving := principal != "" && role != "";
      var (r, p) := if reserving then (role, Some(principal)) else ("*", None);
      if cpus > 0.0 {
        this.cpus := this.cpus - cpus;
        ask := ask + [Resource("cpus", cpus, [], r, p, None)];
      }
      assert ask == ScalarAsk(Cpus, cpus, principal, role);
      if mem > 0.0 {
        this.mem := this.mem - mem;
        ask := ask + [Resource("mem", mem, [], r, p, None)];
      }
      assert ask == ScalarAsk(Cpus, cpus, principal, role) + ScalarAsk(Mem, mem, principal, role);
      ghost var before := ask;
      if disk > 0.0 {
        this.disk := this.disk - disk;
        if reserving && containerPath != "" && persistenceId != "" {
          ask := ask + [Resource("disk", disk, [], r, p, Some(DiskInfo(persistenceId, containerPath)))];
        } else {
          ask := ask + [Resource("disk", disk, [], r, p, None)];
        }
      }
      assert ask == before + DiskAsk(disk, principal, role, persistenceId, containerPath);
      before := ask;
      NoWindow(this.ports, pick);
      if ports > 0 {
        var ranges := TakePorts(ports, pick);
        ask := ask + [Resource("ports", 0.0, ranges, r, p, None)];
      }
      AskedPorts(old(this.ports), ports, pick, principal, role);
      hide ScalarAsk, DiskAsk, PortsAsk;
      assert ask == before + PortsAsk(Window(old(this.ports), ports, pick), principal, role);
    }
  }

  // ---------- the helper ----------

  class OfferHelper {
    const offer: Offer
    const persistenceIds: seq<string>
    const reserved: ResourceGroup
    const unreserved: ResourceGroup
    var toReserve: seq<Resource>
    var toUnreserve: seq<Resource>
    var toCreate: seq<Resource>
    var toDestroy: seq<Resource>
    var tasks: seq<Task>
    ghost var held: seq<Resource>

    ghost predicate Valid()
      reads this
    {
      reserved != unreserved
    }

    ghost function Repr(): set<object>
    {
      {this, reserved, unreserved}
    }

    ghost function View(): Helper
      reads this, reserved, unreserved
    {
      Helper(offer, persistenceIds, reserved.View(), unreserved.View(),
             toReserve, toUnreserve, toCreate, toDestroy, tasks, held)
    }

    constructor (offer: Offer)
      ensures Valid() && fresh(Repr()) && View() == NewHelper(offer)
    {
      var cpus := GetResource(Cpus, offer.resources, true);
      var mem := GetResource(Mem, offer.resources, true);
      var disk := GetResource(Disk, offer.resources, true);
      var ports := GetPorts(offer.resources, true);
      reserved := new ResourceGroup(cpus, mem, disk, ports);
      cpus := GetResource(Cpus, offer.resources, false);
      mem := GetResource(Mem, offer.resources, false);
      disk := GetResource(Disk, offer.resources, false);
      ports := GetPorts(offer.resources, false);
      unreserved := new ResourceGroup(cpus, mem, disk, ports);
      var ids := GetPersistenceIds(offer.resources);
      persistenceIds := ids;
      this.offer := offer;
      toReserve, toUnreserve, toCreate, toDestroy, tasks, held := [], [], [], [], [], [];
    }

    method MakeReservation(cpus: real, mem: real, disk: real, ports: int, principal: string, role: string, pick: nat)
      requires Valid() && ports <= |unreserved.ports|
      modifies `toReserve, unreserved
      ensures View() == Offers.MakeReservation(old(View()), cpus, mem, disk, ports, principal, role, pick)
    {
      hide Offers.Apply;
      var reservation := unreserved.Apply(cpus, mem, disk, ports, principal, role, "", "", pick);
      toReserve := toReserve + reservation;
    }

    method MakeVolume(disk: real, principal: string, role: string, persistenceId: string, containerPath: string)
      requires Valid()
      modifies `toCreate, unreserved
      ensures View() == Offers.MakeVolume(old(View()), disk, principal, role, persistenceId, containerPath)
    {
      hide Offers.Apply;
      var volume := unreserved.Apply(0.0, 0.0, disk, 0, principal, role, persistenceId, containerPath, 0);
      unreserved.disk := unreserved.disk + disk;
      toCreate := toCreate + volume;
    }

    method ApplyReserved(cpus: real, mem: real, disk: real, ports: int,
                         principal: string, role: string, persistenceId: string, containerPath: string, pick: nat)
      returns (ask: seq<Resource>)
      requires Valid() && ports <= |reserved.ports|
      modifies reserved
      ensures var d := Offers.Apply(old(reserved.View()), cpus, mem, disk, ports, principal, role,
                                    persistenceId, containerPath, pick);
              ask == d.ask && View() == old(View()).(reserved := d.pool)
    {
      hide Offers.Apply;
      ask := reserved.Apply(cpus, mem, disk, ports, principal, role, persistenceId, containerPath, pick);
    }

    method ApplyUnreserved(cpus: real, mem: real, disk: real, ports: int, pick: nat) returns (ask: seq<Resource>)
      requires Valid() && ports <= |unreserved.ports|
      modifies unreserved
      ensures var d := Offers.Apply(old(unreserved.View()), cpus, mem, disk, ports, "", "", "", "", pick);
              ask == d.ask && View() == old(View()).(unreserved := d.pool)
    {
      hide Offers.Apply;
      ask := unreserved.Apply(cpus, mem, disk, ports, "", "", "", "", pick);
    }

    method HasPersistenceId(id: string) returns (found: bool)
      ensures found <==> id in persistenceIds
    {
      for i := 0 to |persistenceIds|
        invariant id !in persistenceIds[..i]
      {
        if persistenceIds[i] == id {
          return true;
        }
      }
      return false;
    }

    method MaybeUnreserve()
      requires Valid()
      modifies `toUnreserve, `toDestroy
      ensures View() == Offers.MaybeUnreserve(old(View()))
    {
      hide CopyReserved, CopyVolumes;
      if |tasks| > 0 {
        return;
      }
      if reserved.cpus > 0.0 || reserved.mem > 0.0 || reserved.disk > 0.0 || |reserved.ports| > 0 {
        var copies := CopyReservedResources(offer.resources);
        toUnreserve := toUnreserve + copies;
      }
      if |persistenceIds| > 0 {
        var copies := CopyReservedVolumes(offer.resources);
        toDestroy := toDestroy + copies;
      }
    }

    method Operations() returns (operations: seq<Operation>)
      ensures operations == Offers.Operations(View())
    {
      operations := [];
      if |tasks| > 0 {
        operations := operations + [Launch(tasks)];
      }
      if |toDestroy| > 0 {
        operations := operations + [Destroy(toDestroy)];
      }
      if |toUnreserve| > 0 {
        operations := operations + [Unreserve(toUnreserve)];
      }
      if |toReserve| > 0 {
        operations := operations + [Reserve(toReserve)];
      }
      if |toCreate| > 0 {
        operations := operations + [Create(toCreate)];
      }
    }
  }
}
