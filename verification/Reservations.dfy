/** The two offers of a node's life: what it reserves on the first is what it launches with on the second. */
module Reservations {
  import opened Options
  import opened Offers
  import opened OfferLedger
  import opened Nodes
  import opened Clusters
  import opened Scheduler
  import opened Submissions

  function WithoutDisk(resources: seq<Resource>): seq<Resource> {
    if resources == [] then []
    else
      var r := resources[|resources| - 1];
      WithoutDisk(resources[..|resources| - 1]) + if r.name == "disk" then [] else [r]
  }

  /** What Mesos offers after it has run the submitted operations, of which `before` had listed the first: the reservations,
      with the volume in place of the plain disk, and whatever else the agent has. */
  function OfferedBack(before: Helper, ops: seq<Operation>, rest: seq<Resource>): seq<Resource>
    requires |before.toReserve| <= |Listed(ops, Reserving)| && |before.toCreate| <= |Listed(ops, Creating)|
  {
    WithoutDisk(Listed(ops, Reserving)[|before.toReserve|..]) + Listed(ops, Creating)[|before.toCreate|..] + rest
  }

  lemma {:induction false} WithoutDiskAppend(a: seq<Resource>, b: seq<Resource>)
    ensures WithoutDisk(a + b) == WithoutDisk(a) + WithoutDisk(b)
  {
    if b == [] {
      assert a + b == a;
    } else {
      var n := |b| - 1;
      WithoutDiskAppend(a, b[..n]);
      assert (a + b)[..|a + b| - 1] == a + b[..n];
    }
  }

  lemma WithoutDiskSingle(s: seq<Resource>)
    requires |s| <= 1
    ensures WithoutDisk(s) == if s != [] && s[0].name == "disk" then [] else s
  {
    if s != [] {
      assert s[..|s| - 1] == [] && s[|s| - 1] == s[0];
    }
  }

  lemma {:induction false} PersistenceIdsAppend(a: seq<Resource>, b: seq<Resource>)
    ensures PersistenceIds(a + b) == PersistenceIds(a) + PersistenceIds(b)
  {
    if b == [] {
      assert a + b == a;
    } else {
      var n := |b| - 1;
      PersistenceIdsAppend(a, b[..n]);
      assert (a + b)[..|a + b| - 1] == a + b[..n];
    }
  }

  lemma PersistenceIdsSingle(r: Resource)
    ensures PersistenceIds([r]) == if IsReservedVolume(r) then [r.disk.value.persistenceId] else []
  {
    assert [r][..0] == [];
  }

  /** What a reservation appends. */
  lemma ReservationAppends(n: Node, h: Helper, pick: nat)
    requires CanReserve(n) && n.disk > 0.0 && n.uuid != "" && UnreservedOffer(n, h, pick).Some?
    ensures var g := UnreservedOffer(n, h, pick).value.1;
            && g.toReserve == h.toReserve + Ask(n.cpus, n.mem, n.disk, [], n.principal, n.role, "", "")
            && g.toCreate == h.toCreate + Ask(0.0, 0.0, n.disk, [], n.principal, n.role, n.uuid, CONTAINER_PATH)
  {
    hide Ask, Left;
  }

  /** What a reservation asks for, and what of it comes back. */
  lemma ReservedAsk(n: Node, h: Helper, pick: nat)
    requires CanReserve(n) && n.disk > 0.0 && n.uuid != "" && UnreservedOffer(n, h, pick).Some?
    ensures var g := UnreservedOffer(n, h, pick).value.1;
            && |h.toReserve| <= |g.toReserve| && |h.toCreate| <= |g.toCreate|
            && WithoutDisk(g.toReserve[|h.toReserve|..]) ==
               ScalarAsk(Cpus, n.cpus, n.principal, n.role) + ScalarAsk(Mem, n.mem, n.principal, n.role)
            && g.toCreate[|h.toCreate|..] ==
               [Resource("disk", n.disk, [], n.role, Some(n.principal), Some(DiskInfo(n.uuid, CONTAINER_PATH)))]
  {
    hide WithoutDisk, UnreservedOffer;
    ReservationAppends(n, h, pick);
    var g := UnreservedOffer(n, h, pick).value.1;
    var a, b := ScalarAsk(Cpus, n.cpus, n.principal, n.role), ScalarAsk(Mem, n.mem, n.principal, n.role);
    var c := DiskAsk(n.disk, n.principal, n.role, "", "");
    assert Ask(n.cpus, n.mem, n.disk, [], n.principal, n.role, "", "") == a + b + c;
    assert g.toReserve[|h.toReserve|..] == a + b + c;
    WithoutDiskAppend(a + b, c);
    WithoutDiskAppend(a, b);
    WithoutDiskSingle(a);
    WithoutDiskSingle(b);
    WithoutDiskSingle(c);
    assert Ask(0.0, 0.0, n.disk, [], n.principal, n.role, n.uuid, CONTAINER_PATH) ==
           DiskAsk(n.disk, n.principal, n.role, n.uuid, CONTAINER_PATH);
  }

  lemma BackAmounts(n: Node, volume: Resource, rest: seq<Resource>)
    requires CanReserve(n)
    requires volume == Resource("disk", n.disk, [], n.role, Some(n.principal), Some(DiskInfo(n.uuid, CONTAINER_PATH)))
    ensures var back := ScalarAsk(Cpus, n.cpus, n.principal, n.role) + ScalarAsk(Mem, n.mem, n.principal, n.role)
                        + [volume] + rest;
            && Scalar(Cpus, back, true) == Drawn(n.cpus) + Scalar(Cpus, rest, true)
            && Scalar(Mem, back, true) == Drawn(n.mem) + Scalar(Mem, rest, true)
            && Scalar(Disk, back, true) == n.disk + Scalar(Disk, rest, true)
            && (forall kind: Kind :: Scalar(kind, back, false) == Scalar(kind, rest, false))
            && PortList(back, false) == PortList(rest, false)
            && n.uuid in PersistenceIds(back)
  {
    hide Scalar, PortList, PersistenceIds;
    var a, b := ScalarAsk(Cpus, n.cpus, n.principal, n.role), ScalarAsk(Mem, n.mem, n.principal, n.role);
    forall kind: Kind, flag: bool
      ensures Scalar(kind, a + b + [volume] + rest, flag) ==
              Scalar(kind, a, flag) + Scalar(kind, b, flag) + Scalar(kind, [volume], flag) + Scalar(kind, rest, flag)
    {
      ScalarAppend(kind, a + b + [volume], rest, flag);
      ScalarAppend(kind, a + b, [volume], flag);
      ScalarAppend(kind, a, b, flag);
    }
    forall kind: Kind, flag: bool
      ensures Scalar(kind, a, flag) == if a != [] && Selected(a[0], kind.Name(), flag) then a[0].scalar else 0.0
      ensures Scalar(kind, b, flag) == if b != [] && Selected(b[0], kind.Name(), flag) then b[0].scalar else 0.0
      ensures Scalar(kind, [volume], flag) == if Selected(volume, kind.Name(), flag) then volume.scalar else 0.0
    {
      SingletonSums(kind, a, flag);
      SingletonSums(kind, b, flag);
      SingletonSums(kind, [volume], flag);
    }
    PortListAppend(a + b + [volume], rest, false);
    PortListAppend(a + b, [volume], false);
    PortListAppend(a, b, false);
    SingletonPorts(a, false);
    SingletonPorts(b, false);
    SingletonPorts([volume], false);
    PersistenceIdsAppend(a + b + [volume], rest);
    PersistenceIdsAppend(a + b, [volume]);
    PersistenceIdsSingle(volume);
  }

  lemma ReservedNode(n: Node, h: Helper, pick: nat)
    requires n.CanBeScheduled() && UnreservedOffer(n, h, pick).Some?
    ensures var m := UnreservedOffer(n, h, pick).value.0;
            && m == n.(slaveId := m.slaveId, hostname := m.hostname, current := Reserved)
            && m.CanBeScheduled() && m.HasRequestedReservation()
  {
    hide Apply, MakeReservation, MakeVolume;
  }

  lemma BackFits(n: Node, h: Helper, rest: seq<Resource>)
    requires h.reserved.cpus >= Drawn(n.cpus) && h.reserved.mem >= Drawn(n.mem) && h.reserved.disk >= n.disk
    requires forall kind: Kind :: h.unreserved.Get(kind) == Scalar(kind, rest, false)
    requires h.unreserved.ports == PortList(rest, false)
    requires PoolOf(rest, false).CanFit(CPUS_PER_EXECUTOR, MEM_PER_EXECUTOR, 0.0, n.ports)
    ensures FitsReserved(n, h, false)
  {
    hide Scalar, PortList;
    assert h.unreserved.Get(Cpus) == Scalar(Cpus, rest, false);
    assert h.unreserved.Get(Mem) == Scalar(Mem, rest, false);
    assert h.unreserved.Get(Disk) == Scalar(Disk, rest, false);
  }

  lemma VolumeIsAsked(n: Node, h: Helper, pick: nat, volume: Resource)
    requires FitsReserved(n, h, false) && CanReserve(n) && n.disk > 0.0 && n.uuid != ""
    requires volume == Resource("disk", n.disk, [], n.role, Some(n.principal), Some(DiskInfo(n.uuid, CONTAINER_PATH)))
    ensures volume in LaunchAsks(n, h, false, pick).task
  {
    hide Window, Left;
    var d := DiskAsk(n.disk, n.principal, n.role, n.uuid, CONTAINER_PATH);
    assert d == [volume];
    assert volume in d;
  }

  lemma LaunchWhenOffered(n: Node, h: Helper, pick: nat, volume: Resource)
    requires n.CanBeScheduled() && n.HasRequestedReservation() && n.uuid in h.persistenceIds && h.tasks == []
    requires FitsReserved(n, h, false) && CanReserve(n) && n.disk > 0.0 && n.uuid != ""
    requires volume == Resource("disk", n.disk, [], n.role, Some(n.principal), Some(DiskInfo(n.uuid, CONTAINER_PATH)))
    ensures var v := VisitNode(n, h, false, pick);
            && !v.needs && v.dirty
            && v.node.current == Starting && v.node.generation == n.generation + 1
            && |v.helper.tasks| == 1 && v.helper.tasks[0].executor == ExecutorOf(v.node)
            && volume in v.helper.tasks[0].resources
  {
    hide LaunchAsks, LaunchData;
    VolumeIsAsked(n, h, pick, volume);
  }

  /** What is submitted once a node has reserved, whether or not the offer is kept. */
  function SubmittedAfter(g: Helper, needs: bool): seq<Operation> {
    Submitted(false, Operations(if needs then g else MaybeUnreserve(g)))
  }

  lemma SubmittedLists(g: Helper, needs: bool)
    ensures Listed(SubmittedAfter(g, needs), Reserving) == g.toReserve
    ensures Listed(SubmittedAfter(g, needs), Creating) == g.toCreate
  {
    hide Operations, Listed, LaunchTasks;
    OperationsAreTheLists(if needs then g else MaybeUnreserve(g));
  }

  /** A node that reserved, when what was submitted for it is offered back with room for the executor and its ports, is
      launched: with the next generation, on exactly the volume that was created. */
  lemma ReservedNodeLaunches(n: Node, h: Helper, pick: nat, needs: bool, back: Offer, rest: seq<Resource>, backPick: nat)
    requires n.CanBeScheduled() && CanReserve(n) && n.disk > 0.0 && n.uuid != ""
    requires UnreservedOffer(n, h, pick).Some?
    requires var ops := SubmittedAfter(UnreservedOffer(n, h, pick).value.1, needs);
             && |h.toReserve| <= |Listed(ops, Reserving)| && |h.toCreate| <= |Listed(ops, Creating)|
             && back.resources == OfferedBack(h, ops, rest)
    requires forall kind: Kind :: Scalar(kind, rest, true) >= 0.0
    requires PoolOf(rest, false).CanFit(CPUS_PER_EXECUTOR, MEM_PER_EXECUTOR, 0.0, n.ports)
    ensures var m := UnreservedOffer(n, h, pick).value.0;
            var ops := SubmittedAfter(UnreservedOffer(n, h, pick).value.1, needs);
            var v := VisitNode(m, NewHelper(back), false, backPick);
            && m.current == Reserved && !v.needs && v.dirty
            && v.node.current == Starting && v.node.generation == n.generation + 1
            && |v.helper.tasks| == 1 && v.helper.tasks[0].executor == ExecutorOf(v.node)
            && |Listed(ops, Creating)[|h.toCreate|..]| == 1
            && (forall r :: r in Listed(ops, Creating)[|h.toCreate|..] ==> r in v.helper.tasks[0].resources)
  {
    hide Scalar, PortList, PersistenceIds, WithoutDisk, UnreservedOffer, VisitNode, FitsReserved, Node.CanBeScheduled,
         Node.HasRequestedReservation, Listed, SubmittedAfter;
    var (m, g) := UnreservedOffer(n, h, pick).value;
    SubmittedLists(g, needs);
    ReservedAsk(n, h, pick);
    ReservedNode(n, h, pick);
    var volume := g.toCreate[|h.toCreate|];
    assert g.toCreate[|h.toCreate|..] == [volume];
    BackAmounts(n, volume, rest);
    var k := NewHelper(back);
    BackFits(m, k, rest);
    LaunchWhenOffered(m, k, backPick, volume);
  }
}
