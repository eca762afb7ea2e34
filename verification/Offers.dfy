/** The resource allocator of `common/offer.go` with the filters of `common/utils.go`, on values:
    what one offer holds, what is drawn from it, and the operations submitted for it. */
module Offers {
  import opened Options
  import opened PortRanges

  // ---------- resources ----------

  datatype DiskInfo = DiskInfo(persistenceId: string, containerPath: string)

  /** A Mesos resource; `reservation` holds the principal, `scalar` is 0.0 for ranges. */
  datatype Resource = Resource(
    name: string, scalar: real, ranges: seq<PortRange>,
    role: string, reservation: Option<string>, disk: Option<DiskInfo>)

  datatype Offer = Offer(id: string, slaveId: string, hostname: string, resources: seq<Resource>)

  datatype TaskData = TaskData(nodeName: string, host: string, httpPort: nat, pbPort: nat, disterlPort: nat)

  /** The four parts of an executor id, formatted by NodeIds.ExecutorId. */
  datatype Executor = Executor(framework: string, cluster: string, uuid: string, generation: nat)

  datatype Task = Task(
    taskId: string, slaveId: string, executor: Executor,
    resources: seq<Resource>, executorResources: seq<Resource>, data: TaskData)

  datatype Kind = Cpus | Mem | Disk {
    function Name(): string {
      match this
      case Cpus => "cpus"
      case Mem => "mem"
      case Disk => "disk"
    }

    function Of(cpus: real, mem: real, disk: real): real {
      match this
      case Cpus => cpus
      case Mem => mem
      case Disk => disk
    }
  }

  predicate Selected(r: Resource, name: string, reserved: bool) {
    r.name == name && r.reservation.Some? == reserved
  }

  /** getResource: the total of the named scalar, reserved or not. */
  function Scalar(kind: Kind, resources: seq<Resource>, reserved: bool): real {
    if resources == [] then 0.0
    else
      var r := resources[|resources| - 1];
      Scalar(kind, resources[..|resources| - 1], reserved)
      + if Selected(r, kind.Name(), reserved) then r.scalar else 0.0
  }

  /** getPorts: the ports of all port resources, reserved or not, in offer order. */
  function PortList(resources: seq<Resource>, reserved: bool): seq<nat> {
    if resources == [] then []
    else
      var r := resources[|resources| - 1];
      PortList(resources[..|resources| - 1], reserved) +
      if Selected(r, "ports", reserved) then Expand(r.ranges) else []
  }

  predicate IsReservedVolume(r: Resource) {
    r.reservation.Some? && r.disk.Some? && r.name == "disk"
  }

  predicate IsReservedResource(r: Resource) {
    r.reservation.Some? && r.role != ""
  }

  /** getPersistenceIds. */
  function PersistenceIds(resources: seq<Resource>): seq<string> {
    if resources == [] then []
    else
      var r := resources[|resources| - 1];
      PersistenceIds(resources[..|resources| - 1]) +
      if IsReservedVolume(r) then [r.disk.value.persistenceId] else []
  }

  /** NewReservedVolume of an offered volume: the same disk, principal, role and persistence id. */
  function CopyVolumes(resources: seq<Resource>): seq<Resource> {
    if resources == [] then []
    else
      var r := resources[|resources| - 1];
      CopyVolumes(resources[..|resources| - 1]) +
      if IsReservedVolume(r) then [Resource("disk", r.scalar, [], r.role, r.reservation, r.disk)] else []
  }

  /** NewReservedScalarResource of an offered reservation: volume information and ranges are dropped. */
  function CopyReserved(resources: seq<Resource>): seq<Resource> {
    if resources == [] then []
    else
      var r := resources[|resources| - 1];
      CopyReserved(resources[..|resources| - 1]) +
      if IsReservedResource(r) then [Resource(r.name, r.scalar, [], r.role, r.reservation, None)] else []
  }

  // ---------- drawing from a pool ----------

  datatype Pool = Pool(cpus: real, mem: real, disk: real, ports: seq<nat>) {
    function Get(kind: Kind): real {
      kind.Of(cpus, mem, disk)
    }

    /** CanFitReserved and CanFitUnreserved. */
    predicate CanFit(cpus: real, mem: real, disk: real, ports: int) {
      this.cpus >= cpus && this.mem >= mem && this.disk >= disk && |this.ports| >= ports
    }
  }

  datatype Draw = Draw(pool: Pool, ask: seq<Resource>)

  /** A non-positive ask is ignored by `apply`. */
  function Drawn(x: real): real {
    if x > 0.0 then x else 0.0
  }

  predicate MakesReservation(principal: string, role: string) {
    principal != "" && role != ""
  }

  function Reservation(principal: string, role: string): (string, Option<string>) {
    if MakesReservation(principal, role) then (role, Some(principal)) else ("*", None)
  }

  function ScalarAsk(kind: Kind, x: real, principal: string, role: string): seq<Resource> {
    var (r, p) := Reservation(principal, role);
    if x > 0.0 then [Resource(kind.Name(), x, [], r, p, None)] else []
  }

  function DiskAsk(x: real, principal: string, role: string, persistenceId: string, containerPath: string): seq<Resource> {
    var (r, p) := Reservation(principal, role);
    var volume := if p.Some? && containerPath != "" && persistenceId != ""
                  then Some(DiskInfo(persistenceId, containerPath)) else None;
    if x > 0.0 then [Resource("disk", x, [], r, p, volume)] else []
  }

  function PortsAsk(window: seq<nat>, principal: string, role: string): seq<Resource> {
    var (r, p) := Reservation(principal, role);
    if window != [] then [Resource("ports", 0.0, RangesOf(window), r, p, None)] else []
  }

  function Ask(cpus: real, mem: real, disk: real, window: seq<nat>,
               principal: string, role: string, persistenceId: string, containerPath: string): seq<Resource> {
    ScalarAsk(Cpus, cpus, principal, role) + ScalarAsk(Mem, mem, principal, role)
    + DiskAsk(disk, principal, role, persistenceId, containerPath) + PortsAsk(window, principal, role)
  }

  /** `pick` stands for rand.Intn(len - ports): every value below the bound is some pick. */
  function WindowStart(len: nat, ports: int, pick: nat): (start: nat)
    requires ports <= len
    ensures ports >= 0 ==> start + ports <= len
  {
    if len - ports <= 0 then 0 else if pick < len - ports then pick else len - ports - 1
  }

  function Window(pool: seq<nat>, ports: int, pick: nat): seq<nat>
    requires ports <= |pool|
  {
    if ports > 0 then
      var start := WindowStart(|pool|, ports, pick);
      pool[start..start + ports]
    else []
  }

  function Left(pool: seq<nat>, ports: int, pick: nat): seq<nat>
    requires ports <= |pool|
  {
    if ports > 0 then
      var start := WindowStart(|pool|, ports, pick);
      pool[..start] + pool[start + ports..]
    else pool
  }

  function Apply(pool: Pool, cpus: real, mem: real, disk: real, ports: int,
                 principal: string, role: string, persistenceId: string, containerPath: string, pick: nat): Draw
    requires ports <= |pool.ports|
  {
    Draw(Pool(pool.cpus - Drawn(cpus), pool.mem - Drawn(mem), pool.disk - Drawn(disk), Left(pool.ports, ports, pick)),
         Ask(cpus, mem, disk, Window(pool.ports, ports, pick), principal, role, persistenceId, containerPath))
  }

  // ---------- the offer helper ----------

  /** `held` is what ApplyUnreservedOffer draws for the executor and throws away (`scheduler/node.go:123`). */
  datatype Helper = Helper(
    offer: Offer, persistenceIds: seq<string>, reserved: Pool, unreserved: Pool,
    toReserve: seq<Resource>, toUnreserve: seq<Resource>, toCreate: seq<Resource>, toDestroy: seq<Resource>,
    tasks: seq<Task>, held: seq<Resource>)

  function PoolOf(resources: seq<Resource>, reserved: bool): Pool {
    Pool(Scalar(Cpus, resources, reserved), Scalar(Mem, resources, reserved), Scalar(Disk, resources, reserved),
         PortList(resources, reserved))
  }

  function NewHelper(offer: Offer): Helper {
    Helper(offer, PersistenceIds(offer.resources), PoolOf(offer.resources, true), PoolOf(offer.resources, false),
           [], [], [], [], [], [])
  }

  function MakeReservation(h: Helper, cpus: real, mem: real, disk: real, ports: int,
                           principal: string, role: string, pick: nat): Helper
    requires ports <= |h.unreserved.ports|
  {
    var d := Apply(h.unreserved, cpus, mem, disk, ports, principal, role, "", "", pick);
    h.(unreserved := d.pool, toReserve := h.toReserve + d.ask)
  }

  function MakeVolume(h: Helper, disk: real, principal: string, role: string,
                      persistenceId: string, containerPath: string): Helper {
    var d := Apply(h.unreserved, 0.0, 0.0, disk, 0, principal, role, persistenceId, containerPath, 0);
    h.(unreserved := d.pool.(disk := d.pool.disk + disk), toCreate := h.toCreate + d.ask)
  }

  predicate HasReservations(h: Helper) {
    h.reserved.cpus > 0.0 || h.reserved.mem > 0.0 || h.reserved.disk > 0.0 || |h.reserved.ports| > 0
  }

  function MaybeUnreserve(h: Helper): Helper {
    if |h.tasks| > 0 then h
    else
      var h1 := if HasReservations(h) then h.(toUnreserve := h.toUnreserve + CopyReserved(h.offer.resources)) else h;
      if |h.persistenceIds| > 0 then h1.(toDestroy := h1.toDestroy + CopyVolumes(h.offer.resources)) else h1
  }

  datatype Operation =
    | Launch(tasks: seq<Task>)
    | Destroy(volumes: seq<Resource>)
    | Unreserve(resources: seq<Resource>)
    | Reserve(resources: seq<Resource>)
    | Create(volumes: seq<Resource>)

  function Operations(h: Helper): seq<Operation> {
    (if h.tasks != [] then [Launch(h.tasks)] else [])
    + (if h.toDestroy != [] then [Destroy(h.toDestroy)] else [])
    + (if h.toUnreserve != [] then [Unreserve(h.toUnreserve)] else [])
    + (if h.toReserve != [] then [Reserve(h.toReserve)] else [])
    + (if h.toCreate != [] then [Create(h.toCreate)] else [])
  }

  // ---------- sums ----------

  lemma {:induction false} ScalarAppend(kind: Kind, a: seq<Resource>, b: seq<Resource>, reserved: bool)
    ensures Scalar(kind, a + b, reserved) == Scalar(kind, a, reserved) + Scalar(kind, b, reserved)
  {
    if b == [] {
      assert a + b == a;
    } else {
      var n := |b| - 1;
      ScalarAppend(kind, a, b[..n], reserved);
      assert (a + b)[..|a + b| - 1] == a + b[..n];
    }
  }

  lemma {:induction false} PortListAppend(a: seq<Resource>, b: seq<Resource>, reserved: bool)
    ensures PortList(a + b, reserved) == PortList(a, reserved) + PortList(b, reserved)
  {
    hide Expand;
    if b == [] {
      assert a + b == a;
    } else {
      var n := |b| - 1;
      PortListAppend(a, b[..n], reserved);
      assert (a + b)[..|a + b| - 1] == a + b[..n];
    }
  }

  lemma SingletonSums(kind: Kind, s: seq<Resource>, reserved: bool)
    requires |s| <= 1
    ensures Scalar(kind, s, reserved) == if s != [] && Selected(s[0], kind.Name(), reserved) then s[0].scalar else 0.0
  {
    if s != [] {
      assert s[..|s| - 1] == [] && s[|s| - 1] == s[0];
    }
  }

  lemma SingletonPorts(s: seq<Resource>, reserved: bool)
    requires |s| <= 1
    ensures PortList(s, reserved) == if s != [] && Selected(s[0], "ports", reserved) then Expand(s[0].ranges) else []
  {
    if s != [] {
      assert s[..|s| - 1] == [] && s[|s| - 1] == s[0];
    }
  }

  lemma AskScalars(cpus: real, mem: real, disk: real, window: seq<nat>,
                   principal: string, role: string, id: string, path: string)
    ensures var ask := Ask(cpus, mem, disk, window, principal, role, id, path);
            forall kind: Kind, flag: bool ::
              Scalar(kind, ask, flag) ==
              if flag == MakesReservation(principal, role) then Drawn(kind.Of(cpus, mem, disk)) else 0.0
  {
    hide Scalar, RangesOf;
    var a, b := ScalarAsk(Cpus, cpus, principal, role), ScalarAsk(Mem, mem, principal, role);
    var c, p := DiskAsk(disk, principal, role, id, path), PortsAsk(window, principal, role);
    forall kind: Kind, flag: bool
      ensures Scalar(kind, a + b + c + p, flag) ==
              if flag == MakesReservation(principal, role) then Drawn(kind.Of(cpus, mem, disk)) else 0.0
    {
      ScalarAppend(kind, a + b + c, p, flag);
      ScalarAppend(kind, a + b, c, flag);
      ScalarAppend(kind, a, b, flag);
      SingletonSums(kind, a, flag);
      SingletonSums(kind, b, flag);
      SingletonSums(kind, c, flag);
      SingletonSums(kind, p, flag);
    }
  }

  /** What a draw puts into its ask is what it takes from the pool, on the side the role and principal select. */
  lemma DrawMovesScalars(pool: Pool, cpus: real, mem: real, disk: real, ports: int,
                         principal: string, role: string, persistenceId: string, containerPath: string, pick: nat)
    requires ports <= |pool.ports|
    ensures var d := Apply(pool, cpus, mem, disk, ports, principal, role, persistenceId, containerPath, pick);
            && (forall kind: Kind :: pool.Get(kind) == d.pool.Get(kind) + Drawn(kind.Of(cpus, mem, disk)))
            && (forall kind: Kind, flag: bool ::
                  Scalar(kind, d.ask, flag) ==
                  if flag == MakesReservation(principal, role) then Drawn(kind.Of(cpus, mem, disk)) else 0.0)
  {
    hide Ask, Window, Scalar, PortList;
    var taken := Window(pool.ports, ports, pick);
    AskScalars(cpus, mem, disk, taken, principal, role, persistenceId, containerPath);
  }

  lemma NoRanges()
    ensures Expand(RangesOf([])) == []
  {
    assert SortPorts([]) == [];
  }

  lemma AskPorts(cpus: real, mem: real, disk: real, window: seq<nat>,
                 principal: string, role: string, id: string, path: string, flag: bool)
    ensures PortList(Ask(cpus, mem, disk, window, principal, role, id, path), flag) ==
            if flag == MakesReservation(principal, role) then Expand(RangesOf(window)) else []
  {
    hide Expand, RangesOf, PortList;
    var a, b := ScalarAsk(Cpus, cpus, principal, role), ScalarAsk(Mem, mem, principal, role);
    var c, p := DiskAsk(disk, principal, role, id, path), PortsAsk(window, principal, role);
    PortListAppend(a + b + c, p, flag);
    PortListAppend(a + b, c, flag);
    PortListAppend(a, b, flag);
    SingletonPorts(a, flag);
    SingletonPorts(b, flag);
    SingletonPorts(c, flag);
    SingletonPorts(p, flag);
    NoRanges();
  }

  lemma PartsOfDistinct(pool: seq<nat>, start: nat, n: nat)
    requires start + n <= |pool| && Distinct(pool)
    ensures Distinct(pool[start..start + n]) && Distinct(pool[..start] + pool[start + n..])
  {
  }

  lemma Split(pool: seq<nat>, start: nat, n: nat)
    requires start + n <= |pool| && Distinct(pool)
    ensures multiset(pool) == multiset(pool[..start] + pool[start + n..]) + multiset(pool[start..start + n])
    ensures Distinct(pool[start..start + n]) && Distinct(pool[..start] + pool[start + n..])
  {
    hide Distinct;
    PartsOfDistinct(pool, start, n);
    assert pool == pool[..start] + pool[start..start + n] + pool[start + n..];
  }

  /** Every window but the last is some pick. */
  lemma EveryWindowIsPicked(pool: seq<nat>, ports: nat, start: nat)
    requires 0 < ports && start + ports < |pool|
    ensures Window(pool, ports, start) == pool[start..start + ports]
    ensures Left(pool, ports, start) == pool[..start] + pool[start + ports..]
  {
  }

  lemma WindowSplit(pool: seq<nat>, ports: int, pick: nat)
    requires ports <= |pool| && Distinct(pool)
    ensures multiset(pool) == multiset(Left(pool, ports, pick)) + multiset(Window(pool, ports, pick))
    ensures |Window(pool, ports, pick)| == if ports > 0 then ports else 0
    ensures Distinct(Window(pool, ports, pick)) && Distinct(Left(pool, ports, pick))
  {
    hide Distinct, WindowStart;
    var w, l := Window(pool, ports, pick), Left(pool, ports, pick);
    if ports > 0 {
      var start := WindowStart(|pool|, ports, pick);
      Split(pool, start, ports);
      assert w == pool[start..start + ports] && l == pool[..start] + pool[start + ports..];
    } else {
      Split(pool, 0, 0);
      assert w == pool[0..0] && l == pool[..0] + pool[0..];
    }
    assert multiset(pool) == multiset(l) + multiset(w);
  }

  /** The ports of the ask, sorted, are exactly those that left the pool. */
  lemma DrawMovesPorts(pool: Pool, cpus: real, mem: real, disk: real, ports: int,
                       principal: string, role: string, persistenceId: string, containerPath: string, pick: nat)
    requires ports <= |pool.ports| && Distinct(pool.ports)
    ensures var d := Apply(pool, cpus, mem, disk, ports, principal, role, persistenceId, containerPath, pick);
            var reserved := MakesReservation(principal, role);
            && PortList(d.ask, !reserved) == []
            && multiset(pool.ports) == multiset(d.pool.ports) + multiset(PortList(d.ask, reserved))
            && |PortList(d.ask, reserved)| == (if ports > 0 then ports else 0)
            && StrictlyIncreasing(PortList(d.ask, reserved))
            && Distinct(d.pool.ports)
  {
    hide Ask, Window, Left, Scalar, PortList, RangesOf, Expand;
    var taken := Window(pool.ports, ports, pick);
    AskPorts(cpus, mem, disk, taken, principal, role, persistenceId, containerPath, true);
    AskPorts(cpus, mem, disk, taken, principal, role, persistenceId, containerPath, false);
    WindowSplit(pool.ports, ports, pick);
    CompressThenExpand(taken);
    assert |multiset(Expand(RangesOf(taken)))| == |multiset(taken)|;
  }
}
