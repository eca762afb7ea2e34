/** Conservation: for any sequence of draws, what an offer held at the start is what remains plus what
    the tasks, executors, reservations and held shares took; and the operations never overdraw. */
module OfferLedger {
  import opened Options
  import opened PortRanges
  import opened Offers
  import opened Nodes

  function TaskSum(kind: Kind, tasks: seq<Task>, reserved: bool): real {
    if tasks == [] then 0.0
    else
      var t := tasks[|tasks| - 1];
      TaskSum(kind, tasks[..|tasks| - 1], reserved)
      + Scalar(kind, t.resources, reserved) + Scalar(kind, t.executorResources, reserved)
  }

  function TaskPorts(tasks: seq<Task>): multiset<nat> {
    if tasks == [] then multiset{}
    else
      var t := tasks[|tasks| - 1];
      TaskPorts(tasks[..|tasks| - 1])
      + multiset(PortIterator(t.resources)) + multiset(PortIterator(t.executorResources))
  }

  /** An offer as Mesos makes it: no negative amounts, and no port offered twice. */
  predicate WellFormedOffer(offer: Offer) {
    && (forall i :: 0 <= i < |offer.resources| ==> offer.resources[i].scalar >= 0.0)
    && Distinct(PortList(offer.resources, false))
  }

  /** Sizes as configured by node_cpus, node_mem and node_disk. */
  predicate Sized(n: Node) {
    n.cpus >= 0.0 && n.mem >= 0.0 && n.disk >= 0.0
  }

  /** Nothing is drawn for the node itself. */
  predicate AsksForNothing(n: Node) {
    n.cpus <= 0.0 && n.mem <= 0.0 && n.disk <= 0.0
  }

  /** Without a principal and a role, what is meant as a reservation is asked for as unreserved. */
  predicate CanReserve(n: Node) {
    MakesReservation(n.principal, n.role)
  }

  /** What the offer held of an unreserved amount, less what remains and what was taken. */
  ghost function FreeGap(h: Helper, kind: Kind): real {
    Scalar(kind, h.offer.resources, false)
    - (h.unreserved.Get(kind) + TaskSum(kind, h.tasks, false) + Scalar(kind, h.toReserve, true) + Scalar(kind, h.held, false))
  }

  ghost function ReservedGap(h: Helper, kind: Kind): real {
    Scalar(kind, h.offer.resources, true) - (h.reserved.Get(kind) + TaskSum(kind, h.tasks, true))
  }

  ghost predicate Balanced(h: Helper) {
    forall kind: Kind :: FreeGap(h, kind) == 0.0 == ReservedGap(h, kind)
  }

  predicate PortsBalanced(h: Helper) {
    && Distinct(h.unreserved.ports)
    && multiset(PortList(h.offer.resources, false)) ==
       multiset(h.unreserved.ports) + TaskPorts(h.tasks) + multiset(PortList(h.held, false))
  }

  ghost predicate NonNegative(pool: Pool) {
    forall kind: Kind :: pool.Get(kind) >= 0.0
  }

  /** A task's ports are different, and its three named ports are the first it can receive. */
  predicate TaskPortsRead(t: Task) {
    var p := PortIterator(t.resources);
    && StrictlyIncreasing(p)
    && t.data.httpPort == Receive(p, 0) && t.data.pbPort == Receive(p, 1) && t.data.disterlPort == Receive(p, 2)
  }

  /** Each task's three named ports are distinct ports of its own set. */
  predicate TaskPortsNamed(t: Task) {
    var p := PortIterator(t.resources);
    && StrictlyIncreasing(p) && |p| >= 3
    && t.data.httpPort in p && t.data.pbPort in p && t.data.disterlPort in p
    && t.data.httpPort < t.data.pbPort < t.data.disterlPort
  }

  /** What holds of every offer, whatever the nodes' sizes and names: the ports are balanced, gaps only open, and
      none opens on the reserved side without a launch. */
  ghost predicate Sound(h: Helper) {
    && PortsBalanced(h)
    && (forall kind: Kind :: ReservedGap(h, kind) >= 0.0 && FreeGap(h, kind) + ReservedGap(h, kind) >= 0.0)
    && (h.tasks == [] ==> forall kind: Kind :: ReservedGap(h, kind) == 0.0)
    && Scalar(Disk, h.toCreate, true) == Scalar(Disk, h.toReserve, true)
    && (forall kind: Kind :: Scalar(kind, h.toReserve, true) >= 0.0 && Scalar(kind, h.held, false) >= 0.0)
    && (forall i :: 0 <= i < |h.tasks| ==> TaskPortsRead(h.tasks[i]))
  }

  /** The totals of the offer are what remains plus what was taken, no pool is negative, and every task has its ports. */
  ghost predicate Conserved(h: Helper) {
    && Sound(h)
    && Balanced(h)
    && NonNegative(h.unreserved)
    && NonNegative(h.reserved)
    && (forall i :: 0 <= i < |h.tasks| ==> TaskPortsNamed(h.tasks[i]))
  }

  lemma NoPortsListed()
    ensures PortList([], false) == [] && TaskPorts([]) == multiset{}
  {
  }

  lemma NoTasksNoSum()
    ensures forall k: Kind, flag: bool :: TaskSum(k, [], flag) == 0.0 == Scalar(k, [], flag)
  {
  }

  lemma {:induction false} ScalarNonNegative(kind: Kind, resources: seq<Resource>, reserved: bool)
    requires forall i :: 0 <= i < |resources| ==> resources[i].scalar >= 0.0
    ensures Scalar(kind, resources, reserved) >= 0.0
  {
    if resources != [] {
      ScalarNonNegative(kind, resources[..|resources| - 1], reserved);
    }
  }

  lemma NewHelperConserved(offer: Offer)
    requires WellFormedOffer(offer)
    ensures Conserved(NewHelper(offer))
  {
    hide PortList, Distinct, Scalar;
    forall kind: Kind, reserved: bool ensures Scalar(kind, offer.resources, reserved) >= 0.0 {
      ScalarNonNegative(kind, offer.resources, reserved);
    }
    NoTasksNoSum();
    NoPortsListed();
  }

  /** A later moment of the same offer: gaps are no smaller, pools no larger, tasks only appended. */
  ghost predicate Worse(h: Helper, g: Helper) {
    && g.offer == h.offer && h.tasks <= g.tasks
    && (forall kind: Kind ::
          && ReservedGap(g, kind) >= ReservedGap(h, kind)
          && FreeGap(g, kind) + ReservedGap(g, kind) >= FreeGap(h, kind) + ReservedGap(h, kind)
          && g.unreserved.Get(kind) <= h.unreserved.Get(kind)
          && g.reserved.Get(kind) <= h.reserved.Get(kind))
  }

  /** An offer that is out of balance once stays so: no later turn can make up for it. */
  lemma BrokenStaysBroken(h: Helper, g: Helper)
    requires Sound(h) && Worse(h, g) && Conserved(g)
    ensures Conserved(h)
  {
    hide FreeGap, ReservedGap, PortsBalanced, TaskPortsNamed, TaskPortsRead, Scalar;
    forall i | 0 <= i < |h.tasks| ensures TaskPortsNamed(h.tasks[i]) {
      assert h.tasks[i] == g.tasks[i];
    }
    forall kind: Kind ensures FreeGap(h, kind) == 0.0 == ReservedGap(h, kind) {
      assert FreeGap(g, kind) == 0.0 == ReservedGap(g, kind);
    }
  }

  // ---------- a reservation ----------

  /** The executor's share must be there of itself: a negative node size would let the fit check pass without it. */
  predicate ExecutorFits(h: Helper) {
    h.unreserved.cpus >= CPUS_PER_EXECUTOR && h.unreserved.mem >= MEM_PER_EXECUTOR
  }

  /** MakeVolume adds the disk back without a check, and only a principal with a role makes a reservation. */
  predicate ReservationKeeps(n: Node, h: Helper) {
    n.disk >= 0.0 && ExecutorFits(h) && (CanReserve(n) || AsksForNothing(n))
  }

  function SizeOf(n: Node, kind: Kind): real {
    Drawn(kind.Of(n.cpus, n.mem, n.disk))
  }

  /** What MakeVolume takes off a negative disk size. */
  function Overdrawn(n: Node, kind: Kind): real {
    if kind == Disk then Drawn(n.disk) - n.disk else 0.0
  }

  const EXECUTOR_SHARE: Kind -> real := (kind: Kind) => kind.Of(CPUS_PER_EXECUTOR, MEM_PER_EXECUTOR, 0.0)

  /** What a reservation does to pools and lists, for every size and name. */
  lemma ReservationMoves(n: Node, h: Helper, pick: nat)
    requires UnreservedOffer(n, h, pick).Some?
    ensures var g := UnreservedOffer(n, h, pick).value.1;
            && g == h.(unreserved := g.unreserved, toReserve := g.toReserve, toCreate := g.toCreate, held := g.held)
            && (forall kind: Kind ::
                  && g.unreserved.Get(kind) ==
                     h.unreserved.Get(kind) - EXECUTOR_SHARE(kind) - SizeOf(n, kind) - Overdrawn(n, kind)
                  && Scalar(kind, g.held, false) == Scalar(kind, h.held, false) + EXECUTOR_SHARE(kind)
                  && Scalar(kind, g.toReserve, true) ==
                     Scalar(kind, h.toReserve, true) + if CanReserve(n) then SizeOf(n, kind) else 0.0)
            && Scalar(Disk, g.toCreate, true) ==
               Scalar(Disk, h.toCreate, true) + if CanReserve(n) then SizeOf(n, Disk) else 0.0
  {
    hide Scalar, PortList, Ask, Left, Window;
    var g := UnreservedOffer(n, h, pick).value.1;
    var d := Apply(h.unreserved, CPUS_PER_EXECUTOR, MEM_PER_EXECUTOR, 0.0, n.ports, "", "", "", "", pick);
    DrawMovesScalars(h.unreserved, CPUS_PER_EXECUTOR, MEM_PER_EXECUTOR, 0.0, n.ports, "", "", "", "", pick);
    var r := Apply(d.pool, n.cpus, n.mem, n.disk, 0, n.principal, n.role, "", "", 0);
    DrawMovesScalars(d.pool, n.cpus, n.mem, n.disk, 0, n.principal, n.role, "", "", 0);
    var v := Apply(r.pool, 0.0, 0.0, n.disk, 0, n.principal, n.role, n.uuid, CONTAINER_PATH, 0);
    DrawMovesScalars(r.pool, 0.0, 0.0, n.disk, 0, n.principal, n.role, n.uuid, CONTAINER_PATH, 0);
    assert g.unreserved == v.pool.(disk := v.pool.disk + n.disk);
    forall kind: Kind
      ensures Scalar(kind, g.toReserve, true) == Scalar(kind, h.toReserve, true) + Scalar(kind, r.ask, true)
      ensures Scalar(kind, g.held, false) == Scalar(kind, h.held, false) + Scalar(kind, d.ask, false)
      ensures Scalar(kind, g.toCreate, true) == Scalar(kind, h.toCreate, true) + Scalar(kind, v.ask, true)
    {
      ScalarAppend(kind, h.toReserve, r.ask, true);
      ScalarAppend(kind, h.held, d.ask, false);
      ScalarAppend(kind, h.toCreate, v.ask, true);
    }
  }

  lemma NoPortsDrawn(ports: seq<nat>, pick: nat)
    ensures Left(ports, 0, pick) == ports && Window(ports, 0, pick) == []
  {
  }

  lemma ReservationPorts(n: Node, h: Helper, pick: nat)
    requires PortsBalanced(h) && UnreservedOffer(n, h, pick).Some?
    ensures PortsBalanced(UnreservedOffer(n, h, pick).value.1)
  {
    hide Scalar, PortList, Ask, Left, Window, TaskPorts, Distinct, StrictlyIncreasing;
    var d := Apply(h.unreserved, CPUS_PER_EXECUTOR, MEM_PER_EXECUTOR, 0.0, n.ports, "", "", "", "", pick);
    DrawMovesPorts(h.unreserved, CPUS_PER_EXECUTOR, MEM_PER_EXECUTOR, 0.0, n.ports, "", "", "", "", pick);
    PortListAppend(h.held, d.ask, false);
    NoPortsDrawn(d.pool.ports, 0);
  }

  lemma ReservationGaps(n: Node, h: Helper, g: Helper)
    requires g == h.(unreserved := g.unreserved, toReserve := g.toReserve, toCreate := g.toCreate, held := g.held)
    requires forall kind: Kind ::
               && g.unreserved.Get(kind) ==
                  h.unreserved.Get(kind) - EXECUTOR_SHARE(kind) - SizeOf(n, kind) - Overdrawn(n, kind)
               && Scalar(kind, g.held, false) == Scalar(kind, h.held, false) + EXECUTOR_SHARE(kind)
               && Scalar(kind, g.toReserve, true) ==
                  Scalar(kind, h.toReserve, true) + if CanReserve(n) then SizeOf(n, kind) else 0.0
    ensures forall kind: Kind ::
              && ReservedGap(g, kind) == ReservedGap(h, kind)
              && FreeGap(g, kind) ==
                 FreeGap(h, kind) + Overdrawn(n, kind) + if CanReserve(n) then 0.0 else SizeOf(n, kind)
  {
    hide Scalar, TaskSum;
  }

  /** A reservation keeps an offer sound and never closes a gap. */
  lemma ReservationIsSound(n: Node, h: Helper, pick: nat)
    requires Sound(h) && UnreservedOffer(n, h, pick).Some?
    ensures Sound(UnreservedOffer(n, h, pick).value.1) && Worse(h, UnreservedOffer(n, h, pick).value.1)
  {
    hide Scalar, PortsBalanced, UnreservedOffer, FreeGap, ReservedGap, TaskPortsRead, CanReserve;
    var g := UnreservedOffer(n, h, pick).value.1;
    ReservationMoves(n, h, pick);
    ReservationPorts(n, h, pick);
    ReservationGaps(n, h, g);
  }

  /** A reservation that fits conserves the offer if and only if the disk size is not negative, the executor fits by
      itself, and the node can reserve or asks for nothing. */
  lemma UnreservedOfferConserves(n: Node, h: Helper, pick: nat)
    requires Conserved(h) && UnreservedOffer(n, h, pick).Some?
    ensures Conserved(UnreservedOffer(n, h, pick).value.1) <==> ReservationKeeps(n, h)
    ensures Sized(n) ==> n.disk >= 0.0 && ExecutorFits(h)
  {
    hide Scalar, PortsBalanced, FreeGap, ReservedGap, TaskPortsRead, TaskPortsNamed, CanReserve, Sound, Apply,
         MakeReservation, MakeVolume;
    var g := UnreservedOffer(n, h, pick).value.1;
    ReservationMoves(n, h, pick);
    ReservationGaps(n, h, g);
    ReservationIsSound(n, h, pick);
    assert g.unreserved.Get(Cpus) == h.unreserved.Get(Cpus) - CPUS_PER_EXECUTOR - Drawn(n.cpus);
    assert g.unreserved.Get(Mem) == h.unreserved.Get(Mem) - MEM_PER_EXECUTOR - Drawn(n.mem);
    assert FreeGap(g, Cpus) == if CanReserve(n) then 0.0 else Drawn(n.cpus);
    assert FreeGap(g, Mem) == if CanReserve(n) then 0.0 else Drawn(n.mem);
    assert FreeGap(g, Disk) == Drawn(n.disk) - n.disk + if CanReserve(n) then 0.0 else Drawn(n.disk);
  }

  // ---------- inputs that break it ----------

  const ROOM := Offer("offer", "slave", "host",
                      [Resource("cpus", 2.0, [], "*", None, None),
                       Resource("mem", 128.0, [], "*", None, None),
                       Resource("ports", 0.0, [Range(1, 10)], "*", None, None)])

  lemma RoomPorts()
    ensures |Expand([Range(1, 10)])| == 10 && Distinct(Expand([Range(1, 10)]))
  {
    var ranges: seq<PortRange> := [Range(1, 10)];
    assert ranges[..0] == [];
    assert Expand(ranges) == RangePorts(ranges[0]);
  }

  lemma RoomAmounts()
    ensures WellFormedOffer(ROOM)
    ensures NewHelper(ROOM).unreserved.cpus == 2.0 && NewHelper(ROOM).unreserved.mem == 128.0
    ensures NewHelper(ROOM).unreserved.disk == 0.0 && |NewHelper(ROOM).unreserved.ports| == 10
  {
    hide Scalar, PortList, Expand;
    var r := ROOM.resources;
    var a, b, c := [r[0]], [r[1]], [r[2]];
    assert r == a + b + c;
    forall kind: Kind
      ensures Scalar(kind, r, false) == Scalar(kind, a, false) + Scalar(kind, b, false) + Scalar(kind, c, false)
    {
      ScalarAppend(kind, a + b, c, false);
      ScalarAppend(kind, a, b, false);
    }
    forall kind: Kind, s: seq<Resource> | s == a || s == b || s == c
      ensures Scalar(kind, s, false) == if Selected(s[0], kind.Name(), false) then s[0].scalar else 0.0
    {
      SingletonSums(kind, s, false);
    }
    PortListAppend(a + b, c, false);
    PortListAppend(a, b, false);
    SingletonPorts(a, false);
    SingletonPorts(b, false);
    SingletonPorts(c, false);
    RoomPorts();
  }

  predicate HasRoom(h: Helper) {
    h.unreserved.cpus == 2.0 && h.unreserved.mem == 128.0 && h.unreserved.disk == 0.0 && |h.unreserved.ports| == 10
  }

  lemma NegativeDiskOverdraws(n: Node, h: Helper)
    requires HasRoom(h) && n.cpus == 1.0 && n.mem == 32.0 && n.disk == -1.0 && n.ports == 10
    ensures UnreservedOffer(n, h, 0).Some? && UnreservedOffer(n, h, 0).value.1.unreserved.disk == -1.0
    ensures !Conserved(UnreservedOffer(n, h, 0).value.1)
  {
    hide Scalar, PortList, Sound, Balanced, Apply, MakeReservation, MakeVolume;
    ReservationMoves(n, h, 0);
    assert UnreservedOffer(n, h, 0).value.1.unreserved.Get(Disk) == -1.0;
  }

  lemma NoPrincipalLosesCpus(n: Node, h: Helper)
    requires HasRoom(h) && n.cpus == 1.0 && n.mem == 32.0 && n.disk == 0.0 && n.ports == 10 && n.principal == ""
    requires FreeGap(h, Cpus) == 0.0
    ensures UnreservedOffer(n, h, 0).Some? && FreeGap(UnreservedOffer(n, h, 0).value.1, Cpus) == 1.0
    ensures !Conserved(UnreservedOffer(n, h, 0).value.1)
  {
    hide Scalar, PortList, Sound, FreeGap, Apply, MakeReservation, MakeVolume;
    var g := UnreservedOffer(n, h, 0).value.1;
    ReservationMoves(n, h, 0);
    ReservationGaps(n, h, g);
    assert FreeGap(g, Cpus) == 1.0;
  }

  /** A disk size below zero passes the fit check on an offer without disk, and leaves the pool with less than none. */
  lemma NegativeDiskBreaks()
    ensures var n := NewNode("framework", "cluster", "role", "principal", 1.0, 32.0, -1.0, 0, 1, "uuid");
            var r := UnreservedOffer(n, NewHelper(ROOM), 0);
            CanReserve(n) && r.Some? && r.value.1.unreserved.disk == -1.0 && !Conserved(r.value.1)
  {
    hide UnreservedOffer, NewHelper, Conserved;
    RoomAmounts();
    NegativeDiskOverdraws(NewNode("framework", "cluster", "role", "principal", 1.0, 32.0, -1.0, 0, 1, "uuid"), NewHelper(ROOM));
  }

  /** Without a principal the reserved amounts leave the pool, and what is to be reserved is not a reservation. */
  lemma NoPrincipalBreaks()
    ensures var n := NewNode("framework", "cluster", "*", "", 1.0, 32.0, 0.0, 0, 1, "uuid");
            var r := UnreservedOffer(n, NewHelper(ROOM), 0);
            Sized(n) && r.Some? && FreeGap(r.value.1, Cpus) == 1.0 && !Conserved(r.value.1)
  {
    hide UnreservedOffer, NewHelper, FreeGap, Sound;
    RoomAmounts();
    NewHelperConserved(ROOM);
    assert FreeGap(NewHelper(ROOM), Cpus) == 0.0;
    hide Conserved;
    NoPrincipalLosesCpus(NewNode("framework", "cluster", "*", "", 1.0, 32.0, 0.0, 0, 1, "uuid"), NewHelper(ROOM));
  }

  // ---------- a launch ----------

  lemma {:induction false} PortIteratorAppend(a: seq<Resource>, b: seq<Resource>)
    ensures PortIterator(a + b) == PortIterator(a) + PortIterator(b)
  {
    hide Expand;
    if b == [] {
      assert a + b == a;
    } else {
      var n := |b| - 1;
      PortIteratorAppend(a, b[..n]);
      assert (a + b)[..|a + b| - 1] == a + b[..n];
    }
  }

  lemma PortIteratorSingle(s: seq<Resource>)
    requires |s| <= 1
    ensures PortIterator(s) == if s != [] && s[0].name == "ports" then Expand(s[0].ranges) else []
  {
    if s != [] {
      assert s[..|s| - 1] == [] && s[|s| - 1] == s[0];
    }
  }

  lemma AskIterates(cpus: real, mem: real, disk: real, window: seq<nat>,
                    principal: string, role: string, id: string, path: string)
    ensures PortIterator(Ask(cpus, mem, disk, window, principal, role, id, path)) == Expand(RangesOf(window))
  {
    hide Expand, RangesOf, PortIterator;
    var a, b := ScalarAsk(Cpus, cpus, principal, role), ScalarAsk(Mem, mem, principal, role);
    var c, p := DiskAsk(disk, principal, role, id, path), PortsAsk(window, principal, role);
    PortIteratorAppend(a + b + c, p);
    PortIteratorAppend(a + b, c);
    PortIteratorAppend(a, b);
    PortIteratorSingle(a);
    PortIteratorSingle(b);
    PortIteratorSingle(c);
    PortIteratorSingle(p);
    NoRanges();
  }

  predicate AskPortsBalanced(h: Helper, a: Asks, ports: int) {
    && Distinct(a.unreserved.ports)
    && multiset(h.unreserved.ports) ==
       multiset(a.unreserved.ports) + multiset(PortIterator(a.task)) + multiset(PortIterator(a.executor))
    && StrictlyIncreasing(PortIterator(a.task))
    && |PortIterator(a.task)| == if ports > 0 then ports else 0
  }

  /** What a launch takes from the pools, and on which side its task and executor ask for it. */
  lemma LaunchMoves(n: Node, h: Helper, compatibilityMode: bool, pick: nat)
    requires FitsReserved(n, h, compatibilityMode)
    ensures var a := LaunchAsks(n, h, compatibilityMode, pick);
            forall kind: Kind ::
              && a.reserved.Get(kind) == h.reserved.Get(kind) - (if compatibilityMode then 0.0 else SizeOf(n, kind))
              && a.unreserved.Get(kind) ==
                 h.unreserved.Get(kind) - EXECUTOR_SHARE(kind) - (if compatibilityMode then SizeOf(n, kind) else 0.0)
              && Scalar(kind, a.task, true) + Scalar(kind, a.executor, true) ==
                 (if !compatibilityMode && CanReserve(n) then SizeOf(n, kind) else 0.0)
              && Scalar(kind, a.task, false) + Scalar(kind, a.executor, false) ==
                 EXECUTOR_SHARE(kind) + (if !compatibilityMode && CanReserve(n) then 0.0 else SizeOf(n, kind))
  {
    hide Scalar, Ask, Left, Window;
    var a := LaunchAsks(n, h, compatibilityMode, pick);
    if compatibilityMode {
      var t := Apply(h.unreserved, n.cpus, n.mem, n.disk, n.ports, "", "", "", "", pick);
      DrawMovesScalars(h.unreserved, n.cpus, n.mem, n.disk, n.ports, "", "", "", "", pick);
      DrawMovesScalars(t.pool, CPUS_PER_EXECUTOR, MEM_PER_EXECUTOR, 0.0, 0, "", "", "", "", 0);
    } else {
      var t := Apply(h.reserved, n.cpus, n.mem, n.disk, 0, n.principal, n.role, n.uuid, CONTAINER_PATH, 0);
      var p := Apply(h.unreserved, 0.0, 0.0, 0.0, n.ports, "", "", "", "", pick);
      DrawMovesScalars(h.reserved, n.cpus, n.mem, n.disk, 0, n.principal, n.role, n.uuid, CONTAINER_PATH, 0);
      DrawMovesScalars(h.unreserved, 0.0, 0.0, 0.0, n.ports, "", "", "", "", pick);
      DrawMovesScalars(p.pool, CPUS_PER_EXECUTOR, MEM_PER_EXECUTOR, 0.0, 0, "", "", "", "", 0);
      forall kind: Kind, flag: bool
        ensures Scalar(kind, a.task, flag) == Scalar(kind, t.ask, flag) + Scalar(kind, p.ask, flag)
      {
        ScalarAppend(kind, t.ask, p.ask, flag);
      }
    }
  }

  lemma LaunchPortsBalanced(n: Node, h: Helper, compatibilityMode: bool, pick: nat)
    requires FitsReserved(n, h, compatibilityMode) && Distinct(h.unreserved.ports)
    ensures AskPortsBalanced(h, LaunchAsks(n, h, compatibilityMode, pick), n.ports)
  {
    hide Scalar, Ask, Left, Window, PortIterator, Expand, RangesOf, Distinct, StrictlyIncreasing;
    var a := LaunchAsks(n, h, compatibilityMode, pick);
    var w := Window(h.unreserved.ports, n.ports, pick);
    var left := Left(h.unreserved.ports, n.ports, pick);
    NoPortsDrawn(left, 0);
    NoPortsDrawn(h.reserved.ports, 0);
    WindowSplit(h.unreserved.ports, n.ports, pick);
    CompressThenExpand(w);
    NoRanges();
    AskIterates(CPUS_PER_EXECUTOR, MEM_PER_EXECUTOR, 0.0, [], "", "", "", "");
    if compatibilityMode {
      AskIterates(n.cpus, n.mem, n.disk, w, "", "", "", "");
    } else {
      AskIterates(n.cpus, n.mem, n.disk, [], n.principal, n.role, n.uuid, CONTAINER_PATH);
      AskIterates(0.0, 0.0, 0.0, w, "", "", "", "");
      PortIteratorAppend(Ask(n.cpus, n.mem, n.disk, [], n.principal, n.role, n.uuid, CONTAINER_PATH),
                         Ask(0.0, 0.0, 0.0, w, "", "", "", ""));
    }
    assert PortIterator(a.task) == Expand(RangesOf(w)) && PortIterator(a.executor) == [];
    assert |multiset(Expand(RangesOf(w)))| == |multiset(w)|;
  }

  lemma TaskSumAppend(tasks: seq<Task>, t: Task)
    ensures forall kind: Kind, flag: bool ::
              TaskSum(kind, tasks + [t], flag) ==
              TaskSum(kind, tasks, flag) + Scalar(kind, t.resources, flag) + Scalar(kind, t.executorResources, flag)
    ensures TaskPorts(tasks + [t]) ==
            TaskPorts(tasks) + multiset(PortIterator(t.resources)) + multiset(PortIterator(t.executorResources))
  {
    hide Scalar, PortIterator;
    assert (tasks + [t])[..|tasks + [t]| - 1] == tasks;
  }

  /** The three ports must be asked for, the executor must fit by itself, and outside compatibility mode the node must be
      one that can reserve or asks for nothing. */
  predicate LaunchKeeps(n: Node, h: Helper, compatibilityMode: bool) {
    n.ports >= 3 && ExecutorFits(h) && (compatibilityMode || CanReserve(n) || AsksForNothing(n))
  }

  lemma LaunchGaps(n: Node, h: Helper, compatibilityMode: bool, pick: nat)
    requires ReservedOffer(n, h, compatibilityMode, pick).Some?
    ensures var g := ReservedOffer(n, h, compatibilityMode, pick).value.1;
            forall kind: Kind ::
              var lost := if compatibilityMode || CanReserve(n) then 0.0 else SizeOf(n, kind);
              ReservedGap(g, kind) == ReservedGap(h, kind) + lost && FreeGap(g, kind) == FreeGap(h, kind) - lost
  {
    hide Scalar, TaskSum, LaunchAsks, LaunchData, FitsReserved, TaskPorts, PortIterator;
    var g := ReservedOffer(n, h, compatibilityMode, pick).value.1;
    LaunchMoves(n, h, compatibilityMode, pick);
    TaskSumAppend(h.tasks, g.tasks[|h.tasks|]);
  }

  /** The new task reads its first three ports, and the ports stay balanced. */
  lemma LaunchPorts(n: Node, h: Helper, compatibilityMode: bool, pick: nat)
    requires PortsBalanced(h) && ReservedOffer(n, h, compatibilityMode, pick).Some?
    ensures var g := ReservedOffer(n, h, compatibilityMode, pick).value.1;
            && PortsBalanced(g)
            && TaskPortsRead(g.tasks[|h.tasks|])
            && |PortIterator(g.tasks[|h.tasks|].resources)| == if n.ports > 0 then n.ports else 0
  {
    hide Scalar, PortList, LaunchAsks, PortIterator, TaskPorts, FitsReserved, Distinct, StrictlyIncreasing;
    var g := ReservedOffer(n, h, compatibilityMode, pick).value.1;
    LaunchPortsBalanced(n, h, compatibilityMode, pick);
    TaskSumAppend(h.tasks, g.tasks[|h.tasks|]);
  }

  lemma NamedWhenThree(t: Task)
    requires TaskPortsRead(t)
    ensures TaskPortsNamed(t) <==> |PortIterator(t.resources)| >= 3
  {
    hide PortIterator;
  }

  lemma LaunchPools(n: Node, h: Helper, compatibilityMode: bool, pick: nat)
    requires ReservedOffer(n, h, compatibilityMode, pick).Some?
    ensures var g := ReservedOffer(n, h, compatibilityMode, pick).value.1;
            && g == h.(reserved := g.reserved, unreserved := g.unreserved, tasks := g.tasks)
            && |g.tasks| == |h.tasks| + 1 && h.tasks <= g.tasks
            && (forall kind: Kind ::
                  && g.unreserved.Get(kind) <= h.unreserved.Get(kind) && g.reserved.Get(kind) <= h.reserved.Get(kind))
            && (NonNegative(h.reserved) && NonNegative(h.unreserved) ==>
                  (NonNegative(g.reserved) && NonNegative(g.unreserved) <==> ExecutorFits(h)))
  {
    hide Scalar, LaunchAsks, LaunchData;
    var g := ReservedOffer(n, h, compatibilityMode, pick).value.1;
    LaunchMoves(n, h, compatibilityMode, pick);
    assert forall kind: Kind :: EXECUTOR_SHARE(kind) >= 0.0;
    assert g.unreserved.Get(Cpus) ==
           h.unreserved.cpus - CPUS_PER_EXECUTOR - (if compatibilityMode then Drawn(n.cpus) else 0.0);
    assert g.unreserved.Get(Mem) ==
           h.unreserved.mem - MEM_PER_EXECUTOR - (if compatibilityMode then Drawn(n.mem) else 0.0);
    assert g.unreserved.Get(Disk) == h.unreserved.disk - (if compatibilityMode then Drawn(n.disk) else 0.0);
  }

  /** A launch keeps an offer sound and never closes a gap. */
  lemma LaunchIsSound(n: Node, h: Helper, compatibilityMode: bool, pick: nat)
    requires Sound(h) && ReservedOffer(n, h, compatibilityMode, pick).Some?
    ensures var g := ReservedOffer(n, h, compatibilityMode, pick).value.1;
            Sound(g) && Worse(h, g)
  {
    hide Scalar, PortsBalanced, ReservedOffer, FreeGap, ReservedGap, TaskPortsRead, CanReserve;
    var g := ReservedOffer(n, h, compatibilityMode, pick).value.1;
    LaunchPools(n, h, compatibilityMode, pick);
    LaunchGaps(n, h, compatibilityMode, pick);
    LaunchPorts(n, h, compatibilityMode, pick);
    forall i | 0 <= i < |g.tasks| ensures TaskPortsRead(g.tasks[i]) {
      assert i < |h.tasks| ==> g.tasks[i] == h.tasks[i];
    }
  }

  lemma SoundPorts(h: Helper)
    requires Sound(h)
    ensures PortsBalanced(h)
  {
  }

  /** A launch that fits conserves the offer, and names three ports of its own, if and only if the node asks for three
      ports, the executor fits by itself and, outside compatibility mode, the node can reserve or asks for nothing. */
  lemma ReservedOfferConserves(n: Node, h: Helper, compatibilityMode: bool, pick: nat)
    requires Conserved(h) && ReservedOffer(n, h, compatibilityMode, pick).Some?
    ensures Conserved(ReservedOffer(n, h, compatibilityMode, pick).value.1) <==> LaunchKeeps(n, h, compatibilityMode)
    ensures Sized(n) ==> ExecutorFits(h)
  {
    hide Scalar, PortsBalanced, FreeGap, ReservedGap, TaskPortsRead, TaskPortsNamed, CanReserve, Sound, LaunchAsks,
         LaunchData, PortIterator;
    var g := ReservedOffer(n, h, compatibilityMode, pick).value.1;
    LaunchPools(n, h, compatibilityMode, pick);
    LaunchGaps(n, h, compatibilityMode, pick);
    SoundPorts(h);
    LaunchPorts(n, h, compatibilityMode, pick);
    LaunchIsSound(n, h, compatibilityMode, pick);
    NamedWhenThree(g.tasks[|h.tasks|]);
    assert TaskPortsNamed(g.tasks[|h.tasks|]) <==> n.ports >= 3;
    assert forall i :: 0 <= i < |h.tasks| ==> g.tasks[i] == h.tasks[i];
    var lost := !compatibilityMode && !CanReserve(n);
    assert ReservedGap(g, Cpus) == if lost then Drawn(n.cpus) else 0.0;
    assert ReservedGap(g, Mem) == if lost then Drawn(n.mem) else 0.0;
    assert ReservedGap(g, Disk) == if lost then Drawn(n.disk) else 0.0;
  }

  // ---------- ports ----------

  lemma {:induction false} TaskPortCounted(tasks: seq<Task>, i: nat, p: nat)
    requires i < |tasks| && p in PortIterator(tasks[i].resources)
    ensures TaskPorts(tasks)[p] >= 1
  {
    hide PortIterator;
    var n := |tasks| - 1;
    if i < n {
      TaskPortCounted(tasks[..n], i, p);
    } else {
      assert p in multiset(PortIterator(tasks[i].resources));
    }
  }

  lemma {:induction false} SharedPortCountedTwice(tasks: seq<Task>, i: nat, j: nat, p: nat)
    requires i < j < |tasks| && p in PortIterator(tasks[i].resources) && p in PortIterator(tasks[j].resources)
    ensures TaskPorts(tasks)[p] >= 2
  {
    hide PortIterator;
    var n := |tasks| - 1;
    if j < n {
      SharedPortCountedTwice(tasks[..n], i, j, p);
    } else {
      TaskPortCounted(tasks[..n], i, p);
      assert p in multiset(PortIterator(tasks[j].resources));
    }
  }

  /** The tasks launched on one offer have disjoint ports, all of them the offer's, none held and none left over. */
  lemma TasksOwnTheirPorts(h: Helper, i: nat, p: nat)
    requires WellFormedOffer(h.offer) && PortsBalanced(h)
    requires i < |h.tasks| && p in PortIterator(h.tasks[i].resources)
    ensures p in PortList(h.offer.resources, false)
    ensures p !in h.unreserved.ports && p !in PortList(h.held, false)
    ensures forall j :: 0 <= j < |h.tasks| && j != i ==> p !in PortIterator(h.tasks[j].resources)
  {
    hide PortIterator, PortList, TaskPorts, Scalar, TaskSum, TaskPortsNamed;
    var all, held := PortList(h.offer.resources, false), PortList(h.held, false);
    TaskPortCounted(h.tasks, i, p);
    DistinctCount(all, p);
    var x: multiset<nat>, y: multiset<nat>, z: multiset<nat> := multiset(all), multiset(h.unreserved.ports), multiset(held);
    assert x[p] == y[p] + TaskPorts(h.tasks)[p] + z[p];
    assert p in h.unreserved.ports ==> y[p] >= 1;
    assert p in held ==> z[p] >= 1;
    forall j | 0 <= j < |h.tasks| && j != i && p in PortIterator(h.tasks[j].resources) ensures false {
      SharedPortCountedTwice(h.tasks, if i < j then i else j, if i < j then j else i, p);
    }
  }

  // ---------- running the operations ----------

  /** What Mesos still has of one offer while its operations are applied in order; `newly` was reserved here. */
  datatype Account = Account(free: Kind -> real, reserved: Kind -> real, newly: Kind -> real, ports: multiset<nat>)

  function OfferAccount(offer: Offer): Account {
    Account((k: Kind) => Scalar(k, offer.resources, false),
            (k: Kind) => Scalar(k, offer.resources, true),
            (k: Kind) => 0.0,
            multiset(PortList(offer.resources, false)))
  }

  ghost predicate Affordable(a: Account, op: Operation) {
    match op
    case Launch(tasks) =>
      && (forall k: Kind :: TaskSum(k, tasks, false) <= a.free(k) && TaskSum(k, tasks, true) <= a.reserved(k))
      && TaskPorts(tasks) <= a.ports
    case Destroy(volumes) => Scalar(Disk, volumes, true) <= a.reserved(Disk)
    case Unreserve(rs) => forall k: Kind :: Scalar(k, rs, true) <= a.reserved(k)
    case Reserve(rs) => forall k: Kind :: Scalar(k, rs, true) <= a.free(k)
    case Create(volumes) => Scalar(Disk, volumes, true) <= a.newly(Disk)
  }

  function Perform(a: Account, op: Operation): Account {
    match op
    case Launch(tasks) =>
      a.(free := (k: Kind) => a.free(k) - TaskSum(k, tasks, false),
         reserved := (k: Kind) => a.reserved(k) - TaskSum(k, tasks, true),
         ports := a.ports - TaskPorts(tasks))
    case Destroy(volumes) => a
    case Unreserve(rs) =>
      a.(free := (k: Kind) => a.free(k) + Scalar(k, rs, true), reserved := (k: Kind) => a.reserved(k) - Scalar(k, rs, true))
    case Reserve(rs) =>
      a.(free := (k: Kind) => a.free(k) - Scalar(k, rs, true), newly := (k: Kind) => a.newly(k) + Scalar(k, rs, true))
    case Create(volumes) =>
      a.(newly := (k: Kind) => a.newly(k) - if k == Disk then Scalar(Disk, volumes, true) else 0.0)
  }

  ghost predicate AllAffordable(a: Account, ops: seq<Operation>)
    decreases |ops|
  {
    ops != [] ==> Affordable(a, ops[0]) && AllAffordable(Perform(a, ops[0]), ops[1..])
  }

  /** What MaybeUnreserve adds, if anything, copies the whole offer and only when nothing was launched. */
  predicate ReturnsAll(h: Helper) {
    && (h.toUnreserve != [] ==> h.tasks == [] && h.toUnreserve == CopyReserved(h.offer.resources))
    && (h.toDestroy != [] ==> h.tasks == [] && h.toDestroy == CopyVolumes(h.offer.resources))
  }

  /** Unreserving happens only when no reserved resource was consumed: the reserved pool is then the offer's. */
  lemma MaybeUnreserveReturnsAll(h: Helper)
    requires Sound(h) && h.toUnreserve == [] && h.toDestroy == []
    ensures var h1 := MaybeUnreserve(h);
            && Sound(h1) && (Conserved(h1) <==> Conserved(h)) && ReturnsAll(h1)
            && (h1.toUnreserve != [] || h1.toDestroy != [] ==>
                  forall kind: Kind :: h1.reserved.Get(kind) == Scalar(kind, h1.offer.resources, true))
  {
    hide Scalar, PortList, TaskPorts, Distinct, CopyReserved, CopyVolumes, TaskPortsNamed, TaskPortsRead, TaskSum;
    var h1 := MaybeUnreserve(h);
    assert forall kind: Kind :: FreeGap(h1, kind) == FreeGap(h, kind) && ReservedGap(h1, kind) == ReservedGap(h, kind);
    NoTasksNoSum();
    assert h.tasks == [] ==> forall kind: Kind :: h.reserved.Get(kind) == Scalar(kind, h.offer.resources, true) by {
      assert forall kind: Kind ::
          ReservedGap(h, kind) == Scalar(kind, h.offer.resources, true) - (h.reserved.Get(kind) + TaskSum(kind, h.tasks, true));
    }
  }

  lemma {:induction false} CopiesAreBounded(kind: Kind, resources: seq<Resource>)
    requires forall i :: 0 <= i < |resources| ==> resources[i].scalar >= 0.0
    ensures 0.0 <= Scalar(kind, CopyReserved(resources), true) <= Scalar(kind, resources, true)
    ensures 0.0 <= Scalar(Disk, CopyVolumes(resources), true) <= Scalar(Disk, resources, true)
  {
    if resources != [] {
      var front, r := resources[..|resources| - 1], resources[|resources| - 1];
      CopiesAreBounded(kind, front);
      var c := if IsReservedResource(r) then [Resource(r.name, r.scalar, [], r.role, r.reservation, None)] else [];
      ScalarAppend(kind, CopyReserved(front), c, true);
      SingletonSums(kind, c, true);
      var v := if IsReservedVolume(r) then [Resource("disk", r.scalar, [], r.role, r.reservation, r.disk)] else [];
      ScalarAppend(Disk, CopyVolumes(front), v, true);
      SingletonSums(Disk, v, true);
    }
  }

  lemma OptionalFirst(a: Account, first: seq<Operation>, rest: seq<Operation>)
    requires |first| <= 1
    requires first == [] ==> AllAffordable(a, rest)
    requires first != [] ==> Affordable(a, first[0]) && AllAffordable(Perform(a, first[0]), rest)
    ensures AllAffordable(a, first + rest)
  {
    if first == [] {
      assert first + rest == rest;
    } else {
      assert (first + rest)[0] == first[0] && (first + rest)[1..] == rest;
    }
  }

  function After(a: Account, ops: seq<Operation>): Account {
    if ops == [] then a else Perform(a, ops[0])
  }

  /** Covers what is still to be reserved; nothing reserved here has been turned into a volume yet. */
  ghost predicate Covers(a: Account, h: Helper) {
    && (forall k: Kind :: a.free(k) >= Scalar(k, h.toReserve, true))
    && (forall k: Kind :: a.newly(k) == 0.0)
  }

  /** The equations a balanced offer satisfies. */
  lemma Amounts(h: Helper)
    requires Balanced(h)
    ensures forall kind: Kind ::
              && Scalar(kind, h.offer.resources, false) ==
                 h.unreserved.Get(kind) + TaskSum(kind, h.tasks, false)
                 + Scalar(kind, h.toReserve, true) + Scalar(kind, h.held, false)
              && Scalar(kind, h.offer.resources, true) == h.reserved.Get(kind) + TaskSum(kind, h.tasks, true)
  {
    hide Scalar, TaskSum;
    forall kind: Kind
      ensures Scalar(kind, h.offer.resources, false) ==
              h.unreserved.Get(kind) + TaskSum(kind, h.tasks, false)
              + Scalar(kind, h.toReserve, true) + Scalar(kind, h.held, false)
      ensures Scalar(kind, h.offer.resources, true) == h.reserved.Get(kind) + TaskSum(kind, h.tasks, true)
    {
      assert FreeGap(h, kind) == 0.0 == ReservedGap(h, kind);
    }
  }

  lemma LaunchIsAffordable(h: Helper)
    requires Conserved(h)
    ensures var a, l := OfferAccount(h.offer), if h.tasks != [] then [Launch(h.tasks)] else [];
            && (l != [] ==> Affordable(a, l[0]))
            && Covers(After(a, l), h)
            && (forall k: Kind :: After(a, l).reserved(k) == h.reserved.Get(k))
  {
    hide Scalar, TaskSum, TaskPorts, PortList, Distinct, TaskPortsNamed, TaskPortsRead, FreeGap, ReservedGap;
    Amounts(h);
    NoTasksNoSum();
    NoPortsListed();
  }

  lemma ReturnIsAffordable(h: Helper, a: Account)
    requires WellFormedOffer(h.offer) && Conserved(h) && ReturnsAll(h) && Covers(a, h)
    requires forall k: Kind :: a.reserved(k) == h.reserved.Get(k)
    ensures h.toDestroy != [] ==> Affordable(a, Destroy(h.toDestroy))
    ensures h.toUnreserve != [] ==> Affordable(a, Unreserve(h.toUnreserve))
    ensures Covers(After(a, if h.toUnreserve != [] then [Unreserve(h.toUnreserve)] else []), h)
  {
    hide Scalar, TaskSum, TaskPorts, PortList, Distinct, TaskPortsNamed, TaskPortsRead, FreeGap, ReservedGap, CopyReserved,
         CopyVolumes;
    Amounts(h);
    forall kind: Kind
      ensures 0.0 <= Scalar(kind, CopyReserved(h.offer.resources), true) <= Scalar(kind, h.offer.resources, true)
      ensures 0.0 <= Scalar(Disk, CopyVolumes(h.offer.resources), true) <= Scalar(Disk, h.offer.resources, true)
    {
      CopiesAreBounded(kind, h.offer.resources);
    }
    NoTasksNoSum();
  }

  lemma ReserveIsAffordable(h: Helper, a: Account)
    requires Conserved(h) && Covers(a, h)
    ensures var r := if h.toReserve != [] then [Reserve(h.toReserve)] else [];
            && (r != [] ==> Affordable(a, r[0]))
            && Affordable(After(a, r), Create(h.toCreate))
  {
    hide Scalar, TaskSum, TaskPorts, PortList, Distinct, TaskPortsNamed, TaskPortsRead, FreeGap, ReservedGap;
    Amounts(h);
    NoTasksNoSum();
  }

  lemma Reassociate(l: seq<Operation>, d: seq<Operation>, u: seq<Operation>, r: seq<Operation>, c: seq<Operation>)
    ensures l + (d + (u + (r + c))) == l + d + u + r + c
  {
  }

  lemma NoOperations(a: Account)
    ensures AllAffordable(a, [])
  {
  }

  /** The operations of a conserved offer, run in the order they are submitted, never draw more than is left. */
  lemma OperationsAreAffordable(h: Helper)
    requires WellFormedOffer(h.offer) && Conserved(h) && ReturnsAll(h)
    ensures AllAffordable(OfferAccount(h.offer), Operations(h))
  {
    hide Scalar, TaskSum, TaskPorts, PortList, Conserved, Covers, Affordable, AllAffordable;
    var l := if h.tasks != [] then [Launch(h.tasks)] else [];
    var d := if h.toDestroy != [] then [Destroy(h.toDestroy)] else [];
    var u := if h.toUnreserve != [] then [Unreserve(h.toUnreserve)] else [];
    var r := if h.toReserve != [] then [Reserve(h.toReserve)] else [];
    var c := if h.toCreate != [] then [Create(h.toCreate)] else [];
    var a0 := OfferAccount(h.offer);
    var a1 := After(a0, l);
    var a3 := After(a1, u);
    var a4 := After(a3, r);
    LaunchIsAffordable(h);
    ReturnIsAffordable(h, a1);
    ReserveIsAffordable(h, a3);
    NoOperations(After(a4, c));
    OptionalFirst(a4, c, []);
    assert c + [] == c;
    OptionalFirst(a3, r, c);
    OptionalFirst(a1, u, r + c);
    OptionalFirst(a1, d, u + (r + c));
    OptionalFirst(a0, l, d + (u + (r + c)));
    Reassociate(l, d, u, r, c);
  }
}
