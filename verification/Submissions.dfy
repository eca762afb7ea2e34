/** What is submitted for an offer: each list of the helper in one operation, in the order that Mesos needs, and over a whole
    offer exactly the sizes and the volumes of the nodes that reserved on it. */
module Submissions {
  import opened Options
  import opened Offers
  import opened OfferSafety
  import opened Nodes
  import opened Clusters
  import opened Scheduler

  // ---------- reading operations ----------

  datatype Purpose = Destroying | Unreserving | Reserving | Creating

  /** What the helper lists for a purpose. */
  function Lists(h: Helper, purpose: Purpose): seq<Resource> {
    match purpose
    case Destroying => h.toDestroy
    case Unreserving => h.toUnreserve
    case Reserving => h.toReserve
    case Creating => h.toCreate
  }

  function Named(op: Operation, purpose: Purpose): seq<Resource> {
    match (op, purpose)
    case (Destroy(volumes), Destroying) => volumes
    case (Unreserve(resources), Unreserving) => resources
    case (Reserve(resources), Reserving) => resources
    case (Create(volumes), Creating) => volumes
    case _ => []
  }

  /** The resources that the operations name for a purpose. */
  function Listed(ops: seq<Operation>, purpose: Purpose): seq<Resource> {
    if ops == [] then [] else Listed(ops[..|ops| - 1], purpose) + Named(ops[|ops| - 1], purpose)
  }

  lemma {:induction false} ListedAppend(a: seq<Operation>, b: seq<Operation>, purpose: Purpose)
    ensures Listed(a + b, purpose) == Listed(a, purpose) + Listed(b, purpose)
  {
    hide Named;
    if b == [] {
      assert a + b == a;
    } else {
      var n := |b| - 1;
      ListedAppend(a, b[..n], purpose);
      assert (a + b)[..|a + b| - 1] == a + b[..n];
    }
  }

  function Optional(op: Operation, given: bool): seq<Operation> {
    if given then [op] else []
  }

  lemma ListedOptional(op: Operation, given: bool, purpose: Purpose)
    ensures Listed(Optional(op, given), purpose) == if given then Named(op, purpose) else []
  {
    hide Named;
    assert [op][..0] == [];
  }

  /** A launch before a destroy, that before an unreserve, a reserve and a create. */
  function Rank(op: Operation): nat {
    match op
    case Launch(_) => 0
    case Destroy(_) => 1
    case Unreserve(_) => 2
    case Reserve(_) => 3
    case Create(_) => 4
  }

  lemma FiveListed(l: seq<Operation>, d: seq<Operation>, u: seq<Operation>, r: seq<Operation>, c: seq<Operation>,
                   purpose: Purpose)
    ensures Listed(l + d + u + r + c, purpose) ==
            Listed(l, purpose) + Listed(d, purpose) + Listed(u, purpose) + Listed(r, purpose) + Listed(c, purpose)
  {
    hide Listed;
    ListedAppend(l + d + u + r, c, purpose);
    ListedAppend(l + d + u, r, purpose);
    ListedAppend(l + d, u, purpose);
    ListedAppend(l, d, purpose);
  }

  lemma FiveOperations(h: Helper)
    ensures Operations(h) ==
            Optional(Launch(h.tasks), h.tasks != []) + Optional(Destroy(h.toDestroy), h.toDestroy != [])
            + Optional(Unreserve(h.toUnreserve), h.toUnreserve != []) + Optional(Reserve(h.toReserve), h.toReserve != [])
            + Optional(Create(h.toCreate), h.toCreate != [])
  {
  }

  lemma OperationsList(h: Helper, purpose: Purpose)
    ensures Listed(Operations(h), purpose) == Lists(h, purpose)
  {
    hide Operations, Optional, Listed;
    FiveOperations(h);
    FiveListed(Optional(Launch(h.tasks), h.tasks != []), Optional(Destroy(h.toDestroy), h.toDestroy != []),
               Optional(Unreserve(h.toUnreserve), h.toUnreserve != []),
               Optional(Reserve(h.toReserve), h.toReserve != []), Optional(Create(h.toCreate), h.toCreate != []), purpose);
    ListedOptional(Launch(h.tasks), h.tasks != [], purpose);
    ListedOptional(Destroy(h.toDestroy), h.toDestroy != [], purpose);
    ListedOptional(Unreserve(h.toUnreserve), h.toUnreserve != [], purpose);
    ListedOptional(Reserve(h.toReserve), h.toReserve != [], purpose);
    ListedOptional(Create(h.toCreate), h.toCreate != [], purpose);
  }

  /** Ranks ascend, from low on and below high. */
  predicate Ranked(ops: seq<Operation>, low: nat, high: nat) {
    && (forall i :: 0 <= i < |ops| ==> low <= Rank(ops[i]) < high)
    && forall i, j :: 0 <= i < j < |ops| ==> Rank(ops[i]) < Rank(ops[j])
  }

  lemma RankedAppend(a: seq<Operation>, op: Operation, given: bool, low: nat, high: nat)
    requires Ranked(a, low, high) && Rank(op) == high && low <= high
    ensures Ranked(a + if given then [op] else [], low, high + 1)
  {
    hide Rank;
    var b := a + if given then [op] else [];
    forall i | 0 <= i < |b| ensures b[i] == if i < |a| then a[i] else op {
    }
    forall i, j | 0 <= i < j < |b| ensures Rank(b[i]) < Rank(b[j]) {
      assert Rank(a[i]) < high;
    }
  }

  lemma NothingRanked()
    ensures Ranked([], 0, 0)
  {
  }

  lemma OperationsInOrder(h: Helper)
    ensures Ranked(Operations(h), 0, 5)
  {
    hide Ranked;
    var none: seq<Operation> := [];
    assert Ranked(none, 0, 0) by {
      NothingRanked();
    }
    RankedAppend(none, Launch(h.tasks), h.tasks != [], 0, 0);
    var l := none + if h.tasks != [] then [Launch(h.tasks)] else [];
    RankedAppend(l, Destroy(h.toDestroy), h.toDestroy != [], 0, 1);
    var d := l + if h.toDestroy != [] then [Destroy(h.toDestroy)] else [];
    RankedAppend(d, Unreserve(h.toUnreserve), h.toUnreserve != [], 0, 2);
    var u := d + if h.toUnreserve != [] then [Unreserve(h.toUnreserve)] else [];
    RankedAppend(u, Reserve(h.toReserve), h.toReserve != [], 0, 3);
    var r := u + if h.toReserve != [] then [Reserve(h.toReserve)] else [];
    RankedAppend(r, Create(h.toCreate), h.toCreate != [], 0, 4);
    assert l == if h.tasks != [] then [Launch(h.tasks)] else [];
  }

  /** The operations name exactly what the helper lists, launch exactly its tasks, and come in order, none of a kind twice. */
  lemma OperationsAreTheLists(h: Helper)
    ensures Listed(Operations(h), Destroying) == h.toDestroy && Listed(Operations(h), Unreserving) == h.toUnreserve
    ensures Listed(Operations(h), Reserving) == h.toReserve && Listed(Operations(h), Creating) == h.toCreate
    ensures LaunchTasks(Operations(h)) == h.tasks
    ensures forall i, j :: 0 <= i < j < |Operations(h)| ==> Rank(Operations(h)[i]) < Rank(Operations(h)[j])
  {
    hide Operations, Listed, LaunchTasks;
    OperationsList(h, Destroying);
    OperationsList(h, Unreserving);
    OperationsList(h, Reserving);
    OperationsList(h, Creating);
    OnlyLaunches(h, false);
    OperationsInOrder(h);
  }

  // ---------- what is given back ----------

  /** A volume that is offered, and its copy. */
  predicate VolumeOf(x: Resource, r: Resource) {
    x.reservation.Some? && x.disk.Some? && x.name == "disk" && r == x.(ranges := [])
  }

  /** A reservation with a role that is offered, and its copy. */
  predicate ReservationOf(x: Resource, r: Resource) {
    x.reservation.Some? && x.role != "" && r == x.(ranges := [], disk := None)
  }

  predicate IdOf(x: Resource, id: string) {
    x.reservation.Some? && x.disk.Some? && x.name == "disk" && x.disk.value.persistenceId == id
  }

  lemma LastCopies(x: Resource, r: Resource, id: string)
    ensures VolumeOf(x, r) <==> r in if IsReservedVolume(x) then [Resource("disk", x.scalar, [], x.role, x.reservation, x.disk)] else []
    ensures ReservationOf(x, r) <==>
            r in if IsReservedResource(x) then [Resource(x.name, x.scalar, [], x.role, x.reservation, None)] else []
    ensures IdOf(x, id) <==> id in if IsReservedVolume(x) then [x.disk.value.persistenceId] else []
  {
  }

  lemma {:induction false} VolumeCopies(resources: seq<Resource>, r: Resource)
    ensures r in CopyVolumes(resources) <==> exists i :: 0 <= i < |resources| && VolumeOf(resources[i], r)
  {
    hide VolumeOf;
    if resources != [] {
      var n := |resources| - 1;
      VolumeCopies(resources[..n], r);
      LastCopies(resources[n], r, "");
      if i :| 0 <= i < n && VolumeOf(resources[i], r) {
        assert VolumeOf(resources[..n][i], r);
      }
    }
  }

  lemma {:induction false} ReservationCopies(resources: seq<Resource>, r: Resource)
    ensures r in CopyReserved(resources) <==> exists i :: 0 <= i < |resources| && ReservationOf(resources[i], r)
  {
    hide ReservationOf;
    if resources != [] {
      var n := |resources| - 1;
      ReservationCopies(resources[..n], r);
      LastCopies(resources[n], r, "");
      if i :| 0 <= i < n && ReservationOf(resources[i], r) {
        assert ReservationOf(resources[..n][i], r);
      }
    }
  }

  lemma {:induction false} IdCopies(resources: seq<Resource>, id: string)
    ensures id in PersistenceIds(resources) <==> exists i :: 0 <= i < |resources| && IdOf(resources[i], id)
  {
    hide IdOf;
    if resources != [] {
      var n := |resources| - 1;
      IdCopies(resources[..n], id);
      LastCopies(resources[n], resources[n], id);
      if i :| 0 <= i < n && IdOf(resources[i], id) {
        assert IdOf(resources[..n][i], id);
      }
    }
  }

  /** The copies that are destroyed are those of the offered volumes, the ones that are unreserved those of the offered
      reservations with a role; and the ids are the volumes'. */
  lemma CopiesOutcome(resources: seq<Resource>, r: Resource, id: string)
    ensures r in CopyVolumes(resources) <==> exists i :: 0 <= i < |resources| && VolumeOf(resources[i], r)
    ensures r in CopyReserved(resources) <==> exists i :: 0 <= i < |resources| && ReservationOf(resources[i], r)
    ensures id in PersistenceIds(resources) <==> exists i :: 0 <= i < |resources| && IdOf(resources[i], id)
  {
    hide VolumeOf, ReservationOf, IdOf, CopyVolumes, CopyReserved, PersistenceIds;
    VolumeCopies(resources, r);
    ReservationCopies(resources, r);
    IdCopies(resources, id);
  }

  // ---------- what nodes reserve ----------

  /** The role and the principal of a reservation, if the node can make one. */
  function RoleOf(n: Node): (string, Option<string>) {
    if n.principal != "" && n.role != "" then (n.role, Some(n.principal)) else ("*", None)
  }

  /** What a node reserves: its cpus, its memory and its disk. */
  function SizesFor(n: Node): seq<Resource> {
    var (role, principal) := RoleOf(n);
    (if n.cpus > 0.0 then [Resource("cpus", n.cpus, [], role, principal, None)] else [])
    + (if n.mem > 0.0 then [Resource("mem", n.mem, [], role, principal, None)] else [])
    + (if n.disk > 0.0 then [Resource("disk", n.disk, [], role, principal, None)] else [])
  }

  /** The volume it makes of the disk, under its uuid. */
  function VolumeFor(n: Node): seq<Resource> {
    var (role, principal) := RoleOf(n);
    if n.disk > 0.0 then
      [Resource("disk", n.disk, [], role, principal,
                if principal.Some? && n.uuid != "" then Some(DiskInfo(n.uuid, "root")) else None)]
    else []
  }

  function NeededFor(n: Node, purpose: Purpose): seq<Resource> {
    match purpose
    case Reserving => SizesFor(n)
    case Creating => VolumeFor(n)
    case _ => []
  }

  /** A node that had no reservation and has one now. */
  predicate HasReserved(before: Node, after: Node) {
    before.current == Unknown && after.current == Reserved
  }

  lemma AskIsNeeded(n: Node)
    ensures Ask(n.cpus, n.mem, n.disk, [], n.principal, n.role, "", "") == SizesFor(n)
    ensures Ask(0.0, 0.0, n.disk, [], n.principal, n.role, n.uuid, CONTAINER_PATH) == VolumeFor(n)
  {
  }

  lemma ReservationLists(n: Node, h: Helper, pick: nat, purpose: Purpose)
    requires UnreservedOffer(n, h, pick).Some?
    ensures Lists(UnreservedOffer(n, h, pick).value.1, purpose) == Lists(h, purpose) + NeededFor(n, purpose)
  {
    hide Left, Ask, SizesFor, VolumeFor;
    AskIsNeeded(n);
  }

  lemma LaunchKeepsLists(n: Node, h: Helper, mode: bool, pick: nat)
    requires ReservedOffer(n, h, mode, pick).Some?
    ensures var (m, g) := ReservedOffer(n, h, mode, pick).value;
            && m.current == Starting
            && forall purpose: Purpose :: Lists(g, purpose) == Lists(h, purpose)
  {
    hide LaunchAsks, FitsReserved;
  }

  lemma VisitReserves(n: Node, h: Helper, mode: bool, pick: nat, purpose: Purpose)
    ensures var v := VisitNode(n, h, mode, pick);
            Lists(v.helper, purpose) ==
            Lists(h, purpose) + if HasReserved(n, v.node) then NeededFor(n, purpose) else []
  {
    hide UnreservedOffer, LaunchAsks, FitsReserved, WillLaunch, WillReserve, NeededFor;
    VisitDecides(n, h, mode, pick);
    if WillReserve(n, h, mode) {
      ReservationLists(n, h, pick, purpose);
    } else if WillLaunch(n, h, mode) {
      LaunchKeepsLists(n, h, mode, pick);
    }
  }

  /** What the nodes that reserved need, in the order of their turns. */
  function NeededBy(before: map<string, Node>, after: map<string, Node>, order: seq<string>, purpose: Purpose): seq<Resource>
    requires forall i :: 0 <= i < |order| ==> order[i] in before && order[i] in after
  {
    if order == [] then []
    else
      var k := order[|order| - 1];
      NeededBy(before, after, order[..|order| - 1], purpose)
      + if HasReserved(before[k], after[k]) then NeededFor(before[k], purpose) else []
  }

  lemma {:induction false} SameNeeded(before: map<string, Node>, a: map<string, Node>, b: map<string, Node>,
                                      order: seq<string>, purpose: Purpose)
    requires forall i :: 0 <= i < |order| ==> order[i] in before && order[i] in a && order[i] in b
    requires forall i :: 0 <= i < |order| ==> a[order[i]] == b[order[i]]
    ensures NeededBy(before, a, order, purpose) == NeededBy(before, b, order, purpose)
  {
    if order != [] {
      SameNeeded(before, a, b, order[..|order| - 1], purpose);
    }
  }

  lemma {:induction false} PassReserves(nodes: map<string, Node>, order: seq<string>, picks: seq<nat>, mode: bool, h: Helper,
                                        purpose: Purpose)
    requires |picks| == |order| && forall i :: 0 <= i < |order| ==> order[i] in nodes
    requires forall a, b :: 0 <= a < b < |order| ==> order[a] != order[b]
    ensures var p := ApplyNodes(nodes, order, picks, mode, h);
            Lists(p.helper, purpose) == Lists(h, purpose) + NeededBy(nodes, p.nodes, order, purpose)
  {
    hide VisitNode, HasReserved, NeededFor, Lists;
    if order != [] {
      var i := |order| - 1;
      var q := ApplyNodes(nodes, order[..i], picks[..i], mode, h);
      var p := ApplyNodes(nodes, order, picks, mode, h);
      LastVisit(nodes, order, picks, mode, h);
      hide ApplyNodes;
      PassReserves(nodes, order[..i], picks[..i], mode, h, purpose);
      UnvisitedNodesStay(nodes, order[..i], picks[..i], mode, h, order[i]);
      VisitReserves(q.nodes[order[i]], q.helper, mode, picks[i], purpose);
      SameNeeded(nodes, q.nodes, p.nodes, order[..i], purpose);
    }
  }

  // ---------- a whole offer ----------

  predicate PlansWithin(s: Sched, t: Sched, plans: seq<OfferPlan>) {
    forall i :: 0 <= i < |plans| ==>
      && plans[i].name in s.clusters && plans[i].name in t.clusters
      && forall j :: 0 <= j < |plans[i].order| ==>
           plans[i].order[j] in s.clusters[plans[i].name].nodes && plans[i].order[j] in t.clusters[plans[i].name].nodes
  }

  /** What all nodes that reserved between two states need. */
  function NeededByAll(s: Sched, t: Sched, plans: seq<OfferPlan>, purpose: Purpose): seq<Resource>
    requires PlansWithin(s, t, plans)
  {
    if plans == [] then []
    else
      var c := plans[0].name;
      NeededBy(s.clusters[c].nodes, t.clusters[c].nodes, plans[0].order, purpose) + NeededByAll(s, t, plans[1..], purpose)
  }

  predicate DistinctPlans(plans: seq<OfferPlan>) {
    forall a, b :: 0 <= a < b < |plans| ==> plans[a].name != plans[b].name
  }

  lemma {:induction false} SameNeededByAll(s: Sched, u: Sched, t: Sched, plans: seq<OfferPlan>, purpose: Purpose)
    requires PlansWithin(s, t, plans) && PlansWithin(u, t, plans)
    requires forall i :: 0 <= i < |plans| ==> s.clusters[plans[i].name] == u.clusters[plans[i].name]
    ensures NeededByAll(s, t, plans, purpose) == NeededByAll(u, t, plans, purpose)
  {
    if plans != [] {
      SameNeededByAll(s, u, t, plans[1..], purpose);
    }
  }

  lemma TurnReserves(s: Sched, plan: OfferPlan, mode: bool, h: Helper, purpose: Purpose)
    requires OfferPlanFits(s, plan)
    ensures var a := OfferCluster(s, plan, mode, h);
            && a.sched.clusters.Keys == s.clusters.Keys
            && (forall c :: c in s.clusters && c != plan.name ==> a.sched.clusters[c] == s.clusters[c])
            && (forall j :: 0 <= j < |plan.order| ==>
                  plan.order[j] in s.clusters[plan.name].nodes && plan.order[j] in a.sched.clusters[plan.name].nodes)
            && Lists(a.helper, purpose) == Lists(h, purpose)
               + NeededBy(s.clusters[plan.name].nodes, a.sched.clusters[plan.name].nodes, plan.order, purpose)
  {
    hide ApplyNodes, Lists, NeededBy;
    PassReserves(s.clusters[plan.name].nodes, plan.order, plan.picks, mode, h, purpose);
  }

  lemma PlanIsThere(s: Sched, plan: OfferPlan)
    requires OfferPlanFits(s, plan)
    ensures plan.name in s.clusters
  {
  }

  lemma OthersWithin(s: Sched, u: Sched, t: Sched, plans: seq<OfferPlan>, name: string)
    requires plans != [] && plans[0].name == name && DistinctPlans(plans) && name in s.clusters
    requires u.clusters.Keys == s.clusters.Keys && forall c :: c in s.clusters && c != name ==> u.clusters[c] == s.clusters[c]
    requires PlansWithin(u, t, plans[1..]) && PlansWithin(s, t, plans[..1])
    ensures PlansWithin(s, t, plans) && PlansWithin(s, t, plans[1..])
    ensures forall i :: 0 <= i < |plans[1..]| ==> s.clusters[plans[1..][i].name] == u.clusters[plans[1..][i].name]
  {
    assert plans[..1][0] == plans[0];
    forall i | 0 <= i < |plans[1..]| ensures plans[1..][i].name != name && plans[1..][i] == plans[i + 1] {
    }
    forall i | 0 < i < |plans| ensures plans[i] == plans[1..][i - 1] {
    }
  }

  lemma {:induction false} ClustersReserve(s: Sched, plans: seq<OfferPlan>, mode: bool, h: Helper, purpose: Purpose)
    requires OfferPlansFit(s, plans, mode, h) && DistinctPlans(plans)
    ensures var a := OfferClusters(s, plans, mode, h);
            && PlansWithin(s, a.sched, plans)
            && Lists(a.helper, purpose) == Lists(h, purpose) + NeededByAll(s, a.sched, plans, purpose)
    decreases |plans|
  {
    hide OfferCluster, OfferPlanFits, Lists, NeededBy;
    if plans != [] {
      var plan := plans[0];
      assert plan.name in s.clusters by {
        PlanIsThere(s, plan);
      }
      var a := OfferCluster(s, plan, mode, h);
      var t := OfferClusters(a.sched, plans[1..], mode, a.helper).sched;
      TurnReserves(s, plan, mode, h, purpose);
      assert forall i :: 0 <= i < |plans[1..]| ==> plans[1..][i] == plans[i + 1];
      ClustersReserve(a.sched, plans[1..], mode, a.helper, purpose);
      UnvisitedClustersStay(a.sched, plans[1..], mode, a.helper, plan.name);
      hide OfferClusters, OfferPlansFit;
      OthersWithin(s, a.sched, t, plans, plan.name);
      SameNeededByAll(s, a.sched, t, plans[1..], purpose);
    }
  }

  /** For any clusters, orders and windows: outside compatibility mode what is submitted for an offer reserves exactly the
      sizes, and creates exactly the volumes, of the nodes that went from no reservation to one, in the order of their turns,
      and launches exactly the prepared tasks; in compatibility mode nothing is reserved or created. */
  lemma SubmittedReservations(s: Sched, plans: seq<OfferPlan>, mode: bool, offer: Offer)
    requires OfferPlansFit(s, plans, mode, NewHelper(offer)) && DistinctPlans(plans)
    ensures var a := OfferClusters(s, plans, mode, NewHelper(offer));
            var ops := Submitted(mode, OperationsFor(a));
            && PlansWithin(s, a.sched, plans)
            && Listed(ops, Reserving) == (if mode then [] else NeededByAll(s, a.sched, plans, Reserving))
            && Listed(ops, Creating) == (if mode then [] else NeededByAll(s, a.sched, plans, Creating))
            && LaunchTasks(ops) == a.helper.tasks
  {
    hide OfferClusters, OfferPlansFit, Operations, Listed, NeededByAll, PlansWithin, DistinctPlans, PoolOf, LaunchTasks;
    var a := OfferClusters(s, plans, mode, NewHelper(offer));
    var g := if a.needs then a.helper else MaybeUnreserve(a.helper);
    ClustersReserve(s, plans, mode, NewHelper(offer), Reserving);
    ClustersReserve(s, plans, mode, NewHelper(offer), Creating);
    OperationsAreTheLists(g);
    OnlyLaunches(g, mode);
    ListedOptional(Launch(g.tasks), g.tasks != [], Reserving);
    ListedOptional(Launch(g.tasks), g.tasks != [], Creating);
  }

  // ---------- what is given back over an offer ----------

  lemma VisitKeepsReserved(n: Node, h: Helper, mode: bool, pick: nat)
    ensures var v := VisitNode(n, h, mode, pick); v.helper.tasks == h.tasks ==> v.helper.reserved == h.reserved
  {
    hide WillLaunch, WillReserve, LaunchAsks, FitsReserved, Ask, Left;
    VisitDecides(n, h, mode, pick);
    hide VisitNode;
  }

  lemma {:induction false} PassKeepsReserved(nodes: map<string, Node>, order: seq<string>, picks: seq<nat>, mode: bool, h: Helper)
    requires |picks| == |order| && forall i :: 0 <= i < |order| ==> order[i] in nodes
    ensures var g := ApplyNodes(nodes, order, picks, mode, h).helper;
            h.tasks <= g.tasks && (g.tasks == h.tasks ==> g.reserved == h.reserved)
  {
    hide VisitNode;
    if order != [] {
      var i := |order| - 1;
      PassKeepsReserved(nodes, order[..i], picks[..i], mode, h);
      var q := ApplyNodes(nodes, order[..i], picks[..i], mode, h);
      VisitOutcome(q.nodes[order[i]], q.helper, mode, picks[i]);
      VisitKeepsReserved(q.nodes[order[i]], q.helper, mode, picks[i]);
    }
  }

  lemma {:induction false} ClustersKeepReserved(s: Sched, plans: seq<OfferPlan>, mode: bool, h: Helper)
    requires OfferPlansFit(s, plans, mode, h)
    ensures var g := OfferClusters(s, plans, mode, h).helper;
            h.tasks <= g.tasks && (g.tasks == h.tasks ==> g.reserved == h.reserved)
    decreases |plans|
  {
    hide ApplyNodes;
    if plans != [] {
      var plan, c := plans[0], s.clusters[plans[0].name];
      var a := OfferCluster(s, plan, mode, h);
      PassKeepsReserved(c.nodes, plan.order, plan.picks, mode, h);
      ClustersKeepReserved(a.sched, plans[1..], mode, a.helper);
    }
  }

  /** The offer holds something reserved. */
  predicate HoldsReservations(offer: Offer) {
    || Scalar(Cpus, offer.resources, true) > 0.0 || Scalar(Mem, offer.resources, true) > 0.0
    || Scalar(Disk, offer.resources, true) > 0.0 || PortList(offer.resources, true) != []
  }

  lemma ReturnLists(h: Helper)
    requires h.toUnreserve == [] && h.toDestroy == []
    ensures var g := MaybeUnreserve(h);
            && g.tasks == h.tasks
            && g.toUnreserve == (if h.tasks == [] && HasReservations(h) then CopyReserved(h.offer.resources) else [])
            && g.toDestroy == (if h.tasks == [] && h.persistenceIds != [] then CopyVolumes(h.offer.resources) else [])
  {
    assert [] + CopyReserved(h.offer.resources) == CopyReserved(h.offer.resources);
    assert [] + CopyVolumes(h.offer.resources) == CopyVolumes(h.offer.resources);
  }

  /** Exactly when nothing was launched, no turn asked to keep the offer and the mode is not compatibility, all reservations of
      the offer are unreserved, if it holds something reserved, and all of its volumes are destroyed; else none is. */
  lemma SubmittedReturns(s: Sched, plans: seq<OfferPlan>, mode: bool, offer: Offer)
    requires OfferPlansFit(s, plans, mode, NewHelper(offer))
    ensures var a := OfferClusters(s, plans, mode, NewHelper(offer));
            var ops := Submitted(mode, OperationsFor(a));
            var given := !mode && !a.needs && a.helper.tasks == [];
            && Listed(ops, Unreserving) ==
               (if given && HoldsReservations(offer) then CopyReserved(offer.resources) else [])
            && Listed(ops, Destroying) ==
               (if given && PersistenceIds(offer.resources) != [] then CopyVolumes(offer.resources) else [])
  {
    hide OfferClusters, OfferPlansFit, Operations, Listed, LaunchTasks, Scalar, PortList, PersistenceIds, CopyReserved,
         CopyVolumes, MaybeUnreserve;
    var h := NewHelper(offer);
    var a := OfferClusters(s, plans, mode, h);
    var g := if a.needs then a.helper else MaybeUnreserve(a.helper);
    ClustersKeepOffer(s, plans, mode, h);
    ClustersKeepReserved(s, plans, mode, h);
    ReturnLists(a.helper);
    OperationsAreTheLists(g);
    OnlyLaunches(g, mode);
    ListedOptional(Launch(g.tasks), g.tasks != [], Unreserving);
    ListedOptional(Launch(g.tasks), g.tasks != [], Destroying);
  }
}
