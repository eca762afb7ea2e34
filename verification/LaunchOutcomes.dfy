/** What a launch is, for Mesos and for the scheduler: the id and the executor of the task, where it runs, what it gets, and
    that its updates find the node it was made for. */
module LaunchOutcomes {
  import opened Options
  import opened NodeIds
  import opened Offers
  import opened OfferLedger
  import opened OfferSafety
  import opened PortRanges
  import opened NodeNames
  import opened Nodes
  import opened Clusters
  import opened Scheduler

  /** The task runs under the node's id, on the slave of the offer, with an executor of the node's next generation; and the
      record says so. */
  predicate LaunchedAs(n: Node, m: Node, t: Task, offer: Offer) {
    && t.taskId == CurrentId(n.framework, n.cluster, n.simpleId)
    && t.executor == Executor(n.framework, n.cluster, n.uuid, n.generation + 1)
    && t.slaveId == offer.slaveId
    && m == n.(slaveId := offer.slaveId, hostname := offer.hostname, generation := n.generation + 1,
               status := None, current := Starting, data := Some(t.data))
    && t.data.host == offer.hostname
  }

  /** The task gets the node's sizes and no more, reserved exactly when they were reserved for it; the executor gets its fixed
      share, unreserved, and no port. */
  ghost predicate GetsItsShare(n: Node, t: Task, reserved: bool) {
    && (forall kind: Kind ::
          && Scalar(kind, t.resources, reserved) == SizeOf(n, kind)
          && Scalar(kind, t.resources, !reserved) == 0.0
          && Scalar(kind, t.executorResources, true) == 0.0)
    && Scalar(Cpus, t.executorResources, false) == 0.1
    && Scalar(Mem, t.executorResources, false) == 32.0
    && Scalar(Disk, t.executorResources, false) == 0.0
    && PortList(t.executorResources, false) == []
    && (forall r :: r in t.resources && r.reservation.Some? ==> r.role == n.role && r.reservation == Some(n.principal))
    && (forall r :: r in t.resources + t.executorResources && r.reservation == None ==> r.role == "*" && r.disk == None)
    && (forall r :: r in t.resources && r.name == "disk" && reserved && n.uuid != "" ==>
          r.disk == Some(DiskInfo(n.uuid, "root")))
  }

  // ---------- shares ----------

  lemma CompatibleShare(n: Node, h: Helper, pick: nat)
    requires FitsReserved(n, h, true)
    ensures var a := LaunchAsks(n, h, true, pick);
            && (forall kind: Kind ::
                  && Scalar(kind, a.task, false) == SizeOf(n, kind) && Scalar(kind, a.task, true) == 0.0
                  && Scalar(kind, a.executor, false) == EXECUTOR_SHARE(kind) && Scalar(kind, a.executor, true) == 0.0)
            && PortList(a.executor, false) == []
  {
    hide Scalar, PortList, Ask, Left;
    var t := Apply(h.unreserved, n.cpus, n.mem, n.disk, n.ports, "", "", "", "", pick);
    DrawMovesScalars(h.unreserved, n.cpus, n.mem, n.disk, n.ports, "", "", "", "", pick);
    DrawMovesScalars(t.pool, CPUS_PER_EXECUTOR, MEM_PER_EXECUTOR, 0.0, 0, "", "", "", "", 0);
    AskPorts(CPUS_PER_EXECUTOR, MEM_PER_EXECUTOR, 0.0, Window(t.pool.ports, 0, 0), "", "", "", "", false);
    NoRanges();
    hide Window;
  }

  lemma ReservedShare(n: Node, h: Helper, pick: nat)
    requires FitsReserved(n, h, false)
    ensures var a := LaunchAsks(n, h, false, pick);
            && (forall kind: Kind ::
                  && Scalar(kind, a.task, CanReserve(n)) == SizeOf(n, kind) && Scalar(kind, a.task, !CanReserve(n)) == 0.0
                  && Scalar(kind, a.executor, false) == EXECUTOR_SHARE(kind) && Scalar(kind, a.executor, true) == 0.0)
            && PortList(a.executor, false) == []
  {
    hide Scalar, PortList, Ask, Left;
    var t := Apply(h.reserved, n.cpus, n.mem, n.disk, 0, n.principal, n.role, n.uuid, CONTAINER_PATH, 0);
    var p := Apply(h.unreserved, 0.0, 0.0, 0.0, n.ports, "", "", "", "", pick);
    DrawMovesScalars(h.reserved, n.cpus, n.mem, n.disk, 0, n.principal, n.role, n.uuid, CONTAINER_PATH, 0);
    DrawMovesScalars(h.unreserved, 0.0, 0.0, 0.0, n.ports, "", "", "", "", pick);
    DrawMovesScalars(p.pool, CPUS_PER_EXECUTOR, MEM_PER_EXECUTOR, 0.0, 0, "", "", "", "", 0);
    forall kind: Kind, flag: bool
      ensures Scalar(kind, t.ask + p.ask, flag) == Scalar(kind, t.ask, flag) + Scalar(kind, p.ask, flag)
    {
      ScalarAppend(kind, t.ask, p.ask, flag);
    }
    AskPorts(CPUS_PER_EXECUTOR, MEM_PER_EXECUTOR, 0.0, Window(p.pool.ports, 0, 0), "", "", "", "", false);
    NoRanges();
    hide Window;
  }

  // ---------- one turn ----------

  lemma SameId(n: Node, h: Helper, compatibilityMode: bool, pick: nat)
    requires ReservedOffer(n, h, compatibilityMode, pick).Some?
    ensures var (m, g) := ReservedOffer(n, h, compatibilityMode, pick).value;
            && |g.tasks| == |h.tasks| + 1 && g.tasks[..|h.tasks|] == h.tasks
            && LaunchedAs(n, m, g.tasks[|h.tasks|], h.offer)
  {
    hide LaunchAsks, PortIterator, FitsReserved, CurrentId;
  }

  lemma VisitLaunches(n: Node, h: Helper, compatibilityMode: bool, pick: nat)
    ensures var v := VisitNode(n, h, compatibilityMode, pick);
            v.helper.tasks != h.tasks ==>
              && |v.helper.tasks| == |h.tasks| + 1 && v.helper.tasks[..|h.tasks|] == h.tasks
              && LaunchedAs(n, v.node, v.helper.tasks[|h.tasks|], h.offer)
  {
    hide LaunchAsks, PortIterator, WillReserve, WillLaunch;
    VisitDecides(n, h, compatibilityMode, pick);
    hide VisitNode, FitsReserved;
    if WillLaunch(n, h, compatibilityMode) {
      SameId(n, h, compatibilityMode, pick);
    }
  }

  /** Whose the resources of an ask are. */
  lemma AskRoles(cpus: real, mem: real, disk: real, window: seq<nat>, principal: string, role: string, id: string, path: string)
    ensures forall r :: r in Ask(cpus, mem, disk, window, principal, role, id, path) ==>
              && (if MakesReservation(principal, role) then r.role == role && r.reservation == Some(principal)
                  else r.role == "*" && r.reservation == None && r.disk == None)
              && (r.name == "disk" && MakesReservation(principal, role) && id != "" && path != "" ==>
                    r.disk == Some(DiskInfo(id, path)))
  {
    hide RangesOf;
  }

  lemma NoDisk(window: seq<nat>)
    ensures forall r :: r in Ask(0.0, 0.0, 0.0, window, "", "", "", "") ==> r.name != "disk"
  {
    hide RangesOf;
  }

  lemma LaunchRoles(n: Node, h: Helper, mode: bool, pick: nat)
    requires FitsReserved(n, h, mode)
    ensures var a := LaunchAsks(n, h, mode, pick);
            && (forall r :: r in a.task && r.reservation.Some? ==> r.role == n.role && r.reservation == Some(n.principal))
            && (forall r :: r in a.task + a.executor && r.reservation == None ==> r.role == "*" && r.disk == None)
            && (forall r :: r in a.task && r.name == "disk" && !mode && CanReserve(n) && n.uuid != "" ==>
                  r.disk == Some(DiskInfo(n.uuid, "root")))
  {
    hide Ask, Window, Left;
    var w0, w1 := Window(h.unreserved.ports, n.ports, pick), Window(h.reserved.ports, 0, 0);
    var t := Apply(h.unreserved, if mode then n.cpus else 0.0, if mode then n.mem else 0.0, if mode then n.disk else 0.0,
                   n.ports, "", "", "", "", pick);
    var w2 := Window(t.pool.ports, 0, 0);
    AskRoles(n.cpus, n.mem, n.disk, w0, "", "", "", "");
    AskRoles(n.cpus, n.mem, n.disk, w1, n.principal, n.role, n.uuid, CONTAINER_PATH);
    AskRoles(0.0, 0.0, 0.0, w0, "", "", "", "");
    AskRoles(CPUS_PER_EXECUTOR, MEM_PER_EXECUTOR, 0.0, w2, "", "", "", "");
    NoDisk(w0);
  }

  lemma VisitShares(n: Node, h: Helper, compatibilityMode: bool, pick: nat)
    ensures var v := VisitNode(n, h, compatibilityMode, pick);
            v.helper.tasks != h.tasks ==>
              && |v.helper.tasks| == |h.tasks| + 1
              && GetsItsShare(n, v.helper.tasks[|h.tasks|], !compatibilityMode && CanReserve(n))
  {
    hide LaunchAsks, FitsReserved, Apply, PortIterator, CurrentId, MakeReservation, MakeVolume, Scalar, PortList, WillReserve,
         WillLaunch;
    VisitDecides(n, h, compatibilityMode, pick);
    if WillLaunch(n, h, compatibilityMode) {
      hide VisitNode;
      LaunchRoles(n, h, compatibilityMode, pick);
      if compatibilityMode {
        CompatibleShare(n, h, pick);
      } else {
        ReservedShare(n, h, pick);
      }
    }
  }

  /** What a turn may leave of a record: launched for the offer, reserved on it, without the reservation it had, or the
      same. */
  predicate TurnedInto(n: Node, m: Node, offer: Offer) {
    || (exists t :: t == m.data && t.Some? && t.value.host == offer.hostname
                 && m == n.(slaveId := offer.slaveId, hostname := offer.hostname, generation := n.generation + 1,
                            status := None, current := Starting, data := t))
    || m == n.(slaveId := offer.slaveId, hostname := offer.hostname, current := Reserved)
    || m == n.(slaveId := "", current := Unknown)
    || m == n
  }

  /** Each of the four exactly under its condition. */
  lemma VisitRecords(n: Node, h: Helper, mode: bool, pick: nat)
    ensures var v := VisitNode(n, h, mode, pick);
            var launches, reserves := WillLaunch(n, h, mode), WillReserve(n, h, mode);
            var holds := Waits(n) && !mode && n.current != Unknown;
            && TurnedInto(n, v.node, h.offer)
            && (launches <==> v.node.generation == n.generation + 1)
            && (launches ==> v.node.current == Starting)
            && (reserves ==> v.node == n.(slaveId := h.offer.slaveId, hostname := h.offer.hostname, current := Reserved))
            && (!launches && holds && n.uuid !in h.persistenceIds && ComesBack(n, h.offer) ==>
                  v.node == n.(slaveId := "", current := Unknown))
            && (!launches && !reserves && !(holds && n.uuid !in h.persistenceIds && ComesBack(n, h.offer)) ==> v.node == n)
  {
    hide LaunchAsks, LaunchData, Apply, MakeReservation, MakeVolume;
    VisitOutcome(n, h, mode, pick);
    VisitDecides(n, h, mode, pick);
    WaitsWhenSchedulable(n);
    VisitLaunches(n, h, mode, pick);
  }

  lemma Unturned(n: Node, offer: Offer)
    ensures TurnedInto(n, n, offer)
  {
  }

  /** In a turn of a cluster every record is left in one of the four ways, as the offer says. */
  lemma {:induction false} PassRecords(nodes: map<string, Node>, order: seq<string>, picks: seq<nat>, mode: bool, h: Helper,
                                       k: string)
    requires |picks| == |order| && forall i :: 0 <= i < |order| ==> order[i] in nodes
    requires (forall a, b :: 0 <= a < b < |order| ==> order[a] != order[b]) && k in nodes
    ensures TurnedInto(nodes[k], ApplyNodes(nodes, order, picks, mode, h).nodes[k], h.offer)
  {
    hide VisitNode, TurnedInto;
    if order == [] {
      Unturned(nodes[k], h.offer);
    } else {
      var i := |order| - 1;
      LastVisit(nodes, order, picks, mode, h);
      hide ApplyNodes;
      if order[i] == k {
        PassKeepsOffer(nodes, order[..i], picks[..i], mode, h);
        UnvisitedNodesStay(nodes, order[..i], picks[..i], mode, h, k);
        VisitRecords(nodes[k], ApplyNodes(nodes, order[..i], picks[..i], mode, h).helper, mode, picks[i]);
      } else {
        PassRecords(nodes, order[..i], picks[..i], mode, h, k);
      }
    }
  }

  // ---------- all turns of a cluster ----------

  /** The node the task was made for. */
  ghost predicate MadeFor(before: map<string, Node>, after: map<string, Node>, t: Task, offer: Offer, mode: bool, k: string) {
    && k in before && k in after && LaunchedAs(before[k], after[k], t, offer)
    && GetsItsShare(before[k], t, !mode && CanReserve(before[k]))
  }

  ghost predicate IsMade(before: map<string, Node>, after: map<string, Node>, t: Task, offer: Offer, mode: bool) {
    exists k :: MadeFor(before, after, t, offer, mode, k)
  }

  /** Every new task is made for a node, and every node in a new generation has one. */
  ghost predicate AllMadeFor(before: map<string, Node>, after: map<string, Node>, tasks: seq<Task>, offer: Offer, mode: bool) {
    && (forall i :: 0 <= i < |tasks| ==> IsMade(before, after, tasks[i], offer, mode))
    && (forall k :: k in before && k in after && after[k].generation != before[k].generation ==>
          exists i :: 0 <= i < |tasks| && MadeFor(before, after, tasks[i], offer, mode, k))
  }

  lemma NoTurns(nodes: map<string, Node>, mode: bool, h: Helper)
    ensures ApplyNodes(nodes, [], [], mode, h) == Pass(nodes, h, false, false)
  {
  }

  lemma OldLaunchesStay(nodes: map<string, Node>, middle: map<string, Node>, after: map<string, Node>, tasks: seq<Task>,
                        offer: Offer, mode: bool, k: string)
    requires AllMadeFor(nodes, middle, tasks, offer, mode)
    requires k in nodes && k in middle && middle[k] == nodes[k]
    requires after.Keys == middle.Keys && forall j :: j in middle && j != k ==> after[j] == middle[j]
    ensures forall i :: 0 <= i < |tasks| ==> IsMade(nodes, after, tasks[i], offer, mode)
  {
    hide GetsItsShare;
    forall i | 0 <= i < |tasks| ensures IsMade(nodes, after, tasks[i], offer, mode) {
      var j :| MadeFor(nodes, middle, tasks[i], offer, mode, j);
      assert j != k by {
        assert middle[j].generation == nodes[j].generation + 1;
      }
      assert MadeFor(nodes, after, tasks[i], offer, mode, j);
    }
  }

  lemma OneMoreLaunch(nodes: map<string, Node>, q: Pass, k: string, mode: bool, pick: nat, h: Helper)
    requires q.nodes.Keys == nodes.Keys && k in nodes && q.nodes[k] == nodes[k]
    requires h.tasks <= q.helper.tasks && q.helper.offer == h.offer
    requires AllMadeFor(nodes, q.nodes, NewTasks(h, q.helper), h.offer, mode)
    ensures var v := VisitNode(q.nodes[k], q.helper, mode, pick);
            && h.tasks <= v.helper.tasks
            && AllMadeFor(nodes, q.nodes[k := v.node], NewTasks(h, v.helper), h.offer, mode)
  {
    hide VisitNode, LaunchedAs, GetsItsShare;
    var v := VisitNode(nodes[k], q.helper, mode, pick);
    VisitOutcome(nodes[k], q.helper, mode, pick);
    VisitLaunches(nodes[k], q.helper, mode, pick);
    VisitShares(nodes[k], q.helper, mode, pick);
    var front, all := NewTasks(h, q.helper), NewTasks(h, v.helper);
    var after := q.nodes[k := v.node];
    assert |front| <= |all| && all[..|front|] == front;
    if v.helper.tasks != q.helper.tasks {
      assert all[|front|] == v.helper.tasks[|q.helper.tasks|];
      assert MadeFor(nodes, after, all[|front|], h.offer, mode, k);
    }
    OldLaunchesStay(nodes, q.nodes, after, front, h.offer, mode, k);
    forall i | 0 <= i < |all| ensures IsMade(nodes, after, all[i], h.offer, mode) {
      if i < |front| {
        assert all[i] == front[i];
      }
    }
    forall j | j in nodes && after[j].generation != nodes[j].generation
      ensures exists i :: 0 <= i < |all| && MadeFor(nodes, after, all[i], h.offer, mode, j)
    {
      if j != k {
        var i :| 0 <= i < |front| && MadeFor(nodes, q.nodes, front[i], h.offer, mode, j);
        assert all[i] == front[i] && MadeFor(nodes, after, all[i], h.offer, mode, j);
      }
    }
  }

  lemma {:induction false} PassLaunches(nodes: map<string, Node>, order: seq<string>, picks: seq<nat>, mode: bool, h: Helper)
    requires |picks| == |order| && forall i :: 0 <= i < |order| ==> order[i] in nodes
    requires forall a, b :: 0 <= a < b < |order| ==> order[a] != order[b]
    ensures var p := ApplyNodes(nodes, order, picks, mode, h);
            h.tasks <= p.helper.tasks && AllMadeFor(nodes, p.nodes, NewTasks(h, p.helper), h.offer, mode)
  {
    hide VisitNode, LaunchedAs, GetsItsShare, ApplyNodes;
    if order == [] {
      NoTurns(nodes, mode, h);
    } else {
      var i := |order| - 1;
      LastVisit(nodes, order, picks, mode, h);
      var q := ApplyNodes(nodes, order[..i], picks[..i], mode, h);
      PassKeepsOffer(nodes, order[..i], picks[..i], mode, h);
      PassLaunches(nodes, order[..i], picks[..i], mode, h);
      UnvisitedNodesStay(nodes, order[..i], picks[..i], mode, h, order[i]);
      OneMoreLaunch(nodes, q, order[i], mode, picks[i], h);
    }
  }

  // ---------- the updates of a task find its node ----------

  lemma IdFindsCluster(s: Sched, t: Sched, framework: string, name: string, id: string, order: seq<string>)
    requires WellFormed(s, framework) && name in s.clusters && id in s.clusters[name].nodes
    requires t.clusters.Keys == s.clusters.Keys
    requires forall c :: c in s.clusters ==>
               t.clusters[c].nodes.Keys == s.clusters[c].nodes.Keys && t.clusters[c].graveyard == s.clusters[c].graveyard
    requires IsOrder(order, t.clusters.Keys)
    ensures FindCluster(t, order, id) == Some(name)
  {
    hide WellFormed, FindCluster;
    FindClusterIsComplete(t, order, id);
    assert t.clusters[name].HasNode(id);
    var found := FindCluster(t, order, id);
    assert s.clusters[found.value].HasNode(id);
    OneClusterHasTheNode(s, framework, found.value, name, id);
  }

  lemma PassOfPlan(s: Sched, plan: OfferPlan, mode: bool, h: Helper)
    requires OfferPlanFits(s, plan)
    ensures var c := s.clusters[plan.name];
            var p := ApplyNodes(c.nodes, plan.order, plan.picks, mode, h);
            AllMadeFor(c.nodes, p.nodes, NewTasks(h, p.helper), h.offer, mode)
  {
    hide ApplyNodes, AllMadeFor, NewTasks;
    PassLaunches(s.clusters[plan.name].nodes, plan.order, plan.picks, mode, h);
  }

  lemma TaskIdIsKey(s: Sched, framework: string, name: string, after: map<string, Node>, t: Task, offer: Offer, mode: bool,
                    k: string)
    requires WellFormed(s, framework) && name in s.clusters
    requires MadeFor(s.clusters[name].nodes, after, t, offer, mode, k)
    ensures t.taskId == k && k in s.clusters[name].nodes && k !in s.clusters[name].graveyard
  {
    hide CurrentId, GetsItsShare, InBand;
    assert OwnKey(s.clusters[name].nodes[k], k, framework, s.clusters[name].name);
  }

  /** Every task that a turn prepares is made for one live node of the cluster, under whose id it runs; its updates find that
      cluster in every order, and the node in it alive; and every node that goes to its next generation has such a task. */
  lemma TasksFindTheirNodes(s: Sched, framework: string, plan: OfferPlan, mode: bool, h: Helper, i: nat, order: seq<string>)
    requires WellFormed(s, framework) && OfferPlanFits(s, plan)
    requires var a := OfferCluster(s, plan, mode, h);
             i < |NewTasks(h, a.helper)| && IsOrder(order, a.sched.clusters.Keys)
    ensures var a := OfferCluster(s, plan, mode, h);
            var t := NewTasks(h, a.helper)[i];
            && FindCluster(a.sched, order, t.taskId) == Some(plan.name)
            && t.taskId in a.sched.clusters[plan.name].nodes && t.taskId !in a.sched.clusters[plan.name].graveyard
            && MadeFor(s.clusters[plan.name].nodes, a.sched.clusters[plan.name].nodes, t, h.offer, mode, t.taskId)
  {
    hide ApplyNodes, MadeFor, WellFormed, FindCluster, NewTasks;
    var c := s.clusters[plan.name];
    PassOfPlan(s, plan, mode, h);
    var p := ApplyNodes(c.nodes, plan.order, plan.picks, mode, h);
    var t := NewTasks(h, p.helper)[i];
    assert IsMade(c.nodes, p.nodes, t, h.offer, mode);
    var k :| MadeFor(c.nodes, p.nodes, t, h.offer, mode, k);
    TaskIdIsKey(s, framework, plan.name, p.nodes, t, h.offer, mode, k);
    IdFindsCluster(s, OfferCluster(s, plan, mode, h).sched, framework, plan.name, k, order);
  }

  lemma NextGenerationHasTask(s: Sched, plan: OfferPlan, mode: bool, h: Helper, k: string)
    requires OfferPlanFits(s, plan) && k in s.clusters[plan.name].nodes
    ensures var a := OfferCluster(s, plan, mode, h);
            var before, after := s.clusters[plan.name].nodes, a.sched.clusters[plan.name].nodes;
            && k in after
            && (after[k].generation != before[k].generation ==>
                  exists i :: 0 <= i < |NewTasks(h, a.helper)|
                           && MadeFor(before, after, NewTasks(h, a.helper)[i], h.offer, mode, k))
  {
    hide ApplyNodes, MadeFor, NewTasks;
    var c := s.clusters[plan.name];
    PassLaunches(c.nodes, plan.order, plan.picks, mode, h);
  }

  // ---------- the Erlang name ----------

  /** The node's Erlang name is its id at the host of the offer, with a dot added to a host that has none: a node name, if neither
      part has an '@'. */
  lemma LaunchedNodeIsNamed(n: Node, hostname: string, task: seq<Resource>)
    ensures var data := LaunchData(n, hostname, task);
            var host := if '.' in hostname then hostname else hostname + ".";
            && data.host == hostname && '.' in host && data.nodeName == n.Id() + "@" + host
            && ('@' !in n.Id() && '@' !in hostname ==> IsNodeName(data.nodeName))
  {
    hide CurrentId, PortIterator, IsNodeName;
    var host := if '.' in hostname then hostname else hostname + ".";
    assert '.' in host by {
      if '.' !in hostname {
        assert host[|hostname|] == '.';
      }
    }
    var data := LaunchData(n, hostname, task);
    assert data.nodeName == n.Id() + "@" + host;
    assert '@' !in hostname ==> '@' !in host;
    if '@' !in n.Id() && '@' !in hostname {
      NodeNameHasOneAt(data.nodeName);
    }
  }
}
