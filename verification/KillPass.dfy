/** What one kill pass may bury and retire, and what it must have sent before. */
module KillPass {
  import opened NodeIds
  import opened Nodes
  import opened Clusters
  import opened Scheduler

  predicate StoppedAt(calls: seq<Call>, n: Node, i: int)
    requires 0 <= i < |calls|
  {
    && calls[i].FinishSent?
    && calls[i].id == n.Id() && calls[i].executor == ExecutorOf(n) && calls[i].slaveId == n.slaveId
    && (calls[i].ok || (i + 1 < |calls| && calls[i + 1] == KillSent(n.Id())))
  }

  /** The node was told to finish, and killed if that message failed. */
  predicate Stopped(calls: seq<Call>, n: Node) {
    exists i :: 0 <= i < |calls| && StoppedAt(calls, n, i)
  }

  lemma StoppedBefore(calls: seq<Call>, more: seq<Call>, n: Node)
    requires Stopped(calls, n)
    ensures Stopped(calls + more, n)
  {
    var i :| 0 <= i < |calls| && StoppedAt(calls, n, i);
    assert StoppedAt(calls + more, n, i);
  }

  lemma StoppedAfter(front: seq<Call>, calls: seq<Call>, n: Node)
    requires Stopped(calls, n)
    ensures Stopped(front + calls, n)
  {
    var i :| 0 <= i < |calls| && StoppedAt(calls, n, i);
    assert (front + calls)[|front| + i] == calls[i];
    assert i + 1 < |calls| ==> (front + calls)[|front| + i + 1] == calls[i + 1];
    assert StoppedAt(front + calls, n, |front| + i);
  }

  lemma StopNodeStops(n: Node, failing: set<string>)
    ensures Stopped(StopNode(n, failing), n)
  {
    hide CurrentId;
    assert StoppedAt(StopNode(n, failing), n, 0);
  }

  lemma {:induction false} StopNodesStopsAll(nodes: map<string, Node>, order: seq<string>, failing: set<string>, j: nat)
    requires forall i :: 0 <= i < |order| ==> order[i] in nodes
    requires j < |order|
    ensures Stopped(StopNodes(nodes, order, failing), nodes[order[j]])
  {
    hide StopNode, Stopped;
    var n := |order| - 1;
    if j < n {
      StopNodesStopsAll(nodes, order[..n], failing, j);
      StoppedBefore(StopNodes(nodes, order[..n], failing), StopNode(nodes[order[n]], failing), nodes[order[j]]);
    } else {
      StopNodeStops(nodes[order[n]], failing);
      StoppedAfter(StopNodes(nodes, order[..n], failing), StopNode(nodes[order[n]], failing), nodes[order[n]]);
    }
  }

  /** Where a cluster's dead nodes are after a pass: in the cluster itself or in its retired copy. */
  function DeadNodes(s: Sched, name: string): map<string, Node> {
    if name in s.clusters then s.clusters[name].graveyard
    else if name in s.graveyard then s.graveyard[name].graveyard
    else map[]
  }

  function LiveNodes(s: Sched, name: string): map<string, Node> {
    if name in s.clusters then s.clusters[name].nodes else map[]
  }

  /** A node may be buried: it was to shut down, is not started, and if it is starting it has been stopped. */
  predicate MayBury(n: Node, calls: seq<Call>) {
    && n.destination == Shutdown && n.current != Started
    && (n.current == Starting ==> Stopped(calls, n))
  }

  /** The node is to shut down and not started; whether it runs at all is not asked. */
  predicate Leaves(n: Node) {
    n.destination == Shutdown && n.current != Started
  }

  /** The node is to shut down and its task may be running. */
  predicate MustStop(n: Node) {
    n.destination == Shutdown && (n.current == Starting || n.current == Started)
  }

  /** A node that stays is as before, or it has been marked for the restart and stopped. */
  ghost predicate StaysOrRestarts(before: Cluster, n: Node, after: Node, calls: seq<Call>) {
    || after == n
    || (before.isRestarting && after == n.(restartGeneration := before.generation, destination := Restarting)
        && Stopped(calls, after))
  }

  /** One cluster between the start and the end of a pass: a node is buried, unchanged, exactly when it is to shut down
      and not started; every other stays live; whoever is to shut down and runs has been stopped; and the cluster is
      gone exactly when it was killed and every node of it is buried. */
  ghost predicate Orderly(before: Cluster, s: Sched, calls: seq<Call>) {
    var dead, live := DeadNodes(s, before.name), LiveNodes(s, before.name);
    && (forall k :: k in live <==> k in before.nodes && !Leaves(before.nodes[k]))
    && (forall k :: k in live ==> StaysOrRestarts(before, before.nodes[k], live[k], calls))
    && (forall k :: k in dead <==> k in before.graveyard || (k in before.nodes && Leaves(before.nodes[k])))
    && (forall k :: k in before.nodes && k in dead ==> dead[k] == before.nodes[k] && MayBury(before.nodes[k], calls))
    && (forall k :: k in before.graveyard && k !in before.nodes ==> dead[k] == before.graveyard[k])
    && (forall k :: k in before.nodes && MustStop(before.nodes[k]) ==> Stopped(calls, before.nodes[k]))
    && (before.name !in s.clusters <==>
          before.isKilled && forall k :: k in before.nodes ==> Leaves(before.nodes[k]))
    && (before.name !in s.clusters ==> before.name in s.graveyard && s.graveyard[before.name].nodes == map[])
  }

  lemma NodesToKillAreStopped(c: Cluster, order: seq<string>, failing: set<string>, k: string)
    requires IsOrder(order, NodesToKill(c)) && k in c.nodes && MustStop(c.nodes[k])
    ensures Stopped(StopNodes(c.nodes, order, failing), c.nodes[k])
  {
    hide Stopped, StopNodes;
    OrderCovers(order, NodesToKill(c));
    assert k in NodesToKill(c);
    var j :| 0 <= j < |order| && order[j] == k;
    StopNodesStopsAll(c.nodes, order, failing, j);
  }

  lemma BuryKeepsRest(c: Cluster, ids: set<string>)
    requires ids <= c.nodes.Keys
    ensures Bury(c, ids).name == c.name && Bury(c, ids).isKilled == c.isKilled
  {
  }

  lemma TurnOutcome(s: Sched, plan: KillPlan)
    requires KillPlanFits(s, plan)
    requires s.clusters[plan.name].name == plan.name
    ensures var c, t := s.clusters[plan.name], KillCluster(s, plan).sched;
            && NodesToRemove(c) <= c.nodes.Keys
            && DeadNodes(t, c.name) == Bury(c, NodesToRemove(c)).graveyard
            && LiveNodes(t, c.name) == RestartPass(Bury(c, NodesToRemove(c)), plan.scanOrder).cluster.nodes
            && LiveNodes(t, c.name).Keys == Bury(c, NodesToRemove(c)).nodes.Keys
            && (c.name !in t.clusters <==> c.isKilled && c.nodes.Keys <= NodesToRemove(c))
            && (c.name !in t.clusters ==> c.name in t.graveyard && t.graveyard[c.name].nodes == map[])
  {
    hide RestartPass, StopNodes, IsOrder, StopNode;
    var c := s.clusters[plan.name];
    RemovedAreLive(c);
    hide NodesToRemove;
    var buried := Bury(c, NodesToRemove(c));
    BuryMovesKeys(c, NodesToRemove(c));
    hide Bury;
    assert buried.name == c.name && buried.isKilled == c.isKilled by {
      BuryKeepsRest(c, NodesToRemove(c));
    }
    var r := RestartPass(buried, plan.scanOrder);
    RestartPassOutline(buried, plan.scanOrder);
    var t := KillCluster(s, plan).sched;
    MapSize(buried);
    MapSize(r.cluster);
    if buried.CanBeRemoved() {
      assert t.graveyard[c.name] == r.cluster;
    } else {
      assert t.clusters[c.name] == r.cluster;
    }
  }

  lemma KillChoices(c: Cluster)
    ensures forall k :: k in NodesToRemove(c) <==> k in c.nodes && Leaves(c.nodes[k])
    ensures forall k :: k in NodesToKill(c) <==> k in c.nodes && MustStop(c.nodes[k])
    ensures NodesToRemove(c) <= c.nodes.Keys
  {
  }

  lemma BuriedMaps(c: Cluster, ids: set<string>)
    requires ids <= c.nodes.Keys && c.nodes.Keys !! c.graveyard.Keys
    ensures var b := Bury(c, ids);
            && b.isRestarting == c.isRestarting && b.generation == c.generation
            && (forall k :: k in b.nodes <==> k in c.nodes && k !in ids)
            && (forall k :: k in b.nodes ==> b.nodes[k] == c.nodes[k])
            && (forall k :: k in b.graveyard <==> k in c.graveyard || k in ids)
            && (forall k :: k in b.graveyard ==> b.graveyard[k] == if k in ids then c.nodes[k] else c.graveyard[k])
  {
  }

  /** The restart pass changes the node it marks, and no other; the caller stops that one. */
  lemma MarkedIsStopped(b: Cluster, order: seq<string>, failing: set<string>, front: seq<Call>)
    requires IsOrder(order, b.nodes.Keys)
    ensures var r := RestartPass(b, order);
            && (r.marked.Some? ==> r.marked.value in r.cluster.nodes)
            && var restarts := if r.marked.Some? then StopNode(r.cluster.nodes[r.marked.value], failing) else [];
               forall k :: k in b.nodes ==>
                 k in r.cluster.nodes && StaysOrRestarts(b, b.nodes[k], r.cluster.nodes[k], front + restarts)
  {
    hide AlreadyRestarted, IsOrder, StopNode, Stopped, Node.IsRestarting;
    var r := RestartPass(b, order);
    RestartPassOutline(b, order);
    if r.marked.Some? {
      var m := r.cluster.nodes[r.marked.value];
      StopNodeStops(m, failing);
      StoppedAfter(front, StopNode(m, failing), m);
    }
  }

  /** What the turn sends. */
  lemma TurnCalls(s: Sched, plan: KillPlan)
    requires KillPlanFits(s, plan) && s.clusters[plan.name].nodes.Keys !! s.clusters[plan.name].graveyard.Keys
    requires NodesToRemove(s.clusters[plan.name]) <= s.clusters[plan.name].nodes.Keys
    ensures var c := s.clusters[plan.name];
            var b := Bury(c, NodesToRemove(c));
            var calls := KillCluster(s, plan).calls;
            && (forall k :: k in c.nodes && MustStop(c.nodes[k]) ==> Stopped(calls, c.nodes[k]))
            && (forall k :: k in b.nodes ==>
                  k in RestartPass(b, plan.scanOrder).cluster.nodes
                  && StaysOrRestarts(b, b.nodes[k], RestartPass(b, plan.scanOrder).cluster.nodes[k], calls))
  {
    hide RestartPass, StopNodes, Stopped, StopNode, StaysOrRestarts, NodesToRemove, NodesToKill, Bury, MustStop;
    var c := s.clusters[plan.name];
    var b := Bury(c, NodesToRemove(c));
    var r := RestartPass(b, plan.scanOrder);
    RestartPassOutline(b, plan.scanOrder);
    KillChoices(c);
    var stops := StopNodes(c.nodes, plan.killOrder, plan.failing);
    var restarts := if r.marked.Some? then StopNode(r.cluster.nodes[r.marked.value], plan.failing) else [];
    MarkedIsStopped(b, plan.scanOrder, plan.failing, stops);
    forall k | k in c.nodes && MustStop(c.nodes[k]) ensures Stopped(stops + restarts, c.nodes[k]) {
      NodesToKillAreStopped(c, plan.killOrder, plan.failing, k);
      StoppedBefore(stops, restarts, c.nodes[k]);
    }
  }

  lemma LeavingMayBury(c: Cluster, calls: seq<Call>)
    requires forall k :: k in c.nodes && MustStop(c.nodes[k]) ==> Stopped(calls, c.nodes[k])
    ensures forall k :: k in c.nodes && Leaves(c.nodes[k]) ==> MayBury(c.nodes[k], calls)
  {
    hide Stopped;
  }

  /** One cluster's turn, in any order of its nodes, whatever messages fail. */
  lemma KillClusterIsOrderly(s: Sched, plan: KillPlan)
    requires KillPlanFits(s, plan)
    requires s.clusters[plan.name].name == plan.name
    requires s.clusters[plan.name].nodes.Keys !! s.clusters[plan.name].graveyard.Keys
    ensures Orderly(s.clusters[plan.name], KillCluster(s, plan).sched, KillCluster(s, plan).calls)
  {
    hide RestartPass, KillCluster, Stopped, NodesToRemove, NodesToKill, Bury, IsOrder, Leaves, MustStop, DeadNodes, LiveNodes;
    var c := s.clusters[plan.name];
    KillChoices(c);
    TurnOutcome(s, plan);
    BuriedMaps(c, NodesToRemove(c));
    TurnCalls(s, plan);
    assert forall k :: k in c.nodes && Leaves(c.nodes[k]) ==> MayBury(c.nodes[k], KillCluster(s, plan).calls) by {
      LeavingMayBury(c, KillCluster(s, plan).calls);
    }
  }

  /** Every key is its cluster's name and no node is both alive and dead. */
  predicate Tidy(s: Sched) {
    forall k :: k in s.clusters ==> s.clusters[k].name == k && s.clusters[k].nodes.Keys !! s.clusters[k].graveyard.Keys
  }

  lemma WellFormedIsTidy(s: Sched, framework: string)
    requires WellFormed(s, framework)
    ensures Tidy(s)
  {
  }

  /** A turn touches its own cluster only. */
  lemma OtherClustersStay(s: Sched, plan: KillPlan, name: string)
    requires KillPlanFits(s, plan) && Tidy(s) && name != plan.name
    ensures var t := KillCluster(s, plan).sched;
            && (name in t.clusters <==> name in s.clusters)
            && (name in s.clusters ==> t.clusters[name] == s.clusters[name])
            && (name in t.graveyard <==> name in s.graveyard)
            && (name in s.graveyard ==> t.graveyard[name] == s.graveyard[name])
  {
    hide RestartPass, StopNodes, Bury, IsOrder, StopNode;
    var buried := Bury(s.clusters[plan.name], NodesToRemove(s.clusters[plan.name]));
    RestartPassOutline(buried, plan.scanOrder);
  }

  lemma TurnKeepsTidy(s: Sched, plan: KillPlan)
    requires KillPlanFits(s, plan) && Tidy(s)
    ensures Tidy(KillCluster(s, plan).sched)
  {
    hide RestartPass, StopNodes, IsOrder, StopNode;
    var c := s.clusters[plan.name];
    var buried := Bury(c, NodesToRemove(c));
    RestartPassOutline(buried, plan.scanOrder);
    BuryMovesKeys(c, NodesToRemove(c));
    var t := KillCluster(s, plan).sched;
    forall k | k in t.clusters ensures t.clusters[k].name == k && t.clusters[k].nodes.Keys !! t.clusters[k].graveyard.Keys {
      if k != plan.name {
        OtherClustersStay(s, plan, k);
      }
    }
  }

  predicate DistinctNames(plans: seq<KillPlan>) {
    forall i, j :: 0 <= i < j < |plans| ==> plans[i].name != plans[j].name
  }

  /** Clusters with no turn left stay as they are. */
  lemma {:induction false} UntouchedStay(s: Sched, plans: seq<KillPlan>, name: string)
    requires KillPlansFit(s, plans) && Tidy(s)
    requires forall i :: 0 <= i < |plans| ==> plans[i].name != name
    ensures var t := KillTasks(s, plans).sched;
            && (name in t.clusters <==> name in s.clusters)
            && (name in s.clusters ==> t.clusters[name] == s.clusters[name])
            && (name in t.graveyard <==> name in s.graveyard)
            && (name in s.graveyard ==> t.graveyard[name] == s.graveyard[name])
    decreases |plans|
  {
    hide KillCluster, Tidy, KillPlanFits;
    if plans != [] {
      OtherClustersStay(s, plans[0], name);
      TurnKeepsTidy(s, plans[0]);
      UntouchedStay(KillCluster(s, plans[0]).sched, plans[1..], name);
    }
  }

  lemma PlanNames(s: Sched, plan: KillPlan)
    requires KillPlanFits(s, plan)
    ensures plan.name in s.clusters
  {
  }

  /** A cluster that is gone does not come back in the same pass. */
  lemma {:induction false} GoneStaysGone(s: Sched, plans: seq<KillPlan>, name: string)
    requires name !in s.clusters && KillPlansFit(s, plans) && Tidy(s)
    ensures name !in KillTasks(s, plans).sched.clusters
    decreases |plans|
  {
    hide KillCluster, Tidy, KillPlanFits;
    if plans != [] {
      assert plans[0].name != name by {
        PlanNames(s, plans[0]);
      }
      OtherClustersStay(s, plans[0], name);
      TurnKeepsTidy(s, plans[0]);
      GoneStaysGone(KillCluster(s, plans[0]).sched, plans[1..], name);
    }
  }

  lemma TidyCluster(s: Sched, name: string)
    requires Tidy(s) && name in s.clusters
    ensures s.clusters[name].name == name && s.clusters[name].nodes.Keys !! s.clusters[name].graveyard.Keys
  {
  }

  lemma StillOrderly(before: Cluster, s: Sched, t: Sched, calls: seq<Call>, front: seq<Call>, more: seq<Call>)
    requires Orderly(before, s, calls)
    requires before.name in t.clusters <==> before.name in s.clusters
    requires before.name in t.clusters ==> t.clusters[before.name] == s.clusters[before.name]
    requires before.name in t.graveyard <==> before.name in s.graveyard
    requires before.name in t.graveyard ==> t.graveyard[before.name] == s.graveyard[before.name]
    ensures Orderly(before, t, front + calls + more)
  {
    hide Stopped;
    forall n: Node | Stopped(calls, n) ensures Stopped(front + calls + more, n) {
      StoppedAfter(front, calls, n);
      StoppedBefore(front + calls, more, n);
    }
  }

  lemma {:induction false} OrderlyInPass(s: Sched, plans: seq<KillPlan>, j: nat)
    requires KillPlansFit(s, plans) && Tidy(s) && DistinctNames(plans)
    requires j < |plans| && plans[j].name in s.clusters
    ensures Orderly(s.clusters[plans[j].name], KillTasks(s, plans).sched, KillTasks(s, plans).calls)
    decreases |plans|
  {
    hide KillCluster, Tidy, Orderly, KillPlanFits;
    var a := KillCluster(s, plans[0]);
    var r := KillTasks(a.sched, plans[1..]);
    var name := plans[j].name;
    TurnKeepsTidy(s, plans[0]);
    TidyCluster(s, name);
    if j == 0 {
      KillClusterIsOrderly(s, plans[0]);
      UntouchedStay(a.sched, plans[1..], name);
      StillOrderly(s.clusters[name], a.sched, r.sched, a.calls, [], r.calls);
      assert [] + a.calls + r.calls == a.calls + r.calls;
    } else {
      OtherClustersStay(s, plans[0], name);
      assert plans[1..][j - 1] == plans[j];
      OrderlyInPass(a.sched, plans[1..], j - 1);
      StillOrderly(s.clusters[name], r.sched, r.sched, r.calls, a.calls, []);
      assert a.calls + r.calls + [] == a.calls + r.calls;
    }
  }

  /** In a whole kill pass, for every order of clusters and nodes and whatever messages fail: no node is buried
      while started, one buried while starting was stopped in this pass, no node of the cluster is lost, and it leaves
      only when it was killed and all of its nodes are in its graveyard. */
  lemma KillPassIsOrderly(s: Sched, framework: string, plans: seq<KillPlan>, name: string)
    requires WellFormed(s, framework) && KillPlansFit(s, plans)
    requires IsOrder(seq(|plans|, i requires 0 <= i < |plans| => plans[i].name), s.clusters.Keys)
    requires name in s.clusters
    ensures Orderly(s.clusters[name], KillTasks(s, plans).sched, KillTasks(s, plans).calls)
  {
    hide KillPlansFit, KillTasks, Orderly, WellFormed;
    WellFormedIsTidy(s, framework);
    var names := seq(|plans|, i requires 0 <= i < |plans| => plans[i].name);
    OrderCovers(names, s.clusters.Keys);
    forall i, j | 0 <= i < j < |plans| ensures plans[i].name != plans[j].name {
      assert names[i] != names[j];
    }
    var j :| 0 <= j < |names| && names[j] == name;
    assert plans[j].name == name;
    OrderlyInPass(s, plans, j);
  }

  lemma KilledIsInOrder(c: Cluster, framework: string)
    requires IdsExact(c, framework) && InBand(c)
    ensures IdsExact(KillAll(c), framework) && InBand(KillAll(c)) && KillAll(c).name == c.name
  {
    hide IdsExact;
    SameIdentityKeepsIds(c, KillAll(c).nodes, framework);
    KilledKeepsIds(c.(nodes := KillAll(c).nodes), true, framework);
  }

  lemma RemovedIsWellFormed(s: Sched, framework: string, name: string)
    requires WellFormed(s, framework) && name in s.clusters
    ensures WellFormed(RemoveCluster(s, name), framework)
  {
    hide IdsExact, InBand, KillAll;
    KilledIsInOrder(s.clusters[name], framework);
  }

  lemma NamedByKey(s: Sched, framework: string, name: string)
    requires WellFormed(s, framework) && name in s.clusters
    ensures s.clusters[name].name == name
  {
  }

  /** A cluster whose removal was asked for leaves with the next kill pass if none of its nodes is started. */
  lemma RemovedClusterIsRetired(s: Sched, framework: string, name: string, plans: seq<KillPlan>)
    requires WellFormed(s, framework) && name in s.clusters
    requires KillPlansFit(RemoveCluster(s, name), plans)
    requires IsOrder(seq(|plans|, i requires 0 <= i < |plans| => plans[i].name), RemoveCluster(s, name).clusters.Keys)
    ensures name !in KillTasks(RemoveCluster(s, name), plans).sched.clusters <==>
            forall k :: k in s.clusters[name].nodes ==> s.clusters[name].nodes[k].current != Started
  {
    hide KillPlansFit, KillTasks, WellFormed;
    var t := RemoveCluster(s, name);
    RemovedIsWellFormed(s, framework, name);
    NamedByKey(t, framework, name);
    KillPassIsOrderly(t, framework, plans, name);
    var before, after := s.clusters[name].nodes, t.clusters[name].nodes;
    assert after.Keys == before.Keys;
    assert forall k :: k in before ==> (Leaves(after[k]) <==> before[k].current != Started);
  }
}
