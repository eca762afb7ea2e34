/** A node that is to shut down: which steps make it run again, and what a removal comes to when other steps come between
    the command and the kill pass. */
module Shutdowns {
  import opened Options
  import opened NodeIds
  import opened Offers
  import opened Nodes
  import opened Clusters
  import opened Scheduler
  import opened SchedulerRuns
  import opened KillPass

  /** The node is in the scan and every earlier one has restarted. */
  predicate ScanReaches(c: Cluster, order: seq<string>, k: string) {
    exists j :: 0 <= j < |order| && order[j] == k
             && forall i :: 0 <= i < j ==> order[i] in c.nodes && Through(c.nodes[order[i]], c.generation)
  }

  predicate TurnMarks(s: Sched, plan: KillPlan, c: string, k: string) {
    && plan.name == c && c in s.clusters
    && s.clusters[c].isRestarting && ScanReaches(s.clusters[c], plan.scanOrder, k)
  }

  predicate PassMarks(s: Sched, plans: seq<KillPlan>, c: string, k: string)
    requires KillPlansFit(s, plans)
    decreases |plans|
  {
    plans != [] && (TurnMarks(s, plans[0], c, k) || PassMarks(KillCluster(s, plans[0]).sched, plans[1..], c, k))
  }

  /** The step that makes a node run which was to shut down. */
  predicate Undoes(s: Sys, step: Step, c: string, k: string)
    requires Enabled(s, step)
  {
    match step
    case StatusStep(status, _) => status.taskId == k && SaysItRuns(status.state)
    case KillStep(plans) => PassMarks(s.mem, plans, c, k)
    case _ => false
  }

  /** The node, if it is there before and after, is still to shut down. */
  predicate StaysShut(s: Sched, t: Sched, c: string, k: string) {
    Live(s, c, k) && Live(t, c, k) && NodeAt(s, c, k).destination == Shutdown ==> NodeAt(t, c, k).destination == Shutdown
  }

  // ---------- steps that undo nothing ----------

  lemma CommandsStayShut(s: Sched, name: string, id: string, c: string, k: string)
    ensures StaysShut(s, CreateCluster(s, name), c, k) && StaysShut(s, RestartCluster(s, name), c, k)
    ensures StaysShut(s, RemoveCluster(s, name), c, k) && StaysShut(s, RemoveNode(s, name, id), c, k)
  {
  }

  lemma NewNodeStaysShut(s: Sched, cfg: Config, name: string, uuid: string, c: string, k: string)
    requires WellFormed(s, cfg.framework)
    ensures StaysShut(s, AddNode(s, cfg, name, uuid), c, k)
  {
    hide IdsUpTo, InBand, CurrentId;
    if name in s.clusters {
      CreateNodeIsFresh(s.clusters[name], cfg.framework, cfg.role, cfg.principal, cfg.cpus, cfg.mem, cfg.disk, uuid);
    }
  }

  lemma {:induction false} PassKeepsDestination(nodes: map<string, Node>, order: seq<string>, picks: seq<nat>,
                                                compatibilityMode: bool, h: Helper, k: string)
    requires |picks| == |order| && (forall i :: 0 <= i < |order| ==> order[i] in nodes) && k in nodes
    ensures ApplyNodes(nodes, order, picks, compatibilityMode, h).nodes[k].destination == nodes[k].destination
  {
    hide VisitNode;
    if order != [] {
      var i := |order| - 1;
      PassKeepsDestination(nodes, order[..i], picks[..i], compatibilityMode, h, k);
      var q := ApplyNodes(nodes, order[..i], picks[..i], compatibilityMode, h);
      VisitOutcome(q.nodes[order[i]], q.helper, compatibilityMode, picks[i]);
    }
  }

  lemma OfferStaysShut(s: Sched, plan: OfferPlan, compatibilityMode: bool, h: Helper, c: string, k: string)
    requires OfferPlanFits(s, plan)
    ensures StaysShut(s, OfferCluster(s, plan, compatibilityMode, h).sched, c, k)
  {
    hide ApplyNodes;
    if c == plan.name && Live(s, c, k) {
      PassKeepsDestination(s.clusters[c].nodes, plan.order, plan.picks, compatibilityMode, h, k);
    }
  }

  lemma CrashStaysShut(s: Sched, c: string, k: string)
    ensures StaysShut(s, Strip(s), c, k)
  {
  }

  // ---------- updates ----------

  lemma OneLife(s: Sched, framework: string, c: string, k: string)
    requires WellFormed(s, framework) && Live(s, c, k)
    ensures k !in s.clusters[c].graveyard
  {
    hide CurrentId, InBand;
  }

  /** A status update undoes a shutdown exactly when it is for the node and says that the task is to run. */
  lemma UpdateUndoes(s: Sched, framework: string, status: TaskStatus, order: seq<string>, c: string, k: string)
    requires WellFormed(s, framework) && IsOrder(order, s.clusters.Keys)
    requires Live(s, c, k) && NodeAt(s, c, k).destination == Shutdown
    ensures var t := StatusUpdate(s, status, order);
            && Live(t, c, k)
            && NodeAt(t, c, k).destination ==
               if status.taskId == k && SaysItRuns(status.state) then Started else Shutdown
  {
    hide WellFormed, FindCluster;
    FindClusterIsComplete(s, order, status.taskId);
    var found := FindCluster(s, order, status.taskId);
    if status.taskId == k {
      assert s.clusters[c].HasNode(k);
      OneClusterHasTheNode(s, framework, found.value, c, k);
      OneLife(s, framework, c, k);
    }
  }

  // ---------- the kill pass ----------

  /** The restart pass marks a node that is to shut down exactly when its scan reaches it. */
  lemma ScanMarks(c: Cluster, order: seq<string>, k: string)
    requires IsOrder(order, c.nodes.Keys) && c.isRestarting
    requires k in c.nodes && c.nodes[k].destination == Shutdown
    ensures RestartPass(c, order).marked == Some(k) <==> ScanReaches(c, order, k)
  {
    hide Node.Restart, AlreadyRestarted;
    MapSize(c);
    var i := AlreadyRestarted(c, order);
    assert i < |order| && order[i] == k ==> ScanReaches(c, order, k);
    if ScanReaches(c, order, k) {
      var j :| 0 <= j < |order| && order[j] == k
            && forall i :: 0 <= i < j ==> order[i] in c.nodes && Through(c.nodes[order[i]], c.generation);
      assert !Through(c.nodes[order[j]], c.generation);
      assert i == j;
    }
  }

  lemma RestartUndoes(c: Cluster, order: seq<string>, k: string)
    requires IsOrder(order, c.nodes.Keys) && k in c.nodes && c.nodes[k].destination == Shutdown
    ensures k in RestartPass(c, order).cluster.nodes
    ensures RestartPass(c, order).cluster.nodes[k].destination ==
            if c.isRestarting && ScanReaches(c, order, k) then Restarting else Shutdown
  {
    hide AlreadyRestarted, ScanReaches, IsOrder, Underway, Through;
    RestartPassOutline(c, order);
    if c.isRestarting {
      ScanMarks(c, order, k);
      RestartPassMarks(c, order);
      hide RestartPass;
    }
  }

  /** What a turn leaves of its cluster, if that stays. */
  lemma TurnLeaves(s: Sched, plan: KillPlan) returns (b: Cluster)
    requires KillPlanFits(s, plan) && Tidy(s)
    ensures plan.name in s.clusters && IsOrder(plan.scanOrder, b.nodes.Keys)
    ensures var c := s.clusters[plan.name];
            && b.isRestarting == c.isRestarting && b.generation == c.generation && b.isKilled == c.isKilled
            && (forall k :: k in b.nodes <==> k in c.nodes && !c.nodes[k].CanBeRemoved())
            && (forall k :: k in b.nodes ==> b.nodes[k] == c.nodes[k])
    ensures plan.name in KillCluster(s, plan).sched.clusters ==>
              KillCluster(s, plan).sched.clusters[plan.name] == RestartPass(b, plan.scanOrder).cluster
  {
    hide RestartPass, StopNodes, StopNode, IsOrder, Node.CanBeRemoved;
    var c := s.clusters[plan.name];
    RemovedAreLive(c);
    b := Bury(c, NodesToRemove(c));
    RestartPassOutline(b, plan.scanOrder);
  }

  lemma SameScan(b: Cluster, c: Cluster, order: seq<string>, k: string)
    requires b.generation == c.generation && forall i :: 0 <= i < |order| ==> order[i] in b.nodes
    requires forall j :: j in b.nodes ==> j in c.nodes && b.nodes[j] == c.nodes[j]
    ensures ScanReaches(b, order, k) <==> ScanReaches(c, order, k)
  {
    hide Through;
  }

  /** One turn of a kill pass makes the node restart exactly when it marks it. */
  lemma TurnUndoes(s: Sched, plan: KillPlan, c: string, k: string)
    requires KillPlanFits(s, plan) && Tidy(s) && Live(s, c, k) && NodeAt(s, c, k).destination == Shutdown
    requires Live(KillCluster(s, plan).sched, c, k)
    ensures NodeAt(KillCluster(s, plan).sched, c, k).destination ==
            if TurnMarks(s, plan, c, k) then Restarting else Shutdown
  {
    hide KillCluster, RestartPass, ScanReaches, Tidy, KillPlanFits;
    if c != plan.name {
      OtherClustersStay(s, plan, c);
    } else {
      var b := TurnLeaves(s, plan);
      RestartPassOutline(b, plan.scanOrder);
      RestartUndoes(b, plan.scanOrder, k);
      SameScan(b, s.clusters[c], plan.scanOrder, k);
    }
  }

  /** A pass never lets a node shut down that is to run. */
  lemma TurnShutsNone(s: Sched, plan: KillPlan, c: string, k: string)
    requires KillPlanFits(s, plan) && Tidy(s) && Live(s, c, k) && NodeAt(s, c, k).destination != Shutdown
    requires Live(KillCluster(s, plan).sched, c, k)
    ensures NodeAt(KillCluster(s, plan).sched, c, k).destination in {NodeAt(s, c, k).destination, Restarting}
  {
    hide KillCluster, AlreadyRestarted, Tidy, KillPlanFits, Node.IsRestarting;
    if c != plan.name {
      OtherClustersStay(s, plan, c);
    } else {
      var b := TurnLeaves(s, plan);
      RestartPassOutline(b, plan.scanOrder);
    }
  }

  lemma StillLive(s: Sched, t: Sched, c: string, k: string)
    requires NoNewUuids(s, t) && Live(t, c, k)
    ensures Live(s, c, k)
  {
  }

  lemma {:induction false} RestartingStays(s: Sched, framework: string, hist: seq<Event>, plans: seq<KillPlan>,
                                           c: string, k: string)
    requires MemoryOk(s, framework, hist) && KillPlansFit(s, plans)
    requires Live(s, c, k) && NodeAt(s, c, k).destination == Restarting && Live(KillTasks(s, plans).sched, c, k)
    ensures NodeAt(KillTasks(s, plans).sched, c, k).destination == Restarting
    decreases |plans|
  {
    hide KillCluster, MemoryOk, KillPlanFits, WellFormed, Live, NodeAt, NoNewUuids, Tidy;
    if plans != [] {
      var a := KillCluster(s, plans[0]).sched;
      MemoryIsWellFormed(s, framework, hist);
      WellFormedIsTidy(s, framework);
      KillClusterKeeps(s, framework, hist, plans[0]);
      KillTasksKeeps(a, framework, hist, plans[1..]);
      StillLive(a, KillTasks(a, plans[1..]).sched, c, k);
      TurnShutsNone(s, plans[0], c, k);
      RestartingStays(a, framework, hist, plans[1..], c, k);
    }
  }

  lemma {:induction false} PassUndoes(s: Sched, framework: string, hist: seq<Event>, plans: seq<KillPlan>,
                                      c: string, k: string)
    requires MemoryOk(s, framework, hist) && KillPlansFit(s, plans)
    requires Live(s, c, k) && NodeAt(s, c, k).destination == Shutdown && Live(KillTasks(s, plans).sched, c, k)
    ensures NodeAt(KillTasks(s, plans).sched, c, k).destination ==
            if PassMarks(s, plans, c, k) then Restarting else Shutdown
    decreases |plans|
  {
    hide KillCluster, MemoryOk, KillPlanFits, WellFormed, Live, NodeAt, NoNewUuids, Tidy, TurnMarks;
    if plans != [] {
      var a := KillCluster(s, plans[0]).sched;
      MemoryIsWellFormed(s, framework, hist);
      WellFormedIsTidy(s, framework);
      KillClusterKeeps(s, framework, hist, plans[0]);
      KillTasksKeeps(a, framework, hist, plans[1..]);
      StillLive(a, KillTasks(a, plans[1..]).sched, c, k);
      TurnUndoes(s, plans[0], c, k);
      if TurnMarks(s, plans[0], c, k) {
        RestartingStays(a, framework, hist, plans[1..], c, k);
      } else {
        PassUndoes(a, framework, hist, plans[1..], c, k);
      }
    }
  }

  // ---------- every step ----------

  lemma Same(s: Sched, c: string, k: string)
    ensures StaysShut(s, s, c, k)
  {
  }

  lemma QuietStepsStayShut(s: Sys, cfg: Config, step: Step, c: string, k: string)
    requires Inv(s, cfg) && Enabled(s, step) && !step.StatusStep? && !step.KillStep?
    ensures StaysShut(s.mem, Do(s, cfg, step).mem, c, k)
  {
    hide MemoryOk, WellFormed, Strip, StaysShut, OfferCluster, IsOrder, AddNode, CreateCluster, RestartCluster, RemoveCluster,
         RemoveNode, Launches, Executors, UuidsKnown;
    MemoryIsWellFormed(s.mem, cfg.framework, s.history);
    match step
    case CreateClusterStep(name) => CommandsStayShut(s.mem, name, "", c, k);
    case RestartClusterStep(name) => CommandsStayShut(s.mem, name, "", c, k);
    case RemoveClusterStep(name) => CommandsStayShut(s.mem, name, "", c, k);
    case RemoveNodeStep(name, id) => CommandsStayShut(s.mem, name, id, c, k);
    case CreateNodeStep(name, uuid) => NewNodeStaysShut(s.mem, cfg, name, uuid, c, k);
    case OfferStep(plan, compatibilityMode, h) => OfferStaysShut(s.mem, plan, compatibilityMode, h, c, k);
    case SendStep(_) => assert StaysShut(s.mem, s.mem, c, k) by { Same(s.mem, c, k); }
    case CrashStep => CrashStaysShut(s.mem, c, k);
  }

  /** In every reachable state, for every step and every node that is live before and after it and was to shut down: the
      node is to run again if and only if the step is an update for it that says its task is to run, or a kill turn of its
      restarting cluster whose scan finds every earlier node restarted. */
  lemma ShutdownIsUndone(s: Sys, cfg: Config, step: Step, c: string, k: string)
    requires Inv(s, cfg) && Enabled(s, step)
    requires Live(s.mem, c, k) && Live(Do(s, cfg, step).mem, c, k) && NodeAt(s.mem, c, k).destination == Shutdown
    ensures NodeAt(Do(s, cfg, step).mem, c, k).destination ==
            if !Undoes(s, step, c, k) then Shutdown else if step.StatusStep? then Started else Restarting
  {
    hide MemoryOk, WellFormed, Strip, OfferCluster, IsOrder, AddNode, CreateCluster, RestartCluster, RemoveCluster,
         RemoveNode, Launches, Executors, UuidsKnown, KillTasks, StatusUpdate, FindCluster, Ends, KillPlansFit, PassMarks, Live,
         NodeAt, PreparedIn;
    MemoryIsWellFormed(s.mem, cfg.framework, s.history);
    match step
    case StatusStep(status, order) => UpdateUndoes(s.mem, cfg.framework, status, order, c, k);
    case KillStep(plans) => PassUndoes(s.mem, cfg.framework, s.history, plans, c, k);
    case _ => QuietStepsStayShut(s, cfg, step, c, k);
  }

  // ---------- a removal, with other steps before the kill pass ----------

  predicate IsKilled(s: Sched, name: string) {
    name in s.clusters ==> s.clusters[name].isKilled
  }

  ghost predicate AllShut(s: Sched, name: string) {
    forall k :: Live(s, name, k) ==> NodeAt(s, name, k).destination == Shutdown
  }

  lemma CommandsKeepKilled(s: Sched, cfg: Config, other: string, id: string, name: string)
    requires name in s.clusters && IsKilled(s, name)
    ensures IsKilled(CreateCluster(s, other), name) && IsKilled(RestartCluster(s, other), name)
    ensures IsKilled(RemoveCluster(s, other), name) && IsKilled(RemoveNode(s, other, id), name)
    ensures IsKilled(AddNode(s, cfg, other, id), name)
  {
  }

  lemma TurnKeepsKilled(s: Sched, plan: KillPlan, name: string)
    requires KillPlanFits(s, plan) && Tidy(s) && IsKilled(s, name)
    ensures IsKilled(KillCluster(s, plan).sched, name)
  {
    hide KillCluster, RestartPass, Tidy, KillPlanFits;
    if name != plan.name {
      OtherClustersStay(s, plan, name);
    } else {
      var b := TurnLeaves(s, plan);
      RestartPassOutline(b, plan.scanOrder);
    }
  }

  lemma {:induction false} PassKeepsKilled(s: Sched, plans: seq<KillPlan>, name: string)
    requires KillPlansFit(s, plans) && Tidy(s) && IsKilled(s, name)
    ensures IsKilled(KillTasks(s, plans).sched, name)
    decreases |plans|
  {
    hide KillCluster, Tidy, KillPlanFits, IsKilled;
    if plans != [] {
      TurnKeepsTidy(s, plans[0]);
      TurnKeepsKilled(s, plans[0], name);
      PassKeepsKilled(KillCluster(s, plans[0]).sched, plans[1..], name);
    }
  }

  lemma StepKeepsKilled(s: Sys, cfg: Config, step: Step, name: string)
    requires Inv(s, cfg) && Enabled(s, step) && name in s.mem.clusters && IsKilled(s.mem, name)
    ensures IsKilled(Do(s, cfg, step).mem, name)
  {
    hide MemoryOk, WellFormed, IsOrder, AddNode, CreateCluster, RestartCluster, RemoveCluster, RemoveNode, Launches, Executors,
         UuidsKnown, KillTasks, FindCluster, Ends, KillPlansFit, PreparedIn, ApplyNodes, Tidy, Node.After;
    match step
    case CreateClusterStep(other) => CommandsKeepKilled(s.mem, cfg, other, "", name);
    case RestartClusterStep(other) => CommandsKeepKilled(s.mem, cfg, other, "", name);
    case RemoveClusterStep(other) => CommandsKeepKilled(s.mem, cfg, other, "", name);
    case RemoveNodeStep(other, id) => CommandsKeepKilled(s.mem, cfg, other, id, name);
    case CreateNodeStep(other, uuid) => CommandsKeepKilled(s.mem, cfg, other, uuid, name);
    case KillStep(plans) =>
      MemoryIsWellFormed(s.mem, cfg.framework, s.history);
      WellFormedIsTidy(s.mem, cfg.framework);
      PassKeepsKilled(s.mem, plans, name);
    case _ =>
  }

  lemma NewNodeIsLive(s: Sched, cfg: Config, name: string, uuid: string, c: string, k: string)
    requires c != name && Live(AddNode(s, cfg, name, uuid), c, k)
    ensures Live(s, c, k)
  {
  }

  /** Only the creation of a node in it gives a cluster a live node. */
  lemma LiveBefore(s: Sys, cfg: Config, step: Step, c: string, k: string)
    requires Inv(s, cfg) && Enabled(s, step) && Live(Do(s, cfg, step).mem, c, k)
    requires !(step.CreateNodeStep? && step.name == c)
    ensures Live(s.mem, c, k)
  {
    hide MemoryOk, Strip, OfferCluster, IsOrder, AddNode, CreateCluster, RestartCluster, RemoveCluster, RemoveNode, Launches,
         Executors, UuidsKnown, KillTasks, StatusUpdate, FindCluster, Ends, KillPlansFit, PreparedIn, NoNewUuids, Live;
    var f, hist, t := cfg.framework, s.history, Do(s, cfg, step).mem;
    match step
    case CreateClusterStep(name) => CreateClusterKeeps(s.mem, f, hist, name); StillLive(s.mem, t, c, k);
    case RestartClusterStep(name) => RestartClusterKeeps(s.mem, f, hist, name); StillLive(s.mem, t, c, k);
    case RemoveClusterStep(name) => RemoveClusterKeeps(s.mem, f, hist, name); StillLive(s.mem, t, c, k);
    case RemoveNodeStep(name, id) => RemoveNodeKeeps(s.mem, f, hist, name, id); StillLive(s.mem, t, c, k);
    case CreateNodeStep(name, uuid) => NewNodeIsLive(s.mem, cfg, name, uuid, c, k);
    case OfferStep(plan, compatibilityMode, h) =>
      OfferClusterKeeps(s.mem, f, hist, plan, compatibilityMode, h);
      StillLive(s.mem, t, c, k);
    case SendStep(_) =>
    case StatusStep(status, order) => StatusUpdateKeeps(s.mem, f, hist, status, order); StillLive(s.mem, t, c, k);
    case KillStep(plans) => KillTasksKeeps(s.mem, f, hist, plans); StillLive(s.mem, t, c, k);
    case CrashStep => RecoveryKeeps(s.mem, f, hist); StillLive(s.mem, t, c, k);
  }

  /** The step makes no node of the cluster run again, and adds none. */
  predicate LeavesShut(s: Sys, step: Step, name: string)
    requires Enabled(s, step) && name in s.mem.clusters
  {
    && !(step.CreateNodeStep? && step.name == name)
    && forall k :: k in s.mem.clusters[name].nodes ==> !Undoes(s, step, name, k)
  }

  lemma StepKeepsShut(s: Sys, cfg: Config, step: Step, name: string)
    requires Inv(s, cfg) && Enabled(s, step) && name in s.mem.clusters && LeavesShut(s, step, name)
    requires AllShut(s.mem, name)
    ensures AllShut(Do(s, cfg, step).mem, name)
  {
    hide Inv, Do, Undoes, Enabled;
    var t := Do(s, cfg, step).mem;
    forall k | Live(t, name, k) ensures NodeAt(t, name, k).destination == Shutdown {
      LiveBefore(s, cfg, step, name, k);
      ShutdownIsUndone(s, cfg, step, name, k);
    }
  }

  /** The cluster is there before every step, and at the end. */
  predicate Throughout(s: Sys, cfg: Config, steps: seq<Step>, name: string)
    requires IsRun(s, cfg, steps)
    decreases |steps|
  {
    name in s.mem.clusters && (steps != [] ==> Throughout(Do(s, cfg, steps[0]), cfg, steps[1..], name))
  }

  predicate AllLeaveShut(s: Sys, cfg: Config, steps: seq<Step>, name: string)
    requires IsRun(s, cfg, steps) && Throughout(s, cfg, steps, name)
    decreases |steps|
  {
    steps != [] ==>
      LeavesShut(s, steps[0], name) && AllLeaveShut(Do(s, cfg, steps[0]), cfg, steps[1..], name)
  }

  lemma {:induction false} RunKeepsKilled(s: Sys, cfg: Config, steps: seq<Step>, name: string)
    requires Inv(s, cfg) && IsRun(s, cfg, steps) && Throughout(s, cfg, steps, name) && IsKilled(s.mem, name)
    ensures var t := Exec(s, cfg, steps);
            Inv(t, cfg) && name in t.mem.clusters && IsKilled(t.mem, name)
    decreases |steps|
  {
    hide Inv, Do, Enabled, IsKilled;
    if steps != [] {
      StepKeeps(s, cfg, steps[0]);
      StepKeepsKilled(s, cfg, steps[0], name);
      RunKeepsKilled(Do(s, cfg, steps[0]), cfg, steps[1..], name);
    }
  }

  lemma {:induction false} RunKeepsShut(s: Sys, cfg: Config, steps: seq<Step>, name: string)
    requires Inv(s, cfg) && IsRun(s, cfg, steps) && Throughout(s, cfg, steps, name)
    requires AllLeaveShut(s, cfg, steps, name) && AllShut(s.mem, name)
    ensures AllShut(Exec(s, cfg, steps).mem, name)
    decreases |steps|
  {
    hide Inv, Do, Enabled, AllShut, LeavesShut;
    if steps != [] {
      StepKeeps(s, cfg, steps[0]);
      StepKeepsShut(s, cfg, steps[0], name);
      RunKeepsShut(Do(s, cfg, steps[0]), cfg, steps[1..], name);
    }
  }

  lemma RemovalShutsAll(s: Sched, name: string)
    requires name in s.clusters
    ensures IsKilled(RemoveCluster(s, name), name) && AllShut(RemoveCluster(s, name), name)
  {
  }

  lemma LeavesWhenRemovable(s: Sched, framework: string, plans: seq<KillPlan>, name: string)
    requires WellFormed(s, framework) && KillPlansFit(s, plans) && name in s.clusters && IsKilled(s, name)
    requires IsOrder(seq(|plans|, i requires 0 <= i < |plans| => plans[i].name), s.clusters.Keys)
    ensures name !in KillTasks(s, plans).sched.clusters <==>
            forall k :: k in s.clusters[name].nodes ==> Leaves(s.clusters[name].nodes[k])
  {
    hide KillPlansFit, KillTasks, WellFormed, IsOrder, Leaves;
    NamedByKey(s, framework, name);
    KillPassIsOrderly(s, framework, plans, name);
  }

  /** A cluster whose removal was asked for, any steps later: as long as it is there it stays removed, and the kill pass
      that comes then retires it if and only if each of its nodes is to shut down and not started; if no step in between
      made a node of it run again or added one, if and only if none is started. */
  lemma RemovalIsCarriedOut(cfg: Config, before: seq<Step>, steps: seq<Step>, name: string, plans: seq<KillPlan>)
    requires IsRun(INITIAL, cfg, before) && name in Exec(INITIAL, cfg, before).mem.clusters
    requires var s := Do(Exec(INITIAL, cfg, before), cfg, RemoveClusterStep(name));
             && IsRun(s, cfg, steps) && Throughout(s, cfg, steps, name)
             && KillPlansFit(Exec(s, cfg, steps).mem, plans)
             && IsOrder(seq(|plans|, i requires 0 <= i < |plans| => plans[i].name), Exec(s, cfg, steps).mem.clusters.Keys)
    ensures var s := Do(Exec(INITIAL, cfg, before), cfg, RemoveClusterStep(name));
            var t := Exec(s, cfg, steps).mem;
            && name in t.clusters
            && (name !in KillTasks(t, plans).sched.clusters <==>
                  forall k :: k in t.clusters[name].nodes ==>
                    t.clusters[name].nodes[k].destination == Shutdown && t.clusters[name].nodes[k].current != Started)
            && (AllLeaveShut(s, cfg, steps, name) ==>
                  (name !in KillTasks(t, plans).sched.clusters <==>
                     forall k :: k in t.clusters[name].nodes ==> t.clusters[name].nodes[k].current != Started))
  {
    hide IsRun, Exec, Throughout, AllLeaveShut, KillTasks, KillPlansFit, MemoryOk, WellFormed, Strip, UuidsKnown, IsOrder,
         PreparedIn, RemoveCluster, IsKilled;
    var start := Exec(INITIAL, cfg, before);
    InitialInv(cfg);
    RunKeeps(INITIAL, cfg, before);
    var s := Do(start, cfg, RemoveClusterStep(name));
    StepKeeps(start, cfg, RemoveClusterStep(name));
    RemovalShutsAll(start.mem, name);
    RunKeepsKilled(s, cfg, steps, name);
    var t := Exec(s, cfg, steps);
    MemoryIsWellFormed(t.mem, cfg.framework, t.history);
    LeavesWhenRemovable(t.mem, cfg.framework, plans, name);
    if AllLeaveShut(s, cfg, steps, name) {
      RunKeepsShut(s, cfg, steps, name);
      forall k | k in t.mem.clusters[name].nodes ensures t.mem.clusters[name].nodes[k].destination == Shutdown {
        assert Live(t.mem, name, k);
      }
    }
  }
}
