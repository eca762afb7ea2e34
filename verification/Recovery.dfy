/** What a crash leaves undone until Mesos is heard of: a node stays unreconciled until a status update for it comes, is
    not scheduled if it was ever launched, and holds the kill pass up until it has been asked about. */
module Recovery {
  import opened NodeIds
  import opened Offers
  import opened Nodes
  import opened Clusters
  import opened Scheduler
  import opened SchedulerRuns

  /** The node, if it is there, is unreconciled. */
  predicate Unheard(s: Sched, c: string, k: string) {
    Live(s, c, k) ==> !NodeAt(s, c, k).reconciled
  }

  lemma CommandsAreSilent(s: Sched, cfg: Config, name: string, id: string, c: string, k: string)
    requires Unheard(s, c, k)
    ensures Unheard(CreateCluster(s, name), c, k) && Unheard(RestartCluster(s, name), c, k)
    ensures Unheard(RemoveCluster(s, name), c, k) && Unheard(RemoveNode(s, name, id), c, k)
    ensures Unheard(AddNode(s, cfg, name, id), c, k)
  {
    hide CurrentId;
  }

  lemma {:induction false} PassIsSilent(nodes: map<string, Node>, order: seq<string>, picks: seq<nat>,
                                        compatibilityMode: bool, h: Helper, k: string)
    requires |picks| == |order| && (forall i :: 0 <= i < |order| ==> order[i] in nodes) && k in nodes
    ensures ApplyNodes(nodes, order, picks, compatibilityMode, h).nodes[k].reconciled == nodes[k].reconciled
  {
    hide VisitNode;
    if order != [] {
      var i := |order| - 1;
      PassIsSilent(nodes, order[..i], picks[..i], compatibilityMode, h, k);
      var q := ApplyNodes(nodes, order[..i], picks[..i], compatibilityMode, h);
      VisitOutcome(q.nodes[order[i]], q.helper, compatibilityMode, picks[i]);
    }
  }

  lemma OfferIsSilent(s: Sched, plan: OfferPlan, compatibilityMode: bool, h: Helper, c: string, k: string)
    requires OfferPlanFits(s, plan) && Unheard(s, c, k)
    ensures Unheard(OfferCluster(s, plan, compatibilityMode, h).sched, c, k)
  {
    hide ApplyNodes;
    if c == plan.name && Live(s, c, k) {
      PassIsSilent(s.clusters[c].nodes, plan.order, plan.picks, compatibilityMode, h, k);
    }
  }

  lemma OtherUpdatesAreSilent(s: Sched, status: TaskStatus, order: seq<string>, c: string, k: string)
    requires IsOrder(order, s.clusters.Keys) && Unheard(s, c, k) && status.taskId != k
    ensures Unheard(StatusUpdate(s, status, order), c, k)
  {
    hide FindCluster;
  }

  lemma RestartIsSilent(c: Cluster, order: seq<string>, k: string)
    requires IsOrder(order, c.nodes.Keys) && k in c.nodes
    ensures k in RestartPass(c, order).cluster.nodes
    ensures RestartPass(c, order).cluster.nodes[k].reconciled == c.nodes[k].reconciled
  {
    hide AlreadyRestarted, IsOrder, Node.IsRestarting;
    RestartPassOutline(c, order);
  }

  lemma TurnIsSilent(s: Sched, plan: KillPlan, c: string, k: string)
    requires KillPlanFits(s, plan) && Unheard(s, c, k)
    ensures Unheard(KillCluster(s, plan).sched, c, k)
  {
    hide StopNodes, StopNode, IsOrder, RestartPass, Node.CanBeRemoved, Node.CanBeKilled;
    var buried := Bury(s.clusters[plan.name], NodesToRemove(s.clusters[plan.name]));
    RestartPassOutline(buried, plan.scanOrder);
    if k in buried.nodes {
      RestartIsSilent(buried, plan.scanOrder, k);
    }
  }

  lemma {:induction false} KillPassIsSilent(s: Sched, plans: seq<KillPlan>, c: string, k: string)
    requires KillPlansFit(s, plans) && Unheard(s, c, k)
    ensures Unheard(KillTasks(s, plans).sched, c, k)
    decreases |plans|
  {
    hide KillCluster, KillPlanFits, Unheard;
    if plans != [] {
      TurnIsSilent(s, plans[0], c, k);
      KillPassIsSilent(KillCluster(s, plans[0]).sched, plans[1..], c, k);
    }
  }

  lemma CrashIsSilent(s: Sched, c: string, k: string)
    ensures Unheard(Strip(s), c, k)
  {
  }

  predicate Hears(step: Step, k: string) {
    step.StatusStep? && step.status.taskId == k
  }

  lemma StepIsSilent(s: Sys, cfg: Config, step: Step, c: string, k: string)
    requires Inv(s, cfg) && Enabled(s, step) && !Hears(step, k) && Unheard(s.mem, c, k)
    ensures Unheard(Do(s, cfg, step).mem, c, k)
  {
    hide MemoryOk, Strip, Unheard, KillTasks, KillPlansFit, OfferCluster, IsOrder, StatusUpdate, FindCluster, UuidsKnown,
         AddNode, CreateCluster, RestartCluster, RemoveCluster, RemoveNode, Ends, Launches, Executors;
    match step
    case CreateClusterStep(name) => CommandsAreSilent(s.mem, cfg, name, "", c, k);
    case RestartClusterStep(name) => CommandsAreSilent(s.mem, cfg, name, "", c, k);
    case RemoveClusterStep(name) => CommandsAreSilent(s.mem, cfg, name, "", c, k);
    case RemoveNodeStep(name, id) => CommandsAreSilent(s.mem, cfg, name, id, c, k);
    case CreateNodeStep(name, uuid) => CommandsAreSilent(s.mem, cfg, name, uuid, c, k);
    case OfferStep(plan, compatibilityMode, h) => OfferIsSilent(s.mem, plan, compatibilityMode, h, c, k);
    case SendStep(_) =>
    case StatusStep(status, order) => OtherUpdatesAreSilent(s.mem, status, order, c, k);
    case KillStep(plans) => KillPassIsSilent(s.mem, plans, c, k);
    case CrashStep => CrashIsSilent(s.mem, c, k);
  }

  lemma {:induction false} RunIsSilent(s: Sys, cfg: Config, steps: seq<Step>, c: string, k: string)
    requires Inv(s, cfg) && IsRun(s, cfg, steps) && Unheard(s.mem, c, k)
    requires forall i :: 0 <= i < |steps| ==> !Hears(steps[i], k)
    ensures Inv(Exec(s, cfg, steps), cfg) && Unheard(Exec(s, cfg, steps).mem, c, k)
    decreases |steps|
  {
    hide Inv, Do, Enabled, Unheard, Hears;
    if steps != [] {
      StepKeeps(s, cfg, steps[0]);
      StepIsSilent(s, cfg, steps[0], c, k);
      RunIsSilent(Do(s, cfg, steps[0]), cfg, steps[1..], c, k);
    }
  }

  lemma UnheardNodeWaits(s: Sched, c: string, k: string, recent: map<string, set<string>>, enabled: bool,
                         plans: seq<KillPlan>)
    requires Live(s, c, k) && Unheard(s, c, k) && NodeAt(s, c, k).current !in {Unknown, Reserved}
    requires recent.Keys == s.clusters.Keys && KillPlansFit(s, plans)
    ensures !NodeAt(s, c, k).CanBeScheduled()
    ensures k !in recent[c] ==> Reconcile(s, enabled, recent, plans) == Killed(s, [], false)
  {
    hide Reconcile, KillTasks, KillPlansFit;
    if k !in recent[c] {
      KillsWaitForReconciliation(s, enabled, recent, plans, c, k);
    }
  }

  lemma CrashedIsUnheard(s: Sys, cfg: Config, c: string, k: string)
    requires Inv(s, cfg)
    ensures Unheard(Do(s, cfg, CrashStep).mem, c, k)
  {
    hide MemoryOk, Strip, Unheard;
    CrashIsSilent(s.mem, c, k);
  }

  /** From a crash in any run until a status update for a node comes, whatever else happens: while the node is past its
      reservation it is not schedulable, and a reconciliation round that finds it not asked about in the last five
      seconds stops, buries and restarts nothing. */
  lemma NothingBeforeReconciliation(cfg: Config, before: seq<Step>, steps: seq<Step>, c: string, k: string,
                                    recent: map<string, set<string>>, enabled: bool, plans: seq<KillPlan>)
    requires IsRun(INITIAL, cfg, before) && IsRun(Do(Exec(INITIAL, cfg, before), cfg, CrashStep), cfg, steps)
    requires forall i :: 0 <= i < |steps| ==> !Hears(steps[i], k)
    requires var s := Exec(Do(Exec(INITIAL, cfg, before), cfg, CrashStep), cfg, steps).mem;
             && Live(s, c, k) && NodeAt(s, c, k).current !in {Unknown, Reserved}
             && recent.Keys == s.clusters.Keys && KillPlansFit(s, plans)
    ensures var s := Exec(Do(Exec(INITIAL, cfg, before), cfg, CrashStep), cfg, steps).mem;
            && !NodeAt(s, c, k).CanBeScheduled()
            && (k !in recent[c] ==> Reconcile(s, enabled, recent, plans) == Killed(s, [], false))
  {
    hide Inv, IsRun, Exec, Do, Unheard, Reconcile, KillPlansFit, Hears;
    InitialInv(cfg);
    RunKeeps(INITIAL, cfg, before);
    var crashed := Exec(INITIAL, cfg, before);
    var s := Do(crashed, cfg, CrashStep);
    StepKeeps(crashed, cfg, CrashStep);
    CrashedIsUnheard(crashed, cfg, c, k);
    RunIsSilent(s, cfg, steps, c, k);
    UnheardNodeWaits(Exec(s, cfg, steps).mem, c, k, recent, enabled, plans);
  }
}
