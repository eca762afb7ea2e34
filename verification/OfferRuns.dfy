/** Offers inside runs: ResourceOffers is a run of single cluster turns, and in every reachable state every
    node still has the sizes of the configuration, so every offer of every run is conserved. */
module OfferRuns {
  import opened NodeIds
  import opened Offers
  import opened OfferLedger
  import opened Nodes
  import opened Clusters
  import opened Scheduler
  import opened SchedulerRuns
  import opened OfferSafety
  import opened OfferTotals

  // ---------- an offer is a run of cluster turns ----------

  function OfferSteps(s: Sched, plans: seq<OfferPlan>, compatibilityMode: bool, h: Helper): seq<Step>
    requires OfferPlansFit(s, plans, compatibilityMode, h)
    decreases |plans|
  {
    if plans == [] then []
    else
      var a := OfferCluster(s, plans[0], compatibilityMode, h);
      [OfferStep(plans[0], compatibilityMode, h)] + OfferSteps(a.sched, plans[1..], compatibilityMode, a.helper)
  }

  lemma NothingLaunched(s: Sys, h: Helper)
    ensures s.history + Launches(NewTasks(h, h)) == s.history && s.unsent + Executors(NewTasks(h, h)) == s.unsent
  {
    assert NewTasks(h, h) == [] && Launches([]) == [];
  }

  lemma TurnAppends(s: Sched, plan: OfferPlan, compatibilityMode: bool, h: Helper)
    requires OfferPlanFits(s, plan)
    ensures h.tasks <= OfferCluster(s, plan, compatibilityMode, h).helper.tasks
  {
    PassKeepsOffer(s.clusters[plan.name].nodes, plan.order, plan.picks, compatibilityMode, h);
  }

  lemma StepThenRun(s: Sys, cfg: Config, step: Step, rest: seq<Step>)
    requires Enabled(s, step) && IsRun(Do(s, cfg, step), cfg, rest)
    ensures IsRun(s, cfg, [step] + rest) && Exec(s, cfg, [step] + rest) == Exec(Do(s, cfg, step), cfg, rest)
  {
    hide Do, Enabled;
    assert ([step] + rest)[1..] == rest;
  }

  lemma NoExecutors()
    ensures Executors([]) == multiset{}
  {
  }

  lemma ExecutorsSnoc(tasks: seq<Task>, t: Task)
    ensures Executors(tasks + [t]) == Executors(tasks) + multiset{t.executor}
  {
    assert (tasks + [t])[..|tasks + [t]| - 1] == tasks;
  }

  lemma Together(a: multiset<Executor>, b: multiset<Executor>, c: multiset<Executor>)
    ensures a + b + c == a + (b + c)
  {
  }

  lemma {:induction false} ExecutorsAppend(a: seq<Task>, b: seq<Task>)
    ensures Executors(a + b) == Executors(a) + Executors(b)
  {
    hide Executors;
    if b == [] {
      assert a + b == a;
      NoExecutors();
    } else {
      var n := |b| - 1;
      ExecutorsAppend(a, b[..n]);
      assert a + b[..n] + [b[n]] == a + b;
      assert b[..n] + [b[n]] == b;
      ExecutorsSnoc(a + b[..n], b[n]);
      ExecutorsSnoc(b[..n], b[n]);
      Together(Executors(a), Executors(b[..n]), multiset{b[n].executor});
    }
  }

  lemma Joined(a: seq<Event>, b: seq<Event>, c: seq<Event>)
    ensures a + b + c == a + (b + c)
  {
  }

  lemma LaunchedTogether(s: Sys, before: Helper, middle: Helper, after: Helper)
    requires before.tasks <= middle.tasks && middle.tasks <= after.tasks
    ensures s.history + Launches(NewTasks(before, middle)) + Launches(NewTasks(middle, after)) ==
            s.history + Launches(NewTasks(before, after))
    ensures s.unsent + Executors(NewTasks(before, middle)) + Executors(NewTasks(middle, after)) ==
            s.unsent + Executors(NewTasks(before, after))
  {
    hide NewTasks, Launches, Executors;
    NewTasksSplit(before, middle, after);
    ExecutorsAppend(NewTasks(before, middle), NewTasks(middle, after));
    Together(s.unsent, Executors(NewTasks(before, middle)), Executors(NewTasks(middle, after)));
    Joined(s.history, Launches(NewTasks(before, middle)), Launches(NewTasks(middle, after)));
  }

  /** After all clusters' turns memory is what OfferClusters makes, and exactly the tasks the offer launches
      have entered the history. */
  lemma {:induction false} OfferIsARun(s: Sys, cfg: Config, plans: seq<OfferPlan>, compatibilityMode: bool, h: Helper)
    requires OfferPlansFit(s.mem, plans, compatibilityMode, h)
    ensures var a, steps := OfferClusters(s.mem, plans, compatibilityMode, h), OfferSteps(s.mem, plans, compatibilityMode, h);
            && IsRun(s, cfg, steps)
            && Exec(s, cfg, steps).mem == a.sched
            && Exec(s, cfg, steps).history == s.history + Launches(NewTasks(h, a.helper))
            && Exec(s, cfg, steps).unsent == s.unsent + Executors(NewTasks(h, a.helper))
            && Exec(s, cfg, steps).sent == s.sent
            && h.tasks <= a.helper.tasks
    decreases |plans|
  {
    hide OfferCluster, NewTasks, Executors, Launches, OfferPlanFits;
    if plans == [] {
      NothingLaunched(s, h);
    } else {
      var a := OfferCluster(s.mem, plans[0], compatibilityMode, h);
      var step := OfferStep(plans[0], compatibilityMode, h);
      var t := Do(s, cfg, step);
      var rest := OfferSteps(a.sched, plans[1..], compatibilityMode, a.helper);
      var b := OfferClusters(a.sched, plans[1..], compatibilityMode, a.helper);
      TurnAppends(s.mem, plans[0], compatibilityMode, h);
      OfferIsARun(t, cfg, plans[1..], compatibilityMode, a.helper);
      StepThenRun(s, cfg, step, rest);
      LaunchedTogether(s, h, a.helper, b.helper);
    }
  }

  /** What is sent to Mesos for an offer launches exactly the executors that were prepared for it. */
  lemma SubmittedLaunchIsPrepared(s: Sys, cfg: Config, plans: seq<OfferPlan>, compatibilityMode: bool, offer: Offer)
    requires OfferPlansFit(s.mem, plans, compatibilityMode, NewHelper(offer))
    ensures var a := OfferClusters(s.mem, plans, compatibilityMode, NewHelper(offer));
            var steps := OfferSteps(s.mem, plans, compatibilityMode, NewHelper(offer));
            && IsRun(s, cfg, steps)
            && Exec(s, cfg, steps).unsent ==
               s.unsent + Executors(LaunchTasks(Submitted(compatibilityMode, OperationsFor(a))))
  {
    hide OfferClusters, OfferPlansFit, IsRun, Exec, OfferSteps, Executors, Submitted, Operations, MaybeUnreserve;
    var h := NewHelper(offer);
    var a := OfferClusters(s.mem, plans, compatibilityMode, h);
    OfferIsARun(s, cfg, plans, compatibilityMode, h);
    MaybeUnreserveOffer(a.helper);
    OnlyLaunches(if a.needs then a.helper else MaybeUnreserve(a.helper), compatibilityMode);
    assert NewTasks(h, a.helper) == a.helper.tasks;
  }

  // ---------- sizes over runs ----------

  predicate Configured(n: Node, cfg: Config) {
    && n.cpus == cfg.cpus && n.mem == cfg.mem && n.disk == cfg.disk && n.ports == PORTS_PER_TASK
    && n.principal == cfg.principal && n.role == cfg.role
  }

  ghost predicate AllConfigured(s: Sched, cfg: Config) {
    forall c, k :: Live(s, c, k) ==> Configured(NodeAt(s, c, k), cfg)
  }

  /** Every node kept the size it had. */
  ghost predicate SizesKept(s: Sched, t: Sched) {
    forall c, k :: Live(t, c, k) ==> Live(s, c, k) && SameSize(NodeAt(s, c, k), NodeAt(t, c, k))
  }

  predicate NodeSizesKept(a: map<string, Node>, b: map<string, Node>) {
    forall k :: k in b ==> k in a && SameSize(a[k], b[k])
  }

  lemma SameSizeAsItself(n: Node)
    ensures SameSize(n, n)
  {
  }

  lemma WithClusterKeepsSizes(s: Sched, name: string, d: Cluster)
    requires name in s.clusters && NodeSizesKept(s.clusters[name].nodes, d.nodes)
    ensures SizesKept(s, WithCluster(s, name, d))
  {
    hide SameSize;
    forall c, k | Live(s, c, k) ensures SameSize(NodeAt(s, c, k), NodeAt(s, c, k)) {
      SameSizeAsItself(NodeAt(s, c, k));
    }
  }

  lemma {:induction false} PassKeepsSizes(nodes: map<string, Node>, order: seq<string>, picks: seq<nat>,
                                          compatibilityMode: bool, h: Helper)
    requires |picks| == |order| && forall i :: 0 <= i < |order| ==> order[i] in nodes
    ensures NodeSizesKept(nodes, ApplyNodes(nodes, order, picks, compatibilityMode, h).nodes)
  {
    hide VisitNode;
    if order != [] {
      var i := |order| - 1;
      PassKeepsSizes(nodes, order[..i], picks[..i], compatibilityMode, h);
      var q := ApplyNodes(nodes, order[..i], picks[..i], compatibilityMode, h);
      VisitKeepsSize(q.nodes[order[i]], q.helper, compatibilityMode, picks[i]);
    }
  }

  lemma RestartKeepsSizes(c: Cluster, order: seq<string>)
    requires IsOrder(order, c.nodes.Keys)
    ensures NodeSizesKept(c.nodes, RestartPass(c, order).cluster.nodes)
  {
    if c.isRestarting {
      RestartPassMarks(c, order);
    }
  }

  lemma KillClusterKeepsSizes(s: Sched, plan: KillPlan)
    requires KillPlanFits(s, plan)
    ensures SizesKept(s, KillCluster(s, plan).sched)
  {
    hide RestartPass, StopNodes, IsOrder, NodesToKill;
    var c := s.clusters[plan.name];
    var buried := Bury(c, NodesToRemove(c));
    var r := RestartPass(buried, plan.scanOrder);
    RestartKeepsSizes(buried, plan.scanOrder);
    WithClusterKeepsSizes(s, plan.name, r.cluster);
  }

  lemma {:induction false} KillKeepsSizes(s: Sched, plans: seq<KillPlan>)
    requires KillPlansFit(s, plans)
    ensures SizesKept(s, KillTasks(s, plans).sched)
    decreases |plans|
  {
    hide KillCluster;
    if plans != [] {
      KillClusterKeepsSizes(s, plans[0]);
      KillKeepsSizes(KillCluster(s, plans[0]).sched, plans[1..]);
    }
  }

  lemma ConfiguredAfter(s: Sched, t: Sched, cfg: Config)
    requires AllConfigured(s, cfg) && SizesKept(s, t)
    ensures AllConfigured(t, cfg)
  {
  }

  lemma CommandsKeepSizes(s: Sched, name: string, id: string)
    ensures SizesKept(s, CreateCluster(s, name)) && SizesKept(s, RestartCluster(s, name))
    ensures SizesKept(s, RemoveCluster(s, name)) && SizesKept(s, RemoveNode(s, name, id))
  {
  }

  lemma StatusKeepsSizes(s: Sched, status: TaskStatus, order: seq<string>)
    requires IsOrder(order, s.clusters.Keys)
    ensures SizesKept(s, StatusUpdate(s, status, order))
  {
    var found := FindCluster(s, order, status.taskId);
    if found.Some? {
      WithClusterKeepsSizes(s, found.value, HandleStatus(s.clusters[found.value], status));
    }
  }

  lemma StripKeepsSizes(s: Sched)
    ensures SizesKept(s, Strip(s))
  {
  }

  lemma AddedNodeIsConfigured(s: Sched, cfg: Config, name: string, uuid: string)
    requires AllConfigured(s, cfg)
    ensures AllConfigured(AddNode(s, cfg, name, uuid), cfg)
  {
    hide CurrentId;
    if name in s.clusters {
      var t := AddNode(s, cfg, name, uuid);
      forall c, k | Live(t, c, k) ensures Configured(NodeAt(t, c, k), cfg) {
        assert Live(s, c, k) && NodeAt(t, c, k) == NodeAt(s, c, k) ==> Configured(NodeAt(t, c, k), cfg);
      }
    }
  }

  ghost predicate SysConfigured(s: Sys, cfg: Config) {
    AllConfigured(s.mem, cfg) && AllConfigured(s.snap, cfg)
  }

  lemma TurnKeepsSizes(s: Sched, plan: OfferPlan, compatibilityMode: bool, h: Helper)
    requires OfferPlanFits(s, plan)
    ensures SizesKept(s, OfferCluster(s, plan, compatibilityMode, h).sched)
  {
    hide ApplyNodes, SizesKept, NodeSizesKept;
    var c := s.clusters[plan.name];
    var p := ApplyNodes(c.nodes, plan.order, plan.picks, compatibilityMode, h);
    PassKeepsSizes(c.nodes, plan.order, plan.picks, compatibilityMode, h);
    WithClusterKeepsSizes(s, plan.name, c.(nodes := p.nodes));
  }

  lemma StepKeepsSizes(s: Sys, cfg: Config, step: Step)
    requires SysConfigured(s, cfg) && Enabled(s, step)
    ensures SysConfigured(Do(s, cfg, step), cfg)
  {
    hide AllConfigured, SizesKept, Strip, KillTasks, KillPlansFit, ApplyNodes, IsOrder, FindCluster, StatusUpdate,
         AddNode, CreateCluster, RestartCluster, RemoveCluster, RemoveNode, Ends, Launches, Executors;
    var mem := Do(s, cfg, step).mem;
    match step {
      case CreateClusterStep(name) => CommandsKeepSizes(s.mem, name, "");
      case RestartClusterStep(name) => CommandsKeepSizes(s.mem, name, "");
      case RemoveClusterStep(name) => CommandsKeepSizes(s.mem, name, "");
      case RemoveNodeStep(name, id) => CommandsKeepSizes(s.mem, name, id);
      case CreateNodeStep(name, uuid) => AddedNodeIsConfigured(s.mem, cfg, name, uuid);
      case OfferStep(plan, compatibilityMode, h) => TurnKeepsSizes(s.mem, plan, compatibilityMode, h);
      case SendStep(_) =>
      case StatusStep(status, order) => StatusKeepsSizes(s.mem, status, order);
      case KillStep(plans) => KillKeepsSizes(s.mem, plans);
      case CrashStep =>
    }
    if SizesKept(s.mem, mem) {
      ConfiguredAfter(s.mem, mem, cfg);
    }
    StripKeepsSizes(mem);
    ConfiguredAfter(mem, Strip(mem), cfg);
  }

  lemma {:induction false} RunKeepsSizes(s: Sys, cfg: Config, steps: seq<Step>)
    requires SysConfigured(s, cfg) && IsRun(s, cfg, steps)
    ensures SysConfigured(Exec(s, cfg, steps), cfg)
    decreases |steps|
  {
    hide SysConfigured, Do, Enabled;
    if steps != [] {
      StepKeepsSizes(s, cfg, steps[0]);
      RunKeepsSizes(Do(s, cfg, steps[0]), cfg, steps[1..]);
    }
  }

  /** The configuration makes reservations, or has nothing to reserve. */
  predicate CanDraw(cfg: Config) {
    MakesReservation(cfg.principal, cfg.role) || (cfg.cpus == 0.0 && cfg.mem == 0.0 && cfg.disk == 0.0)
  }

  lemma ConfiguredNodesFit(s: Sched, cfg: Config, compatibilityMode: bool)
    requires AllConfigured(s, cfg) && cfg.cpus >= 0.0 && cfg.mem >= 0.0 && cfg.disk >= 0.0
    ensures compatibilityMode || CanDraw(cfg) ==> EveryNodeFits(s, compatibilityMode)
    ensures !CanDraw(cfg) ==> forall c :: c in s.clusters ==> NoneReservable(s.clusters[c].nodes)
  {
    forall c, k | c in s.clusters && k in s.clusters[c].nodes
      ensures compatibilityMode || CanDraw(cfg) ==> Fits(s.clusters[c].nodes[k], compatibilityMode)
      ensures !CanDraw(cfg) ==> Unreservable(s.clusters[c].nodes[k])
    {
      assert Live(s, c, k) && NodeAt(s, c, k) == s.clusters[c].nodes[k];
    }
  }

  lemma NothingConfigured(cfg: Config)
    ensures SysConfigured(INITIAL, cfg)
  {
  }

  /** In every run, any offer, in any order, is conserved and never overdrawn if and only if every turn that drew met its
      guard. When no configured size is negative that is: if and only if the scheduler is in compatibility mode, or a
      principal and a role are configured, or nothing is to be reserved, or no node drew from the offer. */
  lemma EveryOfferIsConserved(cfg: Config, steps: seq<Step>, plans: seq<OfferPlan>, compatibilityMode: bool, offer: Offer)
    requires IsRun(INITIAL, cfg, steps) && WellFormedOffer(offer)
    requires OfferPlansFit(Exec(INITIAL, cfg, steps).mem, plans, compatibilityMode, NewHelper(offer))
    ensures var a := OfferClusters(Exec(INITIAL, cfg, steps).mem, plans, compatibilityMode, NewHelper(offer));
            && (Conserved(a.helper) <==>
                  OfferKeeps(Exec(INITIAL, cfg, steps).mem, plans, compatibilityMode, NewHelper(offer)))
            && (cfg.cpus >= 0.0 && cfg.mem >= 0.0 && cfg.disk >= 0.0 ==>
                  (Conserved(a.helper) <==>
                     compatibilityMode || CanDraw(cfg) || (a.helper.tasks == [] && a.helper.held == [])))
            && (Conserved(a.helper) ==> AllAffordable(OfferAccount(offer), OperationsFor(a)))
  {
    hide IsRun, Exec, OfferClusters, OfferPlansFit, Conserved, AllAffordable, AllConfigured, EveryNodeFits, PoolOf, Sound,
         OfferKeeps, NoneReservable, CanDraw;
    NothingConfigured(cfg);
    RunKeepsSizes(INITIAL, cfg, steps);
    var s := Exec(INITIAL, cfg, steps);
    OfferIsConserved(s.mem, plans, compatibilityMode, offer);
    if cfg.cpus >= 0.0 && cfg.mem >= 0.0 && cfg.disk >= 0.0 {
      ConfiguredNodesFit(s.mem, cfg, compatibilityMode);
      if compatibilityMode || CanDraw(cfg) {
        FittingNodesKeep(s.mem, plans, compatibilityMode, NewHelper(offer));
      } else {
        UnreservableClusters(s.mem, plans, NewHelper(offer));
      }
    }
  }
}
