/** How many ids a cluster has given out, over any step: only creating a node gives out one more. */
module IdTotals {
  import opened NodeIds
  import opened Offers
  import opened Nodes
  import opened Clusters
  import opened Scheduler
  import opened SchedulerRuns
  import opened KillPass

  /** The live and the dead nodes of a cluster. */
  function Total(c: Cluster): nat {
    |c.nodes| + |c.graveyard|
  }

  lemma SameKeysSameTotal(c: Cluster, d: Cluster)
    requires d.nodes.Keys == c.nodes.Keys && d.graveyard.Keys == c.graveyard.Keys
    ensures Total(d) == Total(c)
  {
    MapSize(c);
    MapSize(d);
  }

  /** The named cluster, if it is still there, has as many ids as before. */
  predicate KeepsTotal(s: Sched, t: Sched, name: string)
    requires name in s.clusters
  {
    name in t.clusters ==> Total(t.clusters[name]) == Total(s.clusters[name])
  }

  predicate KeepsKeys(s: Sched, t: Sched, name: string)
    requires name in s.clusters
  {
    name in t.clusters ==>
      && t.clusters[name].nodes.Keys == s.clusters[name].nodes.Keys
      && t.clusters[name].graveyard.Keys == s.clusters[name].graveyard.Keys
  }

  lemma KeysKeepTotal(s: Sched, t: Sched, name: string)
    requires name in s.clusters && KeepsKeys(s, t, name)
    ensures KeepsTotal(s, t, name)
  {
    if name in t.clusters {
      SameKeysSameTotal(s.clusters[name], t.clusters[name]);
    }
  }

  lemma CommandsKeepKeys(s: Sched, other: string, id: string, name: string)
    requires name in s.clusters
    ensures KeepsKeys(s, CreateCluster(s, other), name) && KeepsKeys(s, RestartCluster(s, other), name)
    ensures KeepsKeys(s, RemoveCluster(s, other), name) && KeepsKeys(s, RemoveNode(s, other, id), name)
  {
  }

  lemma TurnKeepsKeys(s: Sched, plan: OfferPlan, compatibilityMode: bool, h: Helper, name: string)
    requires name in s.clusters && OfferPlanFits(s, plan)
    ensures KeepsKeys(s, OfferCluster(s, plan, compatibilityMode, h).sched, name)
  {
    hide ApplyNodes;
  }

  lemma StatusKeepsKeys(s: Sched, status: TaskStatus, order: seq<string>, name: string)
    requires name in s.clusters && IsOrder(order, s.clusters.Keys)
    ensures KeepsKeys(s, StatusUpdate(s, status, order), name)
  {
  }

  lemma CreationAddsOne(s: Sched, cfg: Config, other: string, uuid: string, name: string)
    requires WellFormed(s, cfg.framework) && name in s.clusters
    ensures Total(AddNode(s, cfg, other, uuid).clusters[name]) == Total(s.clusters[name]) + if other == name then 1 else 0
  {
    hide IdsUpTo, CreateNode, InBand, CurrentId;
    if other == name {
      CreateNodeIsFresh(s.clusters[name], cfg.framework, cfg.role, cfg.principal, cfg.cpus, cfg.mem, cfg.disk, uuid);
    }
  }

  lemma KillKeepsTotal(s: Sched, framework: string, plan: KillPlan, name: string)
    requires WellFormed(s, framework) && KillPlanFits(s, plan) && name in s.clusters
    ensures KeepsTotal(s, KillCluster(s, plan).sched, name)
  {
    hide StopNodes, StopNode, RestartPass, IsOrder, Bury, IdsUpTo, InBand;
    WellFormedIsTidy(s, framework);
    if name != plan.name {
      OtherClustersStay(s, plan, name);
    } else {
      var c := s.clusters[name];
      RemovedAreLive(c);
      hide NodesToRemove;
      var b := Bury(c, NodesToRemove(c));
      BuryKeepsIds(c, NodesToRemove(c), framework);
      RestartPassOutline(b, plan.scanOrder);
      SameKeysSameTotal(b, RestartPass(b, plan.scanOrder).cluster);
    }
  }

  lemma {:induction false} KillTasksKeepTotal(s: Sched, framework: string, hist: seq<Event>, plans: seq<KillPlan>, name: string)
    requires MemoryOk(s, framework, hist) && KillPlansFit(s, plans) && name in s.clusters
    ensures KeepsTotal(s, KillTasks(s, plans).sched, name)
    decreases |plans|
  {
    hide KillCluster, MemoryOk, WellFormed, KillPlanFits, Tidy;
    if plans != [] {
      var a := KillCluster(s, plans[0]);
      MemoryIsWellFormed(s, framework, hist);
      KillKeepsTotal(s, framework, plans[0], name);
      KillClusterKeeps(s, framework, hist, plans[0]);
      if name in a.sched.clusters {
        KillTasksKeepTotal(a.sched, framework, hist, plans[1..], name);
      } else {
        MemoryIsWellFormed(a.sched, framework, hist);
        WellFormedIsTidy(a.sched, framework);
        GoneStaysGone(a.sched, plans[1..], name);
      }
    }
  }

  lemma StripKeepsTotal(s: Sched, name: string)
    requires name in s.clusters
    ensures KeepsTotal(s, Strip(s), name)
  {
    StripSize(s.clusters[name]);
  }

  /** In every reachable state, for every step: a cluster that is there before and after has as many live and dead nodes
      together as before, but for a node created in it, which is one more. */
  lemma OnlyCreationAddsIds(s: Sys, cfg: Config, step: Step, name: string)
    requires Inv(s, cfg) && Enabled(s, step)
    requires name in s.mem.clusters && name in Do(s, cfg, step).mem.clusters
    ensures Total(Do(s, cfg, step).mem.clusters[name]) ==
            Total(s.mem.clusters[name]) + if step.CreateNodeStep? && step.name == name then 1 else 0
  {
    hide MemoryOk, WellFormed, Strip, Total, KeepsKeys, KillTasks, KillPlansFit, OfferCluster, IsOrder, StatusUpdate, FindCluster,
         AddNode, CreateCluster, RestartCluster, RemoveCluster, RemoveNode, Ends, Launches, Executors, UuidsKnown;
    MemoryIsWellFormed(s.mem, cfg.framework, s.history);
    var t := Do(s, cfg, step).mem;
    match step
    case CreateClusterStep(other) => CommandsKeepKeys(s.mem, other, "", name); KeysKeepTotal(s.mem, t, name);
    case RestartClusterStep(other) => CommandsKeepKeys(s.mem, other, "", name); KeysKeepTotal(s.mem, t, name);
    case RemoveClusterStep(other) => CommandsKeepKeys(s.mem, other, "", name); KeysKeepTotal(s.mem, t, name);
    case RemoveNodeStep(other, id) => CommandsKeepKeys(s.mem, other, id, name); KeysKeepTotal(s.mem, t, name);
    case CreateNodeStep(other, uuid) => CreationAddsOne(s.mem, cfg, other, uuid, name);
    case OfferStep(plan, compatibilityMode, h) =>
      TurnKeepsKeys(s.mem, plan, compatibilityMode, h, name);
      KeysKeepTotal(s.mem, t, name);
    case SendStep(_) =>
    case StatusStep(status, order) => StatusKeepsKeys(s.mem, status, order, name); KeysKeepTotal(s.mem, t, name);
    case KillStep(plans) => KillTasksKeepTotal(s.mem, cfg.framework, s.history, plans, name);
    case CrashStep => StripKeepsTotal(s.mem, name);
  }
}
