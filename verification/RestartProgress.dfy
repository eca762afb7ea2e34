/** A rolling restart never loses ground: over any step, the live nodes behind the cluster generation
    are among those that were behind it before. */
module RestartProgress {
  import opened NodeIds
  import opened Offers
  import opened Nodes
  import opened Clusters
  import opened Scheduler
  import opened SchedulerRuns
  import opened KillPass

  predicate NoFurtherBehind(c: Cluster, d: Cluster) {
    d.generation == c.generation && Behind(d) <= Behind(c)
  }

  /** The named cluster, if it is still there, is no further behind. */
  predicate KeepsUp(s: Sched, t: Sched, name: string)
    requires name in s.clusters
  {
    name in t.clusters ==> NoFurtherBehind(s.clusters[name], t.clusters[name])
  }

  lemma SameGenerationsKeepUp(c: Cluster, d: Cluster)
    requires d.generation == c.generation
    requires forall k :: k in d.nodes ==>
               (k in c.nodes && d.nodes[k].restartGeneration == c.nodes[k].restartGeneration)
               || d.nodes[k].restartGeneration == c.generation
    ensures NoFurtherBehind(c, d)
  {
  }

  lemma {:induction false} PassKeepsGenerations(nodes: map<string, Node>, order: seq<string>, picks: seq<nat>,
                                                compatibilityMode: bool, h: Helper)
    requires |picks| == |order| && forall i :: 0 <= i < |order| ==> order[i] in nodes
    ensures forall k :: k in nodes ==>
              ApplyNodes(nodes, order, picks, compatibilityMode, h).nodes[k].restartGeneration == nodes[k].restartGeneration
  {
    hide VisitNode;
    if order != [] {
      var i := |order| - 1;
      PassKeepsGenerations(nodes, order[..i], picks[..i], compatibilityMode, h);
      var q := ApplyNodes(nodes, order[..i], picks[..i], compatibilityMode, h);
      VisitOutcome(q.nodes[order[i]], q.helper, compatibilityMode, picks[i]);
    }
  }

  lemma CommandsKeepUp(s: Sched, cfg: Config, other: string, id: string, name: string)
    requires name in s.clusters && s.clusters[name].isRestarting
    ensures KeepsUp(s, CreateCluster(s, other), name) && KeepsUp(s, RestartCluster(s, other), name)
    ensures KeepsUp(s, RemoveCluster(s, other), name) && KeepsUp(s, RemoveNode(s, other, id), name)
    ensures KeepsUp(s, AddNode(s, cfg, other, id), name)
  {
    hide CurrentId;
  }

  lemma TurnKeepsUp(s: Sched, plan: OfferPlan, compatibilityMode: bool, h: Helper, name: string)
    requires name in s.clusters && OfferPlanFits(s, plan)
    ensures KeepsUp(s, OfferCluster(s, plan, compatibilityMode, h).sched, name)
  {
    hide ApplyNodes, NoFurtherBehind;
    var t := OfferCluster(s, plan, compatibilityMode, h).sched;
    PassKeepsGenerations(s.clusters[plan.name].nodes, plan.order, plan.picks, compatibilityMode, h);
    SameGenerationsKeepUp(s.clusters[name], t.clusters[name]);
  }

  lemma StatusKeepsUp(s: Sched, status: TaskStatus, order: seq<string>, name: string)
    requires name in s.clusters && IsOrder(order, s.clusters.Keys)
    ensures KeepsUp(s, StatusUpdate(s, status, order), name)
  {
    hide NoFurtherBehind;
    SameGenerationsKeepUp(s.clusters[name], StatusUpdate(s, status, order).clusters[name]);
  }

  lemma RestartPassGeneration(c: Cluster, order: seq<string>)
    requires IsOrder(order, c.nodes.Keys)
    ensures RestartPass(c, order).cluster.generation == c.generation
  {
  }

  lemma KillKeepsUp(s: Sched, plan: KillPlan, name: string)
    requires name in s.clusters && s.clusters[name].isRestarting && KillPlanFits(s, plan) && Tidy(s)
    ensures KeepsUp(s, KillCluster(s, plan).sched, name)
  {
    hide StopNodes, StopNode, RestartPass, IsOrder;
    if name != plan.name {
      OtherClustersStay(s, plan, name);
    } else {
      var c := s.clusters[name];
      var b := Bury(c, NodesToRemove(c));
      RestartPassOutline(b, plan.scanOrder);
      RestartPassGeneration(b, plan.scanOrder);
      RestartPassProgress(b, plan.scanOrder);
      assert Behind(b) <= Behind(c);
    }
  }

  /** Once a restart has ended in a pass, nothing in that pass starts another. */
  lemma PassAfterRestart(s: Sched, plan: KillPlan, name: string)
    requires name in s.clusters && KillPlanFits(s, plan) && Tidy(s)
    ensures name in KillCluster(s, plan).sched.clusters && !s.clusters[name].isRestarting ==>
              NoFurtherBehind(s.clusters[name], KillCluster(s, plan).sched.clusters[name])
              && !KillCluster(s, plan).sched.clusters[name].isRestarting
  {
    hide StopNodes, StopNode, IsOrder;
    if name != plan.name {
      OtherClustersStay(s, plan, name);
    }
  }

  lemma {:induction false} KillTasksKeepUp(s: Sched, plans: seq<KillPlan>, name: string)
    requires name in s.clusters && KillPlansFit(s, plans) && Tidy(s)
    ensures KeepsUp(s, KillTasks(s, plans).sched, name)
    decreases |plans|
  {
    hide KillCluster, Tidy, KillPlanFits, Behind;
    if plans != [] {
      var a := KillCluster(s, plans[0]);
      TurnKeepsTidy(s, plans[0]);
      if s.clusters[name].isRestarting {
        KillKeepsUp(s, plans[0], name);
      } else {
        PassAfterRestart(s, plans[0], name);
      }
      if name in a.sched.clusters {
        KillTasksKeepUp(a.sched, plans[1..], name);
      } else {
        GoneStaysGone(a.sched, plans[1..], name);
      }
    }
  }

  lemma StripKeepsUp(s: Sched, name: string)
    requires name in s.clusters
    ensures KeepsUp(s, Strip(s), name)
  {
  }

  lemma SameKeepsUp(s: Sched, name: string)
    requires name in s.clusters
    ensures KeepsUp(s, s, name)
  {
  }

  /** While a cluster restarts, no step of any run, crashes included, puts a node behind its generation. */
  lemma StepKeepsUp(s: Sys, cfg: Config, step: Step, name: string)
    requires Inv(s, cfg) && Enabled(s, step)
    requires name in s.mem.clusters && s.mem.clusters[name].isRestarting
    ensures KeepsUp(s.mem, Do(s, cfg, step).mem, name)
  {
    hide MemoryOk, WellFormed, Strip, KeepsUp, KillTasks, KillPlansFit, OfferCluster, IsOrder, StatusUpdate, FindCluster,
         AddNode, CreateCluster, RestartCluster, RemoveCluster, RemoveNode, Ends, Launches, Executors, UuidsKnown;
    match step
    case CreateClusterStep(other) => CommandsKeepUp(s.mem, cfg, other, "", name);
    case RestartClusterStep(other) => CommandsKeepUp(s.mem, cfg, other, "", name);
    case RemoveClusterStep(other) => CommandsKeepUp(s.mem, cfg, other, "", name);
    case RemoveNodeStep(other, id) => CommandsKeepUp(s.mem, cfg, other, id, name);
    case CreateNodeStep(other, uuid) => CommandsKeepUp(s.mem, cfg, other, uuid, name);
    case OfferStep(plan, compatibilityMode, h) => TurnKeepsUp(s.mem, plan, compatibilityMode, h, name);
    case SendStep(_) => SameKeepsUp(s.mem, name);
    case StatusStep(status, order) => StatusKeepsUp(s.mem, status, order, name);
    case KillStep(plans) =>
      MemoryIsWellFormed(s.mem, cfg.framework, s.history);
      WellFormedIsTidy(s.mem, cfg.framework);
      KillTasksKeepUp(s.mem, plans, name);
    case CrashStep => StripKeepsUp(s.mem, name);
  }

  // ---------- over runs ----------

  /** The cluster is there and restarting before each of the steps. */
  predicate RestartsThroughout(s: Sys, cfg: Config, steps: seq<Step>, name: string)
    requires IsRun(s, cfg, steps)
    decreases |steps|
  {
    steps != [] ==>
      && name in s.mem.clusters && s.mem.clusters[name].isRestarting
      && RestartsThroughout(Do(s, cfg, steps[0]), cfg, steps[1..], name)
  }

  lemma KeepsUpIsTransitive(b: Cluster, c: Cluster, d: Cluster)
    requires NoFurtherBehind(b, c) && NoFurtherBehind(c, d)
    ensures NoFurtherBehind(b, d)
  {
  }

  lemma {:induction false} LaterKeepsUp(s: Sys, cfg: Config, steps: seq<Step>, name: string)
    requires Inv(s, cfg) && IsRun(s, cfg, steps) && RestartsThroughout(s, cfg, steps, name)
    requires name in s.mem.clusters
    ensures KeepsUp(s.mem, Exec(s, cfg, steps).mem, name)
    decreases |steps|
  {
    hide Inv, Do, Enabled, NoFurtherBehind;
    if steps == [] {
      SameKeepsUp(s.mem, name);
    } else {
      var t := Do(s, cfg, steps[0]);
      StepKeeps(s, cfg, steps[0]);
      StepKeepsUp(s, cfg, steps[0], name);
      if name in t.mem.clusters {
        LaterKeepsUp(t, cfg, steps[1..], name);
        if name in Exec(t, cfg, steps[1..]).mem.clusters {
          KeepsUpIsTransitive(s.mem.clusters[name], t.mem.clusters[name], Exec(t, cfg, steps[1..]).mem.clusters[name]);
        }
      } else {
        assert steps[1..] == [];
      }
    }
  }

  lemma FewerBehind(a: set<string>, b: set<string>)
    requires a <= b
    ensures |a| <= |b|
  {
    assert b == a + (b - a);
  }

  /** In any run, from wherever a rolling restart is seen going on to any later moment of it, crashes included: the
      nodes behind the generation are among those that were behind it, and the generation is the same. */
  lemma RestartNeverLosesGround(cfg: Config, before: seq<Step>, steps: seq<Step>, name: string)
    requires IsRun(INITIAL, cfg, before) && IsRun(Exec(INITIAL, cfg, before), cfg, steps)
    requires RestartsThroughout(Exec(INITIAL, cfg, before), cfg, steps, name)
    requires name in Exec(INITIAL, cfg, before).mem.clusters
    requires name in Exec(Exec(INITIAL, cfg, before), cfg, steps).mem.clusters
    ensures var c := Exec(INITIAL, cfg, before).mem.clusters[name];
            var d := Exec(Exec(INITIAL, cfg, before), cfg, steps).mem.clusters[name];
            d.generation == c.generation && Behind(d) <= Behind(c) && |Behind(d)| <= |Behind(c)|
  {
    hide Inv, IsRun, Exec, RestartsThroughout, Behind;
    InitialInv(cfg);
    RunKeeps(INITIAL, cfg, before);
    LaterKeepsUp(Exec(INITIAL, cfg, before), cfg, steps, name);
    FewerBehind(Behind(Exec(Exec(INITIAL, cfg, before), cfg, steps).mem.clusters[name]),
                Behind(Exec(INITIAL, cfg, before).mem.clusters[name]));
  }
}
