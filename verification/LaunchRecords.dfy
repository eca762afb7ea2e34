/** Where a launch is remembered: in the record of a live node, of a dead one, or of one in a retired cluster. The
    scheduler forgets exactly when a cluster retires over an older one of its name that had launched a node. */
module LaunchRecords {
  import opened NodeIds
  import opened Offers
  import opened Nodes
  import opened Clusters
  import opened Scheduler
  import opened SchedulerRuns
  import opened KillPass
  import opened RecordPlaces

  predicate Covers(n: Node, e: Executor) {
    n.uuid == e.uuid && e.generation <= n.generation
  }

  ghost predicate Holds(c: Cluster, e: Executor) {
    || (exists k :: k in c.nodes && Covers(c.nodes[k], e))
    || (exists k :: k in c.graveyard && Covers(c.graveyard[k], e))
  }

  /** Some record, live, dead or retired, has the launch's uuid and has reached its generation. */
  ghost predicate Covered(s: Sched, e: Executor) {
    || (exists c :: c in s.clusters && Holds(s.clusters[c], e))
    || (exists c :: c in s.graveyard && Holds(s.graveyard[c], e))
  }

  ghost predicate HoldsMore(c: Cluster, d: Cluster) {
    forall e :: Holds(c, e) ==> Holds(d, e)
  }

  /** Nothing that was remembered is forgotten. */
  ghost predicate Remembers(s: Sched, t: Sched) {
    forall e :: Covered(s, e) ==> Covered(t, e)
  }

  // ---------- one cluster ----------

  /** The same nodes or more, at the same or a later generation. */
  predicate Grown(before: map<string, Node>, after: map<string, Node>) {
    forall k :: k in before ==>
      k in after && after[k].uuid == before[k].uuid && before[k].generation <= after[k].generation
  }

  lemma GrownHoldsMore(c: Cluster, d: Cluster)
    requires Grown(c.nodes, d.nodes) && Grown(c.graveyard, d.graveyard)
    ensures HoldsMore(c, d)
  {
    forall e | Holds(c, e) ensures Holds(d, e) {
      if k :| k in c.nodes && Covers(c.nodes[k], e) {
        assert Covers(d.nodes[k], e);
      } else {
        var k :| k in c.graveyard && Covers(c.graveyard[k], e);
        assert Covers(d.graveyard[k], e);
      }
    }
  }

  lemma ReplacedRemembers(s: Sched, name: string, d: Cluster)
    requires name in s.clusters && HoldsMore(s.clusters[name], d)
    ensures Remembers(s, WithCluster(s, name, d))
  {
    hide Holds;
    var t := WithCluster(s, name, d);
    forall e | Covered(s, e) ensures Covered(t, e) {
      if c :| c in s.clusters && Holds(s.clusters[c], e) {
        assert Holds(t.clusters[c], e);
      } else {
        var c :| c in s.graveyard && Holds(s.graveyard[c], e);
        assert Holds(t.graveyard[c], e);
      }
    }
  }

  lemma GrownRemembers(s: Sched, name: string, d: Cluster)
    requires name in s.clusters && Grown(s.clusters[name].nodes, d.nodes) && d.graveyard == s.clusters[name].graveyard
    ensures Remembers(s, WithCluster(s, name, d))
  {
    hide HoldsMore, Remembers;
    GrownHoldsMore(s.clusters[name], d);
    ReplacedRemembers(s, name, d);
  }

  // ---------- every step but the kill pass ----------

  lemma SameRemembers(s: Sched)
    ensures Remembers(s, s)
  {
  }

  lemma CommandsRemember(s: Sched, name: string, id: string)
    ensures name in s.clusters ==> Remembers(s, RestartCluster(s, name)) && Remembers(s, RemoveCluster(s, name))
    ensures Remembers(s, RemoveNode(s, name, id))
  {
    hide Remembers, WithCluster;
    if name in s.clusters {
      var c := s.clusters[name];
      GrownRemembers(s, name, c.RollingRestart());
      GrownRemembers(s, name, KillAll(c));
      if id in c.nodes {
        GrownRemembers(s, name, c.(nodes := c.nodes[id := c.nodes[id].KillNext()]));
      }
    }
    SameRemembers(s);
  }

  lemma MissingClusters(s: Sched, name: string)
    ensures name !in s.clusters ==> RestartCluster(s, name) == s && RemoveCluster(s, name) == s
    ensures name in s.clusters ==> CreateCluster(s, name) == s
  {
  }

  lemma CreationRemembers(s: Sched, name: string)
    ensures Remembers(s, CreateCluster(s, name))
  {
    hide Holds;
    var t := CreateCluster(s, name);
    forall e | Covered(s, e) ensures Covered(t, e) {
      if c :| c in s.clusters && Holds(s.clusters[c], e) {
        assert Holds(t.clusters[c], e);
      } else {
        var c :| c in s.graveyard && Holds(s.graveyard[c], e);
        assert Holds(t.graveyard[c], e);
      }
    }
  }

  lemma NewNodeRemembers(s: Sched, cfg: Config, name: string, uuid: string)
    requires WellFormed(s, cfg.framework)
    ensures Remembers(s, AddNode(s, cfg, name, uuid))
  {
    hide Remembers, WithCluster, IdsUpTo, InBand, CurrentId;
    if name in s.clusters {
      var c := s.clusters[name];
      CreateNodeIsFresh(c, cfg.framework, cfg.role, cfg.principal, cfg.cpus, cfg.mem, cfg.disk, uuid);
      GrownRemembers(s, name, CreateNode(c, cfg.framework, cfg.role, cfg.principal, cfg.cpus, cfg.mem, cfg.disk, uuid));
    } else {
      SameRemembers(s);
    }
  }

  lemma StatusGrows(c: Cluster, status: TaskStatus)
    requires c.HasNode(status.taskId)
    ensures Grown(c.nodes, HandleStatus(c, status).nodes) && HandleStatus(c, status).graveyard == c.graveyard
  {
  }

  lemma StatusRemembers(s: Sched, status: TaskStatus, order: seq<string>)
    requires IsOrder(order, s.clusters.Keys)
    ensures Remembers(s, StatusUpdate(s, status, order))
  {
    hide Remembers, WithCluster, FindCluster;
    match FindCluster(s, order, status.taskId)
    case None => SameRemembers(s);
    case Some(name) =>
      StatusGrows(s.clusters[name], status);
      GrownRemembers(s, name, HandleStatus(s.clusters[name], status));
  }

  lemma {:induction false} PassGrows(nodes: map<string, Node>, order: seq<string>, picks: seq<nat>,
                                     compatibilityMode: bool, h: Helper)
    requires |picks| == |order| && forall i :: 0 <= i < |order| ==> order[i] in nodes
    ensures Grown(nodes, ApplyNodes(nodes, order, picks, compatibilityMode, h).nodes)
  {
    hide VisitNode;
    if order != [] {
      var i := |order| - 1;
      PassGrows(nodes, order[..i], picks[..i], compatibilityMode, h);
      var q := ApplyNodes(nodes, order[..i], picks[..i], compatibilityMode, h);
      VisitOutcome(q.nodes[order[i]], q.helper, compatibilityMode, picks[i]);
    }
  }

  lemma OfferRemembers(s: Sched, plan: OfferPlan, compatibilityMode: bool, h: Helper)
    requires OfferPlanFits(s, plan)
    ensures Remembers(s, OfferCluster(s, plan, compatibilityMode, h).sched)
  {
    hide Remembers, WithCluster, ApplyNodes;
    var c := s.clusters[plan.name];
    PassGrows(c.nodes, plan.order, plan.picks, compatibilityMode, h);
    GrownRemembers(s, plan.name, c.(nodes := ApplyNodes(c.nodes, plan.order, plan.picks, compatibilityMode, h).nodes));
  }

  lemma CoveredByItsNode(n: Node, hist: seq<Event>, more: seq<Event>, i: nat)
    requires NodeOk(n, hist + more) && i < |more| && more[i].Prepared? && more[i].executor.uuid == n.uuid
    ensures Covers(n, more[i].executor)
  {
    assert (hist + more)[|hist| + i] == more[i];
    assert LaunchOf(hist + more, |hist| + i, n.uuid);
  }

  /** What an offer launches is in the record of the node it was launched for. */
  lemma LaunchesAreCovered(s: Sched, framework: string, hist: seq<Event>, plan: OfferPlan, compatibilityMode: bool,
                           h: Helper, i: nat)
    requires MemoryOk(s, framework, hist) && OfferPlanFits(s, plan)
    requires var a := OfferCluster(s, plan, compatibilityMode, h); i < |Launches(NewTasks(h, a.helper))|
    ensures var a := OfferCluster(s, plan, compatibilityMode, h);
            Covered(a.sched, Launches(NewTasks(h, a.helper))[i].executor)
  {
    hide MemoryOk, ApplyNodes, NodeOk, Separated, NewTasks;
    var c := s.clusters[plan.name];
    var p := ApplyNodes(c.nodes, plan.order, plan.picks, compatibilityMode, h);
    MemoryCluster(s, framework, hist, plan.name);
    ApplyKeepsHistory(c.nodes, plan.order, plan.picks, compatibilityMode, h, hist);
    var more := Launches(NewTasks(h, p.helper));
    assert OfSome(c.nodes, more[i]);
    var k :| k in c.nodes && Concerns(more[i], c.nodes[k]);
    CoveredByItsNode(p.nodes[k], hist, more, i);
    var d := OfferCluster(s, plan, compatibilityMode, h).sched.clusters[plan.name];
    assert d.nodes[k] == p.nodes[k];
    assert Holds(d, more[i].executor);
  }

  lemma StripHoldsTheSame(c: Cluster)
    ensures HoldsMore(c, StripCluster(c)) && HoldsMore(StripCluster(c), c)
  {
    GrownHoldsMore(c, StripCluster(c));
    GrownHoldsMore(StripCluster(c), c);
  }

  /** What is written covers what memory covers. */
  lemma StripCoversTheSame(s: Sched, e: Executor)
    ensures Covered(Strip(s), e) <==> Covered(s, e)
  {
    hide Holds, StripCluster;
    var t := Strip(s);
    forall c: Cluster ensures Holds(StripCluster(c), e) <==> Holds(c, e) {
      StripHoldsTheSame(c);
    }
    if c :| c in s.clusters && Holds(s.clusters[c], e) {
      assert Holds(t.clusters[c], e);
    }
    if c :| c in s.graveyard && Holds(s.graveyard[c], e) {
      assert Holds(t.graveyard[c], e);
    }
    if c :| c in t.clusters && Holds(t.clusters[c], e) {
      assert Holds(s.clusters[c], e);
    }
    if c :| c in t.graveyard && Holds(t.graveyard[c], e) {
      assert Holds(s.graveyard[c], e);
    }
  }

  lemma CrashRemembers(s: Sched)
    ensures Remembers(s, Strip(s))
  {
    hide Covered;
    forall e | Covered(s, e) ensures Covered(Strip(s), e) {
      StripCoversTheSame(s, e);
    }
  }

  // ---------- the kill pass ----------

  /** What a turn leaves of the state's memory: a cluster that retires takes the place of one of its name. */
  function Spared(s: Sched, plan: KillPlan): Sched
    requires plan.name in s.clusters
  {
    if Retires(s.clusters[plan.name]) then s.(graveyard := s.graveyard - {plan.name}) else s
  }

  lemma BuryHoldsTheSame(c: Cluster, ids: set<string>, e: Executor)
    requires ids <= c.nodes.Keys && c.nodes.Keys !! c.graveyard.Keys
    ensures Holds(Bury(c, ids), e) <==> Holds(c, e)
  {
    hide Covers;
    var b := Bury(c, ids);
    if k :| k in c.nodes && Covers(c.nodes[k], e) {
      assert if k in ids then b.graveyard[k] == c.nodes[k] else b.nodes[k] == c.nodes[k];
    }
    if k :| k in c.graveyard && Covers(c.graveyard[k], e) {
      assert b.graveyard[k] == c.graveyard[k];
    }
    if k :| k in b.nodes && Covers(b.nodes[k], e) {
      assert c.nodes[k] == b.nodes[k];
    }
    if k :| k in b.graveyard && Covers(b.graveyard[k], e) {
      assert if k in ids then b.graveyard[k] == c.nodes[k] else b.graveyard[k] == c.graveyard[k];
    }
  }

  lemma RestartKeepsRecords(c: Cluster, order: seq<string>)
    requires IsOrder(order, c.nodes.Keys)
    ensures var d := RestartPass(c, order).cluster; Grown(c.nodes, d.nodes) && Grown(d.nodes, c.nodes)
  {
  }

  lemma RestartHoldsTheSame(c: Cluster, order: seq<string>)
    requires IsOrder(order, c.nodes.Keys)
    ensures var d := RestartPass(c, order).cluster; HoldsMore(c, d) && HoldsMore(d, c)
  {
    hide IsOrder, AlreadyRestarted;
    var d := RestartPass(c, order).cluster;
    RestartPassOutline(c, order);
    RestartKeepsRecords(c, order);
    GrownHoldsMore(c, d);
    GrownHoldsMore(d, c);
  }

  lemma TurnMoves(s: Sched, spared: Sched, t: Sched, name: string, d: Cluster, e: Executor)
    requires name in s.clusters && (Holds(d, e) <==> Holds(s.clusters[name], e))
    requires spared.clusters == s.clusters
    requires (t.clusters == s.clusters[name := d] && t.graveyard == spared.graveyard)
          || (t.clusters == s.clusters[name := d] - {name} && name !in spared.graveyard
              && t.graveyard == spared.graveyard[name := d])
    ensures Covered(t, e) <==> Covered(spared, e)
  {
    hide Holds;
    if c :| c in spared.clusters && Holds(spared.clusters[c], e) {
      assert c in t.clusters ==> Holds(t.clusters[c], e);
      assert c !in t.clusters ==> Holds(t.graveyard[name], e);
    }
    if c :| c in spared.graveyard && Holds(spared.graveyard[c], e) {
      assert Holds(t.graveyard[c], e);
    }
    if c :| c in t.clusters && Holds(t.clusters[c], e) {
      assert Holds(spared.clusters[c], e);
    }
    if c :| c in t.graveyard && Holds(t.graveyard[c], e) {
      assert c != name || name in spared.graveyard ==> Holds(spared.graveyard[c], e);
      assert c == name && name !in spared.graveyard ==> Holds(spared.clusters[name], e);
    }
  }

  /** After a turn the state holds exactly what it held, but for the retired cluster of that name. */
  lemma TurnRemembersExactly(s: Sched, plan: KillPlan, e: Executor)
    requires KillPlanFits(s, plan) && Tidy(s)
    ensures Covered(KillCluster(s, plan).sched, e) <==> Covered(Spared(s, plan), e)
  {
    hide RestartPass, StopNodes, StopNode, IsOrder, Holds;
    var c := s.clusters[plan.name];
    RemovedAreLive(c);
    var b := Bury(c, NodesToRemove(c));
    var d := RestartPass(b, plan.scanOrder).cluster;
    BuryHoldsTheSame(c, NodesToRemove(c), e);
    RestartHoldsTheSame(b, plan.scanOrder);
    assert Holds(d, e) <==> Holds(c, e);
    RetiresWhenEmpty(c);
    hide NodesToRemove, Bury;
    TurnMoves(s, Spared(s, plan), KillCluster(s, plan).sched, plan.name, d, e);
  }

  // ---------- what is forgotten is forgotten for good ----------

  ghost predicate AllCovered(s: Sched, h: seq<Event>) {
    forall i :: 0 <= i < |h| && h[i].Prepared? ==> Covered(s, h[i].executor)
  }

  /** Some launch has left no record of its node. */
  ghost predicate Lost(s: Sched, h: seq<Event>) {
    exists i :: 0 <= i < |h| && h[i].Prepared? && !HasUuid(s, h[i].executor.uuid)
  }

  lemma HolderHasPlace(c: Cluster, e: Executor) returns (k: string)
    requires Holds(c, e) && c.nodes.Keys !! c.graveyard.Keys
    ensures k in AllNodes(c) && Covers(AllNodes(c)[k], e)
  {
    if j :| j in c.nodes && Covers(c.nodes[j], e) {
      k := j;
    } else {
      k :| k in c.graveyard && Covers(c.graveyard[k], e);
    }
  }

  lemma CoveredHasUuid(s: Sched, framework: string, e: Executor)
    requires WellFormed(s, framework) && Covered(s, e)
    ensures HasUuid(s, e.uuid)
  {
    hide Holds, AllNodes, InBand, CurrentId;
    if c :| c in s.clusters && Holds(s.clusters[c], e) {
      var k := HolderHasPlace(s.clusters[c], e);
      assert At(s, Place(false, c, k)) && RecordAt(s, Place(false, c, k)).uuid == e.uuid;
    } else {
      var c :| c in s.graveyard && Holds(s.graveyard[c], e);
      var k := HolderHasPlace(s.graveyard[c], e);
      assert At(s, Place(true, c, k)) && RecordAt(s, Place(true, c, k)).uuid == e.uuid;
    }
  }

  lemma LostIsUncovered(s: Sched, framework: string, h: seq<Event>)
    requires WellFormed(s, framework) && Lost(s, h)
    ensures !AllCovered(s, h)
  {
    hide WellFormed, Covered, HasUuid;
    var i :| 0 <= i < |h| && h[i].Prepared? && !HasUuid(s, h[i].executor.uuid);
    if Covered(s, h[i].executor) {
      CoveredHasUuid(s, framework, h[i].executor);
    }
  }

  /** No later step makes up for a lost record: new nodes have new uuids. */
  lemma LostForGood(s: Sys, cfg: Config, step: Step)
    requires Inv(s, cfg) && PlacesOk(s) && Enabled(s, step) && Lost(s.mem, s.history)
    ensures Lost(Do(s, cfg, step).mem, Do(s, cfg, step).history)
  {
    hide Do, Enabled, PlacesOk, HasUuid, MemoryOk, Strip, PreparedIn;
    var t := Do(s, cfg, step);
    StepPlaces(s, cfg, step);
    NewsIsAppended(s, cfg, step);
    var i :| 0 <= i < |s.history| && s.history[i].Prepared? && !HasUuid(s.mem, s.history[i].executor.uuid);
    assert Known(s.history[i], s.uuids, cfg.framework);
    assert t.history[i] == s.history[i];
  }

  // ---------- when a turn forgets ----------

  predicate EverLaunched(c: Cluster) {
    exists k :: k in c.graveyard && c.graveyard[k].generation > 0
  }

  /** The turn retires a cluster over an older one of its name that had launched a node. */
  predicate Forgets(s: Sched, plan: KillPlan)
    requires plan.name in s.clusters
  {
    Retires(s.clusters[plan.name]) && plan.name in s.graveyard && EverLaunched(s.graveyard[plan.name])
  }

  lemma SparedCovers(s: Sched, plan: KillPlan, e: Executor)
    requires plan.name in s.clusters && !Forgets(s, plan) && GravesAtRest(s)
    requires Covered(s, e) && e.generation > 0
    ensures Covered(Spared(s, plan), e)
  {
    hide Retires, RestingGraves;
    var u := Spared(s, plan);
    if c :| c in s.clusters && Holds(s.clusters[c], e) {
      assert Holds(u.clusters[c], e);
    } else {
      var c :| c in s.graveyard && Holds(s.graveyard[c], e);
      assert c in u.graveyard && Holds(u.graveyard[c], e);
    }
  }

  lemma TurnRemembers(s: Sched, framework: string, plan: KillPlan, h: seq<Event>)
    requires MemoryOk(s, framework, h) && KillPlanFits(s, plan) && plan.name in s.clusters && !Forgets(s, plan)
    requires AllCovered(s, h) && PastZero(h)
    ensures AllCovered(KillCluster(s, plan).sched, h)
  {
    hide KillCluster, KillPlanFits, MemoryOk, WellFormed, GravesAtRest, Covered, Forgets, Tidy;
    MemoryIsWellFormed(s, framework, h);
    WellFormedIsTidy(s, framework);
    forall i | 0 <= i < |h| && h[i].Prepared? ensures Covered(KillCluster(s, plan).sched, h[i].executor) {
      SparedCovers(s, plan, h[i].executor);
      TurnRemembersExactly(s, plan, h[i].executor);
    }
  }

  lemma RetiredPlace(s: Sched, name: string, k: string)
    requires GravesAtRest(s) && name in s.graveyard && k in s.graveyard[name].graveyard
    ensures At(s, Place(true, name, k)) && RecordAt(s, Place(true, name, k)) == s.graveyard[name].graveyard[k]
  {
  }

  lemma TurnLoses(s: Sched, framework: string, plan: KillPlan, h: seq<Event>)
    requires MemoryOk(s, framework, h) && KillPlanFits(s, plan) && plan.name in s.clusters && Forgets(s, plan)
    requires Unique(s) && AllLaunched(s, h)
    ensures Lost(KillCluster(s, plan).sched, h)
  {
    hide KillCluster, KillPlanFits, MemoryOk, WellFormed, GravesAtRest, Retires, Tidy, At, RecordAt;
    MemoryIsWellFormed(s, framework, h);
    WellFormedIsTidy(s, framework);
    var t := KillCluster(s, plan).sched;
    var k :| k in s.graveyard[plan.name].graveyard && s.graveyard[plan.name].graveyard[k].generation > 0;
    var lost := Place(true, plan.name, k);
    RetiredPlace(s, plan.name, k);
    var u := RecordAt(s, lost).uuid;
    if HasUuid(t, u) {
      var p :| At(t, p) && RecordAt(t, p).uuid == u;
      TurnOrigin(s, plan, p);
      assert false;
    }
    var i :| LaunchOf(h, i, u);
  }

  predicate PassForgetsNone(s: Sched, plans: seq<KillPlan>)
    requires KillPlansFit(s, plans)
    decreases |plans|
  {
    plans != [] ==> !Forgets(s, plans[0]) && PassForgetsNone(KillCluster(s, plans[0]).sched, plans[1..])
  }

  lemma {:induction false} PassCovers(s: Sched, framework: string, plans: seq<KillPlan>, h: seq<Event>)
    requires MemoryOk(s, framework, h) && KillPlansFit(s, plans) && PastZero(h)
    requires Unique(s) && AllLaunched(s, h) && AllCovered(s, h)
    ensures var t := KillTasks(s, plans).sched;
            if PassForgetsNone(s, plans) then AllCovered(t, h) else Lost(t, h)
    decreases |plans|
  {
    hide KillCluster, KillPlanFits, MemoryOk, Forgets, Unique, AllLaunched, AllCovered, PastZero, HasUuid, WellFormed,
         GravesAtRest, Tidy;
    if plans != [] {
      var plan, a := plans[0], KillCluster(s, plans[0]).sched;
      PlanNames(s, plan);
      MemoryIsWellFormed(s, framework, h);
      WellFormedIsTidy(s, framework);
      TurnKeepsTidy(s, plan);
      TurnKeepsPlaces(s, plan, h);
      assert h + [] == h;
      KillClusterKeeps(s, framework, h, plan);
      if Forgets(s, plan) {
        TurnLoses(s, framework, plan, h);
        PassKeepsPlaces(a, plans[1..], h);
      } else {
        TurnRemembers(s, framework, plan, h);
        PassCovers(a, framework, plans[1..], h);
      }
    }
  }

  // ---------- runs ----------

  /** No turn of a kill pass in the run forgets. */
  predicate ForgetsNone(s: Sys, cfg: Config, steps: seq<Step>)
    requires IsRun(s, cfg, steps)
    decreases |steps|
  {
    steps != [] ==>
      && (steps[0].KillStep? ==> PassForgetsNone(s.mem, steps[0].plans))
      && ForgetsNone(Do(s, cfg, steps[0]), cfg, steps[1..])
  }

  lemma StillCovered(s: Sched, t: Sched, h: seq<Event>, more: seq<Event>)
    requires AllCovered(s, h) && Remembers(s, t)
    requires forall i :: 0 <= i < |more| && more[i].Prepared? ==> Covered(t, more[i].executor)
    ensures AllCovered(t, h + more)
  {
    hide Covered;
    forall i | 0 <= i < |h + more| && (h + more)[i].Prepared? ensures Covered(t, (h + more)[i].executor) {
      assert (h + more)[i] == if i < |h| then h[i] else more[i - |h|];
    }
  }

  lemma StepRemembers(s: Sys, cfg: Config, step: Step)
    requires Inv(s, cfg) && Enabled(s, step) && !step.KillStep?
    ensures Remembers(s.mem, Do(s, cfg, step).mem)
  {
    hide MemoryOk, WellFormed, Strip, Remembers, OfferCluster, IsOrder, StatusUpdate, FindCluster, AddNode, CreateCluster,
         RestartCluster, RemoveCluster, RemoveNode, Ends, Launches, Executors, UuidsKnown;
    MemoryIsWellFormed(s.mem, cfg.framework, s.history);
    SameRemembers(s.mem);
    match step
    case CreateClusterStep(name) => CreationRemembers(s.mem, name);
    case RestartClusterStep(name) => CommandsRemember(s.mem, name, ""); MissingClusters(s.mem, name);
    case RemoveClusterStep(name) => CommandsRemember(s.mem, name, ""); MissingClusters(s.mem, name);
    case RemoveNodeStep(name, id) => CommandsRemember(s.mem, name, id);
    case CreateNodeStep(name, uuid) => NewNodeRemembers(s.mem, cfg, name, uuid);
    case OfferStep(plan, compatibilityMode, h) => OfferRemembers(s.mem, plan, compatibilityMode, h);
    case SendStep(_) =>
    case StatusStep(status, order) => StatusRemembers(s.mem, status, order);
    case CrashStep => CrashRemembers(s.mem);
  }

  lemma NewsIsCovered(s: Sys, cfg: Config, step: Step)
    requires Inv(s, cfg) && Enabled(s, step)
    ensures forall i :: 0 <= i < |News(s, step)| && News(s, step)[i].Prepared? ==>
              Covered(Do(s, cfg, step).mem, News(s, step)[i].executor)
  {
    hide MemoryOk, Strip, OfferCluster, IsOrder, FindCluster, Covered, Ends, Launches, NewTasks, Executors;
    match step
    case OfferStep(plan, compatibilityMode, h) =>
      var more := News(s, step);
      forall i | 0 <= i < |more| && more[i].Prepared? ensures Covered(Do(s, cfg, step).mem, more[i].executor) {
        LaunchesAreCovered(s.mem, cfg.framework, s.history, plan, compatibilityMode, h, i);
      }
    case StatusStep(status, order) => EndsAreNoLaunches(s.mem, status, order);
    case _ =>
  }

  lemma StepCovers(s: Sys, cfg: Config, step: Step)
    requires Inv(s, cfg) && PlacesOk(s) && Enabled(s, step) && AllCovered(s.mem, s.history)
    ensures var t := Do(s, cfg, step);
            if step.KillStep? && !PassForgetsNone(s.mem, step.plans) then Lost(t.mem, t.history)
            else AllCovered(t.mem, t.history)
  {
    hide MemoryOk, Strip, Remembers, KillTasks, KillPlansFit, OfferCluster, IsOrder, StatusUpdate, FindCluster, Covered,
         AddNode, CreateCluster, RestartCluster, RemoveCluster, RemoveNode, Executors, UuidsKnown, PassForgetsNone,
         AllCovered, Launches, NewTasks, Ends, News, Lost, HasUuid, Unique, AllLaunched, PastZero;
    match step
    case KillStep(plans) => PassCovers(s.mem, cfg.framework, plans, s.history);
    case _ =>
      StepRemembers(s, cfg, step);
      NewsIsAppended(s, cfg, step);
      NewsIsCovered(s, cfg, step);
      StillCovered(s.mem, Do(s, cfg, step).mem, s.history, News(s, step));
  }

  lemma {:induction false} LostAtTheEnd(s: Sys, cfg: Config, steps: seq<Step>)
    requires Inv(s, cfg) && PlacesOk(s) && IsRun(s, cfg, steps) && Lost(s.mem, s.history)
    ensures Lost(Exec(s, cfg, steps).mem, Exec(s, cfg, steps).history)
    decreases |steps|
  {
    hide Inv, Do, Enabled, PlacesOk, Lost;
    if steps != [] {
      StepKeeps(s, cfg, steps[0]);
      StepPlaces(s, cfg, steps[0]);
      LostForGood(s, cfg, steps[0]);
      LostAtTheEnd(Do(s, cfg, steps[0]), cfg, steps[1..]);
    }
  }

  lemma PlansFit(s: Sys, step: Step)
    requires Enabled(s, step)
    ensures step.KillStep? ==> KillPlansFit(s.mem, step.plans)
  {
  }

  lemma {:induction false} RunCovers(s: Sys, cfg: Config, steps: seq<Step>)
    requires Inv(s, cfg) && PlacesOk(s) && IsRun(s, cfg, steps) && AllCovered(s.mem, s.history)
    ensures var t := Exec(s, cfg, steps);
            if ForgetsNone(s, cfg, steps) then AllCovered(t.mem, t.history) else Lost(t.mem, t.history)
    decreases |steps|
  {
    hide Inv, Do, Enabled, AllCovered, PassForgetsNone, PlacesOk, Lost;
    if steps != [] {
      var t := Do(s, cfg, steps[0]);
      StepKeeps(s, cfg, steps[0]);
      StepPlaces(s, cfg, steps[0]);
      StepCovers(s, cfg, steps[0]);
      PlansFit(s, steps[0]);
      if steps[0].KillStep? && !PassForgetsNone(s.mem, steps[0].plans) {
        LostAtTheEnd(t, cfg, steps[1..]);
      } else {
        RunCovers(t, cfg, steps[1..]);
      }
    }
  }

  /** In every run, crashes included: every launch ever prepared is in a record of memory, and of the snapshot, live, dead
      or retired, with its uuid and a generation that has reached its own, if and only if no turn of a kill pass retired a
      cluster over an older one of its name that had launched a node. */
  lemma SnapshotRemembersLaunches(cfg: Config, steps: seq<Step>)
    requires IsRun(INITIAL, cfg, steps)
    ensures var s := Exec(INITIAL, cfg, steps);
            && (AllCovered(s.mem, s.history) <==> ForgetsNone(INITIAL, cfg, steps))
            && (AllCovered(s.snap, s.history) <==> ForgetsNone(INITIAL, cfg, steps))
  {
    hide IsRun, Exec, ForgetsNone, Covered, MemoryOk, UuidsKnown, Strip, Lost, PlacesOk, WellFormed, GravesAtRest;
    var s := Exec(INITIAL, cfg, steps);
    InitialInv(cfg);
    NoPlacesYet();
    RunCovers(INITIAL, cfg, steps);
    RunKeeps(INITIAL, cfg, steps);
    MemoryIsWellFormed(s.mem, cfg.framework, s.history);
    if Lost(s.mem, s.history) {
      LostIsUncovered(s.mem, cfg.framework, s.history);
    }
    forall e { StripCoversTheSame(s.mem, e); }
  }

  const NO_ORDER: seq<string> := []

  /** What is left of a cluster that was created and removed. */
  function Husk(name: string): Cluster {
    KillAll(NewCluster(name))
  }

  lemma HuskHoldsNothing(name: string)
    ensures Husk(name).nodes == map[] && Husk(name).graveyard == map[] && Husk(name).isKilled && !Husk(name).isRestarting
    ensures Husk(name).name == name && forall e :: !Holds(Husk(name), e)
  {
  }

  lemma HuskAddsNothing(s: Sched, name: string, e: Executor)
    ensures Covered(Sched(s.clusters, s.graveyard[name := Husk(name)]), e) <==>
            Covered(s.(graveyard := s.graveyard - {name}), e)
  {
    hide Husk, Holds;
    HuskHoldsNothing(name);
    var t, u := Sched(s.clusters, s.graveyard[name := Husk(name)]), s.(graveyard := s.graveyard - {name});
    if c :| c in t.graveyard && Holds(t.graveyard[c], e) {
      assert Holds(u.graveyard[c], e);
    }
    if c :| c in u.graveyard && Holds(u.graveyard[c], e) {
      assert Holds(t.graveyard[c], e);
    }
  }

  lemma HuskRetires(s: Sched, name: string)
    requires name in s.clusters && s.clusters[name] == Husk(name)
    ensures var plan := KillPlan(name, NO_ORDER, NO_ORDER, {});
            && KillPlanFits(s, plan) && Retires(s.clusters[name])
            && KillCluster(s, plan) ==
               Killed(Sched(s.clusters - {name}, s.graveyard[name := Husk(name)]), [], true)
  {
    hide Husk;
    HuskHoldsNothing(name);
    var c := Husk(name);
    assert NodesToKill(c) == {} && NodesToRemove(c) == {};
    var b := Bury(c, {});
    assert b.nodes == map[] && b.graveyard == map[];
    assert b == c;
    assert s.clusters[name := c] == s.clusters;
  }

  lemma HuskPass(s: Sched, name: string)
    requires name in s.clusters && s.clusters[name] == Husk(name)
    ensures var plans := [KillPlan(name, NO_ORDER, NO_ORDER, {})];
            && KillPlansFit(s, plans)
            && KillTasks(s, plans) == Killed(Sched(s.clusters - {name}, s.graveyard[name := Husk(name)]), [], true)
            && (PassForgetsNone(s, plans) <==> !(name in s.graveyard && EverLaunched(s.graveyard[name])))
  {
    hide Husk, KillCluster, KillPlanFits, Retires, EverLaunched;
    HuskRetires(s, name);
    var plans := [KillPlan(name, NO_ORDER, NO_ORDER, {})];
    assert plans[1..] == [];
  }

  lemma NoStep(s: Sys, cfg: Config)
    ensures IsRun(s, cfg, []) && Exec(s, cfg, []) == s && ForgetsNone(s, cfg, [])
  {
  }

  lemma OneStep(s: Sys, cfg: Config, step: Step, rest: seq<Step>)
    requires Enabled(s, step) && IsRun(Do(s, cfg, step), cfg, rest)
    ensures IsRun(s, cfg, [step] + rest) && Exec(s, cfg, [step] + rest) == Exec(Do(s, cfg, step), cfg, rest)
    ensures ForgetsNone(s, cfg, [step] + rest) <==>
            (step.KillStep? ==> PassForgetsNone(s.mem, step.plans)) && ForgetsNone(Do(s, cfg, step), cfg, rest)
  {
    hide Do, PassForgetsNone;
    assert ([step] + rest)[1..] == rest;
  }

  lemma CreatedAndRemoved(s: Sched, name: string)
    requires name !in s.clusters
    ensures var t := RemoveCluster(CreateCluster(s, name), name);
            && name in CreateCluster(s, name).clusters
            && t == WithCluster(s, name, Husk(name)) && t.clusters - {name} == s.clusters
  {
  }

  /** Create a cluster, remove it, and let a kill pass retire it. */
  function Reuse(name: string): seq<Step> {
    [CreateClusterStep(name), RemoveClusterStep(name), KillStep([KillPlan(name, NO_ORDER, NO_ORDER, {})])]
  }

  lemma ReuseRuns(s: Sys, cfg: Config, name: string)
    requires name !in s.mem.clusters && name in s.mem.graveyard
    ensures var steps := Reuse(name);
            && IsRun(s, cfg, steps)
            && (ForgetsNone(s, cfg, steps) <==> !EverLaunched(s.mem.graveyard[name]))
            && var t := Exec(s, cfg, steps);
               && t.mem == Sched(s.mem.clusters, s.mem.graveyard[name := Husk(name)]) && t.snap == Strip(t.mem)
               && t.history == s.history
  {
    hide Husk, KillTasks, KillPlansFit, Strip, PassForgetsNone, EverLaunched, IsRun, Exec, ForgetsNone;
    var kill := KillStep([KillPlan(name, NO_ORDER, NO_ORDER, {})]);
    var create, remove := CreateClusterStep(name), RemoveClusterStep(name);
    var s1 := Do(s, cfg, create);
    var s2 := Do(s1, cfg, remove);
    CreatedAndRemoved(s.mem, name);
    HuskPass(s2.mem, name);
    assert [kill] + [] == [kill] && [remove] + [kill] == [remove, kill];
    assert [create] + [remove, kill] == [create, remove, kill];
    NoStep(Do(s2, cfg, kill), cfg);
    OneStep(s2, cfg, kill, []);
    OneStep(s1, cfg, remove, [kill]);
    OneStep(s, cfg, create, [remove, kill]);
  }

  lemma UniqueTwo(s: Sched, p: Place, q: Place)
    requires Unique(s) && At(s, p) && At(s, q) && RecordAt(s, p).uuid == RecordAt(s, q).uuid
    ensures p == q
  {
  }

  lemma RetiredHolder(s: Sched, name: string, e: Executor) returns (k: string)
    requires GravesAtRest(s) && name in s.graveyard && Holds(s.graveyard[name], e)
    ensures k in s.graveyard[name].graveyard && s.graveyard[name].graveyard[k].uuid == e.uuid
  {
    hide RestingGraves;
    k :| k in s.graveyard[name].graveyard && Covers(s.graveyard[name].graveyard[k], e);
  }

  lemma WithoutRetired(s: Sched, framework: string, name: string)
    ensures var u := s.(graveyard := s.graveyard - {name});
            && (WellFormed(s, framework) ==> WellFormed(u, framework))
            && forall p :: At(u, p) ==> At(s, p) && RecordAt(s, p) == RecordAt(u, p) && !(p.retired && p.name == name)
  {
    hide IdsExact, InBand, AllNodes;
  }

  /** A record that a retired cluster holds is held nowhere else. */
  lemma HeldNowhereElse(s: Sched, framework: string, name: string, e: Executor)
    requires WellFormed(s, framework) && GravesAtRest(s) && Unique(s)
    requires name in s.graveyard && Holds(s.graveyard[name], e)
    ensures !Covered(s.(graveyard := s.graveyard - {name}), e)
  {
    hide Unique, WellFormed, GravesAtRest, Holds, Covered, At, RecordAt;
    var k := RetiredHolder(s, name, e);
    RetiredPlace(s, name, k);
    var u := s.(graveyard := s.graveyard - {name});
    WithoutRetired(s, framework, name);
    if Covered(u, e) {
      CoveredHasUuid(u, framework, e);
      var p :| At(u, p) && RecordAt(u, p).uuid == e.uuid;
      UniqueTwo(s, p, Place(true, name, k));
      assert false;
    }
  }

  lemma CoveredSplit(s: Sched, name: string, e: Executor)
    requires name in s.graveyard
    ensures Covered(s, e) <==> Covered(s.(graveyard := s.graveyard - {name}), e) || Holds(s.graveyard[name], e)
  {
    hide Holds;
    var u := s.(graveyard := s.graveyard - {name});
    if c :| c in s.graveyard && Holds(s.graveyard[c], e) {
      assert c != name ==> Holds(u.graveyard[c], e);
    }
    if c :| c in u.graveyard && Holds(u.graveyard[c], e) {
      assert Holds(s.graveyard[c], e);
    }
  }

  /** In every reachable state with a retired cluster whose name is free, using the name once more for an empty cluster
      leaves memory and snapshot with what the other clusters cover; so every launch the retired one held, and no other,
      is forgotten. */
  lemma NameReuseForgets(cfg: Config, before: seq<Step>, name: string, e: Executor)
    requires IsRun(INITIAL, cfg, before)
    requires var s := Exec(INITIAL, cfg, before).mem; name !in s.clusters && name in s.graveyard
    ensures IsRun(Exec(INITIAL, cfg, before), cfg, Reuse(name))
    ensures var s := Exec(INITIAL, cfg, before);
            var t := Exec(s, cfg, Reuse(name));
            && t.history == s.history
            && (ForgetsNone(s, cfg, Reuse(name)) <==> !EverLaunched(s.mem.graveyard[name]))
            && (Covered(t.mem, e) <==> Covered(s.mem, e) && !Holds(s.mem.graveyard[name], e))
            && (Covered(t.snap, e) <==> Covered(s.snap, e) && !Holds(s.mem.graveyard[name], e))
  {
    hide IsRun, Exec, ForgetsNone, Covered, Holds, MemoryOk, UuidsKnown, Strip, WellFormed, GravesAtRest, EverLaunched,
         Unique, AllLaunched, HasUuid, Husk, Reuse;
    var s := Exec(INITIAL, cfg, before);
    InitialInv(cfg);
    NoPlacesYet();
    RunPlaces(INITIAL, cfg, before);
    MemoryIsWellFormed(s.mem, cfg.framework, s.history);
    ReuseRuns(s, cfg, name);
    HuskAddsNothing(s.mem, name, e);
    CoveredSplit(s.mem, name, e);
    if Holds(s.mem.graveyard[name], e) {
      HeldNowhereElse(s.mem, cfg.framework, name, e);
    }
    StripCoversTheSame(s.mem, e);
    StripCoversTheSame(Exec(s, cfg, Reuse(name)).mem, e);
  }
}
