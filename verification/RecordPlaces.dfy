/** Where the scheduler keeps its records: a node's record is live or dead in a cluster, or in a retired cluster, and in
    every run no two records have one uuid. */
module RecordPlaces {
  import opened NodeIds
  import opened Offers
  import opened Nodes
  import opened Clusters
  import opened Scheduler
  import opened SchedulerRuns
  import opened KillPass

  /** The records of a cluster, dead or alive. */
  function AllNodes(c: Cluster): map<string, Node> {
    c.graveyard + c.nodes
  }

  datatype Place = Place(retired: bool, name: string, key: string)

  predicate At(s: Sched, p: Place) {
    if p.retired then p.name in s.graveyard && p.key in AllNodes(s.graveyard[p.name])
    else p.name in s.clusters && p.key in AllNodes(s.clusters[p.name])
  }

  function RecordAt(s: Sched, p: Place): Node
    requires At(s, p)
  {
    if p.retired then AllNodes(s.graveyard[p.name])[p.key] else AllNodes(s.clusters[p.name])[p.key]
  }

  ghost predicate HasUuid(s: Sched, uuid: string) {
    exists p :: At(s, p) && RecordAt(s, p).uuid == uuid
  }

  ghost predicate Unique(s: Sched) {
    forall p, q :: At(s, p) && At(s, q) && RecordAt(s, p).uuid == RecordAt(s, q).uuid ==> p == q
  }

  ghost predicate Launched(h: seq<Event>, uuid: string) {
    exists i :: LaunchOf(h, i, uuid)
  }

  /** A record past generation 0 is of a node the history launched. */
  ghost predicate AllLaunched(s: Sched, h: seq<Event>) {
    forall p :: At(s, p) && RecordAt(s, p).generation > 0 ==> Launched(h, RecordAt(s, p).uuid)
  }

  /** Generations are counted from 1. */
  predicate PastZero(h: seq<Event>) {
    forall i :: 0 <= i < |h| && h[i].Prepared? ==> h[i].executor.generation > 0
  }

  ghost predicate PlacesOk(s: Sys) {
    && Unique(s.mem)
    && (forall u :: HasUuid(s.mem, u) ==> u in s.uuids)
    && AllLaunched(s.mem, s.history)
    && PastZero(s.history)
  }

  /** What a step without a new node keeps. */
  ghost predicate KeepsPlaces(s: Sched, t: Sched, h: seq<Event>, more: seq<Event>) {
    && (Unique(s) ==> Unique(t))
    && (forall u :: HasUuid(t, u) ==> HasUuid(s, u))
    && (AllLaunched(s, h) ==> AllLaunched(t, h + more))
  }

  // ---------- records that stay in their places ----------

  /** The record of the same node, in a later generation only if a launch says so. */
  ghost predicate ComesFrom(n: Node, m: Node, more: seq<Event>) {
    m.uuid == n.uuid && (m.generation == n.generation || Launched(more, m.uuid))
  }

  ghost predicate AllComeFrom(before: map<string, Node>, after: map<string, Node>, more: seq<Event>) {
    forall k :: k in after ==> k in before && ComesFrom(before[k], after[k], more)
  }

  ghost predicate StayInPlace(s: Sched, t: Sched, more: seq<Event>) {
    forall p :: At(t, p) ==> At(s, p) && ComesFrom(RecordAt(s, p), RecordAt(t, p), more)
  }

  lemma MoreLaunched(h: seq<Event>, more: seq<Event>, uuid: string)
    requires Launched(h, uuid) || Launched(more, uuid)
    ensures Launched(h + more, uuid)
  {
    if i :| LaunchOf(h, i, uuid) {
      assert LaunchOf(h + more, i, uuid);
    } else {
      var i :| LaunchOf(more, i, uuid);
      assert LaunchOf(h + more, |h| + i, uuid);
    }
  }

  lemma StayingKeepsPlaces(s: Sched, t: Sched, h: seq<Event>, more: seq<Event>)
    requires StayInPlace(s, t, more)
    ensures KeepsPlaces(s, t, h, more)
  {
    hide At, RecordAt, Launched;
    forall u | HasUuid(t, u) ensures HasUuid(s, u) {
      var p :| At(t, p) && RecordAt(t, p).uuid == u;
      assert At(s, p) && RecordAt(s, p).uuid == u;
    }
    forall p | AllLaunched(s, h) && At(t, p) && RecordAt(t, p).generation > 0
      ensures Launched(h + more, RecordAt(t, p).uuid)
    {
      MoreLaunched(h, more, RecordAt(t, p).uuid);
    }
  }

  lemma OneComesFrom(s: Sched, name: string, d: Cluster, more: seq<Event>)
    requires name in s.clusters && AllComeFrom(AllNodes(s.clusters[name]), AllNodes(d), more)
    ensures StayInPlace(s, WithCluster(s, name, d), more)
  {
    hide AllNodes, Launched;
  }

  lemma LiveComeFrom(c: Cluster, d: Cluster, more: seq<Event>)
    requires d.graveyard == c.graveyard && d.nodes.Keys == c.nodes.Keys && AllComeFrom(c.nodes, d.nodes, more)
    ensures AllComeFrom(AllNodes(c), AllNodes(d), more)
  {
    hide Launched;
  }

  /** The form most steps take: the live nodes of one cluster change. */
  lemma LiveChangeKeepsPlaces(s: Sched, name: string, d: Cluster, h: seq<Event>, more: seq<Event>)
    requires name in s.clusters && d.graveyard == s.clusters[name].graveyard
    requires d.nodes.Keys == s.clusters[name].nodes.Keys && AllComeFrom(s.clusters[name].nodes, d.nodes, more)
    ensures KeepsPlaces(s, WithCluster(s, name, d), h, more)
  {
    hide WithCluster, AllNodes, AllComeFrom, StayInPlace, KeepsPlaces;
    LiveComeFrom(s.clusters[name], d, more);
    OneComesFrom(s, name, d, more);
    StayingKeepsPlaces(s, WithCluster(s, name, d), h, more);
  }

  lemma SameKeepsPlaces(s: Sched, h: seq<Event>)
    ensures KeepsPlaces(s, s, h, [])
  {
    assert h + [] == h;
  }

  // ---------- commands, updates and crashes ----------

  lemma CreateClusterKeepsPlaces(s: Sched, name: string, h: seq<Event>)
    ensures KeepsPlaces(s, CreateCluster(s, name), h, [])
  {
    StayingKeepsPlaces(s, CreateCluster(s, name), h, []);
  }

  lemma CommandsKeepPlaces(s: Sched, name: string, id: string, h: seq<Event>)
    ensures KeepsPlaces(s, RestartCluster(s, name), h, []) && KeepsPlaces(s, RemoveCluster(s, name), h, [])
    ensures KeepsPlaces(s, RemoveNode(s, name, id), h, [])
  {
    hide KeepsPlaces, WithCluster;
    SameKeepsPlaces(s, h);
    if name in s.clusters {
      var c := s.clusters[name];
      LiveChangeKeepsPlaces(s, name, c.RollingRestart(), h, []);
      LiveChangeKeepsPlaces(s, name, KillAll(c), h, []);
      if id in c.nodes {
        LiveChangeKeepsPlaces(s, name, c.(nodes := c.nodes[id := c.nodes[id].KillNext()]), h, []);
      }
    }
  }

  lemma StatusKeepsPlaces(s: Sched, status: TaskStatus, order: seq<string>, h: seq<Event>, more: seq<Event>)
    requires IsOrder(order, s.clusters.Keys)
    ensures KeepsPlaces(s, StatusUpdate(s, status, order), h, more)
  {
    hide KeepsPlaces, WithCluster, FindCluster;
    match FindCluster(s, order, status.taskId)
    case None =>
      assert StayInPlace(s, s, more);
      StayingKeepsPlaces(s, s, h, more);
    case Some(name) =>
      LiveChangeKeepsPlaces(s, name, HandleStatus(s.clusters[name], status), h, more);
  }

  lemma CrashKeepsPlaces(s: Sched, h: seq<Event>)
    ensures KeepsPlaces(s, Strip(s), h, [])
  {
    hide KeepsPlaces;
    StayingKeepsPlaces(s, Strip(s), h, []);
  }

  // ---------- offers ----------

  lemma LaunchedNow(before: Helper, after: Helper, n: Node)
    requires NewTasks(before, after) != [] && NewTasks(before, after)[0].executor == ExecutorOf(n)
    ensures Launched(Launches(NewTasks(before, after)), n.uuid)
  {
    assert LaunchOf(Launches(NewTasks(before, after)), 0, n.uuid);
  }

  lemma VisitComesFrom(n: Node, h: Helper, compatibilityMode: bool, pick: nat)
    ensures var v := VisitNode(n, h, compatibilityMode, pick);
            && h.tasks <= v.helper.tasks
            && ComesFrom(n, v.node, Launches(NewTasks(h, v.helper)))
            && PastZero(Launches(NewTasks(h, v.helper)))
  {
    hide VisitNode;
    VisitOutcome(n, h, compatibilityMode, pick);
    var v := VisitNode(n, h, compatibilityMode, pick);
    if v.helper.tasks != h.tasks {
      LaunchedNow(h, v.helper, v.node);
    }
  }

  lemma ComesFromBoth(n: Node, m: Node, o: Node, front: seq<Event>, last: seq<Event>)
    requires ComesFrom(n, m, front) && ComesFrom(m, o, last)
    ensures ComesFrom(n, o, front + last)
  {
    hide Launched;
    if Launched(front, n.uuid) || Launched(last, n.uuid) {
      MoreLaunched(front, last, n.uuid);
    }
  }

  lemma Unchanged(n: Node, more: seq<Event>)
    ensures ComesFrom(n, n, more)
  {
  }

  lemma NothingLaunched(nodes: map<string, Node>, h: Helper)
    ensures Launches(NewTasks(h, h)) == [] && AllComeFrom(nodes, nodes, [])
  {
  }

  lemma {:induction false} PassComesFrom(nodes: map<string, Node>, order: seq<string>, picks: seq<nat>,
                                         compatibilityMode: bool, h: Helper)
    requires |picks| == |order| && forall i :: 0 <= i < |order| ==> order[i] in nodes
    ensures var p := ApplyNodes(nodes, order, picks, compatibilityMode, h);
            && h.tasks <= p.helper.tasks
            && AllComeFrom(nodes, p.nodes, Launches(NewTasks(h, p.helper)))
            && PastZero(Launches(NewTasks(h, p.helper)))
  {
    hide VisitNode, NewTasks, Launches, ComesFrom;
    if order == [] {
      NothingLaunched(nodes, h);
    } else {
      var i := |order| - 1;
      PassComesFrom(nodes, order[..i], picks[..i], compatibilityMode, h);
      var q := ApplyNodes(nodes, order[..i], picks[..i], compatibilityMode, h);
      var p := ApplyNodes(nodes, order, picks, compatibilityMode, h);
      VisitComesFrom(q.nodes[order[i]], q.helper, compatibilityMode, picks[i]);
      NewTasksSplit(h, q.helper, p.helper);
      var front, last := Launches(NewTasks(h, q.helper)), Launches(NewTasks(q.helper, p.helper));
      forall k | k in nodes ensures ComesFrom(nodes[k], p.nodes[k], front + last) {
        if k != order[i] {
          Unchanged(q.nodes[k], last);
        }
        ComesFromBoth(nodes[k], q.nodes[k], p.nodes[k], front, last);
      }
    }
  }

  lemma OfferKeepsPlaces(s: Sched, plan: OfferPlan, compatibilityMode: bool, g: Helper, h: seq<Event>)
    requires OfferPlanFits(s, plan)
    ensures var a := OfferCluster(s, plan, compatibilityMode, g);
            var more := Launches(NewTasks(g, a.helper));
            KeepsPlaces(s, a.sched, h, more) && PastZero(more)
  {
    hide KeepsPlaces, WithCluster, ApplyNodes, NewTasks, Launches, AllComeFrom, PastZero;
    var c := s.clusters[plan.name];
    var p := ApplyNodes(c.nodes, plan.order, plan.picks, compatibilityMode, g);
    PassComesFrom(c.nodes, plan.order, plan.picks, compatibilityMode, g);
    LiveChangeKeepsPlaces(s, plan.name, c.(nodes := p.nodes), h, Launches(NewTasks(g, p.helper)));
  }

  // ---------- a new node ----------

  lemma NewNodePlaces(s: Sched, cfg: Config, name: string, uuid: string, p: Place)
    requires WellFormed(s, cfg.framework) && At(AddNode(s, cfg, name, uuid), p)
    ensures var n := RecordAt(AddNode(s, cfg, name, uuid), p);
            if At(s, p) then n == RecordAt(s, p)
            else
              name in s.clusters && n.uuid == uuid && n.generation == 0 &&
              p == Place(false, name, CurrentId(cfg.framework, name, s.clusters[name].NextSimpleId()))
  {
    hide IdsUpTo, InBand, CurrentId;
    if name in s.clusters {
      var c := s.clusters[name];
      CreateNodeIsFresh(c, cfg.framework, cfg.role, cfg.principal, cfg.cpus, cfg.mem, cfg.disk, uuid);
    }
  }

  lemma NewNodeKeepsPlaces(s: Sched, cfg: Config, name: string, uuid: string, h: seq<Event>)
    requires WellFormed(s, cfg.framework) && Unique(s) && !HasUuid(s, uuid) && AllLaunched(s, h)
    ensures var t := AddNode(s, cfg, name, uuid);
            Unique(t) && AllLaunched(t, h) && forall u :: HasUuid(t, u) ==> HasUuid(s, u) || u == uuid
  {
    hide At, RecordAt, AddNode, WellFormed, CurrentId, Launched;
    var t := AddNode(s, cfg, name, uuid);
    forall p | At(t, p)
      ensures At(s, p) ==> RecordAt(t, p) == RecordAt(s, p)
      ensures !At(s, p) ==> RecordAt(t, p).uuid == uuid && RecordAt(t, p).generation == 0
    {
      NewNodePlaces(s, cfg, name, uuid, p);
    }
    forall p, q | At(t, p) && At(t, q) && RecordAt(t, p).uuid == RecordAt(t, q).uuid ensures p == q {
      NewNodePlaces(s, cfg, name, uuid, p);
      NewNodePlaces(s, cfg, name, uuid, q);
    }
  }

  // ---------- the kill pass ----------

  /** The cluster leaves with this turn. */
  predicate Retires(c: Cluster) {
    c.isKilled && forall k :: k in c.nodes ==> c.nodes[k].CanBeRemoved()
  }

  /** Where a record was before the named cluster's turn. */
  function Origin(p: Place, name: string, retires: bool): Place {
    if retires && p.retired && p.name == name then Place(false, name, p.key) else p
  }

  lemma RetiresWhenEmpty(c: Cluster)
    ensures NodesToRemove(c) <= c.nodes.Keys
    ensures Bury(c, NodesToRemove(c)).CanBeRemoved() <==> Retires(c)
    ensures Bury(c, NodesToRemove(c)).name == c.name
  {
    var b := Bury(c, NodesToRemove(c));
    MapSize(b);
    assert forall k :: k in b.nodes <==> k in c.nodes && !c.nodes[k].CanBeRemoved();
    assert b.nodes.Keys == {} <==> forall k :: k in c.nodes ==> c.nodes[k].CanBeRemoved();
  }

  lemma BuryKeepsRecords(c: Cluster, ids: set<string>)
    requires ids <= c.nodes.Keys && c.nodes.Keys !! c.graveyard.Keys
    ensures AllNodes(Bury(c, ids)) == AllNodes(c)
  {
  }

  lemma RestartComesFrom(c: Cluster, order: seq<string>)
    requires IsOrder(order, c.nodes.Keys)
    ensures var d := RestartPass(c, order).cluster;
            && d.graveyard == c.graveyard && d.nodes.Keys == c.nodes.Keys
            && AllComeFrom(c.nodes, d.nodes, [])
  {
    hide AlreadyRestarted, IsOrder, Launched, Node.IsRestarting;
    RestartPassOutline(c, order);
  }

  /** What becomes of the two maps of clusters in a turn. */
  lemma TurnMaps(s: Sched, plan: KillPlan) returns (d: Cluster)
    requires KillPlanFits(s, plan) && Tidy(s)
    ensures AllComeFrom(AllNodes(s.clusters[plan.name]), AllNodes(d), [])
    ensures var t := KillCluster(s, plan).sched;
            if Retires(s.clusters[plan.name])
            then t.clusters == s.clusters - {plan.name} && t.graveyard == s.graveyard[plan.name := d]
            else t.clusters == s.clusters[plan.name := d] && t.graveyard == s.graveyard
  {
    hide RestartPass, StopNodes, StopNode, IsOrder, AllNodes;
    var c := s.clusters[plan.name];
    RemovedAreLive(c);
    var b := Bury(c, NodesToRemove(c));
    d := RestartPass(b, plan.scanOrder).cluster;
    BuryKeepsRecords(c, NodesToRemove(c));
    RestartComesFrom(b, plan.scanOrder);
    LiveComeFrom(b, d, []);
    RetiresWhenEmpty(c);
  }

  lemma TurnOrigin(s: Sched, plan: KillPlan, p: Place)
    requires KillPlanFits(s, plan) && Tidy(s) && At(KillCluster(s, plan).sched, p)
    ensures var q := Origin(p, plan.name, Retires(s.clusters[plan.name]));
            At(s, q) && ComesFrom(RecordAt(s, q), RecordAt(KillCluster(s, plan).sched, p), [])
    ensures Retires(s.clusters[plan.name]) ==> p.retired || p.name != plan.name
  {
    hide KillCluster, AllNodes, Retires, Tidy, Launched, KillPlanFits;
    PlanNames(s, plan);
    var d := TurnMaps(s, plan);
  }

  lemma TurnKeepsPlaces(s: Sched, plan: KillPlan, h: seq<Event>)
    requires KillPlanFits(s, plan) && Tidy(s)
    ensures KeepsPlaces(s, KillCluster(s, plan).sched, h, [])
  {
    hide KillCluster, At, RecordAt, Retires, Tidy, KillPlanFits;
    PlanNames(s, plan);
    var t, retires := KillCluster(s, plan).sched, Retires(s.clusters[plan.name]);
    assert h + [] == h;
    forall p | At(t, p)
      ensures var q := Origin(p, plan.name, retires);
              At(s, q) && RecordAt(s, q).uuid == RecordAt(t, p).uuid && RecordAt(s, q).generation == RecordAt(t, p).generation
      ensures retires ==> p.retired || p.name != plan.name
    {
      TurnOrigin(s, plan, p);
    }
  }

  lemma KeepsPlacesTwice(s: Sched, t: Sched, u: Sched, h: seq<Event>)
    requires KeepsPlaces(s, t, h, []) && KeepsPlaces(t, u, h, [])
    ensures KeepsPlaces(s, u, h, [])
  {
    hide Unique, HasUuid, AllLaunched;
    assert h + [] == h;
  }

  lemma {:induction false} PassKeepsPlaces(s: Sched, plans: seq<KillPlan>, h: seq<Event>)
    requires KillPlansFit(s, plans) && Tidy(s)
    ensures KeepsPlaces(s, KillTasks(s, plans).sched, h, [])
    decreases |plans|
  {
    hide KillCluster, Tidy, KillPlanFits, KeepsPlaces;
    if plans == [] {
      SameKeepsPlaces(s, h);
    } else {
      var a := KillCluster(s, plans[0]);
      TurnKeepsTidy(s, plans[0]);
      TurnKeepsPlaces(s, plans[0], h);
      PassKeepsPlaces(a.sched, plans[1..], h);
      KeepsPlacesTwice(s, a.sched, KillTasks(a.sched, plans[1..]).sched, h);
    }
  }

  // ---------- runs ----------

  /** What the step adds to the history. */
  function News(s: Sys, step: Step): seq<Event>
    requires Enabled(s, step)
  {
    match step
    case OfferStep(plan, compatibilityMode, h) => Launches(NewTasks(h, OfferCluster(s.mem, plan, compatibilityMode, h).helper))
    case StatusStep(status, order) => Ends(s.mem, status, order)
    case _ => []
  }

  lemma NewsIsAppended(s: Sys, cfg: Config, step: Step)
    requires Enabled(s, step)
    ensures Do(s, cfg, step).history == s.history + News(s, step)
  {
    hide KillTasks, KillPlansFit, OfferCluster, StatusUpdate, Ends, NewTasks, Launches, Strip, Executors;
    assert s.history + [] == s.history;
  }

  lemma EndsAreNoLaunches(s: Sched, status: TaskStatus, order: seq<string>)
    requires IsOrder(order, s.clusters.Keys)
    ensures forall i :: 0 <= i < |Ends(s, status, order)| ==> !Ends(s, status, order)[i].Prepared?
  {
    hide FindCluster;
  }

  /** Every step but the creation of a node. */
  lemma StepKeepsPlaces(s: Sys, cfg: Config, step: Step)
    requires Inv(s, cfg) && Enabled(s, step) && !step.CreateNodeStep?
    ensures KeepsPlaces(s.mem, Do(s, cfg, step).mem, s.history, News(s, step)) && PastZero(News(s, step))
  {
    hide MemoryOk, WellFormed, Strip, KeepsPlaces, KillTasks, KillPlansFit, OfferCluster, IsOrder, StatusUpdate, FindCluster,
         AddNode, CreateCluster, RestartCluster, RemoveCluster, RemoveNode, Ends, Launches, Executors, UuidsKnown, NewTasks;
    var h := s.history;
    match step
    case CreateClusterStep(name) => CreateClusterKeepsPlaces(s.mem, name, h);
    case RestartClusterStep(name) => CommandsKeepPlaces(s.mem, name, "", h);
    case RemoveClusterStep(name) => CommandsKeepPlaces(s.mem, name, "", h);
    case RemoveNodeStep(name, id) => CommandsKeepPlaces(s.mem, name, id, h);
    case OfferStep(plan, compatibilityMode, g) => OfferKeepsPlaces(s.mem, plan, compatibilityMode, g, h);
    case SendStep(_) => SameKeepsPlaces(s.mem, h);
    case StatusStep(status, order) =>
      StatusKeepsPlaces(s.mem, status, order, h, Ends(s.mem, status, order));
      EndsAreNoLaunches(s.mem, status, order);
    case KillStep(plans) =>
      MemoryIsWellFormed(s.mem, cfg.framework, h);
      WellFormedIsTidy(s.mem, cfg.framework);
      PassKeepsPlaces(s.mem, plans, h);
    case CrashStep => CrashKeepsPlaces(s.mem, h);
  }

  /** No step makes a record with a uuid that was generated before and that no record has. */
  lemma StepPlaces(s: Sys, cfg: Config, step: Step)
    requires Inv(s, cfg) && PlacesOk(s) && Enabled(s, step)
    ensures PlacesOk(Do(s, cfg, step)) && s.uuids <= Do(s, cfg, step).uuids
    ensures forall u :: u in s.uuids && HasUuid(Do(s, cfg, step).mem, u) ==> HasUuid(s.mem, u)
  {
    hide MemoryOk, WellFormed, Strip, KillTasks, KillPlansFit, OfferCluster, IsOrder, StatusUpdate, FindCluster, HasUuid,
         AddNode, CreateCluster, RestartCluster, RemoveCluster, RemoveNode, Ends, Launches, Executors, UuidsKnown, NewTasks,
         Unique, AllLaunched, News;
    NewsIsAppended(s, cfg, step);
    if step.CreateNodeStep? {
      MemoryIsWellFormed(s.mem, cfg.framework, s.history);
      NewNodeKeepsPlaces(s.mem, cfg, step.name, step.uuid, s.history);
    } else {
      StepKeepsPlaces(s, cfg, step);
    }
  }

  lemma NoPlacesYet()
    ensures PlacesOk(INITIAL)
  {
  }

  lemma {:induction false} RunPlaces(s: Sys, cfg: Config, steps: seq<Step>)
    requires Inv(s, cfg) && PlacesOk(s) && IsRun(s, cfg, steps)
    ensures PlacesOk(Exec(s, cfg, steps)) && Inv(Exec(s, cfg, steps), cfg)
    decreases |steps|
  {
    hide Inv, Do, Enabled, PlacesOk;
    if steps != [] {
      StepKeeps(s, cfg, steps[0]);
      StepPlaces(s, cfg, steps[0]);
      RunPlaces(Do(s, cfg, steps[0]), cfg, steps[1..]);
    }
  }

  /** In every run no two records, live, dead or retired, have one uuid. */
  lemma OneRecordEach(cfg: Config, steps: seq<Step>, p: Place, q: Place)
    requires IsRun(INITIAL, cfg, steps)
    requires var s := Exec(INITIAL, cfg, steps).mem;
             At(s, p) && At(s, q) && RecordAt(s, p).uuid == RecordAt(s, q).uuid
    ensures p == q
  {
    hide Inv, IsRun, Exec, At, RecordAt;
    InitialInv(cfg);
    NoPlacesYet();
    RunPlaces(INITIAL, cfg, steps);
  }
}
