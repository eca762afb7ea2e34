/** The scheduler state of `scheduler/state.go` as a value, and what each handler of `scheduler.go`,
    `reconcilation.go` and `server.go` makes of it. Every handler runs under one lock. */
module Scheduler {
  import opened Options
  import opened NodeIds
  import opened Offers
  import opened Nodes
  import opened Clusters

  datatype Config = Config(framework: string, role: string, principal: string, cpus: real, mem: real, disk: real)

  datatype Sched = Sched(clusters: map<string, Cluster>, graveyard: map<string, Cluster>)

  const EMPTY := Sched(map[], map[])

  // ---------- what Persist writes ----------

  function StripNodes(nodes: map<string, Node>): map<string, Node> {
    map k | k in nodes :: nodes[k].Persistent()
  }

  function StripCluster(c: Cluster): Cluster {
    c.(nodes := StripNodes(c.nodes), graveyard := StripNodes(c.graveyard))
  }

  function StripClusters(cs: map<string, Cluster>): map<string, Cluster> {
    map k | k in cs :: StripCluster(cs[k])
  }

  /** The serialised state: everything but `reconciled`, which defaults to false when it is read back. */
  function Strip(s: Sched): Sched {
    Sched(StripClusters(s.clusters), StripClusters(s.graveyard))
  }

  // ---------- user commands ----------

  function WithCluster(s: Sched, name: string, c: Cluster): Sched {
    s.(clusters := s.clusters[name := c])
  }

  function CreateCluster(s: Sched, name: string): Sched {
    if name in s.clusters then s else WithCluster(s, name, NewCluster(name))
  }

  function RestartCluster(s: Sched, name: string): Sched {
    if name !in s.clusters then s else WithCluster(s, name, s.clusters[name].RollingRestart())
  }

  function RemoveCluster(s: Sched, name: string): Sched {
    if name !in s.clusters then s else WithCluster(s, name, KillAll(s.clusters[name]))
  }

  function AddNode(s: Sched, cfg: Config, name: string, uuid: string): Sched {
    if name !in s.clusters then s
    else
      WithCluster(s, name, CreateNode(s.clusters[name], cfg.framework, cfg.role, cfg.principal,
                                      cfg.cpus, cfg.mem, cfg.disk, uuid))
  }

  function RemoveNode(s: Sched, name: string, id: string): Sched {
    if name !in s.clusters || id !in s.clusters[name].nodes then s
    else
      var c := s.clusters[name];
      WithCluster(s, name, c.(nodes := c.nodes[id := c.nodes[id].KillNext()]))
  }

  // ---------- status updates ----------

  /** The first cluster in the iteration order that has the node. */
  function FindCluster(s: Sched, order: seq<string>, id: string): (r: Option<string>)
    requires forall i :: 0 <= i < |order| ==> order[i] in s.clusters
    ensures r.Some? ==> r.value in s.clusters && s.clusters[r.value].HasNode(id)
    ensures r == None ==> forall i :: 0 <= i < |order| ==> !s.clusters[order[i]].HasNode(id)
  {
    if order == [] then None
    else if s.clusters[order[0]].HasNode(id) then Some(order[0])
    else FindCluster(s, order[1..], id)
  }

  function StatusUpdate(s: Sched, status: TaskStatus, order: seq<string>): Sched
    requires IsOrder(order, s.clusters.Keys)
  {
    match FindCluster(s, order, status.taskId)
    case None => s
    case Some(name) => WithCluster(s, name, HandleStatus(s.clusters[name], status))
  }

  // ---------- offers ----------

  /** One cluster's turn on an offer: the order of its nodes and the port windows chosen. */
  datatype OfferPlan = OfferPlan(name: string, order: seq<string>, picks: seq<nat>)

  predicate OfferPlanFits(s: Sched, plan: OfferPlan) {
    && plan.name in s.clusters
    && IsOrder(plan.order, s.clusters[plan.name].nodes.Keys)
    && |plan.picks| == |plan.order|
  }

  datatype Applied = Applied(sched: Sched, helper: Helper, dirty: bool, needs: bool)

  function OfferCluster(s: Sched, plan: OfferPlan, compatibilityMode: bool, h: Helper): Applied
    requires OfferPlanFits(s, plan)
  {
    var c := s.clusters[plan.name];
    var p := ApplyNodes(c.nodes, plan.order, plan.picks, compatibilityMode, h);
    Applied(WithCluster(s, plan.name, c.(nodes := p.nodes)), p.helper, p.dirty, p.needs)
  }

  predicate OfferPlansFit(s: Sched, plans: seq<OfferPlan>, compatibilityMode: bool, h: Helper)
    decreases |plans|
  {
    plans != [] ==>
      && OfferPlanFits(s, plans[0])
      && var a := OfferCluster(s, plans[0], compatibilityMode, h);
         OfferPlansFit(a.sched, plans[1..], compatibilityMode, a.helper)
  }

  /** All clusters' turns on one offer. */
  function OfferClusters(s: Sched, plans: seq<OfferPlan>, compatibilityMode: bool, h: Helper): Applied
    requires OfferPlansFit(s, plans, compatibilityMode, h)
    decreases |plans|
  {
    if plans == [] then Applied(s, h, false, false)
    else
      var a := OfferCluster(s, plans[0], compatibilityMode, h);
      var r := OfferClusters(a.sched, plans[1..], compatibilityMode, a.helper);
      Applied(r.sched, r.helper, a.dirty || r.dirty, a.needs || r.needs)
  }

  /** createOperationsForOffers for one offer. */
  function OperationsFor(a: Applied): seq<Operation> {
    Operations(if a.needs then a.helper else MaybeUnreserve(a.helper))
  }

  datatype Made = Made(sched: Sched, operations: map<string, seq<Operation>>, dirty: bool)

  predicate OffersFit(s: Sched, offers: seq<Offer>, choices: seq<seq<OfferPlan>>, compatibilityMode: bool)
    decreases |offers|
  {
    && |choices| == |offers|
    && (offers != [] ==>
          && OfferPlansFit(s, choices[0], compatibilityMode, NewHelper(offers[0]))
          && var a := OfferClusters(s, choices[0], compatibilityMode, NewHelper(offers[0]));
             OffersFit(a.sched, offers[1..], choices[1..], compatibilityMode))
  }

  /** createOperationsForOffers: the operations of every offer, by its id. */
  function OperationsForOffers(s: Sched, offers: seq<Offer>, choices: seq<seq<OfferPlan>>, compatibilityMode: bool): Made
    requires OffersFit(s, offers, choices, compatibilityMode)
    decreases |offers|
  {
    if offers == [] then Made(s, map[], false)
    else
      var a := OfferClusters(s, choices[0], compatibilityMode, NewHelper(offers[0]));
      var r := OperationsForOffers(a.sched, offers[1..], choices[1..], compatibilityMode);
      Made(r.sched, map[offers[0].id := OperationsFor(a)] + r.operations, a.dirty || r.dirty)
  }

  /** The task list of the last LAUNCH, as acceptOffer's loop leaves it. */
  function LaunchTasks(ops: seq<Operation>): seq<Task> {
    if ops == [] then []
    else
      var op := ops[|ops| - 1];
      if op.Launch? then op.tasks else LaunchTasks(ops[..|ops| - 1])
  }

  /** acceptOffer: in compatibility mode only the launched tasks are sent. */
  function Submitted(compatibilityMode: bool, ops: seq<Operation>): seq<Operation> {
    if !compatibilityMode then ops
    else
      var tasks := LaunchTasks(ops);
      if tasks == [] then [] else [Launch(tasks)]
  }

  /** ResourceOffers: what is sent for each offer; an offer without operations is declined. */
  function Accepted(offers: seq<Offer>, operations: map<string, seq<Operation>>, compatibilityMode: bool)
    : (r: seq<seq<Operation>>)
    ensures |r| == |offers|
  {
    seq(|offers|, i requires 0 <= i < |offers| =>
      Submitted(compatibilityMode, if offers[i].id in operations then operations[offers[i].id] else []))
  }

  // ---------- the kill pass ----------

  datatype Call = FinishSent(id: string, executor: Executor, slaveId: string, ok: bool) | KillSent(id: string)

  /** One cluster's turn: the orders of the two loops, and the nodes whose finish message fails. */
  datatype KillPlan = KillPlan(name: string, killOrder: seq<string>, scanOrder: seq<string>, failing: set<string>)

  function StopNode(n: Node, failing: set<string>): seq<Call> {
    if n.Id() in failing then [FinishSent(n.Id(), ExecutorOf(n), n.slaveId, false), KillSent(n.Id())]
    else [FinishSent(n.Id(), ExecutorOf(n), n.slaveId, true)]
  }

  function StopNodes(nodes: map<string, Node>, order: seq<string>, failing: set<string>): seq<Call>
    requires forall i :: 0 <= i < |order| ==> order[i] in nodes
  {
    if order == [] then []
    else StopNodes(nodes, order[..|order| - 1], failing) + StopNode(nodes[order[|order| - 1]], failing)
  }

  predicate KillPlanFits(s: Sched, plan: KillPlan) {
    && plan.name in s.clusters
    && var c := s.clusters[plan.name];
       && IsOrder(plan.killOrder, NodesToKill(c))
       && IsOrder(plan.scanOrder, Bury(c, NodesToRemove(c)).nodes.Keys)
  }

  datatype Killed = Killed(sched: Sched, calls: seq<Call>, dirty: bool)

  /** killTasks for one cluster: stop, bury, retire the cluster, then its restart pass. */
  function KillCluster(s: Sched, plan: KillPlan): Killed
    requires KillPlanFits(s, plan)
  {
    var c := s.clusters[plan.name];
    var stops := StopNodes(c.nodes, plan.killOrder, plan.failing);
    var buried := Bury(c, NodesToRemove(c));
    var r := RestartPass(buried, plan.scanOrder);
    var restarts := if r.marked.Some? then StopNode(r.cluster.nodes[r.marked.value], plan.failing) else [];
    var s1 := WithCluster(s, plan.name, r.cluster);
    var s2 := if buried.CanBeRemoved()
              then Sched(s1.clusters - {c.name}, s1.graveyard[c.name := r.cluster])
              else s1;
    Killed(s2, stops + restarts, NodesToRemove(c) != {} || buried.CanBeRemoved() || r.modified)
  }

  predicate KillPlansFit(s: Sched, plans: seq<KillPlan>)
    decreases |plans|
  {
    plans != [] ==> KillPlanFits(s, plans[0]) && KillPlansFit(KillCluster(s, plans[0]).sched, plans[1..])
  }

  function KillTasks(s: Sched, plans: seq<KillPlan>): Killed
    requires KillPlansFit(s, plans)
    decreases |plans|
  {
    if plans == [] then Killed(s, [], false)
    else
      var a := KillCluster(s, plans[0]);
      var r := KillTasks(a.sched, plans[1..]);
      Killed(r.sched, a.calls + r.calls, a.dirty || r.dirty)
  }

  // ---------- reconciliation ----------

  /** reconcileTasks: what is asked of each cluster; `recent` names each cluster's nodes asked about lately. */
  function Asked(s: Sched, recent: map<string, set<string>>): map<string, map<string, TaskStatus>>
    requires recent.Keys == s.clusters.Keys
  {
    map c | c in s.clusters && NodesToAsk(s.clusters[c], recent[c]) != {} :: TasksToReconcile(s.clusters[c], recent[c])
  }

  /** reconcile: once enabled, the kill pass waits for a round in which there is nobody left to ask about. */
  function Reconcile(s: Sched, enabled: bool, recent: map<string, set<string>>, plans: seq<KillPlan>): Killed
    requires recent.Keys == s.clusters.Keys && KillPlansFit(s, plans)
  {
    if !enabled || Asked(s, recent) != map[] then Killed(s, [], false) else KillTasks(s, plans)
  }

  /** So nothing is stopped, buried or restarted while some node needs to be reconciled and was not asked about in
      the last five seconds; it is asked about in that round. */
  lemma KillsWaitForReconciliation(s: Sched, enabled: bool, recent: map<string, set<string>>, plans: seq<KillPlan>,
                                   c: string, k: string)
    requires recent.Keys == s.clusters.Keys && KillPlansFit(s, plans) && c in s.clusters && k in s.clusters[c].nodes
    requires s.clusters[c].nodes[k].NeedsToBeReconciled() && k !in recent[c]
    ensures c in Asked(s, recent) && k in Asked(s, recent)[c]
    ensures Reconcile(s, enabled, recent, plans) == Killed(s, [], false)
  {
    hide KillTasks, KillPlansFit, CurrentId;
    assert k in NodesToAsk(s.clusters[c], recent[c]);
    assert c in Asked(s, recent);
  }

  // ---------- status updates reach one node ----------

  /** Every key is its cluster's name, and every cluster keeps its ids and its restart band. */
  predicate WellFormed(s: Sched, framework: string) {
    && (forall k :: k in s.clusters ==>
          s.clusters[k].name == k && IdsExact(s.clusters[k], framework) && InBand(s.clusters[k]))
    && (forall k :: k in s.graveyard ==> s.graveyard[k].name == k && IdsExact(s.graveyard[k], framework))
  }

  /** The id of a status update names at most one cluster, even when names contain dashes. */
  lemma OneClusterHasTheNode(s: Sched, framework: string, a: string, b: string, id: string)
    requires WellFormed(s, framework) && a in s.clusters && b in s.clusters
    requires s.clusters[a].HasNode(id) && s.clusters[b].HasNode(id)
    ensures a == b
  {
    hide CurrentId;
    var x := if id in s.clusters[a].nodes then s.clusters[a].nodes[id] else s.clusters[a].graveyard[id];
    var y := if id in s.clusters[b].nodes then s.clusters[b].nodes[id] else s.clusters[b].graveyard[id];
    CurrentIdInjective(framework, a, x.simpleId, b, y.simpleId);
  }

  lemma FindClusterIsComplete(s: Sched, order: seq<string>, id: string)
    requires IsOrder(order, s.clusters.Keys)
    ensures FindCluster(s, order, id) == None <==> forall k :: k in s.clusters ==> !s.clusters[k].HasNode(id)
  {
    OrderCovers(order, s.clusters.Keys);
    var r := FindCluster(s, order, id);
    forall k | r == None && k in s.clusters ensures !s.clusters[k].HasNode(id) {
      var i :| 0 <= i < |order| && order[i] == k;
    }
  }

  /** So the outcome of a status update does not depend on the iteration order. */
  lemma StatusUpdateIgnoresOrder(s: Sched, framework: string, status: TaskStatus, o1: seq<string>, o2: seq<string>)
    requires WellFormed(s, framework) && IsOrder(o1, s.clusters.Keys) && IsOrder(o2, s.clusters.Keys)
    ensures StatusUpdate(s, status, o1) == StatusUpdate(s, status, o2)
  {
    FindClusterIsComplete(s, o1, status.taskId);
    FindClusterIsComplete(s, o2, status.taskId);
    var r1, r2 := FindCluster(s, o1, status.taskId), FindCluster(s, o2, status.taskId);
    if r1.Some? && r2.Some? {
      OneClusterHasTheNode(s, framework, r1.value, r2.value, status.taskId);
    }
  }
}
