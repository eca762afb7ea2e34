/** The scheduler as a step system: memory, the persisted snapshot, launches prepared but not yet sent,
    and launches sent. Runs are any sequences of enabled steps, crashes included. */
module SchedulerRuns {
  import opened Options
  import opened NodeIds
  import opened Offers
  import opened Nodes
  import opened Clusters
  import opened Scheduler

  /** `Ended` records that a terminal update for the node's task was handled. */
  datatype Event = Prepared(executor: Executor) | Ended(uuid: string)

  datatype Sys = Sys(
    mem: Sched,
    snap: Sched,
    history: seq<Event>,
    unsent: multiset<Executor>,
    sent: seq<Executor>,
    uuids: set<string>)

  const INITIAL := Sys(EMPTY, EMPTY, [], multiset{}, [], {})

  datatype Step =
    | CreateClusterStep(name: string)
    | RestartClusterStep(name: string)
    | RemoveClusterStep(name: string)
    | CreateNodeStep(name: string, uuid: string)
    | RemoveNodeStep(name: string, id: string)
    | OfferStep(plan: OfferPlan, compatibilityMode: bool, helper: Helper)
    | SendStep(executor: Executor)
    | StatusStep(status: TaskStatus, order: seq<string>)
    | KillStep(plans: seq<KillPlan>)
    | CrashStep

  const UUID_LENGTH := 36

  /** A fresh uuid is new and has the length of every uuid; a helper may have served other clusters before. */
  predicate Enabled(s: Sys, step: Step) {
    match step
    case CreateNodeStep(_, uuid) => uuid !in s.uuids && |uuid| == UUID_LENGTH
    case OfferStep(plan, _, _) => OfferPlanFits(s.mem, plan)
    case SendStep(e) => e in s.unsent
    case StatusStep(_, order) => IsOrder(order, s.mem.clusters.Keys)
    case KillStep(plans) => KillPlansFit(s.mem, plans)
    case _ => true
  }

  /** Persist, if the handler asked for it. */
  function Saved(s: Sys, mem: Sched, dirty: bool): Sys {
    s.(mem := mem, snap := if dirty then Strip(mem) else s.snap)
  }

  function Launches(tasks: seq<Task>): seq<Event> {
    seq(|tasks|, i requires 0 <= i < |tasks| => Prepared(tasks[i].executor))
  }

  function Executors(tasks: seq<Task>): multiset<Executor> {
    if tasks == [] then multiset{} else Executors(tasks[..|tasks| - 1]) + multiset{tasks[|tasks| - 1].executor}
  }

  /** The terminal update that a status makes for the live node it reaches. */
  function Ends(s: Sched, status: TaskStatus, order: seq<string>): seq<Event>
    requires IsOrder(order, s.clusters.Keys)
  {
    match FindCluster(s, order, status.taskId)
    case None => []
    case Some(name) =>
      var c := s.clusters[name];
      if status.state.Terminal() && status.taskId !in c.graveyard then [Ended(c.nodes[status.taskId].uuid)] else []
  }

  /** One handler, under the lock. Commands persist on success, a status update when a cluster has the node,
      an offer and the kill pass when they report a change. */
  function Do(s: Sys, cfg: Config, step: Step): Sys
    requires Enabled(s, step)
  {
    match step
    case CreateClusterStep(name) => Saved(s, CreateCluster(s.mem, name), name !in s.mem.clusters)
    case RestartClusterStep(name) => Saved(s, RestartCluster(s.mem, name), name in s.mem.clusters)
    case RemoveClusterStep(name) => Saved(s, RemoveCluster(s.mem, name), name in s.mem.clusters)
    case CreateNodeStep(name, uuid) =>
      Saved(s, AddNode(s.mem, cfg, name, uuid), name in s.mem.clusters).(uuids := s.uuids + {uuid})
    case RemoveNodeStep(name, id) =>
      Saved(s, RemoveNode(s.mem, name, id), name in s.mem.clusters && id in s.mem.clusters[name].nodes)
    case OfferStep(plan, compatibilityMode, h) =>
      var a := OfferCluster(s.mem, plan, compatibilityMode, h);
      var tasks := NewTasks(h, a.helper);
      Saved(s, a.sched, a.dirty).(history := s.history + Launches(tasks), unsent := s.unsent + Executors(tasks))
    case SendStep(e) => s.(unsent := s.unsent - multiset{e}, sent := s.sent + [e])
    case StatusStep(status, order) =>
      Saved(s, StatusUpdate(s.mem, status, order), FindCluster(s.mem, order, status.taskId).Some?)
        .(history := s.history + Ends(s.mem, status, order))
    case KillStep(plans) =>
      var r := KillTasks(s.mem, plans);
      Saved(s, r.sched, r.dirty)
    case CrashStep => s.(mem := s.snap, unsent := multiset{})
  }

  predicate IsRun(s: Sys, cfg: Config, steps: seq<Step>)
    decreases |steps|
  {
    steps != [] ==> Enabled(s, steps[0]) && IsRun(Do(s, cfg, steps[0]), cfg, steps[1..])
  }

  function Exec(s: Sys, cfg: Config, steps: seq<Step>): Sys
    requires IsRun(s, cfg, steps)
    decreases |steps|
  {
    if steps == [] then s else Exec(Do(s, cfg, steps[0]), cfg, steps[1..])
  }

  // ---------- the launch history ----------

  /** A launch with no terminal update since. */
  predicate Awaiting(h: seq<Event>, uuid: string) {
    if h == [] then false
    else
      match h[|h| - 1]
      case Prepared(e) => e.uuid == uuid || Awaiting(h[..|h| - 1], uuid)
      case Ended(u) => u != uuid && Awaiting(h[..|h| - 1], uuid)
  }

  predicate LaunchOf(h: seq<Event>, i: int, uuid: string) {
    0 <= i < |h| && h[i].Prepared? && h[i].executor.uuid == uuid
  }

  /** Between two launches of one node, its generation grew and a terminal update was handled. */
  ghost predicate Separated(h: seq<Event>) {
    forall i, j :: 0 <= i < j < |h| && h[i].Prepared? && h[j].Prepared? && h[i].executor.uuid == h[j].executor.uuid ==>
      && h[i].executor.generation < h[j].executor.generation
      && exists k :: i < k < j && h[k] == Ended(h[i].executor.uuid)
  }

  /** What the history says of one live node. */
  ghost predicate NodeOk(n: Node, h: seq<Event>) {
    && (forall i :: LaunchOf(h, i, n.uuid) ==> h[i].executor.generation <= n.generation)
    && (Awaiting(h, n.uuid) ==> n.current == Starting || n.current == Started)
  }

  lemma {:induction false} EndedSinceLaunch(h: seq<Event>, uuid: string, i: int)
    requires LaunchOf(h, i, uuid) && !Awaiting(h, uuid)
    ensures exists k :: i < k < |h| && h[k] == Ended(uuid)
  {
    var n := |h| - 1;
    if h[n] != Ended(uuid) {
      EndedSinceLaunch(h[..n], uuid, i);
      var k :| i < k < n && h[..n][k] == Ended(uuid);
      assert h[k] == Ended(uuid);
    }
  }

  lemma AppendEvent(h: seq<Event>, e: Event, uuid: string)
    ensures Awaiting(h + [e], uuid) ==
            match e {
              case Prepared(x) => x.uuid == uuid || Awaiting(h, uuid)
              case Ended(u) => u != uuid && Awaiting(h, uuid)
            }
  {
    assert (h + [e])[..|h + [e]| - 1] == h;
  }

  /** Launching a node the history does not await keeps the history separated. */
  lemma LaunchKeepsSeparated(h: seq<Event>, n: Node, e: Executor)
    requires Separated(h) && NodeOk(n, h) && !Awaiting(h, n.uuid)
    requires e.uuid == n.uuid && e.generation > n.generation
    ensures Separated(h + [Prepared(e)])
  {
    var g := h + [Prepared(e)];
    forall i, j | 0 <= i < j < |g| && g[i].Prepared? && g[j].Prepared? && g[i].executor.uuid == g[j].executor.uuid
      ensures g[i].executor.generation < g[j].executor.generation
      ensures exists k :: i < k < j && g[k] == Ended(g[i].executor.uuid)
    {
      if j < |h| {
        assert g[i] == h[i] && g[j] == h[j];
        var k :| i < k < j && h[k] == Ended(h[i].executor.uuid);
        assert g[k] == h[k];
      } else {
        assert LaunchOf(h, i, n.uuid);
        EndedSinceLaunch(h, n.uuid, i);
        var k :| i < k < |h| && h[k] == Ended(n.uuid);
        assert g[k] == h[k];
      }
    }
  }

  // ---------- one node's turn on an offer ----------

  lemma NewTasksSplit(before: Helper, middle: Helper, after: Helper)
    requires before.tasks <= middle.tasks && middle.tasks <= after.tasks
    ensures Launches(NewTasks(before, after)) == Launches(NewTasks(before, middle)) + Launches(NewTasks(middle, after))
    ensures NewTasks(before, after) == NewTasks(before, middle) + NewTasks(middle, after)
  {
  }

  function Subject(e: Event): string {
    match e
    case Prepared(x) => x.uuid
    case Ended(u) => u
  }

  predicate Concerns(e: Event, n: Node) {
    Subject(e) == n.uuid && (e.Prepared? ==> e.executor.framework == n.framework)
  }

  lemma {:induction false} OthersDoNotAwait(h: seq<Event>, more: seq<Event>, uuid: string)
    requires forall i :: 0 <= i < |more| ==> Subject(more[i]) != uuid
    ensures Awaiting(h + more, uuid) == Awaiting(h, uuid)
  {
    if more == [] {
      assert h + more == h;
    } else {
      var n := |more| - 1;
      OthersDoNotAwait(h, more[..n], uuid);
      assert h + more == h + more[..n] + [more[n]];
      AppendEvent(h + more[..n], more[n], uuid);
    }
  }

  /** Events of other nodes say nothing about this one. */
  lemma OtherEvents(n: Node, h: seq<Event>, more: seq<Event>)
    requires NodeOk(n, h)
    requires forall i :: 0 <= i < |more| ==> Subject(more[i]) != n.uuid
    ensures NodeOk(n, h + more)
  {
    OthersDoNotAwait(h, more, n.uuid);
    assert forall j :: |h| <= j < |h + more| ==> (h + more)[j] == more[j - |h|];
    forall i | LaunchOf(h + more, i, n.uuid) ensures (h + more)[i].executor.generation <= n.generation {
      assert LaunchOf(h, i, n.uuid);
    }
  }

  lemma OwnLaunch(n: Node, m: Node, h: seq<Event>, e: Executor)
    requires NodeOk(n, h) && m.uuid == n.uuid == e.uuid
    requires m.generation == e.generation == n.generation + 1 && m.current == Starting
    ensures NodeOk(m, h + [Prepared(e)])
  {
    forall i | LaunchOf(h + [Prepared(e)], i, m.uuid)
      ensures (h + [Prepared(e)])[i].executor.generation <= m.generation
    {
      if i < |h| {
        assert LaunchOf(h, i, n.uuid);
      }
    }
  }

  /** One node's turn keeps the history separated and in agreement with the node. */
  lemma VisitKeepsHistory(n: Node, h: Helper, compatibilityMode: bool, pick: nat, hist: seq<Event>)
    requires NodeOk(n, hist) && Separated(hist)
    ensures var v := VisitNode(n, h, compatibilityMode, pick);
            var more := Launches(NewTasks(h, v.helper));
            && NodeOk(v.node, hist + more)
            && Separated(hist + more)
            && (forall i :: 0 <= i < |more| ==> Concerns(more[i], n))
  {
    hide VisitNode, Awaiting, Separated;
    VisitOutcome(n, h, compatibilityMode, pick);
    var v := VisitNode(n, h, compatibilityMode, pick);
    var more := Launches(NewTasks(h, v.helper));
    if v.helper.tasks != h.tasks {
      var e := ExecutorOf(v.node);
      assert more == [Prepared(e)];
      OwnLaunch(n, v.node, hist, e);
      LaunchKeepsSeparated(hist, n, e);
    } else {
      assert more == [] && hist + more == hist;
    }
  }

  predicate DistinctUuids(nodes: map<string, Node>) {
    forall a, b :: a in nodes && b in nodes && nodes[a].uuid == nodes[b].uuid ==> a == b
  }

  ghost predicate NodesOk(nodes: map<string, Node>, hist: seq<Event>) {
    forall k :: k in nodes ==> NodeOk(nodes[k], hist)
  }

  /** The nodes of a cluster after an offer: same identities, same restart generations. */
  predicate OnlyScheduled(before: map<string, Node>, after: map<string, Node>) {
    && SameIdentity(before, after)
    && forall k :: k in before ==>
         && after[k].restartGeneration == before[k].restartGeneration
         && after[k].destination == before[k].destination
  }

  predicate OfSome(nodes: map<string, Node>, e: Event) {
    exists k :: k in nodes && Concerns(e, nodes[k])
  }

  predicate EventsOf(nodes: map<string, Node>, more: seq<Event>) {
    forall i :: 0 <= i < |more| ==> OfSome(nodes, more[i])
  }

  /** What a pass over nodes may have done. */
  predicate PassShape(nodes: map<string, Node>, h: Helper, p: Pass) {
    && h.tasks <= p.helper.tasks
    && OnlyScheduled(nodes, p.nodes)
    && (!p.dirty ==> p.nodes == nodes && p.helper == h)
  }

  /** The history it extends agrees with the nodes it leaves. */
  ghost predicate PassHistory(nodes: map<string, Node>, h: Helper, hist: seq<Event>, p: Pass) {
    var more := Launches(NewTasks(h, p.helper));
    NodesOk(p.nodes, hist + more) && Separated(hist + more) && EventsOf(nodes, more)
  }

  function Visited(q: Pass, k: string, compatibilityMode: bool, pick: nat): Pass
    requires k in q.nodes
  {
    var v := VisitNode(q.nodes[k], q.helper, compatibilityMode, pick);
    Pass(q.nodes[k := v.node], v.helper, q.dirty || v.dirty, q.needs || v.needs)
  }

  lemma VisitKeepsShape(nodes: map<string, Node>, h: Helper, q: Pass, k: string, compatibilityMode: bool, pick: nat)
    requires PassShape(nodes, h, q) && k in nodes
    ensures PassShape(nodes, h, Visited(q, k, compatibilityMode, pick))
  {
    hide VisitNode;
    VisitOutcome(q.nodes[k], q.helper, compatibilityMode, pick);
  }

  /** A pass keeps identities, so nodes that had different uuids still have. */
  lemma PassIdentities(nodes: map<string, Node>, h: Helper, q: Pass, k: string)
    requires PassShape(nodes, h, q) && DistinctUuids(nodes) && k in nodes
    ensures h.tasks <= q.helper.tasks && q.nodes.Keys == nodes.Keys
    ensures q.nodes[k].uuid == nodes[k].uuid && q.nodes[k].framework == nodes[k].framework
    ensures forall m :: m in nodes && m != k ==> q.nodes[m].uuid != q.nodes[k].uuid
  {
  }

  lemma SameConcerns(e: Event, n: Node, m: Node)
    requires Concerns(e, n) && m.uuid == n.uuid && m.framework == n.framework
    ensures Concerns(e, m)
  {
  }

  lemma EventsOfAnother(n: Node, other: Node, hist: seq<Event>, more: seq<Event>)
    requires NodeOk(n, hist) && n.uuid != other.uuid
    requires forall i :: 0 <= i < |more| ==> Concerns(more[i], other)
    ensures NodeOk(n, hist + more)
  {
    hide NodeOk;
    OtherEvents(n, hist, more);
  }

  lemma MoreEventsOf(nodes: map<string, Node>, front: seq<Event>, last: seq<Event>, k: string)
    requires EventsOf(nodes, front) && k in nodes
    requires forall i :: 0 <= i < |last| ==> Concerns(last[i], nodes[k])
    ensures EventsOf(nodes, front + last)
  {
    forall i | 0 <= i < |front + last| ensures OfSome(nodes, (front + last)[i]) {
      assert i < |front| ==> (front + last)[i] == front[i];
      assert i >= |front| ==> (front + last)[i] == last[i - |front|];
    }
  }

  lemma VisitKeepsPassHistory(nodes: map<string, Node>, h: Helper, hist: seq<Event>, q: Pass, k: string,
                              compatibilityMode: bool, pick: nat)
    requires DistinctUuids(nodes) && PassShape(nodes, h, q) && PassHistory(nodes, h, hist, q) && k in nodes
    ensures PassHistory(nodes, h, hist, Visited(q, k, compatibilityMode, pick))
  {
    hide VisitNode, NodeOk, Separated, Launches, NewTasks, PassShape, DistinctUuids, Concerns;
    PassIdentities(nodes, h, q, k);
    var p := Visited(q, k, compatibilityMode, pick);
    var front, last := Launches(NewTasks(h, q.helper)), Launches(NewTasks(q.helper, p.helper));
    VisitOutcome(q.nodes[k], q.helper, compatibilityMode, pick);
    VisitKeepsHistory(q.nodes[k], q.helper, compatibilityMode, pick, hist + front);
    NewTasksSplit(h, q.helper, p.helper);
    assert hist + (front + last) == hist + front + last;
    forall m | m in nodes && m != k ensures NodeOk(q.nodes[m], hist + front + last) {
      EventsOfAnother(q.nodes[m], q.nodes[k], hist + front, last);
    }
    forall i | 0 <= i < |last| ensures Concerns(last[i], nodes[k]) {
      SameConcerns(last[i], q.nodes[k], nodes[k]);
    }
    MoreEventsOf(nodes, front, last, k);
  }

  /** One cluster's turn on an offer, in any order, for any windows. */
  lemma {:induction false} ApplyKeepsHistory(nodes: map<string, Node>, order: seq<string>, picks: seq<nat>,
                                             compatibilityMode: bool, h: Helper, hist: seq<Event>)
    requires |picks| == |order| && forall i :: 0 <= i < |order| ==> order[i] in nodes
    requires DistinctUuids(nodes) && NodesOk(nodes, hist) && Separated(hist)
    ensures var p := ApplyNodes(nodes, order, picks, compatibilityMode, h);
            PassShape(nodes, h, p) && PassHistory(nodes, h, hist, p)
  {
    hide VisitNode, NodeOk, Separated, DistinctUuids;
    if order == [] {
      assert hist + Launches(NewTasks(h, h)) == hist;
    } else {
      hide PassShape, PassHistory;
      var i := |order| - 1;
      ApplyKeepsHistory(nodes, order[..i], picks[..i], compatibilityMode, h, hist);
      var q := ApplyNodes(nodes, order[..i], picks[..i], compatibilityMode, h);
      VisitKeepsShape(nodes, h, q, order[i], compatibilityMode, picks[i]);
      VisitKeepsPassHistory(nodes, h, hist, q, order[i], compatibilityMode, picks[i]);
    }
  }

  // ---------- the invariant of memory ----------

  predicate AtRest(n: Node) {
    n.current != Started && n.destination == Shutdown
  }

  predicate RestingGraves(c: Cluster) {
    forall k :: k in c.graveyard ==> AtRest(c.graveyard[k])
  }

  /** No graveyard holds a started node, and a retired cluster was killed and has lost all its live nodes. */
  predicate GravesAtRest(s: Sched) {
    && (forall c :: c in s.clusters ==> RestingGraves(s.clusters[c]))
    && (forall c :: c in s.graveyard ==>
          RestingGraves(s.graveyard[c]) && s.graveyard[c].isKilled && s.graveyard[c].nodes == map[])
  }

  predicate Live(s: Sched, c: string, k: string) {
    c in s.clusters && k in s.clusters[c].nodes
  }

  function NodeAt(s: Sched, c: string, k: string): Node
    requires Live(s, c, k)
  {
    s.clusters[c].nodes[k]
  }

  ghost predicate LiveUuidsDistinct(s: Sched) {
    forall c1, k1, c2, k2 :: Live(s, c1, k1) && Live(s, c2, k2) && NodeAt(s, c1, k1).uuid == NodeAt(s, c2, k2).uuid ==>
      c1 == c2 && k1 == k2
  }

  ghost predicate LiveOk(s: Sched, hist: seq<Event>) {
    forall c, k :: Live(s, c, k) ==> NodeOk(NodeAt(s, c, k), hist)
  }

  ghost predicate MemoryOk(s: Sched, framework: string, hist: seq<Event>) {
    && WellFormed(s, framework)
    && GravesAtRest(s)
    && LiveUuidsDistinct(s)
    && LiveOk(s, hist)
    && Separated(hist)
  }

  ghost predicate NoNewUuids(s: Sched, t: Sched) {
    forall c, k :: Live(t, c, k) ==> Live(s, c, k) && NodeAt(t, c, k).uuid == NodeAt(s, c, k).uuid
  }

  predicate ClusterOk(c: Cluster, name: string, framework: string) {
    c.name == name && IdsExact(c, framework) && InBand(c) && RestingGraves(c)
  }

  /** No node is new and none changes its uuid. */
  predicate Descends(c: Cluster, d: Cluster) {
    forall k :: k in d.nodes ==> k in c.nodes && d.nodes[k].uuid == c.nodes[k].uuid
  }

  /** Replacing one cluster by a descendant, with events about its own nodes, keeps the invariant. */
  lemma ReplaceCluster(s: Sched, framework: string, hist: seq<Event>, name: string, d: Cluster, more: seq<Event>)
    requires MemoryOk(s, framework, hist) && name in s.clusters
    requires ClusterOk(d, name, framework) && Descends(s.clusters[name], d)
    requires NodesOk(d.nodes, hist + more) && EventsOf(s.clusters[name].nodes, more) && Separated(hist + more)
    ensures MemoryOk(WithCluster(s, name, d), framework, hist + more)
    ensures NoNewUuids(s, WithCluster(s, name, d))
  {
    hide NodeOk, Separated, IdsExact, InBand;
    var t := WithCluster(s, name, d);
    forall c, k | Live(t, c, k) ensures NodeOk(NodeAt(t, c, k), hist + more) {
      if c != name {
        var n := NodeAt(s, c, k);
        assert Live(s, c, k);
        forall i | 0 <= i < |more| ensures Subject(more[i]) != n.uuid {
          var nodes := s.clusters[name].nodes;
          assert OfSome(nodes, more[i]);
          var j :| j in nodes && Concerns(more[i], nodes[j]);
          assert Live(s, name, j) && NodeAt(s, name, j) == nodes[j];
        }
        OtherEvents(n, hist, more);
      }
    }
    forall c1, k1, c2, k2 | Live(t, c1, k1) && Live(t, c2, k2) && NodeAt(t, c1, k1).uuid == NodeAt(t, c2, k2).uuid
      ensures c1 == c2 && k1 == k2
    {
      assert Live(s, c1, k1) && Live(s, c2, k2);
    }
  }

  lemma MemoryIsSeparated(s: Sched, framework: string, hist: seq<Event>)
    ensures MemoryOk(s, framework, hist) ==> Separated(hist)
  {
  }

  lemma ReplaceQuietly(s: Sched, framework: string, hist: seq<Event>, name: string, d: Cluster)
    requires MemoryOk(s, framework, hist) && name in s.clusters
    requires ClusterOk(d, name, framework) && Descends(s.clusters[name], d) && NodesOk(d.nodes, hist)
    ensures MemoryOk(WithCluster(s, name, d), framework, hist)
    ensures NoNewUuids(s, WithCluster(s, name, d))
  {
    hide MemoryOk, ClusterOk, Descends, NodesOk;
    assert hist + [] == hist;
    assert MemoryOk(s, framework, hist) ==> Separated(hist) by {
      MemoryIsSeparated(s, framework, hist);
    }
    ReplaceCluster(s, framework, hist, name, d, []);
  }

  lemma MemoryCluster(s: Sched, framework: string, hist: seq<Event>, name: string)
    requires MemoryOk(s, framework, hist) && name in s.clusters
    ensures ClusterOk(s.clusters[name], name, framework) && NodesOk(s.clusters[name].nodes, hist)
    ensures DistinctUuids(s.clusters[name].nodes) && Separated(hist)
  {
    hide IdsExact, InBand, NodeOk, Separated;
    var c := s.clusters[name];
    forall k | k in c.nodes ensures NodeOk(c.nodes[k], hist) {
      assert Live(s, name, k);
    }
    forall a, b | a in c.nodes && b in c.nodes && c.nodes[a].uuid == c.nodes[b].uuid ensures a == b {
      assert Live(s, name, a) && Live(s, name, b);
    }
  }

  // ---------- what each handler does to one cluster ----------

  lemma RollingRestartOk(c: Cluster, name: string, framework: string)
    requires ClusterOk(c, name, framework)
    ensures ClusterOk(c.RollingRestart(), name, framework) && c.RollingRestart().nodes == c.nodes
  {
    hide CurrentId, AtRest;
    var d := c.RollingRestart();
    forall i | 1 <= i <= |c.nodes| + |c.graveyard| ensures d.HasNode(CurrentId(framework, c.name, i)) {
      assert c.HasNode(CurrentId(framework, c.name, i));
    }
  }

  /** Setting fields of live nodes other than identity and restart generation. */
  lemma ChangedNodesOk(c: Cluster, name: string, framework: string, nodes: map<string, Node>, killed: bool)
    requires ClusterOk(c, name, framework) && SameIdentity(c.nodes, nodes)
    requires forall k :: k in nodes ==> nodes[k].restartGeneration == c.nodes[k].restartGeneration
    ensures var d := c.(nodes := nodes, isKilled := killed);
            ClusterOk(d, name, framework) && Descends(c, d)
  {
    SameIdentityKeepsIds(c, nodes, framework);
    KilledKeepsIds(c.(nodes := nodes), killed, framework);
    hide IdsExact, AtRest;
  }

  /** Progress facts look at the uuid, the generation and the current state only. */
  lemma SameProgress(before: map<string, Node>, after: map<string, Node>, hist: seq<Event>)
    requires NodesOk(before, hist) && before.Keys == after.Keys
    requires forall k :: k in before ==>
               && after[k].uuid == before[k].uuid
               && after[k].generation == before[k].generation
               && after[k].current == before[k].current
    ensures NodesOk(after, hist)
  {
  }

  // ---------- each handler keeps the invariant ----------

  lemma NewClusterOk(name: string, framework: string)
    ensures ClusterOk(NewCluster(name), name, framework)
  {
  }

  lemma CreateClusterKeeps(s: Sched, framework: string, hist: seq<Event>, name: string)
    requires MemoryOk(s, framework, hist)
    ensures MemoryOk(CreateCluster(s, name), framework, hist)
    ensures NoNewUuids(s, CreateCluster(s, name))
  {
    hide NodeOk, Separated, IdsExact, InBand, RestingGraves;
    if name !in s.clusters {
      var t := CreateCluster(s, name);
      NewClusterOk(name, framework);
      forall c, k | Live(t, c, k) ensures Live(s, c, k) && NodeAt(t, c, k) == NodeAt(s, c, k) {
      }
    }
  }

  lemma RestartClusterKeeps(s: Sched, framework: string, hist: seq<Event>, name: string)
    requires MemoryOk(s, framework, hist)
    ensures MemoryOk(RestartCluster(s, name), framework, hist)
    ensures NoNewUuids(s, RestartCluster(s, name))
  {
    hide MemoryOk, ClusterOk, NodesOk;
    if name in s.clusters {
      MemoryCluster(s, framework, hist, name);
      RollingRestartOk(s.clusters[name], name, framework);
      ReplaceQuietly(s, framework, hist, name, s.clusters[name].RollingRestart());
    }
  }

  lemma ChangeNodes(s: Sched, framework: string, hist: seq<Event>, name: string, nodes: map<string, Node>, killed: bool)
    requires MemoryOk(s, framework, hist) && name in s.clusters
    requires SameIdentity(s.clusters[name].nodes, nodes) && NodesOk(nodes, hist)
    requires forall k :: k in nodes ==> nodes[k].restartGeneration == s.clusters[name].nodes[k].restartGeneration
    ensures MemoryOk(WithCluster(s, name, s.clusters[name].(nodes := nodes, isKilled := killed)), framework, hist)
    ensures NoNewUuids(s, WithCluster(s, name, s.clusters[name].(nodes := nodes, isKilled := killed)))
  {
    hide MemoryOk, ClusterOk, NodesOk, SameIdentity, Descends;
    MemoryCluster(s, framework, hist, name);
    ChangedNodesOk(s.clusters[name], name, framework, nodes, killed);
    ReplaceQuietly(s, framework, hist, name, s.clusters[name].(nodes := nodes, isKilled := killed));
  }

  lemma RemoveClusterKeeps(s: Sched, framework: string, hist: seq<Event>, name: string)
    requires MemoryOk(s, framework, hist)
    ensures MemoryOk(RemoveCluster(s, name), framework, hist)
    ensures NoNewUuids(s, RemoveCluster(s, name))
  {
    hide MemoryOk, ClusterOk, NodesOk;
    if name in s.clusters {
      var c := s.clusters[name];
      var nodes := KillAll(c).nodes;
      MemoryCluster(s, framework, hist, name);
      SameProgress(c.nodes, nodes, hist);
      ChangeNodes(s, framework, hist, name, nodes, true);
    }
  }

  lemma RemoveNodeKeeps(s: Sched, framework: string, hist: seq<Event>, name: string, id: string)
    requires MemoryOk(s, framework, hist)
    ensures MemoryOk(RemoveNode(s, name, id), framework, hist)
    ensures NoNewUuids(s, RemoveNode(s, name, id))
  {
    hide MemoryOk, ClusterOk, NodesOk;
    if name in s.clusters && id in s.clusters[name].nodes {
      var c := s.clusters[name];
      var nodes := c.nodes[id := c.nodes[id].KillNext()];
      MemoryCluster(s, framework, hist, name);
      SameProgress(c.nodes, nodes, hist);
      ChangeNodes(s, framework, hist, name, nodes, c.isKilled);
    }
  }

  lemma OfferClusterKeeps(s: Sched, framework: string, hist: seq<Event>,
                          plan: OfferPlan, compatibilityMode: bool, h: Helper)
    requires MemoryOk(s, framework, hist) && OfferPlanFits(s, plan)
    ensures var a := OfferCluster(s, plan, compatibilityMode, h);
            var more := Launches(NewTasks(h, a.helper));
            && MemoryOk(a.sched, framework, hist + more)
            && NoNewUuids(s, a.sched)
            && EventsOf(s.clusters[plan.name].nodes, more)
            && h.tasks <= a.helper.tasks
            && (!a.dirty ==> a.sched == s && a.helper == h)
  {
    hide MemoryOk, ClusterOk, NodesOk, Separated, DistinctUuids, ApplyNodes, Launches, NewTasks, EventsOf;
    var c := s.clusters[plan.name];
    MemoryCluster(s, framework, hist, plan.name);
    ApplyKeepsHistory(c.nodes, plan.order, plan.picks, compatibilityMode, h, hist);
    var p := ApplyNodes(c.nodes, plan.order, plan.picks, compatibilityMode, h);
    ChangedNodesOk(c, plan.name, framework, p.nodes, c.isKilled);
    assert c.(nodes := p.nodes, isKilled := c.isKilled) == c.(nodes := p.nodes);
    ReplaceCluster(s, framework, hist, plan.name, c.(nodes := p.nodes), Launches(NewTasks(h, p.helper)));
    if !p.dirty {
      assert WithCluster(s, plan.name, c) == s;
    }
  }

  // ---------- status updates ----------

  lemma UpdateKeepsNode(n: Node, m: Node, hist: seq<Event>, state: TaskState)
    requires NodeOk(n, hist) && m.uuid == n.uuid && m.generation == n.generation && m.current == n.After(state).current
    ensures NodeOk(m, hist + if state.Terminal() then [Ended(n.uuid)] else [])
  {
    hide Node.After;
    UpdateEndsOrRuns(n, state);
    var more := if state.Terminal() then [Ended(n.uuid)] else [];
    if state.Terminal() {
      AppendEvent(hist, Ended(n.uuid), n.uuid);
      assert forall i :: LaunchOf(hist + more, i, n.uuid) ==> LaunchOf(hist, i, n.uuid);
    } else {
      assert hist + more == hist;
    }
  }

  lemma EndKeepsSeparated(hist: seq<Event>, u: string)
    requires Separated(hist)
    ensures Separated(hist + [Ended(u)])
  {
    var g := hist + [Ended(u)];
    forall i, j | 0 <= i < j < |g| && g[i].Prepared? && g[j].Prepared? && g[i].executor.uuid == g[j].executor.uuid
      ensures g[i].executor.generation < g[j].executor.generation
      ensures exists k :: i < k < j && g[k] == Ended(g[i].executor.uuid)
    {
      var k :| i < k < j && hist[k] == Ended(hist[i].executor.uuid);
      assert g[k] == hist[k];
    }
  }

  lemma HandleStatusShape(c: Cluster, status: TaskStatus)
    requires status.taskId in c.nodes && status.taskId !in c.graveyard
    ensures var nodes, id := HandleStatus(c, status).nodes, status.taskId;
            && SameIdentity(c.nodes, nodes)
            && (forall k :: k in nodes ==> nodes[k].restartGeneration == c.nodes[k].restartGeneration)
            && (forall k :: k in nodes && k != id ==> nodes[k] == c.nodes[k])
            && nodes[id].generation == c.nodes[id].generation
            && nodes[id].current == c.nodes[id].After(status.state).current
  {
    hide CurrentId;
  }

  lemma EventOfOne(nodes: map<string, Node>, id: string, more: seq<Event>)
    requires id in nodes && forall i :: 0 <= i < |more| ==> Concerns(more[i], nodes[id])
    ensures EventsOf(nodes, more)
  {
    hide Concerns;
    forall i | 0 <= i < |more| ensures OfSome(nodes, more[i]) {
      assert Concerns(more[i], nodes[id]);
    }
  }

  /** The update of one live node, as a change of its cluster and an event of that node. */
  lemma HandleStatusOutcome(c: Cluster, hist: seq<Event>, status: TaskStatus)
    requires status.taskId in c.nodes && status.taskId !in c.graveyard
    requires NodesOk(c.nodes, hist) && DistinctUuids(c.nodes) && Separated(hist)
    ensures var d := HandleStatus(c, status);
            var more := if status.state.Terminal() then [Ended(c.nodes[status.taskId].uuid)] else [];
            && SameIdentity(c.nodes, d.nodes)
            && (forall k :: k in d.nodes ==> d.nodes[k].restartGeneration == c.nodes[k].restartGeneration)
            && NodesOk(d.nodes, hist + more) && EventsOf(c.nodes, more) && Separated(hist + more)
  {
    hide NodeOk, Separated, HandleStatus;
    var id := status.taskId;
    var d := HandleStatus(c, status);
    HandleStatusShape(c, status);
    var more := if status.state.Terminal() then [Ended(c.nodes[id].uuid)] else [];
    UpdateKeepsNode(c.nodes[id], d.nodes[id], hist, status.state);
    if status.state.Terminal() {
      EndKeepsSeparated(hist, c.nodes[id].uuid);
    } else {
      assert hist + more == hist;
    }
    forall k | k in c.nodes && k != id ensures NodeOk(d.nodes[k], hist + more) {
      OtherEvents(c.nodes[k], hist, more);
    }
    assert Concerns(Ended(c.nodes[id].uuid), c.nodes[id]);
    EventOfOne(c.nodes, id, more);
  }

  lemma IgnoredUpdate(s: Sched, name: string, status: TaskStatus)
    requires name in s.clusters && status.taskId in s.clusters[name].graveyard
    ensures WithCluster(s, name, HandleStatus(s.clusters[name], status)) == s
  {
  }

  lemma UpdatedCluster(c: Cluster, status: TaskStatus)
    requires status.taskId in c.nodes && status.taskId !in c.graveyard
    ensures HandleStatus(c, status) == c.(nodes := HandleStatus(c, status).nodes, isKilled := c.isKilled)
  {
  }

  lemma StatusUpdateKeeps(s: Sched, framework: string, hist: seq<Event>, status: TaskStatus, order: seq<string>)
    requires MemoryOk(s, framework, hist) && IsOrder(order, s.clusters.Keys)
    ensures MemoryOk(StatusUpdate(s, status, order), framework, hist + Ends(s, status, order))
    ensures NoNewUuids(s, StatusUpdate(s, status, order))
  {
    hide MemoryOk, ClusterOk, NodesOk, Separated, DistinctUuids, SameIdentity, Descends, EventsOf, HandleStatus;
    var found := FindCluster(s, order, status.taskId);
    var more := Ends(s, status, order);
    assert hist + [] == hist;
    if found.Some? {
      var name := found.value;
      var c := s.clusters[name];
      if status.taskId in c.graveyard {
        IgnoredUpdate(s, name, status);
      } else {
        var d := HandleStatus(c, status);
        MemoryCluster(s, framework, hist, name);
        HandleStatusOutcome(c, hist, status);
        ChangedNodesOk(c, name, framework, d.nodes, c.isKilled);
        UpdatedCluster(c, status);
        ReplaceCluster(s, framework, hist, name, d, more);
      }
    }
  }

  // ---------- a new node ----------

  lemma NewNodeOk(n: Node, hist: seq<Event>)
    requires forall i :: 0 <= i < |hist| ==> Subject(hist[i]) != n.uuid
    ensures NodeOk(n, hist)
  {
    assert [] + hist == hist;
    OthersDoNotAwait([], hist, n.uuid);
  }

  lemma CreatedClusterOk(c: Cluster, name: string, cfg: Config, uuid: string)
    requires ClusterOk(c, name, cfg.framework)
    ensures var d := CreateNode(c, cfg.framework, cfg.role, cfg.principal, cfg.cpus, cfg.mem, cfg.disk, uuid);
            var id := CurrentId(cfg.framework, c.name, c.NextSimpleId());
            && ClusterOk(d, name, cfg.framework)
            && id !in c.nodes && d.nodes.Keys == c.nodes.Keys + {id} && d.nodes[id].uuid == uuid
            && forall k :: k in c.nodes ==> d.nodes[k] == c.nodes[k]
  {
    hide CurrentId, IdsExact, AtRest;
    CreateNodeIsFresh(c, cfg.framework, cfg.role, cfg.principal, cfg.cpus, cfg.mem, cfg.disk, uuid);
  }

  lemma OneMoreUuid(s: Sched, t: Sched, name: string, id: string, uuid: string)
    requires LiveUuidsDistinct(s)
    requires forall c, k :: Live(s, c, k) ==> NodeAt(s, c, k).uuid != uuid
    requires forall c, k :: Live(t, c, k) ==>
               if c == name && k == id then NodeAt(t, c, k).uuid == uuid
               else Live(s, c, k) && NodeAt(t, c, k) == NodeAt(s, c, k)
    ensures LiveUuidsDistinct(t)
  {
    hide Live, NodeAt;
  }

  lemma AddNodeKeeps(s: Sched, cfg: Config, hist: seq<Event>, name: string, uuid: string)
    requires MemoryOk(s, cfg.framework, hist)
    requires forall i :: 0 <= i < |hist| ==> Subject(hist[i]) != uuid
    requires forall c, k :: Live(s, c, k) ==> NodeAt(s, c, k).uuid != uuid
    ensures MemoryOk(AddNode(s, cfg, name, uuid), cfg.framework, hist)
    ensures forall c, k :: Live(AddNode(s, cfg, name, uuid), c, k) ==>
              NodeAt(AddNode(s, cfg, name, uuid), c, k).uuid == uuid ||
              (Live(s, c, k) && NodeAt(AddNode(s, cfg, name, uuid), c, k) == NodeAt(s, c, k))
  {
    hide NodeOk, Separated, IdsExact, InBand, RestingGraves, CreateNode, CurrentId, LiveUuidsDistinct;
    if name in s.clusters {
      var c := s.clusters[name];
      var d := CreateNode(c, cfg.framework, cfg.role, cfg.principal, cfg.cpus, cfg.mem, cfg.disk, uuid);
      var id := CurrentId(cfg.framework, c.name, c.NextSimpleId());
      CreatedClusterOk(c, name, cfg, uuid);
      NewNodeOk(d.nodes[id], hist);
      var t := AddNode(s, cfg, name, uuid);
      forall a, k | Live(t, a, k)
        ensures (a == name && k == id) || (Live(s, a, k) && NodeAt(t, a, k) == NodeAt(s, a, k))
      {
      }
      OneMoreUuid(s, t, name, id, uuid);
    }
  }

  // ---------- the kill pass ----------

  lemma BuriedClusterOk(c: Cluster, name: string, framework: string)
    requires ClusterOk(c, name, framework)
    ensures var b := Bury(c, NodesToRemove(c));
            ClusterOk(b, name, framework) && forall k :: k in b.nodes ==> k in c.nodes && b.nodes[k] == c.nodes[k]
  {
    hide IdsExact;
    BuryKeepsIds(c, NodesToRemove(c), framework);
  }

  lemma RestartPassFields(c: Cluster, order: seq<string>)
    requires IsOrder(order, c.nodes.Keys)
    ensures var r := RestartPass(c, order).cluster;
            r == c.(nodes := r.nodes, isRestarting := r.isRestarting)
    ensures !c.isRestarting ==> RestartPass(c, order) == Restarted(c, None, false)
    ensures |c.nodes| == 0 ==> RestartPass(c, order).cluster.nodes == map[]
  {
  }

  lemma EndedKeepsIds(c: Cluster, restarting: bool, framework: string)
    requires IdsExact(c, framework)
    ensures IdsExact(c.(isRestarting := restarting), framework)
  {
    hide CurrentId;
    forall i | 1 <= i <= |c.nodes| + |c.graveyard|
      ensures c.(isRestarting := restarting).HasNode(CurrentId(framework, c.name, i))
    {
      assert c.HasNode(CurrentId(framework, c.name, i));
    }
  }

  lemma RestartedClusterOk(c: Cluster, name: string, framework: string, order: seq<string>, hist: seq<Event>)
    requires ClusterOk(c, name, framework) && IsOrder(order, c.nodes.Keys) && NodesOk(c.nodes, hist)
    ensures var r := RestartPass(c, order);
            && ClusterOk(r.cluster, name, framework) && Descends(c, r.cluster)
            && NodesOk(r.cluster.nodes, hist)
            && r.cluster.isKilled == c.isKilled
            && (|c.nodes| == 0 ==> r.cluster.nodes == map[])
            && (!r.modified ==> r.cluster == c)
  {
    hide RestartPass, IdsExact, InBand, NodesOk, AtRest;
    var r := RestartPass(c, order);
    RestartPassKeepsBand(c, order);
    RestartPassFields(c, order);
    if c.isRestarting {
      RestartPassMarks(c, order);
      SameIdentityKeepsIds(c, r.cluster.nodes, framework);
      EndedKeepsIds(c.(nodes := r.cluster.nodes), r.cluster.isRestarting, framework);
      SameProgress(c.nodes, r.cluster.nodes, hist);
    }
  }

  /** Retiring a cluster whose live nodes are gone. */
  lemma RetireKeeps(s: Sched, framework: string, hist: seq<Event>, name: string)
    requires MemoryOk(s, framework, hist) && name in s.clusters
    requires s.clusters[name].isKilled && s.clusters[name].nodes == map[]
    ensures MemoryOk(Sched(s.clusters - {name}, s.graveyard[name := s.clusters[name]]), framework, hist)
    ensures NoNewUuids(s, Sched(s.clusters - {name}, s.graveyard[name := s.clusters[name]]))
  {
    hide NodeOk, Separated, IdsExact, InBand, RestingGraves;
    var t := Sched(s.clusters - {name}, s.graveyard[name := s.clusters[name]]);
    forall c, k | Live(t, c, k) ensures Live(s, c, k) && NodeAt(t, c, k) == NodeAt(s, c, k) {
    }
  }

  lemma SubsetOk(nodes: map<string, Node>, some: map<string, Node>, hist: seq<Event>)
    requires NodesOk(nodes, hist) && forall k :: k in some ==> k in nodes && some[k] == nodes[k]
    ensures NodesOk(some, hist)
  {
  }

  lemma NothingBuried(c: Cluster)
    ensures Bury(c, {}) == c
  {
  }

  lemma KillClusterKeeps(s: Sched, framework: string, hist: seq<Event>, plan: KillPlan)
    requires MemoryOk(s, framework, hist) && KillPlanFits(s, plan)
    ensures MemoryOk(KillCluster(s, plan).sched, framework, hist)
    ensures NoNewUuids(s, KillCluster(s, plan).sched)
    ensures !KillCluster(s, plan).dirty ==> KillCluster(s, plan).sched == s
  {
    hide MemoryOk, NodesOk, IdsExact, InBand, RestingGraves, Bury, RestartPass, DistinctUuids, Separated;
    var name, c := plan.name, s.clusters[plan.name];
    var buried := Bury(c, NodesToRemove(c));
    var r := RestartPass(buried, plan.scanOrder);
    MemoryCluster(s, framework, hist, name);
    BuriedClusterOk(c, name, framework);
    SubsetOk(c.nodes, buried.nodes, hist);
    RestartedClusterOk(buried, name, framework, plan.scanOrder, hist);
    ReplaceQuietly(s, framework, hist, name, r.cluster);
    if buried.CanBeRemoved() {
      RetireKeeps(WithCluster(s, name, r.cluster), framework, hist, name);
    }
    if !KillCluster(s, plan).dirty {
      NothingBuried(c);
      assert WithCluster(s, name, c) == s;
    }
  }

  lemma {:induction false} KillTasksKeeps(s: Sched, framework: string, hist: seq<Event>, plans: seq<KillPlan>)
    requires MemoryOk(s, framework, hist) && KillPlansFit(s, plans)
    ensures MemoryOk(KillTasks(s, plans).sched, framework, hist)
    ensures NoNewUuids(s, KillTasks(s, plans).sched)
    ensures !KillTasks(s, plans).dirty ==> KillTasks(s, plans).sched == s
    decreases |plans|
  {
    hide MemoryOk, KillCluster;
    if plans != [] {
      KillClusterKeeps(s, framework, hist, plans[0]);
      KillTasksKeeps(KillCluster(s, plans[0]).sched, framework, hist, plans[1..]);
    }
  }

  // ---------- recovery ----------

  lemma StripSize(c: Cluster)
    ensures |StripCluster(c).nodes| == |c.nodes| && |StripCluster(c).graveyard| == |c.graveyard|
  {
    assert StripNodes(c.nodes).Keys == c.nodes.Keys && StripNodes(c.graveyard).Keys == c.graveyard.Keys;
    MapSize(c);
    MapSize(StripCluster(c));
  }

  lemma StripKeepsIds(c: Cluster, framework: string, total: nat)
    requires IdsUpTo(c, framework, total)
    ensures IdsUpTo(StripCluster(c), framework, total)
  {
    hide CurrentId;
    var d := StripCluster(c);
    forall k | k in d.nodes ensures OwnKey(d.nodes[k], k, framework, d.name) {
      assert OwnKey(c.nodes[k], k, framework, c.name);
    }
    forall k | k in d.graveyard ensures OwnKey(d.graveyard[k], k, framework, d.name) {
      assert OwnKey(c.graveyard[k], k, framework, c.name);
    }
    forall i | 1 <= i <= total ensures d.HasNode(CurrentId(framework, c.name, i)) {
      assert c.HasNode(CurrentId(framework, c.name, i));
    }
  }

  lemma StripClusterOk(c: Cluster, framework: string)
    requires IdsExact(c, framework)
    ensures IdsExact(StripCluster(c), framework)
  {
    hide IdsUpTo;
    StripSize(c);
    StripKeepsIds(c, framework, |c.nodes| + |c.graveyard|);
  }

  lemma PersistentOk(n: Node, hist: seq<Event>)
    requires NodeOk(n, hist)
    ensures NodeOk(n.Persistent(), hist)
  {
  }

  lemma RecoveryKeepsClusters(s: Sched, framework: string)
    requires WellFormed(s, framework) && GravesAtRest(s)
    ensures WellFormed(Strip(s), framework) && GravesAtRest(Strip(s))
  {
    hide IdsExact;
    var t := Strip(s);
    forall c | c in s.clusters ensures IdsExact(t.clusters[c], framework) {
      StripClusterOk(s.clusters[c], framework);
    }
    forall c | c in s.graveyard ensures IdsExact(t.graveyard[c], framework) {
      StripClusterOk(s.graveyard[c], framework);
    }
  }

  /** Reading the snapshot back loses `reconciled` and nothing the invariant looks at. */
  lemma RecoveryKeeps(s: Sched, framework: string, hist: seq<Event>)
    requires MemoryOk(s, framework, hist)
    ensures MemoryOk(Strip(s), framework, hist)
    ensures NoNewUuids(s, Strip(s))
  {
    hide NodeOk, Separated, WellFormed, GravesAtRest;
    var t := Strip(s);
    RecoveryKeepsClusters(s, framework);
    forall c, k | Live(t, c, k) ensures Live(s, c, k) && NodeAt(t, c, k) == NodeAt(s, c, k).Persistent() {
    }
    forall c, k | Live(t, c, k) ensures NodeOk(NodeAt(t, c, k), hist) {
      PersistentOk(NodeAt(s, c, k), hist);
    }
  }

  lemma StripTwice(s: Sched)
    ensures Strip(Strip(s)) == Strip(s)
  {
    forall c: Cluster ensures StripCluster(StripCluster(c)) == StripCluster(c) {
      assert StripNodes(StripNodes(c.nodes)) == StripNodes(c.nodes);
      assert StripNodes(StripNodes(c.graveyard)) == StripNodes(c.graveyard);
    }
    assert StripClusters(StripClusters(s.clusters)) == StripClusters(s.clusters);
    assert StripClusters(StripClusters(s.graveyard)) == StripClusters(s.graveyard);
  }

  // ---------- the invariant of the whole system ----------

  function PreparedIn(h: seq<Event>): multiset<Executor> {
    if h == [] then multiset{}
    else
      match h[|h| - 1]
      case Prepared(e) => PreparedIn(h[..|h| - 1]) + multiset{e}
      case Ended(_) => PreparedIn(h[..|h| - 1])
  }

  predicate Known(e: Event, uuids: set<string>, framework: string) {
    Subject(e) in uuids && (e.Prepared? ==> e.executor.framework == framework)
  }

  /** Every uuid in use or in the history was generated, and every launch is this framework's. */
  ghost predicate UuidsKnown(s: Sys, framework: string) {
    && (forall c, k :: Live(s.mem, c, k) ==> NodeAt(s.mem, c, k).uuid in s.uuids)
    && (forall i :: 0 <= i < |s.history| ==> Known(s.history[i], s.uuids, framework))
    && (forall u :: u in s.uuids ==> |u| == UUID_LENGTH)
  }

  /** Holds in every reachable state: the snapshot is memory but for `reconciled`, and every launch sent
      or waiting to be sent was prepared. */
  ghost predicate Inv(s: Sys, cfg: Config) {
    && MemoryOk(s.mem, cfg.framework, s.history)
    && s.snap == Strip(s.mem)
    && UuidsKnown(s, cfg.framework)
    && s.unsent + multiset(s.sent) <= PreparedIn(s.history)
  }

  lemma LaunchesOfNone()
    ensures Launches([]) == []
  {
  }

  lemma LaunchesSnoc(tasks: seq<Task>)
    requires tasks != []
    ensures Launches(tasks) == Launches(tasks[..|tasks| - 1]) + [Prepared(tasks[|tasks| - 1].executor)]
  {
  }

  lemma PreparedSnoc(h: seq<Event>, e: Executor)
    ensures PreparedIn(h + [Prepared(e)]) == PreparedIn(h) + multiset{e}
  {
    assert (h + [Prepared(e)])[..|h + [Prepared(e)]| - 1] == h;
  }

  lemma {:induction false} PreparedAppend(h: seq<Event>, tasks: seq<Task>)
    ensures PreparedIn(h + Launches(tasks)) == PreparedIn(h) + Executors(tasks)
  {
    hide PreparedIn, Launches;
    if tasks == [] {
      assert h + Launches(tasks) == h by {
        hide *;
        LaunchesOfNone();
        assert h + [] == h;
      }
    } else {
      var n := |tasks| - 1;
      PreparedAppend(h, tasks[..n]);
      LaunchesSnoc(tasks);
      assert h + Launches(tasks) == (h + Launches(tasks[..n])) + [Prepared(tasks[n].executor)];
      PreparedSnoc(h + Launches(tasks[..n]), tasks[n].executor);
    }
  }

  lemma EndsPrepareNothing(s: Sched, status: TaskStatus, order: seq<string>, h: seq<Event>)
    requires IsOrder(order, s.clusters.Keys)
    ensures PreparedIn(h + Ends(s, status, order)) == PreparedIn(h)
  {
    var more := Ends(s, status, order);
    if more == [] {
      assert h + more == h;
    } else {
      assert (h + more)[..|h + more| - 1] == h;
    }
  }

  lemma InitialInv(cfg: Config)
    ensures Inv(INITIAL, cfg)
  {
    assert Strip(EMPTY) == EMPTY;
  }

  lemma OwnEventKnown(s: Sys, framework: string, name: string, k: string, e: Event)
    requires UuidsKnown(s, framework) && WellFormed(s.mem, framework)
    requires Live(s.mem, name, k) && Concerns(e, NodeAt(s.mem, name, k))
    ensures Known(e, s.uuids, framework)
  {
    hide CurrentId, InBand;
    assert OwnKey(NodeAt(s.mem, name, k), k, framework, name);
  }

  predicate AllKnown(h: seq<Event>, uuids: set<string>, framework: string) {
    forall i :: 0 <= i < |h| ==> Known(h[i], uuids, framework)
  }

  lemma AppendKnown(h: seq<Event>, more: seq<Event>, uuids: set<string>, framework: string)
    requires AllKnown(h, uuids, framework) && forall i :: 0 <= i < |more| ==> Known(more[i], uuids, framework)
    ensures AllKnown(h + more, uuids, framework)
  {
    hide Known;
  }

  lemma KnownHistory(s: Sys, framework: string)
    requires UuidsKnown(s, framework)
    ensures AllKnown(s.history, s.uuids, framework)
  {
  }

  lemma EventSubjects(s: Sys, framework: string, more: seq<Event>, name: string)
    requires UuidsKnown(s, framework) && WellFormed(s.mem, framework) && name in s.mem.clusters
    requires EventsOf(s.mem.clusters[name].nodes, more)
    ensures AllKnown(s.history + more, s.uuids, framework)
  {
    hide WellFormed, UuidsKnown, Concerns, Known;
    var nodes := s.mem.clusters[name].nodes;
    forall i | 0 <= i < |more| ensures Known(more[i], s.uuids, framework) {
      assert OfSome(nodes, more[i]);
      var k :| k in nodes && Concerns(more[i], nodes[k]);
      OwnEventKnown(s, framework, name, k, more[i]);
    }
    KnownHistory(s, framework);
    AppendKnown(s.history, more, s.uuids, framework);
  }

  lemma MemoryIsWellFormed(s: Sched, framework: string, hist: seq<Event>)
    requires MemoryOk(s, framework, hist)
    ensures WellFormed(s, framework) && GravesAtRest(s) && Separated(hist)
  {
  }

  /** A handler that keeps memory in order and saves every change keeps the invariant. */
  lemma SavedKeeps(s: Sys, cfg: Config, mem: Sched, dirty: bool, more: seq<Event>, ready: multiset<Executor>)
    requires Inv(s, cfg) && MemoryOk(mem, cfg.framework, s.history + more) && NoNewUuids(s.mem, mem)
    requires !dirty ==> mem == s.mem
    requires AllKnown(s.history + more, s.uuids, cfg.framework)
    requires PreparedIn(s.history + more) == PreparedIn(s.history) + ready
    ensures Inv(Saved(s, mem, dirty).(history := s.history + more, unsent := s.unsent + ready), cfg)
  {
    hide MemoryOk, Strip, PreparedIn;
  }

  lemma OfferStepKeeps(s: Sys, cfg: Config, plan: OfferPlan, compatibilityMode: bool, h: Helper)
    requires Inv(s, cfg) && OfferPlanFits(s.mem, plan)
    ensures Inv(Do(s, cfg, OfferStep(plan, compatibilityMode, h)), cfg)
  {
    hide MemoryOk, WellFormed, OfferCluster, Launches, Executors, Strip, PreparedIn, UuidsKnown, NoNewUuids, EventsOf;
    MemoryIsWellFormed(s.mem, cfg.framework, s.history);
    var a := OfferCluster(s.mem, plan, compatibilityMode, h);
    var tasks := NewTasks(h, a.helper);
    OfferClusterKeeps(s.mem, cfg.framework, s.history, plan, compatibilityMode, h);
    PreparedAppend(s.history, tasks);
    EventSubjects(s, cfg.framework, Launches(tasks), plan.name);
    SavedKeeps(s, cfg, a.sched, a.dirty, Launches(tasks), Executors(tasks));
  }

  lemma EndedConcerns(n: Node)
    ensures Concerns(Ended(n.uuid), n)
  {
  }

  lemma EndSubjects(s: Sys, framework: string, status: TaskStatus, order: seq<string>)
    requires UuidsKnown(s, framework) && WellFormed(s.mem, framework) && IsOrder(order, s.mem.clusters.Keys)
    ensures AllKnown(s.history + Ends(s.mem, status, order), s.uuids, framework)
  {
    hide WellFormed, UuidsKnown, Concerns;
    var more := Ends(s.mem, status, order);
    if more == [] {
      KnownHistory(s, framework);
      assert s.history + more == s.history;
    } else {
      var name := FindCluster(s.mem, order, status.taskId).value;
      var nodes := s.mem.clusters[name].nodes;
      assert Concerns(more[0], nodes[status.taskId]) by {
        EndedConcerns(nodes[status.taskId]);
      }
      assert OfSome(nodes, more[0]);
      EventSubjects(s, framework, more, name);
    }
  }

  lemma StatusStepKeeps(s: Sys, cfg: Config, status: TaskStatus, order: seq<string>)
    requires Inv(s, cfg) && IsOrder(order, s.mem.clusters.Keys)
    ensures Inv(Do(s, cfg, StatusStep(status, order)), cfg)
  {
    hide MemoryOk, WellFormed, Strip, PreparedIn, UuidsKnown, NoNewUuids, EventsOf, HandleStatus, AllKnown;
    MemoryIsWellFormed(s.mem, cfg.framework, s.history);
    var more := Ends(s.mem, status, order);
    StatusUpdateKeeps(s.mem, cfg.framework, s.history, status, order);
    EndsPrepareNothing(s.mem, status, order, s.history);
    EndSubjects(s, cfg.framework, status, order);
    SavedKeeps(s, cfg, StatusUpdate(s.mem, status, order),
               FindCluster(s.mem, order, status.taskId).Some?, more, multiset{});
    assert s.unsent + multiset{} == s.unsent;
  }

  /** The commands and the kill pass add no event. */
  lemma QuietStepKeeps(s: Sys, cfg: Config, mem: Sched, dirty: bool)
    requires Inv(s, cfg) && MemoryOk(mem, cfg.framework, s.history) && NoNewUuids(s.mem, mem)
    requires !dirty ==> mem == s.mem
    ensures Inv(Saved(s, mem, dirty), cfg)
  {
    hide MemoryOk, Strip, PreparedIn, NoNewUuids;
    assert s.history + [] == s.history;
    assert PreparedIn(s.history) + multiset{} == PreparedIn(s.history);
    assert s.unsent + multiset{} == s.unsent;
    SavedKeeps(s, cfg, mem, dirty, [], multiset{});
  }

  lemma UnknownCluster(s: Sched, cfg: Config, name: string, uuid: string)
    ensures name !in s.clusters ==> AddNode(s, cfg, name, uuid) == s
  {
  }

  lemma CreateNodeStepKeeps(s: Sys, cfg: Config, name: string, uuid: string)
    requires Inv(s, cfg) && uuid !in s.uuids && |uuid| == UUID_LENGTH
    ensures Inv(Do(s, cfg, CreateNodeStep(name, uuid)), cfg)
  {
    hide MemoryOk, Strip, PreparedIn, AddNode;
    var t := AddNode(s.mem, cfg, name, uuid);
    AddNodeKeeps(s.mem, cfg, s.history, name, uuid);
    UnknownCluster(s.mem, cfg, name, uuid);
  }

  lemma RecoveredUuids(s: Sys, framework: string)
    requires UuidsKnown(s, framework) && NoNewUuids(s.mem, Strip(s.mem))
    ensures UuidsKnown(s.(mem := Strip(s.mem)), framework)
  {
    hide Strip;
  }

  lemma CrashStepKeeps(s: Sys, cfg: Config)
    requires Inv(s, cfg)
    ensures Inv(Do(s, cfg, CrashStep), cfg)
  {
    hide MemoryOk, Strip, PreparedIn, NoNewUuids;
    RecoveryKeeps(s.mem, cfg.framework, s.history);
    StripTwice(s.mem);
    RecoveredUuids(s, cfg.framework);
  }

  lemma SendStepKeeps(s: Sys, cfg: Config, e: Executor)
    requires Inv(s, cfg) && e in s.unsent
    ensures Inv(Do(s, cfg, SendStep(e)), cfg)
  {
    hide MemoryOk, Strip, PreparedIn;
    assert multiset(s.sent + [e]) == multiset(s.sent) + multiset{e};
    assert (s.unsent - multiset{e}) + (multiset(s.sent) + multiset{e}) == s.unsent + multiset(s.sent);
  }

  lemma MemoryInOrder(s: Sys, cfg: Config)
    requires Inv(s, cfg)
    ensures MemoryOk(s.mem, cfg.framework, s.history)
  {
  }

  /** A command that does not persist has changed nothing. */
  lemma CommandsReport(s: Sched, name: string, id: string)
    ensures name in s.clusters ==> CreateCluster(s, name) == s
    ensures name !in s.clusters ==> RestartCluster(s, name) == s && RemoveCluster(s, name) == s
    ensures !(name in s.clusters && id in s.clusters[name].nodes) ==> RemoveNode(s, name, id) == s
  {
  }

  lemma StepKeeps(s: Sys, cfg: Config, step: Step)
    requires Inv(s, cfg) && Enabled(s, step)
    ensures Inv(Do(s, cfg, step), cfg)
  {
    hide MemoryOk, Inv, NoNewUuids, KillTasks, CreateCluster, RestartCluster, RemoveCluster, RemoveNode;
    var f, hist := cfg.framework, s.history;
    assert MemoryOk(s.mem, f, hist) by {
      MemoryInOrder(s, cfg);
    }
    match step
    case CreateClusterStep(name) =>
      CreateClusterKeeps(s.mem, f, hist, name);
      CommandsReport(s.mem, name, "");
      QuietStepKeeps(s, cfg, CreateCluster(s.mem, name), name !in s.mem.clusters);
    case RestartClusterStep(name) =>
      RestartClusterKeeps(s.mem, f, hist, name);
      CommandsReport(s.mem, name, "");
      QuietStepKeeps(s, cfg, RestartCluster(s.mem, name), name in s.mem.clusters);
    case RemoveClusterStep(name) =>
      RemoveClusterKeeps(s.mem, f, hist, name);
      CommandsReport(s.mem, name, "");
      QuietStepKeeps(s, cfg, RemoveCluster(s.mem, name), name in s.mem.clusters);
    case CreateNodeStep(name, uuid) =>
      CreateNodeStepKeeps(s, cfg, name, uuid);
    case RemoveNodeStep(name, id) =>
      RemoveNodeKeeps(s.mem, f, hist, name, id);
      CommandsReport(s.mem, name, id);
      QuietStepKeeps(s, cfg, RemoveNode(s.mem, name, id), name in s.mem.clusters && id in s.mem.clusters[name].nodes);
    case OfferStep(plan, compatibilityMode, h) =>
      OfferStepKeeps(s, cfg, plan, compatibilityMode, h);
    case SendStep(e) =>
      SendStepKeeps(s, cfg, e);
    case StatusStep(status, order) =>
      StatusStepKeeps(s, cfg, status, order);
    case KillStep(plans) =>
      KillTasksKeeps(s.mem, f, hist, plans);
      QuietStepKeeps(s, cfg, KillTasks(s.mem, plans).sched, KillTasks(s.mem, plans).dirty);
    case CrashStep =>
      CrashStepKeeps(s, cfg);
  }

  /** The invariant holds at the end of every run, for any commands, offers, orders, updates and crashes. */
  lemma {:induction false} RunKeeps(s: Sys, cfg: Config, steps: seq<Step>)
    requires Inv(s, cfg) && IsRun(s, cfg, steps)
    ensures Inv(Exec(s, cfg, steps), cfg)
    decreases |steps|
  {
    hide Inv, Do, Enabled;
    if steps != [] {
      assert Inv(Do(s, cfg, steps[0]), cfg) by {
        StepKeeps(s, cfg, steps[0]);
      }
      RunKeeps(Do(s, cfg, steps[0]), cfg, steps[1..]);
    }
  }

  // ---------- the theorems ----------

  lemma {:induction false} PreparedAt(h: seq<Event>, e: Executor)
    requires e in PreparedIn(h)
    ensures exists i :: 0 <= i < |h| && h[i] == Prepared(e)
  {
    var n := |h| - 1;
    if h[n] != Prepared(e) {
      PreparedAt(h[..n], e);
      var i :| 0 <= i < n && h[..n][i] == Prepared(e);
      assert h[i] == Prepared(e);
    }
  }

  lemma LastIsNew(h: seq<Event>, e: Executor)
    requires h != [] && Separated(h)
    ensures e in PreparedIn(h[..|h| - 1]) ==> h[|h| - 1] != Prepared(e)
  {
    var n := |h| - 1;
    if e in PreparedIn(h[..n]) {
      PreparedAt(h[..n], e);
      var i :| 0 <= i < n && h[..n][i] == Prepared(e);
      assert h[i] == Prepared(e);
    }
  }

  lemma FrontSeparated(h: seq<Event>)
    requires h != [] && Separated(h)
    ensures Separated(h[..|h| - 1])
  {
    var g := h[..|h| - 1];
    forall i, j | 0 <= i < j < |g| && g[i].Prepared? && g[j].Prepared? && g[i].executor.uuid == g[j].executor.uuid
      ensures g[i].executor.generation < g[j].executor.generation
      ensures exists k :: i < k < j && g[k] == Ended(g[i].executor.uuid)
    {
      assert h[i] == g[i] && h[j] == g[j];
      var k :| i < k < j && h[k] == Ended(h[i].executor.uuid);
      assert g[k] == h[k];
    }
  }

  lemma {:induction false} PreparedOnce(h: seq<Event>, e: Executor)
    requires Separated(h)
    ensures PreparedIn(h)[e] <= 1
  {
    if h != [] {
      var n := |h| - 1;
      assert Separated(h[..n]) by {
        FrontSeparated(h);
      }
      PreparedOnce(h[..n], e);
      LastIsNew(h, e);
    }
  }

  function IdOf(e: Executor): string {
    ExecutorId(e.framework, e.cluster, e.uuid, e.generation)
  }

  lemma SentIsPrepared(s: Sys, cfg: Config, i: nat)
    requires Inv(s, cfg) && i < |s.sent|
    ensures s.sent[i] in PreparedIn(s.history)
  {
    hide MemoryOk, Strip, PreparedIn;
    assert s.sent[i] in multiset(s.sent);
  }

  lemma TwiceIn(s: seq<Executor>, i: nat, j: nat)
    requires i < j < |s|
    ensures s[i] == s[j] ==> multiset(s)[s[i]] >= 2
  {
    assert s == s[..j] + [s[j]] + s[j + 1..];
    assert s[i] in s[..j];
  }

  lemma SentOnce(s: Sys, cfg: Config, i: nat, j: nat)
    requires Inv(s, cfg) && i < j < |s.sent|
    ensures s.sent[i] != s.sent[j]
  {
    hide MemoryOk, Strip, PreparedIn;
    var e := s.sent[i];
    MemoryIsSeparated(s.mem, cfg.framework, s.history);
    PreparedOnce(s.history, e);
    TwiceIn(s.sent, i, j);
  }

  /** Two prepared launches differ in uuid or generation, and their uuids have one length. */
  lemma PreparedDiffer(s: Sys, cfg: Config, a: Executor, b: Executor)
    requires Inv(s, cfg) && a != b && a in PreparedIn(s.history) && b in PreparedIn(s.history)
    ensures a.uuid != b.uuid || a.generation != b.generation
    ensures |a.uuid| == |b.uuid| && a.framework == b.framework
  {
    hide MemoryOk, Strip, PreparedIn;
    MemoryIsSeparated(s.mem, cfg.framework, s.history);
    PreparedAt(s.history, a);
    PreparedAt(s.history, b);
    var i :| 0 <= i < |s.history| && s.history[i] == Prepared(a);
    var j :| 0 <= j < |s.history| && s.history[j] == Prepared(b);
    assert Known(s.history[i], s.uuids, cfg.framework) && Known(s.history[j], s.uuids, cfg.framework);
    assert i < j || j < i;
  }

  /** In every run, no executor id is sent to Mesos twice, whatever crashes and recoveries happen. */
  lemma NoExecutorIdLaunchedTwice(cfg: Config, steps: seq<Step>, i: nat, j: nat)
    requires IsRun(INITIAL, cfg, steps)
    requires i < j < |Exec(INITIAL, cfg, steps).sent|
    ensures IdOf(Exec(INITIAL, cfg, steps).sent[i]) != IdOf(Exec(INITIAL, cfg, steps).sent[j])
  {
    hide Inv, IsRun, Exec, ExecutorId;
    var s := Exec(INITIAL, cfg, steps);
    InitialInv(cfg);
    RunKeeps(INITIAL, cfg, steps);
    var a, b := s.sent[i], s.sent[j];
    SentOnce(s, cfg, i, j);
    SentIsPrepared(s, cfg, i);
    SentIsPrepared(s, cfg, j);
    PreparedDiffer(s, cfg, a, b);
    ExecutorIdInjective(a.framework, a.cluster, a.uuid, a.generation, b.cluster, b.uuid, b.generation);
  }

  /** In every run, the prepared launches of one node use growing generations, and between any two of them
      a terminal update for the node was handled. */
  lemma LaunchesAreSeparated(cfg: Config, steps: seq<Step>, i: nat, j: nat)
    requires IsRun(INITIAL, cfg, steps)
    requires i < j < |Exec(INITIAL, cfg, steps).history|
    requires var h := Exec(INITIAL, cfg, steps).history;
             h[i].Prepared? && h[j].Prepared? && h[i].executor.uuid == h[j].executor.uuid
    ensures var h := Exec(INITIAL, cfg, steps).history;
            && h[i].executor.generation < h[j].executor.generation
            && exists k :: i < k < j && h[k] == Ended(h[i].executor.uuid)
  {
    hide Inv, IsRun, Exec, MemoryOk;
    InitialInv(cfg);
    RunKeeps(INITIAL, cfg, steps);
    var s := Exec(INITIAL, cfg, steps);
    MemoryInOrder(s, cfg);
    MemoryIsSeparated(s.mem, cfg.framework, s.history);
  }

  lemma LiveNodeOk(s: Sched, framework: string, hist: seq<Event>, c: string, k: string)
    requires MemoryOk(s, framework, hist) && Live(s, c, k)
    ensures NodeOk(NodeAt(s, c, k), hist)
  {
    hide NodeOk, Separated, WellFormed, GravesAtRest;
  }

  lemma SnapshotNode(s: Sched, c: string, k: string)
    requires Live(Strip(s), c, k)
    ensures Live(s, c, k) && NodeAt(Strip(s), c, k) == NodeAt(s, c, k).Persistent()
  {
  }

  /** In every reachable state, the snapshot's record of a node covers every launch prepared for it; and a
      launched node with no terminal update since is starting or started in memory and in the snapshot,
      and not schedulable, reconciled or not. */
  lemma SnapshotCoversLaunches(cfg: Config, steps: seq<Step>, c: string, k: string)
    requires IsRun(INITIAL, cfg, steps)
    requires Live(Exec(INITIAL, cfg, steps).snap, c, k)
    ensures var s := Exec(INITIAL, cfg, steps);
            && Live(s.mem, c, k)
            && NodeAt(s.snap, c, k) == NodeAt(s.mem, c, k).Persistent()
            && (forall i :: LaunchOf(s.history, i, NodeAt(s.snap, c, k).uuid) ==>
                  s.history[i].executor.generation <= NodeAt(s.snap, c, k).generation)
            && (Awaiting(s.history, NodeAt(s.snap, c, k).uuid) ==>
                  && NodeAt(s.snap, c, k).current in {Starting, Started}
                  && !NodeAt(s.snap, c, k).CanBeScheduled()
                  && !NodeAt(s.mem, c, k).CanBeScheduled())
  {
    hide IsRun, Exec, Awaiting, Strip, MemoryOk, UuidsKnown, PreparedIn;
    InitialInv(cfg);
    RunKeeps(INITIAL, cfg, steps);
    var s := Exec(INITIAL, cfg, steps);
    SnapshotNode(s.mem, c, k);
    LiveNodeOk(s.mem, cfg.framework, s.history, c, k);
  }

  /** In every reachable state and snapshot: ids are exact, restart generations are in their band, no graveyard
      holds a started node, and a retired cluster was killed and has no live node left. */
  lemma StatesAreInOrder(cfg: Config, steps: seq<Step>)
    requires IsRun(INITIAL, cfg, steps)
    ensures var s := Exec(INITIAL, cfg, steps);
            && WellFormed(s.mem, cfg.framework) && GravesAtRest(s.mem)
            && WellFormed(s.snap, cfg.framework) && GravesAtRest(s.snap)
  {
    hide IsRun, Exec, WellFormed, GravesAtRest, MemoryOk;
    InitialInv(cfg);
    RunKeeps(INITIAL, cfg, steps);
    var s := Exec(INITIAL, cfg, steps);
    MemoryIsWellFormed(s.mem, cfg.framework, s.history);
    RecoveryKeepsClusters(s.mem, cfg.framework);
  }

  /** After a crash in any run, no node that was ever launched is scheduled on what the snapshot says: each
      live node is unreconciled, and one past its reservation cannot be scheduled before a status update for it. */
  lemma CrashUnreconciles(cfg: Config, steps: seq<Step>, c: string, k: string)
    requires IsRun(INITIAL, cfg, steps)
    requires Live(Do(Exec(INITIAL, cfg, steps), cfg, CrashStep).mem, c, k)
    ensures var s := Exec(INITIAL, cfg, steps);
            var n := NodeAt(Do(s, cfg, CrashStep).mem, c, k);
            && Live(s.mem, c, k) && n == NodeAt(s.mem, c, k).Persistent()
            && !n.reconciled
            && (n.current !in {Unknown, Reserved} ==> n.NeedsToBeReconciled() && !n.CanBeScheduled())
  {
    hide IsRun, Exec, Strip, MemoryOk, UuidsKnown, PreparedIn;
    InitialInv(cfg);
    RunKeeps(INITIAL, cfg, steps);
    SnapshotNode(Exec(INITIAL, cfg, steps).mem, c, k);
  }
}
