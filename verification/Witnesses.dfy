/** Runs of the scheduler, from the start: one forgets a launch sent to Mesos, one schedules a node again whose removal was
    asked for, and one counts a node as restarted that was not launched again. */
module Witnesses {
  import opened Options
  import opened NodeIds
  import opened Offers
  import opened OfferLedger
  import opened Nodes
  import opened Clusters
  import opened Scheduler
  import opened SchedulerRuns
  import opened KillPass
  import opened RecordPlaces
  import opened LaunchRecords

  const CFG := Config("framework", "*", "", 1.0, 32.0, 0.0)
  const NAME := "cluster"
  const UUID := "01234567-89ab-cdef-0123-456789abcdef"
  const ID := CurrentId("framework", NAME, 1)
  const EXECUTOR := Executor("framework", NAME, UUID, 1)
  const FIRST := NewNode("framework", NAME, "*", "", 1.0, 32.0, 0.0, 0, 1, UUID)
  const ONE: seq<string> := [ID]
  const NAMES: seq<string> := [NAME]

  // ---------- putting runs together ----------

  lemma {:induction false} RunAppend(s: Sys, cfg: Config, a: seq<Step>, b: seq<Step>)
    requires IsRun(s, cfg, a) && IsRun(Exec(s, cfg, a), cfg, b)
    ensures IsRun(s, cfg, a + b) && Exec(s, cfg, a + b) == Exec(Exec(s, cfg, a), cfg, b)
    decreases |a|
  {
    hide Do, Enabled;
    if a == [] {
      assert a + b == b;
    } else {
      RunAppend(Do(s, cfg, a[0]), cfg, a[1..], b);
      assert (a + b)[1..] == a[1..] + b;
    }
  }

  lemma OneMore(s: Sys, cfg: Config, a: seq<Step>, step: Step)
    requires IsRun(s, cfg, a) && Enabled(Exec(s, cfg, a), step)
    ensures IsRun(s, cfg, a + [step]) && Exec(s, cfg, a + [step]) == Do(Exec(s, cfg, a), cfg, step)
  {
    hide Do, Enabled;
    assert [step][1..] == [];
    RunAppend(s, cfg, a, [step]);
  }

  // ---------- one node is launched ----------

  function OnlyNode(n: Node, killed: bool, restarting: bool, generation: int): Sched {
    Sched(map[NAME := Cluster(NAME, map[ID := n], map[], killed, restarting, generation)], map[])
  }

  /** What is known of the node once its task has been sent. */
  predicate IsLaunched(n: Node) {
    && n.uuid == UUID && n.generation == 1 && n.restartGeneration == 0
    && n.current == Starting && n.destination == Started
    && n.framework == "framework" && n.cluster == NAME && n.simpleId == 1
  }

  const OFFER := OfferStep(OfferPlan(NAME, ONE, [0]), true, NewHelper(ROOM))
  const CREATED: seq<Step> := [CreateClusterStep(NAME), CreateNodeStep(NAME, UUID)]
  const SENT: seq<Step> := CREATED + [OFFER] + [SendStep(EXECUTOR)]

  lemma NodeIsCreated()
    ensures IsRun(INITIAL, CFG, CREATED)
    ensures var s := Exec(INITIAL, CFG, CREATED);
            s.mem == OnlyNode(FIRST, false, false, 0) && s.history == [] && s.unsent == multiset{} && s.sent == []
  {
    hide CurrentId, Strip;
    var create, add := CreateClusterStep(NAME), CreateNodeStep(NAME, UUID);
    var none: seq<Step> := [];
    assert IsRun(INITIAL, CFG, none) && Exec(INITIAL, CFG, none) == INITIAL;
    OneMore(INITIAL, CFG, none, create);
    assert none + [create] == [create];
    OneMore(INITIAL, CFG, [create], add);
    assert [create] + [add] == CREATED;
    var c := NewCluster(NAME);
    assert c.NextSimpleId() == 1;
    assert map[ID := FIRST] == c.nodes[ID := FIRST];
  }

  lemma FirstTurn() returns (v: Visit)
    ensures v == VisitNode(FIRST, NewHelper(ROOM), true, 0) && IsLaunched(v.node)
    ensures var tasks := NewTasks(NewHelper(ROOM), v.helper); |tasks| == 1 && tasks[0].executor == EXECUTOR
  {
    hide VisitNode, NewHelper, ROOM, CurrentId, ReservedOffer, UnreservedOffer;
    RoomAmounts();
    v := VisitNode(FIRST, NewHelper(ROOM), true, 0);
    VisitOutcome(FIRST, NewHelper(ROOM), true, 0);
    VisitDecides(FIRST, NewHelper(ROOM), true, 0);
  }

  lemma OneTurn(n: Node, v: Visit, h: Helper)
    requires v == VisitNode(n, h, true, 0)
    ensures ApplyNodes(map[ID := n], ONE, [0], true, h) == Pass(map[ID := v.node], v.helper, v.dirty, v.needs)
  {
    hide VisitNode, CurrentId;
    assert ONE[..0] == [] && [0][..0] == [];
    assert map[ID := n][ID := v.node] == map[ID := v.node];
  }

  lemma OneOrder(keys: set<string>)
    requires keys == {ID}
    ensures IsOrder(ONE, keys)
  {
    hide CurrentId;
  }

  lemma OneEvent(tasks: seq<Task>)
    requires |tasks| == 1 && tasks[0].executor == EXECUTOR
    ensures Launches(tasks) == [Prepared(EXECUTOR)]
  {
  }

  lemma OneExecutor(tasks: seq<Task>)
    requires |tasks| == 1 && tasks[0].executor == EXECUTOR
    ensures Executors(tasks) == multiset{EXECUTOR}
  {
    assert tasks[..0] == [];
  }

  lemma TaskIsSent() returns (n: Node)
    ensures IsRun(INITIAL, CFG, SENT) && IsLaunched(n)
    ensures var s := Exec(INITIAL, CFG, SENT);
            s.mem == OnlyNode(n, false, false, 0) && s.history == [Prepared(EXECUTOR)] && s.sent == [EXECUTOR]
  {
    hide CurrentId, Strip, NewHelper, ROOM, VisitNode, ApplyNodes, NewTasks, Launches, Executors, IsOrder, IsLaunched, IsRun,
         Exec;
    NodeIsCreated();
    var s := Exec(INITIAL, CFG, CREATED);
    var v := FirstTurn();
    n := v.node;
    OneTurn(FIRST, v, NewHelper(ROOM));
    OneOrder(s.mem.clusters[NAME].nodes.Keys);
    OneMore(INITIAL, CFG, CREATED, OFFER);
    var c := s.mem.clusters[NAME];
    assert s.mem.clusters[NAME := c.(nodes := map[ID := n])] == OnlyNode(n, false, false, 0).clusters;
    OneEvent(NewTasks(NewHelper(ROOM), v.helper));
    OneExecutor(NewTasks(NewHelper(ROOM), v.helper));
    OneMore(INITIAL, CFG, CREATED + [OFFER], SendStep(EXECUTOR));
  }

  // ---------- a launch is forgotten ----------

  const KILL := KillStep([KillPlan(NAME, ONE, NO_ORDER, {})])
  const RETIRED: seq<Step> := SENT + [RemoveClusterStep(NAME)] + [KILL]

  lemma OnlyNodeIsKilled(n: Node)
    ensures RemoveCluster(OnlyNode(n, false, false, 0), NAME) == OnlyNode(n.KillNext(), true, false, 0)
  {
    hide CurrentId, Node.KillNext;
    var c := KillAll(OnlyNode(n, false, false, 0).clusters[NAME]);
    assert c.nodes == map[ID := n.KillNext()];
  }

  lemma KillFits(n: Node)
    requires IsLaunched(n)
    ensures var s := OnlyNode(n.KillNext(), true, false, 0);
            && KillPlanFits(s, KILL.plans[0]) && Tidy(s) && Retires(s.clusters[NAME])
            && Holds(s.clusters[NAME], EXECUTOR)
  {
    hide CurrentId;
    var c := OnlyNode(n.KillNext(), true, false, 0).clusters[NAME];
    assert NodesToKill(c) == {ID} && NodesToRemove(c) == {ID};
    assert Bury(c, {ID}).nodes.Keys == {};
    assert LaunchRecords.Covers(c.nodes[ID], EXECUTOR);
  }

  lemma OnlyNodeRetires(n: Node)
    requires IsLaunched(n)
    ensures var s := OnlyNode(n.KillNext(), true, false, 0);
            && KillPlansFit(s, KILL.plans)
            && var t := KillTasks(s, KILL.plans).sched;
               t.clusters == map[] && t.graveyard.Keys == {NAME} && Holds(t.graveyard[NAME], EXECUTOR)
  {
    hide CurrentId, KillPlanFits, KillCluster, AllNodes, Holds, Retires, Tidy, AllComeFrom, IsLaunched;
    var s, plan := OnlyNode(n.KillNext(), true, false, 0), KILL.plans[0];
    KillFits(n);
    assert KILL.plans[1..] == [];
    var d := TurnMaps(s, plan);
    assert Spared(s, plan).graveyard == map[];
    TurnRemembersExactly(s, plan, EXECUTOR);
  }

  lemma ClusterRetires()
    ensures IsRun(INITIAL, CFG, RETIRED)
    ensures var s := Exec(INITIAL, CFG, RETIRED);
            && s.history == [Prepared(EXECUTOR)] && s.sent == [EXECUTOR]
            && NAME !in s.mem.clusters && NAME in s.mem.graveyard && Holds(s.mem.graveyard[NAME], EXECUTOR)
  {
    hide CurrentId, Strip, IsRun, Exec, IsLaunched, KillTasks, KillPlansFit, OnlyNode, RemoveCluster, Holds;
    var n := TaskIsSent();
    OnlyNodeIsKilled(n);
    OnlyNodeRetires(n);
    OneMore(INITIAL, CFG, SENT, RemoveClusterStep(NAME));
    OneMore(INITIAL, CFG, SENT + [RemoveClusterStep(NAME)], KILL);
  }

  lemma {:induction false} SameSent(s: Sys, steps: seq<Step>)
    requires IsRun(s, CFG, steps) && forall i :: 0 <= i < |steps| ==> !steps[i].SendStep?
    ensures Exec(s, CFG, steps).sent == s.sent
    decreases |steps|
  {
    hide CreateCluster, RestartCluster, RemoveCluster, RemoveNode, AddNode, KillTasks, KillPlansFit, Strip, StatusUpdate,
         FindCluster, Ends, OfferCluster, NewTasks, Launches, Executors, IsOrder;
    if steps != [] {
      SameSent(Do(s, CFG, steps[0]), steps[1..]);
    }
  }

  lemma ReuseSendsNothing(s: Sys)
    requires IsRun(s, CFG, Reuse(NAME))
    ensures Exec(s, CFG, Reuse(NAME)).sent == s.sent
  {
    hide Do, Enabled;
    SameSent(s, Reuse(NAME));
  }

  /** A run in which a cluster with a launched node is removed, and its name used and removed again. The launch was sent to
      Mesos, and at the end no record in memory or in the snapshot covers it. */
  lemma ASentLaunchIsForgotten()
    ensures IsRun(INITIAL, CFG, RETIRED + Reuse(NAME))
    ensures var s := Exec(INITIAL, CFG, RETIRED + Reuse(NAME));
            && s.history == [Prepared(EXECUTOR)] && s.sent == [EXECUTOR]
            && !Covered(s.mem, EXECUTOR) && !Covered(s.snap, EXECUTOR)
  {
    hide IsRun, Exec, Covered, Holds, ForgetsNone, EverLaunched, Reuse, RETIRED;
    ClusterRetires();
    NameReuseForgets(CFG, RETIRED, NAME, EXECUTOR);
    RunAppend(INITIAL, CFG, RETIRED, Reuse(NAME));
    ReuseSendsNothing(Exec(INITIAL, CFG, RETIRED));
  }

  // ---------- a removal is undone ----------

  const RUNNING := StatusStep(TaskStatus(ID, TaskRunning, "slave"), NAMES)
  const FINISHED := StatusStep(TaskStatus(ID, TaskFinished, "slave"), NAMES)
  const SCAN := KillStep([KillPlan(NAME, ONE, ONE, {})])
  const MARK := KillStep([KillPlan(NAME, NO_ORDER, ONE, {})])
  const REMOVED: seq<Step> := RESTARTING + [RemoveNodeStep(NAME, ID)]
  const REVIVED: seq<Step> := REMOVED + [SCAN] + [FINISHED]

  const RESTARTING: seq<Step> := SENT + [RUNNING] + [RestartClusterStep(NAME)]

  function Updated(n: Node, status: TaskStatus): Node {
    n.(reconciled := true, status := Some(status), slaveId := status.slaveId).After(status.state)
  }

  lemma OnlyNodeIsUpdated(n: Node, status: TaskStatus, restarting: bool, generation: int)
    requires status.taskId == ID
    ensures var s := OnlyNode(n, false, restarting, generation);
            && IsOrder(NAMES, s.clusters.Keys)
            && StatusUpdate(s, status, NAMES) == OnlyNode(Updated(n, status), false, restarting, generation)
  {
    hide CurrentId, Node.After;
    var s := OnlyNode(n, false, restarting, generation);
    assert s.clusters.Keys == {NAME};
    assert FindCluster(s, NAMES, ID) == Some(NAME);
    assert map[ID := n][ID := Updated(n, status)] == map[ID := Updated(n, status)];
  }

  lemma OnlyNodeRestarts(n: Node)
    ensures RestartCluster(OnlyNode(n, false, false, 0), NAME) == OnlyNode(n, false, true, 1)
  {
    hide CurrentId;
  }

  lemma OnlyNodeIsRemoved(n: Node)
    ensures RemoveNode(OnlyNode(n, false, true, 1), NAME, ID) == OnlyNode(n.KillNext(), false, true, 1)
  {
    hide CurrentId, Node.KillNext;
    assert map[ID := n][ID := n.KillNext()] == map[ID := n.KillNext()];
  }

  /** The orders of a pass that marks the node: it is told to finish first if it is to shut down. */
  function Scan(n: Node): seq<KillPlan> {
    [KillPlan(NAME, if n.destination == Shutdown then ONE else NO_ORDER, ONE, {})]
  }

  lemma ScanFits(n: Node)
    requires n.current == Started && (n.destination == Shutdown || n.destination == Started)
    ensures var s := OnlyNode(n, false, true, 1);
            && KillPlanFits(s, Scan(n)[0]) && IsOrder(ONE, s.clusters[NAME].nodes.Keys)
            && NodesToRemove(s.clusters[NAME]) == {} && Bury(s.clusters[NAME], {}) == s.clusters[NAME]
  {
    hide CurrentId;
    var c := OnlyNode(n, false, true, 1).clusters[NAME];
    assert NodesToKill(c) == if n.destination == Shutdown then {ID} else {};
    assert NodesToRemove(c) == {};
    var b := Bury(c, {});
    assert b.nodes == c.nodes && b.graveyard == c.graveyard && b == c;
  }

  lemma OnlyNodeIsMarked(n: Node)
    requires n.current == Started && n.restartGeneration == 0
    requires n.destination == Shutdown || n.destination == Started
    ensures var s := OnlyNode(n, false, true, 1);
            && KillPlansFit(s, Scan(n))
            && KillTasks(s, Scan(n)).sched == OnlyNode(n.Restart(1), false, true, 1)
  {
    hide CurrentId, StopNodes, StopNode, NodesToKill, NodesToRemove, Bury, IsOrder;
    var s, plan := OnlyNode(n, false, true, 1), Scan(n)[0];
    var c := s.clusters[NAME];
    ScanFits(n);
    assert |c.nodes| == 1;
    assert Scan(n)[1..] == [];
    assert RestartPass(c, ONE).cluster.nodes == map[ID := n.Restart(1)];
    assert s.clusters[NAME := RestartPass(c, ONE).cluster] == OnlyNode(n.Restart(1), false, true, 1).clusters;
  }

  lemma RunningEndsNothing(s: Sched)
    requires IsOrder(NAMES, s.clusters.Keys)
    ensures Ends(s, RUNNING.status, NAMES) == []
  {
    hide FindCluster;
  }

  lemma NodeRuns() returns (n: Node)
    ensures IsRun(INITIAL, CFG, RESTARTING)
    ensures var s := Exec(INITIAL, CFG, RESTARTING);
            s.mem == OnlyNode(n, false, true, 1) && s.history == [Prepared(EXECUTOR)]
    ensures n.destination == Started && n.current == Started && n.restartGeneration == 0
  {
    hide CurrentId, Strip, IsRun, Exec, OnlyNode, RestartCluster, StatusUpdate, IsOrder, FindCluster;
    var first := TaskIsSent();
    var status := TaskStatus(ID, TaskRunning, "slave");
    n := Updated(first, status);
    OnlyNodeIsUpdated(first, status, false, 0);
    OnlyNodeRestarts(n);
    OneMore(INITIAL, CFG, SENT, RUNNING);
    OneMore(INITIAL, CFG, SENT + [RUNNING], RestartClusterStep(NAME));
    RunningEndsNothing(Exec(INITIAL, CFG, SENT).mem);
  }

  lemma NodeIsRemoved() returns (n: Node)
    ensures IsRun(INITIAL, CFG, REMOVED)
    ensures Exec(INITIAL, CFG, REMOVED).mem == OnlyNode(n, false, true, 1)
    ensures n.destination == Shutdown && n.current == Started && n.restartGeneration == 0
  {
    hide CurrentId, Strip, IsRun, Exec, OnlyNode, RemoveNode;
    var running := NodeRuns();
    n := running.KillNext();
    OnlyNodeIsRemoved(running);
    OneMore(INITIAL, CFG, RESTARTING, RemoveNodeStep(NAME, ID));
  }

  /** A run in which the removal of a running node is asked for during a rolling restart. The kill pass stops the node and
      marks it for the restart, and once it has finished it is schedulable again. */
  lemma ARemovedNodeIsRevived()
    ensures IsRun(INITIAL, CFG, REMOVED) && IsRun(INITIAL, CFG, REVIVED)
    ensures var s, t := Exec(INITIAL, CFG, REMOVED).mem, Exec(INITIAL, CFG, REVIVED).mem;
            && Live(s, NAME, ID) && NodeAt(s, NAME, ID).destination == Shutdown
            && Live(t, NAME, ID) && NodeAt(t, NAME, ID).destination == Restarting && Waits(NodeAt(t, NAME, ID))
  {
    hide CurrentId, Strip, IsRun, Exec, KillTasks, KillPlansFit, StatusUpdate, IsOrder, Ends, FindCluster;
    var n := NodeIsRemoved();
    var status := TaskStatus(ID, TaskFinished, "slave");
    OnlyNodeIsMarked(n);
    OnlyNodeIsUpdated(n.Restart(1), status, true, 1);
    OneMore(INITIAL, CFG, REMOVED, SCAN);
    OneMore(INITIAL, CFG, REMOVED + [SCAN], FINISHED);
  }

  // ---------- a restart without a launch ----------

  const MARKED: seq<Step> := RESTARTING + [MARK]

  /** A run in which a rolling restart counts its node as restarted although the node was not launched again: the old task
      reports once more that it runs. */
  lemma ARestartWithoutALaunch()
    ensures IsRun(INITIAL, CFG, MARKED) && IsRun(INITIAL, CFG, MARKED + [RUNNING])
    ensures var s, t := Exec(INITIAL, CFG, MARKED), Exec(INITIAL, CFG, MARKED + [RUNNING]);
            && Live(s.mem, NAME, ID) && !Through(NodeAt(s.mem, NAME, ID), 1)
            && Live(t.mem, NAME, ID) && Through(NodeAt(t.mem, NAME, ID), 1)
            && t.mem.clusters[NAME].generation == 1 && t.mem.clusters[NAME].isRestarting
            && t.history == [Prepared(EXECUTOR)]
  {
    hide CurrentId, Strip, IsRun, Exec, KillTasks, KillPlansFit, StatusUpdate, IsOrder, Ends, RESTARTING;
    var n := NodeRuns();
    OnlyNodeIsMarked(n);
    OnlyNodeIsUpdated(n.Restart(1), RUNNING.status, true, 1);
    OneMore(INITIAL, CFG, RESTARTING, MARK);
    OneMore(INITIAL, CFG, MARKED, RUNNING);
    RunningEndsNothing(Exec(INITIAL, CFG, MARKED).mem);
  }
}
