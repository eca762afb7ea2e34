/** The cluster record of `scheduler/cluster.go` as a value, with what each operation makes of it.
    Go's map iteration order is a parameter: `order` lists the keys, each once, in the order visited. */
module Clusters {
  import opened Options
  import opened NodeIds
  import opened Offers
  import opened Nodes

  datatype Cluster = Cluster(
    name: string,
    nodes: map<string, Node>,
    graveyard: map<string, Node>,
    isKilled: bool,
    isRestarting: bool,
    generation: int)
  {
    /** CanBeRemoved. */
    predicate CanBeRemoved() {
      isKilled && |nodes| == 0
    }

    predicate HasNode(id: string) {
      id in nodes || id in graveyard
    }

    function NextSimpleId(): nat {
      |nodes| + |graveyard| + 1
    }

    function RollingRestart(): Cluster {
      if isRestarting then this else this.(isRestarting := true, generation := generation + 1)
    }
  }

  function NewCluster(name: string): Cluster {
    Cluster(name, map[], map[], false, false, 0)
  }

  /** A possible iteration order of a map with these keys. */
  predicate IsOrder(order: seq<string>, keys: set<string>) {
    && (forall i, j :: 0 <= i < j < |order| ==> order[i] != order[j])
    && (forall i :: 0 <= i < |order| ==> order[i] in keys)
    && |order| == |keys|
  }

  /** An order of the right length misses no key. */
  lemma {:induction false} OrderCovers(order: seq<string>, keys: set<string>)
    requires IsOrder(order, keys)
    ensures forall k :: k in keys <==> k in order
  {
    if order == [] {
    } else {
      var n := |order| - 1;
      OrderCovers(order[..n], keys - {order[n]});
      assert order == order[..n] + [order[n]];
    }
  }

  // ---------- offers ----------

  datatype Visit = Visit(node: Node, helper: Helper, dirty: bool, needs: bool)

  predicate SameSlave(n: Node, offer: Offer) {
    n.slaveId == offer.slaveId || n.hostname == offer.hostname
  }

  /** The body of ApplyOffer's loop for one node. */
  function VisitNode(n: Node, h: Helper, compatibilityMode: bool, pick: nat): Visit {
    if n.NeedsToBeReconciled() then Visit(n, h, false, true)
    else if n.CanBeScheduled() && compatibilityMode then
      match ReservedOffer(n, h, true, pick)
      case Some((m, g)) => Visit(m, g, true, false)
      case None => Visit(n, h, false, false)
    else if n.CanBeScheduled() && n.HasRequestedReservation() && n.uuid in h.persistenceIds then
      match ReservedOffer(n, h, false, pick)
      case Some((m, g)) => Visit(m, g, true, false)
      case None => Visit(n, h, false, true)
    else if n.CanBeScheduled() && n.HasRequestedReservation() && SameSlave(n, h.offer) then
      match ReservedOffer(n, h, compatibilityMode, pick)
      case Some((m, g)) => Visit(m, g, true, false)
      case None => Visit(n.Unreserve(), h, true, false)
    else if n.CanBeScheduled() && !n.HasRequestedReservation() && !compatibilityMode then
      match UnreservedOffer(n, h, pick)
      case Some((m, g)) => Visit(m, g, true, false)
      case None => Visit(n, h, false, false)
    else Visit(n, h, false, false)
  }

  datatype Pass = Pass(nodes: map<string, Node>, helper: Helper, dirty: bool, needs: bool)

  function ApplyNodes(nodes: map<string, Node>, order: seq<string>, picks: seq<nat>,
                      compatibilityMode: bool, h: Helper): (p: Pass)
    requires |picks| == |order| && forall i :: 0 <= i < |order| ==> order[i] in nodes
    ensures p.nodes.Keys == nodes.Keys
  {
    if order == [] then Pass(nodes, h, false, false)
    else
      var i := |order| - 1;
      var p := ApplyNodes(nodes, order[..i], picks[..i], compatibilityMode, h);
      var v := VisitNode(p.nodes[order[i]], p.helper, compatibilityMode, picks[i]);
      Pass(p.nodes[order[i] := v.node], v.helper, p.dirty || v.dirty, p.needs || v.needs)
  }

  // ---------- status updates ----------

  /** HandleNodeStatusUpdate; an update for a node in the graveyard is ignored. */
  function HandleStatus(c: Cluster, status: TaskStatus): Cluster
    requires c.HasNode(status.taskId)
  {
    if status.taskId in c.graveyard then c
    else
      var n := c.nodes[status.taskId].(reconciled := true, status := Some(status), slaveId := status.slaveId);
      c.(nodes := c.nodes[status.taskId := n.After(status.state)])
  }

  // ---------- user commands ----------

  function CreateNode(c: Cluster, framework: string, role: string, principal: string,
                      cpus: real, mem: real, disk: real, uuid: string): Cluster
  {
    var n := NewNode(framework, c.name, role, principal, cpus, mem, disk, c.generation, c.NextSimpleId(), uuid);
    c.(nodes := c.nodes[n.Id() := n])
  }

  function KillAll(c: Cluster): Cluster {
    c.(nodes := map k | k in c.nodes :: c.nodes[k].KillNext(), isKilled := true)
  }

  // ---------- the restart pass ----------

  /** How many nodes the scan of GetNodesToRestart passes over before it breaks. */
  function AlreadyRestarted(c: Cluster, order: seq<string>): (i: nat)
    requires forall i :: 0 <= i < |order| ==> order[i] in c.nodes
    ensures i <= |order|
    ensures forall j :: 0 <= j < i ==> c.nodes[order[j]].HasRestarted(c.generation)
    ensures i < |order| ==> !c.nodes[order[i]].HasRestarted(c.generation)
  {
    if order == [] || !c.nodes[order[0]].HasRestarted(c.generation) then 0
    else 1 + AlreadyRestarted(c, order[1..])
  }

  datatype Restarted = Restarted(cluster: Cluster, marked: Option<string>, modified: bool)

  /** GetNodesToRestart, with the node it marks and the state-modified flag. */
  function RestartPass(c: Cluster, order: seq<string>): Restarted
    requires IsOrder(order, c.nodes.Keys)
  {
    if !c.isRestarting then Restarted(c, None, false)
    else
      var i := AlreadyRestarted(c, order);
      if i == |c.nodes| then Restarted(c.(isRestarting := false), None, true)
      else if c.nodes[order[i]].IsRestarting(c.generation) then Restarted(c, None, false)
      else
        Restarted(c.(nodes := c.nodes[order[i] := c.nodes[order[i]].Restart(c.generation)]), Some(order[i]), true)
  }

  // ---------- reconciliation ----------

  /** GetNodeTasksToReconcile: whom to ask Mesos about; `recent` are those asked in the last five seconds. */
  function NodesToAsk(c: Cluster, recent: set<string>): set<string> {
    set k | k in c.nodes && c.nodes[k].StatusToReconcile().Some? && !c.nodes[k].reconciled && k !in recent
  }

  /** The statuses it asks about. */
  function TasksToReconcile(c: Cluster, recent: set<string>): map<string, TaskStatus> {
    map k | k in NodesToAsk(c, recent) :: c.nodes[k].StatusToReconcile().value
  }

  // ---------- the kill pass ----------

  function NodesToKill(c: Cluster): set<string> {
    set k | k in c.nodes && c.nodes[k].CanBeKilled()
  }

  function NodesToRemove(c: Cluster): set<string> {
    set k | k in c.nodes && c.nodes[k].CanBeRemoved()
  }

  /** RemoveNode of every listed node. */
  function Bury(c: Cluster, ids: set<string>): Cluster
    requires ids <= c.nodes.Keys
  {
    c.(nodes := map k | k in c.nodes && k !in ids :: c.nodes[k],
       graveyard := c.graveyard + map k | k in ids :: c.nodes[k])
  }

  lemma RemovedAreLive(c: Cluster)
    ensures NodesToRemove(c) <= c.nodes.Keys
  {
  }

  // ---------- one node's turn on an offer ----------

  /** What was launched between two moments of one offer; tasks are only ever appended. */
  function NewTasks(before: Helper, after: Helper): seq<Task> {
    if |before.tasks| <= |after.tasks| then after.tasks[|before.tasks|..] else []
  }

  /** Only a schedulable node is touched; a launch uses the next generation of its uuid and is reported dirty. */
  lemma VisitOutcome(n: Node, h: Helper, compatibilityMode: bool, pick: nat)
    ensures var v := VisitNode(n, h, compatibilityMode, pick);
            && h.tasks <= v.helper.tasks
            && v.helper.offer == h.offer && v.helper.persistenceIds == h.persistenceIds
            && v.helper.toUnreserve == h.toUnreserve && v.helper.toDestroy == h.toDestroy
            && (!v.dirty ==> v.node == n && v.helper == h)
            && (v.dirty ==> n.CanBeScheduled() && v.node.reconciled == n.reconciled)
            && v.node.framework == n.framework && v.node.cluster == n.cluster && v.node.simpleId == n.simpleId
            && v.node.uuid == n.uuid && v.node.restartGeneration == n.restartGeneration
            && v.node.destination == n.destination
            && (v.helper.tasks == h.tasks ==> v.node.generation == n.generation)
            && (v.helper.tasks != h.tasks ==>
                  && v.node.generation == n.generation + 1
                  && v.node.current == Starting
                  && NewTasks(h, v.helper) != []
                  && NewTasks(h, v.helper)[0].executor == ExecutorOf(v.node)
                  && |NewTasks(h, v.helper)| == 1)
  {
    hide LaunchAsks, Apply, FitsReserved, LaunchData;
  }

  /** The states in which a node waits for an offer. */
  predicate Waits(n: Node) {
    || (n.current == Unknown && (n.destination == Started || n.destination == Restarting))
    || (n.current == Reserved && (n.destination == Started || n.destination == Restarting))
    || (n.reconciled && n.current == Failed && (n.destination == Started || n.destination == Restarting))
    || (n.reconciled && n.current == Shutdown && n.destination == Restarting)
  }

  /** Room for the node and its executor where the mode looks for it. */
  predicate LaunchRoom(n: Node, h: Helper, compatibilityMode: bool) {
    var free, mine := h.unreserved, h.reserved;
    if compatibilityMode then
      && free.cpus >= n.cpus + 0.1 && free.mem >= n.mem + 32.0 && free.disk >= n.disk && |free.ports| >= n.ports
    else
      && mine.cpus >= n.cpus && mine.mem >= n.mem && mine.disk >= n.disk
      && free.cpus >= 0.1 && free.mem >= 32.0 && free.disk >= 0.0 && |free.ports| >= n.ports
  }

  /** The node's reservation is on the slave or the host of the offer. */
  predicate ComesBack(n: Node, offer: Offer) {
    n.slaveId == offer.slaveId || n.hostname == offer.hostname
  }

  predicate WillLaunch(n: Node, h: Helper, compatibilityMode: bool) {
    && Waits(n) && LaunchRoom(n, h, compatibilityMode)
    && (compatibilityMode || (n.current != Unknown && (n.uuid in h.persistenceIds || ComesBack(n, h.offer))))
  }

  predicate WillReserve(n: Node, h: Helper, compatibilityMode: bool) {
    && Waits(n) && !compatibilityMode && n.current == Unknown
    && h.unreserved.cpus >= n.cpus + 0.1 && h.unreserved.mem >= n.mem + 32.0
    && h.unreserved.disk >= n.disk && |h.unreserved.ports| >= n.ports
  }

  lemma WaitsWhenSchedulable(n: Node)
    ensures n.CanBeScheduled() <==> Waits(n)
    ensures n.HasRequestedReservation() <==> n.current != Unknown
  {
  }

  /** When a turn launches, reserves, gives a reservation up, or asks to keep the offer: exactly then; and only a
      launch or a reservation touches the offer. */
  lemma VisitDecides(n: Node, h: Helper, compatibilityMode: bool, pick: nat)
    ensures var v := VisitNode(n, h, compatibilityMode, pick);
            var launches, reserves := WillLaunch(n, h, compatibilityMode), WillReserve(n, h, compatibilityMode);
            var room, offered := LaunchRoom(n, h, compatibilityMode), n.uuid in h.persistenceIds;
            var holds := Waits(n) && !compatibilityMode && n.current != Unknown;
            && (v.helper.tasks != h.tasks <==> launches)
            && (launches ==> ReservedOffer(n, h, compatibilityMode, pick) == Some((v.node, v.helper)))
            && (reserves ==> UnreservedOffer(n, h, pick) == Some((v.node, v.helper)))
            && (!launches && !reserves ==> v.helper == h)
            && (v.needs <==>
                  (!n.reconciled && n.current != Unknown && n.current != Reserved) || (holds && offered && !room))
            && (v.node.current == Unknown && n.current != Unknown <==>
                  holds && !offered && ComesBack(n, h.offer) && !room)
            && (v.node.current == Reserved && n.current == Unknown <==> reserves)
            && (v.dirty <==> v.helper.tasks != h.tasks || v.node.current != n.current)
  {
    hide LaunchAsks, Apply, LaunchData, MakeReservation, MakeVolume;
    VisitOutcome(n, h, compatibilityMode, pick);
    WaitsWhenSchedulable(n);
  }

  // ---------- invariants ----------

  predicate OwnKey(n: Node, key: string, framework: string, cluster: string) {
    n.framework == framework && n.cluster == cluster && n.Id() == key
  }

  predicate IdsUpTo(c: Cluster, framework: string, total: nat) {
    && c.nodes.Keys !! c.graveyard.Keys
    && (forall k :: k in c.nodes ==> OwnKey(c.nodes[k], k, framework, c.name) && 1 <= c.nodes[k].simpleId <= total)
    && (forall k :: k in c.graveyard ==>
          OwnKey(c.graveyard[k], k, framework, c.name) && 1 <= c.graveyard[k].simpleId <= total)
    && (forall i :: 1 <= i <= total ==> c.HasNode(CurrentId(framework, c.name, i)))
  }

  /** Every key is its node's id, and the simple ids of live and dead nodes are exactly 1 .. their number. */
  predicate IdsExact(c: Cluster, framework: string) {
    IdsUpTo(c, framework, |c.nodes| + |c.graveyard|)
  }

  /** Restart generations lag the cluster by at most one, and only while it is restarting. */
  predicate InBand(c: Cluster) {
    forall k :: k in c.nodes ==>
      if c.isRestarting then c.generation - 1 <= c.nodes[k].restartGeneration <= c.generation
      else c.nodes[k].restartGeneration == c.generation
  }

  /** A step on the live nodes that keeps what the invariants look at. */
  predicate SameIdentity(a: map<string, Node>, b: map<string, Node>) {
    && a.Keys == b.Keys
    && forall k :: k in a ==>
         && b[k].framework == a[k].framework
         && b[k].cluster == a[k].cluster
         && b[k].simpleId == a[k].simpleId
         && b[k].uuid == a[k].uuid
  }

  lemma SameIdentityKeepsIds(c: Cluster, nodes: map<string, Node>, framework: string)
    requires IdsExact(c, framework) && SameIdentity(c.nodes, nodes)
    ensures IdsExact(c.(nodes := nodes), framework)
  {
    hide CurrentId;
    assert |nodes| == |nodes.Keys| == |c.nodes.Keys|;
    forall k | k in nodes ensures OwnKey(nodes[k], k, framework, c.name) {
      assert OwnKey(c.nodes[k], k, framework, c.name);
    }
    forall i | 1 <= i <= |c.nodes| + |c.graveyard| ensures c.(nodes := nodes).HasNode(CurrentId(framework, c.name, i)) {
      assert c.HasNode(CurrentId(framework, c.name, i));
    }
  }

  lemma KilledKeepsIds(c: Cluster, killed: bool, framework: string)
    requires IdsExact(c, framework)
    ensures IdsExact(c.(isKilled := killed), framework)
  {
    hide CurrentId;
    forall i | 1 <= i <= |c.nodes| + |c.graveyard|
      ensures c.(isKilled := killed).HasNode(CurrentId(framework, c.name, i))
    {
      assert c.HasNode(CurrentId(framework, c.name, i));
    }
  }

  lemma NextIdIsFresh(c: Cluster, framework: string, total: nat)
    requires IdsUpTo(c, framework, total)
    ensures !c.HasNode(CurrentId(framework, c.name, total + 1))
  {
    hide CurrentId;
    var id := CurrentId(framework, c.name, total + 1);
    if id in c.nodes {
      CurrentIdInjective(framework, c.name, c.nodes[id].simpleId, c.name, total + 1);
    }
    if id in c.graveyard {
      CurrentIdInjective(framework, c.name, c.graveyard[id].simpleId, c.name, total + 1);
    }
  }

  lemma AddedNodeExtendsIds(c: Cluster, framework: string, total: nat, n: Node)
    requires IdsUpTo(c, framework, total)
    requires OwnKey(n, n.Id(), framework, c.name) && n.simpleId == total + 1
    ensures IdsUpTo(c.(nodes := c.nodes[n.Id() := n]), framework, total + 1)
  {
    hide CurrentId;
    NextIdIsFresh(c, framework, total);
    var d := c.(nodes := c.nodes[n.Id() := n]);
    forall i | 1 <= i <= total + 1 ensures d.HasNode(CurrentId(framework, c.name, i)) {
      assert i <= total ==> c.HasNode(CurrentId(framework, c.name, i));
    }
  }

  lemma AddedKey(nodes: map<string, Node>, id: string, n: Node)
    requires id !in nodes
    ensures nodes[id := n].Keys == nodes.Keys + {id} && |nodes[id := n]| == |nodes| + 1
  {
    assert nodes[id := n].Keys == nodes.Keys + {id};
    assert |nodes[id := n]| == |nodes[id := n].Keys|;
  }

  /** CreateNode never overwrites an entry, and grows the number of ids by one. */
  lemma CreateNodeIsFresh(c: Cluster, framework: string, role: string, principal: string,
                          cpus: real, mem: real, disk: real, uuid: string)
    requires IdsExact(c, framework)
    ensures var d := CreateNode(c, framework, role, principal, cpus, mem, disk, uuid);
            var id := CurrentId(framework, c.name, c.NextSimpleId());
            && !c.HasNode(id)
            && d.nodes.Keys == c.nodes.Keys + {id}
            && |d.nodes| + |d.graveyard| == |c.nodes| + |c.graveyard| + 1
            && IdsExact(d, framework)
  {
    hide CurrentId, IdsUpTo;
    var total := |c.nodes| + |c.graveyard|;
    var n := NewNode(framework, c.name, role, principal, cpus, mem, disk, c.generation, total + 1, uuid);
    NextIdIsFresh(c, framework, total);
    AddedNodeExtendsIds(c, framework, total, n);
    AddedKey(c.nodes, n.Id(), n);
  }

  lemma BuryMovesKeys(c: Cluster, ids: set<string>)
    requires ids <= c.nodes.Keys
    ensures Bury(c, ids).nodes.Keys == c.nodes.Keys - ids
    ensures Bury(c, ids).graveyard.Keys == c.graveyard.Keys + ids
  {
  }

  lemma MoveKeepsTotal(from: set<string>, to: set<string>, ids: set<string>)
    requires from !! to && ids <= from
    ensures |from - ids| + |to + ids| == |from| + |to|
  {
    assert from == (from - ids) + ids;
  }

  lemma MapSize(c: Cluster)
    ensures |c.nodes| == |c.nodes.Keys| && |c.graveyard| == |c.graveyard.Keys|
  {
  }

  lemma BuryKeepsTotal(c: Cluster, ids: set<string>)
    requires c.nodes.Keys !! c.graveyard.Keys && ids <= c.nodes.Keys
    ensures |Bury(c, ids).nodes| + |Bury(c, ids).graveyard| == |c.nodes| + |c.graveyard|
  {
    hide Bury;
    BuryMovesKeys(c, ids);
    MoveKeepsTotal(c.nodes.Keys, c.graveyard.Keys, ids);
    MapSize(c);
    MapSize(Bury(c, ids));
  }

  lemma KeysDisjoint(c: Cluster, framework: string)
    requires IdsExact(c, framework)
    ensures c.nodes.Keys !! c.graveyard.Keys
  {
  }

  lemma BuryKeepsIdsUpTo(c: Cluster, ids: set<string>, framework: string, total: nat)
    requires IdsUpTo(c, framework, total) && ids <= c.nodes.Keys
    ensures IdsUpTo(Bury(c, ids), framework, total)
  {
    hide CurrentId;
    var d := Bury(c, ids);
    forall i | 1 <= i <= total ensures d.HasNode(CurrentId(framework, c.name, i)) {
      assert c.HasNode(CurrentId(framework, c.name, i));
    }
  }

  /** Moving nodes to the graveyard keeps the ids and their number. */
  lemma BuryKeepsIds(c: Cluster, ids: set<string>, framework: string)
    requires IdsExact(c, framework) && ids <= c.nodes.Keys
    ensures IdsExact(Bury(c, ids), framework)
    ensures |Bury(c, ids).nodes| + |Bury(c, ids).graveyard| == |c.nodes| + |c.graveyard|
  {
    hide Bury, IdsUpTo;
    KeysDisjoint(c, framework);
    BuryKeepsTotal(c, ids);
    BuryKeepsIdsUpTo(c, ids, framework, |c.nodes| + |c.graveyard|);
  }

  // ---------- what a restart pass does ----------

  /** The live nodes still behind the cluster generation. */
  function Behind(c: Cluster): set<string> {
    set k | k in c.nodes && c.nodes[k].restartGeneration < c.generation
  }

  /** What a pass leaves alone. */
  lemma RestartPassOutline(c: Cluster, order: seq<string>)
    requires IsOrder(order, c.nodes.Keys)
    ensures var r := RestartPass(c, order).cluster;
            && r.nodes.Keys == c.nodes.Keys && r.graveyard == c.graveyard && r.isKilled == c.isKilled && r.name == c.name
    ensures RestartPass(c, order).marked.Some? ==> RestartPass(c, order).marked.value in c.nodes
  {
  }

  /** The node has come through the restart: it runs, is to run, and carries the generation. */
  predicate Through(n: Node, generation: int) {
    n.destination == Started && n.current == Started && generation <= n.restartGeneration
  }

  /** The node carries the generation and does not run yet. */
  predicate Underway(n: Node, generation: int) {
    (n.destination == Started || n.destination == Restarting) && n.current != Started && generation <= n.restartGeneration
  }

  predicate IsFirstUnfinished(c: Cluster, order: seq<string>, j: nat)
    requires j < |order| && forall i :: 0 <= i < |order| ==> order[i] in c.nodes
  {
    && !Through(c.nodes[order[j]], c.generation)
    && forall i :: 0 <= i < j ==> Through(c.nodes[order[i]], c.generation)
  }

  /** In every iteration order, a pass over a restarting cluster marks at most one node: the first that has not
      restarted, unless it is restarting already. It changes no other, and reports every change. */
  lemma RestartPassMarks(c: Cluster, order: seq<string>)
    requires IsOrder(order, c.nodes.Keys) && c.isRestarting
    ensures var r := RestartPass(c, order);
            && r.cluster.nodes.Keys == c.nodes.Keys
            && (forall k :: k in c.nodes && r.marked != Some(k) ==> r.cluster.nodes[k] == c.nodes[k])
            && (r.marked.Some? ==>
                  var k := r.marked.value;
                  && k in c.nodes && !Through(c.nodes[k], c.generation) && !Underway(c.nodes[k], c.generation)
                  && r.cluster.nodes[k] == c.nodes[k].(restartGeneration := c.generation, destination := Restarting))
            && (!r.modified ==> r.cluster == c && r.marked == None)
            && (forall j :: 0 <= j < |order| && IsFirstUnfinished(c, order, j) ==>
                  r.marked == if Underway(c.nodes[order[j]], c.generation) then None else Some(order[j]))
  {
    hide AlreadyRestarted;
    var i := AlreadyRestarted(c, order);
    forall j | 0 <= j < |order| && IsFirstUnfinished(c, order, j) ensures j == i {
    }
  }

  lemma MarksFirst(c: Cluster, order: seq<string>)
    requires IsOrder(order, c.nodes.Keys) && c.isRestarting
    ensures RestartPass(c, order).marked.Some? ==>
              exists j :: 0 <= j < |order| && order[j] == RestartPass(c, order).marked.value && IsFirstUnfinished(c, order, j)
  {
    hide Node.IsRestarting, AlreadyRestarted;
    MapSize(c);
    var i := AlreadyRestarted(c, order);
    assert i < |order| ==> IsFirstUnfinished(c, order, i);
  }

  /** While one node restarts, a pass marks another exactly if that is the first unfinished one in its order. */
  lemma RestartsOverlap(c: Cluster, order: seq<string>, a: string, b: string)
    requires IsOrder(order, c.nodes.Keys) && c.isRestarting
    requires a in c.nodes && Underway(c.nodes[a], c.generation)
    requires b in c.nodes && !Underway(c.nodes[b], c.generation) && c.nodes[b].destination != Restarting
    ensures var nodes := RestartPass(c, order).cluster.nodes;
            && a in nodes && b in nodes && nodes[a] == c.nodes[a]
            && (nodes[b].destination == Restarting <==>
                  exists j :: 0 <= j < |order| && order[j] == b && IsFirstUnfinished(c, order, j))
  {
    hide IsOrder, Through;
    RestartPassMarks(c, order);
    RestartPassOutline(c, order);
    MarksFirst(c, order);
    hide RestartPass, Underway;
  }

  /** The restart ends exactly when every live node has restarted. */
  lemma RestartPassEnds(c: Cluster, order: seq<string>)
    requires IsOrder(order, c.nodes.Keys) && c.isRestarting
    ensures !RestartPass(c, order).cluster.isRestarting <==>
            forall k :: k in c.nodes ==> Through(c.nodes[k], c.generation)
  {
    hide AlreadyRestarted;
    OrderCovers(order, c.nodes.Keys);
    var i := AlreadyRestarted(c, order);
    if i < |order| {
      assert !Through(c.nodes[order[i]], c.generation);
    } else {
      forall k | k in c.nodes ensures Through(c.nodes[k], c.generation) {
        var j :| 0 <= j < |order| && order[j] == k;
      }
    }
  }

  /** The nodes behind never grow in number during a restart, and marking one that is behind takes it off. */
  lemma RestartPassProgress(c: Cluster, order: seq<string>)
    requires IsOrder(order, c.nodes.Keys) && c.isRestarting
    ensures var r := RestartPass(c, order);
            Behind(r.cluster) == Behind(c) - (if r.marked.Some? then {r.marked.value} else {})
  {
    RestartPassMarks(c, order);
  }

  lemma RestartPassKeepsBand(c: Cluster, order: seq<string>)
    requires IsOrder(order, c.nodes.Keys) && InBand(c)
    ensures InBand(RestartPass(c, order).cluster)
  {
    if c.isRestarting {
      RestartPassMarks(c, order);
      RestartPassEnds(c, order);
    }
  }

  // ---------- what a status update does ----------

  /** The states an update leaves a node in; an update the scheduler does not know leaves it where it was. */
  function CurrentAfter(n: Node, state: TaskState): ProcessState {
    match state
    case TaskStaging | TaskStarting => Starting
    case TaskRunning => Started
    case TaskFinished | TaskKilled => Shutdown
    case TaskFailed | TaskLost | TaskError => Failed
    case TaskOther => n.current
  }

  predicate SaysItRuns(state: TaskState) {
    state == TaskStaging || state == TaskStarting || state == TaskRunning
  }

  /** An update for a live node reconciles it, records the status and where it came from, and moves it; no other node and
      nothing else of it changes. Whether it is launched again depends on the kind of end and on what the node is to
      become: one to be started waits for an offer after it failed, one that restarts after every end, one that is to
      shut down after none. */
  lemma UpdateMoves(c: Cluster, status: TaskStatus)
    requires status.taskId in c.nodes && status.taskId !in c.graveyard
    ensures var d, k, n, state := HandleStatus(c, status), status.taskId, c.nodes[status.taskId], status.state;
            && k in d.nodes
            && var m := d.nodes[k];
               && d == c.(nodes := c.nodes[k := m])
               && m == n.(reconciled := true, status := Some(status), slaveId := status.slaveId,
                          current := CurrentAfter(n, state), destination := if SaysItRuns(state) then Started else n.destination)
               && (n.destination == Started && state != TaskOther ==>
                     (Waits(m) <==> state == TaskFailed || state == TaskLost || state == TaskError))
               && (n.destination == Restarting && state != TaskOther ==> (Waits(m) <==> state.Terminal()))
               && (n.destination == Shutdown ==> !Waits(m))
  {
    hide CurrentId;
  }
}
