/** The cluster object of `scheduler/cluster.go`: maps of live and dead node objects, updated in place by loops over
    the maps. `View` is its value; each method is proved to change it as the function in Clusters does. */
module RiakClusters {
  import opened Options
  import opened Offers
  import opened Nodes
  import opened Clusters
  import opened OfferHelpers
  import opened RiakNodes

  // ---------- maps of node objects ----------

  /** The records of a map of nodes. */
  function Records(nodes: map<string, RiakNode>): (r: map<string, Node>)
    reads nodes.Values
    ensures r.Keys == nodes.Keys
  {
    map k | k in nodes :: nodes[k].Rec()
  }

  /** One object, one key, dead or alive. */
  predicate Apart(nodes: map<string, RiakNode>, graveyard: map<string, RiakNode>) {
    && (forall a, b :: a in nodes && b in nodes && nodes[a] == nodes[b] ==> a == b)
    && (forall a, b :: a in nodes && b in graveyard ==> nodes[a] != graveyard[b])
  }

  lemma RecordsOf(nodes: map<string, RiakNode>)
    ensures forall k :: k in nodes ==> Records(nodes)[k] == nodes[k].Rec()
    ensures |Records(nodes)| == |nodes|
  {
    hide RiakNode.Rec;
    assert |Records(nodes)| == |Records(nodes).Keys| && |nodes| == |nodes.Keys|;
  }

  lemma NodesExist(nodes: map<string, RiakNode>)
    ensures forall n :: n in nodes.Values ==> allocated(n)
  {
  }

  lemma ReconciledOf(node: RiakNode)
    ensures node.Rec().reconciled == node.reconciled
  {
  }

  /** The records after a change of one node. */
  lemma OneChanged(nodes: map<string, RiakNode>, before: map<string, Node>, id: string)
    requires id in nodes && before.Keys == nodes.Keys
    requires forall k :: k in nodes && k != id ==> nodes[k].Rec() == before[k]
    ensures Records(nodes) == before[id := nodes[id].Rec()]
  {
    hide RiakNode.Rec;
  }

  /** A change of one live node is no change of any other record. */
  lemma ApartFrom(nodes: map<string, RiakNode>, graveyard: map<string, RiakNode>, key: string)
    requires Apart(nodes, graveyard) && key in nodes
    ensures forall k :: k in nodes && k != key ==> nodes[k] != nodes[key]
    ensures forall n :: n in graveyard.Values ==> n != nodes[key] && allocated(n)
  {
  }

  lemma ApartAdded(nodes: map<string, RiakNode>, graveyard: map<string, RiakNode>, id: string, node: RiakNode)
    requires Apart(nodes, graveyard)
    requires (forall k :: k in nodes ==> nodes[k] != node) && forall k :: k in graveyard ==> graveyard[k] != node
    ensures Apart(nodes[id := node], graveyard)
  {
  }

  lemma OneAdded(nodes: map<string, RiakNode>, id: string, node: RiakNode)
    ensures Records(nodes[id := node]) == Records(nodes)[id := node.Rec()]
  {
    hide RiakNode.Rec;
  }

  lemma Moved(nodes: map<string, RiakNode>, graveyard: map<string, RiakNode>, ids: set<string>)
    requires ids <= nodes.Keys
    ensures var live: map<string, RiakNode>, dead: map<string, RiakNode> :=
              map k | k in nodes && k !in ids :: nodes[k], graveyard + map k | k in ids :: nodes[k];
            && Records(live) == (map k | k in Records(nodes) && k !in ids :: Records(nodes)[k])
            && Records(dead) == Records(graveyard) + map k | k in ids :: Records(nodes)[k]
  {
    hide RiakNode.Rec;
  }

  // ---------- loops, one step at a time ----------

  lemma ApplyNodesStep(nodes: map<string, Node>, order: seq<string>, picks: seq<nat>,
                       compatibilityMode: bool, h: Helper, i: nat)
    requires |picks| == |order| && (forall j :: 0 <= j < |order| ==> order[j] in nodes) && i < |order|
    ensures var q := ApplyNodes(nodes, order[..i], picks[..i], compatibilityMode, h);
            var v := VisitNode(q.nodes[order[i]], q.helper, compatibilityMode, picks[i]);
            ApplyNodes(nodes, order[..i + 1], picks[..i + 1], compatibilityMode, h) ==
            Pass(q.nodes[order[i] := v.node], v.helper, q.dirty || v.dirty, q.needs || v.needs)
  {
    hide VisitNode;
    assert order[..i + 1][..i] == order[..i] && picks[..i + 1][..i] == picks[..i];
  }

  lemma AllKilled(c: Cluster, live: map<string, Node>)
    requires live.Keys == c.nodes.Keys
    requires forall k :: k in c.nodes ==> live[k] == c.nodes[k].KillNext()
    ensures KillAll(c) == c.(nodes := live, isKilled := true)
  {
    hide Node.KillNext;
    assert live == map k | k in c.nodes :: c.nodes[k].KillNext();
  }

  lemma OneCreated(c: Cluster, framework: string, role: string, principal: string,
                   cpus: real, mem: real, disk: real, uuid: string)
    ensures var n := NewNode(framework, c.name, role, principal, cpus, mem, disk, c.generation, c.NextSimpleId(), uuid);
            Clusters.CreateNode(c, framework, role, principal, cpus, mem, disk, uuid) == c.(nodes := c.nodes[n.Id() := n])
  {
  }

  lemma RestartIdle(c: Cluster, order: seq<string>)
    requires IsOrder(order, c.nodes.Keys) && !c.isRestarting
    ensures RestartPass(c, order) == Restarted(c, None, false)
  {
  }

  lemma PassCases(c: Cluster, order: seq<string>, i: nat)
    requires IsOrder(order, c.nodes.Keys) && c.isRestarting && i == AlreadyRestarted(c, order)
    ensures i <= |order|
    ensures i == |order| ==> RestartPass(c, order) == Restarted(c.(isRestarting := false), None, true)
    ensures i < |order| ==>
              var n := c.nodes[order[i]];
              RestartPass(c, order) ==
              if n.IsRestarting(c.generation) then Restarted(c, None, false)
              else Restarted(c.(nodes := c.nodes[order[i] := n.Restart(c.generation)]), Some(order[i]), true)
  {
    hide AlreadyRestarted, Node.Restart, Node.IsRestarting, Apart;
    MapSize(c);
  }

  lemma AskedAre(c: Cluster, recent: set<string>, tasks: map<string, TaskStatus>)
    requires forall k :: k in tasks <==>
               k in c.nodes && c.nodes[k].StatusToReconcile().Some? && !c.nodes[k].reconciled && k !in recent
    requires forall k :: k in tasks ==> tasks[k] == c.nodes[k].StatusToReconcile().value
    ensures tasks == TasksToReconcile(c, recent)
  {
    hide Node.StatusToReconcile;
  }

  lemma NoNodes(nodes: map<string, Node>, compatibilityMode: bool, h: Helper)
    ensures ApplyNodes(nodes, [], [], compatibilityMode, h) == Pass(nodes, h, false, false)
  {
  }

  class RiakCluster {
    const name: string
    var nodes: map<string, RiakNode>
    var graveyard: map<string, RiakNode>
    var isKilled: bool
    var isRestarting: bool
    var generation: int

    predicate Valid()
      reads this
    {
      Apart(nodes, graveyard)
    }

    ghost function Objects(): set<RiakNode>
      reads this
    {
      nodes.Values + graveyard.Values
    }

    function View(): (c: Cluster)
      reads this, nodes.Values, graveyard.Values
      ensures c.name == name && c.nodes.Keys == nodes.Keys && c.graveyard.Keys == graveyard.Keys
    {
      Cluster(name, Records(nodes), Records(graveyard), isKilled, isRestarting, generation)
    }

    constructor (name: string)
      ensures Valid() && Objects() == {} && View() == NewCluster(name)
    {
      this.name := name;
      nodes, graveyard := map[], map[];
      isKilled, isRestarting, generation := false, false, 0;
    }

    // ---------- offers ----------

    /** The body of ApplyOffer's loop. */
    method Visit(node: RiakNode, h: OfferHelper, compatibilityMode: bool, pick: nat) returns (needs: bool, dirty: bool)
      requires h.Valid()
      modifies node, h`toReserve, h`toCreate, h`held, h`tasks, h.reserved, h.unreserved
      ensures Clusters.Visit(node.Rec(), h.View(), dirty, needs) ==
              VisitNode(old(node.Rec()), old(h.View()), compatibilityMode, pick)
    {
      hide ReservedOffer, UnreservedOffer;
      needs, dirty := false, false;
      if node.Rec().NeedsToBeReconciled() {
        return true, false;
      }
      if node.Rec().CanBeScheduled() && compatibilityMode {
        dirty := node.ApplyReservedOffer(h, compatibilityMode, pick);
        return;
      }
      var offered := h.HasPersistenceId(node.uuid);
      if node.Rec().CanBeScheduled() && node.Rec().HasRequestedReservation() && offered {
        dirty := node.ApplyReservedOffer(h, compatibilityMode, pick);
        needs := !dirty;
        return;
      }
      if node.Rec().CanBeScheduled() && node.Rec().HasRequestedReservation()
         && (node.slaveId == h.offer.slaveId || node.hostname == h.offer.hostname) {
        var applied := node.ApplyReservedOffer(h, compatibilityMode, pick);
        if !applied {
          node.Unreserve();
        }
        dirty := true;
        return;
      }
      if node.Rec().CanBeScheduled() && !node.Rec().HasRequestedReservation() && !compatibilityMode {
        dirty := node.ApplyUnreservedOffer(h, pick);
      }
    }

    method VisitKey(key: string, h: OfferHelper, compatibilityMode: bool, pick: nat) returns (needs: bool, dirty: bool)
      requires Valid() && h.Valid() && key in nodes
      modifies nodes[key], h`toReserve, h`toCreate, h`held, h`tasks, h.reserved, h.unreserved
      ensures Records(graveyard) == old(Records(graveyard))
      ensures var v := VisitNode(old(Records(nodes)[key]), old(h.View()), compatibilityMode, pick);
              && Records(nodes) == old(Records(nodes))[key := v.node]
              && Clusters.Visit(v.node, h.View(), dirty, needs) == v
    {
      hide VisitNode, RiakNode.Rec, OfferHelper.View, Records, Apart;
      RecordsOf(nodes);
      ApartFrom(nodes, graveyard, key);
      ghost var before, dead := Records(nodes), Records(graveyard);
      needs, dirty := Visit(nodes[key], h, compatibilityMode, pick);
      assert Records(graveyard) == dead;
      OneChanged(nodes, before, key);
    }

    /** The loop of ApplyOffer, in the given order of the live nodes. */
    method ApplyOffer(h: OfferHelper, compatibilityMode: bool, order: seq<string>, picks: seq<nat>)
      returns (needs: bool, dirty: bool)
      requires Valid() && h.Valid()
      requires IsOrder(order, nodes.Keys) && |picks| == |order|
      modifies nodes.Values, h`toReserve, h`toCreate, h`held, h`tasks, h.reserved, h.unreserved
      ensures var p := ApplyNodes(old(View()).nodes, order, picks, compatibilityMode, old(h.View()));
              && View() == old(View()).(nodes := p.nodes)
              && h.View() == p.helper && needs == p.needs && dirty == p.dirty
    {
      hide VisitNode, ApplyNodes, Records, RiakNode.Rec, OfferHelper.View, Apart;
      needs, dirty := false, false;
      ghost var before, dead, start := Records(nodes), Records(graveyard), h.View();
      assert order[..0] == [] && picks[..0] == [];
      NoNodes(before, compatibilityMode, start);
      for i := 0 to |order|
        invariant Records(graveyard) == dead
        invariant ApplyNodes(before, order[..i], picks[..i], compatibilityMode, start) ==
                  Pass(Records(nodes), h.View(), dirty, needs)
      {
        ApplyNodesStep(before, order, picks, compatibilityMode, start, i);
        var nodeNeeds, nodeDirty := VisitKey(order[i], h, compatibilityMode, picks[i]);
        needs, dirty := needs || nodeNeeds, dirty || nodeDirty;
      }
      assert order[..|order|] == order && picks[..|order|] == picks;
    }

    // ---------- commands ----------

    method RollingRestart()
      modifies `isRestarting, `generation
      ensures View() == old(View()).RollingRestart() && Objects() == old(Objects()) && Valid() == old(Valid())
    {
      if isRestarting {
        return;
      }
      isRestarting := true;
      generation := generation + 1;
    }

    method KillNode(key: string)
      requires Valid() && key in nodes
      modifies nodes[key]
      ensures Records(nodes) == old(Records(nodes))[key := old(Records(nodes))[key].KillNext()]
      ensures Records(graveyard) == old(Records(graveyard))
    {
      hide RiakNode.Rec, Records, Node.KillNext, Apart;
      RecordsOf(nodes);
      ApartFrom(nodes, graveyard, key);
      ghost var before := Records(nodes);
      nodes[key].KillNext();
      OneChanged(nodes, before, key);
    }

    /** In whatever order the map is walked. */
    method KillNodes()
      requires Valid()
      modifies nodes.Values
      ensures Records(graveyard) == old(Records(graveyard))
      ensures forall k :: k in nodes ==> Records(nodes)[k] == old(Records(nodes))[k].KillNext()
    {
      hide RiakNode.Rec, Records, Apart, Node.KillNext;
      ghost var before, dead := Records(nodes), Records(graveyard);
      var left := nodes.Keys;
      while left != {}
        invariant left <= nodes.Keys
        invariant Records(graveyard) == dead
        invariant forall k :: k in nodes ==>
                    Records(nodes)[k] == if k in left then before[k] else before[k].KillNext()
        decreases |left|
      {
        var key :| key in left;
        KillNode(key);
        left := left - {key};
      }
    }

    /** removeCluster: every live node is to shut down, then the cluster. */
    method KillNext()
      requires Valid()
      modifies `isKilled, nodes.Values
      ensures Valid() && Objects() == old(Objects()) && View() == KillAll(old(View()))
    {
      hide RiakNode.Rec, Records, Apart, Node.KillNext, KillAll;
      KillNodes();
      AllKilled(old(View()), Records(nodes));
      isKilled := true;
    }

    method AddNode(id: string, node: RiakNode)
      requires Valid() && (forall k :: k in nodes ==> nodes[k] != node) && forall k :: k in graveyard ==> graveyard[k] != node
      modifies `nodes
      ensures Valid() && nodes == old(nodes)[id := node]
      ensures Records(nodes) == old(Records(nodes))[id := node.Rec()] && Records(graveyard) == old(Records(graveyard))
    {
      hide RiakNode.Rec, Records, Apart;
      OneAdded(nodes, id, node);
      ApartAdded(nodes, graveyard, id, node);
      nodes := nodes[id := node];
    }

    method CreateNode(framework: string, role: string, principal: string,
                      cpus: real, mem: real, disk: real, uuid: string) returns (node: RiakNode)
      requires Valid()
      modifies `nodes
      ensures Valid() && fresh(node) && graveyard == old(graveyard) && Objects() <= old(Objects()) + {node}
      ensures nodes == old(nodes)[node.Rec().Id() := node]
      ensures View() == Clusters.CreateNode(old(View()), framework, role, principal, cpus, mem, disk, uuid)
    {
      hide RiakNode.Rec, Records, NewNode, Node.Id, Clusters.CreateNode, Apart;
      RecordsOf(nodes);
      RecordsOf(graveyard);
      NodesExist(nodes);
      NodesExist(graveyard);
      ghost var start := View();
      OneCreated(start, framework, role, principal, cpus, mem, disk, uuid);
      var simpleId := |nodes| + |graveyard| + 1;
      node := new RiakNode(framework, name, role, principal, cpus, mem, disk, generation, simpleId, uuid);
      assert Records(nodes) == start.nodes && Records(graveyard) == start.graveyard;
      assert start.NextSimpleId() == simpleId;
      ghost var n := node.Rec();
      AddNode(node.Rec().Id(), node);
      assert View() == start.(nodes := start.nodes[n.Id() := n]);
    }

    method RemoveNode(id: string)
      requires Valid() && id in nodes
      modifies `nodes, `graveyard
      ensures Valid()
      ensures nodes == old(nodes) - {id} && graveyard == old(graveyard)[id := old(nodes)[id]]
    {
      graveyard := graveyard[id := nodes[id]];
      nodes := nodes - {id};
    }

    // ---------- status updates ----------

    method HandleNodeStatusUpdate(update: TaskStatus)
      requires Valid() && (update.taskId in nodes || update.taskId in graveyard)
      modifies nodes.Values
      ensures Valid() && View() == HandleStatus(old(View()), update)
    {
      hide RiakNode.Rec, Node.After, Records;
      if update.taskId in graveyard {
        return;
      }
      RecordsOf(nodes);
      ghost var before := Records(nodes);
      nodes[update.taskId].Update(update);
      OneChanged(nodes, before, update.taskId);
    }

    // ---------- the passes ----------

    function Stamps(): (r: map<string, Option<real>>)
      reads this, nodes.Values
      ensures r.Keys == nodes.Keys
    {
      map k | k in nodes :: nodes[k].lastAsked
    }

    /** The nodes asked about in the last five seconds. */
    function Recent(now: real): set<string>
      reads this, nodes.Values
    {
      set k | k in nodes && nodes[k].AskedLately(now)
    }

    method AskOne(key: string, now: real)
      requires Valid() && key in nodes
      modifies nodes[key]
      ensures Records(nodes) == old(Records(nodes)) && Records(graveyard) == old(Records(graveyard))
      ensures forall k :: k in nodes ==> nodes[k].lastAsked == if k == key then Some(now) else old(nodes[k].lastAsked)
    {
      hide RiakNode.Rec, Records, Apart;
      RecordsOf(nodes);
      ApartFrom(nodes, graveyard, key);
      ghost var before := Records(nodes);
      nodes[key].Ask(now);
      OneChanged(nodes, before, key);
    }

    /** A node just asked about is recent for five seconds; the others are if they were. */
    lemma RecentNow(before: map<string, Option<real>>, asked: set<string>, now: real, later: real)
      requires before.Keys == nodes.Keys && asked <= nodes.Keys
      requires forall k :: k in nodes ==> nodes[k].lastAsked == if k in asked then Some(now) else before[k]
      ensures later <= now + 5.0 ==> asked <= Recent(later)
      ensures Recent(now) == asked + set k | k in before && Lately(before[k], now)
    {
    }

    /** Whom to ask Mesos about, in whatever order the map is walked; they are stamped with the time. */
    method GetNodeTasksToReconcile(now: real) returns (tasks: map<string, TaskStatus>)
      requires Valid()
      modifies nodes.Values
      ensures View() == old(View()) && tasks == TasksToReconcile(old(View()), old(Recent(now)))
      ensures tasks.Keys <= nodes.Keys
      ensures forall k :: k in nodes ==> nodes[k].lastAsked == if k in tasks then Some(now) else old(nodes[k].lastAsked)
    {
      hide RiakNode.Rec, Node.StatusToReconcile, Records, Apart, TasksToReconcile, NodesToAsk;
      ghost var before, dead, recent := Records(nodes), Records(graveyard), Recent(now);
      tasks := map[];
      var left := nodes.Keys;
      while left != {}
        invariant left <= nodes.Keys && Records(nodes) == before && Records(graveyard) == dead
        invariant forall k :: k in tasks <==>
                    k in nodes && k !in left && before[k].StatusToReconcile().Some? && !before[k].reconciled && k !in recent
        invariant forall k :: k in tasks ==> tasks[k] == before[k].StatusToReconcile().value
        invariant forall k :: k in nodes ==>
                    nodes[k].lastAsked == if k in tasks then Some(now) else old(nodes[k].lastAsked)
        decreases |left|
      {
        var key :| key in left;
        RecordsOf(nodes);
        assert key in recent <==> nodes[key].AskedLately(now);
        var asks := nodes[key].Rec().StatusToReconcile();
        if asks.Some? && !nodes[key].reconciled && !nodes[key].AskedLately(now) {
          assert !before[key].reconciled by {
            ReconciledOf(nodes[key]);
          }
          AskOne(key, now);
          tasks := tasks[key := asks.value];
        } else {
          ReconciledOf(nodes[key]);
        }
        left := left - {key};
      }
      AskedAre(View(), recent, tasks);
    }

    /** The two lists of the kill pass, in whatever order the map is walked. */
    method GetNodesToKillOrRemove() returns (toKill: set<string>, toRemove: set<string>)
      ensures toKill == NodesToKill(View()) && toRemove == NodesToRemove(View())
    {
      hide RiakNode.Rec, Node.CanBeKilled, Node.CanBeRemoved, Records;
      RecordsOf(nodes);
      toKill, toRemove := {}, {};
      var left := nodes.Keys;
      while left != {}
        invariant left <= nodes.Keys
        invariant forall k :: k in toKill <==> k in nodes && k !in left && nodes[k].Rec().CanBeKilled()
        invariant forall k :: k in toRemove <==> k in nodes && k !in left && nodes[k].Rec().CanBeRemoved()
        decreases |left|
      {
        var key :| key in left;
        if nodes[key].Rec().CanBeKilled() {
          toKill := toKill + {key};
        }
        if nodes[key].Rec().CanBeRemoved() {
          toRemove := toRemove + {key};
        }
        left := left - {key};
      }
    }

    /** The scan of GetNodesToRestart up to where it breaks. */
    method CountRestarted(order: seq<string>) returns (alreadyRestarted: nat)
      requires IsOrder(order, nodes.Keys)
      ensures alreadyRestarted == AlreadyRestarted(View(), order)
    {
      hide RiakNode.Rec, Records, Node.HasRestarted;
      RecordsOf(nodes);
      alreadyRestarted := 0;
      while alreadyRestarted < |order| && nodes[order[alreadyRestarted]].Rec().HasRestarted(generation)
        invariant alreadyRestarted <= |order|
        invariant AlreadyRestarted(View(), order) == alreadyRestarted + AlreadyRestarted(View(), order[alreadyRestarted..])
      {
        assert order[alreadyRestarted..][1..] == order[alreadyRestarted + 1..];
        alreadyRestarted := alreadyRestarted + 1;
      }
    }

    method Mark(key: string)
      requires Valid() && key in nodes
      modifies nodes[key]
      ensures Records(nodes) == old(Records(nodes))[key := old(Records(nodes))[key].Restart(generation)]
      ensures Records(graveyard) == old(Records(graveyard))
    {
      hide RiakNode.Rec, Records, Node.Restart, Apart;
      RecordsOf(nodes);
      ApartFrom(nodes, graveyard, key);
      ghost var before := Records(nodes);
      nodes[key].Restart(generation);
      OneChanged(nodes, before, key);
    }

    /** GetNodesToRestart: mark the first node that has not restarted, unless it is the one restarting. */
    method GetNodesToRestart(order: seq<string>) returns (marked: Option<string>, modified: bool)
      requires Valid() && IsOrder(order, nodes.Keys)
      modifies `isRestarting, nodes.Values
      ensures Restarted(View(), marked, modified) == RestartPass(old(View()), order)
    {
      hide RiakNode.Rec, Records, AlreadyRestarted, RestartPass, Node.Restart, Node.IsRestarting, Apart;
      marked, modified := None, false;
      if !isRestarting {
        RestartIdle(View(), order);
        return;
      }
      RecordsOf(nodes);
      ghost var start := View();
      var alreadyRestarted := CountRestarted(order);
      PassCases(start, order, alreadyRestarted);
      if alreadyRestarted < |order| {
        var key := order[alreadyRestarted];
        if !nodes[key].Rec().IsRestarting(generation) {
          marked := Some(key);
          Mark(key);
          modified := true;
        }
      }
      assert |order| == |nodes|;
      if alreadyRestarted == |nodes| {
        isRestarting := false;
        modified := true;
      }
    }

    method MoveNodes(ids: set<string>)
      requires Valid() && ids <= nodes.Keys
      modifies `nodes, `graveyard
      ensures Valid()
      ensures nodes == map k | k in old(nodes) && k !in ids :: old(nodes)[k]
      ensures graveyard == old(graveyard) + map k | k in ids :: old(nodes)[k]
    {
      hide Apart;
      var left := ids;
      while left != {}
        invariant left <= ids && Valid()
        invariant forall k :: k in nodes <==> k in old(nodes) && (k in ids ==> k in left)
        invariant forall k :: k in nodes ==> nodes[k] == old(nodes)[k]
        invariant forall k :: k in graveyard <==> k in old(graveyard) || (k in ids && k !in left)
        invariant forall k :: k in graveyard ==>
                    graveyard[k] == if k in ids && k !in left then old(nodes)[k] else old(graveyard)[k]
        decreases |left|
      {
        var id :| id in left;
        RemoveNode(id);
        left := left - {id};
      }
    }

    /** RemoveNode of every listed node, in any order. */
    method BuryNodes(ids: set<string>)
      requires Valid() && ids <= nodes.Keys
      modifies `nodes, `graveyard
      ensures Valid() && Objects() <= old(Objects()) && nodes.Values <= old(nodes.Values)
      ensures View() == Bury(old(View()), ids)
    {
      hide RiakNode.Rec, Records, Apart;
      Moved(nodes, graveyard, ids);
      MoveNodes(ids);
    }
  }
}
