/** What one offer does over all clusters, in every iteration order and for every choice of port windows: it destroys
    no volume a node still needs, and gives back no reservation a node still counts on. */
module OfferSafety {
  import opened Offers
  import opened Nodes
  import opened Clusters
  import opened Scheduler

  // ---------- no volume in use is destroyed ----------

  /** Why a volume with this persistence id must not be destroyed for this node's sake. */
  predicate Claims(n: Node, id: string) {
    || (!n.reconciled && n.current != Unknown && n.current != Reserved)
    || (n.uuid == id && Waits(n) && n.current != Unknown)
  }

  predicate HasVolume(volumes: seq<Resource>, id: string) {
    exists i :: 0 <= i < |volumes| && volumes[i].disk.Some? && volumes[i].disk.value.persistenceId == id
  }

  predicate Destroys(ops: seq<Operation>, id: string) {
    exists i :: 0 <= i < |ops| && ops[i].Destroy? && HasVolume(ops[i].volumes, id)
  }

  /** A claim on an offered volume is noticed: the node is launched, or the offer is not given back. */
  predicate Noticed(before: Helper, after: Helper, needs: bool) {
    needs || |before.tasks| < |after.tasks|
  }

  lemma ClaimIsNoticed(n: Node, h: Helper, pick: nat, id: string)
    requires Claims(n, id) && id in h.persistenceIds
    ensures var v := VisitNode(n, h, false, pick);
            Noticed(h, v.helper, v.needs)
  {
    hide LaunchAsks, Apply, FitsReserved, LaunchData;
  }

  /** What the helper keeps over any number of turns. */
  predicate SameOffer(before: Helper, after: Helper) {
    && before.tasks <= after.tasks
    && after.offer == before.offer && after.persistenceIds == before.persistenceIds
    && after.toUnreserve == before.toUnreserve && after.toDestroy == before.toDestroy
  }

  lemma {:induction false} UnvisitedNodesStay(nodes: map<string, Node>, order: seq<string>, picks: seq<nat>,
                                              compatibilityMode: bool, h: Helper, k: string)
    requires |picks| == |order| && forall i :: 0 <= i < |order| ==> order[i] in nodes
    requires k in nodes && forall i :: 0 <= i < |order| ==> order[i] != k
    ensures ApplyNodes(nodes, order, picks, compatibilityMode, h).nodes[k] == nodes[k]
  {
    hide VisitNode;
    if order != [] {
      var i := |order| - 1;
      UnvisitedNodesStay(nodes, order[..i], picks[..i], compatibilityMode, h, k);
    }
  }

  lemma {:induction false} PassKeepsOffer(nodes: map<string, Node>, order: seq<string>, picks: seq<nat>,
                                          compatibilityMode: bool, h: Helper)
    requires |picks| == |order| && forall i :: 0 <= i < |order| ==> order[i] in nodes
    ensures SameOffer(h, ApplyNodes(nodes, order, picks, compatibilityMode, h).helper)
  {
    hide VisitNode;
    if order != [] {
      var i := |order| - 1;
      PassKeepsOffer(nodes, order[..i], picks[..i], compatibilityMode, h);
      var q := ApplyNodes(nodes, order[..i], picks[..i], compatibilityMode, h);
      VisitOutcome(q.nodes[order[i]], q.helper, compatibilityMode, picks[i]);
    }
  }

  lemma {:induction false} PassNoticesClaims(nodes: map<string, Node>, order: seq<string>, picks: seq<nat>,
                                             h: Helper, j: nat, id: string)
    requires |picks| == |order| && forall i :: 0 <= i < |order| ==> order[i] in nodes
    requires forall a, b :: 0 <= a < b < |order| ==> order[a] != order[b]
    requires j < |order| && Claims(nodes[order[j]], id) && id in h.persistenceIds
    ensures var p := ApplyNodes(nodes, order, picks, false, h);
            Noticed(h, p.helper, p.needs)
  {
    hide VisitNode, Claims;
    var i := |order| - 1;
    var q := ApplyNodes(nodes, order[..i], picks[..i], false, h);
    PassKeepsOffer(nodes, order[..i], picks[..i], false, h);
    VisitOutcome(q.nodes[order[i]], q.helper, false, picks[i]);
    if j < i {
      PassNoticesClaims(nodes, order[..i], picks[..i], h, j, id);
    } else {
      UnvisitedNodesStay(nodes, order[..i], picks[..i], false, h, order[i]);
      ClaimIsNoticed(nodes[order[i]], q.helper, picks[i], id);
    }
  }

  /** A pass that reports no change has made none. */
  lemma {:induction false} QuietPass(nodes: map<string, Node>, order: seq<string>, picks: seq<nat>,
                                     compatibilityMode: bool, h: Helper)
    requires |picks| == |order| && forall i :: 0 <= i < |order| ==> order[i] in nodes
    ensures var p := ApplyNodes(nodes, order, picks, compatibilityMode, h);
            !p.dirty ==> p.nodes == nodes && p.helper == h
  {
    hide VisitNode;
    if order != [] {
      var i := |order| - 1;
      QuietPass(nodes, order[..i], picks[..i], compatibilityMode, h);
      var q := ApplyNodes(nodes, order[..i], picks[..i], compatibilityMode, h);
      VisitOutcome(q.nodes[order[i]], q.helper, compatibilityMode, picks[i]);
    }
  }

  lemma QuietTurn(s: Sched, plan: OfferPlan, compatibilityMode: bool, h: Helper)
    requires OfferPlanFits(s, plan)
    ensures var a := OfferCluster(s, plan, compatibilityMode, h);
            !a.dirty ==> a.sched == s && a.helper == h
  {
    hide ApplyNodes;
    var c := s.clusters[plan.name];
    QuietPass(c.nodes, plan.order, plan.picks, compatibilityMode, h);
    assert s.clusters[plan.name := c] == s.clusters;
  }

  lemma {:induction false} QuietOffer(s: Sched, plans: seq<OfferPlan>, compatibilityMode: bool, h: Helper)
    requires OfferPlansFit(s, plans, compatibilityMode, h)
    ensures var a := OfferClusters(s, plans, compatibilityMode, h);
            !a.dirty ==> a.sched == s && a.helper == h
    decreases |plans|
  {
    hide OfferCluster, OfferPlanFits;
    if plans != [] {
      var a := OfferCluster(s, plans[0], compatibilityMode, h);
      QuietTurn(s, plans[0], compatibilityMode, h);
      QuietOffer(a.sched, plans[1..], compatibilityMode, a.helper);
    }
  }

  /** Every cluster has its turn, in some order. */
  predicate IsClusterOrder(plans: seq<OfferPlan>, clusters: set<string>) {
    IsOrder(seq(|plans|, i requires 0 <= i < |plans| => plans[i].name), clusters)
  }

  lemma {:induction false} ClustersKeepOffer(s: Sched, plans: seq<OfferPlan>, compatibilityMode: bool, h: Helper)
    requires OfferPlansFit(s, plans, compatibilityMode, h)
    ensures SameOffer(h, OfferClusters(s, plans, compatibilityMode, h).helper)
    decreases |plans|
  {
    hide ApplyNodes;
    if plans != [] {
      var plan, c := plans[0], s.clusters[plans[0].name];
      var a := OfferCluster(s, plan, compatibilityMode, h);
      PassKeepsOffer(c.nodes, plan.order, plan.picks, compatibilityMode, h);
      ClustersKeepOffer(a.sched, plans[1..], compatibilityMode, a.helper);
    }
  }

  lemma {:induction false} ClustersNoticeClaims(s: Sched, plans: seq<OfferPlan>, h: Helper, j: nat, k: string, id: string)
    requires OfferPlansFit(s, plans, false, h)
    requires forall a, b :: 0 <= a < b < |plans| ==> plans[a].name != plans[b].name
    requires j < |plans| && plans[j].name in s.clusters && k in s.clusters[plans[j].name].nodes
    requires Claims(s.clusters[plans[j].name].nodes[k], id) && id in h.persistenceIds
    ensures var a := OfferClusters(s, plans, false, h);
            Noticed(h, a.helper, a.needs)
    decreases |plans|
  {
    hide ApplyNodes, Claims;
    var plan, c := plans[0], s.clusters[plans[0].name];
    var a := OfferCluster(s, plan, false, h);
    PassKeepsOffer(c.nodes, plan.order, plan.picks, false, h);
    ClustersKeepOffer(a.sched, plans[1..], false, a.helper);
    if j == 0 {
      OrderCovers(plan.order, c.nodes.Keys);
      var i :| 0 <= i < |plan.order| && plan.order[i] == k;
      PassNoticesClaims(c.nodes, plan.order, plan.picks, h, i, id);
    } else {
      assert plans[1..][j - 1] == plans[j];
      ClustersNoticeClaims(a.sched, plans[1..], a.helper, j - 1, k, id);
    }
  }

  lemma {:induction false} CopiedVolumeIsOffered(resources: seq<Resource>, i: nat)
    requires i < |CopyVolumes(resources)|
    ensures var v := CopyVolumes(resources)[i];
            v.disk.Some? && v.disk.value.persistenceId in PersistenceIds(resources)
  {
    var n := |resources| - 1;
    if i < |CopyVolumes(resources[..n])| {
      CopiedVolumeIsOffered(resources[..n], i);
    }
  }

  lemma {:induction false} OfferedVolumeIsCopied(resources: seq<Resource>, id: string)
    requires id in PersistenceIds(resources)
    ensures HasVolume(CopyVolumes(resources), id)
  {
    var n := |resources| - 1;
    if id in PersistenceIds(resources[..n]) {
      OfferedVolumeIsCopied(resources[..n], id);
      var i :| 0 <= i < |CopyVolumes(resources[..n])| && CopyVolumes(resources[..n])[i].disk.Some?
            && CopyVolumes(resources[..n])[i].disk.value.persistenceId == id;
      assert CopyVolumes(resources)[i] == CopyVolumes(resources[..n])[i];
    } else {
      var v := CopyVolumes(resources)[|CopyVolumes(resources)| - 1];
      assert v.disk == resources[n].disk;
    }
  }

  lemma NoVolume(id: string)
    ensures !HasVolume([], id)
  {
  }

  /** The operations of a helper hold a DESTROY exactly of the volumes it lists. */
  lemma DestroyListed(h: Helper, id: string)
    ensures Destroys(Operations(h), id) <==> HasVolume(h.toDestroy, id)
  {
    hide HasVolume;
    assert HasVolume([], id) == false by {
      NoVolume(id);
    }
    var ops := Operations(h);
    var i := if h.tasks != [] then 1 else 0;
    assert h.toDestroy != [] ==> ops[i] == Destroy(h.toDestroy);
  }

  lemma {:induction false} FirstLaunchCounts(ops: seq<Operation>)
    requires ops != [] && ops[0].Launch? && forall i :: 0 < i < |ops| ==> !ops[i].Launch?
    ensures LaunchTasks(ops) == ops[0].tasks
  {
    if |ops| > 1 {
      FirstLaunchCounts(ops[..|ops| - 1]);
    }
  }

  lemma {:induction false} NoLaunchNoTasks(ops: seq<Operation>)
    requires forall i :: 0 <= i < |ops| ==> !ops[i].Launch?
    ensures LaunchTasks(ops) == []
  {
    if ops != [] {
      NoLaunchNoTasks(ops[..|ops| - 1]);
    }
  }

  /** Compatibility mode submits the launch and nothing else; the tasks sent are all those prepared. */
  lemma OnlyLaunches(h: Helper, compatibilityMode: bool)
    ensures LaunchTasks(Submitted(compatibilityMode, Operations(h))) == h.tasks
    ensures compatibilityMode ==>
              Submitted(compatibilityMode, Operations(h)) == if h.tasks != [] then [Launch(h.tasks)] else []
  {
    var ops := Operations(h);
    if h.tasks != [] {
      FirstLaunchCounts(ops);
    } else {
      NoLaunchNoTasks(ops);
    }
    assert LaunchTasks(ops) == h.tasks;
    if compatibilityMode && h.tasks != [] {
      assert [Launch(h.tasks)][..0] == [];
    }
  }

  lemma ReturnedVolumes(h: Helper)
    requires h.tasks == [] && h.toDestroy == [] && h.persistenceIds == PersistenceIds(h.offer.resources)
    ensures MaybeUnreserve(h).toDestroy == if h.persistenceIds == [] then [] else CopyVolumes(h.offer.resources)
  {
  }

  lemma CopiesMatch(resources: seq<Resource>, id: string)
    ensures HasVolume(CopyVolumes(resources), id) <==> id in PersistenceIds(resources)
  {
    if HasVolume(CopyVolumes(resources), id) {
      var i :| 0 <= i < |CopyVolumes(resources)| && CopyVolumes(resources)[i].disk.Some?
            && CopyVolumes(resources)[i].disk.value.persistenceId == id;
      CopiedVolumeIsOffered(resources, i);
    }
    if id in PersistenceIds(resources) {
      OfferedVolumeIsCopied(resources, id);
    }
  }

  /** A volume of the offer is destroyed exactly when nothing was launched, no turn asked to keep the offer,
      and the scheduler is not in compatibility mode. */
  lemma DestroySubmittedWhen(s: Sched, plans: seq<OfferPlan>, compatibilityMode: bool, offer: Offer, id: string)
    requires OfferPlansFit(s, plans, compatibilityMode, NewHelper(offer))
    ensures var a := OfferClusters(s, plans, compatibilityMode, NewHelper(offer));
            Destroys(Submitted(compatibilityMode, OperationsFor(a)), id) <==>
            !compatibilityMode && !a.needs && a.helper.tasks == [] && id in PersistenceIds(offer.resources)
  {
    hide OfferClusters, OfferPlansFit, Operations, HasVolume, PoolOf;
    var h := NewHelper(offer);
    var a := OfferClusters(s, plans, compatibilityMode, h);
    var g := if a.needs then a.helper else MaybeUnreserve(a.helper);
    ClustersKeepOffer(s, plans, compatibilityMode, h);
    DestroyListed(g, id);
    OnlyLaunches(g, compatibilityMode);
    NoVolume(id);
    CopiesMatch(offer.resources, id);
    assert a.helper.toDestroy == [] && a.helper.offer == offer && a.helper.persistenceIds == PersistenceIds(offer.resources);
    if !a.needs && a.helper.tasks == [] {
      ReturnedVolumes(a.helper);
    } else {
      assert g == a.helper;
    }
  }

  /** Every cluster has its turn, and only one. */
  lemma TurnOf(plans: seq<OfferPlan>, clusters: set<string>, c: string) returns (j: nat)
    requires IsClusterOrder(plans, clusters) && c in clusters
    ensures j < |plans| && plans[j].name == c
    ensures forall a, b :: 0 <= a < b < |plans| ==> plans[a].name != plans[b].name
  {
    var names := seq(|plans|, i requires 0 <= i < |plans| => plans[i].name);
    OrderCovers(names, clusters);
    j :| 0 <= j < |names| && names[j] == c;
    assert plans[j].name == c;
    forall a, b | 0 <= a < b < |plans| ensures plans[a].name != plans[b].name {
      assert names[a] != names[b];
    }
  }

  /** If the operations submitted for an offer destroy a volume, then when the offer came no node of any
      cluster needed reconciliation, and none was schedulable with a reservation under that volume's id. */
  lemma DestroyIsSafe(s: Sched, plans: seq<OfferPlan>, compatibilityMode: bool, offer: Offer, id: string,
                      c: string, k: string)
    requires OfferPlansFit(s, plans, compatibilityMode, NewHelper(offer)) && IsClusterOrder(plans, s.clusters.Keys)
    requires Destroys(Submitted(compatibilityMode, OperationsFor(
               OfferClusters(s, plans, compatibilityMode, NewHelper(offer)))), id)
    requires c in s.clusters && k in s.clusters[c].nodes
    ensures !compatibilityMode && !Claims(s.clusters[c].nodes[k], id)
  {
    hide OfferClusters, OfferPlansFit, Claims, PoolOf, OperationsFor, Submitted, Destroys, IsClusterOrder;
    DestroySubmittedWhen(s, plans, compatibilityMode, offer, id);
    var j := TurnOf(plans, s.clusters.Keys, c);
    if Claims(s.clusters[c].nodes[k], id) {
      ClustersNoticeClaims(s, plans, NewHelper(offer), j, k, id);
    }
  }

  // ---------- no reservation in use is given back ----------

  predicate Unreserves(ops: seq<Operation>) {
    exists i :: 0 <= i < |ops| && ops[i].Unreserve?
  }

  /** A schedulable node that counts on a reservation where the offer comes from. */
  predicate CountsOn(n: Node, offer: Offer) {
    Waits(n) && n.current != Unknown && ComesBack(n, offer)
  }

  /** The node's state is known, and if it counted on a reservation there it does so no more. */
  predicate LetGo(n: Node, after: Node, offer: Offer) {
    && (n.reconciled || n.current == Unknown || n.current == Reserved)
    && (CountsOn(n, offer) ==> after == n.(current := Unknown, slaveId := ""))
  }

  lemma VisitLetsGo(n: Node, h: Helper, pick: nat)
    ensures var v := VisitNode(n, h, false, pick);
            !Noticed(h, v.helper, v.needs) ==> LetGo(n, v.node, h.offer)
  {
    hide LaunchAsks, Apply, FitsReserved, LaunchData;
  }

  lemma LastVisit(nodes: map<string, Node>, order: seq<string>, picks: seq<nat>, compatibilityMode: bool, h: Helper)
    requires |picks| == |order| && order != [] && forall i :: 0 <= i < |order| ==> order[i] in nodes
    ensures var i := |order| - 1;
            var q := ApplyNodes(nodes, order[..i], picks[..i], compatibilityMode, h);
            var v := VisitNode(q.nodes[order[i]], q.helper, compatibilityMode, picks[i]);
            ApplyNodes(nodes, order, picks, compatibilityMode, h) ==
            Pass(q.nodes[order[i] := v.node], v.helper, q.dirty || v.dirty, q.needs || v.needs)
  {
    hide VisitNode;
  }

  lemma {:induction false} PassLetsGo(nodes: map<string, Node>, order: seq<string>, picks: seq<nat>, h: Helper, j: nat)
    requires |picks| == |order| && forall i :: 0 <= i < |order| ==> order[i] in nodes
    requires j < |order| && forall a, b :: 0 <= a < b < |order| ==> order[a] != order[b]
    ensures var p := ApplyNodes(nodes, order, picks, false, h);
            !Noticed(h, p.helper, p.needs) ==> LetGo(nodes[order[j]], p.nodes[order[j]], h.offer)
  {
    hide VisitNode, LetGo, ApplyNodes;
    var i := |order| - 1;
    LastVisit(nodes, order, picks, false, h);
    var q := ApplyNodes(nodes, order[..i], picks[..i], false, h);
    PassKeepsOffer(nodes, order[..i], picks[..i], false, h);
    VisitOutcome(q.nodes[order[i]], q.helper, false, picks[i]);
    if j < i {
      PassLetsGo(nodes, order[..i], picks[..i], h, j);
    } else {
      UnvisitedNodesStay(nodes, order[..i], picks[..i], false, h, order[i]);
      VisitLetsGo(nodes[order[i]], q.helper, picks[i]);
    }
  }

  lemma {:induction false} UnvisitedClustersStay(s: Sched, plans: seq<OfferPlan>, compatibilityMode: bool, h: Helper,
                                                 c: string)
    requires OfferPlansFit(s, plans, compatibilityMode, h) && c in s.clusters
    requires forall i :: 0 <= i < |plans| ==> plans[i].name != c
    ensures var t := OfferClusters(s, plans, compatibilityMode, h).sched;
            c in t.clusters && t.clusters[c] == s.clusters[c]
    decreases |plans|
  {
    hide ApplyNodes;
    if plans != [] {
      var a := OfferCluster(s, plans[0], compatibilityMode, h);
      UnvisitedClustersStay(a.sched, plans[1..], compatibilityMode, a.helper, c);
    }
  }

  lemma TurnLetsGo(s: Sched, plan: OfferPlan, h: Helper, k: string)
    requires OfferPlanFits(s, plan) && k in s.clusters[plan.name].nodes
    ensures var a := OfferCluster(s, plan, false, h);
            && k in a.sched.clusters[plan.name].nodes
            && (!Noticed(h, a.helper, a.needs) ==>
                  LetGo(s.clusters[plan.name].nodes[k], a.sched.clusters[plan.name].nodes[k], h.offer))
  {
    hide ApplyNodes, LetGo;
    var c := s.clusters[plan.name];
    OrderCovers(plan.order, c.nodes.Keys);
    var i :| 0 <= i < |plan.order| && plan.order[i] == k;
    PassLetsGo(c.nodes, plan.order, plan.picks, h, i);
  }

  lemma {:induction false} ClustersLetGo(s: Sched, plans: seq<OfferPlan>, h: Helper, j: nat, k: string)
    requires OfferPlansFit(s, plans, false, h)
    requires forall a, b :: 0 <= a < b < |plans| ==> plans[a].name != plans[b].name
    requires j < |plans| && plans[j].name in s.clusters && k in s.clusters[plans[j].name].nodes
    ensures var a, c := OfferClusters(s, plans, false, h), plans[j].name;
            && c in a.sched.clusters && k in a.sched.clusters[c].nodes
            && (!Noticed(h, a.helper, a.needs) ==>
                  LetGo(s.clusters[c].nodes[k], a.sched.clusters[c].nodes[k], h.offer))
    decreases |plans|
  {
    hide ApplyNodes, LetGo;
    var plan, c := plans[0], s.clusters[plans[0].name];
    var a := OfferCluster(s, plan, false, h);
    PassKeepsOffer(c.nodes, plan.order, plan.picks, false, h);
    ClustersKeepOffer(a.sched, plans[1..], false, a.helper);
    if j == 0 {
      TurnLetsGo(s, plan, h, k);
      UnvisitedClustersStay(a.sched, plans[1..], false, a.helper, plan.name);
    } else {
      assert plans[1..][j - 1] == plans[j];
      ClustersLetGo(a.sched, plans[1..], a.helper, j - 1, k);
    }
  }

  lemma UnreserveListed(h: Helper)
    ensures Unreserves(Operations(h)) <==> h.toUnreserve != []
  {
    var ops := Operations(h);
    var i := (if h.tasks != [] then 1 else 0) + (if h.toDestroy != [] then 1 else 0);
    assert h.toUnreserve != [] ==> ops[i] == Unreserve(h.toUnreserve);
  }

  lemma LaunchesReturnNothing(tasks: seq<Task>)
    ensures !Unreserves([]) && !Unreserves([Launch(tasks)])
  {
  }

  lemma UnreserveSubmittedOnlyWhen(s: Sched, plans: seq<OfferPlan>, compatibilityMode: bool, offer: Offer)
    requires OfferPlansFit(s, plans, compatibilityMode, NewHelper(offer))
    ensures var a := OfferClusters(s, plans, compatibilityMode, NewHelper(offer));
            Unreserves(Submitted(compatibilityMode, OperationsFor(a))) ==>
              !compatibilityMode && !Noticed(NewHelper(offer), a.helper, a.needs)
  {
    hide OfferClusters, OfferPlansFit, Operations, PoolOf, Unreserves;
    var a := OfferClusters(s, plans, compatibilityMode, NewHelper(offer));
    var g := if a.needs then a.helper else MaybeUnreserve(a.helper);
    ClustersKeepOffer(s, plans, compatibilityMode, NewHelper(offer));
    UnreserveListed(g);
    OnlyLaunches(g, compatibilityMode);
    LaunchesReturnNothing(g.tasks);
  }

  /** The companion of DestroyIsSafe. If the operations submitted for an offer give reservations back, then when the
      offer came no node of any cluster needed reconciliation, and every schedulable node that counted on a reservation
      where the offer comes from has let go of it. */
  lemma UnreserveIsSafe(s: Sched, plans: seq<OfferPlan>, compatibilityMode: bool, offer: Offer, c: string, k: string)
    requires OfferPlansFit(s, plans, compatibilityMode, NewHelper(offer)) && IsClusterOrder(plans, s.clusters.Keys)
    requires Unreserves(Submitted(compatibilityMode, OperationsFor(
               OfferClusters(s, plans, compatibilityMode, NewHelper(offer)))))
    requires c in s.clusters && k in s.clusters[c].nodes
    ensures var t := OfferClusters(s, plans, compatibilityMode, NewHelper(offer)).sched;
            && !compatibilityMode && c in t.clusters && k in t.clusters[c].nodes
            && LetGo(s.clusters[c].nodes[k], t.clusters[c].nodes[k], offer)
  {
    hide OfferClusters, OfferPlansFit, CountsOn, PoolOf, OperationsFor, Submitted, Unreserves, IsClusterOrder, Noticed;
    UnreserveSubmittedOnlyWhen(s, plans, compatibilityMode, offer);
    var j := TurnOf(plans, s.clusters.Keys, c);
    ClustersLetGo(s, plans, NewHelper(offer), j, k);
  }
}
