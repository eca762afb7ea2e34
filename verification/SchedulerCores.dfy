/** The scheduler object of `scheduler/scheduler.go`, `reconcilation.go`, `server.go` and `state.go`: a map of cluster
    objects and the snapshot last written. `View` is the state; each handler is proved to change it, and to write it
    out, as the step of the same name in Scheduler and SchedulerRuns does. A retired cluster is kept as its value:
    nothing changes it again. */
module SchedulerCores {
  import opened Options
  import opened Offers
  import opened Nodes
  import opened Clusters
  import opened Scheduler
  import opened OfferSafety
  import opened OfferHelpers
  import opened RiakNodes
  import opened RiakClusters

  // ---------- maps of cluster objects ----------

  /** The node objects of each cluster. */
  ghost function ObjectsOf(cs: map<string, RiakCluster>): (r: map<string, set<RiakNode>>)
    reads cs.Values
    ensures r.Keys == cs.Keys
  {
    map k | k in cs :: cs[k].Objects()
  }

  ghost function Union(objects: map<string, set<RiakNode>>): (r: set<RiakNode>)
    ensures forall k :: k in objects ==> objects[k] <= r
  {
    set k, n | k in objects && n in objects[k] :: n
  }

  ghost function Footprints(cs: map<string, RiakCluster>): (r: set<RiakNode>)
    reads cs.Values
    ensures forall k :: k in cs ==> cs[k].Objects() <= r
  {
    var objects := ObjectsOf(cs);
    assert forall k :: k in cs ==> cs[k].Objects() == objects[k];
    Union(objects)
  }

  /** The values of a map of clusters. */
  function Views(cs: map<string, RiakCluster>): (r: map<string, Cluster>)
    reads cs.Values, Footprints(cs)
    ensures r.Keys == cs.Keys
  {
    map k | k in cs :: cs[k].View()
  }

  ghost predicate PairwiseDisjoint(objects: map<string, set<RiakNode>>) {
    forall a, b :: a in objects && b in objects && a != b ==> objects[a] !! objects[b]
  }

  predicate Injective(cs: map<string, RiakCluster>) {
    forall a, b :: a in cs && b in cs && cs[a] == cs[b] ==> a == b
  }

  /** No two clusters share an object. */
  ghost predicate AllDisjoint(cs: map<string, RiakCluster>)
    reads cs.Values
  {
    && (forall k :: k in cs ==> cs[k].Valid())
    && Injective(cs)
    && PairwiseDisjoint(ObjectsOf(cs))
  }

  lemma ViewsOf(cs: map<string, RiakCluster>)
    ensures forall k :: k in cs ==> Views(cs)[k] == cs[k].View()
  {
    hide RiakCluster.View;
  }

  lemma OneClusterChanged(cs: map<string, RiakCluster>, before: map<string, Cluster>, name: string)
    requires name in cs && before.Keys == cs.Keys
    requires forall k :: k in cs && k != name ==> cs[k].View() == before[k]
    ensures Views(cs) == before[name := cs[name].View()]
  {
    hide RiakCluster.View;
  }

  lemma NoClusterChanged(cs: map<string, RiakCluster>, before: map<string, Cluster>)
    requires before.Keys == cs.Keys
    requires forall k :: k in cs ==> cs[k].View() == before[k]
    ensures Views(cs) == before
  {
    hide RiakCluster.View;
  }

  /** A cluster may lose node objects, or change other fields than its node maps. */
  lemma StillDisjoint(cs: map<string, RiakCluster>, objects: map<string, set<RiakNode>>)
    requires objects.Keys == cs.Keys && Injective(cs) && PairwiseDisjoint(objects)
    requires forall k :: k in cs ==> cs[k].Valid() && cs[k].Objects() <= objects[k]
    ensures AllDisjoint(cs) && Footprints(cs) <= Union(objects)
  {
    hide RiakCluster.Valid, RiakCluster.Objects;
    forall k | k in cs ensures ObjectsOf(cs)[k] <= Union(objects) {
      assert ObjectsOf(cs)[k] <= objects[k] <= Union(objects);
    }
    forall a, b | a in cs && b in cs && a != b ensures ObjectsOf(cs)[a] !! ObjectsOf(cs)[b] {
      assert objects[a] !! objects[b];
    }
  }

  lemma FreshDisjoint(objects: map<string, set<RiakNode>>, name: string, node: RiakNode)
    requires name in objects && PairwiseDisjoint(objects) && forall k :: k in objects ==> node !in objects[k]
    ensures PairwiseDisjoint(objects[name := objects[name] + {node}])
  {
  }

  lemma KnownDisjoint(cs: map<string, RiakCluster>)
    requires AllDisjoint(cs)
    ensures Injective(cs) && PairwiseDisjoint(ObjectsOf(cs))
    ensures forall k :: k in cs ==> cs[k].Valid() && ObjectsOf(cs)[k] == cs[k].Objects()
  {
    hide RiakCluster.Valid, RiakCluster.Objects, PairwiseDisjoint;
  }

  /** What no turn of the named cluster can touch. */
  lemma OthersApart(cs: map<string, RiakCluster>, name: string)
    requires AllDisjoint(cs) && name in cs
    ensures cs[name].Valid()
    ensures forall k :: k in cs && k != name ==>
              cs[k] != cs[name] && cs[name].nodes.Values !! cs[k].nodes.Values + cs[k].graveyard.Values
  {
    hide RiakCluster.Valid;
    forall k | k in cs && k != name
      ensures cs[name].nodes.Values !! cs[k].nodes.Values + cs[k].graveyard.Values
    {
      assert ObjectsOf(cs)[name] !! ObjectsOf(cs)[k];
    }
  }

  lemma ObjectsExist(cs: map<string, RiakCluster>)
    ensures forall n :: n in Footprints(cs) ==> allocated(n)
  {
    forall n | n in Footprints(cs) ensures allocated(n) {
      var k :| k in cs && n in cs[k].Objects();
    }
  }

  /** The helper of an offer is no object of a cluster. */
  lemma HelperApart(cs: map<string, RiakCluster>, h: OfferHelper)
    ensures forall n :: n in Footprints(cs) ==> n as object != h && allocated(n)
    ensures forall k :: k in cs ==> cs[k] as object != h
  {
    hide Footprints, RiakCluster.View;
    ObjectsExist(cs);
  }

  lemma OwnNodes(cs: map<string, RiakCluster>, name: string)
    requires name in cs
    ensures cs[name].nodes.Values <= Footprints(cs)
  {
    assert cs[name].Objects() <= Footprints(cs);
  }

  lemma OneClusterAdded(cs: map<string, RiakCluster>, name: string, c: RiakCluster)
    ensures Views(cs[name := c]) == Views(cs)[name := c.View()]
  {
    hide RiakCluster.View;
  }

  lemma ClusterAdded(cs: map<string, RiakCluster>, name: string, c: RiakCluster)
    requires AllDisjoint(cs) && name !in cs && c.Valid() && c.Objects() == {}
    requires forall k :: k in cs ==> cs[k] != c
    ensures AllDisjoint(cs[name := c]) && Views(cs[name := c]) == Views(cs)[name := c.View()]
  {
    hide RiakCluster.View, RiakCluster.Objects, RiakCluster.Valid;
    ViewsOf(cs);
    OneClusterAdded(cs, name, c);
  }

  /** What is left of an offer's turns, after the first i. */
  ghost predicate Remaining(total: Applied, s: Sched, plans: seq<OfferPlan>, i: nat, compatibilityMode: bool, h: Helper,
                            dirty: bool, needs: bool)
  {
    && i <= |plans|
    && OfferPlansFit(s, plans[i..], compatibilityMode, h)
    && var r := OfferClusters(s, plans[i..], compatibilityMode, h);
       total == Applied(r.sched, r.helper, dirty || r.dirty, needs || r.needs)
  }

  lemma AllRemains(s: Sched, plans: seq<OfferPlan>, compatibilityMode: bool, h: Helper)
    requires OfferPlansFit(s, plans, compatibilityMode, h)
    ensures Remaining(OfferClusters(s, plans, compatibilityMode, h), s, plans, 0, compatibilityMode, h, false, false)
  {
    assert plans[0..] == plans;
  }

  lemma NextTurn(total: Applied, s: Sched, plans: seq<OfferPlan>, i: nat, compatibilityMode: bool, h: Helper,
                 dirty: bool, needs: bool)
    requires i < |plans| && Remaining(total, s, plans, i, compatibilityMode, h, dirty, needs)
    ensures OfferPlanFits(s, plans[i])
    ensures var a := OfferCluster(s, plans[i], compatibilityMode, h);
            && Remaining(total, a.sched, plans, i + 1, compatibilityMode, a.helper, dirty || a.dirty, needs || a.needs)
            && (!a.dirty ==> a.sched == s)
  {
    hide OfferCluster, OfferPlanFits;
    assert plans[i..][0] == plans[i] && plans[i..][1..] == plans[i + 1..];
    QuietTurn(s, plans[i], compatibilityMode, h);
  }

  lemma NothingRemains(total: Applied, s: Sched, plans: seq<OfferPlan>, compatibilityMode: bool, h: Helper,
                       dirty: bool, needs: bool)
    requires Remaining(total, s, plans, |plans|, compatibilityMode, h, dirty, needs)
    ensures total == Applied(s, h, dirty, needs)
  {
    assert plans[|plans|..] == [];
  }

  /** What is left of a list of offers, after the first i. */
  ghost predicate OffersLeft(total: Made, s: Sched, offers: seq<Offer>, choices: seq<seq<OfferPlan>>, i: nat,
                             compatibilityMode: bool, operations: map<string, seq<Operation>>, dirty: bool)
  {
    && i <= |offers| == |choices|
    && OffersFit(s, offers[i..], choices[i..], compatibilityMode)
    && var r := OperationsForOffers(s, offers[i..], choices[i..], compatibilityMode);
       total == Made(r.sched, operations + r.operations, dirty || r.dirty)
  }

  lemma FitLengths(s: Sched, offers: seq<Offer>, choices: seq<seq<OfferPlan>>, compatibilityMode: bool)
    requires OffersFit(s, offers, choices, compatibilityMode)
    ensures |choices| == |offers|
  {
    hide OfferClusters, OfferPlansFit;
  }

  lemma AllOffersLeft(s: Sched, offers: seq<Offer>, choices: seq<seq<OfferPlan>>, compatibilityMode: bool)
    requires OffersFit(s, offers, choices, compatibilityMode)
    ensures OffersLeft(OperationsForOffers(s, offers, choices, compatibilityMode), s, offers, choices, 0,
                       compatibilityMode, map[], false)
  {
    hide OperationsForOffers, OffersFit;
    assert |choices| == |offers| by {
      FitLengths(s, offers, choices, compatibilityMode);
    }
    assert offers[0..] == offers && choices[0..] == choices;
    var r := OperationsForOffers(s, offers, choices, compatibilityMode);
    assert map[] + r.operations == r.operations;
  }

  lemma OneOffer(s: Sched, offers: seq<Offer>, choices: seq<seq<OfferPlan>>, compatibilityMode: bool)
    requires OffersFit(s, offers, choices, compatibilityMode) && offers != []
    ensures |choices| == |offers| && OfferPlansFit(s, choices[0], compatibilityMode, NewHelper(offers[0]))
    ensures var a := OfferClusters(s, choices[0], compatibilityMode, NewHelper(offers[0]));
            && OffersFit(a.sched, offers[1..], choices[1..], compatibilityMode)
            && var r := OperationsForOffers(a.sched, offers[1..], choices[1..], compatibilityMode);
               OperationsForOffers(s, offers, choices, compatibilityMode) ==
               Made(r.sched, map[offers[0].id := OperationsFor(a)] + r.operations, a.dirty || r.dirty)
  {
    hide OfferClusters, OfferPlansFit, OperationsFor, NewHelper;
  }

  lemma OverwriteLast(m: map<string, seq<Operation>>, id: string, ops: seq<Operation>, rest: map<string, seq<Operation>>)
    ensures m + (map[id := ops] + rest) == m[id := ops] + rest
  {
  }

  lemma NextOffer(total: Made, s: Sched, offers: seq<Offer>, choices: seq<seq<OfferPlan>>, i: nat,
                  compatibilityMode: bool, operations: map<string, seq<Operation>>, dirty: bool)
    requires i < |offers| && OffersLeft(total, s, offers, choices, i, compatibilityMode, operations, dirty)
    ensures i < |choices| && OfferPlansFit(s, choices[i], compatibilityMode, NewHelper(offers[i]))
    ensures var a := OfferClusters(s, choices[i], compatibilityMode, NewHelper(offers[i]));
            && OffersLeft(total, a.sched, offers, choices, i + 1, compatibilityMode,
                          operations[offers[i].id := OperationsFor(a)], dirty || a.dirty)
            && (!a.dirty ==> a.sched == s)
  {
    hide OfferClusters, OfferPlansFit, OperationsFor, NewHelper, OffersFit, OperationsForOffers;
    OneOffer(s, offers[i..], choices[i..], compatibilityMode);
    assert offers[i..][0] == offers[i] && offers[i..][1..] == offers[i + 1..];
    assert choices[i..][0] == choices[i] && choices[i..][1..] == choices[i + 1..];
    QuietOffer(s, choices[i], compatibilityMode, NewHelper(offers[i]));
    var a := OfferClusters(s, choices[i], compatibilityMode, NewHelper(offers[i]));
    var r := OperationsForOffers(a.sched, offers[i + 1..], choices[i + 1..], compatibilityMode);
    OverwriteLast(operations, offers[i].id, OperationsFor(a), r.operations);
  }

  lemma NoOffersLeft(total: Made, s: Sched, offers: seq<Offer>, choices: seq<seq<OfferPlan>>,
                     compatibilityMode: bool, operations: map<string, seq<Operation>>, dirty: bool)
    requires OffersLeft(total, s, offers, choices, |offers|, compatibilityMode, operations, dirty)
    ensures total == Made(s, operations, dirty)
  {
    assert offers[|offers|..] == [];
    assert operations + map[] == operations;
  }

  lemma NextKill(s: Sched, plans: seq<KillPlan>, i: nat)
    requires i < |plans| && KillPlansFit(s, plans[i..])
    ensures KillPlanFits(s, plans[i])
    ensures var a := KillCluster(s, plans[i]);
            && KillPlansFit(a.sched, plans[i + 1..])
            && var r := Scheduler.KillTasks(a.sched, plans[i + 1..]);
               Scheduler.KillTasks(s, plans[i..]) == Killed(r.sched, a.calls + r.calls, a.dirty || r.dirty)
  {
    hide KillCluster, KillPlanFits;
    assert plans[i..][0] == plans[i] && plans[i..][1..] == plans[i + 1..];
  }

  lemma NoKills(s: Sched)
    ensures Scheduler.KillTasks(s, []) == Killed(s, [], false)
  {
  }

  datatype Turned = Turned(cluster: Cluster, calls: seq<Call>, retired: bool, dirty: bool)

  /** What one turn of the kill pass makes of a cluster. */
  predicate KillOutcome(t: Turned, before: Cluster, plan: KillPlan)
    requires NodesToRemove(before) <= before.nodes.Keys
    requires IsOrder(plan.killOrder, NodesToKill(before))
    requires IsOrder(plan.scanOrder, Bury(before, NodesToRemove(before)).nodes.Keys)
  {
    var buried := Bury(before, NodesToRemove(before));
    var r := RestartPass(buried, plan.scanOrder);
    && (r.marked.Some? ==> r.marked.value in r.cluster.nodes)
    && t.cluster == r.cluster
    && t.retired == buried.CanBeRemoved()
    && t.dirty == (NodesToRemove(before) != {} || t.retired || r.modified)
    && t.calls == StopNodes(before.nodes, plan.killOrder, plan.failing)
                  + if r.marked.Some? then StopNode(r.cluster.nodes[r.marked.value], plan.failing) else []
  }

  lemma KillClusterIs(s: Sched, plan: KillPlan, t: Turned)
    requires KillPlanFits(s, plan) && NodesToRemove(s.clusters[plan.name]) <= s.clusters[plan.name].nodes.Keys
    requires KillOutcome(t, s.clusters[plan.name], plan)
    ensures t.cluster.name == s.clusters[plan.name].name
    ensures var live := s.clusters[plan.name := t.cluster];
            var name := s.clusters[plan.name].name;
            KillCluster(s, plan) ==
            Killed(if t.retired then Sched(live - {name}, s.graveyard[name := t.cluster]) else s.(clusters := live),
                   t.calls, t.dirty)
  {
    hide StopNodes, StopNode, RestartPass, IsOrder, NodesToKill, NodesToRemove;
    var buried := Bury(s.clusters[plan.name], NodesToRemove(s.clusters[plan.name]));
    assert IsOrder(plan.scanOrder, buried.nodes.Keys);
    RestartPassOutline(buried, plan.scanOrder);
  }

  lemma AskedIs(s: Sched, recent: map<string, set<string>>, asked: map<string, map<string, TaskStatus>>)
    requires recent.Keys == s.clusters.Keys
    requires forall c :: c in asked <==> c in s.clusters && TasksToReconcile(s.clusters[c], recent[c]) != map[]
    requires forall c :: c in asked ==> asked[c] == TasksToReconcile(s.clusters[c], recent[c])
    ensures asked == Asked(s, recent)
  {
    hide NodesToAsk;
    forall c | c in s.clusters
      ensures TasksToReconcile(s.clusters[c], recent[c]) == map[] <==> NodesToAsk(s.clusters[c], recent[c]) == {}
    {
      assert TasksToReconcile(s.clusters[c], recent[c]).Keys == NodesToAsk(s.clusters[c], recent[c]);
    }
  }

  /** What one cluster is asked about, if it is. */
  function AskedOf(asked: map<string, map<string, TaskStatus>>, c: string): set<string> {
    if c in asked then asked[c].Keys else {}
  }

  /** The nodes of these ids, and no others, have become recent, and they stay so for five seconds. */
  ghost predicate Marked(c: RiakCluster, before: set<string>, ids: set<string>, now: real)
    reads c, c.nodes.Values
  {
    && c.Recent(now) == before + ids
    && forall later: real :: later <= now + 5.0 ==> ids <= c.Recent(later)
  }

  /** What has been asked once only the clusters in `left` are to come. */
  ghost predicate AskedSoFar(s: Sched, recent: map<string, set<string>>, left: set<string>,
                             asked: map<string, map<string, TaskStatus>>)
    requires recent.Keys == s.clusters.Keys
  {
    && (forall c :: c in asked <==>
          c in s.clusters && c !in left && TasksToReconcile(s.clusters[c], recent[c]) != map[])
    && (forall c :: c in asked ==> asked[c] == TasksToReconcile(s.clusters[c], recent[c]))
  }

  lemma NobodyAsked(s: Sched, recent: map<string, set<string>>)
    requires recent.Keys == s.clusters.Keys
    ensures AskedSoFar(s, recent, s.clusters.Keys, map[])
  {
  }

  lemma OneMoreAsked(s: Sched, recent: map<string, set<string>>, left: set<string>,
                     asked: map<string, map<string, TaskStatus>>, name: string, tasks: map<string, TaskStatus>)
    requires recent.Keys == s.clusters.Keys && AskedSoFar(s, recent, left, asked) && name in left && left <= s.clusters.Keys
    requires tasks == TasksToReconcile(s.clusters[name], recent[name])
    ensures var more := if tasks != map[] then asked[name := tasks] else asked;
            && AskedSoFar(s, recent, left - {name}, more)
            && AskedOf(more, name) == tasks.Keys
            && forall c :: c != name ==> AskedOf(more, c) == AskedOf(asked, c)
  {
    hide TasksToReconcile;
  }

  lemma EveryoneAsked(s: Sched, recent: map<string, set<string>>, asked: map<string, map<string, TaskStatus>>)
    requires recent.Keys == s.clusters.Keys && AskedSoFar(s, recent, {}, asked)
    ensures asked == Asked(s, recent)
  {
    hide TasksToReconcile, Asked;
    AskedIs(s, recent, asked);
  }

  lemma FewerClusters(cs: map<string, RiakCluster>, name: string)
    ensures Views(cs - {name}) == Views(cs) - {name} && Footprints(cs - {name}) <= Footprints(cs)
    ensures AllDisjoint(cs) ==> AllDisjoint(cs - {name})
  {
    hide RiakCluster.View, RiakCluster.Objects, RiakCluster.Valid;
    forall a, b | AllDisjoint(cs) && a in cs - {name} && b in cs - {name} && a != b
      ensures ObjectsOf(cs - {name})[a] !! ObjectsOf(cs - {name})[b]
    {
      assert ObjectsOf(cs)[a] !! ObjectsOf(cs)[b];
    }
  }

  class SchedulerCore {
    const cfg: Config
    const compatibilityMode: bool
    /** The flag of the reconciliation server; this core owns the server. */
    var enabled: bool
    var clusters: map<string, RiakCluster>
    var graveyard: map<string, Cluster>
    var snapshot: Sched

    ghost predicate Valid()
      reads this, clusters.Values
    {
      AllDisjoint(clusters)
    }

    function View(): (s: Sched)
      reads this, clusters.Values, Footprints(clusters)
      ensures s.clusters.Keys == clusters.Keys && s.graveyard == graveyard
    {
      Sched(Views(clusters), graveyard)
    }

    constructor (cfg: Config, compatibilityMode: bool)
      ensures Valid() && View() == EMPTY && snapshot == EMPTY && !enabled
    {
      this.cfg, this.compatibilityMode, enabled := cfg, compatibilityMode, false;
      clusters, graveyard, snapshot := map[], map[], EMPTY;
    }

    /** Writing this object's own fields changes no cluster. */
    lemma ClustersApart(cs: map<string, RiakCluster>)
      ensures forall n :: n in Footprints(cs) ==> n as object != this
      ensures forall k :: k in cs ==> cs[k] as object != this
    {
    }

    method Persist()
      modifies `snapshot
      ensures snapshot == Strip(View()) && View() == old(View()) && Views(clusters) == old(Views(clusters))
      ensures Valid() == old(Valid()) && Footprints(clusters) == old(Footprints(clusters))
    {
      hide Strip, Views, RiakCluster.View, Footprints, AllDisjoint;
      ghost var live, apart, owned := Views(clusters), AllDisjoint(clusters), Footprints(clusters);
      ClustersApart(clusters);
      snapshot := Strip(View());
      assert Views(clusters) == live && AllDisjoint(clusters) == apart && Footprints(clusters) == owned;
    }

    /** Reregistered does no more than this. */
    method Enable()
      modifies `enabled
      ensures View() == old(View()) && Valid() == old(Valid()) && enabled
    {
      hide Strip, Views, Footprints, AllDisjoint;
      ghost var live, apart := Views(clusters), AllDisjoint(clusters);
      ClustersApart(clusters);
      enabled := true;
      assert Views(clusters) == live && AllDisjoint(clusters) == apart;
    }

    /** Registered: the state is written and the reconciliation server starts to work. */
    method Registered()
      modifies `snapshot, `enabled
      ensures snapshot == Strip(View()) && View() == old(View()) && Valid() == old(Valid()) && enabled
    {
      hide Strip, View, Valid, Footprints, Views, AllDisjoint;
      Persist();
      Enable();
    }

    method PersistIf(dirty: bool)
      modifies `snapshot
      ensures View() == old(View()) && Valid() == old(Valid()) && Footprints(clusters) == old(Footprints(clusters))
      ensures snapshot == if dirty then Strip(View()) else old(snapshot)
    {
      hide Strip, View, Valid, Footprints;
      if dirty {
        Persist();
      }
    }

    method SetClusters(cs: map<string, RiakCluster>)
      modifies `clusters
      ensures clusters == cs && Views(cs) == old(Views(cs)) && AllDisjoint(cs) == old(AllDisjoint(cs))
      ensures Footprints(cs) == old(Footprints(cs))
    {
      hide Views, AllDisjoint, Footprints;
      ghost var live, apart, objects := Views(cs), AllDisjoint(cs), Footprints(cs);
      ClustersApart(cs);
      clusters := cs;
      assert Views(cs) == live && AllDisjoint(cs) == apart && Footprints(cs) == objects;
    }

    method SetGraveyard(g: map<string, Cluster>)
      modifies `graveyard
      ensures graveyard == g && Views(clusters) == old(Views(clusters))
      ensures AllDisjoint(clusters) == old(AllDisjoint(clusters)) && Footprints(clusters) == old(Footprints(clusters))
    {
      hide Views, AllDisjoint, Footprints;
      ghost var live, apart, objects := Views(clusters), AllDisjoint(clusters), Footprints(clusters);
      ClustersApart(clusters);
      graveyard := g;
      assert Views(clusters) == live && AllDisjoint(clusters) == apart && Footprints(clusters) == objects;
    }

    // ---------- offers ----------

    /** Only the named cluster changes. */
    method OfferIn(name: string, h: OfferHelper, order: seq<string>, picks: seq<nat>)
      returns (needs: bool, dirty: bool)
      requires Valid() && h.Valid() && name in clusters
      requires IsOrder(order, clusters[name].nodes.Keys) && |picks| == |order|
      modifies clusters[name].nodes.Values, h`toReserve, h`toCreate, h`held, h`tasks, h.reserved, h.unreserved
      ensures Valid() && Footprints(clusters) == old(Footprints(clusters))
      ensures forall k :: k in clusters && k != name ==> clusters[k].View() == old(clusters[k].View())
      ensures var c := old(clusters[name].View());
              var p := ApplyNodes(c.nodes, order, picks, compatibilityMode, old(h.View()));
              && clusters[name].View() == c.(nodes := p.nodes)
              && p == Pass(p.nodes, h.View(), dirty, needs)
    {
      hide RiakCluster.View, ApplyNodes, OfferHelper.View, RiakCluster.Valid, IsOrder, AllDisjoint, RiakCluster.Objects,
           Footprints;
      OthersApart(clusters, name);
      needs, dirty := clusters[name].ApplyOffer(h, compatibilityMode, order, picks);
    }

    method TurnOfCluster(name: string, h: OfferHelper, order: seq<string>, picks: seq<nat>)
      returns (needs: bool, dirty: bool)
      requires Valid() && h.Valid() && name in clusters
      requires IsOrder(order, clusters[name].nodes.Keys) && |picks| == |order|
      modifies clusters[name].nodes.Values, h`toReserve, h`toCreate, h`held, h`tasks, h.reserved, h.unreserved
      ensures Valid() && Footprints(clusters) == old(Footprints(clusters))
      ensures var c := old(clusters[name].View());
              var p := ApplyNodes(c.nodes, order, picks, compatibilityMode, old(h.View()));
              && Views(clusters) == old(Views(clusters))[name := c.(nodes := p.nodes)]
              && p == Pass(p.nodes, h.View(), dirty, needs)
    {
      hide RiakCluster.View, ApplyNodes, OfferHelper.View, OfferHelper.Valid, IsOrder, Views, AllDisjoint, Footprints;
      ViewsOf(clusters);
      ghost var live := Views(clusters);
      needs, dirty := OfferIn(name, h, order, picks);
      OneClusterChanged(clusters, live, name);
    }

    method TurnOf(plan: OfferPlan, h: OfferHelper) returns (needs: bool, dirty: bool)
      requires Valid() && h.Valid() && OfferPlanFits(View(), plan)
      modifies Footprints(clusters), h`toReserve, h`toCreate, h`held, h`tasks, h.reserved, h.unreserved
      ensures Valid() && Footprints(clusters) == old(Footprints(clusters))
      ensures Applied(View(), h.View(), dirty, needs) == OfferCluster(old(View()), plan, compatibilityMode, old(h.View()))
    {
      hide RiakCluster.View, ApplyNodes, OfferHelper.View, AllDisjoint, RiakCluster.Objects, IsOrder, Views,
           Footprints;
      ViewsOf(clusters);
      OwnNodes(clusters, plan.name);
      needs, dirty := TurnOfCluster(plan.name, h, plan.order, plan.picks);
    }

    /** ApplyOffer of one cluster, which writes the state out when a node changed. */
    method ApplyOfferTo(plan: OfferPlan, h: OfferHelper) returns (needs: bool, ghost dirty: bool)
      requires Valid() && h.Valid() && OfferPlanFits(View(), plan)
      modifies `snapshot, Footprints(clusters), h`toReserve, h`toCreate, h`held, h`tasks, h.reserved, h.unreserved
      ensures Valid()
      ensures Applied(View(), h.View(), dirty, needs) == OfferCluster(old(View()), plan, compatibilityMode, old(h.View()))
      ensures Footprints(clusters) == old(Footprints(clusters))
      ensures snapshot == if dirty then Strip(View()) else old(snapshot)
    {
      hide View, Valid, Strip, Footprints, OfferCluster, OfferPlanFits, OfferHelper.View;
      var changed;
      needs, changed := TurnOf(plan, h);
      dirty := changed;
      PersistIf(changed);
    }

    /** Every cluster's turn on one offer. */
    method ApplyToAll(plans: seq<OfferPlan>, h: OfferHelper) returns (needsReconciliation: bool, ghost changed: bool)
      requires Valid() && h.Valid() && OfferPlansFit(View(), plans, compatibilityMode, h.View())
      modifies `snapshot, Footprints(clusters), h`toReserve, h`toCreate, h`held, h`tasks, h.reserved, h.unreserved
      ensures Valid()
      ensures Applied(View(), h.View(), changed, needsReconciliation) ==
              OfferClusters(old(View()), plans, compatibilityMode, old(h.View()))
      ensures Footprints(clusters) == old(Footprints(clusters))
      ensures snapshot == if changed then Strip(View()) else old(snapshot)
    {
      hide View, Valid, Strip, Footprints, OfferCluster, OfferPlanFits, OfferHelper.View, OfferClusters,
           OfferPlansFit, Remaining;
      needsReconciliation, changed := false, false;
      ghost var s, g, owned := View(), h.View(), Footprints(clusters);
      ghost var total := OfferClusters(s, plans, compatibilityMode, g);
      AllRemains(s, plans, compatibilityMode, g);
      for i := 0 to |plans|
        invariant Valid() && h.Valid() && View() == s && h.View() == g && Footprints(clusters) == owned
        invariant Remaining(total, s, plans, i, compatibilityMode, g, changed, needsReconciliation)
        invariant snapshot == if changed then Strip(s) else old(snapshot)
      {
        NextTurn(total, s, plans, i, compatibilityMode, g, changed, needsReconciliation);
        var needs, dirty := ApplyOfferTo(plans[i], h);
        s, g := View(), h.View();
        needsReconciliation := needsReconciliation || needs;
        changed := changed || dirty;
      }
      NothingRemains(total, s, plans, compatibilityMode, g, changed, needsReconciliation);
    }

    method NewOffer(offer: Offer) returns (h: OfferHelper)
      ensures h.Valid() && fresh(h.Repr()) && h.View() == NewHelper(offer)
      ensures Views(clusters) == old(Views(clusters)) && AllDisjoint(clusters) == old(AllDisjoint(clusters))
      ensures Footprints(clusters) == old(Footprints(clusters))
    {
      hide RiakCluster.View, Views, OfferHelper.View, NewHelper, Footprints;
      ViewsOf(clusters);
      ghost var live := Views(clusters);
      h := new OfferHelper(offer);
      NoClusterChanged(clusters, live);
    }

    method OperationsOf(h: OfferHelper, needsReconciliation: bool) returns (operations: seq<Operation>)
      requires h.Valid()
      modifies h`toUnreserve, h`toDestroy
      ensures operations == Offers.Operations(
                if needsReconciliation then old(h.View()) else MaybeUnreserve(old(h.View())))
      ensures Views(clusters) == old(Views(clusters)) && AllDisjoint(clusters) == old(AllDisjoint(clusters))
      ensures Footprints(clusters) == old(Footprints(clusters))
    {
      hide OfferHelper.View, MaybeUnreserve, Offers.Operations, Views, Footprints, AllDisjoint;
      ghost var live, apart, owned := Views(clusters), AllDisjoint(clusters), Footprints(clusters);
      HelperApart(clusters, h);
      if !needsReconciliation {
        h.MaybeUnreserve();
      }
      assert Views(clusters) == live && AllDisjoint(clusters) == apart && Footprints(clusters) == owned;
      operations := h.Operations();
    }

    /** The body of createOperationsForOffers: every cluster has its turn, then the offer may be given back. */
    method CreateOperations(offer: Offer, plans: seq<OfferPlan>) returns (operations: seq<Operation>, ghost changed: bool)
      requires Valid() && OfferPlansFit(View(), plans, compatibilityMode, NewHelper(offer))
      modifies `snapshot, Footprints(clusters)
      ensures Valid() && Footprints(clusters) == old(Footprints(clusters))
      ensures var a := OfferClusters(old(View()), plans, compatibilityMode, NewHelper(offer));
              && View() == a.sched && operations == OperationsFor(a) && changed == a.dirty
              && snapshot == if changed then Strip(View()) else old(snapshot)
    {
      hide RiakCluster.View, Views, Strip, AllDisjoint, RiakCluster.Objects, Footprints, OfferCluster, OfferPlanFits,
           OfferHelper.View, NewHelper, MaybeUnreserve, Offers.Operations, OfferClusters, OfferPlansFit;
      var h := NewOffer(offer);
      var needsReconciliation;
      needsReconciliation, changed := ApplyToAll(plans, h);
      operations := OperationsOf(h, needsReconciliation);
    }

    /** createOperationsForOffers: offers of one id overwrite each other's operations. */
    method CreateOperationsForOffers(offers: seq<Offer>, choices: seq<seq<OfferPlan>>)
      returns (operations: map<string, seq<Operation>>, ghost changed: bool)
      requires Valid() && OffersFit(View(), offers, choices, compatibilityMode)
      modifies `snapshot, Footprints(clusters)
      ensures Valid()
      ensures Made(View(), operations, changed) ==
              OperationsForOffers(old(View()), offers, choices, compatibilityMode)
      ensures snapshot == if changed then Strip(View()) else old(snapshot)
    {
      hide View, Valid, Strip, Footprints, OfferClusters, OfferPlansFit, NewHelper, OperationsFor, OffersLeft, OffersFit,
           OperationsForOffers;
      operations, changed := map[], false;
      ghost var s, owned := View(), Footprints(clusters);
      ghost var total := OperationsForOffers(s, offers, choices, compatibilityMode);
      AllOffersLeft(s, offers, choices, compatibilityMode);
      FitLengths(s, offers, choices, compatibilityMode);
      for i := 0 to |offers|
        invariant Valid() && View() == s && Footprints(clusters) == owned
        invariant OffersLeft(total, s, offers, choices, i, compatibilityMode, operations, changed)
        invariant snapshot == if changed then Strip(s) else old(snapshot)
      {
        NextOffer(total, s, offers, choices, i, compatibilityMode, operations, changed);
        var ops;
        ghost var dirty;
        ops, dirty := CreateOperations(offers[i], choices[i]);
        s := View();
        operations, changed := operations[offers[i].id := ops], changed || dirty;
      }
      NoOffersLeft(total, s, offers, choices, compatibilityMode, operations, changed);
    }

    /** acceptOffer: what is sent to Mesos for one offer. */
    method AcceptOffer(operations: seq<Operation>) returns (submitted: seq<Operation>)
      ensures submitted == Submitted(compatibilityMode, operations) && View() == old(View())
    {
      if !compatibilityMode {
        return operations;
      }
      var tasks := [];
      for i := 0 to |operations|
        invariant tasks == LaunchTasks(operations[..i])
      {
        assert operations[..i + 1][..i] == operations[..i];
        if operations[i].Launch? {
          tasks := operations[i].tasks;
        }
      }
      assert operations[..|operations|] == operations;
      return if tasks == [] then [] else [Launch(tasks)];
    }

    /** ResourceOffers: what is sent for each offer, once the state that lists the launches has been written. */
    method ResourceOffers(offers: seq<Offer>, choices: seq<seq<OfferPlan>>)
      returns (accepted: seq<seq<Operation>>, ghost changed: bool)
      requires Valid() && OffersFit(View(), offers, choices, compatibilityMode)
      modifies `snapshot, Footprints(clusters)
      ensures Valid()
      ensures var made := OperationsForOffers(old(View()), offers, choices, compatibilityMode);
              && View() == made.sched && changed == made.dirty
              && accepted == Accepted(offers, made.operations, compatibilityMode)
      ensures snapshot == if changed then Strip(View()) else old(snapshot)
    {
      hide View, Valid, Strip, Footprints, OffersFit, OperationsForOffers, Submitted;
      var operations;
      operations, changed := CreateOperationsForOffers(offers, choices);
      ghost var s, written := View(), snapshot;
      accepted := [];
      for i := 0 to |offers|
        invariant Valid() && View() == s && snapshot == written && |accepted| == i
        invariant forall j :: 0 <= j < i ==> accepted[j] == Accepted(offers, operations, compatibilityMode)[j]
      {
        var submitted := AcceptOffer(if offers[i].id in operations then operations[offers[i].id] else []);
        accepted := accepted + [submitted];
      }
    }

    // ---------- commands ----------

    /** createCluster. */
    method CreateCluster(name: string) returns (created: bool)
      requires Valid()
      modifies `clusters, `snapshot
      ensures Valid() && View() == Scheduler.CreateCluster(old(View()), name) && created == (name !in old(clusters))
      ensures snapshot == if created then Strip(View()) else old(snapshot)
    {
      hide RiakCluster.View, Strip, Views, AllDisjoint, RiakCluster.Objects, Footprints;
      if name in clusters {
        return false;
      }
      ghost var live := Views(clusters);
      ViewsOf(clusters);
      var c := new RiakCluster(name);
      NoClusterChanged(clusters, live);
      ClusterAdded(clusters, name, c);
      SetClusters(clusters[name := c]);
      assert Views(clusters) == live[name := NewCluster(name)];
      Persist();
      return true;
    }

    method MarkRestarting(name: string)
      requires Valid() && name in clusters
      modifies clusters[name]
      ensures Valid() && Views(clusters) == old(Views(clusters))[name := old(Views(clusters)[name]).RollingRestart()]
    {
      hide RiakCluster.View, Views, Footprints, AllDisjoint, PairwiseDisjoint, Injective, ObjectsOf,
           RiakCluster.Valid, RiakCluster.Objects;
      ViewsOf(clusters);
      OthersApart(clusters, name);
      KnownDisjoint(clusters);
      ghost var live, objects := Views(clusters), ObjectsOf(clusters);
      clusters[name].RollingRestart();
      StillDisjoint(clusters, objects);
      OneClusterChanged(clusters, live, name);
    }

    /** restartCluster. */
    method RestartCluster(name: string) returns (found: bool)
      requires Valid()
      modifies `snapshot, clusters.Values
      ensures Valid() && View() == Scheduler.RestartCluster(old(View()), name) && found == (name in clusters)
      ensures snapshot == if found then Strip(View()) else old(snapshot)
    {
      hide RiakCluster.View, Strip, Views, AllDisjoint, RiakCluster.Objects, Footprints, RiakCluster.Valid;
      if name !in clusters {
        return false;
      }
      MarkRestarting(name);
      Persist();
      return true;
    }

    method MarkKilled(name: string)
      requires Valid() && name in clusters
      modifies clusters[name], clusters[name].nodes.Values
      ensures Valid() && Views(clusters) == old(Views(clusters))[name := KillAll(old(Views(clusters)[name]))]
    {
      hide RiakCluster.View, Views, Footprints, AllDisjoint, PairwiseDisjoint, Injective, ObjectsOf,
           RiakCluster.Valid, RiakCluster.Objects, KillAll;
      ViewsOf(clusters);
      OthersApart(clusters, name);
      KnownDisjoint(clusters);
      ghost var live, objects := Views(clusters), ObjectsOf(clusters);
      clusters[name].KillNext();
      StillDisjoint(clusters, objects);
      OneClusterChanged(clusters, live, name);
    }

    /** removeCluster. */
    method RemoveCluster(name: string) returns (found: bool)
      requires Valid()
      modifies `snapshot, clusters.Values, Footprints(clusters)
      ensures Valid() && View() == Scheduler.RemoveCluster(old(View()), name) && found == (name in clusters)
      ensures snapshot == if found then Strip(View()) else old(snapshot)
    {
      hide RiakCluster.View, Strip, Views, AllDisjoint, RiakCluster.Objects, Footprints, RiakCluster.Valid, KillAll;
      if name !in clusters {
        return false;
      }
      OwnNodes(clusters, name);
      MarkKilled(name);
      Persist();
      return true;
    }

    method MarkNode(name: string, id: string)
      requires Valid() && name in clusters && id in clusters[name].nodes
      modifies clusters[name].nodes.Values
      ensures Valid()
      ensures var c := old(clusters[name].View());
              Views(clusters) == old(Views(clusters))[name := c.(nodes := c.nodes[id := c.nodes[id].KillNext()])]
    {
      hide Records, Views, Footprints, AllDisjoint, PairwiseDisjoint, Injective, ObjectsOf, RiakCluster.Valid,
           RiakCluster.Objects, Node.KillNext;
      ViewsOf(clusters);
      OthersApart(clusters, name);
      KnownDisjoint(clusters);
      ghost var live, objects := Views(clusters), ObjectsOf(clusters);
      clusters[name].KillNode(id);
      StillDisjoint(clusters, objects);
      OneClusterChanged(clusters, live, name);
    }

    /** removeNode. */
    method RemoveNode(name: string, id: string) returns (found: bool)
      requires Valid()
      modifies `snapshot, Footprints(clusters)
      ensures Valid() && View() == Scheduler.RemoveNode(old(View()), name, id)
      ensures found == (name in clusters && id in clusters[name].nodes)
      ensures snapshot == if found then Strip(View()) else old(snapshot)
    {
      hide RiakCluster.View, Strip, Views, AllDisjoint, RiakCluster.Objects, Footprints, RiakCluster.Valid,
           Node.KillNext;
      ViewsOf(clusters);
      if name !in clusters || id !in clusters[name].nodes {
        return false;
      }
      OwnNodes(clusters, name);
      MarkNode(name, id);
      Persist();
      return true;
    }

    /** The new node is in no cluster yet, and only its own cluster changes. */
    method CreateNodeIn(name: string, uuid: string) returns (node: RiakNode)
      requires Valid() && name in clusters
      modifies clusters[name]
      ensures forall k :: k in clusters ==> clusters[k].Valid() && node !in old(clusters[k].Objects())
      ensures forall k :: k in clusters && k != name ==>
                clusters[k].View() == old(clusters[k].View()) && clusters[k].Objects() == old(clusters[k].Objects())
      ensures clusters[name].Objects() <= old(clusters[name].Objects()) + {node}
      ensures clusters[name].View() ==
              Clusters.CreateNode(old(clusters[name].View()), cfg.framework, cfg.role, cfg.principal,
                                  cfg.cpus, cfg.mem, cfg.disk, uuid)
    {
      hide RiakCluster.View, PairwiseDisjoint, Injective, ObjectsOf, RiakCluster.Valid, Clusters.CreateNode;
      OthersApart(clusters, name);
      KnownDisjoint(clusters);
      hide AllDisjoint;
      node := clusters[name].CreateNode(cfg.framework, cfg.role, cfg.principal, cfg.cpus, cfg.mem, cfg.disk, uuid);
    }

    method AddNodeTo(name: string, uuid: string)
      requires Valid() && name in clusters
      modifies clusters[name]
      ensures Valid()
      ensures Views(clusters) == old(Views(clusters))[name :=
                Clusters.CreateNode(old(Views(clusters)[name]), cfg.framework, cfg.role, cfg.principal,
                                    cfg.cpus, cfg.mem, cfg.disk, uuid)]
    {
      hide RiakCluster.View, Views, Footprints, AllDisjoint, PairwiseDisjoint, Injective, ObjectsOf, RiakCluster.Valid,
           RiakCluster.Objects, Clusters.CreateNode;
      ViewsOf(clusters);
      KnownDisjoint(clusters);
      ghost var live, objects := Views(clusters), ObjectsOf(clusters);
      var node := CreateNodeIn(name, uuid);
      OneClusterChanged(clusters, live, name);
      FreshDisjoint(objects, name, node);
      StillDisjoint(clusters, objects[name := objects[name] + {node}]);
    }

    /** createNode. */
    method CreateNode(name: string, uuid: string) returns (found: bool)
      requires Valid()
      modifies `snapshot, clusters.Values
      ensures Valid() && View() == AddNode(old(View()), cfg, name, uuid) && found == (name in clusters)
      ensures snapshot == if found then Strip(View()) else old(snapshot)
    {
      hide RiakCluster.View, Strip, Views, AllDisjoint, RiakCluster.Objects, Footprints, RiakCluster.Valid,
           Clusters.CreateNode;
      if name !in clusters {
        return false;
      }
      ViewsOf(clusters);
      AddNodeTo(name, uuid);
      Persist();
      return true;
    }

    // ---------- status updates ----------

    method Find(id: string, order: seq<string>) returns (name: Option<string>)
      requires IsOrder(order, clusters.Keys)
      ensures name == old(FindCluster(View(), order, id)) && Views(clusters) == old(Views(clusters))
    {
      hide RiakCluster.View, Views;
      ViewsOf(clusters);
      for i := 0 to |order|
        invariant FindCluster(View(), order, id) == FindCluster(View(), order[i..], id)
      {
        assert order[i..][1..] == order[i + 1..];
        if id in clusters[order[i]].nodes || id in clusters[order[i]].graveyard {
          return Some(order[i]);
        }
      }
      return None;
    }

    method HandleIn(name: string, status: TaskStatus)
      requires Valid() && name in clusters
      requires status.taskId in clusters[name].nodes || status.taskId in clusters[name].graveyard
      modifies clusters[name].nodes.Values
      ensures Valid()
      ensures Views(clusters) == old(Views(clusters))[name := HandleStatus(old(Views(clusters)[name]), status)]
    {
      hide RiakCluster.View, Views, Footprints, AllDisjoint, PairwiseDisjoint, Injective, ObjectsOf,
           RiakCluster.Valid, RiakCluster.Objects, HandleStatus;
      ViewsOf(clusters);
      OthersApart(clusters, name);
      KnownDisjoint(clusters);
      ghost var live, objects := Views(clusters), ObjectsOf(clusters);
      clusters[name].HandleNodeStatusUpdate(status);
      StillDisjoint(clusters, objects);
      OneClusterChanged(clusters, live, name);
    }

    /** StatusUpdate: the first cluster in the iteration order that has the node handles it. */
    method StatusUpdate(status: TaskStatus, order: seq<string>) returns (found: bool)
      requires Valid() && IsOrder(order, clusters.Keys)
      modifies `snapshot, Footprints(clusters)
      ensures Valid() && View() == Scheduler.StatusUpdate(old(View()), status, order)
      ensures found == FindCluster(old(View()), order, status.taskId).Some?
      ensures snapshot == if found then Strip(View()) else old(snapshot)
    {
      hide RiakCluster.View, Strip, Views, AllDisjoint, RiakCluster.Objects, Footprints, RiakCluster.Valid,
           HandleStatus;
      ViewsOf(clusters);
      var name := Find(status.taskId, order);
      if name == None {
        return false;
      }
      OwnNodes(clusters, name.value);
      HandleIn(name.value, status);
      Persist();
      return true;
    }

    // ---------- the kill pass ----------

    /** finishRiakNode, and killRiakNode when it fails, for every listed node. */
    method StopAll(c: RiakCluster, order: seq<string>, failing: set<string>) returns (calls: seq<Call>)
      requires forall i :: 0 <= i < |order| ==> order[i] in c.nodes
      ensures calls == StopNodes(c.View().nodes, order, failing)
    {
      hide RiakNode.Rec, StopNode;
      calls := [];
      RecordsOf(c.nodes);
      for i := 0 to |order|
        invariant calls == StopNodes(c.View().nodes, order[..i], failing)
      {
        assert order[..i + 1][..i] == order[..i];
        calls := calls + StopNode(c.nodes[order[i]].Rec(), failing);
      }
      assert order[..|order|] == order;
    }

    method StopAndBury(c: RiakCluster, plan: KillPlan) returns (calls: seq<Call>, retired: bool, dirty: bool)
      requires c.Valid() && IsOrder(plan.killOrder, NodesToKill(c.View()))
      modifies c
      ensures c.Valid() && c.Objects() <= old(c.Objects()) && c.nodes.Values <= old(c.nodes.Values)
      ensures var before := old(c.View());
              && c.View() == Bury(before, NodesToRemove(before))
              && retired == c.View().CanBeRemoved()
              && dirty == (NodesToRemove(before) != {})
              && calls == StopNodes(before.nodes, plan.killOrder, plan.failing)
    {
      hide RiakNode.Rec, StopNodes, Records, Bury, RiakCluster.Valid, RiakCluster.Objects, NodesToRemove;
      var toKill, toRemove := c.GetNodesToKillOrRemove();
      RemovedAreLive(c.View());
      calls := StopAll(c, plan.killOrder, plan.failing);
      c.BuryNodes(toRemove);
      RecordsOf(c.nodes);
      retired := c.isKilled && |c.nodes| == 0;
      dirty := toRemove != {};
    }

    method RestartIn(c: RiakCluster, order: seq<string>, failing: set<string>) returns (calls: seq<Call>, modified: bool)
      requires c.Valid() && IsOrder(order, c.nodes.Keys)
      modifies c`isRestarting, c.nodes.Values
      ensures c.Valid() && c.Objects() == old(c.Objects())
      ensures var r := RestartPass(old(c.View()), order);
              && c.View() == r.cluster && modified == r.modified
              && calls == if r.marked.Some? then StopNode(r.cluster.nodes[r.marked.value], failing) else []
    {
      hide RiakNode.Rec, StopNode, RestartPass, Records, Apart;
      RestartPassOutline(c.View(), order);
      var marked;
      marked, modified := c.GetNodesToRestart(order);
      calls := [];
      if marked.Some? {
        RecordsOf(c.nodes);
        calls := StopNode(c.nodes[marked.value].Rec(), failing);
      }
    }

    /** A whole turn on one cluster object. */
    method StopBuryRestart(c: RiakCluster, plan: KillPlan) returns (calls: seq<Call>, retired: bool, dirty: bool)
      requires c.Valid()
      requires IsOrder(plan.killOrder, NodesToKill(c.View()))
      requires NodesToRemove(c.View()) <= c.View().nodes.Keys
      requires IsOrder(plan.scanOrder, Bury(c.View(), NodesToRemove(c.View())).nodes.Keys)
      modifies c, c.nodes.Values
      ensures c.Valid() && c.Objects() <= old(c.Objects())
      ensures KillOutcome(Turned(c.View(), calls, retired, dirty), old(c.View()), plan)
    {
      hide RiakCluster.View, RiakCluster.Valid, RiakCluster.Objects, Bury, RestartPass, StopNodes, StopNode, NodesToRemove,
           NodesToKill;
      calls, retired, dirty := StopAndBury(c, plan);
      RestartPassOutline(c.View(), plan.scanOrder);
      var restarts, modified := RestartIn(c, plan.scanOrder, plan.failing);
      calls := calls + restarts;
      dirty := dirty || retired || modified;
    }

    method KillIn(plan: KillPlan) returns (calls: seq<Call>, retired: bool, dirty: bool)
      requires Valid() && KillPlanFits(View(), plan)
      requires NodesToRemove(View().clusters[plan.name]) <= View().clusters[plan.name].nodes.Keys
      modifies clusters[plan.name], clusters[plan.name].nodes.Values
      ensures Valid() && Footprints(clusters) <= old(Footprints(clusters))
      ensures Views(clusters) == old(Views(clusters))[plan.name := Views(clusters)[plan.name]]
      ensures KillOutcome(Turned(Views(clusters)[plan.name], calls, retired, dirty), old(Views(clusters)[plan.name]), plan)
    {
      hide RiakCluster.View, Views, AllDisjoint, PairwiseDisjoint, Injective, ObjectsOf, RiakCluster.Valid, RiakCluster.Objects,
           Bury, NodesToRemove, KillOutcome, IsOrder, NodesToKill;
      ViewsOf(clusters);
      OthersApart(clusters, plan.name);
      KnownDisjoint(clusters);
      ghost var live, objects := Views(clusters), ObjectsOf(clusters);
      assert Footprints(clusters) == Union(objects);
      hide Union;
      calls, retired, dirty := StopBuryRestart(clusters[plan.name], plan);
      StillDisjoint(clusters, objects);
      OneClusterChanged(clusters, live, plan.name);
    }

    method Retire(key: string, name: string)
      requires Valid() && key in clusters
      modifies `clusters, `graveyard
      ensures Valid() && clusters == old(clusters) - {name}
      ensures Views(clusters) == old(Views(clusters)) - {name}
      ensures graveyard == old(graveyard)[name := old(Views(clusters)[key])]
      ensures Footprints(clusters) <= old(Footprints(clusters))
    {
      hide RiakCluster.View, Views, AllDisjoint, Footprints;
      ViewsOf(clusters);
      SetGraveyard(graveyard[name := clusters[key].View()]);
      FewerClusters(clusters, name);
      SetClusters(clusters - {name});
    }

    /** One cluster's turn in the kill pass; a retired cluster leaves the map for the graveyard. */
    method KillTurn(plan: KillPlan) returns (calls: seq<Call>, dirty: bool)
      requires Valid() && KillPlanFits(View(), plan)
      modifies this`clusters, this`graveyard, clusters.Values, Footprints(clusters)
      ensures Valid() && clusters.Values <= old(clusters.Values) && Footprints(clusters) <= old(Footprints(clusters))
      ensures Killed(View(), calls, dirty) == KillCluster(old(View()), plan)
    {
      hide RiakCluster.View, Views, AllDisjoint, RiakCluster.Objects, Footprints, KillOutcome, KillCluster, IsOrder, NodesToKill,
           NodesToRemove, Bury;
      ViewsOf(clusters);
      OwnNodes(clusters, plan.name);
      ghost var start := View();
      RemovedAreLive(start.clusters[plan.name]);
      var retired;
      calls, retired, dirty := KillIn(plan);
      ViewsOf(clusters);
      KillClusterIs(start, plan, Turned(Views(clusters)[plan.name], calls, retired, dirty));
      if retired {
        Retire(plan.name, clusters[plan.name].name);
      }
    }

    method TurnAll(plans: seq<KillPlan>) returns (calls: seq<Call>, dirty: bool)
      requires Valid() && KillPlansFit(View(), plans)
      modifies this`clusters, this`graveyard, clusters.Values, Footprints(clusters)
      ensures Valid() && Killed(View(), calls, dirty) == Scheduler.KillTasks(old(View()), plans)
    {
      hide View, Valid, Footprints, KillCluster, KillPlanFits, Scheduler.KillTasks, KillPlansFit;
      calls, dirty := [], false;
      assert plans[0..] == plans;
      ghost var total := Scheduler.KillTasks(View(), plans);
      for i := 0 to |plans|
        invariant Valid() && clusters.Values <= old(clusters.Values) && Footprints(clusters) <= old(Footprints(clusters))
        invariant KillPlansFit(View(), plans[i..])
        invariant var r := Scheduler.KillTasks(View(), plans[i..]);
                  total == Killed(r.sched, calls + r.calls, dirty || r.dirty)
      {
        NextKill(View(), plans, i);
        var more, changed := KillTurn(plans[i]);
        calls, dirty := calls + more, dirty || changed;
      }
      assert plans[|plans|..] == [];
      NoKills(View());
    }

    /** killTasks: every cluster's turn, then one write if anything changed. */
    method KillTasks(plans: seq<KillPlan>) returns (calls: seq<Call>, dirty: bool)
      requires Valid() && KillPlansFit(View(), plans)
      modifies this`clusters, this`graveyard, `snapshot, clusters.Values, Footprints(clusters)
      ensures Valid() && Killed(View(), calls, dirty) == Scheduler.KillTasks(old(View()), plans)
      ensures snapshot == if dirty then Strip(View()) else old(snapshot)
    {
      hide Strip, View, Valid, Footprints, Scheduler.KillTasks, KillPlansFit;
      calls, dirty := TurnAll(plans);
      PersistIf(dirty);
    }

    // ---------- reconciliation ----------

    /** The nodes of each cluster asked about in the last five seconds. */
    function Recents(now: real): (r: map<string, set<string>>)
      reads this, clusters.Values, Footprints(clusters)
      ensures r.Keys == clusters.Keys
    {
      map k | k in clusters :: clusters[k].Recent(now)
    }

    method AskThose(c: RiakCluster, now: real) returns (tasks: map<string, TaskStatus>)
      requires c.Valid()
      modifies c.nodes.Values
      ensures c.View() == old(c.View()) && tasks == TasksToReconcile(old(c.View()), old(c.Recent(now)))
      ensures Marked(c, old(c.Recent(now)), tasks.Keys, now)
    {
      hide RiakCluster.View, TasksToReconcile;
      ghost var stamps, recent := c.Stamps(), c.Recent(now);
      assert recent == set k | k in stamps && Lately(stamps[k], now);
      tasks := c.GetNodeTasksToReconcile(now);
      hide RiakCluster.Recent, RiakCluster.Stamps;
      forall later: real ensures later <= now + 5.0 ==> tasks.Keys <= c.Recent(later) {
        c.RecentNow(stamps, tasks.Keys, now, later);
      }
      c.RecentNow(stamps, tasks.Keys, now, now);
    }

    /** One cluster's part of reconcileTasks: its nodes are stamped, and nothing else changes. */
    method AskIn(name: string, now: real) returns (tasks: map<string, TaskStatus>)
      requires Valid() && name in clusters
      modifies clusters[name].nodes.Values
      ensures Valid() && Footprints(clusters) == old(Footprints(clusters)) && Views(clusters) == old(Views(clusters))
      ensures forall k :: k in clusters && k != name ==> clusters[k].Recent(now) == old(clusters[k].Recent(now))
      ensures forall k, before, ids :: k in clusters && k != name ==>
                Marked(clusters[k], before, ids, now) == old(Marked(clusters[k], before, ids, now))
      ensures tasks == TasksToReconcile(old(Views(clusters)[name]), old(clusters[name].Recent(now)))
      ensures Marked(clusters[name], old(clusters[name].Recent(now)), tasks.Keys, now)
    {
      hide RiakCluster.View, Views, TasksToReconcile, AllDisjoint, Footprints, RiakCluster.Objects, RiakCluster.Valid,
           RiakCluster.Recent, Marked;
      ViewsOf(clusters);
      OthersApart(clusters, name);
      ghost var live := Views(clusters);
      tasks := AskThose(clusters[name], now);
      NoClusterChanged(clusters, live);
    }

    /** reconcileTasks, in whatever order the clusters are walked: what Mesos is asked, by cluster. Who was asked about is
        not asked about again for five seconds. */
    method ReconcileTasks(now: real) returns (asked: map<string, map<string, TaskStatus>>)
      requires Valid()
      modifies Footprints(clusters)
      ensures Valid() && Footprints(clusters) == old(Footprints(clusters)) && View() == old(View())
      ensures asked == Asked(old(View()), old(Recents(now)))
      ensures forall c :: c in clusters ==> Marked(clusters[c], old(Recents(now))[c], AskedOf(asked, c), now)
    {
      hide RiakCluster.View, Views, TasksToReconcile, NodesToAsk, AllDisjoint, Footprints, RiakCluster.Objects,
           RiakCluster.Recent, Marked, AskedSoFar, AskedOf;
      ghost var live, recent, owned := Views(clusters), Recents(now), Footprints(clusters);
      asked := map[];
      var left := clusters.Keys;
      NobodyAsked(View(), recent);
      while left != {}
        invariant left <= clusters.Keys && Valid() && Footprints(clusters) == owned && Views(clusters) == live
        invariant forall c :: c in left ==> clusters[c].Recent(now) == recent[c]
        invariant AskedSoFar(View(), recent, left, asked)
        invariant forall c :: c in clusters && c !in left ==> Marked(clusters[c], recent[c], AskedOf(asked, c), now)
        decreases |left|
      {
        var name :| name in left;
        OwnNodes(clusters, name);
        var tasks := AskIn(name, now);
        OneMoreAsked(View(), recent, left, asked, name, tasks);
        asked := if tasks != map[] then asked[name := tasks] else asked;
        left := left - {name};
      }
      EveryoneAsked(View(), recent, asked);
    }

    /** reconcile: once enabled, ask, and only when there is nobody to ask about, kill. */
    method Reconcile(now: real, plans: seq<KillPlan>)
      returns (asked: map<string, map<string, TaskStatus>>, calls: seq<Call>, dirty: bool)
      requires Valid() && KillPlansFit(View(), plans)
      modifies this`clusters, this`graveyard, `snapshot, clusters.Values, Footprints(clusters)
      ensures Valid() && Killed(View(), calls, dirty) == Scheduler.Reconcile(old(View()), enabled, old(Recents(now)), plans)
      ensures asked == if enabled then Asked(old(View()), old(Recents(now))) else map[]
      ensures asked != map[] ==>
                clusters == old(clusters)
                && forall c :: c in clusters ==> Marked(clusters[c], old(Recents(now))[c], AskedOf(asked, c), now)
      ensures snapshot == if dirty then Strip(View()) else old(snapshot)
    {
      hide Strip, View, Valid, Asked, Scheduler.KillTasks, KillPlansFit, Footprints, Recents, Marked, AskedOf;
      if !enabled {
        return map[], [], false;
      }
      asked := ReconcileTasks(now);
      calls, dirty := [], false;
      if asked == map[] {
        calls, dirty := KillTasks(plans);
      }
    }
  }
}
