/** What each command makes of the state, node by node, and what is written of it. */
module Commands {
  import opened Options
  import opened NodeIds
  import opened Offers
  import opened Nodes
  import opened Clusters
  import opened Scheduler

  /** The clusters but this one, and the retired ones, are as they were. */
  predicate OthersStay(s: Sched, t: Sched, name: string) {
    && t.graveyard == s.graveyard
    && t.clusters.Keys - {name} == s.clusters.Keys - {name}
    && forall c :: c in s.clusters && c != name ==> c in t.clusters && t.clusters[c] == s.clusters[c]
  }

  /** Creating a cluster adds an empty one, neither removed nor restarting, unless the name is taken. */
  lemma CreateClusterOutcome(s: Sched, name: string)
    ensures var t := CreateCluster(s, name);
            && OthersStay(s, t, name) && name in t.clusters
            && if name in s.clusters then t == s
               else t.clusters[name] == Cluster(name, map[], map[], false, false, 0)
  {
  }

  /** A rolling restart of a cluster that is not restarting puts all of its nodes behind; else nothing changes. */
  lemma RestartOutcome(s: Sched, name: string)
    ensures var t := RestartCluster(s, name);
            && OthersStay(s, t, name)
            && if name !in s.clusters || s.clusters[name].isRestarting then t == s
               else
                 && name in t.clusters
                 && t.clusters[name] == s.clusters[name].(isRestarting := true, generation := s.clusters[name].generation + 1)
                 && (InBand(s.clusters[name]) ==> Behind(t.clusters[name]) == s.clusters[name].nodes.Keys)
  {
    if name in s.clusters {
      assert s.clusters[name := s.clusters[name]] == s.clusters;
    }
  }

  /** A removal lets every live node of the cluster shut down, and the cluster. */
  lemma RemoveClusterOutcome(s: Sched, name: string)
    ensures var t := RemoveCluster(s, name);
            && OthersStay(s, t, name)
            && if name !in s.clusters then t == s
               else
                 && name in t.clusters && t.clusters[name].nodes.Keys == s.clusters[name].nodes.Keys
                 && t.clusters[name] == s.clusters[name].(isKilled := true, nodes := t.clusters[name].nodes)
                 && forall k :: k in s.clusters[name].nodes ==>
                      t.clusters[name].nodes[k] == s.clusters[name].nodes[k].(destination := Shutdown)
  {
  }

  lemma RemoveNodeOutcome(s: Sched, name: string, id: string)
    ensures var t := RemoveNode(s, name, id);
            && OthersStay(s, t, name)
            && if name !in s.clusters || id !in s.clusters[name].nodes then t == s
               else
                 && name in t.clusters
                 && t.clusters[name] == s.clusters[name].(nodes :=
                      s.clusters[name].nodes[id := s.clusters[name].nodes[id].(destination := Shutdown)])
  {
  }

  /** A new node: configured, with its own uuid, of the cluster's generation, nowhere yet, and waiting for an offer. */
  predicate IsNew(n: Node, cfg: Config, c: Cluster, uuid: string) {
    && n.framework == cfg.framework && n.cluster == c.name && n.uuid == uuid
    && n.role == cfg.role && n.principal == cfg.principal
    && n.cpus == cfg.cpus && n.mem == cfg.mem && n.disk == cfg.disk && n.ports == 10
    && n.restartGeneration == c.generation && n.generation == 0
    && n.current == Unknown && n.destination == Started && Waits(n) && !n.reconciled
    && n.status == None && n.data == None && n.slaveId == "" && n.hostname == ""
  }

  /** Creating a node adds one under an id that no live or dead node of the cluster had. */
  lemma CreateNodeOutcome(s: Sched, cfg: Config, name: string, uuid: string)
    requires WellFormed(s, cfg.framework)
    ensures var t := AddNode(s, cfg, name, uuid);
            && OthersStay(s, t, name)
            && if name !in s.clusters then t == s
               else
                 var c := s.clusters[name];
                 var id := CurrentId(cfg.framework, name, |c.nodes| + |c.graveyard| + 1);
                 && name in t.clusters && id in t.clusters[name].nodes
                 && id !in c.nodes && id !in c.graveyard
                 && t.clusters[name] == c.(nodes := c.nodes[id := t.clusters[name].nodes[id]])
                 && IsNew(t.clusters[name].nodes[id], cfg, c, uuid)
  {
    hide CurrentId, IdsUpTo, InBand;
    if name in s.clusters {
      var c := s.clusters[name];
      CreateNodeIsFresh(c, cfg.framework, cfg.role, cfg.principal, cfg.cpus, cfg.mem, cfg.disk, uuid);
    }
  }

  predicate WrittenNodes(before: map<string, Node>, after: map<string, Node>) {
    after.Keys == before.Keys && forall k :: k in before ==> after[k] == before[k].(reconciled := false)
  }

  predicate WrittenCluster(c: Cluster, d: Cluster) {
    && d == c.(nodes := d.nodes, graveyard := d.graveyard)
    && WrittenNodes(c.nodes, d.nodes) && WrittenNodes(c.graveyard, d.graveyard)
  }

  /** What is written is everything but who is reconciled. */
  lemma WrittenOutcome(s: Sched)
    ensures var t := Strip(s);
            && t.clusters.Keys == s.clusters.Keys && t.graveyard.Keys == s.graveyard.Keys
            && (forall c :: c in s.clusters ==> WrittenCluster(s.clusters[c], t.clusters[c]))
            && (forall c :: c in s.graveyard ==> WrittenCluster(s.graveyard[c], t.graveyard[c]))
  {
  }

  // ---------- several offers ----------

  /** The state in which the offer of this index is handled. */
  function StateBefore(s: Sched, offers: seq<Offer>, choices: seq<seq<OfferPlan>>, mode: bool, i: nat): Sched
    requires OffersFit(s, offers, choices, mode) && i <= |offers|
    decreases i
  {
    if i == 0 then s
    else
      var a := OfferClusters(s, choices[0], mode, NewHelper(offers[0]));
      StateBefore(a.sched, offers[1..], choices[1..], mode, i - 1)
  }

  predicate DistinctOffers(offers: seq<Offer>) {
    forall i, j :: 0 <= i < j < |offers| ==> offers[i].id != offers[j].id
  }

  lemma {:induction false} FitsInTurn(s: Sched, offers: seq<Offer>, choices: seq<seq<OfferPlan>>, mode: bool, i: nat)
    requires OffersFit(s, offers, choices, mode) && i < |offers|
    ensures |choices| == |offers|
    ensures OfferPlansFit(StateBefore(s, offers, choices, mode, i), choices[i], mode, NewHelper(offers[i]))
    decreases i
  {
    hide OfferClusters, OfferPlansFit, NewHelper;
    if i > 0 {
      var a := OfferClusters(s, choices[0], mode, NewHelper(offers[0]));
      FitsInTurn(a.sched, offers[1..], choices[1..], mode, i - 1);
    }
  }

  lemma {:induction false} OnlyOwnIds(s: Sched, offers: seq<Offer>, choices: seq<seq<OfferPlan>>, mode: bool, id: string)
    requires OffersFit(s, offers, choices, mode) && forall i :: 0 <= i < |offers| ==> offers[i].id != id
    ensures id !in OperationsForOffers(s, offers, choices, mode).operations
    decreases |offers|
  {
    hide OfferClusters, OfferPlansFit, NewHelper, OperationsFor;
    if offers != [] {
      OnlyOwnIds(OfferClusters(s, choices[0], mode, NewHelper(offers[0])).sched, offers[1..], choices[1..], mode, id);
    }
  }

  lemma {:induction false} OperationsInTurn(s: Sched, offers: seq<Offer>, choices: seq<seq<OfferPlan>>, mode: bool, i: nat)
    requires OffersFit(s, offers, choices, mode) && i < |offers| && DistinctOffers(offers)
    ensures |choices| == |offers|
    ensures var u := StateBefore(s, offers, choices, mode, i);
            && OfferPlansFit(u, choices[i], mode, NewHelper(offers[i]))
            && offers[i].id in OperationsForOffers(s, offers, choices, mode).operations
            && OperationsForOffers(s, offers, choices, mode).operations[offers[i].id] ==
               OperationsFor(OfferClusters(u, choices[i], mode, NewHelper(offers[i])))
    decreases i
  {
    hide OfferClusters, OfferPlansFit, NewHelper, OperationsFor;
    FitsInTurn(s, offers, choices, mode, i);
    var a := OfferClusters(s, choices[0], mode, NewHelper(offers[0]));
    assert DistinctOffers(offers[1..]);
    if i == 0 {
      OnlyOwnIds(a.sched, offers[1..], choices[1..], mode, offers[0].id);
    } else {
      OperationsInTurn(a.sched, offers[1..], choices[1..], mode, i - 1);
    }
  }

  /** Of several offers with different ids each is answered with what was prepared for it, on the state its predecessors
      left. */
  lemma EveryOfferIsAnswered(s: Sched, offers: seq<Offer>, choices: seq<seq<OfferPlan>>, mode: bool, i: nat)
    requires OffersFit(s, offers, choices, mode) && i < |offers| && DistinctOffers(offers)
    ensures |choices| == |offers|
    ensures var u := StateBefore(s, offers, choices, mode, i);
            && OfferPlansFit(u, choices[i], mode, NewHelper(offers[i]))
            && Accepted(offers, OperationsForOffers(s, offers, choices, mode).operations, mode)[i] ==
               Submitted(mode, OperationsFor(OfferClusters(u, choices[i], mode, NewHelper(offers[i]))))
  {
    hide OfferClusters, OfferPlansFit, NewHelper, OperationsFor, OffersFit, OperationsForOffers, StateBefore, Submitted;
    OperationsInTurn(s, offers, choices, mode, i);
  }
}
