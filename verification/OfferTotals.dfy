/** Conservation over a whole offer: any sequence of clusters and nodes, any iteration order, any port windows. */
module OfferTotals {
  import opened Offers
  import opened OfferLedger
  import opened Nodes
  import opened Clusters
  import opened Scheduler
  import opened OfferSafety

  predicate SameSize(n: Node, m: Node) {
    && m.cpus == n.cpus && m.mem == n.mem && m.disk == n.disk && m.ports == n.ports
    && m.principal == n.principal && m.role == n.role
  }

  lemma VisitKeepsSize(n: Node, h: Helper, compatibilityMode: bool, pick: nat)
    ensures SameSize(n, VisitNode(n, h, compatibilityMode, pick).node)
  {
    hide LaunchAsks, Apply, FitsReserved, LaunchData;
  }

  // ---------- one turn ----------

  /** What must hold before a turn that draws for it to conserve the offer. */
  predicate TurnKeeps(n: Node, h: Helper, compatibilityMode: bool) {
    && (WillLaunch(n, h, compatibilityMode) ==> LaunchKeeps(n, h, compatibilityMode))
    && (WillReserve(n, h, compatibilityMode) ==> ReservationKeeps(n, h))
  }

  /** One node's turn, whatever its state, size and names, keeps the offer sound and closes no gap. */
  lemma VisitIsSound(n: Node, h: Helper, compatibilityMode: bool, pick: nat)
    requires Sound(h)
    ensures var g := VisitNode(n, h, compatibilityMode, pick).helper;
            Sound(g) && Worse(h, g)
  {
    hide Sound, VisitNode, ReservedOffer, UnreservedOffer, WillLaunch, WillReserve, FreeGap, ReservedGap;
    VisitDecides(n, h, compatibilityMode, pick);
    if WillLaunch(n, h, compatibilityMode) {
      LaunchIsSound(n, h, compatibilityMode, pick);
    } else if WillReserve(n, h, compatibilityMode) {
      ReservationIsSound(n, h, pick);
    }
  }

  lemma NotBoth(n: Node, h: Helper, compatibilityMode: bool, pick: nat)
    ensures !(WillLaunch(n, h, compatibilityMode) && WillReserve(n, h, compatibilityMode))
  {
  }

  /** One node's turn conserves the offer if and only if its guard held before. */
  lemma VisitConserves(n: Node, h: Helper, compatibilityMode: bool, pick: nat)
    requires Conserved(h)
    ensures Conserved(VisitNode(n, h, compatibilityMode, pick).helper) <==> TurnKeeps(n, h, compatibilityMode)
  {
    hide Conserved, VisitNode, ReservedOffer, UnreservedOffer, LaunchKeeps, ReservationKeeps, FitsReserved,
         Node.CanBeScheduled, Node.HasRequestedReservation;
    VisitDecides(n, h, compatibilityMode, pick);
    if WillLaunch(n, h, compatibilityMode) {
      ReservedOfferConserves(n, h, compatibilityMode, pick);
      NotBoth(n, h, compatibilityMode, pick);
    } else if WillReserve(n, h, compatibilityMode) {
      UnreservedOfferConserves(n, h, pick);
    }
  }

  lemma WorseIsTransitive(f: Helper, g: Helper, h: Helper)
    requires Worse(f, g) && Worse(g, h)
    ensures Worse(f, h)
  {
    hide FreeGap, ReservedGap;
  }

  lemma WorseThanItself(h: Helper)
    ensures Worse(h, h)
  {
  }

  // ---------- one cluster ----------

  /** Every turn of a pass over nodes met its guard. */
  predicate PassKeeps(nodes: map<string, Node>, order: seq<string>, picks: seq<nat>, compatibilityMode: bool, h: Helper)
    requires |picks| == |order| && forall i :: 0 <= i < |order| ==> order[i] in nodes
  {
    order != [] ==>
      var i := |order| - 1;
      var q := ApplyNodes(nodes, order[..i], picks[..i], compatibilityMode, h);
      && PassKeeps(nodes, order[..i], picks[..i], compatibilityMode, h)
      && TurnKeeps(q.nodes[order[i]], q.helper, compatibilityMode)
  }

  lemma {:induction false} PassConserves(nodes: map<string, Node>, order: seq<string>, picks: seq<nat>,
                                         compatibilityMode: bool, h: Helper)
    requires |picks| == |order| && forall i :: 0 <= i < |order| ==> order[i] in nodes
    requires Sound(h)
    ensures var p := ApplyNodes(nodes, order, picks, compatibilityMode, h);
            && Sound(p.helper) && Worse(h, p.helper)
            && (Conserved(h) ==> (Conserved(p.helper) <==> PassKeeps(nodes, order, picks, compatibilityMode, h)))
  {
    hide VisitNode, Conserved, Sound, Worse, TurnKeeps;
    if order == [] {
      WorseThanItself(h);
    } else {
      var i := |order| - 1;
      PassConserves(nodes, order[..i], picks[..i], compatibilityMode, h);
      var q := ApplyNodes(nodes, order[..i], picks[..i], compatibilityMode, h);
      var n := q.nodes[order[i]];
      VisitIsSound(n, q.helper, compatibilityMode, picks[i]);
      WorseIsTransitive(h, q.helper, VisitNode(n, q.helper, compatibilityMode, picks[i]).helper);
      if Conserved(q.helper) {
        VisitConserves(n, q.helper, compatibilityMode, picks[i]);
      } else if Conserved(VisitNode(n, q.helper, compatibilityMode, picks[i]).helper) {
        BrokenStaysBroken(q.helper, VisitNode(n, q.helper, compatibilityMode, picks[i]).helper);
      }
    }
  }

  // ---------- all clusters ----------

  /** Every turn of every cluster met its guard. */
  predicate OfferKeeps(s: Sched, plans: seq<OfferPlan>, compatibilityMode: bool, h: Helper)
    requires OfferPlansFit(s, plans, compatibilityMode, h)
    decreases |plans|
  {
    plans != [] ==>
      var a := OfferCluster(s, plans[0], compatibilityMode, h);
      && PassKeeps(s.clusters[plans[0].name].nodes, plans[0].order, plans[0].picks, compatibilityMode, h)
      && OfferKeeps(a.sched, plans[1..], compatibilityMode, a.helper)
  }

  lemma {:induction false} ClustersConserve(s: Sched, plans: seq<OfferPlan>, compatibilityMode: bool, h: Helper)
    requires OfferPlansFit(s, plans, compatibilityMode, h) && Sound(h)
    ensures var g := OfferClusters(s, plans, compatibilityMode, h).helper;
            && Sound(g) && Worse(h, g)
            && (Conserved(h) ==> (Conserved(g) <==> OfferKeeps(s, plans, compatibilityMode, h)))
    decreases |plans|
  {
    hide ApplyNodes, Conserved, Sound, Worse, PassKeeps;
    if plans == [] {
      WorseThanItself(h);
    } else {
      var plan, c := plans[0], s.clusters[plans[0].name];
      var a := OfferCluster(s, plan, compatibilityMode, h);
      var g := OfferClusters(a.sched, plans[1..], compatibilityMode, a.helper).helper;
      PassConserves(c.nodes, plan.order, plan.picks, compatibilityMode, h);
      ClustersConserve(a.sched, plans[1..], compatibilityMode, a.helper);
      WorseIsTransitive(h, a.helper, g);
      if Conserved(g) {
        BrokenStaysBroken(a.helper, g);
      }
    }
  }

  lemma ConservedIsSound(h: Helper)
    requires Conserved(h)
    ensures Sound(h)
  {
  }

  lemma MaybeUnreserveOffer(h: Helper)
    ensures MaybeUnreserve(h).offer == h.offer && MaybeUnreserve(h).tasks == h.tasks
    ensures MaybeUnreserve(h).reserved == h.reserved
  {
  }

  /** Whatever the clusters did with the offer, for nodes of any size and name: what it held is what remains plus what
      was taken, with no negative pool, if and only if every turn that drew met its guard; then its operations never
      overdraw it. In any case its reservations are given up only when none of them was consumed. */
  lemma OfferIsConserved(s: Sched, plans: seq<OfferPlan>, compatibilityMode: bool, offer: Offer)
    requires OfferPlansFit(s, plans, compatibilityMode, NewHelper(offer)) && WellFormedOffer(offer)
    ensures var a := OfferClusters(s, plans, compatibilityMode, NewHelper(offer));
            && a.helper.offer == offer && Sound(a.helper)
            && (Conserved(a.helper) <==> OfferKeeps(s, plans, compatibilityMode, NewHelper(offer)))
            && (Conserved(a.helper) ==> AllAffordable(OfferAccount(offer), OperationsFor(a)))
            && (forall rs :: Unreserve(rs) in OperationsFor(a) ==>
                  && a.helper.tasks == [] && rs == CopyReserved(offer.resources)
                  && forall kind: Kind :: a.helper.reserved.Get(kind) == Scalar(kind, offer.resources, true))
  {
    hide OfferClusters, OfferPlansFit, Conserved, Sound, Worse, AllAffordable, MaybeUnreserve, CopyReserved, PoolOf, OfferKeeps;
    var h := NewHelper(offer);
    var a := OfferClusters(s, plans, compatibilityMode, h);
    NewHelperConserved(offer);
    ConservedIsSound(h);
    ClustersConserve(s, plans, compatibilityMode, h);
    ClustersKeepOffer(s, plans, compatibilityMode, h);
    MaybeUnreserveReturnsAll(a.helper);
    MaybeUnreserveOffer(a.helper);
    var g := if a.needs then a.helper else MaybeUnreserve(a.helper);
    if Conserved(g) {
      OperationsAreAffordable(g);
    }
  }

  // ---------- nodes for which every turn keeps ----------

  /** Sizes that are not negative, three ports at least, and, outside compatibility mode, a principal and a role to
      reserve for, or nothing to reserve. */
  predicate Fits(n: Node, compatibilityMode: bool) {
    Sized(n) && n.ports >= 3 && (compatibilityMode || CanReserve(n) || AsksForNothing(n))
  }

  predicate AllFit(nodes: map<string, Node>, compatibilityMode: bool) {
    forall k :: k in nodes ==> Fits(nodes[k], compatibilityMode)
  }

  predicate EveryNodeFits(s: Sched, compatibilityMode: bool) {
    forall c :: c in s.clusters ==> AllFit(s.clusters[c].nodes, compatibilityMode)
  }

  lemma FittingTurnKeeps(n: Node, h: Helper, compatibilityMode: bool)
    requires Fits(n, compatibilityMode)
    ensures TurnKeeps(n, h, compatibilityMode)
  {
  }

  lemma {:induction false} FittingPassKeeps(nodes: map<string, Node>, order: seq<string>, picks: seq<nat>,
                                            compatibilityMode: bool, h: Helper)
    requires |picks| == |order| && forall i :: 0 <= i < |order| ==> order[i] in nodes
    requires AllFit(nodes, compatibilityMode)
    ensures PassKeeps(nodes, order, picks, compatibilityMode, h)
    ensures AllFit(ApplyNodes(nodes, order, picks, compatibilityMode, h).nodes, compatibilityMode)
  {
    hide VisitNode, TurnKeeps;
    if order != [] {
      var i := |order| - 1;
      FittingPassKeeps(nodes, order[..i], picks[..i], compatibilityMode, h);
      var q := ApplyNodes(nodes, order[..i], picks[..i], compatibilityMode, h);
      FittingTurnKeeps(q.nodes[order[i]], q.helper, compatibilityMode);
      VisitKeepsSize(q.nodes[order[i]], q.helper, compatibilityMode, picks[i]);
    }
  }

  lemma {:induction false} FittingNodesKeep(s: Sched, plans: seq<OfferPlan>, compatibilityMode: bool, h: Helper)
    requires OfferPlansFit(s, plans, compatibilityMode, h) && EveryNodeFits(s, compatibilityMode)
    ensures OfferKeeps(s, plans, compatibilityMode, h)
    decreases |plans|
  {
    hide ApplyNodes, PassKeeps, AllFit;
    if plans != [] {
      var plan, c := plans[0], s.clusters[plans[0].name];
      var a := OfferCluster(s, plan, compatibilityMode, h);
      FittingPassKeeps(c.nodes, plan.order, plan.picks, compatibilityMode, h);
      FittingNodesKeep(a.sched, plans[1..], compatibilityMode, a.helper);
    }
  }

  // ---------- nodes for which none does ----------

  /** A node that asks for something but cannot reserve it. */
  predicate Unreservable(n: Node) {
    Sized(n) && !CanReserve(n) && !AsksForNothing(n)
  }

  predicate NoneReservable(nodes: map<string, Node>) {
    forall k :: k in nodes ==> Unreservable(nodes[k])
  }

  function Turns(h: Helper): nat {
    |h.tasks| + |h.held|
  }

  /** Such a node's turn keeps the offer conserved exactly when it does not draw from it. */
  lemma UnreservableTurn(n: Node, h: Helper, pick: nat)
    requires Unreservable(n)
    ensures var g := VisitNode(n, h, false, pick).helper;
            && Turns(g) >= Turns(h)
            && (TurnKeeps(n, h, false) <==> Turns(g) == Turns(h))
  {
    hide VisitNode, LaunchAsks, LaunchData, FitsReserved, Node.CanBeScheduled, Node.HasRequestedReservation, CanReserve;
    VisitDecides(n, h, false, pick);
    NotBoth(n, h, false, pick);
  }

  lemma {:induction false} UnreservablePass(nodes: map<string, Node>, order: seq<string>, picks: seq<nat>, h: Helper)
    requires |picks| == |order| && forall i :: 0 <= i < |order| ==> order[i] in nodes
    requires NoneReservable(nodes)
    ensures var p := ApplyNodes(nodes, order, picks, false, h);
            && NoneReservable(p.nodes) && Turns(p.helper) >= Turns(h)
            && (PassKeeps(nodes, order, picks, false, h) <==> Turns(p.helper) == Turns(h))
  {
    hide VisitNode, TurnKeeps, Turns;
    if order != [] {
      var i := |order| - 1;
      UnreservablePass(nodes, order[..i], picks[..i], h);
      var q := ApplyNodes(nodes, order[..i], picks[..i], false, h);
      UnreservableTurn(q.nodes[order[i]], q.helper, picks[i]);
      VisitKeepsSize(q.nodes[order[i]], q.helper, false, picks[i]);
    }
  }

  lemma {:induction false} UnreservableClusters(s: Sched, plans: seq<OfferPlan>, h: Helper)
    requires OfferPlansFit(s, plans, false, h)
    requires forall c :: c in s.clusters ==> NoneReservable(s.clusters[c].nodes)
    ensures var g := OfferClusters(s, plans, false, h).helper;
            && Turns(g) >= Turns(h)
            && (OfferKeeps(s, plans, false, h) <==> Turns(g) == Turns(h))
    decreases |plans|
  {
    hide ApplyNodes, PassKeeps, NoneReservable, Turns;
    if plans != [] {
      var plan, c := plans[0], s.clusters[plans[0].name];
      var a := OfferCluster(s, plan, false, h);
      UnreservablePass(c.nodes, plan.order, plan.picks, h);
      UnreservableClusters(a.sched, plans[1..], a.helper);
    }
  }

  // ---------- ports ----------

  predicate EveryTaskHasPorts(h: Helper) {
    forall i :: 0 <= i < |h.tasks| ==> |PortIterator(h.tasks[i].resources)| >= 3
  }

  predicate PortsEnough(nodes: map<string, Node>) {
    forall k :: k in nodes ==> nodes[k].ports >= 3
  }

  lemma VisitHasPorts(n: Node, h: Helper, compatibilityMode: bool, pick: nat)
    requires Sound(h) && EveryTaskHasPorts(h) && n.ports >= 3
    ensures EveryTaskHasPorts(VisitNode(n, h, compatibilityMode, pick).helper)
  {
    hide Sound, VisitNode, ReservedOffer, UnreservedOffer, WillLaunch, WillReserve, PortIterator;
    VisitDecides(n, h, compatibilityMode, pick);
    if WillLaunch(n, h, compatibilityMode) {
      SoundPorts(h);
      LaunchPorts(n, h, compatibilityMode, pick);
      LaunchPools(n, h, compatibilityMode, pick);
      var g := ReservedOffer(n, h, compatibilityMode, pick).value.1;
      forall i | 0 <= i < |g.tasks| ensures |PortIterator(g.tasks[i].resources)| >= 3 {
        assert i < |h.tasks| ==> g.tasks[i] == h.tasks[i];
      }
    } else if WillReserve(n, h, compatibilityMode) {
      ReservationMoves(n, h, pick);
    }
  }

  lemma {:induction false} PassHasPorts(nodes: map<string, Node>, order: seq<string>, picks: seq<nat>,
                                        compatibilityMode: bool, h: Helper)
    requires |picks| == |order| && forall i :: 0 <= i < |order| ==> order[i] in nodes
    requires Sound(h) && EveryTaskHasPorts(h) && PortsEnough(nodes)
    ensures var p := ApplyNodes(nodes, order, picks, compatibilityMode, h);
            EveryTaskHasPorts(p.helper) && PortsEnough(p.nodes)
  {
    hide VisitNode, Sound, EveryTaskHasPorts;
    if order != [] {
      var i := |order| - 1;
      PassHasPorts(nodes, order[..i], picks[..i], compatibilityMode, h);
      PassConserves(nodes, order[..i], picks[..i], compatibilityMode, h);
      var q := ApplyNodes(nodes, order[..i], picks[..i], compatibilityMode, h);
      VisitHasPorts(q.nodes[order[i]], q.helper, compatibilityMode, picks[i]);
      VisitKeepsSize(q.nodes[order[i]], q.helper, compatibilityMode, picks[i]);
    }
  }

  lemma {:induction false} ClustersHavePorts(s: Sched, plans: seq<OfferPlan>, compatibilityMode: bool, h: Helper)
    requires OfferPlansFit(s, plans, compatibilityMode, h) && Sound(h) && EveryTaskHasPorts(h)
    requires forall c :: c in s.clusters ==> PortsEnough(s.clusters[c].nodes)
    ensures EveryTaskHasPorts(OfferClusters(s, plans, compatibilityMode, h).helper)
    decreases |plans|
  {
    hide ApplyNodes, Sound, EveryTaskHasPorts, PortsEnough;
    if plans != [] {
      var plan, c := plans[0], s.clusters[plans[0].name];
      var a := OfferCluster(s, plan, compatibilityMode, h);
      PassHasPorts(c.nodes, plan.order, plan.picks, compatibilityMode, h);
      PassConserves(c.nodes, plan.order, plan.picks, compatibilityMode, h);
      ClustersHavePorts(a.sched, plans[1..], compatibilityMode, a.helper);
    }
  }

  /** Every task of an offer owns its ports: they are the offer's, in no other task, neither held nor left over; and its
      HTTP, PB and Disterl ports are three different ones of them if and only if it has three, as it has whenever every
      node asks for three. */
  lemma OfferPortsArePartitioned(s: Sched, plans: seq<OfferPlan>, compatibilityMode: bool, offer: Offer, i: nat, p: nat)
    requires OfferPlansFit(s, plans, compatibilityMode, NewHelper(offer)) && WellFormedOffer(offer)
    requires var h := OfferClusters(s, plans, compatibilityMode, NewHelper(offer)).helper;
             i < |h.tasks| && p in PortIterator(h.tasks[i].resources)
    ensures var h := OfferClusters(s, plans, compatibilityMode, NewHelper(offer)).helper;
            && (TaskPortsNamed(h.tasks[i]) <==> |PortIterator(h.tasks[i].resources)| >= 3)
            && ((forall c :: c in s.clusters ==> PortsEnough(s.clusters[c].nodes)) ==> TaskPortsNamed(h.tasks[i]))
            && p in PortList(offer.resources, false)
            && p !in h.unreserved.ports && p !in PortList(h.held, false)
            && (forall j :: 0 <= j < |h.tasks| && j != i ==> p !in PortIterator(h.tasks[j].resources))
            && multiset(PortList(offer.resources, false)) ==
               multiset(h.unreserved.ports) + TaskPorts(h.tasks) + multiset(PortList(h.held, false))
  {
    hide OfferClusters, OfferPlansFit, PoolOf, PortIterator, PortList, TaskPorts, Scalar, TaskSum, OfferKeeps, PortsEnough,
         FreeGap, ReservedGap, TaskPortsRead, TaskPortsNamed;
    var h := OfferClusters(s, plans, compatibilityMode, NewHelper(offer)).helper;
    NewHelperConserved(offer);
    ClustersConserve(s, plans, compatibilityMode, NewHelper(offer));
    ClustersKeepOffer(s, plans, compatibilityMode, NewHelper(offer));
    if forall c :: c in s.clusters ==> PortsEnough(s.clusters[c].nodes) {
      ClustersHavePorts(s, plans, compatibilityMode, NewHelper(offer));
    }
    assert TaskPortsRead(h.tasks[i]);
    NamedWhenThree(h.tasks[i]);
    TasksOwnTheirPorts(h, i, p);
  }
}
