/** What a reconciliation round comes to. */
module Rounds {
  import opened NodeIds
  import opened Nodes
  import opened Clusters
  import opened Scheduler
  import opened KillPass

  /** The node's state is to be asked about: it is not reconciled, was not asked about lately, and there is something to ask,
      because it has a status or has got past its reservation. */
  predicate IsDue(n: Node, lately: bool) {
    !n.reconciled && !lately && (n.status.Some? || (n.current != Unknown && n.current != Reserved))
  }

  predicate NobodyDue(s: Sched, recent: map<string, set<string>>)
    requires recent.Keys == s.clusters.Keys
  {
    forall c :: c in s.clusters ==> forall k :: k in s.clusters[c].nodes ==>
      !IsDue(s.clusters[c].nodes[k], k in recent[c])
  }

  /** What is asked: the last status known, without its slave, or an error for a node that has none. */
  function Question(n: Node): TaskStatus {
    if n.status.Some? then TaskStatus(n.status.value.taskId, n.status.value.state, "")
    else TaskStatus(CurrentId(n.framework, n.cluster, n.simpleId), TaskError, "")
  }

  /** A round asks about exactly the nodes that are due. */
  lemma AskedOutcome(s: Sched, recent: map<string, set<string>>, c: string, k: string)
    requires recent.Keys == s.clusters.Keys
    ensures c in Asked(s, recent) && k in Asked(s, recent)[c] <==>
            c in s.clusters && k in s.clusters[c].nodes && IsDue(s.clusters[c].nodes[k], k in recent[c])
    ensures c in Asked(s, recent) && k in Asked(s, recent)[c] ==>
            Asked(s, recent)[c][k] == Question(s.clusters[c].nodes[k])
  {
    hide CurrentId;
    if c in s.clusters && k in s.clusters[c].nodes && IsDue(s.clusters[c].nodes[k], k in recent[c]) {
      assert k in NodesToAsk(s.clusters[c], recent[c]);
    }
  }

  lemma QuietWhenNobodyDue(s: Sched, recent: map<string, set<string>>)
    requires recent.Keys == s.clusters.Keys
    ensures Asked(s, recent) == map[] <==> NobodyDue(s, recent)
  {
    hide CurrentId;
    if NobodyDue(s, recent) {
      forall c | c in s.clusters ensures NodesToAsk(s.clusters[c], recent[c]) == {} {
      }
    } else {
      var c, k :| c in s.clusters && k in s.clusters[c].nodes && IsDue(s.clusters[c].nodes[k], k in recent[c]);
      assert k in NodesToAsk(s.clusters[c], recent[c]);
      assert c in Asked(s, recent);
    }
  }

  /** Once enabled, and with nobody to ask about, a round does the whole kill pass for every cluster, in any order: who is to
      shut down and may run is stopped, who is to shut down and is not started is buried, and a removed cluster with no one
      left retires. In every other round nothing is sent and nothing changes. */
  lemma RoundOutcome(s: Sched, framework: string, enabled: bool, recent: map<string, set<string>>, plans: seq<KillPlan>,
                     name: string)
    requires WellFormed(s, framework) && recent.Keys == s.clusters.Keys && KillPlansFit(s, plans)
    requires IsOrder(seq(|plans|, i requires 0 <= i < |plans| => plans[i].name), s.clusters.Keys)
    requires name in s.clusters
    ensures var r := Reconcile(s, enabled, recent, plans);
            if enabled && NobodyDue(s, recent) then Orderly(s.clusters[name], r.sched, r.calls)
            else r == Killed(s, [], false)
  {
    hide WellFormed, KillPlansFit, KillTasks, Orderly, Asked, NobodyDue;
    QuietWhenNobodyDue(s, recent);
    KillPassIsOrderly(s, framework, plans, name);
  }
}
