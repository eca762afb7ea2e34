# Riak Mesos framework: scheduler, offer allocator and distribution kernel

A Dafny model of three parts of the repository and proofs of what they keep.

**Scheduler** (`scheduler/`). Each Riak node has a current state, a destination state, a launch generation and a
restart generation. It is driven by resource offers, status updates, user commands and the periodic kill and restart
pass. Every handler runs under one lock and is one step. `SchedulerRuns` keeps apart the memory, the snapshot last
written, the launches prepared but not yet sent (a goroutine sends them later) and the launches sent. A crash step
brings memory back from the snapshot, forgets what was not sent, and clears `reconciled`, the field that is never
serialised. The theorems hold after every run: any commands, offers, status updates (also stray ones), kill passes and
crashes, in any order.

**Offer allocator** (`common/`). One offer becomes a reserved and an unreserved pool. The nodes of all clusters draw
from them, and the draws become an ordered list of operations. Amounts are `real`; a port list is drawn from in random
windows and written back as ranges.

**Distribution kernel** (`erlang_dist/`). The connection table with its owner lists, takeover on simultaneous connect,
the queues of waiting callers, the change of the tick interval, and node name splitting.

## How it is laid out

- Values and functions: `NodeIds`, `PortRanges`, `Offers`, `Nodes`, `Clusters`, `Scheduler` say what each operation
  computes; `KernelTable`, `Ticker`, `NodeNames` do so for the kernel. Map iteration order is a parameter (`order`: every
  key once), and so are the random window of ports (`pick`), a new uuid, new pids and whether a message could be sent; the
  theorems quantify over all of them.
- Objects: `OfferHelpers`, `RiakNodes`, `RiakClusters`, `SchedulerCores`, `NetKernels` are the source's mutable objects as
  classes with loops and updates in place. Each method is proved to change its object as the function does, and to
  write the snapshot exactly when the source does.
- What an operation comes to, in terms of states, records and operations rather than of its own steps: `Commands`,
  `LaunchOutcomes`, `Submissions`, `Rounds`, `KernelOutcomes`, and the ends of `Clusters` and `Ticker`.
- Theorems: `OfferLedger`, `OfferTotals`, `OfferSafety`, `OfferRuns`, `Reservations`, `SchedulerRuns`, `KillPass`,
  `RestartProgress`, `IdTotals`, `RecordPlaces`, `LaunchRecords`, `Recovery`, `Shutdowns`, `Witnesses`, `KernelRuns`,
  `SimultaneousConnect`, and the ends of `PortRanges`, `Ticker` and `NodeNames`.

## Where the code and its words differ, or a guess would be wrong

- The comment on `ArrayToRanges` (`common/utils.go:111`) assumes sorted input; the code sorts, in place. The model sorts.
- Three things are not checked before an offer is drawn from. `CanFitUnreserved` is asked for the node and the executor
  together (`scheduler/node.go:116`, `scheduler/node.go:140`), so a negative size hides an executor that does not fit by itself;
  `MakeVolume` adds the disk back (`common/offer.go:105`), so a negative disk overdraws the pool; and without a principal
  or a role a reservation is not one (`common/offer.go:217-249`), although the principal defaults to the
  empty string (`framework/framework.go:54`). Then the unreserved pool loses what no operation reserves.
  `OfferLedger.UnreservedOfferConserves` and `OfferLedger.ReservedOfferConserves` give the exact condition for one node, on
  the node and the offer as they are before the turn; `OfferTotals.OfferIsConserved` for a whole offer; and
  `OfferRuns.EveryOfferIsConserved` for every offer of every run. `NegativeDiskBreaks` and `NoPrincipalBreaks` are inputs
  that fail.
- Shutting down is not final. A staging, starting or running update sets the destination back to started
  (`scheduler/node.go:351-361`), and without any update the restart pass marks a started node that is to shut down, because
  such a node is neither restarted nor restarting (`scheduler/cluster.go:167-190`); once finished it is schedulable again.
  `Shutdowns.ShutdownIsUndone` gives the exact condition for every step, `Witnesses.ARemovedNodeIsRevived` a run, and
  `Shutdowns.RemovalIsCarriedOut` says what is left of a cluster's removal.
- A node counts as restarted when a running update comes for it, whichever launch the update is about:
  `Nodes.RunningIsRestarted` gives the exact condition, `Witnesses.ARestartWithoutALaunch` a run.
- The restart scan stops at the first unfinished node in map order (`scheduler/cluster.go:167-180`), so several nodes may
  be restarting at once: `Clusters.RestartsOverlap` says exactly when. At most one is marked per pass.
- A node reserved on an agent may be launched there without its volume in the offer (`scheduler/cluster.go:78-89`);
  `Clusters.VisitDecides` says exactly when a turn launches. The destroy theorem therefore speaks of volumes the offer holds.
- A cluster that was removed can be created again under its name, so ids are unique in one cluster object, not for ever.
  Executor ids are unique for ever, because they hold the uuid. When the second one retires too it takes the place of the
  first (`scheduler/reconcilation.go:100`), and the launches of the first are in no record any more.
  `LaunchRecords.SnapshotRemembersLaunches` gives the exact condition for a run, and `Witnesses.ASentLaunchIsForgotten` is a
  run, from the start, that fails it.

## Model

| member | source | states |
|---|---|---|
| NodeIds.CurrentIdInjective | scheduler/node.go:89-91 | Node ids of one framework are equal only for the same cluster and simple id, even when names contain dashes |
| NodeIds.ExecutorIdInjective | scheduler/node.go:97-99 | Executor ids with uuids of one length are equal only for the same cluster, uuid and generation |
| PortRanges.RangesToArray | common/utils.go:131-143 | The loops list every port of every range, in order |
| PortRanges.Sort | common/utils.go:105-113 | Sorts the array in place: ascending, the same ports |
| PortRanges.ArrayToRanges | common/utils.go:111-130 | The in-place sort and the merging loop give the ranges of the ports the array held |
| PortRanges.RangesOfIsTheCanonicalForm | common/utils.go:111-130 | Those ranges are the one canonical list (ascending, disjoint, not adjacent) with exactly these ports |
| PortRanges.CanonicalUnique | common/utils.go:111-130 | Two canonical lists with the same ports are the same list |
| PortRanges.CodecRoundTrip | common/utils.go:111-143 | Compressing the expansion of canonical ranges gives them back |
| PortRanges.CompressThenExpand | common/utils.go:111-143 | Expanding the compression gives the same ports ascending and without duplicates; distinct ports are only reordered |
| OfferHelpers.GetResource | common/offer.go:203-215 | The loop totals the named scalar on one side, reserved or not |
| OfferHelpers.GetPorts | common/offer.go:189-201 | The loop collects the ports of one side in offer order |
| OfferHelpers.GetPersistenceIds | common/offer.go:178-187 | The loop collects the ids of exactly the reserved volumes |
| OfferHelpers.CopyReservedVolumes | common/utils.go:51-83 | Copies each reserved volume with its size, path, id, role and principal |
| OfferHelpers.CopyReservedResources | common/utils.go:64-90 | Copies each reservation that has a role, without volume information or ranges |
| OfferHelpers.ResourceGroup.TakePorts | common/offer.go:251-268 | A window of the ports leaves the list and comes back as its ranges; the others stay in order |
| OfferHelpers.ResourceGroup.Apply | common/offer.go:217-271 | The draw changes the group and returns the ask as the specification of a draw says |
| Offers.DrawMovesScalars | common/offer.go:217-249 | What a draw asks for is what it takes from the pool, on the side that role and principal select, for every amount |
| Offers.DrawMovesPorts | common/offer.go:251-268 | The ports asked for, ascending, are exactly those that left the pool, for every window |
| Offers.EveryWindowIsPicked | common/offer.go:251-268 | Every window of consecutive ports but the last can be the one that is taken, and the others stay in order |
| OfferHelpers.OfferHelper.constructor | common/offer.go:31-57 | A new helper holds the totals, ports and volume ids of its offer and no operation |
| OfferHelpers.OfferHelper.MakeReservation | common/offer.go:95-99 | Draws from the unreserved group and appends the ask to what is to be reserved |
| OfferHelpers.OfferHelper.MakeVolume | common/offer.go:101-107 | Appends the volume and leaves the disk that the reservation already took |
| OfferHelpers.OfferHelper.ApplyReserved | common/offer.go:109-112 | Draws from the reserved group and changes nothing else |
| OfferHelpers.OfferHelper.ApplyUnreserved | common/offer.go:114-116 | Draws from the unreserved group and changes nothing else |
| OfferHelpers.OfferHelper.HasPersistenceId | common/offer.go:132-139 | The search succeeds exactly when the offer holds a volume with the id |
| OfferHelpers.OfferHelper.MaybeUnreserve | common/offer.go:79-93 | Without a launch, lists all reservations to unreserve and all volumes to destroy, if there are any |
| OfferHelpers.OfferHelper.Operations | common/offer.go:141-159 | Launch, destroy, unreserve, reserve, create, in that order, without empty ones |
| Submissions.OperationsAreTheLists | common/offer.go:141-159 | The operations name exactly what the helper lists to destroy, unreserve, reserve and create, launch exactly its tasks, and come in that order with the launch first, none of a kind twice |
| Submissions.CopiesOutcome | common/utils.go:51-90 | What is destroyed is exactly copies of the offered volumes, what is unreserved copies of the offered reservations with a role, and the ids are those of the volumes |
| OfferLedger.NewHelperConserved | common/offer.go:31-57 | A fresh helper is balanced: pools equal the offer's totals and nothing is taken |
| OfferLedger.UnreservedOfferConserves | scheduler/node.go:115-134 | A reservation that fits keeps a conserved offer conserved if and only if the disk size is not negative, the executor fits by itself, and the node has a principal and a role or asks for nothing; non-negative sizes imply the first two |
| OfferLedger.ReservedOfferConserves | scheduler/node.go:136-226 | A launch that fits keeps a conserved offer conserved, with three own named ports, if and only if the node asks for three ports, the executor fits by itself, and the mode is compatibility or the node has a principal and a role or asks for nothing |
| OfferLedger.NegativeDiskBreaks | common/offer.go:101-107 | A node with disk -1.0 and a principal reserves on an offer and leaves the unreserved disk at -1.0 |
| OfferLedger.NoPrincipalBreaks | framework/framework.go:54 | A node with non-negative sizes and no principal reserves on an offer, and one cpu is in no pool, task, reservation or held share |
| OfferLedger.BrokenStaysBroken | common/offer.go:217-249 | Gaps and overdrafts only grow: an offer that is conserved after some draws was conserved before them |
| OfferLedger.TasksOwnTheirPorts | common/offer.go:251-268 | A port of one task is the offer's, is in no other task, and is neither held nor left over |
| OfferLedger.MaybeUnreserveReturnsAll | common/offer.go:79-93 | Giving the offer back changes nothing in what is conserved and happens only while the reserved pool is still the whole offer, conserved or not |
| OfferLedger.OperationsAreAffordable | common/offer.go:141-159 | Run in order, the operations of a conserved offer never draw more than is left of any scalar or port |
| OfferTotals.VisitConserves | scheduler/cluster.go:51-98 | One node's turn, whatever the node's state and branch, keeps a conserved offer conserved if and only if, should it launch or reserve, the condition of that launch or reservation holds |
| OfferTotals.OfferIsConserved | scheduler/scheduler.go:215-238 | For any clusters, nodes, orders and windows: at the end of an offer initial totals are what remains plus tasks, executors, reservations and held amounts, and no pool is negative, if and only if every turn met its condition; then the operations never overdraw; and in any case unreserving happens only without a launch and with no reserved resource consumed |
| OfferTotals.FittingNodesKeep | scheduler/cluster.go:48-105 | Nodes with non-negative sizes, three ports and, outside compatibility mode, a principal and a role or nothing to ask for meet the condition in every turn of every offer |
| OfferTotals.OfferPortsArePartitioned | scheduler/node.go:168-181 | Whatever the nodes' sizes, principals and roles: the tasks of one offer have disjoint ports that with held and remaining ones make up the offer's; HTTP, PB and Disterl ports are three different ones of the task's own exactly when it has three, which it has if every node asks for three |
| OfferSafety.ClaimIsNoticed | scheduler/cluster.go:52-76 | A node that needs reconciliation, or could use an offered volume, is launched or makes the offer be kept |
| OfferSafety.OnlyLaunches | scheduler/scheduler.go:240-256 | In compatibility mode only the launch is submitted, with all prepared tasks; otherwise the launched tasks are the prepared ones too |
| OfferSafety.DestroySubmittedWhen | scheduler/scheduler.go:215-264 | A volume is destroyed if and only if the offer holds it, nothing was launched, no turn asked to keep the offer, and the mode is not compatibility |
| OfferSafety.DestroyIsSafe | scheduler/scheduler.go:215-264 | If the submitted operations destroy volume p, then at the start of the offer no node of any cluster needed reconciliation and none was schedulable with a reservation under id p, for every order of clusters and nodes |
| OfferSafety.UnreserveIsSafe | scheduler/scheduler.go:215-264 | If the submitted operations give reservations back, then at the start of the offer no node of any cluster needed reconciliation, and every schedulable node that counted on a reservation on that slave or host is afterwards the node without it, for every order of clusters and nodes |
| Submissions.SubmittedReservations | scheduler/scheduler.go:215-264 | For any clusters, orders and windows: what is submitted for an offer reserves exactly the cpus, memory and disk, and creates exactly the volumes (uuid, path, size, role, principal), of the nodes that went from no reservation to one, in the order of their turns, and launches exactly the prepared tasks; in compatibility mode it reserves and creates nothing |
| Submissions.SubmittedReturns | scheduler/scheduler.go:215-264 | Exactly when nothing was launched, no turn asked to keep the offer and the mode is not compatibility, the submitted operations unreserve all reservations of an offer that holds something reserved and destroy all of its volumes; else none |
| OfferRuns.OfferIsARun | scheduler/scheduler.go:224-228 | All clusters' turns on an offer are a run of single turns with the same memory, and exactly the offer's launches enter the history |
| OfferRuns.SubmittedLaunchIsPrepared | scheduler/scheduler.go:197-264 | What is sent to Mesos for an offer launches exactly the executors prepared for it |
| OfferRuns.EveryOfferIsConserved | scheduler/scheduler.go:215-238 | In every reachable state an offer is conserved if and only if its turns met their conditions; with configured sizes that are not negative, if and only if the mode is compatibility, a principal and a role are configured (or sizes of zero), or the offer was left alone; and then it is never overdrawn |
| Reservations.ReservedNodeLaunches | scheduler/cluster.go:66-97 | A node that reserved is launched, with the next generation and on exactly the volume that was submitted for creation, when what was submitted is offered back with room for the executor |
| LaunchOutcomes.TasksFindTheirNodes | scheduler/node.go:136-226 | Every task a turn prepares runs under the id of one live node of the cluster, on the offer's slave, with an executor of the node's next generation; the record says so, with the offer's slave and host; the task gets the node's sizes, in its role and with its volume when they were reserved, and the executor its share; and in every order a status update for the task finds that cluster |
| LaunchOutcomes.NextGenerationHasTask | scheduler/node.go:136-226 | Every node that a turn takes to another generation has such a task |
| LaunchOutcomes.LaunchedNodeIsNamed | scheduler/node.go:168-181 | The Erlang name of a launched node is its id at the host, with a dot added to a host without one, and a node name if neither part has an @ |
| RiakNodes.IteratePorts | common/utils.go:92-103 | Yields the ports of all port resources in order |
| RiakNodes.RiakNode.constructor | scheduler/node.go:53-85 | A new node is unknown, to be started, at generation 0, not reconciled |
| RiakNodes.RiakNode.Update | scheduler/cluster.go:241-272 | Records the status, marks the node reconciled and moves it as the kind of update says |
| Nodes.UpdateEndsOrRuns | scheduler/node.go:351-376 | After an update a node is off the running states exactly for terminal updates, or for one the scheduler does not know if it was off them before; only a running update starts it; generations and uuid stay |
| RiakNodes.RiakNode.ApplyUnreservedOffer | scheduler/node.go:115-134 | Reserves and makes the volume, or changes neither node nor offer |
| RiakNodes.RiakNode.AskFor | scheduler/node.go:136-153 | Draws task and executor resources from the right pools, or changes nothing when either does not fit |
| RiakNodes.RiakNode.MarkLaunched | scheduler/node.go:157-182 | The next generation, starting, no status, with the first three ports of the task |
| RiakNodes.RiakNode.ApplyReservedOffer | scheduler/node.go:136-226 | Launches under the incremented generation and appends the task, or changes neither node nor offer |
| RiakClusters.RiakCluster.Visit | scheduler/cluster.go:51-98 | The loop body does to node and offer what the specification of a turn says, and reports need and change |
| RiakClusters.RiakCluster.ApplyOffer | scheduler/cluster.go:48-105 | The loop over the live node objects, in a given order, is the specified sequence of turns; dead nodes stay untouched |
| Clusters.VisitOutcome | scheduler/cluster.go:51-98 | Only a schedulable node is touched; a launch uses the node's next generation; identity, destination and restart generation stay; tasks are only appended |
| Clusters.VisitDecides | scheduler/cluster.go:51-98 | A turn launches, reserves, gives a reservation up, asks to keep the offer, or reports a change exactly under the conditions spelled out on states, sizes, ids and mode; only a launch or a reservation touches the offer |
| LaunchOutcomes.VisitRecords | scheduler/cluster.go:51-98 | What a turn leaves of the node's record, each exactly under its condition: launched for the offer, reserved on its slave and host, without the reservation it had, or the same |
| LaunchOutcomes.PassRecords | scheduler/cluster.go:48-105 | After the turns of a whole cluster every record is left in one of these four ways |
| RiakClusters.RiakCluster.RollingRestart | scheduler/cluster.go:109-115 | Raises the generation only when no restart is going on |
| RiakClusters.RiakCluster.KillNext | scheduler/server.go:84-87 | Every live node, in any order, and the cluster are to shut down |
| RiakClusters.RiakCluster.CreateNode | scheduler/cluster.go:136-141 | Adds one new object under its own id and keeps all others |
| Clusters.CreateNodeIsFresh | scheduler/cluster.go:130-141 | The new id is used by no live or dead node, the total of ids grows by one, and ids stay exactly 1 to the total |
| Clusters.BuryKeepsIds | scheduler/cluster.go:149-153 | Moving nodes to the graveyard keeps the ids exact and their total the same |
| IdTotals.OnlyCreationAddsIds | scheduler/cluster.go:130-153 | In every reachable state and for every step, crashes included: a cluster there before and after has as many live and dead nodes together as before, and one more exactly if the step created a node in it |
| RiakClusters.RiakCluster.RemoveNode | scheduler/cluster.go:149-153 | The object leaves the live map for the graveyard under its id |
| RiakClusters.RiakCluster.HandleNodeStatusUpdate | scheduler/cluster.go:233-273 | Updates the one live node named, or nothing when the node is dead |
| Clusters.UpdateMoves | scheduler/cluster.go:233-273 | An update for a live node reconciles it, records the status and its slave, and moves it to the state of the kind of update; afterwards a node to be started waits for an offer exactly after failed, lost or error, a restarting one after every terminal update, one to shut down never; nothing else changes |
| RiakClusters.RiakCluster.GetNodesToKillOrRemove | scheduler/cluster.go:202-216 | The loop lists exactly the nodes that are to shut down and run, and those that are to shut down and are not started |
| RiakClusters.RiakCluster.GetNodesToRestart | scheduler/cluster.go:155-200 | The scan, the mark and the end of the restart are those of the specified pass |
| RiakClusters.RiakCluster.GetNodeTasksToReconcile | scheduler/cluster.go:218-231 | At a given time, lists the statuses of exactly the unreconciled nodes that have one and were not asked about in the last five seconds, and stamps exactly those nodes |
| Clusters.RestartPassMarks | scheduler/cluster.go:155-200 | In every order a pass marks exactly the first unfinished node unless that one is restarting, and changes no other |
| Clusters.RestartsOverlap | scheduler/cluster.go:167-190 | While one node restarts, a pass marks another if and only if that is the first unfinished one in its order |
| Clusters.RestartPassEnds | scheduler/cluster.go:192-197 | The restart ends exactly when every live node is started, to be started, and of the current generation |
| Nodes.RunningIsRestarted | scheduler/node.go:326-376 | After an update a node counts as restarted exactly if it was marked and the update says running, whichever launch it is about, or it is one the scheduler does not know and the node ran before |
| Witnesses.ARestartWithoutALaunch | scheduler/cluster.go:155-200 | A run from the start: a node marked for a restart counts as restarted without having been launched again |
| Clusters.RestartPassProgress | scheduler/cluster.go:182-190 | The nodes behind are those that were behind, without the one marked |
| RestartProgress.StepKeepsUp | scheduler/cluster.go:155-200 | While a cluster restarts, no step of any run, crashes included, puts a node behind its generation |
| RestartProgress.RestartNeverLosesGround | scheduler/cluster.go:155-200 | In every run, from any moment of a rolling restart to any later one of it, crashes included: the generation is the same and the nodes behind it are among those that were behind |
| Scheduler.OneClusterHasTheNode | scheduler/scheduler.go:273-279 | At most one cluster has the id of a status update |
| Scheduler.StatusUpdateIgnoresOrder | scheduler/scheduler.go:266-283 | The outcome of a status update does not depend on the iteration order |
| Scheduler.KillsWaitForReconciliation | scheduler/reconcilation.go:37-46 | A node that needs reconciliation and was not asked about in the last five seconds is asked about in this round, and the round has no kill pass |
| SchedulerCores.SchedulerCore.Persist | scheduler/state.go:61-65 | Writes out the whole state but for what is not serialised, and changes nothing in memory |
| Commands.WrittenOutcome | scheduler/state.go:61-65 | What is written is every record of every cluster, live, dead and retired, with only the reconciled flag cleared |
| SchedulerCores.SchedulerCore.ApplyOfferTo | scheduler/cluster.go:48-105 | One cluster's turn; the state is written exactly when a node changed |
| SchedulerCores.SchedulerCore.ApplyToAll | scheduler/scheduler.go:224-228 | The loop over the clusters accumulates state, offer, need and change of all turns |
| SchedulerCores.SchedulerCore.CreateOperations | scheduler/scheduler.go:218-235 | The loop body: the operations of one offer, giving it back only when no cluster asked to keep it |
| SchedulerCores.SchedulerCore.CreateOperationsForOffers | scheduler/scheduler.go:215-238 | The loop over a list of offers gives each its operations under its id, on the state the ones before left |
| SchedulerCores.SchedulerCore.AcceptOffer | scheduler/scheduler.go:240-264 | Submits all operations, or in compatibility mode the tasks of the last launch alone |
| SchedulerCores.SchedulerCore.ResourceOffers | scheduler/scheduler.go:197-213 | Submits for every offer what was prepared under its id, with the state that holds the launches written before |
| Commands.EveryOfferIsAnswered | scheduler/scheduler.go:197-238 | Of several offers with different ids each is answered with what was prepared for it, on the state its predecessors left |
| SchedulerCores.SchedulerCore.Registered | scheduler/scheduler.go:171-182 | Writes the state and enables the reconciliation rounds |
| SchedulerCores.SchedulerCore.CreateCluster | scheduler/server.go:38-54 | Adds an empty cluster and writes the state, unless the name is taken |
| Commands.CreateClusterOutcome | scheduler/server.go:38-54 | Adds an empty cluster, neither removed nor restarting, and changes no other |
| SchedulerCores.SchedulerCore.RestartCluster | scheduler/server.go:56-72 | Starts a restart and writes the state if the cluster exists |
| Commands.RestartOutcome | scheduler/cluster.go:109-115 | A restart of a cluster that is not restarting raises its generation and puts every node behind it; else nothing changes |
| SchedulerCores.SchedulerCore.RemoveCluster | scheduler/server.go:74-91 | Lets a cluster and its nodes shut down and writes the state if it exists |
| Commands.RemoveClusterOutcome | scheduler/server.go:74-91 | Every live node gets the destination shutdown and the cluster is marked; nothing else changes |
| SchedulerCores.SchedulerCore.RemoveNode | scheduler/server.go:200-221 | Lets one live node shut down and writes the state if it exists |
| Commands.RemoveNodeOutcome | scheduler/server.go:200-221 | One live node gets the destination shutdown; nothing else changes |
| SchedulerCores.SchedulerCore.CreateNode | scheduler/server.go:223-238 | Adds a configured node and writes the state if the cluster exists |
| Commands.CreateNodeOutcome | scheduler/cluster.go:130-141 | Adds one node under an id no node of the cluster had: configured, of the cluster's generation, nowhere yet, waiting for an offer; nothing else changes |
| SchedulerCores.SchedulerCore.StatusUpdate | scheduler/scheduler.go:266-298 | The first cluster in the order that has the node handles the update, and the state is written if one has it |
| SchedulerCores.SchedulerCore.KillTurn | scheduler/reconcilation.go:84-114 | Stops, buries, retires and restarts in one cluster; other clusters keep their objects |
| SchedulerCores.SchedulerCore.KillTasks | scheduler/reconcilation.go:81-118 | All turns of a kill pass with their calls, then one write if anything changed |
| SchedulerCores.SchedulerCore.ReconcileTasks | scheduler/reconcilation.go:120-132 | Asks each cluster that has somebody to ask about, in whatever order; exactly those asked about are added to the recent ones and stay recent for five seconds, so they are not asked about again before; no record changes |
| SchedulerCores.SchedulerCore.Reconcile | scheduler/reconcilation.go:37-46 | Nothing until enabled; then asks, marking whom it asked about, and kills only when there was nobody to ask about |
| Rounds.RoundOutcome | scheduler/reconcilation.go:37-46 | Once enabled and with nobody due to be asked about, a round is orderly for every cluster: whoever is to shut down and may run is stopped, whoever is to shut down and is not started is buried, a removed cluster with no one left retires; any other round sends and changes nothing |
| Rounds.AskedOutcome | scheduler/cluster.go:218-231 | A round asks about exactly the nodes that are unreconciled, not asked about lately, and have a status or are past their reservation, with the last status without slave, or an error under the node id |
| KillPass.KillClusterIsOrderly | scheduler/reconcilation.go:85-113 | One cluster's turn in any order, whatever messages fail: buried exactly if to shut down and not started, stopped if running |
| KillPass.KillPassIsOrderly | scheduler/reconcilation.go:81-118 | In a whole pass no node of a cluster is buried while started, one buried while starting was sent finish, and kill if that failed, in the pass; whoever is to shut down and runs was stopped; every node that stays is as before, or marked for the restart and stopped; no node of the cluster is lost; it leaves exactly when killed with every node buried |
| KillPass.RemovedClusterIsRetired | scheduler/server.go:74-91 | A cluster whose removal was asked for leaves with a kill pass that follows at once if and only if none of its nodes is started |
| Shutdowns.RemovalIsCarriedOut | scheduler/server.go:74-91 | After a removal in any run and any further steps, while the cluster is there: the kill pass that comes then retires it if and only if each node is to shut down and not started; if no step in between made a node of it run again or added one, if and only if none is started |
| Shutdowns.ShutdownIsUndone | scheduler/cluster.go:155-200 | In every reachable state, for every step and every node live before and after it that was to shut down: the node is to run again if and only if the step is a staging, starting or running update for it (then to be started), or a kill turn of its restarting cluster in whose order every earlier node has restarted (then to be restarted) |
| Witnesses.ARemovedNodeIsRevived | scheduler/cluster.go:167-190 | A run from the start: the removal of a running node is asked for during a rolling restart, the kill pass marks it for the restart, and once finished it is schedulable |
| SchedulerRuns.VisitKeepsHistory | scheduler/node.go:257-305 | A turn launches only a node whose last launch has ended, under a greater generation |
| SchedulerRuns.OfferStepKeeps | scheduler/cluster.go:100-102 | An offer step writes the launches it prepares before they can be sent, and keeps the invariant |
| SchedulerRuns.CrashStepKeeps | scheduler/node.go:28-30 | Reading the snapshot back keeps the invariant, with every node unreconciled |
| SchedulerRuns.RunKeeps | scheduler/state.go:61-65 | In every run the snapshot is memory but for the unserialised field, and every launch sent or to be sent was prepared |
| SchedulerRuns.NoExecutorIdLaunchedTwice | scheduler/node.go:97-99 | In every run, crashes included, no executor id is sent to Mesos twice |
| SchedulerRuns.LaunchesAreSeparated | scheduler/cluster.go:233-273 | Later launches of one node use greater generations, and between any two a terminal update for it was handled |
| SchedulerRuns.SnapshotCoversLaunches | scheduler/cluster.go:100-102 | The snapshot's generation of a live node covers every launch prepared for it; a launched live node with no terminal update since is starting or started in memory and snapshot, and not schedulable in either |
| LaunchRecords.SnapshotRemembersLaunches | scheduler/cluster.go:100-102 | In every run, crashes included: every launch ever prepared is covered by a record of a live node, a dead one, or one in a retired cluster, in memory and in the snapshot, if and only if no turn of a kill pass retired a cluster over an older one of its name that had launched a node |
| LaunchRecords.TurnRemembersExactly | scheduler/reconcilation.go:92-103 | After a cluster's turn in the kill pass the state covers exactly the launches it covered before, but for what only a retired cluster of the same name covered, if the turn retires this one |
| LaunchRecords.NameReuseForgets | scheduler/reconcilation.go:99-103 | In every reachable state with a retired cluster whose name is free, creating a cluster of the name, removing it and a kill pass leave in memory and in the snapshot exactly the launches that were covered and that the retired one did not hold |
| Witnesses.ASentLaunchIsForgotten | scheduler/reconcilation.go:99-103 | A run from the start: a node is launched and its launch sent, its cluster is removed and retires, and the name is used and removed again; then no record in memory or in the snapshot covers the launch |
| RecordPlaces.OneRecordEach | scheduler/node.go:53-85 | In every run no two records, live, dead or in a retired cluster, have one uuid |
| SchedulerRuns.CrashUnreconciles | scheduler/node.go:257-266 | After a crash in any run every live node is unreconciled, and one past its reservation is not schedulable before a status update |
| Recovery.NothingBeforeReconciliation | scheduler/node.go:257-266 | From a crash in any run until a status update for a node comes, whatever else happens: while it is past its reservation it is not schedulable, and a round that finds it not asked about in the last five seconds stops, buries and restarts nothing |
| SchedulerRuns.StatesAreInOrder | scheduler/cluster.go:109-153 | In every reachable state and snapshot: ids exact and disjoint, restart generations within their band, no graveyard with a started node, retired clusters killed and without live nodes |
| KernelRuns.StepKeepsTable | erlang_dist/src/net_kernel.erl:402-424 | Every message keeps conn_owners and pend_owners in agreement with the table, with distinct and disjoint pids |
| KernelRuns.OwnersAreABijection | erlang_dist/src/net_kernel.erl:620-686 | Each connection has exactly one pair in conn_owners, each up_pending one exactly one in pend_owners, and no node or pid is in a list twice |
| KernelRuns.NodeDownIsForTheOwner | erlang_dist/src/net_kernel.erl:853-865 | The branch of nodedown that gives the old state back is unreachable |
| KernelRuns.CallersAreConserved | erlang_dist/src/net_kernel.erl:400-424 | In every run, for each node, the callers so far are those answered followed by those waiting, in the order of their calls; nobody waits on a connection that is up |
| KernelRuns.EachCallerOnce | erlang_dist/src/net_kernel.erl:1466-1479 | A caller that asked once was answered exactly once or waits exactly once, never both |
| KernelRuns.TrueMeansUp | erlang_dist/src/net_kernel.erl:620-635 | The answer true for another node comes only from a step that leaves its connection up |
| KernelRuns.StaleNodeUpIsRefused | erlang_dist/src/net_kernel.erl:620-635 | A pid that holds no connection never holds one again, and its nodeup is refused and changes nothing |
| KernelRuns.ReplacedOwnerIsOut | erlang_dist/src/net_kernel.erl:647-667 | A takeover removes the old owner from both lists and keeps the waiting callers |
| KernelRuns.ReplacedOwnerNeverComesUp | erlang_dist/src/net_kernel.erl:640-686 | Whatever happens after a takeover, a late nodeup of the replaced owner changes nothing |
| KernelRuns.EstablishedStays | erlang_dist/src/net_kernel.erl:760-801 | A connection that is up or up_pending keeps its owner over every step but its disconnect and its owner's exit |
| KernelRuns.OwnerExitOutcome | erlang_dist/src/net_kernel.erl:853-907 | What an owner's exit does in each of the three states: callers refused, connection down and barred exactly with once, or handed to the pending owner with its callers |
| NetKernels.NetKernel.HandleConnect | erlang_dist/src/net_kernel.erl:400-424 | Answers at once, queues the caller, or starts a setup, updating the table in place |
| KernelOutcomes.ConnectOutcome | erlang_dist/src/net_kernel.erl:400-424 | A caller is answered true at once exactly for this node or a connection that is up, false exactly if there is none and no process could be started; else it waits, newest first, on the connection there is or on a new one owned by the new process |
| KernelOutcomes.ConnectThenUp | erlang_dist/src/net_kernel.erl:400-424 | Callers of an unknown node are answered true, in order, once the process started for the first reports, and the next caller at once |
| NetKernels.NetKernel.HandleNodeUp | erlang_dist/src/net_kernel.erl:620-635 | Brings a pending connection up for its owner only and answers the queue oldest first |
| KernelOutcomes.NodeUpOutcome | erlang_dist/src/net_kernel.erl:620-635 | A nodeup brings a connection up exactly if it comes, immediate, from the owner of a pending one: same owner, the sent type, nobody waiting, the owner told and then every waiting caller, oldest first; any other is refused and changes nothing |
| NetKernels.NetKernel.HandleAcceptPending | erlang_dist/src/net_kernel.erl:640-686 | The four answers, with the takeover of a pending connection |
| KernelOutcomes.AcceptPendingOutcome | erlang_dist/src/net_kernel.erl:640-686 | Each of the five answers exactly in its state, with the new owner, the pending owner or no change, and the waiting callers kept |
| NetKernels.NetKernel.HandleExit | erlang_dist/src/net_kernel.erl:763-832 | The first role that knows the pid handles its exit |
| KernelOutcomes.ServiceExitOutcome | erlang_dist/src/net_kernel.erl:763-832 | The exit of a listener stops the kernel; an accepting process and the ticker are replaced |
| NetKernels.NetKernel.HandleNodeDown | erlang_dist/src/net_kernel.erl:853-907 | Deletes, bars or hands over the connection of an owner that exited |
| NetKernels.NetKernel.HandlePendingOwnerExit | erlang_dist/src/net_kernel.erl:803-822 | Takes the pending owner off and answers the queue |
| KernelOutcomes.PendingOwnerExitOutcome | erlang_dist/src/net_kernel.erl:803-822 | The exit of a pending owner leaves the connection up under its owner and tells every waiting caller true, oldest first |
| NetKernels.NetKernel.HandleDisconnect | erlang_dist/src/net_kernel.erl:987-1005 | The owner's exit is handled before the answer, which is true exactly for connections that were up or up_pending |
| KernelOutcomes.DisconnectOutcome | erlang_dist/src/net_kernel.erl:987-1005 | True exactly for a connection that is up or up_pending; an up one is gone afterwards, barred exactly with once, an up_pending one pending again under its pending owner |
| SimultaneousConnect.AboveIsTotal | erlang_dist/src/net_kernel.erl:644 | Of two different names exactly one is greater |
| SimultaneousConnect.NeverBothGranted | erlang_dist/src/net_kernel.erl:640-686 | No interleaving of two kernels' steps grants both handshakes |
| SimultaneousConnect.TheGreaterNameWins | erlang_dist/src/net_kernel.erl:640-686 | If both started, only the greater name's handshake is granted, always once answered, and the smaller side's owner is replaced |
| Ticker.AuxTickerSends | erlang_dist/src/net_kernel.erl:1082-1091 | One tick per turn, and transition_period_end once, just before the last tick |
| Ticker.TicksCoverTheTransition | erlang_dist/src/net_kernel.erl:1065-1080 | The ticks after the first are the least number of intervals that covers the transition period; none for a period of 0 |
| Ticker.TransitionEndsInTime | erlang_dist/src/net_kernel.erl:1065-1091 | The transition ends at or after its period and by less than one interval, with no gap longer than the shorter tick time |
| Ticker.PeriodIsRecordedTime | erlang_dist/src/net_kernel.erl:519-549 | In every run, ticker restarts included, outside a transition the ticker's period is the recorded time once its messages are read |
| Ticker.ChangeGoesOn | erlang_dist/src/net_kernel.erl:519-549 | Until its transition ends a change stays what it is, whatever happens to the ticker and whatever is requested |
| Ticker.RequestOutcome | erlang_dist/src/net_kernel.erl:519-549 | A request begins a change exactly if none is going on and the time is another |
| Ticker.LongerMeanwhile | erlang_dist/src/net_kernel.erl:519-549 | While a change goes on and its ticker lives, the ticker has the longer of the two periods once its messages are read |
| Ticker.ChangeTakesEffect | erlang_dist/src/net_kernel.erl:731-740 | When a change's transition ends, longer or shorter, after any ticker deaths, restarts, read messages and further requests in between, the recorded time is the new one and the ticker, now or once restarted, will use it |
| NodeNames.SplitThenJoin | erlang_dist/src/inet_tcp_dist.erl:375-377 | Joining the pieces restores the string, with any accumulator |
| NodeNames.SplitPieces | erlang_dist/src/inet_tcp_dist.erl:375-377 | One piece more than separators, and none contains one |
| NodeNames.JoinThenSplit | erlang_dist/src/inet_tcp_dist.erl:375-377 | Splitting a join of separator-free pieces gives them back |
| NodeNames.NodeNameHasOneAt | erlang_dist/src/inet_tcp_dist.erl:434-440 | A name is a node name exactly when it has one '@', that is, when it is a name and a host joined by one |

## Left out

- Retired clusters as objects: SchedulerCore stores the value a cluster has after its turn, where the source stores the object just before its restart pass; nothing reads it in between.
- The goroutine of each offer: ResourceOffers submits in offer order; SendStep in SchedulerRuns sends in any order, at any later time or never.
- Recovery of objects from the snapshot: CrashStep does it on values; building new objects from them would only copy fields.
- Ranges with an end below their begin: the type PortRange excludes them, as Mesos does.
- Integer widths: ports, ids and generations are unbounded, so nothing wraps around.
- Float rounding: amounts are real numbers.
- Join and Leave: their remote calls do not change scheduler state, so an update is only the state change.
- A crash in the middle of a handler: before its write it is a crash without the handler, after it one with the handler and its launches unsent.
- Persist that fails: the last retry ends the process, so a write happens or the run stops.
- The clock: the time of a reconciliation round is a parameter, one for the whole round, and rounds come at any time.
- Mesos itself: any status update may come at any time, also for tasks that do not run; an offer has no negative amount and no port twice.
- HTTP routing and replies, configuration of clusters, JSON and zlib, SASL, logging.
- Fields of tasks and of the framework that are only passed on (commands, URIs, Zookeeper addresses).
- Kernel: allowed nodes and the choice of a listener are the parameter that says whether a setup started; addresses, verbosity, publish lists and spawn requests are not modelled.
- Kernel: a caller that do_connect turns away before the call reaches the kernel.
- Simultaneous connects with other owner exits than the replacement: after them the two nodes may start new handshakes.
- A pending owner that is undefined in an up_pending connection: no run makes one.
- executor, cepmd, process_manager, riak_explorer, riak_s2 and the socket handshake.
