/** The node record of `scheduler/node.go` as a value: its persisted fields, its predicates,
    its setters, and what one offer does to it. */
module Nodes {
  import opened Options
  import opened NodeIds
  import opened PortRanges
  import opened Offers

  const CPUS_PER_EXECUTOR := 0.1
  const MEM_PER_EXECUTOR := 32.0
  const PORTS_PER_TASK := 10
  const CONTAINER_PATH := "root"

  datatype ProcessState = Unknown | Reserved | Starting | Started | ShuttingDown | Shutdown | Failed | Restarting {
    /** The value of the constant in `process_state/constants.go`. */
    function Rank(): nat {
      match this
      case Unknown => 0
      case Reserved => 1
      case Starting => 2
      case Started => 3
      case ShuttingDown => 4
      case Shutdown => 5
      case Failed => 6
      case Restarting => 7
    }
  }

  datatype TaskState =
    | TaskStaging | TaskStarting | TaskRunning
    | TaskFinished | TaskFailed | TaskKilled | TaskLost | TaskError
    | TaskOther
  {
    /** The updates after which Mesos no longer runs the task. */
    predicate Terminal() {
      TaskFinished? || TaskFailed? || TaskKilled? || TaskLost? || TaskError?
    }
  }

  datatype TaskStatus = TaskStatus(taskId: string, state: TaskState, slaveId: string)

  /** `reconciled` is the one field here that is never serialised; `slaveId` is "" for a nil pointer. */
  datatype Node = Node(
    reconciled: bool,
    simpleId: nat,
    destination: ProcessState,
    current: ProcessState,
    status: Option<TaskStatus>,
    generation: nat,
    slaveId: string,
    hostname: string,
    data: Option<TaskData>,
    framework: string,
    cluster: string,
    role: string,
    principal: string,
    cpus: real,
    mem: real,
    disk: real,
    ports: int,
    uuid: string,
    restartGeneration: int)
  {
    function Id(): string {
      CurrentId(framework, cluster, simpleId)
    }

    function Persistent(): Node {
      this.(reconciled := false)
    }

    predicate HasRequestedReservation() {
      current.Rank() >= Reserved.Rank()
    }

    predicate NeedsToBeReconciled() {
      !reconciled && current != Unknown && current != Reserved
    }

    predicate CanBeScheduled() {
      && !NeedsToBeReconciled()
      && match destination
         case Restarting => current in {Unknown, Reserved, Shutdown, Failed}
         case Started => current in {Unknown, Reserved, Failed}
         case _ => false
    }

    predicate CanBeKilled() {
      destination == Shutdown && (current == Starting || current == Started)
    }

    predicate CanBeRemoved() {
      destination == Shutdown && current != Started
    }

    predicate HasRestarted(clusterGeneration: int) {
      destination == Started && current == Started && restartGeneration >= clusterGeneration
    }

    predicate IsRestarting(clusterGeneration: int) {
      (destination == Started || destination == Restarting) && current != Started &&
      restartGeneration >= clusterGeneration
    }

    function Restart(clusterGeneration: int): Node {
      this.(restartGeneration := clusterGeneration, destination := Restarting)
    }

    function Unreserve(): Node {
      this.(current := Unknown, slaveId := "")
    }

    function KillNext(): Node {
      this.(destination := Shutdown)
    }

    /** The state setter HandleNodeStatusUpdate chooses; Join and Leave add only remote calls. */
    function After(state: TaskState): Node {
      match state
      case TaskStaging => this.(current := Starting, destination := Started)
      case TaskStarting => this.(current := Starting, destination := Started)
      case TaskRunning => this.(current := Started, destination := Started)
      case TaskFinished => this.(current := Shutdown)
      case TaskKilled => this.(current := Shutdown)
      case TaskFailed => this.(current := Failed)
      case TaskLost => this.(current := Failed)
      case TaskError => this.(current := Failed)
      case TaskOther => this
    }

    /** GetTaskStatus: what to ask Mesos about; nothing before the first launch. */
    function StatusToReconcile(): Option<TaskStatus> {
      if status.Some? then Some(status.value.(slaveId := ""))
      else if current.Rank() <= Reserved.Rank() then None
      else Some(TaskStatus(Id(), TaskError, ""))
    }
  }

  function NewNode(framework: string, cluster: string, role: string, principal: string,
                   cpus: real, mem: real, disk: real,
                   restartGeneration: int, simpleId: nat, uuid: string): Node
  {
    Node(false, simpleId, Started, Unknown, None, 0, "", "", None, framework, cluster, role, principal,
         cpus, mem, disk, PORTS_PER_TASK, uuid, restartGeneration)
  }

  // ---------- offers ----------

  /** ApplyUnreservedOffer: hold the executor's share and the ports, reserve the rest and make the volume. */
  function UnreservedOffer(n: Node, h: Helper, pick: nat): Option<(Node, Helper)> {
    if !h.unreserved.CanFit(n.cpus + CPUS_PER_EXECUTOR, n.mem + MEM_PER_EXECUTOR, n.disk, n.ports) then None
    else
      var d := Apply(h.unreserved, CPUS_PER_EXECUTOR, MEM_PER_EXECUTOR, 0.0, n.ports, "", "", "", "", pick);
      var h1 := h.(unreserved := d.pool, held := h.held + d.ask);
      var h2 := MakeReservation(h1, n.cpus, n.mem, n.disk, 0, n.principal, n.role, 0);
      var h3 := MakeVolume(h2, n.disk, n.principal, n.role, n.uuid, CONTAINER_PATH);
      Some((n.(slaveId := h.offer.slaveId, hostname := h.offer.hostname, current := Reserved), h3))
  }

  datatype Asks = Asks(reserved: Pool, unreserved: Pool, task: seq<Resource>, executor: seq<Resource>)

  predicate FitsReserved(n: Node, h: Helper, compatibilityMode: bool) {
    if compatibilityMode then
      h.unreserved.CanFit(n.cpus + CPUS_PER_EXECUTOR, n.mem + MEM_PER_EXECUTOR, n.disk, n.ports)
    else
      h.reserved.CanFit(n.cpus, n.mem, n.disk, 0) &&
      h.unreserved.CanFit(CPUS_PER_EXECUTOR, MEM_PER_EXECUTOR, 0.0, n.ports)
  }

  /** The resources of the task and of its executor, and what stays in the pools. */
  function LaunchAsks(n: Node, h: Helper, compatibilityMode: bool, pick: nat): Asks
    requires FitsReserved(n, h, compatibilityMode)
  {
    if compatibilityMode then
      var t := Apply(h.unreserved, n.cpus, n.mem, n.disk, n.ports, "", "", "", "", pick);
      var e := Apply(t.pool, CPUS_PER_EXECUTOR, MEM_PER_EXECUTOR, 0.0, 0, "", "", "", "", 0);
      Asks(h.reserved, e.pool, t.ask, e.ask)
    else
      var t := Apply(h.reserved, n.cpus, n.mem, n.disk, 0, n.principal, n.role, n.uuid, CONTAINER_PATH, 0);
      var p := Apply(h.unreserved, 0.0, 0.0, 0.0, n.ports, "", "", "", "", pick);
      var e := Apply(p.pool, CPUS_PER_EXECUTOR, MEM_PER_EXECUTOR, 0.0, 0, "", "", "", "", 0);
      Asks(t.pool, e.pool, t.ask + p.ask, e.ask)
  }

  /** PortIterator: the ports of a task's resources, in the order the channel yields them. */
  function PortIterator(resources: seq<Resource>): seq<nat> {
    if resources == [] then []
    else
      var r := resources[|resources| - 1];
      PortIterator(resources[..|resources| - 1]) + if r.name == "ports" then Expand(r.ranges) else []
  }

  /** Receiving from the closed channel yields 0. */
  function Receive(ports: seq<nat>, i: nat): nat {
    if i < |ports| then ports[i] else 0
  }

  function LaunchData(n: Node, hostname: string, task: seq<Resource>): TaskData {
    var ports := PortIterator(task);
    TaskData(n.Id() + "@" + hostname + (if '.' in hostname then "" else "."), hostname,
             Receive(ports, 0), Receive(ports, 1), Receive(ports, 2))
  }

  /** The record ApplyReservedOffer leaves behind: a new generation, starting, with no status yet. */
  function Launched(n: Node, offer: Offer, task: seq<Resource>): Node {
    n.(slaveId := offer.slaveId, hostname := offer.hostname, generation := n.generation + 1, status := None,
       current := Starting, data := Some(LaunchData(n, offer.hostname, task)))
  }

  /** The executor id is taken after the generation has been incremented. */
  function ExecutorOf(n: Node): Executor {
    Executor(n.framework, n.cluster, n.uuid, n.generation)
  }

  function ReservedOffer(n: Node, h: Helper, compatibilityMode: bool, pick: nat): Option<(Node, Helper)> {
    if !FitsReserved(n, h, compatibilityMode) then None
    else
      var a := LaunchAsks(n, h, compatibilityMode, pick);
      var launched := Launched(n, h.offer, a.task);
      var task := Task(n.Id(), h.offer.slaveId, ExecutorOf(launched), a.task, a.executor,
                       LaunchData(n, h.offer.hostname, a.task));
      Some((launched, h.(reserved := a.reserved, unreserved := a.unreserved, tasks := h.tasks + [task])))
  }

  // ---------- status updates ----------

  /** After an update the node is off the running states exactly when the update is terminal, or when it is one the
      scheduler does not know and the node was off them before; only a running update makes it started. */
  lemma UpdateEndsOrRuns(n: Node, state: TaskState)
    ensures var m := n.After(state);
            && (m.current !in {Starting, Started} <==>
                  state.Terminal() || (state == TaskOther && n.current !in {Starting, Started}))
            && (m.current == Started <==> state == TaskRunning || (state == TaskOther && n.current == Started))
            && m.generation == n.generation && m.uuid == n.uuid && m.restartGeneration == n.restartGeneration
  {
  }

  /** Which updates leave a node that counts as restarted: a running one, whichever launch it is about. */
  lemma RunningIsRestarted(n: Node, state: TaskState, generation: int)
    ensures n.After(state).HasRestarted(generation) <==>
            n.restartGeneration >= generation
            && (state == TaskRunning || (state == TaskOther && n.destination == Started && n.current == Started))
  {
  }
}
