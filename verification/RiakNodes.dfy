/** The node object of `scheduler/node.go`: a record updated in place. `Rec` is its value; each method is proved
    to change it as the function of the same name in Nodes does. */
module RiakNodes {
  import opened Options
  import opened PortRanges
  import opened Offers
  import opened Nodes
  import opened OfferHelpers

  /** The channel of PortIterator, as the list of what it yields. */
  method IteratePorts(resources: seq<Resource>) returns (ports: seq<nat>)
    ensures ports == PortIterator(resources)
  {
    hide Expand;
    ports := [];
    for i := 0 to |resources|
      invariant ports == PortIterator(resources[..i])
    {
      assert resources[..i + 1][..i] == resources[..i];
      if resources[i].name == "ports" {
        var more := RangesToArray(resources[i].ranges);
        ports := ports + more;
      }
    }
    assert resources[..|resources|] == resources;
  }

  lemma SameId(n: Node, m: Node)
    requires m.framework == n.framework && m.cluster == n.cluster && m.simpleId == n.simpleId
    ensures m.Id() == n.Id()
  {
  }

  /** At most five seconds ago. */
  predicate Lately(asked: Option<real>, now: real) {
    asked.Some? && now - asked.value <= 5.0
  }

  class RiakNode {
    var reconciled: bool
    const simpleId: nat
    var destination: ProcessState
    var current: ProcessState
    var status: Option<TaskStatus>
    var generation: nat
    var slaveId: string
    var hostname: string
    var data: Option<TaskData>
    const framework: string
    const cluster: string
    const role: string
    const principal: string
    const cpus: real
    const mem: real
    const disk: real
    const ports: int
    const uuid: string
    var restartGeneration: int
    /** lastAskedToReconcile, in seconds; like `reconciled` it is not serialised, and it is not part of the record. */
    var lastAsked: Option<real>

    function Rec(): Node
      reads this
    {
      Node(reconciled, simpleId, destination, current, status, generation, slaveId, hostname, data,
           framework, cluster, role, principal, cpus, mem, disk, ports, uuid, restartGeneration)
    }

    constructor (framework: string, cluster: string, role: string, principal: string,
                 cpus: real, mem: real, disk: real, restartGeneration: int, simpleId: nat, uuid: string)
      ensures Rec() == NewNode(framework, cluster, role, principal, cpus, mem, disk, restartGeneration, simpleId, uuid)
    {
      this.framework, this.cluster, this.role, this.principal := framework, cluster, role, principal;
      this.cpus, this.mem, this.disk, this.ports := cpus, mem, disk, PORTS_PER_TASK;
      this.restartGeneration, this.simpleId, this.uuid := restartGeneration, simpleId, uuid;
      destination, current, generation, reconciled := Started, Unknown, 0, false;
      status, slaveId, hostname, data, lastAsked := None, "", "", None, None;
    }

    // ---------- reconciliation ----------

    predicate AskedLately(now: real)
      reads this
    {
      Lately(lastAsked, now)
    }

    method Ask(now: real)
      modifies `lastAsked
      ensures Rec() == old(Rec()) && lastAsked == Some(now)
    {
      lastAsked := Some(now);
    }

    // ---------- setters ----------

    method Restart(clusterGeneration: int)
      modifies `restartGeneration, `destination
      ensures Rec() == old(Rec()).Restart(clusterGeneration)
    {
      restartGeneration := clusterGeneration;
      destination := Restarting;
    }

    method Unreserve()
      modifies `current, `slaveId
      ensures Rec() == old(Rec()).Unreserve()
    {
      current := Unknown;
      slaveId := "";
    }

    method KillNext()
      modifies `destination
      ensures Rec() == old(Rec()).KillNext()
    {
      destination := Shutdown;
    }

    method Start()
      modifies `current, `destination
      ensures Rec() == old(Rec()).(current := Starting, destination := Started)
    {
      current := Starting;
      destination := Started;
    }

    method Run()
      modifies `current, `destination
      ensures Rec() == old(Rec()).(current := Started, destination := Started)
    {
      current := Started;
      destination := Started;
    }

    method Finish()
      modifies `current
      ensures Rec() == old(Rec()).(current := Shutdown)
    {
      current := Shutdown;
    }

    method Error()
      modifies `current
      ensures Rec() == old(Rec()).(current := Failed)
    {
      current := Failed;
    }

    /** The switch of HandleNodeStatusUpdate. */
    method Update(newStatus: TaskStatus)
      modifies `reconciled, `status, `slaveId, `current, `destination
      ensures Rec() == old(Rec()).(reconciled := true, status := Some(newStatus), slaveId := newStatus.slaveId)
                         .After(newStatus.state)
    {
      reconciled := true;
      status := Some(newStatus);
      slaveId := newStatus.slaveId;
      match newStatus.state
      case TaskStaging => Start();
      case TaskStarting => Start();
      case TaskRunning => Run();
      case TaskFinished => Finish();
      case TaskKilled => Finish();
      case TaskFailed => Error();
      case TaskLost => Error();
      case TaskError => Error();
      case TaskOther =>
    }

    // ---------- offers ----------

    method ApplyUnreservedOffer(h: OfferHelper, pick: nat) returns (applied: bool)
      requires h.Valid()
      modifies this, h`toReserve, h`toCreate, h`held, h.unreserved
      ensures match UnreservedOffer(old(Rec()), old(h.View()), pick)
              case Some((n, g)) => applied && Rec() == n && h.View() == g
              case None => !applied && Rec() == old(Rec()) && h.View() == old(h.View())
    {
      hide Offers.Apply;
      var fits := h.unreserved.View().CanFit(cpus + CPUS_PER_EXECUTOR, mem + MEM_PER_EXECUTOR, disk, ports);
      if !fits {
        return false;
      }
      var ask := h.ApplyUnreserved(CPUS_PER_EXECUTOR, MEM_PER_EXECUTOR, 0.0, ports, pick);
      h.held := h.held + ask;
      h.MakeReservation(cpus, mem, disk, 0, principal, role, 0);
      h.MakeVolume(disk, principal, role, uuid, CONTAINER_PATH);
      slaveId := h.offer.slaveId;
      hostname := h.offer.hostname;
      current := Reserved;
      return true;
    }

    /** What the task and its executor ask for; nothing changes when they do not fit. */
    method AskFor(h: OfferHelper, compatibilityMode: bool, pick: nat)
      returns (applied: bool, task: seq<Resource>, executor: seq<Resource>)
      requires h.Valid()
      modifies h.reserved, h.unreserved
      ensures applied == FitsReserved(Rec(), old(h.View()), compatibilityMode)
      ensures !applied ==> h.View() == old(h.View())
      ensures applied ==> var a := LaunchAsks(Rec(), old(h.View()), compatibilityMode, pick);
                && task == a.task && executor == a.executor
                && h.View() == old(h.View()).(reserved := a.reserved, unreserved := a.unreserved)
    {
      hide Offers.Apply;
      task, executor := [], [];
      if compatibilityMode {
        if !h.unreserved.View().CanFit(cpus + CPUS_PER_EXECUTOR, mem + MEM_PER_EXECUTOR, disk, ports) {
          return false, [], [];
        }
        task := h.ApplyUnreserved(cpus, mem, disk, ports, pick);
        executor := h.ApplyUnreserved(CPUS_PER_EXECUTOR, MEM_PER_EXECUTOR, 0.0, 0, 0);
      } else {
        if !h.reserved.View().CanFit(cpus, mem, disk, 0)
           || !h.unreserved.View().CanFit(CPUS_PER_EXECUTOR, MEM_PER_EXECUTOR, 0.0, ports) {
          return false, [], [];
        }
        task := h.ApplyReserved(cpus, mem, disk, 0, principal, role, uuid, CONTAINER_PATH, 0);
        var windows := h.ApplyUnreserved(0.0, 0.0, 0.0, ports, pick);
        task := task + windows;
        executor := h.ApplyUnreserved(CPUS_PER_EXECUTOR, MEM_PER_EXECUTOR, 0.0, 0, 0);
      }
      applied := true;
    }

    /** A new generation, starting, with no status yet and the three ports of its task. */
    method MarkLaunched(offer: Offer, task: seq<Resource>)
      modifies `slaveId, `hostname, `generation, `status, `current, `data
      ensures Rec() == Launched(old(Rec()), offer, task)
    {
      hide PortIterator;
      slaveId := offer.slaveId;
      hostname := offer.hostname;
      generation := generation + 1;
      status := None;
      current := Starting;
      var ports := IteratePorts(task);
      var name := Rec().Id() + "@" + hostname;
      if '.' !in hostname {
        name := name + ".";
      }
      assert name == Rec().Id() + "@" + hostname + (if '.' in hostname then "" else ".");
      data := Some(TaskData(name, hostname, Receive(ports, 0), Receive(ports, 1), Receive(ports, 2)));
    }

    method ApplyReservedOffer(h: OfferHelper, compatibilityMode: bool, pick: nat) returns (applied: bool)
      requires h.Valid()
      modifies this, h`tasks, h.reserved, h.unreserved
      ensures match ReservedOffer(old(Rec()), old(h.View()), compatibilityMode, pick)
              case Some((n, g)) => applied && Rec() == n && h.View() == g
              case None => !applied && Rec() == old(Rec()) && h.View() == old(h.View())
    {
      hide Offers.Apply, LaunchAsks, FitsReserved, LaunchData, Node.Id;
      var task, executor;
      applied, task, executor := AskFor(h, compatibilityMode, pick);
      if !applied {
        return;
      }
      MarkLaunched(h.offer, task);
      var info := Task(Rec().Id(), slaveId, ExecutorOf(Rec()), task, executor, data.value);
      SameId(old(Rec()), Rec());
      h.tasks := h.tasks + [info];
    }
  }
}
