/** The net_kernel process of `erlang_dist/src/net_kernel.erl`: the sys_dist table changed in place and the owner lists of
    its state. `View` is its value; each handler is proved to change it, and to send, as the function in KernelTable says. */
module NetKernels {
  import opened Options
  import opened KernelTable
  import opened KernelRuns

  class NetKernel {
    const me: string
    const once: bool
    var sysDist: map<string, Entry>
    var connOwners: seq<Owner>
    var pendOwners: seq<Owner>
    var listeners: seq<Listener>
    var ticker: Pid
    var stopped: bool

    ghost function View(): Kernel
      reads this
    {
      Kernel(me, once, sysDist, connOwners, pendOwners, listeners, ticker, stopped)
    }

    constructor (me: string, once: bool, listeners: seq<Listener>, ticker: Pid)
      ensures View() == Kernel(me, once, map[], [], [], listeners, ticker, false)
    {
      this.me, this.once, this.listeners, this.ticker := me, once, listeners, ticker;
      sysDist, connOwners, pendOwners, stopped := map[], [], [], false;
    }

    /** handle_call connect; `setup` is the pid of the setup process, if it could be started. */
    method HandleConnect(node: string, caller: Caller, setup: Option<Pid>) returns (out: seq<Out>)
      modifies `sysDist, `connOwners
      ensures Done(View(), out) == Connect(old(View()), node, caller, setup)
    {
      if node == me {
        return [Answer(node, caller, true)];
      }
      if node in sysDist && sysDist[node].Conn? {
        var conn := sysDist[node];
        if conn.state == Up {
          return [Answer(node, caller, true)];
        }
        sysDist := sysDist[node := conn.(waiting := [caller] + conn.waiting)];
        return [];
      }
      if setup == None {
        return [Answer(node, caller, false)];
      }
      sysDist := sysDist[node := Conn(Pending, setup.value, None, [caller], Normal)];
      connOwners := [Owner(setup.value, node)] + connOwners;
      return [];
    }

    /** handle_info nodeup. */
    method HandleNodeUp(pid: Pid, node: string, kind: NodeType, immediate: bool) returns (out: seq<Out>)
      modifies `sysDist
      ensures Done(View(), out) == NodeUp(old(View()), pid, node, kind, immediate)
    {
      if immediate && node in sysDist && sysDist[node].Conn? {
        var conn := sysDist[node];
        if conn.state == Pending && conn.owner == pid {
          sysDist := sysDist[node := conn.(state := Up, waiting := [], kind := kind)];
          return [Inserted(pid)] + ReplyWaiting(node, conn.waiting, true);
        }
      }
      return [BadRequest(pid)];
    }

    /** handle_info accept_pending. */
    method HandleAcceptPending(pid: Pid, node: string, kind: NodeType, above: bool) returns (out: seq<Out>)
      modifies `sysDist, `connOwners, `pendOwners
      ensures Done(View(), out) == AcceptPending(old(View()), pid, node, kind, above)
    {
      hide KeyReplace;
      if node !in sysDist || sysDist[node].Barred? {
        sysDist := sysDist[node := Conn(Pending, pid, None, [], kind)];
        connOwners := [Owner(pid, node)] + connOwners;
        return [AcceptPendingReply(pid, Ok)];
      }
      var conn := sysDist[node];
      match conn.state
      case Pending =>
        if above {
          return [AcceptPendingReply(pid, NokPending)];
        }
        connOwners := KeyReplace(connOwners, conn.owner, Owner(pid, node));
        sysDist := sysDist[node := conn.(owner := pid)];
        return [Remarked(conn.owner), AcceptPendingReply(pid, OkPending)];
      case Up =>
        sysDist := sysDist[node := conn.(pendingOwner := Some(pid), state := UpPending)];
        pendOwners := [Owner(pid, node)] + pendOwners;
        return [AcceptPendingReply(pid, UpPendingVerdict)];
      case UpPending =>
        return [AcceptPendingReply(pid, AlreadyPending)];
    }

    method HandleNodeDown(pid: Pid, node: string) returns (out: seq<Out>)
      requires node in sysDist && sysDist[node].Conn? && sysDist[node].owner == pid
      requires sysDist[node].state == UpPending ==> sysDist[node].pendingOwner.Some?
      modifies `sysDist, `connOwners, `pendOwners
      ensures Done(View(), out) == NodeDown(old(View()), pid, node)
    {
      hide KeyDelete;
      var conn := sysDist[node];
      connOwners := KeyDelete(connOwners, pid);
      match conn.state
      case Pending =>
        sysDist := sysDist - {node};
        return ReplyWaiting(node, conn.waiting, false);
      case Up =>
        if once {
          sysDist := sysDist[node := Barred];
        } else {
          sysDist := sysDist - {node};
        }
        return [];
      case UpPending =>
        var next := conn.pendingOwner.value;
        pendOwners := KeyDelete(pendOwners, next);
        sysDist := sysDist[node := conn.(owner := next, pendingOwner := None, state := Pending)];
        connOwners := [Owner(next, node)] + connOwners;
        return [NowPending(next)];
    }

    method HandlePendingOwnerExit(pid: Pid, node: string) returns (out: seq<Out>)
      modifies `sysDist, `pendOwners
      ensures Done(View(), out) == PendingOwnerExit(old(View()), pid, node)
    {
      hide KeyDelete;
      pendOwners := KeyDelete(pendOwners, pid);
      if node in sysDist && sysDist[node].Conn? && sysDist[node].state == UpPending {
        var conn := sysDist[node];
        sysDist := sysDist[node := conn.(state := Up, waiting := [], pendingOwner := None)];
        return ReplyWaiting(node, conn.waiting, true);
      }
      return [];
    }

    /** handle_exit; no connection is lost or kept by mistake because the table and the lists agree. */
    method HandleExit(pid: Pid, newPid: Pid, ghost known: set<Pid>) returns (out: seq<Out>)
      requires TableOk(View(), known)
      modifies this
      ensures Done(View(), out) == Exit(old(View()), pid, newPid)
    {
      hide TableOk, KeyDelete;
      NodeDownIsForTheOwner(View(), known, pid);
      if IsListen(listeners, pid) {
        stopped := true;
        return [];
      }
      var i := FindAccept(listeners, pid);
      if i.Some? {
        listeners := listeners[i.value := listeners[i.value].(accept := newPid)];
        return [];
      }
      var owner := KeySearch(connOwners, pid);
      if owner.Some? {
        out := HandleNodeDown(pid, owner.value.node);
        return;
      }
      var pending := KeySearch(pendOwners, pid);
      if pending.Some? {
        out := HandlePendingOwnerExit(pid, pending.value.node);
        return;
      }
      if ticker == pid {
        ticker := newPid;
      }
      return [];
    }

    /** handle_call disconnect: the owner is told to exit and its exit is handled before the reply. */
    method HandleDisconnect(node: string, newPid: Pid, ghost known: set<Pid>) returns (out: seq<Out>, answer: bool)
      requires TableOk(View(), known)
      modifies this
      ensures (Done(View(), out), answer) == Disconnect(old(View()), node, newPid)
    {
      hide TableOk, Exit;
      if node != me && node in sysDist && sysDist[node].Conn? && sysDist[node].state != Pending {
        out := HandleExit(sysDist[node].owner, newPid, known);
        return out, true;
      }
      return [], false;
    }
  }
}
