/** The connection table of `erlang_dist/src/net_kernel.erl` as a value, and what each message makes of it. */
module KernelTable {
  import opened Lists
  import opened Options

  type Pid = nat
  type Caller = nat

  // ---------- lists of {Pid, Node} ----------

  datatype Owner = Owner(pid: Pid, node: string)

  /** lists:keysearch(Pid, 1, Owners). */
  function KeySearch(owners: seq<Owner>, pid: Pid): (r: Option<Owner>)
    ensures r.Some? ==> r.value in owners && r.value.pid == pid
    ensures r == None ==> forall x :: x in owners ==> x.pid != pid
  {
    if owners == [] then None
    else if owners[0].pid == pid then Some(owners[0])
    else KeySearch(owners[1..], pid)
  }

  /** lists:keydelete(Pid, 1, Owners): the first such tuple only. */
  function KeyDelete(owners: seq<Owner>, pid: Pid): seq<Owner> {
    if owners == [] then []
    else if owners[0].pid == pid then owners[1..]
    else [owners[0]] + KeyDelete(owners[1..], pid)
  }

  /** lists:keyreplace(Pid, 1, Owners, New): the first such tuple only. */
  function KeyReplace(owners: seq<Owner>, pid: Pid, entry: Owner): seq<Owner> {
    if owners == [] then []
    else if owners[0].pid == pid then [entry] + owners[1..]
    else [owners[0]] + KeyReplace(owners[1..], pid, entry)
  }

  predicate DistinctPids(owners: seq<Owner>) {
    forall i, j :: 0 <= i < j < |owners| ==> owners[i].pid != owners[j].pid
  }

  // ---------- the table ----------

  datatype ConnState = Pending | Up | UpPending

  datatype NodeType = Normal | Hidden

  /** `waiting` has the newest caller first; `pendingOwner` is None where the source has undefined. */
  datatype Entry =
    | Conn(state: ConnState, owner: Pid, pendingOwner: Option<Pid>, waiting: seq<Caller>, kind: NodeType)
    | Barred

  datatype Listener = Listener(listen: Pid, accept: Pid)

  /** `once` is the dist_auto_connect setting that bars a node that went down. */
  datatype Kernel = Kernel(
    me: string, once: bool,
    table: map<string, Entry>, connOwners: seq<Owner>, pendOwners: seq<Owner>,
    listeners: seq<Listener>, ticker: Pid, stopped: bool)

  datatype Verdict = Ok | OkPending | NokPending | UpPendingVerdict | AlreadyPending

  /** What a step sends: answers to connect callers, and messages and exit signals to owners. */
  datatype Out =
    | Answer(node: string, caller: Caller, answer: bool)
    | Inserted(pid: Pid)
    | BadRequest(pid: Pid)
    | AcceptPendingReply(pid: Pid, verdict: Verdict)
    | NowPending(pid: Pid)
    | Remarked(pid: Pid)

  datatype Done = Done(kernel: Kernel, out: seq<Out>)

  predicate IsConn(k: Kernel, node: string) {
    node in k.table && k.table[node].Conn?
  }

  function Waiting(k: Kernel, node: string): seq<Caller> {
    if IsConn(k, node) then k.table[node].waiting else []
  }

  function Answers(node: string, callers: seq<Caller>, answer: bool): seq<Out> {
    seq(|callers|, i requires 0 <= i < |callers| => Answer(node, callers[i], answer))
  }

  /** reply_waiting: the oldest caller first. */
  function ReplyWaiting(node: string, waiting: seq<Caller>, answer: bool): seq<Out> {
    Answers(node, Reverse(waiting), answer)
  }

  // ---------- connect ----------

  /** `setup` is the pid of the process that was started, if one could be. */
  function Connect(k: Kernel, node: string, caller: Caller, setup: Option<Pid>): Done {
    if node == k.me then Done(k, [Answer(node, caller, true)])
    else if IsConn(k, node) && k.table[node].state == Up then Done(k, [Answer(node, caller, true)])
    else if IsConn(k, node) then
      var c := k.table[node];
      Done(k.(table := k.table[node := c.(waiting := [caller] + c.waiting)]), [])
    else if setup.Some? then
      Done(k.(table := k.table[node := Conn(Pending, setup.value, None, [caller], Normal)],
              connOwners := [Owner(setup.value, node)] + k.connOwners), [])
    else Done(k, [Answer(node, caller, false)])
  }

  // ---------- nodeup ----------

  function NodeUp(k: Kernel, pid: Pid, node: string, kind: NodeType, immediate: bool): Done {
    if immediate && IsConn(k, node) && k.table[node].state == Pending && k.table[node].owner == pid then
      var c := k.table[node];
      Done(k.(table := k.table[node := c.(state := Up, waiting := [], kind := kind)]),
           [Inserted(pid)] + ReplyWaiting(node, c.waiting, true))
    else Done(k, [BadRequest(pid)])
  }

  // ---------- accept_pending ----------

  /** `above` is MyNode > Node in Erlang's order of atoms. */
  function AcceptPending(k: Kernel, pid: Pid, node: string, kind: NodeType, above: bool): Done {
    if IsConn(k, node) then
      var c := k.table[node];
      match c.state
      case Pending =>
        if above then Done(k, [AcceptPendingReply(pid, NokPending)])
        else
          Done(k.(table := k.table[node := c.(owner := pid)],
                  connOwners := KeyReplace(k.connOwners, c.owner, Owner(pid, node))),
               [Remarked(c.owner), AcceptPendingReply(pid, OkPending)])
      case Up =>
        Done(k.(table := k.table[node := c.(state := UpPending, pendingOwner := Some(pid))],
                pendOwners := [Owner(pid, node)] + k.pendOwners),
             [AcceptPendingReply(pid, UpPendingVerdict)])
      case UpPending => Done(k, [AcceptPendingReply(pid, AlreadyPending)])
    else
      Done(k.(table := k.table[node := Conn(Pending, pid, None, [], kind)],
              connOwners := [Owner(pid, node)] + k.connOwners),
           [AcceptPendingReply(pid, Ok)])
  }

  // ---------- exits ----------

  function MarkDown(k: Kernel, node: string): Kernel {
    k.(table := if k.once then k.table[node := Barred] else k.table - {node})
  }

  /** nodedown/4 and nodedown/6, with the branch that gives the old state back; an up_pending connection without
      a pending owner, which no run makes, is treated as that branch. */
  function NodeDown(k: Kernel, pid: Pid, node: string): Done {
    if !IsConn(k, node) || k.table[node].owner != pid then Done(k, [])
    else
      var c := k.table[node];
      var k1 := k.(connOwners := KeyDelete(k.connOwners, pid));
      match c.state
      case Pending => Done(k1.(table := k1.table - {node}), ReplyWaiting(node, c.waiting, false))
      case Up => Done(MarkDown(k1, node), [])
      case UpPending =>
        if c.pendingOwner == None then Done(k, [])
        else
          var next := c.pendingOwner.value;
          Done(k1.(table := k1.table[node := c.(owner := next, pendingOwner := None, state := Pending)],
                   connOwners := [Owner(next, node)] + k1.connOwners,
                   pendOwners := KeyDelete(k1.pendOwners, next)),
               [NowPending(next)])
  }

  function PendingOwnerExit(k: Kernel, pid: Pid, node: string): Done {
    var k1 := k.(pendOwners := KeyDelete(k.pendOwners, pid));
    if IsConn(k, node) && k.table[node].state == UpPending then
      var c := k.table[node];
      Done(k1.(table := k.table[node := c.(state := Up, waiting := [], pendingOwner := None)]),
           ReplyWaiting(node, c.waiting, true))
    else Done(k1, [])
  }

  function FindAccept(listeners: seq<Listener>, pid: Pid): (r: Option<nat>)
    ensures r.Some? ==> r.value < |listeners| && listeners[r.value].accept == pid
    ensures r == None ==> forall i :: 0 <= i < |listeners| ==> listeners[i].accept != pid
  {
    if listeners == [] then None
    else if listeners[0].accept == pid then Some(0)
    else
      match FindAccept(listeners[1..], pid)
      case None => None
      case Some(i) => Some(i + 1)
  }

  predicate IsListen(listeners: seq<Listener>, pid: Pid) {
    exists i :: 0 <= i < |listeners| && listeners[i].listen == pid
  }

  /** do_handle_exit: the first of the five roles that knows the pid handles it; `newPid` is the pid of a
      process started in its place. */
  function Exit(k: Kernel, pid: Pid, newPid: Pid): Done {
    if IsListen(k.listeners, pid) then Done(k.(stopped := true), [])
    else
      match FindAccept(k.listeners, pid)
      case Some(i) => Done(k.(listeners := k.listeners[i := k.listeners[i].(accept := newPid)]), [])
      case None =>
        match KeySearch(k.connOwners, pid)
        case Some(o) => NodeDown(k, pid, o.node)
        case None =>
          match KeySearch(k.pendOwners, pid)
          case Some(o) => PendingOwnerExit(k, pid, o.node)
          case None => if k.ticker == pid then Done(k.(ticker := newPid), []) else Done(k, [])
  }

  // ---------- disconnect ----------

  /** do_disconnect: the owner is told to exit, and its exit is handled at once. */
  function Disconnect(k: Kernel, node: string, newPid: Pid): (Done, bool) {
    if node == k.me then (Done(k, []), false)
    else if IsConn(k, node) && k.table[node].state != Pending then (Exit(k, k.table[node].owner, newPid), true)
    else (Done(k, []), false)
  }

  // ---------- lists ----------

  lemma DistinctCons(x: Owner, owners: seq<Owner>)
    requires DistinctPids(owners) && forall y :: y in owners ==> y.pid != x.pid
    ensures DistinctPids([x] + owners)
  {
  }

  lemma {:induction false} KeyDeleteMembers(owners: seq<Owner>, pid: Pid)
    requires DistinctPids(owners)
    ensures DistinctPids(KeyDelete(owners, pid))
    ensures forall x :: x in KeyDelete(owners, pid) <==> x in owners && x.pid != pid
  {
    if owners != [] {
      assert owners == [owners[0]] + owners[1..];
      if owners[0].pid != pid {
        KeyDeleteMembers(owners[1..], pid);
        DistinctCons(owners[0], KeyDelete(owners[1..], pid));
      }
    }
  }

  lemma {:induction false} KeyReplaceMembers(owners: seq<Owner>, pid: Pid, entry: Owner)
    requires DistinctPids(owners) && forall x :: x in owners ==> x.pid != entry.pid
    ensures DistinctPids(KeyReplace(owners, pid, entry))
    ensures forall x :: x in KeyReplace(owners, pid, entry) <==>
              (x in owners && x.pid != pid) || (x == entry && exists y :: y in owners && y.pid == pid)
  {
    if owners != [] {
      assert owners == [owners[0]] + owners[1..];
      if owners[0].pid == pid {
        assert owners[0] in owners;
        DistinctCons(entry, owners[1..]);
      } else {
        KeyReplaceMembers(owners[1..], pid, entry);
        DistinctCons(owners[0], KeyReplace(owners[1..], pid, entry));
        assert forall y :: y in owners && y.pid == pid ==> y in owners[1..];
        assert forall y :: y in owners[1..] && y.pid == pid ==> y in owners;
      }
    }
  }
}
