/** What each message comes to, for the connection it is about and for those who wait on it. */
module KernelOutcomes {
  import opened Lists
  import opened Options
  import opened KernelTable
  import opened KernelRuns

  /** Nothing changes but the entry of this node. */
  ghost predicate OnlyEntry(k: Kernel, l: Kernel, node: string) {
    && l == k.(table := l.table)
    && forall n :: n != node ==> (n in l.table <==> n in k.table) && (n in k.table ==> l.table[n] == k.table[n])
  }

  /** Every caller that waited is told the answer, the one that called first before the others. */
  predicate Tells(out: seq<Out>, node: string, waiting: seq<Caller>, answer: bool) {
    && |out| == |waiting|
    && forall i :: 0 <= i < |out| ==> out[i] == Answer(node, waiting[|waiting| - 1 - i], answer)
  }

  lemma {:induction false} ReverseAt(s: seq<Caller>, i: nat)
    requires i < |s|
    ensures |Reverse(s)| == |s| && Reverse(s)[i] == s[|s| - 1 - i]
  {
    if |s| > 1 {
      ReverseAt(s[1..], if i < |s| - 1 then i else 0);
    }
  }

  lemma RepliesTell(node: string, waiting: seq<Caller>, answer: bool)
    ensures Tells(ReplyWaiting(node, waiting, answer), node, waiting, answer)
  {
    assert |Reverse(waiting)| == |waiting| by {
      ReverseMembers(waiting);
      assert |multiset(Reverse(waiting))| == |Reverse(waiting)| && |multiset(waiting)| == |waiting|;
    }
    forall i | 0 <= i < |waiting|
      ensures ReplyWaiting(node, waiting, answer)[i] == Answer(node, waiting[|waiting| - 1 - i], answer)
    {
      ReverseAt(waiting, i);
    }
  }

  // ---------- nodeup ----------

  /** The process that sets the connection up reports that it is done. */
  predicate Completes(k: Kernel, pid: Pid, node: string, immediate: bool) {
    && immediate && node in k.table && k.table[node].Conn?
    && k.table[node].state == Pending && k.table[node].owner == pid
  }

  /** A nodeup brings the connection up exactly if it comes, immediate, from the owner of a pending one: the owner stays, the
      type is the one sent, the owner is told first and then everyone who waited. Any other is refused and changes
      nothing. */
  lemma NodeUpOutcome(k: Kernel, pid: Pid, node: string, kind: NodeType, immediate: bool)
    ensures var d := NodeUp(k, pid, node, kind, immediate);
            && OnlyEntry(k, d.kernel, node)
            && (Inserted(pid) in d.out <==> Completes(k, pid, node, immediate))
            && if Completes(k, pid, node, immediate) then
                 && node in d.kernel.table
                 && d.kernel.table[node] == Conn(Up, pid, k.table[node].pendingOwner, [], kind)
                 && |d.out| > 0 && d.out[0] == Inserted(pid)
                 && Tells(d.out[1..], node, k.table[node].waiting, true)
               else d == Done(k, [BadRequest(pid)])
  {
    hide ReplyWaiting;
    if Completes(k, pid, node, immediate) {
      RepliesTell(node, k.table[node].waiting, true);
      assert ([Inserted(pid)] + ReplyWaiting(node, k.table[node].waiting, true))[1..]
          == ReplyWaiting(node, k.table[node].waiting, true);
    }
  }

  // ---------- connect ----------

  predicate IsUp(k: Kernel, node: string) {
    node in k.table && k.table[node].Conn? && k.table[node].state == Up
  }

  /** A caller is told true at once exactly if the node is this one or its connection is up, and false at once exactly if there
      is no connection and no process could be started; otherwise it waits behind those that wait already, on the
      connection there is or on a new one owned by the process that was started. */
  lemma ConnectOutcome(k: Kernel, node: string, caller: Caller, setup: Option<Pid>)
    ensures var d := Connect(k, node, caller, setup);
            var known := node in k.table && k.table[node].Conn?;
            && (d.out == [Answer(node, caller, true)] <==> node == k.me || IsUp(k, node))
            && (d.out == [Answer(node, caller, false)] <==> node != k.me && !known && setup == None)
            && (d.out != [] ==> d.kernel == k && |d.out| == 1 && d.out[0].Answer? && d.out[0] == Answer(node, caller, d.out[0].answer))
            && (d.out == [] ==>
                  && node in d.kernel.table && d.kernel.table[node].Conn? && d.kernel.table[node].state != Up
                  && Waiting(d.kernel, node) == [caller] + Waiting(k, node)
                  && OnlyEntry(k.(connOwners := d.kernel.connOwners), d.kernel, node)
                  && if known then
                       && d.kernel.connOwners == k.connOwners
                       && d.kernel.table[node] == k.table[node].(waiting := [caller] + k.table[node].waiting)
                     else
                       && Some(d.kernel.table[node].owner) == setup
                       && d.kernel.table[node] == Conn(Pending, d.kernel.table[node].owner, None, [caller], Normal)
                       && d.kernel.connOwners == [Owner(d.kernel.table[node].owner, node)] + k.connOwners)
  {
  }

  /** So a caller of an unknown node is answered true once the process started for it reports, with all who called after. */
  lemma ConnectThenUp(k: Kernel, node: string, first: Caller, second: Caller, pid: Pid, late: Option<Pid>, kind: NodeType)
    requires node != k.me && !(node in k.table && k.table[node].Conn?)
    ensures var d := Connect(k, node, first, Some(pid));
            var e := Connect(d.kernel, node, second, late);
            var u := NodeUp(e.kernel, pid, node, kind, true);
            && d.out == [] && e.out == []
            && u.out == [Inserted(pid), Answer(node, first, true), Answer(node, second, true)]
            && IsUp(u.kernel, node) && u.kernel.table[node].owner == pid
            && Connect(u.kernel, node, second, late) == Done(u.kernel, [Answer(node, second, true)])
  {
    hide Connect, NodeUp;
    ConnectOutcome(k, node, first, Some(pid));
    var d := Connect(k, node, first, Some(pid));
    ConnectOutcome(d.kernel, node, second, late);
    var e := Connect(d.kernel, node, second, late);
    assert Waiting(e.kernel, node) == [second, first];
    NodeUpOutcome(e.kernel, pid, node, kind, true);
    var u := NodeUp(e.kernel, pid, node, kind, true);
    assert u.out[1..][0] == u.out[1] && u.out[1..][1] == u.out[2];
    ConnectOutcome(u.kernel, node, second, late);
  }

  // ---------- accept_pending ----------

  /** An offered handshake is granted on an unknown node, and on a pending connection if the other name is greater, whose old
      owner is told to go; it is put behind an established connection, of which it becomes the pending owner; and it is
      refused else. Whoever waits waits on. */
  lemma AcceptPendingOutcome(k: Kernel, pid: Pid, node: string, kind: NodeType, above: bool)
    ensures var d := AcceptPending(k, pid, node, kind, above);
            var known := node in k.table && k.table[node].Conn?;
            && |d.out| > 0 && d.out[|d.out| - 1].AcceptPendingReply? && d.out[|d.out| - 1].pid == pid
            && var verdict := d.out[|d.out| - 1].verdict;
               && (verdict == Ok <==> !known)
               && (verdict == NokPending <==> known && k.table[node].state == Pending && above)
               && (verdict == OkPending <==> known && k.table[node].state == Pending && !above)
               && (verdict == UpPendingVerdict <==> known && k.table[node].state == Up)
               && (verdict == AlreadyPending <==> known && k.table[node].state == UpPending)
               && (verdict == NokPending || verdict == AlreadyPending ==>
                     d == Done(k, [AcceptPendingReply(pid, verdict)]))
               && (verdict == Ok ==>
                     && d.out == [AcceptPendingReply(pid, Ok)]
                     && node in d.kernel.table && d.kernel.table[node] == Conn(Pending, pid, None, [], kind)
                     && OnlyEntry(k.(connOwners := [Owner(pid, node)] + k.connOwners), d.kernel, node))
               && (verdict == OkPending ==>
                     && d.out == [Remarked(k.table[node].owner), AcceptPendingReply(pid, OkPending)]
                     && node in d.kernel.table && d.kernel.table[node] == k.table[node].(owner := pid)
                     && d.kernel.pendOwners == k.pendOwners
                     && OnlyEntry(k.(connOwners := d.kernel.connOwners), d.kernel, node))
               && (verdict == UpPendingVerdict ==>
                     && d.out == [AcceptPendingReply(pid, UpPendingVerdict)]
                     && node in d.kernel.table
                     && d.kernel.table[node] == k.table[node].(state := UpPending, pendingOwner := Some(pid))
                     && OnlyEntry(k.(pendOwners := [Owner(pid, node)] + k.pendOwners), d.kernel, node))
  {
    hide KeyReplace;
  }

  // ---------- exits ----------

  lemma PendingOwnerIsFound(k: Kernel, known: set<Pid>, node: string)
    requires TableOk(k, known) && node in k.table && k.table[node].Conn? && k.table[node].state == UpPending
    requires k.table[node].pendingOwner.Some?
    ensures var pid := k.table[node].pendingOwner.value;
            && !IsListen(k.listeners, pid) && FindAccept(k.listeners, pid) == None && pid != k.ticker
            && KeySearch(k.connOwners, pid) == None && KeySearch(k.pendOwners, pid) == Some(Owner(pid, node))
  {
    var o := Owner(k.table[node].pendingOwner.value, node);
    assert Pends(k, o);
    assert o in k.pendOwners;
  }

  /** The exit of a pending owner gives the connection back to its owner, and everyone who waited is told true. */
  lemma PendingOwnerExitOutcome(k: Kernel, known: set<Pid>, node: string, newPid: Pid)
    requires TableOk(k, known) && node in k.table && k.table[node].Conn? && k.table[node].state == UpPending
    ensures k.table[node].pendingOwner.Some?
    ensures var c := k.table[node];
            var d := Exit(k, c.pendingOwner.value, newPid);
            && node in d.kernel.table && d.kernel.table[node] == Conn(Up, c.owner, None, [], c.kind)
            && d.kernel.connOwners == k.connOwners
            && Tells(d.out, node, c.waiting, true)
            && (forall n :: n != node ==>
                  (n in d.kernel.table <==> n in k.table) && (n in k.table ==> d.kernel.table[n] == k.table[n]))
  {
    hide KeyDelete, ReplyWaiting, Tells;
    var c := k.table[node];
    assert Pends(k, Owner(c.pendingOwner.value, node));
    RepliesTell(node, c.waiting, true);
    PendingOwnerIsFound(k, known, node);
  }

  lemma TickerOwnsNothing(k: Kernel, known: set<Pid>)
    requires TableOk(k, known)
    ensures KeySearch(k.connOwners, k.ticker) == None && KeySearch(k.pendOwners, k.ticker) == None
  {
  }

  /** The three services: without its listener the kernel stops; a process that accepts and the ticker are replaced. */
  lemma ServiceExitOutcome(k: Kernel, known: set<Pid>, pid: Pid, newPid: Pid)
    requires TableOk(k, known)
    ensures var l := Exit(k, pid, newPid);
            && (IsListen(k.listeners, pid) ==> l == Done(k.(stopped := true), []))
            && (!IsListen(k.listeners, pid) && (exists i :: 0 <= i < |k.listeners| && k.listeners[i].accept == pid) ==>
                  exists i :: && 0 <= i < |k.listeners| && k.listeners[i].accept == pid
                              && l == Done(k.(listeners := k.listeners[i := k.listeners[i].(accept := newPid)]), []))
            && (pid == k.ticker && !IsListen(k.listeners, pid)
                && (forall i :: 0 <= i < |k.listeners| ==> k.listeners[i].accept != pid) ==>
                  l == Done(k.(ticker := newPid), []))
  {
    hide KeyDelete, NodeDown, PendingOwnerExit;
    var i := FindAccept(k.listeners, pid);
    if i == None && !IsListen(k.listeners, pid) && pid == k.ticker {
      TickerOwnsNothing(k, known);
    }
  }

  // ---------- disconnect ----------

  /** A disconnect is answered true exactly for a connection that is up or up_pending. It takes an up one down, barred exactly
      with dist_auto_connect once, and makes an up_pending one pending again under its pending owner; else it changes
      nothing. */
  lemma DisconnectOutcome(k: Kernel, known: set<Pid>, node: string, newPid: Pid)
    requires TableOk(k, known)
    ensures var (d, answer) := Disconnect(k, node, newPid);
            && (answer <==> node != k.me && node in k.table && k.table[node].Conn? && k.table[node].state != Pending)
            && (!answer ==> d == Done(k, []))
            && (answer && k.table[node].state == Up ==>
                  d.out == [] && !IsConn(d.kernel, node) && (node in d.kernel.table <==> k.once))
            && (answer && k.table[node].state == UpPending ==>
                  && IsConn(d.kernel, node) && d.kernel.table[node].state == Pending
                  && Some(d.kernel.table[node].owner) == k.table[node].pendingOwner
                  && d.kernel.table[node].waiting == k.table[node].waiting)
  {
    hide TableOk, Exit;
    if IsConn(k, node) {
      OwnerExitOutcome(k, known, node, newPid);
    }
  }
}
