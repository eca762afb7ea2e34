/** Runs of the distribution kernel: any messages, exits and calls, in any order. Pids of started processes are new. */
module KernelRuns {
  import opened Lists
  import opened Options
  import opened KernelTable

  datatype Event = Asked(node: string, caller: Caller) | Answered(node: string, caller: Caller, answer: bool)

  /** `known` holds every pid there has been; `log` the connect calls and their answers. */
  datatype Sys = Sys(kernel: Kernel, log: seq<Event>, known: set<Pid>)

  datatype Step =
    | ConnectStep(node: string, caller: Caller, setup: Option<Pid>)
    | DisconnectStep(node: string, newPid: Pid)
    | NodeUpStep(pid: Pid, node: string, kind: NodeType, immediate: bool)
    | AcceptPendingStep(pid: Pid, node: string, kind: NodeType, above: bool)
    | ExitStep(pid: Pid, newPid: Pid)

  /** The pid a step brings into being, if any. */
  function NewPids(step: Step): set<Pid> {
    match step
    case ConnectStep(_, _, setup) => if setup.Some? then {setup.value} else {}
    case DisconnectStep(_, newPid) => {newPid}
    case NodeUpStep(_, _, _, _) => {}
    case AcceptPendingStep(pid, _, _, _) => {pid}
    case ExitStep(_, newPid) => {newPid}
  }

  predicate Enabled(s: Sys, step: Step) {
    !s.kernel.stopped && NewPids(step) !! s.known
  }

  function Perform(k: Kernel, step: Step): Done {
    match step
    case ConnectStep(node, caller, setup) => Connect(k, node, caller, setup)
    case DisconnectStep(node, newPid) => Disconnect(k, node, newPid).0
    case NodeUpStep(pid, node, kind, immediate) => NodeUp(k, pid, node, kind, immediate)
    case AcceptPendingStep(pid, node, kind, above) => AcceptPending(k, pid, node, kind, above)
    case ExitStep(pid, newPid) => Exit(k, pid, newPid)
  }

  function Question(step: Step): seq<Event> {
    if step.ConnectStep? then [Asked(step.node, step.caller)] else []
  }

  function Said(out: seq<Out>): seq<Event> {
    if out == [] then []
    else
      Said(out[..|out| - 1]) +
      match out[|out| - 1]
      case Answer(node, caller, answer) => [Answered(node, caller, answer)]
      case _ => []
  }

  function Do(s: Sys, step: Step): Sys {
    var d := Perform(s.kernel, step);
    Sys(d.kernel, s.log + Question(step) + Said(d.out), s.known + NewPids(step))
  }

  predicate IsRun(s: Sys, steps: seq<Step>)
    decreases |steps|
  {
    steps != [] ==> Enabled(s, steps[0]) && IsRun(Do(s, steps[0]), steps[1..])
  }

  function Exec(s: Sys, steps: seq<Step>): Sys
    requires IsRun(s, steps)
    decreases |steps|
  {
    if steps == [] then s else Exec(Do(s, steps[0]), steps[1..])
  }

  // ---------- the table and the owner lists ----------

  predicate Owns(k: Kernel, x: Owner) {
    IsConn(k, x.node) && k.table[x.node].owner == x.pid
  }

  predicate Pends(k: Kernel, x: Owner) {
    IsConn(k, x.node) && k.table[x.node].state == UpPending && k.table[x.node].pendingOwner == Some(x.pid)
  }

  ghost predicate OwnersMatch(k: Kernel) {
    && DistinctPids(k.connOwners)
    && DistinctPids(k.pendOwners)
    && (forall x :: x in k.connOwners <==> Owns(k, x))
    && (forall x :: x in k.pendOwners <==> Pends(k, x))
    && (forall x, y :: x in k.connOwners && y in k.pendOwners ==> x.pid != y.pid)
  }

  predicate EntriesOk(k: Kernel) {
    forall n :: n in k.table && k.table[n].Conn? ==>
      && (k.table[n].state == Up ==> k.table[n].waiting == [])
      && (k.table[n].state == UpPending <==> k.table[n].pendingOwner.Some?)
      && (n == k.me ==> k.table[n].waiting == [])
  }

  predicate IsService(k: Kernel, pid: Pid) {
    pid == k.ticker || exists i :: 0 <= i < |k.listeners| && (k.listeners[i].listen == pid || k.listeners[i].accept == pid)
  }

  ghost predicate Holds(k: Kernel, pid: Pid) {
    exists x :: (x in k.connOwners || x in k.pendOwners) && x.pid == pid
  }

  ghost predicate PidsOk(k: Kernel, known: set<Pid>) {
    && (forall x :: x in k.connOwners || x in k.pendOwners ==> x.pid in known && !IsService(k, x.pid))
    && (forall p :: IsService(k, p) ==> p in known)
  }

  ghost predicate TableOk(k: Kernel, known: set<Pid>) {
    OwnersMatch(k) && EntriesOk(k) && PidsOk(k, known)
  }

  /** The pids of owners change only by the new one; services stay. */
  lemma AddedOwner(k: Kernel, known: set<Pid>, node: string, pid: Pid, c: Entry)
    requires TableOk(k, known) && pid !in known && !IsConn(k, node)
    requires c.Conn? && c.state == Pending && c.owner == pid && c.pendingOwner == None
    requires node == k.me ==> c.waiting == []
    ensures TableOk(k.(table := k.table[node := c], connOwners := [Owner(pid, node)] + k.connOwners), known + {pid})
  {
    var l := k.(table := k.table[node := c], connOwners := [Owner(pid, node)] + k.connOwners);
    DistinctCons(Owner(pid, node), k.connOwners);
    forall x ensures x in l.connOwners <==> Owns(l, x) {
      assert x in l.connOwners <==> x == Owner(pid, node) || x in k.connOwners;
      assert x.node != node ==> (Owns(l, x) <==> Owns(k, x));
    }
    forall x ensures x in l.pendOwners <==> Pends(l, x) {
      assert x.node != node ==> (Pends(l, x) <==> Pends(k, x));
    }
    assert forall p :: IsService(l, p) <==> IsService(k, p);
  }

  lemma ConnectKeeps(k: Kernel, known: set<Pid>, node: string, caller: Caller, setup: Option<Pid>)
    requires TableOk(k, known) && (setup.Some? ==> setup.value !in known)
    ensures TableOk(Connect(k, node, caller, setup).kernel, known + if setup.Some? then {setup.value} else {})
  {
    var l := Connect(k, node, caller, setup).kernel;
    if node != k.me && IsConn(k, node) && k.table[node].state != Up {
      assert forall x :: (Owns(l, x) <==> Owns(k, x)) && (Pends(l, x) <==> Pends(k, x));
      assert forall p :: IsService(l, p) <==> IsService(k, p);
    } else if node != k.me && !IsConn(k, node) && setup.Some? {
      AddedOwner(k, known, node, setup.value, Conn(Pending, setup.value, None, [caller], Normal));
    }
  }

  lemma NodeUpKeeps(k: Kernel, known: set<Pid>, pid: Pid, node: string, kind: NodeType, immediate: bool)
    requires TableOk(k, known)
    ensures TableOk(NodeUp(k, pid, node, kind, immediate).kernel, known)
  {
    var l := NodeUp(k, pid, node, kind, immediate).kernel;
    assert forall x :: (Owns(l, x) <==> Owns(k, x)) && (Pends(l, x) <==> Pends(k, x));
    assert forall p :: IsService(l, p) <==> IsService(k, p);
  }

  lemma SamePidSame(owners: seq<Owner>, x: Owner, y: Owner)
    requires DistinctPids(owners)
    ensures x in owners && y in owners && x.pid == y.pid ==> x == y
  {
  }

  /** A pid owns one connection only. */
  lemma OnePidOneNode(k: Kernel, x: Owner, y: Owner)
    requires OwnersMatch(k)
    ensures Owns(k, x) && Owns(k, y) && x.pid == y.pid ==> x == y
    ensures Pends(k, x) && Pends(k, y) && x.pid == y.pid ==> x == y
  {
    SamePidSame(k.connOwners, x, y);
    SamePidSame(k.pendOwners, x, y);
  }

  /** A pending connection changes hands. */
  lemma RemarkKeeps(k: Kernel, known: set<Pid>, pid: Pid, node: string, kind: NodeType)
    requires TableOk(k, known) && pid !in known && IsConn(k, node) && k.table[node].state == Pending
    ensures TableOk(AcceptPending(k, pid, node, kind, false).kernel, known + {pid})
  {
    hide KeyReplace;
    var l := AcceptPending(k, pid, node, kind, false).kernel;
    assert forall p :: IsService(l, p) <==> IsService(k, p);
    var c := k.table[node];
    KeyReplaceMembers(k.connOwners, c.owner, Owner(pid, node));
    assert Owns(k, Owner(c.owner, node));
    forall x ensures x in l.connOwners <==> Owns(l, x) {
      assert x.node != node ==> (Owns(l, x) <==> Owns(k, x));
      OnePidOneNode(k, x, Owner(c.owner, node));
    }
    assert forall x :: Pends(l, x) <==> Pends(k, x);
  }

  /** A second connection waits beside one that is up. */
  lemma UpPendingKeeps(k: Kernel, known: set<Pid>, pid: Pid, node: string, kind: NodeType, above: bool)
    requires TableOk(k, known) && pid !in known && IsConn(k, node) && k.table[node].state == Up
    ensures TableOk(AcceptPending(k, pid, node, kind, above).kernel, known + {pid})
  {
    hide KeyReplace;
    var l := AcceptPending(k, pid, node, kind, above).kernel;
    assert forall p :: IsService(l, p) <==> IsService(k, p);
    DistinctCons(Owner(pid, node), k.pendOwners);
    assert forall x :: Owns(l, x) <==> Owns(k, x);
    forall x ensures x in l.pendOwners <==> Pends(l, x) {
      assert x in l.pendOwners <==> x == Owner(pid, node) || x in k.pendOwners;
      assert x.node != node ==> (Pends(l, x) <==> Pends(k, x));
    }
  }

  lemma KnownGrows(k: Kernel, known: set<Pid>, more: set<Pid>)
    requires TableOk(k, known)
    ensures TableOk(k, known + more)
  {
  }

  lemma AcceptPendingKeeps(k: Kernel, known: set<Pid>, pid: Pid, node: string, kind: NodeType, above: bool)
    requires TableOk(k, known) && pid !in known
    ensures TableOk(AcceptPending(k, pid, node, kind, above).kernel, known + {pid})
  {
    hide TableOk, KeyReplace;
    KnownGrows(k, known, {pid});
    if !IsConn(k, node) {
      AddedOwner(k, known, node, pid, Conn(Pending, pid, None, [], kind));
    } else if k.table[node].state == Pending && !above {
      RemarkKeeps(k, known, pid, node, kind);
    } else if k.table[node].state == Up {
      UpPendingKeeps(k, known, pid, node, kind, above);
    }
  }

  // ---------- exits ----------

  /** The branch of nodedown that gives the old state back is never taken: the pid found in conn_owners is the
      owner of that node's connection. */
  lemma NodeDownIsForTheOwner(k: Kernel, known: set<Pid>, pid: Pid)
    requires TableOk(k, known)
    ensures var o := KeySearch(k.connOwners, pid);
            o.Some? ==>
              && IsConn(k, o.value.node) && k.table[o.value.node].owner == pid
              && (k.table[o.value.node].state == UpPending ==> k.table[o.value.node].pendingOwner.Some?)
              && NodeDown(k, pid, o.value.node).kernel != k
  {
    var o := KeySearch(k.connOwners, pid);
    if o.Some? {
      assert Owns(k, o.value);
      KeyDeleteMembers(k.connOwners, pid);
    }
  }

  lemma DownKeeps(k: Kernel, known: set<Pid>, pid: Pid, node: string, l: Kernel)
    requires TableOk(k, known) && Owns(k, Owner(pid, node)) && k.table[node].state != UpPending
    requires l == k.(table := l.table, connOwners := KeyDelete(k.connOwners, pid))
    requires !IsConn(l, node) && forall n :: n != node ==> (n in l.table <==> n in k.table)
    requires forall n :: n != node && n in l.table ==> l.table[n] == k.table[n]
    ensures TableOk(l, known)
  {
    KeyDeleteMembers(k.connOwners, pid);
    forall x ensures x in l.connOwners <==> Owns(l, x) {
      assert x.node != node ==> (Owns(l, x) <==> Owns(k, x));
      OnePidOneNode(k, x, Owner(pid, node));
    }
    forall x ensures x in l.pendOwners <==> Pends(l, x) {
      assert x.node != node ==> (Pends(l, x) <==> Pends(k, x));
    }
    assert forall p :: IsService(l, p) <==> IsService(k, p);
  }

  lemma TakeoverKeeps(k: Kernel, known: set<Pid>, pid: Pid, node: string)
    requires TableOk(k, known) && Owns(k, Owner(pid, node)) && k.table[node].state == UpPending
    ensures TableOk(NodeDown(k, pid, node).kernel, known)
  {
    var l := NodeDown(k, pid, node).kernel;
    var c := k.table[node];
    var next := c.pendingOwner.value;
    var left := KeyDelete(k.connOwners, pid);
    KeyDeleteMembers(k.connOwners, pid);
    KeyDeleteMembers(k.pendOwners, next);
    assert Pends(k, Owner(next, node));
    DistinctCons(Owner(next, node), left);
    forall x ensures x in l.connOwners <==> Owns(l, x) {
      assert x in l.connOwners <==> x == Owner(next, node) || x in left;
      assert x.node != node ==> (Owns(l, x) <==> Owns(k, x));
      OnePidOneNode(k, x, Owner(pid, node));
    }
    forall x ensures x in l.pendOwners <==> Pends(l, x) {
      assert x.node != node ==> (Pends(l, x) <==> Pends(k, x));
      OnePidOneNode(k, x, Owner(next, node));
    }
    assert forall p :: IsService(l, p) <==> IsService(k, p);
  }

  lemma PendingOwnerExitKeeps(k: Kernel, known: set<Pid>, pid: Pid, node: string)
    requires TableOk(k, known) && Owner(pid, node) in k.pendOwners
    ensures TableOk(PendingOwnerExit(k, pid, node).kernel, known)
  {
    var l := PendingOwnerExit(k, pid, node).kernel;
    assert Pends(k, Owner(pid, node));
    KeyDeleteMembers(k.pendOwners, pid);
    assert forall x :: Owns(l, x) <==> Owns(k, x);
    forall x ensures x in l.pendOwners <==> Pends(l, x) {
      assert x.node != node ==> (Pends(l, x) <==> Pends(k, x));
      OnePidOneNode(k, x, Owner(pid, node));
    }
    assert forall p :: IsService(l, p) <==> IsService(k, p);
  }

  lemma ServiceRestartKeeps(k: Kernel, l: Kernel, known: set<Pid>, newPid: Pid)
    requires TableOk(k, known) && newPid !in known
    requires l == k.(listeners := l.listeners, ticker := l.ticker, stopped := l.stopped)
    requires forall p :: IsService(l, p) ==> IsService(k, p) || p == newPid
    ensures TableOk(l, known + {newPid})
  {
    assert forall x :: (Owns(l, x) <==> Owns(k, x)) && (Pends(l, x) <==> Pends(k, x));
  }

  lemma ExitKeeps(k: Kernel, known: set<Pid>, pid: Pid, newPid: Pid)
    requires TableOk(k, known) && newPid !in known
    ensures TableOk(Exit(k, pid, newPid).kernel, known + {newPid})
  {
    hide TableOk, KeyDelete;
    var l := Exit(k, pid, newPid).kernel;
    if IsListen(k.listeners, pid) {
      ServiceRestartKeeps(k, l, known, newPid);
    } else if FindAccept(k.listeners, pid).Some? {
      ServiceRestartKeeps(k, l, known, newPid);
    } else if KeySearch(k.connOwners, pid).Some? {
      var node := KeySearch(k.connOwners, pid).value.node;
      NodeDownIsForTheOwner(k, known, pid);
      if k.table[node].state == UpPending {
        TakeoverKeeps(k, known, pid, node);
      } else {
        DownKeeps(k, known, pid, node, l);
      }
      KnownGrows(l, known, {newPid});
    } else if KeySearch(k.pendOwners, pid).Some? {
      PendingOwnerExitKeeps(k, known, pid, KeySearch(k.pendOwners, pid).value.node);
      KnownGrows(l, known, {newPid});
    } else {
      ServiceRestartKeeps(k, l, known, newPid);
    }
  }

  /** Every step keeps the table and the owner lists in agreement. */
  lemma StepKeepsTable(s: Sys, step: Step)
    requires TableOk(s.kernel, s.known) && Enabled(s, step)
    ensures TableOk(Do(s, step).kernel, Do(s, step).known)
  {
    hide TableOk, Exit;
    match step
    case ConnectStep(node, caller, setup) => ConnectKeeps(s.kernel, s.known, node, caller, setup);
    case DisconnectStep(node, newPid) =>
      KnownGrows(s.kernel, s.known, {newPid});
      if IsConn(s.kernel, node) {
        ExitKeeps(s.kernel, s.known, s.kernel.table[node].owner, newPid);
      }
    case NodeUpStep(pid, node, kind, immediate) =>
      NodeUpKeeps(s.kernel, s.known, pid, node, kind, immediate);
      assert s.known + {} == s.known;
    case AcceptPendingStep(pid, node, kind, above) => AcceptPendingKeeps(s.kernel, s.known, pid, node, kind, above);
    case ExitStep(pid, newPid) => ExitKeeps(s.kernel, s.known, pid, newPid);
  }

  /** So each connection has exactly one pair in conn_owners, and each up_pending one exactly one in pend_owners. */
  lemma OwnersAreABijection(k: Kernel, known: set<Pid>, node: string)
    requires TableOk(k, known)
    ensures IsConn(k, node) <==> exists i :: 0 <= i < |k.connOwners| && k.connOwners[i].node == node
    ensures (IsConn(k, node) && k.table[node].state == UpPending) <==>
            exists i :: 0 <= i < |k.pendOwners| && k.pendOwners[i].node == node
    ensures forall i, j :: 0 <= i < j < |k.connOwners| ==>
              k.connOwners[i].node != k.connOwners[j].node && k.connOwners[i].pid != k.connOwners[j].pid
    ensures forall i, j :: 0 <= i < j < |k.pendOwners| ==>
              k.pendOwners[i].node != k.pendOwners[j].node && k.pendOwners[i].pid != k.pendOwners[j].pid
  {
    if IsConn(k, node) {
      assert Owns(k, Owner(k.table[node].owner, node));
      if k.table[node].state == UpPending {
        assert Pends(k, Owner(k.table[node].pendingOwner.value, node));
      }
    }
    assert forall i :: 0 <= i < |k.connOwners| ==> Owns(k, k.connOwners[i]);
    assert forall i :: 0 <= i < |k.pendOwners| ==> Pends(k, k.pendOwners[i]);
  }

  // ---------- callers ----------

  function AskedFor(log: seq<Event>, node: string): seq<Caller> {
    if log == [] then []
    else
      AskedFor(log[..|log| - 1], node) +
      match log[|log| - 1]
      case Asked(n, caller) => if n == node then [caller] else []
      case Answered(_, _, _) => []
  }

  function AnsweredFor(log: seq<Event>, node: string): seq<Caller> {
    if log == [] then []
    else
      AnsweredFor(log[..|log| - 1], node) +
      match log[|log| - 1]
      case Asked(_, _) => []
      case Answered(n, caller, _) => if n == node then [caller] else []
  }

  lemma {:induction false} AskedAppend(a: seq<Event>, b: seq<Event>, node: string)
    ensures AskedFor(a + b, node) == AskedFor(a, node) + AskedFor(b, node)
  {
    if b == [] {
      assert a + b == a;
    } else {
      AskedAppend(a, b[..|b| - 1], node);
      assert (a + b)[..|a + b| - 1] == a + b[..|b| - 1];
    }
  }

  lemma {:induction false} AnsweredAppend(a: seq<Event>, b: seq<Event>, node: string)
    ensures AnsweredFor(a + b, node) == AnsweredFor(a, node) + AnsweredFor(b, node)
  {
    if b == [] {
      assert a + b == a;
    } else {
      AnsweredAppend(a, b[..|b| - 1], node);
      assert (a + b)[..|a + b| - 1] == a + b[..|b| - 1];
    }
  }

  lemma CallersAppend(a: seq<Event>, b: seq<Event>, node: string)
    ensures AskedFor(a + b, node) == AskedFor(a, node) + AskedFor(b, node)
    ensures AnsweredFor(a + b, node) == AnsweredFor(a, node) + AnsweredFor(b, node)
  {
    AskedAppend(a, b, node);
    AnsweredAppend(a, b, node);
  }

  lemma {:induction false} SaidAppend(a: seq<Out>, b: seq<Out>)
    ensures Said(a + b) == Said(a) + Said(b)
  {
    if b == [] {
      assert a + b == a;
    } else {
      var n := |b| - 1;
      SaidAppend(a, b[..n]);
      assert (a + b)[..|a + b| - 1] == a + b[..n];
    }
  }

  lemma {:induction false} SaidAsksNothing(out: seq<Out>, node: string)
    ensures AskedFor(Said(out), node) == []
  {
    if out != [] {
      var n := |out| - 1;
      SaidAsksNothing(out[..n], node);
      var last := Said(out)[|Said(out[..n])|..];
      assert Said(out) == Said(out[..n]) + last;
      CallersAppend(Said(out[..n]), last, node);
      assert |last| <= 1 && (last != [] ==> last[..0] == []);
    }
  }

  lemma NoAnswers(node: string, answer: bool)
    ensures Answers(node, [], answer) == []
  {
  }

  lemma AnswersSnoc(node: string, callers: seq<Caller>, answer: bool)
    requires callers != []
    ensures var n := |callers| - 1;
            Answers(node, callers, answer) == Answers(node, callers[..n], answer) + [Answer(node, callers[n], answer)]
  {
  }

  lemma OneSaid(o: Out, node: string)
    ensures AnsweredFor(Said([o]), node) == if o.Answer? && o.node == node then [o.caller] else []
  {
    assert [o][..0] == [];
    if o.Answer? {
      assert [Answered(o.node, o.caller, o.answer)][..0] == [];
    }
  }

  lemma NoneSaid(node: string)
    ensures Said([]) == [] && AnsweredFor([], node) == [] == AskedFor([], node)
  {
  }

  /** Answering a list of callers of one node. */
  lemma {:induction false} AnswersSaid(node: string, callers: seq<Caller>, answer: bool, other: string)
    ensures AnsweredFor(Said(Answers(node, callers, answer)), other) == if other == node then callers else []
  {
    hide Answers, Said, AnsweredFor;
    if callers == [] {
      NoAnswers(node, answer);
      NoneSaid(other);
    } else {
      var n := |callers| - 1;
      var last := Answer(node, callers[n], answer);
      AnswersSaid(node, callers[..n], answer, other);
      AnswersSnoc(node, callers, answer);
      SaidAppend(Answers(node, callers[..n], answer), [last]);
      CallersAppend(Said(Answers(node, callers[..n], answer)), Said([last]), other);
      OneSaid(last, other);
      assert callers == callers[..n] + [callers[n]];
    }
  }

  /** What one step adds to one node's callers: those who waited and the one who asks are answered or wait on. */
  ghost predicate Conserves(k: Kernel, d: Done, question: seq<Event>, node: string) {
    Reverse(Waiting(k, node)) + AskedFor(question, node) ==
    AnsweredFor(Said(d.out), node) + Reverse(Waiting(d.kernel, node))
  }

  lemma SameWaiting(k: Kernel, d: Done, node: string)
    requires Waiting(d.kernel, node) == Waiting(k, node) && AnsweredFor(Said(d.out), node) == []
    ensures Conserves(k, d, [], node)
  {
  }

  lemma ReverseShort(caller: Caller, waiting: seq<Caller>)
    ensures Reverse<Caller>([]) == [] && Reverse([caller]) == [caller]
    ensures Reverse([caller] + waiting) == Reverse(waiting) + [caller]
  {
    assert ([caller] + waiting)[1..] == waiting;
    assert [caller][1..] == [];
  }

  lemma QuestionAsks(node: string, caller: Caller, other: string)
    ensures AskedFor([Asked(node, caller)], other) == if other == node then [caller] else []
  {
    assert [Asked(node, caller)][..0] == [];
  }

  lemma ConnectConserves(k: Kernel, known: set<Pid>, node: string, caller: Caller, setup: Option<Pid>, other: string)
    requires TableOk(k, known)
    ensures Conserves(k, Connect(k, node, caller, setup), [Asked(node, caller)], other)
  {
    hide OwnersMatch, PidsOk, Said, AnsweredFor, AskedFor, Reverse;
    var d := Connect(k, node, caller, setup);
    QuestionAsks(node, caller, other);
    ReverseShort(caller, Waiting(k, node));
    OneSaid(Answer(node, caller, true), other);
    OneSaid(Answer(node, caller, false), other);
    NoneSaid(other);
    assert d.out != [] ==> Waiting(k, node) == [] && d.kernel == k;
  }

  lemma NodeUpConserves(k: Kernel, pid: Pid, node: string, kind: NodeType, immediate: bool, other: string)
    ensures Conserves(k, NodeUp(k, pid, node, kind, immediate), [], other)
  {
    hide Said, AnsweredFor, AskedFor, Reverse, Answers;
    var d := NodeUp(k, pid, node, kind, immediate);
    NoneSaid(other);
    OneSaid(Inserted(pid), other);
    OneSaid(BadRequest(pid), other);
    if d.kernel != k || d.out != [BadRequest(pid)] {
      var w := k.table[node].waiting;
      var answers := ReplyWaiting(node, w, true);
      SaidAppend([Inserted(pid)], answers);
      CallersAppend(Said([Inserted(pid)]), Said(answers), other);
      AnswersSaid(node, Reverse(w), true, other);
      ReverseShort(0, []);
    }
  }

  lemma {:induction false} NothingSaid(out: seq<Out>)
    requires forall i :: 0 <= i < |out| ==> !out[i].Answer?
    ensures Said(out) == []
  {
    if out != [] {
      NothingSaid(out[..|out| - 1]);
    }
  }

  lemma AcceptPendingConserves(k: Kernel, pid: Pid, node: string, kind: NodeType, above: bool, other: string)
    ensures Conserves(k, AcceptPending(k, pid, node, kind, above), [], other)
  {
    hide Said, AnsweredFor, AskedFor, Reverse, KeyReplace;
    var d := AcceptPending(k, pid, node, kind, above);
    NoneSaid(other);
    ReverseShort(0, []);
    assert forall i :: 0 <= i < |d.out| ==> !d.out[i].Answer?;
    NothingSaid(d.out);
    assert Waiting(d.kernel, other) == Waiting(k, other);
  }

  lemma NodeDownConserves(k: Kernel, pid: Pid, node: string, other: string)
    requires EntriesOk(k)
    ensures Conserves(k, NodeDown(k, pid, node), [], other)
  {
    hide Said, AnsweredFor, AskedFor, Reverse, Answers, KeyDelete;
    var d := NodeDown(k, pid, node);
    NoneSaid(other);
    ReverseShort(0, []);
    if IsConn(k, node) && k.table[node].owner == pid && k.table[node].state == Pending {
      AnswersSaid(node, Reverse(k.table[node].waiting), false, other);
    } else {
      NothingSaid(d.out);
      assert Waiting(d.kernel, other) == Waiting(k, other);
    }
  }

  lemma PendingOwnerExitConserves(k: Kernel, pid: Pid, node: string, other: string)
    ensures Conserves(k, PendingOwnerExit(k, pid, node), [], other)
  {
    hide Said, AnsweredFor, AskedFor, Reverse, Answers, KeyDelete;
    NoneSaid(other);
    ReverseShort(0, []);
    if IsConn(k, node) && k.table[node].state == UpPending {
      AnswersSaid(node, Reverse(k.table[node].waiting), true, other);
    }
  }

  lemma ExitConserves(k: Kernel, pid: Pid, newPid: Pid, other: string)
    requires EntriesOk(k)
    ensures Conserves(k, Exit(k, pid, newPid), [], other)
  {
    hide NodeDown, PendingOwnerExit, Conserves;
    var d := Exit(k, pid, newPid);
    if !IsListen(k.listeners, pid) && FindAccept(k.listeners, pid) == None {
      if KeySearch(k.connOwners, pid).Some? {
        NodeDownConserves(k, pid, KeySearch(k.connOwners, pid).value.node, other);
        return;
      }
      if KeySearch(k.pendOwners, pid).Some? {
        PendingOwnerExitConserves(k, pid, KeySearch(k.pendOwners, pid).value.node, other);
        return;
      }
    }
    SameWaiting(k, d, other);
  }

  lemma StepConserves(s: Sys, step: Step, node: string)
    requires TableOk(s.kernel, s.known)
    ensures Conserves(s.kernel, Perform(s.kernel, step), Question(step), node)
  {
    hide OwnersMatch, PidsOk, EntriesOk, Conserves, Exit, Connect, NodeUp, AcceptPending;
    match step
    case ConnectStep(n, caller, setup) => ConnectConserves(s.kernel, s.known, n, caller, setup, node);
    case DisconnectStep(n, newPid) =>
      SameWaiting(s.kernel, Done(s.kernel, []), node);
      if IsConn(s.kernel, n) {
        ExitConserves(s.kernel, s.kernel.table[n].owner, newPid, node);
      }
    case NodeUpStep(pid, n, kind, immediate) => NodeUpConserves(s.kernel, pid, n, kind, immediate, node);
    case AcceptPendingStep(pid, n, kind, above) => AcceptPendingConserves(s.kernel, pid, n, kind, above, node);
    case ExitStep(pid, newPid) => ExitConserves(s.kernel, pid, newPid, node);
  }

  /** Every caller of a node was answered, or waits, in the order of the calls. */
  ghost predicate CallersOk(s: Sys) {
    forall node :: AskedFor(s.log, node) == AnsweredFor(s.log, node) + Reverse(Waiting(s.kernel, node))
  }

  lemma Joined(asked: seq<Caller>, answered: seq<Caller>, waiting: seq<Caller>, asks: seq<Caller>,
               answers: seq<Caller>, stillWaiting: seq<Caller>)
    requires asked == answered + waiting && waiting + asks == answers + stillWaiting
    ensures asked + asks + [] == answered + [] + answers + stillWaiting
  {
    assert asked + asks == answered + (waiting + asks);
  }

  lemma StepLog(s: Sys, step: Step)
    ensures Do(s, step).log == s.log + Question(step) + Said(Perform(s.kernel, step).out)
    ensures Do(s, step).kernel == Perform(s.kernel, step).kernel
  {
  }

  lemma QuestionAnswersNothing(step: Step, node: string)
    ensures AnsweredFor(Question(step), node) == []
  {
    if step.ConnectStep? {
      assert [Asked(step.node, step.caller)][..0] == [];
    }
  }

  lemma StepKeepsCallers(s: Sys, step: Step)
    requires CallersOk(s) && TableOk(s.kernel, s.known)
    ensures CallersOk(Do(s, step))
  {
    hide TableOk, Perform, Waiting, Reverse;
    var d := Perform(s.kernel, step);
    forall node
      ensures AskedFor(Do(s, step).log, node) ==
              AnsweredFor(Do(s, step).log, node) + Reverse(Waiting(d.kernel, node))
    {
      StepConserves(s, step, node);
      StepLog(s, step);
      CallersAppend(s.log + Question(step), Said(d.out), node);
      CallersAppend(s.log, Question(step), node);
      SaidAsksNothing(d.out, node);
      QuestionAnswersNothing(step, node);
      Joined(AskedFor(s.log, node), AnsweredFor(s.log, node), Reverse(Waiting(s.kernel, node)), AskedFor(Question(step), node),
             AnsweredFor(Said(d.out), node), Reverse(Waiting(d.kernel, node)));
    }
  }

  // ---------- runs ----------

  ghost predicate Inv(s: Sys) {
    TableOk(s.kernel, s.known) && CallersOk(s)
  }

  /** A kernel with no connection, whose listeners and ticker are known. */
  ghost predicate Initial(s: Sys) {
    && s.kernel.table == map[] && s.kernel.connOwners == [] && s.kernel.pendOwners == []
    && s.log == [] && (forall p :: IsService(s.kernel, p) ==> p in s.known)
  }

  lemma {:induction false} RunKeeps(s: Sys, steps: seq<Step>)
    requires Inv(s) && IsRun(s, steps)
    ensures Inv(Exec(s, steps))
    decreases |steps|
  {
    hide TableOk, CallersOk, Do;
    if steps != [] {
      StepKeepsTable(s, steps[0]);
      StepKeepsCallers(s, steps[0]);
      RunKeeps(Do(s, steps[0]), steps[1..]);
    }
  }

  /** In every run: the table and the owner lists agree, and for every node the callers so far are those answered
      followed by those waiting, in the order they called; nobody waits on a connection that is up. */
  lemma CallersAreConserved(s: Sys, steps: seq<Step>, node: string)
    requires Initial(s) && IsRun(s, steps)
    ensures var t := Exec(s, steps);
            && TableOk(t.kernel, t.known)
            && AskedFor(t.log, node) == AnsweredFor(t.log, node) + Reverse(Waiting(t.kernel, node))
            && (IsConn(t.kernel, node) && t.kernel.table[node].state == Up ==> Waiting(t.kernel, node) == [])
  {
    hide Exec;
    RunKeeps(s, steps);
  }

  /** So a caller that asked once was answered exactly once or waits in exactly one queue, never both. */
  lemma EachCallerOnce(s: Sys, steps: seq<Step>, node: string, caller: Caller)
    requires Initial(s) && IsRun(s, steps)
    requires multiset(AskedFor(Exec(s, steps).log, node))[caller] == 1
    ensures var t := Exec(s, steps);
            multiset(AnsweredFor(t.log, node))[caller] + multiset(Waiting(t.kernel, node))[caller] == 1
  {
    hide Exec;
    CallersAreConserved(s, steps, node);
    ReverseMembers(Waiting(Exec(s, steps).kernel, node));
  }

  /** `true` for another node is answered only by a step that leaves that node's connection up. */
  lemma TrueMeansUp(s: Sys, step: Step, i: nat)
    requires TableOk(s.kernel, s.known)
    requires var out := Perform(s.kernel, step).out;
             i < |out| && out[i].Answer? && out[i].answer && out[i].node != s.kernel.me
    ensures var d := Perform(s.kernel, step);
            IsConn(d.kernel, d.out[i].node) && d.kernel.table[d.out[i].node].state == Up
  {
    hide OwnersMatch, PidsOk, KeyDelete, Reverse;
  }

  // ---------- replaced owners ----------

  /** The owners after a step were owners before, or are new. */
  ghost predicate OnlyKnownOwners(k: Kernel, l: Kernel, newPids: set<Pid>) {
    forall x :: x in l.connOwners || x in l.pendOwners ==> Holds(k, x.pid) || x.pid in newPids
  }

  lemma {:induction false} KeyDeleteIsWithin(owners: seq<Owner>, pid: Pid)
    ensures forall x :: x in KeyDelete(owners, pid) ==> x in owners
  {
    if owners != [] && owners[0].pid != pid {
      KeyDeleteIsWithin(owners[1..], pid);
    }
  }

  lemma HeldBy(k: Kernel)
    ensures forall x :: x in k.connOwners || x in k.pendOwners ==> Holds(k, x.pid)
  {
  }

  lemma NodeDownOwners(k: Kernel, known: set<Pid>, pid: Pid, node: string)
    requires TableOk(k, known)
    ensures OnlyKnownOwners(k, NodeDown(k, pid, node).kernel, {})
  {
    hide Holds, EntriesOk, PidsOk;
    HeldBy(k);
    KeyDeleteIsWithin(k.connOwners, pid);
    if IsConn(k, node) && k.table[node].pendingOwner.Some? && k.table[node].state == UpPending {
      var next := k.table[node].pendingOwner.value;
      KeyDeleteIsWithin(k.pendOwners, next);
      assert Pends(k, Owner(next, node));
    }
  }

  lemma AcceptPendingOwners(k: Kernel, known: set<Pid>, pid: Pid, node: string, kind: NodeType, above: bool)
    requires TableOk(k, known) && pid !in known
    ensures OnlyKnownOwners(k, AcceptPending(k, pid, node, kind, above).kernel, {pid})
  {
    hide Holds, EntriesOk, KeyReplace;
    HeldBy(k);
    if IsConn(k, node) {
      KeyReplaceMembers(k.connOwners, k.table[node].owner, Owner(pid, node));
    }
  }

  lemma ExitOwners(k: Kernel, known: set<Pid>, pid: Pid, newPid: Pid)
    requires TableOk(k, known)
    ensures OnlyKnownOwners(k, Exit(k, pid, newPid).kernel, {newPid})
  {
    hide Holds, TableOk, NodeDown;
    HeldBy(k);
    var o := KeySearch(k.connOwners, pid);
    if o.Some? {
      NodeDownOwners(k, known, pid, o.value.node);
    }
    KeyDeleteIsWithin(k.pendOwners, pid);
  }

  lemma StepOwners(s: Sys, step: Step)
    requires TableOk(s.kernel, s.known) && Enabled(s, step)
    ensures OnlyKnownOwners(s.kernel, Do(s, step).kernel, NewPids(step))
  {
    hide Holds, TableOk, NodeDown, AcceptPending;
    HeldBy(s.kernel);
    match step
    case ConnectStep(_, _, _) =>
    case DisconnectStep(n, newPid) =>
      if IsConn(s.kernel, n) {
        ExitOwners(s.kernel, s.known, s.kernel.table[n].owner, newPid);
      }
    case NodeUpStep(_, _, _, _) =>
    case AcceptPendingStep(pid, n, kind, above) => AcceptPendingOwners(s.kernel, s.known, pid, n, kind, above);
    case ExitStep(pid, newPid) => ExitOwners(s.kernel, s.known, pid, newPid);
  }

  lemma OwnerHolds(k: Kernel, known: set<Pid>, node: string)
    requires TableOk(k, known) && IsConn(k, node)
    ensures Holds(k, k.table[node].owner)
  {
    assert Owns(k, Owner(k.table[node].owner, node));
  }

  lemma NoNewHolder(s: Sys, step: Step, pid: Pid)
    requires TableOk(s.kernel, s.known) && Enabled(s, step)
    requires pid in s.known && !Holds(s.kernel, pid)
    ensures !Holds(Do(s, step).kernel, pid)
  {
    hide TableOk, Perform;
    StepOwners(s, step);
  }

  /** A pid that holds no connection never holds one again, and its nodeup is refused, in every run. */
  lemma {:induction false} StaleNodeUpIsRefused(s: Sys, steps: seq<Step>, pid: Pid, node: string, kind: NodeType,
                                                immediate: bool)
    requires TableOk(s.kernel, s.known) && IsRun(s, steps)
    requires pid in s.known && !Holds(s.kernel, pid)
    ensures var k := Exec(s, steps).kernel;
            !Holds(k, pid) && NodeUp(k, pid, node, kind, immediate) == Done(k, [BadRequest(pid)])
    decreases |steps|
  {
    if steps == [] {
      if IsConn(s.kernel, node) {
        OwnerHolds(s.kernel, s.known, node);
      }
    } else {
      hide TableOk, Holds;
      StepKeepsTable(s, steps[0]);
      NoNewHolder(s, steps[0], pid);
      StaleNodeUpIsRefused(Do(s, steps[0]), steps[1..], pid, node, kind, immediate);
    }
  }

  /** An owner replaced in a simultaneous connect is such a pid from then on. */
  lemma ReplacedOwnerIsOut(k: Kernel, known: set<Pid>, pid: Pid, node: string, kind: NodeType)
    requires TableOk(k, known) && pid !in known && IsConn(k, node) && k.table[node].state == Pending
    ensures var d := AcceptPending(k, pid, node, kind, false);
            && Remarked(k.table[node].owner) in d.out
            && k.table[node].owner in known && !Holds(d.kernel, k.table[node].owner)
            && d.kernel.table[node].owner == pid && Waiting(d.kernel, node) == Waiting(k, node)
  {
    hide KeyReplace, EntriesOk;
    var replaced := Owner(k.table[node].owner, node);
    assert Owns(k, replaced);
    KeyReplaceMembers(k.connOwners, replaced.pid, Owner(pid, node));
  }

  /** So whatever happens after a takeover, a late nodeup of the replaced owner changes nothing. */
  lemma ReplacedOwnerNeverComesUp(s: Sys, pid: Pid, node: string, kind: NodeType, steps: seq<Step>,
                                  other: string, otherKind: NodeType, immediate: bool)
    requires TableOk(s.kernel, s.known) && IsConn(s.kernel, node) && s.kernel.table[node].state == Pending
    requires Enabled(s, AcceptPendingStep(pid, node, kind, false))
    requires IsRun(Do(s, AcceptPendingStep(pid, node, kind, false)), steps)
    ensures var k := Exec(Do(s, AcceptPendingStep(pid, node, kind, false)), steps).kernel;
            NodeUp(k, s.kernel.table[node].owner, other, otherKind, immediate) ==
            Done(k, [BadRequest(s.kernel.table[node].owner)])
  {
    hide TableOk, AcceptPending, NodeUp, Exec, IsRun, Holds;
    ReplacedOwnerIsOut(s.kernel, s.known, pid, node, kind);
    StepKeepsTable(s, AcceptPendingStep(pid, node, kind, false));
    StaleNodeUpIsRefused(Do(s, AcceptPendingStep(pid, node, kind, false)), steps, s.kernel.table[node].owner,
                         other, otherKind, immediate);
  }

  // ---------- established connections ----------

  predicate Established(k: Kernel, node: string) {
    IsConn(k, node) && k.table[node].state != Pending
  }

  lemma ExitSparesOthers(k: Kernel, known: set<Pid>, pid: Pid, newPid: Pid, node: string)
    requires TableOk(k, known) && Established(k, node) && k.table[node].owner != pid
    ensures var l := Exit(k, pid, newPid).kernel;
            Established(l, node) && l.table[node].owner == k.table[node].owner
  {
    hide KeyDelete, PidsOk;
    NodeDownIsForTheOwner(k, known, pid);
  }

  lemma OneOwnerEach(k: Kernel, known: set<Pid>, a: string, b: string)
    requires TableOk(k, known) && IsConn(k, a) && IsConn(k, b) && a != b
    ensures k.table[a].owner != k.table[b].owner
  {
    assert Owns(k, Owner(k.table[a].owner, a)) && Owns(k, Owner(k.table[b].owner, b));
    OnePidOneNode(k, Owner(k.table[a].owner, a), Owner(k.table[b].owner, b));
  }

  /** An established connection and its owner stay over every step but a disconnect of its node and the exit of
      its owner. */
  lemma EstablishedStays(s: Sys, step: Step, node: string)
    requires TableOk(s.kernel, s.known) && Enabled(s, step) && Established(s.kernel, node)
    requires step.ExitStep? ==> step.pid != s.kernel.table[node].owner
    requires step.DisconnectStep? ==> step.node != node
    ensures var l := Do(s, step).kernel;
            Established(l, node) && l.table[node].owner == s.kernel.table[node].owner
  {
    hide TableOk, Exit, KeyReplace;
    match step
    case DisconnectStep(n, newPid) =>
      if IsConn(s.kernel, n) {
        OneOwnerEach(s.kernel, s.known, n, node);
        ExitSparesOthers(s.kernel, s.known, s.kernel.table[n].owner, newPid, node);
      }
    case ExitStep(pid, newPid) => ExitSparesOthers(s.kernel, s.known, pid, newPid, node);
    case _ =>
  }

  lemma OwnerIsFound(k: Kernel, known: set<Pid>, node: string)
    requires TableOk(k, known) && IsConn(k, node)
    ensures KeySearch(k.connOwners, k.table[node].owner) == Some(Owner(k.table[node].owner, node))
    ensures !IsService(k, k.table[node].owner)
  {
    var o := Owner(k.table[node].owner, node);
    assert Owns(k, o) && o in k.connOwners;
    OnePidOneNode(k, o, KeySearch(k.connOwners, o.pid).value);
  }

  /** The exit of an owner: a pending connection goes and its callers are told false, oldest first; an up one goes, and
      is barred exactly with dist_auto_connect once; an up_pending one is pending again under its pending owner, with
      its callers waiting on. */
  lemma OwnerExitOutcome(k: Kernel, known: set<Pid>, node: string, newPid: Pid)
    requires TableOk(k, known) && IsConn(k, node)
    ensures var c, d := k.table[node], Exit(k, k.table[node].owner, newPid);
            match c.state
            case Pending => node !in d.kernel.table && d.out == ReplyWaiting(node, c.waiting, false)
            case Up => d.out == [] && !IsConn(d.kernel, node) && (node in d.kernel.table <==> k.once)
            case UpPending =>
              && IsConn(d.kernel, node) && d.kernel.table[node].state == Pending
              && Some(d.kernel.table[node].owner) == c.pendingOwner
              && Waiting(d.kernel, node) == c.waiting && d.out == [NowPending(c.pendingOwner.value)]
  {
    hide KeyDelete, ReplyWaiting;
    assert Owns(k, Owner(k.table[node].owner, node));
    OwnerIsFound(k, known, node);
  }
}
