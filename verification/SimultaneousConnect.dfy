/** Two kernels that connect to each other at once (`erlang_dist/src/net_kernel.erl`). A handshake is started by the setup
    process of one kernel and granted or refused by the accept_pending answer of the other. No owner exits, except the
    one that is replaced. */
module SimultaneousConnect {
  import opened Options
  import opened KernelTable

  // ---------- the order of names ----------

  /** MyNode > Node for atoms: character by character, a longer name above its prefix. */
  predicate Above(s: string, t: string) {
    if s == [] then false
    else if t == [] then true
    else if s[0] == t[0] then Above(s[1..], t[1..])
    else s[0] > t[0]
  }

  /** Of two different names exactly one is above the other. */
  lemma {:induction false} AboveIsTotal(s: string, t: string)
    requires s != t
    ensures Above(s, t) <==> !Above(t, s)
  {
    if s != [] && t != [] && s[0] == t[0] {
      assert s == [s[0]] + s[1..] && t == [t[0]] + t[1..];
      AboveIsTotal(s[1..], t[1..]);
    }
  }

  // ---------- two sides ----------

  /** `setup` started this side's handshake; `accept` and `verdict` belong to the other side's, as handled here. */
  datatype Side = Side(kernel: Kernel, setup: Option<Pid>, accept: Option<Pid>, verdict: Option<Verdict>)

  datatype Pair = Pair(a: Side, b: Side)

  datatype Step =
    | ConnectStep(caller: Caller, pid: Pid)
    | AcceptStep(pid: Pid, kind: NodeType)
    | NodeUpStep(own: bool, kind: NodeType, immediate: bool)

  predicate Granted(v: Option<Verdict>) {
    v == Some(Ok) || v == Some(OkPending)
  }

  /** The other side's setup process reaches an accept process here once; nodeup comes from the process at this end
      of a granted handshake. */
  predicate Enabled(x: Side, y: Side, step: Step) {
    match step
    case ConnectStep(_, _) => true
    case AcceptStep(pid, _) => y.setup.Some? && x.verdict == None && x.setup != Some(pid)
    case NodeUpStep(own, _, _) => if own then x.setup.Some? && Granted(y.verdict) else x.accept.Some? && Granted(x.verdict)
  }

  function Act(x: Side, y: Side, step: Step): Side
    requires Enabled(x, y, step)
  {
    var node := y.kernel.me;
    match step
    case ConnectStep(caller, pid) =>
      x.(kernel := Connect(x.kernel, node, caller, Some(pid)).kernel,
         setup := if IsConn(x.kernel, node) then x.setup else Some(pid))
    case AcceptStep(pid, kind) =>
      var d := AcceptPending(x.kernel, pid, node, kind, Above(x.kernel.me, node));
      x.(kernel := d.kernel, accept := Some(pid), verdict := Some(d.out[|d.out| - 1].verdict))
    case NodeUpStep(own, kind, immediate) =>
      var pid := if own then x.setup.value else x.accept.value;
      x.(kernel := NodeUp(x.kernel, pid, node, kind, immediate).kernel)
  }

  /** A step of one of the two. */
  predicate EnabledAt(p: Pair, first: bool, step: Step) {
    if first then Enabled(p.a, p.b, step) else Enabled(p.b, p.a, step)
  }

  function Do(p: Pair, first: bool, step: Step): Pair
    requires EnabledAt(p, first, step)
  {
    if first then p.(a := Act(p.a, p.b, step)) else p.(b := Act(p.b, p.a, step))
  }

  predicate IsRun(p: Pair, steps: seq<(bool, Step)>)
    decreases |steps|
  {
    steps != [] ==> EnabledAt(p, steps[0].0, steps[0].1) && IsRun(Do(p, steps[0].0, steps[0].1), steps[1..])
  }

  function Exec(p: Pair, steps: seq<(bool, Step)>): Pair
    requires IsRun(p, steps)
    decreases |steps|
  {
    if steps == [] then p else Exec(Do(p, steps[0].0, steps[0].1), steps[1..])
  }

  // ---------- the invariant ----------

  /** One side's table agrees with the handshakes started and answered here. */
  predicate SideOk(x: Side, y: Side) {
    var node := y.kernel.me;
    && (IsConn(x.kernel, node) <==> x.setup.Some? || x.verdict.Some?)
    && (x.accept.Some? <==> x.verdict.Some?)
    && (x.verdict.Some? ==> (x.setup == None <==> x.verdict == Some(Ok)))
    && (x.setup.Some? && x.verdict == None ==>
          var c := x.kernel.table[node];
          c.owner == x.setup.value && (c.state == Pending || (c.state == Up && Granted(y.verdict))))
    && (x.setup.Some? && x.verdict.Some? ==>
          if Above(x.kernel.me, node) then x.verdict == Some(NokPending) || x.verdict == Some(UpPendingVerdict)
          else x.verdict == Some(OkPending) && x.kernel.table[node].owner == x.accept.value != x.setup.value)
    && (x.verdict.Some? ==> y.setup.Some?)
  }

  predicate PairOk(p: Pair) {
    p.a.kernel.me != p.b.kernel.me && SideOk(p.a, p.b) && SideOk(p.b, p.a)
  }

  /** Two kernels that know nothing of each other yet. */
  predicate Initial(p: Pair) {
    && p.a.kernel.me != p.b.kernel.me
    && !IsConn(p.a.kernel, p.b.kernel.me) && !IsConn(p.b.kernel, p.a.kernel.me)
    && p.a == Side(p.a.kernel, None, None, None) && p.b == Side(p.b.kernel, None, None, None)
  }

  lemma ConnectKeeps(x: Side, y: Side, caller: Caller, pid: Pid)
    requires x.kernel.me != y.kernel.me && SideOk(x, y) && SideOk(y, x)
    ensures var z := Act(x, y, ConnectStep(caller, pid));
            z.kernel.me == x.kernel.me && SideOk(z, y) && SideOk(y, z)
  {
    hide Above;
  }

  lemma AcceptKeeps(x: Side, y: Side, pid: Pid, kind: NodeType)
    requires x.kernel.me != y.kernel.me && SideOk(x, y) && SideOk(y, x)
    requires Enabled(x, y, AcceptStep(pid, kind))
    ensures var z := Act(x, y, AcceptStep(pid, kind));
            z.kernel.me == x.kernel.me && SideOk(z, y) && SideOk(y, z)
  {
    hide Above, KeyReplace;
    AboveIsTotal(x.kernel.me, y.kernel.me);
  }

  lemma NodeUpKeeps(x: Side, y: Side, own: bool, kind: NodeType, immediate: bool)
    requires x.kernel.me != y.kernel.me && SideOk(x, y) && SideOk(y, x)
    requires Enabled(x, y, NodeUpStep(own, kind, immediate))
    ensures var z := Act(x, y, NodeUpStep(own, kind, immediate));
            z.kernel.me == x.kernel.me && SideOk(z, y) && SideOk(y, z)
  {
    hide Above;
  }

  lemma StepKeeps(p: Pair, first: bool, step: Step)
    requires PairOk(p) && EnabledAt(p, first, step)
    ensures PairOk(Do(p, first, step))
  {
    hide SideOk, Act;
    var x, y := if first then p.a else p.b, if first then p.b else p.a;
    match step
    case ConnectStep(caller, pid) => ConnectKeeps(x, y, caller, pid);
    case AcceptStep(pid, kind) => AcceptKeeps(x, y, pid, kind);
    case NodeUpStep(own, kind, immediate) => NodeUpKeeps(x, y, own, kind, immediate);
  }

  lemma {:induction false} RunKeeps(p: Pair, steps: seq<(bool, Step)>)
    requires PairOk(p) && IsRun(p, steps)
    ensures PairOk(Exec(p, steps))
    decreases |steps|
  {
    hide PairOk, Do, EnabledAt;
    if steps != [] {
      StepKeeps(p, steps[0].0, steps[0].1);
      RunKeeps(Do(p, steps[0].0, steps[0].1), steps[1..]);
    }
  }

  // ---------- the theorems ----------

  lemma {:induction false} NamesStay(p: Pair, steps: seq<(bool, Step)>)
    requires IsRun(p, steps)
    ensures Exec(p, steps).a.kernel.me == p.a.kernel.me && Exec(p, steps).b.kernel.me == p.b.kernel.me
    decreases |steps|
  {
    if steps != [] {
      NamesStay(Do(p, steps[0].0, steps[0].1), steps[1..]);
    }
  }

  /** However the two kernels' steps interleave, never are both handshakes granted. */
  lemma NeverBothGranted(p: Pair, steps: seq<(bool, Step)>)
    requires Initial(p) && IsRun(p, steps)
    ensures var q := Exec(p, steps);
            !(Granted(q.a.verdict) && Granted(q.b.verdict))
  {
    hide IsRun, Exec, Above;
    RunKeeps(p, steps);
    AboveIsTotal(p.a.kernel.me, p.b.kernel.me);
    NamesStay(p, steps);
  }

  /** If both were started, only the handshake of the greater name can be granted; once it is answered it is
      granted, and the smaller side's setup process has been replaced by the accept process. */
  lemma TheGreaterNameWins(p: Pair, steps: seq<(bool, Step)>)
    requires Initial(p) && IsRun(p, steps) && Above(p.b.kernel.me, p.a.kernel.me)
    requires Exec(p, steps).a.setup.Some? && Exec(p, steps).b.setup.Some?
    ensures var q := Exec(p, steps);
            && !Granted(q.b.verdict)
            && (q.a.verdict.Some? ==>
                  && Granted(q.a.verdict)
                  && IsConn(q.a.kernel, q.b.kernel.me)
                  && q.a.accept == Some(q.a.kernel.table[q.b.kernel.me].owner) && q.a.accept != q.a.setup)
  {
    hide IsRun, Exec, Above;
    RunKeeps(p, steps);
    AboveIsTotal(p.a.kernel.me, p.b.kernel.me);
    NamesStay(p, steps);
  }
}
