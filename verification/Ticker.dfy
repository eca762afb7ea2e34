/** The change of the tick interval in `erlang_dist/src/net_kernel.erl`: the auxiliary ticker that covers the transition,
    and the protocol between the kernel and its ticker process. Times are in milliseconds. */
module Ticker {
  // ---------- the auxiliary ticker ----------

  datatype Message = AuxTick | TransitionPeriodEnd

  /** A message and when it was sent, counted from the start of the auxiliary ticker. */
  datatype Sent = Sent(time: nat, message: Message)

  function TickInterval(newTick: nat, oldTick: nat): nat {
    if newTick > oldTick then oldTick else newTick
  }

  function NoOfTicks(newTick: nat, oldTick: nat, transitionPeriod: nat): nat
    requires newTick > 0 && oldTick > 0
  {
    if transitionPeriod > 0 then 1 + (transitionPeriod - 1) / TickInterval(newTick, oldTick) + 1 else 1
  }

  /** aux_ticker1, started at `now`. */
  function AuxTicker(now: nat, interval: nat, ticks: nat): (sent: seq<Sent>)
    requires ticks > 0
    ensures |sent| == ticks + 1
    decreases ticks
  {
    if ticks == 1 then [Sent(now, TransitionPeriodEnd), Sent(now, AuxTick)]
    else [Sent(now, AuxTick)] + AuxTicker(now + interval, interval, ticks - 1)
  }

  function CountTicks(sent: seq<Sent>): nat {
    if sent == [] then 0 else (if sent[0].message == AuxTick then 1 else 0) + CountTicks(sent[1..])
  }

  /** One tick for each turn, and the end of the transition once, just before the last tick. */
  lemma {:induction false} AuxTickerSends(now: nat, interval: nat, ticks: nat)
    requires ticks > 0
    ensures var sent := AuxTicker(now, interval, ticks);
            && CountTicks(sent) == ticks
            && (forall i :: 0 <= i < |sent| ==> (sent[i].message == TransitionPeriodEnd <==> i == ticks - 1))
    decreases ticks
  {
    var sent := AuxTicker(now, interval, ticks);
    if ticks > 1 {
      AuxTickerSends(now + interval, interval, ticks - 1);
      assert sent[1..] == AuxTicker(now + interval, interval, ticks - 1);
      assert forall i :: 0 < i < |sent| ==> sent[i] == sent[1..][i - 1];
    } else {
      assert sent[1..] == [Sent(now, AuxTick)] && sent[1..][1..] == [];
      assert CountTicks(sent[1..]) == 1;
    }
  }

  lemma OneMore(n: nat, interval: nat)
    ensures n * interval + interval == (n + 1) * interval
  {
  }

  /** Every turn comes one interval after the one before; the last two messages are sent together. */
  lemma {:induction false} AuxTickerTimes(now: nat, interval: nat, ticks: nat, i: nat)
    requires i <= ticks && ticks > 0
    ensures AuxTicker(now, interval, ticks)[i].time == now + (if i == ticks then ticks - 1 else i) * interval
    decreases ticks
  {
    if ticks > 1 && i > 0 {
      AuxTickerTimes(now + interval, interval, ticks - 1, i - 1);
      OneMore(if i == ticks then ticks - 2 else i - 1, interval);
    }
  }

  lemma DivisionBounds(n: nat, d: nat)
    requires d > 0
    ensures n / d * d <= n < n / d * d + d
  {
  }

  /** The number of ticks after the first is the least number of intervals that covers the transition period. */
  lemma TicksCoverTheTransition(newTick: nat, oldTick: nat, transitionPeriod: nat)
    requires newTick > 0 && oldTick > 0
    ensures var interval, k := TickInterval(newTick, oldTick), NoOfTicks(newTick, oldTick, transitionPeriod) - 1;
            && interval > 0 && interval <= newTick && interval <= oldTick
            && k * interval >= transitionPeriod
            && (k > 0 ==> (k - 1) * interval < transitionPeriod)
            && (k == 0 <==> transitionPeriod == 0)
  {
    var interval := TickInterval(newTick, oldTick);
    if transitionPeriod > 0 {
      var q := (transitionPeriod - 1) / interval;
      DivisionBounds(transitionPeriod - 1, interval);
      assert (q + 1) * interval == q * interval + interval;
    }
  }

  lemma OneGap(interval: nat, ticks: nat, i: nat)
    requires i < ticks
    ensures 0 <= AuxTicker(0, interval, ticks)[i + 1].time - AuxTicker(0, interval, ticks)[i].time <= interval
  {
    hide AuxTicker;
    AuxTickerTimes(0, interval, ticks, i);
    AuxTickerTimes(0, interval, ticks, i + 1);
    OneMore(i, interval);
  }

  /** A transition sends that many ticks and ends after the transition period, by less than one interval; in between
      no gap is longer than the shorter of the two tick times. */
  lemma TransitionEndsInTime(newTick: nat, oldTick: nat, transitionPeriod: nat)
    requires newTick > 0 && oldTick > 0
    ensures var interval := TickInterval(newTick, oldTick);
            var ticks := NoOfTicks(newTick, oldTick, transitionPeriod);
            var sent := AuxTicker(0, interval, ticks);
            && CountTicks(sent) == ticks
            && sent[ticks - 1].message == TransitionPeriodEnd
            && transitionPeriod <= sent[ticks - 1].time
            && (if transitionPeriod > 0 then sent[ticks - 1].time < transitionPeriod + interval else sent[0].time == 0)
            && (forall i :: 0 <= i < |sent| - 1 ==> 0 <= sent[i + 1].time - sent[i].time <= interval)
  {
    var interval := TickInterval(newTick, oldTick);
    var ticks := NoOfTicks(newTick, oldTick, transitionPeriod);
    TicksCoverTheTransition(newTick, oldTick, transitionPeriod);
    AuxTickerSends(0, interval, ticks);
    AuxTickerTimes(0, interval, ticks, ticks - 1);
    var sent := AuxTicker(0, interval, ticks);
    if ticks > 1 {
      OneMore(ticks - 2, interval);
    }
    forall i | 0 <= i < |sent| - 1 ensures 0 <= sent[i + 1].time - sent[i].time <= interval {
      OneGap(interval, ticks, i);
    }
  }

  // ---------- the kernel and its ticker ----------

  datatype How = Longer | Shorter

  /** The tick field of the kernel's state. */
  datatype Tick = Tick(time: nat) | TickChange(time: nat, how: How)

  /** The ticker process: its period, and the new periods in its mailbox, oldest first. A dead one has neither. */
  datatype Process = Running(period: nat, mailbox: seq<nat>) | Dead

  /** `ending` is set while the auxiliary ticker still has to send transition_period_end. */
  datatype State = State(tick: Tick, ticker: Process, ending: bool)

  datatype Step =
    | NewTickTime(time: nat)
    | TransitionEnds
    | TickerReceives
    | TickerDies
    | TickerRestarted

  predicate Enabled(s: State, step: Step) {
    match step
    case NewTickTime(time) => time > 0
    case TransitionEnds => s.ending
    case TickerReceives => s.ticker.Running? && s.ticker.mailbox != []
    case TickerDies => s.ticker.Running?
    case TickerRestarted => s.ticker.Dead?
  }

  /** A message to a dead process is lost. */
  function Send(p: Process, time: nat): Process {
    match p
    case Running(period, mailbox) => Running(period, mailbox + [time])
    case Dead => Dead
  }

  function Do(s: State, step: Step): State
    requires Enabled(s, step)
  {
    match step
    case NewTickTime(time) =>
      if s.tick.TickChange? || s.tick.time == time then s
      else if time > s.tick.time then State(TickChange(time, Longer), Send(s.ticker, time), true)
      else State(TickChange(time, Shorter), s.ticker, true)
    case TransitionEnds =>
      if s.tick.Tick? then s.(ending := false)
      else State(Tick(s.tick.time), if s.tick.how == Shorter then Send(s.ticker, s.tick.time) else s.ticker, false)
    case TickerReceives => s.(ticker := Running(s.ticker.mailbox[0], s.ticker.mailbox[1..]))
    case TickerDies => s.(ticker := Dead)
    case TickerRestarted => s.(ticker := Running(s.tick.time, []))
  }

  predicate IsRun(s: State, steps: seq<Step>)
    decreases |steps|
  {
    steps != [] ==> Enabled(s, steps[0]) && IsRun(Do(s, steps[0]), steps[1..])
  }

  function Exec(s: State, steps: seq<Step>): State
    requires IsRun(s, steps)
    decreases |steps|
  {
    if steps == [] then s else Exec(Do(s, steps[0]), steps[1..])
  }

  /** The period the ticker will have once it has read its mailbox. */
  function Eventually(p: Process): nat
    requires p.Running?
  {
    if p.mailbox == [] then p.period else p.mailbox[|p.mailbox| - 1]
  }

  /** Except while it waits to become shorter, the recorded time is what the ticker will use. */
  predicate Inv(s: State) {
    && (s.tick.TickChange? <==> s.ending)
    && (s.ticker.Running? && !(s.tick.TickChange? && s.tick.how == Shorter) ==> Eventually(s.ticker) == s.tick.time)
  }

  lemma StepKeeps(s: State, step: Step)
    requires Inv(s) && Enabled(s, step)
    ensures Inv(Do(s, step))
  {
  }

  lemma {:induction false} RunKeeps(s: State, steps: seq<Step>)
    requires Inv(s) && IsRun(s, steps)
    ensures Inv(Exec(s, steps))
    decreases |steps|
  {
    if steps != [] {
      StepKeeps(s, steps[0]);
      RunKeeps(Do(s, steps[0]), steps[1..]);
    }
  }

  /** In every run, ticker restarts included: outside a transition, once its messages are read, the ticker's period is
      the recorded tick time. */
  lemma PeriodIsRecordedTime(time: nat, steps: seq<Step>)
    requires IsRun(State(Tick(time), Running(time, []), false), steps)
    ensures var s := Exec(State(Tick(time), Running(time, []), false), steps);
            s.tick.Tick? && s.ticker.Running? && s.ticker.mailbox == [] ==> s.ticker.period == s.tick.time
  {
    hide Exec;
    RunKeeps(State(Tick(time), Running(time, []), false), steps);
  }

  /** Until its transition ends, a change stays what it is: the ticker may die, be restarted and read its messages, and
      further requests change nothing. */
  lemma {:induction false} ChangeGoesOn(s: State, steps: seq<Step>)
    requires s.tick.TickChange? && s.ending && IsRun(s, steps)
    requires forall i :: 0 <= i < |steps| ==> steps[i] != TransitionEnds
    ensures Exec(s, steps).tick == s.tick && Exec(s, steps).ending
    decreases |steps|
  {
    if steps != [] {
      ChangeGoesOn(Do(s, steps[0]), steps[1..]);
    }
  }

  /** A change that has begun is carried through: whatever happens in its transition, when that ends the recorded time is
      the new one and the ticker, now or once restarted, will use it. */
  lemma ChangeTakesEffect(s: State, time: nat, steps: seq<Step>)
    requires Inv(s) && s.tick.Tick? && time > 0 && time != s.tick.time
    requires IsRun(Do(s, NewTickTime(time)), steps)
    requires forall i :: 0 <= i < |steps| ==> steps[i] != TransitionEnds
    ensures var t := Exec(Do(s, NewTickTime(time)), steps);
            && Enabled(t, TransitionEnds) && t.tick.TickChange?
            && var u := Do(t, TransitionEnds);
               && u.tick == Tick(time)
               && (u.ticker.Running? ==> Eventually(u.ticker) == time)
               && (u.ticker.Dead? ==> Eventually(Do(u, TickerRestarted).ticker) == time)
  {
    hide Exec, IsRun;
    StepKeeps(s, NewTickTime(time));
    ChangeGoesOn(Do(s, NewTickTime(time)), steps);
    RunKeeps(Do(s, NewTickTime(time)), steps);
    StepKeeps(Exec(Do(s, NewTickTime(time)), steps), TransitionEnds);
  }

  /** A request begins a change exactly if none is going on and the time is another; else nothing happens. */
  lemma RequestOutcome(s: State, time: nat)
    requires time > 0
    ensures var t := Do(s, NewTickTime(time));
            if s.tick.Tick? && s.tick.time != time then t.tick.TickChange? && t.tick.time == time && t.ending else t == s
  {
  }

  lemma {:induction false} NothingToldMeanwhile(s: State, steps: seq<Step>)
    requires s.tick.TickChange? && s.ticker.Running? && IsRun(s, steps)
    requires forall i :: 0 <= i < |steps| ==> steps[i] != TransitionEnds && steps[i] != TickerDies
    ensures Exec(s, steps).ticker.Running? && Eventually(Exec(s, steps).ticker) == Eventually(s.ticker)
    decreases |steps|
  {
    if steps != [] {
      NothingToldMeanwhile(Do(s, steps[0]), steps[1..]);
    }
  }

  /** While a change goes on and its ticker lives, the ticker has the longer of the two periods once its messages are read:
      it is told of a longer one at once, and of a shorter one only at the end. */
  lemma LongerMeanwhile(s: State, time: nat, steps: seq<Step>)
    requires Inv(s) && s.tick.Tick? && s.ticker.Running? && time > 0 && time != s.tick.time
    requires IsRun(Do(s, NewTickTime(time)), steps)
    requires forall i :: 0 <= i < |steps| ==> steps[i] != TransitionEnds && steps[i] != TickerDies
    ensures var t := Exec(Do(s, NewTickTime(time)), steps);
            t.ticker.Running? && Eventually(t.ticker) == if time > s.tick.time then time else s.tick.time
  {
    hide Exec, IsRun;
    NothingToldMeanwhile(Do(s, NewTickTime(time)), steps);
  }
}
