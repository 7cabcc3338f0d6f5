/** The lifecycle flags of HytaleUpdaterCore as a state machine: the server
    process reference, stop_requested and the restart timers, with the step
    each operation takes and the effects it makes. The class in ManagerCore
    is proved to follow these steps. */
module Lifecycle {
  import opened PyText
  import opened Settings
  import opened Host

  /** A threading.Timer the manager armed for a scheduled restart. */
  datatype Timer = Armed | Cancelled | Fired

  /** The process in server_process: still running (poll() is None), or
      exited with a return code the monitor has not handled yet. */
  datatype Proc = Running | Exited(rc: int)

  /** server_process, stop_requested, and every timer armed so far in order;
      restart_timer is the last of them (None while there is none). A timer
      replaced by a newer one keeps running: only restart_timer is reachable. */
  datatype Core = Core(process: Option<Proc>, stopRequested: bool, timers: seq<Timer>)

  /** A state after a step and the effects the step made. */
  datatype Step = Step(core: Core, effects: seq<Action>)

  /** enable_auto_restart, on by default. */
  predicate AutoRestart(config: Config) {
    Truthy(Get(config, "enable_auto_restart", VBool(true)))
  }

  /** enable_schedule, off by default. */
  predicate Scheduled(config: Config) {
    Truthy(Get(config, "enable_schedule", VBool(false)))
  }

  /** send_discord_webhook raises: with enable_discord on, it calls
      `.strip()` on discord_webhook before its try, which fails with
      AttributeError for a value that is not a string. */
  predicate WebhookRaises(config: Config) {
    Truthy(Get(config, "enable_discord", VBool(false))) && !Get(config, "discord_webhook", VStr("")).VStr?
  }

  /** The interval a scheduled restart is armed with, as float() reads it. */
  function IntervalSetting(config: Config): Value {
    Get(config, "restart_interval", VInt(12))
  }

  /** The start of _start_server_thread: stop_requested is cleared. */
  function BeginStep(c: Core): Core {
    c.(stopRequested := false)
  }

  /** A successful Popen: server_process refers to a running process. */
  function LaunchStep(c: Core): Core {
    c.(process := Some(Running))
  }

  /** send_command: the command and a newline go to stdin only while the
      process is running and the write succeeds; otherwise only a log line. */
  function SendStep(c: Core, command: string, writeOk: bool): Step {
    if c.process == Some(Running) && writeOk then Step(c, [WriteStdin(command + "\n")])
    else Step(c, [])
  }

  /** Timer.cancel() on restart_timer: an armed timer no longer fires; a
      fired or cancelled one is unaffected. */
  function CancelLast(timers: seq<Timer>): (r: seq<Timer>)
    requires timers != []
    ensures |r| == |timers| && r[..|r| - 1] == timers[..|timers| - 1]
    ensures r[|r| - 1] == if timers[|timers| - 1] == Armed then Cancelled else timers[|timers| - 1]
  {
    var last := timers[|timers| - 1];
    timers[..|timers| - 1] + [if last == Armed then Cancelled else last]
  }

  /** stop_server: stop_requested is set, restart_timer (if any) cancelled,
      and a process reference gets "stop\n" on stdin, or is killed when the
      write raises. */
  function StopStep(c: Core, writeOk: bool): Step {
    var timers := if c.timers == [] then [] else CancelLast(c.timers);
    var cancel := if c.timers == [] then [] else [CancelTimer];
    var signal := if c.process.None? then [] else if writeOk then [WriteStdin("stop\n")] else [KillProcess];
    Step(Core(c.process, true, timers), cancel + signal)
  }

  /** The server process ends on its own or after a stop or a kill. */
  function DieStep(c: Core, rc: int): Core {
    if c.process == Some(Running) then c.(process := Some(Exited(rc))) else c
  }

  /** The end of _monitor_loop once poll() reports an exit: server_process is
      cleared, and a crash (non-zero code) that nobody asked for restarts the
      sequence when enable_auto_restart is on, unless the "stopped"
      notification sent before that rule raises and ends the monitor thread. */
  function MonitorStep(c: Core, config: Config): Step {
    match c.process
    case Some(Exited(rc)) =>
      Step(c.(process := None),
           if !WebhookRaises(config) && rc != 0 && !c.stopRequested && AutoRestart(config)
           then [RestartSequence] else [])
    case _ => Step(c, [])
  }

  /** _schedule_restart: a new timer becomes restart_timer; the previous one
      is not cancelled. */
  function ArmStep(c: Core, hours: string): Step {
    Step(c.(timers := c.timers + [Armed]), [ArmTimer(hours)])
  }

  /** restart_task of timer i: when still armed it fires, stops the server
      and starts the sequence again; its first statement is the notification,
      so when that raises the task ends having done nothing else. */
  function FireStep(c: Core, i: int, writeOk: bool, config: Config): Step {
    if 0 <= i < |c.timers| && c.timers[i] == Armed then
      var fired := c.(timers := c.timers[i := Fired]);
      if WebhookRaises(config) then Step(fired, [])
      else
        var s := StopStep(fired, writeOk);
        Step(s.core, s.effects + [RestartSequence])
    else Step(c, [])
  }

  /** What can happen to the flags, one event at a time. */
  datatype Event =
    | Begin
    | Launch
    | Send(command: string, writeOk: bool)
    | Stop(writeOk: bool)
    | Die(rc: int)
    | Monitor
    | Arm(hours: string)
    | Fire(i: int, writeOk: bool)

  function Apply(c: Core, e: Event, config: Config): Step {
    match e
    case Begin => Step(BeginStep(c), [])
    case Launch => Step(LaunchStep(c), [])
    case Send(command, ok) => SendStep(c, command, ok)
    case Stop(ok) => StopStep(c, ok)
    case Die(rc) => Step(DieStep(c, rc), [])
    case Monitor => MonitorStep(c, config)
    case Arm(hours) => ArmStep(c, hours)
    case Fire(i, ok) => FireStep(c, i, ok, config)
  }

  /** A run of events from state c: the final state and all effects in order. */
  function Run(c: Core, events: seq<Event>, config: Config): Step
    decreases |events|
  {
    if events == [] then Step(c, [])
    else
      var first := Apply(c, events[0], config);
      var rest := Run(first.core, events[1..], config);
      Step(rest.core, first.effects + rest.effects)
  }

  /** send_command writes exactly the command and one newline, and only to
      a running process whose stdin accepts it. */
  lemma SendWritesCommandLine(c: Core, command: string, writeOk: bool)
    ensures var s := SendStep(c, command, writeOk);
      && s.core == c
      && (s.effects != [] <==> c.process == Some(Running) && writeOk)
      && (s.effects != [] ==> s.effects == [WriteStdin(command + "\n")])
  {
  }

  /** stop_server always sets stop_requested and leaves restart_timer unable
      to fire; with a process it either writes exactly "stop\n" or kills, and
      the process reference itself is kept for the monitor to clear. */
  lemma StopAlwaysRequests(c: Core, writeOk: bool)
    ensures var s := StopStep(c, writeOk);
      && s.core.stopRequested
      && s.core.process == c.process
      && |s.core.timers| == |c.timers|
      && (c.timers != [] ==> s.core.timers[|c.timers| - 1] != Armed && CancelTimer in s.effects)
      && (c.process.Some? && writeOk ==> WriteStdin("stop\n") in s.effects && KillProcess !in s.effects)
      && (c.process.Some? && !writeOk ==> KillProcess in s.effects)
      && (c.process.None? ==> forall a :: a in s.effects ==> a == CancelTimer)
  {
  }

  /** The crash-restart rule: after the monitor sees an exit, server_process
      is cleared, and the sequence restarts exactly when the code is non-zero,
      no stop was requested, enable_auto_restart is on and the notification
      before the rule does not raise. */
  lemma MonitorRestartsOnlyOnCrash(c: Core, rc: int, config: Config)
    requires c.process == Some(Exited(rc))
    ensures var s := MonitorStep(c, config);
      && s.core.process.None?
      && s.core.stopRequested == c.stopRequested && s.core.timers == c.timers
      && (RestartSequence in s.effects <==>
            rc != 0 && !c.stopRequested && AutoRestart(config) && !WebhookRaises(config))
  {
  }

  /** Only the monitor and a firing timer restart the sequence. */
  lemma {:induction false} RestartSources(c: Core, events: seq<Event>, config: Config)
    requires forall k :: 0 <= k < |events| ==> !events[k].Fire?
    requires c.stopRequested
    requires forall k :: 0 <= k < |events| ==> !events[k].Begin?
    ensures RestartSequence !in Run(c, events, config).effects
    ensures Run(c, events, config).core.stopRequested
    decreases |events|
  {
    if events != [] {
      var first := Apply(c, events[0], config);
      assert first.core.stopRequested;
      assert RestartSequence !in first.effects;
      RestartSources(first.core, events[1..], config);
    }
  }

  lemma CancelLastKeepsCancelled(t: seq<Timer>, i: nat)
    requires i < |t| && t[i] == Cancelled
    ensures CancelLast(t)[i] == Cancelled
  {
    if i != |t| - 1 {
      assert CancelLast(t)[i] == CancelLast(t)[..|t| - 1][i];
    }
  }

  /** One event never un-cancels a timer nor forgets one. */
  lemma ApplyKeepsCancelled(c: Core, e: Event, config: Config, i: nat)
    requires i < |c.timers| && c.timers[i] == Cancelled
    ensures var t := Apply(c, e, config).core.timers;
      i < |t| && t[i] == Cancelled
  {
    match e
    case Stop(ok) =>
      CancelLastKeepsCancelled(c.timers, i);
    case Fire(j, ok) =>
      if 0 <= j < |c.timers| && c.timers[j] == Armed && !WebhookRaises(config) {
        CancelLastKeepsCancelled(c.timers[j := Fired], i);
      }
    case Arm(h) =>
      assert (c.timers + [Armed])[i] == c.timers[i];
    case _ =>
  }

  /** A cancelled timer stays cancelled and no timer is forgotten, whatever
      happens afterwards. */
  lemma {:induction false} CancelledStaysCancelled(c: Core, events: seq<Event>, config: Config, i: nat)
    requires i < |c.timers| && c.timers[i] == Cancelled
    ensures var r := Run(c, events, config).core;
      i < |r.timers| && r.timers[i] == Cancelled
    decreases |events|
  {
    if events != [] {
      ApplyKeepsCancelled(c, events[0], config, i);
      CancelledStaysCancelled(Apply(c, events[0], config).core, events[1..], config, i);
    }
  }

  /** Running one event and then the rest. */
  lemma RunCons(c: Core, e: Event, rest: seq<Event>, config: Config)
    ensures var first := Apply(c, e, config);
      var r := Run(first.core, rest, config);
      Run(c, [e] + rest, config) == Step(r.core, first.effects + r.effects)
  {
    assert ([e] + rest)[1..] == rest;
  }

  /** A restart scheduled twice leaves the first timer armed after a stop:
      stop_server cancels only restart_timer, so the older timer still fires
      and restarts the server that was stopped on purpose (unless the
      notification raises first). */
  lemma OrphanedTimerSurvivesStop(c: Core, h1: string, h2: string, writeOk: bool, config: Config)
    ensures var r := Run(c, [Arm(h1), Arm(h2), Stop(writeOk)], config);
      && |r.core.timers| == |c.timers| + 2
      && r.core.timers[|c.timers|] == Armed
      && r.core.timers[|c.timers| + 1] == Cancelled
      && (RestartSequence in Run(r.core, [Fire(|c.timers|, writeOk)], config).effects <==> !WebhookRaises(config))
  {
    ArmArmStop(c, h1, h2, writeOk, config);
    var r := Run(c, [Arm(h1), Arm(h2), Stop(writeOk)], config);
    FireRestarts(r.core, |c.timers|, writeOk, config);
  }

  /** Two arms and a stop: the first new timer is still armed, the second
      (restart_timer) is cancelled, and stop_requested is set. */
  lemma ArmArmStop(c: Core, h1: string, h2: string, writeOk: bool, config: Config)
    ensures Run(c, [Arm(h1), Arm(h2), Stop(writeOk)], config).core ==
      Core(c.process, true, c.timers + [Armed, Cancelled])
  {
    var s1 := ArmStep(c, h1).core;
    var s2 := ArmStep(s1, h2).core;
    RunCons(s2, Stop(writeOk), [], config);
    RunCons(s1, Arm(h2), [Stop(writeOk)], config);
    RunCons(c, Arm(h1), [Arm(h2), Stop(writeOk)], config);
    assert [Arm(h1)] + [Arm(h2), Stop(writeOk)] == [Arm(h1), Arm(h2), Stop(writeOk)];
    assert [Arm(h2)] + [Stop(writeOk)] == [Arm(h2), Stop(writeOk)];
    assert s2.timers == c.timers + [Armed, Armed];
    assert CancelLast(s2.timers) == c.timers + [Armed, Cancelled];
  }

  /** A timer that is still armed restarts the sequence when it fires,
      unless its notification raises; then it stops nothing either. */
  lemma FireRestarts(c: Core, i: int, writeOk: bool, config: Config)
    requires 0 <= i < |c.timers| && c.timers[i] == Armed
    ensures var r := Run(c, [Fire(i, writeOk)], config);
      && (RestartSequence in r.effects <==> !WebhookRaises(config))
      && (WebhookRaises(config) ==> r.effects == [] && r.core == c.(timers := c.timers[i := Fired]))
      && |r.core.timers| == |c.timers| && r.core.timers[i] == Fired
  {
    RunCons(c, Fire(i, writeOk), [], config);
    assert [Fire(i, writeOk)] + [] == [Fire(i, writeOk)];
  }

  /** A stop followed by a new start sequence before the monitor has seen
      the old process exit: the start clears stop_requested, so the old
      process's non-zero exit counts as a crash and restarts the server
      whenever the notification before the restart rule does not raise. */
  lemma StopThenStartRace(c: Core, rc: int, writeOk: bool, config: Config)
    requires c.process == Some(Running) && rc != 0 && AutoRestart(config)
    ensures RestartSequence in Run(c, [Stop(writeOk), Begin, Die(rc), Monitor], config).effects
      <==> !WebhookRaises(config)
  {
    var s1 := StopStep(c, writeOk);
    var s2 := BeginStep(s1.core);
    var s3 := DieStep(s2, rc);
    var s4 := MonitorStep(s3, config);
    RunCons(s3, Monitor, [], config);
    RunCons(s2, Die(rc), [Monitor], config);
    RunCons(s1.core, Begin, [Die(rc), Monitor], config);
    RunCons(c, Stop(writeOk), [Begin, Die(rc), Monitor], config);
    assert [Monitor] + [] == [Monitor];
    assert [Die(rc)] + [Monitor] == [Die(rc), Monitor];
    assert [Begin] + [Die(rc), Monitor] == [Begin, Die(rc), Monitor];
    assert [Stop(writeOk)] + [Begin, Die(rc), Monitor] == [Stop(writeOk), Begin, Die(rc), Monitor];
    assert RestartSequence in s4.effects <==> !WebhookRaises(config);
  }

  /** Without that race a requested stop is never taken for a crash. */
  lemma StopIsNotACrash(c: Core, rc: int, writeOk: bool, config: Config)
    requires c.process == Some(Running)
    ensures RestartSequence !in Run(c, [Stop(writeOk), Die(rc), Monitor], config).effects
  {
    RunCons(c, Stop(writeOk), [Die(rc), Monitor], config);
    assert [Stop(writeOk)] + [Die(rc), Monitor] == [Stop(writeOk), Die(rc), Monitor];
    RestartSources(StopStep(c, writeOk).core, [Die(rc), Monitor], config);
  }
}
