/** The program (Main.kt): parse the options, then ping for ever, reporting
    every failed probe, running the hook on it, and sleeping between probes
    until the sleep is interrupted. The endless loop is run over a finite
    sequence of turns, each saying what the world did in it: the ping process,
    the hook process, the clock reading and whether the sleep was interrupted.
    The program's observable behaviour is the sequence of events it causes. */
module MainLoop {
  import opened Wrappers
  import opened Text
  import opened Numbers
  import opened PingArgs
  import opened PingBuilder
  import opened PingRunner
  import opened HookRunner
  import opened ContextJson

  /** What the world does in one turn of the loop. */
  datatype Iteration = Iteration(
    probe: ProbeRun,          // what became of the ping process
    hookProc: HookProcess,    // what becomes of the hook process, if one is started
    timestamp: string,        // the clock reading the hook payload carries
    interrupted: bool)        // whether the sleep at the end of the turn is interrupted

  /** What the program does that can be seen from outside. */
  datatype Event =
    | Printed(line: string)
    | Probed(command: seq<string>, waitSeconds: int)
    | HookStarted(call: HookCall)
    | Slept(millis: int)

  /** The wait for a ping without `--timeout`. */
  const DEFAULT_TIMEOUT_MILLIS: Long := 30000

  /** The pause between probes without `--interval`. */
  const DEFAULT_INTERVAL_SECONDS: Int32 := 1

  /** `Thread.sleep(loopIntervalSeconds * 1000L)`; the product is taken in
      `Long`, where it cannot overflow. */
  function SleepMillis(c: Config): (ms: int)
    ensures IntervalIsValid(c) ==> ms >= 0
    ensures c.intervalSeconds.None? ==> ms == 1000
    ensures c.intervalSeconds.Some? ==> ms == c.intervalSeconds.value as int * 1000
    ensures LONG_MIN <= ms <= LONG_MAX
  {
    c.intervalSeconds.GetOr(DEFAULT_INTERVAL_SECONDS) as int * 1000
  }

  /** The wait for one ping, in whole seconds: the configured timeout, or
      30 seconds without one. */
  function ProbeWaitSeconds(c: Config): (s: int)
    ensures c.timeoutMillis.None? ==> s == 30
    ensures c.timeoutMillis.Some? ==> s == WaitSeconds(c.timeoutMillis.value)
  {
    WaitSeconds(c.timeoutMillis.GetOr(DEFAULT_TIMEOUT_MILLIS))
  }

  /** The context handed to the hook: target, reason and details, in this order. */
  function FailureContext(c: Config, reason: string, details: string): seq<Entry> {
    [Entry("target", Str(c.target)), Entry("reason", Str(reason)), Entry("details", Str(details))]
  }

  /** A nullable message in a string template. */
  function MessageText(m: Option<string>): string {
    m.GetOr("null")
  }

  /** The hook's part of reporting a failure: nothing without a hook command,
      otherwise the started process, if it started, and one line saying
      whether `runHook` failed. */
  function HookEvents(c: Config, reason: string, details: string, it: Iteration): seq<Event> {
    if c.hook == [] then []
    else
      var run := RunHook(c.hook, FailureContext(c, reason, details), it.timestamp, it.hookProc);
      (if run.call.Some? then [HookStarted(run.call.value)] else [])
      + [Printed(if run.result.Failure? then "Hook failed: " + MessageText(run.result.error)
                 else "Hook executed successfully")]
  }

  /** How a probe result is reported: not at all for a success, otherwise a
      line naming the kind of failure, then the hook. */
  function Report(c: Config, it: Iteration): seq<Event> {
    match RunOnce(it.probe)
    case Success(_) => []
    case Timeout(m) => [Printed("TIMEOUT - " + m)] + HookEvents(c, "timeout", m, it)
    case Error(m) => [Printed("ERROR - " + m)] + HookEvents(c, "error", m, it)
  }

  /** The sleep at the end of a turn, and the farewell when it is interrupted. */
  function Pause(c: Config, it: Iteration): seq<Event> {
    [Slept(SleepMillis(c))] + (if it.interrupted then [Printed("Interrupted, exiting")] else [])
  }

  /** One turn of the loop: probe, report, sleep. */
  function Step(c: Config, isWindows: bool, it: Iteration): seq<Event> {
    [Probed(PingCommand(isWindows, c), ProbeWaitSeconds(c))] + Report(c, it) + Pause(c, it)
  }

  /** The events of a loop whose turns cause `step(turn)`: it stops after the
      first interrupted sleep. */
  function Loop(step: Iteration -> seq<Event>, world: seq<Iteration>): seq<Event> {
    if world == [] then []
    else step(world[0]) + (if world[0].interrupted then [] else Loop(step, world[1..]))
  }

  function StepOf(c: Config, isWindows: bool): Iteration -> seq<Event> {
    it => Step(c, isWindows, it)
  }

  /** The events of the loop of `main` over the given turns. */
  function Trace(c: Config, isWindows: bool, world: seq<Iteration>): seq<Event> {
    Loop(StepOf(c, isWindows), world)
  }

  /** The turns the loop runs: all of them up to and including the first
      interrupted one. */
  function Ran(world: seq<Iteration>): (ran: seq<Iteration>)
    ensures ran <= world && (world != [] ==> ran != [])
    ensures forall k :: 0 <= k < |ran| - 1 ==> !ran[k].interrupted
    ensures |ran| < |world| ==> ran[|ran| - 1].interrupted
  {
    if world == [] then []
    else if world[0].interrupted then [world[0]]
    else [world[0]] + Ran(world[1..])
  }

  /** The reporting of one failure with the hook, as the loop body spells it
      out for each kind of failure. */
  method ReportToHook(config: Config, reason: string, details: string, it: Iteration) returns (events: seq<Event>)
    ensures events == HookEvents(config, reason, details, it)
  {
    events := [];
    if |config.hook| > 0 {
      var ctx := FailureContext(config, reason, details);
      var hookRes := RunHook(config.hook, ctx, it.timestamp, it.hookProc);
      if hookRes.call.Some? {
        events := events + [HookStarted(hookRes.call.value)];
      }
      if hookRes.result.Failure? {
        events := events + [Printed("Hook failed: " + MessageText(hookRes.result.error))];
      } else {
        events := events + [Printed("Hook executed successfully")];
      }
    }
  }

  /** A failure's line followed by the hook's events. */
  method ReportFailure(config: Config, line: string, reason: string, details: string, it: Iteration)
    returns (report: seq<Event>)
    ensures report == [Printed(line)] + HookEvents(config, reason, details, it)
  {
    report := [Printed(line)];
    var hookEvents := ReportToHook(config, reason, details, it);
    report := report + hookEvents;
  }

  /** How the loop body reports the probe's result. */
  method ReportResult(config: Config, it: Iteration) returns (report: seq<Event>)
    ensures report == Report(config, it)
  {
    var result := RunOnce(it.probe);
    match result {
      case Success(_) =>
        report := [];
      case Timeout(m) =>
        report := ReportFailure(config, "TIMEOUT - " + m, "timeout", m, it);
      case Error(m) =>
        report := ReportFailure(config, "ERROR - " + m, "error", m, it);
    }
  }

  /** One pass through the body of the loop of `main`. */
  method RunTurn(config: Config, isWindows: bool, it: Iteration) returns (events: seq<Event>)
    requires IntervalIsValid(config)
    ensures events == StepOf(config, isWindows)(it)
  {
    var loopIntervalSeconds := config.intervalSeconds.GetOr(DEFAULT_INTERVAL_SECONDS);
    var cmd := BuildPingCommand(config, isWindows);
    var timeout := config.timeoutMillis.GetOr(DEFAULT_TIMEOUT_MILLIS);
    var head := [Probed(cmd, WaitSeconds(timeout))];
    var report := ReportResult(config, it);
    var pause := [Slept(loopIntervalSeconds as int * 1000)];
    if it.interrupted {
      pause := pause + [Printed("Interrupted, exiting")];
    }
    assert pause == Pause(config, it);
    events := head + report + pause;
  }

  /** The events of running the given turns one after the other. */
  function Turns(step: Iteration -> seq<Event>, ran: seq<Iteration>): seq<Event>
    decreases |ran|
  {
    if ran == [] then [] else Turns(step, ran[..|ran| - 1]) + step(ran[|ran| - 1])
  }

  lemma {:induction false} TurnsCons(step: Iteration -> seq<Event>, it: Iteration, ran: seq<Iteration>)
    ensures Turns(step, [it] + ran) == step(it) + Turns(step, ran)
    decreases |ran|
  {
    if ran == [] {
      assert [it] + ran == [it];
      assert [it][..0] == [];
    } else {
      assert ([it] + ran)[..|ran|] == [it] + ran[..|ran| - 1];
      TurnsCons(step, it, ran[..|ran| - 1]);
    }
  }

  /** The loop's events are those of the turns it runs. */
  lemma {:induction false} LoopIsTurnsOfRan(step: Iteration -> seq<Event>, world: seq<Iteration>)
    ensures Loop(step, world) == Turns(step, Ran(world))
  {
    if world != [] {
      if world[0].interrupted {
        TurnsCons(step, world[0], []);
      } else {
        LoopIsTurnsOfRan(step, world[1..]);
        TurnsCons(step, world[0], Ran(world[1..]));
      }
    }
  }

  /** A prefix that ends at the first interrupted turn, or takes every turn
      when none is interrupted, is what the loop runs. */
  lemma {:induction false} RanIsPrefix(world: seq<Iteration>, n: nat)
    requires n <= |world|
    requires forall k :: 0 <= k < n - 1 ==> !world[k].interrupted
    requires n == |world| || (n >= 1 && world[n - 1].interrupted)
    requires n == 0 ==> world == []
    ensures Ran(world) == world[..n]
  {
    if world != [] && !world[0].interrupted {
      RanIsPrefix(world[1..], n - 1);
      assert world[..n] == [world[0]] + world[1..][..n - 1];
    } else if world != [] {
      assert n == 1;
    }
  }

  /** After `i` turns of a loop that stops after an interrupted sleep: no
      turn before the last is interrupted, the last is exactly when the loop
      has exited. */
  predicate Progress(world: seq<Iteration>, i: nat, exited: bool) {
    && i <= |world|
    && (exited ==> 0 < i && world[i - 1].interrupted)
    && (forall k :: 0 <= k < i - 1 ==> !world[k].interrupted)
    && (!exited ==> forall k :: 0 <= k < i ==> !world[k].interrupted)
  }

  /** Running turn `i` of a loop that has not exited keeps its progress. */
  lemma ProgressStep(world: seq<Iteration>, i: nat)
    requires Progress(world, i, false) && i < |world|
    ensures Progress(world, i + 1, world[i].interrupted)
  {
  }

  /** Where a loop that stops after an interrupted turn, or at the end of
      the turns, has come to when it stops. */
  lemma LoopExit(step: Iteration -> seq<Event>, world: seq<Iteration>, i: nat, exited: bool)
    requires Progress(world, i, exited) && (exited || i == |world|)
    ensures Turns(step, world[..i]) == Loop(step, world)
    ensures exited <==> exists k :: 0 <= k < |world| && world[k].interrupted
  {
    RanIsPrefix(world, i);
    LoopIsTurnsOfRan(step, world);
    if exited {
      assert world[i - 1].interrupted;
    }
  }

  /** Running one more turn adds its events at the end. */
  lemma TurnsSnoc(step: Iteration -> seq<Event>, world: seq<Iteration>, i: nat)
    requires i < |world|
    ensures Turns(step, world[..i + 1]) == Turns(step, world[..i]) + step(world[i])
  {
    assert world[..i + 1][..i] == world[..i];
  }

  /** Turn `i` of the loop, its events added to those of the turns before it. */
  method AppendTurn(config: Config, isWindows: bool, world: seq<Iteration>, i: nat, trace: seq<Event>)
    returns (trace': seq<Event>)
    requires IntervalIsValid(config) && i < |world|
    requires trace == Turns(StepOf(config, isWindows), world[..i])
    ensures trace' == Turns(StepOf(config, isWindows), world[..i + 1])
  {
    var events := RunTurn(config, isWindows, world[i]);
    trace' := trace + events;
    TurnsSnoc(StepOf(config, isWindows), world, i);
  }

  /** The `while (true)` loop of `main`, over the given turns. */
  method RunLoop(config: Config, isWindows: bool, world: seq<Iteration>) returns (trace: seq<Event>, exited: bool)
    requires IntervalIsValid(config)
    ensures trace == Trace(config, isWindows, world)
    ensures exited <==> exists k :: 0 <= k < |world| && world[k].interrupted
  {
    trace := [];
    exited := false;
    var i := 0;
    while i < |world| && !exited
      invariant Progress(world, i, exited)
      invariant trace == Turns(StepOf(config, isWindows), world[..i])
      decreases |world| - i
    {
      trace := AppendTurn(config, isWindows, world, i, trace);
      ProgressStep(world, i);
      exited := world[i].interrupted;
      i := i + 1;
    }
    LoopExit(StepOf(config, isWindows), world, i, exited);
  }

  /** `main`: a configuration that does not parse ends the program with
      status 2 before anything else happens; otherwise the program announces
      its target and loops, ending with status 0 once interrupted and still
      running (no status) at the end of the given turns otherwise. */
  method RunProgram(opts: RawOptions, isWindows: bool, world: seq<Iteration>) returns (status: Option<int>, output: seq<Event>)
    ensures ParseArgs(opts).Failure? ==>
              status == Some(2) && output == [Printed("Error parsing args: " + ParseArgs(opts).error)]
    ensures ParseArgs(opts).Success? ==>
              && output == [Printed("Starting ping-forever for target=" + opts.target)]
                           + Trace(ParseArgs(opts).value, isWindows, world)
              && (status == Some(0) <==> exists k :: 0 <= k < |world| && world[k].interrupted)
              && (status.None? <==> forall k :: 0 <= k < |world| ==> !world[k].interrupted)
  {
    var parsed := ParseArgs(opts);
    if parsed.Failure? {
      return Some(2), [Printed("Error parsing args: " + parsed.error)];
    }
    var config := parsed.value;
    output := [Printed("Starting ping-forever for target=" + config.target)];
    var trace, exited := RunLoop(config, isWindows, world);
    output := output + trace;
    status := if exited then Some(0) else None;
  }

  // ---------------------------------------------------------------------
  // Properties of the loop
  // ---------------------------------------------------------------------

  /** The number of events satisfying `p`. */
  function CountOf(evs: seq<Event>, p: Event -> bool): (n: nat)
    ensures n <= |evs|
  {
    if evs == [] then 0 else (if p(evs[0]) then 1 else 0) + CountOf(evs[1..], p)
  }

  lemma {:induction false} CountOfAppend(a: seq<Event>, b: seq<Event>, p: Event -> bool)
    ensures CountOf(a + b, p) == CountOf(a, p) + CountOf(b, p)
  {
    if a == [] {
      assert a + b == b;
    } else {
      assert (a + b)[1..] == a[1..] + b;
      CountOfAppend(a[1..], b, p);
    }
  }

  predicate IsProbe(e: Event) { e.Probed? }
  predicate IsHookStart(e: Event) { e.HookStarted? }

  /** A turn whose probe failed and which starts the hook process. */
  predicate StartsHook(c: Config, it: Iteration) {
    !RunOnce(it.probe).Success? && c.hook != [] && !it.hookProc.StartFailed?
  }

  function CountTurns(world: seq<Iteration>, c: Config): nat {
    if world == [] then 0 else (if StartsHook(c, world[0]) then 1 else 0) + CountTurns(world[1..], c)
  }

  lemma HookEventsCounts(c: Config, reason: string, details: string, it: Iteration)
    ensures CountOf(HookEvents(c, reason, details, it), IsProbe) == 0
    ensures CountOf(HookEvents(c, reason, details, it), IsHookStart)
            == if c.hook != [] && !it.hookProc.StartFailed? then 1 else 0
  {
    if c.hook != [] {
      var run := RunHook(c.hook, FailureContext(c, reason, details), it.timestamp, it.hookProc);
      var started := if run.call.Some? then [HookStarted(run.call.value)] else [];
      var line := [Printed(if run.result.Failure? then "Hook failed: " + MessageText(run.result.error)
                           else "Hook executed successfully")];
      assert HookEvents(c, reason, details, it) == started + line;
      CountOfAppend(started, line, IsProbe);
      CountOfAppend(started, line, IsHookStart);
    }
  }

  lemma ReportCounts(c: Config, it: Iteration)
    ensures CountOf(Report(c, it), IsProbe) == 0
    ensures CountOf(Report(c, it), IsHookStart) == if StartsHook(c, it) then 1 else 0
  {
    match RunOnce(it.probe)
    case Success(_) =>
    case Timeout(m) =>
      HookEventsCounts(c, "timeout", m, it);
      CountOfAppend([Printed("TIMEOUT - " + m)], HookEvents(c, "timeout", m, it), IsProbe);
      CountOfAppend([Printed("TIMEOUT - " + m)], HookEvents(c, "timeout", m, it), IsHookStart);
    case Error(m) =>
      HookEventsCounts(c, "error", m, it);
      CountOfAppend([Printed("ERROR - " + m)], HookEvents(c, "error", m, it), IsProbe);
      CountOfAppend([Printed("ERROR - " + m)], HookEvents(c, "error", m, it), IsHookStart);
  }

  /** One turn probes once and starts the hook at most once: exactly when the
      probe failed, a hook command is configured and the process started. */
  lemma StepCounts(c: Config, isWindows: bool, it: Iteration)
    ensures CountOf(Step(c, isWindows, it), IsProbe) == 1
    ensures CountOf(Step(c, isWindows, it), IsHookStart) == if StartsHook(c, it) then 1 else 0
  {
    var probe := [Probed(PingCommand(isWindows, c), ProbeWaitSeconds(c))];
    ReportCounts(c, it);
    CountOfAppend(probe, Report(c, it), IsProbe);
    CountOfAppend(probe, Report(c, it), IsHookStart);
    CountOfAppend(probe + Report(c, it), Pause(c, it), IsProbe);
    CountOfAppend(probe + Report(c, it), Pause(c, it), IsHookStart);
  }

  /** The events satisfying `p` over the given turns, turn by turn. */
  function CountPerTurn(step: Iteration -> seq<Event>, ran: seq<Iteration>, p: Event -> bool): nat {
    if ran == [] then 0 else CountOf(step(ran[0]), p) + CountPerTurn(step, ran[1..], p)
  }

  /** The loop's events counted turn by turn over the turns it runs. */
  lemma {:induction false} LoopCount(step: Iteration -> seq<Event>, world: seq<Iteration>, p: Event -> bool)
    ensures CountOf(Loop(step, world), p) == CountPerTurn(step, Ran(world), p)
  {
    if world != [] {
      var rest := if world[0].interrupted then [] else Loop(step, world[1..]);
      CountOfAppend(step(world[0]), rest, p);
      if !world[0].interrupted {
        LoopCount(step, world[1..], p);
        assert Ran(world)[1..] == Ran(world[1..]);
      } else {
        assert Ran(world)[1..] == [];
      }
    }
  }

  lemma {:induction false} ProbesPerTurn(c: Config, isWindows: bool, ran: seq<Iteration>)
    ensures CountPerTurn(StepOf(c, isWindows), ran, IsProbe) == |ran|
  {
    if ran != [] {
      StepCounts(c, isWindows, ran[0]);
      ProbesPerTurn(c, isWindows, ran[1..]);
    }
  }

  lemma {:induction false} HookStartsPerTurn(c: Config, isWindows: bool, ran: seq<Iteration>)
    ensures CountPerTurn(StepOf(c, isWindows), ran, IsHookStart) == CountTurns(ran, c)
  {
    if ran != [] {
      StepCounts(c, isWindows, ran[0]);
      HookStartsPerTurn(c, isWindows, ran[1..]);
    }
  }

  /** The loop probes once per turn it runs and starts the hook once per run
      turn whose probe failed, when a hook is configured and its process
      started. */
  lemma TraceCounts(c: Config, isWindows: bool, world: seq<Iteration>)
    ensures CountOf(Trace(c, isWindows, world), IsProbe) == |Ran(world)|
    ensures CountOf(Trace(c, isWindows, world), IsHookStart) == CountTurns(Ran(world), c)
  {
    LoopCount(StepOf(c, isWindows), world, IsProbe);
    LoopCount(StepOf(c, isWindows), world, IsHookStart);
    ProbesPerTurn(c, isWindows, Ran(world));
    HookStartsPerTurn(c, isWindows, Ran(world));
  }

  /** A report holds lines and hook starts only. */
  lemma ReportKinds(c: Config, it: Iteration)
    ensures forall e <- Report(c, it) :: e.Printed? || e.HookStarted?
  {
    match RunOnce(it.probe)
    case Success(_) =>
    case Timeout(m) =>
      assert Report(c, it) == [Printed("TIMEOUT - " + m)] + HookEvents(c, "timeout", m, it);
    case Error(m) =>
      assert Report(c, it) == [Printed("ERROR - " + m)] + HookEvents(c, "error", m, it);
  }

  /** A probe of the configured command with the configured wait, or a sleep
      of the configured pause, or any other event. */
  predicate Uniform(c: Config, isWindows: bool, e: Event) {
    && (e.Probed? ==> e.command == PingCommand(isWindows, c) && e.waitSeconds == ProbeWaitSeconds(c))
    && (e.Slept? ==> e.millis == SleepMillis(c) && e.millis >= 0)
  }

  /** One turn probes with the configured command and wait and sleeps for
      the configured pause. */
  lemma StepIsUniform(c: Config, isWindows: bool, it: Iteration)
    requires IntervalIsValid(c)
    ensures forall e <- Step(c, isWindows, it) :: Uniform(c, isWindows, e)
  {
    ReportKinds(c, it);
    var probe := [Probed(PingCommand(isWindows, c), ProbeWaitSeconds(c))];
    assert Step(c, isWindows, it) == probe + Report(c, it) + Pause(c, it);
  }

  /** Every probe runs the same command with the same wait and every sleep
      lasts the same, one second per interval second (one second by
      default). */
  lemma {:induction false} TraceIsUniform(c: Config, isWindows: bool, world: seq<Iteration>)
    requires IntervalIsValid(c)
    ensures forall e <- Trace(c, isWindows, world) :: Uniform(c, isWindows, e)
  {
    if world != [] {
      StepIsUniform(c, isWindows, world[0]);
      TraceIsUniform(c, isWindows, world[1..]);
      var rest := if world[0].interrupted then [] else Trace(c, isWindows, world[1..]);
      assert Trace(c, isWindows, world) == Step(c, isWindows, world[0]) + rest;
    }
  }

  /** When every probe succeeds the program prints nothing but, at the end,
      that it was interrupted, and never starts the hook. */
  lemma {:induction false} QuietWhileReachable(c: Config, isWindows: bool, world: seq<Iteration>)
    requires forall it <- world :: it.probe.Exited? && it.probe.exitCode == 0
    ensures forall e <- Trace(c, isWindows, world) ::
              !e.HookStarted? && (e.Printed? ==> e.line == "Interrupted, exiting")
  {
    if world != [] {
      QuietWhileReachable(c, isWindows, world[1..]);
    }
  }

  /** A started hook comes first among the hook's events. */
  lemma HookEventsStart(c: Config, reason: string, details: string, it: Iteration)
    requires c.hook != [] && !it.hookProc.StartFailed?
    ensures HookEvents(c, reason, details, it)[0]
            == HookStarted(HookCall(c.hook, it.timestamp, FailureContext(c, reason, details), HOOK_WAIT_SECONDS))
  {
  }

  /** Each started hook is given the configured command, the turn's clock
      reading, the target, the reason ("timeout" or "error", as the probe was
      classified) with the failure's message as details, and a minute. */
  lemma StepHookCall(c: Config, isWindows: bool, it: Iteration)
    requires StartsHook(c, it)
    ensures var r := RunOnce(it.probe);
            var reason := if r.Timeout? then "timeout" else "error";
            HookStarted(HookCall(c.hook, it.timestamp, FailureContext(c, reason, r.message), HOOK_WAIT_SECONDS))
            in Step(c, isWindows, it)
  {
    var r := RunOnce(it.probe);
    var reason := if r.Timeout? then "timeout" else "error";
    var call := HookCall(c.hook, it.timestamp, FailureContext(c, reason, r.message), HOOK_WAIT_SECONDS);
    HookEventsStart(c, reason, r.message, it);
    var line := [Printed((if r.Timeout? then "TIMEOUT - " else "ERROR - ") + r.message)];
    assert Report(c, it) == line + HookEvents(c, reason, r.message, it);
    assert Report(c, it)[1] == HookStarted(call);
    var probe := [Probed(PingCommand(isWindows, c), ProbeWaitSeconds(c))];
    assert Step(c, isWindows, it) == probe + Report(c, it) + Pause(c, it);
    assert Step(c, isWindows, it)[2] == HookStarted(call);
  }

  /** The payload of a failure hook reads back as the clock reading followed
      by the target, the reason and the details, all three as strings, when
      the clock reading holds no quote and the target and details hold no
      backslash. */
  lemma FailurePayload(c: Config, timestamp: string, reason: string, details: string)
    requires '"' !in timestamp && '\\' !in c.target && '\\' !in reason && '\\' !in details
    ensures ReadContextJson(Stdin(HookCall(c.hook, timestamp, FailureContext(c, reason, details), HOOK_WAIT_SECONDS)))
            == Some((timestamp, [Entry("target", Str(c.target)), Entry("reason", Str(reason)),
                                 Entry("details", Str(details))]))
  {
    var ctx := FailureContext(c, reason, details);
    ContextJsonRoundTrip(timestamp, ctx);
    assert DecodedEntries(ctx) == ctx;
  }
}
