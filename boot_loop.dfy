/**
 * The boot-test control loop and the main program of `boot_test_loop.py`.
 *
 * Everything the loop gets from outside is an input, in `Env`: the rendered
 * clock readings, the results of the two remote metric commands (None when
 * the SSH connection fails), the result of fetching the logs (None when the
 * connection fails, Some(lines of sky-messages.log) otherwise) and the local
 * copy of sky-messages.log left before the run (None when there is none).
 * The loop produces a trace of events, the lines written to the bootmetrics
 * file and an outcome.
 */
module BootLoop {
  import opened Wrappers
  import opened EpgDetector
  import opened PowerSwitch
  import opened MetricsLog
  import opened Arguments

  datatype Event =
    | Stamp                    // timestamp line appended
    | PowerOn(url: string)     // switch(..., 'on')
    | Analyze(host: string, command: string)  // systemd-analyze run over SSH on `host`, result stored
    | Probe(host: string, command: string)    // shell command run over SSH on `host`, result stored
    | Fetch(host: string, fetched: bool)      // logs copied from `host` (false: connection failed, local copies untouched)
    | Check(found: bool)       // check_for_epg on the local sky-messages.log
    | PowerOff(url: string)    // switch(..., 'off')
    | Halt                     // exit() after a failed check, unit left on

  /** Uncaught exceptions that end a run: `sleep` of a negative time, or no local log to open. */
  datatype Crash = NegativeSleep | LogMissing

  datatype Outcome =
    | Usage                                  // fewer than two argv entries: usage text only
    | BadArguments(error: ArgError)          // argument parsing raised
    | Completed                              // every iteration passed
    | Halted(iteration: nat)                 // check failed in this iteration
    | Crashed(iteration: nat, reason: Crash)

  /** The collaborators of the loop, as answers indexed by iteration. */
  datatype Env = Env(
    startTime: string,
    clock: nat -> string,
    analyze: nat -> Option<seq<string>>,
    probe: nat -> Option<seq<string>>,
    fetch: nat -> Option<seq<string>>,
    priorLog: Option<seq<string>>)

  /** What a run does: its events, the bootmetrics lines, how it ends. */
  datatype Trace = Trace(events: seq<Event>, lines: seq<string>, outcome: Outcome)

  /** What one iteration does, the local log after it, and the outcome if it ends the run. */
  datatype Step = Step(events: seq<Event>, lines: seq<string>, log: Option<seq<string>>, stop: Option<Outcome>)

  /** The command `get_systemd_analyze_metrics` runs for the service the loop passes, the empty one. */
  const AnalyzeService: string := ""
  const AnalyzeCommand: string := "systemd-analyze " + AnalyzeService

  /** The command of the loop's second metric: the EPG's completion lines in the unit's own sky-messages.log. */
  const ProbeCommand: string := "cat /opt/logs/sky-messages.log | grep SpectrumBarGadget | grep complete"

  /** `range(loops)` has no elements for a negative count. */
  function Iterations(loops: int): (n: nat)
    ensures loops >= 0 ==> n == loops
    ensures loops <= 0 ==> n == 0
  {
    if loops < 0 then 0 else loops
  }

  /** What `check_for_epg` makes of the local log: no file to open, marker found, marker absent. */
  datatype Verdict = NoLog | Found | NotFound

  ghost function Judge(log: Option<seq<string>>): (v: Verdict)
    ensures v == NoLog <==> log.None?
    ensures v == Found <==> log.Some? && HasMarker(log.value)
  {
    if log.None? then NoLog else if HasMarker(log.value) then Found else NotFound
  }

  /** The events of an iteration that gets past its boot wait. */
  function Cycle(onUrl: string, offUrl: string, host: string, fetched: bool, verdict: Verdict): seq<Event> {
    Head(onUrl, host, fetched) + Finish(offUrl, verdict)
  }

  /** The events up to the fetch: timestamp, power on, then the three SSH sessions with the unit at `host`. */
  function Head(onUrl: string, host: string, fetched: bool): seq<Event> {
    [Stamp, PowerOn(onUrl), Analyze(host, AnalyzeCommand), Probe(host, ProbeCommand), Fetch(host, fetched)]
  }

  /** The events after the fetch: none when `check_for_epg` raises, else the check and the off or the exit. */
  function Finish(offUrl: string, verdict: Verdict): seq<Event> {
    match verdict
    case NoLog => []
    case NotFound => [Check(false), Halt]
    case Found => [Check(true), PowerOff(offUrl)]
  }

  /** How a verdict ends the run, if it does. */
  function StopOf(x: nat, verdict: Verdict): Option<Outcome> {
    match verdict
    case NoLog => Some(Crashed(x, LogMissing))
    case NotFound => Some(Halted(x))
    case Found => None
  }

  /** The lines iteration `x` appends once past its boot wait: its timestamp, the analyzer's lines, the probe's. */
  ghost function Block(env: Env, x: nat): seq<string> {
    [StampLine(env.clock(x))] + Entries(env.analyze(x)) + Entries(env.probe(x))
  }

  /** The local log after a fetch: the fetched copy, or the old one when the connection failed. */
  function AfterFetch(fetched: Option<seq<string>>, log: Option<seq<string>>): (r: Option<seq<string>>)
    ensures fetched.Some? ==> r == fetched
    ensures r != fetched ==> r == log
    ensures r.None? <==> fetched.None? && log.None?
  {
    if fetched.Some? then fetched else log
  }

  /** Reference definition of iteration `x`, with `log` the local copy of sky-messages.log before it. */
  ghost function Iterate(cfg: Config, env: Env, x: nat, log: Option<seq<string>>): (step: Step)
    ensures |step.events| >= 2 && step.events[0] == Stamp && step.events[1] == PowerOn(SwitchUrl(cfg.switchIp, "on"))
    ensures step.lines != [] && step.lines[0] == StampLine(env.clock(x))
    ensures step.stop.None? <==> cfg.waitForFullBoot >= 0 && Judge(AfterFetch(env.fetch(x), log)) == Found
    ensures step.stop.Some? ==> step.stop.value == Halted(x) || (step.stop.value.Crashed? && step.stop.value.iteration == x)
  {
    var onUrl := SwitchUrl(cfg.switchIp, "on");
    if cfg.waitForFullBoot < 0 then
      Step([Stamp, PowerOn(onUrl)], [StampLine(env.clock(x))], log, Some(Crashed(x, NegativeSleep)))
    else
      var snapshot := AfterFetch(env.fetch(x), log);
      var verdict := Judge(snapshot);
      Step(Cycle(onUrl, SwitchUrl(cfg.switchIp, "off"), cfg.platformIp, env.fetch(x).Some?, verdict),
           Block(env, x), snapshot, StopOf(x, verdict))
  }

  /** `t` preceded by some events and lines. */
  function Then(events: seq<Event>, lines: seq<string>, t: Trace): Trace {
    Trace(events + t.events, lines + t.lines, t.outcome)
  }

  /** Reference definition of the loop from iteration `x` on. */
  ghost function RunLoop(cfg: Config, env: Env, x: nat, log: Option<seq<string>>): (t: Trace)
    ensures x >= Iterations(cfg.loops) ==> t == Trace([], [], Completed)
    ensures t.outcome.Completed? || t.outcome.Halted? || t.outcome.Crashed?
    ensures t.outcome.Halted? ==> x <= t.outcome.iteration < Iterations(cfg.loops)
    ensures t.outcome.Crashed? ==> x <= t.outcome.iteration < Iterations(cfg.loops)
    decreases Iterations(cfg.loops) - x
  {
    if x >= Iterations(cfg.loops) then Trace([], [], Completed)
    else
      var step := Iterate(cfg, env, x, log);
      if step.stop.Some? then Trace(step.events, step.lines, step.stop.value)
      else Then(step.events, step.lines, RunLoop(cfg, env, x + 1, step.log))
  }

  /** Running the loop from `x` is running iteration `x` and, when it does not end the run, the rest. */
  lemma RunLoopUnfold(cfg: Config, env: Env, x: nat, log: Option<seq<string>>)
    requires x < Iterations(cfg.loops)
    ensures var step := Iterate(cfg, env, x, log);
      RunLoop(cfg, env, x, log)
        == if step.stop.Some? then Trace(step.events, step.lines, step.stop.value)
           else Then(step.events, step.lines, RunLoop(cfg, env, x + 1, step.log))
  {
  }

  lemma ThenThen(e1: seq<Event>, l1: seq<string>, e2: seq<Event>, l2: seq<string>, t: Trace)
    ensures Then(e1, l1, Then(e2, l2, t)) == Then(e1 + e2, l1 + l2, t)
  {
    assert e1 + (e2 + t.events) == (e1 + e2) + t.events;
    assert l1 + (l2 + t.lines) == (l1 + l2) + t.lines;
  }

  /**
   * Regrouping the file's lines after an iteration appends its own. Called as
   * a lemma, rather than asserted in place, it keeps the loop's proof small.
   */
  lemma AppendAssoc3(p: seq<string>, a: seq<string>, b: seq<string>)
    ensures p + (a + b) == p + a + b
  {
  }

  /** One pass of the test loop's body, with `log` the local sky-messages.log before it. */
  method Iteration(cfg: Config, env: Env, x: nat, log: Option<seq<string>>, file: MetricsFile)
    returns (events: seq<Event>, next: Option<seq<string>>, stop: Option<Outcome>)
    modifies file
    ensures var step := Iterate(cfg, env, x, log);
      events == step.events && next == step.log && stop == step.stop && file.lines == old(file.lines) + step.lines
  {
    var onUrl := SwitchUrl(cfg.switchIp, "on");
    file.TimestampMetrics(env.clock(x));
    if cfg.waitForFullBoot < 0 {
      return [Stamp, PowerOn(onUrl)], log, Some(Crashed(x, NegativeSleep));
    }
    var analyzed := env.analyze(x);
    file.StoreMetrics(analyzed);
    var probed := env.probe(x);
    file.StoreMetrics(probed);
    assert old(file.lines) + [StampLine(env.clock(x))] + Entries(analyzed) + Entries(probed)
        == old(file.lines) + Block(env, x);
    var fetched := env.fetch(x);
    next := log;
    if fetched.Some? {
      next := fetched;
    }
    var verdict;
    if next.None? {
      verdict := NoLog;
    } else {
      var found := CheckForEpg(next.value);
      verdict := if found == 1 then Found else NotFound;
    }
    events := Cycle(onUrl, SwitchUrl(cfg.switchIp, "off"), cfg.platformIp, fetched.Some?, verdict);
    stop := StopOf(x, verdict);
  }

  /** The test loop: appends to `file` and returns the events and how the run ended. */
  method BootTestLoop(cfg: Config, env: Env, file: MetricsFile) returns (events: seq<Event>, outcome: Outcome)
    modifies file
    ensures var t := RunLoop(cfg, env, 0, env.priorLog);
      events == t.events && outcome == t.outcome && file.lines == old(file.lines) + t.lines
  {
    var log := env.priorLog;
    events := [];
    ghost var written: seq<string> := [];
    for x := 0 to Iterations(cfg.loops)
      invariant file.lines == old(file.lines) + written
      invariant RunLoop(cfg, env, 0, env.priorLog) == Then(events, written, RunLoop(cfg, env, x, log))
    {
      RunLoopUnfold(cfg, env, x, log);
      ghost var lines := Iterate(cfg, env, x, log).lines;
      var stepEvents, next, stop := Iteration(cfg, env, x, log, file);
      AppendAssoc3(old(file.lines), written, lines);
      if stop.Some? {
        events, written := events + stepEvents, written + lines;
        outcome := stop.value;
        return;
      }
      ThenThen(events, written, stepEvents, lines, RunLoop(cfg, env, x + 1, next));
      events, written, log := events + stepEvents, written + lines, next;
    }
    outcome := Completed;
  }

  /** Reference definition of the whole program; `prior` is what the bootmetrics file held before. */
  ghost function Program(argv: seq<string>, env: Env, prior: seq<string>): (t: Trace)
    ensures t.outcome == Usage <==> |argv| < 2
    ensures t.outcome.BadArguments? <==> |argv| >= 2 && ParseFrom(argv, 1, Defaults()).Err?
    ensures t.outcome.Usage? || t.outcome.BadArguments? ==> t.events == [] && t.lines == prior
    ensures !t.outcome.Usage? && !t.outcome.BadArguments? ==> t.lines != [] && t.lines[0] == HeaderLine(env.startTime)
  {
    if |argv| < 2 then Trace([], prior, Usage)
    else
      match ParseFrom(argv, 1, Defaults())
      case Err(e) => Trace([], prior, BadArguments(e))
      case Ok(cfg) =>
        var t := RunLoop(cfg, env, 0, env.priorLog);
        Trace(t.events, [HeaderLine(env.startTime)] + t.lines, t.outcome)
  }

  /** The main program: usage text, or parse the arguments, truncate the file and run the loop. */
  method Run(argv: seq<string>, env: Env, file: MetricsFile) returns (events: seq<Event>, outcome: Outcome)
    modifies file
    ensures var t := Program(argv, env, old(file.lines));
      events == t.events && outcome == t.outcome && file.lines == t.lines
  {
    if |argv| < 2 {
      return [], Usage;
    }
    var parsed := ParseArgs(argv);
    if parsed.Err? {
      return [], BadArguments(parsed.error);
    }
    file.Restart(env.startTime);
    events, outcome := BootTestLoop(parsed.value, env, file);
  }
}
