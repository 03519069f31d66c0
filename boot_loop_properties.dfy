/**
 * What the boot-test loop and the main program guarantee: power-cycle counts,
 * halting on the first failed check, the shape of the bootmetrics file, and
 * the order of the steps inside every iteration.
 */
module BootLoopProperties {
  import opened Wrappers
  import opened EpgDetector
  import opened PowerSwitch
  import opened MetricsLog
  import opened Arguments
  import opened BootLoop

  // ---- the local log as the iterations see it -------------------------------

  /** The local sky-messages.log right after iteration `x` fetched (or failed to fetch) the logs. */
  ghost function Snapshot(env: Env, x: nat): Option<seq<string>>
    decreases x
  {
    AfterFetch(env.fetch(x), Before(env, x))
  }

  /** The local sky-messages.log when iteration `x` starts. */
  ghost function Before(env: Env, x: nat): Option<seq<string>>
    decreases x, 0
  {
    if x == 0 then env.priorLog else Snapshot(env, x - 1)
  }

  /** The check of iteration `x` finds the EPG marker. */
  ghost predicate Passes(env: Env, x: nat) {
    Judge(Snapshot(env, x)) == Found
  }

  // ---- power events -----------------------------------------------------------

  /** The power requests of a trace, in order: true for on, false for off. */
  function PowerTrace(events: seq<Event>): (r: seq<bool>)
  {
    if events == [] then [] else PowerOf(events[0]) + PowerTrace(events[1..])
  }

  /** The power request an event stands for, if any. */
  function PowerOf(e: Event): (r: seq<bool>)
  {
    match e
    case PowerOn(_) => [true]
    case PowerOff(_) => [false]
    case _ => []
  }

  lemma {:induction false} PowerTraceAppend(a: seq<Event>, b: seq<Event>)
    ensures PowerTrace(a + b) == PowerTrace(a) + PowerTrace(b)
  {
    if a != [] {
      assert (a + b)[0] == a[0];
      assert (a + b)[1..] == a[1..] + b;
      PowerTraceAppend(a[1..], b);
      assert PowerOf(a[0]) + (PowerTrace(a[1..]) + PowerTrace(b)) == PowerOf(a[0]) + PowerTrace(a[1..]) + PowerTrace(b);
    } else {
      assert a + b == b;
    }
  }

  lemma PowerTraceCons(e: Event, es: seq<Event>)
    ensures PowerTrace([e] + es) == PowerOf(e) + PowerTrace(es)
  {
    assert ([e] + es)[0] == e;
    assert ([e] + es)[1..] == es;
  }

  /** Up to the fetch, an iteration requests power on once. */
  lemma CycleHeadPower(onUrl: string, host: string, fetched: bool)
    ensures PowerTrace(Head(onUrl, host, fetched)) == [true]
  {
    var a, p, f := Analyze(host, AnalyzeCommand), Probe(host, ProbeCommand), Fetch(host, fetched);
    PowerTraceCons(f, []);
    PowerTraceCons(p, [f]);
    PowerTraceCons(a, [p, f]);
    PowerTraceCons(PowerOn(onUrl), [a, p, f]);
    PowerTraceCons(Stamp, [PowerOn(onUrl), a, p, f]);
  }

  /** After the fetch, an iteration requests power off only when its check passes. */
  lemma FinishPower(offUrl: string, verdict: Verdict)
    ensures PowerTrace(Finish(offUrl, verdict)) == if verdict == Found then [false] else []
  {
    match verdict
    case NoLog =>
    case NotFound =>
      PowerTraceCons(Halt, []);
      PowerTraceCons(Check(false), [Halt]);
    case Found =>
      PowerTraceCons(PowerOff(offUrl), []);
      PowerTraceCons(Check(true), [PowerOff(offUrl)]);
  }

  /** An iteration that gets past its boot wait requests on, and off again only when its check passes. */
  lemma CyclePower(onUrl: string, offUrl: string, host: string, fetched: bool, verdict: Verdict)
    ensures PowerTrace(Cycle(onUrl, offUrl, host, fetched, verdict)) == if verdict == Found then [true, false] else [true]
  {
    CycleHeadPower(onUrl, host, fetched);
    FinishPower(offUrl, verdict);
    PowerTraceAppend(Head(onUrl, host, fetched), Finish(offUrl, verdict));
  }

  /** `n` power cycles: on, off, on, off, ... */
  function OnOff(n: nat): (r: seq<bool>)
    ensures |r| == 2 * n
  {
    if n == 0 then [] else [true, false] + OnOff(n - 1)
  }

  /** In `n` cycles the requests alternate, starting with on. */
  lemma {:induction false} OnOffAlternates(n: nat, i: nat)
    requires i < 2 * n
    ensures OnOff(n)[i] == (i % 2 == 0)
  {
    if i >= 2 {
      OnOffAlternates(n - 1, i - 2);
      assert OnOff(n)[i] == OnOff(n - 1)[i - 2];
    }
  }

  /** One more cycle in front of `m` cycles. */
  lemma CycleBefore(first: seq<Event>, rest: seq<Event>, m: nat)
    requires PowerTrace(first) == [true, false] && PowerTrace(rest) == OnOff(m)
    ensures PowerTrace(first + rest) == OnOff(m + 1)
  {
    PowerTraceAppend(first, rest);
  }

  /** How many entries of `bs` equal `b`. */
  function Count(bs: seq<bool>, b: bool): (c: nat)
    ensures c <= |bs|
  {
    if bs == [] then 0 else (if bs[0] == b then 1 else 0) + Count(bs[1..], b)
  }

  lemma {:induction false} CountAppend(a: seq<bool>, b: seq<bool>, v: bool)
    ensures Count(a + b, v) == Count(a, v) + Count(b, v)
  {
    if a != [] {
      assert (a + b)[0] == a[0];
      assert (a + b)[1..] == a[1..] + b;
      CountAppend(a[1..], b, v);
    } else {
      assert a + b == b;
    }
  }

  /** `n` cycles hold `n` on requests and `n` off requests. */
  lemma {:induction false} CountOnOff(n: nat)
    ensures Count(OnOff(n), true) == n && Count(OnOff(n), false) == n
  {
    if n > 0 {
      CountOnOff(n - 1);
      CountAppend([true, false], OnOff(n - 1), true);
      CountAppend([true, false], OnOff(n - 1), false);
    }
  }

  // ---- the bootmetrics lines --------------------------------------------------

  /** The blocks of iterations `x` up to, not including, `n`. */
  ghost function Blocks(env: Env, x: nat, n: nat): seq<string>
    decreases n - x
  {
    if x >= n then [] else Block(env, x) + Blocks(env, x + 1, n)
  }

  // ---- one iteration ------------------------------------------------------------

  /** An iteration that starts with the local log its predecessors left: what it does, by its check's verdict. */
  lemma IterationFacts(cfg: Config, env: Env, x: nat)
    requires cfg.waitForFullBoot >= 0
    ensures var verdict := Judge(Snapshot(env, x));
      Iterate(cfg, env, x, Before(env, x))
        == Step(Cycle(SwitchUrl(cfg.switchIp, "on"), SwitchUrl(cfg.switchIp, "off"), cfg.platformIp, env.fetch(x).Some?, verdict),
                Block(env, x), Before(env, x + 1), StopOf(x, verdict))
  {
  }

  // ---- the loop -------------------------------------------------------------------

  /** One more cycle, and one failed iteration after some cycles. */
  lemma CycleThenFailure(first: seq<Event>, rest: seq<Event>, m: nat)
    requires PowerTrace(first) == [true, false] && PowerTrace(rest) == OnOff(m) + [true]
    ensures PowerTrace(first + rest) == OnOff(m + 1) + [true]
  {
    PowerTraceAppend(first, rest);
  }

  /** A passing iteration `x`: the loop goes on to `x + 1` after one on/off cycle and one block. */
  lemma PassingIteration(cfg: Config, env: Env, x: nat)
    requires x < Iterations(cfg.loops) && cfg.waitForFullBoot >= 0 && Passes(env, x)
    ensures var first := Iterate(cfg, env, x, Before(env, x)).events;
      RunLoop(cfg, env, x, Before(env, x)) == Then(first, Block(env, x), RunLoop(cfg, env, x + 1, Before(env, x + 1)))
      && PowerTrace(first) == [true, false]
  {
    IterationFacts(cfg, env, x);
    CyclePower(SwitchUrl(cfg.switchIp, "on"), SwitchUrl(cfg.switchIp, "off"), cfg.platformIp, env.fetch(x).Some?, Found);
    RunLoopUnfold(cfg, env, x, Before(env, x));
  }

  /** A failing iteration `x` ends the run after one power-on and one block. */
  lemma FailingIteration(cfg: Config, env: Env, x: nat)
    requires x < Iterations(cfg.loops) && cfg.waitForFullBoot >= 0 && !Passes(env, x)
    ensures var t := RunLoop(cfg, env, x, Before(env, x));
      t.outcome == (if Snapshot(env, x).Some? then Halted(x) else Crashed(x, LogMissing))
      && PowerTrace(t.events) == [true]
      && t.lines == Block(env, x)
  {
    IterationFacts(cfg, env, x);
    var verdict := Judge(Snapshot(env, x));
    CyclePower(SwitchUrl(cfg.switchIp, "on"), SwitchUrl(cfg.switchIp, "off"), cfg.platformIp, env.fetch(x).Some?, verdict);
    RunLoopUnfold(cfg, env, x, Before(env, x));
  }

  /** After the last iteration the loop adds no event and no line and completes. */
  lemma LoopDone(cfg: Config, env: Env, x: nat)
    requires x >= Iterations(cfg.loops)
    ensures RunLoop(cfg, env, x, Before(env, x)) == Trace([], [], Completed)
  {
  }

  /** Every check from iteration `x` up to, not including, `k` passes. */
  ghost predicate PassUntil(env: Env, x: nat, k: nat)
    decreases k - x
  {
    x >= k || (Passes(env, x) && PassUntil(env, x + 1, k))
  }

  lemma {:induction false} PassUntilAll(env: Env, x: nat, k: nat)
    requires forall y :: x <= y < k ==> Passes(env, y)
    ensures PassUntil(env, x, k)
    decreases k - x
  {
    if x < k {
      assert Passes(env, x);
      PassUntilAll(env, x + 1, k);
    }
  }

  /** From iteration `x` on, the run completes after one on/off cycle per remaining iteration. */
  ghost predicate CyclesToEnd(cfg: Config, env: Env, x: nat)
    requires x <= Iterations(cfg.loops)
  {
    var t := RunLoop(cfg, env, x, Before(env, x));
    t.outcome == Completed && PowerTrace(t.events) == OnOff(Iterations(cfg.loops) - x)
  }

  /** A passing iteration adds one on/off cycle in front of what the rest of the loop does. */
  lemma OneMoreCycle(cfg: Config, env: Env, x: nat)
    requires x < Iterations(cfg.loops) && cfg.waitForFullBoot >= 0 && Passes(env, x)
    requires var rest := RunLoop(cfg, env, x + 1, Before(env, x + 1));
      rest.outcome == Completed && PowerTrace(rest.events) == OnOff(Iterations(cfg.loops) - x - 1)
    ensures var t := RunLoop(cfg, env, x, Before(env, x));
      t.outcome == Completed && PowerTrace(t.events) == OnOff(Iterations(cfg.loops) - x)
  {
    var first := Iterate(cfg, env, x, Before(env, x)).events;
    var rest := RunLoop(cfg, env, x + 1, Before(env, x + 1));
    PassingIteration(cfg, env, x);
    CycleBefore(first, rest.events, Iterations(cfg.loops) - x - 1);
  }

  lemma CyclesToEndStep(cfg: Config, env: Env, x: nat)
    requires x < Iterations(cfg.loops) && cfg.waitForFullBoot >= 0 && Passes(env, x)
    requires CyclesToEnd(cfg, env, x + 1)
    ensures CyclesToEnd(cfg, env, x)
  {
    OneMoreCycle(cfg, env, x);
  }

  lemma CyclesToEndDone(cfg: Config, env: Env, x: nat)
    requires x == Iterations(cfg.loops)
    ensures CyclesToEnd(cfg, env, x)
  {
    LoopDone(cfg, env, x);
  }

  /** When every check passes, the switch sees one on/off cycle per iteration and the run completes. */
  lemma {:induction false} AllPassPower(cfg: Config, env: Env, x: nat)
    requires x <= Iterations(cfg.loops)
    requires cfg.waitForFullBoot >= 0
    requires PassUntil(env, x, Iterations(cfg.loops))
    ensures CyclesToEnd(cfg, env, x)
    decreases Iterations(cfg.loops) - x
  {
    if x < Iterations(cfg.loops) {
      AllPassPower(cfg, env, x + 1);
      CyclesToEndStep(cfg, env, x);
    } else {
      CyclesToEndDone(cfg, env, x);
    }
  }

  /** From iteration `x` on, the loop appends the blocks of iterations `x` to `n - 1`. */
  ghost predicate BlocksTo(cfg: Config, env: Env, x: nat, n: nat) {
    RunLoop(cfg, env, x, Before(env, x)).lines == Blocks(env, x, n)
  }

  /** A passing iteration appends its block in front of what the rest of the loop appends. */
  lemma OneMoreBlock(cfg: Config, env: Env, x: nat, n: nat)
    requires x < Iterations(cfg.loops) && cfg.waitForFullBoot >= 0 && Passes(env, x)
    requires BlocksTo(cfg, env, x + 1, n)
    requires x < n
    ensures BlocksTo(cfg, env, x, n)
  {
    PassingIteration(cfg, env, x);
  }

  /** After the last iteration the loop appends nothing. */
  lemma NoMoreBlocks(cfg: Config, env: Env, x: nat)
    requires x >= Iterations(cfg.loops)
    ensures BlocksTo(cfg, env, x, Iterations(cfg.loops))
  {
    LoopDone(cfg, env, x);
  }

  /** The failing iteration appends its block and nothing follows it. */
  lemma LastBlock(cfg: Config, env: Env, k: nat)
    requires k < Iterations(cfg.loops) && cfg.waitForFullBoot >= 0 && !Passes(env, k)
    ensures BlocksTo(cfg, env, k, k + 1)
  {
    FailingIteration(cfg, env, k);
    assert Blocks(env, k, k + 1) == Block(env, k) + [];
  }

  /** When every check passes, every iteration appends its complete block. */
  lemma {:induction false} AllPassLines(cfg: Config, env: Env, x: nat)
    requires x <= Iterations(cfg.loops)
    requires cfg.waitForFullBoot >= 0
    requires PassUntil(env, x, Iterations(cfg.loops))
    ensures BlocksTo(cfg, env, x, Iterations(cfg.loops))
    decreases Iterations(cfg.loops) - x
  {
    if x < Iterations(cfg.loops) {
      AllPassLines(cfg, env, x + 1);
      OneMoreBlock(cfg, env, x, Iterations(cfg.loops));
    } else {
      NoMoreBlocks(cfg, env, x);
    }
  }

  /** How the run ends when iteration `k` is the first to fail: halted, or crashed for want of a log. */
  ghost function FailureOf(env: Env, k: nat): Outcome {
    if Snapshot(env, k).Some? then Halted(k) else Crashed(k, LogMissing)
  }

  /** From iteration `x` on, the run sees one on/off cycle per iteration before `k`, one more on, and ends in `k`. */
  ghost predicate CyclesToFailure(cfg: Config, env: Env, x: nat, k: nat)
    requires x <= k
  {
    var t := RunLoop(cfg, env, x, Before(env, x));
    t.outcome == FailureOf(env, k) && PowerTrace(t.events) == OnOff(k - x) + [true]
  }

  /** The failing iteration itself: one power-on, and the run ends there. */
  lemma FirstFailureAt(cfg: Config, env: Env, k: nat)
    requires k < Iterations(cfg.loops) && cfg.waitForFullBoot >= 0 && !Passes(env, k)
    ensures CyclesToFailure(cfg, env, k, k)
  {
    FailingIteration(cfg, env, k);
    assert OnOff(0) + [true] == [true];
  }

  /** A passing iteration adds one on/off cycle in front of a run that ends in a failed check. */
  lemma OneMoreCycleBeforeFailure(cfg: Config, env: Env, x: nat, o: Outcome, m: nat)
    requires x < Iterations(cfg.loops) && cfg.waitForFullBoot >= 0 && Passes(env, x)
    requires var rest := RunLoop(cfg, env, x + 1, Before(env, x + 1));
      rest.outcome == o && PowerTrace(rest.events) == OnOff(m) + [true]
    ensures var t := RunLoop(cfg, env, x, Before(env, x));
      t.outcome == o && PowerTrace(t.events) == OnOff(m + 1) + [true]
  {
    var first := Iterate(cfg, env, x, Before(env, x)).events;
    var rest := RunLoop(cfg, env, x + 1, Before(env, x + 1));
    PassingIteration(cfg, env, x);
    CycleThenFailure(first, rest.events, m);
  }

  lemma CyclesToFailureStep(cfg: Config, env: Env, x: nat, k: nat)
    requires x < k < Iterations(cfg.loops) && cfg.waitForFullBoot >= 0 && Passes(env, x)
    requires CyclesToFailure(cfg, env, x + 1, k)
    ensures CyclesToFailure(cfg, env, x, k)
  {
    var m: nat := k - x - 1;
    assert k - (x + 1) == m && k - x == m + 1;
    OneMoreCycleBeforeFailure(cfg, env, x, FailureOf(env, k), m);
  }

  /**
   * When the first failed check is in iteration `k`, the switch sees `k`
   * on/off cycles and then one more on, and the run ends in iteration `k`.
   */
  lemma {:induction false} FirstFailurePower(cfg: Config, env: Env, x: nat, k: nat)
    requires x <= k < Iterations(cfg.loops)
    requires cfg.waitForFullBoot >= 0
    requires PassUntil(env, x, k)
    requires !Passes(env, k)
    ensures CyclesToFailure(cfg, env, x, k)
    decreases k - x
  {
    if x < k {
      FirstFailurePower(cfg, env, x + 1, k);
      CyclesToFailureStep(cfg, env, x, k);
    } else {
      FirstFailureAt(cfg, env, x);
    }
  }

  /** When the first failed check is in iteration `k`, nothing is appended after iteration `k`'s block. */
  lemma {:induction false} FirstFailureLines(cfg: Config, env: Env, x: nat, k: nat)
    requires x <= k < Iterations(cfg.loops)
    requires cfg.waitForFullBoot >= 0
    requires PassUntil(env, x, k)
    requires !Passes(env, k)
    ensures BlocksTo(cfg, env, x, k + 1)
    decreases k - x
  {
    if x < k {
      FirstFailureLines(cfg, env, x + 1, k);
      OneMoreBlock(cfg, env, x, k + 1);
    } else {
      LastBlock(cfg, env, x);
    }
  }

  // ---- the program ------------------------------------------------------------------

  /** With fewer than two argv entries only the usage text is printed: no file change, no power event. */
  lemma UsageOnly(argv: seq<string>, env: Env, prior: seq<string>)
    requires |argv| < 2
    ensures Program(argv, env, prior) == Trace([], prior, Usage)
  {
  }

  /** Arguments that do not parse stop the program before the file is touched or the switch is used. */
  lemma BadArgumentsTouchNothing(argv: seq<string>, env: Env, prior: seq<string>)
    requires |argv| >= 2 && ParseFrom(argv, 1, Defaults()).Err?
    ensures Program(argv, env, prior) == Trace([], prior, BadArguments(ParseFrom(argv, 1, Defaults()).error))
  {
  }

  /**
   * Once the arguments parse, the file holds exactly one header line followed
   * by what the loop appends, whatever it held before.
   */
  lemma TruncatedAtStart(argv: seq<string>, env: Env, prior1: seq<string>, prior2: seq<string>)
    requires |argv| >= 2 && ParseFrom(argv, 1, Defaults()).Ok?
    ensures Program(argv, env, prior1).lines == Program(argv, env, prior2).lines
    ensures var t := Program(argv, env, prior1);
      |t.lines| >= 1 && t.lines[0] == HeaderLine(env.startTime)
      && t.lines[1..] == RunLoop(ParseFrom(argv, 1, Defaults()).value, env, 0, env.priorLog).lines
  {
    var t := Program(argv, env, prior1);
    assert t.lines == [HeaderLine(env.startTime)] + RunLoop(ParseFrom(argv, 1, Defaults()).value, env, 0, env.priorLog).lines;
  }

  /**
   * Every check passes: the switch sees exactly `loops` on/off cycles, and the
   * file holds the header and one complete block per iteration.
   */
  lemma ProgramAllPass(argv: seq<string>, env: Env, prior: seq<string>)
    requires |argv| >= 2 && ParseFrom(argv, 1, Defaults()).Ok?
    requires ParseFrom(argv, 1, Defaults()).value.waitForFullBoot >= 0
    requires forall y :: 0 <= y < Iterations(ParseFrom(argv, 1, Defaults()).value.loops) ==> Passes(env, y)
    ensures var n := Iterations(ParseFrom(argv, 1, Defaults()).value.loops);
      var t := Program(argv, env, prior);
      t.outcome == Completed
      && PowerTrace(t.events) == OnOff(n)
      && Count(PowerTrace(t.events), true) == n && Count(PowerTrace(t.events), false) == n
      && t.lines == [HeaderLine(env.startTime)] + Blocks(env, 0, n)
  {
    var cfg := ParseFrom(argv, 1, Defaults()).value;
    PassUntilAll(env, 0, Iterations(cfg.loops));
    AllPassPower(cfg, env, 0);
    AllPassLines(cfg, env, 0);
    CountOnOff(Iterations(cfg.loops));
  }

  /**
   * The first failed check is in iteration `k`: `k + 1` power-ons, `k`
   * power-offs, the last request is on (the unit stays powered), and nothing
   * is written after iteration `k`'s block.
   */
  lemma ProgramFirstFailure(argv: seq<string>, env: Env, prior: seq<string>, k: nat)
    requires |argv| >= 2 && ParseFrom(argv, 1, Defaults()).Ok?
    requires ParseFrom(argv, 1, Defaults()).value.waitForFullBoot >= 0
    requires k < Iterations(ParseFrom(argv, 1, Defaults()).value.loops)
    requires forall y :: 0 <= y < k ==> Passes(env, y)
    requires !Passes(env, k)
    ensures var t := Program(argv, env, prior);
      var power := PowerTrace(t.events);
      t.outcome == (if Snapshot(env, k).Some? then Halted(k) else Crashed(k, LogMissing))
      && Count(power, true) == k + 1 && Count(power, false) == k
      && |power| > 0 && power[|power| - 1]
      && t.lines == [HeaderLine(env.startTime)] + Blocks(env, 0, k + 1)
  {
    var cfg := ParseFrom(argv, 1, Defaults()).value;
    PassUntilAll(env, 0, k);
    FirstFailurePower(cfg, env, 0, k);
    FirstFailureLines(cfg, env, 0, k);
    CountOnOff(k);
    CountAppend(OnOff(k), [true], true);
    CountAppend(OnOff(k), [true], false);
  }

  /** A negative boot wait makes `sleep` raise right after the first power-on. */
  lemma NegativeWaitCrashes(cfg: Config, env: Env)
    requires cfg.waitForFullBoot < 0 && Iterations(cfg.loops) > 0
    ensures RunLoop(cfg, env, 0, env.priorLog)
      == Trace([Stamp, PowerOn(SwitchUrl(cfg.switchIp, "on"))], [StampLine(env.clock(0))], Crashed(0, NegativeSleep))
  {
  }

  // ---- order of the steps --------------------------------------------------------------

  /** The event at `j` comes right after the step it must follow. */
  ghost predicate InOrderAt(events: seq<Event>, j: int)
    requires 0 <= j < |events|
  {
    match events[j]
    case Stamp => j == 0 || events[j - 1].PowerOff?
    case PowerOn(_) => j > 0 && events[j - 1] == Stamp
    case Analyze(_, _) => j > 0 && events[j - 1].PowerOn?
    case Probe(_, _) => j > 0 && events[j - 1].Analyze?
    case Fetch(_, _) => j > 0 && events[j - 1].Probe?
    case Check(_) => j > 0 && events[j - 1].Fetch?
    case PowerOff(_) => j > 0 && events[j - 1] == Check(true)
    case Halt => j > 0 && events[j - 1] == Check(false) && j == |events| - 1
  }

  /**
   * Iterations follow one another, and inside each one the order is
   * timestamp, on, analyzer, probe, fetch, check, then off or halt; a halt
   * is the last event.
   */
  ghost predicate Ordered(events: seq<Event>) {
    forall j :: 0 <= j < |events| ==> InOrderAt(events, j)
  }

  lemma OrderedAppend(a: seq<Event>, b: seq<Event>)
    requires Ordered(a) && Ordered(b)
    requires a == [] || a[|a| - 1].PowerOff?
    requires b == [] || b[0] == Stamp
    ensures Ordered(a + b)
  {
    var ab := a + b;
    forall j | 0 <= j < |ab|
      ensures InOrderAt(ab, j)
    {
      if j < |a| {
        assert InOrderAt(a, j);
        assert ab[j] == a[j];
        if j > 0 { assert ab[j - 1] == a[j - 1]; }
      } else {
        assert InOrderAt(b, j - |a|);
        assert ab[j] == b[j - |a|];
        if j > |a| { assert ab[j - 1] == b[j - |a| - 1]; }
      }
    }
  }

  lemma IterationOrdered(cfg: Config, env: Env, x: nat, log: Option<seq<string>>)
    ensures var step := Iterate(cfg, env, x, log);
      Ordered(step.events) && step.events != [] && step.events[0] == Stamp
      && (step.stop.None? ==> step.events[|step.events| - 1].PowerOff?)
  {
    var step := Iterate(cfg, env, x, log);
    var e := step.events;
    forall j | 0 <= j < |e|
      ensures InOrderAt(e, j)
    {
    }
  }

  /** What the loop does from iteration `x` on is in order and starts with a timestamp. */
  ghost predicate OrderedFrom(cfg: Config, env: Env, x: nat, log: Option<seq<string>>) {
    var t := RunLoop(cfg, env, x, log);
    Ordered(t.events) && (t.events == [] || t.events[0] == Stamp)
  }

  /** An iteration that lets the loop go on, followed by an ordered rest of the loop, is ordered. */
  lemma RunLoopOrderedStep(cfg: Config, env: Env, x: nat, log: Option<seq<string>>)
    requires x < Iterations(cfg.loops)
    requires OrderedFrom(cfg, env, x + 1, Iterate(cfg, env, x, log).log)
    ensures OrderedFrom(cfg, env, x, log)
  {
    var step := Iterate(cfg, env, x, log);
    IterationOrdered(cfg, env, x, log);
    RunLoopUnfold(cfg, env, x, log);
    if step.stop.None? {
      OrderedAppend(step.events, RunLoop(cfg, env, x + 1, step.log).events);
    }
  }

  /** After the last iteration the loop does nothing, which is in order. */
  lemma RunLoopOrderedDone(cfg: Config, env: Env, x: nat, log: Option<seq<string>>)
    requires x >= Iterations(cfg.loops)
    ensures OrderedFrom(cfg, env, x, log)
  {
  }

  lemma {:induction false} RunLoopOrdered(cfg: Config, env: Env, x: nat, log: Option<seq<string>>)
    ensures OrderedFrom(cfg, env, x, log)
    decreases Iterations(cfg.loops) - x
  {
    if x < Iterations(cfg.loops) {
      RunLoopOrdered(cfg, env, x + 1, Iterate(cfg, env, x, log).log);
      RunLoopOrderedStep(cfg, env, x, log);
    } else {
      RunLoopOrderedDone(cfg, env, x, log);
    }
  }

  /** Every run of the program keeps that order; in particular each probe runs before its iteration's fetch. */
  lemma ProgramOrdered(argv: seq<string>, env: Env, prior: seq<string>)
    ensures var e := Program(argv, env, prior).events;
      Ordered(e) && forall j :: 0 <= j < |e| && e[j].Fetch? ==> j > 0 && e[j - 1].Probe?
  {
    if |argv| >= 2 && ParseFrom(argv, 1, Defaults()).Ok? {
      RunLoopOrdered(ParseFrom(argv, 1, Defaults()).value, env, 0, env.priorLog);
    }
    var e := Program(argv, env, prior).events;
    forall j | 0 <= j < |e| && e[j].Fetch?
      ensures j > 0 && e[j - 1].Probe?
    {
      assert InOrderAt(e, j);
    }
  }

  /**
   * Where an event goes: power requests to the switch at `switchIp`, the
   * three SSH sessions to the unit at `platformIp`, with the analyzer and
   * probe commands the loop sends.
   */
  ghost predicate AddressedAt(e: Event, cfg: Config) {
    match e
    case PowerOn(url) => url == SwitchUrl(cfg.switchIp, "on")
    case PowerOff(url) => url == SwitchUrl(cfg.switchIp, "off")
    case Analyze(host, command) => host == cfg.platformIp && command == AnalyzeCommand
    case Probe(host, command) => host == cfg.platformIp && command == ProbeCommand
    case Fetch(host, _) => host == cfg.platformIp
    case _ => true
  }

  ghost predicate Addressed(events: seq<Event>, cfg: Config) {
    forall j :: 0 <= j < |events| ==> AddressedAt(events[j], cfg)
  }

  lemma AddressedAppend(a: seq<Event>, b: seq<Event>, cfg: Config)
    requires Addressed(a, cfg) && Addressed(b, cfg)
    ensures Addressed(a + b, cfg)
  {
    var ab := a + b;
    forall j | 0 <= j < |ab|
      ensures AddressedAt(ab[j], cfg)
    {
      if j < |a| {
        assert ab[j] == a[j];
      } else {
        assert ab[j] == b[j - |a|];
      }
    }
  }

  lemma IterationAddressed(cfg: Config, env: Env, x: nat, log: Option<seq<string>>)
    ensures Addressed(Iterate(cfg, env, x, log).events, cfg)
  {
    var e := Iterate(cfg, env, x, log).events;
    forall j | 0 <= j < |e|
      ensures AddressedAt(e[j], cfg)
    {
    }
  }

  /** What the loop does from iteration `x` on goes to the configured switch and unit. */
  ghost predicate AddressedFrom(cfg: Config, env: Env, x: nat, log: Option<seq<string>>) {
    Addressed(RunLoop(cfg, env, x, log).events, cfg)
  }

  lemma RunLoopAddressedStep(cfg: Config, env: Env, x: nat, log: Option<seq<string>>)
    requires x < Iterations(cfg.loops)
    requires AddressedFrom(cfg, env, x + 1, Iterate(cfg, env, x, log).log)
    ensures AddressedFrom(cfg, env, x, log)
  {
    var step := Iterate(cfg, env, x, log);
    IterationAddressed(cfg, env, x, log);
    RunLoopUnfold(cfg, env, x, log);
    if step.stop.None? {
      AddressedAppend(step.events, RunLoop(cfg, env, x + 1, step.log).events, cfg);
    }
  }

  lemma RunLoopAddressedDone(cfg: Config, env: Env, x: nat, log: Option<seq<string>>)
    requires x >= Iterations(cfg.loops)
    ensures AddressedFrom(cfg, env, x, log)
  {
  }

  lemma {:induction false} RunLoopAddressed(cfg: Config, env: Env, x: nat, log: Option<seq<string>>)
    ensures AddressedFrom(cfg, env, x, log)
    decreases Iterations(cfg.loops) - x
  {
    if x < Iterations(cfg.loops) {
      RunLoopAddressed(cfg, env, x + 1, Iterate(cfg, env, x, log).log);
      RunLoopAddressedStep(cfg, env, x, log);
    } else {
      RunLoopAddressedDone(cfg, env, x, log);
    }
  }

  /**
   * Every SSH session of a run goes to the unit named by `-t` (or its
   * default) and every power request to the switch named by `-s`.
   */
  lemma ProgramAddressed(argv: seq<string>, env: Env, prior: seq<string>)
    requires |argv| >= 2 && ParseFrom(argv, 1, Defaults()).Ok?
    ensures var cfg := ParseFrom(argv, 1, Defaults()).value;
      var e := Program(argv, env, prior).events;
      Addressed(e, cfg)
      && (forall j :: 0 <= j < |e| && e[j].Fetch? ==> e[j].host == cfg.platformIp)
  {
    var cfg := ParseFrom(argv, 1, Defaults()).value;
    RunLoopAddressed(cfg, env, 0, env.priorLog);
    var e := Program(argv, env, prior).events;
    forall j | 0 <= j < |e| && e[j].Fetch?
      ensures e[j].host == cfg.platformIp
    {
      assert AddressedAt(e[j], cfg);
    }
  }
}
