# Boot test loop, modelled in Dafny

`boot_test_loop.py` soak-tests a set-top box (a Comcast/Sky platform, the
"unit under test") on a local network. A smart switch (a Shelly relay driven by
HTTP GET requests) powers the unit on and off. On every iteration the program:

1. appends a timestamp line to `./logs/bootmetrics.txt` and switches the unit on;
2. waits for the boot, then collects two metric results over SSH — the
   `systemd-analyze` figures and a grep of the unit's sky-messages.log — and
   appends them to the file;
3. copies the unit's logs into `./logs`;
4. checks the local copy of `sky-messages.log` for the marker showing that the
   EPG application is running.

When the check fails the program exits and leaves the unit powered on.
Otherwise it switches the unit off and starts the next iteration. Before the
loop, the argument parser reads the switch address, the unit address, the
iteration count and the boot wait, and the bootmetrics file is truncated to a
single header line.

The model has these modules:

- `EpgDetector` (epg_detector.dfy): `check_for_epg` as a loop with an early
  return over the log's lines. It is built on a model of Python's `str.find`.
- `PowerSwitch` (power_switch.dfy): the URL `switch` requests. A reader for
  that URL is the round-trip partner.
- `MetricsLog` (metrics_file.dfy): the bootmetrics file as a class
  `MetricsFile` whose `lines` field holds the file's lines in the order they
  were written. `store_metrics`, `timestamp_metrics` and the truncating header
  write are its methods.
- `Arguments` (arguments.dfy): the settings, their defaults, `int()` on a
  token, and the `while` loop over `sys.argv`. The loop is proved against a
  recursive reference definition, `ParseFrom`.
- `BootLoop` (boot_loop.dfy): the test loop as a method over a `MetricsFile`,
  and the whole program as a method, `Run`. Both are proved against reference
  functions (`RunLoop`, `Program`). These produce a trace of events:
  - `Stamp`, `PowerOn(url)`, `Analyze(host, command)`,
    `Probe(host, command)`, `Fetch(host, fetched)`, `Check(found)`,
    `PowerOff(url)`, `Halt`. The three SSH events carry the unit address they
    connect to and the command they run;
  - the lines written to the bootmetrics file;
  - an outcome: `Usage`, `BadArguments`, `Completed`, `Halted(k)` or
    `Crashed(k, reason)`.
- `BootLoopProperties` (boot_loop_properties.dfy): what a run guarantees.
  - On/off counts when every check passes.
  - Halting on the first failed check, with the unit left on.
  - The exact content of the bootmetrics file.
  - The order of the steps inside every iteration.
  - Where every request goes: power requests to the switch given by `-s`,
    SSH sessions to the unit given by `-t`.

Everything the program gets from outside is an input of the model, in the
datatype `Env`, indexed by iteration:

- the rendered clock readings;
- the two metric results, `None` when the SSH connection failed;
- the result of fetching the logs: `None` when the connection failed,
  otherwise the lines of `sky-messages.log`;
- the local `sky-messages.log` left over from before the run, if any.

Three behaviours of the code are modelled as written:

- An uncaught exception ends a run in four places, and each becomes an
  explicit outcome:
  - a flag in last position (`sys.argv[i+1]` raises `IndexError`);
  - a value of `-l`/`-d` that `int()` rejects;
  - a negative `-d`, which makes `sleep` raise right after the first
    power-on (`Crashed(0, NegativeSleep)`);
  - a missing local log when `check_for_epg` opens it (`Crashed(k, LogMissing)`).
- A failed log fetch leaves the previous local copy in place. `get_log_files`
  returns before copying anything, so the check then inspects the copy from an
  earlier iteration or from an earlier run.
- A negative `-l` gives no iterations, as `range` does.

The second metric (boot_test_loop.py:166) is the command
`cat /opt/logs/sky-messages.log | grep SpectrumBarGadget | grep complete`,
run on the unit over SSH through `sysd_analyze.get_system_metric`. It reads
the unit's own `/opt/logs/sky-messages.log`, so its result is an input of its
own, independent of the local copy that `check_for_epg` reads.

## Model

| member | source | states |
|---|---|---|
| EpgDetector.FindFrom | boot_test_loop.py:71 | `str.find` from a start position: the lowest position at or after it where the pattern occurs, or -1 when it occurs nowhere after it |
| EpgDetector.Find | boot_test_loop.py:71 | `line.find(pat) != -1` exactly when the line contains the pattern; otherwise the result is the first occurrence |
| EpgDetector.CheckForEpg | boot_test_loop.py:65-75 | returns only 0 or 1, and 1 exactly when some line contains `" app 'com.bskyb.epgui' running"` |
| EpgDetector.MarkerAnywhere | boot_test_loop.py:71 | the marker is detected at any position inside a line |
| EpgDetector.MarkerOnAnyLine | boot_test_loop.py:70-73 | a line with the marker is detected wherever it stands in the log |
| EpgDetector.EmptyLogHasNoMarker | boot_test_loop.py:70-75 | an empty log yields 0 |
| EpgDetector.UpperCaseNameIsNoMatch | boot_test_loop.py:71 | an example of the case-sensitive comparison: the marker text with an upper-case application name is not a match |
| PowerSwitch.SwitchUrl | boot_test_loop.py:78-83 | the URL is `http://`, then the switch address, then the on path for exactly `'on'` and the off path for any other state |
| PowerSwitch.ReadSwitchUrl | boot_test_loop.py:80-83 | reading a URL back: it starts with `http://` and ends with the on path or the off path, as it reports |
| PowerSwitch.SwitchUrlRoundTrip | boot_test_loop.py:78-83 | the requested URL encodes exactly the switch address and whether the state is `'on'` |
| PowerSwitch.OnOnlyForOn | boot_test_loop.py:28-31 | the URL ends with `/rpc/Switch.Set?id=0&on=true` iff the state is `'on'`, and with `...on=false` iff it is not |
| PowerSwitch.DefaultsToOff | boot_test_loop.py:77-83 | every state other than `'on'` switches off |
| PowerSwitch.SwitchUrlInjective | boot_test_loop.py:78-83 | two calls request the same URL only for the same address and the same on/off choice |
| MetricsLog.StampLine | boot_test_loop.py:103 | a timestamp line starts with `------- ` and ends with a newline |
| MetricsLog.HeaderLine | boot_test_loop.py:149 | the header starts with `======== Test Started ` and ends with ` ========` and a newline |
| MetricsLog.HeaderIsNotStamp | boot_test_loop.py:149 | the header can never be mistaken for an iteration's timestamp line |
| MetricsLog.MetricLines | boot_test_loop.py:94-95 | one written line per metric |
| MetricsLog.MetricLineAt | boot_test_loop.py:94-95 | written line `i` is metric `i` followed by `'\n'`: nothing is dropped, reordered or altered |
| MetricsLog.Entries | boot_test_loop.py:91-95 | an absent result writes nothing; a collected one writes one line per metric |
| MetricsLog.EntryAt | boot_test_loop.py:94-95 | entry `i` of a collected result is its metric `i` followed by `'\n'` |
| MetricsLog.EntriesEmptyIff | boot_test_loop.py:91-92 | nothing is written exactly when the result is absent or empty (`not metrics`) |
| MetricsLog.MetricLinesAppend | boot_test_loop.py:94-95 | storing two results in turn writes what storing their concatenation writes |
| MetricsLog.MetricsFile.Restart | boot_test_loop.py:147-151 | opening with `"w"` and writing the header leaves exactly the header line, whatever the file held |
| MetricsLog.MetricsFile.TimestampMetrics | boot_test_loop.py:100-106 | appends exactly one timestamp line and keeps everything before it |
| MetricsLog.MetricsFile.StoreMetrics | boot_test_loop.py:89-97 | appends the result's lines in order and keeps everything before them; appends nothing for an absent or empty result |
| Arguments.Defaults | boot_test_loop.py:18-26 | default settings: switch 192.168.0.150, unit 192.168.0.171 (the XiOne), 1 iteration, 90 s wait |
| Arguments.ParseInt | boot_test_loop.py:132 | `int(token)` succeeds only on a token holding a decimal digit |
| Arguments.ParseIntRoundTrip | boot_test_loop.py:131-136 | every integer written in decimal, negative ones included, is read back as itself |
| Arguments.Apply | boot_test_loop.py:125-136 | `-s` and `-t` always succeed and set the switch or unit address to the value; `-l` and `-d` set the count or wait to the value read by `int()`, and fail exactly when `int()` rejects it, with an error naming the value; the other three settings are kept |
| Arguments.LastOccurrenceDecides | boot_test_loop.py:122-138 | when the command line parses, a `flag value` pair after which `flag` never appears again decides that setting, wherever the pair stands |
| Arguments.ParseFrom | boot_test_loop.py:122-138 | a missing value is reported only for a flag in last position; a rejected value is a token after the start |
| Arguments.ParseArgs | boot_test_loop.py:122-138 | the argv `while` loop, with `i` strictly increasing, computes what the reference definition `ParseFrom` gives from index 1 and the defaults |
| Arguments.ParseSplit | boot_test_loop.py:123-138 | a command line parses as its first part, then the rest, starting with the settings the first part left |
| Arguments.ParseSuffix | boot_test_loop.py:123-138 | from any index, parsing depends only on the tokens from that index on |
| Arguments.LaterFlagOverrides | boot_test_loop.py:125-136 | a flag given last, with its value, overrides any earlier occurrence |
| Arguments.NonFlagIgnored | boot_test_loop.py:137-138 | any other token is skipped by one and changes no setting |
| Arguments.TrailingFlagFails | boot_test_loop.py:125-136 | a flag in last position makes parsing fail on that flag (`sys.argv[i+1]` out of range) |
| Arguments.UnmentionedKeeps | boot_test_loop.py:122-138 | a setting whose flag never appears keeps its starting value |
| Arguments.FlagValueIsNotAFlag | boot_test_loop.py:125-127 | the token after a flag is consumed as its value even when it looks like a flag |
| Arguments.TypicalCommandLine | boot_test_loop.py:122-138 | `-t 10.0.0.2 -x -l 2 -d 90` sets the unit, count and wait, skips `-x` and keeps the default switch |
| BootLoop.Iterations | boot_test_loop.py:155 | `range(loops)` has `loops` elements, and none for a negative count |
| BootLoop.Judge | boot_test_loop.py:66-75 | the check has no verdict (the open raises) exactly when there is no local log, and passes exactly when some line of the log contains the marker |
| BootLoop.AfterFetch | boot_test_loop.py:47-59 | a successful fetch replaces the local log; a failed one leaves the previous local log; no log exists afterwards only if neither did |
| BootLoop.Iterate | boot_test_loop.py:156-179 | an iteration starts with a timestamp line and a power-on to the configured switch; it lets the loop go on exactly when the boot wait is non-negative and the check passes, and otherwise ends the run halted or crashed in that iteration |
| BootLoop.Iteration | boot_test_loop.py:156-179 | the loop body appends to the file only, and its events, new local log, stop and appended lines are those of the reference definition `Iterate` |
| BootLoop.RunLoop | boot_test_loop.py:155-179 | the loop from iteration `x` does nothing once `x` is past the count; otherwise it completes, or halts or crashes in an iteration between `x` and the last one |
| BootLoop.BootTestLoop | boot_test_loop.py:155-179 | the `for` loop appends to the file only, and its events, outcome and appended lines are those of the reference definition `RunLoop` |
| BootLoop.Program | boot_test_loop.py:112-179 | usage exactly when argv has fewer than two entries; a parse error exactly when the arguments do not parse, and then no event and the file untouched; otherwise the file starts with the header |
| BootLoop.Run | boot_test_loop.py:112-179 | the main program's events, outcome and final file content are those of the reference definition `Program` |
| BootLoopProperties.CyclePower | boot_test_loop.py:159-178 | an iteration past its boot wait requests on, then off only if its check passed |
| BootLoopProperties.CycleHeadPower | boot_test_loop.py:159-169 | up to the fetch, an iteration makes exactly one power request, on |
| BootLoopProperties.FinishPower | boot_test_loop.py:170-178 | after the fetch, the only power request is off, and only after a passing check |
| BootLoopProperties.OnOffAlternates | boot_test_loop.py:155-178 | the power requests of full cycles alternate, starting with on |
| BootLoopProperties.CountOnOff | boot_test_loop.py:155-178 | `n` cycles hold `n` on requests and `n` off requests |
| BootLoopProperties.PassingIteration | boot_test_loop.py:170-179 | a passing iteration adds one on/off cycle and its block, and the loop goes on |
| BootLoopProperties.FailingIteration | boot_test_loop.py:170-173 | a failing iteration ends the run after one power-on and its block, halted or crashed for want of a log |
| BootLoopProperties.AllPassPower | boot_test_loop.py:155-179 | when every check passes, the run completes and the power requests are on, off repeated once per iteration |
| BootLoopProperties.AllPassLines | boot_test_loop.py:159-167 | when every check passes, each iteration appends its timestamp, analyzer and probe lines, in iteration order |
| BootLoopProperties.FirstFailurePower | boot_test_loop.py:155-179 | when iteration `k` is the first to fail, the power requests are `k` on/off cycles followed by one on, and the run ends in `k` |
| BootLoopProperties.FirstFailureLines | boot_test_loop.py:159-173 | when iteration `k` is the first to fail, nothing is appended after iteration `k`'s block |
| BootLoopProperties.UsageOnly | boot_test_loop.py:115-121 | with fewer than two argv entries: no event, file untouched |
| BootLoopProperties.BadArgumentsTouchNothing | boot_test_loop.py:122-138 | arguments that do not parse stop the program before the file or the switch is touched |
| BootLoopProperties.TruncatedAtStart | boot_test_loop.py:147-151 | once the arguments parse, the final file does not depend on its earlier content: a header line followed by what the loop appends |
| BootLoopProperties.ProgramAllPass | boot_test_loop.py:147-179 | every check passes: outcome completed, exactly `loops` power-ons and `loops` power-offs, and the file is the header plus one block per iteration |
| BootLoopProperties.ProgramFirstFailure | boot_test_loop.py:147-179 | first failure at `k`: `k+1` power-ons, `k` power-offs, the last request is on, and the file is the header plus blocks `0..k` |
| BootLoopProperties.NegativeWaitCrashes | boot_test_loop.py:159-161 | a negative boot wait ends the run with a crash after one timestamp and one power-on |
| BootLoopProperties.IterationOrdered | boot_test_loop.py:159-178 | inside an iteration: timestamp, on, analyzer, probe, fetch, check, then off or exit |
| BootLoopProperties.RunLoopOrdered | boot_test_loop.py:155-179 | the whole loop keeps that order, and each iteration starts with its timestamp after the previous one's off |
| BootLoopProperties.IterationAddressed | boot_test_loop.py:159-178 | every power request of an iteration goes to the configured switch, every SSH session to the configured unit with the loop's commands |
| BootLoopProperties.RunLoopAddressed | boot_test_loop.py:155-179 | the whole loop keeps those addresses |
| BootLoopProperties.ProgramAddressed | boot_test_loop.py:155-179 | in every run whose arguments parse, the power requests go to the switch given by `-s` and every SSH session, the log fetch included, to the unit given by `-t` (or their defaults) |
| BootLoopProperties.ProgramOrdered | boot_test_loop.py:159-173 | every run keeps that order; in particular each fetch comes right after its iteration's probe |

## Left out

- SSH and SCP (`get_log_files`, boot_test_loop.py:43-62) and `sysd_analyze`: their results are inputs. A failed connection is an absent result; an `scp.get` that raises after a successful connect is not modelled.
- A `requests.get` that raises (switch unreachable) at boot_test_loop.py:85 is not modelled. It would end the run with an uncaught exception at line 160 or line 178. The model assumes every power request returns.
- `sysd_analyze.py` is modelled only as far as the command it sends (`'systemd-analyze ' + service`, with the empty service the loop passes). The metric lines it returns are inputs, passed through as given. Lines that already end in a newline get a second one, as the code writes `metric + '\n'`.
- The HTTP request in `switch` (boot_test_loop.py:85) and its reply: each call is a power event carrying the URL.
- `sleep`: the durations are not modelled. The only effect kept is the exception a negative boot wait raises.
- `datetime.now` and `strftime`: each clock reading is an opaque rendered string. Only the fixed prefixes and suffixes of the timestamp and header lines are modelled.
- `os.makedirs`, opening and closing files, and the ISO-8859-1 decoding of the log: the log is a given sequence of lines.
- `print` output: the usage text and the progress messages.
- `./logs/system.log`: it is fetched but never inspected.
- Arguments.ParseInt: only an optional sign and ASCII digits are accepted. Python's `int()` also accepts surrounding whitespace, underscores between digits and other Unicode decimal digits. Python 3.11 (and 3.10.7 and later) also raises `ValueError` on a string of more than 4300 digits by default, which `ParseInt` accepts.
- Concurrency and timing between the unit's boot and the checks: the fetched log is whatever the input says.
