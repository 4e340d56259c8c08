# ping-forever, modelled in Dafny

ping-forever pings one target again and again. It sends one packet per `ping`
invocation, sleeps between probes, and runs a user-given hook command on every
failed probe. The hook gets a small JSON-like description of the failure on its
standard input. This project models the program's core as Dafny functions,
methods and lemmas:

- `numbers.dfy` (module `Numbers`): Kotlin `Long`/`Int`, their `toString` and
  `toLongOrNull`, and `Long` wrap-around and truncating division.
- `text.dfy` (module `Text`): the pieces of Kotlin's string library the
  program uses. These are `isBlank`, `contains(…, ignoreCase = true)`,
  `lines()`, `joinToString`, `split(" ")` and `filter { it.isNotBlank() }`.
- `ping_args.dfy` (module `PingArgs`): `Config`, `IpVersion` and the part of
  `parseArgs` after the command-line parser has produced the raw option values.
- `ping_builder.dfy` (module `PingBuilder`): `buildPingCommand`. It is an
  imperative method that appends to a list, proved equal to the specification
  function `PingCommand`, with lemmas on the vector's layout.
- `ping_runner.dfy` (module `PingRunner`): `runOnce`'s classification of a
  probe. This covers the round-trip-time regular expression (a greedy scanner
  proved equivalent to the pattern and leftmost), the timeout markers, and the
  first five or eight lines of output.
- `hook_runner.dfy` (module `HookRunner`): `runHook` and `buildContextJson`.
- `context_json.dfy` (module `ContextJson`): an independent reader for the
  hook payload. It is the partner of `buildContextJson`: a non-empty context
  whose keys and timestamp hold no quote and whose strings hold no backslash
  reads back as the timestamp and the context, with every other object's
  value read back as the string it was written as. An empty context never reads
  back, and neither does a single string entry whose value ends in one
  backslash.
- `main_loop.dfy` (module `MainLoop`): `main`. The endless loop runs over a
  finite sequence of turns. Each turn says what the ping process and the hook
  process did, what the clock read and whether the sleep was interrupted. The
  loop's observable behaviour is a sequence of events: printed lines, probes,
  hook starts and sleeps. The `while` loop is an imperative method proved equal
  to the functional `Trace`, with lemmas on what the trace contains.
- `wrappers.dfy` (module `Wrappers`): `Option` and `Result`.

Whether the host is Windows (`os.name`), the clock reading (`Instant.now()`)
and everything a child process does are inputs of the model.

Behaviours of the code worth knowing:

- A successful probe prints nothing. `onSuccess` does nothing with the
  round-trip time.
- A hook that ran prints "Hook executed successfully" whatever its exit code
  and output were.
- The Unix `-W` value is `(tMs + 999) / 1000` in `Long` arithmetic. It is the
  rounded-up number of seconds exactly when the addition does not overflow and
  the timeout is either at least -999 ms or one more than a multiple of 1000 ms.
  For example, -1999 ms gives -1, but -2000 ms gives -1 instead of -2.
- String values in the hook payload have their quotes escaped but not their
  backslashes.
- An interrupted sleep ends `main` normally, which is exit status 0.
- `Main.kt` calls `HookRunner.runHook`, but `HookRunner.kt` declares `runHook`
  at top level. The model takes that call to be `runHook`.

## Model

| member | source | states |
|---|---|---|
| Numbers.Decimal | src/main/kotlin/io/github/flaredgitee/PingBuilder.kt:49 | `toString` of an integer is a minus sign exactly for negative values, followed by decimal digits without leading zeros |
| Numbers.ParseLong | src/main/kotlin/io/github/flaredgitee/PingArgs.kt:74 | `toLongOrNull` yields a value only for text of an optional sign and at least one digit (a lone sign gives null), and then the value the digits spell, negated after '-'; every such text whose value fits in a `Long` yields it |
| Numbers.ParseLongDecimal | src/main/kotlin/io/github/flaredgitee/PingArgs.kt:74 | `toLongOrNull` reads back what `toString` writes, for every `Long` |
| Numbers.WrapLong | src/main/kotlin/io/github/flaredgitee/PingBuilder.kt:52 | the `Long` sum equals the exact sum when it is in range, and is congruent to it modulo 2^64 otherwise |
| Numbers.TruncDiv | src/main/kotlin/io/github/flaredgitee/PingBuilder.kt:52 | Kotlin division truncates toward zero: the quotient's bounds for non-negative and for negative dividends |
| Text.FoldCase | src/main/kotlin/io/github/flaredgitee/PingRunner.kt:50-59 | case folding maps 'A'-'Z' to 'a'-'z', dotted and dotless I to 'i', long s to 's' and the Kelvin sign to 'k', and leaves every other character as it is |
| Text.ContainsIgnoreCaseFromIff | src/main/kotlin/io/github/flaredgitee/PingRunner.kt:56-59 | the scan from an index finds the needle exactly when the needle occurs, ignoring case, at that index or later |
| Text.ContainsIgnoreCaseIff | src/main/kotlin/io/github/flaredgitee/PingRunner.kt:56-59 | `contains(needle, ignoreCase = true)` holds exactly when the needle occurs somewhere, ignoring case |
| Text.Lines | src/main/kotlin/io/github/flaredgitee/PingRunner.kt:61-63 | `lines()` yields at least one line, and no line holds a line break |
| Text.LinesNoBreak | src/main/kotlin/io/github/flaredgitee/PingRunner.kt:61-63 | a text without line breaks is one line |
| Text.LinesAtBreak | src/main/kotlin/io/github/flaredgitee/PingRunner.kt:61-63 | the first "\n", "\r\n" or lone "\r" ends the first line, and the lines of the rest follow |
| Text.NormalizeBreaks | src/main/kotlin/io/github/flaredgitee/PingRunner.kt:61-63 | writing every break as "\n" leaves no carriage return |
| Text.LinesNormalize | src/main/kotlin/io/github/flaredgitee/PingRunner.kt:61-63 | the lines do not depend on how the breaks are written |
| Text.JoinLines | src/main/kotlin/io/github/flaredgitee/PingRunner.kt:61-63 | without carriage returns, joining the lines with "\n" gives the text back |
| Text.JoinTakeIsPrefix | src/main/kotlin/io/github/flaredgitee/PingRunner.kt:61-63 | joining the first n lines gives a prefix of joining them all |
| Text.JoinTakeSepIsPrefix | src/main/kotlin/io/github/flaredgitee/PingRunner.kt:61-63 | when more lines follow, the first n lines joined, then the separator, are a prefix of all of them joined |
| Text.CountJoin | src/main/kotlin/io/github/flaredgitee/PingRunner.kt:61-63 | joining k parts free of c with separator c puts exactly k - 1 c's in the result |
| Text.SplitOnSpace | src/main/kotlin/io/github/flaredgitee/PingArgs.kt:73 | `split(" ")` yields at least one piece, no piece holds a space, and joining the pieces with spaces gives the text back |
| Text.SplitNoSpace | src/main/kotlin/io/github/flaredgitee/PingArgs.kt:73 | a text without spaces splits into itself alone |
| Text.SplitAtSpace | src/main/kotlin/io/github/flaredgitee/PingArgs.kt:73 | the first space ends the first piece |
| Text.SplitBlank | src/main/kotlin/io/github/flaredgitee/PingArgs.kt:73 | a blank text splits into blank pieces only |
| Text.NonBlank | src/main/kotlin/io/github/flaredgitee/PingArgs.kt:73 | `filter { it.isNotBlank() }` keeps only pieces of the input that are non-blank, and never more pieces than it was given |
| Text.NonBlankKeeps | src/main/kotlin/io/github/flaredgitee/PingArgs.kt:73 | `filter { it.isNotBlank() }` keeps every non-blank piece of the input |
| Text.NonBlankOne | src/main/kotlin/io/github/flaredgitee/PingArgs.kt:73 | one piece is kept exactly when it is not blank; with NonBlankAppend this fixes the filter's result and order |
| Text.NonBlankAppend | src/main/kotlin/io/github/flaredgitee/PingArgs.kt:73 | the filter keeps the order: it distributes over concatenation |
| Text.NonBlankOfAllBlank | src/main/kotlin/io/github/flaredgitee/PingArgs.kt:73 | filtering blank pieces only leaves nothing |
| PingArgs.DefaultOptions | src/main/kotlin/io/github/flaredgitee/PingArgs.kt:41-62 | options not given default to an empty timeout, a negative interval sentinel, an empty hook and neither IP flag |
| PingArgs.ResolveIpVersion | src/main/kotlin/io/github/flaredgitee/PingArgs.kt:66-71 | IPv4 exactly when only `-4` is given, IPv6 exactly when only `-6` is given, otherwise unspecified |
| PingArgs.HookList | src/main/kotlin/io/github/flaredgitee/PingArgs.kt:73 | the hook is the non-blank pieces of the hook text split at spaces; no token is blank or holds a space, and a blank text gives no command |
| PingArgs.ParseTimeout | src/main/kotlin/io/github/flaredgitee/PingArgs.kt:74 | a blank text gives no timeout, a `Long` literal gives its value, and anything else fails with "invalid timeout value: " and the raw text |
| PingArgs.IntervalFromSentinel | src/main/kotlin/io/github/flaredgitee/PingArgs.kt:75 | a negative sentinel means no interval; zero and above are kept as they are |
| PingArgs.ParseArgs | src/main/kotlin/io/github/flaredgitee/PingArgs.kt:37-84 | parsing fails exactly when the timeout does not parse, with its message; otherwise every field comes from its option, and the interval is never negative |
| PingArgs.ParseTargetOnly | src/test/kotlin/ArgParseTest.kt:24-30 | a target alone gives no timeout, no interval, no hook and an unspecified IP version |
| PingArgs.ParseHookAndTimeout | src/test/kotlin/ArgParseTest.kt:33-38 | `-t 5000 -H "echo hello" example.com` gives target example.com, a 5000 ms timeout and the hook ["echo", "hello"] |
| PingArgs.TimeoutOf5000 | src/main/kotlin/io/github/flaredgitee/PingArgs.kt:74 | the timeout text "5000" parses to 5000 |
| PingArgs.HookOfTwoWords | src/main/kotlin/io/github/flaredgitee/PingArgs.kt:73 | two words separated by one space become two hook tokens |
| PingArgs.HookOfEchoHello | src/test/kotlin/ArgParseTest.kt:34-37 | "echo hello" becomes ["echo", "hello"] |
| PingArgs.ParseLoneSign | src/main/kotlin/io/github/flaredgitee/PingArgs.kt:74 | a timeout of a lone "+" or "-" fails with "invalid timeout value: " and the text |
| PingArgs.ParseBadTimeout | src/main/kotlin/io/github/flaredgitee/PingArgs.kt:74 | a timeout of "5s" makes parsing fail with "invalid timeout value: 5s" |
| PingBuilder.TimeoutSecondsArg | src/main/kotlin/io/github/flaredgitee/PingBuilder.kt:52 | the Unix timeout value is the timeout rounded up to whole seconds when it is not negative and the addition does not overflow; it is 0 for timeouts from -999 to -1 |
| PingBuilder.TimeoutSecondsArgIsCeiling | src/main/kotlin/io/github/flaredgitee/PingBuilder.kt:52 | the Unix timeout value is the rounded-up number of seconds exactly when the addition does not overflow and the timeout is at least -999 ms or one more than a multiple of 1000 ms |
| PingBuilder.TimeoutSecondsArgNegative | src/main/kotlin/io/github/flaredgitee/PingBuilder.kt:52 | -2000 ms gives -1 s, one more than rounding up would give |
| PingBuilder.TimeoutSecondsArgOverflow | src/main/kotlin/io/github/flaredgitee/PingBuilder.kt:52 | at `Long.MAX_VALUE` the addition wraps around and the value is negative |
| PingBuilder.DecimalIsNotFlag | src/main/kotlin/io/github/flaredgitee/PingBuilder.kt:49-62 | no number's text reads as a two-letter flag |
| PingBuilder.NoNumberIsFlag | src/main/kotlin/io/github/flaredgitee/PingBuilder.kt:44-75 | none of the values in the vector reads as a flag |
| PingBuilder.PingCommandSegments | src/main/kotlin/io/github/flaredgitee/PingBuilder.kt:25-80 | the vector is its options, then the packet count, then the target |
| PingBuilder.FlagInHead | src/main/kotlin/io/github/flaredgitee/PingBuilder.kt:31-66 | a flag is among the options exactly when the configuration asks for it on that platform |
| PingBuilder.PingCommandLength | src/main/kotlin/io/github/flaredgitee/PingBuilder.kt:25-80 | "ping" comes first and the target last; the length is 4, plus 1 for a forced IP version, 2 for a timeout and 2 for an interval off Windows |
| PingBuilder.NoCountFlagInHead | src/main/kotlin/io/github/flaredgitee/PingBuilder.kt:31-66 | neither count flag is among the options |
| PingBuilder.PingCommandCount | src/main/kotlin/io/github/flaredgitee/PingBuilder.kt:68-77 | exactly one packet-count pair, "-n 1" on Windows and "-c 1" elsewhere, stands right before the target |
| PingBuilder.PingCommandIpFlag | src/main/kotlin/io/github/flaredgitee/PingBuilder.kt:31-42 | "-4" follows "ping" exactly when IPv4 is forced, and "-6" exactly when IPv6 is |
| PingBuilder.TimeoutInHead | src/main/kotlin/io/github/flaredgitee/PingBuilder.kt:44-56 | the timeout pair follows the IP flag among the options |
| PingBuilder.TimeoutInCommand | src/main/kotlin/io/github/flaredgitee/PingBuilder.kt:44-56 | the timeout pair follows the IP flag in the vector |
| PingBuilder.PingCommandTimeout | src/main/kotlin/io/github/flaredgitee/PingBuilder.kt:44-56 | the timeout follows the IP flag: "-w" and the milliseconds on Windows, "-W" and the seconds elsewhere; each flag occurs exactly when a timeout is set on its platform |
| PingBuilder.PingCommandInterval | src/main/kotlin/io/github/flaredgitee/PingBuilder.kt:58-66 | "-i" and the interval stand right before the count exactly when an interval is set off Windows; "-i" occurs in no other case |
| PingBuilder.IpFlagSameOnBothPlatforms | src/main/kotlin/io/github/flaredgitee/PingBuilder.kt:32-42 | the executable and the IP flag are the same on Windows and elsewhere |
| PingBuilder.BuildPingCommand | src/main/kotlin/io/github/flaredgitee/PingBuilder.kt:25-80 | appending element by element builds exactly the specified vector |
| PingRunner.WaitSeconds | src/main/kotlin/Main.kt:36 | `Duration.ofMillis(ms).seconds` is the timeout in whole seconds, rounded down |
| PingRunner.SpanFacts | src/main/kotlin/io/github/flaredgitee/PingRunner.kt:50 | a greedy `\s*` or `[0-9]+` consumes characters of its class only and stops at the end or at a character outside the class |
| PingRunner.SpanUnique | src/main/kotlin/io/github/flaredgitee/PingRunner.kt:50 | a run of the class that stops at a character outside it is the one the greedy scan finds |
| PingRunner.NoTimePrefixAt | src/main/kotlin/io/github/flaredgitee/PingRunner.kt:50 | "time=" cannot start at a space or a digit |
| PingRunner.MatchAtSound | src/main/kotlin/io/github/flaredgitee/PingRunner.kt:50-52 | what the scan at a start finds is a match of the pattern there, with that group |
| PingRunner.MatchAtComplete | src/main/kotlin/io/github/flaredgitee/PingRunner.kt:50-52 | every match of the pattern at a start is what the scan finds there |
| PingRunner.MatchAtIff | src/main/kotlin/io/github/flaredgitee/PingRunner.kt:50-52 | the scan at a start finds group g exactly when the pattern matches there with group g |
| PingRunner.FirstMatchNone | src/main/kotlin/io/github/flaredgitee/PingRunner.kt:51 | `find` finds nothing only when no start in range matches |
| PingRunner.FirstMatchSome | src/main/kotlin/io/github/flaredgitee/PingRunner.kt:51 | what `find` finds is the match at some start, with no match at an earlier start |
| PingRunner.NoMatchBefore | src/main/kotlin/io/github/flaredgitee/PingRunner.kt:51 | where the scan finds nothing at every start, the pattern matches at none of them |
| PingRunner.FindRttIsLeftmostMatch | src/main/kotlin/io/github/flaredgitee/PingRunner.kt:50-52 | the round-trip time is absent exactly when the pattern matches nowhere; otherwise it is the group of the leftmost match |
| PingRunner.RttOfUnixReply | src/main/kotlin/io/github/flaredgitee/PingRunner.kt:49-52 | "time=12.3 ms" gives "12.3" |
| PingRunner.RttOfWindowsSubMillisecond | src/main/kotlin/io/github/flaredgitee/PingRunner.kt:49-52 | "time<1ms" gives "1": the pattern skips the '<' |
| PingRunner.JoinAvoids | src/main/kotlin/io/github/flaredgitee/PingRunner.kt:61-63 | joining parts free of a character, with a separator free of it, gives text free of it |
| PingRunner.FirstLines | src/main/kotlin/io/github/flaredgitee/PingRunner.kt:61-63 | the message has no carriage return and fewer than n line breaks; for "\n" output it is all of the output when that has at most n lines, and otherwise the prefix holding n - 1 breaks that the n-th break follows |
| PingRunner.FirstLinesNormalized | src/main/kotlin/io/github/flaredgitee/PingRunner.kt:61-63 | output with "\r\n" or "\r" breaks gives the message its "\n" form gives |
| PingRunner.FirstLinesOfCrLf | src/main/kotlin/io/github/flaredgitee/PingRunner.kt:61 | the first two lines of "a\r\nb\r\nc" are "a\nb" |
| PingRunner.RunOnce | src/main/kotlin/io/github/flaredgitee/PingRunner.kt:30-69 | success exactly on exit code 0, carrying the leftmost round-trip time; no exit within the wait is a timeout; a non-zero exit is a timeout exactly when a marker occurs, carrying the first 5 lines, and otherwise an error carrying the first 8; an exception is an error with its message or "unknown error" |
| HookRunner.EscapeQuotes | src/main/kotlin/io/github/flaredgitee/HookRunner.kt:74-75 | each quote gains one backslash, and a text without quotes is unchanged |
| HookRunner.EscapeQuotesAppend | src/main/kotlin/io/github/flaredgitee/HookRunner.kt:74-75 | escaping distributes over concatenation |
| HookRunner.EscapeQuotesOne | src/main/kotlin/io/github/flaredgitee/HookRunner.kt:74-75 | a quote becomes backslash and quote, and every other character, a backslash included, is kept; with EscapeQuotesAppend this fixes the escaped text |
| HookRunner.RenderValue | src/main/kotlin/io/github/flaredgitee/HookRunner.kt:71-76 | a value's text is never empty and starts with a quote exactly for strings and other objects |
| HookRunner.RenderEntry | src/main/kotlin/io/github/flaredgitee/HookRunner.kt:77 | an entry starts with the key, verbatim and unescaped, in quotes, then a colon |
| HookRunner.RenderEntries | src/main/kotlin/io/github/flaredgitee/HookRunner.kt:70-78 | one rendered entry per context entry, in order |
| HookRunner.BuildContextJson | src/main/kotlin/io/github/flaredgitee/HookRunner.kt:69-80 | the payload starts with the timestamp and a comma and ends with a brace; an empty context leaves ",}" |
| HookRunner.RunHook | src/main/kotlin/io/github/flaredgitee/HookRunner.kt:25-67 | an empty command succeeds with empty output; otherwise the command is started unless starting throws; a finished hook succeeds with its output and exit code; a hook still running after 60 s fails with "hook timed out"; an exception fails with its message |
| ContextJson.DigitsRoundTrip | src/main/kotlin/io/github/flaredgitee/HookRunner.kt:73 | the digits of a natural number read back as it |
| ContextJson.NegativeRoundTrip | src/main/kotlin/io/github/flaredgitee/HookRunner.kt:73 | a minus sign before those digits reads back as the negated number |
| ContextJson.NumberRoundTrip | src/main/kotlin/io/github/flaredgitee/HookRunner.kt:73 | a number's text reads back as the number |
| ContextJson.RawRoundTrip | src/main/kotlin/io/github/flaredgitee/HookRunner.kt:77-79 | a key or timestamp without quotes reads back up to its closing quote |
| ContextJson.EscapedRoundTrip | src/main/kotlin/io/github/flaredgitee/HookRunner.kt:74-75 | escaped text without a backslash reads back up to its closing quote |
| ContextJson.StringRoundTrip | src/main/kotlin/io/github/flaredgitee/HookRunner.kt:74-75 | a quoted string value without a backslash reads back |
| ContextJson.ValueRoundTrip | src/main/kotlin/io/github/flaredgitee/HookRunner.kt:71-76 | every rendered value reads back: null, numbers and strings as themselves, other objects as their text |
| ContextJson.EntryRoundTrip | src/main/kotlin/io/github/flaredgitee/HookRunner.kt:77 | a readable entry reads back |
| ContextJson.EntriesRoundTrip | src/main/kotlin/io/github/flaredgitee/HookRunner.kt:70-78 | the comma-joined entries, closed by a brace, read back in order |
| ContextJson.ReadPayload | src/main/kotlin/io/github/flaredgitee/HookRunner.kt:79 | the wrapper around the entries reads back as the timestamp |
| ContextJson.ContextJsonRoundTrip | src/main/kotlin/io/github/flaredgitee/HookRunner.kt:69-80 | a non-empty context without quotes in keys and timestamp and without backslashes in strings reads back as the timestamp and the context, other objects' values as strings |
| ContextJson.EmptyContextUnreadable | src/main/kotlin/io/github/flaredgitee/HookRunner.kt:79 | with no entries the payload ends in a dangling comma and does not read |
| ContextJson.UnterminatedString | src/main/kotlin/io/github/flaredgitee/HookRunner.kt:74 | a string without a closing quote does not read |
| ContextJson.BackslashSwallowsQuote | src/main/kotlin/io/github/flaredgitee/HookRunner.kt:74 | a backslash before the closing quote makes it an escaped quote |
| ContextJson.TrailingBackslashValue | src/main/kotlin/io/github/flaredgitee/HookRunner.kt:74 | a string value that ends in a backslash does not read when the closing brace follows it |
| ContextJson.TrailingBackslashEntry | src/main/kotlin/io/github/flaredgitee/HookRunner.kt:74-77 | an entry whose string value ends in a backslash does not read when the closing brace follows it |
| ContextJson.TrailingBackslashUnreadable | src/main/kotlin/io/github/flaredgitee/HookRunner.kt:69-80 | a one-entry payload whose key and timestamp hold no quote and whose string value ends in a backslash does not read back |
| MainLoop.SleepMillis | src/main/kotlin/Main.kt:75 | the pause is `--interval` seconds times 1000 ms, 1000 ms without it, never negative for a parsed configuration, and within `Long` range |
| MainLoop.ProbeWaitSeconds | src/main/kotlin/Main.kt:36-37 | each probe waits the `--timeout` in whole seconds, or 30 seconds without one |
| MainLoop.Ran | src/main/kotlin/Main.kt:74-79 | the loop runs the turns up to and including the first interrupted one |
| MainLoop.ReportToHook | src/main/kotlin/Main.kt:41-53 | reporting to the hook produces the hook's events |
| MainLoop.ReportFailure | src/main/kotlin/Main.kt:39-71 | a failure's line, then the hook's events |
| MainLoop.ReportResult | src/main/kotlin/Main.kt:37-72 | the loop body reports the probe's result exactly as `Report` defines: nothing for a success, the failure's line and the hook's events otherwise |
| MainLoop.RunTurn | src/main/kotlin/Main.kt:35-79 | one pass through the loop body causes one turn's events |
| MainLoop.LoopIsTurnsOfRan | src/main/kotlin/Main.kt:34-80 | the loop's events are those of the turns it runs |
| MainLoop.RanIsPrefix | src/main/kotlin/Main.kt:74-79 | a prefix that ends at the first interrupted turn, or at the end, is what the loop runs |
| MainLoop.LoopExit | src/main/kotlin/Main.kt:74-80 | where the loop stops, its events are the trace, and it has exited exactly when some turn was interrupted |
| MainLoop.AppendTurn | src/main/kotlin/Main.kt:34-80 | each pass adds its turn's events to the trace |
| MainLoop.RunLoop | src/main/kotlin/Main.kt:34-80 | the `while` loop causes exactly the trace of the turns, and exits exactly when some sleep is interrupted |
| MainLoop.RunProgram | src/main/kotlin/Main.kt:21-81 | bad arguments print the error and give status 2 before anything else; otherwise the program announces the target and loops, and ends with status 0 exactly when a sleep is interrupted |
| MainLoop.HookEventsCounts | src/main/kotlin/Main.kt:41-53 | reporting to the hook never probes, and starts the hook once exactly when a command is configured and it starts |
| MainLoop.ReportCounts | src/main/kotlin/Main.kt:37-72 | a report never probes, and starts the hook once exactly on a failed probe with a hook that starts |
| MainLoop.StepCounts | src/main/kotlin/Main.kt:35-79 | each turn probes exactly once and starts the hook at most once |
| MainLoop.LoopCount | src/main/kotlin/Main.kt:34-80 | the loop's events are counted turn by turn over the turns it runs |
| MainLoop.TraceCounts | src/main/kotlin/Main.kt:34-80 | the loop probes once per turn it runs and starts the hook once per run turn that failed with a hook that starts |
| MainLoop.ReportKinds | src/main/kotlin/Main.kt:37-72 | a report holds printed lines and hook starts only |
| MainLoop.StepIsUniform | src/main/kotlin/Main.kt:35-75 | a turn probes with the configured command and wait and sleeps for the configured pause |
| MainLoop.TraceIsUniform | src/main/kotlin/Main.kt:34-80 | every probe uses the same command and wait, and every sleep lasts the configured number of seconds |
| MainLoop.QuietWhileReachable | src/main/kotlin/Main.kt:37-79 | while every probe succeeds nothing is printed except the final "Interrupted, exiting", and the hook never starts |
| MainLoop.HookEventsStart | src/main/kotlin/Main.kt:42-47 | a started hook is the first of the hook's events |
| MainLoop.StepHookCall | src/main/kotlin/Main.kt:39-71 | a started hook gets the configured command, the clock reading, the target, the reason "timeout" or "error" matching the result, the message as details, and 60 s |
| MainLoop.FailurePayload | src/main/kotlin/Main.kt:42-47 | the hook payload reads back as the timestamp, the target, the reason and the details, in this order, when the timestamp holds no quote and the strings hold no backslash |

## Left out

- Process launching, stream reading, the reader threads, `waitFor` and `destroyForcibly`: what the ping and hook processes did is an input (`ProbeRun`, `HookProcess`), not a computation.
- `println`, `Thread.sleep` and `exitProcess` are events or a returned status, not I/O.
- `Instant.now()` is a timestamp parameter, and `os.name` is the `isWindows` parameter.
- The `kotlinx.cli` parser: the model starts from the raw option values it produces. Its own errors (an unknown option, a non-integer interval, a missing target) are not modelled.
- The round-trip time stays the text of the regular expression's group. `toDoubleOrNull` is floating point and is not modelled, so `onSuccess`, which ignores the value, receives the text.
- Kotlin characters are UTF-16 code units, while Dafny characters are Unicode scalar values. Surrogate pairs are not modelled.
- `toLongOrNull` also accepts non-ASCII decimal digits (`Character.digit`); the model accepts ASCII digits only.
- Hook context values that are `Number`s other than integers (floating point) are not modelled. `Num` holds an integer.
- The `while (true)` loop runs over a finite sequence of turns. A run without an interrupted sleep is cut at the end of that sequence.
- MainLoop.RunLoop: requires a non-negative interval. Every configuration `ParseArgs` yields has one, so the `IllegalArgumentException` a negative sleep would throw cannot happen.
- Exceptions thrown while writing the payload or joining the hook's reader threads are one outcome, `Threw`: a failure carrying the exception's message.
- The hook payload does not escape backslashes or control characters. This is the code's behaviour, and `TrailingBackslashUnreadable` and `EmptyContextUnreadable` show its consequences.
