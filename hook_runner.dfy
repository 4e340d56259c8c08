/** The failure hook (HookRunner.kt): the command the user gave is started,
    fed a small JSON-like description of the failure on its standard input,
    and waited for. Starting, feeding and waiting are the operating system's
    part; what became of the process is the input `HookProcess`. */
module HookRunner {
  import opened Wrappers
  import opened Text
  import opened Numbers

  /** What a finished hook printed and its exit code. */
  datatype HookOutput = HookOutput(stdout: string, stderr: string, exitCode: Int32)

  /** A context value: null, an integral number, a string, or any other object,
      which appears as its `toString()` text. */
  datatype Value = Null | Num(n: int) | Str(s: string) | Other(text: string)

  /** One context entry; a context lists them in insertion order. */
  datatype Entry = Entry(key: string, value: Value)

  /** The hook gets at most a minute before it is killed. */
  const HOOK_WAIT_SECONDS: int := 60

  /** `replace("\"", "\\\"")`: a backslash before every double quote and no
      other change; backslashes themselves are left alone. */
  function EscapeQuotes(s: string): (r: string)
    ensures |r| == |s| + Count('"', s)
    ensures '"' !in s ==> r == s
  {
    if s == [] then []
    else (if s[0] == '"' then "\\\"" else [s[0]]) + EscapeQuotes(s[1..])
  }

  /** Escaping works character by character: it distributes over
      concatenation. */
  lemma {:induction false} EscapeQuotesAppend(a: string, b: string)
    ensures EscapeQuotes(a + b) == EscapeQuotes(a) + EscapeQuotes(b)
  {
    if a == [] {
      assert a + b == b;
    } else {
      assert (a + b)[0] == a[0];
      assert (a + b)[1..] == a[1..] + b;
      EscapeQuotesAppend(a[1..], b);
    }
  }

  /** A quote becomes a backslash and a quote; every other character,
      backslashes included, stays as it is. */
  lemma EscapeQuotesOne(c: char)
    ensures EscapeQuotes([c]) == if c == '"' then "\\\"" else [c]
  {
    assert [c][1..] == [];
  }

  /** The text of one value: `null`, the decimal number, or the escaped text
      in double quotes. */
  function RenderValue(v: Value): (t: string)
    ensures |t| >= 1
    ensures t[0] == '"' <==> v.Str? || v.Other?
  {
    match v
    case Null => "null"
    case Num(n) => Decimal(n)
    case Str(s) => "\"" + EscapeQuotes(s) + "\""
    case Other(text) => "\"" + EscapeQuotes(text) + "\""
  }

  /** `"key":value`, the key written as it is. */
  function RenderEntry(e: Entry): (t: string)
    ensures |t| >= 3 && t[0] == '"'
    ensures "\"" + e.key + "\":" <= t
  {
    "\"" + e.key + "\":" + RenderValue(e.value)
  }

  function RenderEntries(ctx: seq<Entry>): (ts: seq<string>)
    ensures |ts| == |ctx|
    ensures forall i :: 0 <= i < |ctx| ==> ts[i] == RenderEntry(ctx[i])
  {
    if ctx == [] then [] else [RenderEntry(ctx[0])] + RenderEntries(ctx[1..])
  }

  const TIMESTAMP_HEAD: string := "{\"timestamp\":\""

  /** `buildContextJson`: the timestamp (the ISO-8601 text of the current
      instant) first, then the entries separated by commas, in braces. A comma
      follows the timestamp even when there are no entries. */
  function BuildContextJson(timestamp: string, ctx: seq<Entry>): (json: string)
    ensures TIMESTAMP_HEAD + timestamp + "\"," <= json
    ensures json[|json| - 1] == '}'
    ensures ctx == [] ==> json == TIMESTAMP_HEAD + timestamp + "\",}"
  {
    TIMESTAMP_HEAD + timestamp + "\"," + Join(RenderEntries(ctx), ",") + "}"
  }

  /** What became of the hook process. */
  datatype HookProcess =
    | StartFailed(message: Option<string>)   // the process could not be started
    | Threw(message: Option<string>)         // feeding the input or joining the readers threw
    | NotFinished                            // still running after a minute
    | Finished(stdout: string, stderr: string, exitCode: Int32)

  /** A started hook: its command line, the clock reading and context its
      payload carries, and how long it is waited for. */
  datatype HookCall = HookCall(argv: seq<string>, timestamp: string, context: seq<Entry>, waitSeconds: int)

  /** What the started hook is fed on its standard input. */
  function Stdin(call: HookCall): string {
    BuildContextJson(call.timestamp, call.context)
  }

  /** `Result<HookOutput>`; a failure carries the exception's message, which
      may be null. */
  type HookResult = Result<HookOutput, Option<string>>

  datatype HookRun = HookRun(call: Option<HookCall>, result: HookResult)

  /** `runHook`: an empty command succeeds at once with empty output; a hook
      that finishes succeeds with what it printed whatever its exit code; a
      hook still running after a minute is a failure, and so is an exception. */
  function RunHook(hook: seq<string>, ctx: seq<Entry>, timestamp: string, proc: HookProcess): (run: HookRun)
    ensures hook == [] ==> run == HookRun(None, Success(HookOutput("", "", 0)))
    ensures hook != [] ==>
              && (run.call.Some? <==> !proc.StartFailed?)
              && (run.call.Some? ==> run.call.value == HookCall(hook, timestamp, ctx, HOOK_WAIT_SECONDS))
    ensures hook != [] && proc.Finished? ==>
              run.result == Success(HookOutput(proc.stdout, proc.stderr, proc.exitCode))
    ensures hook != [] && proc.NotFinished? ==> run.result == Failure(Some("hook timed out"))
    ensures hook != [] && (proc.StartFailed? || proc.Threw?) ==> run.result == Failure(proc.message)
    ensures run.result.Failure? ==> hook != [] && !proc.Finished?
  {
    if hook == [] then HookRun(None, Success(HookOutput("", "", 0)))
    else
      var call := HookCall(hook, timestamp, ctx, HOOK_WAIT_SECONDS);
      match proc
      case StartFailed(m) => HookRun(None, Failure(m))
      case Threw(m) => HookRun(Some(call), Failure(m))
      case NotFinished => HookRun(Some(call), Failure(Some("hook timed out")))
      case Finished(out, err, exit) => HookRun(Some(call), Success(HookOutput(out, err, exit)))
  }
}
