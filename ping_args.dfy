/** The configuration of one ping-forever run and its derivation from the raw
    option values that the command-line parser yields (PingArgs.kt). */
module PingArgs {
  import opened Wrappers
  import opened Text
  import opened Numbers

  /** Which IP version ping is forced to use. */
  datatype IpVersion = Unspecified | Ipv4 | Ipv6

  /** Immutable once parsed; `None` stands for Kotlin's null. */
  datatype Config = Config(
    target: string,
    hook: seq<string>,
    timeoutMillis: Option<Long>,
    intervalSeconds: Option<Int32>,
    ipVersion: IpVersion)

  /** The option values as the command-line parser hands them over. */
  datatype RawOptions = RawOptions(
    timeoutRaw: string,
    intervalSentinel: Int32,
    hookRaw: string,
    flag4: bool,
    flag6: bool,
    target: string)

  /** The values of the options that were not given on the command line. */
  function DefaultOptions(target: string): (o: RawOptions)
    ensures o.target == target
    ensures o.timeoutRaw == "" && o.hookRaw == "" && o.intervalSentinel < 0
    ensures !o.flag4 && !o.flag6
  {
    RawOptions("", -1, "", false, false, target)
  }

  /** `-4` and `-6` together cancel out and leave the choice to the system. */
  function ResolveIpVersion(flag4: bool, flag6: bool): (v: IpVersion)
    ensures v == Ipv4 <==> flag4 && !flag6
    ensures v == Ipv6 <==> flag6 && !flag4
    ensures v == Unspecified <==> flag4 == flag6
  {
    if flag4 && flag6 then Unspecified
    else if flag4 then Ipv4
    else if flag6 then Ipv6
    else Unspecified
  }

  /** The hook command line split at single spaces, blank pieces dropped; a
      blank hook string gives no command at all. The short cut for a blank
      string gives the same as splitting it. */
  function HookList(hookRaw: string): (tokens: seq<string>)
    ensures tokens == NonBlank(SplitOnSpace(hookRaw))
    ensures forall t <- tokens :: !IsBlank(t) && ' ' !in t
    ensures IsBlank(hookRaw) ==> tokens == []
  {
    if IsBlank(hookRaw) then
      SplitBlank(hookRaw);
      NonBlankOfAllBlank(SplitOnSpace(hookRaw));
      []
    else NonBlank(SplitOnSpace(hookRaw))
  }

  /** No timeout for a blank string, the number for a `Long` literal, and an
      error naming the raw text otherwise. */
  function ParseTimeout(timeoutRaw: string): (r: Result<Option<Long>, string>)
    ensures IsBlank(timeoutRaw) ==> r == Success(None)
    ensures !IsBlank(timeoutRaw) && ParseLong(timeoutRaw).Some? ==> r == Success(ParseLong(timeoutRaw))
    ensures !IsBlank(timeoutRaw) && ParseLong(timeoutRaw).None? ==>
              r == Failure("invalid timeout value: " + timeoutRaw)
  {
    if IsBlank(timeoutRaw) then Success(None)
    else match ParseLong(timeoutRaw)
      case Some(t) => Success(Some(t))
      case None => Failure("invalid timeout value: " + timeoutRaw)
  }

  /** A negative sentinel means "not given"; zero and above are kept. */
  function IntervalFromSentinel(sentinel: Int32): (r: Option<Int32>)
    ensures r.None? <==> sentinel < 0
    ensures r.Some? ==> r.value == sentinel && r.value >= 0
  {
    if sentinel < 0 then None else Some(sentinel)
  }

  /** The part of `parseArgs` after the parser has run. */
  function ParseArgs(o: RawOptions): (r: Result<Config, string>)
    ensures r.Failure? <==> ParseTimeout(o.timeoutRaw).Failure?
    ensures r.Failure? ==> r.error == "invalid timeout value: " + o.timeoutRaw
    ensures r.Success? ==>
              && r.value.target == o.target
              && r.value.hook == HookList(o.hookRaw)
              && r.value.timeoutMillis == ParseTimeout(o.timeoutRaw).value
              && r.value.intervalSeconds == IntervalFromSentinel(o.intervalSentinel)
              && r.value.ipVersion == ResolveIpVersion(o.flag4, o.flag6)
    ensures r.Success? ==> IntervalIsValid(r.value)
  {
    var ipVersion := ResolveIpVersion(o.flag4, o.flag6);
    var hookList := HookList(o.hookRaw);
    match ParseTimeout(o.timeoutRaw)
    case Failure(e) => Failure(e)
    case Success(timeout) =>
      var interval := IntervalFromSentinel(o.intervalSentinel);
      Success(Config(o.target, hookList, timeout, interval, ipVersion))
  }

  /** What every parsed configuration satisfies: no negative interval. */
  predicate IntervalIsValid(c: Config) {
    c.intervalSeconds.None? || c.intervalSeconds.value >= 0
  }

  /** With only a target on the command line: no timeout, no interval, no hook
      and the system's choice of IP version. */
  lemma ParseTargetOnly(target: string)
    ensures ParseArgs(DefaultOptions(target)) == Success(Config(target, [], None, None, Unspecified))
  {
  }

  /** `-t 5000 -H "echo hello" example.com`. */
  lemma ParseHookAndTimeout()
    ensures var r := ParseArgs(RawOptions("5000", -1, "echo hello", false, false, "example.com"));
            && r.Success?
            && r.value.target == "example.com"
            && r.value.timeoutMillis == Some(5000)
            && r.value.hook == ["echo", "hello"]
  {
    TimeoutOf5000();
    HookOfEchoHello();
  }

  lemma TimeoutOf5000()
    ensures ParseTimeout("5000") == Success(Some(5000))
  {
    assert !IsBlank("5000") by { assert !IsWhitespace("5000"[0]); }
    var s := "5000";
    assert AllDigits(s);
    assert DigitsValue("5") == 5 by { assert "5"[..0] == ""; }
    assert DigitsValue("50") == 50 by { assert "50"[..1] == "5"; }
    assert DigitsValue("500") == 500 by { assert "500"[..2] == "50"; }
    assert DigitsValue(s) == 5000 by { assert s[..3] == "500"; }
  }

  /** Two words separated by one space become two hook tokens. */
  lemma HookOfTwoWords(a: string, b: string)
    requires a != [] && b != [] && ' ' !in a && ' ' !in b
    requires !IsWhitespace(a[0]) && !IsWhitespace(b[0])
    ensures HookList(a + " " + b) == [a, b]
  {
    assert !IsBlank(a + " " + b) by { assert (a + " " + b)[0] == a[0]; }
    SplitNoSpace(b);
    SplitAtSpace(a, b);
    assert [a] + [b] == [a, b];
    assert NonBlank([a, b]) == [a] + NonBlank([b]) by {
      assert [a, b][1..] == [b];
    }
  }

  lemma HookOfEchoHello()
    ensures HookList("echo hello") == ["echo", "hello"]
  {
    HookOfTwoWords("echo", "hello");
    assert "echo" + " " + "hello" == "echo hello";
  }

  /** A sign with no digits after it is not a number. */
  lemma ParseLoneSign(sign: char)
    requires sign == '+' || sign == '-'
    ensures ParseTimeout([sign]) == Failure("invalid timeout value: " + [sign])
  {
    assert !IsBlank([sign]) by { assert !IsWhitespace([sign][0]); }
  }

  /** A timeout that is not a number stops parsing with the raw text in the
      message. */
  lemma ParseBadTimeout()
    ensures ParseArgs(RawOptions("5s", -1, "", false, false, "example.com"))
            == Failure("invalid timeout value: 5s")
  {
    assert !IsBlank("5s") by { assert !IsWhitespace("5s"[0]); }
    assert !AllDigits("5s") by { assert !IsAsciiDigit("5s"[1]); }
    assert ParseLong("5s") == None;
    assert "invalid timeout value: " + "5s" == "invalid timeout value: 5s";
  }
}
