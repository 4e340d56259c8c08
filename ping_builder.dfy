/** The argument vector of one ping invocation (PingBuilder.kt). Whether the
    host runs Windows is a parameter instead of a lookup of the `os.name`
    system property. */
module PingBuilder {
  import opened Wrappers
  import opened Text
  import opened Numbers
  import opened PingArgs

  /** The Unix `-W` value: `(tMs + 999) / 1000` in `Long` arithmetic, which
      wraps around on overflow and truncates toward zero. It is the timeout
      rounded up to whole seconds whenever the addition does not overflow and
      the timeout is not negative. */
  function TimeoutSecondsArg(tMs: Long): (s: Long)
    ensures 0 <= tMs as int <= LONG_MAX - 999 ==>
              (s as int - 1) * 1000 < tMs as int <= s as int * 1000
    ensures -999 <= tMs as int < 0 ==> s == 0
  {
    TruncDiv(WrapLong(tMs as int + 999) as int, 1000) as Long
  }

  /** The `-W` value is the timeout rounded up to whole seconds exactly when
      the addition does not overflow and the timeout is either at least
      -999 ms or one more than a multiple of 1000 ms; for the other negative
      timeouts the truncating division rounds down instead. */
  lemma TimeoutSecondsArgIsCeiling(tMs: Long)
    ensures var s := TimeoutSecondsArg(tMs) as int;
            var t := tMs as int;
            (s - 1) * 1000 < t <= s * 1000
            <==> t <= LONG_MAX - 999 && (t >= -999 || (t + 999) % 1000 == 0)
  {
    var t := tMs as int;
    var x := t + 999;
    var s := TimeoutSecondsArg(tMs) as int;
    if t > LONG_MAX - 999 {
      assert (x - LONG_MIN) % TWO_TO_64 == x - LONG_MIN - TWO_TO_64;
      assert WrapLong(x) < 0;
      assert s <= 0;
    } else if x < 0 {
      var q := (-x) / 1000;
      var r := (-x) % 1000;
      assert -x == 1000 * q + r;
      assert s == -q;
      assert x % 1000 == 0 <==> r == 0;
    }
  }

  /** For a negative timeout of whole seconds the truncating division gives
      one second more than rounding up would: -2000 ms gives -1, not -2. */
  lemma TimeoutSecondsArgNegative()
    ensures TimeoutSecondsArg(-2000) == -1
  {
  }

  /** Near the top of the `Long` range the addition wraps around and the
      argument turns negative. */
  lemma TimeoutSecondsArgOverflow()
    ensures TimeoutSecondsArg(LONG_MAX as Long) < 0
  {
  }

  /** The IP-version flag, the same on every platform. */
  function IpFlag(v: IpVersion): seq<string> {
    match v
    case Ipv4 => ["-4"]
    case Ipv6 => ["-6"]
    case Unspecified => []
  }

  /** Windows waits `-w` milliseconds for each reply, Unix `-W` seconds. */
  function TimeoutFlag(isWindows: bool, timeoutMillis: Option<Long>): seq<string> {
    match timeoutMillis
    case None => []
    case Some(tMs) =>
      if isWindows then ["-w", Decimal(tMs as int)]
      else ["-W", Decimal(TimeoutSecondsArg(tMs) as int)]
  }

  /** Only Unix ping takes an interval; on Windows the loop's sleep paces it. */
  function IntervalFlag(isWindows: bool, intervalSeconds: Option<Int32>): seq<string> {
    match intervalSeconds
    case None => []
    case Some(i) => if isWindows then [] else ["-i", Decimal(i as int)]
  }

  /** One packet per invocation. */
  function CountFlag(isWindows: bool): seq<string> {
    if isWindows then ["-n", "1"] else ["-c", "1"]
  }

  /** A number never reads as a flag such as "-i" or "-w". */
  lemma DecimalIsNotFlag(x: int, flag: string)
    requires |flag| == 2 && flag[0] == '-' && !IsAsciiDigit(flag[1])
    ensures Decimal(x) != flag
  {
    if x < 0 {
      assert IsAsciiDigit(Decimal(x)[1..][0]);
    }
  }

  /** Everything before the packet count: executable, IP version, timeout,
      interval. */
  function Head(isWindows: bool, c: Config): seq<string> {
    ["ping"] + IpFlag(c.ipVersion) + TimeoutFlag(isWindows, c.timeoutMillis)
    + IntervalFlag(isWindows, c.intervalSeconds)
  }

  /** The argument vector, segment by segment in its fixed order: executable,
      IP version, timeout, interval, packet count, target. */
  function PingCommand(isWindows: bool, c: Config): seq<string> {
    Head(isWindows, c) + CountFlag(isWindows) + [c.target]
  }

  /** The vector as its head, the count and the target. */
  lemma PingCommandSegments(isWindows: bool, c: Config)
    ensures var args := PingCommand(isWindows, c);
      && args[..|args| - 1] == Head(isWindows, c) + CountFlag(isWindows)
      && args[..|args| - 3] == Head(isWindows, c)
  {
  }

  /** A flag is among the options exactly when its setting asks for it: the
      numbers in between never read as flags. */
  lemma FlagInHead(isWindows: bool, c: Config, flag: string)
    requires |flag| == 2 && flag[0] == '-' && !IsAsciiDigit(flag[1])
    ensures flag in Head(isWindows, c) <==>
              || flag in IpFlag(c.ipVersion)
              || (c.timeoutMillis.Some? && flag == (if isWindows then "-w" else "-W"))
              || (c.intervalSeconds.Some? && !isWindows && flag == "-i")
  {
    NoNumberIsFlag(isWindows, c, flag);
    assert flag != "ping";
  }

  /** "ping" first, the target last, and a length of four plus one for a
      forced IP version, two for a timeout and two for a Unix interval. */
  lemma PingCommandLength(isWindows: bool, c: Config)
    ensures var args := PingCommand(isWindows, c);
      && |args| == 4 + (if c.ipVersion != Unspecified then 1 else 0)
                     + (if c.timeoutMillis.Some? then 2 else 0)
                     + (if c.intervalSeconds.Some? && !isWindows then 2 else 0)
      && args[0] == "ping" && args[|args| - 1] == c.target
  {
  }

  /** Exactly one packet-count pair, right before the target. */
  lemma PingCommandCount(isWindows: bool, c: Config)
    ensures var args := PingCommand(isWindows, c);
      && |args| >= 4
      && args[|args| - 3..|args| - 1] == (if isWindows then ["-n", "1"] else ["-c", "1"])
      && "-n" !in args[..|args| - 3] && "-c" !in args[..|args| - 3]
  {
    PingCommandSegments(isWindows, c);
    NoCountFlagInHead(isWindows, c);
    var args := PingCommand(isWindows, c);
    var head := Head(isWindows, c);
    assert args[|args| - 3..|args| - 1] == (head + CountFlag(isWindows))[|head|..];
  }

  /** Neither count flag is among the options. */
  lemma NoCountFlagInHead(isWindows: bool, c: Config)
    ensures "-n" !in Head(isWindows, c) && "-c" !in Head(isWindows, c)
  {
    FlagInHead(isWindows, c, "-n");
    FlagInHead(isWindows, c, "-c");
  }

  /** "-4" right after "ping" exactly when IPv4 is forced, "-6" exactly when
      IPv6 is. */
  lemma PingCommandIpFlag(isWindows: bool, c: Config)
    ensures var args := PingCommand(isWindows, c);
      && |args| >= 4
      && (args[1] == "-4" <==> c.ipVersion == Ipv4)
      && (args[1] == "-6" <==> c.ipVersion == Ipv6)
  {
  }

  /** The timeout pair stands right after the IP flag. */
  lemma TimeoutInHead(isWindows: bool, c: Config)
    requires c.timeoutMillis.Some?
    ensures var k := if c.ipVersion == Unspecified then 1 else 2;
            var head := Head(isWindows, c);
            k + 2 <= |head| && head[k..k + 2] == TimeoutFlag(isWindows, c.timeoutMillis)
  {
    var pre := ["ping"] + IpFlag(c.ipVersion);
    var withTimeout := pre + TimeoutFlag(isWindows, c.timeoutMillis);
    var head := Head(isWindows, c);
    assert head[..|withTimeout|] == withTimeout;
    assert withTimeout[|pre|..] == TimeoutFlag(isWindows, c.timeoutMillis);
  }

  /** The timeout flag and its value stand in the command where they stand
      in its head. */
  lemma TimeoutInCommand(isWindows: bool, c: Config)
    requires c.timeoutMillis.Some?
    ensures var args := PingCommand(isWindows, c);
            var k := if c.ipVersion == Unspecified then 1 else 2;
            k + 2 <= |args| && args[k..k + 2] == TimeoutFlag(isWindows, c.timeoutMillis)
  {
    var args := PingCommand(isWindows, c);
    var k := if c.ipVersion == Unspecified then 1 else 2;
    var head := Head(isWindows, c);
    TimeoutInHead(isWindows, c);
    assert args[..|head|] == head;
    assert args[k..k + 2] == head[k..k + 2];
  }

  /** The timeout flag and its value follow the IP flag: milliseconds on
      Windows, seconds rounded up elsewhere; "-w" or "-W" occur among the
      options exactly when a timeout is set on that platform. */
  lemma PingCommandTimeout(isWindows: bool, c: Config)
    ensures var args := PingCommand(isWindows, c);
      && |args| >= 4
      && (c.timeoutMillis.Some? ==>
            var k := if c.ipVersion == Unspecified then 1 else 2;
            args[k..k + 2] == if isWindows then ["-w", Decimal(c.timeoutMillis.value as int)]
                              else ["-W", Decimal(TimeoutSecondsArg(c.timeoutMillis.value) as int)])
      && ("-w" in args[..|args| - 1] <==> c.timeoutMillis.Some? && isWindows)
      && ("-W" in args[..|args| - 1] <==> c.timeoutMillis.Some? && !isWindows)
  {
    PingCommandSegments(isWindows, c);
    FlagInHead(isWindows, c, "-w");
    FlagInHead(isWindows, c, "-W");
    assert "-w" !in CountFlag(isWindows) && "-W" !in CountFlag(isWindows);
    if c.timeoutMillis.Some? {
      TimeoutInCommand(isWindows, c);
    }
  }

  /** "-i" and its value stand right before the packet count exactly when an
      interval is set and the platform is not Windows; a Windows vector never
      holds "-i" among its options. */
  lemma PingCommandInterval(isWindows: bool, c: Config)
    ensures var args := PingCommand(isWindows, c);
      && |args| >= 4
      && (c.intervalSeconds.Some? && !isWindows ==>
            |args| >= 6 && args[|args| - 5..|args| - 3] == ["-i", Decimal(c.intervalSeconds.value as int)])
      && ("-i" in args[..|args| - 1] <==> c.intervalSeconds.Some? && !isWindows)
  {
    PingCommandSegments(isWindows, c);
    FlagInHead(isWindows, c, "-i");
    var args := PingCommand(isWindows, c);
    assert "-i" !in CountFlag(isWindows);
    if c.intervalSeconds.Some? && !isWindows {
      var head := Head(isWindows, c);
      assert head[|head| - 2..] == IntervalFlag(isWindows, c.intervalSeconds);
      assert args[|args| - 5..|args| - 3] == head[|head| - 2..];
    }
  }

  /** None of the numbers in the vector reads as the given flag. */
  lemma NoNumberIsFlag(isWindows: bool, c: Config, flag: string)
    requires |flag| == 2 && flag[0] == '-' && !IsAsciiDigit(flag[1])
    ensures c.timeoutMillis.Some? ==> TimeoutFlag(isWindows, c.timeoutMillis)[1] != flag
    ensures c.intervalSeconds.Some? && !isWindows ==> IntervalFlag(isWindows, c.intervalSeconds)[1] != flag
    ensures CountFlag(isWindows)[1] != flag
  {
    if c.timeoutMillis.Some? {
      DecimalIsNotFlag(c.timeoutMillis.value as int, flag);
      DecimalIsNotFlag(TimeoutSecondsArg(c.timeoutMillis.value) as int, flag);
    }
    if c.intervalSeconds.Some? {
      DecimalIsNotFlag(c.intervalSeconds.value as int, flag);
    }
  }

  /** Forcing an IP version changes nothing between the platforms: the flag
      is the same on Windows and elsewhere. */
  lemma IpFlagSameOnBothPlatforms(c: Config)
    ensures var k := if c.ipVersion == Unspecified then 1 else 2;
            PingCommand(true, c)[..k] == PingCommand(false, c)[..k]
  {
    var k := if c.ipVersion == Unspecified then 1 else 2;
    assert PingCommand(true, c)[..k] == (["ping"] + IpFlag(c.ipVersion));
    assert PingCommand(false, c)[..k] == (["ping"] + IpFlag(c.ipVersion));
  }

  /** Two `add` calls append a pair. */
  lemma AddPair(args: seq<string>, x: string, y: string)
    ensures args + [x] + [y] == args + [x, y]
  {
  }

  /** `buildPingCommand`: the vector is built by appending to a list. */
  method BuildPingCommand(config: Config, isWindows: bool) returns (args: seq<string>)
    ensures args == PingCommand(isWindows, config)
  {
    var cmd := if isWindows then "ping" else "ping";
    args := [];
    args := args + [cmd];

    match config.ipVersion {
      case Ipv4 =>
        if !isWindows { args := args + ["-4"]; } else { args := args + ["-4"]; }
      case Ipv6 =>
        if !isWindows { args := args + ["-6"]; } else { args := args + ["-6"]; }
      case Unspecified =>
    }
    assert args == ["ping"] + IpFlag(config.ipVersion);

    ghost var before := args;
    if config.timeoutMillis.Some? {
      var tMs := config.timeoutMillis.value;
      if isWindows {
        AddPair(args, "-w", Decimal(tMs as int));
        args := args + ["-w"];
        args := args + [Decimal(tMs as int)];
      } else {
        var seconds := Decimal(TimeoutSecondsArg(tMs) as int);
        AddPair(args, "-W", seconds);
        args := args + ["-W"];
        args := args + [seconds];
      }
    }
    assert args == before + TimeoutFlag(isWindows, config.timeoutMillis);

    before := args;
    if config.intervalSeconds.Some? {
      var i := config.intervalSeconds.value;
      if !isWindows {
        AddPair(args, "-i", Decimal(i as int));
        args := args + ["-i"];
        args := args + [Decimal(i as int)];
      }
    }
    assert args == before + IntervalFlag(isWindows, config.intervalSeconds);

    before := args;
    if isWindows {
      AddPair(args, "-n", "1");
      args := args + ["-n"];
      args := args + ["1"];
    } else {
      AddPair(args, "-c", "1");
      args := args + ["-c"];
      args := args + ["1"];
    }
    assert args == before + CountFlag(isWindows);

    args := args + [config.target];
  }
}
