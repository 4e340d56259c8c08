/** One probe (PingRunner.kt): how the outcome of a finished, timed-out or
    failed ping process is turned into a result. Starting, waiting for and
    killing the process are the operating system's part; what it did is the
    input `ProbeRun`. */
module PingRunner {
  import opened Wrappers
  import opened Text
  import opened Numbers

  /** The round-trip time is kept as the decimal text the output showed. */
  datatype PingResult =
    | Success(rttMs: Option<string>)
    | Timeout(message: string)
    | Error(message: string)

  /** What became of the ping process. */
  datatype ProbeRun =
    | Raised(exceptionMessage: Option<string>)  // launching or reading threw
    | NotFinished                               // still running when the wait ended
    | Exited(exitCode: int, output: string)     // exit code and merged stdout/stderr

  /** `Duration.ofMillis(ms).seconds`: the wait, in whole seconds rounded down. */
  function WaitSeconds(timeoutMillis: Long): (s: int)
    ensures s * 1000 <= timeoutMillis as int < s * 1000 + 1000
    ensures 0 <= timeoutMillis as int < 1000 ==> s == 0
  {
    timeoutMillis as int / 1000
  }

  // ---------------------------------------------------------------------
  // Round-trip time: the leftmost match of
  //   (?:time=)?\s*([0-9]+(?:\.[0-9]+)?)\s*ms
  // ignoring case, and its first group.
  // ---------------------------------------------------------------------

  /** `\s` in a Java regular expression. */
  predicate IsRegexSpace(c: char) {
    c == ' ' || c == '\t' || c == '\n' || c == '\U{000B}' || c == '\U{000C}' || c == '\r'
  }

  datatype CharClass = Spaces | Digits

  predicate InClass(c: char, k: CharClass) {
    match k
    case Spaces => IsRegexSpace(c)
    case Digits => IsAsciiDigit(c)
  }

  /** Every character of `s[lo..hi]` is in class `k`. */
  predicate AllIn(s: string, lo: int, hi: int, k: CharClass) {
    0 <= lo <= hi <= |s| && forall j :: lo <= j < hi ==> InClass(s[j], k)
  }

  /** The end of the longest run of class `k` that starts at `i`: what a
      greedy `\s*` or `[0-9]*` consumes. */
  function Span(s: string, i: nat, k: CharClass): (j: nat)
    requires i <= |s|
    ensures i <= j <= |s|
    decreases |s| - i
  {
    if i < |s| && InClass(s[i], k) then Span(s, i + 1, k) else i
  }

  /** The run is all of class `k` and stops at the end or at a character
      outside the class: the greedy scan consumes as much as it can. */
  lemma {:induction false} SpanFacts(s: string, i: nat, k: CharClass)
    requires i <= |s|
    ensures AllIn(s, i, Span(s, i, k), k)
    ensures Span(s, i, k) == |s| || !InClass(s[Span(s, i, k)], k)
    decreases |s| - i
  {
    if i < |s| && InClass(s[i], k) {
      SpanFacts(s, i + 1, k);
    }
  }

  /** A run of class `k` that stops at a character outside the class is the
      longest one. */
  lemma {:induction false} SpanUnique(s: string, i: nat, j: nat, k: CharClass)
    requires i <= j <= |s| && AllIn(s, i, j, k) && (j == |s| || !InClass(s[j], k))
    ensures Span(s, i, k) == j
    decreases j - i
  {
    if i < j {
      assert InClass(s[i], k);
      SpanUnique(s, i + 1, j, k);
    }
  }

  /** Where the optional "time=" ends. */
  function PrefixEnd(s: string, i: nat): (a: nat)
    requires i <= |s|
    ensures i <= a <= |s|
  {
    if OccursIgnoreCaseAt(s, "time=", i) then i + 5 else i
  }

  /** Where a number whose integer digits end at `c` ends: after the
      fraction if a dot and a digit follow, at `c` otherwise. */
  function NumberEnd(s: string, c: nat): (e: nat)
    requires c <= |s|
    ensures c <= e <= |s|
  {
    if c + 1 < |s| && s[c] == '.' && IsAsciiDigit(s[c + 1]) then Span(s, c + 1, Digits) else c
  }

  /** The group the pattern captures when the match starts exactly at `i`,
      scanning greedily: an optional "time=", spaces, digits, an optional
      fraction, spaces, "ms". */
  function MatchAt(s: string, i: nat): (g: Option<string>)
    requires i <= |s|
  {
    var b := Span(s, PrefixEnd(s, i), Spaces);
    var c := Span(s, b, Digits);
    if c == b then None
    else
      var e := NumberEnd(s, c);
      if OccursIgnoreCaseAt(s, "ms", Span(s, e, Spaces)) then Some(s[b..e]) else None
  }

  /** `s[b..e]` is digits with, optionally, a dot and more digits. */
  ghost predicate IsDecimalNumber(s: string, b: int, e: int) {
    && 0 <= b < e <= |s|
    && (AllIn(s, b, e, Digits) || exists m :: FractionAt(s, b, m, e))
  }

  /** `s[b..e]` is digits, a dot at `m`, digits. */
  ghost predicate FractionAt(s: string, b: int, m: int, e: int) {
    b < m && m + 1 < e && AllIn(s, b, m, Digits) && AllIn(s, m + 1, e, Digits) && s[m] == '.'
  }

  /** The regular expression matches `s[i..d + 2]`: "time=" (any case) in
      `s[i..a]` or nothing, spaces in `s[a..b]`, the number in `s[b..e]` (the
      group), spaces in `s[e..d]` and "ms" (any case) at `d`. */
  ghost predicate MatchShape(s: string, i: int, a: int, b: int, e: int, d: int) {
    && 0 <= i <= a <= b < e <= d && d + 2 <= |s|
    && (a == i || (a == i + 5 && OccursIgnoreCaseAt(s, "time=", i)))
    && AllIn(s, a, b, Spaces)
    && IsDecimalNumber(s, b, e)
    && AllIn(s, e, d, Spaces)
    && OccursIgnoreCaseAt(s, "ms", d)
  }

  /** Some match starting at `i` captures `g`. */
  ghost predicate MatchesAt(s: string, i: int, g: string) {
    exists a, b, e, d {:trigger MatchShape(s, i, a, b, e, d)} :: MatchShape(s, i, a, b, e, d) && g == s[b..e]
  }

  /** Folding case never turns a space, a digit or a dot into a letter. */
  lemma FoldedLetterIsNoSpaceOrDigit(c: char)
    requires 'a' <= FoldCase(c) <= 'z'
    ensures !IsRegexSpace(c) && !IsAsciiDigit(c) && c != '.'
  {
  }

  /** Folding case leaves spaces and digits alone. */
  lemma FoldsToItself(c: char)
    requires IsRegexSpace(c) || IsAsciiDigit(c)
    ensures FoldCase(c) == c
  {
  }

  /** A "time=" cannot start at a space or a digit. */
  lemma NoTimePrefixAt(s: string, i: int)
    requires 0 <= i < |s| && (IsRegexSpace(s[i]) || IsAsciiDigit(s[i]))
    ensures !OccursIgnoreCaseAt(s, "time=", i)
  {
    FoldsToItself(s[i]);
    assert i + 5 <= |s| ==> s[i..i + 5][0] == s[i];
  }

  /** The positions the scan stops at delimit a match. */
  lemma ScanIsMatch(s: string, i: nat, b: nat, c: nat, e: nat, d: nat)
    requires i <= |s| && b == Span(s, PrefixEnd(s, i), Spaces) && c == Span(s, b, Digits) && c != b
    requires e == NumberEnd(s, c) && d == Span(s, e, Spaces) && OccursIgnoreCaseAt(s, "ms", d)
    ensures MatchShape(s, i, PrefixEnd(s, i), b, e, d)
  {
    SpanFacts(s, PrefixEnd(s, i), Spaces);
    SpanFacts(s, b, Digits);
    SpanFacts(s, e, Spaces);
    if e != c {
      SpanFacts(s, c + 1, Digits);
      assert FractionAt(s, b, c, e);
    }
  }

  /** What the scan finds is a match. */
  lemma MatchAtSound(s: string, i: nat)
    requires i <= |s| && MatchAt(s, i).Some?
    ensures MatchesAt(s, i, MatchAt(s, i).value)
  {
    var b := Span(s, PrefixEnd(s, i), Spaces);
    var c := Span(s, b, Digits);
    var e := NumberEnd(s, c);
    ScanIsMatch(s, i, b, c, e, Span(s, e, Spaces));
  }

  /** In a match the character right after the number is the start of the
      trailing spaces or of "ms", so neither a digit nor a dot. */
  lemma NumberStopsAt(s: string, i: int, a: int, b: int, e: int, d: int)
    requires MatchShape(s, i, a, b, e, d)
    ensures !IsAsciiDigit(s[e]) && s[e] != '.'
  {
    if e == d {
      assert FoldCase(s[d]) == FoldCase("ms"[0]) by { assert s[d..d + 2][0] == s[d]; }
      FoldedLetterIsNoSpaceOrDigit(s[d]);
    } else {
      assert InClass(s[e], Spaces);
    }
  }

  /** An "ms" ends a run of spaces. */
  lemma MsStopsSpaces(s: string, d: int)
    requires OccursIgnoreCaseAt(s, "ms", d)
    ensures !IsRegexSpace(s[d])
  {
    assert FoldCase(s[d]) == 'm' by { assert s[d..d + 2][0] == s[d]; }
    FoldedLetterIsNoSpaceOrDigit(s[d]);
  }

  /** The scan takes the optional "time=" exactly as the match does. */
  lemma PrefixOfMatch(s: string, i: nat, a: int, b: int, e: int, d: int)
    requires MatchShape(s, i, a, b, e, d)
    ensures PrefixEnd(s, i) == a
  {
    if a == i {
      assert IsRegexSpace(s[i]) || IsAsciiDigit(s[i]) by {
        if b > i {
          assert InClass(s[i], Spaces);
        }
      }
      NoTimePrefixAt(s, i);
    }
  }

  /** The scan reads the number of the match: integer digits, then the
      fraction exactly when the match has one. */
  lemma NumberOfMatch(s: string, i: nat, a: int, b: int, e: int, d: int)
    requires MatchShape(s, i, a, b, e, d)
    ensures IsAsciiDigit(s[b])
    ensures Span(s, b, Digits) != b && NumberEnd(s, Span(s, b, Digits)) == e
  {
    NumberStopsAt(s, i, a, b, e, d);
    assert InClass(s[b], Digits) by {
      if !AllIn(s, b, e, Digits) {
        var m :| FractionAt(s, b, m, e);
      }
    }
    if AllIn(s, b, e, Digits) {
      SpanUnique(s, b, e, Digits);
    } else {
      var m: nat :| FractionAt(s, b, m, e);
      SpanUnique(s, b, m, Digits);
      SpanUnique(s, m + 1, e, Digits);
      assert IsAsciiDigit(s[m + 1]) by { assert InClass(s[m + 1], Digits); }
    }
  }

  /** Every match is what the scan finds: at one start the pattern can match
      in one way only, so the group is determined by the start. */
  lemma MatchAtComplete(s: string, i: nat, a: int, b: int, e: int, d: int)
    requires MatchShape(s, i, a, b, e, d)
    ensures MatchAt(s, i) == Some(s[b..e])
  {
    PrefixOfMatch(s, i, a, b, e, d);
    NumberOfMatch(s, i, a, b, e, d);
    SpanUnique(s, a, b, Spaces);
    MsStopsSpaces(s, d);
    SpanUnique(s, e, d, Spaces);
  }

  /** The scan at `i` finds `g` exactly when the pattern matches at `i` with
      group `g`. */
  lemma MatchAtIff(s: string, i: nat, g: string)
    requires i <= |s|
    ensures MatchAt(s, i) == Some(g) <==> MatchesAt(s, i, g)
  {
    if MatchAt(s, i) == Some(g) {
      MatchAtSound(s, i);
    }
    if MatchesAt(s, i, g) {
      var a, b, e, d :| MatchShape(s, i, a, b, e, d) && g == s[b..e];
      MatchAtComplete(s, i, a, b, e, d);
    }
  }

  /** The group found at the first start from `i` up to `n` at which
      `matchAt` succeeds: how `Regex.find` tries each start in turn. */
  function FirstMatch(matchAt: nat -> Option<string>, i: nat, n: nat): Option<string>
    decreases n + 1 - i
  {
    if i > n then None
    else match matchAt(i)
      case Some(g) => Some(g)
      case None => FirstMatch(matchAt, i + 1, n)
  }

  lemma {:induction false} FirstMatchNone(matchAt: nat -> Option<string>, i: nat, n: nat)
    requires FirstMatch(matchAt, i, n).None?
    ensures forall j: nat :: i <= j <= n ==> matchAt(j).None?
    decreases n + 1 - i
  {
    if i <= n {
      FirstMatchNone(matchAt, i + 1, n);
    }
  }

  lemma {:induction false} FirstMatchSome(matchAt: nat -> Option<string>, i: nat, n: nat)
    requires FirstMatch(matchAt, i, n).Some?
    ensures exists j: nat :: i <= j <= n && matchAt(j) == FirstMatch(matchAt, i, n)
                             && forall k: nat :: i <= k < j ==> matchAt(k).None?
    decreases n + 1 - i
  {
    if matchAt(i).None? {
      FirstMatchSome(matchAt, i + 1, n);
      var j: nat :| i + 1 <= j <= n && matchAt(j) == FirstMatch(matchAt, i + 1, n)
                    && forall k: nat :: i + 1 <= k < j ==> matchAt(k).None?;
      assert forall k: nat :: i <= k < j ==> matchAt(k).None?;
    }
  }

  /** The scan at each start of `s`. */
  function ScanAt(s: string): nat -> Option<string> {
    (j: nat) => if j <= |s| then MatchAt(s, j) else None
  }

  /** `regex.find(output)?.groupValues?.get(1)`: the round-trip time text of
      the leftmost match, or none. */
  function FindRtt(output: string): Option<string> {
    FirstMatch(ScanAt(output), 0, |output|)
  }

  /** Where the scan finds nothing at any start the pattern matches nowhere
      before `n`. */
  lemma NoMatchBefore(s: string, n: nat)
    requires n <= |s| + 1 && forall j: nat :: j < n ==> ScanAt(s)(j).None?
    ensures forall j, g :: 0 <= j < n ==> !MatchesAt(s, j, g)
  {
    forall j, g | 0 <= j < n ensures !MatchesAt(s, j, g) {
      assert ScanAt(s)(j).None?;
      MatchAtIff(s, j, g);
    }
  }

  /** The round-trip time is present exactly when the pattern matches
      somewhere, and then it is the group of the leftmost match. */
  lemma FindRttIsLeftmostMatch(output: string)
    ensures FindRtt(output).None? <==> forall i, g :: 0 <= i <= |output| ==> !MatchesAt(output, i, g)
    ensures FindRtt(output).Some? ==>
              exists i :: 0 <= i <= |output| && MatchesAt(output, i, FindRtt(output).value)
                          && forall j, g :: 0 <= j < i ==> !MatchesAt(output, j, g)
  {
    var scan := ScanAt(output);
    if FindRtt(output).None? {
      FirstMatchNone(scan, 0, |output|);
      NoMatchBefore(output, |output| + 1);
    } else {
      FirstMatchSome(scan, 0, |output|);
      var i: nat :| i <= |output| && scan(i) == FindRtt(output) && forall k: nat :: k < i ==> scan(k).None?;
      MatchAtIff(output, i, FindRtt(output).value);
      NoMatchBefore(output, i);
    }
  }

  /** The Unix reply line's "time=12.3 ms" gives "12.3". */
  lemma RttOfUnixReply()
    ensures FindRtt("time=12.3 ms") == Some("12.3")
  {
    var s := "time=12.3 ms";
    assert FractionAt(s, 5, 7, 9);
    assert MatchShape(s, 0, 5, 5, 9, 10);
    MatchAtComplete(s, 0, 5, 5, 9, 10);
    assert s[5..9] == "12.3";
  }

  /** Windows reports a sub-millisecond reply as "time<1ms": the pattern
      skips the '<' and reads "1". */
  lemma RttOfWindowsSubMillisecond()
    ensures FindRtt("time<1ms") == Some("1")
  {
    var s := "time<1ms";
    assert MatchShape(s, 5, 5, 5, 6, 6);
    MatchAtComplete(s, 5, 5, 5, 6, 6);
    forall j | 0 <= j < 5 ensures MatchAt(s, j) == None {
      assert !IsAsciiDigit(s[j]) && !IsRegexSpace(s[j]);
      assert !OccursIgnoreCaseAt(s, "time=", j) by {
        assert j + 5 <= |s| ==> s[j..j + 5][4] != '=';
      }
    }
    assert s[5..6] == "1";
  }

  // ---------------------------------------------------------------------
  // Messages and classification
  // ---------------------------------------------------------------------

  /** A joined text contains a character only if a part or the separator does. */
  lemma {:induction false} JoinAvoids(parts: seq<string>, sep: string, c: char)
    requires forall p <- parts :: c !in p
    requires c !in sep
    ensures c !in Join(parts, sep)
  {
    if |parts| > 1 {
      JoinAvoids(parts[1..], sep, c);
    }
  }

  /** The first `n` lines of a text. */
  function TakeLines(output: string, n: nat): seq<string> {
    var ls := Lines(output);
    if n <= |ls| then ls[..n] else ls
  }

  /** `output.lines().take(n).joinToString("\n")`: at most `n` lines; when
      the output uses "\n" alone, a prefix of it, and all of it when it has
      no more than `n` lines. */
  function FirstLines(output: string, n: nat): (msg: string)
    ensures '\r' !in msg
    ensures n >= 1 ==> Count('\n', msg) < n
    ensures '\r' !in output ==> msg <= output
    ensures '\r' !in output && Count('\n', output) < n ==> msg == output
    ensures '\r' !in output && n >= 1 && Count('\n', output) >= n ==>
              Count('\n', msg) == n - 1 && msg + "\n" <= output
  {
    FirstLinesFacts(output, n);
    Join(TakeLines(output, n), "\n")
  }

  lemma FirstLinesFacts(output: string, n: nat)
    ensures var msg := Join(TakeLines(output, n), "\n");
      && '\r' !in msg
      && (n >= 1 ==> Count('\n', msg) < n)
      && ('\r' !in output ==> msg <= output)
      && ('\r' !in output && Count('\n', output) < n ==> msg == output)
      && ('\r' !in output && n >= 1 && Count('\n', output) >= n ==>
            Count('\n', msg) == n - 1 && msg + "\n" <= output)
  {
    var ls := Lines(output);
    var taken := TakeLines(output, n);
    JoinAvoids(taken, "\n", '\r');
    if n >= 1 {
      CountJoin(taken, '\n');
    }
    if n <= |ls| {
      JoinTakeIsPrefix(ls, n, "\n");
    }
    if n == |ls| {
      assert ls[..n] == ls;
    }
    if '\r' !in output {
      JoinLines(output);
      CountJoin(ls, '\n');
      if 1 <= n < |ls| {
        JoinTakeSepIsPrefix(ls, n, "\n");
      }
    }
  }

  /** Output with "\r\n" or "\r" breaks gives the message its "\n" form
      gives, so the facts about "\n" output carry over. */
  lemma FirstLinesNormalized(output: string, n: nat)
    ensures FirstLines(output, n) == FirstLines(NormalizeBreaks(output), n)
  {
    LinesNormalize(output);
  }

  /** Of Windows output, the first two lines are kept and joined with "\n". */
  lemma FirstLinesOfCrLf()
    ensures FirstLines("a\r\nb\r\nc", 2) == "a\nb"
  {
    LinesNoBreak("c");
    LinesAtBreak("b", "\r\n", "c");
    assert "a\r\nb\r\nc" == "a" + "\r\n" + "b\r\nc";
    assert "b\r\nc" == "b" + "\r\n" + "c";
    LinesAtBreak("a", "\r\n", "b\r\nc");
    assert TakeLines("a\r\nb\r\nc", 2) == ["a", "b"];
  }

  /** Failure output that reads like an unanswered probe. */
  predicate LooksLikeTimeout(output: string) {
    || ContainsIgnoreCase(output, "timed out")
    || ContainsIgnoreCase(output, "100% packet loss")
    || ContainsIgnoreCase(output, "Destination host unreachable")
  }

  /** The classification of `runOnce`. */
  function RunOnce(run: ProbeRun): (r: PingResult)
    ensures r.Success? <==> run.Exited? && run.exitCode == 0
    ensures r.Success? ==> r.rttMs == FindRtt(run.output)
    ensures run.NotFinished? ==> r == Timeout("ping process timed out")
    ensures run.Exited? && run.exitCode != 0 ==>
              && (r.Timeout? <==> LooksLikeTimeout(run.output))
              && r.message == FirstLines(run.output, if r.Timeout? then 5 else 8)
    ensures run.Raised? ==> r == Error(run.exceptionMessage.GetOr("unknown error"))
  {
    match run
    case Raised(m) => Error(m.GetOr("unknown error"))
    case NotFinished => Timeout("ping process timed out")
    case Exited(exit, output) =>
      if exit == 0 then PingResult.Success(FindRtt(output))
      else if LooksLikeTimeout(output) then Timeout(FirstLines(output, 5))
      else Error(FirstLines(output, 8))
  }
}
