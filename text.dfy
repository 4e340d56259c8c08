/** The pieces of Kotlin's string library that the program relies on, as they
    behave on the JVM: blank tests, case-insensitive search, `lines()`,
    `joinToString`, `split(" ")` and filtering out blank pieces. */
module Text {

  /** `Char.isWhitespace()`: Java's `Character.isWhitespace` or
      `Character.isSpaceChar`. */
  predicate IsWhitespace(c: char) {
    || ('\t' <= c <= '\r')
    || ('\U{001C}' <= c <= ' ')
    || c == '\U{00A0}' || c == '\U{1680}'
    || ('\U{2000}' <= c <= '\U{200A}')
    || c == '\U{2028}' || c == '\U{2029}' || c == '\U{202F}' || c == '\U{205F}' || c == '\U{3000}'
  }

  /** `String.isBlank()`: empty or made of whitespace only. */
  predicate IsBlank(s: string) {
    forall i :: 0 <= i < |s| ==> IsWhitespace(s[i])
  }

  predicate IsAsciiDigit(c: char) {
    '0' <= c <= '9'
  }

  /** The character an ignore-case comparison puts in place of `c` when the
      other side is an ASCII character: ASCII upper-case letters become lower
      case, and so do the four non-ASCII characters whose simple case mapping
      is an ASCII letter (dotted and dotless i, long s, Kelvin sign). */
  function FoldCase(c: char): (f: char)
    ensures 'a' <= f <= 'z' ==> 'a' <= c <= 'z' || 'A' <= c <= 'Z' || c as int >= 0x80
    ensures c == f || ('a' <= f <= 'z' && c != f)
    ensures 'A' <= c <= 'Z' ==> f as int == c as int + 32
    ensures c == '\U{0130}' || c == '\U{0131}' ==> f == 'i'
    ensures c == '\U{017F}' ==> f == 's'
    ensures c == '\U{212A}' ==> f == 'k'
    ensures !('A' <= c <= 'Z') && c !in "\U{0130}\U{0131}\U{017F}\U{212A}" ==> f == c
  {
    if 'A' <= c <= 'Z' then (c as int - 'A' as int + 'a' as int) as char
    else if c == '\U{0130}' || c == '\U{0131}' then 'i'
    else if c == '\U{017F}' then 's'
    else if c == '\U{212A}' then 'k'
    else c
  }

  /** Equal length and equal character by character, ignoring case. */
  predicate EqualsIgnoreCase(a: string, b: string) {
    |a| == |b| && forall i :: 0 <= i < |a| ==> FoldCase(a[i]) == FoldCase(b[i])
  }

  /** `needle` occurs in `s` at index `i`, ignoring case. */
  predicate OccursIgnoreCaseAt(s: string, needle: string, i: int) {
    0 <= i && i + |needle| <= |s| && EqualsIgnoreCase(s[i..i + |needle|], needle)
  }

  /** `s.contains(needle, ignoreCase = true)`, scanning from index `from`. */
  function ContainsIgnoreCaseFrom(s: string, needle: string, from: nat): bool
    decreases |s| - from
  {
    if from + |needle| > |s| then false
    else OccursIgnoreCaseAt(s, needle, from) || ContainsIgnoreCaseFrom(s, needle, from + 1)
  }

  lemma {:induction false} ContainsIgnoreCaseFromIff(s: string, needle: string, from: nat)
    ensures ContainsIgnoreCaseFrom(s, needle, from) <==> exists i :: from <= i && OccursIgnoreCaseAt(s, needle, i)
    decreases |s| - from
  {
    if from + |needle| <= |s| {
      ContainsIgnoreCaseFromIff(s, needle, from + 1);
      if ContainsIgnoreCaseFrom(s, needle, from) && !OccursIgnoreCaseAt(s, needle, from) {
        var i :| from + 1 <= i && OccursIgnoreCaseAt(s, needle, i);
      }
    }
  }

  /** `s.contains(needle, ignoreCase = true)`. */
  function ContainsIgnoreCase(s: string, needle: string): bool {
    ContainsIgnoreCaseFrom(s, needle, 0)
  }

  /** The search finds the needle exactly when it occurs somewhere. */
  lemma ContainsIgnoreCaseIff(s: string, needle: string)
    ensures ContainsIgnoreCase(s, needle) <==> exists i :: OccursIgnoreCaseAt(s, needle, i)
  {
    ContainsIgnoreCaseFromIff(s, needle, 0);
  }

  /** Number of occurrences of `c` in `s`. */
  function Count(c: char, s: string): nat {
    if s == [] then 0 else (if s[0] == c then 1 else 0) + Count(c, s[1..])
  }

  lemma {:induction false} CountAppend(c: char, a: string, b: string)
    ensures Count(c, a + b) == Count(c, a) + Count(c, b)
  {
    if a == [] {
      assert a + b == b;
    } else {
      assert (a + b)[1..] == a[1..] + b;
      CountAppend(c, a[1..], b);
    }
  }

  lemma {:induction false} CountAbsent(c: char, s: string)
    requires c !in s
    ensures Count(c, s) == 0
  {
    if s != [] {
      CountAbsent(c, s[1..]);
    }
  }

  /** `parts.joinToString(sep)`. */
  function Join(parts: seq<string>, sep: string): string {
    if parts == [] then ""
    else if |parts| == 1 then parts[0]
    else parts[0] + sep + Join(parts[1..], sep)
  }

  /** Putting a character in front of the first part puts it in front of the
      joined text. */
  lemma JoinConsChar(c: char, x: string, xs: seq<string>, sep: string)
    ensures Join([[c] + x] + xs, sep) == [c] + Join([x] + xs, sep)
  {
    if xs != [] {
      assert ([[c] + x] + xs)[1..] == xs;
      assert ([x] + xs)[1..] == xs;
    }
  }

  /** Joining with a leading empty part. */
  lemma JoinConsEmpty(xs: seq<string>, sep: string)
    requires xs != []
    ensures Join([""] + xs, sep) == sep + Join(xs, sep)
  {
    assert ([""] + xs)[1..] == xs;
  }

  /** `s.lines()`: the text split at every "\r\n", "\n" and "\r"; a break at
      the very end leaves an empty last line, and "" has one empty line. */
  function Lines(s: string): (ls: seq<string>)
    ensures |ls| >= 1
    ensures forall l <- ls :: '\n' !in l && '\r' !in l
    decreases |s|
  {
    if s == [] then [""]
    else if s[0] == '\n' then [""] + Lines(s[1..])
    else if s[0] == '\r' then
      if |s| >= 2 && s[1] == '\n' then [""] + Lines(s[2..]) else [""] + Lines(s[1..])
    else
      var rest := Lines(s[1..]);
      [[s[0]] + rest[0]] + rest[1..]
  }

  /** A text without line breaks is a single line. */
  lemma {:induction false} LinesNoBreak(a: string)
    requires '\n' !in a && '\r' !in a
    ensures Lines(a) == [a]
  {
    if a != [] {
      assert a[0] in a;
      LinesNoBreak(a[1..]);
      assert [a[0]] + a[1..] == a;
    }
  }

  /** The first "\n", "\r\n" or "\r" (one not followed by "\n") ends the
      first line. */
  lemma {:induction false} LinesAtBreak(a: string, br: string, b: string)
    requires '\n' !in a && '\r' !in a
    requires br == "\n" || br == "\r\n" || (br == "\r" && (b == [] || b[0] != '\n'))
    ensures Lines(a + br + b) == [a] + Lines(b)
  {
    var s := a + br + b;
    if a == [] {
      assert s == br + b;
      assert s[|br|..] == b;
    } else {
      assert s[1..] == a[1..] + br + b;
      LinesAtBreak(a[1..], br, b);
      assert [a[0]] + a[1..] == a;
    }
  }

  /** Every "\r\n" and every other "\r" written as "\n". */
  function NormalizeBreaks(s: string): (t: string)
    ensures '\r' !in t
    decreases |s|
  {
    if s == [] then []
    else if s[0] == '\r' then
      "\n" + NormalizeBreaks(if |s| >= 2 && s[1] == '\n' then s[2..] else s[1..])
    else [s[0]] + NormalizeBreaks(s[1..])
  }

  /** The lines do not depend on how the breaks are written. */
  lemma {:induction false} LinesNormalize(s: string)
    ensures Lines(NormalizeBreaks(s)) == Lines(s)
    decreases |s|
  {
    if s != [] {
      var t := NormalizeBreaks(s);
      if s[0] == '\r' {
        var tail := if |s| >= 2 && s[1] == '\n' then s[2..] else s[1..];
        LinesNormalize(tail);
        assert t[1..] == NormalizeBreaks(tail);
      } else {
        LinesNormalize(s[1..]);
        assert t[1..] == NormalizeBreaks(s[1..]);
      }
    }
  }

  /** Without carriage returns, joining the lines with "\n" gives the text back. */
  lemma {:induction false} JoinLines(s: string)
    requires '\r' !in s
    ensures Join(Lines(s), "\n") == s
  {
    if s == [] {
    } else if s[0] == '\n' {
      JoinLines(s[1..]);
      JoinConsEmpty(Lines(s[1..]), "\n");
      assert s == "\n" + s[1..];
    } else {
      JoinLines(s[1..]);
      var rest := Lines(s[1..]);
      assert rest == [rest[0]] + rest[1..];
      JoinConsChar(s[0], rest[0], rest[1..], "\n");
      assert s == [s[0]] + s[1..];
    }
  }

  /** Joining the first `n` parts gives a prefix of joining them all. */
  lemma {:induction false} JoinTakeIsPrefix(parts: seq<string>, n: nat, sep: string)
    requires n <= |parts|
    ensures Join(parts[..n], sep) <= Join(parts, sep)
  {
    if n == 0 || n == |parts| {
      assert parts[..|parts|] == parts;
    } else if n == 1 {
      assert parts[..1] == [parts[0]];
    } else {
      assert parts[..n][1..] == parts[1..][..n - 1];
      JoinTakeIsPrefix(parts[1..], n - 1, sep);
    }
  }

  /** Joining the first `n` parts, when more follow, gives a prefix that the
      separator continues. */
  lemma {:induction false} JoinTakeSepIsPrefix(parts: seq<string>, n: nat, sep: string)
    requires 1 <= n < |parts|
    ensures Join(parts[..n], sep) + sep <= Join(parts, sep)
  {
    var rest := Join(parts[1..], sep);
    if n == 1 {
      assert parts[..1] == [parts[0]];
      assert Join(parts, sep) == parts[0] + sep + rest;
    } else {
      assert parts[..n][1..] == parts[1..][..n - 1];
      JoinTakeSepIsPrefix(parts[1..], n - 1, sep);
      var head := Join(parts[1..][..n - 1], sep);
      assert Join(parts[..n], sep) + sep == parts[0] + sep + (head + sep);
      assert Join(parts, sep) == parts[0] + sep + rest;
      assert head + sep == rest[..|head + sep|];
    }
  }

  /** Joining parts free of `c` with the separator [c] puts exactly one `c`
      between neighbouring parts. */
  lemma {:induction false} CountJoin(parts: seq<string>, c: char)
    requires parts != []
    requires forall p <- parts :: c !in p
    ensures Count(c, Join(parts, [c])) == |parts| - 1
  {
    CountAbsent(c, parts[0]);
    if |parts| > 1 {
      CountJoin(parts[1..], c);
      CountAppend(c, parts[0] + [c], Join(parts[1..], [c]));
      CountAppend(c, parts[0], [c]);
    }
  }

  /** `s.split(" ")`: every piece between two spaces, empty ones included;
      the pieces contain no space and joining them with spaces gives `s` back. */
  function SplitOnSpace(s: string): (pieces: seq<string>)
    ensures |pieces| >= 1
    ensures forall p <- pieces :: ' ' !in p
    ensures Join(pieces, " ") == s
    decreases |s|
  {
    if s == [] then [""]
    else
      var rest := SplitOnSpace(s[1..]);
      if s[0] == ' ' then
        JoinConsEmpty(rest, " ");
        assert s == " " + s[1..];
        [""] + rest
      else
        assert rest == [rest[0]] + rest[1..];
        JoinConsChar(s[0], rest[0], rest[1..], " ");
        assert s == [s[0]] + s[1..];
        [[s[0]] + rest[0]] + rest[1..]
  }

  /** A text without spaces is a single piece. */
  lemma {:induction false} SplitNoSpace(a: string)
    requires ' ' !in a
    ensures SplitOnSpace(a) == [a]
  {
    if a != [] {
      SplitNoSpace(a[1..]);
      assert a == [a[0]] + a[1..];
    }
  }

  /** The first space ends the first piece. */
  lemma {:induction false} SplitAtSpace(a: string, b: string)
    requires ' ' !in a
    ensures SplitOnSpace(a + " " + b) == [a] + SplitOnSpace(b)
  {
    if a == [] {
      assert (a + " " + b)[1..] == b;
    } else {
      assert (a + " " + b)[1..] == a[1..] + " " + b;
      SplitAtSpace(a[1..], b);
      assert a == [a[0]] + a[1..];
    }
  }

  /** A blank text splits into blank pieces only. */
  lemma {:induction false} SplitBlank(s: string)
    requires IsBlank(s)
    ensures forall p <- SplitOnSpace(s) :: IsBlank(p)
  {
    if s != [] {
      assert IsBlank(s[1..]) by {
        forall i | 0 <= i < |s| - 1 ensures IsWhitespace(s[1..][i]) {
          assert s[1..][i] == s[i + 1];
        }
      }
      SplitBlank(s[1..]);
      var rest := SplitOnSpace(s[1..]);
      if s[0] != ' ' {
        var first := [s[0]] + rest[0];
        assert IsBlank(rest[0]);
        assert IsBlank(first) by {
          forall i | 0 <= i < |first| ensures IsWhitespace(first[i]) {
            if i > 0 {
              assert first[i] == rest[0][i - 1];
            }
          }
        }
        assert SplitOnSpace(s) == [first] + rest[1..];
      }
    }
  }

  /** `pieces.filter { it.isNotBlank() }`. */
  function NonBlank(pieces: seq<string>): (kept: seq<string>)
    ensures forall t <- kept :: !IsBlank(t) && t in pieces
    ensures |kept| <= |pieces|
  {
    if pieces == [] then []
    else if IsBlank(pieces[0]) then NonBlank(pieces[1..])
    else [pieces[0]] + NonBlank(pieces[1..])
  }

  /** Filtering keeps every non-blank piece. */
  lemma {:induction false} NonBlankKeeps(pieces: seq<string>)
    ensures forall p <- pieces :: !IsBlank(p) ==> p in NonBlank(pieces)
  {
    if pieces != [] {
      NonBlankKeeps(pieces[1..]);
      forall p <- pieces | !IsBlank(p)
        ensures p in NonBlank(pieces)
      {
        if p != pieces[0] {
          assert p in pieces[1..];
        }
      }
    }
  }

  /** Filtering keeps the order: it distributes over concatenation. */
  lemma {:induction false} NonBlankAppend(a: seq<string>, b: seq<string>)
    ensures NonBlank(a + b) == NonBlank(a) + NonBlank(b)
  {
    if a == [] {
      assert a + b == b;
    } else {
      assert (a + b)[1..] == a[1..] + b;
      NonBlankAppend(a[1..], b);
    }
  }

  /** One piece is kept exactly when it is not blank. */
  lemma NonBlankOne(p: string)
    ensures NonBlank([p]) == if IsBlank(p) then [] else [p]
  {
    assert [p][1..] == [];
  }

  /** Filtering a list of blank pieces leaves nothing. */
  lemma {:induction false} NonBlankOfAllBlank(pieces: seq<string>)
    requires forall p <- pieces :: IsBlank(p)
    ensures NonBlank(pieces) == []
  {
    if pieces != [] {
      NonBlankOfAllBlank(pieces[1..]);
    }
  }
}
