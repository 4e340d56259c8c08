/** A reader for the hook's standard-input payload, written independently of
    the writer in HookRunner: it accepts exactly the shape
    `{"timestamp":"…",` entries `}` with `"key":value` entries, `null`,
    decimal integers and double-quoted strings in which `\"` stands for a
    quote. Reading back what the writer produced shows what a hook can rely
    on, and where it cannot. */
module ContextJson {
  import opened Wrappers
  import opened Text
  import opened Numbers
  import opened HookRunner

  /** The number of leading decimal digits. */
  function DigitRun(s: string): (k: nat)
    ensures k <= |s| && AllDigits(s[..k])
    ensures k == |s| || !IsAsciiDigit(s[k])
  {
    if s != [] && IsAsciiDigit(s[0]) then
      var k := 1 + DigitRun(s[1..]);
      assert forall i :: 1 <= i < k ==> s[..k][i] == s[1..][..k - 1][i - 1];
      k
    else 0
  }

  /** A decimal integer with an optional minus sign. */
  function ReadNumber(s: string): (r: Option<(int, string)>)
    ensures r.Some? ==> |r.value.1| < |s|
  {
    if s != [] && s[0] == '-' then
      var k := DigitRun(s[1..]);
      if k == 0 then None else Some((-(DigitsValue(s[1..][..k]) as int), s[1..][k..]))
    else
      var k := DigitRun(s);
      if k == 0 then None else Some((DigitsValue(s[..k]) as int, s[k..]))
  }

  /** Text up to the next double quote, which is consumed; no escapes. */
  function ReadRaw(s: string): (r: Option<(string, string)>)
    ensures r.Some? ==> |r.value.1| < |s|
  {
    if s == [] then None
    else if s[0] == '"' then Some(("", s[1..]))
    else match ReadRaw(s[1..])
      case None => None
      case Some((t, rest)) => Some(([s[0]] + t, rest))
  }

  /** The inside of a quoted string up to its closing quote: `\"` stands for
      a quote, every other character for itself. */
  function ReadEscaped(s: string): (r: Option<(string, string)>)
    ensures r.Some? ==> |r.value.1| < |s|
  {
    if s == [] then None
    else if s[0] == '"' then Some(("", s[1..]))
    else
      var n := if s[0] == '\\' && |s| >= 2 && s[1] == '"' then 2 else 1;
      match ReadEscaped(s[n..])
      case None => None
      case Some((t, rest)) => Some(([s[n - 1]] + t, rest))
  }

  function ReadValue(s: string): (r: Option<(Value, string)>)
    ensures r.Some? ==> |r.value.1| < |s|
  {
    if s != [] && s[0] == '"' then
      match ReadEscaped(s[1..])
      case None => None
      case Some((t, rest)) => Some((Str(t), rest))
    else if "null" <= s then Some((Null, s[4..]))
    else match ReadNumber(s)
      case None => None
      case Some((n, rest)) => Some((Num(n), rest))
  }

  function ReadEntry(s: string): (r: Option<(Entry, string)>)
    ensures r.Some? ==> |r.value.1| < |s|
  {
    if s == [] || s[0] != '"' then None
    else match ReadRaw(s[1..])
      case None => None
      case Some((key, rest)) =>
        if rest == [] || rest[0] != ':' then None
        else match ReadValue(rest[1..])
          case None => None
          case Some((v, rest')) => Some((Entry(key, v), rest'))
  }

  /** One or more entries separated by commas, then the closing brace. */
  function ReadEntries(s: string): (r: Option<(seq<Entry>, string)>)
    ensures r.Some? ==> |r.value.0| >= 1
    decreases |s|
  {
    match ReadEntry(s)
    case None => None
    case Some((e, rest)) =>
      if rest != [] && rest[0] == ',' then
        match ReadEntries(rest[1..])
        case None => None
        case Some((es, rest')) => Some(([e] + es, rest'))
      else if rest != [] && rest[0] == '}' then Some(([e], rest[1..]))
      else None
  }

  /** The timestamp and the entries of a whole payload, nothing after it. */
  function ReadContextJson(s: string): (r: Option<(string, seq<Entry>)>)
    ensures r.Some? ==> TIMESTAMP_HEAD <= s && |r.value.1| >= 1
  {
    if !(TIMESTAMP_HEAD <= s) then None
    else match ReadRaw(s[|TIMESTAMP_HEAD|..])
      case None => None
      case Some((ts, rest)) =>
        if rest == [] || rest[0] != ',' then None
        else match ReadEntries(rest[1..])
          case None => None
          case Some((es, rest')) => if rest' == [] then Some((ts, es)) else None
  }

  // ---------------------------------------------------------------------
  // Round trip
  // ---------------------------------------------------------------------

  /** What a value reads back as: any other object was written as its text. */
  function Decoded(v: Value): Value {
    match v
    case Other(text) => Str(text)
    case _ => v
  }

  function DecodedEntries(ctx: seq<Entry>): (ds: seq<Entry>)
    ensures |ds| == |ctx|
    ensures forall i :: 0 <= i < |ctx| ==> ds[i] == Entry(ctx[i].key, Decoded(ctx[i].value))
  {
    if ctx == [] then [] else [Entry(ctx[0].key, Decoded(ctx[0].value))] + DecodedEntries(ctx[1..])
  }

  /** An entry the writer renders unambiguously: no quote in the key, no
      backslash in a string value. */
  predicate Readable(e: Entry) {
    && '"' !in e.key
    && (e.value.Str? ==> '\\' !in e.value.s)
    && (e.value.Other? ==> '\\' !in e.value.text)
  }

  /** A position the number reader stops at. */
  predicate EndsNumber(rest: string) {
    rest == [] || !IsAsciiDigit(rest[0])
  }

  /** The digit run stops where the digits do. */
  lemma {:induction false} DigitRunOfDigits(d: string, rest: string)
    requires AllDigits(d) && EndsNumber(rest)
    ensures DigitRun(d + rest) == |d|
  {
    if d != [] {
      assert (d + rest)[1..] == d[1..] + rest;
      DigitRunOfDigits(d[1..], rest);
    } else {
      assert d + rest == rest;
    }
  }

  /** The digits of a natural number read back as it when no digit follows. */
  lemma DigitsRoundTrip(m: nat, rest: string)
    requires EndsNumber(rest)
    ensures ReadNumber(NatDigits(m) + rest) == Some((m, rest))
  {
    var d := NatDigits(m);
    var s := d + rest;
    DigitsValueOfNatDigits(m);
    DigitRunOfDigits(d, rest);
    assert s[..|d|] == d;
    assert s[|d|..] == rest;
  }

  /** A minus sign before the digits of a natural number negates it. */
  lemma NegativeRoundTrip(m: nat, rest: string)
    requires EndsNumber(rest)
    ensures ReadNumber("-" + (NatDigits(m) + rest)) == Some((-(m as int), rest))
  {
    var t := NatDigits(m) + rest;
    DigitsRoundTrip(m, rest);
    assert t[0] != '-';
    assert ("-" + t)[1..] == t;
  }

  /** A decimal integer reads back as itself when no digit follows it. */
  lemma NumberRoundTrip(n: int, rest: string)
    requires EndsNumber(rest)
    ensures ReadNumber(Decimal(n) + rest) == Some((n, rest))
  {
    if n < 0 {
      assert Decimal(n) + rest == "-" + (NatDigits(-n) + rest);
      NegativeRoundTrip(-n, rest);
    } else {
      DigitsRoundTrip(n, rest);
    }
  }

  /** Text without a quote reads back up to the quote that closes it. */
  lemma {:induction false} RawRoundTrip(t: string, rest: string)
    requires '"' !in t
    ensures ReadRaw(t + "\"" + rest) == Some((t, rest))
  {
    if t == [] {
      assert t + "\"" + rest == "\"" + rest;
    } else {
      assert (t + "\"" + rest)[1..] == t[1..] + "\"" + rest;
      RawRoundTrip(t[1..], rest);
      assert t == [t[0]] + t[1..];
    }
  }

  /** An escaped quote reads as a quote in front of what follows. */
  lemma ReadEscapedQuote(tail: string)
    requires ReadEscaped(tail).Some?
    ensures ReadEscaped("\\\"" + tail)
            == Some(("\"" + ReadEscaped(tail).value.0, ReadEscaped(tail).value.1))
  {
    assert ("\\\"" + tail)[2..] == tail;
  }

  /** Any other character but a backslash reads as itself in front of what
      follows. */
  lemma ReadEscapedPlain(c: char, tail: string)
    requires c != '"' && c != '\\' && ReadEscaped(tail).Some?
    ensures ReadEscaped([c] + tail) == Some(([c] + ReadEscaped(tail).value.0, ReadEscaped(tail).value.1))
  {
    assert ([c] + tail)[1..] == tail;
  }

  /** A quote more in front of an escaped text that reads back. */
  lemma EscapedStepQuote(v: string, rest: string)
    requires v != [] && v[0] == '"'
    requires ReadEscaped(EscapeQuotes(v[1..]) + "\"" + rest) == Some((v[1..], rest))
    ensures ReadEscaped(EscapeQuotes(v) + "\"" + rest) == Some((v, rest))
  {
    var tail := EscapeQuotes(v[1..]) + "\"" + rest;
    assert EscapeQuotes(v) + "\"" + rest == "\\\"" + tail;
    ReadEscapedQuote(tail);
    assert v == "\"" + v[1..];
  }

  /** Another character but a backslash more in front of an escaped text
      that reads back. */
  lemma EscapedStepPlain(v: string, rest: string)
    requires v != [] && v[0] != '"' && v[0] != '\\'
    requires ReadEscaped(EscapeQuotes(v[1..]) + "\"" + rest) == Some((v[1..], rest))
    ensures ReadEscaped(EscapeQuotes(v) + "\"" + rest) == Some((v, rest))
  {
    var tail := EscapeQuotes(v[1..]) + "\"" + rest;
    assert EscapeQuotes(v) + "\"" + rest == [v[0]] + tail;
    ReadEscapedPlain(v[0], tail);
    assert v == [v[0]] + v[1..];
  }

  /** Escaped text without a backslash reads back up to its closing quote. */
  lemma {:induction false} EscapedRoundTrip(v: string, rest: string)
    requires '\\' !in v
    ensures ReadEscaped(EscapeQuotes(v) + "\"" + rest) == Some((v, rest))
  {
    if v == [] {
      assert EscapeQuotes(v) + "\"" + rest == "\"" + rest;
    } else {
      EscapedRoundTrip(v[1..], rest);
      if v[0] == '"' {
        EscapedStepQuote(v, rest);
      } else {
        EscapedStepPlain(v, rest);
      }
    }
  }

  /** A quoted string value without a backslash reads back. */
  lemma StringRoundTrip(t: string, rest: string)
    requires '\\' !in t
    ensures ReadValue("\"" + EscapeQuotes(t) + "\"" + rest) == Some((Str(t), rest))
  {
    var inner := EscapeQuotes(t) + "\"" + rest;
    var s := "\"" + EscapeQuotes(t) + "\"" + rest;
    assert s == ['"'] + inner;
    assert s[1..] == inner;
    EscapedRoundTrip(t, rest);
    assert ReadEscaped(s[1..]) == Some((t, rest));
  }

  /** A number value reads back when no digit follows it. */
  lemma NumRoundTrip(n: int, rest: string)
    requires EndsNumber(rest)
    ensures ReadValue(Decimal(n) + rest) == Some((Num(n), rest))
  {
    var s := Decimal(n) + rest;
    assert s[0] == Decimal(n)[0];
    assert s[0] == '-' || IsAsciiDigit(s[0]) by {
      if n >= 0 {
        assert IsAsciiDigit(Decimal(n)[0]);
      }
    }
    assert !("null" <= s) by {
      assert |s| >= 1 && s[0] != 'n';
    }
    NumberRoundTrip(n, rest);
  }

  /** Every value the writer renders reads back, an object as its text. */
  lemma ValueRoundTrip(v: Value, rest: string)
    requires (v.Str? ==> '\\' !in v.s) && (v.Other? ==> '\\' !in v.text)
    requires EndsNumber(rest)
    ensures ReadValue(RenderValue(v) + rest) == Some((Decoded(v), rest))
  {
    match v
    case Null =>
      var s := RenderValue(v) + rest;
      assert "null" <= s;
      assert s[4..] == rest;
    case Num(n) =>
      NumRoundTrip(n, rest);
    case Str(t) =>
      StringRoundTrip(t, rest);
    case Other(t) =>
      StringRoundTrip(t, rest);
  }

  /** A readable entry reads back, its value decoded. */
  lemma EntryRoundTrip(e: Entry, rest: string)
    requires Readable(e) && EndsNumber(rest)
    ensures ReadEntry(RenderEntry(e) + rest) == Some((Entry(e.key, Decoded(e.value)), rest))
  {
    var s := RenderEntry(e) + rest;
    var after := ":" + RenderValue(e.value) + rest;
    assert s[1..] == e.key + "\"" + after;
    RawRoundTrip(e.key, after);
    assert after[1..] == RenderValue(e.value) + rest;
    ValueRoundTrip(e.value, rest);
  }

  /** The last entry, then the closing brace. */
  lemma LastEntryRoundTrip(e: Entry, rest: string)
    requires Readable(e)
    ensures ReadEntries(RenderEntry(e) + "}" + rest) == Some(([Entry(e.key, Decoded(e.value))], rest))
  {
    var after := "}" + rest;
    assert RenderEntry(e) + "}" + rest == RenderEntry(e) + after;
    EntryRoundTrip(e, after);
    assert after[1..] == rest;
  }

  /** An entry, a comma, and more entries that read back. */
  lemma NextEntryRoundTrip(e: Entry, more: string, es: seq<Entry>, rest: string)
    requires Readable(e) && ReadEntries(more) == Some((es, rest))
    ensures ReadEntries(RenderEntry(e) + "," + more) == Some(([Entry(e.key, Decoded(e.value))] + es, rest))
  {
    var after := "," + more;
    assert RenderEntry(e) + "," + more == RenderEntry(e) + after;
    EntryRoundTrip(e, after);
    assert after[1..] == more;
  }

  /** Readable entries joined with commas and closed by a brace read back. */
  lemma {:induction false} EntriesRoundTrip(ctx: seq<Entry>, rest: string)
    requires ctx != [] && forall e <- ctx :: Readable(e)
    ensures ReadEntries(Join(RenderEntries(ctx), ",") + "}" + rest) == Some((DecodedEntries(ctx), rest))
  {
    var parts := RenderEntries(ctx);
    if |ctx| == 1 {
      assert Join(parts, ",") == RenderEntry(ctx[0]);
      LastEntryRoundTrip(ctx[0], rest);
      assert DecodedEntries(ctx) == [Entry(ctx[0].key, Decoded(ctx[0].value))];
    } else {
      var more := Join(parts[1..], ",") + "}" + rest;
      assert parts[1..] == RenderEntries(ctx[1..]);
      assert Join(parts, ",") + "}" + rest == RenderEntry(ctx[0]) + "," + more;
      EntriesRoundTrip(ctx[1..], rest);
      NextEntryRoundTrip(ctx[0], more, DecodedEntries(ctx[1..]), rest);
      assert DecodedEntries(ctx) == [Entry(ctx[0].key, Decoded(ctx[0].value))] + DecodedEntries(ctx[1..]);
    }
  }

  /** A payload whose entries part reads completely reads as the timestamp
      and those entries. */
  lemma ReadPayload(timestamp: string, body: string)
    requires '"' !in timestamp
    requires ReadEntries(body).Some? && ReadEntries(body).value.1 == []
    ensures ReadContextJson(TIMESTAMP_HEAD + timestamp + "\"," + body)
            == Some((timestamp, ReadEntries(body).value.0))
  {
    var json := TIMESTAMP_HEAD + timestamp + "\"," + body;
    var after := "," + body;
    assert json == TIMESTAMP_HEAD + (timestamp + "\"" + after);
    assert json[|TIMESTAMP_HEAD|..] == timestamp + "\"" + after;
    RawRoundTrip(timestamp, after);
    assert after[1..] == body;
  }

  /** The payload reads back as the timestamp and the context, every value
      that was neither null nor a number read as a string, whenever the context
      is not empty, the timestamp and keys hold no quote and no string value
      holds a backslash. */
  lemma ContextJsonRoundTrip(timestamp: string, ctx: seq<Entry>)
    requires '"' !in timestamp
    requires ctx != [] && forall e <- ctx :: Readable(e)
    ensures ReadContextJson(BuildContextJson(timestamp, ctx)) == Some((timestamp, DecodedEntries(ctx)))
  {
    var body := Join(RenderEntries(ctx), ",") + "}";
    EntriesRoundTrip(ctx, "");
    assert body + "" == body;
    ReadPayload(timestamp, body);
    assert BuildContextJson(timestamp, ctx) == TIMESTAMP_HEAD + timestamp + "\"," + body;
  }

  /** With no entries the comma after the timestamp is left dangling and the
      payload is not in the readable shape. */
  lemma EmptyContextUnreadable(timestamp: string)
    requires '"' !in timestamp
    ensures ReadContextJson(BuildContextJson(timestamp, [])) == None
  {
    var after := ",}";
    assert BuildContextJson(timestamp, [])[|TIMESTAMP_HEAD|..] == timestamp + "\"" + after;
    RawRoundTrip(timestamp, after);
    assert after[1..] == "}";
  }

  /** Without a quote the string never ends. */
  lemma {:induction false} UnterminatedString(s: string)
    requires '"' !in s
    ensures ReadEscaped(s) == None
  {
    if s != [] {
      var n := if s[0] == '\\' && |s| >= 2 && s[1] == '"' then 2 else 1;
      UnterminatedString(s[n..]);
    }
  }

  /** Text that ends in a backslash before the closing quote reads as an
      escaped quote, and the string runs on. */
  lemma {:induction false} BackslashSwallowsQuote(w: string, rest: string)
    requires '"' !in w && '\\' !in w && '"' !in rest
    ensures ReadEscaped(w + "\\\"" + rest) == None
  {
    var s := w + "\\\"" + rest;
    if w == [] {
      assert s[2..] == rest;
      UnterminatedString(rest);
    } else {
      assert s[1..] == w[1..] + "\\\"" + rest;
      BackslashSwallowsQuote(w[1..], rest);
    }
  }

  /** The payload of a one-entry context. */
  lemma SingleEntryPayload(timestamp: string, e: Entry)
    ensures BuildContextJson(timestamp, [e]) == TIMESTAMP_HEAD + (timestamp + "\"" + ("," + (RenderEntry(e) + "}")))
  {
    assert RenderEntries([e]) == [RenderEntry(e)];
  }

  /** A string value that ends in a backslash and is followed by the closing
      brace does not read. */
  lemma TrailingBackslashValue(w: string)
    requires '"' !in w && '\\' !in w
    ensures ReadValue(RenderValue(Str(w + "\\")) + "}") == None
  {
    var t := w + "\\";
    assert '"' !in t;
    var s := "\"" + t + "\"" + "}";
    assert RenderValue(Str(t)) + "}" == s;
    assert s[1..] == w + "\\\"" + "}";
    BackslashSwallowsQuote(w, "}");
  }

  /** An entry whose string value ends in a backslash and which is followed by
      the closing brace does not read. */
  lemma TrailingBackslashEntry(key: string, w: string)
    requires '"' !in key && '"' !in w && '\\' !in w
    ensures ReadEntry(RenderEntry(Entry(key, Str(w + "\\"))) + "}") == None
  {
    var value := RenderValue(Str(w + "\\"));
    var s := RenderEntry(Entry(key, Str(w + "\\"))) + "}";
    var afterKey := ":" + value + "}";
    assert s[1..] == key + "\"" + afterKey;
    RawRoundTrip(key, afterKey);
    assert afterKey[1..] == value + "}";
    TrailingBackslashValue(w);
  }

  /** Backslashes are written as they are, so in a one-entry payload whose
      key and timestamp hold no quote, a string value that ends in one makes
      the quote that closes it read as an escaped quote: the payload no longer
      reads back. */
  lemma TrailingBackslashUnreadable(timestamp: string, key: string, w: string)
    requires '"' !in timestamp && '"' !in key && '"' !in w && '\\' !in w
    ensures ReadContextJson(BuildContextJson(timestamp, [Entry(key, Str(w + "\\"))])) == None
  {
    var e := Entry(key, Str(w + "\\"));
    var after := "," + (RenderEntry(e) + "}");
    SingleEntryPayload(timestamp, e);
    assert BuildContextJson(timestamp, [e])[|TIMESTAMP_HEAD|..] == timestamp + "\"" + after;
    RawRoundTrip(timestamp, after);
    assert after[1..] == RenderEntry(e) + "}";
    TrailingBackslashEntry(key, w);
  }
}
