/** The small pure helpers of the runtime: `clamp`, `escapeHtml` and the
    bucketing of `timeAgo`. */
module Helpers {
  import opened Wrappers
  import opened Strings

  /** `Math.max(lo, Math.min(hi, n))`. */
  function Clamp(n: real, lo: real, hi: real): (r: real)
    ensures lo <= hi ==> lo <= r <= hi
    ensures lo <= n <= hi ==> r == n
    ensures n < lo ==> r == lo
    ensures lo <= hi && hi < n ==> r == hi
    ensures hi < lo ==> r == lo
  {
    var m := if hi < n then hi else n;
    if lo < m then m else lo
  }

  // ---------------------------------------------------------------- escapeHtml

  /** The runtime's chain of five `replaceAll` calls, ampersand first. */
  function EscapeHtml(s: string): string
  {
    var s1 := ReplaceAll(s, '&', "&amp;");
    var s2 := ReplaceAll(s1, '<', "&lt;");
    var s3 := ReplaceAll(s2, '>', "&gt;");
    var s4 := ReplaceAll(s3, '"', "&quot;");
    ReplaceAll(s4, '\'', "&#039;")
  }

  /** The escape of one character. */
  function EscapeChar(c: char): string
  {
    if c == '&' then "&amp;"
    else if c == '<' then "&lt;"
    else if c == '>' then "&gt;"
    else if c == '"' then "&quot;"
    else if c == '\'' then "&#039;"
    else [c]
  }

  /** Character-by-character escaping, the reference the chain is compared to. */
  function Escaped(s: string): string
  {
    if s == [] then [] else EscapeChar(s[0]) + Escaped(s[1..])
  }

  /** What an HTML parser makes of the five character references the runtime
      emits: each entity becomes its character, everything else is kept. */
  function HtmlDecode(t: string): string
    decreases |t|
  {
    if t == [] then []
    else if |t| >= 5 && t[..5] == "&amp;" then "&" + HtmlDecode(t[5..])
    else if |t| >= 4 && t[..4] == "&lt;" then "<" + HtmlDecode(t[4..])
    else if |t| >= 4 && t[..4] == "&gt;" then ">" + HtmlDecode(t[4..])
    else if |t| >= 6 && t[..6] == "&quot;" then "\"" + HtmlDecode(t[6..])
    else if |t| >= 6 && t[..6] == "&#039;" then "'" + HtmlDecode(t[6..])
    else [t[0]] + HtmlDecode(t[1..])
  }

  lemma EscapeHtmlConcat(a: string, b: string)
    ensures EscapeHtml(a + b) == EscapeHtml(a) + EscapeHtml(b)
  {
    var a1, b1 := ReplaceAll(a, '&', "&amp;"), ReplaceAll(b, '&', "&amp;");
    ReplaceAllConcat(a, b, '&', "&amp;");
    var a2, b2 := ReplaceAll(a1, '<', "&lt;"), ReplaceAll(b1, '<', "&lt;");
    ReplaceAllConcat(a1, b1, '<', "&lt;");
    var a3, b3 := ReplaceAll(a2, '>', "&gt;"), ReplaceAll(b2, '>', "&gt;");
    ReplaceAllConcat(a2, b2, '>', "&gt;");
    var a4, b4 := ReplaceAll(a3, '"', "&quot;"), ReplaceAll(b3, '"', "&quot;");
    ReplaceAllConcat(a3, b3, '"', "&quot;");
    ReplaceAllConcat(a4, b4, '\'', "&#039;");
  }

  lemma EscapeHtmlOneChar(c: char)
    ensures EscapeHtml([c]) == EscapeChar(c)
  {
    if c == '&' {
      EscapeOneAmp();
    } else if c == '<' {
      EscapeOneLt();
    } else if c == '>' {
      EscapeOneGt();
    } else if c == '"' {
      EscapeOneQuot();
    } else if c == '\'' {
      EscapeOneApos();
    } else {
      EscapeOnePlain(c);
    }
  }

  /** A markup-significant character becomes its entity at its own stage;
      no later stage touches an entity. */
  lemma EscapeOneAmp()
    ensures EscapeHtml("&") == "&amp;"
  {
    var s1 := ReplaceAll("&", '&', "&amp;");
    ReplaceOne('&', '&', "&amp;");
    LaterStagesKeep(s1);
  }

  /** The last two stages leave alone a string without `"` and `'`. */
  lemma LastStagesKeep(e: string)
    requires '"' !in e && '\'' !in e
    ensures ReplaceAll(ReplaceAll(e, '"', "&quot;"), '\'', "&#039;") == e
  {
  }

  /** The stages after the first leave alone a string without `<`, `>`, `"`
      and `'`. */
  lemma LaterStagesKeep(e: string)
    requires '<' !in e && '>' !in e && '"' !in e && '\'' !in e
    ensures ReplaceAll(ReplaceAll(ReplaceAll(ReplaceAll(e, '<', "&lt;"), '>', "&gt;"), '"', "&quot;"), '\'', "&#039;") == e
  {
  }

  lemma EscapeOneLt()
    ensures EscapeHtml(['<']) == "&lt;"
  {
    var s1 := ReplaceAll(['<'], '&', "&amp;");
    ReplaceOne('<', '&', "&amp;");
    var s2 := ReplaceAll(s1, '<', "&lt;");
    ReplaceOne('<', '<', "&lt;");
    assert s2 == "&lt;";
    assert '>' !in s2 && '"' !in s2 && '\'' !in s2;
  }

  lemma EscapeOneGt()
    ensures EscapeHtml(">") == "&gt;"
  {
    ReplaceOne('>', '&', "&amp;");
    ReplaceOne('>', '<', "&lt;");
    var s3 := ReplaceAll(">", '>', "&gt;");
    ReplaceOne('>', '>', "&gt;");
    LastStagesKeep(s3);
  }

  lemma EscapeOneQuot()
    ensures EscapeHtml("\"") == "&quot;"
  {
    ReplaceOne('"', '&', "&amp;");
    ReplaceOne('"', '<', "&lt;");
    ReplaceOne('"', '>', "&gt;");
    var s4 := ReplaceAll("\"", '"', "&quot;");
    ReplaceOne('"', '"', "&quot;");
    LastStagesKeep(s4);
  }

  lemma EscapeOneApos()
    ensures EscapeHtml(['\'']) == "&#039;"
  {
    ReplaceOne('\'', '&', "&amp;");
    ReplaceOne('\'', '<', "&lt;");
    ReplaceOne('\'', '>', "&gt;");
    ReplaceOne('\'', '"', "&quot;");
    ReplaceOne('\'', '\'', "&#039;");
  }

  /** Any other character passes every stage unchanged. */
  lemma EscapeOnePlain(c: char)
    requires c !in "&<>\"'"
    ensures EscapeHtml([c]) == [c]
  {
    ReplaceOne(c, '&', "&amp;");
    ReplaceOne(c, '<', "&lt;");
    ReplaceOne(c, '>', "&gt;");
    ReplaceOne(c, '"', "&quot;");
    ReplaceOne(c, '\'', "&#039;");
  }

  /** Replacing in a one-character string. */
  lemma ReplaceOne(c: char, ch: char, rep: string)
    ensures ReplaceAll([c], ch, rep) == if c == ch then rep else [c]
  {
    assert [c][1..] == [];
  }

  /** The chain of `replaceAll` calls escapes each character on its own: no
      later replacement touches the ampersands an earlier one introduced. */
  lemma {:induction false} EscapeHtmlPerChar(s: string)
    ensures EscapeHtml(s) == Escaped(s)
  {
    if s == [] {
    } else {
      assert s == [s[0]] + s[1..];
      EscapeHtmlConcat([s[0]], s[1..]);
      EscapeHtmlOneChar(s[0]);
      EscapeHtmlPerChar(s[1..]);
    }
  }

  lemma DecodeEscapeChar(c: char, rest: string)
    ensures HtmlDecode(EscapeChar(c) + rest) == [c] + HtmlDecode(rest)
  {
    if c == '&' { DecodeAmp(rest); }
    else if c == '<' { DecodeLt(rest); }
    else if c == '>' { DecodeGt(rest); }
    else if c == '"' { DecodeQuot(rest); }
    else if c == '\'' { DecodeApos(rest); }
    else { DecodePlain(c, rest); }
  }

  lemma DecodeAmp(rest: string)
    ensures HtmlDecode("&amp;" + rest) == "&" + HtmlDecode(rest)
  {
    var t := "&amp;" + rest;
    assert t[..5] == "&amp;" && t[5..] == rest;
  }

  lemma DecodeLt(rest: string)
    ensures HtmlDecode("&lt;" + rest) == "<" + HtmlDecode(rest)
  {
    var t := "&lt;" + rest;
    assert t[..4] == "&lt;" && t[4..] == rest;
    assert !(|t| >= 5 && t[..5] == "&amp;") by { assert t[1] == 'l'; }
  }

  lemma DecodeGt(rest: string)
    ensures HtmlDecode("&gt;" + rest) == ">" + HtmlDecode(rest)
  {
    var t := "&gt;" + rest;
    assert t[..4] == "&gt;" && t[4..] == rest;
    assert t[1] == 'g';
    assert !(|t| >= 5 && t[..5] == "&amp;");
    assert t[..4] != "&lt;";
  }

  lemma DecodeQuot(rest: string)
    ensures HtmlDecode("&quot;" + rest) == "\"" + HtmlDecode(rest)
  {
    var t := "&quot;" + rest;
    assert t[..6] == "&quot;" && t[6..] == rest;
    assert t[1] == 'q';
    assert !(|t| >= 5 && t[..5] == "&amp;");
    assert t[..4] != "&lt;" && t[..4] != "&gt;";
  }

  lemma DecodeApos(rest: string)
    ensures HtmlDecode("&#039;" + rest) == "'" + HtmlDecode(rest)
  {
    var t := "&#039;" + rest;
    assert t[..6] == "&#039;" && t[6..] == rest;
    assert t[1] == '#';
    assert !(|t| >= 5 && t[..5] == "&amp;");
    assert t[..4] != "&lt;" && t[..4] != "&gt;";
    assert t[..6] != "&quot;";
  }

  lemma DecodePlain(c: char, rest: string)
    requires c != '&'
    ensures HtmlDecode([c] + rest) == [c] + HtmlDecode(rest)
  {
    var t := [c] + rest;
    assert t[0] == c && t[1..] == rest;
    assert !(|t| >= 5 && t[..5] == "&amp;") by { if |t| >= 5 { assert t[..5][0] == c; } }
    assert !(|t| >= 4 && t[..4] == "&lt;") by { if |t| >= 4 { assert t[..4][0] == c; } }
    assert !(|t| >= 4 && t[..4] == "&gt;") by { if |t| >= 4 { assert t[..4][0] == c; } }
    assert !(|t| >= 6 && t[..6] == "&quot;") by { if |t| >= 6 { assert t[..6][0] == c; } }
    assert !(|t| >= 6 && t[..6] == "&#039;") by { if |t| >= 6 { assert t[..6][0] == c; } }
  }

  lemma {:induction false} DecodeEscaped(s: string)
    ensures HtmlDecode(Escaped(s)) == s
  {
    if s != [] {
      DecodeEscapeChar(s[0], Escaped(s[1..]));
      DecodeEscaped(s[1..]);
      assert s == [s[0]] + s[1..];
    }
  }

  lemma {:induction false} EscapedIsSafe(s: string)
    ensures '<' !in Escaped(s) && '>' !in Escaped(s) && '"' !in Escaped(s) && '\'' !in Escaped(s)
  {
    if s != [] {
      EscapedIsSafe(s[1..]);
      EscapeCharSafe(s[0]);
      var e, rest := EscapeChar(s[0]), Escaped(s[1..]);
      assert Escaped(s) == e + rest;
      forall x | x in e + rest ensures x in e || x in rest {
        var k :| 0 <= k < |e + rest| && (e + rest)[k] == x;
        if k >= |e| {
          assert rest[k - |e|] == x;
        }
      }
    }
  }

  lemma EscapeCharSafe(c: char)
    ensures '<' !in EscapeChar(c) && '>' !in EscapeChar(c) && '"' !in EscapeChar(c) && '\'' !in EscapeChar(c)
  {
  }

  /** `escapeHtml` leaves no markup-significant character behind, and the
      browser's decoding of its output gives back exactly the input text. */
  lemma EscapeHtmlRoundTrip(s: string)
    ensures HtmlDecode(EscapeHtml(s)) == s
    ensures '<' !in EscapeHtml(s) && '>' !in EscapeHtml(s)
    ensures '"' !in EscapeHtml(s) && '\'' !in EscapeHtml(s)
  {
    EscapeHtmlPerChar(s);
    DecodeEscaped(s);
    EscapedIsSafe(s);
  }

  // ------------------------------------------------------------------ timeAgo

  /** The bucket `timeAgo` puts an age into. */
  datatype Age = Unknown | JustNow | MinutesAgo(minutes: int) | HoursAgo(hours: int) | DaysAgo(days: int)

  /** The bucketing of `timeAgo`, with the clock reading `now` and the parsed
      timestamp passed in (None: the timestamp did not parse, so the elapsed
      time is NaN). JavaScript's `Math.floor` of a quotient by a positive
      divisor is Dafny's `/`. */
  function AgeOf(now: int, timestamp: Option<int>): Age
  {
    match timestamp
    case None => Unknown
    case Some(t) =>
      var seconds := (now - t) / 1000;
      if seconds < 60 then JustNow
      else
        var minutes := seconds / 60;
        if minutes < 60 then MinutesAgo(minutes)
        else
          var hours := minutes / 60;
          if hours < 24 then HoursAgo(hours)
          else DaysAgo(hours / 24)
  }

  /** The label `timeAgo` returns. */
  function TimeAgo(now: int, timestamp: Option<int>): string
  {
    match AgeOf(now, timestamp)
    case Unknown => ""
    case JustNow => "just now"
    case MinutesAgo(m) => IntToString(m) + "m ago"
    case HoursAgo(h) => IntToString(h) + "h ago"
    case DaysAgo(d) => IntToString(d) + "d ago"
  }

  /** Whole minutes of whole seconds, then whole hours of those minutes. */
  lemma MinutesThenHours(s: int)
    requires s >= 0
    ensures (s / 60) / 60 == s / 3600
  {
    var m, h := s / 60, (s / 60) / 60;
    assert s == 60 * m + s % 60;
    assert m == 60 * h + m % 60;
    assert s == 3600 * h + (60 * (m % 60) + s % 60);
    assert 0 <= 60 * (m % 60) + s % 60 < 3600;
  }

  /** Whole days of whole hours of whole seconds. */
  lemma HoursThenDays(s: int)
    requires s >= 0
    ensures (s / 3600) / 24 == s / 86400
  {
    var h, d := s / 3600, (s / 3600) / 24;
    assert s == 3600 * h + s % 3600;
    assert h == 24 * d + h % 24;
    assert s == 86400 * d + (3600 * (h % 24) + s % 3600);
    assert 0 <= 3600 * (h % 24) + s % 3600 < 86400;
  }

  /** Each bucket covers exactly its range of elapsed whole seconds, and the
      number shown is that count of seconds floored to the bucket's unit. */
  lemma AgeBuckets(now: int, t: int)
    ensures var s := (now - t) / 1000;
      && (AgeOf(now, Some(t)) == JustNow <==> s < 60)
      && (60 <= s < 3600 ==> AgeOf(now, Some(t)) == MinutesAgo(s / 60))
      && (3600 <= s < 86400 ==> AgeOf(now, Some(t)) == HoursAgo(s / 3600))
      && (86400 <= s ==> AgeOf(now, Some(t)) == DaysAgo(s / 86400))
  {
    var s := (now - t) / 1000;
    if s >= 60 {
      MinutesThenHours(s);
      HoursThenDays(s);
    }
  }
}
