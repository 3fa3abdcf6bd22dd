/**
 * escapeHtml of the creators list page (js/creators.js): three chained global
 * replacements, '&' first, then '<', then '>'.
 */
module CreatorsPage {
  import opened HtmlText

  function EscapeHtml(s: string): string {
    ReplaceAll(ReplaceAll(ReplaceAll(s, '&', "&amp;"), '<', "&lt;"), '>', "&gt;")
  }

  /** Escaping a concatenation is concatenating the escapes. */
  lemma EscapeHtmlAppend(a: string, b: string)
    ensures EscapeHtml(a + b) == EscapeHtml(a) + EscapeHtml(b)
  {
    ReplaceAllAppend(a, b, '&', "&amp;");
    var a1, b1 := ReplaceAll(a, '&', "&amp;"), ReplaceAll(b, '&', "&amp;");
    ReplaceAllAppend(a1, b1, '<', "&lt;");
    ReplaceAllAppend(ReplaceAll(a1, '<', "&lt;"), ReplaceAll(b1, '<', "&lt;"), '>', "&gt;");
  }

  /** On one character the chain gives that character's entity, or the character itself. */
  lemma EscapeHtmlChar(ch: char)
    ensures EscapeHtml([ch]) == EscapeChar(ch)
  {
    ReplaceAllOne(ch, '&', "&amp;");
    if ch == '&' {
      ReplaceAllAbsent("&amp;", '<', "&lt;");
      ReplaceAllAbsent("&amp;", '>', "&gt;");
    } else {
      ReplaceAllOne(ch, '<', "&lt;");
      if ch == '<' {
        ReplaceAllAbsent("&lt;", '>', "&gt;");
      } else {
        ReplaceAllOne(ch, '>', "&gt;");
      }
    }
  }

  /**
   * The chain is the per-character escape: '&' is replaced first, so the
   * entities the later replacements produce are not escaped again.
   */
  lemma {:induction false} EscapeHtmlIsPerChar(s: string)
    ensures EscapeHtml(s) == EscapeEach(s)
    decreases |s|
  {
    if s != [] {
      assert s == [s[0]] + s[1..];
      EscapeHtmlAppend([s[0]], s[1..]);
      EscapeHtmlChar(s[0]);
      EscapeHtmlIsPerChar(s[1..]);
    }
  }

  /** Replacing '<' before '&' would escape the produced entity a second time. */
  lemma OtherOrderEscapesTwice()
    ensures ReplaceAll(ReplaceAll("<", '<', "&lt;"), '&', "&amp;") == "&amp;lt;"
    ensures EscapeHtml("<") == "&lt;"
  {
    ReplaceAllOne('<', '<', "&lt;");
    assert "&lt;" == "&" + "lt;";
    ReplaceAllAppend("&", "lt;", '&', "&amp;");
    ReplaceAllOne('&', '&', "&amp;");
    ReplaceAllAbsent("lt;", '&', "&amp;");
    EscapeHtmlChar('<');
  }

  lemma {:induction false} EscapeEachNoAngles(s: string)
    ensures '<' !in EscapeEach(s) && '>' !in EscapeEach(s)
    decreases |s|
  {
    if s != [] {
      EscapeEachNoAngles(s[1..]);
    }
  }

  /** The output contains no '<' and no '>'. */
  lemma NoAngleBrackets(s: string)
    ensures '<' !in EscapeHtml(s) && '>' !in EscapeHtml(s)
  {
    EscapeHtmlIsPerChar(s);
    EscapeEachNoAngles(s);
  }

  /** Text without '&', '<' and '>' is returned unchanged. */
  lemma PlainTextUnchanged(s: string)
    requires '&' !in s && '<' !in s && '>' !in s
    ensures EscapeHtml(s) == s
  {
    ReplaceAllAbsent(s, '&', "&amp;");
    ReplaceAllAbsent(s, '<', "&lt;");
    ReplaceAllAbsent(s, '>', "&gt;");
  }

  /** One character's escape: its length and its quotes. */
  lemma EscapeCharCounts(ch: char)
    ensures |EscapeChar(ch)| == 1 + (if ch == '&' then 4 else if ch == '<' || ch == '>' then 3 else 0)
    ensures Count('"', EscapeChar(ch)) == Count('"', [ch])
    ensures Count('\'', EscapeChar(ch)) == Count('\'', [ch])
  {
    var e := EscapeChar(ch);
    if ch in "&<>" {
      assert '"' !in e && '\'' !in e;
      assert '"' !in multiset(e) && '\'' !in multiset(e);
    }
  }

  lemma {:induction false} EscapeEachCounts(s: string)
    ensures |EscapeEach(s)| == |s| + 4 * Count('&', s) + 3 * Count('<', s) + 3 * Count('>', s)
    ensures Count('"', EscapeEach(s)) == Count('"', s)
    ensures Count('\'', EscapeEach(s)) == Count('\'', s)
    decreases |s|
  {
    if s != [] {
      var x, rest := s[0], s[1..];
      EscapeEachCounts(rest);
      EscapeCharCounts(x);
      assert s == [x] + rest;
      assert multiset(s) == multiset([x]) + multiset(rest);
      assert multiset(EscapeEach(s)) == multiset(EscapeChar(x)) + multiset(EscapeEach(rest));
    }
  }

  /** Each '&' adds four characters and each '<' or '>' three. */
  lemma EscapedLength(s: string)
    ensures |EscapeHtml(s)| == |s| + 4 * Count('&', s) + 3 * Count('<', s) + 3 * Count('>', s)
  {
    EscapeHtmlIsPerChar(s);
    EscapeEachCounts(s);
  }

  /** Quotes are not escaped: every '"' and '\'' of the input is in the output, and no more. */
  lemma QuotesPassThrough(s: string)
    ensures Count('"', EscapeHtml(s)) == Count('"', s)
    ensures Count('\'', EscapeHtml(s)) == Count('\'', s)
  {
    EscapeHtmlIsPerChar(s);
    EscapeEachCounts(s);
  }
}
