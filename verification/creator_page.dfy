/**
 * escapeHtml of the creator profile page (js/creator.js), written out again
 * there, and the data-id attribute the page builds with it for each
 * unlockable's button. The page carries its own copy of the function rather
 * than sharing the list page's, and so does this module: the copy is kept on
 * purpose, and AgreesWithCreatorsPage proves the two equal.
 */
module CreatorPage {
  import opened HtmlText
  import CreatorsPage

  function EscapeHtml(s: string): string {
    ReplaceAll(ReplaceAll(ReplaceAll(s, '&', "&amp;"), '<', "&lt;"), '>', "&gt;")
  }

  /** The two copies agree on every input, and both are the per-character escape. */
  lemma AgreesWithCreatorsPage(s: string)
    ensures EscapeHtml(s) == CreatorsPage.EscapeHtml(s)
    ensures EscapeHtml(s) == EscapeEach(s)
  {
    CreatorsPage.EscapeHtmlIsPerChar(s);
  }

  /** The output contains no '<' and no '>'. */
  lemma NoAngleBrackets(s: string)
    ensures '<' !in EscapeHtml(s) && '>' !in EscapeHtml(s)
  {
    AgreesWithCreatorsPage(s);
    CreatorsPage.NoAngleBrackets(s);
  }

  /** Distinct inputs give distinct escaped outputs: the entities are prefix-free. */
  lemma Injective(a: string, b: string)
    requires EscapeHtml(a) == EscapeHtml(b)
    ensures a == b
  {
    AgreesWithCreatorsPage(a);
    AgreesWithCreatorsPage(b);
    EscapeEachInjective(a, b);
  }

  /** The data-id attribute of an unlockable's button. */
  function DataIdAttribute(id: string): (attr: string)
    ensures |attr| >= 10 && attr[..9] == "data-id=\"" && attr[|attr| - 1] == '"'
    ensures attr[9..|attr| - 1] == EscapeHtml(id)
  {
    "data-id=\"" + EscapeHtml(id) + "\""
  }

  /**
   * The escape leaves '"' alone, so an id holding a '"' puts one inside the
   * quoted value, where the attribute ends early; an id without one gives a
   * value without one.
   */
  lemma QuoteEndsAttributeEarly(id: string)
    ensures var attr := DataIdAttribute(id);
      '"' in attr[9..|attr| - 1] <==> '"' in id
  {
    AgreesWithCreatorsPage(id);
    CreatorsPage.EscapeEachCounts(id);
    assert ('"' in EscapeEach(id)) == ('"' in multiset(EscapeEach(id)));
    assert ('"' in id) == ('"' in multiset(id));
  }

  /** The part of s before its first '"': what a browser takes as a double-quoted attribute value. */
  function UntilQuote(s: string): (r: string)
    ensures r <= s && '"' !in r
    ensures |r| < |s| ==> s[|r|] == '"'
    decreases |s|
  {
    if s == [] || s[0] == '"' then [] else [s[0]] + UntilQuote(s[1..])
  }

  /** A value without '"' followed by the closing quote reads back as itself. */
  lemma {:induction false} UntilQuoteClosed(v: string)
    requires '"' !in v
    ensures UntilQuote(v + "\"") == v
    decreases |v|
  {
    if v != [] {
      assert (v + "\"")[1..] == v[1..] + "\"";
      UntilQuoteClosed(v[1..]);
    }
  }

  /**
   * A browser reading the data-id attribute gets back exactly the escaped id
   * if and only if the id holds no '"'.
   */
  lemma AttributeReadsBack(id: string)
    ensures UntilQuote(DataIdAttribute(id)[9..]) == EscapeHtml(id) <==> '"' !in id
  {
    var attr := DataIdAttribute(id);
    var v := EscapeHtml(id);
    assert attr[9..] == v + "\"";
    QuoteEndsAttributeEarly(id);
    if '"' !in id {
      UntilQuoteClosed(v);
    }
  }
}
