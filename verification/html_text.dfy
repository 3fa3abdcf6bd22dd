/**
 * Text operations shared by the two page scripts' escapeHtml: a global
 * single-character String.replace, the per-character escape it amounts to,
 * and the decoding of the three entities that escape produces.
 */
module HtmlText {

  /** s.replace(/c/g, rep): every occurrence of c, left to right, becomes rep. */
  function ReplaceAll(s: string, c: char, rep: string): string
    decreases |s|
  {
    if s == [] then []
    else (if s[0] == c then rep else [s[0]]) + ReplaceAll(s[1..], c, rep)
  }

  /** Without an occurrence of c there is nothing to replace. */
  lemma {:induction false} ReplaceAllAbsent(s: string, c: char, rep: string)
    requires c !in s
    ensures ReplaceAll(s, c, rep) == s
    decreases |s|
  {
    if s != [] {
      ReplaceAllAbsent(s[1..], c, rep);
    }
  }

  /** On a single character: its replacement, or the character itself. */
  lemma ReplaceAllOne(ch: char, c: char, rep: string)
    ensures ReplaceAll([ch], c, rep) == if ch == c then rep else [ch]
  {
    assert [ch][1..] == [];
    assert ReplaceAll([], c, rep) == [];
  }

  /** Replacing distributes over concatenation: the pattern is a single character. */
  lemma {:induction false} ReplaceAllAppend(a: string, b: string, c: char, rep: string)
    ensures ReplaceAll(a + b, c, rep) == ReplaceAll(a, c, rep) + ReplaceAll(b, c, rep)
    decreases |a|
  {
    if a == [] {
      assert a + b == b;
    } else {
      assert (a + b)[0] == a[0] && (a + b)[1..] == a[1..] + b;
      ReplaceAllAppend(a[1..], b, c, rep);
    }
  }

  /** The escape of one character: the three HTML specials become entities. */
  function EscapeChar(ch: char): string {
    if ch == '&' then "&amp;"
    else if ch == '<' then "&lt;"
    else if ch == '>' then "&gt;"
    else [ch]
  }

  /** Escaping character by character. */
  function EscapeEach(s: string): (r: string)
    decreases |s|
  {
    if s == [] then [] else EscapeChar(s[0]) + EscapeEach(s[1..])
  }

  lemma {:induction false} EscapeEachAppend(a: string, b: string)
    ensures EscapeEach(a + b) == EscapeEach(a) + EscapeEach(b)
    decreases |a|
  {
    if a == [] {
      assert a + b == b;
    } else {
      assert (a + b)[0] == a[0] && (a + b)[1..] == a[1..] + b;
      EscapeEachAppend(a[1..], b);
    }
  }

  /** The number of occurrences of c in s. */
  function Count(c: char, s: string): nat {
    multiset(s)[c]
  }

  /** Reading the escaped text back: each entity becomes its character again. */
  function Unescape(t: string): string
    decreases |t|
  {
    if t == [] then []
    else if |t| >= 5 && t[..5] == "&amp;" then "&" + Unescape(t[5..])
    else if |t| >= 4 && t[..4] == "&lt;" then "<" + Unescape(t[4..])
    else if |t| >= 4 && t[..4] == "&gt;" then ">" + Unescape(t[4..])
    else [t[0]] + Unescape(t[1..])
  }

  /** Decoding reads one escaped character back off the front. */
  lemma UnescapeStep(ch: char, rest: string)
    ensures Unescape(EscapeChar(ch) + rest) == [ch] + Unescape(rest)
  {
    var t := EscapeChar(ch) + rest;
    if ch == '&' {
      assert t[..5] == "&amp;" && t[5..] == rest;
    } else if ch == '<' {
      assert |t| >= 5 ==> t[..5][1] != "&amp;"[1];
      assert t[..4] == "&lt;" && t[4..] == rest;
    } else if ch == '>' {
      assert |t| >= 5 ==> t[..5][1] != "&amp;"[1];
      assert t[..4] != "&lt;" by { assert t[1] != "&lt;"[1]; }
      assert t[..4] == "&gt;" && t[4..] == rest;
    } else {
      assert t[0] == ch && t[1..] == rest;
      assert |t| >= 5 ==> t[..5][0] != '&';
      assert |t| >= 4 ==> t[..4][0] != '&';
    }
  }

  /** Decoding undoes the per-character escape. */
  lemma {:induction false} UnescapeEscapeEach(s: string)
    ensures Unescape(EscapeEach(s)) == s
    decreases |s|
  {
    if s != [] {
      UnescapeEscapeEach(s[1..]);
      UnescapeStep(s[0], EscapeEach(s[1..]));
      assert s == [s[0]] + s[1..];
    }
  }

  /** Hence distinct inputs escape to distinct outputs. */
  lemma EscapeEachInjective(a: string, b: string)
    requires EscapeEach(a) == EscapeEach(b)
    ensures a == b
  {
    UnescapeEscapeEach(a);
    UnescapeEscapeEach(b);
  }
}
