/**
 * The two string transforms the redirect applies to a generated URL:
 * collapsing `&amp;` back to `&` (PHP `str_replace('&amp;', '&', $url)`)
 * and HTML-escaping for an attribute value (PHP
 * `htmlspecialchars($url, ENT_QUOTES)`). Characters are abstract code points.
 */
module Escaping {
  import opened Text

  const AmpEntity: string := "&amp;"

  /** Replaces each `&amp;`, scanning left to right without overlap, by `&`. */
  function ReplaceAmp(s: string): (r: string)
    ensures |r| <= |s| && (|s| - |r|) % 4 == 0
    decreases |s|
  {
    if s == [] then []
    else if StartsWith(s, AmpEntity) then "&" + ReplaceAmp(s[5..])
    else [s[0]] + ReplaceAmp(s[1..])
  }

  /** The normalisation neither loses nor adds an ampersand. */
  lemma {:induction false} ReplaceAmpKeepsAmpersands(s: string)
    ensures multiset(ReplaceAmp(s))['&'] == multiset(s)['&']
    decreases |s|
  {
    if s == [] {
    } else if StartsWith(s, AmpEntity) {
      assert s == AmpEntity + s[5..];
      AmpEntityHasOneAmp();
      ReplaceAmpKeepsAmpersands(s[5..]);
    } else {
      assert s == [s[0]] + s[1..];
      ReplaceAmpKeepsAmpersands(s[1..]);
    }
  }

  lemma AmpEntityHasOneAmp()
    ensures multiset(AmpEntity)['&'] == 1
  {
  }

  /** A URL without any `&amp;` comes out of the normalisation unchanged. */
  lemma {:induction false} ReplaceAmpWithoutEntity(s: string)
    requires !Occurs(AmpEntity, s)
    ensures ReplaceAmp(s) == s
    decreases |s|
  {
    if s != [] {
      ReplaceAmpWithoutEntity(s[1..]);
    }
  }

  /**
   * An occurrence of `&amp;` is always replaced, whatever precedes it: no
   * match can straddle the boundary, because no proper prefix of `&amp;`
   * is also a suffix of it.
   */
  lemma {:induction false} ReplaceAmpAtEntity(a: string, b: string)
    ensures ReplaceAmp(a + AmpEntity + b) == ReplaceAmp(a) + "&" + ReplaceAmp(b)
    decreases |a|
  {
    var s := a + AmpEntity + b;
    if a == [] {
      assert s == AmpEntity + b;
      assert StartsWith(s, AmpEntity) && s[5..] == b;
    } else if StartsWith(a, AmpEntity) {
      assert StartsWith(s, AmpEntity) && s[5..] == a[5..] + AmpEntity + b by {
        assert s[..5] == a[..5];
      }
      ReplaceAmpAtEntity(a[5..], b);
    } else {
      assert !StartsWith(s, AmpEntity) by {
        if |a| < 5 {
          NotPrefixAt(s, AmpEntity, |a|);
        } else {
          assert s[..5] == a[..5];
        }
      }
      assert s[0] == a[0] && s[1..] == a[1..] + AmpEntity + b;
      ReplaceAmpAtEntity(a[1..], b);
    }
  }

  /** Escapes every `&` as `&amp;`: the double-escaping the normalisation undoes. */
  function EscapeAmp(t: string): (r: string)
    ensures |r| == |t| + 4 * multiset(t)['&']
    decreases |t|
  {
    if t == [] then []
    else
      assert t == [t[0]] + t[1..];
      (if t[0] == '&' then AmpEntity else [t[0]]) + EscapeAmp(t[1..])
  }

  /** Collapsing `&amp;` exactly undoes an extra round of `&` escaping. */
  lemma {:induction false} ReplaceAmpUndoesEscapeAmp(t: string)
    ensures ReplaceAmp(EscapeAmp(t)) == t
    decreases |t|
  {
    if t != [] {
      var rest := EscapeAmp(t[1..]);
      if t[0] == '&' {
        assert EscapeAmp(t) == AmpEntity + rest;
        ReplaceAmpAtEntity([], rest);
        assert [] + AmpEntity + rest == AmpEntity + rest;
      } else {
        var s := [t[0]] + rest;
        assert EscapeAmp(t) == s;
        assert !StartsWith(s, AmpEntity) by { assert s[0] != '&'; }
        assert s[1..] == rest;
      }
      ReplaceAmpUndoesEscapeAmp(t[1..]);
    }
  }

  /** The characters `htmlspecialchars` rewrites under ENT_QUOTES. */
  predicate IsHtmlSpecial(c: char)
  {
    c == '&' || c == '"' || c == '\'' || c == '<' || c == '>'
  }

  /** The entity `htmlspecialchars` writes for one character under ENT_QUOTES. */
  function EscapeChar(c: char): string
  {
    match c
    case '&' => "&amp;"
    case '"' => "&quot;"
    case '\'' => "&#039;"
    case '<' => "&lt;"
    case '>' => "&gt;"
    case _ => [c]
  }

  /** How many characters the entities for the special characters in `m` add. */
  function Growth(m: multiset<char>): nat
  {
    4 * m['&'] + 5 * m['"'] + 5 * m['\''] + 3 * m['<'] + 3 * m['>']
  }

  lemma EscapeCharFacts(c: char)
    ensures |EscapeChar(c)| == 1 + Growth(multiset{c})
    ensures '"' !in EscapeChar(c) && '\'' !in EscapeChar(c) && '<' !in EscapeChar(c) && '>' !in EscapeChar(c)
  {
  }

  /** `htmlspecialchars($s, ENT_QUOTES)`, with double encoding on. */
  function EscapeHtml(s: string): (r: string)
    ensures '"' !in r && '\'' !in r && '<' !in r && '>' !in r
    decreases |s|
  {
    if s == [] then []
    else
      EscapeCharFacts(s[0]);
      EscapeChar(s[0]) + EscapeHtml(s[1..])
  }

  /** Each special character grows by its entity's length less one; nothing else changes length. */
  lemma {:induction false} EscapeHtmlLength(s: string)
    ensures |EscapeHtml(s)| == |s| + Growth(multiset(s))
    decreases |s|
  {
    if s != [] {
      assert s == [s[0]] + s[1..];
      EscapeCharFacts(s[0]);
      EscapeHtmlLength(s[1..]);
    }
  }

  /** Escaping never shortens the text, and leaves it alone exactly when nothing needs escaping. */
  lemma EscapeHtmlIdentity(s: string)
    ensures |EscapeHtml(s)| >= |s|
    ensures EscapeHtml(s) == s <==> forall i :: 0 <= i < |s| ==> !IsHtmlSpecial(s[i])
  {
    EscapeHtmlLength(s);
    if forall i :: 0 <= i < |s| ==> !IsHtmlSpecial(s[i]) {
      EscapeHtmlPlain(s);
    } else {
      var i :| 0 <= i < |s| && IsHtmlSpecial(s[i]);
      assert s[i] in multiset(s);
    }
  }

  lemma {:induction false} EscapeHtmlPlain(s: string)
    requires forall i :: 0 <= i < |s| ==> !IsHtmlSpecial(s[i])
    ensures EscapeHtml(s) == s
    decreases |s|
  {
    if s != [] {
      EscapeHtmlPlain(s[1..]);
    }
  }

  /**
   * `htmlspecialchars_decode($s, ENT_QUOTES)` restricted to the five entities
   * `htmlspecialchars` writes; every other character is copied.
   */
  function UnescapeHtml(s: string): string
    decreases |s|
  {
    if s == [] then []
    else if StartsWith(s, "&amp;") then "&" + UnescapeHtml(s[5..])
    else if StartsWith(s, "&quot;") then "\"" + UnescapeHtml(s[6..])
    else if StartsWith(s, "&#039;") then "'" + UnescapeHtml(s[6..])
    else if StartsWith(s, "&lt;") then "<" + UnescapeHtml(s[4..])
    else if StartsWith(s, "&gt;") then ">" + UnescapeHtml(s[4..])
    else [s[0]] + UnescapeHtml(s[1..])
  }

  lemma UnescapeEscapeChar(c: char, t: string)
    ensures UnescapeHtml(EscapeChar(c) + t) == [c] + UnescapeHtml(t)
  {
    var e := EscapeChar(c);
    var s := e + t;
    assert s[..|e|] == e && s[|e|..] == t;
    if c == '&' {
      assert StartsWith(s, "&amp;");
    } else if c == '"' {
      NotPrefixAt(s, "&amp;", 1);
      assert StartsWith(s, "&quot;");
    } else if c == '\'' {
      NotPrefixAt(s, "&amp;", 1);
      NotPrefixAt(s, "&quot;", 1);
      assert StartsWith(s, "&#039;");
    } else if c == '<' {
      NotPrefixAt(s, "&amp;", 1);
      NotPrefixAt(s, "&quot;", 1);
      NotPrefixAt(s, "&#039;", 1);
      assert StartsWith(s, "&lt;");
    } else if c == '>' {
      NotPrefixAt(s, "&amp;", 1);
      NotPrefixAt(s, "&quot;", 1);
      NotPrefixAt(s, "&#039;", 1);
      NotPrefixAt(s, "&lt;", 1);
      assert StartsWith(s, "&gt;");
    } else {
      NotPrefixAt(s, "&amp;", 0);
      NotPrefixAt(s, "&quot;", 0);
      NotPrefixAt(s, "&#039;", 0);
      NotPrefixAt(s, "&lt;", 0);
      NotPrefixAt(s, "&gt;", 0);
    }
  }

  /** Escaping loses nothing: decoding the entities gives back the URL. */
  lemma {:induction false} UnescapeEscapeHtml(s: string)
    ensures UnescapeHtml(EscapeHtml(s)) == s
    decreases |s|
  {
    if s != [] {
      UnescapeEscapeChar(s[0], EscapeHtml(s[1..]));
      UnescapeEscapeHtml(s[1..]);
    }
  }
}
