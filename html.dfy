/** `escapeHtml` (js/views.js, lines 134-142): the text every view puts into
    markup, with the five characters that are special in HTML replaced by
    entities, `&` first. */
module Html {
  import opened JsValues
  import opened JsonText

  /** What callers hand to `escapeHtml`: a string, a number (an id or a
      score), or `null`/`undefined`. */
  datatype HtmlArg = Text(s: string) | Number(n: JsValues.Number) | Nothing

  /** `String(str ?? "")` for a value that is not a string. */
  function AsText(x: HtmlArg): (s: string)
    ensures x.Nothing? ==> s == ""
    ensures x.Text? ==> s == x.s
  {
    match x
    case Text(s) => s
    case Number(n) => NumberText(n)
    case Nothing => ""
  }

  /** `escapeHtml(str)` */
  function EscapeHtml(x: HtmlArg): (t: string)
    ensures '<' !in t && '>' !in t && '"' !in t && '\'' !in t
    ensures x.Nothing? ==> t == ""
  {
    Passes(AsText(x))
  }

  /** The entity one character becomes; other characters stay. */
  function Entity(c: char): string {
    if c == '&' then "&amp;"
    else if c == '<' then "&lt;"
    else if c == '>' then "&gt;"
    else if c == '"' then "&quot;"
    else if c == '\'' then "&#39;"
    else [c]
  }

  /** Escaping character by character. */
  function EscapeEach(s: string): string {
    if s == [] then [] else Entity(s[0]) + EscapeEach(s[1..])
  }

  /** The five global replacements of `escapeHtml`, in their order. */
  function Passes(s: string): (t: string)
    ensures '<' !in t && '>' !in t && '"' !in t && '\'' !in t
  {
    From2(ReplaceChar(s, '&', "&amp;"))
  }

  function From2(s: string): (t: string)
    ensures '<' !in t && '>' !in t && '"' !in t && '\'' !in t
  {
    From3(ReplaceChar(s, '<', "&lt;"))
  }

  function From3(s: string): (t: string)
    ensures '>' !in t && '"' !in t && '\'' !in t
    ensures '<' !in s ==> '<' !in t
  {
    From4(ReplaceChar(s, '>', "&gt;"))
  }

  function From4(s: string): (t: string)
    ensures '"' !in t && '\'' !in t
    ensures '<' !in s ==> '<' !in t
    ensures '>' !in s ==> '>' !in t
  {
    ReplaceChar(ReplaceChar(s, '"', "&quot;"), '\'', "&#39;")
  }

  lemma PassesAppend(a: string, b: string)
    ensures Passes(a + b) == Passes(a) + Passes(b)
  {
    ReplaceCharAppend(a, b, '&', "&amp;");
    var a1, b1 := ReplaceChar(a, '&', "&amp;"), ReplaceChar(b, '&', "&amp;");
    ReplaceCharAppend(a1, b1, '<', "&lt;");
    var a2, b2 := ReplaceChar(a1, '<', "&lt;"), ReplaceChar(b1, '<', "&lt;");
    ReplaceCharAppend(a2, b2, '>', "&gt;");
    var a3, b3 := ReplaceChar(a2, '>', "&gt;"), ReplaceChar(b2, '>', "&gt;");
    ReplaceCharAppend(a3, b3, '"', "&quot;");
    var a4, b4 := ReplaceChar(a3, '"', "&quot;"), ReplaceChar(b3, '"', "&quot;");
    ReplaceCharAppend(a4, b4, '\'', "&#39;");
  }

  /** Text without the characters of the later passes goes through them
      unchanged. */
  lemma From2Clean(e: string)
    requires '<' !in e && '>' !in e && '"' !in e && '\'' !in e
    ensures From2(e) == e
  {
    ReplaceCharAbsent(e, '<', "&lt;");
    From3Clean(e);
  }

  lemma From3Clean(e: string)
    requires '>' !in e && '"' !in e && '\'' !in e
    ensures From3(e) == e
  {
    ReplaceCharAbsent(e, '>', "&gt;");
    From4Clean(e);
  }

  lemma From4Clean(e: string)
    requires '"' !in e && '\'' !in e
    ensures From4(e) == e
  {
    ReplaceCharAbsent(e, '"', "&quot;");
    ReplaceCharAbsent(e, '\'', "&#39;");
  }

  lemma ReplaceOne(c: char, d: char, r: string)
    ensures ReplaceChar([c], d, r) == if c == d then r else [c]
  {
    assert [c][1..] == [];
  }

  /** The entities contain none of the characters the later passes look
      for, so each character ends up as its entity. */
  lemma PassesOne(c: char)
    ensures Passes([c]) == Entity(c)
  {
    ReplaceOne(c, '&', "&amp;");
    if c == '&' {
      From2Clean("&amp;");
    } else {
      ReplaceOne(c, '<', "&lt;");
      if c == '<' {
        From3Clean("&lt;");
      } else {
        ReplaceOne(c, '>', "&gt;");
        if c == '>' {
          From4Clean("&gt;");
        } else {
          ReplaceOne(c, '"', "&quot;");
          if c == '"' {
            ReplaceCharAbsent("&quot;", '\'', "&#39;");
          } else {
            ReplaceOne(c, '\'', "&#39;");
          }
        }
      }
    }
  }

  /** The five passes escape each character on its own. */
  lemma {:induction false} EscapeIsPerCharacter(s: string)
    ensures Passes(s) == EscapeEach(s)
  {
    if s != [] {
      assert s == [s[0]] + s[1..];
      PassesAppend([s[0]], s[1..]);
      PassesOne(s[0]);
      EscapeIsPerCharacter(s[1..]);
    }
  }

  /** Reading escaped text back, as a browser does when it parses an
      attribute value or text content: each of the five entities stands for
      its character. */
  function Unescape(t: string): string
    decreases |t|
  {
    if t == [] then []
    else if StartsWith(t, "&amp;") then "&" + Unescape(t[5..])
    else if StartsWith(t, "&lt;") then "<" + Unescape(t[4..])
    else if StartsWith(t, "&gt;") then ">" + Unescape(t[4..])
    else if StartsWith(t, "&quot;") then "\"" + Unescape(t[6..])
    else if StartsWith(t, "&#39;") then "'" + Unescape(t[5..])
    else [t[0]] + Unescape(t[1..])
  }

  lemma UnescapeEntity(c: char, rest: string)
    ensures Unescape(Entity(c) + rest) == [c] + Unescape(rest)
  {
    if c == '&' {
      UnescapeAmp(rest);
    } else if c == '<' {
      UnescapeLt(rest);
    } else if c == '>' {
      UnescapeGt(rest);
    } else if c == '"' {
      UnescapeQuot(rest);
    } else if c == '\'' {
      UnescapeApos(rest);
    } else {
      assert Entity(c) == [c];
      UnescapePlain(c, rest);
    }
  }

  /** Every entity starts with `&`, so text starting with any other
      character reads that character as itself. */
  lemma UnescapePlain(c: char, rest: string)
    requires c != '&'
    ensures Unescape([c] + rest) == [c] + Unescape(rest)
  {
    var t := [c] + rest;
    assert t[0] == c && t[1..] == rest;
    NotEntityStart(t, "&amp;");
    NotEntityStart(t, "&lt;");
    NotEntityStart(t, "&gt;");
    NotEntityStart(t, "&quot;");
    NotEntityStart(t, "&#39;");
  }

  lemma NotEntityStart(t: string, e: string)
    requires t != [] && t[0] != '&' && e != [] && e[0] == '&'
    ensures !StartsWith(t, e)
  {
  }

  lemma UnescapeAmp(rest: string)
    ensures Unescape("&amp;" + rest) == "&" + Unescape(rest)
  {
    var t := "&amp;" + rest;
    assert t[..5] == "&amp;" && t[5..] == rest;
  }

  lemma UnescapeLt(rest: string)
    ensures Unescape("&lt;" + rest) == "<" + Unescape(rest)
  {
    var t := "&lt;" + rest;
    assert t[..4] == "&lt;" && t[4..] == rest;
    Mismatch(t, "&amp;", 1);
  }

  lemma UnescapeGt(rest: string)
    ensures Unescape("&gt;" + rest) == ">" + Unescape(rest)
  {
    var t := "&gt;" + rest;
    assert t[..4] == "&gt;" && t[4..] == rest;
    Mismatch(t, "&amp;", 1);
    Mismatch(t, "&lt;", 1);
  }

  lemma UnescapeQuot(rest: string)
    ensures Unescape("&quot;" + rest) == "\"" + Unescape(rest)
  {
    var t := "&quot;" + rest;
    assert t[..6] == "&quot;" && t[6..] == rest;
    Mismatch(t, "&amp;", 1);
    Mismatch(t, "&lt;", 1);
    Mismatch(t, "&gt;", 1);
  }

  lemma UnescapeApos(rest: string)
    ensures Unescape("&#39;" + rest) == "'" + Unescape(rest)
  {
    var t := "&#39;" + rest;
    assert t[..5] == "&#39;" && t[5..] == rest;
    Mismatch(t, "&amp;", 1);
    Mismatch(t, "&lt;", 1);
    Mismatch(t, "&gt;", 1);
    Mismatch(t, "&quot;", 1);
  }

  /** Text that differs from `e` at some position does not start with `e`. */
  lemma Mismatch(t: string, e: string, i: nat)
    requires i < |e| && i < |t| && t[i] != e[i]
    ensures !StartsWith(t, e)
  {
    if |e| <= |t| {
      assert t[..|e|][i] == t[i];
    }
  }

  lemma {:induction false} UnescapeEach(s: string)
    ensures Unescape(EscapeEach(s)) == s
  {
    if s != [] {
      UnescapeEntity(s[0], EscapeEach(s[1..]));
      UnescapeEach(s[1..]);
      assert s == [s[0]] + s[1..];
    }
  }

  /** Escaping loses nothing: the browser reads back exactly the text that
      was escaped, so an id written into `data-id` comes back as `String(id)`. */
  lemma UnescapeEscape(x: HtmlArg)
    ensures Unescape(EscapeHtml(x)) == AsText(x)
  {
    EscapeIsPerCharacter(AsText(x));
    UnescapeEach(AsText(x));
  }

  /** Every `&` in the output begins one of the five entities (because `&`
      is replaced first, no entity is escaped twice). */
  predicate StartsEntity(t: string) {
    StartsWith(t, "&amp;") || StartsWith(t, "&lt;") || StartsWith(t, "&gt;")
    || StartsWith(t, "&quot;") || StartsWith(t, "&#39;")
  }

  lemma {:induction false} AmpersandsStartEntities(s: string)
    ensures forall i :: 0 <= i < |EscapeEach(s)| && EscapeEach(s)[i] == '&' ==> StartsEntity(EscapeEach(s)[i..])
  {
    if s != [] {
      AmpersandsStartEntities(s[1..]);
      var e := Entity(s[0]);
      var rest := EscapeEach(s[1..]);
      var t := e + rest;
      forall i | 0 <= i < |t| && t[i] == '&'
        ensures StartsEntity(t[i..])
      {
        if i < |e| {
          assert e[i] == '&';
          assert i == 0;
          assert t[..|e|] == e;
        } else {
          assert t[i..] == rest[i - |e|..];
        }
      }
    }
  }

  lemma EscapeHtmlAmpersands(x: HtmlArg)
    ensures var t := EscapeHtml(x);
      forall i :: 0 <= i < |t| && t[i] == '&' ==> StartsEntity(t[i..])
  {
    EscapeIsPerCharacter(AsText(x));
    AmpersandsStartEntities(AsText(x));
  }
}
