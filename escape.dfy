/**
 * The two escapers of the tracker: `csvEscape` (app.js:892-898), which quotes a
 * CSV field as section 2 of RFC 4180 describes, and `escapeHtml`
 * (app.js:669-676), which replaces the five HTML-significant characters by
 * entity references. Each comes with the decoder that undoes it.
 */
module Escape {
  import opened Strings

  // ----- CSV fields -----

  /** A field must be quoted when it holds a comma, a double quote or a line feed. */
  predicate NeedsQuotes(s: string) {
    ',' in s || '"' in s || '\n' in s
  }

  /** `csvEscape(s)`: quote the field and double its quotes, or leave it alone. */
  function CsvEscape(s: string): (r: string)
    ensures !NeedsQuotes(s) ==> r == s
    ensures NeedsQuotes(s) ==> |r| >= 2 && r[0] == '"' && r[|r| - 1] == '"'
  {
    if NeedsQuotes(s) then "\"" + ReplaceAll(s, '"', "\"\"") + "\"" else s
  }

  /** Reading one field back: strip the surrounding quotes and collapse doubled quotes. */
  function CsvUnescape(f: string): string {
    if |f| >= 2 && f[0] == '"' && f[|f| - 1] == '"' then Undouble(f[1..|f| - 1]) else f
  }

  /** Replaces every `""` by `"`, scanning left to right. */
  function Undouble(s: string): string {
    if |s| >= 2 && s[0] == '"' && s[1] == '"' then "\"" + Undouble(s[2..])
    else if s == [] then []
    else [s[0]] + Undouble(s[1..])
  }

  /** Doubling the quotes, then collapsing them, restores the text. */
  lemma {:induction false} UndoubleDoubled(s: string)
    ensures Undouble(ReplaceAll(s, '"', "\"\"")) == s
  {
    if s != [] {
      var rest := ReplaceAll(s[1..], '"', "\"\"");
      UndoubleDoubled(s[1..]);
      if s[0] == '"' {
        assert ReplaceAll(s, '"', "\"\"") == "\"\"" + rest;
        assert ("\"\"" + rest)[2..] == rest;
      } else {
        assert ReplaceAll(s, '"', "\"\"") == [s[0]] + rest;
        assert ([s[0]] + rest)[1..] == rest;
      }
      assert s == [s[0]] + s[1..];
    }
  }

  /** Inside a quoted field every quote is doubled: no lone quote ends the field early. */
  predicate QuotesPaired(s: string) {
    if s == [] then true
    else if s[0] == '"' then |s| >= 2 && s[1] == '"' && QuotesPaired(s[2..])
    else QuotesPaired(s[1..])
  }

  lemma {:induction false} DoubledQuotesPaired(s: string)
    ensures QuotesPaired(ReplaceAll(s, '"', "\"\""))
  {
    if s != [] {
      var rest := ReplaceAll(s[1..], '"', "\"\"");
      DoubledQuotesPaired(s[1..]);
      if s[0] == '"' {
        assert ReplaceAll(s, '"', "\"\"") == "\"\"" + rest;
        assert ("\"\"" + rest)[2..] == rest;
      } else {
        assert ReplaceAll(s, '"', "\"\"") == [s[0]] + rest;
        assert ([s[0]] + rest)[1..] == rest;
      }
    }
  }

  /** `csvEscape` loses nothing: the field reads back as the original text. */
  lemma CsvRoundTrip(s: string)
    ensures CsvUnescape(CsvEscape(s)) == s
  {
    if NeedsQuotes(s) {
      var inner := ReplaceAll(s, '"', "\"\"");
      var r := "\"" + inner + "\"";
      assert r[1..|r| - 1] == inner;
      UndoubleDoubled(s);
    } else {
      assert '"' !in s;
      if |s| >= 2 {
        assert s[0] in s;
      }
    }
  }

  /** A quoted field is well formed: only doubled quotes between the outer ones. */
  lemma CsvQuotedWellFormed(s: string)
    ensures NeedsQuotes(s) ==> QuotesPaired(CsvEscape(s)[1..|CsvEscape(s)| - 1])
    ensures !NeedsQuotes(s) ==> '"' !in CsvEscape(s) && ',' !in CsvEscape(s) && '\n' !in CsvEscape(s)
  {
    if NeedsQuotes(s) {
      var inner := ReplaceAll(s, '"', "\"\"");
      var r := "\"" + inner + "\"";
      assert r[1..|r| - 1] == inner;
      DoubledQuotesPaired(s);
    }
  }

  // ----- HTML text -----

  /** `escapeHtml(s)`: the five `replaceAll` calls in their source order, `&` first. */
  function EscapeHtml(s: string): string {
    ReplaceAll(ReplaceAll(ReplaceAll(ReplaceAll(ReplaceAll(
      s, '&', "&amp;"), '<', "&lt;"), '>', "&gt;"), '"', "&quot;"), '\'', "&#039;")
  }

  /** The replacement of one character. */
  function Entity(c: char): string {
    if c == '&' then "&amp;"
    else if c == '<' then "&lt;"
    else if c == '>' then "&gt;"
    else if c == '"' then "&quot;"
    else if c == '\'' then "&#039;"
    else [c]
  }

  /** Escaping character by character. */
  function EntityEach(s: string): (r: string)
    ensures '<' !in r && '>' !in r && '"' !in r && '\'' !in r
  {
    if s == [] then [] else Entity(s[0]) + EntityEach(s[1..])
  }

  /** Because `&` is replaced first, the chain of replacements escapes each character once. */
  lemma {:induction false} EscapeHtmlEach(s: string)
    ensures EscapeHtml(s) == EntityEach(s)
  {
    if s != [] {
      EscapeHtmlEach(s[1..]);
      assert s == [s[0]] + s[1..];
      EscapeHtmlAppend([s[0]], s[1..]);
      SingleEntity(s[0]);
    }
  }

  /** The chain of replacements works piecewise on a concatenation. */
  lemma EscapeHtmlAppend(a: string, b: string)
    ensures EscapeHtml(a + b) == EscapeHtml(a) + EscapeHtml(b)
  {
    ReplaceAllAppend(a, b, '&', "&amp;");
    var s1, t1 := ReplaceAll(a, '&', "&amp;"), ReplaceAll(b, '&', "&amp;");
    ReplaceAllAppend(s1, t1, '<', "&lt;");
    var s2, t2 := ReplaceAll(s1, '<', "&lt;"), ReplaceAll(t1, '<', "&lt;");
    ReplaceAllAppend(s2, t2, '>', "&gt;");
    var s3, t3 := ReplaceAll(s2, '>', "&gt;"), ReplaceAll(t2, '>', "&gt;");
    ReplaceAllAppend(s3, t3, '"', "&quot;");
    var s4, t4 := ReplaceAll(s3, '"', "&quot;"), ReplaceAll(t3, '"', "&quot;");
    ReplaceAllAppend(s4, t4, '\'', "&#039;");
  }

  lemma SingleEntity(c: char)
    ensures EscapeHtml([c]) == Entity(c)
  {
    ReplaceOne(c, '&', "&amp;");
    var s1 := ReplaceAll([c], '&', "&amp;");
    if c == '&' {
      assert s1 == "&amp;";
      assert '<' !in s1 && '>' !in s1 && '"' !in s1 && '\'' !in s1;
    } else {
      assert s1 == [c];
      ReplaceOne(c, '<', "&lt;");
      var s2 := ReplaceAll(s1, '<', "&lt;");
      if c == '<' {
        assert s2 == "&lt;";
        assert '>' !in s2 && '"' !in s2 && '\'' !in s2;
      } else {
        assert s2 == [c];
        ReplaceOne(c, '>', "&gt;");
        var s3 := ReplaceAll(s2, '>', "&gt;");
        if c == '>' {
          assert s3 == "&gt;";
          assert '"' !in s3 && '\'' !in s3;
        } else {
          assert s3 == [c];
          ReplaceOne(c, '"', "&quot;");
          ReplaceOne(c, '\'', "&#039;");
          var s4 := ReplaceAll(s3, '"', "&quot;");
          if c == '"' {
            assert s4 == "&quot;";
            assert '\'' !in s4;
          } else {
            assert s4 == [c];
          }
        }
      }
    }
  }

  lemma ReplaceOne(x: char, c: char, rep: string)
    ensures ReplaceAll([x], c, rep) == if x == c then rep else [x]
  {
    assert [x][1..] == [];
  }

  /** Escaped text holds none of `<`, `>`, `"` or `'`. */
  lemma EscapeHtmlSafe(s: string)
    ensures '<' !in EscapeHtml(s) && '>' !in EscapeHtml(s)
    ensures '"' !in EscapeHtml(s) && '\'' !in EscapeHtml(s)
  {
    EscapeHtmlEach(s);
  }

  /** What a browser makes of the five entity references. */
  function UnescapeHtml(r: string): string {
    if r == [] then []
    else if StartsWith(r, "&amp;") then "&" + UnescapeHtml(r[5..])
    else if StartsWith(r, "&lt;") then "<" + UnescapeHtml(r[4..])
    else if StartsWith(r, "&gt;") then ">" + UnescapeHtml(r[4..])
    else if StartsWith(r, "&quot;") then "\"" + UnescapeHtml(r[6..])
    else if StartsWith(r, "&#039;") then "'" + UnescapeHtml(r[6..])
    else [r[0]] + UnescapeHtml(r[1..])
  }

  /** Escaping loses nothing: decoding the entities gives the text back. */
  lemma {:induction false} HtmlRoundTrip(s: string)
    ensures UnescapeHtml(EscapeHtml(s)) == s
  {
    EscapeHtmlEach(s);
    EntityRoundTrip(s);
  }

  lemma {:induction false} EntityRoundTrip(s: string)
    ensures UnescapeHtml(EntityEach(s)) == s
  {
    if s != [] {
      EntityRoundTrip(s[1..]);
      UnescapeEntity(s[0], EntityEach(s[1..]));
      assert s == [s[0]] + s[1..];
    }
  }

  /** Decoding reads one escaped character off the front. */
  lemma UnescapeEntity(c: char, rest: string)
    ensures UnescapeHtml(Entity(c) + rest) == [c] + UnescapeHtml(rest)
  {
    var e := Entity(c);
    var r := e + rest;
    assert r[..|e|] == e;
    assert r[|e|..] == rest;
    if c == '&' {
      assert StartsWith(r, "&amp;");
    } else if c == '<' {
      assert !StartsWith(r, "&amp;") by { assert r[1] == 'l'; }
      assert StartsWith(r, "&lt;");
    } else if c == '>' {
      assert !StartsWith(r, "&amp;") && !StartsWith(r, "&lt;") by { assert r[1] == 'g'; }
      assert StartsWith(r, "&gt;");
    } else if c == '"' {
      assert !StartsWith(r, "&amp;") && !StartsWith(r, "&lt;") && !StartsWith(r, "&gt;") by { assert r[1] == 'q'; }
      assert StartsWith(r, "&quot;");
    } else if c == '\'' {
      assert !StartsWith(r, "&amp;") && !StartsWith(r, "&lt;") && !StartsWith(r, "&gt;")
        && !StartsWith(r, "&quot;") by { assert r[1] == '#'; }
      assert StartsWith(r, "&#039;");
    } else {
      assert e == [c] && r[0] == c;
      assert !StartsWith(r, "&amp;") && !StartsWith(r, "&lt;") && !StartsWith(r, "&gt;")
        && !StartsWith(r, "&quot;") && !StartsWith(r, "&#039;");
    }
  }
}
