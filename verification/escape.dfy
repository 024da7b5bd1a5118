/**
 * The two text-escaping helpers of AmazonBot (bot.py:138-154): `escape_html`,
 * a chain of five `str.replace` calls, and `escape_markdown`, a loop that
 * reassigns the text once per MarkdownV2 special character.
 */
module Escape {
  import opened Text

  /** Python's `s.replace(c, t)` for a one-character pattern: every `c` becomes `t`. */
  function Replace(s: string, c: char, t: string): (r: string)
  {
    if s == [] then [] else (if s[0] == c then t else [s[0]]) + Replace(s[1..], c, t)
  }

  lemma ReplaceCons(s: string, c: char, t: string)
    requires s != []
    ensures Replace(s, c, t) == (if s[0] == c then t else [s[0]]) + Replace(s[1..], c, t)
  {
  }

  lemma Associative(x: string, y: string, z: string)
    ensures x + (y + z) == (x + y) + z
  {
  }

  lemma {:induction false} ReplaceAppend(a: string, b: string, c: char, t: string)
    ensures Replace(a + b, c, t) == Replace(a, c, t) + Replace(b, c, t)
  {
    if a == [] {
      assert a + b == b;
    } else {
      assert (a + b)[0] == a[0] && (a + b)[1..] == a[1..] + b;
      ReplaceCons(a + b, c, t);
      ReplaceCons(a, c, t);
      ReplaceAppend(a[1..], b, c, t);
      Associative(if a[0] == c then t else [a[0]], Replace(a[1..], c, t), Replace(b, c, t));
    }
  }

  lemma {:induction false} ReplaceAbsent(s: string, c: char, t: string)
    requires c !in s
    ensures Replace(s, c, t) == s
  {
    if s != [] {
      ReplaceAbsent(s[1..], c, t);
    }
  }

  // ---------------------------------------------------------------------------
  // escape_html

  /** The entity `escape_html` writes for one character, or the character itself. */
  function HtmlEntity(c: char): string {
    if c == '&' then "&amp;"
    else if c == '<' then "&lt;"
    else if c == '>' then "&gt;"
    else if c == '"' then "&quot;"
    else if c == '\'' then "&#x27;"
    else [c]
  }

  /** Reference definition: every character replaced by its entity, independently. */
  function HtmlEscaped(s: string): string {
    if s == [] then [] else HtmlEntity(s[0]) + HtmlEscaped(s[1..])
  }

  /** The chain of replacements exactly as `escape_html` writes it, `&` first. */
  function ReplaceChain(s: string): string {
    Replace(Replace(Replace(Replace(Replace(s, '&', "&amp;"), '<', "&lt;"), '>', "&gt;"), '"', "&quot;"), '\'', "&#x27;")
  }

  /** `escape_html`: an empty or missing text gives "", anything else goes through the chain. */
  function EscapeHtml(text: Option<string>): (r: string)
    ensures text.None? || text == Some("") ==> r == ""
  {
    match text
    case None => ""
    case Some(s) => if s == "" then "" else ReplaceChain(s)
  }

  lemma ReplaceChainAppend(a: string, b: string)
    ensures ReplaceChain(a + b) == ReplaceChain(a) + ReplaceChain(b)
  {
    var a1, b1 := Replace(a, '&', "&amp;"), Replace(b, '&', "&amp;");
    ReplaceAppend(a, b, '&', "&amp;");
    var a2, b2 := Replace(a1, '<', "&lt;"), Replace(b1, '<', "&lt;");
    ReplaceAppend(a1, b1, '<', "&lt;");
    var a3, b3 := Replace(a2, '>', "&gt;"), Replace(b2, '>', "&gt;");
    ReplaceAppend(a2, b2, '>', "&gt;");
    var a4, b4 := Replace(a3, '"', "&quot;"), Replace(b3, '"', "&quot;");
    ReplaceAppend(a3, b3, '"', "&quot;");
    ReplaceAppend(a4, b4, '\'', "&#x27;");
  }

  lemma ReplaceSingle(c: char, x: char, t: string)
    ensures Replace([c], x, t) == if c == x then t else [c]
  {
    assert [c][1..] == [];
  }

  // The chain seen from the inside out: Level1 is the last replacement, Level4 the
  // last four; ReplaceChain is Level4 after the replacement of `&`.
  function Level1(s: string): string { Replace(s, '\'', "&#x27;") }
  function Level2(s: string): string { Level1(Replace(s, '"', "&quot;")) }
  function Level3(s: string): string { Level2(Replace(s, '>', "&gt;")) }
  function Level4(s: string): string { Level3(Replace(s, '<', "&lt;")) }

  lemma Level1Char(c: char)
    ensures Level1([c]) == if c == '\'' then "&#x27;" else [c]
  {
    ReplaceSingle(c, '\'', "&#x27;");
  }

  lemma Level2Char(c: char)
    ensures Level2([c]) == if c == '"' then "&quot;" else Level1([c])
  {
    ReplaceSingle(c, '"', "&quot;");
    if c == '"' { ReplaceAbsent("&quot;", '\'', "&#x27;"); }
  }

  lemma Level3Char(c: char)
    ensures Level3([c]) == if c == '>' then "&gt;" else Level2([c])
  {
    ReplaceSingle(c, '>', "&gt;");
    if c == '>' {
      ReplaceAbsent("&gt;", '"', "&quot;");
      ReplaceAbsent("&gt;", '\'', "&#x27;");
    }
  }

  /** A text without `>`, `"` or `'` passes the last three replacements unchanged. */
  lemma Level3Absent(s: string)
    requires '>' !in s && '"' !in s && '\'' !in s
    ensures Level3(s) == s
  {
    ReplaceAbsent(s, '>', "&gt;");
    ReplaceAbsent(s, '"', "&quot;");
    ReplaceAbsent(s, '\'', "&#x27;");
  }

  lemma Level3OfLt(lt: string)
    requires lt == "&lt;"
    ensures Level3(lt) == lt
  {
    Level3Absent(lt);
  }

  lemma Level4Char(c: char)
    ensures Level4([c]) == if c == '<' then "&lt;" else Level3([c])
  {
    ReplaceSingle(c, '<', "&lt;");
    if c == '<' {
      Level3OfLt("&lt;");
    }
  }

  lemma Level4OfAmp()
    ensures Level4("&amp;") == "&amp;"
  {
    var amp := "&amp;";
    assert '<' !in amp && '>' !in amp && '"' !in amp && '\'' !in amp;
    ReplaceAbsent(amp, '<', "&lt;");
    ReplaceAbsent(amp, '>', "&gt;");
    ReplaceAbsent(amp, '"', "&quot;");
    ReplaceAbsent(amp, '\'', "&#x27;");
  }

  /** Replacing `&` first means the later replacements never touch an entity already written. */
  lemma ReplaceChainChar(c: char)
    ensures ReplaceChain([c]) == HtmlEntity(c)
  {
    assert ReplaceChain([c]) == Level4(Replace([c], '&', "&amp;"));
    ReplaceSingle(c, '&', "&amp;");
    if c == '&' {
      Level4OfAmp();
    } else {
      Level4Char(c);
      Level3Char(c);
      Level2Char(c);
      Level1Char(c);
    }
  }

  /** The replacement chain is the per-character entity map. */
  lemma {:induction false} ReplaceChainIsEntityMap(s: string)
    ensures ReplaceChain(s) == HtmlEscaped(s)
  {
    if s == [] {
      assert ReplaceChain(s) == [];
    } else {
      assert s == [s[0]] + s[1..];
      ReplaceChainAppend([s[0]], s[1..]);
      ReplaceChainChar(s[0]);
      ReplaceChainIsEntityMap(s[1..]);
    }
  }

  /** `escape_html` on a present text is the per-character entity map. */
  lemma {:induction false} EscapeHtmlIsEntityMap(s: string)
    ensures EscapeHtml(Some(s)) == HtmlEscaped(s)
  {
    ReplaceChainIsEntityMap(s);
  }

  /** Prefix a character to a decoded result, keeping a failure a failure. */
  function Cons(c: char, r: Option<string>): Option<string> {
    match r
    case None => None
    case Some(t) => Some([c] + t)
  }

  /** The character whose entity `r` begins with, if it begins with one of the five. */
  function EntityPrefix(r: string): (e: Option<char>)
    ensures e.Some? ==> e.value in "&<>\"'" && StartsWith(r, HtmlEntity(e.value))
  {
    if StartsWith(r, "&amp;") then Some('&')
    else if StartsWith(r, "&lt;") then Some('<')
    else if StartsWith(r, "&gt;") then Some('>')
    else if StartsWith(r, "&quot;") then Some('"')
    else if StartsWith(r, "&#x27;") then Some('\'')
    else None
  }

  /**
   * Decoder for the five entities: gives back the original text, and fails on a raw
   * `<`, `>`, `"`, `'` and on an `&` that does not begin one of the five entities.
   */
  function UnescapeHtml(r: string): Option<string>
    decreases |r|
  {
    if r == [] then Some([])
    else match EntityPrefix(r)
      case Some(c) => Cons(c, UnescapeHtml(r[|HtmlEntity(c)|..]))
      case None => if r[0] in "&<>\"'" then None else Cons(r[0], UnescapeHtml(r[1..]))
  }

  lemma EntityPrefixOfEntity(c: char, rest: string)
    requires c in "&<>\"'"
    ensures EntityPrefix(HtmlEntity(c) + rest) == Some(c)
  {
    var r := HtmlEntity(c) + rest;
    assert r[..|HtmlEntity(c)|] == HtmlEntity(c);
    assert r[0] == '&';
    if c == '<' {
      assert r[1] == 'l';
    } else if c == '>' {
      assert r[1] == 'g';
    } else if c == '"' {
      assert r[1] == 'q';
    } else if c == '\'' {
      assert r[1] == '#';
    }
  }

  lemma EntityPrefixOfPlain(c: char, rest: string)
    requires c !in "&<>\"'"
    ensures EntityPrefix([c] + rest) == None
  {
    assert ([c] + rest)[0] == c;
  }

  lemma UnescapeEntity(c: char, rest: string)
    ensures UnescapeHtml(HtmlEntity(c) + rest) == Cons(c, UnescapeHtml(rest))
  {
    var r := HtmlEntity(c) + rest;
    assert r[|HtmlEntity(c)|..] == rest;
    if c in "&<>\"'" {
      EntityPrefixOfEntity(c, rest);
    } else {
      EntityPrefixOfPlain(c, rest);
      assert r[0] == c;
    }
  }

  /**
   * The escaped text is well formed (only the five entities, no raw markup
   * characters) and decodes back to the input: escaping loses nothing.
   */
  lemma {:induction false} EscapeHtmlRoundTrip(s: string)
    ensures UnescapeHtml(EscapeHtml(Some(s))) == Some(s)
  {
    EscapeHtmlIsEntityMap(s);
    HtmlEscapedRoundTrip(s);
  }

  lemma {:induction false} HtmlEscapedRoundTrip(s: string)
    ensures UnescapeHtml(HtmlEscaped(s)) == Some(s)
  {
    if s != [] {
      UnescapeEntity(s[0], HtmlEscaped(s[1..]));
      HtmlEscapedRoundTrip(s[1..]);
      assert [s[0]] + s[1..] == s;
    }
  }

  /** No character of the escaped text is one HTML treats as markup, except the entities' `&`. */
  lemma {:induction false} EscapeHtmlHasNoMarkup(s: string)
    ensures forall c :: c in EscapeHtml(Some(s)) ==> c !in "<>\"'"
  {
    EscapeHtmlIsEntityMap(s);
    HtmlEscapedHasNoMarkup(s);
  }

  lemma {:induction false} HtmlEscapedHasNoMarkup(s: string)
    ensures forall c :: c in HtmlEscaped(s) ==> c !in "<>\"'"
  {
    if s != [] {
      HtmlEscapedHasNoMarkup(s[1..]);
      var e := HtmlEntity(s[0]);
      assert forall c :: c in e ==> c !in "<>\"'";
      assert HtmlEscaped(s) == e + HtmlEscaped(s[1..]);
    }
  }

  // ---------------------------------------------------------------------------
  // escape_markdown

  /** The eighteen characters MarkdownV2 requires to be escaped, in the order the loop visits them. */
  const Specials: seq<char> := ['_', '*', '[', ']', '(', ')', '~', '`', '>', '#', '+', '-', '=', '|', '{', '}', '.', '!']

  lemma SpecialsFacts()
    ensures |Specials| == 18
    ensures '\\' !in Specials
    ensures forall i, j :: 0 <= i < j < |Specials| ==> Specials[i] != Specials[j]
  {
  }

  /** Reference definition: one backslash before each special character, everything else kept. */
  function MarkdownEscaped(s: string): string {
    if s == [] then []
    else (if s[0] in Specials then ['\\', s[0]] else [s[0]]) + MarkdownEscaped(s[1..])
  }

  /** The text after the loop has handled the first `k` special characters. */
  function EscapedUpTo(s: string, k: nat): string
    requires k <= |Specials|
  {
    if s == [] then []
    else (if s[0] in Specials[..k] then ['\\', s[0]] else [s[0]]) + EscapedUpTo(s[1..], k)
  }

  /** One pass of the loop, replacing the `k`-th special character, escapes exactly that character more. */
  lemma {:induction false} ReplaceStep(s: string, k: nat)
    requires k < |Specials|
    ensures Replace(EscapedUpTo(s, k), Specials[k], ['\\', Specials[k]]) == EscapedUpTo(s, k + 1)
  {
    if s != [] {
      var c, sp := s[0], Specials[k];
      var head := if c in Specials[..k] then ['\\', c] else [c];
      ReplaceAppend(head, EscapedUpTo(s[1..], k), sp, ['\\', sp]);
      ReplaceStep(s[1..], k);
      SpecialsFacts();
      assert Specials[..k + 1] == Specials[..k] + [sp];
      if c in Specials[..k] {
        var i :| 0 <= i < k && Specials[i] == c;
        assert c != sp;
        assert Replace(head, sp, ['\\', sp]) == head;
      }
    }
  }

  lemma {:induction false} EscapedUpToAll(s: string)
    ensures EscapedUpTo(s, |Specials|) == MarkdownEscaped(s)
  {
    assert Specials[..|Specials|] == Specials;
    if s != [] {
      EscapedUpToAll(s[1..]);
    }
  }

  /** `escape_markdown`: reassigns the text once per special character, in list order. */
  method EscapeMarkdown(text: string) returns (escaped: string)
    ensures escaped == MarkdownEscaped(text)
  {
    escaped := text;
    assert escaped == EscapedUpTo(text, 0) by { NothingEscapedYet(text); }
    for k := 0 to |Specials|
      invariant escaped == EscapedUpTo(text, k)
    {
      ReplaceStep(text, k);
      escaped := Replace(escaped, Specials[k], ['\\', Specials[k]]);
    }
    EscapedUpToAll(text);
  }

  lemma {:induction false} NothingEscapedYet(s: string)
    ensures EscapedUpTo(s, 0) == s
  {
    if s != [] {
      NothingEscapedYet(s[1..]);
      assert [s[0]] + s[1..] == s;
    }
  }

  /** Decoder: a backslash followed by a special character stands for that character. */
  function UnescapeMarkdown(r: string): string
    decreases |r|
  {
    if |r| >= 2 && r[0] == '\\' && r[1] in Specials then [r[1]] + UnescapeMarkdown(r[2..])
    else if r == [] then []
    else [r[0]] + UnescapeMarkdown(r[1..])
  }

  /** An escaped text never begins with a bare special character. */
  lemma MarkdownEscapedHead(s: string)
    requires s != []
    ensures MarkdownEscaped(s) != [] && MarkdownEscaped(s)[0] !in Specials
  {
    SpecialsFacts();
  }

  /**
   * Escaping loses nothing: the decoder gives back the input, even when the input
   * already holds backslashes (a backslash is not special, so it is never paired).
   */
  lemma {:induction false} EscapeMarkdownRoundTrip(s: string)
    ensures UnescapeMarkdown(MarkdownEscaped(s)) == s
  {
    if s != [] {
      var c, rest := s[0], MarkdownEscaped(s[1..]);
      EscapeMarkdownRoundTrip(s[1..]);
      SpecialsFacts();
      if c in Specials {
        var r := ['\\', c] + rest;
        assert r[2..] == rest;
      } else {
        var r := [c] + rest;
        assert r[1..] == rest;
        if c == '\\' && |r| >= 2 {
          MarkdownEscapedHead(s[1..]);
          assert r[1] == rest[0];
        }
      }
      assert [c] + s[1..] == s;
    }
  }
}
