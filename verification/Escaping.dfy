// Escaping of notification text: chains of single-character replacements.
module Escaping {

  /** `text.replace(c, sub)` for a single character c. */
  function Replace(text: string, c: char, sub: string): string {
    if text == [] then [] else (if text[0] == c then sub else [text[0]]) + Replace(text[1..], c, sub)
  }

  lemma {:induction false} ReplaceAppend(a: string, b: string, c: char, sub: string)
    ensures Replace(a + b, c, sub) == Replace(a, c, sub) + Replace(b, c, sub)
  {
    if a == [] {
      assert a + b == b;
    } else {
      assert (a + b)[1..] == a[1..] + b;
      ReplaceAppend(a[1..], b, c, sub);
    }
  }

  lemma {:induction false} ReplaceAbsent(t: string, c: char, sub: string)
    requires c !in t
    ensures Replace(t, c, sub) == t
  {
    if t == [] {
    } else {
      ReplaceAbsent(t[1..], c, sub);
    }
  }

  lemma ReplaceOne(x: char, c: char, sub: string)
    ensures Replace([x], c, sub) == if x == c then sub else [x]
  {
    assert [x][1..] == [];
    assert Replace([], c, sub) == [];
  }

  // ------------------------------------------------------------------------------ Slack

  function EscapeSlack(text: string): string {
    Replace(Replace(Replace(text, '&', "&amp;"), '<', "&lt;"), '>', "&gt;")
  }

  function SlackChar(c: char): string {
    if c == '&' then "&amp;" else if c == '<' then "&lt;" else if c == '>' then "&gt;" else [c]
  }

  /** One left-to-right pass with a map of characters. */
  function SlackMap(text: string): string {
    if text == [] then [] else SlackChar(text[0]) + SlackMap(text[1..])
  }

  lemma SlackOne(x: char)
    ensures EscapeSlack([x]) == SlackChar(x)
  {
    ReplaceOne(x, '&', "&amp;");
    ReplaceOne(x, '<', "&lt;");
    ReplaceOne(x, '>', "&gt;");
    ReplaceAbsent("&amp;", '<', "&lt;");
    ReplaceAbsent("&amp;", '>', "&gt;");
    ReplaceAbsent("&lt;", '>', "&gt;");
  }

  lemma SlackAppend(a: string, b: string)
    ensures EscapeSlack(a + b) == EscapeSlack(a) + EscapeSlack(b)
  {
    ReplaceAppend(a, b, '&', "&amp;");
    var a1, b1 := Replace(a, '&', "&amp;"), Replace(b, '&', "&amp;");
    ReplaceAppend(a1, b1, '<', "&lt;");
    ReplaceAppend(Replace(a1, '<', "&lt;"), Replace(b1, '<', "&lt;"), '>', "&gt;");
  }

  /** The three replacements in sequence are one pass with a character map: no later
      replacement touches what an earlier one wrote. */
  lemma {:induction false} SlackIsMap(text: string)
    ensures EscapeSlack(text) == SlackMap(text)
  {
    if text == [] {
    } else {
      assert text == [text[0]] + text[1..];
      SlackAppend([text[0]], text[1..]);
      SlackOne(text[0]);
      SlackIsMap(text[1..]);
    }
  }

  predicate StartsWith(t: string, p: string) {
    |p| <= |t| && t[..|p|] == p
  }

  function UnescapeSlack(t: string): string
    decreases |t|
  {
    if t == [] then []
    else if StartsWith(t, "&amp;") then "&" + UnescapeSlack(t[5..])
    else if StartsWith(t, "&lt;") then "<" + UnescapeSlack(t[4..])
    else if StartsWith(t, "&gt;") then ">" + UnescapeSlack(t[4..])
    else [t[0]] + UnescapeSlack(t[1..])
  }

  lemma UnescapeChar(x: char, rest: string)
    ensures UnescapeSlack(SlackChar(x) + rest) == [x] + UnescapeSlack(rest)
  {
    var t := SlackChar(x) + rest;
    if x == '&' {
      assert t[..5] == "&amp;" && t[5..] == rest;
    } else if x == '<' {
      assert t[..4] == "&lt;" && t[4..] == rest;
      assert t[1] == 'l' && "&amp;"[1] == 'a';
    } else if x == '>' {
      assert t[..4] == "&gt;" && t[4..] == rest;
      assert t[1] == 'g' && "&amp;"[1] == 'a' && "&lt;"[1] == 'l';
    } else {
      assert t[0] == x && t[1..] == rest;
      assert "&amp;"[0] == "&lt;"[0] == "&gt;"[0] == '&';
    }
  }

  lemma {:induction false} SlackMapRoundTrip(text: string)
    ensures UnescapeSlack(SlackMap(text)) == text
  {
    if text == [] {
    } else {
      SlackMapRoundTrip(text[1..]);
      UnescapeChar(text[0], SlackMap(text[1..]));
    }
  }

  /** Unescaping undoes escaping on every string. */
  lemma SlackRoundTrip(text: string)
    ensures UnescapeSlack(EscapeSlack(text)) == text
  {
    SlackIsMap(text);
    SlackMapRoundTrip(text);
  }

  predicate Plain(text: string) {
    '&' !in text && '<' !in text && '>' !in text
  }

  lemma {:induction false} EscapedLength(text: string)
    ensures |SlackMap(text)| >= |text|
    ensures |SlackMap(text)| == |text| ==> Plain(text)
    ensures Plain(text) ==> SlackMap(text) == text
  {
    if text == [] {
    } else {
      EscapedLength(text[1..]);
      assert text == [text[0]] + text[1..];
    }
  }

  /** A Slack message escapes its summary and then the whole text again: the reader
      gets the summary back exactly when it has nothing to escape. */
  lemma EscapedTwiceIff(summary: string)
    ensures UnescapeSlack(EscapeSlack(EscapeSlack(summary))) == summary <==> Plain(summary)
  {
    SlackRoundTrip(EscapeSlack(summary));
    SlackIsMap(summary);
    EscapedLength(summary);
  }

  /** The entities of the three characters, and nothing for any other one. */
  lemma SlackEntities(c: char)
    ensures EscapeSlack("&") == "&amp;" && EscapeSlack("<") == "&lt;" && EscapeSlack(">") == "&gt;"
    ensures c !in {'&', '<', '>'} ==> EscapeSlack([c]) == [c]
  {
    SlackOne('&');
    SlackOne('<');
    SlackOne('>');
    SlackOne(c);
  }

  /** A summary "<" is shown as "&lt;". */
  lemma EscapedTwiceExample()
    ensures UnescapeSlack(EscapeSlack(EscapeSlack("<"))) == "&lt;" != "<"
  {
    SlackOne('<');
    SlackRoundTrip(EscapeSlack("<"));
  }

  // --------------------------------------------------------------------------- Telegram

  const SPECIALS: string := "_[]()~`>#+-=|{}.!"

  /** Every character of `cs` gets a backslash in front; the backslash itself does not. */
  function Backslashed(text: string, cs: string): string {
    if text == [] then []
    else (if text[0] in cs then ['\\', text[0]] else [text[0]]) + Backslashed(text[1..], cs)
  }

  lemma {:induction false} ReplaceBackslashed(text: string, cs: string, c: char)
    requires c !in cs && c != '\\'
    ensures Replace(Backslashed(text, cs), c, ['\\', c]) == Backslashed(text, cs + [c])
  {
    if text == [] {
    } else {
      var x := text[0];
      var head := if x in cs then ['\\', x] else [x];
      ReplaceAppend(head, Backslashed(text[1..], cs), c, ['\\', c]);
      ReplaceBackslashed(text[1..], cs, c);
      if x in cs {
        ReplaceAbsent(head, c, ['\\', c]);
      } else {
        ReplaceOne(x, c, ['\\', c]);
      }
    }
  }

  lemma {:induction false} NothingBackslashed(text: string)
    ensures Backslashed(text, []) == text
  {
    if text == [] {
    } else {
      NothingBackslashed(text[1..]);
    }
  }

  /** The loop of replacements, one special character at a time. */
  method EscapeTelegramMd(text: string) returns (r: string)
    ensures r == Backslashed(text, SPECIALS)
  {
    r := text;
    NothingBackslashed(text);
    for i := 0 to |SPECIALS|
      invariant r == Backslashed(text, SPECIALS[..i])
    {
      var c := SPECIALS[i];
      assert SPECIALS[..i + 1] == SPECIALS[..i] + [c];
      ReplaceBackslashed(text, SPECIALS[..i], c);
      r := Replace(r, c, ['\\', c]);
    }
    assert SPECIALS[..|SPECIALS|] == SPECIALS;
  }

  /** Reads an escaped text back from the right: a special character stands for
      itself and takes the backslash before it along; anything else is itself. */
  function UnescapeTelegram(t: string): string
    decreases |t|
  {
    var n := |t|;
    if n == 0 then []
    else if t[n - 1] in SPECIALS && n >= 2 && t[n - 2] == '\\' then UnescapeTelegram(t[..n - 2]) + [t[n - 1]]
    else UnescapeTelegram(t[..n - 1]) + [t[n - 1]]
  }

  lemma {:induction false} BackslashedAppend(a: string, x: char, cs: string)
    ensures Backslashed(a + [x], cs) == Backslashed(a, cs) + if x in cs then ['\\', x] else [x]
  {
    if a == [] {
      assert [x][1..] == [];
      assert Backslashed([], cs) == [];
      assert a + [x] == [x];
    } else {
      assert (a + [x])[1..] == a[1..] + [x];
      BackslashedAppend(a[1..], x, cs);
    }
  }

  /** The characters that Telegram text gets a backslash before: these seventeen, and
      neither the backslash nor the asterisk. */
  lemma TelegramCharacters(c: char)
    ensures c in {'_', '[', ']', '(', ')', '~', '`', '>', '#', '+', '-', '=', '|', '{', '}', '.', '!'}
       <==> Backslashed([c], SPECIALS) == ['\\', c]
    ensures c !in SPECIALS ==> Backslashed([c], SPECIALS) == [c]
  {
    assert [c][1..] == [];
    assert Backslashed([], SPECIALS) == [];
    assert |Backslashed([c], SPECIALS)| == if c in SPECIALS then 2 else 1;
  }

  /** Although the backslash is not escaped, nothing is ambiguous. */
  lemma {:induction false} TelegramRoundTrip(text: string)
    ensures UnescapeTelegram(Backslashed(text, SPECIALS)) == text
    decreases |text|
  {
    if text == [] {
    } else {
      var front, x := text[..|text| - 1], text[|text| - 1];
      assert text == front + [x];
      TelegramRoundTrip(front);
      BackslashedAppend(front, x, SPECIALS);
      var t, e := Backslashed(text, SPECIALS), Backslashed(front, SPECIALS);
      if x in SPECIALS {
        assert t[|t| - 2] == '\\' && t[..|t| - 2] == e;
      } else {
        assert t[..|t| - 1] == e;
      }
    }
  }

  lemma TelegramInjective(a: string, b: string)
    requires Backslashed(a, SPECIALS) == Backslashed(b, SPECIALS)
    ensures a == b
  {
    TelegramRoundTrip(a);
    TelegramRoundTrip(b);
  }
}
