/** What a reader of rendered inline markup sees: the HTML with its tags dropped and its character
    references decoded is the text of the source without the marks, in order, and nothing else. */
module Reading {
  import opened Common
  import opened Html
  import opened Inline
  import opened Text

  /** Tags dropped, character references decoded. */
  function Visible(html: string): string
    decreases |html|
  {
    if |html| == 0 then ""
    else if html[0] == '<' then
      FindBound(html, '>');
      var end := Find(html, '>');
      if end == |html| then "" else Visible(html[end + 1..])
    else
      var (c, n) := ReadChar(html);
      [c] + Visible(html[n..])
  }

  /** A fragment that reads as `text` wherever it stands. */
  ghost predicate Shows(html: string, text: string) {
    forall rest :: Visible(html + rest) == text + Visible(rest)
  }

  lemma ShowsNothing()
    ensures Shows("", "")
  {
    forall rest: string ensures Visible("" + rest) == "" + Visible(rest) {
      assert "" + rest == rest && "" + Visible(rest) == Visible(rest);
    }
  }

  lemma ShowsBoth(a: string, x: string, b: string, y: string)
    requires Shows(a, x) && Shows(b, y)
    ensures Shows(a + b, x + y)
  {
    forall rest: string ensures Visible((a + b) + rest) == (x + y) + Visible(rest) {
      Associate(a, b, rest);
      assert Visible(a + (b + rest)) == x + Visible(b + rest);
      Associate(x, y, Visible(rest));
    }
  }

  lemma ShowsChar(c: char)
    ensures Shows(EscapeChar(c, false), [c])
  {
    forall rest: string ensures Visible(EscapeChar(c, false) + rest) == [c] + Visible(rest) {
      var html := EscapeChar(c, false) + rest;
      ReadCharInverts(c, false, rest);
      assert html[0] != '<' && html[|EscapeChar(c, false)|..] == rest;
    }
  }

  lemma {:induction false} ShowsEscaped(s: string)
    ensures Shows(Escape(s, false), s)
  {
    if |s| == 0 {
      ShowsNothing();
    } else {
      ShowsChar(s[0]);
      ShowsEscaped(s[1..]);
      ShowsBoth(EscapeChar(s[0], false), [s[0]], Escape(s[1..], false), s[1..]);
      assert [s[0]] + s[1..] == s;
    }
  }

  lemma ShowsTag(tag: string)
    requires '>' !in tag
    ensures Shows("<" + tag + ">", "")
  {
    forall rest: string ensures Visible("<" + tag + ">" + rest) == "" + Visible(rest) {
      TagParts(tag, rest);
      assert "" + Visible(rest) == Visible(rest);
    }
  }

  lemma ShowsElement(name: string, attributes: string, html: string, text: string)
    requires ElementName(name) && Attributes(attributes) && Shows(html, text)
    ensures Shows(Element(name, attributes, html), text)
  {
    ShowsTag(name + attributes);
    assert StartTag(name, attributes) == "<" + (name + attributes) + ">";
    ShowsTag("/" + name);
    assert EndTag(name) == "<" + ("/" + name) + ">";
    ShowsBoth(StartTag(name, attributes), "", html, text);
    ShowsBoth(StartTag(name, attributes) + html, "" + text, EndTag(name), "");
    assert "" + text + "" == text;
  }

  // ---- the text behind the markup ----

  function TextFrom(env: Env, s: string, i: nat): string
    requires i <= |s|
    decreases |s|, |s| - i
  {
    if i == |s| then ""
    else
      match MatchAt(env, s, i)
      case None => [s[i]] + TextFrom(env, s, i + 1)
      case Some(m) =>
        MatchSpans(env, s, i);
        TextOf(env, m) + TextFrom(env, s, m.end)
  }

  function TextOf(env: Env, m: Match): string
    decreases |Source(m)|, 0
  {
    match m
    case Code(_, code, _) => Strip(code)
    case Link(text, _, _) => TextFrom(env, text, 0)
    case Autolink(url, _) => url
    case Strong(body, _) => TextFrom(env, body, 0)
    case Emphasis(_, body, _) => TextFrom(env, body, 0)
  }

  lemma {:induction false} MatchShows(env: Env, m: Match)
    requires m.Autolink? ==> SafeTarget(m.url)
    ensures Shows(RenderMatch(env, m), TextOf(env, m))
    decreases |Source(m)|, 0
  {
    InlineNames();
    match m
    case Code(_, code, _) =>
      ShowsEscaped(Strip(code));
      ShowsElement("code", "", Escape(Strip(code), false), Strip(code));
    case Link(text, href, _) =>
      InlineShows(env, text, 0);
      HrefReads(SafeHref(env.resolve(href)));
      ShowsElement("a", Attribute("href", Escape(SafeHref(env.resolve(href)), true)),
                   InlineFrom(env, text, 0), TextFrom(env, text, 0));
    case Autolink(url, _) =>
      ShowsEscaped(url);
      HrefReads(url);
      ShowsElement("a", Attribute("href", Escape(url, true)), Escape(url, false), url);
    case Strong(body, _) =>
      InlineShows(env, body, 0);
      ShowsElement("strong", "", InlineFrom(env, body, 0), TextFrom(env, body, 0));
    case Emphasis(_, body, _) =>
      InlineShows(env, body, 0);
      ShowsElement("em", "", InlineFrom(env, body, 0), TextFrom(env, body, 0));
  }

  lemma {:induction false} InlineShows(env: Env, s: string, i: nat)
    requires i <= |s|
    ensures Shows(InlineFrom(env, s, i), TextFrom(env, s, i))
    decreases |s|, |s| - i, 1
  {
    if i == |s| {
      ShowsNothing();
    } else {
      match MatchAt(env, s, i)
      case None =>
        ShowsChar(s[i]);
        InlineShows(env, s, i + 1);
        ShowsBoth(EscapeChar(s[i], false), [s[i]], InlineFrom(env, s, i + 1), TextFrom(env, s, i + 1));
      case Some(m) =>
        MatchSpans(env, s, i);
        if m.Autolink? { MatchedUrlIsSafe(env, s, i); }
        MatchShows(env, m);
        InlineShows(env, s, m.end);
        ShowsBoth(RenderMatch(env, m), TextOf(env, m), InlineFrom(env, s, m.end), TextFrom(env, s, m.end));
    }
  }

  // ---- nothing is added ----

  /** `a` is `b` with some characters left out. */
  predicate Within(a: string, b: string)
    decreases |b|
  {
    || |a| == 0
    || (|b| > 0 && ((a[0] == b[0] && Within(a[1..], b[1..])) || Within(a, b[1..])))
  }

  lemma {:induction false} WithinBoth(a: string, b: string, c: string, d: string)
    requires Within(a, b) && Within(c, d)
    ensures Within(a + c, b + d)
    decreases |b|
  {
    if |b| == 0 {
      assert a + c == c && b + d == d;
    } else {
      assert (b + d)[0] == b[0] && (b + d)[1..] == b[1..] + d;
      if |a| == 0 {
        assert a + c == c;
        WithinBoth(a, b[1..], c, d);
      } else if a[0] == b[0] && Within(a[1..], b[1..]) {
        assert (a + c)[1..] == a[1..] + c;
        WithinBoth(a[1..], b[1..], c, d);
      } else {
        WithinBoth(a, b[1..], c, d);
      }
    }
  }

  lemma {:induction false} WithinItself(s: string)
    ensures Within(s, s)
  {
    if |s| > 0 {
      WithinItself(s[1..]);
    }
  }

  /** What stands between marks is within the whole. */
  lemma WithinMarks(a: string, before: string, b: string, after: string)
    requires Within(a, b)
    ensures Within(a, before + b + after)
  {
    WithinBoth("", before, a, b);
    assert "" + a == a;
    WithinBoth(a, before + b, "", after);
    assert a + "" == a;
  }

  lemma StripIsWithin(s: string)
    ensures Within(Strip(s), s)
  {
    var n := SkipSpace(s, 0);
    var r := Strip(s);
    assert s == s[..n] + r + s[n + |r|..];
    WithinItself(r);
    WithinMarks(r, s[..n], r, s[n + |r|..]);
  }

  lemma Whole(s: string)
    ensures s[0..] == s
  {
  }

  lemma LinkSource(text: string, href: string)
    ensures "[" + text + ("](" + href + ")") == "[" + text + "](" + href + ")"
  {
    Associate("[" + text, "](" + href, ")");
    Associate("[" + text, "](", href);
  }

  /** A stretch and the rest, each with its own text. */
  lemma WithinParts(a: string, b: string, s: string, i: nat, j: nat)
    requires i <= j <= |s| && Within(a, s[i..j]) && Within(b, s[j..])
    ensures Within(a + b, s[i..])
  {
    WithinBoth(a, s[i..j], b, s[j..]);
    assert s[i..] == s[i..j] + s[j..];
  }

  lemma {:induction false} MatchTextIsWithin(env: Env, m: Match)
    ensures Within(TextOf(env, m), Source(m))
    decreases |Source(m)|, 0
  {
    match m
    case Code(ticks, code, _) =>
      StripIsWithin(code);
      WithinMarks(Strip(code), Ticks(ticks), code, Ticks(ticks));
    case Link(text, href, _) =>
      TextIsWithin(env, text, 0);
      Whole(text);
      WithinMarks(TextFrom(env, text, 0), "[", text, "](" + href + ")");
      LinkSource(text, href);
    case Autolink(url, _) =>
      WithinItself(url);
      WithinMarks(url, "<", url, ">");
    case Strong(body, _) =>
      TextIsWithin(env, body, 0);
      Whole(body);
      WithinMarks(TextFrom(env, body, 0), "**", body, "**");
    case Emphasis(mark, body, _) =>
      TextIsWithin(env, body, 0);
      Whole(body);
      WithinMarks(TextFrom(env, body, 0), [mark], body, [mark]);
  }

  lemma {:induction false} TextIsWithin(env: Env, s: string, i: nat)
    requires i <= |s|
    ensures Within(TextFrom(env, s, i), s[i..])
    decreases |s|, |s| - i, 1
  {
    if i < |s| {
      match MatchAt(env, s, i)
      case None =>
        TextIsWithin(env, s, i + 1);
        assert s[i..i + 1] == [s[i]];
        WithinItself([s[i]]);
        WithinParts([s[i]], TextFrom(env, s, i + 1), s, i, i + 1);
      case Some(m) =>
        MatchSpans(env, s, i);
        MatchTextIsWithin(env, m);
        TextIsWithin(env, s, m.end);
        WithinParts(TextOf(env, m), TextFrom(env, s, m.end), s, i, m.end);
    }
  }

  /** The meaning of the text survives rendering: a reader sees the characters of the source that are
      not marks, link targets or padding of code, in their order, and no others. */
  lemma ReaderSeesTheText(env: Env, s: string)
    ensures Visible(Rendered(env, s)) == TextFrom(env, s, 0)
    ensures Within(Visible(Rendered(env, s)), s)
  {
    InlineShows(env, s, 0);
    assert Rendered(env, s) + "" == Rendered(env, s);
    assert Visible(Rendered(env, s) + "") == TextFrom(env, s, 0) + Visible("");
    assert TextFrom(env, s, 0) + "" == TextFrom(env, s, 0);
    TextIsWithin(env, s, 0);
    Whole(s);
  }
}
