/** What `render_inline` (gateway/shared/markdown.py) makes of the markup a writer of the manual uses: each element
    between two stretches of text without marks, with the HTML it becomes written out. */
module InlineMarkup {
  import opened Common
  import opened Html
  import opened Inline
  import opened InlinePattern
  import opened Text

  /** No character that markup starts with. */
  predicate Unmarked(s: string) { forall k | 0 <= k < |s| :: s[k] !in {'`', '[', '<', '*', '_'} }

  lemma NoMarkNoMatch(env: Env, s: string, i: nat)
    requires i <= |s| && (i < |s| ==> s[i] !in {'`', '[', '<', '*', '_'})
    ensures MatchAt(env, s, i) == None
  {
    hide CodeAt, LinkAt, AutolinkAt, StrongAt, EmphasisAt, TickRun;
    FirstCharacter(env, s, i);
  }

  /** Text without marks comes out escaped. */
  lemma UnmarkedRendered(env: Env, s: string)
    requires Unmarked(s)
    ensures Rendered(env, s) == Escape(s, false)
  {
    forall k | 0 <= k <= |s| ensures MatchAt(env, s, k).None? {
      NoMarkNoMatch(env, s, k);
    }
    PlainText(env, s);
  }

  /** Where the three pieces of a text stand. */
  lemma Standing(pre: string, source: string, post: string)
    ensures var s, end := pre + source + post, |pre| + |source|;
            && s[..|pre|] == pre && s[|pre|..end] == source && s[end..] == post
            && (forall k | 0 <= k < |pre| :: s[k] == pre[k])
            && (forall k | |pre| <= k < end :: s[k] == source[k - |pre|])
            && (forall k | end <= k < |s| :: s[k] == post[k - end])
  {
  }

  lemma Between(env: Env, pre: string, m: Match, post: string)
    requires Unmarked(pre) && Unmarked(post) && m.end == |pre| + |Source(m)|
    requires Fits(env, pre + Source(m) + post, |pre|, m)
    ensures Rendered(env, pre + Source(m) + post) == Escape(pre, false) + RenderMatch(env, m) + Escape(post, false)
  {
    hide Fits, MatchAt, RenderMatch, Escape;
    var s := pre + Source(m) + post;
    Standing(pre, Source(m), post);
    MatchIff(env, s, |pre|, m);
    forall k | 0 <= k < |pre| || m.end <= k <= |s| ensures MatchAt(env, s, k).None? {
      NoMarkNoMatch(env, s, k);
    }
    RunIsEscaped(env, s, 0, |pre|);
    LastRun(env, s, m.end);
    assert s[0..|pre|] == pre;
    Associate(Escape(pre, false), RenderMatch(env, m), Escape(post, false));
    assert InlineFrom(env, s, |pre|) == RenderMatch(env, m) + InlineFrom(env, s, m.end);
  }

  // ---- the elements ----

  lemma LinkHtml(href: string, shown: string)
    ensures Element("a", Attribute("href", href), shown) == "<a href=\"" + href + "\">" + shown + "</a>"
  {
    assert "<a" + (" href=\"" + href + "\"") + ">" == "<a href=\"" + href + "\">";
  }

  lemma PlainHtml(shown: string)
    ensures Element("code", "", shown) == "<code>" + shown + "</code>"
    ensures Element("strong", "", shown) == "<strong>" + shown + "</strong>"
    ensures Element("em", "", shown) == "<em>" + shown + "</em>"
  {
    assert StartTag("code", "") == "<code>" && EndTag("code") == "</code>";
    assert StartTag("strong", "") == "<strong>" && EndTag("strong") == "</strong>";
    assert StartTag("em", "") == "<em>" && EndTag("em") == "</em>";
  }

  /** [text](href): the target goes through the resolver and the link filter, the text is rendered in turn. */
  lemma LinkRendered(env: Env, pre: string, text: string, href: string, post: string)
    requires Unmarked(pre) && Unmarked(post) && ']' !in text && Solid(href, ')')
    ensures Rendered(env, pre + ("[" + text + "](" + href + ")") + post)
            == Escape(pre, false)
               + ("<a href=\"" + Escape(SafeHref(env.resolve(href)), true) + "\">" + Rendered(env, text) + "</a>")
               + Escape(post, false)
  {
    hide Unmarked, Solid, Escape, SafeHref, InlineFrom;
    var m := Link(text, href, |pre| + |Source(Link(text, href, 0))|);
    Standing(pre, Source(m), post);
    Between(env, pre, m, post);
    LinkHtml(Escape(SafeHref(env.resolve(href)), true), InlineFrom(env, text, 0));
  }

  /** <url>: shown as it is, and followed only when it is http, https or mail. */
  lemma AutolinkRendered(env: Env, pre: string, scheme: string, rest: string, post: string)
    requires Unmarked(pre) && Unmarked(post)
    requires (scheme == "http://" || scheme == "https://" || scheme == "mailto:") && |rest| > 0 && Solid(rest, '>')
    ensures var url := scheme + rest;
            Rendered(env, pre + ("<" + url + ">") + post)
            == Escape(pre, false) + ("<a href=\"" + Escape(url, true) + "\">" + Escape(url, false) + "</a>")
               + Escape(post, false)
  {
    hide Unmarked, Solid, Escape, InlineFrom;
    var url := scheme + rest;
    var m := Autolink(url, |pre| + |Source(Autolink(url, 0))|);
    Standing(pre, Source(m), post);
    assert url[|scheme|..] == rest;
    Between(env, pre, m, post);
    LinkHtml(Escape(url, true), Escape(url, false));
  }

  /** A code span holds no run of as many backticks, and none at its ends. */
  ghost predicate SpanText(code: string, ticks: nat) {
    && |code| > 0 && code[0] != '`' && code[|code| - 1] != '`'
    && forall k | 0 <= k && k + ticks <= |code| :: !At(code, k, Ticks(ticks))
  }

  lemma TicksEnd(s: string, k: nat, n: nat, j: nat)
    requires At(s, k, Ticks(n)) && k <= j < k + n
    ensures s[j] == '`'
  {
    TicksAt(s, k, n);
  }

  lemma SliceOfSlice(s: string, a: nat, b: nat, i: nat, j: nat)
    requires a <= b <= |s| && i <= j <= b - a
    ensures s[a..b][i..j] == s[a + i..a + j]
  {
    assert forall k | 0 <= k < j - i :: s[a..b][i..j][k] == s[a..b][i + k] == s[a + i..a + j][k];
  }

  lemma SpanChars(s: string, b: nat, code: string)
    requires b + |code| <= |s| && s[b..b + |code|] == code
    ensures forall j | b <= j < b + |code| :: s[j] == code[j - b]
  {
    assert forall j | b <= j < b + |code| :: s[j] == s[b..b + |code|][j - b];
  }

  lemma NotInSpan(s: string, b: nat, code: string, ticks: nat, k: nat)
    requires SpanText(code, ticks) && b + |code| <= |s| && s[b..b + |code|] == code
    requires b < k < b + |code|
    ensures !At(s, k, Ticks(ticks))
  {
    SpanChars(s, b, code);
    assert s[b + |code| - 1] != '`';
    if k + ticks <= b + |code| {
      SliceOfSlice(s, b, b + |code|, k - b, k - b + ticks);
      assert !At(code, k - b, Ticks(ticks));
    } else if At(s, k, Ticks(ticks)) {
      TicksEnd(s, k, ticks, b + |code| - 1);
    }
  }

  lemma SpanStart(code: string, ticks: nat)
    requires SpanText(code, ticks)
    ensures |code| > 0 && code[0] != '`' && |Ticks(ticks)| == ticks
  {
  }

  lemma SpanFits(env: Env, s: string, i: nat, ticks: nat, code: string, end: nat)
    requires ticks > 0 && SpanText(code, ticks) && i < end <= |s| && s[i..end] == Ticks(ticks) + code + Ticks(ticks)
    ensures Fits(env, s, i, Code(ticks, code, end))
  {
    hide Ticks, At, SpanText;
    SpanStart(code, ticks);
    Pieces(s, i, Ticks(ticks) + code, Ticks(ticks), end);
    Pieces(s, i, Ticks(ticks), code, end - ticks);
    var b := i + ticks;
    assert s[b] == s[b..b + |code|][0];
    forall more | ticks < more ensures !At(s, i, Ticks(more)) {
      if At(s, i, Ticks(more)) {
        TicksEnd(s, i, more, b);
      }
    }
    forall k | b < k < b + |code| ensures !At(s, k, Ticks(ticks)) {
      NotInSpan(s, b, code, ticks, k);
    }
  }

  /** `code`, with any number of backticks around it: stripped and escaped, with no markup inside. */
  lemma CodeRendered(env: Env, pre: string, ticks: nat, code: string, post: string)
    requires Unmarked(pre) && Unmarked(post) && ticks > 0 && SpanText(code, ticks)
    ensures Rendered(env, pre + (Ticks(ticks) + code + Ticks(ticks)) + post)
            == Escape(pre, false) + ("<code>" + Escape(Strip(code), false) + "</code>") + Escape(post, false)
  {
    hide Unmarked, SpanText, Escape, InlineFrom, Fits, Element, Strip;
    PlainHtml(Escape(Strip(code), false));
    var m := Code(ticks, code, |pre| + |Source(Code(ticks, code, 0))|);
    Standing(pre, Source(m), post);
    SpanFits(env, pre + Source(m) + post, |pre|, ticks, code, m.end);
    Between(env, pre, m, post);
  }

  /** What stands between marks: some text without the mark, with no white space at its ends. */
  predicate Marked(body: string, mark: char) {
    |body| > 0 && mark !in body && !IsSpace(body[0]) && !IsSpace(body[|body| - 1])
  }

  lemma NotNearer(env: Env, s: string, b: nat, body: string, mark: string, other: nat)
    requires (|mark| == 1 || (|mark| == 2 && mark[1] == mark[0])) && Marked(body, mark[0])
    requires b + |body| + |mark| <= |s| && s[b..b + |body|] == body
    requires forall k | b + |body| + |mark| <= k < |s| :: s[k] != mark[0]
    requires 2 <= other && Enclosed(env, s, b, other, mark)
    ensures 2 <= |body| <= other
  {
    hide IsSpace;
    var close := s[b + other..b + other + |mark|];
    assert close[0] == s[b + other] && close[|mark| - 1] == s[b + other + |mark| - 1];
    SpanChars(s, b, body);
  }

  lemma MarkCloses(env: Env, s: string, b: nat, body: string, mark: string)
    requires (|mark| == 1 || (|mark| == 2 && mark[1] == mark[0])) && Marked(body, mark[0])
    requires b + |body| + |mark| <= |s| && s[b..b + |body|] == body
    requires s[b + |body|..b + |body| + |mark|] == mark
    requires |mark| == 1 && b + |body| + 1 < |s| ==> !env.word(s[b + |body| + 1]) && s[b + |body| + 1] != mark[0]
    ensures Enclosed(env, s, b, |body|, mark)
  {
    assert s[b] == s[b..b + |body|][0] && s[b + |body| - 1] == s[b..b + |body|][|body| - 1];
  }

  lemma MarkFits(env: Env, s: string, i: nat, body: string, mark: string, end: nat)
    requires (|mark| == 1 || (|mark| == 2 && mark[1] == mark[0])) && Marked(body, mark[0])
    requires i < end <= |s| && s[i..end] == mark + body + mark
    requires forall k | end <= k < |s| :: s[k] != mark[0]
    requires |mark| == 1 && end < |s| ==> !env.word(s[end])
    ensures Lazy(env, s, i + |mark|, |body|, mark)
  {
    hide IsSpace, Enclosed;
    var b := i + |mark|;
    MarkStands(s, i, mark, body, end);
    Pieces(s, i, mark + body, mark, end);
    MarkCloses(env, s, b, body, mark);
    forall other | 2 <= other && Enclosed(env, s, b, other, mark) ensures 2 <= |body| <= other {
      NotNearer(env, s, b, body, mark, other);
    }
  }

  lemma UnmarkedAfter(pre: string, source: string, post: string, mark: char)
    requires Unmarked(post) && mark in {'*', '_'}
    ensures var s, end := pre + source + post, |pre| + |source|;
            forall k | end <= k < |s| :: s[k] != mark
  {
    Standing(pre, source, post);
  }

  /** **strong** */
  lemma StrongRendered(env: Env, pre: string, body: string, post: string)
    requires Unmarked(pre) && Unmarked(post) && Marked(body, '*')
    ensures Rendered(env, pre + ("**" + body + "**") + post)
            == Escape(pre, false) + ("<strong>" + Rendered(env, body) + "</strong>") + Escape(post, false)
  {
    hide Marked, Escape, InlineFrom, Lazy, Unmarked, Element;
    PlainHtml(InlineFrom(env, body, 0));
    var m := Strong(body, |pre| + |Source(Strong(body, 0))|);
    Standing(pre, Source(m), post);
    UnmarkedAfter(pre, Source(m), post, '*');
    MarkFits(env, pre + Source(m) + post, |pre|, body, "**", m.end);
    Between(env, pre, m, post);
  }

  lemma NoStrong(env: Env, s: string, i: nat, body: string, end: nat)
    requires i < end <= |s| && s[i..end] == "*" + body + "*" && Marked(body, '*')
    ensures !At(s, i, "**")
  {
    assert s[i + 1] == s[i..end][1] == body[0];
    if At(s, i, "**") {
      AtChar(s, i, "**", 1);
    }
  }

  lemma EmphasisFits(env: Env, s: string, i: nat, mark: char, body: string, end: nat)
    requires (mark == '*' || mark == '_') && Marked(body, mark)
    requires i < end <= |s| && s[i..end] == [mark] + body + [mark]
    requires forall k | end <= k < |s| :: s[k] != mark
    requires (i > 0 ==> !env.word(s[i - 1]) && s[i - 1] != mark) && (end < |s| ==> !env.word(s[end]))
    ensures Fits(env, s, i, Emphasis(mark, body, end))
  {
    hide Marked, Lazy, At, NoneEnclosed;
    MarkFits(env, s, i, body, [mark], end);
    if mark == '*' {
      NoStrong(env, s, i, body, end);
    }
  }

  lemma EmphasisStands(env: Env, pre: string, mark: char, body: string, post: string, m: Match)
    requires Unmarked(pre) && Unmarked(post) && (mark == '*' || mark == '_') && Marked(body, mark)
    requires (|pre| > 0 ==> !env.word(pre[|pre| - 1])) && (|post| > 0 ==> !env.word(post[0]))
    requires m == Emphasis(mark, body, |pre| + |Source(m)|)
    ensures Fits(env, pre + Source(m) + post, |pre|, m)
  {
    hide Marked, Fits;
    Standing(pre, Source(m), post);
    UnmarkedAfter(pre, Source(m), post, mark);
    EmphasisFits(env, pre + Source(m) + post, |pre|, mark, body, m.end);
  }

  /** *emphasis* and _emphasis_, when neither side touches a word. */
  lemma EmphasisRendered(env: Env, pre: string, mark: char, body: string, post: string)
    requires Unmarked(pre) && Unmarked(post) && (mark == '*' || mark == '_') && Marked(body, mark)
    requires (|pre| > 0 ==> !env.word(pre[|pre| - 1])) && (|post| > 0 ==> !env.word(post[0]))
    ensures Rendered(env, pre + ([mark] + body + [mark]) + post)
            == Escape(pre, false) + ("<em>" + Rendered(env, body) + "</em>") + Escape(post, false)
  {
    hide Marked, Unmarked, Escape, InlineFrom, Fits, Element;
    PlainHtml(InlineFrom(env, body, 0));
    var m := Emphasis(mark, body, |pre| + |Source(Emphasis(mark, body, 0))|);
    EmphasisStands(env, pre, mark, body, post, m);
    Between(env, pre, m, post);
  }
}
