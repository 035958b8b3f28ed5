/** Inline markup: the alternation `_INLINE_RE` as explicit scanners, and `render_inline`
    (gateway/shared/markdown.py). */
module Inline {
  import opened Common
  import opened Html
  import opened Text

  /** What the renderer takes from outside: the word characters `\w`, the digits `\d`, `str.lower`,
      and the link resolver (the identity when none was given). */
  datatype Env = Env(word: char -> bool, digit: char -> bool, lower: string -> string, resolve: string -> string)

  /** One match of the alternation, with the position after it. */
  datatype Match =
    | Code(ticks: nat, code: string, end: nat)
    | Link(text: string, href: string, end: nat)
    | Autolink(url: string, end: nat)
    | Strong(body: string, end: nat)
    | Emphasis(mark: char, body: string, end: nat)

  function Ticks(n: nat): string { seq(n, _ => '`') }

  /** The source text a match stands for. */
  function Source(m: Match): string {
    match m
    case Code(ticks, code, _) => Ticks(ticks) + code + Ticks(ticks)
    case Link(text, href, _) => "[" + text + "](" + href + ")"
    case Autolink(url, _) => "<" + url + ">"
    case Strong(body, _) => "**" + body + "**"
    case Emphasis(mark, body, _) => [mark] + body + [mark]
  }

  predicate At(s: string, i: nat, p: string) { i + |p| <= |s| && s[i..i + |p|] == p }

  // ---- `code` ----

  /** Length of the run of backticks at `i`. */
  function TickRun(s: string, i: nat): (n: nat)
    requires i <= |s|
    ensures i + n <= |s| && s[i..i + n] == Ticks(n)
    decreases |s| - i
  {
    if i < |s| && s[i] == '`' then
      var n := TickRun(s, i + 1);
      assert s[i..i + 1 + n] == [s[i]] + s[i + 1..i + 1 + n];
      1 + n
    else 0
  }

  /** First position from `e` on at which `p` stands. */
  function FindText(s: string, e: nat, p: string): (r: Option<nat>)
    ensures r.Some? ==> e <= r.value && At(s, r.value, p) && forall k | e <= k < r.value :: !At(s, k, p)
    ensures r.None? ==> forall k | e <= k :: !At(s, k, p)
    decreases if e <= |s| then |s| - e + 1 else 0
  {
    if e > |s| then None else if At(s, e, p) then Some(e) else FindText(s, e + 1, p)
  }

  /** The longest run of at most `n` backticks at `i` that is closed by as many further on. */
  function CodeAt(s: string, i: nat, n: nat): (r: Option<Match>)
    requires i + n <= |s|
  {
    if n == 0 then None
    else
      match FindText(s, i + n + 1, Ticks(n))
      case Some(e) => Some(Code(n, s[i + n..e], e + n))
      case None => CodeAt(s, i, n - 1)
  }

  // ---- [links](target) and <autolinks> ----

  /** First position from `i` on that holds `stop`, or white space when that stops too. */
  function RunTo(s: string, i: nat, stop: char, space: bool): (j: nat)
    requires i <= |s|
    ensures i <= j <= |s| && (j < |s| ==> s[j] == stop || (space && IsSpace(s[j])))
    ensures forall k | i <= k < j :: s[k] != stop && !(space && IsSpace(s[k]))
    decreases |s| - i
  {
    if i == |s| || s[i] == stop || (space && IsSpace(s[i])) then i else RunTo(s, i + 1, stop, space)
  }

  function LinkAt(s: string, i: nat): (r: Option<Match>) {
    if !At(s, i, "[") then None
    else
      var close := RunTo(s, i + 1, ']', false);
      if !At(s, close, "](") then None
      else
        var end := RunTo(s, close + 2, ')', true);
        if !At(s, end, ")") then None else Some(Link(s[i + 1..close], s[close + 2..end], end + 1))
  }

  function SchemeLength(s: string, i: nat): (n: nat)
    ensures n > 0 ==> i + n <= |s| && SafeTarget(s[i..i + n])
  {
    if At(s, i, "http://") then 7 else if At(s, i, "https://") then 8 else if At(s, i, "mailto:") then 7 else 0
  }

  function AutolinkAt(s: string, i: nat): (r: Option<Match>) {
    if !At(s, i, "<") then None
    else
      var n := SchemeLength(s, i + 1);
      if n == 0 then None
      else
        var end := RunTo(s, i + 1 + n, '>', true);
        if end == i + 1 + n || !At(s, end, ">") then None else Some(Autolink(s[i + 1..end], end + 1))
  }

  // ---- **strong**, *emphasis* and _emphasis_ ----

  /** `(?<![\w*])` before a single mark and `(?![\w*])` after one; a double mark has no such guard. */
  predicate Joins(env: Env, c: char, mark: string) { |mark| == 1 && (env.word(c) || [c] == mark) }

  predicate Opens(env: Env, s: string, i: nat, mark: string) {
    At(s, i, mark) && (i > 0 ==> !Joins(env, s[i - 1], mark))
  }

  predicate Closes(env: Env, s: string, i: nat, mark: string) {
    At(s, i, mark) && (i + |mark| < |s| ==> !Joins(env, s[i + |mark|], mark))
  }

  /** End of the shortest body whose last character is at `j` or later. */
  function BodyEnd(env: Env, s: string, j: nat, mark: string): (r: Option<nat>)
    ensures r.Some? ==> j < r.value <= |s| && !IsSpace(s[r.value - 1]) && Closes(env, s, r.value, mark)
    decreases if j < |s| then |s| - j else 0
  {
    if j >= |s| then None
    else if !IsSpace(s[j]) && Closes(env, s, j + 1, mark) then Some(j + 1)
    else BodyEnd(env, s, j + 1, mark)
  }

  /** `\S(?:.*?\S)?` between two marks: the optional part is tried first, so a body of one character
      is taken only when no longer one closes anywhere later. */
  function BodyAt(env: Env, s: string, i: nat, mark: string): (r: Option<nat>)
    ensures r.Some? ==> i + |mark| < r.value <= |s| && Opens(env, s, i, mark) && Closes(env, s, r.value, mark)
    ensures r.Some? ==> !IsSpace(s[i + |mark|]) && !IsSpace(s[r.value - 1])
  {
    var b := i + |mark|;
    if !Opens(env, s, i, mark) || b >= |s| || IsSpace(s[b]) then None
    else
      match BodyEnd(env, s, b + 1, mark)
      case Some(e) => Some(e)
      case None => if Closes(env, s, b + 1, mark) then Some(b + 1) else None
  }

  function StrongAt(env: Env, s: string, i: nat): (r: Option<Match>) {
    match BodyAt(env, s, i, "**")
    case Some(e) => Some(Strong(s[i + 2..e], e + 2))
    case None => None
  }

  function EmphasisAt(env: Env, s: string, i: nat, mark: char): (r: Option<Match>) {
    match BodyAt(env, s, i, [mark])
    case Some(e) => Some(Emphasis(mark, s[i + 1..e], e + 1))
    case None => None
  }

  function OrElse(a: Option<Match>, b: Option<Match>): Option<Match> { if a.Some? then a else b }

  /** The match at `i`, by the first alternative that has one. */
  function MatchAt(env: Env, s: string, i: nat): (r: Option<Match>)
    requires i <= |s|
  {
    OrElse(CodeAt(s, i, TickRun(s, i)),
    OrElse(LinkAt(s, i),
    OrElse(AutolinkAt(s, i),
    OrElse(StrongAt(env, s, i),
    OrElse(EmphasisAt(env, s, i, '*'),
           EmphasisAt(env, s, i, '_'))))))
  }

  // ---- what a match is ----

  /** A match at `i` is exactly the text from `i` to its end. */
  ghost predicate Spans(s: string, i: nat, m: Match) {
    i < m.end <= |s| && s[i..m.end] == Source(m)
  }

  lemma Cut(s: string, i: nat, j: nat, k: nat)
    requires i <= j <= k <= |s|
    ensures s[i..k] == s[i..j] + s[j..k]
  {
  }

  /** What stands between two pieces of text, with those pieces around it. */
  lemma Wrapped(s: string, i: nat, open: string, j: nat, close: string)
    requires At(s, i, open) && i + |open| <= j && At(s, j, close)
    ensures j + |close| <= |s| && s[i..j + |close|] == open + s[i + |open|..j] + close
  {
    Cut(s, i, i + |open|, j + |close|);
    Cut(s, i + |open|, j, j + |close|);
  }

  lemma FewerTicks(s: string, i: nat, n: nat)
    requires n > 0 && At(s, i, Ticks(n))
    ensures At(s, i, Ticks(n - 1))
  {
    assert s[i..i + (n - 1)] == s[i..i + n][..n - 1];
  }

  lemma {:induction false} CodeSpans(s: string, i: nat, n: nat)
    requires At(s, i, Ticks(n)) && CodeAt(s, i, n).Some?
    ensures var m := CodeAt(s, i, n).value; Spans(s, i, m) && m.Code? && m.ticks > 0 && |m.code| > 0
    ensures var m := CodeAt(s, i, n).value;
            forall k | i + m.ticks < k < i + m.ticks + |m.code| :: !At(s, k, Ticks(m.ticks))
  {
    match FindText(s, i + n + 1, Ticks(n))
    case Some(e) =>
      Wrapped(s, i, Ticks(n), e, Ticks(n));
    case None =>
      FewerTicks(s, i, n);
      CodeSpans(s, i, n - 1);
  }

  lemma RunIsClean(s: string, i: nat, stop: char, space: bool)
    requires i <= |s|
    ensures stop !in s[i..RunTo(s, i, stop, space)]
  {
  }

  lemma LinkParts(s: string, i: nat, close: nat, end: nat)
    requires At(s, i, "[") && i + 1 <= close && At(s, close, "](") && close + 2 <= end && At(s, end, ")")
    ensures Spans(s, i, Link(s[i + 1..close], s[close + 2..end], end + 1))
  {
    Wrapped(s, i, "[", close, "](");
    Cut(s, i, close + 2, end + 1);
    Cut(s, close + 2, end, end + 1);
    var text, href := s[i + 1..close], s[close + 2..end];
    assert s[i..end + 1] == ("[" + text + "](") + (href + ")");
    Associate("[" + text + "](", href, ")");
  }

  lemma LinkSpans(s: string, i: nat)
    requires LinkAt(s, i).Some?
    ensures var m := LinkAt(s, i).value; Spans(s, i, m) && m.Link? && ']' !in m.text && ')' !in m.href
  {
    hide Spans, RunTo, IsSpace, Source, At;
    var close := RunTo(s, i + 1, ']', false);
    var end := RunTo(s, close + 2, ')', true);
    LinkParts(s, i, close, end);
    RunIsClean(s, i + 1, ']', false);
    RunIsClean(s, close + 2, ')', true);
  }

  lemma AutolinkParts(s: string, i: nat, end: nat)
    requires At(s, i, "<") && i + 1 <= end && At(s, end, ">")
    ensures Spans(s, i, Autolink(s[i + 1..end], end + 1))
  {
    Wrapped(s, i, "<", end, ">");
  }

  lemma SafePrefix(a: string, b: string)
    requires SafeTarget(a)
    ensures SafeTarget(a + b)
  {
    assert forall n | 0 <= n <= |a| :: (a + b)[..n] == a[..n];
  }

  lemma SafeStretch(s: string, i: nat, j: nat, k: nat)
    requires i <= j <= k <= |s| && SafeTarget(s[i..j])
    ensures SafeTarget(s[i..k])
  {
    Cut(s, i, j, k);
    SafePrefix(s[i..j], s[j..k]);
  }

  lemma AutolinkSpans(s: string, i: nat)
    requires AutolinkAt(s, i).Some?
    ensures var m := AutolinkAt(s, i).value; Spans(s, i, m) && m.Autolink? && SafeTarget(m.url)
  {
    hide Spans, RunTo, IsSpace, Source, At, SafeTarget, SchemeLength;
    var n := SchemeLength(s, i + 1);
    var end := RunTo(s, i + 1 + n, '>', true);
    AutolinkParts(s, i, end);
    SafeStretch(s, i + 1, i + 1 + n, end);
  }

  lemma StrongParts(s: string, i: nat, e: nat)
    requires At(s, i, "**") && i + 2 <= e && At(s, e, "**")
    ensures Spans(s, i, Strong(s[i + 2..e], e + 2))
  {
    Wrapped(s, i, "**", e, "**");
  }

  lemma EmphasisParts(s: string, i: nat, mark: char, e: nat)
    requires At(s, i, [mark]) && i + 1 <= e && At(s, e, [mark])
    ensures Spans(s, i, Emphasis(mark, s[i + 1..e], e + 1))
  {
    Wrapped(s, i, [mark], e, [mark]);
  }

  lemma StrongSpans(env: Env, s: string, i: nat)
    requires StrongAt(env, s, i).Some?
    ensures Spans(s, i, StrongAt(env, s, i).value)
  {
    hide Spans, Source, BodyAt, Joins, At, IsSpace;
    StrongParts(s, i, BodyAt(env, s, i, "**").value);
  }

  lemma EmphasisSpans(env: Env, s: string, i: nat, mark: char)
    requires EmphasisAt(env, s, i, mark).Some?
    ensures Spans(s, i, EmphasisAt(env, s, i, mark).value)
  {
    hide Spans, Source, BodyAt, Joins, At, IsSpace;
    EmphasisParts(s, i, mark, BodyAt(env, s, i, [mark]).value);
  }

  /** Every match takes a non-empty stretch of the text, of which it is the exact source. */
  lemma MatchSpans(env: Env, s: string, i: nat)
    requires i <= |s| && MatchAt(env, s, i).Some?
    ensures Spans(s, i, MatchAt(env, s, i).value)
  {
    hide Spans, Source, CodeAt, LinkAt, AutolinkAt, StrongAt, EmphasisAt;
    if CodeAt(s, i, TickRun(s, i)).Some? { CodeSpans(s, i, TickRun(s, i)); }
    if LinkAt(s, i).Some? { LinkSpans(s, i); }
    if AutolinkAt(s, i).Some? { AutolinkSpans(s, i); }
    if StrongAt(env, s, i).Some? { StrongSpans(env, s, i); }
    if EmphasisAt(env, s, i, '*').Some? { EmphasisSpans(env, s, i, '*'); }
    if EmphasisAt(env, s, i, '_').Some? { EmphasisSpans(env, s, i, '_'); }
  }

  // ---- render_inline ----

  /** The renderer as a reading of the text character by character: an escaped character where
      nothing matches, an element around the rendered body where something does. */
  function InlineFrom(env: Env, s: string, i: nat): string
    requires i <= |s|
    decreases |s|, |s| - i
  {
    if i == |s| then ""
    else
      match MatchAt(env, s, i)
      case None => EscapeChar(s[i], false) + InlineFrom(env, s, i + 1)
      case Some(m) =>
        MatchSpans(env, s, i);
        RenderMatch(env, m) + InlineFrom(env, s, m.end)
  }

  function Rendered(env: Env, s: string): string { InlineFrom(env, s, 0) }

  function RenderMatch(env: Env, m: Match): string
    decreases |Source(m)|, 0
  {
    match m
    case Code(_, code, _) => Element("code", "", Escape(Strip(code), false))
    case Link(text, href, _) =>
      Element("a", Attribute("href", Escape(SafeHref(env.resolve(href)), true)), InlineFrom(env, text, 0))
    case Autolink(url, _) => Element("a", Attribute("href", Escape(url, true)), Escape(url, false))
    case Strong(body, _) => Element("strong", "", InlineFrom(env, body, 0))
    case Emphasis(_, body, _) => Element("em", "", InlineFrom(env, body, 0))
  }

  /** The leftmost match that starts at `i` or later, with its start. */
  function Search(env: Env, s: string, i: nat): (r: Option<(nat, Match)>)
    requires i <= |s|
    ensures r.Some? ==> i <= r.value.0 <= |s| && MatchAt(env, s, r.value.0) == Some(r.value.1)
    ensures forall k | i <= k <= (if r.Some? then r.value.0 - 1 else |s|) :: MatchAt(env, s, k).None?
    decreases |s| - i
  {
    match MatchAt(env, s, i)
    case Some(m) => Some((i, m))
    case None => if i == |s| then None else Search(env, s, i + 1)
  }

  lemma EscapeFirst(s: string, i: nat, j: nat)
    requires i < j <= |s|
    ensures Escape(s[i..j], false) == EscapeChar(s[i], false) + Escape(s[i + 1..j], false)
  {
    assert s[i..j][1..] == s[i + 1..j] && s[i..j][0] == s[i];
  }

  /** A stretch where nothing matches is escaped text. */
  lemma {:induction false} RunIsEscaped(env: Env, s: string, i: nat, j: nat)
    requires i <= j <= |s| && forall k | i <= k < j :: MatchAt(env, s, k).None?
    ensures InlineFrom(env, s, i) == Escape(s[i..j], false) + InlineFrom(env, s, j)
    decreases j - i
  {
    if i < j {
      RunIsEscaped(env, s, i + 1, j);
      EscapeFirst(s, i, j);
      Associate(EscapeChar(s[i], false), Escape(s[i + 1..j], false), InlineFrom(env, s, j));
    }
  }

  lemma LastRun(env: Env, s: string, position: nat)
    requires position <= |s| && forall k | position <= k <= |s| :: MatchAt(env, s, k).None?
    ensures InlineFrom(env, s, position) == Escape(s[position..], false)
  {
    RunIsEscaped(env, s, position, |s|);
    assert s[position..|s|] == s[position..];
  }

  /** Text without markup comes out escaped and otherwise as it was. */
  lemma PlainText(env: Env, s: string)
    requires forall k | 0 <= k <= |s| :: MatchAt(env, s, k).None?
    ensures Rendered(env, s) == Escape(s, false) && Unescape(Rendered(env, s)) == s
  {
    LastRun(env, s, 0);
    EscapeRoundTrip(s, false);
  }

  lemma MatchStep(env: Env, s: string, position: nat, start: nat, out: string)
    requires position <= start <= |s| && MatchAt(env, s, start).Some?
    requires forall k | position <= k < start :: MatchAt(env, s, k).None?
    ensures start < MatchAt(env, s, start).value.end <= |s|
    ensures |Source(MatchAt(env, s, start).value)| <= |s|
    ensures var m := MatchAt(env, s, start).value;
            out + InlineFrom(env, s, position)
            == out + Escape(s[position..start], false) + RenderMatch(env, m) + InlineFrom(env, s, m.end)
  {
    var m := MatchAt(env, s, start).value;
    MatchSpans(env, s, start);
    RunIsEscaped(env, s, position, start);
    Associate4(out, Escape(s[position..start], false), RenderMatch(env, m), InlineFrom(env, s, m.end));
  }

  method RenderInline(env: Env, text: string) returns (html: string)
    ensures html == Rendered(env, text)
    decreases |text|, 1
  {
    var out, position := "", 0;
    var found := Search(env, text, 0);
    while found.Some?
      invariant position <= |text| && found == Search(env, text, position)
      invariant out + InlineFrom(env, text, position) == Rendered(env, text)
      decreases |text| - position
    {
      var start, m := found.value.0, found.value.1;
      MatchStep(env, text, position, start, out);
      var element := RenderFound(env, m);
      out := out + Escape(text[position..start], false) + element;
      position := m.end;
      found := Search(env, text, position);
    }
    LastRun(env, text, position);
    html := out + Escape(text[position..], false);
  }

  /** The body of the loop over the matches. */
  method RenderFound(env: Env, m: Match) returns (html: string)
    ensures html == RenderMatch(env, m)
    decreases |Source(m)|, 0
  {
    match m {
      case Code(_, code, _) =>
        html := Element("code", "", Escape(Strip(code), false));
      case Link(text, target, _) =>
        var href := SafeHref(env.resolve(target));
        var shown := RenderInline(env, text);
        html := Element("a", Attribute("href", Escape(href, true)), shown);
      case Autolink(url, _) =>
        html := Element("a", Attribute("href", Escape(url, true)), Escape(url, false));
      case Strong(body, _) =>
        var shown := RenderInline(env, body);
        html := Element("strong", "", shown);
      case Emphasis(_, body, _) =>
        var shown := RenderInline(env, body);
        html := Element("em", "", shown);
    }
  }

  // ---- the output is well nested ----

  lemma HrefReads(href: string)
    requires SafeTarget(href)
    ensures Attributes(Attribute("href", Escape(href, true)))
  {
    EscapedTargetIsSafe(href);
    EscapeIsSafe(href, true);
    AttributeReads("href", Escape(href, true), "");
    assert Attribute("href", Escape(href, true)) + "" == Attribute("href", Escape(href, true));
  }

  lemma EscapedIsBalanced(s: string)
    ensures Balanced(Escape(s, false))
  {
    EscapeIsSafe(s, false);
    BalancedText(Escape(s, false));
  }

  lemma EscapedCharIsBalanced(c: char)
    ensures Balanced(EscapeChar(c, false))
  {
    BalancedText(EscapeChar(c, false));
  }

  lemma InlineNames()
    ensures ElementName("a") && ElementName("code") && ElementName("em") && ElementName("strong")
  {
    assert ElementName("a");
    assert ElementName("code");
    assert ElementName("em");
    assert ElementName("strong");
  }

  lemma LinkIsBalanced(href: string, shown: string)
    requires SafeTarget(href) && Balanced(shown)
    ensures Balanced(Element("a", Attribute("href", Escape(href, true)), shown))
  {
    InlineNames();
    HrefReads(href);
    BalancedElement("a", Attribute("href", Escape(href, true)), shown);
  }

  lemma PlainElementIsBalanced(name: string, shown: string)
    requires ElementName(name) && Balanced(shown)
    ensures Balanced(Element(name, "", shown))
  {
    BalancedElement(name, "", shown);
  }

  lemma {:induction false} MatchIsBalanced(env: Env, m: Match)
    requires m.Autolink? ==> SafeTarget(m.url)
    ensures Balanced(RenderMatch(env, m))
    decreases |Source(m)|, 0
  {
    InlineNames();
    match m
    case Code(_, code, _) =>
      EscapedIsBalanced(Strip(code));
      PlainElementIsBalanced("code", Escape(Strip(code), false));
    case Link(text, href, _) =>
      InlineIsBalanced(env, text, 0);
      LinkIsBalanced(SafeHref(env.resolve(href)), InlineFrom(env, text, 0));
    case Autolink(url, _) =>
      EscapedIsBalanced(url);
      LinkIsBalanced(url, Escape(url, false));
    case Strong(body, _) =>
      InlineIsBalanced(env, body, 0);
      PlainElementIsBalanced("strong", InlineFrom(env, body, 0));
    case Emphasis(_, body, _) =>
      InlineIsBalanced(env, body, 0);
      PlainElementIsBalanced("em", InlineFrom(env, body, 0));
  }

  lemma MatchedUrlIsSafe(env: Env, s: string, i: nat)
    requires i <= |s| && MatchAt(env, s, i).Some? && MatchAt(env, s, i).value.Autolink?
    ensures SafeTarget(MatchAt(env, s, i).value.url)
  {
    if CodeAt(s, i, TickRun(s, i)).Some? { CodeSpans(s, i, TickRun(s, i)); }
    if AutolinkAt(s, i).Some? { AutolinkSpans(s, i); }
  }

  /** For every text and every resolver: the output opens and closes its elements like brackets, has
      no `<` or `>` of the text in it, and links nowhere but to safe targets. */
  lemma {:induction false} InlineIsBalanced(env: Env, s: string, i: nat)
    requires i <= |s|
    ensures Balanced(InlineFrom(env, s, i))
    decreases |s|, |s| - i, 1
  {
    if i == |s| {
      BalancedEmpty();
    } else {
      match MatchAt(env, s, i)
      case None =>
        EscapedCharIsBalanced(s[i]);
        InlineIsBalanced(env, s, i + 1);
        BalancedConcat(EscapeChar(s[i], false), InlineFrom(env, s, i + 1));
      case Some(m) =>
        MatchSpans(env, s, i);
        if m.Autolink? { MatchedUrlIsSafe(env, s, i); }
        MatchIsBalanced(env, m);
        InlineIsBalanced(env, s, m.end);
        BalancedConcat(RenderMatch(env, m), InlineFrom(env, s, m.end));
    }
  }
}
