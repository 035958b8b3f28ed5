/** The alternation `_INLINE_RE` of gateway/shared/markdown.py as a statement about the text, and the scanners of
    Inline.dfy against it: they find a match exactly where the pattern has one, and the one it prefers. */
module InlinePattern {
  import opened Common
  import opened Html
  import opened Inline
  import opened Text

  // ---- the pattern ----

  /** No white space and no `stop`. */
  predicate Solid(s: string, stop: char) { forall k | 0 <= k < |s| :: s[k] != stop && !IsSpace(s[k]) }

  /** `length` characters from `b` on can stand between the mark before them and one after them. */
  ghost predicate Enclosed(env: Env, s: string, b: nat, length: nat, mark: string) {
    && length > 0 && b + length + |mark| <= |s| && s[b + length..b + length + |mark|] == mark
    && !IsSpace(s[b]) && !IsSpace(s[b + length - 1])
    && (|mark| == 1 && b + length + 1 < |s| ==> !env.word(s[b + length + 1]) && s[b + length + 1] != mark[0])
  }

  ghost predicate NoneEnclosed(env: Env, s: string, b: nat, mark: string) {
    forall length :: !Enclosed(env, s, b, length, mark)
  }

  /** The shortest body of at least two characters; one of a single character when there is none. */
  ghost predicate Lazy(env: Env, s: string, b: nat, length: nat, mark: string) {
    && Enclosed(env, s, b, length, mark)
    && forall other | 2 <= other && Enclosed(env, s, b, other, mark) :: 2 <= length <= other
  }

  /** What the pattern prefers at `i`: of several alternatives the first, of several runs of backticks the longest
      that is closed, of several closing marks the nearest. */
  ghost predicate Fits(env: Env, s: string, i: nat, m: Match) {
    && i < m.end <= |s| && s[i..m.end] == Source(m)
    && match m
       case Code(ticks, code, _) =>
         && ticks > 0 && |code| > 0
         && (forall k | i + ticks < k < i + ticks + |code| :: !At(s, k, Ticks(ticks)))
         && (forall more, k | ticks < more && At(s, i, Ticks(more)) && i + more < k :: !At(s, k, Ticks(more)))
       case Link(text, href, _) => ']' !in text && Solid(href, ')')
       case Autolink(url, _) =>
         || ("http://" < url && Solid(url[7..], '>'))
         || ("https://" < url && Solid(url[8..], '>'))
         || ("mailto:" < url && Solid(url[7..], '>'))
       case Strong(body, _) => Lazy(env, s, i + 2, |body|, "**")
       case Emphasis(mark, body, _) =>
         && (mark == '*' || mark == '_')
         && (mark == '*' && At(s, i, "**") ==> NoneEnclosed(env, s, i + 2, "**"))
         && (i > 0 ==> !env.word(s[i - 1]) && s[i - 1] != mark)
         && Lazy(env, s, i + 1, |body|, [mark])
  }

  lemma AtChar(s: string, i: nat, p: string, j: nat)
    requires At(s, i, p) && j < |p|
    ensures i + j < |s| && s[i + j] == p[j]
  {
    assert s[i..i + |p|][j] == s[i + j];
  }

  // ---- `code` ----

  lemma TicksAt(s: string, i: nat, n: nat)
    requires i <= |s|
    ensures At(s, i, Ticks(n)) <==> i + n <= |s| && forall k | i <= k < i + n :: s[k] == '`'
  {
    if i + n <= |s| && s[i..i + n] == Ticks(n) {
      forall k | i <= k < i + n ensures s[k] == '`' {
        assert s[i..i + n][k - i] == Ticks(n)[k - i];
      }
    }
  }

  lemma {:induction false} TickRunIsAll(s: string, i: nat)
    requires i <= |s|
    ensures var n := TickRun(s, i);
            && (i + n < |s| ==> s[i + n] != '`')
            && forall k | i <= k < i + n :: s[k] == '`'
    decreases |s| - i
  {
    if i < |s| && s[i] == '`' {
      TickRunIsAll(s, i + 1);
    }
  }

  /** Exactly the runs up to the whole one can open a span. */
  lemma RunsThatOpen(s: string, i: nat, n: nat)
    requires i <= |s|
    ensures At(s, i, Ticks(n)) <==> n <= TickRun(s, i)
  {
    TickRunIsAll(s, i);
    TicksAt(s, i, n);
  }

  /** The preferred span with at most `n` backticks. */
  ghost predicate FitsCode(s: string, i: nat, n: nat, ticks: nat, code: string, end: nat) {
    && 0 < ticks <= n && |code| > 0 && end == i + ticks + |code| + ticks
    && end <= |s| && s[i + ticks..i + ticks + |code|] == code && At(s, i + ticks + |code|, Ticks(ticks))
    && (forall k | i + ticks < k < i + ticks + |code| :: !At(s, k, Ticks(ticks)))
    && (forall more, k | ticks < more <= n && i + more < k :: !At(s, k, Ticks(more)))
  }

  /** The run of `n` backticks is closed at `e` and not before. */
  lemma LongestFits(s: string, i: nat, n: nat, e: nat, ticks: nat, code: string, end: nat)
    requires n > 0 && i + n < e && At(s, e, Ticks(n)) && forall k | i + n < k < e :: !At(s, k, Ticks(n))
    ensures FitsCode(s, i, n, ticks, code, end) <==> ticks == n && code == s[i + n..e] && end == e + n
  {
    assert |Ticks(n)| == n;
    if FitsCode(s, i, n, ticks, code, end) {
      assert ticks == n;
      assert At(s, i + n + |code|, Ticks(n));
      assert i + n + |code| == e;
    }
  }

  lemma {:induction false} CodeAtIff(s: string, i: nat, n: nat, ticks: nat, code: string, end: nat)
    requires i + n <= |s|
    ensures CodeAt(s, i, n) == Some(Code(ticks, code, end)) <==> FitsCode(s, i, n, ticks, code, end)
  {
    hide At, Ticks;
    if n > 0 {
      CodeAtIff(s, i, n - 1, ticks, code, end);
      match FindText(s, i + n + 1, Ticks(n))
      case Some(e) =>
        LongestFits(s, i, n, e, ticks, code, end);
      case None =>
        assert forall k | i + n < k :: !At(s, k, Ticks(n));
    }
  }

  lemma CodeAtKind(s: string, i: nat, n: nat)
    requires i + n <= |s|
    ensures CodeAt(s, i, n).Some? ==> CodeAt(s, i, n).value.Code?
  {
  }

  lemma Pieces(s: string, i: nat, a: string, b: string, end: nat)
    requires i <= end <= |s| && s[i..end] == a + b
    ensures end == i + |a| + |b| && s[i..i + |a|] == a && s[i + |a|..end] == b
  {
    assert s[i..i + |a|] == s[i..end][..|a|] && s[i + |a|..end] == s[i..end][|a|..];
  }

  lemma CodeParts(s: string, i: nat, ticks: nat, code: string, end: nat)
    ensures end <= |s| && i < end && s[i..end] == Ticks(ticks) + code + Ticks(ticks) <==>
            && i < end == i + ticks + |code| + ticks <= |s| && At(s, i, Ticks(ticks))
            && s[i + ticks..i + ticks + |code|] == code && At(s, i + ticks + |code|, Ticks(ticks))
  {
    if end <= |s| && i < end && s[i..end] == Ticks(ticks) + code + Ticks(ticks) {
      Pieces(s, i, Ticks(ticks) + code, Ticks(ticks), end);
      Pieces(s, i, Ticks(ticks), code, i + ticks + |code|);
    } else if i < end == i + ticks + |code| + ticks <= |s| && At(s, i, Ticks(ticks))
              && s[i + ticks..i + ticks + |code|] == code && At(s, i + ticks + |code|, Ticks(ticks)) {
      Wrapped(s, i, Ticks(ticks), i + ticks + |code|, Ticks(ticks));
    }
  }

  lemma CodeIff(env: Env, s: string, i: nat, ticks: nat, code: string, end: nat)
    requires i <= |s|
    ensures CodeAt(s, i, TickRun(s, i)) == Some(Code(ticks, code, end)) <==> Fits(env, s, i, Code(ticks, code, end))
  {
    hide TickRun, Ticks, At, CodeAt, IsSpace;
    var n := TickRun(s, i);
    CodeAtIff(s, i, n, ticks, code, end);
    CodeParts(s, i, ticks, code, end);
    forall more: nat ensures At(s, i, Ticks(more)) <==> more <= n {
      RunsThatOpen(s, i, more);
    }
  }

  // ---- [links](target) and <autolinks> ----

  lemma {:induction false} RunToIs(s: string, i: nat, stop: char, space: bool, j: nat)
    requires i <= j <= |s| && (j < |s| ==> s[j] == stop || (space && IsSpace(s[j])))
    requires forall k | i <= k < j :: s[k] != stop && !(space && IsSpace(s[k]))
    ensures RunTo(s, i, stop, space) == j
    decreases j - i
  {
    if i < j {
      RunToIs(s, i + 1, stop, space, j);
    }
  }

  /** Where the five pieces of a link stand. */
  lemma LinkStands(s: string, i: nat, text: string, href: string, end: nat)
    requires i < end <= |s| && s[i..end] == "[" + text + "](" + href + ")"
    ensures var close := i + 1 + |text|;
            && end == close + 2 + |href| + 1
            && At(s, i, "[") && s[i + 1..close] == text && At(s, close, "](")
            && s[close + 2..end - 1] == href && At(s, end - 1, ")")
  {
    Pieces(s, i, "[" + text + "](" + href, ")", end);
    Pieces(s, i, "[" + text + "](", href, end - 1);
    Pieces(s, i, "[" + text, "](", i + 3 + |text|);
    Pieces(s, i, "[", text, i + 1 + |text|);
  }

  lemma NoneIn(s: string, i: nat, j: nat, c: char)
    requires i <= j <= |s| && c !in s[i..j]
    ensures forall k | i <= k < j :: s[k] != c
  {
    assert forall k | i <= k < j :: s[i..j][k - i] == s[k];
  }

  lemma SolidStretch(s: string, i: nat, j: nat, stop: char)
    requires i <= j <= |s|
    ensures Solid(s[i..j], stop) <==> forall k | i <= k < j :: s[k] != stop && !IsSpace(s[k])
  {
    assert forall k | i <= k < j :: s[i..j][k - i] == s[k];
    assert forall k | 0 <= k < j - i :: s[i..j][k] == s[i + k];
  }

  lemma LinkScan(s: string, i: nat, close: nat, end: nat)
    requires At(s, i, "[") && i + 1 <= close && At(s, close, "](") && close + 2 <= end && At(s, end, ")")
    requires ']' !in s[i + 1..close] && Solid(s[close + 2..end], ')')
    ensures LinkAt(s, i) == Some(Link(s[i + 1..close], s[close + 2..end], end + 1))
  {
    hide IsSpace, Solid;
    NoneIn(s, i + 1, close, ']');
    SolidStretch(s, close + 2, end, ')');
    AtChar(s, close, "](", 0);
    AtChar(s, end, ")", 0);
    RunToIs(s, i + 1, ']', false, close);
    RunToIs(s, close + 2, ')', true, end);
  }

  lemma LinkFound(s: string, i: nat, text: string, href: string, end: nat)
    requires i < end <= |s| && s[i..end] == "[" + text + "](" + href + ")" && ']' !in text && Solid(href, ')')
    ensures LinkAt(s, i) == Some(Link(text, href, end))
  {
    hide At, Solid, LinkAt;
    LinkStands(s, i, text, href, end);
    LinkScan(s, i, i + 1 + |text|, end - 1);
  }

  lemma LinkIff(env: Env, s: string, i: nat, text: string, href: string, end: nat)
    ensures LinkAt(s, i) == Some(Link(text, href, end)) <==> Fits(env, s, i, Link(text, href, end))
  {
    hide IsSpace, Solid;
    if Fits(env, s, i, Link(text, href, end)) {
      LinkFound(s, i, text, href, end);
    } else if LinkAt(s, i) == Some(Link(text, href, end)) {
      LinkSpans(s, i);
      SolidStretch(s, RunTo(s, i + 1, ']', false) + 2, end - 1, ')');
    }
  }

  lemma AutolinkFound(s: string, i: nat, n: nat, url: string, end: nat)
    requires i < end <= |s| && s[i..end] == "<" + url + ">"
    requires 0 < n < |url| && SchemeLength(s, i + 1) == n && Solid(url[n..], '>')
    ensures AutolinkAt(s, i) == Some(Autolink(url, end))
  {
    hide IsSpace, SchemeLength;
    Pieces(s, i, "<" + url, ">", end);
    Pieces(s, i, "<", url, end - 1);
    assert s[i + 1..end - 1][n..] == s[i + 1 + n..end - 1];
    SolidStretch(s, i + 1 + n, end - 1, '>');
    assert s[end - 1..end][0] == s[end - 1];
    RunToIs(s, i + 1 + n, '>', true, end - 1);
  }

  lemma PrefixAt(s: string, i: nat, url: string, end: nat, p: string)
    requires i < end <= |s| && s[i..end] == "<" + url + ">" && '>' !in p
    ensures At(s, i + 1, p) <==> p <= url
  {
    Pieces(s, i, "<" + url, ">", end);
    Pieces(s, i, "<", url, end - 1);
    assert s[end - 1] == s[end - 1..end][0] == '>';
    if |p| <= |url| {
      assert s[i + 1..end - 1][..|p|] == s[i + 1..i + 1 + |p|];
    } else if At(s, i + 1, p) {
      AtChar(s, i + 1, p, |url|);
    }
  }

  /** The schemes exclude each other. */
  lemma SchemesDiffer(url: string)
    ensures !("http://" <= url && "https://" <= url) && !("http://" <= url && "mailto:" <= url)
    ensures !("https://" <= url && "mailto:" <= url)
  {
    if "http://" <= url { assert url[0] == 'h' && url[4] == ':'; }
    if "https://" <= url { assert url[0] == 'h' && url[4] == 's'; }
    if "mailto:" <= url { assert url[0] == 'm'; }
  }

  lemma SchemeIs(s: string, i: nat, url: string, end: nat)
    requires i < end <= |s| && s[i..end] == "<" + url + ">"
    ensures SchemeLength(s, i + 1)
            == if "http://" <= url || "mailto:" <= url then 7 else if "https://" <= url then 8 else 0
  {
    hide At;
    SchemesDiffer(url);
    PrefixAt(s, i, url, end, "http://");
    PrefixAt(s, i, url, end, "https://");
    PrefixAt(s, i, url, end, "mailto:");
  }

  lemma AutolinkIff(env: Env, s: string, i: nat, url: string, end: nat)
    ensures AutolinkAt(s, i) == Some(Autolink(url, end)) <==> Fits(env, s, i, Autolink(url, end))
  {
    hide IsSpace, Solid, SchemeLength;
    if Fits(env, s, i, Autolink(url, end)) {
      SchemeIs(s, i, url, end);
      SchemesDiffer(url);
      AutolinkFound(s, i, SchemeLength(s, i + 1), url, end);
    } else if AutolinkAt(s, i) == Some(Autolink(url, end)) {
      AutolinkSpans(s, i);
      SchemeIs(s, i, url, end);
      var n := SchemeLength(s, i + 1);
      assert url == s[i + 1..end - 1] && url[n..] == s[i + 1 + n..end - 1];
      SolidStretch(s, i + 1 + n, end - 1, '>');
    }
  }

  // ---- **strong**, *emphasis* and _emphasis_ ----

  lemma ClosedHere(env: Env, s: string, b: nat, length: nat, mark: string)
    requires b < |s| && !IsSpace(s[b]) && length > 0 && (|mark| == 1 || |mark| == 2)
    ensures Enclosed(env, s, b, length, mark) <==>
            b + length <= |s| && !IsSpace(s[b + length - 1]) && Closes(env, s, b + length, mark)
  {
    assert |mark| == 1 ==> mark == [mark[0]];
  }

  /** The scan looks at every place for a closing mark after `length` characters and stops at the nearest. */
  lemma {:induction false} BodyEndIsNearest(env: Env, s: string, b: nat, length: nat, mark: string)
    requires b < |s| && !IsSpace(s[b]) && length > 0 && (|mark| == 1 || |mark| == 2)
    ensures var r := BodyEnd(env, s, b + length, mark);
            && (r.Some? ==> b + length < r.value && Enclosed(env, s, b, r.value - b, mark))
            && forall other | length < other && Enclosed(env, s, b, other, mark) :: r.Some? && r.value <= b + other
    decreases |s| - b - length
  {
    hide Enclosed, Closes, IsSpace;
    ClosedHere(env, s, b, length + 1, mark);
    if b + length < |s| {
      if IsSpace(s[b + length]) || !Closes(env, s, b + length + 1, mark) {
        BodyEndIsNearest(env, s, b, length + 1, mark);
      }
    } else {
      forall other | length < other ensures !Enclosed(env, s, b, other, mark) {
        ClosedHere(env, s, b, other, mark);
      }
    }
  }

  lemma SpaceAhead(env: Env, s: string, b: nat, length: nat, mark: string)
    requires b < |s| ==> IsSpace(s[b])
    ensures !Enclosed(env, s, b, length, mark)
  {
  }

  lemma NotEmpty(env: Env, s: string, b: nat, length: nat, mark: string)
    ensures Enclosed(env, s, b, length, mark) ==> length > 0
  {
  }

  lemma BodyIff(env: Env, s: string, i: nat, mark: string, length: nat)
    requires (|mark| == 1 || |mark| == 2) && Opens(env, s, i, mark)
    ensures BodyAt(env, s, i, mark) == Some(i + |mark| + length) <==> Lazy(env, s, i + |mark|, length, mark)
    ensures BodyAt(env, s, i, mark) == None <==> NoneEnclosed(env, s, i + |mark|, mark)
  {
    hide BodyEnd, Enclosed, IsSpace, Opens, Closes;
    var b := i + |mark|;
    if b < |s| && !IsSpace(s[b]) {
      BodyEndIsNearest(env, s, b, 1, mark);
      ClosedHere(env, s, b, 1, mark);
      forall other: nat ensures Enclosed(env, s, b, other, mark) ==> other > 0 {
        NotEmpty(env, s, b, other, mark);
      }
    } else {
      forall other: nat ensures !Enclosed(env, s, b, other, mark) {
        SpaceAhead(env, s, b, other, mark);
      }
    }
  }

  lemma EnclosedStands(env: Env, s: string, i: nat, mark: string, length: nat)
    requires At(s, i, mark) && Enclosed(env, s, i + |mark|, length, mark)
    ensures var b := i + |mark|;
            && b + length + |mark| <= |s| && |s[b..b + length]| == length
            && s[i..b + length + |mark|] == mark + s[b..b + length] + mark
  {
    Wrapped(s, i, mark, i + |mark| + length, mark);
  }

  lemma MarkStands(s: string, i: nat, mark: string, body: string, end: nat)
    requires i <= end <= |s| && s[i..end] == mark + body + mark
    ensures At(s, i, mark) && end == i + |mark| + |body| + |mark| && s[i + |mark|..i + |mark| + |body|] == body
  {
    Pieces(s, i, mark + body, mark, end);
    Pieces(s, i, mark, body, end - |mark|);
  }

  lemma StrongOpens(env: Env, s: string, i: nat)
    ensures Opens(env, s, i, "**") <==> At(s, i, "**")
    ensures !Opens(env, s, i, "**") ==> BodyAt(env, s, i, "**") == None
  {
  }

  lemma StrongNone(env: Env, s: string, i: nat)
    ensures StrongAt(env, s, i) == None <==> (At(s, i, "**") ==> NoneEnclosed(env, s, i + 2, "**"))
  {
    hide At, BodyAt, NoneEnclosed, Opens;
    StrongOpens(env, s, i);
    if Opens(env, s, i, "**") {
      BodyIff(env, s, i, "**", 0);
    }
  }

  lemma StrongStands(env: Env, s: string, i: nat, body: string, end: nat)
    requires StrongAt(env, s, i) == Some(Strong(body, end))
    ensures Fits(env, s, i, Strong(body, end))
  {
    hide BodyAt, IsSpace, Opens, At, Enclosed;
    StrongOpens(env, s, i);
    BodyIff(env, s, i, "**", |body|);
    EnclosedStands(env, s, i, "**", |body|);
  }

  lemma StrongFound(env: Env, s: string, i: nat, body: string, end: nat)
    requires Fits(env, s, i, Strong(body, end))
    ensures StrongAt(env, s, i) == Some(Strong(body, end))
  {
    hide BodyAt, IsSpace, Opens, At, Lazy;
    StrongOpens(env, s, i);
    MarkStands(s, i, "**", body, end);
    BodyIff(env, s, i, "**", |body|);
  }

  lemma StrongIff(env: Env, s: string, i: nat, body: string, end: nat)
    ensures StrongAt(env, s, i) == Some(Strong(body, end)) <==> Fits(env, s, i, Strong(body, end))
  {
    hide StrongAt, Fits;
    if StrongAt(env, s, i) == Some(Strong(body, end)) {
      StrongStands(env, s, i, body, end);
    } else if Fits(env, s, i, Strong(body, end)) {
      StrongFound(env, s, i, body, end);
    }
  }

  lemma EmphasisOpens(env: Env, s: string, i: nat, mark: char)
    ensures Opens(env, s, i, [mark]) <==> At(s, i, [mark]) && (i > 0 ==> !env.word(s[i - 1]) && s[i - 1] != mark)
    ensures !Opens(env, s, i, [mark]) ==> BodyAt(env, s, i, [mark]) == None
  {
  }

  lemma EmphasisIff(env: Env, s: string, i: nat, mark: char, body: string, end: nat)
    ensures EmphasisAt(env, s, i, mark) == Some(Emphasis(mark, body, end)) <==>
            && i < end <= |s| && s[i..end] == [mark] + body + [mark]
            && (i > 0 ==> !env.word(s[i - 1]) && s[i - 1] != mark)
            && Lazy(env, s, i + 1, |body|, [mark])
  {
    hide BodyAt, Enclosed, IsSpace, Opens;
    EmphasisOpens(env, s, i, mark);
    if Opens(env, s, i, [mark]) {
      BodyIff(env, s, i, [mark], |body|);
      if EmphasisAt(env, s, i, mark) == Some(Emphasis(mark, body, end)) {
        EnclosedStands(env, s, i, [mark], |body|);
      } else if i < end <= |s| && s[i..end] == [mark] + body + [mark] {
        MarkStands(s, i, [mark], body, end);
      }
    } else if i < end <= |s| && s[i..end] == [mark] + body + [mark] {
      MarkStands(s, i, [mark], body, end);
    }
  }

  // ---- the alternation ----

  lemma CodeFirst(s: string, i: nat)
    requires i <= |s| && CodeAt(s, i, TickRun(s, i)).Some?
    ensures i < |s| && s[i] == '`'
  {
    TickRunIsAll(s, i);
  }

  lemma LinkFirst(s: string, i: nat)
    requires LinkAt(s, i).Some?
    ensures i < |s| && s[i] == '['
  {
    hide At, RunTo;
    AtChar(s, i, "[", 0);
  }

  lemma AutolinkFirst(s: string, i: nat)
    requires AutolinkAt(s, i).Some?
    ensures i < |s| && s[i] == '<'
  {
    hide At, RunTo, SchemeLength;
    AtChar(s, i, "<", 0);
  }

  lemma BodyFirst(env: Env, s: string, i: nat, mark: string)
    requires |mark| > 0 && BodyAt(env, s, i, mark).Some?
    ensures i < |s| && s[i] == mark[0]
  {
    hide At, BodyAt, Joins;
    AtChar(s, i, mark, 0);
  }

  /** Only the alternatives for the character at `i` can match there. */
  lemma FirstCharacter(env: Env, s: string, i: nat)
    requires i <= |s|
    ensures CodeAt(s, i, TickRun(s, i)).Some? ==> i < |s| && s[i] == '`'
    ensures LinkAt(s, i).Some? ==> i < |s| && s[i] == '['
    ensures AutolinkAt(s, i).Some? ==> i < |s| && s[i] == '<'
    ensures StrongAt(env, s, i).Some? || EmphasisAt(env, s, i, '*').Some? ==> i < |s| && s[i] == '*'
    ensures EmphasisAt(env, s, i, '_').Some? ==> i < |s| && s[i] == '_'
  {
    hide CodeAt, TickRun, LinkAt, AutolinkAt, BodyAt;
    if CodeAt(s, i, TickRun(s, i)).Some? { CodeFirst(s, i); }
    if LinkAt(s, i).Some? { LinkFirst(s, i); }
    if AutolinkAt(s, i).Some? { AutolinkFirst(s, i); }
    if StrongAt(env, s, i).Some? { BodyFirst(env, s, i, "**"); }
    if EmphasisAt(env, s, i, '*').Some? { BodyFirst(env, s, i, ['*']); }
    if EmphasisAt(env, s, i, '_').Some? { BodyFirst(env, s, i, ['_']); }
  }

  lemma FitsStart(env: Env, s: string, i: nat, m: Match)
    requires Fits(env, s, i, m)
    ensures match m
            case Code(_, _, _) => s[i] == '`'
            case Link(_, _, _) => s[i] == '['
            case Autolink(_, _) => s[i] == '<'
            case Strong(_, _) => s[i] == '*'
            case Emphasis(mark, _, _) => s[i] == mark
  {
    hide Lazy, Solid;
    assert s[i] == s[i..m.end][0];
    if m.Link? {
      LinkStands(s, i, m.text, m.href, m.end);
    }
  }

  lemma AlternativeKinds(env: Env, s: string, i: nat)
    requires i <= |s|
    ensures CodeAt(s, i, TickRun(s, i)).Some? ==> CodeAt(s, i, TickRun(s, i)).value.Code?
    ensures LinkAt(s, i).Some? ==> LinkAt(s, i).value.Link?
    ensures AutolinkAt(s, i).Some? ==> AutolinkAt(s, i).value.Autolink?
    ensures StrongAt(env, s, i).Some? ==> StrongAt(env, s, i).value.Strong?
    ensures forall c | EmphasisAt(env, s, i, c).Some? ::
              EmphasisAt(env, s, i, c).value.Emphasis? && EmphasisAt(env, s, i, c).value.mark == c
  {
    hide BodyAt, SchemeLength;
    CodeAtKind(s, i, TickRun(s, i));
  }

  /** The scanners are the pattern: a match is found exactly where the pattern has one, and it is the one the pattern
      prefers. */
  lemma MatchIff(env: Env, s: string, i: nat, m: Match)
    requires i <= |s|
    ensures MatchAt(env, s, i) == Some(m) <==> Fits(env, s, i, m)
  {
    hide CodeAt, LinkAt, AutolinkAt, StrongAt, EmphasisAt, TickRun, Lazy, Solid;
    FirstCharacter(env, s, i);
    if Fits(env, s, i, m) {
      FitsStart(env, s, i, m);
    }
    AlternativeKinds(env, s, i);
    match m
    case Code(ticks, code, end) => CodeIff(env, s, i, ticks, code, end);
    case Link(text, href, end) => LinkIff(env, s, i, text, href, end);
    case Autolink(url, end) => AutolinkIff(env, s, i, url, end);
    case Strong(body, end) => StrongIff(env, s, i, body, end);
    case Emphasis(mark, body, end) =>
      StrongNone(env, s, i);
      EmphasisIff(env, s, i, mark, body, end);
  }
}
