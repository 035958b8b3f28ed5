/** The line patterns of gateway/shared/markdown.py as statements about how a line is put together, and the scanners of
    Patterns.dfy and Text.dfy against them. */
module LinePatterns {
  import opened Common
  import opened Html
  import opened Inline
  import opened Patterns
  import opened Text

  // ---- white space ----

  predicate White(s: string) { forall k | 0 <= k < |s| :: IsSpace(s[k]) }

  /** Nothing, or text that neither begins nor ends with white space. */
  predicate Trimmed(s: string) { |s| > 0 ==> !IsSpace(s[0]) && !IsSpace(s[|s| - 1]) }

  /** Among the ASCII characters the white space is tab, line feed, vertical tab, form feed, return, the four
      separators and the space. */
  lemma AsciiSpaces(c: char)
    requires c as int < 128
    ensures IsSpace(c) <==> c as int in {9, 10, 11, 12, 13, 28, 29, 30, 31, 32}
  {
  }

  /** Beyond ASCII it is that of the Unicode property White_Space: next line, the spaces, the two separators. */
  lemma WideSpaces(c: char)
    requires c as int >= 128
    ensures IsSpace(c) <==>
            || c == '\U{85}' || c == '\U{A0}' || c == '\U{1680}' || '\U{2000}' <= c <= '\U{200A}'
            || c == '\U{2028}' || c == '\U{2029}' || c == '\U{202F}' || c == '\U{205F}' || c == '\U{3000}'
  {
  }

  lemma {:induction false} SkipsTo(s: string, i: nat, j: nat)
    requires i <= j <= |s| && (forall k | i <= k < j :: IsSpace(s[k])) && (j < |s| ==> !IsSpace(s[j]))
    ensures SkipSpace(s, i) == j
    decreases j - i
  {
    if i < j {
      SkipsTo(s, i + 1, j);
    }
  }

  lemma {:induction false} SkipsWhite(a: string, rest: string)
    requires White(a) && (|rest| > 0 ==> !IsSpace(rest[0]))
    ensures SkipSpace(a + rest, 0) == |a|
  {
    SkipsTo(a + rest, 0, |a|);
  }

  lemma {:induction false} TrimsWhite(r: string, b: string)
    requires White(b) && (|r| > 0 ==> !IsSpace(r[|r| - 1]))
    ensures TrimRight(r + b) == r
    decreases |b|
  {
    if |b| == 0 {
      assert r + b == r;
    } else {
      assert (r + b)[..|r + b| - 1] == r + b[..|b| - 1];
      TrimsWhite(r, b[..|b| - 1]);
    }
  }

  /** `strip` takes the white space around a text, and nothing else. */
  lemma StripIs(a: string, r: string, b: string)
    requires White(a) && Trimmed(r) && White(b)
    ensures Strip(a + r + b) == r
  {
    if |r| == 0 {
      assert a + r + b == (a + b) + "";
      SkipsWhite(a + b, "");
    } else {
      assert a + r + b == a + (r + b);
      SkipsWhite(a, r + b);
      assert (a + (r + b))[|a|..] == r + b;
      TrimsWhite(r, b);
    }
  }

  predicate AllAre(s: string, c: char) { forall k | 0 <= k < |s| :: s[k] == c }

  lemma {:induction false} TrimsLeft(a: string, rest: string, c: char)
    requires AllAre(a, c) && (|rest| > 0 ==> rest[0] != c)
    ensures TrimCharLeft(a + rest, c) == rest
    decreases |a|
  {
    if |a| == 0 {
      assert a + rest == rest;
    } else {
      assert (a + rest)[1..] == a[1..] + rest;
      TrimsLeft(a[1..], rest, c);
    }
  }

  lemma {:induction false} TrimsRight(r: string, b: string, c: char)
    requires AllAre(b, c) && (|r| > 0 ==> r[|r| - 1] != c)
    ensures TrimCharRight(r + b, c) == r
    decreases |b|
  {
    if |b| == 0 {
      assert r + b == r;
    } else {
      assert (r + b)[..|r + b| - 1] == r + b[..|b| - 1];
      TrimsRight(r, b[..|b| - 1], c);
    }
  }

  /** `strip(c)` takes that character from both ends, and nothing else. */
  lemma StripCharIs(a: string, r: string, b: string, c: char)
    requires AllAre(a, c) && AllAre(b, c) && (|r| > 0 ==> r[0] != c && r[|r| - 1] != c)
    ensures StripChar(a + r + b, c) == r
  {
    if |r| == 0 {
      assert a + r + b == (a + b) + "";
      TrimsLeft(a + b, "", c);
      assert TrimCharRight("", c) == "";
    } else {
      assert a + r + b == a + (r + b);
      TrimsLeft(a, r + b, c);
      TrimsRight(r, b, c);
    }
  }

  // ---- a document into lines ----

  /** Lines, each ended by one of the three line ends, and a last one without. */
  function Ended(lines: seq<string>, ends: seq<string>): string
    requires |lines| == |ends| + 1
    decreases |ends|
  {
    if |ends| == 0 then lines[0] else lines[0] + (ends[0] + Ended(lines[1..], ends[1..]))
  }

  predicate IsLine(s: string) { '\n' !in s && '\r' !in s }

  /** A line end each, no return of which belongs to the line feed that follows. */
  predicate LineEnds(lines: seq<string>, ends: seq<string>)
    requires |lines| == |ends| + 1
  {
    && (forall k | 0 <= k < |ends| :: ends[k] == "\n" || ends[k] == "\r" || ends[k] == "\r\n")
    && (forall k | 0 <= k < |ends| - 1 :: ends[k] == "\r" && lines[k + 1] == "" ==> ends[k + 1] != "\n")
  }

  lemma {:induction false} ExpandsPlain(a: string, rest: string, column: nat)
    requires '\t' !in a && IsLine(a)
    ensures ExpandTabs(a + rest, column) == a + ExpandTabs(rest, column + |a|)
    decreases |a|
  {
    if |a| == 0 {
      assert a + rest == rest;
    } else {
      assert (a + rest)[1..] == a[1..] + rest && (a + rest)[0] == a[0];
      ExpandsPlain(a[1..], rest, column + 1);
      assert [a[0]] + a[1..] == a;
      Associate([a[0]], a[1..], ExpandTabs(rest, column + |a|));
    }
  }

  lemma TabAlone(b: string, column: nat) returns (gap: string)
    ensures 1 <= |gap| <= 4 && AllAre(gap, ' ') && (column + |gap|) % 4 == 0
    ensures ExpandTabs("\t" + b, column) == gap + ExpandTabs(b, column + |gap|)
  {
    gap := Spaces(4 - column % 4);
    assert ("\t" + b)[1..] == b;
  }

  /** A tab becomes spaces up to the next multiple of four, at least one. */
  lemma TabStop(a: string, b: string, column: nat) returns (gap: string)
    requires '\t' !in a && IsLine(a)
    ensures 1 <= |gap| <= 4 && AllAre(gap, ' ') && (column + |a| + |gap|) % 4 == 0
    ensures ExpandTabs(a + ("\t" + b), column) == a + (gap + ExpandTabs(b, column + |a| + |gap|))
  {
    hide ExpandTabs, AllAre, IsLine;
    ExpandsPlain(a, "\t" + b, column);
    gap := TabAlone(b, column + |a|);
  }

  lemma {:induction false} ExpandsLine(a: string, rest: string, column: nat)
    requires IsLine(a) && rest != "" && rest[0] == '\n'
    ensures ExpandTabs(a + rest, column) == ExpandTabs(a, column) + "\n" + ExpandTabs(rest[1..], 0)
    decreases |a|
  {
    if |a| == 0 {
      assert a + rest == rest;
    } else {
      assert (a + rest)[1..] == a[1..] + rest && (a + rest)[0] == a[0];
      if a[0] == '\t' {
        var n := TAB_WIDTH - column % TAB_WIDTH;
        ExpandsLine(a[1..], rest, column + n);
        Associate(Spaces(n), ExpandTabs(a[1..], column + n) + "\n", ExpandTabs(rest[1..], 0));
        Associate(Spaces(n), ExpandTabs(a[1..], column + n), "\n");
      } else {
        ExpandsLine(a[1..], rest, column + 1);
        Associate([a[0]], ExpandTabs(a[1..], column + 1) + "\n", ExpandTabs(rest[1..], 0));
        Associate([a[0]], ExpandTabs(a[1..], column + 1), "\n");
      }
    }
  }

  lemma {:induction false} NewlinesPlain(a: string, rest: string)
    requires '\r' !in a
    ensures Newlines(a + rest) == a + Newlines(rest)
    decreases |a|
  {
    if |a| == 0 {
      assert a + rest == rest;
    } else {
      assert (a + rest)[1..] == a[1..] + rest && (a + rest)[0] == a[0];
      NewlinesPlain(a[1..], rest);
      assert [a[0]] + a[1..] == a;
      Associate([a[0]], a[1..], Newlines(rest));
    }
  }

  lemma NewlinesEnd(end: string, rest: string)
    requires end == "\n" || end == "\r" || end == "\r\n"
    requires end == "\r" ==> rest == "" || rest[0] != '\n'
    ensures Newlines(end + rest) == "\n" + Newlines(rest)
  {
    assert (end + rest)[|end|..] == rest;
    if end == "\r\n" {
      assert (end + rest)[1] == '\n' && (end + rest)[2..] == rest;
    } else {
      assert (end + rest)[1..] == rest;
      assert end == "\r" && |end + rest| > 1 ==> (end + rest)[1] == rest[0];
    }
  }

  lemma {:induction false} SplitFirst(a: string, rest: string, sep: char)
    requires sep !in a
    ensures Split(a + ([sep] + rest), sep) == [a] + Split(rest, sep)
    decreases |a|
  {
    var s := a + ([sep] + rest);
    if |a| == 0 {
      assert s == [sep] + rest && s[1..] == rest;
    } else {
      assert s[0] == a[0] && s[1..] == a[1..] + ([sep] + rest);
      SplitFirst(a[1..], rest, sep);
      assert [a[0]] + a[1..] == a;
    }
  }

  lemma {:induction false} SplitOne(a: string, sep: char)
    requires sep !in a
    ensures Split(a, sep) == [a]
  {
    if |a| > 0 {
      SplitOne(a[1..], sep);
      assert [a[0]] + a[1..] == a;
    }
  }

  function ExpandAll(lines: seq<string>): (r: seq<string>)
    ensures |r| == |lines|
  {
    if |lines| == 0 then [] else [ExpandTabs(lines[0], 0)] + ExpandAll(lines[1..])
  }

  lemma {:induction false} ExpandKeepsLine(a: string, column: nat)
    requires IsLine(a)
    ensures IsLine(ExpandTabs(a, column))
    decreases |a|
  {
    if |a| > 0 {
      ExpandKeepsLine(a[1..], if a[0] == '\t' then column + TAB_WIDTH - column % TAB_WIDTH else column + 1);
    }
  }

  /** The text after its line ends have become line feeds. */
  function Fed(lines: seq<string>): string
    requires |lines| > 0
  {
    if |lines| == 1 then lines[0] else lines[0] + ("\n" + Fed(lines[1..]))
  }

  lemma LineEndsTail(lines: seq<string>, ends: seq<string>)
    requires |lines| == |ends| + 1 && |ends| > 0 && LineEnds(lines, ends)
    ensures LineEnds(lines[1..], ends[1..])
  {
    assert forall k | 0 <= k < |ends[1..]| :: ends[1..][k] == ends[k + 1];
    assert forall k | 0 <= k < |lines[1..]| :: lines[1..][k] == lines[k + 1];
  }

  lemma EndedFirst(lines: seq<string>, ends: seq<string>)
    requires |lines| == |ends| + 1 && |ends| > 0 && LineEnds(lines, ends)
    requires forall k | 0 <= k < |lines| :: IsLine(lines[k])
    ensures var rest := Ended(lines[1..], ends[1..]); ends[0] == "\r" ==> rest == "" || rest[0] != '\n'
  {
    if ends[0] == "\r" {
      var rest := Ended(lines[1..], ends[1..]);
      if lines[1] != "" {
        assert lines[1][0] in lines[1] && rest[0] == lines[1][0];
      } else if |ends| > 1 {
        assert rest == ends[1] + Ended(lines[1..][1..], ends[1..][1..]);
        assert rest[0] == ends[1][0];
      }
    }
  }

  lemma {:induction false} EndsBecomeFeeds(lines: seq<string>, ends: seq<string>)
    requires |lines| == |ends| + 1 && LineEnds(lines, ends)
    requires forall k | 0 <= k < |lines| :: IsLine(lines[k])
    ensures Newlines(Ended(lines, ends)) == Fed(lines)
    decreases |ends|
  {
    if |ends| == 0 {
      NewlinesPlain(lines[0], "");
      assert lines[0] + "" == lines[0] && lines[0] + Newlines("") == lines[0];
    } else {
      var rest := Ended(lines[1..], ends[1..]);
      LineEndsTail(lines, ends);
      EndsBecomeFeeds(lines[1..], ends[1..]);
      EndedFirst(lines, ends);
      NewlinesPlain(lines[0], ends[0] + rest);
      NewlinesEnd(ends[0], rest);
    }
  }

  lemma {:induction false} FedSplits(lines: seq<string>)
    requires |lines| > 0 && forall k | 0 <= k < |lines| :: IsLine(lines[k])
    ensures Split(ExpandTabs(Fed(lines), 0), '\n') == ExpandAll(lines)
    decreases |lines|
  {
    ExpandKeepsLine(lines[0], 0);
    if |lines| == 1 {
      SplitOne(ExpandTabs(lines[0], 0), '\n');
    } else {
      var rest := Fed(lines[1..]);
      FedSplits(lines[1..]);
      ExpandsLine(lines[0], "\n" + rest, 0);
      assert ("\n" + rest)[1..] == rest;
      SplitFirst(ExpandTabs(lines[0], 0), ExpandTabs(rest, 0), '\n');
      Associate(ExpandTabs(lines[0], 0), "\n", ExpandTabs(rest, 0));
    }
  }

  /** The lines of a document are what stands between its line ends - line feeds, returns, or both together - each
      with its tabs expanded from its own first column. */
  lemma LinesAre(lines: seq<string>, ends: seq<string>)
    requires |lines| == |ends| + 1 && LineEnds(lines, ends)
    requires forall k | 0 <= k < |lines| :: IsLine(lines[k])
    ensures Lines(Ended(lines, ends)) == ExpandAll(lines)
  {
    EndsBecomeFeeds(lines, ends);
    FedSplits(lines);
  }

  // ---- headings: ^(#{1,6})\s+(.+?)\s*#*\s*$ ----

  /** White space, any number of `#`, white space. */
  ghost predicate Trails(s: string) {
    exists i, j :: 0 <= i <= j <= |s| && White(s[..i]) && AllAre(s[i..j], '#') && White(s[j..])
  }

  lemma WhiteStretch(s: string, i: nat, j: nat)
    requires i <= j <= |s|
    ensures White(s[i..j]) <==> forall k | i <= k < j :: IsSpace(s[k])
  {
    assert forall k | i <= k < j :: s[i..j][k - i] == s[k];
    assert forall k | 0 <= k < j - i :: s[i..j][k] == s[i + k];
  }

  lemma AllStretch(s: string, i: nat, j: nat, c: char)
    requires i <= j <= |s|
    ensures AllAre(s[i..j], c) <==> forall k | i <= k < j :: s[k] == c
  {
    assert forall k | i <= k < j :: s[i..j][k - i] == s[k];
    assert forall k | 0 <= k < j - i :: s[i..j][k] == s[i + k];
  }

  lemma TrailerParts(line: string, e: nat, i: nat, j: nat)
    requires e <= i <= j <= |line|
    ensures White(line[e..][..i - e]) && AllAre(line[e..][i - e..j - e], '#') && White(line[e..][j - e..]) <==>
            && (forall k | e <= k < i :: IsSpace(line[k])) && (forall k | i <= k < j :: line[k] == '#')
            && (forall k | j <= k < |line| :: IsSpace(line[k]))
  {
    assert line[e..][..i - e] == line[e..i] && line[e..][i - e..j - e] == line[i..j];
    assert line[e..][j - e..] == line[j..|line|];
    WhiteStretch(line, e, i);
    AllStretch(line, i, j, '#');
    WhiteStretch(line, j, |line|);
  }

  lemma HashIsNoSpace()
    ensures !IsSpace('#')
  {
  }

  lemma SkipsToTrailer(line: string, e: nat, a: nat, b: nat)
    requires e <= a <= b <= |line| && (forall k | e <= k < a :: IsSpace(line[k]))
    requires (forall k | a <= k < b :: line[k] == '#') && (forall k | b <= k < |line| :: IsSpace(line[k]))
    ensures Trailer(line, e)
  {
    hide IsSpace;
    HashIsNoSpace();
    if a < b {
      SkipsTo(line, e, a);
      SkipTo(line, a, b, '#');
      SkipsTo(line, b, |line|);
    } else {
      SkipsTo(line, e, |line|);
    }
  }

  lemma TrailerIs(line: string, e: nat)
    requires e <= |line|
    ensures Trailer(line, e) <==> Trails(line[e..])
  {
    hide IsSpace, White, AllAre;
    HashIsNoSpace();
    var i := SkipSpace(line, e);
    var j := SkipChar(line, i, '#');
    TrailerParts(line, e, i, j);
    if Trailer(line, e) {
      assert White(line[e..][..i - e]) && AllAre(line[e..][i - e..j - e], '#') && White(line[e..][j - e..]);
    }
    if Trails(line[e..]) {
      var a: nat, b: nat :| a <= b <= |line[e..]| && White(line[e..][..a]) && AllAre(line[e..][a..b], '#')
                            && White(line[e..][b..]);
      TrailerParts(line, e, e + a, e + b);
      SkipsToTrailer(line, e, e + a, e + b);
    }
  }

  /** The pattern on a line: as many `#` as there are, at most six; all the white space that leaves a character for
      the title; the shortest title after which only a trailer is left. */
  ghost predicate IsTitle(line: string, level: nat, raw: string) {
    exists b: nat ::
      && 1 <= level <= 6 && level < b < |line| && AllAre(line[..level], '#') && White(line[level..b])
      && (b + 1 < |line| ==> !IsSpace(line[b]))
      && |raw| > 0 && b + |raw| <= |line| && line[b..b + |raw|] == raw
      && Trails(line[b + |raw|..]) && forall k | b < k < b + |raw| :: !Trails(line[k..])
  }

  lemma TrailsAtEnd(line: string)
    ensures Trails(line[|line|..])
  {
    var s := line[|line|..];
    assert White(s[..0]) && AllAre(s[0..0], '#') && White(s[0..]);
  }

  lemma TitleEndIs(line: string, e: nat, r: nat)
    requires e <= r <= |line| && Trails(line[r..]) && forall k | e <= k < r :: !Trails(line[k..])
    ensures TitleEnd(line, e) == r
  {
    hide Trails, Trailer;
    forall k | e <= k <= r ensures Trailer(line, k) <==> Trails(line[k..]) {
      TrailerIs(line, k);
    }
  }

  lemma TitleFound(line: string, level: nat, raw: string, b: nat)
    requires 1 <= level <= 6 && level < b < |line| && AllAre(line[..level], '#') && White(line[level..b])
    requires b + 1 < |line| ==> !IsSpace(line[b])
    requires |raw| > 0 && b + |raw| <= |line| && line[b..b + |raw|] == raw
    requires Trails(line[b + |raw|..]) && forall k | b < k < b + |raw| :: !Trails(line[k..])
    ensures TitleOf(line) == Some(Title(level, raw))
  {
    hide Trails, IsSpace, White, AllAre, SkipChar, SkipSpace, TitleEnd;
    HashIsNoSpace();
    AllStretch(line, 0, level, '#');
    WhiteStretch(line, level, b);
    assert line[..level] == line[0..level];
    SkipTo(line, 0, level, '#');
    if IsSpace(line[b]) {
      SkipsTo(line, level, |line|);
      assert line[b..] == raw;
    } else {
      SkipsTo(line, level, b);
      TitleEndIs(line, b + 1, b + |raw|);
    }
  }

  /** A line is a title exactly when the pattern fits, and the title is what the pattern takes. */
  lemma TitleIff(line: string, level: nat, raw: string)
    ensures TitleOf(line) == Some(Title(level, raw)) <==> IsTitle(line, level, raw)
  {
    hide Trails, IsSpace, White, AllAre, SkipChar, SkipSpace, TitleEnd, Trailer;
    if IsTitle(line, level, raw) {
      var b: nat :|
        && 1 <= level <= 6 && level < b < |line| && AllAre(line[..level], '#') && White(line[level..b])
        && (b + 1 < |line| ==> !IsSpace(line[b]))
        && |raw| > 0 && b + |raw| <= |line| && line[b..b + |raw|] == raw
        && Trails(line[b + |raw|..]) && forall k | b < k < b + |raw| :: !Trails(line[k..]);
      TitleFound(line, level, raw, b);
    }
    if TitleOf(line) == Some(Title(level, raw)) {
      var b := SkipSpace(line, level);
      AllStretch(line, 0, level, '#');
      assert line[..level] == line[0..level];
      if b < |line| {
        WhiteStretch(line, level, b);
        forall k | b < k <= b + |raw| ensures Trailer(line, k) <==> Trails(line[k..]) {
          TrailerIs(line, k);
        }
      } else {
        WhiteStretch(line, level, b - 1);
        TrailsAtEnd(line);
        assert line[b - 1..b - 1 + |raw|] == raw;
      }
    }
  }

  // ---- fences: ^```\s*([A-Za-z0-9_+.-]*)\s*$ ----

  predicate IsLanguage(s: string) {
    forall k | 0 <= k < |s| ::
      'A' <= s[k] <= 'Z' || 'a' <= s[k] <= 'z' || '0' <= s[k] <= '9' || s[k] in "_+.-"
  }

  ghost predicate FencePieces(line: string, language: string, a: nat, b: nat)
    requires 3 <= a <= b <= |line|
  {
    line[..3] == "```" && White(line[3..a]) && line[a..b] == language && IsLanguage(language) && White(line[b..])
  }

  ghost predicate IsFence(line: string, language: string) {
    exists a: nat, b: nat :: 3 <= a <= b <= |line| && FencePieces(line, language, a, b)
  }

  lemma {:induction false} SkipsLanguage(s: string, i: nat, j: nat)
    requires i <= j <= |s| && (forall k | i <= k < j :: LanguageChar(s[k])) && (j < |s| ==> !LanguageChar(s[j]))
    ensures SkipLanguage(s, i) == j
    decreases j - i
  {
    if i < j {
      SkipsLanguage(s, i + 1, j);
    }
  }

  lemma LanguageIsNoSpace(c: char)
    ensures !(LanguageChar(c) && IsSpace(c))
  {
  }

  lemma LanguageStretch(s: string, i: nat, j: nat)
    requires i <= j <= |s|
    ensures IsLanguage(s[i..j]) <==> forall k | i <= k < j :: LanguageChar(s[k])
  {
    assert forall k | i <= k < j :: s[i..j][k - i] == s[k];
    assert forall k | 0 <= k < j - i :: s[i..j][k] == s[i + k];
  }

  lemma FenceFound(line: string, a: nat, b: nat)
    requires 3 <= a <= b <= |line| && line[..3] == "```" && (forall k | 3 <= k < a :: IsSpace(line[k]))
    requires (forall k | a <= k < b :: LanguageChar(line[k])) && (forall k | b <= k < |line| :: IsSpace(line[k]))
    ensures FenceOf(line) == Some(line[a..b])
  {
    hide IsSpace, LanguageChar;
    forall c ensures !(LanguageChar(c) && IsSpace(c)) {
      LanguageIsNoSpace(c);
    }
    if a == b {
      SkipsTo(line, 3, |line|);
      SkipsLanguage(line, |line|, |line|);
      SkipsTo(line, |line|, |line|);
      assert line[|line|..|line|] == line[a..b];
    } else {
      SkipsTo(line, 3, a);
      SkipsLanguage(line, a, b);
      SkipsTo(line, b, |line|);
    }
  }

  /** A line is a fence exactly when the pattern fits, with the language the pattern takes. */
  lemma FenceIff(line: string, language: string)
    ensures FenceOf(line) == Some(language) <==> IsFence(line, language)
  {
    hide IsSpace, White, IsLanguage, LanguageChar;
    if IsFence(line, language) {
      var a: nat, b: nat :| 3 <= a <= b <= |line| && FencePieces(line, language, a, b);
      WhiteStretch(line, 3, a);
      LanguageStretch(line, a, b);
      assert line[b..] == line[b..|line|];
      WhiteStretch(line, b, |line|);
      FenceFound(line, a, b);
    }
    if FenceOf(line) == Some(language) {
      var a := SkipSpace(line, 3);
      var b := SkipLanguage(line, a);
      WhiteStretch(line, 3, a);
      LanguageStretch(line, a, b);
      assert line[b..] == line[b..|line|];
      WhiteStretch(line, b, |line|);
      assert FencePieces(line, language, a, b);
    }
  }

  // ---- rules: ^(?:-{3,}|\*{3,}|_{3,})$ ----

  lemma RuleIff(s: string)
    ensures IsRule(s) <==> |s| >= 3 && (AllAre(s, '-') || AllAre(s, '*') || AllAre(s, '_'))
  {
  }

  // ---- quotes: ^>\s?(.*)$ ----

  /** One white space after the sign is not part of what is quoted. */
  lemma QuoteIs(inner: string, space: char)
    requires IsSpace(space)
    ensures IsQuote(">" + [space] + inner) && QuoteText(">" + [space] + inner) == inner
    ensures IsQuote(">" + inner) && (inner == "" || !IsSpace(inner[0]) ==> QuoteText(">" + inner) == inner)
  {
    assert (">" + [space] + inner)[2..] == inner;
    assert (">" + inner)[1..] == inner;
    assert inner != "" ==> (">" + inner)[1] == inner[0];
  }

  lemma QuoteOnly(line: string)
    ensures IsQuote(line) <==> exists inner :: line == ">" + inner
  {
    if IsQuote(line) {
      assert line == ">" + line[1..];
    }
  }

  // ---- list items: ^(\s*)[-*+]\s+(.*)$ and ^(\s*)\d+[.)]\s+(.*)$ ----

  /** White space, a bullet at `i`, white space, and the text, which takes none of it. */
  ghost predicate IsBullet(line: string, i: nat, text: string) {
    && i + 1 < |line| && White(line[..i]) && line[i] in "-*+" && IsSpace(line[i + 1])
    && exists b: nat :: i + 1 < b <= |line| && White(line[i + 1..b]) && line[b..] == text
                        && (text == "" || !IsSpace(text[0]))
  }

  lemma BulletIsNoSpace()
    ensures !IsSpace('-') && !IsSpace('*') && !IsSpace('+')
  {
  }

  lemma BulletIff(line: string, i: nat, text: string)
    ensures BulletOf(line) == Some(Item(i, text)) <==> IsBullet(line, i, text)
  {
    hide IsSpace, White, SkipSpace;
    BulletIsNoSpace();
    if IsBullet(line, i, text) {
      var b: nat :| i + 1 < b <= |line| && White(line[i + 1..b]) && line[b..] == text
                    && (text == "" || !IsSpace(text[0]));
      assert line[..i] == line[0..i];
      WhiteStretch(line, 0, i);
      SkipsTo(line, 0, i);
      WhiteStretch(line, i + 1, b);
      assert b < |line| ==> line[b] == text[0];
      SkipsTo(line, i + 1, b);
    }
    if BulletOf(line) == Some(Item(i, text)) {
      var b := SkipSpace(line, i + 1);
      assert line[..i] == line[0..i];
      WhiteStretch(line, 0, i);
      WhiteStretch(line, i + 1, b);
      assert b < |line| ==> line[b] == text[0];
      assert i + 1 < b;
    }
  }

  /** No digit is white space or one of the two signs that follow a number. */
  ghost predicate Digits(env: Env) {
    !env.digit('.') && !env.digit(')') && forall c :: env.digit(c) ==> !IsSpace(c)
  }

  lemma {:induction false} SkipsDigits(env: Env, s: string, i: nat, j: nat)
    requires i <= j <= |s| && (forall k | i <= k < j :: env.digit(s[k])) && (j < |s| ==> !env.digit(s[j]))
    ensures SkipDigits(env, s, i) == j
    decreases j - i
  {
    if i < j {
      SkipsDigits(env, s, i + 1, j);
    }
  }

  /** White space, the digits from `i` to `d`, the sign, white space, and the text. */
  ghost predicate NumberPieces(env: Env, line: string, i: nat, d: nat, b: nat, text: string) {
    && i < d && d + 1 < b <= |line| && White(line[..i]) && (forall k | i <= k < d :: env.digit(line[k]))
    && line[d] in ".)" && White(line[d + 1..b]) && line[b..] == text && (text == "" || !IsSpace(text[0]))
  }

  ghost predicate IsNumbered(env: Env, line: string, i: nat, text: string) {
    exists d: nat, b: nat :: NumberPieces(env, line, i, d, b, text)
  }

  lemma NumberedFound(env: Env, line: string, i: nat, d: nat, b: nat, text: string)
    requires Digits(env) && NumberPieces(env, line, i, d, b, text)
    ensures NumberedOf(env, line) == Some(Item(i, text))
  {
    hide IsSpace, White, SkipSpace, SkipDigits;
    assert line[..i] == line[0..i];
    WhiteStretch(line, 0, i);
    SkipsTo(line, 0, i);
    SkipsDigits(env, line, i, d);
    WhiteStretch(line, d + 1, b);
    assert b < |line| ==> line[b] == text[0];
    SkipsTo(line, d + 1, b);
  }

  lemma NumberedStands(env: Env, line: string, i: nat, text: string)
    requires Digits(env) && NumberedOf(env, line) == Some(Item(i, text))
    ensures IsNumbered(env, line, i, text)
  {
    hide IsSpace, White, SkipSpace, SkipDigits;
    var d := SkipDigits(env, line, i);
    var b := SkipSpace(line, d + 1);
    assert line[..i] == line[0..i];
    WhiteStretch(line, 0, i);
    WhiteStretch(line, d + 1, b);
    assert b < |line| ==> line[b] == text[0];
    assert NumberPieces(env, line, i, d, b, text);
  }

  lemma NumberedIff(env: Env, line: string, i: nat, text: string)
    requires Digits(env)
    ensures NumberedOf(env, line) == Some(Item(i, text)) <==> IsNumbered(env, line, i, text)
  {
    hide NumberedOf, NumberPieces, Digits;
    if IsNumbered(env, line, i, text) {
      var d: nat, b: nat :| NumberPieces(env, line, i, d, b, text);
      NumberedFound(env, line, i, d, b, text);
    }
    if NumberedOf(env, line) == Some(Item(i, text)) {
      NumberedStands(env, line, i, text);
    }
  }

  // ---- table dividers: ^:?-{2,}:?$ ----

  lemma DividerCellIff(cell: string)
    ensures IsDividerCell(cell) <==>
            exists a: nat, z: nat ::
              && a + 2 <= z <= |cell| && (cell[..a] == "" || cell[..a] == ":") && AllAre(cell[a..z], '-')
              && (cell[z..] == "" || cell[z..] == ":")
  {
    if IsDividerCell(cell) {
      var a := if |cell| > 0 && cell[0] == ':' then 1 else 0;
      var z := if |cell| > a && cell[|cell| - 1] == ':' then |cell| - 1 else |cell|;
      AllStretch(cell, a, z, '-');
      assert cell[..a] == if a == 0 then "" else ":";
      assert cell[z..] == if z == |cell| then "" else ":";
    }
    if a: nat, z: nat :| && a + 2 <= z <= |cell| && (cell[..a] == "" || cell[..a] == ":")
                         && AllAre(cell[a..z], '-') && (cell[z..] == "" || cell[z..] == ":") {
      AllStretch(cell, a, z, '-');
      assert a > 0 ==> cell[0] == cell[..a][0];
      assert z < |cell| ==> cell[z] == cell[z..][0];
      assert |cell[..a]| == a && |cell[z..]| == |cell| - z;
    }
  }

  lemma StyleAttributes()
    ensures Attribute("style", "text-align:center") == " style=\"text-align:center\""
    ensures Attribute("style", "text-align:right") == " style=\"text-align:right\""
  {
    assert " " + "style" + "=\"" == " style=\"";
  }

  /** What the colons of a divider cell say about its column. */
  lemma StyleIs(left: bool, dashes: string, right: bool)
    requires |dashes| >= 2 && AllAre(dashes, '-')
    ensures Style((if left then ":" else "") + dashes + (if right then ":" else ""))
            == if left && right then " style=\"text-align:center\""
               else if right then " style=\"text-align:right\"" else ""
  {
    hide Attribute;
    var cell := (if left then ":" else "") + dashes + (if right then ":" else "");
    assert cell[0] == (if left then ':' else '-') && cell[|cell| - 1] == (if right then ':' else '-');
    StyleAttributes();
  }

  lemma {:induction false} StripAllAre(cells: seq<string>)
    ensures |StripAll(cells)| == |cells| && forall k | 0 <= k < |cells| :: StripAll(cells)[k] == Strip(cells[k])
  {
    if |cells| > 0 {
      StripAllAre(cells[1..]);
    }
  }

  lemma {:induction false} SplitOfJoin(cells: seq<string>, sep: char)
    requires |cells| > 0 && forall k | 0 <= k < |cells| :: sep !in cells[k]
    ensures Split(Join(cells, [sep]), sep) == cells
    decreases |cells|
  {
    if |cells| == 1 {
      SplitOne(cells[0], sep);
    } else {
      SplitOfJoin(cells[1..], sep);
      SplitFirst(cells[0], Join(cells[1..], [sep]), sep);
      Associate(cells[0], [sep], Join(cells[1..], [sep]));
    }
  }

  /** The cells of a row are what stands between its bars, stripped; bars at its ends count for nothing. */
  lemma RowIs(a: string, bars: string, cells: seq<string>, bars': string, b: string)
    requires White(a) && White(b) && AllAre(bars, '|') && AllAre(bars', '|')
    requires |cells| > 0 && forall k | 0 <= k < |cells| :: '|' !in cells[k]
    requires var row := Join(cells, "|");
             |row| > 0 && row[0] != '|' && row[|row| - 1] != '|' && Trimmed(bars + row + bars')
    ensures SplitRow(a + (bars + Join(cells, "|") + bars') + b) == StripAll(cells)
  {
    hide White, Trimmed, AllAre, StripAll;
    var row := Join(cells, "|");
    StripIs(a, bars + row + bars', b);
    StripCharIs(bars, row, bars', '|');
    SplitOfJoin(cells, '|');
  }
}
