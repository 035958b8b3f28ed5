/** Nothing is lost: of the characters of a document (gateway/shared/markdown.py) a reader sees all but white
    space, the marks of the markup, link targets, the language of a fence and what follows its closing mark, and
    the numbers of list items. */
module PageLosses {
  import opened Common
  import opened Html
  import opened Inline
  import opened Patterns
  import opened Text
  import opened Reading
  import opened ReadingBlocks
  import opened Blocks
  import opened PageReading
  import opened PageSource

  /** The characters the markup is made of. */
  const MARKS: set<char> := {'`', '*', '_', '[', ']', '(', ')', '<', '>', '#', '|', '-', '+', '.', ':'}

  predicate Letter(c: char) { !IsSpace(c) && c !in MARKS }

  function Count(s: string, c: char): nat {
    if |s| == 0 then 0 else (if s[0] == c then 1 else 0) + Count(s[1..], c)
  }

  // ---- what is hidden ----

  /** The link targets of a stretch of inline markup. */
  function HiddenFrom(env: Env, s: string, i: nat): string
    requires i <= |s|
    decreases |s|, |s| - i
  {
    if i == |s| then ""
    else
      match MatchAt(env, s, i)
      case None => HiddenFrom(env, s, i + 1)
      case Some(m) =>
        MatchSpans(env, s, i);
        HiddenOf(env, m) + HiddenFrom(env, s, m.end)
  }

  function HiddenOf(env: Env, m: Match): string
    decreases |Source(m)|, 0
  {
    match m
    case Code(_, _, _) => ""
    case Link(text, href, _) => HiddenFrom(env, text, 0) + href
    case Autolink(_, _) => ""
    case Strong(body, _) => HiddenFrom(env, body, 0)
    case Emphasis(_, body, _) => HiddenFrom(env, body, 0)
  }

  function HiddenCells(env: Env, cells: seq<string>): string {
    if |cells| == 0 then "" else HiddenFrom(env, cells[0], 0) + HiddenCells(env, cells[1..])
  }

  function HiddenRows(env: Env, rows: seq<string>): string {
    if |rows| == 0 then "" else HiddenRows(env, rows[..|rows| - 1]) + HiddenCells(env, SplitRow(rows[|rows| - 1]))
  }

  /** The number of a list item, and the targets in its text. */
  function HiddenItem(env: Env, line: string): string
    requires ItemOf(env, line).Some?
  {
    var i := SkipSpace(line, 0);
    (if BulletOf(line).Some? then "" else line[i..SkipDigits(env, line, i)])
    + HiddenFrom(env, ItemOf(env, line).value.text, 0)
  }

  /** What the lines [i, next) of a list hide. */
  function HiddenLines(env: Env, lines: seq<string>, i: nat, next: nat): string
    requires i <= next <= |lines|
    decreases next - i
  {
    if i == next then ""
    else
      (if Blank(lines[i]) then ""
       else if ItemOf(env, lines[i]).Some? then HiddenItem(env, lines[i])
       else HiddenFrom(env, Strip(lines[i]), 0))
      + HiddenLines(env, lines, i + 1, next)
  }

  function HiddenFence(lines: seq<string>, i: nat): string
    requires i < |lines| && FenceOf(lines[i]).Some?
  {
    var j := FenceEnd(lines, i + 1);
    FenceOf(lines[i]).value + if j < |lines| then lines[j][3..] else ""
  }

  function HiddenPlain(env: Env, lines: seq<string>, i: nat): string
    requires i < |lines| && !Blank(lines[i]) && !IsHeading(lines[i])
    decreases Weight(lines), |lines| - i, 0
  {
    var line := lines[i];
    if FenceOf(line).Some? then HiddenFence(lines, i)
    else if IsRule(Strip(line)) then ""
    else if IsQuote(line) then
      QuoteIsLighter(lines, i);
      HiddenPage(env, Quoted(lines[i..]), 0)
    else if AtTable(lines, i) then
      HiddenCells(env, SplitRow(line)) + HiddenRows(env, lines[i + 2..TableEnd(lines, i + 2)])
    else if ItemOf(env, line).Some? then HiddenLines(env, lines, i, ListAt(env, lines, i).1)
    else HiddenFrom(env, Join(StripAll(lines[i..ParagraphEnd(env, lines, i + 1)]), "\n"), 0)
  }

  function HiddenAt(env: Env, lines: seq<string>, i: nat): string
    requires i < |lines| && !Blank(lines[i])
    decreases Weight(lines), |lines| - i, 1
  {
    if IsHeading(lines[i]) then HiddenFrom(env, TitleOf(lines[i]).value.raw, 0) else HiddenPlain(env, lines, i)
  }

  /** Link targets, fence languages, closing fences and list numbers from line `i` on. */
  function HiddenPage(env: Env, lines: seq<string>, i: nat): string
    decreases Weight(lines), if i <= |lines| then |lines| - i else 0, 2
  {
    if i >= |lines| then ""
    else if Blank(lines[i]) then HiddenPage(env, lines, i + 1)
    else HiddenAt(env, lines, i) + HiddenPage(env, lines, NextAt(env, lines, i))
  }

  // ---- counting ----

  lemma {:induction false} CountBoth(a: string, b: string, c: char)
    ensures Count(a + b, c) == Count(a, c) + Count(b, c)
  {
    if |a| == 0 {
      assert a + b == b;
    } else {
      assert (a + b)[1..] == a[1..] + b;
      CountBoth(a[1..], b, c);
    }
  }

  lemma {:induction false} CountNone(s: string, c: char)
    requires c !in s
    ensures Count(s, c) == 0
  {
    if |s| > 0 {
      CountNone(s[1..], c);
    }
  }

  lemma CountCut(s: string, i: nat, j: nat, c: char)
    requires i <= j <= |s|
    ensures Count(s, c) == Count(s[..i], c) + Count(s[i..j], c) + Count(s[j..], c)
  {
    CountBoth(s[..i], s[i..j], c);
    CountBoth(s[..j], s[j..], c);
    assert s[..i] + s[i..j] == s[..j] && s[..j] + s[j..] == s;
  }

  /** Only what stands between i and j counts. */
  lemma CountMiddle(s: string, i: nat, j: nat, c: char)
    requires i <= j <= |s|
    requires forall k | 0 <= k < i || j <= k < |s| :: s[k] != c
    ensures Count(s, c) == Count(s[i..j], c)
  {
    CountCut(s, i, j, c);
    CountNone(s[..i], c);
    CountNone(s[j..], c);
  }

  lemma {:induction false} TrimmedEnd(s: string, n: nat)
    requires n == |s|
    ensures forall k | |TrimRight(s)| <= k < |s| :: IsSpace(s[k])
  {
    if |s| > 0 && IsSpace(s[|s| - 1]) {
      TrimmedEnd(s[..|s| - 1], n - 1);
      assert forall k | 0 <= k < |s| - 1 :: s[..|s| - 1][k] == s[k];
    }
  }

  lemma CountStrip(s: string, c: char)
    requires Letter(c)
    ensures Count(Strip(s), c) == Count(s, c)
  {
    var n := SkipSpace(s, 0);
    TrimmedEnd(s[n..], |s[n..]|);
    var r := Strip(s);
    assert r == s[n..n + |r|];
    assert forall k | n + |r| <= k < |s| :: IsSpace(s[k]) by {
      assert forall k | n + |r| <= k < |s| :: s[k] == s[n..][k - n];
    }
    CountMiddle(s, n, n + |r|, c);
  }

  lemma {:induction false} CountAll(texts: seq<string>, c: char)
    requires Letter(c)
    ensures Count(Join(texts, "\n"), c) == Count(Flat(texts), c)
  {
    if |texts| == 1 {
      FlatOne(texts[0]);
      assert texts == [texts[0]];
    } else if |texts| > 1 {
      CountNone("\n", c);
      CountAll(texts[1..], c);
      CountBoth(texts[0] + "\n", Join(texts[1..], "\n"), c);
      CountBoth(texts[0], "\n", c);
      CountBoth(texts[0], Flat(texts[1..]), c);
    }
  }

  lemma FramedCount(text: string, c: char)
    requires Letter(c)
    ensures Count(Framed(text), c) == Count(text, c)
  {
    CountNone("\n", c);
    CountBoth("\n", text, c);
    CountBoth("\n" + text, "\n", c);
  }

  lemma CountFramed(texts: seq<string>, c: char)
    requires Letter(c)
    ensures Count(Framed(Join(texts, "\n")), c) == Count(Flat(texts), c)
  {
    CountAll(texts, c);
    FramedCount(Join(texts, "\n"), c);
  }

  lemma {:induction false} CountStripped(cells: seq<string>, c: char)
    requires Letter(c)
    ensures Count(Flat(StripAll(cells)), c) == Count(Flat(cells), c)
  {
    if |cells| > 0 {
      CountStrip(cells[0], c);
      CountStripped(cells[1..], c);
      assert StripAll(cells)[1..] == StripAll(cells[1..]);
      CountBoth(Strip(cells[0]), Flat(StripAll(cells[1..])), c);
      CountBoth(cells[0], Flat(cells[1..]), c);
    }
  }

  lemma CountLines(a: seq<string>, b: seq<string>, c: char)
    ensures Count(Flat(a + b), c) == Count(Flat(a), c) + Count(Flat(b), c)
  {
    FlatBoth(a, b);
    CountBoth(Flat(a), Flat(b), c);
  }

  // ---- inline ----

  /** All letters of the source are shown or hidden. */
  ghost predicate Kept(source: string, shown: string, hidden: string, c: char) {
    Count(source, c) == Count(shown, c) + Count(hidden, c)
  }

  lemma KeptBoth(s: string, x: string, h: string, s': string, x': string, h': string, c: char)
    requires Kept(s, x, h, c) && Kept(s', x', h', c)
    ensures Kept(s + s', x + x', h + h', c)
  {
    CountBoth(s, s', c);
    CountBoth(x, x', c);
    CountBoth(h, h', c);
  }

  lemma KeptAround(mark: string, s: string, close: string, x: string, h: string, c: char)
    requires Kept(s, x, h, c) && c !in mark && c !in close
    ensures Kept(mark + s + close, x, h, c)
  {
    CountNone(mark, c);
    CountNone(close, c);
    CountBoth(mark, s, c);
    CountBoth(mark + s, close, c);
  }

  lemma StripKept(s: string, c: char)
    requires Letter(c)
    ensures Kept(s, Strip(s), "", c)
  {
    CountStrip(s, c);
  }

  lemma LinkKept(text: string, href: string, x: string, h: string, c: char)
    requires Kept(text, x, h, c) && Letter(c)
    ensures Kept("[" + text + "](" + href + ")", x, h + href, c)
  {
    CountBoth(h, href, c);
    CountBoth(text + "](", href, c);
    CountBoth(text, "](", c);
    CountNone("](", c);
    KeptAround("[", text + "](" + href, ")", x, h + href, c);
    Associate4("[", text, "](", href);
    assert "[" + (text + "](" + href) + ")" == "[" + text + "](" + href + ")";
  }

  lemma ItselfKept(s: string, c: char)
    ensures Kept(s, s, "", c)
  {
  }

  lemma {:induction false} MatchKeeps(env: Env, m: Match, c: char)
    requires Letter(c) && (m.Emphasis? ==> m.mark in MARKS)
    ensures Kept(Source(m), Reading.TextOf(env, m), HiddenOf(env, m), c)
    decreases |Source(m)|, 0
  {
    hide Kept, Count, Strip;
    match m
    case Code(ticks, code, _) =>
      StripKept(code, c);
      KeptAround(Ticks(ticks), code, Ticks(ticks), Strip(code), "", c);
    case Link(text, href, _) =>
      WholeKept(env, text, c);
      LinkKept(text, href, TextFrom(env, text, 0), HiddenFrom(env, text, 0), c);
    case Autolink(url, _) =>
      ItselfKept(url, c);
      KeptAround("<", url, ">", url, "", c);
    case Strong(body, _) =>
      WholeKept(env, body, c);
      KeptAround("**", body, "**", TextFrom(env, body, 0), HiddenFrom(env, body, 0), c);
    case Emphasis(mark, body, _) =>
      WholeKept(env, body, c);
      KeptAround([mark], body, [mark], TextFrom(env, body, 0), HiddenFrom(env, body, 0), c);
  }

  lemma EmphasisMarks(env: Env, s: string, i: nat)
    requires i <= |s| && MatchAt(env, s, i).Some?
    ensures MatchAt(env, s, i).value.Emphasis? ==> MatchAt(env, s, i).value.mark in MARKS
  {
    if CodeAt(s, i, TickRun(s, i)).Some? { CodeSpans(s, i, TickRun(s, i)); }
  }

  lemma NothingKept(s: string, c: char)
    requires s == ""
    ensures Kept(s, "", "", c)
  {
  }

  lemma {:induction false} InlineKeeps(env: Env, s: string, i: nat, c: char)
    requires i <= |s| && Letter(c)
    ensures Kept(s[i..], TextFrom(env, s, i), HiddenFrom(env, s, i), c)
    decreases |s|, |s| - i, 1
  {
    hide Count, Letter, Kept, Source, MatchAt;
    if i == |s| {
      NothingKept(s[i..], c);
    } else {
      match MatchAt(env, s, i)
      case None =>
        InlineKeeps(env, s, i + 1, c);
        ItselfKept([s[i]], c);
        KeptBoth([s[i]], [s[i]], "", s[i + 1..], TextFrom(env, s, i + 1), HiddenFrom(env, s, i + 1), c);
        assert [s[i]] + s[i + 1..] == s[i..] && "" + HiddenFrom(env, s, i + 1) == HiddenFrom(env, s, i + 1);
      case Some(m) =>
        MatchSpans(env, s, i);
        EmphasisMarks(env, s, i);
        MatchKeeps(env, m, c);
        InlineKeeps(env, s, m.end, c);
        KeptBoth(Source(m), Reading.TextOf(env, m), HiddenOf(env, m), s[m.end..], TextFrom(env, s, m.end),
                 HiddenFrom(env, s, m.end), c);
        assert s[i..m.end] + s[m.end..] == s[i..];
    }
  }

  lemma {:induction false} WholeKept(env: Env, s: string, c: char)
    requires Letter(c)
    ensures Kept(s, TextFrom(env, s, 0), HiddenFrom(env, s, 0), c)
    decreases |s|, |s|, 2
  {
    InlineKeeps(env, s, 0, c);
    Whole(s);
  }

  // ---- block by block ----

  /** A text and what is hidden beside it have all the letters of the lines. */
  ghost predicate KeptOf(lines: seq<string>, shown: string, hidden: string, c: char) {
    Kept(Flat(lines), shown, hidden, c)
  }

  lemma KeptOfBoth(x: seq<string>, a: string, h: string, y: seq<string>, b: string, g: string, c: char)
    requires KeptOf(x, a, h, c) && KeptOf(y, b, g, c)
    ensures KeptOf(x + y, a + b, h + g, c)
  {
    FlatBoth(x, y);
    KeptBoth(Flat(x), a, h, Flat(y), b, g, c);
  }

  lemma KeptLine(line: string, source: string, shown: string, hidden: string, c: char)
    requires Kept(source, shown, hidden, c) && Count(line, c) == Count(source, c)
    ensures KeptOf([line], shown, hidden, c)
  {
    FlatOne(line);
  }

  lemma EmptyKept(line: string, c: char)
    requires Count(line, c) == 0
    ensures KeptOf([line], "", "", c)
  {
    FlatOne(line);
  }

  lemma BlankKept(line: string, c: char)
    requires Blank(line) && Letter(c)
    ensures KeptOf([line], "", "", c)
  {
    CountNone(line, c);
    EmptyKept(line, c);
  }

  lemma TrailerHasNoLetters(line: string, e: nat, c: char)
    requires e <= |line| && Trailer(line, e) && Letter(c)
    ensures forall k | e <= k < |line| :: line[k] != c
  {
    var h := SkipSpace(line, e);
    var t := SkipChar(line, h, '#');
    assert SkipSpace(line, t) == |line|;
  }

  lemma TitleLine(line: string, c: char)
    requires TitleOf(line).Some? && Letter(c)
    ensures Count(line, c) == Count(TitleOf(line).value.raw, c)
  {
    hide Trailer, Count;
    var level := SkipChar(line, 0, '#');
    var b := SkipSpace(line, level);
    if b < |line| {
      TrailerHasNoLetters(line, TitleEnd(line, b + 1), c);
      CountMiddle(line, b, TitleEnd(line, b + 1), c);
    } else {
      CountMiddle(line, b - 1, |line|, c);
      assert line[b - 1..|line|] == line[b - 1..];
    }
  }

  lemma FenceLine(line: string, c: char)
    requires FenceOf(line).Some? && Letter(c)
    ensures Count(line, c) == Count(FenceOf(line).value, c)
  {
    var b := SkipSpace(line, 3);
    var e := SkipLanguage(line, b);
    assert line[0] == line[..3][0] && line[1] == line[..3][1] && line[2] == line[..3][2];
    CountMiddle(line, b, e, c);
  }

  /** White space, a number, a mark, white space and the text. */
  lemma NumberLine(line: string, i: nat, d: nat, b: nat, c: char)
    requires i <= d < b <= |line| && Letter(c)
    requires forall k | 0 <= k < i || d <= k < b :: line[k] != c
    ensures Count(line, c) == Count(line[i..d], c) + Count(line[b..], c)
  {
    hide Letter;
    CountCut(line, i, d, c);
    CountNone(line[..i], c);
    CountMiddle(line[d..], b - d, |line| - d, c);
    assert line[d..][b - d..|line| - d] == line[b..];
  }

  lemma ItemLine(env: Env, line: string, c: char)
    requires ItemOf(env, line).Some? && Letter(c)
    ensures KeptOf([line], TextFrom(env, ItemOf(env, line).value.text, 0), HiddenItem(env, line), c)
  {
    hide TextFrom, HiddenFrom, Count;
    var i, text := SkipSpace(line, 0), ItemOf(env, line).value.text;
    var hidden := HiddenFrom(env, text, 0);
    WholeKept(env, text, c);
    FlatOne(line);
    if BulletOf(line).Some? {
      CountMiddle(line, SkipSpace(line, i + 1), |line|, c);
      assert line[SkipSpace(line, i + 1)..|line|] == text && "" + hidden == hidden;
    } else {
      var d := SkipDigits(env, line, i);
      NumberLine(line, i, d, SkipSpace(line, d + 1), c);
      CountBoth(line[i..d], hidden, c);
    }
  }

  lemma {:induction false} CountSplit(s: string, sep: char, c: char)
    requires c != sep
    ensures Count(Flat(Split(s, sep)), c) == Count(s, c)
  {
    if |s| > 0 {
      var rest := Split(s[1..], sep);
      CountSplit(s[1..], sep, c);
      if s[0] == sep {
        assert ([""] + rest)[1..] == rest;
        assert "" + Flat(rest) == Flat(rest);
      } else {
        assert ([[s[0]] + rest[0]] + rest[1..])[1..] == rest[1..];
        CountBoth([s[0]] + rest[0], Flat(rest[1..]), c);
        CountBoth([s[0]], rest[0], c);
        CountBoth(rest[0], Flat(rest[1..]), c);
        assert [s[0]][1..] == "";
      }
    }
  }

  lemma {:induction false} CountTrimmedLeft(s: string, d: char, c: char)
    requires c != d
    ensures Count(TrimCharLeft(s, d), c) == Count(s, c)
  {
    if |s| > 0 && s[0] == d {
      CountTrimmedLeft(s[1..], d, c);
    }
  }

  lemma {:induction false} CountTrimmedRight(s: string, d: char, c: char)
    requires c != d
    ensures Count(TrimCharRight(s, d), c) == Count(s, c)
  {
    if |s| > 0 && s[|s| - 1] == d {
      CountTrimmedRight(s[..|s| - 1], d, c);
      CountBoth(s[..|s| - 1], [d], c);
      CountNone([d], c);
      assert s[..|s| - 1] + [d] == s;
    }
  }

  lemma RowLine(line: string, c: char)
    requires Letter(c)
    ensures Count(Flat(SplitRow(line)), c) == Count(line, c)
  {
    var inner := StripChar(Strip(line), '|');
    CountStrip(line, c);
    CountTrimmedLeft(Strip(line), '|', c);
    CountTrimmedRight(TrimCharLeft(Strip(line), '|'), '|', c);
    CountSplit(inner, '|', c);
    CountStripped(Split(inner, '|'), c);
  }

  lemma {:induction false} CellsKeep(env: Env, cells: seq<string>, c: char)
    requires Letter(c)
    ensures Kept(Flat(cells), CellTexts(env, cells), HiddenCells(env, cells), c)
  {
    hide Kept, Letter;
    if |cells| == 0 {
      NothingKept(Flat(cells), c);
    } else {
      WholeKept(env, cells[0], c);
      CellsKeep(env, cells[1..], c);
      KeptBoth(cells[0], TextFrom(env, cells[0], 0), HiddenFrom(env, cells[0], 0),
               Flat(cells[1..]), CellTexts(env, cells[1..]), HiddenCells(env, cells[1..]), c);
    }
  }

  lemma RowKeeps(env: Env, line: string, c: char)
    requires Letter(c)
    ensures KeptOf([line], CellTexts(env, SplitRow(line)), HiddenCells(env, SplitRow(line)), c)
  {
    hide SplitRow, CellTexts, HiddenCells;
    CellsKeep(env, SplitRow(line), c);
    RowLine(line, c);
    KeptLine(line, Flat(SplitRow(line)), CellTexts(env, SplitRow(line)), HiddenCells(env, SplitRow(line)), c);
  }

  lemma NoLines(lines: seq<string>, c: char)
    requires lines == []
    ensures KeptOf(lines, "", "", c)
  {
  }

  lemma {:induction false} RowsKeep(env: Env, rows: seq<string>, c: char)
    requires Letter(c)
    ensures KeptOf(rows, Flat(RowTexts(env, rows)), HiddenRows(env, rows), c)
  {
    hide KeptOf, Letter, SplitRow, CellTexts, HiddenCells;
    if |rows| == 0 {
      NoLines(rows, c);
    } else {
      hide Flat;
      var front, last := rows[..|rows| - 1], rows[|rows| - 1];
      RowsKeep(env, front, c);
      RowKeeps(env, last, c);
      KeptOfBoth(front, Flat(RowTexts(env, front)), HiddenRows(env, front),
                 [last], CellTexts(env, SplitRow(last)), HiddenCells(env, SplitRow(last)), c);
      FlatSnoc(RowTexts(env, front), CellTexts(env, SplitRow(last)));
      assert front + [last] == rows;
    }
  }

  lemma {:induction false} DividerCells(cells: seq<string>, c: char)
    requires Letter(c) && forall k | 0 <= k < |cells| :: IsDividerCell(cells[k])
    ensures Count(Flat(cells), c) == 0
  {
    if |cells| > 0 {
      assert IsDividerCell(cells[0]);
      assert forall k | 0 <= k < |cells[1..]| :: cells[1..][k] == cells[k + 1];
      DividerCells(cells[1..], c);
      CountNone(cells[0], c);
      CountBoth(cells[0], Flat(cells[1..]), c);
    }
  }

  lemma DividerLine(line: string, c: char)
    requires IsDivider(line) && Letter(c)
    ensures KeptOf([line], "", "", c)
  {
    DividerCells(SplitRow(line), c);
    RowLine(line, c);
    EmptyKept(line, c);
  }

  /** Another text with as many letters. */
  lemma KeptAs(lines: seq<string>, shown: string, shown': string, hidden: string, c: char)
    requires KeptOf(lines, shown, hidden, c) && Count(shown', c) == Count(shown, c)
    ensures KeptOf(lines, shown', hidden, c)
  {
  }

  lemma TableCount(env: Env, head: string, rows: seq<string>, c: char)
    requires Letter(c)
    ensures Count(TableText(env, head, rows), c)
            == Count(CellTexts(env, SplitRow(head)) + Flat(RowTexts(env, rows)), c)
  {
    hide SplitRow, CellTexts, RowTexts;
    var top, body := CellTexts(env, SplitRow(head)), Framed(Join(RowTexts(env, rows), "\n"));
    CountFramed(RowTexts(env, rows), c);
    FramedCount(top, c);
    CountNone("\n", c);
    CountBoth(Framed(top), body, c);
    CountBoth(Framed(top) + body, "\n", c);
    CountBoth(top, Flat(RowTexts(env, rows)), c);
  }

  lemma TableKeeps(env: Env, head: string, divider: string, rows: seq<string>, c: char)
    requires IsDivider(divider) && Letter(c)
    ensures KeptOf([head, divider] + rows, TableText(env, head, rows),
                   HiddenCells(env, SplitRow(head)) + HiddenRows(env, rows), c)
  {
    hide KeptOf, Letter, SplitRow, CellTexts, RowTexts, HiddenCells, HiddenRows, TableText, IsDivider;
    var top, hidden := CellTexts(env, SplitRow(head)), HiddenCells(env, SplitRow(head));
    RowKeeps(env, head, c);
    DividerLine(divider, c);
    RowsKeep(env, rows, c);
    KeptOfBoth([head], top, hidden, [divider], "", "", c);
    assert [head] + [divider] == [head, divider] && top + "" == top && hidden + "" == hidden;
    KeptOfBoth([head, divider], top, hidden, rows, Flat(RowTexts(env, rows)), HiddenRows(env, rows), c);
    TableCount(env, head, rows, c);
    KeptAs([head, divider] + rows, top + Flat(RowTexts(env, rows)), TableText(env, head, rows),
           hidden + HiddenRows(env, rows), c);
  }

  lemma ParagraphKeeps(env: Env, body: seq<string>, c: char)
    requires Letter(c)
    ensures KeptOf(body, TextFrom(env, Join(StripAll(body), "\n"), 0),
                   HiddenFrom(env, Join(StripAll(body), "\n"), 0), c)
  {
    WholeKept(env, Join(StripAll(body), "\n"), c);
    CountAll(StripAll(body), c);
    CountStripped(body, c);
  }

  lemma RuleLine(line: string, c: char)
    requires IsRule(Strip(line)) && Letter(c)
    ensures KeptOf([line], "", "", c)
  {
    CountStrip(line, c);
    CountNone(Strip(line), c);
    EmptyKept(line, c);
  }

  lemma CloseLine(line: string, c: char)
    requires HasPrefix(line, "```") && Letter(c)
    ensures KeptOf([line], "", line[3..], c)
  {
    assert line[0] == line[..3][0] && line[1] == line[..3][1] && line[2] == line[..3][2];
    CountMiddle(line, 3, |line|, c);
    assert line[3..|line|] == line[3..];
    FlatOne(line);
  }

  lemma FenceBody(line: string, body: seq<string>, c: char)
    requires FenceOf(line).Some? && Letter(c)
    ensures KeptOf([line] + body, Join(body, "\n"), FenceOf(line).value, c)
  {
    hide FenceOf, Count, Letter;
    FenceLine(line, c);
    FlatOne(line);
    CountAll(body, c);
    CountLines([line], body, c);
  }

  lemma OpenFence(lines: seq<string>, i: nat, j: nat, c: char)
    requires i < j == |lines| && FenceOf(lines[i]).Some? && Letter(c)
    ensures KeptOf(lines[i..], Join(lines[i + 1..j], "\n"), FenceOf(lines[i]).value + "", c)
  {
    hide FenceOf, Letter, KeptOf, Join;
    FenceBody(lines[i], lines[i + 1..j], c);
    assert [lines[i]] + lines[i + 1..j] == lines[i..];
    assert FenceOf(lines[i]).value + "" == FenceOf(lines[i]).value;
  }

  lemma ClosedFence(lines: seq<string>, i: nat, j: nat, c: char)
    requires i < j < |lines| && FenceOf(lines[i]).Some? && HasPrefix(lines[j], "```") && Letter(c)
    ensures KeptOf(lines[i..j + 1], Join(lines[i + 1..j], "\n"), FenceOf(lines[i]).value + lines[j][3..], c)
  {
    hide FenceOf, Letter, KeptOf, Join;
    var code, language := Join(lines[i + 1..j], "\n"), FenceOf(lines[i]).value;
    FenceBody(lines[i], lines[i + 1..j], c);
    CloseLine(lines[j], c);
    var above := [lines[i]] + lines[i + 1..j];
    KeptOfBoth(above, code, language, [lines[j]], "", lines[j][3..], c);
    assert above + [lines[j]] == lines[i..j + 1];
    assert code + "" == code;
  }

  lemma FenceParts(lines: seq<string>, i: nat)
    requires i < |lines| && FenceOf(lines[i]).Some?
    ensures var j := FenceEnd(lines, i + 1);
            if j < |lines| then
              && HasPrefix(lines[j], "```") && LinesOf(lines, i, j + 1) == lines[i..j + 1]
              && HiddenFence(lines, i) == FenceOf(lines[i]).value + lines[j][3..]
            else
              LinesOf(lines, i, j + 1) == lines[i..] && HiddenFence(lines, i) == FenceOf(lines[i]).value + ""
  {
    hide FenceOf;
  }

  lemma FenceKeeps(lines: seq<string>, i: nat, c: char)
    requires i < |lines| && FenceOf(lines[i]).Some? && Letter(c)
    ensures var j := FenceEnd(lines, i + 1);
            KeptOf(LinesOf(lines, i, j + 1), Join(lines[i + 1..j], "\n"), HiddenFence(lines, i), c)
  {
    hide *;
    var j := FenceEnd(lines, i + 1);
    FenceParts(lines, i);
    if j < |lines| {
      ClosedFence(lines, i, j, c);
    } else {
      OpenFence(lines, i, j, c);
    }
  }

  lemma {:induction false} QuotedKeeps(lines: seq<string>, c: char)
    requires Letter(c)
    ensures Count(Flat(lines[..|Quoted(lines)|]), c) == Count(Flat(Quoted(lines)), c)
  {
    if |lines| > 0 && IsQuote(lines[0]) {
      var text, rest := QuoteText(lines[0]), Quoted(lines[1..]);
      QuotedKeeps(lines[1..], c);
      CountMiddle(lines[0], |lines[0]| - |text|, |lines[0]|, c);
      assert lines[0][|lines[0]| - |text|..|lines[0]|] == text;
      assert Quoted(lines)[1..] == rest && lines[..|rest| + 1][1..] == lines[1..][..|rest|];
      CountBoth(text, Flat(rest), c);
      CountBoth(lines[0], Flat(lines[1..][..|rest|]), c);
    }
  }

  // ---- lists ----

  lemma HiddenStep(env: Env, lines: seq<string>, i: nat, j: nat, next: nat)
    requires i <= j <= next <= |lines|
    ensures HiddenLines(env, lines, i, next) == HiddenLines(env, lines, i, j) + HiddenLines(env, lines, j, next)
    decreases j - i
  {
    hide HiddenItem, HiddenFrom, Blank, ItemOf, Strip;
    if i < j {
      HiddenStep(env, lines, i + 1, j, next);
      Associate(if Blank(lines[i]) then "" else if ItemOf(env, lines[i]).Some? then HiddenItem(env, lines[i])
                else HiddenFrom(env, Strip(lines[i]), 0),
                HiddenLines(env, lines, i + 1, j), HiddenLines(env, lines, j, next));
    } else {
      assert "" + HiddenLines(env, lines, j, next) == HiddenLines(env, lines, j, next);
    }
  }

  lemma HiddenOne(env: Env, lines: seq<string>, i: nat)
    requires i < |lines|
    ensures HiddenLines(env, lines, i, i + 1) ==
              if Blank(lines[i]) then ""
              else if ItemOf(env, lines[i]).Some? then HiddenItem(env, lines[i])
              else HiddenFrom(env, Strip(lines[i]), 0)
  {
    hide HiddenItem, HiddenFrom, Blank, ItemOf, Strip;
    assert HiddenLines(env, lines, i + 1, i + 1) == "";
  }

  /** One more stretch of lines of the list, with its text added to the items. */
  lemma ListGrows(env: Env, lines: seq<string>, start: nat, i: nat, j: nat, shown: string, more: string, c: char)
    requires start <= i <= j <= |lines|
    requires KeptOf(lines[start..i], shown, HiddenLines(env, lines, start, i), c)
    requires KeptOf(lines[i..j], more, HiddenLines(env, lines, i, j), c)
    ensures KeptOf(lines[start..j], shown + more, HiddenLines(env, lines, start, j), c)
  {
    hide KeptOf, HiddenLines;
    KeptOfBoth(lines[start..i], shown, HiddenLines(env, lines, start, i), lines[i..j], more,
               HiddenLines(env, lines, i, j), c);
    HiddenStep(env, lines, start, i, j);
    assert lines[start..i] + lines[i..j] == lines[start..j];
  }

  lemma LineKeeps(env: Env, lines: seq<string>, i: nat, c: char)
    requires i < |lines| && Letter(c)
    ensures KeptOf(lines[i..i + 1],
                   if Blank(lines[i]) then ""
                   else if ItemOf(env, lines[i]).Some? then TextFrom(env, ItemOf(env, lines[i]).value.text, 0)
                   else TextFrom(env, Strip(lines[i]), 0),
                   HiddenLines(env, lines, i, i + 1), c)
  {
    hide KeptOf, ItemOf, HiddenItem, HiddenLines, Blank, Strip, Letter, TextFrom, HiddenFrom;
    OneLine(lines, i);
    HiddenOne(env, lines, i);
    if Blank(lines[i]) {
      BlankKept(lines[i], c);
    } else if ItemOf(env, lines[i]).Some? {
      ItemLine(env, lines[i], c);
    } else {
      WholeKept(env, Strip(lines[i]), c);
      CountStrip(lines[i], c);
      KeptLine(lines[i], Strip(lines[i]), TextFrom(env, Strip(lines[i]), 0), HiddenFrom(env, Strip(lines[i]), 0), c);
    }
  }

  lemma GapCount(gap: string, text: string, c: char)
    requires (gap == " " || gap == "\n") && Letter(c)
    ensures Count(gap + text, c) == Count(text, c)
  {
    CountBoth(gap, text, c);
    CountNone(gap, c);
  }

  lemma {:induction false} ListKeeps(env: Env, lines: seq<string>, i: nat, c: char)
    requires i < |lines| && ItemOf(env, lines[i]).Some? && Letter(c)
    ensures KeptOf(lines[i..ListAt(env, lines, i).1], ListText(env, lines, i),
                   HiddenLines(env, lines, i, ListAt(env, lines, i).1), c)
    decreases |lines| - i, 0
  {
    hide KeptOf, ItemOf, InlineFrom, TextFrom, HiddenFrom, HiddenLines, Letter, Flat;
    var first := ItemOf(env, lines[i]).value;
    var items, texts := [Rendered(env, first.text)], [TextFrom(env, first.text, 0)];
    LineKeeps(env, lines, i, c);
    FlatOne(TextFrom(env, first.text, 0));
    ItemsKeep(env, lines, i, i + 1, first.indent, items, texts, c);
    var shown := ItemTexts(env, lines, i + 1, first.indent, texts);
    CountFramed(shown, c);
    var next := ListFrom(env, lines, i + 1, first.indent, items).next;
    KeptAs(lines[i..next], Flat(shown), Framed(Join(shown, "\n")), HiddenLines(env, lines, i, next), c);
  }

  lemma {:induction false} ItemsKeep(env: Env, lines: seq<string>, start: nat, i: nat, indent: nat, items: seq<string>,
                                     texts: seq<string>, c: char)
    requires start <= i <= |lines| && |items| > 0 && |texts| > 0 && Letter(c)
    requires KeptOf(lines[start..i], Flat(texts), HiddenLines(env, lines, start, i), c)
    ensures var next := ListFrom(env, lines, i, indent, items).next;
            KeptOf(lines[start..next], Flat(ItemTexts(env, lines, i, indent, texts)),
                   HiddenLines(env, lines, start, next), c)
    decreases |lines| - i, 2
  {
    hide KeptOf, ItemOf, InlineFrom, TextFrom, HiddenFrom, HiddenLines, Letter, Flat, Blank, Strip;
    if i < |lines| {
      LineKeeps(env, lines, i, c);
      if Blank(lines[i]) {
        if ListFrom(env, lines, i, indent, items).next > i {
          ListGrows(env, lines, start, i, i + 1, Flat(texts), "", c);
          assert Flat(texts) + "" == Flat(texts);
          ItemsKeep(env, lines, start, i + 1, indent, items, texts, c);
        }
      } else {
        match ItemOf(env, lines[i])
        case None =>
          if HasPrefix(lines[i], Spaces(indent + 1)) {
            var more := TextFrom(env, Strip(lines[i]), 0);
            GapCount(" ", more, c);
            KeptAs(lines[i..i + 1], more, " " + more, HiddenLines(env, lines, i, i + 1), c);
            ListGrows(env, lines, start, i, i + 1, Flat(texts), " " + more, c);
            FlatExtend(texts, " " + more);
            ItemsKeep(env, lines, start, i + 1, indent, Extend(items, " " + Rendered(env, Strip(lines[i]))),
                      Extend(texts, " " + more), c);
          }
        case Some(item) =>
          if item.indent > indent {
            NestedKeeps(env, lines, start, i, indent, items, texts, c);
          } else if item.indent == indent {
            var more := TextFrom(env, item.text, 0);
            ListGrows(env, lines, start, i, i + 1, Flat(texts), more, c);
            FlatSnoc(texts, more);
            ItemsKeep(env, lines, start, i + 1, indent, items + [Rendered(env, item.text)], texts + [more], c);
          }
      }
    }
  }

  lemma {:induction false} NestedKeeps(env: Env, lines: seq<string>, start: nat, i: nat, indent: nat,
                                       items: seq<string>, texts: seq<string>, c: char)
    requires start <= i < |lines| && |items| > 0 && |texts| > 0 && Letter(c)
    requires KeptOf(lines[start..i], Flat(texts), HiddenLines(env, lines, start, i), c)
    requires !Blank(lines[i]) && ItemOf(env, lines[i]).Some? && ItemOf(env, lines[i]).value.indent > indent
    ensures var next := ListFrom(env, lines, i, indent, items).next;
            KeptOf(lines[start..next], Flat(ItemTexts(env, lines, i, indent, texts)),
                   HiddenLines(env, lines, start, next), c)
    decreases |lines| - i, 1
  {
    hide KeptOf, ItemOf, ListText, ListHtml, Flat, Blank, HiddenLines, Letter;
    ListKeeps(env, lines, i, c);
    var (html, j) := ListAt(env, lines, i);
    var more := ListText(env, lines, i);
    GapCount("\n", more, c);
    KeptAs(lines[i..j], more, "\n" + more, HiddenLines(env, lines, i, j), c);
    ListGrows(env, lines, start, i, j, Flat(texts), "\n" + more, c);
    FlatExtend(texts, "\n" + more);
    ItemsKeep(env, lines, start, j, indent, Extend(items, "\n" + html), Extend(texts, "\n" + more), c);
  }

  // ---- the page ----

  lemma {:induction false} QuoteKeeps(env: Env, lines: seq<string>, i: nat, c: char)
    requires i < |lines| && IsQuote(lines[i]) && Letter(c)
    ensures var inner := Quoted(lines[i..]);
            KeptOf(lines[i..i + |inner|], Framed(Join(PageTexts(env, inner, 0), "\n")), HiddenPage(env, inner, 0), c)
    decreases Weight(lines), 0, 0
  {
    hide Letter, Flat, PageTexts, HiddenPage;
    QuoteIsLighter(lines, i);
    var inner := Quoted(lines[i..]);
    PageKeeps(env, inner, 0, c);
    assert inner[0..] == inner;
    CountFramed(PageTexts(env, inner, 0), c);
    QuotedKeeps(lines[i..], c);
    assert lines[i..][..|inner|] == lines[i..i + |inner|];
  }

  lemma {:induction false} PlainKeeps(env: Env, lines: seq<string>, i: nat, c: char)
    requires i < |lines| && !Blank(lines[i]) && !IsHeading(lines[i]) && Letter(c)
    ensures KeptOf(LinesOf(lines, i, PlainAt(env, lines, i).next), BlockText(env, lines, i),
                   HiddenPlain(env, lines, i), c)
    decreases Weight(lines), |lines| - i, 0
  {
    hide KeptOf, Letter, TableHtml, TableText, RowHtml, TableRows, ListAt, ListText, FenceHtml, QuoteHtml,
      ParagraphHtml, TextFrom, BlocksFrom, PageTexts, Styles, SplitRow, Htmls, FenceOf, Strip, IsRule, HiddenFrom,
      HiddenLines, HiddenPage, HiddenCells, HiddenRows, HiddenFence, IsDivider;
    var line := lines[i];
    if FenceOf(line).Some? {
      FenceKeeps(lines, i, c);
    } else if IsRule(Strip(line)) {
      RuleLine(line, c);
      OneLine(lines, i);
    } else if IsQuote(line) {
      QuoteKeeps(env, lines, i, c);
    } else if AtTable(lines, i) {
      var j := TableEnd(lines, i + 2);
      TableKeeps(env, line, lines[i + 1], lines[i + 2..j], c);
      assert [line, lines[i + 1]] + lines[i + 2..j] == lines[i..j];
    } else if ItemOf(env, line).Some? {
      ListKeeps(env, lines, i, c);
    } else {
      ParagraphKeeps(env, lines[i..ParagraphEnd(env, lines, i + 1)], c);
    }
  }

  lemma TitleKeeps(env: Env, line: string, c: char)
    requires TitleOf(line).Some? && Letter(c)
    ensures KeptOf([line], TextFrom(env, TitleOf(line).value.raw, 0) + "#",
                   HiddenFrom(env, TitleOf(line).value.raw, 0), c)
  {
    hide TitleOf, TextFrom, HiddenFrom;
    var raw := TitleOf(line).value.raw;
    TitleLine(line, c);
    WholeKept(env, raw, c);
    KeptLine(line, raw, TextFrom(env, raw, 0), HiddenFrom(env, raw, 0), c);
    CountBoth(TextFrom(env, raw, 0), "#", c);
    CountNone("#", c);
    KeptAs([line], TextFrom(env, raw, 0), TextFrom(env, raw, 0) + "#", HiddenFrom(env, raw, 0), c);
  }

  lemma {:induction false} BlockKeeps(env: Env, lines: seq<string>, i: nat, c: char)
    requires i < |lines| && !Blank(lines[i]) && Letter(c)
    ensures KeptOf(LinesOf(lines, i, NextAt(env, lines, i)), TextAt(env, lines, i), HiddenAt(env, lines, i), c)
    decreases Weight(lines), |lines| - i, 1
  {
    hide KeptOf, Letter, BlockText, PlainAt, Blank, TextFrom, TitleOf, HiddenPlain, HiddenFrom;
    if IsHeading(lines[i]) {
      TitleKeeps(env, lines[i], c);
      OneLine(lines, i);
    } else {
      PlainKeeps(env, lines, i, c);
    }
  }

  lemma {:induction false} PageKeeps(env: Env, lines: seq<string>, i: nat, c: char)
    requires Letter(c)
    ensures KeptOf(if i <= |lines| then lines[i..] else [], Flat(PageTexts(env, lines, i)),
                   HiddenPage(env, lines, i), c)
    decreases Weight(lines), if i <= |lines| then |lines| - i else 0, 2
  {
    hide KeptOf, Letter, TextAt, NextAt, HiddenAt, Blank, Flat;
    if i >= |lines| {
      NoLines(if i <= |lines| then lines[i..] else [], c);
      FlatNone();
    } else if Blank(lines[i]) {
      PageKeeps(env, lines, i + 1, c);
      BlankKept(lines[i], c);
      var rest, hidden := Flat(PageTexts(env, lines, i + 1)), HiddenPage(env, lines, i + 1);
      KeptOfBoth([lines[i]], "", "", lines[i + 1..], rest, hidden, c);
      assert [lines[i]] + lines[i + 1..] == lines[i..] && "" + rest == rest && "" + hidden == hidden;
    } else {
      var next, text := NextAt(env, lines, i), TextAt(env, lines, i);
      BlockKeeps(env, lines, i, c);
      PageKeeps(env, lines, next, c);
      FlatBoth([text], PageTexts(env, lines, next));
      FlatOne(text);
      KeptOfBoth(LinesOf(lines, i, next), text, HiddenAt(env, lines, i), if next <= |lines| then lines[next..] else [],
                 Flat(PageTexts(env, lines, next)), HiddenPage(env, lines, next), c);
      assert LinesOf(lines, i, next) + (if next <= |lines| then lines[next..] else []) == lines[i..];
    }
  }

  /** Nothing is lost: a character that is neither white space nor a mark is seen on the page as often as it
      stands in the document, but for link targets, fence languages, what follows a closing fence, and list
      numbers. */
  lemma PageLosesNothing(env: Env, lines: seq<string>, c: char)
    requires Letter(c)
    ensures Count(Flat(lines), c)
            == Count(Visible(Join(Htmls(BlocksFrom(env, lines, 0, map[]).blocks), "\n")), c)
               + Count(HiddenPage(env, lines, 0), c)
  {
    hide PageTexts, BlocksFrom, Flat, Visible, Htmls, HiddenPage, Letter, Count;
    PageShowsItsText(env, lines);
    PageKeeps(env, lines, 0, c);
    assert lines[0..] == lines;
    CountAll(PageTexts(env, lines, 0), c);
  }
}
