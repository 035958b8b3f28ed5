/** Nothing is added: white space and one `#` for each heading aside, what a reader sees of a page
    (gateway/shared/markdown.py) are characters of the document, in their order. */
module PageSource {
  import opened Common
  import opened Html
  import opened Inline
  import opened Patterns
  import opened Text
  import opened Reading
  import opened ReadingBlocks
  import opened Blocks
  import opened PageReading
  import PageIds

  // ---- ink ----

  /** The characters that are not white space. */
  function Ink(s: string): string {
    if |s| == 0 then "" else (if IsSpace(s[0]) then "" else [s[0]]) + Ink(s[1..])
  }

  /** The lines one after the other. */
  function Flat(lines: seq<string>): string {
    if |lines| == 0 then "" else lines[0] + Flat(lines[1..])
  }

  lemma {:induction false} InkBoth(a: string, b: string)
    ensures Ink(a + b) == Ink(a) + Ink(b)
  {
    if |a| == 0 {
      assert a + b == b;
    } else {
      assert (a + b)[1..] == a[1..] + b;
      InkBoth(a[1..], b);
    }
  }

  lemma {:induction false} FlatBoth(a: seq<string>, b: seq<string>)
    ensures Flat(a + b) == Flat(a) + Flat(b)
  {
    if |a| == 0 {
      assert a + b == b;
    } else {
      assert (a + b)[1..] == a[1..] + b;
      FlatBoth(a[1..], b);
    }
  }

  lemma {:induction false} WithinThrough(a: string, b: string, c: string)
    requires Within(a, b) && Within(b, c)
    ensures Within(a, c)
    decreases |c|, |b|
  {
    if |a| > 0 {
      if b[0] == c[0] && Within(b[1..], c[1..]) {
        if a[0] == b[0] && Within(a[1..], b[1..]) {
          WithinThrough(a[1..], b[1..], c[1..]);
        } else {
          WithinThrough(a, b[1..], c[1..]);
        }
      } else {
        WithinThrough(a, b, c[1..]);
      }
    }
  }

  lemma {:induction false} InkIsWithin(s: string)
    ensures Within(Ink(s), s)
  {
    if |s| > 0 {
      InkIsWithin(s[1..]);
      if !IsSpace(s[0]) {
        assert ([s[0]] + Ink(s[1..]))[1..] == Ink(s[1..]);
      } else {
        assert "" + Ink(s[1..]) == Ink(s[1..]);
      }
    }
  }

  lemma {:induction false} InkStaysWithin(a: string, b: string)
    requires Within(a, b)
    ensures Within(Ink(a), Ink(b))
    decreases |b|
  {
    if |a| > 0 {
      if a[0] == b[0] && Within(a[1..], b[1..]) {
        InkStaysWithin(a[1..], b[1..]);
        if !IsSpace(a[0]) {
          WithinItself([a[0]]);
          WithinBoth([a[0]], [a[0]], Ink(a[1..]), Ink(b[1..]));
        } else {
          assert "" + Ink(a[1..]) == Ink(a[1..]) && "" + Ink(b[1..]) == Ink(b[1..]);
        }
      } else {
        InkStaysWithin(a, b[1..]);
        WithinBoth("", if IsSpace(b[0]) then "" else [b[0]], Ink(a), Ink(b[1..]));
        assert "" + Ink(a) == Ink(a);
      }
    }
  }

  /** The text shows nothing that is not in the lines, in their order; white space aside. */
  ghost predicate From(text: string, lines: seq<string>) { Within(Ink(text), Flat(lines)) }

  lemma FromBoth(a: string, x: seq<string>, b: string, y: seq<string>)
    requires From(a, x) && From(b, y)
    ensures From(a + b, x + y)
  {
    hide Ink, Flat, Within;
    InkBoth(a, b);
    FlatBoth(x, y);
    WithinBoth(Ink(a), Flat(x), Ink(b), Flat(y));
  }

  lemma FromWithin(text: string, source: string, lines: seq<string>)
    requires Within(text, source) && Within(source, Flat(lines))
    ensures From(text, lines)
  {
    WithinThrough(text, source, Flat(lines));
    InkIsWithin(text);
    WithinThrough(Ink(text), text, Flat(lines));
  }

  lemma FlatOne(line: string)
    ensures Flat([line]) == line
  {
    assert [line][1..] == [] && line + "" == line;
  }

  lemma FromLine(text: string, line: string)
    requires Within(text, line)
    ensures From(text, [line])
  {
    FlatOne(line);
    WithinItself(line);
    FromWithin(text, line, [line]);
  }

  lemma FromMore(text: string, x: seq<string>, y: seq<string>)
    requires From(text, x)
    ensures From(text, x + y)
  {
    FlatBoth(x, y);
    WithinBoth(Ink(text), Flat(x), "", Flat(y));
    assert Ink(text) + "" == Ink(text);
  }

  lemma InkFramed(text: string)
    ensures Ink(Framed(text)) == Ink(text)
  {
    assert Ink("\n") == "";
    InkBoth("\n", text);
    InkBoth("\n" + text, "\n");
    assert "" + Ink(text) + "" == Ink(text);
  }

  lemma {:induction false} InkJoin(texts: seq<string>)
    ensures Ink(Join(texts, "\n")) == Ink(Flat(texts))
  {
    if |texts| == 1 {
      FlatOne(texts[0]);
      assert texts == [texts[0]];
    } else if |texts| > 1 {
      assert Ink("\n") == "";
      InkJoin(texts[1..]);
      InkBoth(texts[0] + "\n", Join(texts[1..], "\n"));
      InkBoth(texts[0], "\n");
      InkBoth(texts[0], Flat(texts[1..]));
      assert Ink(texts[0]) + "" == Ink(texts[0]);
    }
  }

  /** White space between and around adds nothing. */
  lemma {:induction false} FromJoin(texts: seq<string>, lines: seq<string>)
    requires From(Flat(texts), lines)
    ensures From(Framed(Join(texts, "\n")), lines) && From(Join(texts, "\n"), lines)
  {
    InkJoin(texts);
    InkFramed(Join(texts, "\n"));
  }

  lemma SliceIsWithin(s: string, i: nat, j: nat)
    requires i <= j <= |s|
    ensures Within(s[i..j], s)
  {
    WithinItself(s[i..j]);
    WithinMarks(s[i..j], s[..i], s[i..j], s[j..]);
    assert s[..i] + s[i..j] + s[j..] == s;
  }

  lemma InlineFromLine(env: Env, text: string, line: string)
    requires Within(text, line)
    ensures From(TextFrom(env, text, 0), [line])
  {
    TextIsWithin(env, text, 0);
    Whole(text);
    WithinThrough(TextFrom(env, text, 0), text, line);
    FromLine(TextFrom(env, text, 0), line);
  }

  // ---- block by block ----

  lemma TitleIsFromLine(line: string)
    requires TitleOf(line).Some?
    ensures Within(TitleOf(line).value.raw, line)
  {
    hide Within, Trailer;
    var level := SkipChar(line, 0, '#');
    var b := SkipSpace(line, level);
    if b < |line| {
      SliceIsWithin(line, b, TitleEnd(line, b + 1));
    } else {
      SliceIsWithin(line, b - 1, |line|);
      assert line[b - 1..] == line[b - 1..|line|];
    }
  }

  lemma ItemIsFromLine(env: Env, line: string)
    requires ItemOf(env, line).Some?
    ensures Within(ItemOf(env, line).value.text, line)
  {
    var text := ItemOf(env, line).value.text;
    assert |text| <= |line| && text == line[|line| - |text|..|line|];
    SliceIsWithin(line, |line| - |text|, |line|);
  }

  lemma {:induction false} StrippedIsFromCells(cells: seq<string>)
    ensures Within(Flat(StripAll(cells)), Flat(cells))
  {
    if |cells| > 0 {
      StripIsWithin(cells[0]);
      StrippedIsFromCells(cells[1..]);
      assert StripAll(cells)[1..] == StripAll(cells[1..]);
      WithinBoth(Strip(cells[0]), cells[0], Flat(StripAll(cells[1..])), Flat(cells[1..]));
    }
  }

  lemma {:induction false} FlatIsWithinJoin(parts: seq<string>, sep: string)
    ensures Within(Flat(parts), Join(parts, sep))
  {
    if |parts| == 1 {
      FlatOne(parts[0]);
      assert parts == [parts[0]];
      WithinItself(parts[0]);
    } else if |parts| > 1 {
      FlatIsWithinJoin(parts[1..], sep);
      WithinItself(parts[0]);
      WithinBoth(parts[0], parts[0], "", sep);
      assert parts[0] + "" == parts[0];
      WithinBoth(parts[0], parts[0] + sep, Flat(parts[1..]), Join(parts[1..], sep));
    }
  }

  lemma {:induction false} TrimmedIsWithin(s: string, c: char)
    ensures Within(TrimCharLeft(s, c), s) && Within(TrimCharRight(s, c), s)
  {
    WithinItself(s);
    if |s| > 0 && s[0] == c {
      TrimmedIsWithin(s[1..], c);
    }
    var r := TrimCharRight(s, c);
    SliceIsWithin(s, 0, |r|);
    assert s[0..|r|] == s[..|r|];
  }

  lemma CellsAreFromRow(line: string)
    ensures Within(Flat(SplitRow(line)), line)
  {
    var stripped, inner := Strip(line), StripChar(Strip(line), '|');
    var left := TrimCharLeft(stripped, '|');
    StripIsWithin(line);
    TrimmedIsWithin(stripped, '|');
    TrimmedIsWithin(left, '|');
    WithinThrough(inner, left, stripped);
    WithinThrough(inner, stripped, line);
    SplitThenJoin(inner, '|');
    FlatIsWithinJoin(Split(inner, '|'), ['|']);
    WithinThrough(Flat(Split(inner, '|')), inner, line);
    StrippedIsFromCells(Split(inner, '|'));
    WithinThrough(Flat(SplitRow(line)), Flat(Split(inner, '|')), line);
  }

  lemma {:induction false} TextsAreFromCells(env: Env, cells: seq<string>)
    ensures Within(CellTexts(env, cells), Flat(cells))
  {
    if |cells| > 0 {
      TextIsWithin(env, cells[0], 0);
      Whole(cells[0]);
      TextsAreFromCells(env, cells[1..]);
      WithinBoth(TextFrom(env, cells[0], 0), cells[0], CellTexts(env, cells[1..]), Flat(cells[1..]));
    }
  }

  lemma RowIsFromLine(env: Env, line: string)
    ensures From(CellTexts(env, SplitRow(line)), [line])
  {
    TextsAreFromCells(env, SplitRow(line));
    CellsAreFromRow(line);
    WithinThrough(CellTexts(env, SplitRow(line)), Flat(SplitRow(line)), line);
    FromLine(CellTexts(env, SplitRow(line)), line);
  }

  lemma FlatSnoc(front: seq<string>, last: string)
    ensures Flat(front + [last]) == Flat(front) + last
  {
    FlatBoth(front, [last]);
    FlatOne(last);
  }

  lemma AppendIsFrom(texts: seq<string>, before: seq<string>, text: string, lines: seq<string>)
    requires From(Flat(texts), before) && From(text, lines)
    ensures From(Flat(texts + [text]), before + lines)
  {
    hide From, Flat;
    FlatSnoc(texts, text);
    FromBoth(Flat(texts), before, text, lines);
  }

  lemma NothingIsFrom(lines: seq<string>)
    ensures From("", lines)
  {
  }

  lemma {:induction false} RowsAreFromLines(env: Env, rows: seq<string>)
    ensures From(Flat(RowTexts(env, rows)), rows)
  {
    hide From;
    hide CellTexts, SplitRow;
    if |rows| == 0 {
      NothingIsFrom([]);
    } else {
      hide Flat;
      var front, last := rows[..|rows| - 1], rows[|rows| - 1];
      RowsAreFromLines(env, front);
      RowIsFromLine(env, last);
      AppendIsFrom(RowTexts(env, front), front, CellTexts(env, SplitRow(last)), [last]);
      assert front + [last] == rows;
    }
  }

  lemma FramedIsFrom(text: string, lines: seq<string>)
    requires From(text, lines)
    ensures From(Framed(text), lines)
  {
    InkFramed(text);
  }

  lemma NewlineIsFrom()
    ensures From("\n", []) && From(" ", [])
  {
    assert Ink("\n") == "" && Ink(" ") == "";
  }

  lemma TableIsFromLines(env: Env, head: string, divider: string, rows: seq<string>)
    ensures From(TableText(env, head, rows), [head, divider] + rows)
  {
    hide From, CellTexts, RowTexts, SplitRow;
    var top := CellTexts(env, SplitRow(head));
    RowIsFromLine(env, head);
    RowsAreFromLines(env, rows);
    FromJoin(RowTexts(env, rows), rows);
    FramedIsFrom(top, [head]);
    FromMore(Framed(top), [head], [divider]);
    assert [head] + [divider] == [head, divider];
    var body := Framed(Join(RowTexts(env, rows), "\n"));
    FromBoth(Framed(top), [head, divider], body, rows);
    NewlineIsFrom();
    FromBoth(Framed(top) + body, [head, divider] + rows, "\n", []);
    assert ([head, divider] + rows) + [] == [head, divider] + rows;
  }

  lemma {:induction false} ParagraphIsFromLines(env: Env, body: seq<string>)
    ensures From(TextFrom(env, Join(StripAll(body), "\n"), 0), body)
  {
    var source := Join(StripAll(body), "\n");
    TextIsWithin(env, source, 0);
    Whole(source);
    InkStaysWithin(TextFrom(env, source, 0), source);
    InkJoin(StripAll(body));
    InkIsWithin(Flat(StripAll(body)));
    StrippedIsFromCells(body);
    WithinThrough(Ink(source), Flat(StripAll(body)), Flat(body));
    WithinThrough(Ink(TextFrom(env, source, 0)), Ink(source), Flat(body));
  }

  lemma CodeIsFromLines(body: seq<string>)
    ensures From(Join(body, "\n"), body)
  {
    InkIsWithin(Flat(body));
    FromJoin(body, body);
  }

  lemma {:induction false} QuotedIsFromLines(lines: seq<string>)
    ensures Within(Flat(Quoted(lines)), Flat(lines[..|Quoted(lines)|]))
  {
    if |lines| > 0 && IsQuote(lines[0]) {
      var text, rest := QuoteText(lines[0]), Quoted(lines[1..]);
      QuotedIsFromLines(lines[1..]);
      assert text == lines[0][|lines[0]| - |text|..|lines[0]|];
      SliceIsWithin(lines[0], |lines[0]| - |text|, |lines[0]|);
      assert Quoted(lines)[1..] == rest;
      assert lines[..|rest| + 1][1..] == lines[1..][..|rest|];
      WithinBoth(text, lines[0], Flat(rest), Flat(lines[1..][..|rest|]));
    }
  }

  lemma Stretch(before: seq<string>, lines: seq<string>, i: nat, j: nat, n: nat)
    requires i <= j <= n <= |lines|
    ensures (before + lines[i..j]) + lines[j..n] == before + lines[i..n]
  {
  }

  lemma LastOff(texts: seq<string>, more: string)
    requires |texts| > 0
    ensures var front, last := texts[..|texts| - 1], texts[|texts| - 1];
            texts == front + [last] && Extend(texts, more) == front + [last + more]
  {
  }

  lemma FlatExtend(texts: seq<string>, more: string)
    requires |texts| > 0
    ensures Flat(Extend(texts, more)) == Flat(texts) + more
  {
    hide Flat, Extend;
    LastOff(texts, more);
    FlatSnoc(texts[..|texts| - 1], texts[|texts| - 1]);
    FlatSnoc(texts[..|texts| - 1], texts[|texts| - 1] + more);
    Associate(Flat(texts[..|texts| - 1]), texts[|texts| - 1], more);
  }

  lemma ExtendIsFrom(texts: seq<string>, before: seq<string>, gap: string, text: string, lines: seq<string>)
    requires |texts| > 0 && From(Flat(texts), before) && From(gap, []) && From(text, lines)
    ensures From(Flat(Extend(texts, gap + text)), before + lines)
  {
    hide From;
    FromBoth(gap, [], text, lines);
    assert [] + lines == lines;
    FlatExtend(texts, gap + text);
    FromBoth(Flat(texts), before, gap + text, lines);
  }

  lemma OneLine(lines: seq<string>, i: nat)
    requires i < |lines|
    ensures lines[i..i + 1] == [lines[i]]
  {
  }

  lemma {:induction false} ListIsFromLines(env: Env, lines: seq<string>, i: nat)
    requires i < |lines| && ItemOf(env, lines[i]).Some?
    ensures From(ListText(env, lines, i), lines[i..ListAt(env, lines, i).1])
    decreases |lines| - i, 0
  {
    hide From, ItemOf, InlineFrom, TextFrom;
    var first := ItemOf(env, lines[i]).value;
    var items, texts := [Rendered(env, first.text)], [TextFrom(env, first.text, 0)];
    ItemIsFromLine(env, lines[i]);
    InlineFromLine(env, first.text, lines[i]);
    FlatOne(TextFrom(env, first.text, 0));
    ItemsAreFromLines(env, lines, i + 1, first.indent, items, texts, [lines[i]]);
    var next := ListFrom(env, lines, i + 1, first.indent, items).next;
    assert [lines[i]] + lines[i + 1..next] == lines[i..next];
    FromJoin(ItemTexts(env, lines, i + 1, first.indent, texts), lines[i..next]);
  }

  lemma {:induction false} ItemsAreFromLines(env: Env, lines: seq<string>, i: nat, indent: nat, items: seq<string>,
                                             texts: seq<string>, before: seq<string>)
    requires i <= |lines| && |items| > 0 && |texts| > 0 && From(Flat(texts), before)
    ensures From(Flat(ItemTexts(env, lines, i, indent, texts)),
                 before + lines[i..ListFrom(env, lines, i, indent, items).next])
    decreases |lines| - i, 2
  {
    hide From, ItemOf, InlineFrom, TextFrom, Strip, Flat, Blank;
    var next := ListFrom(env, lines, i, indent, items).next;
    assert before + lines[i..i] == before;
    if i < |lines| {
      OneLine(lines, i);
      if Blank(lines[i]) {
        if next > i {
          FromMore(Flat(texts), before, [lines[i]]);
          ItemsAreFromLines(env, lines, i + 1, indent, items, texts, before + [lines[i]]);
          Stretch(before, lines, i, i + 1, next);
        }
      } else {
        NewlineIsFrom();
        match ItemOf(env, lines[i])
        case None =>
          if HasPrefix(lines[i], Spaces(indent + 1)) {
            var more := Strip(lines[i]);
            StripIsWithin(lines[i]);
            InlineFromLine(env, more, lines[i]);
            ExtendIsFrom(texts, before, " ", TextFrom(env, more, 0), [lines[i]]);
            ItemsAreFromLines(env, lines, i + 1, indent, Extend(items, " " + Rendered(env, more)),
                              Extend(texts, " " + TextFrom(env, more, 0)), before + [lines[i]]);
            Stretch(before, lines, i, i + 1, next);
          }
        case Some(item) =>
          if item.indent > indent {
            NestedIsFrom(env, lines, i, indent, items, texts, before);
          } else if item.indent == indent {
            ItemIsFromLine(env, lines[i]);
            InlineFromLine(env, item.text, lines[i]);
            AppendIsFrom(texts, before, TextFrom(env, item.text, 0), [lines[i]]);
            ItemsAreFromLines(env, lines, i + 1, indent, items + [Rendered(env, item.text)],
                              texts + [TextFrom(env, item.text, 0)], before + [lines[i]]);
            Stretch(before, lines, i, i + 1, next);
          }
      }
    }
  }

  lemma {:induction false} NestedIsFrom(env: Env, lines: seq<string>, i: nat, indent: nat, items: seq<string>,
                                        texts: seq<string>, before: seq<string>)
    requires i < |lines| && |items| > 0 && |texts| > 0 && From(Flat(texts), before)
    requires !Blank(lines[i]) && ItemOf(env, lines[i]).Some? && ItemOf(env, lines[i]).value.indent > indent
    ensures From(Flat(ItemTexts(env, lines, i, indent, texts)),
                 before + lines[i..ListFrom(env, lines, i, indent, items).next])
    decreases |lines| - i, 1
  {
    hide From, ItemOf, ListText, ListHtml, Flat, Blank;
    ListIsFromLines(env, lines, i);
    NewlineIsFrom();
    var (html, j) := ListAt(env, lines, i);
    ExtendIsFrom(texts, before, "\n", ListText(env, lines, i), lines[i..j]);
    ItemsAreFromLines(env, lines, j, indent, Extend(items, "\n" + html), Extend(texts, "\n" + ListText(env, lines, i)),
                      before + lines[i..j]);
    Stretch(before, lines, i, j, ListFrom(env, lines, i, indent, items).next);
  }

  /** The lines of a block; an unclosed fence ends with the document. */
  function LinesOf(lines: seq<string>, i: nat, next: nat): seq<string>
    requires i <= next
  {
    if next <= |lines| then lines[i..next] else if i <= |lines| then lines[i..] else []
  }

  lemma CodeInBlock(lines: seq<string>, i: nat, j: nat)
    requires i < j <= |lines| && From(Join(lines[i + 1..j], "\n"), lines[i + 1..j])
    ensures From(Join(lines[i + 1..j], "\n"), LinesOf(lines, i, j + 1))
  {
    var body, code := lines[i + 1..j], Join(lines[i + 1..j], "\n");
    NothingIsFrom([lines[i]]);
    FromBoth("", [lines[i]], code, body);
    assert "" + code == code && [lines[i]] + body == lines[i..j];
    if j < |lines| {
      FromMore(code, lines[i..j], [lines[j]]);
      assert lines[i..j] + [lines[j]] == lines[i..j + 1];
    } else {
      assert lines[i..] == lines[i..j];
    }
  }

  // ---- with the `#` of the headings ----

  /** `a` is `b` with some characters left out and at most n `#` put in. */
  predicate WithinPlus(a: string, b: string, n: nat)
    decreases |a| + |b|
  {
    || |a| == 0
    || (n > 0 && a[0] == '#' && WithinPlus(a[1..], b, n - 1))
    || (|b| > 0 && ((a[0] == b[0] && WithinPlus(a[1..], b[1..], n)) || WithinPlus(a, b[1..], n)))
  }

  lemma {:induction false} WithinIsPlus(a: string, b: string)
    requires Within(a, b)
    ensures WithinPlus(a, b, 0)
    decreases |b|
  {
    if |a| > 0 {
      if a[0] == b[0] && Within(a[1..], b[1..]) {
        WithinIsPlus(a[1..], b[1..]);
      } else {
        WithinIsPlus(a, b[1..]);
      }
    }
  }

  lemma {:induction false} PlusMore(b: string, c: string, d: string, m: nat, n: nat)
    requires WithinPlus(c, d, m) && m <= n
    ensures WithinPlus(c, b + d, n)
    decreases |b| + |c| + |d|
  {
    if |c| > 0 {
      if |b| > 0 {
        assert (b + d)[1..] == b[1..] + d;
        PlusMore(b[1..], c, d, m, n);
      } else {
        assert b + d == d;
        if m > 0 && c[0] == '#' && WithinPlus(c[1..], d, m - 1) {
          PlusMore(b, c[1..], d, m - 1, n - 1);
        } else if c[0] == d[0] && WithinPlus(c[1..], d[1..], m) {
          PlusMore("", c[1..], d[1..], m, n);
          assert "" + d[1..] == d[1..];
        } else {
          PlusMore("", c, d[1..], m, n);
          assert "" + d[1..] == d[1..];
        }
      }
    }
  }

  lemma {:induction false} PlusBoth(a: string, b: string, m: nat, c: string, d: string, n: nat)
    requires WithinPlus(a, b, m) && WithinPlus(c, d, n)
    ensures WithinPlus(a + c, b + d, m + n)
    decreases |a| + |b|
  {
    if |a| == 0 {
      assert a + c == c;
      PlusMore(b, c, d, n, m + n);
    } else {
      assert (a + c)[1..] == a[1..] + c;
      if m > 0 && a[0] == '#' && WithinPlus(a[1..], b, m - 1) {
        PlusBoth(a[1..], b, m - 1, c, d, n);
      } else {
        assert (b + d)[1..] == b[1..] + d;
        if a[0] == b[0] && WithinPlus(a[1..], b[1..], m) {
          PlusBoth(a[1..], b[1..], m, c, d, n);
        } else {
          PlusBoth(a, b[1..], m, c, d, n);
        }
      }
    }
  }

  lemma {:induction false} PlusThrough(a: string, b: string, c: string, n: nat)
    requires WithinPlus(a, b, n) && Within(b, c)
    ensures WithinPlus(a, c, n)
    decreases |a| + |b| + |c|
  {
    if |a| > 0 {
      if n > 0 && a[0] == '#' && WithinPlus(a[1..], b, n - 1) {
        PlusThrough(a[1..], b, c, n - 1);
      } else if b[0] == c[0] && Within(b[1..], c[1..]) {
        if a[0] == b[0] && WithinPlus(a[1..], b[1..], n) {
          PlusThrough(a[1..], b[1..], c[1..], n);
        } else {
          PlusThrough(a, b[1..], c[1..], n);
        }
      } else {
        PlusThrough(a, b, c[1..], n);
      }
    }
  }

  /** The text shows nothing that is not in the lines, in their order; white space and n `#` aside. */
  ghost predicate FromPlus(text: string, lines: seq<string>, n: nat) { WithinPlus(Ink(text), Flat(lines), n) }

  lemma FromIsPlus(text: string, lines: seq<string>)
    requires From(text, lines)
    ensures FromPlus(text, lines, 0)
  {
    WithinIsPlus(Ink(text), Flat(lines));
  }

  lemma FromPlusBoth(a: string, x: seq<string>, m: nat, b: string, y: seq<string>, n: nat)
    requires FromPlus(a, x, m) && FromPlus(b, y, n)
    ensures FromPlus(a + b, x + y, m + n)
  {
    hide Ink, Flat, WithinPlus;
    InkBoth(a, b);
    FlatBoth(x, y);
    PlusBoth(Ink(a), Flat(x), m, Ink(b), Flat(y), n);
  }

  lemma FromPlusJoin(texts: seq<string>, lines: seq<string>, n: nat)
    requires FromPlus(Flat(texts), lines, n)
    ensures FromPlus(Framed(Join(texts, "\n")), lines, n) && FromPlus(Join(texts, "\n"), lines, n)
  {
    InkJoin(texts);
    InkFramed(Join(texts, "\n"));
  }

  lemma FromDeeper(text: string, inner: seq<string>, lines: seq<string>, n: nat)
    requires FromPlus(text, inner, n) && Within(Flat(inner), Flat(lines))
    ensures FromPlus(text, lines, n)
  {
    PlusThrough(Ink(text), Flat(inner), Flat(lines), n);
  }

  lemma TitleMark()
    ensures FromPlus("#", [], 1)
  {
    assert Ink("#") == "#";
  }

  lemma {:induction false} QuoteIsFromLines(env: Env, lines: seq<string>, i: nat, path: seq<nat>)
    requires i < |lines| && IsQuote(lines[i])
    ensures var inner := Quoted(lines[i..]);
            FromPlus(Framed(Join(PageTexts(env, inner, 0), "\n")), lines[i..i + |inner|],
                     |PageIds.PageFrom(env, inner, 0, map[], path)|)
    decreases Weight(lines), 0, 0
  {
    hide FromPlus, Flat, PageTexts, Within, PageIds.PageFrom;
    QuoteIsLighter(lines, i);
    var inner := Quoted(lines[i..]);
    var n := |PageIds.PageFrom(env, inner, 0, map[], path)|;
    PageIsFromLines(env, inner, 0, map[], path);
    assert inner[0..] == inner;
    FromPlusJoin(PageTexts(env, inner, 0), inner, n);
    QuotedIsFromLines(lines[i..]);
    assert lines[i..][..|inner|] == lines[i..i + |inner|];
    FromDeeper(Framed(Join(PageTexts(env, inner, 0), "\n")), inner, lines[i..i + |inner|], n);
  }

  /** A block that is neither a heading nor a quote adds no `#`. */
  lemma {:induction false} PlainIsFromLines(env: Env, lines: seq<string>, i: nat)
    requires i < |lines| && !Blank(lines[i]) && !IsHeading(lines[i]) && !PageIds.StartsQuote(lines[i])
    ensures From(BlockText(env, lines, i), LinesOf(lines, i, PlainAt(env, lines, i).next))
  {
    hide From, TableHtml, TableText, RowHtml, TableRows, ListAt, ListText, FenceHtml, QuoteHtml, ParagraphHtml,
      TextFrom, BlocksFrom, PageTexts, Styles, SplitRow, Htmls, Flat, FenceOf, Strip, IsRule, Within;
    var line := lines[i];
    if FenceOf(line).Some? {
      var j := FenceEnd(lines, i + 1);
      CodeIsFromLines(lines[i + 1..j]);
      CodeInBlock(lines, i, j);
    } else if IsRule(Strip(line)) {
      NothingIsFrom(lines[i..i + 1]);
    } else if AtTable(lines, i) {
      var j := TableEnd(lines, i + 2);
      TableIsFromLines(env, line, lines[i + 1], lines[i + 2..j]);
      assert [line, lines[i + 1]] + lines[i + 2..j] == lines[i..j];
    } else if ItemOf(env, line).Some? {
      ListIsFromLines(env, lines, i);
    } else {
      ParagraphIsFromLines(env, lines[i..ParagraphEnd(env, lines, i + 1)]);
    }
  }

  lemma {:induction false} HeadingIsFromLine(env: Env, lines: seq<string>, i: nat)
    requires i < |lines| && IsHeading(lines[i])
    ensures FromPlus(TextFrom(env, TitleOf(lines[i]).value.raw, 0) + "#", lines[i..i + 1], 1)
  {
    hide From, FromPlus, TextFrom, TitleOf;
    var raw := TitleOf(lines[i]).value.raw;
    TitleIsFromLine(lines[i]);
    InlineFromLine(env, raw, lines[i]);
    FromIsPlus(TextFrom(env, raw, 0), [lines[i]]);
    TitleMark();
    FromPlusBoth(TextFrom(env, raw, 0), [lines[i]], 0, "#", [], 1);
    assert [lines[i]] + [] == lines[i..i + 1];
  }

  lemma {:induction false} BlockIsFromLines(env: Env, lines: seq<string>, i: nat, slugs: map<string, nat>,
                                            path: seq<nat>)
    requires i < |lines| && !Blank(lines[i])
    ensures FromPlus(TextAt(env, lines, i), LinesOf(lines, i, NextAt(env, lines, i)),
                     |PageIds.PageAt(env, lines, i, slugs, path)|)
    decreases Weight(lines), |lines| - i, 1
  {
    hide From, FromPlus, Blank, TextFrom, TitleOf, FenceOf, IsRule, Strip, PageIds.PageFrom, PageTexts, BlocksFrom,
      HeadingOf, BaseSlug;
    if IsHeading(lines[i]) {
      HeadingIsFromLine(env, lines, i);
    } else if PageIds.StartsQuote(lines[i]) {
      QuoteIsFromLines(env, lines, i, path + [i]);
    } else {
      PlainIsFromLines(env, lines, i);
      FromIsPlus(BlockText(env, lines, i), LinesOf(lines, i, PlainAt(env, lines, i).next));
    }
  }

  lemma NextIsNext(env: Env, lines: seq<string>, i: nat, slugs: map<string, nat>)
    requires i < |lines| && !Blank(lines[i])
    ensures BlockAt(env, lines, i, slugs).next == NextAt(env, lines, i)
  {
  }

  lemma FlatNone()
    ensures Flat([]) == ""
  {
  }

  lemma {:induction false} PageIsFromLines(env: Env, lines: seq<string>, i: nat, slugs: map<string, nat>,
                                           path: seq<nat>)
    ensures FromPlus(Flat(PageTexts(env, lines, i)), if i <= |lines| then lines[i..] else [],
                     |PageIds.PageFrom(env, lines, i, slugs, path)|)
    decreases Weight(lines), if i <= |lines| then |lines| - i else 0, 2
  {
    hide From, FromPlus, TextAt, BlockAt, NextAt, Blank, PageIds.PageAt, SlugsAfter, Flat;
    if i >= |lines| {
      NothingIsFrom(if i <= |lines| then lines[i..] else []);
      FromIsPlus("", if i <= |lines| then lines[i..] else []);
      FlatNone();
    } else if Blank(lines[i]) {
      PageIsFromLines(env, lines, i + 1, slugs, path);
      NothingIsFrom([lines[i]]);
      FromIsPlus("", [lines[i]]);
      var rest, n := Flat(PageTexts(env, lines, i + 1)), |PageIds.PageFrom(env, lines, i + 1, slugs, path)|;
      FromPlusBoth("", [lines[i]], 0, rest, lines[i + 1..], n);
      assert [lines[i]] + lines[i + 1..] == lines[i..] && "" + rest == rest;
    } else {
      var next, text, after := NextAt(env, lines, i), TextAt(env, lines, i), SlugsAfter(env, lines[i], slugs);
      NextIsNext(env, lines, i, slugs);
      BlockIsFromLines(env, lines, i, slugs, path);
      PageIsFromLines(env, lines, next, after, path);
      var rest := PageTexts(env, lines, next);
      FlatBoth([text], rest);
      FlatOne(text);
      FromPlusBoth(text, LinesOf(lines, i, next), |PageIds.PageAt(env, lines, i, slugs, path)|, Flat(rest),
                   if next <= |lines| then lines[next..] else [], |PageIds.PageFrom(env, lines, next, after, path)|);
      assert LinesOf(lines, i, next) + (if next <= |lines| then lines[next..] else []) == lines[i..];
    }
  }

  /** Nothing is added: white space aside, the page as a reader sees it is the document with characters left out
      and at most one `#` put in for each heading, those of nested quotes included. */
  lemma PageAddsNothing(env: Env, lines: seq<string>)
    ensures WithinPlus(Ink(Visible(Join(Htmls(BlocksFrom(env, lines, 0, map[]).blocks), "\n"))), Flat(lines),
                       |PageIds.Page(env, lines)|)
  {
    hide PageTexts, BlocksFrom, Flat, Ink, Visible, Htmls, PageIds.PageFrom, WithinPlus;
    PageShowsItsText(env, lines);
    PageIsFromLines(env, lines, 0, map[], []);
    assert lines[0..] == lines;
    FromPlusJoin(PageTexts(env, lines, 0), lines, |PageIds.Page(env, lines)|);
  }
}
