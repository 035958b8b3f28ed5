/** What a reader sees of a whole page (gateway/shared/markdown.py): through lists in lists, quotes in quotes,
    tables and code, the texts of the blocks in order. */
module PageReading {
  import opened Common
  import opened Html
  import opened Inline
  import opened Patterns
  import opened Text
  import opened Reading
  import opened ReadingBlocks
  import opened Blocks
  import opened Document

  // ---- the text of a page ----

  function Framed(text: string): string { "\n" + text + "\n" }

  function RowTexts(env: Env, rows: seq<string>): seq<string> {
    if |rows| == 0 then [] else RowTexts(env, rows[..|rows| - 1]) + [CellTexts(env, SplitRow(rows[|rows| - 1]))]
  }

  function TableText(env: Env, head: string, rows: seq<string>): string {
    "\n" + CellTexts(env, SplitRow(head)) + "\n" + Framed(Join(RowTexts(env, rows), "\n")) + "\n"
  }

  function ListText(env: Env, lines: seq<string>, i: nat): string
    requires i < |lines| && ItemOf(env, lines[i]).Some?
    decreases |lines| - i, 0
  {
    var first := ItemOf(env, lines[i]).value;
    Framed(Join(ItemTexts(env, lines, i + 1, first.indent, [TextFrom(env, first.text, 0)]), "\n"))
  }

  /** The texts of the items of a list: a continuation is added after a space, a nested list after a break. */
  function ItemTexts(env: Env, lines: seq<string>, i: nat, indent: nat, texts: seq<string>): (r: seq<string>)
    requires i <= |lines| && |texts| > 0
    decreases |lines| - i, 1
  {
    if i == |lines| then texts
    else if Blank(lines[i]) then
      if i + 1 < |lines| && ItemOf(env, lines[i + 1]).Some? && ItemOf(env, lines[i + 1]).value.indent >= indent then
        ItemTexts(env, lines, i + 1, indent, texts)
      else texts
    else
      match ItemOf(env, lines[i])
      case None =>
        if HasPrefix(lines[i], Spaces(indent + 1)) then
          ItemTexts(env, lines, i + 1, indent, Extend(texts, " " + TextFrom(env, Strip(lines[i]), 0)))
        else texts
      case Some(item) =>
        if item.indent < indent then texts
        else if item.indent > indent then
          ItemTexts(env, lines, ListAt(env, lines, i).1, indent, Extend(texts, "\n" + ListText(env, lines, i)))
        else ItemTexts(env, lines, i + 1, indent, texts + [TextFrom(env, item.text, 0)])
  }

  /** The text of the block at a line that is neither blank nor a heading. */
  function BlockText(env: Env, lines: seq<string>, i: nat): string
    requires i < |lines| && !Blank(lines[i]) && !IsHeading(lines[i])
    decreases Weight(lines), |lines| - i, 0
  {
    var line := lines[i];
    if FenceOf(line).Some? then Join(lines[i + 1..FenceEnd(lines, i + 1)], "\n")
    else if IsRule(Strip(line)) then ""
    else if IsQuote(line) then
      QuoteIsLighter(lines, i);
      Framed(Join(PageTexts(env, Quoted(lines[i..]), 0), "\n"))
    else if AtTable(lines, i) then TableText(env, line, lines[i + 2..TableEnd(lines, i + 2)])
    else if ItemOf(env, line).Some? then ListText(env, lines, i)
    else TextFrom(env, Join(StripAll(lines[i..ParagraphEnd(env, lines, i + 1)]), "\n"), 0)
  }

  function NextAt(env: Env, lines: seq<string>, i: nat): (next: nat)
    requires i < |lines| && !Blank(lines[i])
    ensures i < next <= |lines| + 1
  {
    if IsHeading(lines[i]) then i + 1 else PlainAt(env, lines, i).next
  }

  function TextAt(env: Env, lines: seq<string>, i: nat): string
    requires i < |lines| && !Blank(lines[i])
    decreases Weight(lines), |lines| - i, 1
  {
    if IsHeading(lines[i]) then TextFrom(env, TitleOf(lines[i]).value.raw, 0) + "#" else BlockText(env, lines, i)
  }

  /** The texts of the blocks from line `i` on. */
  function PageTexts(env: Env, lines: seq<string>, i: nat): seq<string>
    decreases Weight(lines), if i <= |lines| then |lines| - i else 0, 2
  {
    if i >= |lines| then []
    else if Blank(lines[i]) then PageTexts(env, lines, i + 1)
    else [TextAt(env, lines, i)] + PageTexts(env, lines, NextAt(env, lines, i))
  }

  // ---- the page shows it ----

  ghost predicate AllShow(htmls: seq<string>, texts: seq<string>) {
    |htmls| == |texts| && forall k | 0 <= k < |htmls| :: Shows(htmls[k], texts[k])
  }

  lemma ShowsBreak()
    ensures Shows("\n", "\n") && Shows(" ", " ")
  {
    ShowsEscaped("\n");
    ShowsEscaped(" ");
    assert Escape("\n", false) == "\n" && Escape(" ", false) == " ";
  }

  lemma ShowsFramed(html: string, text: string)
    requires Shows(html, text)
    ensures Shows("\n" + html + "\n", Framed(text))
  {
    hide Shows;
    ShowsBreak();
    ShowsBoth("\n", "\n", html, text);
    ShowsBoth("\n" + html, "\n" + text, "\n", "\n");
  }

  lemma {:induction false} ShowsJoin(htmls: seq<string>, texts: seq<string>)
    requires AllShow(htmls, texts)
    ensures Shows(Join(htmls, "\n"), Join(texts, "\n"))
  {
    hide Shows;
    if |htmls| == 0 {
      ShowsNothing();
    } else if |htmls| > 1 {
      ShowsBreak();
      ShowsJoin(htmls[1..], texts[1..]);
      ShowsBoth(htmls[0], texts[0], "\n", "\n");
      ShowsBoth(htmls[0] + "\n", texts[0] + "\n", Join(htmls[1..], "\n"), Join(texts[1..], "\n"));
    }
  }

  lemma {:induction false} RowsShow(env: Env, rows: seq<string>, styles: seq<string>)
    requires AllAttributes(styles)
    ensures AllShow(TableRows(env, rows, styles), RowTexts(env, rows))
  {
    hide Shows;
    if |rows| > 0 {
      TableNames();
      RowsShow(env, rows[..|rows| - 1], styles);
      var cells := SplitRow(rows[|rows| - 1]);
      RowShowsItsCells(env, "td", cells, styles);
      ShowsElement("tr", "", RowHtml(env, "td", cells, styles), CellTexts(env, cells));
    }
  }

  lemma TableShows(env: Env, head: string, rows: seq<string>, styles: seq<string>)
    requires AllAttributes(styles)
    ensures Shows(TableHtml(RowHtml(env, "th", SplitRow(head), styles), TableRows(env, rows, styles)),
                  TableText(env, head, rows))
  {
    hide Shows, RowHtml, TableRows, RowTexts, CellTexts, SplitRow;
    TableNames();
    ShowsBreak();
    var cells, headHtml := CellTexts(env, SplitRow(head)), RowHtml(env, "th", SplitRow(head), styles);
    var htmls, texts := Join(TableRows(env, rows, styles), "\n"), Join(RowTexts(env, rows), "\n");
    RowShowsItsCells(env, "th", SplitRow(head), styles);
    ShowsElement("tr", "", headHtml, cells);
    ShowsElement("thead", "", Element("tr", "", headHtml), cells);
    RowsShow(env, rows, styles);
    ShowsJoin(TableRows(env, rows, styles), RowTexts(env, rows));
    ShowsFramed(htmls, texts);
    var top, bottom := Element("thead", "", Element("tr", "", headHtml)), Element("tbody", "", "\n" + htmls + "\n");
    ShowsElement("tbody", "", "\n" + htmls + "\n", Framed(texts));
    ShowsFramed(top, cells);
    ShowsBoth("\n" + top + "\n", "\n" + cells + "\n", bottom, Framed(texts));
    ShowsBoth("\n" + top + "\n" + bottom, "\n" + cells + "\n" + Framed(texts), "\n", "\n");
    ShowsElement("table", "", "\n" + top + "\n" + bottom + "\n", TableText(env, head, rows));
    AttributeAlone("class", "doc-table-wrap");
    ShowsElement("div", Attribute("class", "doc-table-wrap"), Element("table", "", "\n" + top + "\n" + bottom + "\n"),
                 TableText(env, head, rows));
  }

  lemma {:induction false} ItemsShow(items: seq<string>, texts: seq<string>)
    requires AllShow(items, texts)
    ensures AllShow(ListItems(items), texts)
  {
    hide Shows;
    if |items| > 0 {
      BlockNames();
      ShowsElement("li", "", items[0], texts[0]);
      ItemsShow(items[1..], texts[1..]);
    }
  }

  lemma ExtendShows(items: seq<string>, texts: seq<string>, gap: string, html: string, text: string)
    requires |items| > 0 && AllShow(items, texts) && Shows(gap, gap) && Shows(html, text)
    ensures AllShow(Extend(items, gap + html), Extend(texts, gap + text))
  {
    hide Shows;
    ShowsBoth(gap, gap, html, text);
    ShowsBoth(items[|items| - 1], texts[|items| - 1], gap + html, gap + text);
  }

  lemma ListHtmlShows(ordered: bool, items: seq<string>, texts: seq<string>)
    requires AllShow(items, texts)
    ensures Shows(ListHtml(ordered, items), Framed(Join(texts, "\n")))
  {
    hide Shows;
    BlockNames();
    ItemsShow(items, texts);
    ShowsJoin(ListItems(items), texts);
    ShowsFramed(Join(ListItems(items), "\n"), Join(texts, "\n"));
    ShowsElement(if ordered then "ol" else "ul", "", "\n" + Join(ListItems(items), "\n") + "\n",
                 Framed(Join(texts, "\n")));
  }

  /** Across nested lists and continuations: a list shows its items, each as its text. */
  lemma {:induction false} ListShows(env: Env, lines: seq<string>, i: nat)
    requires i < |lines| && ItemOf(env, lines[i]).Some?
    ensures Shows(ListAt(env, lines, i).0, ListText(env, lines, i))
    decreases |lines| - i, 0
  {
    hide Shows, InlineFrom, TextFrom;
    var first := ItemOf(env, lines[i]).value;
    InlineShows(env, first.text, 0);
    ListFromShows(env, lines, i + 1, first.indent, [Rendered(env, first.text)], [TextFrom(env, first.text, 0)]);
    ListHtmlShows(NumberedOf(env, lines[i]).Some?,
                  ListFrom(env, lines, i + 1, first.indent, [Rendered(env, first.text)]).items,
                  ItemTexts(env, lines, i + 1, first.indent, [TextFrom(env, first.text, 0)]));
  }

  lemma {:induction false} ListFromShows(env: Env, lines: seq<string>, i: nat, indent: nat, items: seq<string>,
                                         texts: seq<string>)
    requires i <= |lines| && |items| > 0 && AllShow(items, texts)
    ensures AllShow(ListFrom(env, lines, i, indent, items).items, ItemTexts(env, lines, i, indent, texts))
    decreases |lines| - i, 1
  {
    hide Shows, InlineFrom, TextFrom, Strip, ItemOf;
    if i < |lines| {
      if Blank(lines[i]) {
        ListFromShows(env, lines, i + 1, indent, items, texts);
      } else {
        ShowsBreak();
        match ItemOf(env, lines[i])
        case None =>
          InlineShows(env, Strip(lines[i]), 0);
          ExtendShows(items, texts, " ", Rendered(env, Strip(lines[i])), TextFrom(env, Strip(lines[i]), 0));
          ListFromShows(env, lines, i + 1, indent, Extend(items, " " + Rendered(env, Strip(lines[i]))),
                        Extend(texts, " " + TextFrom(env, Strip(lines[i]), 0)));
        case Some(item) =>
          if item.indent > indent {
            ListShows(env, lines, i);
            var (html, j) := ListAt(env, lines, i);
            ExtendShows(items, texts, "\n", html, ListText(env, lines, i));
            ListFromShows(env, lines, j, indent, Extend(items, "\n" + html),
                          Extend(texts, "\n" + ListText(env, lines, i)));
          } else if item.indent == indent {
            InlineShows(env, item.text, 0);
            ListFromShows(env, lines, i + 1, indent, items + [Rendered(env, item.text)],
                          texts + [TextFrom(env, item.text, 0)]);
          }
      }
    }
  }

  lemma RuleShows()
    ensures Shows(StartTag("hr", ""), "")
  {
    ShowsTag("hr");
    assert StartTag("hr", "") == "<" + "hr" + ">";
  }

  lemma QuoteShows(htmls: seq<string>, texts: seq<string>)
    requires AllShow(htmls, texts)
    ensures Shows(QuoteHtml(htmls), Framed(Join(texts, "\n")))
  {
    hide Shows;
    BlockNames();
    ShowsJoin(htmls, texts);
    ShowsFramed(Join(htmls, "\n"), Join(texts, "\n"));
    ShowsElement("blockquote", "", "\n" + Join(htmls, "\n") + "\n", Framed(Join(texts, "\n")));
  }

  lemma NoHtmls()
    ensures Htmls([]) == [] && AllShow([], [])
  {
  }

  lemma TitleIsText(env: Env, title: Title, slugs: map<string, nat>)
    ensures HeadingOf(env, title, slugs).text == title.raw
  {
  }

  lemma {:induction false} PlainShows(env: Env, lines: seq<string>, i: nat)
    requires i < |lines| && !Blank(lines[i]) && !IsHeading(lines[i])
    ensures Shows(PlainAt(env, lines, i).html, BlockText(env, lines, i))
    decreases Weight(lines), |lines| - i, 0
  {
    hide Shows, TableHtml, TableText, RowHtml, TableRows, ListAt, ListText, FenceHtml, QuoteHtml, ParagraphHtml,
      TextFrom, BlocksFrom, PageTexts, Styles, SplitRow, Htmls;
    var line := lines[i];
    if FenceOf(line).Some? {
      CodeShows(FenceOf(line).value, lines[i + 1..FenceEnd(lines, i + 1)]);
    } else if IsRule(Strip(line)) {
      RuleShows();
    } else if IsQuote(line) {
      QuoteIsLighter(lines, i);
      var inner := Quoted(lines[i..]);
      BodyShows(env, inner, 0, map[]);
      QuoteShows(Htmls(BlocksFrom(env, inner, 0, map[]).blocks), PageTexts(env, inner, 0));
    } else if AtTable(lines, i) {
      StylesRead(SplitRow(lines[i + 1]));
      TableShows(env, line, lines[i + 2..TableEnd(lines, i + 2)], Styles(SplitRow(lines[i + 1])));
    } else if ItemOf(env, line).Some? {
      ListShows(env, lines, i);
    } else {
      ParagraphShows(env, lines[i..ParagraphEnd(env, lines, i + 1)]);
    }
  }

  lemma HtmlsFirst(block: Block, rest: seq<Block>)
    ensures Htmls([block] + rest) == [block.html] + Htmls(rest)
    decreases |rest|
  {
    if |rest| == 0 {
      assert [block] + rest == [block] && Htmls([block][..0]) == [];
    } else {
      var all := [block] + rest;
      assert all[..|all| - 1] == [block] + rest[..|rest| - 1];
      HtmlsFirst(block, rest[..|rest| - 1]);
    }
  }

  lemma {:induction false} BlockShows(env: Env, lines: seq<string>, i: nat, slugs: map<string, nat>)
    requires i < |lines| && !Blank(lines[i])
    ensures Shows(BlockAt(env, lines, i, slugs).html, TextAt(env, lines, i))
    ensures BlockAt(env, lines, i, slugs).next == NextAt(env, lines, i)
    decreases Weight(lines), |lines| - i, 1
  {
    hide HeadingHtml, HeadingOf, PlainAt, BlockText, Shows, Blank, TextFrom;
    if IsHeading(lines[i]) {
      HeadingShows(env, HeadingOf(env, TitleOf(lines[i]).value, slugs));
      TitleIsText(env, TitleOf(lines[i]).value, slugs);
    } else {
      PlainShows(env, lines, i);
    }
  }

  lemma OneMoreShows(html: string, htmls: seq<string>, text: string, texts: seq<string>)
    requires Shows(html, text) && AllShow(htmls, texts)
    ensures AllShow([html] + htmls, [text] + texts)
  {
    hide Shows;
  }

  lemma {:induction false} BodyShows(env: Env, lines: seq<string>, i: nat, slugs: map<string, nat>)
    ensures AllShow(Htmls(BlocksFrom(env, lines, i, slugs).blocks), PageTexts(env, lines, i))
    decreases Weight(lines), if i <= |lines| then |lines| - i else 0, 2
  {
    hide BlockAt, TextAt, NextAt, Shows, Blank, Htmls, AllShow;
    if i >= |lines| {
      NoHtmls();
    } else if Blank(lines[i]) {
      BodyShows(env, lines, i + 1, slugs);
    } else {
      var block, after := BlockAt(env, lines, i, slugs), SlugsAfter(env, lines[i], slugs);
      BlockShows(env, lines, i, slugs);
      BodyShows(env, lines, block.next, after);
      var rest := BlocksFrom(env, lines, block.next, after).blocks;
      HtmlsFirst(block, rest);
      OneMoreShows(block.html, Htmls(rest), TextAt(env, lines, i), PageTexts(env, lines, block.next));
    }
  }

  /** A reader of the page sees the texts of its blocks, in order, and nothing else. */
  lemma PageShowsItsText(env: Env, lines: seq<string>)
    ensures Visible(Join(Htmls(BlocksFrom(env, lines, 0, map[]).blocks), "\n"))
            == Join(PageTexts(env, lines, 0), "\n")
  {
    hide BlocksFrom, PageTexts, Join, Htmls;
    BodyShows(env, lines, 0, map[]);
    ShowsJoin(Htmls(BlocksFrom(env, lines, 0, map[]).blocks), PageTexts(env, lines, 0));
    ShowsAlone(Join(Htmls(BlocksFrom(env, lines, 0, map[]).blocks), "\n"), Join(PageTexts(env, lines, 0), "\n"));
  }
}
