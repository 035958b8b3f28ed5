/** What every rendered document has: well-formed HTML, every line in one block or between two, a
    table of contents that names its headings, and numbered anchors (gateway/shared/markdown.py). */
module Document {
  import opened Common
  import opened Html
  import opened Inline
  import opened Patterns
  import opened Slugs
  import opened Text
  import opened Blocks

  // ---- lines ----

  /** The lines from `i` up to `j`, as far as there are any, are blank. */
  ghost predicate Gap(lines: seq<string>, i: nat, j: nat) {
    forall k | i <= k < j && k < |lines| :: Blank(lines[k])
  }

  /** The blocks follow one another from line `i` on with only blank lines around them. */
  ghost predicate Tiles(lines: seq<string>, i: nat, blocks: seq<Block>, end: nat)
    decreases |blocks|
  {
    if |blocks| == 0 then i <= end && Gap(lines, i, end)
    else
      var b := blocks[0];
      && i <= b.start < b.next && b.start < |lines| && !Blank(lines[b.start]) && Gap(lines, i, b.start)
      && Tiles(lines, b.next, blocks[1..], end)
  }

  predicate OpenFence(lines: seq<string>, b: Block) {
    && b.start < |lines| && b.next == |lines| + 1
    && FenceOf(lines[b.start]).Some? && FenceEnd(lines, b.start + 1) == |lines|
  }

  lemma BlockEnds(env: Env, lines: seq<string>, i: nat, slugs: map<string, nat>)
    requires i < |lines| && !Blank(lines[i])
    ensures var b := BlockAt(env, lines, i, slugs);
            b.start == i && i < b.next <= |lines| + 1 && (b.next == |lines| + 1 ==> OpenFence(lines, b))
  {
  }

  lemma GapGrows(lines: seq<string>, i: nat, body: Body)
    requires i < |lines| && Blank(lines[i]) && Tiles(lines, i + 1, body.blocks, body.next)
    ensures Tiles(lines, i, body.blocks, body.next)
  {
  }

  /** Every line belongs to exactly one block or is a blank separator, and reading ends after the last
      line, or one further when the last block is a fence that nothing closes. */
  lemma {:induction false} LinesArePartitioned(env: Env, lines: seq<string>, i: nat, slugs: map<string, nat>)
    requires i <= |lines| + 1
    ensures var body := BlocksFrom(env, lines, i, slugs);
            Tiles(lines, i, body.blocks, body.next)
    ensures var body := BlocksFrom(env, lines, i, slugs);
            if i <= |lines| && (|body.blocks| > 0 ==> !OpenFence(lines, body.blocks[|body.blocks| - 1]))
            then body.next == |lines| else body.next == |lines| + 1
    decreases |lines| + 1 - i
  {
    hide HeadingBlock, PlainAt, FenceOf, FenceEnd, Blank, SlugsAfter;
    if i < |lines| {
      if Blank(lines[i]) {
        LinesArePartitioned(env, lines, i + 1, slugs);
        GapGrows(lines, i, BlocksFrom(env, lines, i + 1, slugs));
      } else {
        var block, after := BlockAt(env, lines, i, slugs), SlugsAfter(env, lines[i], slugs);
        BlockEnds(env, lines, i, slugs);
        LinesArePartitioned(env, lines, block.next, after);
        var rest := BlocksFrom(env, lines, block.next, after);
        assert ([block] + rest.blocks)[1..] == rest.blocks;
      }
    }
  }

  lemma {:induction false} TilesFollow(lines: seq<string>, i: nat, blocks: seq<Block>, end: nat)
    requires Tiles(lines, i, blocks, end)
    ensures forall m, n | 0 <= m < n < |blocks| :: blocks[m].next <= blocks[n].start
    ensures forall n | 0 <= n < |blocks| :: i <= blocks[n].start
    decreases |blocks|
  {
    if |blocks| > 0 {
      TilesFollow(lines, blocks[0].next, blocks[1..], end);
      assert forall n | 1 <= n < |blocks| :: blocks[n] == blocks[1..][n - 1];
    }
  }

  /** Tiles, line by line: no line is in two blocks, and a line in none is blank. */
  lemma {:induction false} TilesCover(lines: seq<string>, i: nat, blocks: seq<Block>, end: nat, k: nat)
    requires Tiles(lines, i, blocks, end) && i <= k < |lines| && |lines| <= end
    ensures (exists n :: 0 <= n < |blocks| && blocks[n].start <= k < blocks[n].next) || Blank(lines[k])
    ensures forall m, n | 0 <= m < n < |blocks| :: blocks[m].next <= blocks[n].start
    ensures forall n | 0 <= n < |blocks| :: i <= blocks[n].start
    decreases |blocks|
  {
    if |blocks| > 0 {
      var b := blocks[0];
      if k < b.next {
        TilesFollow(lines, b.next, blocks[1..], end);
      } else {
        TilesCover(lines, b.next, blocks[1..], end, k);
        if n :| 0 <= n < |blocks[1..]| && blocks[1..][n].start <= k < blocks[1..][n].next {
          assert blocks[n + 1] == blocks[1..][n];
        }
      }
      assert forall n | 1 <= n < |blocks| :: blocks[n] == blocks[1..][n - 1];
    }
  }

  // ---- well-formed output ----

  ghost predicate AllBalanced(parts: seq<string>) { forall k | 0 <= k < |parts| :: Balanced(parts[k]) }

  lemma NewlineIsBalanced()
    ensures Balanced("\n")
  {
    BalancedText("\n");
  }

  lemma {:induction false} JoinIsBalanced(parts: seq<string>)
    requires AllBalanced(parts)
    ensures Balanced(Join(parts, "\n"))
  {
    if |parts| == 0 {
      BalancedEmpty();
    } else if |parts| > 1 {
      NewlineIsBalanced();
      assert AllBalanced(parts[1..]);
      JoinIsBalanced(parts[1..]);
      BalancedConcat(parts[0], "\n");
      BalancedConcat(parts[0] + "\n", Join(parts[1..], "\n"));
    }
  }

  lemma WrapIsBalanced(body: string)
    requires Balanced(body)
    ensures Balanced("\n" + body + "\n")
  {
    NewlineIsBalanced();
    BalancedConcat("\n", body);
    BalancedConcat("\n" + body, "\n");
  }

  lemma BlockNames()
    ensures ElementName("pre") && ElementName("blockquote") && ElementName("p")
    ensures ElementName("ul") && ElementName("ol") && ElementName("li")
  {
    assert ElementName("pre");
    assert ElementName("blockquote");
    assert ElementName("p");
    assert ElementName("ul");
    assert ElementName("ol");
    assert ElementName("li");
  }

  lemma TableNames()
    ensures ElementName("div") && ElementName("table") && ElementName("thead") && ElementName("tbody")
    ensures ElementName("tr") && ElementName("th") && ElementName("td")
  {
    assert ElementName("div");
    assert ElementName("table");
    assert ElementName("thead");
    assert ElementName("tbody");
    assert ElementName("tr");
    assert ElementName("th");
    assert ElementName("td");
  }

  lemma HeadingNameIsElement(level: nat)
    ensures ElementName(HeadingName(level))
  {
    assert ElementName("h1");
    assert ElementName("h2");
    assert ElementName("h3");
    assert ElementName("h4");
    assert ElementName("h5");
    assert ElementName("h6");
  }

  /** One attribute whose value needs no escaping, before others. */
  lemma AttributeBefore(name: string, value: string, rest: string)
    requires name in {"class", "id", "style", "aria-label"} && '"' !in value && NoAngles(value) && Attributes(rest)
    ensures Attributes(Attribute(name, value) + rest)
  {
    if name == "class" {
      AttributeReads("class", value, rest);
    } else if name == "id" {
      AttributeReads("id", value, rest);
    } else if name == "style" {
      AttributeReads("style", value, rest);
    } else {
      AttributeReads("aria-label", value, rest);
    }
  }

  lemma AttributeAlone(name: string, value: string)
    requires name in {"class", "id", "style", "aria-label"} && '"' !in value && NoAngles(value)
    ensures Attributes(Attribute(name, value))
  {
    AttributeBefore(name, value, "");
    assert Attribute(name, value) + "" == Attribute(name, value);
  }

  lemma FenceIsBalanced(language: string, body: seq<string>)
    ensures Balanced(FenceHtml(language, body))
  {
    BlockNames();
    InlineNames();
    var css := if language == "" then "" else Attribute("class", "language-" + Escape(language, true));
    EscapeIsSafe(language, true);
    if language != "" {
      AttributeAlone("class", "language-" + Escape(language, true));
    }
    var code := Escape(Join(body, "\n"), false);
    EscapedIsBalanced(Join(body, "\n"));
    BalancedElement("code", css, code);
    PlainElementIsBalanced("pre", Element("code", css, code));
  }

  lemma LabelReads()
    ensures Attributes(ANCHOR_LABEL)
  {
    AttributeAlone("aria-label", "Link to this section");
  }

  lemma FragmentIsSafe(slug: string)
    ensures SafeTarget("#" + Escape(slug, true))
    ensures '"' !in "#" + Escape(slug, true) && NoAngles("#" + Escape(slug, true))
  {
    EscapeIsSafe(slug, true);
    hide Escape;
    assert ("#" + Escape(slug, true))[..1] == "#";
  }

  lemma FragmentReads(slug: string)
    ensures Attributes(Attribute("href", "#" + Escape(slug, true)) + ANCHOR_LABEL)
  {
    LabelReads();
    FragmentIsSafe(slug);
    hide Escape, Attributes, Attribute, NoAngles, SafeTarget;
    AttributeReads("href", "#" + Escape(slug, true), ANCHOR_LABEL);
  }

  lemma AnchorReads(slug: string)
    ensures Attributes(Attribute("class", "doc-anchor")
                       + (Attribute("href", "#" + Escape(slug, true)) + ANCHOR_LABEL))
  {
    FragmentReads(slug);
    hide Escape, Attributes, Attribute;
    AttributeBefore("class", "doc-anchor", Attribute("href", "#" + Escape(slug, true)) + ANCHOR_LABEL);
  }

  lemma HeadingIsBalanced(env: Env, h: Heading)
    ensures Balanced(HeadingHtml(env, h))
  {
    InlineNames();
    HeadingNameIsElement(h.level);
    AnchorReads(h.slug);
    BalancedText("#");
    var attributes := Attribute("class", "doc-anchor") + (Attribute("href", "#" + Escape(h.slug, true)) + ANCHOR_LABEL);
    BalancedElement("a", attributes, "#");
    InlineIsBalanced(env, h.text, 0);
    BalancedConcat(Rendered(env, h.text), Element("a", attributes, "#"));
    EscapeIsSafe(h.slug, true);
    AttributeAlone("id", Escape(h.slug, true));
    BalancedElement(HeadingName(h.level), Attribute("id", Escape(h.slug, true)),
                    Rendered(env, h.text) + Element("a", attributes, "#"));
  }

  ghost predicate AllAttributes(styles: seq<string>) { forall k | 0 <= k < |styles| :: Attributes(styles[k]) }

  lemma StyleReads(cell: string)
    ensures Attributes(Style(cell))
  {
    AttributeAlone("style", "text-align:center");
    AttributeAlone("style", "text-align:right");
  }

  lemma {:induction false} StylesRead(cells: seq<string>)
    ensures AllAttributes(Styles(cells))
  {
    if |cells| > 0 {
      StyleReads(cells[0]);
      StylesRead(cells[1..]);
    }
  }

  lemma {:induction false} RowIsBalanced(env: Env, name: string, cells: seq<string>, styles: seq<string>)
    requires ElementName(name) && AllAttributes(styles)
    ensures Balanced(RowHtml(env, name, cells, styles))
  {
    if |cells| == 0 {
      BalancedEmpty();
    } else {
      var style, others := if |styles| > 0 then styles[0] else "", if |styles| > 0 then styles[1..] else [];
      InlineIsBalanced(env, cells[0], 0);
      BalancedElement(name, style, Rendered(env, cells[0]));
      RowIsBalanced(env, name, cells[1..], others);
      BalancedConcat(Element(name, style, Rendered(env, cells[0])), RowHtml(env, name, cells[1..], others));
    }
  }

  lemma {:induction false} RowsAreBalanced(env: Env, rows: seq<string>, styles: seq<string>)
    requires AllAttributes(styles)
    ensures AllBalanced(TableRows(env, rows, styles))
  {
    if |rows| > 0 {
      TableNames();
      RowsAreBalanced(env, rows[..|rows| - 1], styles);
      RowIsBalanced(env, "td", SplitRow(rows[|rows| - 1]), styles);
      PlainElementIsBalanced("tr", RowHtml(env, "td", SplitRow(rows[|rows| - 1]), styles));
    }
  }

  lemma TableIsBalanced(head: string, rows: seq<string>)
    requires Balanced(head) && AllBalanced(rows)
    ensures Balanced(TableHtml(head, rows))
  {
    TableNames();
    NewlineIsBalanced();
    var top := Element("thead", "", Element("tr", "", head));
    var bottom := Element("tbody", "", "\n" + Join(rows, "\n") + "\n");
    PlainElementIsBalanced("tr", head);
    PlainElementIsBalanced("thead", Element("tr", "", head));
    JoinIsBalanced(rows);
    WrapIsBalanced(Join(rows, "\n"));
    PlainElementIsBalanced("tbody", "\n" + Join(rows, "\n") + "\n");
    WrapIsBalanced(top);
    BalancedConcat("\n" + top + "\n", bottom);
    BalancedConcat("\n" + top + "\n" + bottom, "\n");
    PlainElementIsBalanced("table", "\n" + top + "\n" + bottom + "\n");
    AttributeAlone("class", "doc-table-wrap");
    BalancedElement("div", Attribute("class", "doc-table-wrap"),
                    Element("table", "", "\n" + top + "\n" + bottom + "\n"));
  }

  lemma {:induction false} ItemsAreBalanced(items: seq<string>)
    requires AllBalanced(items)
    ensures AllBalanced(ListItems(items))
  {
    if |items| > 0 {
      BlockNames();
      PlainElementIsBalanced("li", items[0]);
      assert AllBalanced(items[1..]);
      ItemsAreBalanced(items[1..]);
    }
  }

  lemma ListHtmlIsBalanced(ordered: bool, items: seq<string>)
    requires AllBalanced(items)
    ensures Balanced(ListHtml(ordered, items))
  {
    BlockNames();
    ItemsAreBalanced(items);
    JoinIsBalanced(ListItems(items));
    WrapIsBalanced(Join(ListItems(items), "\n"));
    PlainElementIsBalanced(if ordered then "ol" else "ul", "\n" + Join(ListItems(items), "\n") + "\n");
  }

  lemma ExtendIsBalanced(items: seq<string>, space: string, more: string)
    requires |items| > 0 && AllBalanced(items) && NoAngles(space) && Balanced(more)
    ensures AllBalanced(Extend(items, space + more))
  {
    BalancedText(space);
    BalancedConcat(space, more);
    BalancedConcat(items[|items| - 1], space + more);
  }

  lemma {:induction false} ListIsBalanced(env: Env, lines: seq<string>, i: nat)
    requires i < |lines| && ItemOf(env, lines[i]).Some?
    ensures Balanced(ListAt(env, lines, i).0)
    decreases |lines| - i, 0
  {
    var first := ItemOf(env, lines[i]).value;
    InlineIsBalanced(env, first.text, 0);
    ListFromIsBalanced(env, lines, i + 1, first.indent, [Rendered(env, first.text)]);
    var rest := ListFrom(env, lines, i + 1, first.indent, [Rendered(env, first.text)]);
    ListHtmlIsBalanced(NumberedOf(env, lines[i]).Some?, rest.items);
  }

  lemma {:induction false} ListFromIsBalanced(env: Env, lines: seq<string>, i: nat, indent: nat, items: seq<string>)
    requires i <= |lines| && |items| > 0 && AllBalanced(items)
    ensures AllBalanced(ListFrom(env, lines, i, indent, items).items)
    decreases |lines| - i, 1
  {
    if i < |lines| {
      if Blank(lines[i]) {
        ListFromIsBalanced(env, lines, i + 1, indent, items);
      } else {
        match ItemOf(env, lines[i])
        case None =>
          InlineIsBalanced(env, Strip(lines[i]), 0);
          ExtendIsBalanced(items, " ", Rendered(env, Strip(lines[i])));
          ListFromIsBalanced(env, lines, i + 1, indent, Extend(items, " " + Rendered(env, Strip(lines[i]))));
        case Some(item) =>
          if item.indent > indent {
            ListIsBalanced(env, lines, i);
            var (html, j) := ListAt(env, lines, i);
            ExtendIsBalanced(items, "\n", html);
            ListFromIsBalanced(env, lines, j, indent, Extend(items, "\n" + html));
          } else if item.indent == indent {
            InlineIsBalanced(env, item.text, 0);
            ListFromIsBalanced(env, lines, i + 1, indent, items + [Rendered(env, item.text)]);
          }
      }
    }
  }

  lemma RuleIsBalanced()
    ensures Balanced(StartTag("hr", ""))
  {
    var name := "hr";
    assert name[0] == 'h' && name[1] == 'r' && |name| == 2;
    assert forall e | e in ELEMENTS && |e| == 2 && e[0] == 'h' :: e[1] != 'r';
    BalancedVoid(name);
  }

  lemma ParagraphIsBalanced(env: Env, body: seq<string>)
    ensures Balanced(ParagraphHtml(env, body))
  {
    BlockNames();
    InlineIsBalanced(env, Join(StripAll(body), "\n"), 0);
    PlainElementIsBalanced("p", Rendered(env, Join(StripAll(body), "\n")));
  }

  lemma QuoteIsBalanced(inner: seq<string>)
    requires AllBalanced(inner)
    ensures Balanced(QuoteHtml(inner))
  {
    BlockNames();
    JoinIsBalanced(inner);
    WrapIsBalanced(Join(inner, "\n"));
    PlainElementIsBalanced("blockquote", "\n" + Join(inner, "\n") + "\n");
  }

  lemma {:induction false} HtmlsAt(blocks: seq<Block>, k: nat)
    requires k < |blocks|
    ensures Htmls(blocks)[k] == blocks[k].html
  {
    if k < |blocks| - 1 {
      HtmlsAt(blocks[..|blocks| - 1], k);
    }
  }

  ghost predicate BlocksBalanced(blocks: seq<Block>) { forall k | 0 <= k < |blocks| :: Balanced(blocks[k].html) }

  lemma HtmlsAreBalanced(blocks: seq<Block>)
    requires BlocksBalanced(blocks)
    ensures AllBalanced(Htmls(blocks))
  {
    forall k | 0 <= k < |blocks| ensures Balanced(Htmls(blocks)[k]) {
      HtmlsAt(blocks, k);
    }
  }

  lemma {:induction false} PlainIsBalanced(env: Env, lines: seq<string>, i: nat)
    requires i < |lines| && !Blank(lines[i]) && !IsHeading(lines[i])
    ensures Balanced(PlainAt(env, lines, i).html)
    decreases Weight(lines), |lines| - i, 0
  {
    var line := lines[i];
    if FenceOf(line).Some? {
      FenceIsBalanced(FenceOf(line).value, lines[i + 1..FenceEnd(lines, i + 1)]);
    } else if IsRule(Strip(line)) {
      RuleIsBalanced();
    } else if IsQuote(line) {
      QuoteIsLighter(lines, i);
      var inner := Quoted(lines[i..]);
      BodyIsBalanced(env, inner, 0, map[]);
      HtmlsAreBalanced(BlocksFrom(env, inner, 0, map[]).blocks);
      QuoteIsBalanced(Htmls(BlocksFrom(env, inner, 0, map[]).blocks));
    } else if AtTable(lines, i) {
      var styles := Styles(SplitRow(lines[i + 1]));
      StylesRead(SplitRow(lines[i + 1]));
      TableNames();
      RowIsBalanced(env, "th", SplitRow(line), styles);
      var rows := lines[i + 2..TableEnd(lines, i + 2)];
      RowsAreBalanced(env, rows, styles);
      TableIsBalanced(RowHtml(env, "th", SplitRow(line), styles), TableRows(env, rows, styles));
    } else if ItemOf(env, line).Some? {
      ListIsBalanced(env, lines, i);
    } else {
      ParagraphIsBalanced(env, lines[i..ParagraphEnd(env, lines, i + 1)]);
    }
  }

  lemma {:induction false} BodyIsBalanced(env: Env, lines: seq<string>, i: nat, slugs: map<string, nat>)
    ensures BlocksBalanced(BlocksFrom(env, lines, i, slugs).blocks)
    decreases Weight(lines), if i <= |lines| then |lines| - i else 0, 1
  {
    hide HeadingHtml, HeadingOf, PlainAt, Balanced, Blank;
    if i < |lines| {
      if Blank(lines[i]) {
        BodyIsBalanced(env, lines, i + 1, slugs);
      } else {
        var block, after := BlockAt(env, lines, i, slugs), SlugsAfter(env, lines[i], slugs);
        if IsHeading(lines[i]) {
          HeadingIsBalanced(env, HeadingOf(env, TitleOf(lines[i]).value, slugs));
        } else {
          PlainIsBalanced(env, lines, i);
        }
        BodyIsBalanced(env, lines, block.next, after);
      }
    }
  }

  /** The main result on the output: whatever the document and the resolver, the page is well formed.
      Every tag is one the renderer knows, tags nest, links are safe, no text is read as markup. */
  lemma DocumentIsWellFormed(env: Env, lines: seq<string>)
    ensures WellFormed(Join(Htmls(BlocksFrom(env, lines, 0, map[]).blocks), "\n"))
  {
    BodyIsBalanced(env, lines, 0, map[]);
    HtmlsAreBalanced(BlocksFrom(env, lines, 0, map[]).blocks);
    JoinIsBalanced(Htmls(BlocksFrom(env, lines, 0, map[]).blocks));
    BalancedIsWellFormed(Join(Htmls(BlocksFrom(env, lines, 0, map[]).blocks), "\n"));
  }

  // ---- anchors and the table of contents ----

  /** The headings among the blocks, in order. */
  function Headings(blocks: seq<Block>): seq<Heading> {
    if |blocks| == 0 then []
    else (if blocks[0].heading.Some? then [blocks[0].heading.value] else []) + Headings(blocks[1..])
  }

  function Bases(env: Env, headings: seq<Heading>): (r: seq<string>)
    ensures |r| == |headings|
  {
    if |headings| == 0 then [] else [BaseSlug(env, headings[0].text)] + Bases(env, headings[1..])
  }

  function Ids(headings: seq<Heading>): (r: seq<string>)
    ensures |r| == |headings|
    ensures forall k | 0 <= k < |r| :: r[k] == headings[k].slug
  {
    if |headings| == 0 then [] else [headings[0].slug] + Ids(headings[1..])
  }

  function HeadingsFrom(env: Env, lines: seq<string>, i: nat, slugs: map<string, nat>): seq<Heading> {
    Headings(BlocksFrom(env, lines, i, slugs).blocks)
  }

  lemma NumberedStep(env: Env, before: seq<string>, h: Heading, rest: seq<Heading>)
    requires h.slug == Anchor(BaseSlug(env, h.text), Count(before, BaseSlug(env, h.text)))
    requires Numbered(before + [BaseSlug(env, h.text)], Bases(env, rest), Ids(rest))
    ensures Numbered(before, Bases(env, [h] + rest), Ids([h] + rest))
  {
    assert ([h] + rest)[1..] == rest;
    var base := BaseSlug(env, h.text);
    assert Bases(env, [h] + rest) == [base] + Bases(env, rest);
    assert ([base] + Bases(env, rest))[1..] == Bases(env, rest);
    assert ([h.slug] + Ids(rest))[1..] == Ids(rest);
  }

  /** The heading at a line that holds one comes first, then those after it. */
  lemma HeadingsStep(env: Env, lines: seq<string>, i: nat, slugs: map<string, nat>)
    requires i < |lines| && !Blank(lines[i])
    ensures var rest := HeadingsFrom(env, lines, BlockAt(env, lines, i, slugs).next, SlugsAfter(env, lines[i], slugs));
            HeadingsFrom(env, lines, i, slugs)
            == if IsHeading(lines[i]) then [HeadingOf(env, TitleOf(lines[i]).value, slugs)] + rest else rest
  {
    var block := BlockAt(env, lines, i, slugs);
    var rest := BlocksFrom(env, lines, block.next, SlugsAfter(env, lines[i], slugs)).blocks;
    assert ([block] + rest)[1..] == rest;
  }

  lemma TallyHeading(env: Env, title: Title, slugs: map<string, nat>, before: seq<string>)
    requires Tallies(slugs, before)
    ensures var base := BaseSlug(env, title.raw);
            && Tallies(CountBase(slugs, base), before + [base])
            && HeadingOf(env, title, slugs).slug == Anchor(base, Count(before, base))
  {
    TallyOne(slugs, before, BaseSlug(env, title.raw));
  }

  /** The headings of one renderer are numbered by how often their base came before. */
  lemma {:induction false} HeadingsAreNumbered(env: Env, lines: seq<string>, i: nat, slugs: map<string, nat>,
                                               before: seq<string>)
    requires Tallies(slugs, before)
    ensures var hs := HeadingsFrom(env, lines, i, slugs); Numbered(before, Bases(env, hs), Ids(hs))
    decreases |lines| + 1 - i
  {
    if i < |lines| {
      if Blank(lines[i]) {
        HeadingsAreNumbered(env, lines, i + 1, slugs, before);
      } else {
        HeadingsStep(env, lines, i, slugs);
        var next, after := BlockAt(env, lines, i, slugs).next, SlugsAfter(env, lines[i], slugs);
        if IsHeading(lines[i]) {
          var h := HeadingOf(env, TitleOf(lines[i]).value, slugs);
          TallyHeading(env, TitleOf(lines[i]).value, slugs, before);
          HeadingsAreNumbered(env, lines, next, after, before + [BaseSlug(env, h.text)]);
          NumberedStep(env, before, h, HeadingsFrom(env, lines, next, after));
        } else {
          HeadingsAreNumbered(env, lines, next, after, before);
        }
      }
    }
  }

  /** Two headings of one renderer share an id exactly when their bases differ and one of them, seen
      for the first time, spells out the number the other has been given. */
  lemma SharedAnchors(env: Env, lines: seq<string>, j: nat, k: nat)
    requires var hs := HeadingsFrom(env, lines, 0, map[]); j < k < |hs|
    ensures var hs := HeadingsFrom(env, lines, 0, map[]);
            var bases := Bases(env, hs);
            hs[j].slug == hs[k].slug
            <==> bases[j] != bases[k] && (Imitates(bases, j, k) || Imitates(bases, k, j))
  {
    var hs := HeadingsFrom(env, lines, 0, map[]);
    HeadingsAreNumbered(env, lines, 0, map[], []);
    SharedSlugs(Bases(env, hs), Ids(hs), j, k);
  }

  /** A title that `TitleReadsBack` covers, as a line. */
  lemma TitleLine(level: nat, raw: string)
    requires 1 <= level <= 6 && |raw| > 0
    requires !IsSpace(raw[0]) && !IsSpace(raw[|raw| - 1]) && raw[|raw| - 1] != '#'
    ensures var line := Hashes(level) + " " + raw;
            IsHeading(line) && !Blank(line) && TitleOf(line) == Some(Title(level, raw)) && line[0] == '#'
  {
    TitleReadsBack(level, raw);
    var line := Hashes(level) + " " + raw;
    assert line[0] == '#';
    hide TitleOf;
    assert line[..3][0] == '#';
  }

  lemma FirstHeading(env: Env, lines: seq<string>)
    requires |lines| > 0 && !Blank(lines[0]) && IsHeading(lines[0])
    ensures var hs := HeadingsFrom(env, lines, 0, map[]);
            |hs| > 0 && hs[0] == HeadingOf(env, TitleOf(lines[0]).value, map[])
  {
    HeadingsStep(env, lines, 0, map[]);
  }

  /** Ids are only kept apart within one renderer: a title and the same title quoted below it carry the
      same id in the page. */
  lemma QuotedTitlesRepeatIds(env: Env, level: nat, raw: string)
    requires 1 <= level <= 6 && |raw| > 0
    requires !IsSpace(raw[0]) && !IsSpace(raw[|raw| - 1]) && raw[|raw| - 1] != '#'
    ensures var title := Hashes(level) + " " + raw;
            var lines := [title, "> " + title];
            var outer, inner := HeadingsFrom(env, lines, 0, map[]), HeadingsFrom(env, Quoted(lines[1..]), 0, map[]);
            |outer| > 0 && |inner| > 0 && outer[0] == inner[0]
  {
    hide TitleOf, HeadingsFrom, Blank;
    var title := Hashes(level) + " " + raw;
    var lines := [title, "> " + title];
    TitleLine(level, raw);
    assert lines[1..] == ["> " + title] && lines[1..][1..] == [];
    assert ("> " + title)[2..] == title;
    assert Quoted(lines[1..]) == [title];
    FirstHeading(env, lines);
    FirstHeading(env, [title]);
  }

  /** Where the entries of the table of contents stand among the blocks. */
  function TocPositions(blocks: seq<Block>): (r: seq<nat>)
    ensures |r| == |Toc(blocks)|
    ensures forall k | 0 <= k < |r| :: r[k] < |blocks| && blocks[r[k]].heading == Some(Toc(blocks)[k])
    ensures forall j, k | 0 <= j < k < |r| :: r[j] < r[k]
  {
    if |blocks| == 0 then []
    else
      var n := |blocks| - 1;
      var last := blocks[n].heading;
      TocPositions(blocks[..n]) + (if last.Some? && last.value.level in TOC_LEVELS then [n] else [])
  }

  /** No heading of level 2 or 3 is left out. */
  lemma {:induction false} TocIsComplete(blocks: seq<Block>, n: nat)
    requires n < |blocks| && blocks[n].heading.Some?
    requires blocks[n].heading.value.level == 2 || blocks[n].heading.value.level == 3
    ensures n in TocPositions(blocks)
  {
    if n < |blocks| - 1 {
      TocIsComplete(blocks[..|blocks| - 1], n);
    }
  }

  lemma {:induction false} SlugIsPlain(s: string, word: bool)
    requires SlugPattern(s, word)
    ensures PlainChars(s)
  {
    if |s| > 0 {
      SlugIsPlain(s[1..], s[0] != '-');
      assert forall k | 1 <= k < |s| :: s[k] == s[1..][k - 1];
    }
  }

  lemma {:induction false} DecimalIsPlain(n: nat)
    ensures PlainChars(Decimal(n))
  {
    if n >= 10 {
      DecimalIsPlain(n / 10);
    }
    assert forall d | 0 <= d < 10 :: PlainChar(DIGITS[d]);
  }

  /** Anchors need no escaping: the id in the page is the slug itself. */
  lemma AnchorIsItself(env: Env, raw: string, count: nat)
    ensures var slug := Anchor(BaseSlug(env, raw), count); Escape(slug, true) == slug
  {
    var base := BaseSlug(env, raw);
    var slug := Anchor(base, count);
    SlugifyFitsPattern(env.lower, StripMarks(raw));
    SlugIsPlain(base, false);
    DecimalIsPlain(count + 1);
    EscapePlain(slug, "");
    assert slug + "" == slug;
  }

  ghost predicate OpensWithHeading(b: Block) {
    b.heading.Some? ==>
      var h := b.heading.value;
      HasPrefix(b.html, StartTag(HeadingName(h.level), Attribute("id", h.slug)))
  }

  lemma HeadingOpens(env: Env, title: Title, slugs: map<string, nat>)
    ensures var h := HeadingOf(env, title, slugs);
            HasPrefix(HeadingHtml(env, h), StartTag(HeadingName(h.level), Attribute("id", h.slug)))
  {
    var h := HeadingOf(env, title, slugs);
    AnchorIsItself(env, title.raw, Seen(slugs, BaseSlug(env, title.raw)));
    var tag := HeadingTag(h);
    var rest := HeadingHtml(env, h)[|tag|..];
    assert HeadingHtml(env, h)[..|tag|] == tag;
  }

  lemma BlockOpens(env: Env, lines: seq<string>, i: nat, slugs: map<string, nat>)
    requires i < |lines| && !Blank(lines[i])
    ensures OpensWithHeading(BlockAt(env, lines, i, slugs))
  {
    if IsHeading(lines[i]) {
      HeadingOpens(env, TitleOf(lines[i]).value, slugs);
    }
  }

  lemma {:induction false} HeadingsOpenTheirBlocks(env: Env, lines: seq<string>, i: nat, slugs: map<string, nat>)
    ensures forall b | b in BlocksFrom(env, lines, i, slugs).blocks :: OpensWithHeading(b)
    decreases |lines| + 1 - i
  {
    if i < |lines| {
      if Blank(lines[i]) {
        HeadingsOpenTheirBlocks(env, lines, i + 1, slugs);
      } else {
        var block, after := BlockAt(env, lines, i, slugs), SlugsAfter(env, lines[i], slugs);
        HeadingsOpenTheirBlocks(env, lines, block.next, after);
        BlockOpens(env, lines, i, slugs);
      }
    }
  }

  lemma {:induction false} TocLevels(blocks: seq<Block>, k: nat)
    requires k < |Toc(blocks)|
    ensures Toc(blocks)[k].level in TOC_LEVELS
  {
    var front := blocks[..|blocks| - 1];
    if k < |Toc(front)| {
      TocLevels(front, k);
    }
  }

  /** Entry `k` of the table of contents names the id that its own heading carries in the page, and
      the entries come in the order of the headings. */
  lemma TocNamesHeadings(env: Env, lines: seq<string>, k: nat)
    requires k < |Toc(BlocksFrom(env, lines, 0, map[]).blocks)|
    ensures var blocks := BlocksFrom(env, lines, 0, map[]).blocks;
            var h, at := Toc(blocks)[k], TocPositions(blocks)[k];
            && at < |blocks| && (h.level == 2 || h.level == 3) && blocks[at].heading == Some(h)
            && HasPrefix(blocks[at].html, StartTag(HeadingName(h.level), Attribute("id", h.slug)))
            && (k > 0 ==> TocPositions(blocks)[k - 1] < at)
  {
    var blocks := BlocksFrom(env, lines, 0, map[]).blocks;
    var at := TocPositions(blocks)[k];
    HeadingsOpenTheirBlocks(env, lines, 0, map[]);
    assert OpensWithHeading(blocks[at]);
    TocLevels(blocks, k);
  }
}
