/** The block parser as it runs: one index shared by all block methods (`_Renderer` and `render` of
    gateway/shared/markdown.py). Every method is proved against the function of Blocks.dfy that says
    what it makes of the lines, and leaves the index where that function says. */
module Renderer {
  import opened Common
  import opened Html
  import opened Inline
  import opened Patterns
  import opened Slugs
  import opened Text
  import opened Blocks
  import opened Document
  import PageReading
  import Reading

  lemma QuotedStep(lines: seq<string>, i: nat, inner: seq<string>)
    requires i < |lines| && IsQuote(lines[i])
    ensures inner + Quoted(lines[i..]) == (inner + [QuoteText(lines[i])]) + Quoted(lines[i + 1..])
  {
    assert lines[i..][1..] == lines[i + 1..];
  }

  lemma QuotedEnd(lines: seq<string>, i: nat, inner: seq<string>)
    requires i <= |lines| && (i < |lines| ==> !IsQuote(lines[i]))
    ensures inner + Quoted(lines[i..]) == inner
  {
  }

  ghost function WithFront(done: seq<Block>, rest: Body): Body { Body(done + rest.blocks, rest.slugs, rest.next) }

  /** The blocks from a line on: nothing at the end, a separator, or a block and the rest. */
  lemma BlocksStep(env: Env, lines: seq<string>, i: nat, slugs: map<string, nat>, done: seq<Block>)
    ensures i >= |lines| ==> WithFront(done, BlocksFrom(env, lines, i, slugs)) == Body(done, slugs, i)
    ensures i < |lines| && Blank(lines[i]) ==> BlocksFrom(env, lines, i, slugs) == BlocksFrom(env, lines, i + 1, slugs)
    ensures i < |lines| && !Blank(lines[i]) ==>
              var block := BlockAt(env, lines, i, slugs);
              WithFront(done, BlocksFrom(env, lines, i, slugs))
              == WithFront(done + [block], BlocksFrom(env, lines, block.next, SlugsAfter(env, lines[i], slugs)))
  {
    if i >= |lines| {
      assert done + [] == done;
    } else if !Blank(lines[i]) {
      var block := BlockAt(env, lines, i, slugs);
      var rest := BlocksFrom(env, lines, block.next, SlugsAfter(env, lines[i], slugs)).blocks;
      assert done + ([block] + rest) == (done + [block]) + rest;
    }
  }

  lemma NothingInFront(body: Body)
    ensures WithFront([], body) == body
  {
    assert [] + body.blocks == body.blocks;
  }

  lemma PushLast(done: seq<Block>, block: Block)
    ensures Htmls(done + [block]) == Htmls(done) + [block.html]
    ensures Toc(done + [block]) == Toc(done) + Toc([block])
  {
    assert (done + [block])[..|done|] == done;
    assert [block][..0] == [];
  }

  lemma OneMore(lines: seq<string>, start: nat, i: nat)
    requires start <= i < |lines|
    ensures lines[start..i + 1] == lines[start..i] + [lines[i]]
  {
  }

  lemma RowsGrow(env: Env, rows: seq<string>, row: string, styles: seq<string>)
    ensures TableRows(env, rows + [row], styles)
            == TableRows(env, rows, styles) + [Element("tr", "", RowHtml(env, "td", SplitRow(row), styles))]
  {
    assert (rows + [row])[..|rows|] == rows;
  }

  function RestOf(styles: seq<string>, k: nat): seq<string> { if k <= |styles| then styles[k..] else [] }

  lemma RowStep(env: Env, name: string, cells: seq<string>, styles: seq<string>, k: nat, html: string)
    requires k < |cells|
    ensures var element := Element(name, if k < |styles| then styles[k] else "", Rendered(env, cells[k]));
            html + RowHtml(env, name, cells[k..], RestOf(styles, k))
            == html + element + RowHtml(env, name, cells[k + 1..], RestOf(styles, k + 1))
  {
    assert cells[k..][1..] == cells[k + 1..];
    var rest := RestOf(styles, k);
    assert (if |rest| > 0 then rest[1..] else []) == RestOf(styles, k + 1);
    Associate(html, Element(name, if k < |styles| then styles[k] else "", Rendered(env, cells[k])),
              RowHtml(env, name, cells[k + 1..], RestOf(styles, k + 1)));
  }

  class Renderer {
    const env: Env
    const lines: seq<string>
    var index: nat
    var toc: seq<Heading>
    var slugs: map<string, nat>

    constructor (lines: seq<string>, env: Env)
      ensures this.lines == lines && this.env == env
      ensures index == 0 && toc == [] && slugs == map[]
    {
      this.lines, this.env := lines, env;
      index, toc, slugs := 0, [], map[];
    }

    method UniqueSlug(text: string) returns (slug: string)
      modifies this`slugs
      ensures var base := Slugify(env.lower, text);
              slug == Anchor(base, Seen(old(slugs), base)) && slugs == CountBase(old(slugs), base)
    {
      slug := Slugify(env.lower, text);
      var count := if slug in slugs then slugs[slug] else 0;
      slugs := slugs[slug := count + 1];
      if count != 0 {
        slug := slug + "-" + Decimal(count + 1);
      }
    }

    /** Reads everything from the index on. */
    method Render() returns (out: seq<string>)
      requires index <= |lines|
      modifies this
      ensures var body := BlocksFrom(env, lines, old(index), old(slugs));
              && out == Htmls(body.blocks) && index == body.next && slugs == body.slugs
              && toc == old(toc) + Toc(body.blocks)
      decreases Weight(lines), |lines| + 1, 1
    {
      hide FenceOf, TitleOf, IsRule, Strip, AtTable, BulletOf, NumberedOf, Blank;
      hide FenceHtml, HeadingHtml, BaseSlug, TableHtml, RowHtml, TableRows, ListAt, ParagraphHtml, QuoteHtml,
        BlocksFrom, Htmls, WithFront, Slugify, Styles, SplitRow, Rendered, Escape;
      out := [];
      ghost var done: seq<Block> := [];
      ghost var whole := BlocksFrom(env, lines, index, slugs);
      NothingInFront(whole);
      while index < |lines|
        invariant index <= |lines| + 1
        invariant whole == WithFront(done, BlocksFrom(env, lines, index, slugs))
        invariant out == Htmls(done) && toc == old(toc) + Toc(done)
        decreases |lines| + 1 - index
      {
        var line := lines[index];
        BlocksStep(env, lines, index, slugs, done);
        if Blank(line) {
          index := index + 1;
        } else {
          ghost var block := BlockAt(env, lines, index, slugs);
          var html;
          if FenceOf(line).Some? {
            html := Fence(FenceOf(line).value);
          } else if TitleOf(line).Some? {
            html := Title(TitleOf(line).value);
          } else if IsRule(Strip(line)) {
            index := index + 1;
            html := StartTag("hr", "");
          } else if IsQuote(line) {
            html := Blockquote();
          } else if AtTable(lines, index) {
            html := Table();
          } else if BulletOf(line).Some? || NumberedOf(env, line).Some? {
            html := List();
          } else {
            html := Paragraph();
          }
          out := out + [html];
          PushLast(done, block);
          done := done + [block];
        }
      }
      BlocksStep(env, lines, index, slugs, done);
      assert whole == Body(done, slugs, index);
    }

    method Fence(language: string) returns (html: string)
      requires index < |lines|
      modifies this`index
      ensures var j := FenceEnd(lines, old(index) + 1);
              html == FenceHtml(language, lines[old(index) + 1..j]) && index == j + 1
    {
      index := index + 1;
      var body := [];
      while index < |lines| && !HasPrefix(lines[index], "```")
        invariant old(index) < index <= |lines| && body == lines[old(index) + 1..index]
        invariant FenceEnd(lines, index) == FenceEnd(lines, old(index) + 1)
      {
        OneMore(lines, old(index) + 1, index);
        body := body + [lines[index]];
        index := index + 1;
      }
      index := index + 1;
      var css := if language == "" then "" else Attribute("class", "language-" + Escape(language, true));
      html := Element("pre", "", Element("code", css, Escape(Join(body, "\n"), false)));
    }

    method Title(title: Title) returns (html: string)
      modifies this
      ensures var h := HeadingOf(env, title, old(slugs));
              && html == HeadingHtml(env, h) && index == old(index) + 1
              && slugs == CountBase(old(slugs), BaseSlug(env, title.raw))
              && toc == old(toc) + (if h.level == 2 || h.level == 3 then [h] else [])
    {
      index := index + 1;
      var slug := UniqueSlug(StripMarks(title.raw));
      if title.level in TOC_LEVELS {
        toc := toc + [Heading(title.level, title.raw, slug)];
      }
      var anchor := Element("a",
                            Attribute("class", "doc-anchor")
                            + (Attribute("href", "#" + Escape(slug, true)) + ANCHOR_LABEL),
                            "#");
      var shown := RenderInline(env, title.raw);
      html := StartTag(HeadingName(title.level), Attribute("id", Escape(slug, true)))
              + (shown + anchor) + EndTag(HeadingName(title.level));
    }

    method Blockquote() returns (html: string)
      requires index < |lines| && IsQuote(lines[index])
      modifies this`index
      ensures var inner := Quoted(lines[old(index)..]);
              && html == QuoteHtml(Htmls(BlocksFrom(env, inner, 0, map[]).blocks))
              && index == old(index) + |inner|
      decreases Weight(lines), |lines| + 1, 0
    {
      hide BlocksFrom, Htmls, Join, QuoteText;
      var inner := [];
      ghost var all := Quoted(lines[index..]);
      while index < |lines| && IsQuote(lines[index])
        invariant index == old(index) + |inner| <= |lines| && inner + Quoted(lines[index..]) == all
      {
        QuotedStep(lines, index, inner);
        inner := inner + [QuoteText(lines[index])];
        index := index + 1;
      }
      QuotedEnd(lines, index, inner);
      QuoteIsLighter(lines, old(index));
      var nested := new Renderer(inner, env);
      var body := nested.Render();
      html := Element("blockquote", "", "\n" + Join(body, "\n") + "\n");
    }

    method Row(name: string, cells: seq<string>, styles: seq<string>) returns (html: string)
      ensures html == RowHtml(env, name, cells, styles)
    {
      html := "";
      var k := 0;
      while k < |cells|
        invariant k <= |cells|
        invariant html + RowHtml(env, name, cells[k..], RestOf(styles, k)) == RowHtml(env, name, cells, styles)
      {
        var shown := RenderInline(env, cells[k]);
        RowStep(env, name, cells, styles, k, html);
        html := html + Element(name, if k < |styles| then styles[k] else "", shown);
        k := k + 1;
      }
    }

    method Table() returns (html: string)
      requires AtTable(lines, index)
      modifies this`index
      ensures var styles := Styles(SplitRow(lines[old(index) + 1]));
              var j := TableEnd(lines, old(index) + 2);
              && html == TableHtml(RowHtml(env, "th", SplitRow(lines[old(index)]), styles),
                                   TableRows(env, lines[old(index) + 2..j], styles))
              && index == j
    {
      hide SplitRow, Styles, RowHtml, Blank, IsDivider;
      var headers := SplitRow(lines[index]);
      var styles := Styles(SplitRow(lines[index + 1]));
      index := index + 2;
      var head := Row("th", headers, styles);
      var rows := [];
      while index < |lines| && !Blank(lines[index]) && '|' in lines[index]
        invariant old(index) + 2 <= index <= |lines|
        invariant rows == TableRows(env, lines[old(index) + 2..index], styles)
        invariant TableEnd(lines, index) == TableEnd(lines, old(index) + 2)
      {
        var body := Row("td", SplitRow(lines[index]), styles);
        OneMore(lines, old(index) + 2, index);
        RowsGrow(env, lines[old(index) + 2..index], lines[index], styles);
        rows := rows + [Element("tr", "", body)];
        index := index + 1;
      }
      html := TableHtml(head, rows);
    }

    method List() returns (html: string)
      requires index < |lines| && ItemOf(env, lines[index]).Some?
      modifies this`index
      ensures (html, index) == ListAt(env, lines, old(index))
      decreases |lines| - index
    {
      hide Blank, ItemOf, NumberedOf, Rendered, Strip, HasPrefix, Spaces, Extend, ListHtml;
      var base := ItemOf(env, lines[index]).value.indent;
      var ordered := NumberedOf(env, lines[index]).Some?;
      var items: seq<string> := [];
      ghost var start := index;
      ghost var all := ListFrom(env, lines, start + 1, base, [Rendered(env, ItemOf(env, lines[start]).value.text)]);
      while index < |lines|
        invariant start <= index <= |lines|
        invariant if items == [] then index == start
                  else index > start && all == ListFrom(env, lines, index, base, items)
        decreases |lines| - index
      {
        var line := lines[index];
        if Blank(line) {
          if index + 1 >= |lines| || Blank(lines[index + 1]) {
            break;
          }
          var follower := ItemOf(env, lines[index + 1]);
          if follower.None? || follower.value.indent < base {
            break;
          }
          index := index + 1;
          continue;
        }
        var item := ItemOf(env, line);
        if item.None? {
          // an indented plain line belongs to the current item
          if items != [] && HasPrefix(line, Spaces(base + 1)) {
            var more := RenderInline(env, Strip(line));
            items := Extend(items, " " + more);
            index := index + 1;
            continue;
          }
          break;
        }
        if item.value.indent < base {
          break;
        }
        if item.value.indent > base {
          if items != [] {
            var nested := List();
            items := Extend(items, "\n" + nested);
          } else {
            assert false; // a list starts at its own indent, so its first item is never deeper
          }
          continue;
        }
        var shown := RenderInline(env, item.value.text);
        assert items == [] ==> items + [shown] == [shown];
        items := items + [shown];
        index := index + 1;
      }
      assert all == Items(items, index);
      html := ListHtml(ordered, items);
    }

    method Paragraph() returns (html: string)
      requires index < |lines|
      modifies this`index
      ensures var j := ParagraphEnd(env, lines, old(index) + 1);
              html == ParagraphHtml(env, lines[old(index)..j]) && index == j
    {
      hide StartsBlock, AtTable, Rendered, Join, StripAll;
      var body := [lines[index]];
      index := index + 1;
      while index < |lines| && !StartsBlock(env, lines[index])
        invariant old(index) < index <= |lines| && body == lines[old(index)..index]
        invariant ParagraphEnd(env, lines, index) == ParagraphEnd(env, lines, old(index) + 1)
      {
        if AtTable(lines, index) {
          break;
        }
        OneMore(lines, old(index), index);
        body := body + [lines[index]];
        index := index + 1;
      }
      var shown := RenderInline(env, Join(StripAll(body), "\n"));
      html := Element("p", "", shown);
    }
  }

  datatype Page = Page(html: string, toc: seq<Heading>)

  /** `render`: the page is well formed, reads as the texts of its blocks, and its table of contents lists its
      headings in order. */
  method Render(text: string, env: Env) returns (page: Page)
    ensures var blocks := BlocksFrom(env, Lines(text), 0, map[]).blocks;
            page.html == Join(Htmls(blocks), "\n") && page.toc == Toc(blocks)
    ensures WellFormed(page.html)
    ensures Reading.Visible(page.html) == Join(PageReading.PageTexts(env, Lines(text), 0), "\n")
  {
    var renderer := new Renderer(Lines(text), env);
    var out := renderer.Render();
    PageReading.PageShowsItsText(env, Lines(text));
    DocumentIsWellFormed(env, Lines(text));
    page := Page(Join(out, "\n"), renderer.toc);
  }
}
