/** What a reader sees of whole blocks (gateway/shared/markdown.py): code verbatim, titles, paragraphs
    and table cells as the text of their lines. */
module ReadingBlocks {
  import opened Html
  import opened Inline
  import opened Patterns
  import opened Text
  import opened Reading
  import opened Blocks
  import opened Document

  lemma ShowsAlone(html: string, text: string)
    requires Shows(html, text)
    ensures Visible(html) == text
  {
    assert html + "" == html && text + "" == text;
    assert Visible(html + "") == text + Visible("");
  }

  lemma CodeShows(language: string, body: seq<string>)
    ensures Shows(FenceHtml(language, body), Join(body, "\n"))
  {
    var code := Join(body, "\n");
    var css := if language == "" then "" else Attribute("class", "language-" + Escape(language, true));
    BlockNames();
    InlineNames();
    EscapeIsSafe(language, true);
    if language != "" {
      AttributeAlone("class", "language-" + Escape(language, true));
    }
    ShowsEscaped(code);
    ShowsElement("code", css, Escape(code, false), code);
    ShowsElement("pre", "", Element("code", css, Escape(code, false)), code);
  }

  /** The lines between two fences read back exactly as they were written. */
  lemma CodeIsVerbatim(language: string, body: seq<string>)
    ensures Visible(FenceHtml(language, body)) == Join(body, "\n")
  {
    CodeShows(language, body);
    ShowsAlone(FenceHtml(language, body), Join(body, "\n"));
  }

  lemma ParagraphShows(env: Env, body: seq<string>)
    ensures Shows(ParagraphHtml(env, body), TextFrom(env, Join(StripAll(body), "\n"), 0))
  {
    var source := Join(StripAll(body), "\n");
    BlockNames();
    InlineShows(env, source, 0);
    ShowsElement("p", "", InlineFrom(env, source, 0), TextFrom(env, source, 0));
  }

  /** A paragraph reads as its stripped lines without the marks; nothing is added. */
  lemma ParagraphShowsItsLines(env: Env, body: seq<string>)
    ensures Visible(ParagraphHtml(env, body)) == TextFrom(env, Join(StripAll(body), "\n"), 0)
    ensures Within(Visible(ParagraphHtml(env, body)), Join(StripAll(body), "\n"))
  {
    var source := Join(StripAll(body), "\n");
    ParagraphShows(env, body);
    ShowsAlone(ParagraphHtml(env, body), TextFrom(env, source, 0));
    TextIsWithin(env, source, 0);
    Whole(source);
  }

  lemma HeadingShows(env: Env, h: Heading)
    ensures Shows(HeadingHtml(env, h), TextFrom(env, h.text, 0) + "#")
  {
    hide InlineFrom, TextFrom, Shows, HeadingName;
    var attributes := Attribute("class", "doc-anchor") + (Attribute("href", "#" + Escape(h.slug, true)) + ANCHOR_LABEL);
    var title, id := InlineFrom(env, h.text, 0), Attribute("id", Escape(h.slug, true));
    InlineNames();
    HeadingNameIsElement(h.level);
    AnchorReads(h.slug);
    ShowsEscaped("#");
    assert Escape("#", false) == "#";
    ShowsElement("a", attributes, "#", "#");
    InlineShows(env, h.text, 0);
    ShowsBoth(title, TextFrom(env, h.text, 0), Element("a", attributes, "#"), "#");
    EscapeIsSafe(h.slug, true);
    AttributeAlone("id", Escape(h.slug, true));
    ShowsElement(HeadingName(h.level), id, title + Element("a", attributes, "#"), TextFrom(env, h.text, 0) + "#");
  }

  /** A heading reads as its title, followed by the `#` of the link to it. */
  lemma HeadingShowsItsTitle(env: Env, h: Heading)
    ensures Visible(HeadingHtml(env, h)) == TextFrom(env, h.text, 0) + "#"
  {
    HeadingShows(env, h);
    ShowsAlone(HeadingHtml(env, h), TextFrom(env, h.text, 0) + "#");
  }

  /** The texts of the cells of a row, left to right. */
  function CellTexts(env: Env, cells: seq<string>): string {
    if |cells| == 0 then "" else TextFrom(env, cells[0], 0) + CellTexts(env, cells[1..])
  }

  /** A row shows every cell once, in order, however many alignments the divider gave. */
  lemma {:induction false} RowShowsItsCells(env: Env, name: string, cells: seq<string>, styles: seq<string>)
    requires ElementName(name) && AllAttributes(styles)
    ensures Shows(RowHtml(env, name, cells, styles), CellTexts(env, cells))
  {
    if |cells| == 0 {
      ShowsNothing();
    } else {
      var style, others := if |styles| > 0 then styles[0] else "", if |styles| > 0 then styles[1..] else [];
      InlineShows(env, cells[0], 0);
      ShowsElement(name, style, InlineFrom(env, cells[0], 0), TextFrom(env, cells[0], 0));
      RowShowsItsCells(env, name, cells[1..], others);
      ShowsBoth(Element(name, style, Rendered(env, cells[0])), TextFrom(env, cells[0], 0),
                RowHtml(env, name, cells[1..], others), CellTexts(env, cells[1..]));
    }
  }
}
