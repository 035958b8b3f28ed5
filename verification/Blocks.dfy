/** What the block parser of gateway/shared/markdown.py makes of a list of lines, as functions of the
    lines and a position. Renderer.dfy runs the parser itself against them. */
module Blocks {
  import opened Common
  import opened Html
  import opened Inline
  import opened Patterns
  import opened Slugs
  import opened Text

  /** A table-of-contents entry. */
  datatype Heading = Heading(level: nat, text: string, slug: string)

  /** One block: its HTML, the lines [start, next) it took, and the heading it is, if it is one. */
  datatype Block = Block(html: string, start: nat, next: nat, heading: Option<Heading>)

  datatype Body = Body(blocks: seq<Block>, slugs: map<string, nat>, next: nat)

  // ---- fenced code ----

  function FenceEnd(lines: seq<string>, i: nat): (j: nat)
    requires i <= |lines|
    ensures i <= j <= |lines| && (j < |lines| ==> HasPrefix(lines[j], "```"))
    ensures forall k | i <= k < j :: !HasPrefix(lines[k], "```")
    decreases |lines| - i
  {
    if i < |lines| && !HasPrefix(lines[i], "```") then FenceEnd(lines, i + 1) else i
  }

  function FenceHtml(language: string, body: seq<string>): string {
    var css := if language == "" then "" else Attribute("class", "language-" + Escape(language, true));
    Element("pre", "", Element("code", css, Escape(Join(body, "\n"), false)))
  }

  // ---- headings ----

  /** The text without the marks that inline markup uses. */
  function StripMarks(s: string): string {
    if |s| == 0 then "" else (if s[0] in {'`', '*', '_'} then "" else [s[0]]) + StripMarks(s[1..])
  }

  function BaseSlug(env: Env, raw: string): string { Slugify(env.lower, StripMarks(raw)) }

  function HeadingName(level: nat): string {
    match level
    case 1 => "h1" case 2 => "h2" case 3 => "h3" case 4 => "h4" case 5 => "h5" case _ => "h6"
  }

  const ANCHOR_LABEL := Attribute("aria-label", "Link to this section")

  function HeadingTag(h: Heading): string { StartTag(HeadingName(h.level), Attribute("id", Escape(h.slug, true))) }

  function HeadingHtml(env: Env, h: Heading): string {
    var anchor := Element("a",
                          Attribute("class", "doc-anchor")
                          + (Attribute("href", "#" + Escape(h.slug, true)) + ANCHOR_LABEL),
                          "#");
    HeadingTag(h) + (Rendered(env, h.text) + anchor) + EndTag(HeadingName(h.level))
  }

  // ---- tables ----

  function RowHtml(env: Env, name: string, cells: seq<string>, styles: seq<string>): string {
    if |cells| == 0 then ""
    else
      Element(name, if |styles| > 0 then styles[0] else "", Rendered(env, cells[0]))
      + RowHtml(env, name, cells[1..], if |styles| > 0 then styles[1..] else [])
  }

  function TableEnd(lines: seq<string>, i: nat): (j: nat)
    requires i <= |lines|
    ensures i <= j <= |lines| && (j < |lines| ==> Blank(lines[j]) || '|' !in lines[j])
    ensures forall k | i <= k < j :: !Blank(lines[k]) && '|' in lines[k]
    decreases |lines| - i
  {
    if i < |lines| && !Blank(lines[i]) && '|' in lines[i] then TableEnd(lines, i + 1) else i
  }

  function TableRows(env: Env, rows: seq<string>, styles: seq<string>): seq<string> {
    if |rows| == 0 then []
    else
      TableRows(env, rows[..|rows| - 1], styles)
      + [Element("tr", "", RowHtml(env, "td", SplitRow(rows[|rows| - 1]), styles))]
  }

  function TableHtml(head: string, rows: seq<string>): string {
    Element("div", Attribute("class", "doc-table-wrap"),
      Element("table", "",
        "\n" + Element("thead", "", Element("tr", "", head)) + "\n"
        + Element("tbody", "", "\n" + Join(rows, "\n") + "\n") + "\n"))
  }

  // ---- lists ----

  datatype Items = Items(items: seq<string>, next: nat)

  /** Appends to the last item. */
  function Extend(items: seq<string>, more: string): (r: seq<string>)
    requires |items| > 0
    ensures |r| == |items|
  {
    items[..|items| - 1] + [items[|items| - 1] + more]
  }

  function ListItems(items: seq<string>): seq<string> {
    if |items| == 0 then [] else [Element("li", "", items[0])] + ListItems(items[1..])
  }

  function ListHtml(ordered: bool, items: seq<string>): string {
    Element(if ordered then "ol" else "ul", "", "\n" + Join(ListItems(items), "\n") + "\n")
  }

  /** The list that starts at an item: its HTML and the line after it. */
  function ListAt(env: Env, lines: seq<string>, i: nat): (r: (string, nat))
    requires i < |lines| && ItemOf(env, lines[i]).Some?
    ensures i < r.1 <= |lines|
    decreases |lines| - i, 0
  {
    var first := ItemOf(env, lines[i]).value;
    var rest := ListFrom(env, lines, i + 1, first.indent, [Rendered(env, first.text)]);
    (ListHtml(NumberedOf(env, lines[i]).Some?, rest.items), rest.next)
  }

  /** The items of a list of the given indent, when those so far end before line `i`. */
  function ListFrom(env: Env, lines: seq<string>, i: nat, indent: nat, items: seq<string>): (r: Items)
    requires i <= |lines| && |items| > 0
    ensures i <= r.next <= |lines| && |r.items| >= |items|
    decreases |lines| - i, 1
  {
    if i == |lines| then Items(items, i)
    else if Blank(lines[i]) then
      if i + 1 < |lines| && ItemOf(env, lines[i + 1]).Some? && ItemOf(env, lines[i + 1]).value.indent >= indent then
        ListFrom(env, lines, i + 1, indent, items)
      else Items(items, i)
    else
      match ItemOf(env, lines[i])
      case None =>
        if HasPrefix(lines[i], Spaces(indent + 1)) then
          ListFrom(env, lines, i + 1, indent, Extend(items, " " + Rendered(env, Strip(lines[i]))))
        else Items(items, i)
      case Some(item) =>
        if item.indent < indent then Items(items, i)
        else if item.indent > indent then
          var (html, j) := ListAt(env, lines, i);
          ListFrom(env, lines, j, indent, Extend(items, "\n" + html))
        else ListFrom(env, lines, i + 1, indent, items + [Rendered(env, item.text)])
  }

  // ---- paragraphs ----

  function ParagraphEnd(env: Env, lines: seq<string>, i: nat): (j: nat)
    requires i <= |lines|
    ensures i <= j <= |lines| && (j < |lines| ==> Interrupts(env, lines, j))
    ensures forall k | i <= k < j :: !Interrupts(env, lines, k)
    decreases |lines| - i
  {
    if i < |lines| && !Interrupts(env, lines, i) then ParagraphEnd(env, lines, i + 1) else i
  }

  function ParagraphHtml(env: Env, body: seq<string>): string {
    Element("p", "", Rendered(env, Join(StripAll(body), "\n")))
  }

  // ---- quotes ----

  /** Characters and lines left to read: what every nested quote has less of. */
  function Weight(lines: seq<string>): nat {
    if |lines| == 0 then 0 else |lines[0]| + 1 + Weight(lines[1..])
  }

  /** What the quoted lines at the front say. */
  function Quoted(lines: seq<string>): (inner: seq<string>)
    ensures |inner| <= |lines| && (|lines| > 0 && IsQuote(lines[0]) ==> |inner| > 0)
    ensures Weight(inner) <= Weight(lines) && (|inner| > 0 ==> Weight(inner) < Weight(lines))
  {
    if |lines| > 0 && IsQuote(lines[0]) then
      var rest := Quoted(lines[1..]);
      assert ([QuoteText(lines[0])] + rest)[1..] == rest;
      [QuoteText(lines[0])] + rest
    else []
  }

  lemma {:induction false} WeightOfRest(lines: seq<string>, i: nat)
    requires i <= |lines|
    ensures Weight(lines[i..]) <= Weight(lines)
  {
    if i > 0 {
      WeightOfRest(lines[1..], i - 1);
      assert lines[1..][i - 1..] == lines[i..];
    } else {
      assert lines[0..] == lines;
    }
  }

  lemma QuoteIsLighter(lines: seq<string>, i: nat)
    requires i < |lines| && IsQuote(lines[i])
    ensures Weight(Quoted(lines[i..])) < Weight(lines)
  {
    WeightOfRest(lines, i);
  }

  // ---- the document ----

  function Htmls(blocks: seq<Block>): (r: seq<string>)
    ensures |r| == |blocks|
  {
    if |blocks| == 0 then [] else Htmls(blocks[..|blocks| - 1]) + [blocks[|blocks| - 1].html]
  }

  function QuoteHtml(inner: seq<string>): string { Element("blockquote", "", "\n" + Join(inner, "\n") + "\n") }

  function HeadingOf(env: Env, title: Title, slugs: map<string, nat>): Heading {
    var base := BaseSlug(env, title.raw);
    Heading(title.level, title.raw, Anchor(base, Seen(slugs, base)))
  }

  function Plain(html: string, start: nat, next: nat): Block { Block(html, start, next, None) }

  predicate IsHeading(line: string) { FenceOf(line).None? && TitleOf(line).Some? }

  function HeadingBlock(env: Env, title: Title, i: nat, slugs: map<string, nat>): Block {
    var h := HeadingOf(env, title, slugs);
    Block(HeadingHtml(env, h), i, i + 1, Some(h))
  }

  function CountBase(slugs: map<string, nat>, base: string): map<string, nat> {
    slugs[base := Seen(slugs, base) + 1]
  }

  /** The block at a line that is neither blank nor a heading, by the first construct that fits. */
  function PlainAt(env: Env, lines: seq<string>, i: nat): (r: Block)
    requires i < |lines| && !Blank(lines[i]) && !IsHeading(lines[i])
    ensures r.start == i && i < r.next <= |lines| + 1 && r.heading.None?
    ensures r.next == |lines| + 1 ==> FenceOf(lines[i]).Some? && FenceEnd(lines, i + 1) == |lines|
    decreases Weight(lines), |lines| - i, 0
  {
    var line := lines[i];
    if FenceOf(line).Some? then
      var j := FenceEnd(lines, i + 1);
      Plain(FenceHtml(FenceOf(line).value, lines[i + 1..j]), i, j + 1)
    else if IsRule(Strip(line)) then Plain(StartTag("hr", ""), i, i + 1)
    else if IsQuote(line) then
      QuoteIsLighter(lines, i);
      var inner := Quoted(lines[i..]);
      Plain(QuoteHtml(Htmls(BlocksFrom(env, inner, 0, map[]).blocks)), i, i + |inner|)
    else if AtTable(lines, i) then
      var styles := Styles(SplitRow(lines[i + 1]));
      var j := TableEnd(lines, i + 2);
      Plain(TableHtml(RowHtml(env, "th", SplitRow(line), styles), TableRows(env, lines[i + 2..j], styles)), i, j)
    else if ItemOf(env, line).Some? then
      var (html, j) := ListAt(env, lines, i);
      Plain(html, i, j)
    else
      var j := ParagraphEnd(env, lines, i + 1);
      Plain(ParagraphHtml(env, lines[i..j]), i, j)
  }

  /** The block at a line that is not blank. */
  function BlockAt(env: Env, lines: seq<string>, i: nat, slugs: map<string, nat>): (r: Block)
    requires i < |lines| && !Blank(lines[i])
    ensures r.start == i && i < r.next <= |lines| + 1
    decreases Weight(lines), |lines| - i, 1
  {
    if IsHeading(lines[i]) then HeadingBlock(env, TitleOf(lines[i]).value, i, slugs) else PlainAt(env, lines, i)
  }

  /** The slug counts after the block at a line. */
  function SlugsAfter(env: Env, line: string, slugs: map<string, nat>): map<string, nat> {
    if IsHeading(line) then CountBase(slugs, BaseSlug(env, TitleOf(line).value.raw)) else slugs
  }

  /** The blocks from line `i` on. */
  function BlocksFrom(env: Env, lines: seq<string>, i: nat, slugs: map<string, nat>): (r: Body)
    decreases Weight(lines), if i <= |lines| then |lines| - i else 0, 2
  {
    if i >= |lines| then Body([], slugs, i)
    else if Blank(lines[i]) then BlocksFrom(env, lines, i + 1, slugs)
    else
      var block := BlockAt(env, lines, i, slugs);
      var rest := BlocksFrom(env, lines, block.next, SlugsAfter(env, lines[i], slugs));
      Body([block] + rest.blocks, rest.slugs, rest.next)
  }

  const TOC_LEVELS: set<nat> := {2, 3}

  /** The headings that go into the table of contents, in order. */
  function Toc(blocks: seq<Block>): seq<Heading> {
    if |blocks| == 0 then []
    else
      var last := blocks[|blocks| - 1].heading;
      Toc(blocks[..|blocks| - 1]) + (if last.Some? && last.value.level in TOC_LEVELS then [last.value] else [])
  }
}
