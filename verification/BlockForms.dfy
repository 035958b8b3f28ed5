/** What the block parser of gateway/shared/markdown.py makes of each construct: which lines begin it, told by the line
    patterns, how far it reaches, and the HTML it becomes, written out. */
module BlockForms {
  import opened Common
  import opened Blocks
  import opened Html
  import opened Inline
  import opened LinePatterns
  import opened Patterns
  import opened Slugs
  import opened Text

  // ---- which construct a line begins ----

  ghost predicate NoFence(line: string) { forall language :: !IsFence(line, language) }

  ghost predicate NoTitle(line: string) { forall level, raw :: !IsTitle(line, level, raw) }

  predicate RuleLine(line: string) {
    var s := Strip(line);
    |s| >= 3 && (AllAre(s, '-') || AllAre(s, '*') || AllAre(s, '_'))
  }

  ghost predicate NoItem(env: Env, line: string) {
    forall i, text :: !IsBullet(line, i, text) && !IsNumbered(env, line, i, text)
  }

  lemma FenceKind(line: string)
    ensures FenceOf(line).None? <==> NoFence(line)
  {
    hide FenceOf, IsFence;
    forall language ensures FenceOf(line) == Some(language) <==> IsFence(line, language) {
      FenceIff(line, language);
    }
    if FenceOf(line).Some? {
      assert IsFence(line, FenceOf(line).value);
    }
  }

  lemma TitleKind(line: string)
    ensures TitleOf(line).None? <==> NoTitle(line)
  {
    hide TitleOf, IsTitle;
    forall level: nat, raw ensures TitleOf(line) == Some(Title(level, raw)) <==> IsTitle(line, level, raw) {
      TitleIff(line, level, raw);
    }
    if TitleOf(line).Some? {
      assert IsTitle(line, TitleOf(line).value.level, TitleOf(line).value.raw);
    }
  }

  lemma RuleKind(line: string)
    ensures IsRule(Strip(line)) <==> RuleLine(line)
  {
    RuleIff(Strip(line));
  }

  lemma ItemKind(env: Env, line: string)
    requires Digits(env)
    ensures ItemOf(env, line).None? <==> NoItem(env, line)
  {
    hide BulletOf, NumberedOf, IsBullet, IsNumbered, Digits;
    forall i: nat, text
      ensures BulletOf(line) == Some(Item(i, text)) <==> IsBullet(line, i, text)
      ensures NumberedOf(env, line) == Some(Item(i, text)) <==> IsNumbered(env, line, i, text)
    {
      BulletIff(line, i, text);
      NumberedIff(env, line, i, text);
    }
    if BulletOf(line).Some? {
      assert IsBullet(line, BulletOf(line).value.indent, BulletOf(line).value.text);
    } else if NumberedOf(env, line).Some? {
      assert IsNumbered(env, line, NumberedOf(env, line).value.indent, NumberedOf(env, line).value.text);
    }
  }

  lemma BlankIs(line: string)
    ensures Blank(line) <==> White(line)
  {
    if White(line) {
      SkipsTo(line, 0, |line|);
    }
  }

  // ---- fences and rules ----

  lemma PlainTag(name: string)
    ensures StartTag(name, "") == "<" + name + ">"
  {
    assert "<" + name + "" == "<" + name;
  }

  lemma ClassAttribute(value: string)
    ensures Attribute("class", value) == " class=\"" + value + "\""
  {
    assert " " + "class" + "=\"" == " class=\"";
  }

  lemma CodeTag(language: string)
    ensures StartTag("code", Attribute("class", "language-" + language)) == "<code class=\"language-" + language + "\">"
  {
    hide Attribute;
    ClassAttribute("language-" + language);
    Associate(" class=\"", "language-", language);
    assert " class=\"" + "language-" == " class=\"language-";
    Associate("<code", " class=\"language-" + language, "\"");
    Associate("<code", " class=\"language-", language);
    assert "<code" + " class=\"language-" == "<code class=\"language-" && "<" + "code" == "<code";
    Associate("<code class=\"language-" + language, "\"", ">");
    assert "\"" + ">" == "\">";
  }

  lemma CodeInside(open: string, code: string)
    ensures "<pre>" + (open + code + "</code>") + "</pre>" == "<pre>" + open + code + "</code></pre>"
  {
    assert "</code>" + "</pre>" == "</code></pre>";
  }

  lemma CodeHtml(language: string, body: seq<string>)
    ensures FenceHtml(language, body)
            == "<pre>"
               + (if language == "" then "<code>" else "<code class=\"language-" + Escape(language, true) + "\">")
               + Escape(Join(body, "\n"), false) + "</code></pre>"
  {
    hide Escape, Attribute, StartTag, Join;
    PlainTag("pre");
    PlainTag("code");
    CodeTag(Escape(language, true));
    assert "<" + "pre" + ">" == "<pre>" && "<" + "code" + ">" == "<code>";
    assert EndTag("pre") == "</pre>" && EndTag("code") == "</code>";
    CodeInside(if language == "" then "<code>" else "<code class=\"language-" + Escape(language, true) + "\">",
               Escape(Join(body, "\n"), false));
  }

  lemma FenceReaches(lines: seq<string>, i: nat, j: nat)
    requires i <= j <= |lines| && (forall k | i <= k < j :: !("```" <= lines[k])) && (j < |lines| ==> "```" <= lines[j])
    ensures FenceEnd(lines, i) == j
    decreases j - i
  {
    if i < j {
      FenceReaches(lines, i + 1, j);
    }
  }

  /** A fence: every line up to the next one that begins with three backticks, or up to the end, as it stands. */
  lemma FenceForm(env: Env, lines: seq<string>, i: nat, j: nat, language: string, slugs: map<string, nat>)
    requires i < j <= |lines| && IsFence(lines[i], language) && !White(lines[i])
    requires (forall k | i < k < j :: !("```" <= lines[k])) && (j < |lines| ==> "```" <= lines[j])
    ensures !Blank(lines[i])
    ensures BlockAt(env, lines, i, slugs)
            == Block("<pre>"
                     + (if language == "" then "<code>"
                        else "<code class=\"language-" + Escape(language, true) + "\">")
                     + Escape(Join(lines[i + 1..j], "\n"), false) + "</code></pre>",
                     i, j + 1, None)
  {
    hide IsFence, FenceOf, Escape, FenceHtml, Join;
    BlankIs(lines[i]);
    FenceIff(lines[i], language);
    FenceReaches(lines, i + 1, j);
    CodeHtml(language, lines[i + 1..j]);
  }

  /** A rule. */
  lemma RuleForm(env: Env, lines: seq<string>, i: nat, slugs: map<string, nat>)
    requires i < |lines| && !White(lines[i]) && NoFence(lines[i]) && NoTitle(lines[i]) && RuleLine(lines[i])
    ensures !Blank(lines[i]) && BlockAt(env, lines, i, slugs) == Block("<hr>", i, i + 1, None)
  {
    hide NoFence, NoTitle, RuleLine, FenceOf, TitleOf, IsRule, Strip;
    BlankIs(lines[i]);
    FenceKind(lines[i]);
    TitleKind(lines[i]);
    RuleKind(lines[i]);
    PlainTag("hr");
    assert "<" + "hr" + ">" == "<hr>";
  }

  // ---- headings ----

  lemma HeadingTags(level: nat, id: string)
    requires 1 <= level <= 6
    ensures StartTag(HeadingName(level), Attribute("id", id)) == "<h" + Decimal(level) + " id=\"" + id + "\">"
    ensures EndTag(HeadingName(level)) == "</h" + Decimal(level) + ">"
  {
    assert HeadingName(level) == "h" + Decimal(level);
    assert Attribute("id", id) == " id=\"" + id + "\"";
    assert "<" + ("h" + Decimal(level)) == "<h" + Decimal(level);
    assert "</" + ("h" + Decimal(level)) == "</h" + Decimal(level);
  }

  lemma LabelAttribute()
    ensures "\"" + ANCHOR_LABEL == "\" aria-label=\"Link to this section\""
  {
  }

  lemma HrefAttribute(id: string)
    ensures Attribute("href", "#" + id) == " href=\"#" + id + "\""
  {
    assert " " + "href" + "=\"" == " href=\"";
    Associate(" href=\"", "#", id);
    assert " href=\"" + "#" == " href=\"#";
  }

  lemma AnchorAttributes(id: string)
    ensures Attribute("class", "doc-anchor") + (Attribute("href", "#" + id) + ANCHOR_LABEL)
            == " class=\"doc-anchor\" href=\"#" + id + "\" aria-label=\"Link to this section\""
  {
    hide Attribute, ANCHOR_LABEL;
    var rest := "\" aria-label=\"Link to this section\"";
    ClassAttribute("doc-anchor");
    assert " class=\"" + "doc-anchor" + "\"" == " class=\"doc-anchor\"";
    HrefAttribute(id);
    LabelAttribute();
    Associate(" href=\"#" + id, "\"", ANCHOR_LABEL);
    Associate(" class=\"doc-anchor\"", " href=\"#" + id, rest);
    Associate(" class=\"doc-anchor\"", " href=\"#", id);
    assert " class=\"doc-anchor\"" + " href=\"#" == " class=\"doc-anchor\" href=\"#";
  }

  lemma AnchorHtml(id: string)
    ensures Element("a", Attribute("class", "doc-anchor") + (Attribute("href", "#" + id) + ANCHOR_LABEL), "#")
            == "<a class=\"doc-anchor\" href=\"#" + id + "\" aria-label=\"Link to this section\">#</a>"
  {
    var before, after := " class=\"doc-anchor\" href=\"#", "\" aria-label=\"Link to this section\"";
    AnchorAttributes(id);
    assert StartTag("a", before + id + after) == "<a" + (before + id + after) + ">";
    Associate("<a", before + id, after);
    Associate("<a", before, id);
    assert "<a" + before == "<a class=\"doc-anchor\" href=\"#";
    Associate("<a" + before + id, after, ">");
    assert after + ">" == "\" aria-label=\"Link to this section\">";
    Associate("<a" + before + id, after + ">", "#");
    Associate("<a" + before + id, after + ">" + "#", EndTag("a"));
    assert after + ">" + "#" + EndTag("a") == "\" aria-label=\"Link to this section\">#</a>";
  }

  /** What the anchor of a heading is made from: its text without the marks of inline markup. */
  lemma {:induction false} MarksStripped(a: string, b: string)
    ensures StripMarks(a + b) == StripMarks(a) + StripMarks(b)
    ensures |a| == 1 ==> StripMarks(a) == if a == "`" || a == "*" || a == "_" then "" else a
  {
    if |a| == 0 {
      assert a + b == b;
    } else {
      assert (a + b)[0] == a[0] && (a + b)[1..] == a[1..] + b;
      MarksStripped(a[1..], b);
      Associate(if a[0] in {'`', '*', '_'} then "" else [a[0]], StripMarks(a[1..]), StripMarks(b));
      assert |a| == 1 ==> a == [a[0]] && a[1..] == "";
    }
  }

  /** A heading: its level, its text rendered, and the link to itself; the id is the slug of the text, numbered when
      it was seen before. */
  lemma HeadingForm(env: Env, lines: seq<string>, i: nat, level: nat, raw: string, slugs: map<string, nat>)
    requires i < |lines| && !White(lines[i]) && NoFence(lines[i]) && IsTitle(lines[i], level, raw)
    ensures !Blank(lines[i]) && 1 <= level <= 6
    ensures var base := Slugify(env.lower, StripMarks(raw));
            var seen := if base in slugs then slugs[base] else 0;
            var slug := if seen == 0 then base else base + "-" + Decimal(seen + 1);
            var id := Escape(slug, true);
            BlockAt(env, lines, i, slugs)
            == Block(("<h" + Decimal(level) + " id=\"" + id + "\">")
                     + (Rendered(env, raw)
                        + ("<a class=\"doc-anchor\" href=\"#" + id
                           + "\" aria-label=\"Link to this section\">#</a>"))
                     + ("</h" + Decimal(level) + ">"),
                     i, i + 1, Some(Heading(level, raw, slug)))
  {
    hide NoFence, IsTitle, FenceOf, TitleOf, Escape, Decimal, StripMarks, Slugify, InlineFrom, Element, Attribute;
    BlankIs(lines[i]);
    FenceKind(lines[i]);
    TitleIff(lines[i], level, raw);
    var h := HeadingOf(env, Title(level, raw), slugs);
    HeadingTags(level, Escape(h.slug, true));
    AnchorHtml(Escape(h.slug, true));
  }

  // ---- quotes ----

  /** The lines of a quote with the sign taken off, and one white space after it. */
  function Unquoted(lines: seq<string>): (inner: seq<string>)
    requires forall k | 0 <= k < |lines| :: lines[k] != "" && lines[k][0] == '>'
    ensures |inner| == |lines|
  {
    if |lines| == 0 then []
    else
      var rest := lines[0][1..];
      [if rest != "" && IsSpace(rest[0]) then rest[1..] else rest] + Unquoted(lines[1..])
  }

  lemma {:induction false} QuotedIs(lines: seq<string>, n: nat)
    requires n <= |lines| && (forall k | 0 <= k < n :: lines[k] != "" && lines[k][0] == '>')
    requires n < |lines| ==> lines[n] == "" || lines[n][0] != '>'
    ensures Quoted(lines) == Unquoted(lines[..n])
    decreases n
  {
    if n > 0 {
      QuotedIs(lines[1..], n - 1);
      assert lines[..n][1..] == lines[1..][..n - 1] && lines[..n][0] == lines[0];
    }
  }

  lemma QuotedBetween(lines: seq<string>, i: nat, j: nat)
    requires i <= j <= |lines| && (forall k | i <= k < j :: lines[k] != "" && lines[k][0] == '>')
    requires j < |lines| ==> lines[j] == "" || lines[j][0] != '>'
    ensures forall k | 0 <= k < j - i :: lines[i..j][k] == lines[i + k]
    ensures Quoted(lines[i..]) == Unquoted(lines[i..j])
  {
    hide Quoted, Unquoted;
    var rest := lines[i..];
    assert forall k | 0 <= k < |rest| :: rest[k] == lines[i + k];
    assert rest[..j - i] == lines[i..j];
    QuotedIs(rest, j - i);
  }

  lemma WrapHtml(name: string, inside: string)
    ensures Element(name, "", "\n" + inside + "\n") == "<" + name + ">\n" + inside + "\n</" + name + ">"
  {
    PlainTag(name);
    Associate("<" + name + ">", "\n" + inside, "\n");
    Associate("<" + name + ">", "\n", inside);
    assert "<" + name + ">" + "\n" == "<" + name + ">\n";
    Associate("<" + name + ">\n" + inside, "\n", "</" + name + ">");
    assert "\n" + ("</" + name + ">") == "\n</" + name + ">";
    Associate("<" + name + ">\n" + inside, "\n</" + name, ">");
    Associate("<" + name + ">\n" + inside, "\n</", name);
  }

  /** Neither a fence nor a heading nor a rule. */
  ghost predicate Ordinary(line: string) { !White(line) && NoFence(line) && NoTitle(line) && !RuleLine(line) }

  lemma OrdinaryKind(line: string)
    requires Ordinary(line)
    ensures !Blank(line) && FenceOf(line).None? && TitleOf(line).None? && !IsRule(Strip(line))
  {
    hide NoFence, NoTitle, RuleLine, FenceOf, TitleOf, IsRule, Strip, Blank, White;
    BlankIs(line);
    FenceKind(line);
    TitleKind(line);
    RuleKind(line);
  }

  lemma QuoteDispatch(env: Env, lines: seq<string>, i: nat, slugs: map<string, nat>)
    requires i < |lines| && Ordinary(lines[i]) && lines[i] != "" && lines[i][0] == '>'
    ensures !Blank(lines[i]) && IsQuote(lines[i]) && Weight(Quoted(lines[i..])) < Weight(lines)
    ensures var inner := Quoted(lines[i..]);
            BlockAt(env, lines, i, slugs)
            == Block(QuoteHtml(Htmls(BlocksFrom(env, inner, 0, map[]).blocks)), i, i + |inner|, None)
  {
    hide Ordinary, FenceOf, TitleOf, IsRule, Strip, Blank, Htmls, QuoteHtml, Quoted, Weight, BlocksFrom;
    OrdinaryKind(lines[i]);
    QuoteIsLighter(lines, i);
  }

  /** A quote: all the lines from here on that begin with the sign, parsed as a document of their own that counts its
      own slugs. */
  lemma QuoteForm(env: Env, lines: seq<string>, i: nat, j: nat, slugs: map<string, nat>)
    requires i < j <= |lines| && Ordinary(lines[i])
    requires forall k | i <= k < j :: lines[k] != "" && lines[k][0] == '>'
    requires j < |lines| ==> lines[j] == "" || lines[j][0] != '>'
    ensures !Blank(lines[i])
    ensures forall k | 0 <= k < j - i :: lines[i..j][k] == lines[i + k]
    ensures BlockAt(env, lines, i, slugs)
            == Block("<blockquote>\n" + Join(Htmls(BlocksFrom(env, Unquoted(lines[i..j]), 0, map[]).blocks), "\n")
                     + "\n</blockquote>", i, j, None)
  {
    hide Ordinary, BlocksFrom, Join, Htmls, Element, BlockAt, Unquoted, Quoted, Blank;
    QuotedBetween(lines, i, j);
    QuoteDispatch(env, lines, i, slugs);
    WrapHtml("blockquote", Join(Htmls(BlocksFrom(env, Unquoted(lines[i..j]), 0, map[]).blocks), "\n"));
  }

  // ---- tables ----

  /** Cells `0` to `n` of a row, each with the style of its column. */
  function CellsHtml(env: Env, name: string, cells: seq<string>, styles: seq<string>, n: nat): string
    requires n <= |cells|
  {
    if n == 0 then ""
    else
      CellsHtml(env, name, cells, styles, n - 1)
      + ("<" + name + (if n - 1 < |styles| then styles[n - 1] else "") + ">" + Rendered(env, cells[n - 1])
         + "</" + name + ">")
  }

  lemma {:induction false} CellsTail(env: Env, name: string, cells: seq<string>, styles: seq<string>, n: nat)
    requires 0 < n <= |cells|
    ensures var style := if |styles| > 0 then styles[0] else "";
            CellsHtml(env, name, cells, styles, n)
            == ("<" + name + style + ">" + Rendered(env, cells[0]) + "</" + name + ">")
               + CellsHtml(env, name, cells[1..], if |styles| > 0 then styles[1..] else [], n - 1)
  {
    hide InlineFrom;
    if n > 1 {
      var rest := if |styles| > 0 then styles[1..] else [];
      CellsTail(env, name, cells, styles, n - 1);
      assert cells[1..][n - 2] == cells[n - 1];
      assert n - 1 < |styles| ==> rest[n - 2] == styles[n - 1];
      var style := if n - 1 < |styles| then styles[n - 1] else "";
      var last := "<" + name + style + ">" + Rendered(env, cells[n - 1]) + "</" + name + ">";
      var first := "<" + name + (if |styles| > 0 then styles[0] else "") + ">" + Rendered(env, cells[0])
                   + "</" + name + ">";
      Associate(first, CellsHtml(env, name, cells[1..], rest, n - 2), last);
    }
  }

  lemma {:induction false} RowIsCells(env: Env, name: string, cells: seq<string>, styles: seq<string>)
    ensures RowHtml(env, name, cells, styles) == CellsHtml(env, name, cells, styles, |cells|)
    decreases |cells|
  {
    hide InlineFrom;
    if |cells| > 0 {
      CellsTail(env, name, cells, styles, |cells|);
      RowIsCells(env, name, cells[1..], if |styles| > 0 then styles[1..] else []);
    }
  }

  lemma {:induction false} StylesAre(cells: seq<string>)
    ensures |Styles(cells)| == |cells| && forall k | 0 <= k < |cells| :: Styles(cells)[k] == Style(cells[k])
  {
    if |cells| > 0 {
      StylesAre(cells[1..]);
    }
  }

  lemma {:induction false} RowsAre(env: Env, rows: seq<string>, styles: seq<string>)
    ensures |TableRows(env, rows, styles)| == |rows|
    ensures forall k | 0 <= k < |rows| ::
              var cells := SplitRow(rows[k]);
              TableRows(env, rows, styles)[k] == "<tr>" + CellsHtml(env, "td", cells, styles, |cells|) + "</tr>"
  {
    hide SplitRow, RowHtml, CellsHtml;
    if |rows| > 0 {
      var last := rows[|rows| - 1];
      RowsAre(env, rows[..|rows| - 1], styles);
      RowIsCells(env, "td", SplitRow(last), styles);
      PlainTag("tr");
      assert "<" + "tr" + ">" == "<tr>" && EndTag("tr") == "</tr>";
    }
  }

  lemma {:induction false} TableReaches(lines: seq<string>, i: nat, j: nat)
    requires i <= j <= |lines| && (forall k | i <= k < j :: !White(lines[k]) && '|' in lines[k])
    requires j < |lines| ==> White(lines[j]) || '|' !in lines[j]
    ensures TableEnd(lines, i) == j
    decreases j - i
  {
    hide White, Blank;
    if i < |lines| {
      BlankIs(lines[i]);
    }
    if i < j {
      TableReaches(lines, i + 1, j);
    }
  }

  lemma TableTags(head: string, rows: string)
    ensures Element("thead", "", Element("tr", "", head)) == "<thead><tr>" + head + "</tr></thead>"
    ensures Element("tbody", "", "\n" + rows + "\n") == "<tbody>\n" + rows + "\n</tbody>"
  {
    PlainTag("tr");
    PlainTag("thead");
    assert "<" + "tr" + ">" == "<tr>" && "<" + "thead" + ">" == "<thead>" && EndTag("tr") == "</tr>";
    Associate("<thead>", "<tr>" + head, "</tr>");
    Associate("<thead>", "<tr>", head);
    assert "<thead>" + "<tr>" == "<thead><tr>";
    Associate("<thead><tr>" + head, "</tr>", EndTag("thead"));
    assert "</tr>" + EndTag("thead") == "</tr></thead>";
    WrapHtml("tbody", rows);
    assert "<" + "tbody" + ">\n" == "<tbody>\n";
    Associate("<tbody>\n" + rows, "\n</", "tbody");
    assert "\n</" + "tbody" == "\n</tbody";
    Associate("<tbody>\n" + rows, "\n</tbody", ">");
    assert "\n</tbody" + ">" == "\n</tbody>";
  }

  lemma DivTag()
    ensures StartTag("div", Attribute("class", "doc-table-wrap")) == "<div class=\"doc-table-wrap\">"
  {
    hide Attribute;
    ClassAttribute("doc-table-wrap");
    assert " class=\"" + "doc-table-wrap" + "\"" == " class=\"doc-table-wrap\"";
    assert "<" + "div" == "<div";
    Associate("<div", " class=\"doc-table-wrap\"", ">");
  }

  lemma TableIs(head: string, rows: seq<string>)
    ensures TableHtml(head, rows)
            == "<div class=\"doc-table-wrap\">"
               + ("<table>"
                  + ("\n" + ("<thead><tr>" + head + "</tr></thead>") + "\n"
                     + ("<tbody>\n" + Join(rows, "\n") + "\n</tbody>") + "\n")
                  + "</table>")
               + "</div>"
  {
    hide Join, Attribute, StartTag;
    TableTags(head, Join(rows, "\n"));
    PlainTag("table");
    DivTag();
    assert "<" + "table" + ">" == "<table>" && EndTag("table") == "</table>" && EndTag("div") == "</div>";
  }

  /** A line with a bar in it over one whose cells are all dividers. */
  predicate TableLines(line: string, below: string) {
    && '|' in line && below != ""
    && var cells := SplitRow(below);
       forall k | 0 <= k < |cells| :: IsDividerCell(cells[k])
  }

  lemma TableDispatch(env: Env, lines: seq<string>, i: nat, slugs: map<string, nat>)
    requires i + 1 < |lines| && Ordinary(lines[i]) && lines[i] != "" && lines[i][0] != '>'
    requires TableLines(lines[i], lines[i + 1])
    ensures !Blank(lines[i])
    ensures var j, styles := TableEnd(lines, i + 2), Styles(SplitRow(lines[i + 1]));
            BlockAt(env, lines, i, slugs)
            == Block(TableHtml(RowHtml(env, "th", SplitRow(lines[i]), styles), TableRows(env, lines[i + 2..j], styles)),
                     i, j, None)
  {
    hide Ordinary, FenceOf, TitleOf, IsRule, Strip, Blank, SplitRow, TableHtml, TableRows, RowHtml, Styles;
    OrdinaryKind(lines[i]);
  }

  /** The rows of a table as HTML. */
  ghost predicate RowsShown(env: Env, body: seq<string>, styles: seq<string>, rows: seq<string>) {
    && |rows| == |body|
    && forall k | 0 <= k < |rows| ::
         var cells := SplitRow(body[k]);
         rows[k] == "<tr>" + CellsHtml(env, "td", cells, styles, |cells|) + "</tr>"
  }

  lemma RowsShownIs(env: Env, body: seq<string>, styles: seq<string>, rows: seq<string>)
    requires RowsShown(env, body, styles, rows)
    ensures TableRows(env, body, styles) == rows
  {
    hide SplitRow, CellsHtml;
    RowsAre(env, body, styles);
  }

  lemma StylesShown(cells: seq<string>, styles: seq<string>)
    requires |styles| == |cells| && forall k | 0 <= k < |cells| :: styles[k] == Style(cells[k])
    ensures Styles(cells) == styles
  {
    hide Style;
    StylesAre(cells);
  }

  /** A table: the head, the rows up to the first blank line or line without a bar, each cell rendered, and each
      column aligned as its divider says. */
  lemma TableForm(env: Env, lines: seq<string>, i: nat, j: nat, styles: seq<string>, rows: seq<string>,
                  slugs: map<string, nat>)
    requires i + 2 <= j <= |lines| && Ordinary(lines[i]) && lines[i] != "" && lines[i][0] != '>'
    requires TableLines(lines[i], lines[i + 1])
    requires forall k | i + 2 <= k < j :: !White(lines[k]) && '|' in lines[k]
    requires j < |lines| ==> White(lines[j]) || '|' !in lines[j]
    requires var dividers := SplitRow(lines[i + 1]);
             |styles| == |dividers| && forall k | 0 <= k < |dividers| :: styles[k] == Style(dividers[k])
    requires RowsShown(env, lines[i + 2..j], styles, rows)
    ensures !Blank(lines[i])
    ensures var head := SplitRow(lines[i]);
            BlockAt(env, lines, i, slugs)
            == Block("<div class=\"doc-table-wrap\">"
                     + ("<table>"
                        + ("\n" + ("<thead><tr>" + CellsHtml(env, "th", head, styles, |head|) + "</tr></thead>")
                           + "\n" + ("<tbody>\n" + Join(rows, "\n") + "\n</tbody>") + "\n")
                        + "</table>")
                     + "</div>", i, j, None)
  {
    hide Ordinary, Blank, SplitRow, TableHtml, RowHtml, Style, Styles, BlockAt, TableLines, White, Join, CellsHtml,
      RowsShown, TableRows;
    TableDispatch(env, lines, i, slugs);
    TableReaches(lines, i + 2, j);
    StylesShown(SplitRow(lines[i + 1]), styles);
    RowsShownIs(env, lines[i + 2..j], styles, rows);
    RowIsCells(env, "th", SplitRow(lines[i]), styles);
    TableIs(RowHtml(env, "th", SplitRow(lines[i]), styles), rows);
  }

  // ---- paragraphs ----

  /** What ends a paragraph, before the end of the document. */
  ghost predicate Stops(env: Env, lines: seq<string>, k: nat)
    requires k < |lines|
  {
    || !Ordinary(lines[k])
    || (lines[k] != "" && lines[k][0] == '>')
    || !NoItem(env, lines[k])
    || (k + 1 < |lines| && TableLines(lines[k], lines[k + 1]))
  }

  lemma StopsIs(env: Env, lines: seq<string>, k: nat)
    requires k < |lines| && Digits(env)
    ensures Interrupts(env, lines, k) <==> Stops(env, lines, k)
  {
    hide NoFence, NoTitle, RuleLine, FenceOf, TitleOf, IsRule, Strip, Blank, White, SplitRow, NoItem, BulletOf,
      NumberedOf, IsDividerCell;
    BlankIs(lines[k]);
    FenceKind(lines[k]);
    TitleKind(lines[k]);
    RuleKind(lines[k]);
    ItemKind(env, lines[k]);
  }

  lemma {:induction false} ParagraphReaches(env: Env, lines: seq<string>, i: nat, j: nat)
    requires i <= j <= |lines| && Digits(env)
    requires (forall k | i <= k < j :: !Stops(env, lines, k)) && (j < |lines| ==> Stops(env, lines, j))
    ensures ParagraphEnd(env, lines, i) == j
    decreases j - i
  {
    hide Stops, Interrupts;
    if i < |lines| {
      StopsIs(env, lines, i);
    }
    if i < j {
      ParagraphReaches(env, lines, i + 1, j);
    }
  }

  lemma ParagraphDispatch(env: Env, lines: seq<string>, i: nat, slugs: map<string, nat>)
    requires i < |lines| && Digits(env) && !Stops(env, lines, i)
    ensures !Blank(lines[i])
    ensures var j := ParagraphEnd(env, lines, i + 1);
            BlockAt(env, lines, i, slugs) == Block(ParagraphHtml(env, lines[i..j]), i, j, None)
  {
    hide Ordinary, FenceOf, TitleOf, IsRule, Strip, Blank, SplitRow, NoItem, ItemOf, ParagraphEnd, ParagraphHtml,
      IsDividerCell;
    OrdinaryKind(lines[i]);
    ItemKind(env, lines[i]);
  }

  /** Everything else is a paragraph: the lines up to the first that begins something, each stripped. */
  lemma ParagraphForm(env: Env, lines: seq<string>, i: nat, j: nat, slugs: map<string, nat>)
    requires i < j <= |lines| && Digits(env)
    requires (forall k | i <= k < j :: !Stops(env, lines, k)) && (j < |lines| ==> Stops(env, lines, j))
    ensures !Blank(lines[i])
    ensures BlockAt(env, lines, i, slugs)
            == Block("<p>" + Rendered(env, Join(StripAll(lines[i..j]), "\n")) + "</p>", i, j, None)
  {
    hide Stops, BlockAt, Blank, StripAll, Join, InlineFrom;
    ParagraphDispatch(env, lines, i, slugs);
    ParagraphReaches(env, lines, i + 1, j);
    PlainTag("p");
    assert "<" + "p" + ">" == "<p>" && EndTag("p") == "</p>";
  }

  // ---- lists ----

  /** A bullet or, when there is none, a number. */
  ghost predicate IsItem(env: Env, line: string, indent: nat, text: string) {
    IsBullet(line, indent, text)
    || (IsNumbered(env, line, indent, text) && forall i, other :: !IsBullet(line, i, other))
  }

  lemma ItemIff(env: Env, line: string, indent: nat, text: string)
    requires Digits(env)
    ensures ItemOf(env, line) == Some(Item(indent, text)) <==> IsItem(env, line, indent, text)
  {
    hide BulletOf, NumberedOf, IsBullet, IsNumbered, Digits;
    forall i: nat, other ensures BulletOf(line) == Some(Item(i, other)) <==> IsBullet(line, i, other) {
      BulletIff(line, i, other);
    }
    NumberedIff(env, line, indent, text);
    if BulletOf(line).Some? {
      assert IsBullet(line, BulletOf(line).value.indent, BulletOf(line).value.text);
    }
  }

  lemma {:induction false} ItemsAre(items: seq<string>)
    ensures |ListItems(items)| == |items|
    ensures forall k | 0 <= k < |items| :: ListItems(items)[k] == "<li>" + items[k] + "</li>"
  {
    if |items| > 0 {
      ItemsAre(items[1..]);
      PlainTag("li");
      assert "<" + "li" + ">" == "<li>" && EndTag("li") == "</li>";
    }
  }

  lemma ListEnd(before: string, name: string)
    ensures before + "\n</" + name + ">" == before + ("\n</" + name + ">")
  {
    Associate(before, "\n</" + name, ">");
    Associate(before, "\n</", name);
  }

  lemma ListTags(inside: string)
    ensures Element("ol", "", "\n" + inside + "\n") == "<ol>\n" + inside + "\n</ol>"
    ensures Element("ul", "", "\n" + inside + "\n") == "<ul>\n" + inside + "\n</ul>"
  {
    WrapHtml("ol", inside);
    WrapHtml("ul", inside);
    assert "<" + "ol" + ">\n" == "<ol>\n" && "<" + "ul" + ">\n" == "<ul>\n";
    ListEnd("<ol>\n" + inside, "ol");
    ListEnd("<ul>\n" + inside, "ul");
    assert "\n</" + "ol" + ">" == "\n</ol>" && "\n</" + "ul" + ">" == "\n</ul>";
  }

  lemma NumberedKind(env: Env, line: string)
    requires Digits(env)
    ensures NumberedOf(env, line).Some? <==> exists start, body :: IsNumbered(env, line, start, body)
  {
    hide NumberedOf, IsNumbered, Digits;
    forall start: nat, body
      ensures NumberedOf(env, line) == Some(Item(start, body)) <==> IsNumbered(env, line, start, body)
    {
      NumberedIff(env, line, start, body);
    }
    if NumberedOf(env, line).Some? {
      assert IsNumbered(env, line, NumberedOf(env, line).value.indent, NumberedOf(env, line).value.text);
    }
  }

  lemma ListDispatch(env: Env, lines: seq<string>, i: nat, slugs: map<string, nat>)
    requires i < |lines| && Ordinary(lines[i]) && lines[i] != "" && lines[i][0] != '>'
    requires i + 1 < |lines| ==> !TableLines(lines[i], lines[i + 1])
    requires ItemOf(env, lines[i]).Some?
    ensures !Blank(lines[i])
    ensures var (html, j) := ListAt(env, lines, i); BlockAt(env, lines, i, slugs) == Block(html, i, j, None)
  {
    hide Ordinary, FenceOf, TitleOf, IsRule, Strip, Blank, SplitRow, ItemOf, ListAt, IsDividerCell;
    OrdinaryKind(lines[i]);
  }

  lemma ListIs(env: Env, lines: seq<string>, i: nat, indent: nat, text: string, rows: seq<string>)
    requires i < |lines| && Digits(env) && ItemOf(env, lines[i]) == Some(Item(indent, text))
    requires var items := ListFrom(env, lines, i + 1, indent, [Rendered(env, text)]).items;
             |rows| == |items| && forall k | 0 <= k < |rows| :: rows[k] == "<li>" + items[k] + "</li>"
    ensures ListAt(env, lines, i)
            == (if NumberedOf(env, lines[i]).Some? then "<ol>\n" + Join(rows, "\n") + "\n</ol>"
                else "<ul>\n" + Join(rows, "\n") + "\n</ul>",
                ListFrom(env, lines, i + 1, indent, [Rendered(env, text)]).next)
  {
    hide NumberedOf, Digits, ItemOf, InlineFrom, ListFrom, Join;
    var rest := ListFrom(env, lines, i + 1, indent, [Rendered(env, text)]);
    ItemsAre(rest.items);
    assert ListItems(rest.items) == rows;
    ListTags(Join(rows, "\n"));
  }

  /** A list: numbered or not as its first item is, each item in its element. */
  lemma ListForm(env: Env, lines: seq<string>, i: nat, indent: nat, text: string, rows: seq<string>,
                 slugs: map<string, nat>)
    requires i < |lines| && Digits(env) && IsItem(env, lines[i], indent, text)
    requires Ordinary(lines[i]) && lines[i] != "" && lines[i][0] != '>'
    requires i + 1 < |lines| ==> !TableLines(lines[i], lines[i + 1])
    requires var items := ListFrom(env, lines, i + 1, indent, [Rendered(env, text)]).items;
             |rows| == |items| && forall k | 0 <= k < |rows| :: rows[k] == "<li>" + items[k] + "</li>"
    ensures !Blank(lines[i])
    ensures var next := ListFrom(env, lines, i + 1, indent, [Rendered(env, text)]).next;
            var numbered := exists start, body :: IsNumbered(env, lines[i], start, body);
            BlockAt(env, lines, i, slugs)
            == Block(if numbered then "<ol>\n" + Join(rows, "\n") + "\n</ol>"
                     else "<ul>\n" + Join(rows, "\n") + "\n</ul>", i, next, None)
  {
    hide IsItem, IsNumbered, NumberedOf, Digits, ItemOf, InlineFrom, ListFrom, ListAt, Join, Ordinary, TableLines,
      BlockAt, Blank;
    ItemIff(env, lines[i], indent, text);
    ListDispatch(env, lines, i, slugs);
    ListIs(env, lines, i, indent, text, rows);
    NumberedKind(env, lines[i]);
  }

  /** Some item begins at the line, indented at least so far. */
  ghost predicate ItemFollows(env: Env, lines: seq<string>, k: nat, indent: nat) {
    k < |lines| && exists deep: nat, text :: deep >= indent && IsItem(env, lines[k], deep, text)
  }

  lemma FollowsIs(env: Env, lines: seq<string>, k: nat, indent: nat)
    requires Digits(env)
    ensures ItemFollows(env, lines, k, indent)
            <==> k < |lines| && ItemOf(env, lines[k]).Some? && ItemOf(env, lines[k]).value.indent >= indent
  {
    hide IsItem, ItemOf, Digits;
    if k < |lines| {
      forall deep: nat, text
        ensures ItemOf(env, lines[k]) == Some(Item(deep, text)) <==> IsItem(env, lines[k], deep, text)
      {
        ItemIff(env, lines[k], deep, text);
      }
      if ItemOf(env, lines[k]).Some? {
        assert IsItem(env, lines[k], ItemOf(env, lines[k]).value.indent, ItemOf(env, lines[k]).value.text);
      }
    }
  }

  lemma IndentedIs(line: string, n: nat)
    ensures HasPrefix(line, Spaces(n)) <==> |line| >= n && AllAre(line[..n], ' ')
  {
  }

  /** How a list goes on after the items so far. An item of the same indent is the next one; a deeper one begins a list
      inside the last; a line indented further than the list continues the last item; a blank line is passed over when
      an item that is not less indented follows; anything else ends the list. */
  lemma ListRules(env: Env, lines: seq<string>, i: nat, indent: nat, items: seq<string>, deep: nat, text: string)
    requires i < |lines| && |items| > 0 && Digits(env)
    ensures White(lines[i]) ==>
              ListFrom(env, lines, i, indent, items)
              == if ItemFollows(env, lines, i + 1, indent) then ListFrom(env, lines, i + 1, indent, items)
                 else Items(items, i)
    ensures IsItem(env, lines[i], deep, text) && deep == indent ==>
              ListFrom(env, lines, i, indent, items)
              == ListFrom(env, lines, i + 1, indent, items + [Rendered(env, text)])
    ensures IsItem(env, lines[i], deep, text) && deep < indent ==>
              ListFrom(env, lines, i, indent, items) == Items(items, i)
    ensures IsItem(env, lines[i], deep, text) && deep > indent ==>
              && ItemOf(env, lines[i]).Some?
              && var (html, j) := ListAt(env, lines, i);
                 ListFrom(env, lines, i, indent, items)
                 == ListFrom(env, lines, j, indent,
                             items[..|items| - 1] + [items[|items| - 1] + ("\n" + html)])
    ensures !White(lines[i]) && !ItemFollows(env, lines, i, 0) ==>
              ListFrom(env, lines, i, indent, items)
              == if |lines[i]| > indent && AllAre(lines[i][..indent + 1], ' ') then
                   ListFrom(env, lines, i + 1, indent,
                            items[..|items| - 1] + [items[|items| - 1] + (" " + Rendered(env, Strip(lines[i])))])
                 else Items(items, i)
  {
    hide IsItem, ItemOf, ItemFollows, Digits, Blank, White, InlineFrom, Strip, ListAt, Spaces, AllAre;
    IndentedIs(lines[i], indent + 1);
    BlankIs(lines[i]);
    ItemIff(env, lines[i], deep, text);
    FollowsIs(env, lines, i, 0);
    FollowsIs(env, lines, i + 1, indent);
  }
}
