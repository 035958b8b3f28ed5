/** The line patterns of the Markdown renderer as explicit scanners (gateway/shared/markdown.py).
    A line holds no line break: see Text.LinesAreClean. */
module Patterns {
  import opened Common
  import opened Html
  import opened Inline
  import opened Text

  function SkipChar(s: string, i: nat, c: char): (j: nat)
    requires i <= |s|
    ensures i <= j <= |s| && (j < |s| ==> s[j] != c) && forall k | i <= k < j :: s[k] == c
    decreases |s| - i
  {
    if i < |s| && s[i] == c then SkipChar(s, i + 1, c) else i
  }

  // ---- headings: ^(#{1,6})\s+(.+?)\s*#*\s*$ ----

  /** From `e` on the line is white space, a run of `#` and white space again. */
  predicate Trailer(line: string, e: nat)
    requires e <= |line|
  {
    SkipSpace(line, SkipChar(line, SkipSpace(line, e), '#')) == |line|
  }

  /** The lazy end of the title: the first position from `e` on that only a trailer follows. */
  function TitleEnd(line: string, e: nat): (r: nat)
    requires e <= |line|
    ensures e <= r <= |line| && Trailer(line, r) && forall k | e <= k < r :: !Trailer(line, k)
    decreases |line| - e
  {
    if Trailer(line, e) then e else
      assert e < |line|;
      TitleEnd(line, e + 1)
  }

  datatype Title = Title(level: nat, raw: string)

  /** A title of white space alone is possible: `\s+` then gives one character back to `.+?`. */
  function TitleOf(line: string): (r: Option<Title>)
    ensures r.Some? ==> 1 <= r.value.level <= 6 && |r.value.raw| > 0
  {
    var level := SkipChar(line, 0, '#');
    if !(1 <= level <= 6) || level == |line| || !IsSpace(line[level]) then None
    else
      var b := SkipSpace(line, level);
      if b < |line| then Some(Title(level, line[b..TitleEnd(line, b + 1)]))
      else if b >= level + 2 then Some(Title(level, line[b - 1..]))
      else None
  }

  // ---- fences: ^```\s*([A-Za-z0-9_+.-]*)\s*$ ----

  predicate LanguageChar(c: char) {
    'a' <= c <= 'z' || 'A' <= c <= 'Z' || '0' <= c <= '9' || c == '_' || c == '+' || c == '.' || c == '-'
  }

  function SkipLanguage(s: string, i: nat): (j: nat)
    requires i <= |s|
    ensures i <= j <= |s| && forall k | i <= k < j :: LanguageChar(s[k])
    decreases |s| - i
  {
    if i < |s| && LanguageChar(s[i]) then SkipLanguage(s, i + 1) else i
  }

  function FenceOf(line: string): (r: Option<string>) {
    if !HasPrefix(line, "```") then None
    else
      var b := SkipSpace(line, 3);
      var e := SkipLanguage(line, b);
      if SkipSpace(line, e) == |line| then Some(line[b..e]) else None
  }

  // ---- rules, quotes and list items ----

  predicate IsRule(stripped: string) {
    |stripped| >= 3 && stripped[0] in {'-', '*', '_'} && forall k | 0 <= k < |stripped| :: stripped[k] == stripped[0]
  }

  predicate IsQuote(line: string) { |line| > 0 && line[0] == '>' }

  function QuoteText(line: string): (r: string)
    requires IsQuote(line)
    ensures |r| < |line|
  {
    if |line| > 1 && IsSpace(line[1]) then line[2..] else line[1..]
  }

  datatype Item = Item(indent: nat, text: string)

  /** ^(\s*)[-*+]\s+(.*)$ */
  function BulletOf(line: string): (r: Option<Item>)
    ensures r.Some? ==> !Blank(line)
  {
    var i := SkipSpace(line, 0);
    if i + 1 < |line| && line[i] in {'-', '*', '+'} && IsSpace(line[i + 1]) then
      Some(Item(i, line[SkipSpace(line, i + 1)..]))
    else None
  }

  function SkipDigits(env: Env, s: string, i: nat): (j: nat)
    requires i <= |s|
    ensures i <= j <= |s| && forall k | i <= k < j :: env.digit(s[k])
    decreases |s| - i
  {
    if i < |s| && env.digit(s[i]) then SkipDigits(env, s, i + 1) else i
  }

  /** ^(\s*)\d+[.)]\s+(.*)$ */
  function NumberedOf(env: Env, line: string): (r: Option<Item>)
    ensures r.Some? ==> !Blank(line)
  {
    var i := SkipSpace(line, 0);
    var d := SkipDigits(env, line, i);
    if i < d && d + 1 < |line| && line[d] in {'.', ')'} && IsSpace(line[d + 1]) then
      Some(Item(i, line[SkipSpace(line, d + 1)..]))
    else None
  }

  function ItemOf(env: Env, line: string): (r: Option<Item>)
    ensures r.Some? ==> !Blank(line)
  {
    if BulletOf(line).Some? then BulletOf(line) else NumberedOf(env, line)
  }

  // ---- tables ----

  function StripAll(cells: seq<string>): (r: seq<string>)
    ensures |r| == |cells|
  {
    if |cells| == 0 then [] else [Strip(cells[0])] + StripAll(cells[1..])
  }

  function SplitRow(line: string): (r: seq<string>)
    ensures |r| > 0
  {
    StripAll(Split(StripChar(Strip(line), '|'), '|'))
  }

  /** :?-{2,}:? */
  predicate IsDividerCell(cell: string) {
    var a := if |cell| > 0 && cell[0] == ':' then 1 else 0;
    var z := if |cell| > a && cell[|cell| - 1] == ':' then |cell| - 1 else |cell|;
    a + 2 <= z && forall k | a <= k < z :: cell[k] == '-'
  }

  predicate IsDivider(line: string) {
    var cells := SplitRow(line);
    forall k | 0 <= k < |cells| :: IsDividerCell(cells[k])
  }

  function Style(cell: string): string {
    var left, right := |cell| > 0 && cell[0] == ':', |cell| > 0 && cell[|cell| - 1] == ':';
    if left && right then Attribute("style", "text-align:center")
    else if right then Attribute("style", "text-align:right")
    else ""
  }

  function Styles(cells: seq<string>): seq<string> {
    if |cells| == 0 then [] else [Style(cells[0])] + Styles(cells[1..])
  }

  predicate AtTable(lines: seq<string>, i: nat) {
    i + 1 < |lines| && '|' in lines[i] && |lines[i + 1]| > 0 && IsDivider(lines[i + 1])
  }

  // ---- paragraphs ----

  /** `_starts_block`: the line interrupts a paragraph. */
  predicate StartsBlock(env: Env, line: string) {
    || Blank(line) || TitleOf(line).Some? || FenceOf(line).Some? || IsRule(Strip(line)) || IsQuote(line)
    || BulletOf(line).Some? || NumberedOf(env, line).Some?
  }

  /** Where a paragraph stops before the end of the document. */
  predicate Interrupts(env: Env, lines: seq<string>, i: nat)
    requires i < |lines|
  {
    StartsBlock(env, lines[i]) || AtTable(lines, i)
  }

  // ---- titles as they are usually written ----

  function Hashes(n: nat): string { seq(n, _ => '#') }

  lemma {:induction false} SkipTo(s: string, i: nat, j: nat, c: char)
    requires i <= j <= |s| && (forall k | i <= k < j :: s[k] == c) && (j < |s| ==> s[j] != c)
    ensures SkipChar(s, i, c) == j
    decreases j - i
  {
    if i < j {
      SkipTo(s, i + 1, j, c);
    }
  }

  /** Before a last character that is neither white space nor `#` there is no trailer. */
  lemma NoTrailer(line: string, e: nat)
    requires e < |line| && !IsSpace(line[|line| - 1]) && line[|line| - 1] != '#'
    ensures !Trailer(line, e)
  {
  }

  lemma {:induction false} TitleRunsToTheEnd(line: string, e: nat)
    requires e <= |line| && |line| > 0 && !IsSpace(line[|line| - 1]) && line[|line| - 1] != '#'
    ensures TitleEnd(line, e) == |line|
    decreases |line| - e
  {
    if e < |line| {
      NoTrailer(line, e);
      TitleRunsToTheEnd(line, e + 1);
    }
  }

  lemma TitleParts(line: string, level: nat)
    requires 1 <= level <= 6 && level + 1 < |line|
    requires SkipChar(line, 0, '#') == level && line[level] == ' ' && !IsSpace(line[level + 1])
    ensures TitleOf(line) == Some(Title(level, line[level + 1..TitleEnd(line, level + 2)]))
  {
    hide TitleEnd, SkipChar, Trailer;
    assert SkipSpace(line, level + 1) == level + 1;
  }

  /** A title written as one to six `#`, a space and a text is read back as that level and that text;
      the text must begin and end with something else than white space, and not end with `#`. */
  lemma TitleReadsBack(level: nat, raw: string)
    requires 1 <= level <= 6 && |raw| > 0
    requires !IsSpace(raw[0]) && !IsSpace(raw[|raw| - 1]) && raw[|raw| - 1] != '#'
    ensures TitleOf(Hashes(level) + " " + raw) == Some(Title(level, raw))
  {
    hide TitleOf, TitleEnd, SkipChar, SkipSpace, Trailer, IsSpace;
    var line := Hashes(level) + " " + raw;
    assert forall k | 0 <= k < level :: line[k] == '#';
    assert line[level] == ' ' && line[level + 1] == raw[0] && line[|line| - 1] == raw[|raw| - 1];
    SkipTo(line, 0, level, '#');
    TitleParts(line, level);
    TitleRunsToTheEnd(line, level + 2);
    assert line[level + 1..|line|] == raw;
  }
}
