/** The string operations the Markdown renderer is written with: stripping, splitting and joining as
    Python does them, and how gateway/shared/markdown.py turns a document into lines. */
module Text {

  /** What `str.strip` and `\s` take for whitespace. */
  predicate IsSpace(c: char) {
    var n := c as int;
    || 0x09 <= n <= 0x0d || 0x1c <= n <= 0x20 || n == 0x85 || n == 0xa0 || n == 0x1680
    || 0x2000 <= n <= 0x200a || n == 0x2028 || n == 0x2029 || n == 0x202f || n == 0x205f || n == 0x3000
  }

  /** First position from `i` on that holds no whitespace. */
  function SkipSpace(s: string, i: nat): (j: nat)
    requires i <= |s|
    ensures i <= j <= |s| && (j < |s| ==> !IsSpace(s[j]))
    ensures forall k | i <= k < j :: IsSpace(s[k])
    decreases |s| - i
  {
    if i < |s| && IsSpace(s[i]) then SkipSpace(s, i + 1) else i
  }

  predicate Blank(s: string) { SkipSpace(s, 0) == |s| }

  function TrimRight(s: string): (r: string)
    ensures |r| <= |s| && r == s[..|r|] && (|r| > 0 ==> !IsSpace(r[|r| - 1]))
  {
    if |s| > 0 && IsSpace(s[|s| - 1]) then TrimRight(s[..|s| - 1]) else s
  }

  /** s.strip() */
  function Strip(s: string): (r: string)
    ensures |r| <= |s| && (|r| > 0 ==> !IsSpace(r[0]) && !IsSpace(r[|r| - 1]))
  {
    var rest := s[SkipSpace(s, 0)..];
    TrimRight(rest)
  }

  function TrimCharLeft(s: string, c: char): (r: string)
    ensures |r| <= |s|
  {
    if |s| > 0 && s[0] == c then TrimCharLeft(s[1..], c) else s
  }

  function TrimCharRight(s: string, c: char): (r: string)
    ensures |r| <= |s| && r == s[..|r|] && (|r| > 0 ==> r[|r| - 1] != c)
  {
    if |s| > 0 && s[|s| - 1] == c then TrimCharRight(s[..|s| - 1], c) else s
  }

  /** s.strip(c) */
  function StripChar(s: string, c: char): (r: string) { TrimCharRight(TrimCharLeft(s, c), c) }

  /** s.split(sep) */
  function Split(s: string, sep: char): (parts: seq<string>)
    ensures |parts| > 0
  {
    if |s| == 0 then [""]
    else
      var rest := Split(s[1..], sep);
      if s[0] == sep then [""] + rest else [[s[0]] + rest[0]] + rest[1..]
  }

  /** sep.join(parts) */
  function Join(parts: seq<string>, sep: string): string {
    if |parts| == 0 then "" else if |parts| == 1 then parts[0] else parts[0] + sep + Join(parts[1..], sep)
  }

  /** Splitting loses nothing and leaves no separator in any part. */
  lemma {:induction false} SplitThenJoin(s: string, sep: char)
    ensures Join(Split(s, sep), [sep]) == s
    ensures forall k | 0 <= k < |Split(s, sep)| :: sep !in Split(s, sep)[k]
  {
    if |s| > 0 {
      SplitThenJoin(s[1..], sep);
      var rest, parts := Split(s[1..], sep), Split(s, sep);
      assert forall k | 1 <= k < |rest| :: rest[1..][k - 1] == rest[k];
      assert s == [s[0]] + s[1..];
      if s[0] == sep {
        assert parts[1..] == rest;
      } else {
        assert parts[1..] == rest[1..];
        if |rest| > 1 {
          assert [s[0]] + rest[0] + [sep] + Join(rest[1..], [sep])
            == [s[0]] + (rest[0] + [sep] + Join(rest[1..], [sep]));
        }
      }
    }
  }

  lemma {:induction false} JoinAppend(parts: seq<string>, last: string, sep: string)
    requires |parts| > 0
    ensures Join(parts + [last], sep) == Join(parts, sep) + sep + last
  {
    assert (parts + [last])[1..] == parts[1..] + [last];
    if |parts| > 1 {
      JoinAppend(parts[1..], last, sep);
      assert parts[0] + sep + (Join(parts[1..], sep) + sep + last)
        == (parts[0] + sep + Join(parts[1..], sep)) + sep + last;
    } else {
      assert (parts + [last])[1..] == [last];
    }
  }

  // ---- a document into lines ----

  /** `\r\n` and `\r` become `\n`. */
  function Newlines(s: string): string
    decreases |s|
  {
    if |s| == 0 then ""
    else if s[0] == '\r' then "\n" + Newlines(if |s| > 1 && s[1] == '\n' then s[2..] else s[1..])
    else [s[0]] + Newlines(s[1..])
  }

  function Spaces(n: nat): string { seq(n, _ => ' ') }

  const TAB_WIDTH := 4

  /** s.expandtabs(4), from the given column on. */
  function ExpandTabs(s: string, column: nat): string {
    if |s| == 0 then ""
    else if s[0] == '\t' then
      var n := TAB_WIDTH - column % TAB_WIDTH;
      Spaces(n) + ExpandTabs(s[1..], column + n)
    else [s[0]] + ExpandTabs(s[1..], if s[0] == '\n' || s[0] == '\r' then 0 else column + 1)
  }

  /** The lines `render` works on. */
  function Lines(text: string): seq<string> { Split(ExpandTabs(Newlines(text), 0), '\n') }

  lemma {:induction false} NewlinesRemoveReturns(s: string)
    ensures '\r' !in Newlines(s)
    decreases |s|
  {
    if |s| > 0 {
      NewlinesRemoveReturns(if s[0] == '\r' && |s| > 1 && s[1] == '\n' then s[2..] else s[1..]);
    }
  }

  lemma {:induction false} ExpandTabsRemovesTabs(s: string, column: nat)
    requires '\r' !in s
    ensures '\t' !in ExpandTabs(s, column) && '\r' !in ExpandTabs(s, column)
  {
    if |s| > 0 {
      var n := TAB_WIDTH - column % TAB_WIDTH;
      ExpandTabsRemovesTabs(s[1..], if s[0] == '\t' then column + n else if s[0] == '\n' then 0 else column + 1);
    }
  }

  lemma {:induction false} SplitKeepsAbsence(s: string, sep: char, c: char)
    requires c !in s
    ensures forall k | 0 <= k < |Split(s, sep)| :: c !in Split(s, sep)[k]
  {
    if |s| > 0 {
      SplitKeepsAbsence(s[1..], sep, c);
      var rest := Split(s[1..], sep);
      assert forall k | 1 <= k < |rest| :: rest[1..][k - 1] == rest[k];
    }
  }

  /** Lines hold no line break and no tab, so the `$` and `.` of the line patterns need no care. */
  lemma LinesAreClean(text: string)
    ensures forall k | 0 <= k < |Lines(text)| ::
              '\n' !in Lines(text)[k] && '\r' !in Lines(text)[k] && '\t' !in Lines(text)[k]
  {
    var s := ExpandTabs(Newlines(text), 0);
    NewlinesRemoveReturns(text);
    ExpandTabsRemovesTabs(Newlines(text), 0);
    SplitThenJoin(s, '\n');
    SplitKeepsAbsence(s, '\n', '\r');
    SplitKeepsAbsence(s, '\n', '\t');
  }
}
