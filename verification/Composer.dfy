/** The browser's live counter, gateway/api/static/composer.js `analyse`: one pass over the
    characters of a JavaScript string, where the server makes two. A JavaScript string is a sequence
    of UTF-16 code units and `Array.from` walks it by code point. */
module Composer {
  import opened Segments

  type Unit = u: nat | u < 0x1_0000

  // ---- UTF-16 ----

  function Utf16Char(ch: char): seq<Unit> {
    var c := ch as int;
    if c <= 0xFFFF then [c] else [0xD800 + (c - 0x1_0000) / 0x400, 0xDC00 + (c - 0x1_0000) % 0x400]
  }

  function Utf16(text: string): seq<Unit> {
    if |text| == 0 then [] else Utf16Char(text[0]) + Utf16(text[1..])
  }

  predicate IsHigh(u: Unit) { 0xD800 <= u < 0xDC00 }

  predicate IsLow(u: Unit) { 0xDC00 <= u < 0xE000 }

  /** Array.from: a high surrogate directly followed by a low one is one element. */
  function ArrayFrom(units: seq<Unit>): seq<nat> {
    if |units| == 0 then []
    else if |units| >= 2 && IsHigh(units[0]) && IsLow(units[1]) then
      var high: nat, low: nat := units[0], units[1];
      [0x1_0000 + (high - 0xD800) * 0x400 + (low - 0xDC00)] + ArrayFrom(units[2..])
    else [units[0]] + ArrayFrom(units[1..])
  }

  function Points(text: string): seq<nat> {
    seq(|text|, i requires 0 <= i < |text| => text[i] as nat)
  }

  /** Array.from undoes UTF-16 encoding, and JavaScript's length is the number of code units. */
  lemma {:induction false} ArrayFromInverts(text: string)
    ensures ArrayFrom(Utf16(text)) == Points(text)
    ensures |Utf16(text)| == Sum(UnitWidths(text))
  {
    if |text| > 0 {
      ArrayFromInverts(text[1..]);
      assert Points(text) == [text[0] as nat] + Points(text[1..]);
      assert UnitWidths(text)[1..] == UnitWidths(text[1..]);
      var units, head := Utf16(text), Utf16Char(text[0]);
      assert units == head + Utf16(text[1..]);
      assert units[|head|..] == Utf16(text[1..]);
      if |head| == 2 {
        var c := text[0] as int - 0x1_0000;
        assert c == c / 0x400 * 0x400 + c % 0x400;
      }
    }
  }

  // ---- the two tables, by code point ----

  predicate InTable(p: nat, table: string) {
    exists i | 0 <= i < |table| :: table[i] as nat == p
  }

  predicate Known(p: nat) { InTable(p, GSM7_BASIC) || InTable(p, GSM7_EXTENSION) }

  lemma TableLookup(ch: char, table: string)
    ensures InTable(ch as nat, table) <==> ch in table
  {
    if InTable(ch as nat, table) {
      var i :| 0 <= i < |table| && table[i] as nat == ch as nat;
      assert table[i] as nat as char == ch;
    }
  }

  lemma NotInMixed(ch: char)
    requires IsExtension(ch)
    ensures ch !in GSM7_MIXED
  {
  }

  lemma NotInSigns(ch: char)
    requires IsExtension(ch)
    ensures ch !in GSM7_SIGNS
  {
  }

  lemma NotInUpper(ch: char)
    requires IsExtension(ch)
    ensures ch !in GSM7_UPPER
  {
  }

  lemma NotInLower(ch: char)
    requires IsExtension(ch)
    ensures ch !in GSM7_LOWER
  {
  }

  /** No character is in both tables, so testing the basic table first changes nothing. */
  lemma TablesAreDisjoint(ch: char)
    ensures !(IsBasic(ch) && IsExtension(ch))
  {
    if IsExtension(ch) {
      NotInMixed(ch);
      NotInSigns(ch);
      NotInUpper(ch);
      NotInLower(ch);
    }
  }

  lemma SignsAreBasic(ch: char)
    requires ' ' <= ch <= '?' && ch != '$'
    ensures ch in GSM7_SIGNS
  {
    assert GSM7_SIGNS[ch as int - ' ' as int] == ch;
  }

  lemma CapitalsAreBasic(ch: char)
    requires 'A' <= ch <= 'Z'
    ensures ch in GSM7_UPPER
  {
    assert GSM7_UPPER[1 + ch as int - 'A' as int] == ch;
  }

  lemma SmallLettersAreBasic(ch: char)
    requires 'a' <= ch <= 'z'
    ensures ch in GSM7_LOWER
  {
    assert GSM7_LOWER[ch as int - 'a' as int] == ch;
  }

  lemma OtherAsciiIsBasic()
    ensures '@' in GSM7_MIXED && '$' in GSM7_MIXED && '_' in GSM7_MIXED
  {
    assert GSM7_MIXED[0] == '@' && GSM7_MIXED[2] == '$';
    assert GSM7_MIXED[17] == '_';
  }

  lemma BacktickNotInMixed()
    ensures '`' !in GSM7_MIXED
  {
  }

  lemma BacktickNotInSigns()
    ensures '`' !in GSM7_SIGNS
  {
  }

  lemma BacktickNotInUpper()
    ensures '`' !in GSM7_UPPER
  {
  }

  lemma BacktickNotInLower()
    ensures '`' !in GSM7_LOWER
  {
  }

  lemma InSomeRow(ch: char)
    ensures IsBasic(ch) <==> ch in GSM7_MIXED || ch in GSM7_SIGNS || ch in GSM7_UPPER || ch in GSM7_LOWER
  {
    hide GSM7_MIXED, GSM7_SIGNS, GSM7_UPPER, GSM7_LOWER;
  }

  lemma ExtensionSigns(ch: char)
    requires ' ' <= ch <= '~'
    ensures IsExtension(ch) <==> ch in "[]{}^~\\|"
  {
  }

  /** The printable ASCII characters: all are basic but nine, and eight of these are in the extension table. */
  lemma AsciiAlphabet(ch: char)
    requires ' ' <= ch <= '~'
    ensures IsExtension(ch) <==> ch in "[]{}^~\\|"
    ensures IsBasic(ch) <==> ch !in "[]{}^~\\|`"
  {
    hide GSM7_MIXED, GSM7_SIGNS, GSM7_UPPER, GSM7_LOWER, GSM7_EXTENSION, IsBasic, IsExtension;
    TablesAreDisjoint(ch);
    ExtensionSigns(ch);
    InSomeRow(ch);
    BacktickNotInMixed();
    BacktickNotInSigns();
    BacktickNotInUpper();
    BacktickNotInLower();
    OtherAsciiIsBasic();
    if ch <= '?' && ch != '$' {
      SignsAreBasic(ch);
    } else if 'A' <= ch <= 'Z' {
      CapitalsAreBasic(ch);
    } else if 'a' <= ch <= 'z' {
      SmallLettersAreBasic(ch);
    }
  }

  // ---- what the loop accumulates ----

  function PointWidth(p: nat): nat {
    if InTable(p, GSM7_BASIC) then 1 else if InTable(p, GSM7_EXTENSION) then 2 else 0
  }

  function Septets(points: seq<nat>): nat {
    if |points| == 0 then 0 else Septets(points[..|points| - 1]) + PointWidth(points[|points| - 1])
  }

  function Offenders(points: seq<nat>): seq<nat> {
    if |points| == 0 then [] else
      var rest, p := Offenders(points[..|points| - 1]), points[|points| - 1];
      if Known(p) || p in rest then rest else rest + [p]
  }

  function FirstIndex(points: seq<nat>, p: nat): nat {
    if |points| == 0 || points[0] == p then 0 else 1 + FirstIndex(points[1..], p)
  }

  lemma {:induction false} FirstIndexExtends(front: seq<nat>, last: nat, p: nat)
    requires p in front
    ensures FirstIndex(front + [last], p) == FirstIndex(front, p) < |front|
  {
    if front[0] != p {
      assert (front + [last])[1..] == front[1..] + [last];
      FirstIndexExtends(front[1..], last, p);
    }
  }

  lemma {:induction false} FirstIndexOfLast(front: seq<nat>, last: nat)
    requires last !in front
    ensures FirstIndex(front + [last], last) == |front|
  {
    if |front| > 0 {
      assert (front + [last])[1..] == front[1..] + [last];
      FirstIndexOfLast(front[1..], last);
    }
  }

  /** Offenders are exactly the characters outside both tables, each listed once, in the order in
      which they first appear. */
  lemma {:induction false} OffendersAreFirstOccurrences(points: seq<nat>)
    ensures forall p :: p in Offenders(points) <==> p in points && !Known(p)
    ensures forall i, j | 0 <= i < j < |Offenders(points)| ::
              Offenders(points)[i] != Offenders(points)[j]
              && FirstIndex(points, Offenders(points)[i]) < FirstIndex(points, Offenders(points)[j])
  {
    if |points| > 0 {
      var front, last := points[..|points| - 1], points[|points| - 1];
      assert points == front + [last];
      OffendersAreFirstOccurrences(front);
      forall p | p in front ensures FirstIndex(points, p) == FirstIndex(front, p) < |front| {
        FirstIndexExtends(front, last, p);
      }
      if last !in front {
        FirstIndexOfLast(front, last);
      }
    }
  }

  /** On a well-formed string the single accumulator is the server's septet sum whenever the
      server would use it. */
  lemma {:induction false} SeptetsAgree(text: string)
    requires IsGsm7(text)
    ensures Septets(Points(text)) == Sum(SeptetWidths(text))
  {
    if |text| > 0 {
      var front, last := text[..|text| - 1], text[|text| - 1];
      assert text == front + [last];
      SeptetsAgree(front);
      assert Points(text)[..|text| - 1] == Points(front);
      assert SeptetWidths(text) == SeptetWidths(front) + [SeptetWidth(last)];
      SumConcat(SeptetWidths(front), [SeptetWidth(last)]);
      assert last in text;
      TableLookup(last, GSM7_BASIC);
      TableLookup(last, GSM7_EXTENSION);
      TablesAreDisjoint(last);
    }
  }

  lemma AlphabetAgrees(text: string)
    ensures IsGsm7(text) <==> forall i | 0 <= i < |text| :: Known(Points(text)[i])
  {
    forall i | 0 <= i < |text| ensures Known(Points(text)[i]) <==> IsBasic(text[i]) || IsExtension(text[i]) {
      TableLookup(text[i], GSM7_BASIC);
      TableLookup(text[i], GSM7_EXTENSION);
    }
  }

  // ---- the function itself ----

  datatype Analysis = Analysis(
    chars: nat, gsm7: bool, perSegment: nat, segments: nat, offenders: seq<nat>, tooLong: bool)

  /** The record built after the loop; `units` is the JavaScript length of the input. */
  function Verdict(chars: nat, gsm7: bool, septets: nat, units: nat, offenders: seq<nat>): Analysis {
    var segments :=
      if gsm7 then (if septets <= 160 then 1 else CeilDiv(septets, 153))
      else (if units <= 70 then 1 else CeilDiv(units, 67));
    var perSegment := if gsm7 then (if segments > 1 then 153 else 160) else (if segments > 1 then 67 else 70);
    Analysis(chars, gsm7, perSegment, segments, offenders, chars > MAX_BODY_CHARS || segments > MAX_SEGMENTS)
  }

  predicate AllKnown(chars: seq<nat>) { forall k | 0 <= k < |chars| :: Known(chars[k]) }

  lemma OneMore(chars: seq<nat>, i: nat)
    requires i < |chars|
    ensures Septets(chars[..i + 1]) == Septets(chars[..i]) + PointWidth(chars[i])
    ensures AllKnown(chars[..i + 1]) <==> AllKnown(chars[..i]) && Known(chars[i])
    ensures Offenders(chars[..i + 1]) ==
            if Known(chars[i]) || chars[i] in Offenders(chars[..i]) then Offenders(chars[..i])
            else Offenders(chars[..i]) + [chars[i]]
  {
    assert chars[..i + 1][..i] == chars[..i];
    assert chars[..i + 1] == chars[..i] + [chars[i]];
  }

  /** What one pass over `Utf16(text)` reports is what the server computes from `text`. */
  lemma ServerAgrees(text: string)
    ensures var chars := ArrayFrom(Utf16(text));
            var r := Verdict(|chars|, AllKnown(chars), Septets(chars), |Utf16(text)|, Offenders(chars));
            && r.chars == |text|
            && (r.gsm7 <==> IsGsm7(text))
            && r.segments == CountSegments(text)
            && (r.tooLong <==> BodyTooLong(text))
  {
    ArrayFromInverts(text);
    AlphabetAgrees(text);
    if IsGsm7(text) {
      SeptetsAgree(text);
    }
  }

  /** The verdicts the counter shows are the server's, for every string the form can submit as
      well-formed text. */
  method Analyse(body: seq<Unit>) returns (r: Analysis)
    ensures r.chars == |ArrayFrom(body)|
    ensures r.offenders == Offenders(ArrayFrom(body))
    ensures r.gsm7 <==> r.offenders == []
    ensures r.segments > 1 ==> r.perSegment == if r.gsm7 then 153 else 67
    ensures r.segments <= 1 ==> r.perSegment == if r.gsm7 then 160 else 70
    ensures forall text: string :: body == Utf16(text) ==>
              && r.chars == |text|
              && (r.gsm7 <==> IsGsm7(text))
              && r.segments == CountSegments(text)
              && (r.tooLong <==> BodyTooLong(text))
  {
    var chars := ArrayFrom(body);
    var offenders: seq<nat> := [];
    var septets := 0;
    var gsm7 := true;
    var i := 0;
    while i < |chars|
      invariant 0 <= i <= |chars|
      invariant septets == Septets(chars[..i])
      invariant gsm7 <==> AllKnown(chars[..i])
      invariant offenders == Offenders(chars[..i])
      invariant gsm7 <==> offenders == []
    {
      var ch := chars[i];
      OneMore(chars, i);
      if InTable(ch, GSM7_BASIC) {
        septets := septets + 1;
      } else if InTable(ch, GSM7_EXTENSION) {
        septets := septets + 2;
      } else {
        gsm7 := false;
        if ch !in offenders {
          offenders := offenders + [ch];
        }
      }
      i := i + 1;
    }
    assert chars[..i] == chars;
    r := Verdict(|chars|, gsm7, septets, |body|, offenders);
    forall text: string | body == Utf16(text)
      ensures r.chars == |text| && (gsm7 <==> IsGsm7(text))
      ensures r.segments == CountSegments(text) && (r.tooLong <==> BodyTooLong(text))
    {
      ServerAgrees(text);
    }
  }
}
