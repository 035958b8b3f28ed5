/** Heading anchors: `slugify` and the counters behind `_unique_slug` (gateway/shared/markdown.py). */
module Slugs {
  import opened Common
  import opened Text

  predicate SlugChar(c: char) { 'a' <= c <= 'z' || '0' <= c <= '9' }

  /** Every run of other characters becomes one `-`; `gap` says whether the run has begun. */
  function Collapse(s: string, gap: bool): string {
    if |s| == 0 then ""
    else if SlugChar(s[0]) then [s[0]] + Collapse(s[1..], false)
    else (if gap then "" else "-") + Collapse(s[1..], true)
  }

  function Slugify(lower: string -> string, text: string): string {
    var slug := StripChar(Collapse(lower(text), false), '-');
    if slug == "" then "section" else slug
  }

  // ---- the slug pattern ----

  /** `^[a-z0-9]+(?:-[a-z0-9]+)*$` as an automaton: `word` while the last character read was not `-`. */
  predicate SlugPattern(s: string, word: bool) {
    if |s| == 0 then word
    else if s[0] == '-' then word && SlugPattern(s[1..], false)
    else ('a' <= s[0] <= 'z' || '0' <= s[0] <= '9') && SlugPattern(s[1..], true)
  }

  predicate IsSlug(s: string) { SlugPattern(s, false) }

  /** Slug characters and lone hyphens. */
  predicate SlugShape(s: string) {
    && (forall i | 0 <= i < |s| :: SlugChar(s[i]) || s[i] == '-')
    && (forall i | 0 < i < |s| :: s[i - 1] != '-' || s[i] != '-')
  }

  lemma {:induction false} CollapseHasShape(s: string, gap: bool)
    ensures SlugShape(Collapse(s, gap))
    ensures gap && |Collapse(s, gap)| > 0 ==> Collapse(s, gap)[0] != '-'
  {
    if |s| > 0 {
      CollapseHasShape(s[1..], !SlugChar(s[0]));
    }
  }

  lemma {:induction false} TrimLeftKeepsShape(s: string)
    requires SlugShape(s)
    ensures var r := TrimCharLeft(s, '-'); SlugShape(r) && (|r| > 0 ==> r[0] != '-')
  {
    if |s| > 0 && s[0] == '-' {
      TrimLeftKeepsShape(s[1..]);
    }
  }

  lemma {:induction false} ShapeIsPattern(s: string, word: bool)
    requires SlugShape(s)
    requires if |s| == 0 then word else s[|s| - 1] != '-' && (s[0] == '-' ==> word)
    ensures SlugPattern(s, word)
  {
    if |s| > 0 {
      if |s| > 1 {
        assert s[1..][|s| - 2] == s[|s| - 1] && s[1..][0] == s[1];
      }
      ShapeIsPattern(s[1..], s[0] != '-');
    }
  }

  /** Whatever the heading and however it is lowered: the result fits the slug pattern. */
  lemma SlugifyFitsPattern(lower: string -> string, text: string)
    ensures IsSlug(Slugify(lower, text))
  {
    var collapsed := Collapse(lower(text), false);
    CollapseHasShape(lower(text), false);
    TrimLeftKeepsShape(collapsed);
    var slug := StripChar(collapsed, '-');
    if slug == "" {
      ShapeIsPattern("section", false);
    } else {
      ShapeIsPattern(slug, false);
    }
  }

  lemma {:induction false} CollapseKeepsSlugs(s: string, word: bool, gap: bool)
    requires SlugPattern(s, word) && (gap ==> !word)
    ensures Collapse(s, gap) == s
  {
    if |s| > 0 {
      CollapseKeepsSlugs(s[1..], s[0] != '-', s[0] == '-');
    }
  }

  lemma {:induction false} SlugEnds(s: string, word: bool)
    requires SlugPattern(s, word) && |s| > 0
    ensures s[|s| - 1] != '-' && (!word ==> s[0] != '-')
  {
    if |s| > 1 {
      SlugEnds(s[1..], s[0] != '-');
    }
  }

  /** A slug that lowering leaves alone is its own slug, so slugifying twice is slugifying once. */
  lemma SlugifyIsIdempotent(lower: string -> string, text: string)
    requires lower(Slugify(lower, text)) == Slugify(lower, text)
    ensures Slugify(lower, Slugify(lower, text)) == Slugify(lower, text)
  {
    var slug := Slugify(lower, text);
    SlugifyFitsPattern(lower, text);
    CollapseKeepsSlugs(slug, false, false);
    SlugEnds(slug, false);
  }

  // ---- the words of a heading ----

  predicate IsWord(w: string) {
    |w| > 0 && forall k | 0 <= k < |w| :: 'a' <= w[k] <= 'z' || '0' <= w[k] <= '9'
  }

  /** Something else than the characters of words, or nothing. */
  predicate IsGap(g: string) {
    forall k | 0 <= k < |g| :: !('a' <= g[k] <= 'z' || '0' <= g[k] <= '9')
  }

  /** Words with something between them. */
  function Spaced(words: seq<string>, gaps: seq<string>): string
    requires |words| == |gaps| + 1
    decreases |gaps|
  {
    if |gaps| == 0 then words[0] else words[0] + (gaps[0] + Spaced(words[1..], gaps[1..]))
  }

  lemma HeadOf(a: string, b: string)
    requires |a| > 0
    ensures (a + b)[0] == a[0] && (a + b)[1..] == a[1..] + b && a == [a[0]] + a[1..]
  {
  }

  lemma {:induction false} CollapseWord(w: string, rest: string, gap: bool)
    requires IsWord(w)
    ensures Collapse(w + rest, gap) == w + Collapse(rest, false)
    decreases |w|
  {
    HeadOf(w, rest);
    if |w| == 1 {
      assert w[1..] + rest == rest;
    } else {
      CollapseWord(w[1..], rest, false);
      Associate([w[0]], w[1..], Collapse(rest, false));
    }
  }

  lemma {:induction false} CollapseGap(g: string, rest: string, gap: bool)
    requires IsGap(g)
    ensures Collapse(g + rest, gap) == if |g| == 0 || gap then Collapse(rest, gap || |g| > 0)
                                       else "-" + Collapse(rest, true)
    decreases |g|
  {
    if |g| == 0 {
      assert g + rest == rest;
    } else {
      HeadOf(g, rest);
      CollapseGap(g[1..], rest, true);
    }
  }

  lemma {:induction false} CollapseSpaced(words: seq<string>, gaps: seq<string>, after: string, gap: bool)
    requires |words| == |gaps| + 1 && (forall k | 0 <= k < |words| :: IsWord(words[k]))
    requires (forall k | 0 <= k < |gaps| :: IsGap(gaps[k]) && |gaps[k]| > 0) && IsGap(after)
    ensures Collapse(Spaced(words, gaps) + after, gap) == Join(words, "-") + if |after| > 0 then "-" else ""
    decreases |gaps|
  {
    var tail := if |after| > 0 then "-" else "";
    if |gaps| == 0 {
      CollapseWord(words[0], after, gap);
      CollapseGap(after, "", false);
      assert after + "" == after;
    } else {
      var rest := Spaced(words[1..], gaps[1..]);
      CollapseSpaced(words[1..], gaps[1..], after, true);
      Associate(words[0], gaps[0] + rest, after);
      Associate(gaps[0], rest, after);
      CollapseWord(words[0], gaps[0] + (rest + after), gap);
      CollapseGap(gaps[0], rest + after, false);
      Associate(words[0] + "-", Join(words[1..], "-"), tail);
      Associate(words[0], "-", Join(words[1..], "-") + tail);
    }
  }

  lemma {:induction false} JoinedEnds(words: seq<string>)
    requires |words| > 0 && forall k | 0 <= k < |words| :: IsWord(words[k])
    ensures var s := Join(words, "-"); |s| > 0 && s[0] != '-' && s[|s| - 1] != '-'
    decreases |words|
  {
    if |words| > 1 {
      JoinedEnds(words[1..]);
    }
  }

  lemma StripsHyphens(s: string, before: bool, after: bool)
    requires |s| > 0 && s[0] != '-' && s[|s| - 1] != '-'
    ensures StripChar((if before then "-" else "") + s + (if after then "-" else ""), '-') == s
  {
    var whole := (if before then "-" else "") + s + (if after then "-" else "");
    var right := s + if after then "-" else "";
    assert TrimCharLeft(right, '-') == right;
    if before {
      assert whole[1..] == right && whole[0] == '-';
    } else {
      assert whole == right;
    }
    assert TrimCharRight(s, '-') == s;
    if after {
      assert right[..|right| - 1] == s;
    } else {
      assert right == s;
    }
  }

  /** What a slug is, for every heading: its words in order, lower-cased, with one hyphen for whatever stood between
      two of them and nothing for what stood around them; a heading without words is `section`. */
  lemma SlugOfWords(lower: string -> string, text: string, before: string, words: seq<string>, gaps: seq<string>,
                    after: string)
    requires |words| == |gaps| + 1 && (forall k | 0 <= k < |words| :: IsWord(words[k]))
    requires forall k | 0 <= k < |gaps| :: IsGap(gaps[k]) && |gaps[k]| > 0
    requires IsGap(before) && IsGap(after) && lower(text) == before + (Spaced(words, gaps) + after)
    ensures Slugify(lower, text) == Join(words, "-")
  {
    var s, tail := Join(words, "-"), if |after| > 0 then "-" else "";
    CollapseGap(before, Spaced(words, gaps) + after, false);
    CollapseSpaced(words, gaps, after, |before| > 0);
    JoinedEnds(words);
    StripsHyphens(s, |before| > 0, |after| > 0);
    Associate(if |before| > 0 then "-" else "", s, tail);
    assert "" + (s + tail) == s + tail;
  }

  lemma SlugOfNoWords(lower: string -> string, text: string)
    requires IsGap(lower(text))
    ensures Slugify(lower, text) == "section"
  {
    CollapseGap(lower(text), "", false);
    assert lower(text) + "" == lower(text);
    assert "-"[1..] == "";
    assert TrimCharLeft("", '-') == "" && TrimCharRight("", '-') == "";
  }

  // ---- numbering repeated slugs ----

  const DIGITS: string := "0123456789"

  function Decimal(n: nat): (s: string)
    ensures |s| > 0
  {
    if n < 10 then [DIGITS[n]] else Decimal(n / 10) + [DIGITS[n % 10]]
  }

  /** The number a string of decimal digits stands for. */
  function Value(s: string): int {
    if |s| == 0 then 0 else 10 * Value(s[..|s| - 1]) + (s[|s| - 1] as int - '0' as int)
  }

  lemma DigitIs(i: nat)
    requires i < 10
    ensures '0' <= DIGITS[i] <= '9' && DIGITS[i] as int - '0' as int == i
  {
    assert DIGITS[0] == '0' && DIGITS[1] == '1' && DIGITS[2] == '2' && DIGITS[3] == '3' && DIGITS[4] == '4';
    assert DIGITS[5] == '5' && DIGITS[6] == '6' && DIGITS[7] == '7' && DIGITS[8] == '8' && DIGITS[9] == '9';
  }

  /** A number is written in decimal digits, and without a leading zero. */
  lemma {:induction false} DecimalReads(n: nat)
    ensures Value(Decimal(n)) == n && (n > 0 ==> Decimal(n)[0] != '0')
    ensures forall k | 0 <= k < |Decimal(n)| :: '0' <= Decimal(n)[k] <= '9'
  {
    DigitIs(n % 10);
    if n < 10 {
      assert [DIGITS[n]][..0] == [];
    } else {
      DecimalReads(n / 10);
      assert Decimal(n)[..|Decimal(n)| - 1] == Decimal(n / 10);
    }
  }

  lemma {:induction false} DecimalHasNoHyphen(n: nat)
    ensures '-' !in Decimal(n)
  {
    if n >= 10 {
      DecimalHasNoHyphen(n / 10);
    }
  }

  lemma DigitsDiffer(i: nat, j: nat)
    requires i < 10 && j < 10 && DIGITS[i] == DIGITS[j]
    ensures i == j
  {
  }

  lemma {:induction false} DecimalIsInjective(m: nat, n: nat)
    requires Decimal(m) == Decimal(n)
    ensures m == n
  {
    var a, b := Decimal(m), Decimal(n);
    assert a[|a| - 1] == DIGITS[m % 10] && b[|b| - 1] == DIGITS[n % 10];
    DigitsDiffer(m % 10, n % 10);
    if m >= 10 && n >= 10 {
      assert a[..|a| - 1] == Decimal(m / 10) && b[..|b| - 1] == Decimal(n / 10);
      DecimalIsInjective(m / 10, n / 10);
    }
  }

  /** What the heading with this base gets when `count` headings before it had the same base. */
  function Anchor(base: string, count: nat): string {
    if count == 0 then base else base + "-" + Decimal(count + 1)
  }

  function Count(bases: seq<string>, base: string): nat {
    if |bases| == 0 then 0 else Count(bases[..|bases| - 1], base) + (if bases[|bases| - 1] == base then 1 else 0)
  }

  /** The anchor of heading `k` of a renderer. */
  function AnchorOf(bases: seq<string>, k: nat): string
    requires k < |bases|
  {
    Anchor(bases[k], Count(bases[..k], bases[k]))
  }

  lemma {:induction false} CountGrows(bases: seq<string>, base: string, j: nat, k: nat)
    requires j < k <= |bases| && bases[j] == base
    ensures Count(bases[..j], base) < Count(bases[..k], base)
    decreases k
  {
    assert bases[..k][..k - 1] == bases[..k - 1];
    if j < k - 1 {
      CountGrows(bases, base, j, k - 1);
    }
  }

  /** Position of the last hyphen, or 0. */
  function LastHyphen(s: string): nat {
    if |s| == 0 then 0 else if s[|s| - 1] == '-' then |s| - 1 else LastHyphen(s[..|s| - 1])
  }

  lemma {:induction false} LastHyphenOf(a: string, x: string)
    requires '-' !in x
    ensures LastHyphen(a + "-" + x) == |a|
  {
    var s := a + "-" + x;
    if |x| > 0 {
      assert s[..|s| - 1] == a + "-" + x[..|x| - 1];
      LastHyphenOf(a, x[..|x| - 1]);
    }
  }

  lemma PartsAgree(a: string, x: string, b: string, y: string)
    requires a + "-" + x == b + "-" + y && '-' !in x && '-' !in y
    ensures a == b && x == y
  {
    var s, t := a + "-" + x, b + "-" + y;
    LastHyphenOf(a, x);
    LastHyphenOf(b, y);
    assert a == s[..|a|] && b == t[..|b|];
    assert x == s[|a| + 1..] && y == t[|b| + 1..];
  }

  /** Two numbered anchors agree only when base and number do. */
  lemma NumberedAnchors(a: string, m: nat, b: string, n: nat)
    requires a + "-" + Decimal(m) == b + "-" + Decimal(n)
    ensures a == b && m == n
  {
    DecimalHasNoHyphen(m);
    DecimalHasNoHyphen(n);
    PartsAgree(a, Decimal(m), b, Decimal(n));
    DecimalIsInjective(m, n);
  }

  /** The base of a first occurrence spells out the number the other base has been given. */
  predicate Spells(a: string, m: nat, b: string, n: nat) { m == 0 && n > 0 && a == b + "-" + Decimal(n + 1) }

  /** When two anchors are the same, whichever renderers gave them. */
  lemma AnchorsAgreeIff(a: string, m: nat, b: string, n: nat)
    ensures Anchor(a, m) == Anchor(b, n) <==> (a == b && m == n) || Spells(a, m, b, n) || Spells(b, n, a, m)
  {
    if m > 0 && n > 0 && Anchor(a, m) == Anchor(b, n) {
      NumberedAnchors(a, m + 1, b, n + 1);
    }
  }

  /** Headings with the same base never share an anchor. */
  lemma RepeatedHeadingsDiffer(bases: seq<string>, j: nat, k: nat)
    requires j < k < |bases| && bases[j] == bases[k]
    ensures AnchorOf(bases, j) != AnchorOf(bases, k)
  {
    var base, m, n := bases[j], Count(bases[..j], bases[j]), Count(bases[..k], bases[k]);
    CountGrows(bases, base, j, k);
    AnchorsAgreeIff(base, m, base, n);
    assert |base + "-" + Decimal(n + 1)| > |base|;
  }

  /** A first occurrence whose base reads like the numbered anchor of another base. */
  predicate Imitates(bases: seq<string>, j: nat, k: nat)
    requires j < |bases| && k < |bases|
  {
    Spells(bases[j], Count(bases[..j], bases[j]), bases[k], Count(bases[..k], bases[k]))
  }

  /** Headings with different bases share an anchor exactly when one of them, seen for the first
      time, spells out the number the other has been given. */
  lemma CollisionsAreImitations(bases: seq<string>, j: nat, k: nat)
    requires j < |bases| && k < |bases| && bases[j] != bases[k]
    ensures AnchorOf(bases, j) == AnchorOf(bases, k) <==> Imitates(bases, j, k) || Imitates(bases, k, j)
  {
    AnchorsAgreeIff(bases[j], Count(bases[..j], bases[j]), bases[k], Count(bases[..k], bases[k]));
  }

  // ---- the dictionary the renderer keeps ----

  function Seen(slugs: map<string, nat>, base: string): nat { if base in slugs then slugs[base] else 0 }

  /** The dictionary counts the bases so far. */
  ghost predicate Tallies(slugs: map<string, nat>, bases: seq<string>) {
    forall b :: Seen(slugs, b) == Count(bases, b)
  }

  lemma TallyOne(slugs: map<string, nat>, bases: seq<string>, base: string)
    requires Tallies(slugs, bases)
    ensures Tallies(slugs[base := Seen(slugs, base) + 1], bases + [base])
    ensures Anchor(base, Seen(slugs, base)) == AnchorOf(bases + [base], |bases|)
  {
    var more := bases + [base];
    var after := slugs[base := Seen(slugs, base) + 1];
    assert more[..|bases|] == bases && more[|bases|] == base;
    forall b ensures Seen(after, b) == Count(more, b) {
      assert Count(more, b) == Count(more[..|more| - 1], b) + (if more[|more| - 1] == b then 1 else 0);
      assert Seen(slugs, b) == Count(bases, b);
    }
  }

  /** Each slug is the anchor for the number of times its base came before. */
  ghost predicate Numbered(before: seq<string>, bases: seq<string>, slugs: seq<string>)
    decreases |bases|
  {
    && |bases| == |slugs|
    && (|bases| > 0 ==>
          && slugs[0] == Anchor(bases[0], Count(before, bases[0]))
          && Numbered(before + [bases[0]], bases[1..], slugs[1..]))
  }

  lemma BasesMove(before: seq<string>, bases: seq<string>)
    requires |bases| > 0
    ensures before + bases == (before + [bases[0]]) + bases[1..]
    ensures (before + bases)[..|before|] == before && (before + bases)[|before|] == bases[0]
  {
  }

  lemma {:induction false} NumberedAt(before: seq<string>, bases: seq<string>, slugs: seq<string>, k: nat)
    requires Numbered(before, bases, slugs) && k < |bases|
    ensures slugs[k] == AnchorOf(before + bases, |before| + k)
    decreases k
  {
    BasesMove(before, bases);
    if k > 0 {
      NumberedAt(before + [bases[0]], bases[1..], slugs[1..], k - 1);
    }
  }

  /** Two numbered slugs are equal exactly when their bases differ and one imitates the other. */
  lemma SharedSlugs(bases: seq<string>, slugs: seq<string>, j: nat, k: nat)
    requires Numbered([], bases, slugs) && j < k < |bases|
    ensures slugs[j] == slugs[k] <==> bases[j] != bases[k] && (Imitates(bases, j, k) || Imitates(bases, k, j))
  {
    NumberedAt([], bases, slugs, j);
    NumberedAt([], bases, slugs, k);
    assert [] + bases == bases;
    if bases[j] == bases[k] {
      RepeatedHeadingsDiffer(bases, j, k);
    } else {
      CollisionsAreImitations(bases, j, k);
    }
  }
}
