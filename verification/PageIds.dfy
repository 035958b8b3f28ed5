/** The ids of a whole page, quotes included: every quote is rendered by a renderer of its own, which
    counts its headings from zero (gateway/shared/markdown.py). */
module PageIds {
  import opened Common
  import opened Inline
  import opened Patterns
  import opened Slugs
  import opened Text
  import opened Blocks
  import opened Document

  /** A heading of the page with its base slug and its renderer: the start lines of the quotes
      around it, outermost first. */
  datatype Named = Named(heading: Heading, base: string, path: seq<nat>)

  /** `PlainAt` takes the line for a quote. */
  predicate StartsQuote(line: string) {
    FenceOf(line).None? && TitleOf(line).None? && !IsRule(Strip(line)) && IsQuote(line)
  }

  /** All headings from line `i` on in document order, those of nested quotes included. */
  function PageFrom(env: Env, lines: seq<string>, i: nat, slugs: map<string, nat>, path: seq<nat>): seq<Named>
    decreases Weight(lines), if i <= |lines| then |lines| - i else 0
  {
    if i >= |lines| then []
    else if Blank(lines[i]) then PageFrom(env, lines, i + 1, slugs, path)
    else
      PageAt(env, lines, i, slugs, path)
      + PageFrom(env, lines, BlockAt(env, lines, i, slugs).next, SlugsAfter(env, lines[i], slugs), path)
  }

  /** The headings of the block at a line. */
  function PageAt(env: Env, lines: seq<string>, i: nat, slugs: map<string, nat>, path: seq<nat>): seq<Named>
    requires i < |lines| && !Blank(lines[i])
    decreases Weight(lines), |lines| - i, 0
  {
    if IsHeading(lines[i]) then
      var title := TitleOf(lines[i]).value;
      [Named(HeadingOf(env, title, slugs), BaseSlug(env, title.raw), path)]
    else if StartsQuote(lines[i]) then
      QuoteIsLighter(lines, i);
      PageFrom(env, Quoted(lines[i..]), 0, map[], path + [i])
    else []
  }

  /** The headings of a page. */
  function Page(env: Env, lines: seq<string>): seq<Named> { PageFrom(env, lines, 0, map[], []) }

  /** How many of the headings are the given renderer's and have the given base. */
  function CountNamed(hs: seq<Named>, path: seq<nat>, base: string): nat {
    if |hs| == 0 then 0
    else
      var last := hs[|hs| - 1];
      CountNamed(hs[..|hs| - 1], path, base) + if last.path == path && last.base == base then 1 else 0
  }

  /** Earlier headings of the same renderer with the same base. */
  function Before(hs: seq<Named>, k: nat): nat
    requires k < |hs|
  {
    CountNamed(hs[..k], hs[k].path, hs[k].base)
  }

  lemma {:induction false} CountNamedConcat(a: seq<Named>, b: seq<Named>, path: seq<nat>, base: string)
    ensures CountNamed(a + b, path, base) == CountNamed(a, path, base) + CountNamed(b, path, base)
  {
    if |b| == 0 {
      assert a + b == a;
    } else {
      assert (a + b)[..|a + b| - 1] == a + b[..|b| - 1];
      CountNamedConcat(a, b[..|b| - 1], path, base);
    }
  }

  lemma {:induction false} CountNamedNone(hs: seq<Named>, path: seq<nat>, base: string)
    requires forall n | 0 <= n < |hs| :: hs[n].path != path
    ensures CountNamed(hs, path, base) == 0
  {
    if |hs| > 0 {
      CountNamedNone(hs[..|hs| - 1], path, base);
    }
  }

  /** The renderer itself, or one of a quote that starts at line `i` or later. */
  predicate PathFrom(path: seq<nat>, p: seq<nat>, i: nat) { p == path || (path < p && p[|path|] >= i) }

  lemma {:induction false} PathsFollow(env: Env, lines: seq<string>, i: nat, slugs: map<string, nat>, path: seq<nat>)
    ensures forall h | h in PageFrom(env, lines, i, slugs, path) :: PathFrom(path, h.path, i)
    decreases Weight(lines), if i <= |lines| then |lines| - i else 0, 1
  {
    if i < |lines| {
      if Blank(lines[i]) {
        PathsFollow(env, lines, i + 1, slugs, path);
      } else {
        PathsOfBlock(env, lines, i, slugs, path);
        PathsFollow(env, lines, BlockAt(env, lines, i, slugs).next, SlugsAfter(env, lines[i], slugs), path);
      }
    }
  }

  /** The headings of one block: the renderer's own, or all inside the quote at this line. */
  lemma {:induction false} PathsOfBlock(env: Env, lines: seq<string>, i: nat, slugs: map<string, nat>, path: seq<nat>)
    requires i < |lines| && !Blank(lines[i])
    ensures forall h | h in PageAt(env, lines, i, slugs, path) ::
              if IsHeading(lines[i]) then h.path == path else path + [i] <= h.path
    decreases Weight(lines), |lines| - i, 0
  {
    if !IsHeading(lines[i]) && StartsQuote(lines[i]) {
      QuoteIsLighter(lines, i);
      PathsFollow(env, Quoted(lines[i..]), 0, map[], path + [i]);
    }
  }

  ghost predicate CountedAt(hs: seq<Named>, k: nat, slugs: map<string, nat>, path: seq<nat>)
    requires k < |hs|
  {
    hs[k].heading.slug == Anchor(hs[k].base, Before(hs, k) + if hs[k].path == path then Seen(slugs, hs[k].base) else 0)
  }

  /** Each heading carries the anchor for its renderer's count; `path` starts from `slugs`, every other
      renderer from nothing. */
  ghost predicate Counted(hs: seq<Named>, slugs: map<string, nat>, path: seq<nat>) {
    forall k | 0 <= k < |hs| :: CountedAt(hs, k, slugs, path)
  }

  lemma CountBehind(h: Named, rest: seq<Named>, j: nat, path: seq<nat>, base: string)
    requires j <= |rest|
    ensures CountNamed(([h] + rest)[..j + 1], path, base)
            == CountNamed(rest[..j], path, base) + if h.path == path && h.base == base then 1 else 0
  {
    assert ([h] + rest)[..j + 1] == [h] + rest[..j];
    CountNamedConcat([h], rest[..j], path, base);
    assert [h][..0] == [];
  }

  lemma CountedHeading(h: Named, rest: seq<Named>, slugs: map<string, nat>, path: seq<nat>)
    requires h.path == path && h.heading.slug == Anchor(h.base, Seen(slugs, h.base))
    requires Counted(rest, CountBase(slugs, h.base), path)
    ensures Counted([h] + rest, slugs, path)
  {
    hide Anchor;
    var hs := [h] + rest;
    forall k | 0 <= k < |hs| ensures CountedAt(hs, k, slugs, path) {
      if k > 0 {
        hide CountNamed;
        CountBehind(h, rest, k - 1, hs[k].path, hs[k].base);
        assert CountedAt(rest, k - 1, CountBase(slugs, h.base), path);
      } else {
        assert hs[..0] == [];
      }
    }
  }

  lemma OtherPaths(inner: seq<Named>, path: seq<nat>, i: nat, p: seq<nat>, next: nat)
    requires i < next && PathFrom(path, p, next)
    requires forall h | h in inner :: path + [i] <= h.path
    ensures forall n | 0 <= n < |inner| :: inner[n].path != p
  {
    forall n | 0 <= n < |inner| ensures inner[n].path != p {
      assert inner[n] in inner;
      assert inner[n].path[|path|] == (path + [i])[|path|] == i;
    }
  }

  lemma CountedQuote(inner: seq<Named>, rest: seq<Named>, slugs: map<string, nat>, path: seq<nat>, i: nat, next: nat)
    requires Counted(inner, map[], path + [i]) && Counted(rest, slugs, path) && i < next
    requires forall h | h in inner :: path + [i] <= h.path
    requires forall h | h in rest :: PathFrom(path, h.path, next)
    ensures Counted(inner + rest, slugs, path)
  {
    var hs := inner + rest;
    forall k | 0 <= k < |hs| ensures CountedAt(hs, k, slugs, path) {
      var x := hs[k];
      if k < |inner| {
        assert hs[..k] == inner[..k] && x == inner[k] && x in inner;
        assert CountedAt(inner, k, map[], path + [i]);
      } else {
        var j := k - |inner|;
        assert hs[..k] == inner + rest[..j] && x == rest[j] && x in rest;
        CountNamedConcat(inner, rest[..j], x.path, x.base);
        OtherPaths(inner, path, i, x.path, next);
        CountNamedNone(inner, x.path, x.base);
        assert CountedAt(rest, j, slugs, path);
      }
    }
  }

  lemma {:induction false} HeadingsAreCounted(env: Env, lines: seq<string>, i: nat, slugs: map<string, nat>,
                                              path: seq<nat>)
    ensures Counted(PageFrom(env, lines, i, slugs, path), slugs, path)
    decreases Weight(lines), if i <= |lines| then |lines| - i else 0
  {
    if i < |lines| {
      if Blank(lines[i]) {
        HeadingsAreCounted(env, lines, i + 1, slugs, path);
      } else {
        var next, after := BlockAt(env, lines, i, slugs).next, SlugsAfter(env, lines[i], slugs);
        var rest := PageFrom(env, lines, next, after, path);
        HeadingsAreCounted(env, lines, next, after, path);
        if IsHeading(lines[i]) {
          CountedHeading(PageAt(env, lines, i, slugs, path)[0], rest, slugs, path);
        } else if StartsQuote(lines[i]) {
          QuoteIsLighter(lines, i);
          HeadingsAreCounted(env, Quoted(lines[i..]), 0, map[], path + [i]);
          PathsOfBlock(env, lines, i, slugs, path);
          PathsFollow(env, lines, next, after, path);
          CountedQuote(PageAt(env, lines, i, slugs, path), rest, slugs, path, i, next);
        } else {
          assert [] + rest == rest;
        }
      }
    }
  }

  /** The headings a renderer emits itself are those of the page with its path. */
  function Own(hs: seq<Named>, path: seq<nat>): seq<Heading> {
    if |hs| == 0 then [] else (if hs[0].path == path then [hs[0].heading] else []) + Own(hs[1..], path)
  }

  lemma {:induction false} OwnConcat(a: seq<Named>, b: seq<Named>, path: seq<nat>)
    ensures Own(a + b, path) == Own(a, path) + Own(b, path)
  {
    if |a| == 0 {
      assert a + b == b && [] + Own(b, path) == Own(b, path);
    } else {
      assert (a + b)[1..] == a[1..] + b && (a + b)[0] == a[0];
      OwnConcat(a[1..], b, path);
      Associate(if a[0].path == path then [a[0].heading] else [], Own(a[1..], path), Own(b, path));
    }
  }

  lemma {:induction false} OwnNone(hs: seq<Named>, path: seq<nat>)
    requires forall n | 0 <= n < |hs| :: hs[n].path != path
    ensures Own(hs, path) == []
  {
    if |hs| > 0 {
      OwnNone(hs[1..], path);
    }
  }

  /** What is collected is what is emitted: the headings with a renderer's path are the headings of its
      blocks, in order. */
  lemma {:induction false} OwnAreEmitted(env: Env, lines: seq<string>, i: nat, slugs: map<string, nat>, path: seq<nat>)
    ensures Own(PageFrom(env, lines, i, slugs, path), path) == HeadingsFrom(env, lines, i, slugs)
    decreases |lines| + 1 - i
  {
    if i < |lines| {
      if Blank(lines[i]) {
        OwnAreEmitted(env, lines, i + 1, slugs, path);
      } else {
        var next, after := BlockAt(env, lines, i, slugs).next, SlugsAfter(env, lines[i], slugs);
        var here, rest := PageAt(env, lines, i, slugs, path), PageFrom(env, lines, next, after, path);
        OwnAreEmitted(env, lines, next, after, path);
        HeadingsStep(env, lines, i, slugs);
        OwnConcat(here, rest, path);
        if IsHeading(lines[i]) {
          assert here[1..] == [];
        } else {
          PathsOfBlock(env, lines, i, slugs, path);
          forall n | 0 <= n < |here| ensures here[n].path != path {
            assert here[n] in here;
          }
          OwnNone(here, path);
        }
      }
    }
  }

  lemma {:induction false} BeforeGrows(hs: seq<Named>, path: seq<nat>, base: string, j: nat, k: nat)
    requires j < k <= |hs| && hs[j].path == path && hs[j].base == base
    ensures CountNamed(hs[..j], path, base) < CountNamed(hs[..k], path, base)
    decreases k
  {
    assert hs[..k][..k - 1] == hs[..k - 1];
    if j < k - 1 {
      BeforeGrows(hs, path, base, j, k - 1);
    }
  }

  /** Two headings of a page, in whatever quotes they stand, carry the same id exactly when they have
      the same base and the same number of predecessors in their renderers, or one of them, the first of
      its base in its renderer, spells out the number the other was given. */
  lemma SharedIds(env: Env, lines: seq<string>, j: nat, k: nat)
    requires j < k < |Page(env, lines)|
    ensures var page := Page(env, lines);
            var a, m, b, n := page[j].base, Before(page, j), page[k].base, Before(page, k);
            page[j].heading.slug == page[k].heading.slug
            <==> (a == b && m == n) || Spells(a, m, b, n) || Spells(b, n, a, m)
    ensures var page := Page(env, lines);
            page[j].path == page[k].path && page[j].base == page[k].base ==> Before(page, j) < Before(page, k)
  {
    var page := Page(env, lines);
    HeadingsAreCounted(env, lines, 0, map[], []);
    assert CountedAt(page, j, map[], []) && CountedAt(page, k, map[], []);
    AnchorsAgreeIff(page[j].base, Before(page, j), page[k].base, Before(page, k));
    if page[j].path == page[k].path && page[j].base == page[k].base {
      BeforeGrows(page, page[j].path, page[j].base, j, k);
    }
  }

  // ---- two documents with repeated ids ----

  lemma FirstOfPage(env: Env, lines: seq<string>, i: nat, slugs: map<string, nat>, path: seq<nat>, level: nat,
                    raw: string)
    requires i < |lines| && 1 <= level <= 6 && |raw| > 0 && lines[i] == Hashes(level) + " " + raw
    requires !IsSpace(raw[0]) && !IsSpace(raw[|raw| - 1]) && raw[|raw| - 1] != '#'
    ensures var base := BaseSlug(env, raw);
            PageFrom(env, lines, i, slugs, path)
            == [Named(Heading(level, raw, Anchor(base, Seen(slugs, base))), base, path)]
               + PageFrom(env, lines, i + 1, CountBase(slugs, base), path)
  {
    hide TitleOf, BaseSlug, Anchor;
    TitleLine(level, raw);
  }

  lemma PageEnds(env: Env, lines: seq<string>, i: nat, slugs: map<string, nat>, path: seq<nat>)
    requires i >= |lines|
    ensures PageFrom(env, lines, i, slugs, path) == []
  {
  }

  lemma PlainEnds()
    ensures !IsSpace('A') && !IsSpace('2') && "# A" == Hashes(1) + " " + "A" && "# A 2" == Hashes(1) + " " + "A 2"
  {
    assert Hashes(1) == "#";
  }

  lemma Bases(env: Env)
    requires env.lower("A") == "a" && env.lower("A 2") == "a 2"
    ensures BaseSlug(env, "A") == "a" && BaseSlug(env, "A 2") == "a-2"
  {
    assert StripMarks("A") == "A" && StripMarks("A 2") == "A 2";
    assert Collapse("a", false) == "a" && Collapse("a 2", false) == "a-2";
  }

  lemma CollidingSlugs(env: Env)
    requires env.lower("A") == "a" && env.lower("A 2") == "a 2"
    ensures BaseSlug(env, "A") == "a" && BaseSlug(env, "A 2") == "a-2"
    ensures var once := CountBase(map[], "a");
            && Anchor("a", Seen(map[], "a")) == "a" && Anchor("a", Seen(once, "a")) == "a-2"
            && Anchor("a-2", Seen(CountBase(once, "a"), "a-2")) == "a-2"
  {
    Bases(env);
    assert Decimal(2) == "2";
  }

  /** The titles "A", "A" and "A 2" in one document end up with the ids `a`, `a-2` and `a-2`. */
  lemma CollidingTitles(env: Env)
    requires env.lower("A") == "a" && env.lower("A 2") == "a 2"
    ensures var page := Page(env, ["# A", "# A", "# A 2"]);
            |page| == 3 && page[0].heading.slug == "a" && page[1].heading.slug == page[2].heading.slug == "a-2"
  {
    hide PageFrom, BaseSlug, Anchor, Hashes, Seen, CountBase, IsSpace;
    var lines := ["# A", "# A", "# A 2"];
    CollidingSlugs(env);
    PlainEnds();
    FirstOfPage(env, lines, 0, map[], [], 1, "A");
    FirstOfPage(env, lines, 1, CountBase(map[], "a"), [], 1, "A");
    FirstOfPage(env, lines, 2, CountBase(CountBase(map[], "a"), "a"), [], 1, "A 2");
    PageEnds(env, lines, 3, CountBase(CountBase(CountBase(map[], "a"), "a"), "a-2"), []);
  }
}
