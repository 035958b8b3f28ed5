/** SMS segment arithmetic of gateway/shared/sms.py: the GSM-7 / UCS-2 alphabet decision, the
    segment count charged at enqueue time, and the two caps on an outgoing body.

    A Dafny `char` is a Unicode scalar value, so every `string` here is one the original can
    encode as UTF-16 without an error. */
module Segments {

  const GSM7_MIXED: string := "@£$¥èéùìòÇ\nØø\rÅåΔ_ΦΓΛΩΠΨΣΘΞÆæßÉ"

  const GSM7_SIGNS: string := " !\"#¤%&'()*+,-./0123456789:;<=>?"

  const GSM7_UPPER: string := "¡ABCDEFGHIJKLMNOPQRSTUVWXYZÄÖÑÜ§¿"

  const GSM7_LOWER: string := "abcdefghijklmnopqrstuvwxyzäöñüà"

  const GSM7_BASIC: string := GSM7_MIXED + GSM7_SIGNS + GSM7_UPPER + GSM7_LOWER

  const GSM7_EXTENSION: string := "\U{0C}€[]{}^~\\|"

  const MAX_SEGMENTS: nat := 10

  const MAX_BODY_CHARS: nat := 1600

  predicate IsBasic(ch: char) { ch in GSM7_BASIC }

  predicate IsExtension(ch: char) { ch in GSM7_EXTENSION }

  predicate IsGsm7(body: string) {
    forall ch <- body :: IsBasic(ch) || IsExtension(ch)
  }

  /** Septets of one character: an extension character is preceded by an escape. */
  function SeptetWidth(ch: char): nat { if IsExtension(ch) then 2 else 1 }

  /** UTF-16 code units of one character: a surrogate pair outside the basic plane. */
  function UnitWidth(ch: char): nat { if ch as int > 0xFFFF then 2 else 1 }

  function Sum(ws: seq<nat>): nat {
    if |ws| == 0 then 0 else ws[0] + Sum(ws[1..])
  }

  function SeptetWidths(body: string): seq<nat> {
    seq(|body|, i requires 0 <= i < |body| => SeptetWidth(body[i]))
  }

  function UnitWidths(body: string): seq<nat> {
    seq(|body|, i requires 0 <= i < |body| => UnitWidth(body[i]))
  }

  function CeilDiv(a: nat, b: nat): nat
    requires b > 0
  {
    (a + b - 1) / b
  }

  /** Segments of a body of `total` units: one up to `single`, otherwise parts of `cap`. */
  function SegmentsFor(total: nat, single: nat, cap: nat): nat
    requires cap > 0
  {
    if total <= single then 1 else CeilDiv(total, cap)
  }

  function CountFor(gsm7: bool, septets: nat, units: nat): nat {
    if gsm7 then SegmentsFor(septets, 160, 153) else SegmentsFor(units, 70, 67)
  }

  function CountSegments(body: string): nat {
    CountFor(IsGsm7(body), Sum(SeptetWidths(body)), Sum(UnitWidths(body)))
  }

  predicate BodyTooLong(body: string) {
    |body| > MAX_BODY_CHARS || CountSegments(body) > MAX_SEGMENTS
  }

  /** 3GPP TS 23.038 has 128 code points in the basic table, one of them the escape, and ten of the extension table are
      in use. */
  lemma TableSizes()
    ensures |GSM7_BASIC| == 127 && |GSM7_EXTENSION| == 10
  {
  }

  // ---- sums ----

  lemma {:induction false} SumConcat(a: seq<nat>, b: seq<nat>)
    ensures Sum(a + b) == Sum(a) + Sum(b)
  {
    if |a| == 0 {
      assert a + b == b;
    } else {
      assert (a + b)[1..] == a[1..] + b;
      SumConcat(a[1..], b);
    }
  }

  predicate Widths(ws: seq<nat>) { forall i | 0 <= i < |ws| :: 1 <= ws[i] <= 2 }

  /** Widths of 1 or 2: the sum lies between the length and its double. */
  lemma {:induction false} SumBounds(ws: seq<nat>)
    requires Widths(ws)
    ensures |ws| <= Sum(ws) <= 2 * |ws|
  {
    if |ws| > 0 {
      SumBounds(ws[1..]);
    }
  }

  lemma WidthBounds(body: string)
    ensures |body| <= Sum(SeptetWidths(body)) <= 2 * |body|
    ensures |body| <= Sum(UnitWidths(body)) <= 2 * |body|
  {
    SumBounds(SeptetWidths(body));
    SumBounds(UnitWidths(body));
  }

  lemma {:induction false} MulMonotone(a: nat, b: nat, c: nat)
    requires a <= b
    ensures a * c <= b * c
    decreases c
  {
    if c > 0 {
      MulMonotone(a, b, c - 1);
    }
  }

  lemma MulStep(k: nat, c: nat)
    ensures (k + 1) * c == k * c + c
  {
  }

  /** The ceiling is the least number of parts of `cap` that hold `total`. */
  lemma CeilDivIsCeiling(total: nat, cap: nat)
    requires cap > 0
    ensures total <= CeilDiv(total, cap) * cap < total + cap
  {
    var n := total + cap - 1;
    assert n == (n / cap) * cap + n % cap;
  }

  lemma CeilDivLeast(total: nat, cap: nat, parts: nat)
    requires cap > 0 && total <= parts * cap
    ensures CeilDiv(total, cap) <= parts
  {
    CeilDivIsCeiling(total, cap);
    if parts + 1 <= CeilDiv(total, cap) {
      MulMonotone(parts + 1, CeilDiv(total, cap), cap);
      assert false;
    }
  }

  lemma CeilDivGreatest(total: nat, cap: nat, parts: nat)
    requires cap > 0 && parts >= 1 && total >= (parts - 1) * cap + 1
    ensures CeilDiv(total, cap) >= parts
  {
    CeilDivIsCeiling(total, cap);
    if CeilDiv(total, cap) <= parts - 1 {
      MulMonotone(CeilDiv(total, cap), parts - 1, cap);
      assert false;
    }
  }

  lemma CeilDivMonotone(a: nat, b: nat, c: nat)
    requires c > 0 && a <= b
    ensures CeilDiv(a, c) <= CeilDiv(b, c)
  {
    CeilDivIsCeiling(b, c);
    CeilDivLeast(a, c, CeilDiv(b, c));
  }

  // ---- the count is monotone ----

  lemma Gsm7Prefix(body: string, more: string)
    ensures IsGsm7(body + more) <==> IsGsm7(body) && IsGsm7(more)
  {
    assert forall ch :: ch in body + more <==> ch in body || ch in more;
  }

  lemma SwitchGrows(septets: nat, chars: nat, units: nat)
    requires septets <= 2 * chars && units >= chars + 1
    ensures SegmentsFor(septets, 160, 153) <= SegmentsFor(units, 70, 67)
  {
  }

  /** Typing on never lowers the count, whatever is typed: not within one alphabet, and not when
      the first character outside GSM-7 switches the whole body to UCS-2. */
  lemma CountIsMonotone(body: string, more: string)
    ensures CountSegments(body) <= CountSegments(body + more)
  {
    var longer := body + more;
    assert SeptetWidths(longer) == SeptetWidths(body) + SeptetWidths(more);
    assert UnitWidths(longer) == UnitWidths(body) + UnitWidths(more);
    SumConcat(SeptetWidths(body), SeptetWidths(more));
    SumConcat(UnitWidths(body), UnitWidths(more));
    WidthBounds(body);
    WidthBounds(longer);
    Gsm7Prefix(body, more);
    var septets, units := Sum(SeptetWidths(longer)), Sum(UnitWidths(longer));
    if IsGsm7(longer) {
      CeilDivMonotone(Sum(SeptetWidths(body)), septets, 153);
    } else if IsGsm7(body) {
      SwitchGrows(Sum(SeptetWidths(body)), |body|, units);
    } else {
      CeilDivMonotone(Sum(UnitWidths(body)), units, 67);
    }
  }

  // ---- the caps ----

  /** The character cap never decides: a body is rejected exactly when it needs more than ten
      segments, that is beyond 1530 septets or 670 UTF-16 code units. */
  lemma CapIsSegmentCap(body: string)
    ensures BodyTooLong(body) <==> CountSegments(body) > MAX_SEGMENTS
    ensures BodyTooLong(body) <==>
            if IsGsm7(body) then Sum(SeptetWidths(body)) > 1530 else Sum(UnitWidths(body)) > 670
  {
    WidthBounds(body);
  }

  /** What is enqueued costs between one and ten tokens. */
  lemma AcceptedCost(body: string)
    requires !BodyTooLong(body)
    ensures 1 <= CountSegments(body) <= MAX_SEGMENTS
  {
  }

  // ---- a real packing: no escape and no surrogate pair is split ----

  /** Parts used when characters are placed greedily into parts of `cap` units, the current part
      already holding `used` of them. A character never straddles two parts. */
  function PackParts(ws: seq<nat>, cap: nat, used: nat): (parts: nat)
    ensures parts >= 1
  {
    if |ws| == 0 then 1
    else if used + ws[0] <= cap then PackParts(ws[1..], cap, used + ws[0])
    else 1 + PackParts(ws[1..], cap, ws[0])
  }

  function PackedSegments(ws: seq<nat>, single: nat, cap: nat): nat {
    if Sum(ws) <= single then 1 else PackParts(ws, cap, 0)
  }

  predicate AllOnes(ws: seq<nat>) { forall i | 0 <= i < |ws| :: ws[i] == 1 }

  lemma {:induction false} PackHolds(ws: seq<nat>, cap: nat, used: nat)
    requires Widths(ws) && cap >= 2 && used <= cap
    ensures used + Sum(ws) <= PackParts(ws, cap, used) * cap
  {
    if |ws| > 0 {
      if used + ws[0] <= cap {
        PackHolds(ws[1..], cap, used + ws[0]);
      } else {
        MulStep(PackParts(ws[1..], cap, ws[0]), cap);
        PackHolds(ws[1..], cap, ws[0]);
      }
    }
  }

  /** Every part but the last is full up to at most one unit, and the last one is not empty. */
  lemma {:induction false} PackIsTight(ws: seq<nat>, cap: nat, used: nat)
    requires Widths(ws) && cap >= 2 && 1 <= used <= cap
    ensures used + Sum(ws) >= (PackParts(ws, cap, used) - 1) * (cap - 1) + 1
  {
    if |ws| > 0 {
      if used + ws[0] <= cap {
        PackIsTight(ws[1..], cap, used + ws[0]);
      } else {
        MulStep(PackParts(ws[1..], cap, ws[0]) - 1, cap - 1);
        PackIsTight(ws[1..], cap, ws[0]);
      }
    }
  }

  /** With no two-unit character every part but the last is completely full. */
  lemma {:induction false} PackIsExact(ws: seq<nat>, cap: nat, used: nat)
    requires AllOnes(ws) && cap >= 2 && 1 <= used <= cap
    ensures used + Sum(ws) >= (PackParts(ws, cap, used) - 1) * cap + 1
  {
    if |ws| > 0 {
      if used + ws[0] <= cap {
        PackIsExact(ws[1..], cap, used + 1);
      } else {
        MulStep(PackParts(ws[1..], cap, ws[0]) - 1, cap);
        PackIsExact(ws[1..], cap, 1);
      }
    }
  }

  /** The stored count never exceeds a real packing, is exact when no character takes two units,
      and a real packing needs no more parts than one of capacity `cap - 1` filled to the brim. */
  lemma CountAgainstPacking(ws: seq<nat>, single: nat, cap: nat)
    requires Widths(ws) && 2 <= cap
    ensures SegmentsFor(Sum(ws), single, cap) <= PackedSegments(ws, single, cap)
    ensures AllOnes(ws) ==> SegmentsFor(Sum(ws), single, cap) == PackedSegments(ws, single, cap)
    ensures PackedSegments(ws, single, cap) <= SegmentsFor(Sum(ws), single, cap - 1)
  {
    if Sum(ws) > single {
      var parts := PackParts(ws, cap, 0);
      PackHolds(ws, cap, 0);
      CeilDivLeast(Sum(ws), cap, parts);
      assert PackParts(ws, cap, 0) == PackParts(ws[1..], cap, ws[0]);
      PackIsTight(ws[1..], cap, ws[0]);
      CeilDivGreatest(Sum(ws), cap - 1, parts);
      if AllOnes(ws) {
        PackIsExact(ws[1..], cap, ws[0]);
        CeilDivGreatest(Sum(ws), cap, parts);
      }
    }
  }

  predicate Fits(chunks: seq<seq<nat>>, cap: nat) {
    forall i | 0 <= i < |chunks| :: Widths(chunks[i]) && Sum(chunks[i]) <= cap
  }

  function Flatten(chunks: seq<seq<nat>>): seq<nat> {
    if |chunks| == 0 then [] else chunks[0] + Flatten(chunks[1..])
  }

  /** Dropping the first character of the first chunk. */
  lemma ShiftOne(chunks: seq<seq<nat>>)
    requires |chunks| > 0 && |chunks[0]| > 0
    ensures var rest := [chunks[0][1..]] + chunks[1..];
            Flatten(chunks) == [chunks[0][0]] + Flatten(rest)
  {
    var head, tail := chunks[0], Flatten(chunks[1..]);
    var rest := [head[1..]] + chunks[1..];
    assert rest[1..] == chunks[1..];
    assert head + tail == [head[0]] + (head[1..] + tail);
  }

  lemma ShiftFits(chunks: seq<seq<nat>>, cap: nat)
    requires |chunks| > 0 && |chunks[0]| > 0 && Fits(chunks, cap)
    ensures var rest := [chunks[0][1..]] + chunks[1..];
            Fits(rest, cap) && Sum(chunks[0]) == chunks[0][0] + Sum(rest[0])
  {
    var rest := [chunks[0][1..]] + chunks[1..];
    forall i | 0 <= i < |rest| ensures Widths(rest[i]) && Sum(rest[i]) <= cap {
      assert Widths(chunks[i]) && Sum(chunks[i]) <= cap;
    }
  }

  lemma {:induction false} FlattenWidths(chunks: seq<seq<nat>>, cap: nat)
    requires Fits(chunks, cap)
    ensures Widths(Flatten(chunks))
  {
    if |chunks| > 0 {
      FlattenWidths(chunks[1..], cap);
    }
  }

  /** Starting with a fuller part costs at most one more part. */
  lemma {:induction false} PackMonotone(ws: seq<nat>, cap: nat, low: nat, high: nat)
    requires Widths(ws) && cap >= 2 && low <= high <= cap
    ensures PackParts(ws, cap, low) <= PackParts(ws, cap, high) <= 1 + PackParts(ws, cap, low)
  {
    if |ws| > 0 {
      if high + ws[0] <= cap {
        PackMonotone(ws[1..], cap, low + ws[0], high + ws[0]);
      } else if low + ws[0] <= cap {
        PackMonotone(ws[1..], cap, ws[0], low + ws[0]);
      }
    }
  }

  /** No arrangement of the characters into parts beats the greedy one: if the body can be cut into
      consecutive chunks that each fit, greedy uses no more parts than there are chunks. */
  lemma {:induction false} GreedyIsOptimal(chunks: seq<seq<nat>>, cap: nat, used: nat)
    requires cap >= 2 && |chunks| > 0 && used + Sum(chunks[0]) <= cap
    requires Fits(chunks, cap)
    ensures PackParts(Flatten(chunks), cap, used) <= |chunks|
    decreases |chunks|, |Flatten(chunks)|
  {
    if |chunks[0]| == 0 {
      assert Flatten(chunks) == Flatten(chunks[1..]);
      if |chunks| > 1 {
        GreedyIsOptimal(chunks[1..], cap, 0);
        FlattenWidths(chunks[1..], cap);
        PackMonotone(Flatten(chunks[1..]), cap, 0, used);
      }
    } else {
      ShiftOne(chunks);
      ShiftFits(chunks, cap);
      var rest := [chunks[0][1..]] + chunks[1..];
      assert Flatten(chunks)[1..] == Flatten(rest);
      GreedyIsOptimal(rest, cap, used + chunks[0][0]);
    }
  }

  // ---- when the stored count is the number of parts ----

  /** Units left empty at the end of a part because the next character takes two and one is left. */
  function Waste(ws: seq<nat>, cap: nat, used: nat): nat
    requires used <= cap
  {
    if |ws| == 0 then 0
    else if used + ws[0] <= cap then Waste(ws[1..], cap, used + ws[0])
    else cap - used + if ws[0] <= cap then Waste(ws[1..], cap, ws[0]) else 0
  }

  /** Counting the waste in, the parts are filled to the brim, and the last one is not empty. */
  lemma {:induction false} WasteFills(ws: seq<nat>, cap: nat, used: nat)
    requires Widths(ws) && cap >= 2 && 1 <= used <= cap
    ensures var parts := PackParts(ws, cap, used);
            (parts - 1) * cap + 1 <= used + Sum(ws) + Waste(ws, cap, used) <= parts * cap
  {
    if |ws| > 0 {
      if used + ws[0] <= cap {
        WasteFills(ws[1..], cap, used + ws[0]);
      } else {
        var parts := PackParts(ws[1..], cap, ws[0]);
        MulStep(parts - 1, cap);
        MulStep(parts, cap);
        WasteFills(ws[1..], cap, ws[0]);
      }
    }
  }

  /** The stored count is the number of parts a real packing needs exactly when the body fits one
      part, or what is wasted at part ends fits into the rest of the last part counted. */
  lemma CountIsExactIff(ws: seq<nat>, single: nat, cap: nat)
    requires Widths(ws) && cap >= 2
    ensures SegmentsFor(Sum(ws), single, cap) == PackedSegments(ws, single, cap)
            <==> Sum(ws) <= single || Sum(ws) + Waste(ws, cap, 0) <= CeilDiv(Sum(ws), cap) * cap
  {
    if Sum(ws) > single {
      var counted, parts := CeilDiv(Sum(ws), cap), PackParts(ws, cap, 0);
      assert parts == PackParts(ws[1..], cap, ws[0]) && Waste(ws, cap, 0) == Waste(ws[1..], cap, ws[0]);
      WasteFills(ws[1..], cap, ws[0]);
      PackHolds(ws, cap, 0);
      CeilDivLeast(Sum(ws), cap, parts);
      if counted < parts {
        MulMonotone(counted, parts - 1, cap);
      }
    }
  }

  /** Parts the modem needs for a body when no escape and no surrogate pair is split. */
  function PartsNeeded(body: string): nat {
    if IsGsm7(body) then PackedSegments(SeptetWidths(body), 160, 153) else PackedSegments(UnitWidths(body), 70, 67)
  }

  /** The same for bodies, with the septets or UTF-16 code units lost at part ends. */
  lemma StoredCountIsRightIff(body: string)
    ensures CountSegments(body) == PartsNeeded(body) <==>
              if IsGsm7(body) then
                var septets := Sum(SeptetWidths(body));
                septets <= 160 || septets + Waste(SeptetWidths(body), 153, 0) <= CeilDiv(septets, 153) * 153
              else
                var units := Sum(UnitWidths(body));
                units <= 70 || units + Waste(UnitWidths(body), 67, 0) <= CeilDiv(units, 67) * 67
  {
    if IsGsm7(body) {
      CountIsExactIff(SeptetWidths(body), 160, 153);
    } else {
      CountIsExactIff(UnitWidths(body), 70, 67);
    }
  }

  lemma {:induction false} SumOnes(n: nat)
    ensures Sum(seq(n, _ => 1)) == n
  {
    if n > 0 {
      assert seq(n, _ => 1)[1..] == seq(n - 1, _ => 1);
      SumOnes(n - 1);
    }
  }

  lemma {:induction false} PackOnes(n: nat, cap: nat, used: nat, rest: seq<nat>)
    requires used + n <= cap
    ensures PackParts(seq(n, _ => 1) + rest, cap, used) == PackParts(rest, cap, used + n)
  {
    var ws := seq(n, _ => 1) + rest;
    if n > 0 {
      assert ws[1..] == seq(n - 1, _ => 1) + rest;
      PackOnes(n - 1, cap, used + 1, rest);
    } else {
      assert ws == rest;
    }
  }

  /** An accepted body whose stored count is too small: its one escape lands on a part boundary, so
      the modem needs three parts where the gateway stores and charges two. */
  lemma CountCanFallShort(body: string)
    requires body == seq(152, _ => 'a') + "€" + seq(152, _ => 'a')
    ensures !BodyTooLong(body) && CountSegments(body) == 2
    ensures PackedSegments(SeptetWidths(body), 160, 153) == PartsNeeded(body) == 3
  {
    assert GSM7_LOWER[0] == 'a';
    assert GSM7_EXTENSION[1] == '€' && !IsExtension('a');
    var ones := seq(152, _ => 1);
    assert SeptetWidths(body) == ones + [2] + ones == ones + ([2] + ones);
    SumOnes(152);
    SumConcat(ones + [2], ones);
    SumConcat(ones, [2]);
    assert Sum([2]) == 2;
    PackOnes(152, 153, 0, [2] + ones);
    assert ([2] + ones)[1..] == ones;
    assert ones == seq(151, _ => 1) + [1];
    PackOnes(151, 153, 2, [1]);
    assert PackParts([1], 153, 153) == 2;
  }
}
