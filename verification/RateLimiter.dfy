/** The sliding-window rate limiter of gateway/api/ratelimit.py, as a refinement of its full history.
    Each key has a deque of accept times that drops what has left the window; the history keeps
    everything. Clock readings are reals. */
module RateLimit {

  /** One call that reached the lock: its key, its clock reading and the answer. */
  datatype Hit = Hit(key: string, now: real, accepted: bool)

  /** Accept times of one key, oldest first. */
  function Times(history: seq<Hit>, key: string): seq<real> {
    if |history| == 0 then [] else
      var h := history[|history| - 1];
      Times(history[..|history| - 1], key) + if h.key == key && h.accepted then [h.now] else []
  }

  /** How many of the times lie in (lo, hi]. */
  function CountIn(times: seq<real>, lo: real, hi: real): nat {
    if |times| == 0 then 0 else
      CountIn(times[..|times| - 1], lo, hi) + if lo < times[|times| - 1] <= hi then 1 else 0
  }

  /** No earlier reading of the key lies after this one. */
  ghost predicate Ordered(history: seq<Hit>, key: string, now: real) {
    forall i | 0 <= i < |history| && history[i].key == key :: history[i].now <= now
  }

  lemma {:induction false} TimesAreBounded(history: seq<Hit>, key: string, now: real)
    requires Ordered(history, key, now)
    ensures forall i | 0 <= i < |Times(history, key)| :: Times(history, key)[i] <= now
  {
    if |history| > 0 {
      TimesAreBounded(history[..|history| - 1], key, now);
    }
  }

  lemma {:induction false} CountSplit(a: seq<real>, b: seq<real>, lo: real, hi: real)
    ensures CountIn(a + b, lo, hi) == CountIn(a, lo, hi) + CountIn(b, lo, hi)
  {
    if |b| == 0 {
      assert a + b == a;
    } else {
      assert (a + b)[..|a + b| - 1] == a + b[..|b| - 1];
      CountSplit(a, b[..|b| - 1], lo, hi);
    }
  }

  lemma {:induction false} CountNone(times: seq<real>, lo: real, hi: real)
    requires forall i | 0 <= i < |times| :: times[i] <= lo
    ensures CountIn(times, lo, hi) == 0
  {
    if |times| > 0 {
      CountNone(times[..|times| - 1], lo, hi);
    }
  }

  lemma {:induction false} CountAll(times: seq<real>, lo: real, hi: real)
    requires forall i | 0 <= i < |times| :: lo < times[i] <= hi
    ensures CountIn(times, lo, hi) == |times|
  {
    if |times| > 0 {
      CountAll(times[..|times| - 1], lo, hi);
    }
  }

  lemma {:induction false} CountWidens(times: seq<real>, lo: real, lo': real, hi: real, hi': real)
    requires lo' <= lo && forall i | 0 <= i < |times| :: times[i] <= hi'
    ensures CountIn(times, lo, hi) <= CountIn(times, lo', hi')
  {
    if |times| > 0 {
      CountWidens(times[..|times| - 1], lo, lo', hi, hi');
    }
  }

  ghost predicate Increasing(times: seq<real>) { forall i, j | 0 <= i < j < |times| :: times[i] <= times[j] }

  /** What `popleft` leaves. */
  function Trim(deque: seq<real>, now: real): seq<real> {
    if |deque| > 0 && deque[0] <= now - 60.0 then Trim(deque[1..], now) else deque
  }

  method TrimDeque(deque: seq<real>, now: real) returns (rest: seq<real>)
    ensures rest == Trim(deque, now)
    ensures exists n :: 0 <= n <= |deque| && rest == deque[n..] && forall i | 0 <= i < n :: deque[i] <= now - 60.0
    ensures |rest| == 0 || rest[0] > now - 60.0
  {
    rest := deque;
    ghost var n := 0;
    while |rest| > 0 && rest[0] <= now - 60.0
      invariant 0 <= n <= |deque| && rest == deque[n..] && Trim(rest, now) == Trim(deque, now)
      invariant forall i | 0 <= i < n :: deque[i] <= now - 60.0
    {
      rest := rest[1..];
      n := n + 1;
    }
  }

  /** The deque of a key after the calls so far, whatever the order of their readings. */
  function Deque(history: seq<Hit>, key: string): seq<real> {
    if |history| == 0 then []
    else
      var h, before := history[|history| - 1], Deque(history[..|history| - 1], key);
      if h.key == key then Trim(before, h.now) + (if h.accepted then [h.now] else []) else before
  }

  lemma DequeStep(history: seq<Hit>, h: Hit, key: string)
    ensures Deque(history + [h], key)
            == if h.key == key then Trim(Deque(history, key), h.now) + (if h.accepted then [h.now] else [])
               else Deque(history, key)
    ensures Times(history + [h], key) == Times(history, key) + if h.key == key && h.accepted then [h.now] else []
  {
    assert (history + [h])[..|history|] == history;
  }

  /** The window rule: fewer than perMinute accepts of the key in the 60 seconds up to the reading. */
  ghost predicate Deserved(history: seq<Hit>, key: string, now: real, perMinute: nat) {
    CountIn(Times(history, key), now - 60.0, now) < perMinute
  }

  /** What the limiter answers from its deque. */
  ghost predicate Granted(history: seq<Hit>, key: string, now: real, perMinute: nat) {
    |Trim(Deque(history, key), now)| < perMinute
  }

  /** The readings of the key reached the lock in order. */
  ghost predicate InOrder(history: seq<Hit>, key: string) {
    |history| == 0 ||
    (var front, h := history[..|history| - 1], history[|history| - 1];
     InOrder(front, key) && (h.key == key ==> Ordered(front, key, h.now)))
  }

  lemma InOrderStep(history: seq<Hit>, h: Hit)
    requires InOrder(history, h.key) && Ordered(history, h.key, h.now)
    ensures InOrder(history + [h], h.key)
  {
    assert (history + [h])[..|history|] == history;
  }

  lemma TrimDrops(deque: seq<real>, now: real) returns (left: seq<real>)
    ensures deque == left + Trim(deque, now)
    ensures forall i | 0 <= i < |left| :: left[i] <= now - 60.0
    ensures |Trim(deque, now)| == 0 || Trim(deque, now)[0] > now - 60.0
  {
    if |deque| > 0 && deque[0] <= now - 60.0 {
      var rest := TrimDrops(deque[1..], now);
      left := [deque[0]] + rest;
    } else {
      left := [];
    }
  }

  /** With the readings in order, the deque is the full history without times no later window sees. */
  lemma {:induction false} DequeOf(history: seq<Hit>, key: string, now: real) returns (gone: seq<real>)
    requires InOrder(history, key) && Ordered(history, key, now)
    ensures Times(history, key) == gone + Deque(history, key) && Increasing(Times(history, key))
    ensures forall i | 0 <= i < |gone| :: gone[i] <= now - 60.0
  {
    if |history| == 0 {
      gone := [];
    } else {
      var front, h := history[..|history| - 1], history[|history| - 1];
      if h.key == key {
        gone := DequeOf(front, key, h.now);
        var left := TrimDrops(Deque(front, key), h.now);
        TimesAreBounded(front, key, h.now);
        assert Times(front, key) == (gone + left) + Trim(Deque(front, key), h.now);
        gone := gone + left;
      } else {
        gone := DequeOf(front, key, now);
      }
    }
  }

  /** What is left in the deque is what the window holds. */
  lemma WindowIsDeque(times: seq<real>, gone: seq<real>, deque: seq<real>, now: real)
    requires times == gone + deque && Increasing(times)
    requires forall i | 0 <= i < |times| :: times[i] <= now
    requires forall i | 0 <= i < |gone| :: gone[i] <= now - 60.0
    requires |deque| == 0 || deque[0] > now - 60.0
    ensures CountIn(times, now - 60.0, now) == |deque|
  {
    CountSplit(gone, deque, now - 60.0, now);
    CountNone(gone, now - 60.0, now);
    forall i | 0 <= i < |deque| ensures now - 60.0 < deque[i] <= now {
      assert deque[i] == times[|gone| + i] && deque[0] == times[|gone|];
    }
    CountAll(deque, now - 60.0, now);
  }

  /** The refinement: for readings in order the deque answers as the window rule does. */
  lemma DequeDecides(history: seq<Hit>, key: string, now: real, perMinute: nat)
    requires InOrder(history, key) && Ordered(history, key, now)
    ensures Granted(history, key, now, perMinute) <==> Deserved(history, key, now, perMinute)
  {
    var gone := DequeOf(history, key, now);
    var left := TrimDrops(Deque(history, key), now);
    TimesAreBounded(history, key, now);
    assert Times(history, key) == (gone + left) + Trim(Deque(history, key), now);
    WindowIsDeque(Times(history, key), gone + left, Trim(Deque(history, key), now), now);
  }

  class RateLimiter {
    const perMinute: int
    /** a key that was never asked for has no deque */
    var hits: map<string, seq<real>>
    ghost var history: seq<Hit>

    constructor (perMinute: int)
      ensures Valid() && history == [] && this.perMinute == perMinute
    {
      this.perMinute := perMinute;
      hits, history := map[], [];
    }

    ghost predicate KeyOk(key: string)
      reads this
    {
      Deque(history, key) == if key in hits then hits[key] else []
    }

    ghost predicate Valid()
      reads this
    {
      forall key :: KeyOk(key)
    }

    /** Any key, any reading, in any order. The deque decides; while the readings of the key have come
        in order that is the window rule on the full history, and with the limit off everything is
        accepted. */
    method Allow(key: string, now: real) returns (ok: bool)
      requires Valid()
      modifies this
      ensures Valid()
      ensures perMinute <= 0 ==> ok && history == old(history)
      ensures perMinute > 0 ==>
                && (ok <==> Granted(old(history), key, now, perMinute))
                && history == old(history) + [Hit(key, now, ok)]
      ensures perMinute > 0 && InOrder(old(history), key) && Ordered(old(history), key, now) ==>
                && (ok <==> Deserved(old(history), key, now, perMinute))
                && InOrder(history, key)
    {
      hide Deque, Times, CountIn, InOrder, Ordered, Trim, Deserved;
      if perMinute <= 0 {
        return true;
      }
      assert KeyOk(key);
      var deque := TrimDeque(if key in hits then hits[key] else [], now);
      ok := |deque| < perMinute;
      hits := hits[key := if ok then deque + [now] else deque];
      history := history + [Hit(key, now, ok)];
      forall k ensures KeyOk(k) {
        assert old(KeyOk(k));
        DequeStep(old(history), Hit(key, now, ok), k);
      }
      if InOrder(old(history), key) && Ordered(old(history), key, now) {
        DequeDecides(old(history), key, now, perMinute);
        InOrderStep(old(history), Hit(key, now, ok));
      }
    }
  }

  // ---- the limit over a whole history ----

  /** Histories `Allow` produces, whatever the readings. */
  ghost predicate Produced(history: seq<Hit>, perMinute: nat) {
    |history| == 0 ||
    (var front, h := history[..|history| - 1], history[|history| - 1];
     Produced(front, perMinute) && (h.accepted <==> Granted(front, h.key, h.now, perMinute)))
  }

  lemma ProducedStep(history: seq<Hit>, h: Hit, perMinute: nat)
    requires Produced(history, perMinute) && (h.accepted <==> Granted(history, h.key, h.now, perMinute))
    ensures Produced(history + [h], perMinute)
  {
    assert (history + [h])[..|history|] == history;
  }

  /** The window of 60 seconds up to `w` holds no more accepts than the limit. */
  ghost predicate WindowHolds(history: seq<Hit>, key: string, w: real, perMinute: nat) {
    CountIn(Times(history, key), w - 60.0, w) <= perMinute
  }

  /** No 60-second window, wherever it lies, ever holds more than perMinute accepts of a key whose
      readings came in order. */
  lemma {:induction false} NoWindowOverflows(history: seq<Hit>, perMinute: nat, key: string, w: real)
    requires Produced(history, perMinute) && InOrder(history, key)
    ensures WindowHolds(history, key, w, perMinute)
  {
    if |history| > 0 {
      var front, h := history[..|history| - 1], history[|history| - 1];
      var before := Times(front, key);
      if h.key == key && h.accepted {
        CountSplit(before, [h.now], w - 60.0, w);
        assert [h.now][..0] == [];
        if w - 60.0 < h.now <= w {
          DequeDecides(front, key, h.now, perMinute);
          TimesAreBounded(front, key, h.now);
          CountWidens(before, w - 60.0, h.now - 60.0, w, h.now);
        } else {
          NoWindowOverflows(front, perMinute, key, w);
        }
      } else {
        assert before + [] == before;
        NoWindowOverflows(front, perMinute, key, w);
      }
    }
  }

  // ---- readings out of order ----

  /** As many accepts at one instant as the limit allows. */
  function Burst(key: string, at: real, n: nat): seq<Hit> { seq(n, _ => Hit(key, at, true)) }

  function Same(at: real, n: nat): seq<real> { seq(n, _ => at) }

  lemma BurstGrows(key: string, at: real, n: nat)
    ensures Burst(key, at, n + 1) == Burst(key, at, n) + [Hit(key, at, true)]
    ensures Same(at, n + 1) == Same(at, n) + [at]
  {
  }

  lemma TrimSame(at: real, n: nat, now: real)
    ensures at > now - 60.0 ==> Trim(Same(at, n), now) == Same(at, n)
    ensures at <= now - 60.0 ==> Trim(Same(at, n), now) == []
  {
    if at <= now - 60.0 && n > 0 {
      assert Same(at, n)[1..] == Same(at, n - 1);
      TrimSame(at, n - 1, now);
    }
  }

  lemma {:induction false} BurstIsProduced(key: string, at: real, n: nat, perMinute: nat)
    requires n <= perMinute
    ensures Produced(Burst(key, at, n), perMinute) && InOrder(Burst(key, at, n), key)
    ensures Times(Burst(key, at, n), key) == Deque(Burst(key, at, n), key) == Same(at, n)
  {
    if n > 0 {
      BurstIsProduced(key, at, n - 1, perMinute);
      BurstGrows(key, at, n - 1);
      TrimSame(at, n - 1, at);
      ProducedStep(Burst(key, at, n - 1), Hit(key, at, true), perMinute);
      InOrderStep(Burst(key, at, n - 1), Hit(key, at, true));
      DequeStep(Burst(key, at, n - 1), Hit(key, at, true), key);
    }
  }

  lemma {:induction false} CountOutside(times: seq<real>, lo: real, hi: real)
    requires forall i | 0 <= i < |times| :: !(lo < times[i] <= hi)
    ensures CountIn(times, lo, hi) == 0
  {
    if |times| > 0 {
      CountOutside(times[..|times| - 1], lo, hi);
    }
  }

  lemma SameInWindow(at: real, n: nat, lo: real, hi: real)
    ensures CountIn(Same(at, n), lo, hi) == if lo < at <= hi then n else 0
  {
    if lo < at <= hi {
      CountAll(Same(at, n), lo, hi);
    } else {
      CountOutside(Same(at, n), lo, hi);
    }
  }

  /** A reading that was overtaken by a full burst is refused, although its own window is empty. */
  lemma LateReadingIsRefused(key: string, at: real, now: real, perMinute: nat)
    requires perMinute >= 1 && now < at
    ensures var history := Burst(key, at, perMinute);
            && Produced(history, perMinute) && InOrder(history, key)
            && !Granted(history, key, now, perMinute) && CountIn(Times(history, key), now - 60.0, now) == 0
  {
    BurstIsProduced(key, at, perMinute, perMinute);
    TrimSame(at, perMinute, now);
    SameInWindow(at, perMinute, now - 60.0, now);
  }

  ghost predicate EndsAt(history: seq<Hit>, key: string, last: real) {
    |history| > 0 && history[|history| - 1].key == key && history[|history| - 1].now == last
  }

  /** The order of readings is exactly what the window rule needs: after every history in order whose
      latest reading of the key is `last`, a call at `now` is answered by the rule if and only if it does
      not come from before `last`. The clock is read before the lock, so it can. */
  lemma OrderIsExactlyNeeded(key: string, last: real, now: real, perMinute: nat)
    requires perMinute >= 1
    ensures (forall history :: Produced(history, perMinute) && InOrder(history, key) && EndsAt(history, key, last) ==>
               (Granted(history, key, now, perMinute) <==> Deserved(history, key, now, perMinute)))
            <==> last <= now
  {
    if last <= now {
      forall history | Produced(history, perMinute) && InOrder(history, key) && EndsAt(history, key, last)
        ensures Granted(history, key, now, perMinute) <==> Deserved(history, key, now, perMinute)
      {
        assert Ordered(history, key, now);
        DequeDecides(history, key, now, perMinute);
      }
    } else {
      LateReadingIsRefused(key, last, now, perMinute);
      var history := Burst(key, last, perMinute);
      assert EndsAt(history, key, last) && Produced(history, perMinute) && InOrder(history, key);
      assert !(Granted(history, key, now, perMinute) <==> Deserved(history, key, now, perMinute));
    }
  }

  lemma CountLast(later: real, now: real)
    requires now < later
    ensures CountIn([later, now], now - 60.0, now) == 1
  {
    var times := [later, now];
    assert times[..1] == [later] && times[|times| - 1] == now;
    CountOutside([later], now - 60.0, now);
  }

  /** A burst, a reading late enough to empty the deque, and one from before it: the last is accepted,
      and its window then holds one accept more than the limit. */
  lemma LateReadingIsAdmitted(key: string, at: real, later: real, now: real, perMinute: nat)
    requires perMinute >= 2 && at <= now < at + 60.0 <= later
    ensures var history := Burst(key, at, perMinute) + [Hit(key, later, true), Hit(key, now, true)];
            Produced(history, perMinute) && CountIn(Times(history, key), now - 60.0, now) == perMinute + 1
  {
    hide Produced, Deque, Times, CountIn;
    var burst, over, late := Burst(key, at, perMinute), Hit(key, later, true), Hit(key, now, true);
    BurstIsProduced(key, at, perMinute, perMinute);
    TrimSame(at, perMinute, later);
    DequeStep(burst, over, key);
    ProducedStep(burst, over, perMinute);
    assert Deque(burst + [over], key) == [later];
    assert Trim([later], now) == [later];
    DequeStep(burst + [over], late, key);
    ProducedStep(burst + [over], late, perMinute);
    assert (burst + [over]) + [late] == burst + [over, late];
    var times := Same(at, perMinute);
    assert Times(burst + [over, late], key) == times + [later, now];
    CountSplit(times, [later, now], now - 60.0, now);
    SameInWindow(at, perMinute, now - 60.0, now);
    CountLast(later, now);
  }

  /** The deque holds the last accept, and accepts are at least a minute apart. */
  ghost predicate OneByOne(times: seq<real>, deque: seq<real>) {
    && deque == (if |times| == 0 then [] else [times[|times| - 1]])
    && forall i, j | 0 <= i < j < |times| :: times[i] <= times[j] - 60.0
  }

  lemma LimitOneStep(times: seq<real>, deque: seq<real>, now: real, accepted: bool)
    requires OneByOne(times, deque) && (accepted <==> |Trim(deque, now)| < 1)
    ensures OneByOne(times + (if accepted then [now] else []), Trim(deque, now) + (if accepted then [now] else []))
  {
    if |times| > 0 {
      assert deque[1..] == [];
      assert Trim([], now) == [];
      assert Trim(deque, now) == if deque[0] <= now - 60.0 then [] else deque;
    }
    if accepted {
      assert Trim(deque, now) == [] && [] + [now] == [now];
      forall i | 0 <= i < |times| ensures times[i] <= now - 60.0 {
        assert i < |times| - 1 ==> times[i] <= times[|times| - 1] - 60.0;
      }
    } else {
      assert times + [] == times && deque + [] == deque;
    }
  }

  /** With a limit of one, late readings never let too much through. */
  lemma {:induction false} LimitOneHolds(history: seq<Hit>, key: string)
    requires Produced(history, 1)
    ensures OneByOne(Times(history, key), Deque(history, key))
  {
    if |history| > 0 {
      var front, h := history[..|history| - 1], history[|history| - 1];
      LimitOneHolds(front, key);
      if h.key == key {
        LimitOneStep(Times(front, key), Deque(front, key), h.now, h.accepted);
      } else {
        assert Times(front, key) + [] == Times(front, key);
      }
    }
  }

  lemma {:induction false} SpacedTimes(times: seq<real>, w: real)
    requires forall i, j | 0 <= i < j < |times| :: times[i] <= times[j] - 60.0
    ensures CountIn(times, w - 60.0, w) <= 1
  {
    if |times| > 0 {
      var last := times[|times| - 1];
      if w - 60.0 < last <= w {
        var front := times[..|times| - 1];
        forall i | 0 <= i < |front| ensures front[i] <= w - 60.0 {
          assert front[i] == times[i] <= last - 60.0;
        }
        CountNone(front, w - 60.0, w);
      } else {
        SpacedTimes(times[..|times| - 1], w);
      }
    }
  }

  /** Whatever the order of readings, no 60-second window holds more than perMinute accepts - if and only
      if the limit is one. */
  lemma OverAdmission(perMinute: nat)
    requires perMinute >= 1
    ensures (forall history, key, w :: Produced(history, perMinute) ==> WindowHolds(history, key, w, perMinute))
            <==> perMinute == 1
  {
    if perMinute == 1 {
      forall history, key, w | Produced(history, perMinute) ensures WindowHolds(history, key, w, perMinute) {
        LimitOneHolds(history, key);
        SpacedTimes(Times(history, key), w);
      }
    } else {
      LateReadingIsAdmitted("api", 0.0, 60.0, 50.0, perMinute);
      var history := Burst("api", 0.0, perMinute) + [Hit("api", 60.0, true), Hit("api", 50.0, true)];
      assert Produced(history, perMinute);
      assert !WindowHolds(history, "api", 50.0, perMinute);
    }
  }

  method FillUp(perMinute: nat, key: string, at: real) returns (limiter: RateLimiter)
    requires perMinute >= 1
    ensures fresh(limiter) && limiter.Valid() && limiter.perMinute == perMinute
    ensures limiter.history == Burst(key, at, perMinute)
  {
    limiter := new RateLimiter(perMinute);
    var i := 0;
    while i < perMinute
      invariant i <= perMinute && fresh(limiter) && limiter.Valid() && limiter.perMinute == perMinute
      invariant limiter.history == Burst(key, at, i)
    {
      BurstIsProduced(key, at, i, perMinute);
      TrimSame(at, i, at);
      var ok := limiter.Allow(key, at);
      BurstGrows(key, at, i);
      i := i + 1;
    }
  }

  /** Both failures as calls of the limiter: a burst, then an overtaken reading. */
  method RefuseLate(perMinute: nat, key: string, at: real, now: real) returns (limiter: RateLimiter, ok: bool)
    requires perMinute >= 1 && now < at
    ensures fresh(limiter) && !ok && limiter.history == Burst(key, at, perMinute) + [Hit(key, now, false)]
    ensures CountIn(Times(limiter.history, key), now - 60.0, now) == 0
  {
    limiter := FillUp(perMinute, key, at);
    LateReadingIsRefused(key, at, now, perMinute);
    ok := limiter.Allow(key, now);
    DequeStep(Burst(key, at, perMinute), Hit(key, now, false), key);
    assert Times(Burst(key, at, perMinute), key) + [] == Times(Burst(key, at, perMinute), key);
  }

  method AdmitLate(perMinute: nat, key: string, at: real, later: real, now: real)
    returns (limiter: RateLimiter, ok: bool)
    requires perMinute >= 2 && at <= now < at + 60.0 <= later
    ensures fresh(limiter) && ok && CountIn(Times(limiter.history, key), now - 60.0, now) == perMinute + 1
  {
    limiter := FillUp(perMinute, key, at);
    BurstIsProduced(key, at, perMinute, perMinute);
    TrimSame(at, perMinute, later);
    ok := limiter.Allow(key, later);
    DequeStep(Burst(key, at, perMinute), Hit(key, later, true), key);
    assert limiter.KeyOk(key) && Deque(limiter.history, key) == [later];
    assert Trim([later], now) == [later];
    ok := limiter.Allow(key, now);
    LateReadingIsAdmitted(key, at, later, now, perMinute);
    assert limiter.history == Burst(key, at, perMinute) + [Hit(key, later, true), Hit(key, now, true)];
  }
}
