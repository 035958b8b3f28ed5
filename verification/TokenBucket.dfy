/** The send throttle of gateway/worker/main.py. Tokens and times are reals: rounding is not modelled.
    `Level` is the bucket as a value; the class updates the same three numbers in place. */
module Throttle {

  /** Tokens flowing in during `dt` seconds. */
  function Inflow(perMinute: nat, dt: real): real { dt * (perMinute as real / 60.0) }

  datatype Level = Level(perMinute: nat, tokens: real, last: real) {
    /** A bucket reachable with costs of at most `maxCost`. */
    ghost predicate Valid(maxCost: nat) {
      perMinute >= 1 && 1.0 - maxCost as real <= tokens <= perMinute as real
    }

    function Refill(now: real): Level {
      var tokens' := tokens + Inflow(perMinute, now - last);
      this.(tokens := if tokens' <= perMinute as real then tokens' else perMinute as real, last := now)
    }

    function TryTake(now: real, cost: nat): (Level, bool) {
      var full := Refill(now);
      if full.tokens >= 1.0 then (full.(tokens := full.tokens - cost as real), true) else (full, false)
    }
  }

  function Full(perMinute: nat, now: real): Level { Level(perMinute, perMinute as real, now) }

  class TokenBucket {
    const perMinute: nat
    var tokens: real
    var lastRefill: real

    function State(): Level
      reads this
    {
      Level(perMinute, tokens, lastRefill)
    }

    constructor (perMinute: nat, now: real)
      ensures State() == Full(perMinute, now)
    {
      this.perMinute := perMinute;
      this.tokens := perMinute as real;
      this.lastRefill := now;
    }

    method TryTake(now: real, cost: nat) returns (ok: bool)
      modifies this
      ensures (State(), ok) == old(State()).TryTake(now, cost)
    {
      var refilled := tokens + Inflow(perMinute, now - lastRefill);
      tokens := if refilled <= perMinute as real then refilled else perMinute as real;
      lastRefill := now;
      if tokens >= 1.0 {
        tokens := tokens - cost as real;
        return true;
      }
      return false;
    }
  }

  // ---- inflow ----

  lemma InflowAdds(perMinute: nat, a: real, b: real)
    ensures Inflow(perMinute, a + b) == Inflow(perMinute, a) + Inflow(perMinute, b)
  {
  }

  lemma InflowGrows(perMinute: nat, a: real, b: real)
    requires a <= b
    ensures Inflow(perMinute, a) <= Inflow(perMinute, b)
  {
    InflowAdds(perMinute, a, b - a);
    assert (b - a) * (perMinute as real / 60.0) >= 0.0;
  }

  /** Refilling on the way is the same as refilling once: how often the queue is polled has no
      effect on the balance. */
  lemma RefillIsPollIndependent(l: Level, t1: real, t2: real)
    requires l.last <= t1 <= t2
    ensures l.Refill(t1).Refill(t2) == l.Refill(t2)
  {
    InflowAdds(l.perMinute, t1 - l.last, t2 - t1);
    assert (t1 - l.last) + (t2 - t1) == t2 - l.last;
    InflowGrows(l.perMinute, 0.0, t2 - t1);
  }

  // ---- sequences of calls ----

  datatype Call = Call(now: real, cost: nat)

  /** The clock never goes backwards. */
  ghost predicate Ordered(calls: seq<Call>, from: real)
    decreases calls
  {
    |calls| == 0 || (from <= calls[0].now && Ordered(calls[1..], calls[0].now))
  }

  ghost predicate CostsUpTo(calls: seq<Call>, maxCost: nat) {
    forall i | 0 <= i < |calls| :: calls[i].cost <= maxCost
  }

  function After(l: Level, calls: seq<Call>): Level
    decreases calls
  {
    if |calls| == 0 then l else After(l.TryTake(calls[0].now, calls[0].cost).0, calls[1..])
  }

  /** Total cost granted to the calls made at a time in [lo, hi]. */
  function GrantedIn(l: Level, calls: seq<Call>, lo: real, hi: real): nat
    decreases calls
  {
    if |calls| == 0 then 0 else
      var (l', ok) := l.TryTake(calls[0].now, calls[0].cost);
      (if ok && lo <= calls[0].now <= hi then calls[0].cost else 0) + GrantedIn(l', calls[1..], lo, hi)
  }

  /** The balance never exceeds the capacity and never falls below 1 - maxCost. */
  lemma TryTakeKeepsValid(l: Level, now: real, cost: nat, maxCost: nat)
    requires l.Valid(maxCost) && l.last <= now && cost <= maxCost
    ensures l.TryTake(now, cost).0.Valid(maxCost)
    ensures l.TryTake(now, cost).0.last == now
    ensures l.Refill(now).tokens <= l.tokens + Inflow(l.perMinute, now - l.last)
  {
    InflowGrows(l.perMinute, 0.0, now - l.last);
  }

  lemma {:induction false} NothingAfter(l: Level, calls: seq<Call>, lo: real, hi: real)
    requires Ordered(calls, l.last) && hi < l.last
    ensures GrantedIn(l, calls, lo, hi) == 0
    decreases calls
  {
    if |calls| > 0 {
      NothingAfter(l.TryTake(calls[0].now, calls[0].cost).0, calls[1..], lo, hi);
    }
  }

  /** Once inside the window: what can still be granted is the balance, what flows in until the
      window closes, and one overdraft. */
  lemma {:induction false} GrantedFromHere(l: Level, calls: seq<Call>, lo: real, hi: real, maxCost: nat)
    requires maxCost >= 1 && l.Valid(maxCost) && Ordered(calls, l.last) && CostsUpTo(calls, maxCost)
    requires l.last <= hi
    ensures GrantedIn(l, calls, lo, hi) as real <= l.tokens + Inflow(l.perMinute, hi - l.last) + maxCost as real - 1.0
    decreases calls
  {
    InflowGrows(l.perMinute, 0.0, hi - l.last);
    if |calls| > 0 {
      var now, cost := calls[0].now, calls[0].cost;
      var (l', ok) := l.TryTake(now, cost);
      assert CostsUpTo(calls[1..], maxCost);
      TryTakeKeepsValid(l, now, cost, maxCost);
      if now <= hi {
        GrantedFromHere(l', calls[1..], lo, hi, maxCost);
        InflowAdds(l.perMinute, now - l.last, hi - now);
        assert (now - l.last) + (hi - now) == hi - l.last;
      } else {
        NothingAfter(l', calls[1..], lo, hi);
      }
    }
  }

  /** Throttle: in any interval [lo, hi] of one worker lifetime the segments granted are at most
      perMinute + perMinute * (hi - lo) / 60 + (maxCost - 1). */
  lemma {:induction false} WindowBound(l: Level, calls: seq<Call>, lo: real, hi: real, maxCost: nat)
    requires maxCost >= 1 && l.Valid(maxCost) && Ordered(calls, l.last) && CostsUpTo(calls, maxCost)
    requires lo <= hi
    ensures GrantedIn(l, calls, lo, hi) as real
            <= l.perMinute as real + Inflow(l.perMinute, hi - lo) + maxCost as real - 1.0
    decreases calls
  {
    InflowGrows(l.perMinute, 0.0, hi - lo);
    if |calls| > 0 {
      var now, cost := calls[0].now, calls[0].cost;
      var (l', ok) := l.TryTake(now, cost);
      assert CostsUpTo(calls[1..], maxCost);
      TryTakeKeepsValid(l, now, cost, maxCost);
      if now < lo {
        WindowBound(l', calls[1..], lo, hi, maxCost);
      } else if now <= hi {
        GrantedFromHere(l', calls[1..], lo, hi, maxCost);
        InflowGrows(l.perMinute, hi - now, hi - lo);
      } else {
        NothingAfter(l', calls[1..], lo, hi);
      }
    }
  }

  /** The worker's own figures: costs of at most ten segments, from a bucket that starts full. */
  lemma SegmentsPerInterval(perMinute: nat, start: real, calls: seq<Call>, lo: real, hi: real)
    requires perMinute >= 1 && Ordered(calls, start) && CostsUpTo(calls, 10) && lo <= hi
    ensures GrantedIn(Full(perMinute, start), calls, lo, hi) as real
            <= perMinute as real + perMinute as real * (hi - lo) / 60.0 + 9.0
  {
    WindowBound(Full(perMinute, start), calls, lo, hi, 10);
    assert Inflow(perMinute, hi - lo) == perMinute as real * (hi - lo) / 60.0;
  }

  lemma {:induction false} Drain(l: Level, n: nat, now: real)
    requires l.tokens == n as real + 1.0 && l.tokens <= l.perMinute as real && l.last == now
    ensures GrantedIn(l, seq(n, _ => Call(now, 1)) + [Call(now, 10)], now, now) == n + 10
    decreases n
  {
    var calls := seq(n, _ => Call(now, 1)) + [Call(now, 10)];
    if n > 0 {
      assert calls[1..] == seq(n - 1, _ => Call(now, 1)) + [Call(now, 10)];
      Drain(l.TryTake(now, 1).0, n - 1, now);
    } else {
      assert calls == [Call(now, 10)];
    }
  }

  /** The bound cannot be improved by a whole token: a full bucket polled at one instant grants
      perMinute - 1 single segments and then a message of ten. */
  lemma BoundIsReached(perMinute: nat, now: real)
    requires perMinute >= 1
    ensures GrantedIn(Full(perMinute, now), seq(perMinute - 1, _ => Call(now, 1)) + [Call(now, 10)], now, now)
            == perMinute + 9
  {
    Drain(Full(perMinute, now), perMinute - 1, now);
  }

  // ---- how long the queue can wait ----

  ghost predicate AllDenied(l: Level, calls: seq<Call>)
    decreases calls
  {
    |calls| == 0 ||
    (!l.TryTake(calls[0].now, calls[0].cost).1 && AllDenied(l.Refill(calls[0].now), calls[1..]))
  }

  lemma {:induction false} DeniedOnlyRefills(l: Level, calls: seq<Call>, now: real)
    requires Ordered(calls, l.last) && AllDenied(l, calls) && l.last <= now
    requires forall i | 0 <= i < |calls| :: calls[i].now <= now
    ensures After(l, calls).Refill(now) == l.Refill(now)
    decreases calls
  {
    if |calls| > 0 {
      var t := calls[0].now;
      DeniedOnlyRefills(l.Refill(t), calls[1..], now);
      RefillIsPollIndependent(l, t, now);
    }
  }

  /** The same with the waiting time given as the time in which the cost flows back in. */
  lemma GrantAfter(l: Level, at: real, cost: nat, polls: seq<Call>, now: real, next: nat, wait: real)
    requires l.perMinute >= 1 && l.tokens <= l.perMinute as real && l.last <= at
    requires l.TryTake(at, cost).1
    requires Ordered(polls, at) && AllDenied(l.TryTake(at, cost).0, polls)
    requires forall i | 0 <= i < |polls| :: polls[i].now <= now
    requires wait >= 0.0 && Inflow(l.perMinute, wait) == cost as real && now >= at + wait
    ensures After(l.TryTake(at, cost).0, polls).TryTake(now, next).1
  {
    var l' := l.TryTake(at, cost).0;
    InflowGrows(l.perMinute, wait, now - at);
    DeniedOnlyRefills(l', polls, now);
  }

  lemma TimeForCost(perMinute: nat, cost: nat)
    requires perMinute >= 1
    ensures Inflow(perMinute, 60.0 * cost as real / perMinute as real) == cost as real
    ensures 60.0 * cost as real / perMinute as real >= 0.0
  {
    var pm := perMinute as real;
    assert 60.0 * cost as real / pm * pm == 60.0 * cost as real;
  }

  /** After a grant of cost c, whatever refused polls come in between, a call at least
      60 * c / perMinute seconds later is granted; for an accepted body that is at most
      600 / perMinute seconds. */
  lemma GrantWithin(l: Level, at: real, cost: nat, polls: seq<Call>, now: real, next: nat)
    requires l.perMinute >= 1 && l.tokens <= l.perMinute as real && l.last <= at
    requires l.TryTake(at, cost).1
    requires Ordered(polls, at) && AllDenied(l.TryTake(at, cost).0, polls)
    requires forall i | 0 <= i < |polls| :: polls[i].now <= now
    requires now >= at + 60.0 * cost as real / l.perMinute as real
    ensures After(l.TryTake(at, cost).0, polls).TryTake(now, next).1
  {
    TimeForCost(l.perMinute, cost);
    GrantAfter(l, at, cost, polls, now, next, 60.0 * cost as real / l.perMinute as real);
  }
}
