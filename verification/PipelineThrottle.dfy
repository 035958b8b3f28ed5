/** The throttle over any interval of any run: the bucket's bound for sequences of calls, carried over
    to the `Charge` and `Deny` events of a worker lifetime. */
module PipelineThrottle {
  import opened Common
  import opened Pipeline
  import opened PipelineInvariant
  import opened PipelineOrder
  import Segments
  import T = Throttle

  /** The bucket calls since the worker created its bucket. */
  function Calls(es: seq<Event>): seq<T.Call> {
    if |es| == 0 then [] else
      match es[|es| - 1]
      case BootRecover(_, _) => []
      case Charge(now, cost) => Calls(es[..|es| - 1]) + [T.Call(now, cost)]
      case Deny(now, cost) => Calls(es[..|es| - 1]) + [T.Call(now, cost)]
      case _ => Calls(es[..|es| - 1])
  }

  /** Segments granted in the same lifetime at times between `lo` and `hi`. */
  function GrantedBetween(es: seq<Event>, lo: real, hi: real): nat {
    if |es| == 0 then 0 else
      match es[|es| - 1]
      case BootRecover(_, _) => 0
      case Charge(now, cost) => GrantedBetween(es[..|es| - 1], lo, hi) + if lo <= now <= hi then cost else 0
      case _ => GrantedBetween(es[..|es| - 1], lo, hi)
  }

  lemma {:induction false} OneMoreCall(l: T.Level, calls: seq<T.Call>, c: T.Call, lo: real, hi: real)
    ensures T.After(l, calls + [c]) == T.After(l, calls).TryTake(c.now, c.cost).0
    ensures T.GrantedIn(l, calls + [c], lo, hi)
            == T.GrantedIn(l, calls, lo, hi)
               + if T.After(l, calls).TryTake(c.now, c.cost).1 && lo <= c.now <= hi then c.cost else 0
    ensures T.Ordered(calls, l.last) && T.After(l, calls).last <= c.now ==> T.Ordered(calls + [c], l.last)
    decreases calls
  {
    if |calls| == 0 {
      assert calls + [c] == [c] && [c][1..] == [];
    } else {
      assert (calls + [c])[1..] == calls[1..] + [c];
      OneMoreCall(l.TryTake(calls[0].now, calls[0].cost).0, calls[1..], c, lo, hi);
    }
  }

  /** The bucket is what the calls of this lifetime have made of a full one. */
  ghost predicate BucketOk(perMinute: nat, es: seq<Event>, bucket: T.Level, lo: real, hi: real) {
    var full := T.Full(perMinute, BootTime(es));
    && T.After(full, Calls(es)) == bucket
    && T.Ordered(Calls(es), full.last) && T.CostsUpTo(Calls(es), Segments.MAX_SEGMENTS)
    && GrantedBetween(es, lo, hi) == T.GrantedIn(full, Calls(es), lo, hi)
  }

  lemma BucketOkStep(perMinute: nat, es: seq<Event>, b: T.Level, e: Event, lo: real, hi: real)
    requires BucketOk(perMinute, es, b, lo, hi)
    requires e.Charge? ==> b.last <= e.now && e.cost <= Segments.MAX_SEGMENTS && b.TryTake(e.now, e.cost).1
    requires e.Deny? ==> b.last <= e.now && e.cost <= Segments.MAX_SEGMENTS && !b.TryTake(e.now, e.cost).1
    ensures BucketOk(perMinute, es + [e], BucketAfter(perMinute, b, e), lo, hi)
  {
    assert (es + [e])[..|es|] == es;
    if e.Charge? || e.Deny? {
      OneMoreCall(T.Full(perMinute, BootTime(es)), Calls(es), T.Call(e.now, e.cost), lo, hi);
    }
  }

  lemma BucketOkNext(cfg: Config, es: seq<Event>, s: State, e: Event, lo: real, hi: real)
    requires Inv(cfg, s) && Enabled(s, e) && BucketOk(cfg.perMinute, es, s.bucket, lo, hi)
    ensures BucketOk(cfg.perMinute, es + [e], Next(cfg, s, e).bucket, lo, hi)
  {
    hide BucketOk, Next;
    BucketStep(cfg, s, e);
    BucketOkStep(cfg.perMinute, es, s.bucket, e, lo, hi);
  }

  lemma {:induction false} RunsKeepBucketOk(cfg: Config, es: seq<Event>, lo: real, hi: real)
    requires cfg.perMinute >= 1 && IsRun(cfg, es)
    ensures BucketOk(cfg.perMinute, es, StateAfter(cfg, es).bucket, lo, hi)
  {
    hide Next, Inv, Enabled;
    if |es| > 0 {
      var front, e := es[..|es| - 1], es[|es| - 1];
      RunsKeepBucketOk(cfg, front, lo, hi);
      RunsKeepInv(cfg, front);
      BucketOkNext(cfg, front, StateAfter(cfg, front), e, lo, hi);
      assert front + [e] == es;
    }
  }

  /** Over every run: in any interval of one worker lifetime the segments granted are at most
      perMinute + perMinute * seconds / 60 + 9. */
  lemma ThrottleWindow(cfg: Config, es: seq<Event>, lo: real, hi: real)
    requires cfg.perMinute >= 1 && IsRun(cfg, es) && lo <= hi
    ensures GrantedBetween(es, lo, hi) as real <= cfg.perMinute as real + T.Inflow(cfg.perMinute, hi - lo) + 9.0
  {
    hide IsRun, StateAfter, T.Inflow, T.GrantedIn, T.Ordered, T.CostsUpTo, T.After, GrantedBetween, BootTime, Calls;
    RunsKeepBucketOk(cfg, es, lo, hi);
    T.WindowBound(T.Full(cfg.perMinute, BootTime(es)), Calls(es), lo, hi, Segments.MAX_SEGMENTS);
  }
}
