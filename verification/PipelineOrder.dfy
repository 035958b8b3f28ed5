/** Throttle, order and progress over the runs of the store-and-forward machine. */
module PipelineOrder {
  import opened Common
  import opened Messages
  import opened Pipeline
  import opened PipelineInvariant
  import opened PipelineTheorems
  import Segments
  import S = Sending
  import T = Throttle

  // ---- the throttle over a worker lifetime ----

  /** Segments granted since the worker created its bucket. */
  function Granted(es: seq<Event>): nat {
    if |es| == 0 then 0 else
      match es[|es| - 1]
      case BootRecover(_, _) => 0
      case Charge(_, cost) => Granted(es[..|es| - 1]) + cost
      case _ => Granted(es[..|es| - 1])
  }

  /** Parts the modem accepted in the same lifetime, retries and requeued sends included. */
  function PartsAccepted(es: seq<Event>): nat {
    if |es| == 0 then 0 else
      match es[|es| - 1]
      case BootRecover(_, _) => 0
      case Accept(_, _) => PartsAccepted(es[..|es| - 1]) + 1
      case _ => PartsAccepted(es[..|es| - 1])
  }

  function BootTime(es: seq<Event>): real {
    if |es| == 0 then 0.0 else
      match es[|es| - 1]
      case BootRecover(_, now) => now
      case _ => BootTime(es[..|es| - 1])
  }

  /** Every message was encoded into as many parts as its row says. */
  ghost predicate CountsMatch(cfg: Config, es: seq<Event>) {
    |es| == 0 ||
    (var front, e := es[..|es| - 1], es[|es| - 1];
     && CountsMatch(cfg, front)
     && (e.MarkSending? && e.id in StateAfter(cfg, front).db ==> e.n == StateAfter(cfg, front).db[e.id].segments))
  }

  /** Parts paid for and not yet accepted by the send under way. */
  function Reserve(s: State): int {
    match s.worker
    case Charged(_, _, cost) => cost
    case Flight(_, _, _, n, done) => n - done
    case _ => 0
  }

  lemma ReserveStep(cfg: Config, s: State, e: Event)
    requires Inv(cfg, s) && Enabled(s, e)
    requires e.MarkSending? && e.id in s.db ==> e.n == s.db[e.id].segments
    ensures Reserve(Next(cfg, s, e)) + (if e.Accept? then 1 else 0)
            <= Reserve(s) + (if e.Charge? then e.cost else 0)
    ensures Reserve(Next(cfg, s, e)) >= 0
  {
    if e.MarkSending? {
      assert RowAt(s.worker, s.worker.at, s.db[e.id]);
    } else if s.worker.Flight? {
      FlightLog(s.worker.script, s.worker.n, s.link);
    }
  }

  lemma {:induction false} PartsWithinGrants(cfg: Config, es: seq<Event>)
    requires cfg.perMinute >= 1 && IsRun(cfg, es) && CountsMatch(cfg, es)
    ensures PartsAccepted(es) + Reserve(StateAfter(cfg, es)) <= Granted(es)
    ensures Reserve(StateAfter(cfg, es)) >= 0
  {
    if |es| > 0 {
      var front := es[..|es| - 1];
      PartsWithinGrants(cfg, front);
      RunsKeepInv(cfg, front);
      ReserveStep(cfg, StateAfter(cfg, front), es[|es| - 1]);
    }
  }

  lemma InflowStep(perMinute: nat, b: T.Level, now: real, cost: nat, boot: real, granted: nat)
    requires b.perMinute == perMinute && b.Valid(Segments.MAX_SEGMENTS) && cost <= Segments.MAX_SEGMENTS
    requires boot <= b.last <= now
    requires granted as real + b.tokens <= perMinute as real + T.Inflow(perMinute, b.last - boot)
    ensures var (b', ok) := b.TryTake(now, cost);
            (granted + if ok then cost else 0) as real + b'.tokens
            <= perMinute as real + T.Inflow(perMinute, now - boot)
  {
    T.TryTakeKeepsValid(b, now, cost, Segments.MAX_SEGMENTS);
    T.InflowAdds(perMinute, b.last - boot, now - b.last);
    assert (b.last - boot) + (now - b.last) == now - boot;
  }

  /** The bucket after an event, and the two counts the event changes. */
  function BucketAfter(perMinute: nat, b: T.Level, e: Event): T.Level {
    match e
    case BootRecover(_, now) => T.Full(perMinute, now)
    case Deny(now, cost) => b.TryTake(now, cost).0
    case Charge(now, cost) => b.TryTake(now, cost).0
    case _ => b
  }

  lemma BucketStep(cfg: Config, s: State, e: Event)
    requires Enabled(s, e)
    ensures Next(cfg, s, e).bucket == BucketAfter(cfg.perMinute, s.bucket, e)
  {
  }

  ghost predicate GrantsOk(perMinute: nat, es: seq<Event>, b: T.Level) {
    && BootTime(es) <= b.last
    && Granted(es) as real + b.tokens <= perMinute as real + T.Inflow(perMinute, b.last - BootTime(es))
  }

  lemma GrantsStep(perMinute: nat, es: seq<Event>, b: T.Level, e: Event)
    requires b.perMinute == perMinute && b.Valid(Segments.MAX_SEGMENTS) && GrantsOk(perMinute, es, b)
    requires e.Charge? ==> b.last <= e.now && e.cost <= Segments.MAX_SEGMENTS && b.TryTake(e.now, e.cost).1
    requires e.Deny? ==> b.last <= e.now && e.cost <= Segments.MAX_SEGMENTS && !b.TryTake(e.now, e.cost).1
    ensures GrantsOk(perMinute, es + [e], BucketAfter(perMinute, b, e))
  {
    assert (es + [e])[..|es|] == es;
    if e.Charge? || e.Deny? {
      InflowStep(perMinute, b, e.now, e.cost, BootTime(es), Granted(es));
    }
  }

  lemma GrantsOneMore(cfg: Config, es: seq<Event>, s: State, e: Event)
    requires Inv(cfg, s) && Enabled(s, e) && GrantsOk(cfg.perMinute, es, s.bucket)
    ensures GrantsOk(cfg.perMinute, es + [e], Next(cfg, s, e).bucket)
  {
    hide GrantsOk, Next;
    BucketStep(cfg, s, e);
    GrantsStep(cfg.perMinute, es, s.bucket, e);
  }

  /** What has been granted and what is left in the bucket never exceed the initial fill and the
      inflow since the worker started. */
  lemma {:induction false} GrantsWithinInflow(cfg: Config, es: seq<Event>)
    requires cfg.perMinute >= 1 && IsRun(cfg, es)
    ensures GrantsOk(cfg.perMinute, es, StateAfter(cfg, es).bucket)
  {
    hide Next, Inv, Enabled;
    if |es| > 0 {
      var front, e := es[..|es| - 1], es[|es| - 1];
      GrantsWithinInflow(cfg, front);
      RunsKeepInv(cfg, front);
      GrantsOneMore(cfg, front, StateAfter(cfg, front), e);
      assert front + [e] == es;
    }
  }

  lemma ThrottleFrom(cfg: Config, es: seq<Event>, s: State)
    requires Inv(cfg, s) && GrantsOk(cfg.perMinute, es, s.bucket)
    requires PartsAccepted(es) + Reserve(s) <= Granted(es) && Reserve(s) >= 0
    ensures PartsAccepted(es) <= Granted(es)
    ensures Granted(es) as real
            <= cfg.perMinute as real + T.Inflow(cfg.perMinute, s.bucket.last - BootTime(es)) + 9.0
  {
    var limit := cfg.perMinute as real + T.Inflow(cfg.perMinute, s.bucket.last - BootTime(es));
    assert s.bucket.tokens >= -9.0;
    assert Granted(es) as real + s.bucket.tokens <= limit;
  }

  /** The throttle at the modem: in one worker lifetime, as long as the modem's part counts agree
      with the stored ones, the parts accepted never exceed the segments granted, and those stay
      within perMinute + perMinute * seconds / 60 + 9. */
  lemma ThrottleHolds(cfg: Config, es: seq<Event>, s: State)
    requires cfg.perMinute >= 1 && IsRun(cfg, es) && CountsMatch(cfg, es) && s == StateAfter(cfg, es)
    ensures PartsAccepted(es) <= Granted(es)
    ensures Granted(es) as real
            <= cfg.perMinute as real + T.Inflow(cfg.perMinute, s.bucket.last - BootTime(es)) + 9.0
  {
    PartsWithinGrants(cfg, es);
    GrantsWithinInflow(cfg, es);
    RunsKeepInv(cfg, es);
    ThrottleFrom(cfg, es, s);
  }

  // ---- no overtaking ----

  ghost predicate NoSnapshot(es: seq<Event>) { forall i | 0 <= i < |es| :: !es[i].Snapshot? }

  /** A run seen forwards, from some state on. */
  ghost predicate Steps(cfg: Config, s: State, es: seq<Event>)
    decreases es
  {
    |es| == 0 || (Enabled(s, es[0]) && Steps(cfg, Next(cfg, s, es[0]), es[1..]))
  }

  function StateFrom(cfg: Config, s: State, es: seq<Event>): State
    decreases es
  {
    if |es| == 0 then s else StateFrom(cfg, Next(cfg, s, es[0]), es[1..])
  }

  lemma {:induction false} StepsSnoc(cfg: Config, s: State, es: seq<Event>, e: Event)
    requires Steps(cfg, s, es) && Enabled(StateFrom(cfg, s, es), e)
    ensures Steps(cfg, s, es + [e])
    ensures StateFrom(cfg, s, es + [e]) == Next(cfg, StateFrom(cfg, s, es), e)
    decreases es
  {
    if |es| > 0 {
      assert (es + [e])[1..] == es[1..] + [e];
      StepsSnoc(cfg, Next(cfg, s, es[0]), es[1..], e);
    }
  }

  lemma RunUnsnoc(cfg: Config, es: seq<Event>, front: seq<Event>, e: Event)
    requires es == front + [e] && IsRun(cfg, es)
    ensures IsRun(cfg, front) && Enabled(StateAfter(cfg, front), e)
    ensures StateAfter(cfg, es) == Next(cfg, StateAfter(cfg, front), e)
  {
    assert es[..|es| - 1] == front;
  }

  lemma LastApart(pre: seq<Event>, es: seq<Event>)
    requires |es| > 0
    ensures es == es[..|es| - 1] + [es[|es| - 1]]
    ensures pre + es == (pre + es[..|es| - 1]) + [es[|es| - 1]]
  {
  }

  /** The second half of a run, seen forwards from the state after the first. */
  lemma {:induction false} SplitRun(cfg: Config, pre: seq<Event>, es: seq<Event>)
    requires IsRun(cfg, pre + es)
    ensures IsRun(cfg, pre) && Steps(cfg, StateAfter(cfg, pre), es)
    ensures StateAfter(cfg, pre + es) == StateFrom(cfg, StateAfter(cfg, pre), es)
    decreases es
  {
    if |es| == 0 {
      assert pre + es == pre;
    } else {
      hide IsRun, StateAfter, Enabled, Next, Steps, StateFrom;
      var front, e := es[..|es| - 1], es[|es| - 1];
      LastApart(pre, es);
      RunUnsnoc(cfg, pre + es, pre + front, e);
      SplitRun(cfg, pre, front);
      StepsSnoc(cfg, StateAfter(cfg, pre), front, e);
    }
  }

  lemma QueueStays(cfg: Config, s: State, e: Event, queue: seq<Id>)
    requires Enabled(s, e) && !e.Snapshot? && (InPass(s.worker) ==> s.worker.queue == queue)
    ensures InPass(Next(cfg, s, e).worker) ==> Next(cfg, s, e).worker.queue == queue
  {
  }

  lemma {:induction false} SamePass(cfg: Config, s: State, queue: seq<Id>, mid: seq<Event>)
    requires Steps(cfg, s, mid) && NoSnapshot(mid) && (InPass(s.worker) ==> s.worker.queue == queue)
    ensures var w := StateFrom(cfg, s, mid).worker; InPass(w) ==> w.queue == queue
    decreases mid
  {
    if |mid| > 0 {
      QueueStays(cfg, s, mid[0], queue);
      SamePass(cfg, Next(cfg, s, mid[0]), queue, mid[1..]);
    }
  }

  lemma StepsFirst(cfg: Config, s: State, e: Event, es: seq<Event>)
    requires Steps(cfg, s, [e] + es)
    ensures Enabled(s, e) && Steps(cfg, Next(cfg, s, e), es)
    ensures StateFrom(cfg, s, [e] + es) == StateFrom(cfg, Next(cfg, s, e), es)
  {
    assert ([e] + es)[1..] == es;
  }

  lemma PositionAhead(db: Table, queue: seq<Id>, ahead: Id, at: nat) returns (x: nat)
    requires IsOutbox(db, queue) && at < |queue|
    requires ahead in db && IsQueued(db[ahead]) && Before(db, ahead, queue[at])
    ensures x < at && queue[x] == ahead
  {
    x :| 0 <= x < |queue| && queue[x] == ahead;
    assert x > at ==> Before(db, queue[at], queue[x]);
  }

  lemma AheadIsSettled(s: State, db: Table, ahead: Id)
    requires s.worker.Charged? && QueueOk(s) && IsOutbox(db, s.worker.queue)
    requires ahead in db && IsQueued(db[ahead]) && Before(db, ahead, s.worker.queue[s.worker.at])
    ensures ahead !in s.db || Settled(s.db[ahead])
  {
    var x := PositionAhead(db, s.worker.queue, ahead, s.worker.at);
    if ahead in s.db {
      assert RowAt(s.worker, x, s.db[ahead]);
    }
  }

  /** No overtaking: when a message is about to become `sending`, every message that was queued
      ahead of it when the pass loaded its queue has been sent, failed or purged. The pass in
      question is the latest one, so this spans throttle breaks, lost connections and crashes. */
  lemma NoOvertaking(cfg: Config, pre: seq<Event>, queue: seq<Id>, mid: seq<Event>, ahead: Id, id: Id,
                     script: S.Script, n: nat)
    requires cfg.perMinute >= 1 && IsRun(cfg, pre + ([Snapshot(queue)] + mid)) && NoSnapshot(mid)
    requires Enabled(StateAfter(cfg, pre + ([Snapshot(queue)] + mid)), MarkSending(id, script, n))
    requires var db := StateAfter(cfg, pre).db;
             && ahead in db && IsQueued(db[ahead]) && id in db
             && (db[ahead].createdAt < db[id].createdAt || (db[ahead].createdAt == db[id].createdAt && ahead < id))
    ensures var db := StateAfter(cfg, pre + ([Snapshot(queue)] + mid)).db;
            ahead !in db || db[ahead].status == Sent || db[ahead].status == Messages.Failed
  {
    hide IsRun, StateAfter, Steps, StateFrom;
    var run := pre + ([Snapshot(queue)] + mid);
    RunsKeepInv(cfg, run);
    SplitRun(cfg, pre, [Snapshot(queue)] + mid);
    var s := StateAfter(cfg, pre);
    StepsFirst(cfg, s, Snapshot(queue), mid);
    SamePass(cfg, Next(cfg, s, Snapshot(queue)), queue, mid);
    AheadIsSettled(StateAfter(cfg, run), s.db, ahead);
  }

  // ---- progress ----

  /** Nothing but the work of one pass and of the API: no crash, no failure of the database or of the
      connection, and the pass is not followed by another one. Messages may be enqueued and purged. */
  ghost predicate Undisturbed(es: seq<Event>) {
    forall i | 0 <= i < |es| :: !es[i].Crash? && !es[i].Fault? && !es[i].Poll? && !es[i].Snapshot?
  }

  /** Sent, failed, or purged meanwhile. */
  ghost predicate HeadDone(s: State, id: Id) {
    id in s.used && (id in s.db ==> Settled(s.db[id]) || s.db[id].status == Delivered)
  }

  /** Either the head of the queue is still on its way with the tokens for it at hand, or it is
      settled or gone, or the connection was lost. */
  ghost predicate HeadOk(s: State, queue: seq<Id>) {
    var w := s.worker;
    && |queue| > 0
    && if InPass(w) then
         && w.queue == queue
         && (if w.at == 0 then queue[0] in s.used && (w.Pass? ==> s.bucket.tokens >= 1.0) else HeadDone(s, queue[0]))
       else (w.Receiving? && HeadDone(s, queue[0])) || w.Idle? || w.Opened?
  }

  lemma DoneStays(cfg: Config, s: State, e: Event, id: Id)
    requires Inv(cfg, s) && Enabled(s, e) && id in s.used
    ensures id in Next(cfg, s, e).used && (HeadDone(s, id) ==> HeadDone(Next(cfg, s, e), id))
  {
    if id !in s.db {
      NoRebirth(cfg, s, e, id);
    } else if id in Next(cfg, s, e).db {
      RowStep(cfg, s, e, id);
    }
  }

  lemma HeadStepBucket(cfg: Config, s: State, e: Event, queue: seq<Id>)
    requires cfg.perMinute >= 1 && Inv(cfg, s) && Enabled(s, e) && HeadOk(s, queue) && (e.Charge? || e.Deny?)
    ensures HeadOk(Next(cfg, s, e), queue)
  {
    T.InflowGrows(cfg.perMinute, 0.0, e.now - s.bucket.last);
  }

  lemma HeadStepSettle(cfg: Config, s: State, e: Event, queue: seq<Id>)
    requires Inv(cfg, s) && Enabled(s, e) && HeadOk(s, queue) && e.Settle?
    ensures HeadOk(Next(cfg, s, e), queue)
  {
    DoneStays(cfg, s, e, queue[0]);
  }

  lemma HeadStep(cfg: Config, s: State, e: Event, queue: seq<Id>)
    requires cfg.perMinute >= 1 && Inv(cfg, s) && Enabled(s, e) && HeadOk(s, queue)
    requires !e.Crash? && !e.Fault? && !e.Poll? && !e.Snapshot?
    ensures HeadOk(Next(cfg, s, e), queue)
  {
    if e.Charge? || e.Deny? {
      HeadStepBucket(cfg, s, e, queue);
    } else if e.Settle? {
      HeadStepSettle(cfg, s, e, queue);
    } else {
      if queue[0] in s.used {
        DoneStays(cfg, s, e, queue[0]);
      }
      BucketStep(cfg, s, e);
    }
  }

  lemma {:induction false} HeadFrom(cfg: Config, s: State, queue: seq<Id>, mid: seq<Event>)
    requires cfg.perMinute >= 1 && Inv(cfg, s) && Steps(cfg, s, mid) && Undisturbed(mid) && HeadOk(s, queue)
    ensures HeadOk(StateFrom(cfg, s, mid), queue)
    decreases mid
  {
    if |mid| > 0 {
      HeadStep(cfg, s, mid[0], queue);
      StepKeepsInv(cfg, s, mid[0]);
      HeadFrom(cfg, Next(cfg, s, mid[0]), queue, mid[1..]);
    }
  }

  lemma HeadAtStart(cfg: Config, s: State, queue: seq<Id>)
    requires Inv(cfg, s) && Enabled(s, Snapshot(queue)) && |queue| > 0 && s.bucket.tokens >= 1.0
    ensures HeadOk(Next(cfg, s, Snapshot(queue)), queue)
  {
    assert queue[0] in s.db;
  }

  /** A pass that starts with a non-empty queue and at least one token and meets no crash and no
      failure of the database or the connection ends with fewer of its messages queued: at least the
      first one has been sent, failed, or was purged meanwhile. */
  lemma PassProgress(cfg: Config, pre: seq<Event>, queue: seq<Id>, mid: seq<Event>)
    requires cfg.perMinute >= 1 && IsRun(cfg, pre + ([Snapshot(queue)] + mid)) && |queue| > 0
    requires StateAfter(cfg, pre).bucket.tokens >= 1.0 && Undisturbed(mid)
    requires StateAfter(cfg, pre + ([Snapshot(queue)] + mid)).worker == Receiving
    ensures var s := StateAfter(cfg, pre + ([Snapshot(queue)] + mid));
            && (set id | id in queue && id in s.db && IsQueued(s.db[id])) < IdSet(queue)
            && (queue[0] !in s.db || s.db[queue[0]].status in {Sent, Delivered, Messages.Failed})
  {
    hide IsRun, StateAfter, Steps, StateFrom;
    SplitRun(cfg, pre, [Snapshot(queue)] + mid);
    RunsKeepInv(cfg, pre + ([Snapshot(queue)] + mid));
    RunsKeepInv(cfg, pre);
    var s := StateAfter(cfg, pre);
    StepsFirst(cfg, s, Snapshot(queue), mid);
    HeadAtStart(cfg, s, queue);
    StepKeepsInv(cfg, s, Snapshot(queue));
    HeadFrom(cfg, Next(cfg, s, Snapshot(queue)), queue, mid);
    assert queue[0] in IdSet(queue);
  }

  // ---- rows ----

  /** delivered_at, sent_at and error are set exactly when the status says so, in every row of
      every committed state. */
  lemma RowsStayConsistent(cfg: Config, es: seq<Event>)
    requires cfg.perMinute >= 1 && IsRun(cfg, es)
    ensures forall id | id in StateAfter(cfg, es).db ::
              var row := StateAfter(cfg, es).db[id];
              && (row.deliveredAt.Some? <==> row.status == Delivered)
              && (row.sentAt.Some? <==> row.status == Sent || row.status == Delivered)
              && (row.error.Some? <==> row.status == Messages.Failed)
              && (row.direction == Inbound <==> row.status == Received)
  {
    hide IsRun, StateAfter;
    RunsKeepInv(cfg, es);
  }
}
