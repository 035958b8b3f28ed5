/** Runs that reach a bound or break a promise. The duplication bound is reached for every body and every
    number of crashes: the product requirements say a multipart send that partly succeeded is never retried,
    which holds for errors the worker sees, not for a crash. */
module PipelineWitness {
  import opened Common
  import opened Messages
  import opened Pipeline
  import opened PipelineOutcomes
  import opened PipelineTheorems
  import Segments
  import S = Sending
  import T = Throttle

  /** The modem takes the first part; nothing is known about the second. */
  const SCRIPT: S.Script := [S.Slot(S.Encoded, S.Accepted(None), S.Accepted(None)),
                             S.Slot(S.Encoded, S.Accepted(None), S.Accepted(None))]

  lemma FirstPartGoesOut(n: nat)
    requires n >= 1
    ensures S.Courteous(SCRIPT)
    ensures FlightEnd(SCRIPT, n, true).0.log == [S.Submit(0, None, true)]
  {
    var k1 := S.Link(true, 1, []);
    var k2 := S.Link(true, 2, [S.Submit(0, None, true)]);
    assert [] + [S.Submit(0, None, true)] == k2.log;
    assert S.SendOne(SCRIPT, k1, 0, true) == (k2, S.Ok(None), true);
    if n == 1 {
      assert S.SendParts(SCRIPT, k2, n, 1, true, None) == (k2, S.Done(1, None));
      assert S.SendParts(SCRIPT, k1, n, 0, true, None) == (k2, S.Done(1, None));
      assert S.SendSms(SCRIPT, S.Link(true, 0, []), n) == (k2, S.Done(1, None));
    } else {
      var k3 := S.Link(false, 3, k2.log);
      assert S.SendOne(SCRIPT, k2, 1, true) == (k3, S.Raised(S.ConnectionError), true);
      assert S.SendParts(SCRIPT, k2, n, 1, true, None) == (k3, S.Failed(S.PartialSend));
      assert S.SendParts(SCRIPT, k1, n, 0, true, None) == (k3, S.Failed(S.PartialSend));
      assert S.SendSms(SCRIPT, S.Link(true, 0, []), n) == (k3, S.Failed(S.PartialSend));
    }
  }

  /** A run ending in state s, with part 0 of message 1 accepted and message 1 recovered so often. */
  ghost predicate At(cfg: Config, es: seq<Event>, s: State, parts: nat, recovered: nat) {
    && IsRun(cfg, es) && StateAfter(cfg, es) == s
    && PartCount(es, 1, 0) == parts && Recoveries(es, 1) == recovered
  }

  lemma Go(cfg: Config, es: seq<Event>, s: State, parts: nat, recovered: nat, e: Event) returns (run: seq<Event>)
    requires At(cfg, es, s, parts, recovered) && Enabled(s, e)
    ensures run == es + [e]
    ensures At(cfg, run, Next(cfg, s, e), parts + (if e == Accept(1, 0) then 1 else 0),
               recovered + (if Recovers(e, 1) then 1 else 0))
  {
    run := es + [e];
    assert run[..|run| - 1] == es;
    RunSnoc(cfg, es, e);
  }

  function Stored(row: Row, status: Status): Table { map[1 := row.(status := status)] }

  lemma FourMore(es: seq<Event>, a: Event, b: Event, c: Event, d: Event)
    ensures es + [a] + [b] + [c] + [d] == es + [a, b, c, d]
  {
  }

  lemma Boot(cfg: Config, es: seq<Event>, row: Row, status: Status, bucket: T.Level, now: real, parts: nat,
             recovered: nat)
    returns (run: seq<Event>)
    requires At(cfg, es, State(Stored(row, status), {1}, Down, false, bucket), parts, recovered)
    requires row.direction == Outbound && (status == Queued || status == Sending)
    ensures At(cfg, run, State(Stored(row, Queued), {1}, Idle(true), true, T.Full(cfg.perMinute, now)), parts,
               recovered + if status == Sending then 1 else 0)
    ensures run == es + [Start, BootRecover(Stuck(Stored(row, status)), now), Connect, Recover({})]
  {
    hide At;
    var ids, full := Stuck(Stored(row, status)), T.Full(cfg.perMinute, now);
    assert ids == if status == Sending then {1} else {};
    assert Requeue(Stored(row, status), ids) == Stored(row, Queued);
    assert Requeue(Stored(row, Queued), {}) == Stored(row, Queued);
    var r1 := Go(cfg, es, State(Stored(row, status), {1}, Down, false, bucket), parts, recovered, Start);
    var r2 := Go(cfg, r1, State(Stored(row, status), {1}, Booting, false, bucket), parts, recovered,
                 BootRecover(ids, now));
    var recovered' := recovered + |ids|;
    var r3 := Go(cfg, r2, State(Stored(row, Queued), {1}, Idle(false), false, full), parts, recovered', Connect);
    assert Stuck(Stored(row, Queued)) == {};
    run := Go(cfg, r3, State(Stored(row, Queued), {1}, Opened, true, full), parts, recovered', Recover({}));
    FourMore(es, Start, BootRecover(ids, now), Connect, Recover({}));
  }

  lemma ThreeMore(es: seq<Event>, a: Event, b: Event, c: Event)
    ensures es + [a] + [b] + [c] == es + [a, b, c]
  {
  }

  /** The worker with the first part of message 1 accepted and nothing committed since. */
  function Flying(row: Row, bucket: T.Level): State {
    State(Stored(row, Sending), {1}, Flight([1], 0, SCRIPT, row.segments, 1), true, bucket)
  }

  lemma FullGrants(perMinute: nat, now: real, cost: nat)
    requires perMinute >= 1
    ensures T.Full(perMinute, now).TryTake(now, cost).1
  {
    assert T.Inflow(perMinute, now - now) == 0.0;
  }

  /** Loading the queue, paying and marking the message `sending`. */
  lemma Mark(cfg: Config, es: seq<Event>, row: Row, now: real, script: S.Script, parts: nat, recovered: nat)
    returns (run: seq<Event>, bucket: T.Level)
    requires cfg.perMinute >= 1 && row.direction == Outbound && 1 <= row.segments <= Segments.MAX_SEGMENTS
    requires S.Courteous(script)
    requires At(cfg, es, State(Stored(row, Queued), {1}, Idle(true), true, T.Full(cfg.perMinute, now)), parts,
                recovered)
    ensures At(cfg, run, State(Stored(row, Sending), {1}, Flight([1], 0, script, row.segments, 0), true, bucket),
               parts, recovered)
    ensures run == es + [Snapshot([1]), Charge(now, row.segments), MarkSending(1, script, row.segments)]
  {
    hide At, FlightEnd;
    var n, full, db := row.segments, T.Full(cfg.perMinute, now), Stored(row, Queued);
    FullGrants(cfg.perMinute, now, n);
    bucket := full.TryTake(now, n).0;
    assert IsOutbox(db, [1]);
    var r1 := Go(cfg, es, State(db, {1}, Idle(true), true, full), parts, recovered, Snapshot([1]));
    var r2 := Go(cfg, r1, State(db, {1}, Pass([1], 0), true, full), parts, recovered, Charge(now, n));
    run := Go(cfg, r2, State(db, {1}, Charged([1], 0, n), true, bucket), parts, recovered, MarkSending(1, script, n));
    assert db[1 := db[1].(status := Sending)] == Stored(row, Sending);
    ThreeMore(es, Snapshot([1]), Charge(now, n), MarkSending(1, script, n));
  }

  lemma SendFirstPart(cfg: Config, es: seq<Event>, row: Row, now: real, parts: nat, recovered: nat)
    returns (run: seq<Event>, bucket: T.Level)
    requires cfg.perMinute >= 1 && row.direction == Outbound && 1 <= row.segments <= Segments.MAX_SEGMENTS
    requires At(cfg, es, State(Stored(row, Queued), {1}, Idle(true), true, T.Full(cfg.perMinute, now)), parts,
                recovered)
    ensures At(cfg, run, Flying(row, bucket), parts + 1, recovered)
  {
    hide At, FlightEnd;
    FirstPartGoesOut(row.segments);
    var r1;
    r1, bucket := Mark(cfg, es, row, now, SCRIPT, parts, recovered);
    var landing := State(Stored(row, Sending), {1}, Flight([1], 0, SCRIPT, row.segments, 0), true, bucket);
    run := Go(cfg, r1, landing, parts, recovered, Accept(1, 0));
  }

  /** Crashing at that point `crashes` times. */
  lemma {:induction false} CrashAgain(cfg: Config, msisdn: string, body: string, crashes: nat)
    returns (run: seq<Event>, bucket: T.Level)
    requires cfg.perMinute >= 1 && body != "" && !Segments.BodyTooLong(body)
    ensures At(cfg, run, Flying(NewOutbound(msisdn, body, Segments.CountSegments(body), 0), bucket),
               crashes + 1, crashes)
  {
    hide Segments.CountSegments, Segments.BodyTooLong;
    Segments.AcceptedCost(body);
    var row := NewOutbound(msisdn, body, Segments.CountSegments(body), 0);
    if crashes == 0 {
      var empty := Init(cfg);
      var r0 := Go(cfg, [], empty, 0, 0, Enqueue(1, msisdn, body, 0));
      assert Next(cfg, empty, Enqueue(1, msisdn, body, 0))
        == State(Stored(row, Queued), {1}, Down, false, empty.bucket);
      var r1 := Boot(cfg, r0, row, Queued, empty.bucket, 0.0, 0, 0);
      run, bucket := SendFirstPart(cfg, r1, row, 0.0, 0, 0);
    } else {
      var r0, b0 := CrashAgain(cfg, msisdn, body, crashes - 1);
      var r1 := Go(cfg, r0, Flying(row, b0), crashes, crashes - 1, Crash);
      var r2 := Boot(cfg, r1, row, Sending, b0, 0.0, crashes, crashes - 1);
      run, bucket := SendFirstPart(cfg, r2, row, 0.0, crashes, crashes);
    }
  }

  /** The bound of `BoundedDuplication` is exact: for every accepted body, of one segment or more, and
      every number of recoveries there is a run in which the first part goes out once more often than
      the message was recovered. */
  lemma CrashResendsParts(cfg: Config, msisdn: string, body: string, crashes: nat)
    requires cfg.perMinute >= 1 && body != "" && !Segments.BodyTooLong(body)
    ensures exists es :: IsRun(cfg, es) && PartCount(es, 1, 0) == crashes + 1 && Recoveries(es, 1) == crashes
  {
    var run, bucket := CrashAgain(cfg, msisdn, body, crashes);
    assert IsRun(cfg, run) && PartCount(run, 1, 0) == crashes + 1 && Recoveries(run, 1) == crashes;
  }

  lemma OneLetter()
    ensures !Segments.BodyTooLong("a")
  {
  }

  /** How often a part can go out, exactly: b copies are enough for every run with at most k recoveries of the
      message if and only if b is more than k. */
  lemma DuplicationExactly(cfg: Config, b: nat, k: nat)
    requires cfg.perMinute >= 1
    ensures (forall es, id, part | IsRun(cfg, es) && Recoveries(es, id) <= k :: PartCount(es, id, part) <= b)
            <==> b >= k + 1
  {
    forall es, id, part | IsRun(cfg, es) && Recoveries(es, id) <= k ensures PartCount(es, id, part) <= k + 1 {
      BoundedDuplication(cfg, es, id, part);
    }
    OneLetter();
    CrashResendsParts(cfg, "", "a", k);
    var es :| IsRun(cfg, es) && PartCount(es, 1, 0) == k + 1 && Recoveries(es, 1) == k;
  }

  // ---- failed without having been sent ----

  ghost predicate Silent(es: seq<Event>) { forall i | 0 <= i < |es| :: !es[i].Return? && !es[i].Accept? }

  lemma AtTheStart(cfg: Config)
    ensures At(cfg, [], Init(cfg), 0, 0)
  {
  }

  /** Reloading the row fails, and that is committed as the outcome. */
  lemma FailToReload(cfg: Config, es: seq<Event>, row: Row, bucket: T.Level) returns (run: seq<Event>)
    requires At(cfg, es, State(Stored(row, Sending), {1}, Flight([1], 0, [], row.segments, 0), true, bucket), 0, 0)
    ensures run == es + [RefreshFails, Settle(0, "InvalidRequestError")]
    ensures IsRun(cfg, run)
    ensures var db := StateAfter(cfg, run).db; 1 in db && db[1].status == Messages.Failed
  {
    var landed := Landed([1], 0, row.segments, S.Failed(S.Unclassified));
    var r1 := Go(cfg, es, State(Stored(row, Sending), {1}, Flight([1], 0, [], row.segments, 0), true, bucket), 0, 0,
                 RefreshFails);
    run := Go(cfg, r1, State(Stored(row, Sending), {1}, landed, true, bucket), 0, 0, Settle(0, "InvalidRequestError"));
    assert run == es + [RefreshFails, Settle(0, "InvalidRequestError")];
  }

  /** For every accepted body there is a run in which the message ends `failed` and the driver was never
      called: its row could not be reloaded. */
  lemma FailsUnsent(cfg: Config, msisdn: string, body: string)
    requires cfg.perMinute >= 1 && body != "" && !Segments.BodyTooLong(body)
    ensures exists es :: IsRun(cfg, es) && Silent(es)
              && var db := StateAfter(cfg, es).db; 1 in db && db[1].status == Messages.Failed
  {
    hide Segments.CountSegments, Segments.BodyTooLong, At, FlightEnd;
    Segments.AcceptedCost(body);
    var row, empty := NewOutbound(msisdn, body, Segments.CountSegments(body), 0), Init(cfg);
    AtTheStart(cfg);
    var r0 := Go(cfg, [], empty, 0, 0, Enqueue(1, msisdn, body, 0));
    assert Next(cfg, empty, Enqueue(1, msisdn, body, 0)) == State(Stored(row, Queued), {1}, Down, false, empty.bucket);
    var r1 := Boot(cfg, r0, row, Queued, empty.bucket, 0.0, 0, 0);
    var r2, bucket := Mark(cfg, r1, row, 0.0, [], 0, 0);
    var run := FailToReload(cfg, r2, row, bucket);
    assert Silent(run);
  }
}
