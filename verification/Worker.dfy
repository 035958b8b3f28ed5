/** The worker loop of gateway/worker/main.py over a live database, driver and token bucket. Every
    committed change is recorded as an event, and every method keeps the record a run of the
    store-and-forward machine that ends in the current state, so the theorems about runs hold of
    the code: of its result and, because the record only grows, of every committed state on the way.

    `*` is the environment's choice: whether a statement or a commit fails, what the API does in
    between, what the clock reads. */
module WorkerLoop {
  import opened Common
  import opened Messages
  import opened Pipeline
  import opened PipelineInvariant
  import opened InboundRuns
  import Api
  import Inbox
  import Segments
  import S = Sending
  import T = Throttle
  import Modem
  import W = Webhooks

  class Engine {
    const cfg: Config
    /** the committed messages table */
    var db: Table
    /** the committed webhook_deliveries table */
    var deliveries: map<W.Id, W.Delivery>
    var webhookUrl: string
    var webhookSecret: string
    /** ids given out so far */
    var used: set<Id>
    ghost var events: seq<Event>
    ghost var state: State
    /** the events by which the worker committed texts */
    ghost var received: seq<nat>

    constructor (cfg: Config)
      requires cfg.perMinute >= 1
      ensures Valid() && this.cfg == cfg && db == map[] && state.worker == Down && events == []
      ensures deliveries == map[] && webhookUrl == "" && webhookSecret == ""
    {
      this.cfg := cfg;
      db, deliveries, used, webhookUrl, webhookSecret := map[], map[], {}, "", "";
      events, state, received := [], Init(cfg), [];
    }

    ghost predicate Valid()
      reads this
    {
      && cfg.perMinute >= 1
      && IsRun(cfg, events) && state == StateAfter(cfg, events)
      && Inv(cfg, state)
      && state.db == db && state.used == used
      && View().Known()
      && received == Receives(events)
    }

    /** What both processes commit to. */
    function View(): Api.Shared
      reads this
    {
      Api.Shared(db, used, deliveries, webhookUrl, webhookSecret)
    }

    /** Records an event; the caller makes the real change. */
    ghost method Emit(e: Event)
      requires cfg.perMinute >= 1 && IsRun(cfg, events) && state == StateAfter(cfg, events) && Inv(cfg, state)
      requires Enabled(state, e) && !e.Receive?
      modifies this`events, this`state
      ensures events == old(events) + [e] && IsRun(cfg, events) && Receives(events) == Receives(old(events))
      ensures state == Next(cfg, old(state), e) == StateAfter(cfg, events) && Inv(cfg, state)
    {
      RunSnoc(cfg, events, e);
      StepKeepsInv(cfg, state, e);
      ReceivesStep(events, e);
      events := events + [e];
      state := Next(cfg, state, e);
    }

    /** The same for a text transaction, which is also noted on its own. */
    ghost method EmitReceive(e: Event)
      requires cfg.perMinute >= 1 && IsRun(cfg, events) && state == StateAfter(cfg, events) && Inv(cfg, state)
      requires Enabled(state, e) && e.Receive? && received == Receives(events)
      modifies this`events, this`state, this`received
      ensures events == old(events) + [e] && IsRun(cfg, events)
      ensures state == Next(cfg, old(state), e) == StateAfter(cfg, events) && Inv(cfg, state)
      ensures received == old(received) + [|old(events)|] == Receives(events)
    {
      RunSnoc(cfg, events, e);
      StepKeepsInv(cfg, state, e);
      ReceivesStep(events, e);
      received := received + [|events|];
      events := events + [e];
      state := Next(cfg, state, e);
    }

    /** purge_messages: old messages go, and the deliveries of those messages with them. */
    method Purge(cutoff: int)
      requires Valid()
      modifies this`db, this`deliveries, this`events, this`state
      ensures Valid() && events == old(events) + [Event.Purge(cutoff)]
      ensures View() == Api.Do(old(View()), Api.Purge(cutoff)) && state == old(state).(db := db)
      ensures forall id :: id in db <==> id in old(db) && old(db)[id].createdAt >= cutoff
      ensures forall id | id in db :: db[id] == old(db)[id]
      ensures forall d :: d in deliveries <==>
                d in old(deliveries) && (var m := old(deliveries)[d].messageId; m in old(db) ==> m in db)
      ensures forall d | d in deliveries :: deliveries[d] == old(deliveries)[d]
    {
      hide Receives, IsRun, StateAfter;
      Emit(Event.Purge(cutoff));
      deliveries := Api.Spared(deliveries, db, cutoff);
      db := PurgeBefore(db, cutoff);
    }

    /** post_message, chat_send and send_test_sms: a body that is empty or too long is refused, any other
        becomes a queued row under a new id. */
    method Enqueue(id: Id, msisdn: string, body: string, createdAt: int) returns (ok: bool)
      requires Valid() && id !in used
      modifies this`db, this`used, this`events, this`state
      ensures Valid() && ok == (body != "" && !Segments.BodyTooLong(body))
      ensures events == old(events) + if ok then [Event.Enqueue(id, msisdn, body, createdAt)] else []
      ensures View() == Api.Do(old(View()), Api.Accept(id, msisdn, body, createdAt))
      ensures ok ==>
                db == old(db)[id := Row(Outbound, msisdn, body, Queued, Segments.CountSegments(body), None, None,
                                        createdAt, None, None)]
      ensures state == old(state).(db := db, used := used)
    {
      hide Receives, IsRun, StateAfter, StuckOk, QueueOk, FlightOk, Segments.CountSegments, Segments.BodyTooLong;
      ok := body != "" && !Segments.BodyTooLong(body);
      if ok {
        Emit(Event.Enqueue(id, msisdn, body, createdAt));
        db := db[id := NewOutbound(msisdn, body, Segments.CountSegments(body), createdAt)];
        used := used + {id};
      }
    }

    /** What the API process commits while the worker is busy: accepted messages, purges, changes of the
        webhook settings, and whatever the dispatcher and manual retries do to deliveries. */
    method Interfere(api: seq<Api.Step>)
      requires Valid()
      modifies this
      ensures Valid() && old(events) <= events
      ensures View() == Api.All(old(View()), api) && old(used) <= used && received == old(received)
      ensures state == old(state).(db := db, used := used)
    {
      hide Receives, IsRun, StateAfter, Inv, PurgeBefore, NewOutbound, Segments.CountSegments, Segments.BodyTooLong;
      Api.AllKnown(View(), api);
      var i := 0;
      while i < |api|
        invariant i <= |api| && Valid() && old(events) <= events && received == old(received)
        invariant Api.All(View(), api[i..]) == Api.All(old(View()), api)
        invariant state == old(state).(db := db, used := used)
      {
        assert api[i..][1..] == api[i + 1..];
        match api[i] {
          case Accept(id, msisdn, body, createdAt) =>
            if id !in used {
              var ok := Enqueue(id, msisdn, body, createdAt);
            }
          case Purge(cutoff) =>
            Purge(cutoff);
          case Configure(url, secret) =>
            webhookUrl, webhookSecret := url, secret;
          case Rewrite(d, row) =>
            if d in deliveries && row.messageId == deliveries[d].messageId {
              deliveries := deliveries[d := row];
            }
        }
        i := i + 1;
      }
    }

    // ---- the statements of the worker's sessions, each with the event it commits ----

    method CommitRecovery(ids: set<Id>, session: Table, booting: bool, now: real)
      requires Valid() && state.worker == (if booting then Booting else Opened)
      requires ids == Stuck(db) && session == Requeue(db, ids)
      modifies this`db, this`events, this`state
      ensures Valid() && old(events) <= events && db == session && Stuck(db) == {}
      ensures state == if booting
                       then old(state).(db := db, worker := Idle(false), bucket := T.Full(cfg.perMinute, now))
                       else old(state).(db := db, worker := Idle(true))
    {
      hide Receives, IsRun, StateAfter;
      Emit(if booting then BootRecover(ids, now) else Recover(ids));
      db := session;
    }

    method LoadOutbox() returns (queued: seq<Id>)
      requires Valid() && state.worker == Idle(true)
      modifies this`events, this`state
      ensures Valid() && events == old(events) + [Snapshot(queued)] && IsOutbox(db, queued)
      ensures state == old(state).(worker := Pass(queued, 0))
    {
      hide Receives, IsRun, StateAfter;
      queued := QueryOutbox(db);
      Emit(Snapshot(queued));
    }

    ghost method RecordTake(now: real, cost: nat)
      requires Valid() && CanTake(state, now, cost)
      modifies this`events, this`state
      ensures Valid()
      ensures events == old(events)
              + [if old(state).bucket.TryTake(now, cost).1 then Charge(now, cost) else Deny(now, cost)]
      ensures var w := old(state).worker;
              var (bucket, ok) := old(state).bucket.TryTake(now, cost);
              state == old(state).(bucket := bucket, worker := if ok then Charged(w.queue, w.at, cost) else Receiving)
    {
      hide Receives, IsRun, StateAfter;
      if state.bucket.TryTake(now, cost).1 {
        Emit(Charge(now, cost));
      } else {
        Emit(Deny(now, cost));
      }
    }

    method CommitSending(id: Id, ghost script: S.Script, n: nat)
      requires Valid() && state.worker.Charged? && id in db && id == state.worker.queue[state.worker.at]
      requires S.Courteous(script)
      modifies this`db, this`events, this`state
      ensures Valid() && old(events) <= events
      ensures db == old(db)[id := old(db)[id].(status := Sending)]
      ensures var w := old(state).worker;
              state == old(state).(db := db, worker := Flight(w.queue, w.at, script, n, 0))
    {
      hide Receives, IsRun, StateAfter;
      Emit(MarkSending(id, script, n));
      db := db[id := db[id].(status := Sending)];
    }

    ghost method RecordRefreshFailure()
      requires Valid() && state.worker.Flight? && state.worker.done == 0
      modifies this`events, this`state
      ensures Valid() && old(events) <= events
      ensures var w := old(state).worker;
              state == old(state).(worker := Landed(w.queue, w.at, w.n, S.Failed(S.Unclassified)))
    {
      Emit(RefreshFails);
    }

    ghost method RecordFlight()
      requires Valid() && state.worker.Flight?
      modifies this`events, this`state
      ensures Valid() && old(events) <= events
      ensures var w := old(state).worker;
              var (k, o) := FlightEnd(w.script, w.n, old(state).link);
              state == old(state).(worker := Landed(w.queue, w.at, w.n, o), link := k.up)
    {
      hide Receives, IsRun, StateAfter;
      var w := state.worker;
      var log := FlightEnd(w.script, w.n, state.link).0.log;
      while state.worker.done < |log|
        invariant Valid() && old(events) <= events
        invariant state.worker.Flight? && state.worker.done <= |log|
        invariant state == old(state).(worker := w.(done := state.worker.done))
        decreases |log| - state.worker.done
      {
        Emit(Accept(w.queue[w.at], log[state.worker.done].part));
      }
      Emit(Return);
    }

    /** `sent`, `failed` or back to `queued`, as the call ended. */
    method CommitOutcome(id: Id, outcome: S.Outcome, time: int, text: string)
      requires Valid() && state.worker.Landed? && state.worker.outcome == outcome && text != ""
      requires id in db && state.worker.at < |state.worker.queue| && id == state.worker.queue[state.worker.at]
      modifies this`db, this`events, this`state
      ensures Valid() && old(events) <= events
      ensures db == old(db)[id := SettleRow(old(db)[id], outcome, time, text)]
      ensures var w := old(state).worker;
              state == old(state).(db := db, worker := if outcome == S.Failed(S.ConnectionError) then Idle(false)
                                                       else Pass(w.queue, w.at + 1))
    {
      hide Receives, IsRun, StateAfter, Inv;
      Emit(Settle(time, text));
      match outcome {
        case Done(segments, reference) =>
          db := db[id := db[id].(status := Sent, sentAt := Some(time), segments := segments, modemRef := reference)];
        case Failed(error) =>
          if error == S.ConnectionError {
            db := db[id := db[id].(status := Queued)];
          } else {
            db := db[id := db[id].(status := Messages.Failed, error := Some(text))];
          }
      }
    }

    /** One transaction: every text becomes a `received` row and, when a webhook is configured, gets
        one delivery that is due at once. */
    method CommitTexts(ids: seq<Id>, texts: seq<Inbox.Event>, session: Table, rows: map<W.Id, W.Delivery>,
                       createdAt: int)
      requires Valid() && state.worker.Receiving? && FreshTexts(state, ids, texts)
      requires session == InsertTexts(db, ids, texts, createdAt)
      requires forall d | d in rows :: rows[d].messageId in used + IdSet(ids)
      modifies this`db, this`deliveries, this`used, this`events, this`state, this`received
      ensures Valid() && events == old(events) + [Receive(ids, texts, createdAt)]
      ensures received == old(received) + [|old(events)|]
      ensures View() == old(View()).(db := session, deliveries := rows, used := old(used) + IdSet(ids))
      ensures state == old(state).(db := db, used := used)
    {
      hide Receives, IsRun, StateAfter, InsertTexts, FreshTexts, StuckOk, QueueOk, FlightOk;
      EmitReceive(Receive(ids, texts, createdAt));
      db := session;
      deliveries := rows;
      used := used + IdSet(ids);
    }

    method CommitReports(reports: seq<Inbox.Event>, picks: seq<Option<Id>>, session: Table)
      requires Valid() && state.worker.Receiving?
      requires AllReports(reports) && ValidPicks(db, reports, picks) && session == ApplyReports(db, reports, picks)
      modifies this`db, this`events, this`state
      ensures Valid() && old(events) <= events && db == session && state == old(state).(db := db)
    {
      hide Receives, IsRun, StateAfter;
      Emit(Deliver(reports, picks));
      db := session;
    }

    /** Steps of the loop and of the process itself that change no row. */
    ghost method RecordStep(e: Event)
      requires Valid() && Enabled(state, e)
      requires e.Start? || e.Crash? || e.Connect? || e.Fault? || e.Poll?
      modifies this`events, this`state
      ensures Valid() && old(events) <= events && state == Next(cfg, old(state), e)
    {
      Emit(e);
    }

    ghost method RecordEndOfPass()
      requires Valid() && state.worker.Pass? && state.worker.at == |state.worker.queue|
      modifies this`events, this`state
      ensures Valid() && old(events) <= events && state == old(state).(worker := Receiving) && Stuck(db) == {}
    {
      hide Receives, IsRun, StateAfter;
      Emit(EndPass);
    }
  }

  /** The machine's view of driver and bucket, exact while no exception is under way. */
  ghost predicate InStep(engine: Engine, driver: Modem.GammuDriver, bucket: T.TokenBucket)
    reads engine, driver, bucket
  {
    && engine.Valid() && driver.Valid() && S.Courteous(driver.script)
    && engine.state.link == driver.connected
    && engine.state.bucket == bucket.State()
  }

  /** After an exception the driver may have dropped the StateMachine without the machine's knowing
      yet; the handler in `Run` records it. */
  ghost predicate Raising(engine: Engine, driver: Modem.GammuDriver, bucket: T.TokenBucket)
    reads engine, driver, bucket
  {
    && engine.Valid() && driver.Valid() && S.Courteous(driver.script)
    && (driver.connected ==> engine.state.link)
    && engine.state.bucket == bucket.State()
    && engine.state.worker != Down && engine.state.worker != Booting
  }

  // ---- recover_interrupted_sends ----

  method RequeueAll(db: Table, stuck: set<Id>) returns (session: Table)
    requires stuck <= db.Keys
    ensures session == Requeue(db, stuck)
  {
    session := db;
    var rest := stuck;
    while rest != {}
      invariant rest <= stuck
      invariant session == Requeue(db, stuck - rest)
    {
      var id :| id in rest;
      rest := rest - {id};
      session := session[id := session[id].(status := Queued)];
    }
    assert stuck - rest == stuck;
  }

  lemma AtMostOne(ids: set<Id>)
    requires forall a, b | a in ids && b in ids :: a == b
    ensures |ids| <= 1
  {
    if ids != {} {
      var x :| x in ids;
      assert ids == {x};
    }
  }

  method RecoverInterruptedSends(engine: Engine, booting: bool, now: real, commits: bool)
    returns (ok: bool, requeued: nat)
    requires engine.Valid() && engine.state.worker == if booting then Booting else Opened
    modifies engine`db, engine`events, engine`state
    ensures engine.Valid() && old(engine.events) <= engine.events
    ensures ok == commits
    ensures !ok ==> engine.state == old(engine.state)
    ensures ok ==> engine.db == Requeue(old(engine.db), Stuck(old(engine.db))) && Stuck(engine.db) == {}
    ensures ok ==> requeued == |Stuck(old(engine.db))| <= 1
    ensures ok ==>
              && engine.db.Keys == old(engine.db).Keys
              && forall id | id in engine.db ::
                   var row := old(engine.db)[id];
                   engine.db[id]
                   == if row.direction == Outbound && row.status == Sending then row.(status := Queued) else row
    ensures ok ==> engine.state == if booting
              then old(engine.state).(db := engine.db, worker := Idle(false),
                                      bucket := T.Full(engine.cfg.perMinute, now))
              else old(engine.state).(db := engine.db, worker := Idle(true))
  {
    var stuck := Stuck(engine.db);
    AtMostOne(stuck);
    var session := RequeueAll(engine.db, stuck);
    ok, requeued := commits, |stuck|;
    if ok {
      engine.CommitRecovery(stuck, session, booting, now);
    }
  }

  // ---- process_outbox ----

  /** The driver call of one message: the machine's flight is exactly what the driver does. */
  method SendOne(engine: Engine, driver: Modem.GammuDriver, n: nat) returns (o: S.Outcome)
    requires engine.Valid() && engine.state.worker.Flight? && engine.state.worker.done == 0
    requires engine.state.worker.n == n && engine.state.worker.script == S.Rest(driver.script, driver.used)
    requires engine.state.link == driver.connected && S.Courteous(driver.script) && driver.Valid()
    modifies engine`events, engine`state, driver`connected, driver`used, driver`log, driver`pending, driver`captured
    ensures engine.Valid() && driver.Valid() && old(engine.events) <= engine.events
    ensures var w := old(engine.state).worker;
            engine.state == old(engine.state).(worker := Landed(w.queue, w.at, n, o), link := driver.connected)
    ensures old(driver.log) <= driver.log && S.Explains(driver.log[|old(driver.log)|..], n, o)
    ensures o == S.Failed(S.ConnectionError) ==> !driver.connected
    ensures old(driver.captured) <= driver.captured
  {
    ghost var start := driver.State();
    S.LiftRetries(driver.script, start.used, start.log, S.Link(start.up, 0, []), n, MAX_SEND_ATTEMPTS);
    assert start.log + [] == start.log;
    S.SendExplained(driver.script, start, n, MAX_SEND_ATTEMPTS);
    S.ConnectionErrorDropsLink(driver.script, start, n, MAX_SEND_ATTEMPTS);
    o := Modem.SendWithRetries(driver, n, MAX_SEND_ATTEMPTS);
    engine.RecordFlight();
  }

  /** What the database lets the worker do for one message: read its segment count, commit `sending`,
      reload the row, commit the outcome. */
  datatype Luck = Luck(countReadable: bool, marks: bool, readable: bool, settles: bool)

  const FINE := Luck(true, true, true, true)

  /** Nothing fails at the messages the list does not mention. */
  function LuckAt(luck: seq<Luck>, at: nat): Luck { if at < |luck| then luck[at] else FINE }

  /** The messages of a queue before position `at` have been sent or have failed, unless purged. */
  ghost predicate SettledUpTo(db: Table, queue: seq<Id>, at: nat) {
    at <= |queue| && forall i | 0 <= i < at && queue[i] in db :: Settled(db[queue[i]])
  }

  /** Those from position `at` on still wait. */
  ghost predicate WaitingFrom(db: Table, queue: seq<Id>, at: nat) {
    forall i | at <= i < |queue| && queue[i] in db :: IsQueued(db[queue[i]])
  }

  lemma PassSoFar(engine: Engine, queue: seq<Id>, at: nat)
    requires engine.Valid() && InPass(engine.state.worker)
    requires engine.state.worker.queue == queue && engine.state.worker.at == at
    ensures SettledUpTo(engine.db, queue, at)
    ensures engine.state.worker.Pass? ==> WaitingFrom(engine.db, queue, at)
  {
    var w := engine.state.worker;
    forall i | 0 <= i < |queue| && queue[i] in engine.db ensures RowAt(w, i, engine.db[queue[i]]) {
    }
  }

  /** The queue has been loaded since. */
  ghost predicate Loaded(start: seq<Event>, events: seq<Event>, queue: seq<Id>) {
    exists k :: |start| <= k < |events| && events[k] == Snapshot(queue)
  }

  lemma JustLoaded(start: seq<Event>, before: seq<Event>, queue: seq<Id>)
    requires start <= before
    ensures Loaded(start, before + [Snapshot(queue)], queue)
  {
    assert (before + [Snapshot(queue)])[|before|] == Snapshot(queue);
  }

  lemma StillLoaded(start: seq<Event>, events: seq<Event>, events': seq<Event>, queue: seq<Id>)
    requires Loaded(start, events, queue) && events <= events'
    ensures Loaded(start, events', queue)
  {
    var k :| |start| <= k < |events| && events[k] == Snapshot(queue);
    assert events'[k] == Snapshot(queue);
  }

  datatype PassEnd = Exhausted | Throttled | Aborted

  lemma BucketIsReal(engine: Engine)
    requires engine.Valid()
    ensures engine.state.bucket.perMinute >= 1
  {
  }

  lemma RefusedWhenEmpty(b: T.Level, now: real, cost: nat)
    requires b.last <= now
    ensures !b.TryTake(now, cost).1 ==> b.tokens < 1.0 || b.perMinute == 0
  {
    T.InflowGrows(b.perMinute, 0.0, now - b.last);
  }

  method AskBucket(engine: Engine, bucket: T.TokenBucket, cost: nat) returns (ok: bool)
    requires engine.Valid() && engine.state.bucket == bucket.State()
    requires CanTake(engine.state, bucket.lastRefill, cost) && bucket.perMinute >= 1
    modifies engine`events, engine`state, bucket
    ensures engine.Valid() && old(engine.events) <= engine.events && engine.state.bucket == bucket.State()
    ensures var w := old(engine.state).worker;
            engine.state == old(engine.state).(bucket := engine.state.bucket,
              worker := if ok then Charged(w.queue, w.at, cost) else Receiving)
    ensures !ok ==> engine.events != [] && engine.events[|engine.events| - 1].Deny? && old(bucket.tokens) < 1.0
  {
    hide Receives, IsRun, StateAfter, Inv;
    var now: real := *;
    if now < bucket.lastRefill {
      now := bucket.lastRefill;
    }
    RefusedWhenEmpty(bucket.State(), now, cost);
    engine.RecordTake(now, cost);
    ok := bucket.TryTake(now, cost);
  }

  /** `message.segments or 1`: after a commit the attribute is reloaded, which raises when the row is
      gone; before the first commit of the pass it is the value loaded with the queue. */
  method ReadCost(engine: Engine, queued: seq<Id>, at: nat, readable: bool) returns (cost: Option<nat>)
    requires engine.Valid() && engine.state.worker == Pass(queued, at) && at < |queued|
    ensures cost.Some? ==> 1 <= cost.value <= Segments.MAX_SEGMENTS
    ensures cost.Some? && queued[at] in engine.db ==> cost.value == Cost(engine.db[queued[at]])
    ensures cost == None ==> !readable || queued[at] !in engine.db
    ensures cost.Some? ==> readable
  {
    if !readable {
      return None;
    }
    if queued[at] in engine.db {
      assert RowAt(engine.state.worker, at, engine.state.db[queued[at]]);
      return Some(Cost(engine.db[queued[at]]));
    }
    var loaded: nat := *;
    return if 1 <= loaded <= Segments.MAX_SEGMENTS then Some(loaded) else None;
  }

  /** Reads the row's segment count and asks the bucket; None when reading raises. */
  method TakeTokens(engine: Engine, driver: Modem.GammuDriver, bucket: T.TokenBucket, queued: seq<Id>, at: nat,
                    luck: Luck)
    returns (granted: Option<bool>)
    requires InStep(engine, driver, bucket) && engine.state.worker == Pass(queued, at) && at < |queued|
    modifies engine, bucket
    ensures engine.received == old(engine.received)
    ensures old(engine.events) <= engine.events && SettledUpTo(engine.db, queued, at)
    ensures InStep(engine, driver, bucket)
    ensures granted == None ==>
              engine.state.worker == Pass(queued, at) && (!luck.countReadable || queued[at] !in engine.db)
    ensures granted != None ==> luck.countReadable
    ensures granted == Some(false) ==>
              && engine.state.worker == Receiving && WaitingFrom(engine.db, queued, at)
              && engine.events != [] && engine.events[|engine.events| - 1].Deny?
              && old(engine.state.bucket.tokens) < 1.0
    ensures granted == Some(true) ==>
              && engine.state.worker.Charged? && engine.state.worker.queue == queued && engine.state.worker.at == at
              && (queued[at] in engine.db ==>
                    engine.state.worker.cost
                    == if engine.db[queued[at]].segments == 0 then 1 else engine.db[queued[at]].segments)
  {
    hide Receives, IsRun, StateAfter, Inv, SettledUpTo, WaitingFrom;
    var api: seq<Api.Step> := *;
    engine.Interfere(api);
    PassSoFar(engine, queued, at);
    var cost := ReadCost(engine, queued, at, luck.countReadable);
    if cost == None {
      return None;
    }
    BucketIsReal(engine);
    var ok := AskBucket(engine, bucket, cost.value);
    return Some(ok);
  }

  /** Commits `sending`; None when that fails. The body will be encoded into n parts. */
  method MarkForSending(engine: Engine, driver: Modem.GammuDriver, bucket: T.TokenBucket, queued: seq<Id>, at: nat,
                        commits: bool)
    returns (n: Option<nat>)
    requires InStep(engine, driver, bucket) && at < |queued|
    requires engine.state.worker.Charged? && engine.state.worker.queue == queued && engine.state.worker.at == at
    modifies engine
    ensures engine.received == old(engine.received)
    ensures InStep(engine, driver, bucket) && old(engine.events) <= engine.events
    ensures n == None ==>
              && engine.state.worker.Charged? && engine.state.worker.queue == queued && engine.state.worker.at == at
              && (!commits || queued[at] !in engine.db)
    ensures n != None ==> commits
    ensures n != None ==>
              engine.state.worker == Flight(queued, at, S.Rest(driver.script, driver.used), n.value, 0)
  {
    hide Receives, IsRun, StateAfter;
    var api: seq<Api.Step> := *;
    engine.Interfere(api);
    if !commits || queued[at] !in engine.db {
      return None;
    }
    var parts: nat := *;
    engine.CommitSending(queued[at], S.Rest(driver.script, driver.used), parts);
    return Some(parts);
  }

  /** Commits the outcome, with the time or the text of the exception; a lost connection goes on up. */
  method FinishSend(engine: Engine, driver: Modem.GammuDriver, bucket: T.TokenBucket, queued: seq<Id>, at: nat,
                    outcome: S.Outcome, commits: bool)
    returns (raised: bool)
    requires InStep(engine, driver, bucket) && at < |queued|
    requires engine.state.worker.Landed? && engine.state.worker.queue == queued && engine.state.worker.at == at
    requires engine.state.worker.outcome == outcome
    modifies engine
    ensures engine.received == old(engine.received)
    ensures old(engine.events) <= engine.events
    ensures raised ==>
              && Raising(engine, driver, bucket) && SettledUpTo(engine.db, queued, at)
              && (!commits || queued[at] !in engine.db || outcome == S.Failed(S.ConnectionError))
    ensures !raised ==> InStep(engine, driver, bucket) && engine.state.worker == Pass(queued, at + 1)
    ensures !raised ==> commits && outcome != S.Failed(S.ConnectionError)
  {
    hide IsRun, StateAfter;
    var api: seq<Api.Step> := *;
    engine.Interfere(api);
    PassSoFar(engine, queued, at);
    if !commits || queued[at] !in engine.db {
      return true;
    }
    var time: int, text: string := *, *;
    if text == "" {
      text := "Exception";
    }
    engine.CommitOutcome(queued[at], outcome, time, text);
    return outcome == S.Failed(S.ConnectionError);
  }

  /** Reloads the row, if the database lets it, and hands it to the driver. A row that cannot be read fails
      unsent; otherwise the outcome tells exactly which parts went out. */
  method SendMarked(engine: Engine, driver: Modem.GammuDriver, bucket: T.TokenBucket, id: Id, n: nat, readable: bool)
    returns (o: S.Outcome)
    requires InStep(engine, driver, bucket)
    requires engine.state.worker.Flight? && engine.state.worker.done == 0 && engine.state.worker.n == n
    requires engine.state.worker.script == S.Rest(driver.script, driver.used)
    modifies engine, driver`connected, driver`used, driver`log, driver`pending, driver`captured
    ensures engine.received == old(engine.received)
    ensures InStep(engine, driver, bucket) && old(engine.events) <= engine.events
    ensures var w := old(engine.state).worker; engine.state.worker == Landed(w.queue, w.at, n, o)
    ensures !(readable && id in engine.db) ==> o == S.Failed(S.Unclassified) && driver.log == old(driver.log)
    ensures readable && id in engine.db ==>
              old(driver.log) <= driver.log && S.Explains(driver.log[|old(driver.log)|..], n, o)
    ensures o == S.Failed(S.ConnectionError) ==> !driver.connected
    ensures old(driver.captured) <= driver.captured
  {
    hide Receives, IsRun, StateAfter;
    var api: seq<Api.Step> := *;
    engine.Interfere(api);
    if !(readable && id in engine.db) {
      engine.RecordRefreshFailure();
      return S.Failed(S.Unclassified);
    }
    o := SendOne(engine, driver, n);
  }

  /** From the commit of `sending` to the commit of the outcome. */
  method SendQueued(engine: Engine, driver: Modem.GammuDriver, bucket: T.TokenBucket, queued: seq<Id>, at: nat,
                    luck: Luck)
    returns (raised: bool)
    requires InStep(engine, driver, bucket) && at < |queued|
    requires engine.state.worker.Charged? && engine.state.worker.queue == queued && engine.state.worker.at == at
    modifies engine, driver`connected, driver`used, driver`log, driver`pending, driver`captured
    ensures engine.received == old(engine.received)
    ensures old(engine.events) <= engine.events && old(driver.captured) <= driver.captured
    ensures raised ==>
              && Raising(engine, driver, bucket) && SettledUpTo(engine.db, queued, at)
              && (luck != FINE || queued[at] !in engine.db || !driver.connected)
    ensures !raised ==> InStep(engine, driver, bucket) && engine.state.worker == Pass(queued, at + 1)
    ensures !raised ==> luck.marks && luck.settles
  {
    hide Receives, IsRun, StateAfter, Inv, SettledUpTo;
    var n := MarkForSending(engine, driver, bucket, queued, at, luck.marks);
    if n == None {
      PassSoFar(engine, queued, at);
      return true;
    }
    var outcome := SendMarked(engine, driver, bucket, queued[at], n.value, luck.readable);
    raised := FinishSend(engine, driver, bucket, queued, at, outcome, luck.settles);
  }

  /** At none of the first `n` messages does a statement fail whose failure ends the pass. */
  predicate NoneFailed(luck: seq<Luck>, n: nat) {
    forall k | 0 <= k < n && k < |luck| :: luck[k].countReadable && luck[k].marks && luck[k].settles
  }

  lemma NoneYet(luck: seq<Luck>)
    ensures NoneFailed(luck, 0)
  {
  }

  lemma OneMoreFine(luck: seq<Luck>, n: nat)
    requires NoneFailed(luck, n)
    requires LuckAt(luck, n).countReadable && LuckAt(luck, n).marks && LuckAt(luck, n).settles
    ensures NoneFailed(luck, n + 1)
  {
  }

  lemma NothingDropped(engine: Engine, driver: Modem.GammuDriver, bucket: T.TokenBucket)
    requires InStep(engine, driver, bucket) && engine.state.worker.Pass?
    ensures Raising(engine, driver, bucket)
  {
  }

  /** One pass over the outbox; Aborted means an exception leaves the function. `luck` says what fails.
      Every message before the position reached has been sent or has failed, those after it wait. The pass
      ends there because there are no more, because the bucket refuses, or because something failed at that
      message: the database, the connection, or the message was purged. */
  method ProcessOutbox(engine: Engine, driver: Modem.GammuDriver, bucket: T.TokenBucket, luck: seq<Luck>)
    returns (end: PassEnd, ghost queue: seq<Id>, ghost reached: nat)
    requires InStep(engine, driver, bucket) && engine.state.worker == Idle(true)
    modifies engine, driver`connected, driver`used, driver`log, driver`pending, driver`captured, bucket
    ensures engine.received == old(engine.received)
    ensures old(engine.events) <= engine.events && old(driver.captured) <= driver.captured
    ensures end == Aborted ==> Raising(engine, driver, bucket)
    ensures end != Aborted ==> InStep(engine, driver, bucket) && engine.state.worker == Receiving
    ensures Loaded(old(engine.events), engine.events, queue) && SettledUpTo(engine.db, queue, reached)
    ensures end == Exhausted ==> reached == |queue|
    ensures end == Throttled ==>
              && reached < |queue| && WaitingFrom(engine.db, queue, reached)
              && engine.events != [] && engine.events[|engine.events| - 1].Deny?
    ensures end == Aborted ==>
              && reached < |queue|
              && ((reached < |luck| && luck[reached] != Luck(true, true, true, true))
                  || queue[reached] !in engine.db || !driver.connected)
    ensures end != Aborted && queue != [] && old(engine.state.bucket.tokens) >= 1.0 ==> reached > 0
    ensures NoneFailed(luck, reached)
  {
    hide Receives, IsRun, StateAfter, Inv, IsOutbox, Stuck, SettledUpTo, WaitingFrom, Loaded, Next, Enabled, Api.All,
      Engine.View, Modem.GammuDriver.Valid, S.Courteous, Raising, T.Level.TryTake,
      NoneFailed;
    NoneYet(luck);
    var api: seq<Api.Step> := *;
    engine.Interfere(api);
    ghost var events0 := engine.events;
    var queued := engine.LoadOutbox();
    JustLoaded(old(engine.events), events0, queued);
    var at := 0;
    while at < |queued|
      invariant InStep(engine, driver, bucket) && old(driver.captured) <= driver.captured
      invariant engine.received == old(engine.received)
      invariant old(engine.events) <= engine.events && Loaded(old(engine.events), engine.events, queued)
      invariant at <= |queued| && engine.state.worker == Pass(queued, at)
      invariant at == 0 ==> engine.state.bucket == old(engine.state.bucket)
      invariant NoneFailed(luck, at)
    {
      ghost var events1 := engine.events;
      var granted := TakeTokens(engine, driver, bucket, queued, at, LuckAt(luck, at));
      StillLoaded(old(engine.events), events1, engine.events, queued);
      if granted == None {
        NothingDropped(engine, driver, bucket);
        return Aborted, queued, at;
      }
      if !granted.value {
        return Throttled, queued, at;
      }
      ghost var events2 := engine.events;
      var raised := SendQueued(engine, driver, bucket, queued, at, LuckAt(luck, at));
      StillLoaded(old(engine.events), events2, engine.events, queued);
      if raised {
        return Aborted, queued, at;
      }
      OneMoreFine(luck, at);
      at := at + 1;
    }
    PassSoFar(engine, queued, at);
    ghost var events3 := engine.events;
    engine.RecordEndOfPass();
    StillLoaded(old(engine.events), events3, engine.events, queued);
    return Exhausted, queued, at;
  }

  // ---- process_inbound ----

  method SplitEvents(events: seq<Inbox.Event>) returns (texts: seq<Inbox.Event>, reports: seq<Inbox.Event>)
    ensures texts == TextsOf(events) && reports == ReportsOf(events)
  {
    texts, reports := [], [];
    var i := 0;
    while i < |events|
      invariant i <= |events|
      invariant texts == TextsOf(events[..i]) && reports == ReportsOf(events[..i])
    {
      assert events[..i + 1][..i] == events[..i];
      if events[i].Text? {
        texts := texts + [events[i]];
      } else {
        reports := reports + [events[i]];
      }
      i := i + 1;
    }
    assert events[..i] == events;
  }

  predicate Distinct(ids: seq<nat>) { forall i, j | 0 <= i < j < |ids| :: ids[i] != ids[j] }

  /** One new delivery per row beside those that were there. */
  ghost predicate Delivering(ds0: map<W.Id, W.Delivery>, ds: map<W.Id, W.Delivery>, ids: seq<Id>, dids: seq<W.Id>,
                             now: int)
    requires |dids| <= |ids|
  {
    && ds.Keys == ds0.Keys + IdSet(dids)
    && (forall id | id in ds0 :: ds[id] == ds0[id])
    && (forall i | 0 <= i < |dids| :: dids[i] !in ds0 && ds[dids[i]] == W.NewDelivery(ids[i], now))
  }

  /** What the text transaction stores: one `received` row per text and, exactly when both the URL and
      the secret are set, one pending delivery per row, never attempted and due now. */
  ghost predicate Stored(db0: Table, db: Table, ds0: map<W.Id, W.Delivery>, ds: map<W.Id, W.Delivery>,
                         ids: seq<Id>, dids: seq<W.Id>, texts: seq<Inbox.Event>, configured: bool, now: int)
  {
    && |ids| == |texts| == |dids| && Distinct(ids) && Distinct(dids)
    && db.Keys == db0.Keys + IdSet(ids)
    && (forall id | id in db0 :: db[id] == db0[id])
    && (forall i | 0 <= i < |ids| ::
          ids[i] !in db0 && texts[i].Text?
          && db[ids[i]] == NewInbound(texts[i].msisdn, texts[i].body, texts[i].segments, now))
    && (if configured then Delivering(ds0, ds, ids, dids, now) else ds == ds0)
  }

  lemma OneMoreDelivery(ds0: map<W.Id, W.Delivery>, ds: map<W.Id, W.Delivery>, ids: seq<Id>, dids: seq<W.Id>, i: nat,
                        now: int)
    requires i < |dids| <= |ids| && Distinct(dids) && dids[i] !in ds0
    requires Delivering(ds0, ds, ids, dids[..i], now)
    ensures Delivering(ds0, ds[dids[i] := W.NewDelivery(ids[i], now)], ids, dids[..i + 1], now)
  {
    assert dids[..i + 1] == dids[..i] + [dids[i]];
  }

  lemma InsertOne(db: Table, ids: seq<Id>, texts: seq<Inbox.Event>, i: nat, now: int)
    requires i <= |ids| == |texts| && forall k | 0 <= k < |texts| :: texts[k].Text?
    ensures i == |ids| ==> InsertTexts(db, ids[i..], texts[i..], now) == db
    ensures i < |ids| ==>
              InsertTexts(db, ids[i..], texts[i..], now)
              == InsertTexts(db[ids[i] := NewInbound(texts[i].msisdn, texts[i].body, texts[i].segments, now)],
                             ids[i + 1..], texts[i + 1..], now)
  {
    if i < |ids| {
      assert ids[i..][1..] == ids[i + 1..] && texts[i..][1..] == texts[i + 1..];
    }
  }

  lemma NoDelivery(ds: map<W.Id, W.Delivery>, ids: seq<Id>, now: int)
    ensures Delivering(ds, ds, ids, [], now)
  {
  }

  lemma AllStored(db: Table, ds: map<W.Id, W.Delivery>, rows: map<W.Id, W.Delivery>, ids: seq<Id>, dids: seq<W.Id>,
                  texts: seq<Inbox.Event>, configured: bool, now: int)
    requires |ids| == |texts| == |dids| && Distinct(ids) && Distinct(dids)
    requires forall i | 0 <= i < |texts| :: texts[i].Text? && ids[i] !in db
    requires if configured then Delivering(ds, rows, ids, dids, now) else rows == ds
    ensures Stored(db, InsertTexts(db, ids, texts, now), ds, rows, ids, dids, texts, configured, now)
  {
    hide InsertTexts, NewInbound, Delivering;
    InsertTextsAdds(db, ids, texts, now);
  }

  /** The loop over the texts, on the session's view of the two tables. */
  method BuildRows(engine: Engine, ids: seq<Id>, dids: seq<W.Id>, texts: seq<Inbox.Event>, configured: bool, now: int)
    returns (session: Table, rows: map<W.Id, W.Delivery>)
    requires |ids| == |texts| == |dids| && Distinct(ids) && Distinct(dids)
    requires forall i | 0 <= i < |texts| :: texts[i].Text? && ids[i] !in engine.db && dids[i] !in engine.deliveries
    ensures session == InsertTexts(engine.db, ids, texts, now)
    ensures Stored(engine.db, session, engine.deliveries, rows, ids, dids, texts, configured, now)
  {
    hide InsertTexts, NewInbound, W.NewDelivery, Delivering, Stored;
    NoDelivery(engine.deliveries, ids, now);
    session, rows := engine.db, engine.deliveries;
    assert ids[0..] == ids && texts[0..] == texts;
    var i := 0;
    while i < |texts|
      invariant i <= |texts|
      invariant InsertTexts(session, ids[i..], texts[i..], now) == InsertTexts(engine.db, ids, texts, now)
      invariant if configured then Delivering(engine.deliveries, rows, ids, dids[..i], now)
                else rows == engine.deliveries
    {
      InsertOne(session, ids, texts, i, now);
      session := session[ids[i] := NewInbound(texts[i].msisdn, texts[i].body, texts[i].segments, now)];
      if configured {
        OneMoreDelivery(engine.deliveries, rows, ids, dids, i, now);
        rows := rows[dids[i] := W.NewDelivery(ids[i], now)];
      }
      i := i + 1;
    }
    InsertOne(session, ids, texts, i, now);
    assert dids[..i] == dids;
    AllStored(engine.db, engine.deliveries, rows, ids, dids, texts, configured, now);
  }

  lemma {:induction false} Unused(taken: set<nat>) returns (n: nat)
    ensures forall x | x in taken :: x < n
    ensures n !in taken
  {
    if taken == {} {
      n := 0;
    } else {
      var x :| x in taken;
      var m := Unused(taken - {x});
      n := if m <= x then x + 1 else m;
      assert forall y | y in taken :: y == x || y in taken - {x};
    }
  }

  /** Ids the generator may give: distinct and never given out before. */
  method FreshIds(taken: set<nat>, n: nat) returns (ids: seq<nat>)
    ensures |ids| == n && Distinct(ids) && forall i | 0 <= i < n :: ids[i] !in taken
  {
    ids := [];
    while |ids| < n
      invariant |ids| <= n && Distinct(ids) && forall i | 0 <= i < |ids| :: ids[i] !in taken
    {
      ghost var unused := Unused(taken + IdSet(ids));
      var id: nat :| id !in taken && id !in ids;
      ids := ids + [id];
    }
  }

  lemma KnownDeliveries(s: Api.Shared, rows: map<W.Id, W.Delivery>, ids: seq<Id>, dids: seq<W.Id>, configured: bool,
                        now: int)
    requires s.Known() && |dids| <= |ids|
    requires if configured then Delivering(s.deliveries, rows, ids, dids, now) else rows == s.deliveries
    ensures forall d | d in rows :: rows[d].messageId in s.used + IdSet(ids)
  {
    forall d | d in rows && d !in s.deliveries ensures rows[d].messageId in IdSet(ids) {
      var i :| 0 <= i < |dids| && dids[i] == d;
      assert rows[dids[i]] == W.NewDelivery(ids[i], now);
    }
  }

  /** The rows and deliveries of a text transaction, column by column. */
  lemma StoredRows(db0: Table, db: Table, ds0: map<W.Id, W.Delivery>, ds: map<W.Id, W.Delivery>, ids: seq<Id>,
                   dids: seq<W.Id>, texts: seq<Inbox.Event>, configured: bool, now: int)
    requires Stored(db0, db, ds0, ds, ids, dids, texts, configured, now)
    ensures |ids| == |texts| == |dids|
    ensures forall i | 0 <= i < |ids| ::
              && texts[i].Text? && ids[i] in db
              && db[ids[i]] == Row(Inbound, texts[i].msisdn, texts[i].body, Received, texts[i].segments,
                                   None, None, now, None, None)
    ensures configured ==>
              forall i | 0 <= i < |dids| ::
                dids[i] in ds && ds[dids[i]] == W.Delivery(ids[i], 0, W.Pending, None, now, None, now)
  {
    assert forall i | 0 <= i < |ids| :: ids[i] in IdSet(ids);
    assert forall i | 0 <= i < |dids| :: dids[i] in IdSet(dids);
  }

  /** The text transaction; `commits` is whether the database lets it. What is not committed is stored
      nowhere. */
  method StoreTexts(engine: Engine, texts: seq<Inbox.Event>, commits: bool)
    returns (ghost ids: seq<Id>, ghost dids: seq<W.Id>, now: int)
    requires engine.Valid() && engine.state.worker.Receiving?
    requires forall i | 0 <= i < |texts| :: texts[i].Text?
    modifies engine`db, engine`deliveries, engine`used, engine`events, engine`state, engine`received
    ensures engine.Valid()
    ensures engine.received == old(engine.received) + if commits then [|old(engine.events)|] else []
    ensures engine.state == old(engine.state).(db := engine.db, used := engine.used)
    ensures engine.events == old(engine.events) + if commits then [Receive(ids, texts, now)] else []
    ensures !commits ==> engine.View() == old(engine.View())
    ensures commits ==>
              && Stored(old(engine.db), engine.db, old(engine.deliveries), engine.deliveries, ids, dids, texts,
                        engine.webhookUrl != "" && engine.webhookSecret != "", now)
              && |ids| == |texts| == |dids|
              && (forall i | 0 <= i < |ids| ::
                    && texts[i].Text? && ids[i] in engine.db
                    && engine.db[ids[i]] == Row(Inbound, texts[i].msisdn, texts[i].body, Received, texts[i].segments,
                                             None, None, now, None, None))
              && (engine.webhookUrl != "" && engine.webhookSecret != "" ==>
                    forall i | 0 <= i < |dids| ::
                      dids[i] in engine.deliveries
                      && engine.deliveries[dids[i]] == W.Delivery(ids[i], 0, W.Pending, None, now, None, now))
              && (forall i | 0 <= i < |ids| :: ids[i] !in old(engine.used))
              && engine.used == old(engine.used) + IdSet(ids)
  {
    hide Receives, IsRun, StateAfter, InsertTexts, NewInbound, W.NewDelivery, Delivering;
    var newIds := FreshIds(engine.used, |texts|);
    var newDids := FreshIds(engine.deliveries.Keys, |texts|);
    ids, dids, now := newIds, newDids, *;
    var configured := engine.webhookUrl != "" && engine.webhookSecret != "";
    var session, rows := BuildRows(engine, newIds, newDids, texts, configured, now);
    StoredRows(engine.db, session, engine.deliveries, rows, newIds, newDids, texts, configured, now);
    if commits {
      KnownDeliveries(engine.View(), rows, newIds, newDids, configured, now);
      engine.CommitTexts(newIds, texts, session, rows, now);
    }
  }

  lemma {:induction false} PickSnoc(db: Table, rs: seq<Inbox.Event>, picks: seq<Option<Id>>, r: Inbox.Event,
                                    pick: Option<Id>)
    requires AllReports(rs) && r.Report? && ValidPicks(db, rs, picks) && IsPick(ApplyReports(db, rs, picks), r, pick)
    ensures AllReports(rs + [r]) && ValidPicks(db, rs + [r], picks + [pick])
    ensures ApplyReports(db, rs + [r], picks + [pick]) == ApplyReport(ApplyReports(db, rs, picks), r, pick)
    decreases rs
  {
    if |rs| == 0 {
      assert rs + [r] == [r] && picks + [pick] == [pick];
    } else {
      assert (rs + [r])[1..] == rs[1..] + [r] && (picks + [pick])[1..] == picks[1..] + [pick];
      PickSnoc(ApplyReport(db, rs[0], picks[0]), rs[1..], picks[1..], r, pick);
    }
  }

  /** One row per report, on the session's view, which includes its own earlier writes. */
  method PickRows(db: Table, reports: seq<Inbox.Event>) returns (picks: seq<Option<Id>>, session: Table)
    requires AllReports(reports)
    ensures ValidPicks(db, reports, picks) && session == ApplyReports(db, reports, picks)
  {
    session, picks := db, [];
    var i := 0;
    while i < |reports|
      invariant i <= |reports|
      invariant ValidPicks(db, reports[..i], picks) && session == ApplyReports(db, reports[..i], picks)
    {
      var pick := QueryReport(session, reports[i]);
      PickSnoc(db, reports[..i], picks, reports[i], pick);
      assert reports[..i + 1] == reports[..i] + [reports[i]];
      session := ApplyReport(session, reports[i], pick);
      picks := picks + [pick];
      i := i + 1;
    }
    assert reports[..i] == reports;
  }

  /** The reports have been applied in order to what their session found, or not at all. */
  ghost predicate Reported(db: Table, reports: seq<Inbox.Event>, db': Table) {
    || db' == db
    || (AllReports(reports)
        && exists picks :: ValidPicks(db, reports, picks) && db' == ApplyReports(db, reports, picks))
  }

  lemma FlippedByAReport(db: Table, reports: seq<Inbox.Event>, picks: seq<Option<Id>>)
    requires AllReports(reports) && ValidPicks(db, reports, picks)
    ensures var db' := ApplyReports(db, reports, picks);
            forall id | id in db ::
              && id in db'
              && (db'[id] == db[id]
                  || exists r | r in reports ::
                       && r.Report? && r.delivered && db[id].direction == Outbound && db[id].msisdn == r.msisdn
                       && db[id].status == Sent && (r.reference.Some? ==> db[id].modemRef == r.reference)
                       && db'[id] == db[id].(status := Delivered, deliveredAt := Some(r.timestamp)))
  {
    hide ApplyReports, ValidPicks;
    ReportsFlipOnce(db, reports, picks);
    forall id | id in db && Some(id) in picks ensures exists i :: 0 <= i < |picks| && picks[i] == Some(id) {
    }
  }

  /** The report transaction. A stale row makes the batch be skipped; any other failure raises. */
  method ApplyDeliveryReports(engine: Engine, reports: seq<Inbox.Event>, commits: bool, stale: bool)
    returns (raised: bool)
    requires engine.Valid() && engine.state.worker.Receiving? && AllReports(reports)
    modifies engine`db, engine`events, engine`state
    ensures engine.Valid() && old(engine.events) <= engine.events
    ensures engine.state == old(engine.state).(db := engine.db)
    ensures Reported(old(engine.db), reports, engine.db)
    ensures forall id | id in old(engine.db) ::
              var row := old(engine.db)[id];
              && id in engine.db
              && (engine.db[id] == row
                  || exists r | r in reports ::
                       && r.Report? && r.delivered && row.direction == Outbound && row.msisdn == r.msisdn
                       && row.status == Sent && (r.reference.Some? ==> row.modemRef == r.reference)
                       && engine.db[id] == row.(status := Delivered, deliveredAt := Some(r.timestamp)))
    ensures raised <==> !commits && !stale
    ensures if commits then
              exists picks ::
                ValidPicks(old(engine.db), reports, picks) && engine.db == ApplyReports(old(engine.db), reports, picks)
            else engine.db == old(engine.db)
  {
    var picks, session := PickRows(engine.db, reports);
    FlippedByAReport(engine.db, reports, picks);
    if !commits {
      return !stale;
    }
    engine.CommitReports(reports, picks, session);
    return false;
  }

  /** What a poll did: the events the driver handed over, the ids and the time the text transaction used,
      which event of the run it is, and what it left. */
  datatype Intake = Intake(fetched: seq<Inbox.Event>, ids: seq<Id>, dids: seq<W.Id>, now: int, mark: nat,
                           after: Api.Shared)

  /** The text transaction, committed to what it found: the rows of the texts under new ids, their deliveries
      exactly when the settings it found are set, and nothing else. */
  ghost predicate Taken(before: Api.Shared, x: Intake) {
    && Stored(before.db, x.after.db, before.deliveries, x.after.deliveries, x.ids, x.dids, TextsOf(x.fetched),
              before.Configured(), x.now)
    && (forall i | 0 <= i < |x.ids| :: x.ids[i] !in before.used)
    && x.after == before.(db := x.after.db, deliveries := x.after.deliveries, used := before.used + IdSet(x.ids))
  }

  /** What the API commits between the two transactions; without reports there is no second one. */
  function Meanwhile(x: Intake, later: seq<Api.Step>): seq<Api.Step> {
    if ReportsOf(x.fetched) == [] then [] else later
  }

  /** How the poll ends: what the API and the reports make of what the text transaction left. */
  ghost predicate EndsIn(x: Intake, later: seq<Api.Step>, end: Api.Shared) {
    var found := Api.All(x.after, Meanwhile(x, later));
    end == found.(db := end.db) && Reported(found.db, ReportsOf(x.fetched), end.db)
  }

  /** Each text is in the table as it came, exactly unless a purge has taken it since. */
  ghost predicate TextsKept(x: Intake, later: seq<Api.Step>, end: Api.Shared) {
    var texts := TextsOf(x.fetched);
    && |x.ids| == |texts|
    && forall i | 0 <= i < |texts| ::
         && (x.ids[i] in end.db <==> !Api.Purges(Meanwhile(x, later), x.now))
         && (x.ids[i] in end.db ==> IsText(end.db, x.ids[i], texts[i], x.now))
  }

  /** Each text has exactly one delivery when a webhook was configured, exactly unless it was purged, and none
      otherwise. */
  ghost predicate DeliveriesKept(x: Intake, configured: bool, later: seq<Api.Step>, end: Api.Shared) {
    && |x.dids| == |x.ids|
    && forall i, d | 0 <= i < |x.ids| ::
         (d in end.deliveries && end.deliveries[d].messageId == x.ids[i])
         <==> (configured && d == x.dids[i] && !Api.Purges(Meanwhile(x, later), x.now))
  }

  ghost predicate RowsFor(before: Table, after: Table, ids: seq<Id>, texts: seq<Inbox.Event>, now: int) {
    && |ids| == |texts| && Distinct(ids)
    && forall i | 0 <= i < |ids| :: ids[i] !in before && IsText(after, ids[i], texts[i], now)
  }

  /** The table has gained one `received` row for each text. */
  ghost predicate Gained(before: Table, after: Table, texts: seq<Inbox.Event>) {
    exists ids: seq<Id>, now: int :: RowsFor(before, after, ids, texts, now)
  }

  /** The event of the run by which the texts were committed. */
  ghost predicate Logged(from: nat, events: seq<Event>, x: Intake) {
    from <= x.mark < |events| && events[x.mark] == Receive(x.ids, TextsOf(x.fetched), x.now)
  }

  lemma EndsAtOnce(x: Intake, later: seq<Api.Step>)
    requires ReportsOf(x.fetched) == []
    ensures EndsIn(x, later, x.after)
  {
  }

  lemma EndsAfterReports(x: Intake, later: seq<Api.Step>, found: Api.Shared, end: Api.Shared)
    requires ReportsOf(x.fetched) != [] && found == Api.All(x.after, later)
    requires end == found.(db := end.db) && Reported(found.db, ReportsOf(x.fetched), end.db)
    ensures EndsIn(x, later, end)
  {
  }

  lemma GainedGrows(before: Table, after: Table, texts: seq<Inbox.Event>)
    ensures Gained(before, after, texts) && texts != [] ==> exists id :: id in after && id !in before
  {
    if Gained(before, after, texts) && texts != [] {
      var ids, now :| RowsFor(before, after, ids, texts, now);
      assert ids[0] in after && ids[0] !in before;
    }
  }

  /** A committed transaction leaves the rows; one that is rolled back leaves the table as it was, which
      cannot hold them. */
  lemma CommitDecides(before: Api.Shared, x: Intake, commits: bool)
    requires if commits then Taken(before, x) else x.after == before
    ensures TextsOf(x.fetched) != [] ==> (commits <==> Gained(before.db, x.after.db, TextsOf(x.fetched)))
  {
    hide TextsOf;
    var texts := TextsOf(x.fetched);
    if commits {
      forall i | 0 <= i < |texts| ensures x.ids[i] !in before.db && IsText(x.after.db, x.ids[i], texts[i], x.now) {
        assert x.ids[i] in IdSet(x.ids);
      }
      assert RowsFor(before.db, x.after.db, x.ids, texts, x.now);
    }
    GainedGrows(before.db, x.after.db, texts);
  }

  lemma Listed(ids: seq<Id>, i: nat)
    requires i < |ids|
    ensures ids[i] in IdSet(ids)
  {
  }

  lemma NewDeliveryOf(before: Api.Shared, rows: map<W.Id, W.Delivery>, ids: seq<Id>, dids: seq<W.Id>, now: int, i: nat,
                      d: W.Id)
    requires before.Known() && |ids| == |dids| && Distinct(ids) && Delivering(before.deliveries, rows, ids, dids, now)
    requires i < |ids| && ids[i] !in before.used
    ensures (d in rows && rows[d].messageId == ids[i]) <==> d == dids[i]
  {
    Listed(dids, i);
    assert rows[dids[i]] == W.NewDelivery(ids[i], now);
    if d in rows && d !in before.deliveries {
      var j :| 0 <= j < |dids| && dids[j] == d;
      assert rows[dids[j]] == W.NewDelivery(ids[j], now);
    }
  }

  /** Right after the transaction each text has its row, and its delivery iff one was due. */
  lemma JustTaken(before: Api.Shared, x: Intake, i: nat)
    requires before.Known() && Taken(before, x) && i < |TextsOf(x.fetched)|
    ensures x.after.Known() && |x.ids| == |x.dids| == |TextsOf(x.fetched)|
    ensures IsText(x.after.db, x.ids[i], TextsOf(x.fetched)[i], x.now)
    ensures forall d :: (d in x.after.deliveries && x.after.deliveries[d].messageId == x.ids[i])
              <==> (before.Configured() && d == x.dids[i])
  {
    hide TextsOf, IdSet;
    KnownDeliveries(before, x.after.deliveries, x.ids, x.dids, before.Configured(), x.now);
    Listed(x.ids, i);
    if before.Configured() {
      forall d ensures (d in x.after.deliveries && x.after.deliveries[d].messageId == x.ids[i]) <==> d == x.dids[i] {
        NewDeliveryOf(before, x.after.deliveries, x.ids, x.dids, x.now, i, d);
      }
    }
  }

  lemma TakenSizes(before: Api.Shared, x: Intake)
    requires Taken(before, x)
    ensures |x.ids| == |x.dids| == |TextsOf(x.fetched)|
  {
  }

  /** Reports never touch a `received` row. */
  lemma ReportsSpareTexts(db: Table, reports: seq<Inbox.Event>, db': Table)
    requires Reported(db, reports, db')
    ensures db'.Keys == db.Keys && forall id | id in db && db[id].status == Received :: db'[id] == db[id]
  {
    if db' != db {
      var picks :| ValidPicks(db, reports, picks) && db' == ApplyReports(db, reports, picks);
      ReportsFlipOnce(db, reports, picks);
      forall id | id in db && db[id].status == Received ensures db'[id] == db[id] {
        DeliverRow(db, reports, picks, id);
      }
    }
  }

  lemma TextsAreKept(before: Api.Shared, x: Intake, later: seq<Api.Step>, end: Api.Shared)
    requires before.Known() && Taken(before, x) && EndsIn(x, later, end)
    ensures TextsKept(x, later, end) && DeliveriesKept(x, before.Configured(), later, end)
  {
    hide TextsOf, ReportsOf, Taken, Api.Purges, Reported;
    var texts, steps := TextsOf(x.fetched), Meanwhile(x, later);
    var found := Api.All(x.after, steps);
    assert |x.ids| == |x.dids| == |texts| by { TakenSizes(before, x); }
    ReportsSpareTexts(found.db, ReportsOf(x.fetched), end.db);
    forall i | 0 <= i < |texts|
      ensures (x.ids[i] in end.db <==> !Api.Purges(steps, x.now))
              && (x.ids[i] in end.db ==> IsText(end.db, x.ids[i], texts[i], x.now))
      ensures forall d :: (d in end.deliveries && end.deliveries[d].messageId == x.ids[i])
                <==> (before.Configured() && d == x.dids[i] && !Api.Purges(steps, x.now))
    {
      JustTaken(before, x, i);
      Api.RowsStay(x.after, steps, x.ids[i]);
      forall d ensures (d in end.deliveries && end.deliveries[d].messageId == x.ids[i])
                <==> (before.Configured() && d == x.dids[i] && !Api.Purges(steps, x.now))
      {
        Api.DeliveriesFollow(x.after, steps, d, x.ids[i]);
      }
    }
  }

  method StoreEvents(engine: Engine, events: seq<Inbox.Event>, commits: bool, api: seq<Api.Step>, later: seq<Api.Step>)
    returns (raised: bool, ghost x: Intake)
    requires engine.Valid() && engine.state.worker.Receiving?
    modifies engine
    ensures engine.Valid() && old(engine.events) <= engine.events
    ensures engine.state == old(engine.state).(db := engine.db, used := engine.used)
    ensures x.fetched == events
    ensures engine.received == old(engine.received) + if commits then [x.mark] else []
    ensures !commits ==> raised && x.after == engine.View() == Api.All(old(engine.View()), api)
    ensures TextsOf(events) != [] ==>
              (commits <==> Gained(Api.All(old(engine.View()), api).db, x.after.db, TextsOf(events)))
    ensures commits ==>
              var before := Api.All(old(engine.View()), api);
              && Taken(before, x) && Logged(|old(engine.events)|, engine.events, x)
              && EndsIn(x, later, engine.View())
              && TextsKept(x, later, engine.View()) && DeliveriesKept(x, before.Configured(), later, engine.View())
  {
    hide InsertTexts, ApplyReports, ValidPicks, IsRun, StateAfter, Inv, Stored, TextsOf, ReportsOf, Gained, EndsIn,
      TextsKept, DeliveriesKept;
    var texts, reports := SplitEvents(events);
    SplitByKind(events);
    engine.Interfere(api);
    ghost var before := engine.View();
    ghost var mark := |engine.events|;
    var ids, dids, now := StoreTexts(engine, texts, commits);
    x := Intake(events, ids, dids, now, mark, engine.View());
    CommitDecides(before, x, commits);
    if !commits {
      return true, x;
    }
    if reports == [] {
      EndsAtOnce(x, later);
      TextsAreKept(before, x, later, engine.View());
      return false, x;
    }
    engine.Interfere(later);
    ghost var found := engine.View();
    var written: bool, stale: bool := *, *;
    raised := ApplyDeliveryReports(engine, reports, written, stale);
    EndsAfterReports(x, later, found, engine.View());
    TextsAreKept(before, x, later, engine.View());
  }

  /** Fetches, stores the texts in their own transaction, then applies the reports. `commits` says whether
      the database takes the texts; the API process commits `api` before that transaction and `later` after
      it. The driver lets go of what it read before any of this is known. */
  method ProcessInbound(engine: Engine, driver: Modem.GammuDriver, bucket: T.TokenBucket, poll: Inbox.Script,
                        commits: bool, api: seq<Api.Step>, later: seq<Api.Step>)
    returns (raised: bool, ghost x: Intake)
    requires InStep(engine, driver, bucket) && engine.state.worker == Receiving
    modifies engine, driver`connected, driver`pending, driver`captured, driver`handed, driver`deletes
    ensures old(engine.events) <= engine.events
    ensures raised ==> Raising(engine, driver, bucket)
    ensures !raised ==> InStep(engine, driver, bucket) && engine.state.worker == Receiving
    // what was fetched, and that the modem has been told to delete it, whatever becomes of it
    ensures old(driver.connected) ==>
              var f := Inbox.FetchInbound(poll, old(driver.pending));
              && driver.pending == f.pending && driver.deletes == old(driver.deletes) + f.issued
              && driver.handed == old(driver.handed) + if f.result.Fetched? then old(driver.pending) else []
    ensures old(driver.connected) && Inbox.Succeeds(poll) ==>
              var f := Inbox.FetchInbound(poll, old(driver.pending));
              f.result.Fetched? && x.fetched == f.result.events && driver.pending == Inbox.Arrivals(poll)
    ensures !(old(driver.connected) && Inbox.Succeeds(poll)) ==> raised && x.fetched == []
    ensures !old(driver.connected) ==>
              && !driver.connected
              && driver.pending == old(driver.pending) && driver.deletes == old(driver.deletes)
              && driver.handed == old(driver.handed)
    ensures x.fetched == [] ==> engine.View() == old(engine.View())
    ensures engine.received == old(engine.received) + if x.fetched != [] && commits then [x.mark] else []
    // the texts are in the table exactly when their transaction commits
    ensures x.fetched != [] && !commits ==> raised && x.after == engine.View() == Api.All(old(engine.View()), api)
    ensures TextsOf(x.fetched) != [] ==>
              (commits <==> Gained(Api.All(old(engine.View()), api).db, x.after.db, TextsOf(x.fetched)))
    // with their deliveries, and nothing later takes them away but a purge
    ensures x.fetched != [] && commits ==>
              var before := Api.All(old(engine.View()), api);
              && Taken(before, x) && Logged(|old(engine.events)|, engine.events, x)
              && EndsIn(x, later, engine.View())
              && TextsKept(x, later, engine.View()) && DeliveriesKept(x, before.Configured(), later, engine.View())
  {
    x := Intake([], [], [], 0, 0, engine.View());
    var r := driver.FetchInbound(poll);
    if r.Raised? {
      return true, x;
    }
    if r.events == [] {
      return false, x;
    }
    raised, x := StoreEvents(engine, r.events, commits, api, later);
  }

  lemma EmptyOutbox(db: Table, queue: seq<Id>)
    requires IsOutbox(db, queue)
    ensures db == map[] ==> queue == []
  {
    if |queue| > 0 {
      assert queue[0] in db;
    }
  }

  /** A worker that has started and connected. */
  method Connected(cfg: Config) returns (engine: Engine, driver: Modem.GammuDriver, bucket: T.TokenBucket)
    requires cfg.perMinute >= 1
    ensures fresh(engine) && fresh(driver) && fresh(bucket)
    ensures InStep(engine, driver, bucket) && engine.state.worker == Idle(true)
    ensures engine.db == map[] && driver.connected && driver.pending == [] && driver.deletes == []
  {
    hide Receives, IsRun, StateAfter, Inv;
    engine := new Engine(cfg);
    driver := new Modem.GammuDriver([]);
    bucket := new T.TokenBucket(cfg.perMinute, 0.0);
    engine.RecordStep(Event.Start);
    engine.CommitRecovery({}, map[], true, 0.0);
    driver.Connect(true, []);
    engine.RecordStep(Event.Connect);
    engine.CommitRecovery({}, map[], false, 0.0);
  }

  /** A worker that has started, connected and found nothing to send. */
  method ReadyToReceive(cfg: Config) returns (engine: Engine, driver: Modem.GammuDriver, bucket: T.TokenBucket)
    requires cfg.perMinute >= 1
    ensures fresh(engine) && fresh(driver) && fresh(bucket)
    ensures InStep(engine, driver, bucket) && engine.state.worker == Receiving
    ensures engine.db == map[] && driver.connected && driver.pending == [] && driver.deletes == []
  {
    hide Receives, IsRun, StateAfter, Inv, IsOutbox;
    engine, driver, bucket := Connected(cfg);
    var queued := engine.LoadOutbox();
    EmptyOutbox(engine.db, queued);
    engine.RecordEndOfPass();
  }

  lemma RaisingIsValid(engine: Engine, driver: Modem.GammuDriver, bucket: T.TokenBucket)
    requires Raising(engine, driver, bucket)
    ensures engine.Valid() && driver.Valid()
  {
  }

  /** A text that arrives while the database refuses its transaction is gone: deleted from the modem, no
      longer pending in the driver, and in no row. */
  method LoseOneText(cfg: Config, location: int, number: string, text: string)
    returns (engine: Engine, driver: Modem.GammuDriver, raised: bool)
    requires cfg.perMinute >= 1
    ensures fresh(engine) && fresh(driver) && engine.Valid() && driver.Valid()
    ensures raised && driver.deletes == [location] && driver.pending == [] && engine.db == map[]
  {
    hide InStep, Raising, Inbox.FetchInbound, Inbox.Succeeds, TextsOf, Taken, EndsIn, TextsKept, DeliveriesKept, Gained;
    var bucket: T.TokenBucket;
    engine, driver, bucket := ReadyToReceive(cfg);
    Inbox.OneTextIsFetched(location, number, text);
    ghost var x;
    raised, x := ProcessInbound(engine, driver, bucket, Inbox.OneText(location, number, text), false, [], []);
    RaisingIsValid(engine, driver, bucket);
  }

  // ---- run ----

  const BACKOFF_INITIAL_SECONDS: real := 5.0

  const BACKOFF_CAP_SECONDS: real := 60.0

  function NextBackoff(current: Option<real>): real {
    match current
    case None => BACKOFF_INITIAL_SECONDS
    case Some(b) => if b * 2.0 <= BACKOFF_CAP_SECONDS then b * 2.0 else BACKOFF_CAP_SECONDS
  }

  /** The delay after so many failures in a row. */
  function DelayAfter(failures: nat): Option<real> {
    if failures == 0 then None else Some(NextBackoff(DelayAfter(failures - 1)))
  }

  /** 5, 10, 20, 40, then 60 seconds for good. */
  lemma {:induction false} BackoffSequence(failures: nat)
    requires failures >= 1
    ensures DelayAfter(failures) == Some(if failures <= 4 then [5.0, 10.0, 20.0, 40.0][failures - 1] else 60.0)
  {
    if failures > 1 {
      BackoffSequence(failures - 1);
    }
  }

  lemma PendingGrows(handed: seq<Inbox.Event>, captured: seq<Inbox.Event>, pending: seq<Inbox.Event>,
                     captured': seq<Inbox.Event>, pending': seq<Inbox.Event>)
    requires captured == handed + pending && captured' == handed + pending' && captured <= captured'
    ensures pending <= pending'
  {
    assert |pending| <= |pending'|;
    forall i | 0 <= i < |pending| ensures pending[i] == pending'[i] {
      assert captured[|handed| + i] == captured'[|handed| + i];
    }
  }

  /** `process_inbound` on what the turn meets and whatever the API process does meanwhile; `handled` is the
      poll, and None only when the link was down. */
  method PollInbound(engine: Engine, driver: Modem.GammuDriver, bucket: T.TokenBucket, visit: Visit, turn: nat)
    returns (raised: bool, ghost handled: Option<Handled>)
    requires InStep(engine, driver, bucket) && engine.state.worker == Receiving
    modifies engine, driver`connected, driver`pending, driver`captured, driver`handed, driver`deletes
    ensures old(engine.events) <= engine.events
    ensures raised ==> Raising(engine, driver, bucket)
    ensures !raised ==> InStep(engine, driver, bucket) && engine.state.worker == Receiving
    ensures handled.Some? <==> old(driver.connected)
    ensures engine.received == old(engine.received) + if handled.Some? then StoredBy(handled.value) else []
    ensures handled == None ==>
              && raised && !driver.connected && driver.pending == old(driver.pending)
              && driver.deletes == old(driver.deletes) && driver.handed == old(driver.handed)
    ensures handled.Some? ==>
              var h, f := handled.value, Inbox.FetchInbound(visit.poll, old(driver.pending));
              && h.turn == turn && h.found == old(driver.pending) && h.poll == visit.poll && h.commits == visit.commits
              && f.pending == driver.pending && driver.deletes == old(driver.deletes) + f.issued
              && driver.handed == old(driver.handed) + (if f.result.Fetched? then old(driver.pending) else [])
              && HandledOk(engine.events, h) && (h.stored.Some? ==> |old(engine.events)| <= h.stored.value)
  {
    hide InStep, Raising, Inbox.FetchInbound, Inbox.Drain, Taken, EndsIn, TextsKept, DeliveriesKept, Gained, TextsOf;
    Inbox.PendingStep(visit.poll, driver.pending);
    var api: seq<Api.Step>, later: seq<Api.Step> := *, *;
    ghost var x;
    raised, x := ProcessInbound(engine, driver, bucket, visit.poll, visit.commits, api, later);
    handled := None;
    if old(driver.connected) {
      handled := Some(Handled(turn, old(driver.pending), visit.poll, visit.commits,
                              if x.fetched != [] && visit.commits then Some(x.mark) else None));
    }
  }

  /** What a turn meets beside the modem's messages: whether the first statement succeeds, the port opens, the
      recovery commits, what the pass over the outbox meets, whether the modem answers the status queries and, if not,
      the connection is gone, and whether the heartbeat can be written. */
  datatype Fate = Fate(begins: bool, opens: bool, recovers: bool, luck: seq<Luck>, answers: bool, drops: bool,
                       written: bool)

  /** driver.status() and the heartbeat. */
  method WriteStatus(engine: Engine, driver: Modem.GammuDriver, bucket: T.TokenBucket, fate: Fate)
    returns (raised: bool)
    requires InStep(engine, driver, bucket) && engine.state.worker == Receiving
    modifies engine, driver`connected, driver`pending, driver`captured
    ensures engine.received == old(engine.received)
    ensures old(engine.events) <= engine.events && old(driver.pending) <= driver.pending
    ensures raised ==> Raising(engine, driver, bucket)
    ensures !raised ==> InStep(engine, driver, bucket) && engine.state.worker == Idle(true)
    ensures raised <==> !(old(driver.connected) && fate.answers && fate.written)
  {
    hide Receives, IsRun, StateAfter, Inv;
    var ok := driver.Status(fate.answers, fate.drops);
    PendingGrows(driver.handed, old(driver.captured), old(driver.pending), driver.captured, driver.pending);
    if !ok || !fate.written {
      return true;
    }
    engine.RecordStep(Poll);
    return false;
  }

  /** connect, then reclaim what an earlier turn left in `sending`. */
  method Reconnect(engine: Engine, driver: Modem.GammuDriver, bucket: T.TokenBucket, fate: Fate)
    returns (raised: bool, reached: bool)
    requires InStep(engine, driver, bucket) && engine.state.worker == Idle(false)
    modifies engine, driver`connected, driver`pending, driver`captured
    ensures engine.received == old(engine.received)
    ensures old(engine.events) <= engine.events && old(driver.captured) <= driver.captured
    ensures raised ==> Raising(engine, driver, bucket)
    ensures !raised ==> InStep(engine, driver, bucket) && engine.state.worker == Idle(true)
    ensures reached == fate.opens && raised == !(fate.opens && fate.recovers)
  {
    hide Receives, IsRun, StateAfter;
    var notes: seq<Inbox.Notification> := *;
    reached := fate.opens;
    driver.Connect(reached, notes);
    if !reached {
      return true, false;
    }
    engine.RecordStep(Connect);
    var api: seq<Api.Step> := *;
    engine.Interfere(api);
    var ok, requeued := RecoverInterruptedSends(engine, false, 0.0, fate.recovers);
    return !ok, true;
  }

  /** What polls change: the captured events pending, the deletes issued, the captured events handed over, the
      text transactions committed. */
  datatype Ledger =
    Ledger(pending: seq<Inbox.Event>, deletes: seq<int>, handed: seq<Inbox.Event>, received: seq<nat>)

  ghost function LedgerOf(engine: Engine, driver: Modem.GammuDriver): Ledger
    reads engine, driver
  {
    Ledger(driver.pending, driver.deletes, driver.handed, engine.received)
  }

  /** What a turn did: nothing but captures, or exactly one poll, which is on the record. */
  ghost predicate Polled(before: Ledger, after: Ledger, events: seq<Event>, events': seq<Event>, visit: Visit,
                         turn: nat, handled: Option<Handled>) {
    match handled
    case None => before.pending <= after.pending && after == before.(pending := after.pending)
    case Some(h) =>
      var f := Inbox.FetchInbound(h.poll, h.found);
      && h.turn == turn && h.poll == visit.poll && h.commits == visit.commits && HandledOk(events', h)
      && (h.stored.Some? ==> |events| <= h.stored.value)
      && before.pending <= h.found && f.pending <= after.pending
      && after.deletes == before.deletes + f.issued
      && after.handed == before.handed + (if f.result.Fetched? then h.found else [])
      && after.received == before.received + StoredBy(h)
  }

  /** A pass was begun and ended early, because something failed at the message it had reached. */
  ghost predicate PassBroken(start: seq<Event>, events: seq<Event>, db: Table, luck: seq<Luck>) {
    exists queue: seq<Id>, reached: nat ::
      && reached < |queue| && Loaded(start, events, queue)
      && ((reached < |luck| && luck[reached] != Luck(true, true, true, true)) || queue[reached] !in db)
  }

  lemma BrokenAt(start: seq<Event>, later: seq<Event>, events: seq<Event>, queue: seq<Id>, reached: nat, db: Table,
                 luck: seq<Luck>)
    requires start <= later && Loaded(later, events, queue) && reached < |queue|
    requires (reached < |luck| && luck[reached] != Luck(true, true, true, true)) || queue[reached] !in db
    ensures PassBroken(start, events, db, luck)
  {
    assert Loaded(start, events, queue);
  }

  /** The body of the try block in `run`, after the restart check. A turn that raises nothing has polled. */
  method Turn(engine: Engine, driver: Modem.GammuDriver, bucket: T.TokenBucket, connected: bool, visit: Visit,
              turn: nat, fate: Fate)
    returns (raised: bool, reached: bool, ghost handled: Option<Handled>)
    requires InStep(engine, driver, bucket) && engine.state.worker == Idle(connected)
    modifies engine, driver, bucket
    ensures old(engine.events) <= engine.events
    ensures raised ==> Raising(engine, driver, bucket)
    ensures !raised ==> InStep(engine, driver, bucket) && engine.state.worker == Idle(true)
    ensures !raised ==> handled.Some? && fate.answers && fate.written
    ensures reached <==> fate.begins && !connected && fate.opens
    ensures handled == None ==>
              || !fate.begins
              || (!connected && !(fate.opens && fate.recovers))
              || !driver.connected
              || PassBroken(old(engine.events), engine.events, engine.db, fate.luck)
    ensures Polled(old(LedgerOf(engine, driver)), LedgerOf(engine, driver), old(engine.events), engine.events, visit,
                   turn, handled)
  {
    hide Receives, IsRun, StateAfter, Inv, Stuck, Inbox.FetchInbound, SettledUpTo, WaitingFrom, Loaded, HandledOk,
      PassBroken, NoneFailed;
    reached, handled := false, None;
    raised := !fate.begins;
    if raised {
      return;
    }
    if !connected {
      raised, reached := Reconnect(engine, driver, bucket, fate);
      if raised {
        PendingGrows(driver.handed, old(driver.captured), old(driver.pending), driver.captured, driver.pending);
        return;
      }
    }
    ghost var events1 := engine.events;
    var end;
    ghost var queue, visited;
    end, queue, visited := ProcessOutbox(engine, driver, bucket, fate.luck);
    PendingGrows(driver.handed, old(driver.captured), old(driver.pending), driver.captured, driver.pending);
    if end == Aborted {
      if driver.connected {
        BrokenAt(old(engine.events), events1, engine.events, queue, visited, engine.db, fate.luck);
      }
      return true, reached, None;
    }
    raised, handled := PollInbound(engine, driver, bucket, visit, turn);
    if raised {
      return;
    }
    ghost var events0 := engine.events;
    raised := WriteStatus(engine, driver, bucket, fate);
    if handled.Some? {
      HandledStays(events0, engine.events, handled.value);
    }
  }

  lemma StillPolled(before: Ledger, after: Ledger, events: seq<Event>, events': seq<Event>, more: seq<Event>,
                    visit: Visit, turn: nat, handled: Option<Handled>)
    requires Polled(before, after, events, events', visit, turn, handled) && events' <= more
    ensures Polled(before, after, events, more, visit, turn, handled)
  {
    hide HandledOk, Inbox.FetchInbound;
    if handled.Some? {
      HandledStays(events', more, handled.value);
    }
  }

  /** A turn with the handler around it: any exception is noted and sends the worker back to connecting, after a
      longer delay unless it had connected. */
  method TryTurn(engine: Engine, driver: Modem.GammuDriver, bucket: T.TokenBucket, connected: bool,
                 backoff: Option<real>, visit: Visit, turn: nat, fate: Fate)
    returns (connected': bool, backoff': Option<real>, ghost handled: Option<Handled>)
    requires InStep(engine, driver, bucket) && engine.state.worker == Idle(connected)
    modifies engine, driver, bucket
    ensures old(engine.events) <= engine.events
    ensures InStep(engine, driver, bucket) && engine.state.worker == Idle(connected')
    ensures connected' ==> handled.Some?
    ensures var base := if fate.begins && !connected && fate.opens then None else backoff;
            backoff' == if connected' then base else Some(NextBackoff(base))
    ensures Polled(old(LedgerOf(engine, driver)), LedgerOf(engine, driver), old(engine.events), engine.events,
                   visit, turn, handled)
  {
    hide Receives, IsRun, StateAfter, Inv, Polled;
    var raised, reached;
    raised, reached, handled := Turn(engine, driver, bucket, connected, visit, turn, fate);
    ghost var events1 := engine.events;
    backoff' := if reached then None else backoff;
    if raised {
      engine.RecordStep(Fault(!driver.connected));
      connected' := false;
      backoff' := Some(NextBackoff(backoff'));
    } else {
      connected' := true;
    }
    StillPolled(old(LedgerOf(engine, driver)), LedgerOf(engine, driver), old(engine.events), events1, engine.events,
                visit, turn, handled);
  }

  /** What a life has done so far, from the driver as it was at its start. */
  ghost predicate Accounted(start: Ledger, now: Ledger, events: seq<Event>, visits: seq<Visit>, turn: nat,
                            record: seq<Handled>) {
    && Recorded(events, visits, record, now.pending)
    && (forall i | 0 <= i < |record| :: record[i].turn < turn)
    && now.deletes == start.deletes + DeletesOf(record)
    && now.handed == start.handed + HandedOf(record)
    && now.received == start.received + StoredOf(record)
  }

  lemma NothingDone(start: Ledger, events: seq<Event>, visits: seq<Visit>)
    ensures Accounted(start, start, events, visits, 0, [])
  {
    NothingRecorded(events, visits, start.pending);
  }

  lemma MoreEvents(start: Ledger, now: Ledger, events: seq<Event>, events': seq<Event>, visits: seq<Visit>, turn: nat,
                   record: seq<Handled>)
    requires Accounted(start, now, events, visits, turn, record) && events <= events'
    ensures Accounted(start, now, events', visits, turn, record)
  {
    hide Recorded;
    RecordKept(events, events', visits, record, now.pending, now.pending);
  }

  /** A turn goes on the record. */
  lemma Enter(start: Ledger, before: Ledger, after: Ledger, events: seq<Event>, events': seq<Event>, visits: seq<Visit>,
              turn: nat, record: seq<Handled>, handled: Option<Handled>)
    requires Accounted(start, before, events, visits, turn, record) && events <= events' && turn < |visits|
    requires Polled(before, after, events, events', visits[turn], turn, handled)
    ensures Accounted(start, after, events', visits, turn + 1,
                      record + if handled.Some? then [handled.value] else [])
  {
    hide HandledOk, Recorded, Inbox.FetchInbound, DeletesOf, HandedOf, StoredOf, StoredBy;
    if handled == None {
      RecordKept(events, events', visits, record, before.pending, after.pending);
      assert record + [] == record;
    } else {
      var h := handled.value;
      var f := Inbox.FetchInbound(h.poll, h.found);
      RecordGrows(events, events', visits, record, before.pending, h, after.pending);
      OneMorePoll(record, h);
      Associate(start.deletes, DeletesOf(record), f.issued);
      Associate(start.handed, HandedOf(record), if f.result.Fetched? then h.found else []);
      Associate(start.received, StoredOf(record), StoredBy(h));
    }
  }

  lemma TheAccount(start: Ledger, now: Ledger, events: seq<Event>, visits: seq<Visit>, turn: nat, record: seq<Handled>)
    requires Accounted(start, now, events, visits, turn, record)
    ensures Recorded(events, visits, record, now.pending)
    ensures now.deletes == start.deletes + DeletesOf(record) && now.handed == start.handed + HandedOf(record)
    ensures now.received == start.received + StoredOf(record)
  {
  }

  /** The endless loop, cut off after as many turns as there are visits. The record holds every poll that took
      place: it accounts for all the deletes issued, all the captured events handed over, and all the text
      transactions committed. */
  method Loop(engine: Engine, driver: Modem.GammuDriver, bucket: T.TokenBucket, visits: seq<Visit>)
    returns (ghost record: seq<Handled>)
    requires engine.Valid() && driver.Valid() && S.Courteous(driver.script) && engine.state.bucket == bucket.State()
    requires engine.state.worker == Idle(false) && !driver.connected
    modifies engine, driver, bucket
    ensures engine.Valid() && old(engine.events) <= engine.events && engine.state.worker.Idle?
    ensures Recorded(engine.events, visits, record, driver.pending)
    ensures driver.deletes == old(driver.deletes) + DeletesOf(record)
    ensures driver.handed == old(driver.handed) + HandedOf(record)
    ensures Receives(engine.events) == Receives(old(engine.events)) + StoredOf(record)
  {
    hide Receives, IsRun, StateAfter, Inv, Accounted, Polled, Recorded, Api.All, Engine.View, S.Courteous, DeletesOf,
      HandedOf, StoredOf;
    var connected := false;
    var backoff: Option<real> := None;
    record := [];
    if engine.state.link {
      engine.RecordStep(Fault(true));
    }
    ghost var start := LedgerOf(engine, driver);
    NothingDone(start, engine.events, visits);
    var turn := 0;
    while turn < |visits|
      invariant turn <= |visits| && old(engine.events) <= engine.events
      invariant InStep(engine, driver, bucket) && engine.state.worker == Idle(connected)
      invariant backoff.Some? ==> BACKOFF_INITIAL_SECONDS <= backoff.value <= BACKOFF_CAP_SECONDS
      invariant Accounted(start, LedgerOf(engine, driver), engine.events, visits, turn, record)
    {
      ghost var before, events0 := LedgerOf(engine, driver), engine.events;
      var api: seq<Api.Step> := *;
      engine.Interfere(api);
      MoreEvents(start, before, events0, engine.events, visits, turn, record);
      var restart: bool := *;
      if restart {
        break;
      }
      ghost var events1 := engine.events;
      ghost var handled;
      var fate: Fate := *;
      connected, backoff, handled := TryTurn(engine, driver, bucket, connected, backoff, visits[turn], turn, fate);
      Enter(start, before, LedgerOf(engine, driver), events1, engine.events, visits, turn, record, handled);
      record := record + if handled.Some? then [handled.value] else [];
      turn := turn + 1;
    }
    TheAccount(start, LedgerOf(engine, driver), engine.events, visits, turn, record);
  }

  /** One life of the worker process, as many turns of its endless loop as there are visits. Whatever fails, it
      goes on; it ends early only when the start-up recovery fails or a restart was asked for. `driver` is the
      new object that the process uses. */
  method Run(engine: Engine, driver: Modem.GammuDriver, visits: seq<Visit>)
    returns (ghost record: seq<Handled>)
    requires engine.Valid() && engine.state.worker == Down
    requires driver.Valid() && !driver.connected && driver.pending == [] && S.Courteous(driver.script)
    modifies engine, driver
    ensures engine.Valid() && old(engine.events) <= engine.events
    ensures engine.state.worker == Down && Recorded(engine.events, visits, record, driver.pending)
    ensures driver.deletes == old(driver.deletes) + DeletesOf(record)
    ensures driver.handed == old(driver.handed) + HandedOf(record)
    ensures Receives(engine.events) == Receives(old(engine.events)) + StoredOf(record)
  {
    hide Receives, IsRun, StateAfter, Inv, Recorded, Accounted, DeletesOf, HandedOf, StoredOf;
    engine.RecordStep(Start);
    var now: real := *;
    var recovers: bool := *;
    var ok, requeued := RecoverInterruptedSends(engine, true, now, recovers);
    record := [];
    NothingDone(LedgerOf(engine, driver), engine.events, visits);
    TheAccount(LedgerOf(engine, driver), LedgerOf(engine, driver), engine.events, visits, 0, record);
    if ok {
      var bucket := new T.TokenBucket(engine.cfg.perMinute, now);
      record := Loop(engine, driver, bucket, visits);
    }
    ghost var events0 := engine.events;
    engine.RecordStep(Crash);
    RecordKept(events0, engine.events, visits, record, driver.pending, driver.pending);
  }
}
