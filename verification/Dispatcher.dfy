/** `process_due_deliveries`, `dispatcher_loop` (gateway/api/webhooks.py) and `retry_delivery`
    (gateway/api/routes_admin.py) over a live table. Every committed change is recorded as an event
    and the record stays a run of the dispatcher machine that ends in the current state. `*` is the
    environment's choice. */
module Dispatcher {
  import opened Common
  import opened Webhooks
  import Ordering

  method RecordAttempt(delivery: Delivery, success: bool, code: Option<int>, end: real) returns (d: Delivery)
    ensures d == AfterAttempt(delivery, success, code, end)
  {
    d := delivery.(attempt := delivery.attempt + 1, responseCode := code);
    if success {
      d := d.(status := Delivered, deliveredAt := Some(Iso(end)));
    } else if d.attempt > MAX_RETRIES {
      d := d.(status := Failed);
    } else {
      var delay := BACKOFF_DELAYS_SECONDS[d.attempt - 1];
      d := d.(nextRetryAt := Iso(end + delay as real));
    }
  }

  /** Pending deliveries whose time has come, by due time and id. */
  method QueryDue(ds: map<Id, Delivery>, now: int) returns (due: seq<Id>)
    ensures IsDueList(ds, now, due)
    ensures forall id :: id in due <==> id in ds && ds[id].status == Pending && ds[id].nextRetryAt <= now
    ensures forall i, j | 0 <= i < j < |due| ::
              ds[due[i]].nextRetryAt < ds[due[j]].nextRetryAt
              || (ds[due[i]].nextRetryAt == ds[due[j]].nextRetryAt && due[i] < due[j])
  {
    var keys := map id | id in ds :: ds[id].nextRetryAt;
    due := Ordering.Sort(keys, set id | id in ds && IsDue(ds[id], now));
    forall i | 0 <= i < |due| ensures due[i] in ds && IsDue(ds[due[i]], now) {
      assert due[i] in due;
    }
    assert forall i, j | 0 <= i < j < |due| :: Ordering.Before(keys, due[i], due[j]) == Before(ds, due[i], due[j]);
  }

  /** What the rest of the gateway commits beside the dispatcher. */
  datatype Step =
    | Received(id: Id, message: Id, now: int)        // process_inbound stores a text and its delivery
    | Purged(messages: set<Id>)                      // purge_messages
    | Retried(id: Id, now: int)                      // retry_delivery
    | Configured(url: string, secret: string)        // the webhook settings

  datatype Tables = Tables(deliveries: map<Id, Delivery>, messages: set<Id>, used: set<Id>, url: string, secret: string)

  /** A message and its deliveries go together; only a failed delivery is retried; an id that is taken stays. */
  function Do(t: Tables, step: Step): Tables {
    match step
    case Received(id, message, now) =>
      if id in t.used then t
      else t.(deliveries := t.deliveries[id := Delivery(message, 0, Pending, None, now, None, now)],
              messages := t.messages + {message}, used := t.used + {id})
    case Purged(purged) =>
      t.(deliveries := (map d | d in t.deliveries && t.deliveries[d].messageId !in purged :: t.deliveries[d]),
         messages := t.messages - purged)
    case Retried(id, now) =>
      if id in t.deliveries && t.deliveries[id].status == Failed then
        t.(deliveries := t.deliveries[id := t.deliveries[id].(status := Pending, nextRetryAt := now)])
      else t
    case Configured(url, secret) => t.(url := url, secret := secret)
  }

  function DoAll(t: Tables, steps: seq<Step>): Tables
    decreases steps
  {
    if |steps| == 0 then t else DoAll(Do(t, steps[0]), steps[1..])
  }

  class Store {
    var deliveries: map<Id, Delivery>
    var messages: set<Id>
    var webhookUrl: string
    var webhookSecret: string
    var used: set<Id>
    /** the latest reading of the clock */
    var clock: real
    ghost var events: seq<Event>
    ghost var state: State

    constructor ()
      ensures Valid() && events == [] && state == Init()
      ensures View() == Tables(map[], {}, {}, "", "") && clock == 0.0
    {
      deliveries, messages, webhookUrl, webhookSecret, used, clock := map[], {}, "", "", {}, 0.0;
      events, state := [], Init();
    }

    ghost predicate Valid()
      reads this
    {
      && IsRun(events) && state == StateAfter(events) && Inv(state)
      && state.deliveries == deliveries && state.messages == messages && state.used == used && state.clock <= clock
    }

    /** What the two processes commit to. */
    function View(): Tables
      reads this
    {
      Tables(deliveries, messages, used, webhookUrl, webhookSecret)
    }

    ghost method Emit(e: Event)
      requires IsRun(events) && state == StateAfter(events) && Inv(state) && Enabled(state, e)
      modifies this`events, this`state
      ensures events == old(events) + [e] && IsRun(events) && Inv(state)
      ensures state == Next(old(state), e) == StateAfter(events)
      ensures RoundWork(events) == WorkAfter(RoundWork(old(events)), e)
    {
      RunSnoc(events, e);
      RoundWorkStep(events, e);
      StepKeepsInv(state, e);
      events := events + [e];
      state := Next(state, e);
    }

    method Now() returns (now: real)
      requires Valid()
      modifies this`clock
      ensures Valid() && now == clock && old(clock) <= clock
    {
      var later: real := *;
      if later > clock {
        clock := later;
      }
      return clock;
    }

    /** `retry_delivery`: 404 and 409 change nothing. */
    method RetryDelivery(id: Id, now: int) returns (status: int)
      requires Valid()
      modifies this`deliveries, this`events, this`state
      ensures Valid() && old(events) <= events && state.task == old(state).task && state.used == old(state).used
      ensures state.clock == old(state).clock && RoundWork(events) == old(RoundWork(events))
      ensures status == 404 <==> id !in old(deliveries)
      ensures status == 409 <==> id in old(deliveries) && old(deliveries)[id].status != Failed
      ensures status == 303 <==> id in old(deliveries) && old(deliveries)[id].status == Failed
      ensures status != 303 ==> deliveries == old(deliveries)
      ensures status == 303 ==>
                deliveries == old(deliveries)[id := old(deliveries)[id].(status := Pending, nextRetryAt := now)]
    {
      if id !in deliveries {
        return 404;
      }
      if deliveries[id].status != Failed {
        return 409;
      }
      Emit(ManualRetry(id, now));
      deliveries := deliveries[id := deliveries[id].(status := Pending, nextRetryAt := now)];
      return 303;
    }

    /** process_inbound commits a text with its delivery. */
    method Create(id: Id, message: Id, now: int)
      requires Valid() && id !in used
      modifies this`deliveries, this`messages, this`used, this`events, this`state
      ensures Valid() && old(events) <= events && RoundWork(events) == old(RoundWork(events))
      ensures state.task == old(state).task && state.clock == old(state).clock
      ensures deliveries == old(deliveries)[id := Delivery(message, 0, Pending, None, now, None, now)]
      ensures used == old(used) + {id} && messages == old(messages) + {message}
    {
      Emit(Event.Create(id, message, now));
      deliveries, used, messages := deliveries[id := NewDelivery(message, now)], used + {id}, messages + {message};
    }

    /** purge_messages deletes messages and their deliveries. */
    method Purge(purged: set<Id>)
      requires Valid()
      modifies this`deliveries, this`messages, this`events, this`state
      ensures Valid() && old(events) <= events && RoundWork(events) == old(RoundWork(events))
      ensures state.task == old(state).task && state.clock == old(state).clock
      ensures deliveries ==
                map d | d in old(deliveries) && old(deliveries)[d].messageId !in purged :: old(deliveries)[d]
      ensures messages == old(messages) - purged
    {
      Emit(Event.Purge(purged));
      deliveries := map d | d in deliveries && deliveries[d].messageId !in purged :: deliveries[d];
      messages := messages - purged;
    }

    /** Everything else that commits while the dispatcher awaits. */
    method Interfere(steps: seq<Step>)
      requires Valid()
      modifies this`deliveries, this`messages, this`used, this`events, this`state, this`webhookUrl, this`webhookSecret
      ensures Valid() && old(events) <= events && state.task == old(state).task && old(used) <= used
      ensures state.clock == old(state).clock && RoundWork(events) == old(RoundWork(events))
      ensures View() == DoAll(old(View()), steps)
      ensures forall d | d in deliveries :: d in old(deliveries) || d !in old(used)
    {
      hide IsRun, StateAfter, Inv, RoundWork;
      var i := 0;
      while i < |steps|
        invariant i <= |steps|
        invariant Valid() && old(events) <= events && state.task == old(state).task && old(used) <= used
        invariant state.clock == old(state).clock && RoundWork(events) == old(RoundWork(events))
        invariant DoAll(View(), steps[i..]) == DoAll(old(View()), steps)
        invariant forall d | d in deliveries :: d in old(deliveries) || d !in old(used)
      {
        assert steps[i..][1..] == steps[i + 1..];
        ghost var before := View();
        match steps[i] {
          case Received(id, message, now) =>
            if id !in used {
              Create(id, message, now);
            }
          case Purged(purged) =>
            Purge(purged);
          case Retried(id, now) =>
            var status := RetryDelivery(id, now);
          case Configured(url, secret) =>
            webhookUrl, webhookSecret := url, secret;
        }
        assert deliveries == Do(before, steps[i]).deliveries;
        i := i + 1;
      }
    }

    // ---- the statements of a round ----

    method LoadDue() returns (due: seq<Id>)
      requires Valid() && state.task.Asleep?
      modifies this`clock, this`events, this`state
      ensures Valid() && old(events) <= events && old(clock) <= clock
      ensures IsDueList(deliveries, Iso(clock), due) && state.task == Round(due, 0, clock) && RoundWork(events) == []
    {
      var now := Now();
      due := QueryDue(deliveries, Iso(now));
      Emit(Begin(now, due));
    }

    method CommitOrphan(id: Id)
      requires Valid() && Enabled(state, Orphan(id))
      modifies this`deliveries, this`events, this`state
      ensures Valid() && old(events) <= events
      ensures deliveries == old(deliveries)[id := old(deliveries)[id].(status := Failed)]
      ensures var t := old(state).task; state.task == Round(t.due, t.at + 1, t.since)
      ensures RoundWork(events) == old(RoundWork(events)) + [Orphaned(id)]
    {
      Emit(Orphan(id));
      deliveries := deliveries[id := deliveries[id].(status := Failed)];
    }

    /** The POST goes out, and some time later it has succeeded or not. */
    method SendRequest(id: Id) returns (success: bool, code: Option<int>)
      requires Valid() && Enabled(state, Post(id, clock))
      modifies this`deliveries, this`messages, this`used, this`clock, this`events, this`state, this`webhookUrl,
        this`webhookSecret
      ensures Valid() && old(events) <= events && old(clock) <= clock && RoundWork(events) == old(RoundWork(events))
      ensures old(used) <= used && forall d | d in deliveries :: d in old(deliveries) || d !in old(used)
      ensures var t := old(state).task; state.task == Posted(t.due, t.at, t.since, success, code)
      ensures success <==> code.Some? && 200 <= code.value < 300
    {
      var start := Now();
      Emit(Post(id, start));
      var steps: seq<Step> := *;
      Interfere(steps);
      success, code := AwaitAnswer();
    }

    /** A status code, or none for a timeout or connection error. */
    method AwaitAnswer() returns (success: bool, code: Option<int>)
      requires Valid() && state.task.Posting?
      modifies this`clock, this`events, this`state
      ensures Valid() && old(events) <= events && old(clock) <= clock && RoundWork(events) == old(RoundWork(events))
      ensures state.used == old(state).used
      ensures var t := old(state).task; state.task == Posted(t.due, t.at, t.since, success, code)
      ensures success <==> code.Some? && 200 <= code.value < 300
    {
      var response: Option<int> := *;
      success, code := response.Some? && 200 <= response.value < 300, response;
      var end := Now();
      Emit(Answer(success, code, end));
    }

    /** attempt += 1 and the new status or due time. */
    method CommitOutcome(id: Id, success: bool, code: Option<int>)
      requires Valid() && state.task.Posted? && state.task.success == success && state.task.code == code
      requires state.task.at < |state.task.due| && id == state.task.due[state.task.at] && id in deliveries
      modifies this`deliveries, this`clock, this`events, this`state
      ensures Valid() && old(events) <= events && old(clock) <= clock
      ensures deliveries == old(deliveries)[id := AfterAttempt(old(deliveries)[id], success, code, clock)]
      ensures var t := old(state).task; state.task == Round(t.due, t.at + 1, t.since)
      ensures RoundWork(events) == old(RoundWork(events)) + [Attempted(id)]
    {
      var end := Now();
      Emit(Commit(id, end));
      var d := RecordAttempt(deliveries[id], success, code, end);
      deliveries := deliveries[id := d];
    }

    ghost method RecordEnd(e: Event)
      requires Valid() && Enabled(state, e) && (e.Finish? || e.Abort?)
      modifies this`events, this`state
      ensures Valid() && old(events) <= events && state.task == Asleep && RoundWork(events) == old(RoundWork(events))
    {
      Emit(e);
    }
  }

  /** Whether the session can read the delivery and its message, and commit the outcome. */
  datatype Luck = Luck(readable: bool, commits: bool)

  /** Nothing fails at the deliveries the list does not mention. */
  function LuckAt(luck: seq<Luck>, at: nat): Luck { if at < |luck| then luck[at] else Luck(true, true) }

  /** How a round ends: the list is worked off, nothing is due or no webhook is set, or an exception. */
  datatype RoundEnd = Finished | Deferred | Aborted

  lemma AttemptsStep(work: seq<Work>, w: Work)
    ensures Attempts(work + [w]) == Attempts(work) + if w.Attempted? then 1 else 0
  {
    assert (work + [w])[..|work|] == work;
  }

  lemma WorkedSoFar(store: Store, due: seq<Id>, at: nat)
    requires store.Valid() && store.state.task.Round? && store.state.task.due == due
             && store.state.task.at == at <= |due|
    ensures Ids(RoundWork(store.events)) == due[..at] && |RoundWork(store.events)| == at
  {
    RoundWorksThroughItsList(store.events);
    assert |Ids(RoundWork(store.events))| == |RoundWork(store.events)|;
  }

  /** One delivery of the round: None when an exception escapes, else whether an attempt was made. */
  method Attempt(store: Store, due: seq<Id>, at: nat, luck: Luck) returns (outcome: Option<bool>)
    requires store.Valid() && store.state.task.Round? && store.state.task.due == due
             && store.state.task.at == at < |due|
    modifies store
    ensures store.Valid() && old(store.events) <= store.events
    ensures outcome.Some? ==>
              && store.state.task == Round(due, at + 1, old(store.state).task.since)
              && RoundWork(store.events)
                 == old(RoundWork(store.events)) + [if outcome.value then Attempted(due[at]) else Orphaned(due[at])]
              && luck.readable && luck.commits
    ensures outcome == None ==>
              && RoundWork(store.events) == old(RoundWork(store.events))
              && !store.state.task.Asleep? && (luck != Luck(true, true) || due[at] !in store.deliveries)
  {
    hide IsRun, StateAfter, IsDueList, RoundWork;
    var id := due[at];
    assert id in store.used;
    var before: seq<Step>, after: seq<Step> := *, *;
    store.Interfere(before);
    if !luck.readable || id !in store.deliveries {
      return None;
    }
    if store.deliveries[id].messageId !in store.messages {
      if luck.commits {
        store.CommitOrphan(id);
        return Some(false);
      }
      return None;
    }
    var success, code := store.SendRequest(id);
    store.Interfere(after);
    if !luck.commits || id !in store.deliveries {
      return None;
    }
    store.CommitOutcome(id, success, code);
    return Some(true);
  }

  /** One round over the deliveries due now; `luck` says what fails. A round that ends early has worked
      through its list up to a delivery at which something failed or which was purged; any other has attempted
      or failed every delivery it loaded, and `processed` counts the attempts. */
  method ProcessDueDeliveries(store: Store, luck: seq<Luck>) returns (processed: nat, end: RoundEnd, ghost due: seq<Id>)
    requires store.Valid() && store.state.task.Asleep?
    modifies store
    ensures store.Valid() && old(store.events) <= store.events && store.state.task.Asleep?
    ensures exists now: real :: old(store.clock) <= now && IsDueList(old(store.deliveries), Iso(now), due)
    ensures processed == Attempts(RoundWork(store.events))
    ensures end == Finished ==> Ids(RoundWork(store.events)) == due
    ensures end == Deferred ==> processed == 0 && (due == [] || store.webhookUrl == "" || store.webhookSecret == "")
    ensures end == Aborted ==>
              var k := |RoundWork(store.events)|;
              && k < |due| && Ids(RoundWork(store.events)) == due[..k]
              && ((k < |luck| && luck[k] != Luck(true, true)) || due[k] !in store.deliveries)
    ensures end != Deferred ==>
              forall k | 0 <= k < |RoundWork(store.events)| && k < |luck| :: luck[k].readable && luck[k].commits
  {
    hide IsRun, StateAfter, Inv, IsDueList, RoundWork;
    processed := 0;
    var loaded := store.LoadDue();
    due := loaded;
    ghost var since := store.state.task.since;
    assert IsDueList(old(store.deliveries), Iso(since), due);
    if |loaded| == 0 || store.webhookUrl == "" || store.webhookSecret == "" {
      store.RecordEnd(Abort(None));
      return processed, Deferred, due;
    }
    var at := 0;
    while at < |loaded|
      invariant store.Valid() && old(store.events) <= store.events
      invariant at <= |loaded| && store.state.task == Round(loaded, at, since)
      invariant processed == Attempts(RoundWork(store.events))
      invariant forall k | 0 <= k < at && k < |luck| :: luck[k].readable && luck[k].commits
    {
      ghost var work := RoundWork(store.events);
      WorkedSoFar(store, loaded, at);
      var outcome := Attempt(store, loaded, at, LuckAt(luck, at));
      if outcome == None {
        store.RecordEnd(Abort(InFlight(store.state.task)));
        return processed, Aborted, due;
      }
      AttemptsStep(work, if outcome.value then Attempted(loaded[at]) else Orphaned(loaded[at]));
      processed := processed + if outcome.value then 1 else 0;
      at := at + 1;
    }
    WorkedSoFar(store, loaded, at);
    assert loaded[..at] == loaded;
    store.RecordEnd(Finish);
    end := Finished;
  }

  /** `dispatcher_loop` for any number of rounds, whatever fails in each: a broken round never ends the
      loop. */
  method DispatcherLoop(store: Store, rounds: seq<seq<Luck>>)
    requires store.Valid() && store.state.task.Asleep?
    modifies store
    ensures store.Valid() && old(store.events) <= store.events && store.state.task.Asleep?
  {
    hide IsRun, StateAfter, Inv;
    var round := 0;
    while round < |rounds|
      invariant round <= |rounds|
      invariant store.Valid() && old(store.events) <= store.events && store.state.task.Asleep?
    {
      var steps: seq<Step> := *;
      store.Interfere(steps);
      var processed, end, due := ProcessDueDeliveries(store, rounds[round]);
      round := round + 1;
    }
  }
}
