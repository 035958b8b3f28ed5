/** The gateway as a store-and-forward system: the committed `messages` table, one worker process
    at a program point of `run`, and everything that can happen next. The API enqueues and purges at
    any time; the process can be killed at any time; any commit or modem command can fail and send
    the worker back to the reconnect branch of its loop.

    A run is a sequence of events. `Next` says what an event does, `Enabled` when it can happen; all
    counts in the theorems are read off the events, not off the state. */
module Pipeline {
  import opened Common
  import opened Messages
  import Inbox
  import Segments
  import S = Sending
  import T = Throttle

  /** initial attempt + 2 automatic retries */
  const MAX_SEND_ATTEMPTS: nat := 3

  datatype Config = Config(perMinute: nat)

  // ---- state ----

  /** Program points of the worker. Outbox points carry the list the pass loaded and the position
      of the message at hand. */
  datatype Worker =
    | Down
    | Booting                                   // before the start-up recovery has committed
    | Idle(connected: bool)                     // loop head
    | Opened                                    // connected, recovery not yet committed
    | Pass(queue: seq<Id>, at: nat)             // about to visit queue[at]
    | Charged(queue: seq<Id>, at: nat, cost: nat) // tokens taken, 'sending' not committed
    | Flight(queue: seq<Id>, at: nat, script: S.Script, n: nat, done: nat)
                                                // 'sending' committed; the modem has taken `done` parts
    | Landed(queue: seq<Id>, at: nat, n: nat, outcome: S.Outcome)
                                                // driver returned, result not committed
    | Receiving                                 // outbox done

  /** `used` holds every id ever given out; `link` is whether the driver holds a StateMachine. */
  datatype State = State(db: Table, used: set<Id>, worker: Worker, link: bool, bucket: T.Level)

  function Init(cfg: Config): State {
    State(map[], {}, Down, false, T.Full(cfg.perMinute, 0.0))
  }

  // ---- events ----

  datatype Event =
    | Enqueue(id: Id, msisdn: string, body: string, createdAt: int)  // post_message, chat_send, send_test_sms
    | Purge(cutoff: int)                                             // purge_messages
    | Start                                                          // the process is started
    | Crash                                                          // killed, or exits
    | BootRecover(ids: set<Id>, now: real)                           // recovery commits; the bucket is created
    | Connect                                                        // driver.connect() returns
    | Recover(ids: set<Id>)                                          // recovery commits after a reconnect
    | Fault(dropped: bool)                                           // an exception reaches the handler in run
    | Snapshot(queue: seq<Id>)                                       // process_outbox loads the queue
    | Deny(now: real, cost: nat)                                     // the bucket refuses: break
    | Charge(now: real, cost: nat)                                   // the bucket grants
    | MarkSending(id: Id, script: S.Script, n: nat)                  // 'sending' commits; n parts, answers to come
    | RefreshFails                                                   // reloading the row fails before the driver call
    | Accept(id: Id, part: nat)                                      // the modem takes one part
    | Return                                                         // the driver call ends
    | Settle(time: int, text: string)                                // the outcome commits
    | EndPass                                                        // the queue is exhausted
    | Receive(newIds: seq<Id>, texts: seq<Inbox.Event>, createdAt: int) // inbound texts commit
    | Deliver(reports: seq<Inbox.Event>, picks: seq<Option<Id>>)     // delivery reports commit
    | Poll                                                           // status written; next iteration

  /** The whole send the driver is in the middle of: three attempts over the answers to come. */
  function FlightEnd(script: S.Script, n: nat, link: bool): (S.Link, S.Outcome) {
    var (k, o, _) := S.SendWithRetries(script, S.Link(link, 0, []), n, MAX_SEND_ATTEMPTS);
    (k, o)
  }

  /** A flight is at most three driver calls, and three when the last of them ended in a modem error or an
      unclassified exception; only these two are tried again. */
  lemma ThreeAttempts(script: S.Script, n: nat, link: bool) returns (links: seq<S.Link>, outcomes: seq<S.Outcome>)
    ensures 1 <= |outcomes| <= 3 && |links| == |outcomes| + 1 && links[0] == S.Link(link, 0, [])
    ensures FlightEnd(script, n, link) == (links[|outcomes|], outcomes[|outcomes| - 1])
    ensures forall i | 0 <= i < |outcomes| :: (links[i + 1], outcomes[i]) == S.SendSms(script, links[i], n)
    ensures forall i | 0 <= i < |outcomes| - 1 ::
              outcomes[i] == S.Failed(S.ModemFailure) || outcomes[i] == S.Failed(S.Unclassified)
    ensures var last := outcomes[|outcomes| - 1];
            |outcomes| < 3 ==> last.Done? || last == S.Failed(S.ConnectionError) || last == S.Failed(S.PartialSend)
  {
    hide S.SendSms;
    links, outcomes := S.RetriesExplained(script, S.Link(link, 0, []), n, MAX_SEND_ATTEMPTS);
  }

  predicate InPass(w: Worker) { w.Pass? || w.Charged? || w.Flight? || w.Landed? }

  ghost predicate FreshTexts(s: State, ids: seq<Id>, texts: seq<Inbox.Event>) {
    && |ids| == |texts|
    && (forall i | 0 <= i < |ids| :: ids[i] !in s.used && texts[i].Text?)
    && (forall i, j | 0 <= i < j < |ids| :: ids[i] != ids[j])
  }

  /** The attributes of a row that is gone may still be those loaded before. */
  ghost predicate CanTake(s: State, now: real, cost: nat) {
    var w := s.worker;
    && w.Pass? && w.at < |w.queue| && s.bucket.last <= now && 1 <= cost <= Segments.MAX_SEGMENTS
    && (w.queue[w.at] in s.db ==> cost == Cost(s.db[w.queue[w.at]]))
  }

  ghost predicate Enabled(s: State, e: Event) {
    var w := s.worker;
    match e
    case Enqueue(id, _, body, _) => id !in s.used && body != "" && !Segments.BodyTooLong(body)
    case Purge(_) => true
    case Start => w.Down?
    case Crash => !w.Down?
    case BootRecover(ids, _) => w.Booting? && ids == Stuck(s.db)
    case Connect => w == Idle(false)
    case Recover(ids) => w.Opened? && ids == Stuck(s.db)
    case Fault(_) => !w.Down? && !w.Booting?
    case Snapshot(queue) => w == Idle(true) && IsOutbox(s.db, queue)
    case Deny(now, cost) => CanTake(s, now, cost) && !s.bucket.TryTake(now, cost).1
    case Charge(now, cost) => CanTake(s, now, cost) && s.bucket.TryTake(now, cost).1
    case MarkSending(id, script, _) =>
      w.Charged? && w.at < |w.queue| && id == w.queue[w.at] && id in s.db && S.Courteous(script)
    case RefreshFails => w.Flight? && w.done == 0
    case Accept(id, part) =>
      w.Flight? && w.at < |w.queue| && id == w.queue[w.at] &&
      var log := FlightEnd(w.script, w.n, s.link).0.log;
      w.done < |log| && part == log[w.done].part
    case Return => w.Flight? && w.done == |FlightEnd(w.script, w.n, s.link).0.log|
    case Settle(_, text) => w.Landed? && w.at < |w.queue| && w.queue[w.at] in s.db && text != ""
    case EndPass => w.Pass? && w.at == |w.queue|
    case Receive(ids, texts, _) => w.Receiving? && FreshTexts(s, ids, texts)
    case Deliver(reports, picks) => w.Receiving? && AllReports(reports) && ValidPicks(s.db, reports, picks)
    case Poll => w.Receiving?
  }

  function SettleRow(row: Row, o: S.Outcome, time: int, text: string): Row {
    match o
    case Done(segments, reference) =>
      row.(status := Sent, sentAt := Some(time), segments := segments, modemRef := reference)
    case Failed(ConnectionError) => row.(status := Queued)
    case Failed(_) => row.(status := Messages.Failed, error := Some(text))
  }

  function InsertTexts(db: Table, ids: seq<Id>, texts: seq<Inbox.Event>, createdAt: int): Table
    decreases ids
  {
    if |ids| == 0 || |texts| == 0 || !texts[0].Text? then db
    else InsertTexts(db[ids[0] := NewInbound(texts[0].msisdn, texts[0].body, texts[0].segments, createdAt)],
                     ids[1..], texts[1..], createdAt)
  }

  function Next(cfg: Config, s: State, e: Event): State {
    var w := s.worker;
    match e
    case Enqueue(id, msisdn, body, createdAt) =>
      s.(db := s.db[id := NewOutbound(msisdn, body, Segments.CountSegments(body), createdAt)], used := s.used + {id})
    case Purge(cutoff) => s.(db := PurgeBefore(s.db, cutoff))
    case Start => s.(worker := Booting)
    case Crash => s.(worker := Down, link := false)
    case BootRecover(ids, now) =>
      s.(db := Requeue(s.db, ids), worker := Idle(false), bucket := T.Full(cfg.perMinute, now))
    case Connect => s.(worker := Opened, link := true)
    case Recover(ids) => s.(db := Requeue(s.db, ids), worker := Idle(true))
    case Fault(dropped) => s.(worker := Idle(false), link := s.link && !dropped)
    case Snapshot(queue) => s.(worker := Pass(queue, 0))
    case Deny(now, cost) => s.(worker := Receiving, bucket := s.bucket.TryTake(now, cost).0)
    case Charge(now, cost) =>
      if w.Pass? then s.(worker := Charged(w.queue, w.at, cost), bucket := s.bucket.TryTake(now, cost).0) else s
    case MarkSending(id, script, n) =>
      if w.Charged? && id in s.db then
        s.(db := s.db[id := s.db[id].(status := Sending)], worker := Flight(w.queue, w.at, script, n, 0))
      else s
    case RefreshFails => if w.Flight? then s.(worker := Landed(w.queue, w.at, w.n, S.Failed(S.Unclassified))) else s
    case Accept(_, _) => if w.Flight? then s.(worker := w.(done := w.done + 1)) else s
    case Return =>
      if w.Flight? then
        var (k, o) := FlightEnd(w.script, w.n, s.link);
        s.(worker := Landed(w.queue, w.at, w.n, o), link := k.up)
      else s
    case Settle(time, text) =>
      if w.Landed? && w.at < |w.queue| && w.queue[w.at] in s.db then
        var id := w.queue[w.at];
        s.(db := s.db[id := SettleRow(s.db[id], w.outcome, time, text)],
           worker := if w.outcome == S.Failed(S.ConnectionError) then Idle(false) else Pass(w.queue, w.at + 1))
      else s
    case EndPass => s.(worker := Receiving)
    case Receive(ids, texts, createdAt) =>
      s.(db := InsertTexts(s.db, ids, texts, createdAt), used := s.used + IdSet(ids))
    case Deliver(reports, picks) =>
      if AllReports(reports) then s.(db := ApplyReports(s.db, reports, picks)) else s
    case Poll => s.(worker := Idle(true))
  }

  // ---- runs ----

  function StateAfter(cfg: Config, es: seq<Event>): State {
    if |es| == 0 then Init(cfg) else Next(cfg, StateAfter(cfg, es[..|es| - 1]), es[|es| - 1])
  }

  ghost predicate IsRun(cfg: Config, es: seq<Event>) {
    |es| == 0 ||
    (IsRun(cfg, es[..|es| - 1]) && Enabled(StateAfter(cfg, es[..|es| - 1]), es[|es| - 1]))
  }

  lemma RunSnoc(cfg: Config, es: seq<Event>, e: Event)
    requires IsRun(cfg, es) && Enabled(StateAfter(cfg, es), e)
    ensures IsRun(cfg, es + [e])
    ensures StateAfter(cfg, es + [e]) == Next(cfg, StateAfter(cfg, es), e)
  {
    assert (es + [e])[..|es|] == es;
  }

  lemma {:induction false} RunPrefix(cfg: Config, es: seq<Event>, k: nat)
    requires IsRun(cfg, es) && k <= |es|
    ensures IsRun(cfg, es[..k])
  {
    if k < |es| {
      RunPrefix(cfg, es[..|es| - 1], k);
      assert es[..|es| - 1][..k] == es[..k];
    } else {
      assert es[..k] == es;
    }
  }

  // ---- the invariant ----

  ghost predicate RowsOk(s: State) {
    && s.db.Keys <= s.used
    && AllConsistent(s.db)
    && forall id | id in s.db && (IsQueued(s.db[id]) || IsStuck(s.db[id])) ::
         1 <= s.db[id].segments <= Segments.MAX_SEGMENTS
  }

  /** Nothing but the message at hand is ever `sending`, and at the points where no send is under
      way nothing is. */
  ghost predicate StuckOk(s: State) {
    match s.worker
    case Idle(true) => Stuck(s.db) == {}
    case Receiving => Stuck(s.db) == {}
    case Pass(_, _) => Stuck(s.db) == {}
    case Charged(_, _, _) => Stuck(s.db) == {}
    case Flight(queue, at, _, _, _) => at < |queue| && Stuck(s.db) <= {queue[at]}
    case Landed(queue, at, _, _) => at < |queue| && Stuck(s.db) <= {queue[at]}
    case _ => forall a, b | a in Stuck(s.db) && b in Stuck(s.db) :: a == b
  }

  predicate Settled(row: Row) { row.status == Sent || row.status == Messages.Failed }

  predicate RowAt(w: Worker, i: nat, row: Row)
    requires InPass(w)
  {
    && row.direction == Outbound
    && if i < w.at then Settled(row)
       else if i == w.at && (w.Flight? || w.Landed?) then row.status == Sending
       else row.status == Queued
  }

  /** The pass so far: messages before the position are settled, the one in flight is `sending`,
      the rest is still queued - unless purged. */
  ghost predicate QueueOk(s: State) {
    var w := s.worker;
    InPass(w) ==>
      && w.at <= |w.queue|
      && (!w.Pass? ==> w.at < |w.queue|)
      && (forall i | 0 <= i < |w.queue| :: w.queue[i] in s.used)
      && (forall i, j | 0 <= i < j < |w.queue| :: w.queue[i] != w.queue[j])
      && (forall i | 0 <= i < |w.queue| && w.queue[i] in s.db :: RowAt(w, i, s.db[w.queue[i]]))
  }

  ghost predicate FlightOk(s: State) {
    match s.worker
    case Flight(_, _, script, n, done) =>
      S.Courteous(script) && done <= |FlightEnd(script, n, s.link).0.log| <= n
    case Landed(_, _, n, o) => o.Done? ==> o.segments == n
    case Charged(queue, at, cost) =>
      at < |queue| && (queue[at] in s.db ==> cost == Cost(s.db[queue[at]]))
    case _ => true
  }

  ghost predicate Inv(cfg: Config, s: State) {
    && s.bucket.perMinute == cfg.perMinute
    && s.bucket.Valid(Segments.MAX_SEGMENTS)
    && RowsOk(s) && StuckOk(s) && QueueOk(s) && FlightOk(s)
  }
}
