/** What holds over every run of the store-and-forward machine. */
module PipelineTheorems {
  import opened Common
  import opened Messages
  import opened Pipeline
  import opened PipelineInvariant
  import Inbox
  import S = Sending

  // ---- at most one message is in flight ----

  /** At every committed state at most one outbound row is `sending`, and none is whenever the
      outbox is about to be processed or a pass stands between two messages. */
  lemma OneInFlight(cfg: Config, es: seq<Event>)
    requires cfg.perMinute >= 1 && IsRun(cfg, es)
    ensures var s := StateAfter(cfg, es);
            && (forall a, b | a in Stuck(s.db) && b in Stuck(s.db) :: a == b)
            && (s.worker == Idle(true) || s.worker.Pass? || s.worker.Charged? || s.worker.Receiving? ==>
                  Stuck(s.db) == {})
  {
    RunsKeepInv(cfg, es);
  }

  // ---- the life of a row ----

  /** What a message is, apart from how far it has come. */
  datatype Ticket = Ticket(direction: Direction, msisdn: string, body: string, createdAt: int)

  function TicketOf(row: Row): Ticket { Ticket(row.direction, row.msisdn, row.body, row.createdAt) }

  /** The status machine; everything else about a row that can change changes along with it. */
  predicate Edge(a: Row, b: Row) {
    && TicketOf(a) == TicketOf(b)
    && match (a.status, b.status)
       case (Queued, Sending) => b == a.(status := Sending)
       case (Sending, Queued) => b == a.(status := Queued)
       case (Sending, Sent) => b.sentAt.Some? && b.error == a.error
       case (Sending, Failed) => b.error.Some? && b.sentAt == a.sentAt && b.modemRef == a.modemRef
       case (Sent, Delivered) => b.deliveredAt.Some? && b == a.(status := Delivered, deliveredAt := b.deliveredAt)
       case _ => false
  }

  lemma RowStepInPass(cfg: Config, s: State, e: Event, id: Id)
    requires Inv(cfg, s) && Enabled(s, e) && (e.MarkSending? || e.Settle?) && id in s.db
    ensures var db' := Next(cfg, s, e).db;
            id in db' && (db'[id] == s.db[id] || (id == s.worker.queue[s.worker.at] && Edge(s.db[id], db'[id])))
  {
    var w := s.worker;
    assert RowAt(w, w.at, s.db[w.queue[w.at]]);
  }

  lemma RowStep(cfg: Config, s: State, e: Event, id: Id)
    requires Inv(cfg, s) && Enabled(s, e) && id in s.db && id in Next(cfg, s, e).db
    ensures Next(cfg, s, e).db[id] == s.db[id] || Edge(s.db[id], Next(cfg, s, e).db[id])
  {
    if e.Receive? {
      InsertTextsAdds(s.db, e.newIds, e.texts, e.createdAt);
    } else if e.Deliver? {
      DeliverRow(s.db, e.reports, e.picks, id);
    } else if e.MarkSending? || e.Settle? {
      RowStepInPass(cfg, s, e, id);
    }
  }

  lemma KeysStep(cfg: Config, s: State, e: Event)
    requires Inv(cfg, s) && Enabled(s, e) && !e.Enqueue? && !e.Purge? && !e.Receive?
    ensures Next(cfg, s, e).db.Keys == s.db.Keys
  {
    if e.Deliver? {
      ReportsFlipOnce(s.db, e.reports, e.picks);
    }
  }

  /** An id that has been given out is never given to another message. */
  lemma NoRebirth(cfg: Config, s: State, e: Event, id: Id)
    requires Inv(cfg, s) && Enabled(s, e) && id in s.used && id !in s.db
    ensures id !in Next(cfg, s, e).db
  {
    if e.Receive? {
      InsertTextsAdds(s.db, e.newIds, e.texts, e.createdAt);
    } else if !e.Enqueue? && !e.Purge? {
      KeysStep(cfg, s, e);
    }
  }

  /** `failed` and `delivered` are terminal: such a row stays as it is until it is purged. */
  lemma {:induction false} TerminalStays(cfg: Config, es: seq<Event>, k: nat, id: Id)
    requires cfg.perMinute >= 1 && IsRun(cfg, es) && k <= |es|
    requires var db := StateAfter(cfg, es[..k]).db;
             id in db && (db[id].status == Messages.Failed || db[id].status == Delivered)
    ensures var db, db' := StateAfter(cfg, es[..k]).db, StateAfter(cfg, es).db;
            (id in db' ==> db'[id] == db[id]) && id in StateAfter(cfg, es).used
  {
    if k == |es| {
      assert es[..k] == es;
      RunsKeepInv(cfg, es);
    } else {
      var front, e := es[..|es| - 1], es[|es| - 1];
      assert front[..k] == es[..k];
      TerminalStays(cfg, front, k, id);
      RunsKeepInv(cfg, front);
      var s := StateAfter(cfg, front);
      if id in s.db && id in Next(cfg, s, e).db {
        RowStep(cfg, s, e, id);
      } else if id !in s.db {
        NoRebirth(cfg, s, e, id);
      }
    }
  }

  // ---- nothing is lost ----

  function AddTexts(m: map<Id, Ticket>, ids: seq<Id>, texts: seq<Inbox.Event>, createdAt: int): map<Id, Ticket>
    decreases ids
  {
    if |ids| == 0 || |texts| == 0 || !texts[0].Text? then m
    else AddTexts(m[ids[0] := Ticket(Inbound, texts[0].msisdn, texts[0].body, createdAt)], ids[1..], texts[1..],
                  createdAt)
  }

  /** The messages a run was given and has not been told to purge, read off the events alone. */
  function Alive(es: seq<Event>): map<Id, Ticket> {
    if |es| == 0 then map[] else
      var m := Alive(es[..|es| - 1]);
      match es[|es| - 1]
      case Enqueue(id, msisdn, body, createdAt) => m[id := Ticket(Outbound, msisdn, body, createdAt)]
      case Receive(ids, texts, createdAt) => AddTexts(m, ids, texts, createdAt)
      case Purge(cutoff) => map id | id in m && m[id].createdAt >= cutoff :: m[id]
      case _ => m
  }

  function Tickets(db: Table): map<Id, Ticket> { map id | id in db :: TicketOf(db[id]) }

  lemma {:induction false} InsertTextsTickets(db: Table, ids: seq<Id>, texts: seq<Inbox.Event>, createdAt: int)
    ensures Tickets(InsertTexts(db, ids, texts, createdAt)) == AddTexts(Tickets(db), ids, texts, createdAt)
    decreases ids
  {
    if !(|ids| == 0 || |texts| == 0 || !texts[0].Text?) {
      var row := NewInbound(texts[0].msisdn, texts[0].body, texts[0].segments, createdAt);
      assert Tickets(db[ids[0] := row]) == Tickets(db)[ids[0] := TicketOf(row)];
      InsertTextsTickets(db[ids[0] := row], ids[1..], texts[1..], createdAt);
    }
  }

  lemma TicketsStepApi(cfg: Config, s: State, e: Event)
    requires Inv(cfg, s) && Enabled(s, e) && (e.Enqueue? || e.Purge? || e.Receive?)
    ensures var db' := Next(cfg, s, e).db;
            match e
            case Enqueue(id, msisdn, body, createdAt) =>
              Tickets(db') == Tickets(s.db)[id := Ticket(Outbound, msisdn, body, createdAt)]
            case Receive(ids, texts, createdAt) => Tickets(db') == AddTexts(Tickets(s.db), ids, texts, createdAt)
            case Purge(cutoff) =>
              Tickets(db') == map id | id in Tickets(s.db) && Tickets(s.db)[id].createdAt >= cutoff :: Tickets(s.db)[id]
            case _ => true
  {
    if e.Receive? {
      InsertTextsTickets(s.db, e.newIds, e.texts, e.createdAt);
    }
  }

  lemma TicketsStepWorker(cfg: Config, s: State, e: Event)
    requires Inv(cfg, s) && Enabled(s, e) && !e.Enqueue? && !e.Purge? && !e.Receive?
    ensures Tickets(Next(cfg, s, e).db) == Tickets(s.db)
  {
    KeysStep(cfg, s, e);
    forall id | id in s.db ensures TicketOf(Next(cfg, s, e).db[id]) == TicketOf(s.db[id]) {
      RowStep(cfg, s, e, id);
    }
  }

  /** Nothing lost, nothing invented: after any run the table holds exactly the messages that were
      enqueued or received and not purged, with recipient, text and creation time as given. */
  lemma {:induction false} NothingIsLost(cfg: Config, es: seq<Event>)
    requires cfg.perMinute >= 1 && IsRun(cfg, es)
    ensures Tickets(StateAfter(cfg, es).db) == Alive(es)
  {
    if |es| > 0 {
      var front := es[..|es| - 1];
      NothingIsLost(cfg, front);
      RunsKeepInv(cfg, front);
      var s, e := StateAfter(cfg, front), es[|es| - 1];
      if e.Enqueue? || e.Purge? || e.Receive? {
        TicketsStepApi(cfg, s, e);
      } else {
        TicketsStepWorker(cfg, s, e);
      }
    }
  }

  // ---- how often a part goes out ----

  function PartCount(es: seq<Event>, id: Id, part: nat): nat {
    if |es| == 0 then 0 else
      PartCount(es[..|es| - 1], id, part) + if es[|es| - 1] == Accept(id, part) then 1 else 0
  }

  predicate Recovers(e: Event, id: Id) {
    (e.BootRecover? || e.Recover?) && id in e.ids
  }

  function Recoveries(es: seq<Event>, id: Id): nat {
    if |es| == 0 then 0 else
      Recoveries(es[..|es| - 1], id) + if Recovers(es[|es| - 1], id) then 1 else 0
  }

  /** How far the part may be ahead of the recoveries at this point. */
  function Allowance(s: State, id: Id, part: nat): nat {
    var w := s.worker;
    if id !in s.used then 0
    else if w.Flight? && w.at < |w.queue| && w.queue[w.at] == id then (if w.done > part then 1 else 0)
    else if w.Landed? && w.at < |w.queue| && w.queue[w.at] == id then
      (if w.outcome == S.Failed(S.ConnectionError) then 0 else 1)
    else if id in s.db && IsQueued(s.db[id]) then 0
    else 1
  }

  lemma AllowanceStepInPass(cfg: Config, s: State, e: Event, id: Id, part: nat)
    requires Inv(cfg, s) && Enabled(s, e) && (e.MarkSending? || e.Accept? || e.Return? || e.RefreshFails? || e.Settle?)
    ensures (if e == Accept(id, part) then 1 else 0) + Allowance(s, id, part) <= Allowance(Next(cfg, s, e), id, part)
  {
    var w := s.worker;
    if e.MarkSending? {
      assert RowAt(w, w.at, s.db[e.id]);
    } else if w.Flight? {
      FlightLog(w.script, w.n, s.link);
    }
  }

  lemma AllowanceStep(cfg: Config, s: State, e: Event, id: Id, part: nat)
    requires Inv(cfg, s) && Enabled(s, e)
    ensures (if e == Accept(id, part) then 1 else 0) + Allowance(s, id, part)
            <= (if Recovers(e, id) then 1 else 0) + Allowance(Next(cfg, s, e), id, part)
  {
    if e.MarkSending? || e.Accept? || e.Return? || e.RefreshFails? || e.Settle? {
      AllowanceStepInPass(cfg, s, e, id, part);
    } else if e.Receive? {
      InsertTextsAdds(s.db, e.newIds, e.texts, e.createdAt);
    } else if e.Deliver? {
      ReportsFlipOnce(s.db, e.reports, e.picks);
      if id in s.db {
        DeliverRow(s.db, e.reports, e.picks, id);
      }
    }
  }

  lemma {:induction false} PartsWithinAllowance(cfg: Config, es: seq<Event>, id: Id, part: nat)
    requires cfg.perMinute >= 1 && IsRun(cfg, es)
    ensures PartCount(es, id, part) <= Recoveries(es, id) + Allowance(StateAfter(cfg, es), id, part)
  {
    if |es| > 0 {
      var front := es[..|es| - 1];
      PartsWithinAllowance(cfg, front, id, part);
      RunsKeepInv(cfg, front);
      AllowanceStep(cfg, StateAfter(cfg, front), es[|es| - 1], id, part);
    }
  }

  /** Bounded duplication: over any run the modem accepts a given part of a message at most once
      more often than the message was recovered from an interrupted send - so at most once when it
      never was, whatever else failed. */
  lemma BoundedDuplication(cfg: Config, es: seq<Event>, id: Id, part: nat)
    requires cfg.perMinute >= 1 && IsRun(cfg, es)
    ensures PartCount(es, id, part) <= 1 + Recoveries(es, id)
  {
    PartsWithinAllowance(cfg, es, id, part);
  }

  // ---- sent means sent ----

  ghost predicate PartsOut(es: seq<Event>, id: Id, n: nat) {
    forall part | 0 <= part < n :: PartCount(es, id, part) >= 1
  }

  ghost predicate SentOk(es: seq<Event>, s: State) {
    && (forall id | id in s.db && (s.db[id].status == Sent || s.db[id].status == Delivered) ::
          PartsOut(es, id, s.db[id].segments))
    && match s.worker
       case Flight(queue, at, _, _, done) => at < |queue| && PartsOut(es, queue[at], done)
       case Landed(queue, at, n, o) => at < |queue| && (o.Done? ==> PartsOut(es, queue[at], n))
       case _ => true
  }

  lemma PartsOutGrows(es: seq<Event>, e: Event, id: Id, n: nat)
    requires PartsOut(es, id, n)
    ensures PartsOut(es + [e], id, n)
    ensures e == Accept(id, n) ==> PartsOut(es + [e], id, n + 1)
  {
    assert (es + [e])[..|es|] == es;
  }

  lemma NewRowStep(cfg: Config, s: State, e: Event, id: Id)
    requires Inv(cfg, s) && Enabled(s, e) && id !in s.db && id in Next(cfg, s, e).db
    ensures var row := Next(cfg, s, e).db[id]; row.status == Queued || row.status == Received
  {
    if e.Receive? {
      InsertTextsAdds(s.db, e.newIds, e.texts, e.createdAt);
      var i :| 0 <= i < |e.newIds| && e.newIds[i] == id;
    } else if !e.Enqueue? && !e.Purge? {
      KeysStep(cfg, s, e);
    }
  }

  lemma SentBySettle(cfg: Config, s: State, e: Event, id: Id)
    requires Inv(cfg, s) && Enabled(s, e) && id in s.db && id in Next(cfg, s, e).db
    requires s.db[id].status != Sent && s.db[id].status != Delivered
    requires var row := Next(cfg, s, e).db[id]; row.status == Sent || row.status == Delivered
    ensures e.Settle? && s.worker.Landed? && s.worker.at < |s.worker.queue| && id == s.worker.queue[s.worker.at]
    ensures s.worker.outcome.Done? && Next(cfg, s, e).db[id].segments == s.worker.n
  {
    RowStep(cfg, s, e, id);
    if e.Receive? {
      InsertTextsAdds(s.db, e.newIds, e.texts, e.createdAt);
    } else if e.Deliver? {
      DeliverRow(s.db, e.reports, e.picks, id);
    }
  }

  lemma SentRowStep(cfg: Config, es: seq<Event>, s: State, e: Event, id: Id)
    requires Inv(cfg, s) && Enabled(s, e) && SentOk(es, s) && id in Next(cfg, s, e).db
    requires var row := Next(cfg, s, e).db[id]; row.status == Sent || row.status == Delivered
    ensures PartsOut(es + [e], id, Next(cfg, s, e).db[id].segments)
  {
    if id !in s.db {
      NewRowStep(cfg, s, e, id);
    } else if s.db[id].status == Sent || s.db[id].status == Delivered {
      PartsOutGrows(es, e, id, s.db[id].segments);
      RowStep(cfg, s, e, id);
    } else {
      SentBySettle(cfg, s, e, id);
      PartsOutGrows(es, e, id, s.worker.n);
    }
  }

  lemma SentStep(cfg: Config, es: seq<Event>, s: State, e: Event)
    requires Inv(cfg, s) && Enabled(s, e) && SentOk(es, s)
    ensures SentOk(es + [e], Next(cfg, s, e))
  {
    var s', w := Next(cfg, s, e), s.worker;
    if w.Flight? {
      FlightLog(w.script, w.n, s.link);
      PartsOutGrows(es, e, w.queue[w.at], w.done);
    } else if w.Landed? && w.outcome.Done? {
      PartsOutGrows(es, e, w.queue[w.at], w.n);
    }
    forall id | id in s'.db && (s'.db[id].status == Sent || s'.db[id].status == Delivered)
      ensures PartsOut(es + [e], id, s'.db[id].segments)
    {
      SentRowStep(cfg, es, s, e, id);
    }
  }

  lemma {:induction false} RunsKeepSentOk(cfg: Config, es: seq<Event>)
    requires cfg.perMinute >= 1 && IsRun(cfg, es)
    ensures SentOk(es, StateAfter(cfg, es))
  {
    if |es| > 0 {
      var front := es[..|es| - 1];
      RunsKeepSentOk(cfg, front);
      RunsKeepInv(cfg, front);
      SentStep(cfg, front, StateAfter(cfg, front), es[|es| - 1]);
      assert front + [es[|es| - 1]] == es;
    }
  }

  /** `sent` and `delivered` mean it: the modem has accepted every one of the row's segments. */
  lemma SentMeansAccepted(cfg: Config, es: seq<Event>, id: Id, part: nat)
    requires cfg.perMinute >= 1 && IsRun(cfg, es)
    requires var db := StateAfter(cfg, es).db;
             id in db && (db[id].status == Sent || db[id].status == Delivered) && part < db[id].segments
    ensures PartCount(es, id, part) >= 1
  {
    RunsKeepSentOk(cfg, es);
  }
}
