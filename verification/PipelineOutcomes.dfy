/** What `failed` and `queued` say about the modem: the complement of `SentMeansAccepted`. */
module PipelineOutcomes {
  import opened Common
  import opened Messages
  import opened Pipeline
  import opened PipelineInvariant
  import opened PipelineTheorems
  import opened PipelineOrder
  import Segments
  import S = Sending

  /** How far the last part of a message may be ahead of the recoveries at this point. Unlike any
      other part it has not gone out when the driver call failed or the row is `failed`. */
  function LastAllowance(s: State, id: Id, last: nat): nat {
    var w := s.worker;
    if id !in s.used then 0
    else if w.Flight? && w.at < |w.queue| && w.queue[w.at] == id then (if w.done > last then 1 else 0)
    else if w.Landed? && w.at < |w.queue| && w.queue[w.at] == id then (if w.outcome.Done? then 1 else 0)
    else if id in s.db && (IsQueued(s.db[id]) || s.db[id].status == Messages.Failed) then 0
    else 1
  }

  /** No send of the message under way has more parts than `last` + 1. */
  ghost predicate LastOk(s: State, id: Id, last: nat) {
    s.worker.Flight? && s.worker.at < |s.worker.queue| && s.worker.queue[s.worker.at] == id ==> s.worker.n <= last + 1
  }

  lemma LastStepInPass(cfg: Config, s: State, e: Event, id: Id, last: nat)
    requires Inv(cfg, s) && Enabled(s, e) && LastOk(s, id, last)
    requires e.MarkSending? || e.Accept? || e.Return? || e.RefreshFails? || e.Settle?
    requires e.MarkSending? && e.id == id ==> e.n <= last + 1
    ensures (if e == Accept(id, last) then 1 else 0) + LastAllowance(s, id, last)
            <= LastAllowance(Next(cfg, s, e), id, last)
    ensures LastOk(Next(cfg, s, e), id, last)
  {
    var w := s.worker;
    if e.MarkSending? {
      assert RowAt(w, w.at, s.db[e.id]);
    } else if w.Flight? {
      FlightLog(w.script, w.n, s.link);
    } else if w.Landed? {
      assert RowAt(w, w.at, s.db[w.queue[w.at]]);
    }
  }

  lemma LastStep(cfg: Config, s: State, e: Event, id: Id, last: nat)
    requires Inv(cfg, s) && Enabled(s, e) && LastOk(s, id, last)
    requires e.MarkSending? && e.id == id ==> e.n <= last + 1
    ensures (if e == Accept(id, last) then 1 else 0) + LastAllowance(s, id, last)
            <= (if Recovers(e, id) then 1 else 0) + LastAllowance(Next(cfg, s, e), id, last)
    ensures LastOk(Next(cfg, s, e), id, last)
  {
    if e.MarkSending? || e.Accept? || e.Return? || e.RefreshFails? || e.Settle? {
      LastStepInPass(cfg, s, e, id, last);
    } else if e.Receive? {
      InsertTextsAdds(s.db, e.newIds, e.texts, e.createdAt);
    } else if e.Deliver? {
      ReportsFlipOnce(s.db, e.reports, e.picks);
      if id in s.db {
        DeliverRow(s.db, e.reports, e.picks, id);
      }
    }
  }

  /** Every send of the message was encoded into at most `last` + 1 parts. */
  ghost predicate PartsUpTo(es: seq<Event>, id: Id, last: nat) {
    forall i | 0 <= i < |es| :: es[i].MarkSending? && es[i].id == id ==> es[i].n <= last + 1
  }

  lemma {:induction false} LastWithinAllowance(cfg: Config, es: seq<Event>, id: Id, last: nat)
    requires cfg.perMinute >= 1 && IsRun(cfg, es) && PartsUpTo(es, id, last)
    ensures PartCount(es, id, last) <= Recoveries(es, id) + LastAllowance(StateAfter(cfg, es), id, last)
    ensures LastOk(StateAfter(cfg, es), id, last)
  {
    if |es| > 0 {
      var front := es[..|es| - 1];
      LastWithinAllowance(cfg, front, id, last);
      RunsKeepInv(cfg, front);
      LastStep(cfg, StateAfter(cfg, front), es[|es| - 1], id, last);
    }
  }

  lemma AtHandIsSending(cfg: Config, s: State)
    requires Inv(cfg, s)
    ensures var w := s.worker;
            (w.Flight? || w.Landed?) && w.at < |w.queue| && w.queue[w.at] in s.db ==> IsStuck(s.db[w.queue[w.at]])
  {
    var w := s.worker;
    if (w.Flight? || w.Landed?) && w.at < |w.queue| && w.queue[w.at] in s.db {
      assert RowAt(w, w.at, s.db[w.queue[w.at]]);
    }
  }

  /** A message that waits in the queue has had each part accepted at most once per recovery: none,
      if it was never recovered, however often a lost connection sent it back. */
  lemma QueuedMeansNotAccepted(cfg: Config, es: seq<Event>, id: Id, part: nat)
    requires cfg.perMinute >= 1 && IsRun(cfg, es)
    requires var db := StateAfter(cfg, es).db; id in db && IsQueued(db[id])
    ensures PartCount(es, id, part) <= Recoveries(es, id)
  {
    PartsWithinAllowance(cfg, es, id, part);
    RunsKeepInv(cfg, es);
    AtHandIsSending(cfg, StateAfter(cfg, es));
  }

  /** A `failed` message is incomplete at the recipient: its last part was accepted at most once per
      recovery, so never when it was not recovered. */
  lemma FailedMeansIncomplete(cfg: Config, es: seq<Event>, id: Id, last: nat)
    requires cfg.perMinute >= 1 && IsRun(cfg, es) && PartsUpTo(es, id, last)
    requires var db := StateAfter(cfg, es).db; id in db && db[id].status == Messages.Failed
    ensures PartCount(es, id, last) <= Recoveries(es, id)
  {
    LastWithinAllowance(cfg, es, id, last);
    RunsKeepInv(cfg, es);
    AtHandIsSending(cfg, StateAfter(cfg, es));
  }

  // ---- the same in stored segments ----

  lemma SegmentsStay(cfg: Config, s: State, e: Event, id: Id, n: nat)
    requires Inv(cfg, s) && Enabled(s, e) && id in s.db && id in Next(cfg, s, e).db && s.db[id].segments == n
    requires s.worker.Landed? && s.worker.at < |s.worker.queue| && s.worker.queue[s.worker.at] == id ==> s.worker.n == n
    ensures Next(cfg, s, e).db[id].segments == n
  {
    RowStep(cfg, s, e, id);
    if e.Receive? {
      InsertTextsAdds(s.db, e.newIds, e.texts, e.createdAt);
    } else if e.Deliver? {
      DeliverRow(s.db, e.reports, e.picks, id);
    }
  }

  /** The message at hand is sent in as many parts as its row says. */
  ghost predicate AtHandOk(s: State) {
    var w := s.worker;
    (w.Flight? || w.Landed?) && w.at < |w.queue| && w.queue[w.at] in s.db ==> w.n == s.db[w.queue[w.at]].segments
  }

  ghost predicate NeverMarked(es: seq<Event>, id: Id) {
    forall i | 0 <= i < |es| :: !(es[i].MarkSending? && es[i].id == id)
  }

  lemma NothingMatched(cfg: Config, id: Id)
    ensures AtHandOk(Init(cfg)) && id !in Init(cfg).db && NeverMarked([], id)
  {
  }

  lemma NoRebirthUnused(cfg: Config, s: State, e: Event, id: Id)
    requires Inv(cfg, s) && Enabled(s, e) && id !in s.db && !e.Enqueue? && !e.Receive?
    ensures id !in Next(cfg, s, e).db
  {
    if !e.Purge? {
      KeysStep(cfg, s, e);
    }
  }

  lemma NewSegments(cfg: Config, s: State, e: Event, id: Id)
    requires Inv(cfg, s) && Enabled(s, e) && id !in s.used && id in Next(cfg, s, e).db
    ensures Next(cfg, s, e).db[id].direction == Outbound ==> Next(cfg, s, e).db[id].segments > 0
  {
    if e.Enqueue? {
      Segments.AcceptedCost(e.body);
    } else if e.Receive? {
      InsertTextsAdds(s.db, e.newIds, e.texts, e.createdAt);
      var i :| 0 <= i < |e.newIds| && e.newIds[i] == id;
    } else {
      NoRebirthUnused(cfg, s, e, id);
    }
  }

  lemma MatchedStep(cfg: Config, s: State, e: Event)
    requires Inv(cfg, s) && Enabled(s, e) && AtHandOk(s)
    requires e.MarkSending? && e.id in s.db ==> e.n == s.db[e.id].segments
    ensures AtHandOk(Next(cfg, s, e))
  {
    var w := s.worker;
    if InPass(w) && w.at < |w.queue| {
      var id := w.queue[w.at];
      if id !in s.db {
        NoRebirth(cfg, s, e, id);
      } else if (w.Flight? || w.Landed?) && id in Next(cfg, s, e).db {
        SegmentsStay(cfg, s, e, id, w.n);
      }
    }
  }

  lemma MatchedRow(cfg: Config, es: seq<Event>, s: State, e: Event, id: Id)
    requires Inv(cfg, s) && Enabled(s, e) && AtHandOk(s)
    requires e.MarkSending? && e.id in s.db ==> e.n == s.db[e.id].segments
    requires id in s.db && s.db[id].direction == Outbound ==>
             s.db[id].segments > 0 && PartsUpTo(es, id, s.db[id].segments - 1)
    requires id !in s.used ==> NeverMarked(es, id)
    ensures var s' := Next(cfg, s, e);
            && (id in s'.db && s'.db[id].direction == Outbound ==>
                  s'.db[id].segments > 0 && PartsUpTo(es + [e], id, s'.db[id].segments - 1))
            && (id !in s'.used ==> NeverMarked(es + [e], id))
  {
    var s' := Next(cfg, s, e);
    if id in s'.db {
      if id in s.db {
        RowStep(cfg, s, e, id);
        SegmentsStay(cfg, s, e, id, s.db[id].segments);
      } else if id in s.used {
        NoRebirth(cfg, s, e, id);
      } else {
        NewRowStep(cfg, s, e, id);
        NewSegments(cfg, s, e, id);
      }
    }
  }

  lemma {:induction false} CountsStayMatched(cfg: Config, es: seq<Event>, id: Id)
    requires cfg.perMinute >= 1 && IsRun(cfg, es) && CountsMatch(cfg, es)
    ensures AtHandOk(StateAfter(cfg, es))
    ensures var db := StateAfter(cfg, es).db;
            id in db && db[id].direction == Outbound ==> db[id].segments > 0 && PartsUpTo(es, id, db[id].segments - 1)
    ensures id !in StateAfter(cfg, es).used ==> NeverMarked(es, id)
  {
    hide Next, Inv, Enabled, AtHandOk;
    if |es| == 0 {
      NothingMatched(cfg, id);
    } else {
      hide PartsUpTo, NeverMarked;
      var front, e := es[..|es| - 1], es[|es| - 1];
      CountsStayMatched(cfg, front, id);
      RunsKeepInv(cfg, front);
      MatchedStep(cfg, StateAfter(cfg, front), e);
      MatchedRow(cfg, front, StateAfter(cfg, front), e, id);
      assert front + [e] == es;
    }
  }

  lemma FailedIsOutbound(cfg: Config, s: State, id: Id)
    requires Inv(cfg, s) && id in s.db && s.db[id].status == Messages.Failed
    ensures s.db[id].direction == Outbound
  {
  }

  /** While part counts agree with the stored ones: a `failed` message that was never recovered has not
      had its last segment accepted. */
  lemma FailedMeansLastSegmentMissing(cfg: Config, es: seq<Event>, id: Id)
    requires cfg.perMinute >= 1 && IsRun(cfg, es) && CountsMatch(cfg, es) && Recoveries(es, id) == 0
    requires var db := StateAfter(cfg, es).db; id in db && db[id].status == Messages.Failed
    ensures var db := StateAfter(cfg, es).db; db[id].segments > 0 && PartCount(es, id, db[id].segments - 1) == 0
  {
    hide IsRun, Inv, Next, StateAfter, CountsMatch, PartsUpTo;
    CountsStayMatched(cfg, es, id);
    RunsKeepInv(cfg, es);
    FailedIsOutbound(cfg, StateAfter(cfg, es), id);
    FailedMeansIncomplete(cfg, es, id, StateAfter(cfg, es).db[id].segments - 1);
  }

  // ---- failed, and never handed to the modem ----

  /** The events since a message was last marked `sending`. */
  function SinceMark(es: seq<Event>): seq<Event> {
    if |es| == 0 || es[|es| - 1].MarkSending? then [] else SinceMark(es[..|es| - 1]) + [es[|es| - 1]]
  }

  /** The driver was called for it: a part was accepted or the call has returned. */
  ghost predicate DriverCalled(es: seq<Event>) {
    exists i :: 0 <= i < |SinceMark(es)| && (SinceMark(es)[i].Return? || SinceMark(es)[i].Accept?)
  }

  /** Reloading its row failed before that. */
  ghost predicate Unread(es: seq<Event>) { RefreshFails in SinceMark(es) }

  /** A send under way has not been found unreadable; one that is over has been or has called the driver. */
  ghost predicate CallOk(es: seq<Event>, w: Worker) {
    && (w.Flight? ==> !Unread(es) && (w.done == 0 ==> !DriverCalled(es)))
    && (w.Landed? ==> (DriverCalled(es) <==> !Unread(es)) && (Unread(es) ==> w.outcome == S.Failed(S.Unclassified)))
  }

  lemma SinceMarkStep(es: seq<Event>, e: Event)
    ensures e.MarkSending? ==> !Unread(es + [e]) && !DriverCalled(es + [e])
    ensures !e.MarkSending? ==>
              && (Unread(es + [e]) <==> Unread(es) || e == RefreshFails)
              && (DriverCalled(es + [e]) <==> DriverCalled(es) || e.Return? || e.Accept?)
  {
    assert (es + [e])[..|es|] == es;
    if !e.MarkSending? {
      var since, more := SinceMark(es), SinceMark(es + [e]);
      assert more == since + [e];
      assert forall i | 0 <= i < |since| :: more[i] == since[i];
      assert more[|since|] == e;
    }
  }

  lemma CallStep(cfg: Config, es: seq<Event>, s: State, e: Event)
    requires Enabled(s, e) && CallOk(es, s.worker)
    ensures CallOk(es + [e], Next(cfg, s, e).worker)
  {
    hide Unread, DriverCalled;
    SinceMarkStep(es, e);
  }

  lemma NoCallYet(cfg: Config)
    ensures CallOk([], Init(cfg).worker)
  {
  }

  lemma {:induction false} RunsKeepCallOk(cfg: Config, es: seq<Event>)
    requires IsRun(cfg, es)
    ensures CallOk(es, StateAfter(cfg, es).worker)
  {
    hide CallOk, Next, Enabled;
    if |es| == 0 {
      NoCallYet(cfg);
    } else {
      var front, e := es[..|es| - 1], es[|es| - 1];
      RunsKeepCallOk(cfg, front);
      CallStep(cfg, front, StateAfter(cfg, front), e);
      assert front + [e] == es;
    }
  }

  /** The manual says `failed` means rejected by the modem. The outcome of a send that was never handed to the
      driver is `failed` exactly when reloading its row had failed. */
  lemma FailedUnsentIff(cfg: Config, es: seq<Event>, queue: seq<Id>, at: nat, n: nat, o: S.Outcome,
                        row: Row, time: int, text: string)
    requires IsRun(cfg, es) && StateAfter(cfg, es).worker == Landed(queue, at, n, o)
    ensures (SettleRow(row, o, time, text).status == Messages.Failed && !DriverCalled(es)) <==> Unread(es)
  {
    hide IsRun, StateAfter, Unread, DriverCalled;
    RunsKeepCallOk(cfg, es);
  }

  // ---- what is stored of a send ----

  /** The send under way or last under way: the modem's answers, the parts, and whether the port was open. */
  datatype Call = Call(script: S.Script, n: nat, link: bool)

  function LastCall(cfg: Config, es: seq<Event>): Option<Call> {
    if |es| == 0 then None
    else
      var front, e := es[..|es| - 1], es[|es| - 1];
      if e.MarkSending? then Some(Call(e.script, e.n, StateAfter(cfg, front).link)) else LastCall(cfg, front)
  }

  /** The worker carries the send it began, and its outcome once the driver has answered. */
  ghost predicate Carried(w: Worker, link: bool, call: Option<Call>, unread: bool) {
    match w
    case Flight(_, _, script, n, _) => call == Some(Call(script, n, link)) && S.Courteous(script)
    case Landed(_, _, n, o) =>
      && call.Some? && call.value.n == n && S.Courteous(call.value.script)
      && o == if unread then S.Failed(S.Unclassified) else FlightEnd(call.value.script, n, call.value.link).1
    case _ => true
  }

  lemma LastCallStep(cfg: Config, es: seq<Event>, e: Event)
    ensures LastCall(cfg, es + [e]) ==
            if e.MarkSending? then Some(Call(e.script, e.n, StateAfter(cfg, es).link)) else LastCall(cfg, es)
  {
    assert (es + [e])[..|es|] == es;
  }

  lemma CarriedStep(cfg: Config, es: seq<Event>, s: State, e: Event)
    requires Enabled(s, e) && s == StateAfter(cfg, es) && CallOk(es, s.worker)
    requires Carried(s.worker, s.link, LastCall(cfg, es), Unread(es))
    ensures var s' := Next(cfg, s, e); Carried(s'.worker, s'.link, LastCall(cfg, es + [e]), Unread(es + [e]))
  {
    hide FlightEnd, Unread, DriverCalled, StateAfter, LastCall, SettleRow, InsertTexts;
    SinceMarkStep(es, e);
    LastCallStep(cfg, es, e);
  }

  lemma {:induction false} RunsKeepCarried(cfg: Config, es: seq<Event>)
    requires IsRun(cfg, es)
    ensures Carried(StateAfter(cfg, es).worker, StateAfter(cfg, es).link, LastCall(cfg, es), Unread(es))
  {
    hide Next, Enabled, Unread, LastCall;
    if |es| > 0 {
      var front, e := es[..|es| - 1], es[|es| - 1];
      RunsKeepCarried(cfg, front);
      RunsKeepCallOk(cfg, front);
      CarriedStep(cfg, front, StateAfter(cfg, front), e);
      assert front + [e] == es;
    }
  }

  lemma {:induction false} LastReferenceIs(log: seq<S.Submit>)
    ensures var reference := S.LastReference(log, None);
            && (reference == None ==> forall i | 0 <= i < |log| :: log[i].reference == None)
            && (reference.Some? ==> exists i :: 0 <= i < |log| && log[i].reference == reference
                                                && forall j | i < j < |log| :: log[j].reference == None)
  {
    if |log| > 0 && log[|log| - 1].reference.None? {
      LastReferenceIs(log[..|log| - 1]);
    }
  }

  /** The row after the outcome commit, with `log` the parts the modem took: `sent` says it took all of them and
      stores the reference it gave last, `queued` and `failed` say it did not, and nothing but the columns named here
      changes. */
  ghost predicate Recorded(row: Row, row': Row, log: seq<S.Submit>, n: nat, time: int, text: string) {
    match row'.status
    case Sent =>
      && |log| == n
      && row' == row.(status := Sent, sentAt := Some(time), segments := n, modemRef := row'.modemRef)
      && (row'.modemRef == None ==> forall i | 0 <= i < |log| :: log[i].reference == None)
      && (row'.modemRef.Some? ==> exists i :: 0 <= i < |log| && log[i].reference == row'.modemRef
                                              && forall j | i < j < |log| :: log[j].reference == None)
    case Queued => log == [] && row' == row.(status := Queued)
    case Failed =>
      (|log| < n || n == 0) && row' == row.(status := Messages.Failed, error := Some(text))
    case _ => false
  }

  lemma OutcomeRecorded(row: Row, o: S.Outcome, log: seq<S.Submit>, n: nat, time: int, text: string)
    requires S.Explains(log, n, o)
    ensures Recorded(row, SettleRow(row, o, time, text), log, n, time, text)
  {
    LastReferenceIs(log);
  }

  lemma SettleWrites(cfg: Config, s: State, queue: seq<Id>, at: nat, n: nat, o: S.Outcome, time: int, text: string)
    requires s.worker == Landed(queue, at, n, o) && Enabled(s, Settle(time, text))
    ensures at < |queue| && queue[at] in s.db
    ensures Next(cfg, s, Settle(time, text)).db == s.db[queue[at] := SettleRow(s.db[queue[at]], o, time, text)]
  {
  }

  /** In every run the outcome commit records, for the message at hand, what the modem took in that flight, or
      `failed` and nothing else when the driver was never called. */
  lemma SettledAsAnswered(cfg: Config, es: seq<Event>, queue: seq<Id>, at: nat, n: nat, o: S.Outcome, time: int,
                          text: string)
    requires cfg.perMinute >= 1 && IsRun(cfg, es) && Enabled(StateAfter(cfg, es), Settle(time, text))
    requires StateAfter(cfg, es).worker == Landed(queue, at, n, o)
    ensures var s, call := StateAfter(cfg, es), LastCall(cfg, es);
            var s' := Next(cfg, s, Settle(time, text));
            && at < |queue| && queue[at] in s.db && queue[at] in s'.db && call.Some?
            && var row, row' := s.db[queue[at]], s'.db[queue[at]];
            && var log := FlightEnd(call.value.script, call.value.n, call.value.link).0.log;
            if Unread(es) then row' == row.(status := Messages.Failed, error := Some(text))
            else Recorded(row, row', log, n, time, text)
  {
    hide IsRun, StateAfter, LastCall, FlightEnd, Unread, Recorded, Next, Enabled;
    RunsKeepCarried(cfg, es);
    var s, call := StateAfter(cfg, es), LastCall(cfg, es);
    SettleWrites(cfg, s, queue, at, n, o, time, text);
    if !Unread(es) {
      FlightLog(call.value.script, n, call.value.link);
      OutcomeRecorded(s.db[queue[at]], o, FlightEnd(call.value.script, n, call.value.link).0.log, n, time, text);
    }
  }
}
