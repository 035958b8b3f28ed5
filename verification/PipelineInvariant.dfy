/** The invariant of the store-and-forward machine holds at every point of every run. */
module PipelineInvariant {
  import opened Common
  import opened Messages
  import opened Pipeline
  import Inbox
  import Segments
  import S = Sending
  import T = Throttle

  // ---- the API's steps ----

  lemma EnqueueKeepsInv(cfg: Config, s: State, e: Event)
    requires Inv(cfg, s) && Enabled(s, e) && e.Enqueue?
    ensures Inv(cfg, Next(cfg, s, e))
  {
    hide Segments.CountSegments, Segments.BodyTooLong;
    var s' := Next(cfg, s, e);
    Segments.AcceptedCost(e.body);
    assert Stuck(s'.db) == Stuck(s.db);
  }

  lemma PurgeKeepsInv(cfg: Config, s: State, e: Event)
    requires Inv(cfg, s) && Enabled(s, e) && e.Purge?
    ensures Inv(cfg, Next(cfg, s, e))
  {
    var s' := Next(cfg, s, e);
    assert Stuck(s'.db) <= Stuck(s.db);
  }

  // ---- the worker's steps ----

  lemma LifeKeepsInv(cfg: Config, s: State, e: Event)
    requires Inv(cfg, s) && Enabled(s, e) && (e.Start? || e.Crash? || e.Connect? || e.Fault?)
    ensures Inv(cfg, Next(cfg, s, e))
  {
  }

  lemma RecoverKeepsInv(cfg: Config, s: State, e: Event)
    requires cfg.perMinute >= 1
    requires Inv(cfg, s) && Enabled(s, e) && (e.BootRecover? || e.Recover?)
    ensures Inv(cfg, Next(cfg, s, e))
  {
    var s' := Next(cfg, s, e);
    assert Stuck(s'.db) == {};
  }

  lemma SnapshotKeepsInv(cfg: Config, s: State, e: Event)
    requires Inv(cfg, s) && Enabled(s, e) && e.Snapshot?
    ensures Inv(cfg, Next(cfg, s, e))
  {
    var s' := Next(cfg, s, e);
    forall i, j | 0 <= i < j < |e.queue| ensures e.queue[i] != e.queue[j] {
      assert Before(s.db, e.queue[i], e.queue[j]);
    }
    forall i | 0 <= i < |e.queue| ensures RowAt(s'.worker, i, s.db[e.queue[i]]) {
      assert IsQueued(s.db[e.queue[i]]);
    }
  }

  lemma BucketKeepsInv(cfg: Config, s: State, e: Event)
    requires Inv(cfg, s) && Enabled(s, e) && (e.Deny? || e.Charge?)
    ensures Inv(cfg, Next(cfg, s, e))
  {
    var s' := Next(cfg, s, e);
    T.TryTakeKeepsValid(s.bucket, e.now, e.cost, Segments.MAX_SEGMENTS);
    if e.Charge? {
      var w := s.worker;
      forall i | 0 <= i < |w.queue| && w.queue[i] in s.db ensures RowAt(s'.worker, i, s.db[w.queue[i]]) {
        assert RowAt(w, i, s.db[w.queue[i]]);
      }
    }
  }

  /** What the driver contributes: the parts a send will have accepted when it ends. */
  lemma FlightLog(script: S.Script, n: nat, link: bool)
    requires S.Courteous(script)
    ensures var (k, o) := FlightEnd(script, n, link);
            && S.Explains(k.log, n, o)
            && |k.log| <= n
            && (forall i | 0 <= i < |k.log| :: k.log[i].part == i)
            && (o == S.Failed(S.ConnectionError) ==> k.log == [] && !k.up)
  {
    var start := S.Link(link, 0, []);
    S.SendExplained(script, start, n, MAX_SEND_ATTEMPTS);
    S.ConnectionErrorDropsLink(script, start, n, MAX_SEND_ATTEMPTS);
    var k := FlightEnd(script, n, link).0;
    assert k.log[0..] == k.log;
    forall i | 0 <= i < |k.log| ensures k.log[i].part == i {
      assert S.Parts(k.log)[i] == S.Range(0, |k.log|)[i];
    }
  }

  lemma MarkSendingKeepsInv(cfg: Config, s: State, e: Event)
    requires Inv(cfg, s) && Enabled(s, e) && e.MarkSending?
    ensures Inv(cfg, Next(cfg, s, e))
  {
    var s', w := Next(cfg, s, e), s.worker;
    assert RowAt(w, w.at, s.db[e.id]);
    assert Stuck(s'.db) <= {e.id};
    FlightLog(e.script, e.n, s.link);
    forall i | 0 <= i < |w.queue| && w.queue[i] in s'.db ensures RowAt(s'.worker, i, s'.db[w.queue[i]]) {
      assert RowAt(w, i, s.db[w.queue[i]]);
    }
  }

  lemma FlightKeepsInv(cfg: Config, s: State, e: Event)
    requires Inv(cfg, s) && Enabled(s, e) && (e.RefreshFails? || e.Accept? || e.Return?)
    ensures Inv(cfg, Next(cfg, s, e))
  {
    var s', w := Next(cfg, s, e), s.worker;
    FlightLog(w.script, w.n, s.link);
    forall i | 0 <= i < |w.queue| && w.queue[i] in s'.db ensures RowAt(s'.worker, i, s'.db[w.queue[i]]) {
      assert RowAt(w, i, s.db[w.queue[i]]);
    }
  }

  lemma SettleKeepsInv(cfg: Config, s: State, e: Event)
    requires Inv(cfg, s) && Enabled(s, e) && e.Settle?
    ensures Inv(cfg, Next(cfg, s, e))
  {
    var s', w := Next(cfg, s, e), s.worker;
    var id := w.queue[w.at];
    assert RowAt(w, w.at, s.db[id]);
    assert Consistent(s.db[id]) && Consistent(s'.db[id]);
    assert !IsStuck(s'.db[id]);
    forall x ensures x !in Stuck(s'.db) {
      assert x in Stuck(s'.db) && x != id ==> x in Stuck(s.db);
    }
    if InPass(s'.worker) {
      forall i | 0 <= i < |w.queue| && w.queue[i] in s'.db ensures RowAt(s'.worker, i, s'.db[w.queue[i]]) {
        assert RowAt(w, i, s.db[w.queue[i]]);
      }
    }
  }

  /** Each id has the row of its text. */
  ghost predicate RowsAre(db: Table, ids: seq<Id>, texts: seq<Inbox.Event>, createdAt: int)
    requires |ids| == |texts| && forall i | 0 <= i < |texts| :: texts[i].Text?
  {
    forall i | 0 <= i < |ids| ::
      ids[i] in db && db[ids[i]] == NewInbound(texts[i].msisdn, texts[i].body, texts[i].segments, createdAt)
  }

  lemma RowsAreStep(db: Table, ids: seq<Id>, texts: seq<Inbox.Event>, createdAt: int)
    requires |ids| == |texts| > 0 && forall i | 0 <= i < |texts| :: texts[i].Text?
    requires ids[0] in db && db[ids[0]] == NewInbound(texts[0].msisdn, texts[0].body, texts[0].segments, createdAt)
    requires (forall i | 0 <= i < |texts[1..]| :: texts[1..][i].Text?) && RowsAre(db, ids[1..], texts[1..], createdAt)
    ensures RowsAre(db, ids, texts, createdAt)
  {
    hide NewInbound;
    forall i | 0 <= i < |ids|
      ensures ids[i] in db && db[ids[i]] == NewInbound(texts[i].msisdn, texts[i].body, texts[i].segments, createdAt)
    {
      if i > 0 {
        assert ids[1..][i - 1] == ids[i] && texts[1..][i - 1] == texts[i];
      }
    }
  }

  lemma IdSetStep(ids: seq<Id>)
    requires |ids| > 0
    ensures IdSet(ids) == {ids[0]} + IdSet(ids[1..])
  {
    assert ids == [ids[0]] + ids[1..];
  }

  lemma {:induction false} InsertTextsAdds(db: Table, ids: seq<Id>, texts: seq<Inbox.Event>, createdAt: int)
    requires |ids| == |texts| && forall i | 0 <= i < |ids| :: ids[i] !in db && texts[i].Text?
    requires forall i, j | 0 <= i < j < |ids| :: ids[i] != ids[j]
    ensures var db' := InsertTexts(db, ids, texts, createdAt);
            && db'.Keys == db.Keys + IdSet(ids)
            && (forall id | id in db :: db'[id] == db[id])
            && RowsAre(db', ids, texts, createdAt)
    decreases ids
  {
    if |ids| > 0 {
      hide NewInbound, RowsAre, IdSet;
      var db1 := db[ids[0] := NewInbound(texts[0].msisdn, texts[0].body, texts[0].segments, createdAt)];
      assert forall i | 0 <= i < |texts[1..]| :: ids[1..][i] == ids[i + 1] && texts[1..][i] == texts[i + 1];
      InsertTextsAdds(db1, ids[1..], texts[1..], createdAt);
      IdSetStep(ids);
      RowsAreStep(InsertTexts(db, ids, texts, createdAt), ids, texts, createdAt);
    }
  }

  lemma ReceiveKeepsInv(cfg: Config, s: State, e: Event)
    requires Inv(cfg, s) && Enabled(s, e) && e.Receive?
    ensures Inv(cfg, Next(cfg, s, e))
  {
    var s' := Next(cfg, s, e);
    InsertTextsAdds(s.db, e.newIds, e.texts, e.createdAt);
    forall id | id in s'.db
      ensures Consistent(s'.db[id]) && !(IsStuck(s'.db[id]))
      ensures IsQueued(s'.db[id]) ==> id in s.db
    {
      if id !in s.db {
        var i :| 0 <= i < |e.newIds| && e.newIds[i] == id;
      } else {
        assert id !in Stuck(s.db);
      }
    }
  }

  /** A batch of reports leaves a row alone or turns it from sent to delivered. */
  lemma DeliverRow(db: Table, rs: seq<Inbox.Event>, picks: seq<Option<Id>>, id: Id)
    requires AllReports(rs) && ValidPicks(db, rs, picks) && id in db
    ensures id in ApplyReports(db, rs, picks)
    ensures var row := ApplyReports(db, rs, picks)[id];
            row == db[id] ||
            (db[id].status == Sent && row.deliveredAt.Some?
             && row == db[id].(status := Delivered, deliveredAt := row.deliveredAt))
  {
    ReportsFlipOnce(db, rs, picks);
    if Some(id) in picks {
      var i :| 0 <= i < |picks| && picks[i] == Some(id);
      assert picks[i].value == id;
    }
  }

  lemma DeliverKeepsInv(cfg: Config, s: State, e: Event)
    requires Inv(cfg, s) && Enabled(s, e) && e.Deliver?
    ensures Inv(cfg, Next(cfg, s, e))
  {
    var s' := Next(cfg, s, e);
    ReportsFlipOnce(s.db, e.reports, e.picks);
    ReportsKeepConsistency(s.db, e.reports, e.picks);
    forall id | id in s.db ensures s'.db[id] == s.db[id] || s'.db[id].status == Delivered {
      DeliverRow(s.db, e.reports, e.picks, id);
    }
    assert Stuck(s'.db) <= Stuck(s.db);
  }

  // ---- all steps, all runs ----

  lemma StepKeepsInv(cfg: Config, s: State, e: Event)
    requires cfg.perMinute >= 1 && Inv(cfg, s) && Enabled(s, e)
    ensures Inv(cfg, Next(cfg, s, e))
  {
    match e {
      case Enqueue(_, _, _, _) => EnqueueKeepsInv(cfg, s, e);
      case Purge(_) => PurgeKeepsInv(cfg, s, e);
      case Start => LifeKeepsInv(cfg, s, e);
      case Crash => LifeKeepsInv(cfg, s, e);
      case Connect => LifeKeepsInv(cfg, s, e);
      case Fault(_) => LifeKeepsInv(cfg, s, e);
      case BootRecover(_, _) => RecoverKeepsInv(cfg, s, e);
      case Recover(_) => RecoverKeepsInv(cfg, s, e);
      case Snapshot(_) => SnapshotKeepsInv(cfg, s, e);
      case Deny(_, _) => BucketKeepsInv(cfg, s, e);
      case Charge(_, _) => BucketKeepsInv(cfg, s, e);
      case MarkSending(_, _, _) => MarkSendingKeepsInv(cfg, s, e);
      case RefreshFails => FlightKeepsInv(cfg, s, e);
      case Accept(_, _) => FlightKeepsInv(cfg, s, e);
      case Return => FlightKeepsInv(cfg, s, e);
      case Settle(_, _) => SettleKeepsInv(cfg, s, e);
      case EndPass =>
      case Receive(_, _, _) => ReceiveKeepsInv(cfg, s, e);
      case Deliver(_, _) => DeliverKeepsInv(cfg, s, e);
      case Poll =>
    }
  }

  lemma {:induction false} RunsKeepInv(cfg: Config, es: seq<Event>)
    requires cfg.perMinute >= 1 && IsRun(cfg, es)
    ensures Inv(cfg, StateAfter(cfg, es))
  {
    if |es| > 0 {
      RunsKeepInv(cfg, es[..|es| - 1]);
      StepKeepsInv(cfg, StateAfter(cfg, es[..|es| - 1]), es[|es| - 1]);
    }
  }
}
