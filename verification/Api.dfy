/** What the API process commits while the worker is busy, as a list of steps: accepted messages
    (gateway/api/routes_api.py), purges and settings (gateway/api/routes_admin.py), and the deliveries its
    dispatcher and manual retries rewrite. */
module Api {
  import opened Messages
  import Segments
  import W = Webhooks

  /** What both processes commit to: the two tables, the ids given out, the webhook settings. */
  datatype Shared = Shared(db: Table, used: set<Id>, deliveries: map<W.Id, W.Delivery>,
                           webhookUrl: string, webhookSecret: string) {
    predicate Configured() { webhookUrl != "" && webhookSecret != "" }

    /** Every row and every delivery is about an id that has been given out. */
    ghost predicate Known() {
      db.Keys <= used && forall d | d in deliveries :: deliveries[d].messageId in used
    }
  }

  datatype Step =
    | Accept(id: Id, msisdn: string, body: string, createdAt: int)  // post_message, chat_send, send_test_sms
    | Purge(cutoff: int)                                            // purge_messages
    | Configure(url: string, secret: string)                        // the webhook settings
    | Rewrite(d: W.Id, row: W.Delivery)                             // an attempt or a manual retry

  predicate Acceptable(body: string) { body != "" && !Segments.BodyTooLong(body) }

  /** The deliveries that survive a purge: those of the messages it takes go with them. */
  function Spared(deliveries: map<W.Id, W.Delivery>, db: Table, cutoff: int): map<W.Id, W.Delivery> {
    map d | d in deliveries
            && !(deliveries[d].messageId in db && db[deliveries[d].messageId].createdAt < cutoff) :: deliveries[d]
  }

  /** A refused body, an id that is taken and a delivery that is gone change nothing. */
  function Do(s: Shared, a: Step): Shared {
    match a
    case Accept(id, msisdn, body, createdAt) =>
      if id !in s.used && Acceptable(body) then
        s.(db := s.db[id := NewOutbound(msisdn, body, Segments.CountSegments(body), createdAt)], used := s.used + {id})
      else s
    case Purge(cutoff) =>
      s.(db := PurgeBefore(s.db, cutoff), deliveries := Spared(s.deliveries, s.db, cutoff))
    case Configure(url, secret) => s.(webhookUrl := url, webhookSecret := secret)
    case Rewrite(d, row) =>
      if d in s.deliveries && row.messageId == s.deliveries[d].messageId then s.(deliveries := s.deliveries[d := row])
      else s
  }

  function All(s: Shared, steps: seq<Step>): Shared
    decreases steps
  {
    if |steps| == 0 then s else All(Do(s, steps[0]), steps[1..])
  }

  /** Some purge among the steps covers messages created at that time. */
  predicate Purges(steps: seq<Step>, createdAt: int) {
    exists i :: 0 <= i < |steps| && steps[i].Purge? && createdAt < steps[i].cutoff
  }

  lemma PurgesFirst(steps: seq<Step>, createdAt: int)
    requires |steps| > 0
    ensures Purges(steps, createdAt)
            <==> (steps[0].Purge? && createdAt < steps[0].cutoff) || Purges(steps[1..], createdAt)
  {
    if i :| 0 <= i < |steps[1..]| && steps[1..][i].Purge? && createdAt < steps[1..][i].cutoff {
      assert steps[i + 1] == steps[1..][i];
    }
    if i :| 0 < i < |steps| && steps[i].Purge? && createdAt < steps[i].cutoff {
      assert steps[i] == steps[1..][i - 1];
    }
  }

  lemma {:induction false} AllKnown(s: Shared, steps: seq<Step>)
    requires s.Known()
    ensures All(s, steps).Known() && s.used <= All(s, steps).used
    decreases steps
  {
    hide Segments.CountSegments, Acceptable;
    if |steps| > 0 {
      AllKnown(Do(s, steps[0]), steps[1..]);
    }
  }

  lemma NoPurge(steps: seq<Step>)
    requires steps == []
    ensures forall createdAt :: !Purges(steps, createdAt)
  {
  }

  /** A row stays exactly as it was, exactly unless a purge covers it; one that is gone stays gone. */
  lemma {:induction false} RowsStay(s: Shared, steps: seq<Step>, id: Id)
    requires s.Known() && id in s.used
    ensures var db := All(s, steps).db;
            if id in s.db then
              (id in db <==> !Purges(steps, s.db[id].createdAt)) && (id in db ==> db[id] == s.db[id])
            else id !in db
    decreases steps
  {
    hide Segments.CountSegments, Acceptable, Purges;
    if |steps| == 0 {
      NoPurge(steps);
    } else {
      var t := Do(s, steps[0]);
      RowsStay(t, steps[1..], id);
      if id in s.db {
        PurgesFirst(steps, s.db[id].createdAt);
      }
    }
  }

  /** Every new row waits in the queue. */
  lemma {:induction false} NewRowsAreQueued(s: Shared, steps: seq<Step>, id: Id)
    requires s.Known() && id !in s.used
    ensures var t := All(s, steps); id in t.db ==> IsQueued(t.db[id])
    decreases steps
  {
    hide Segments.CountSegments, Acceptable, Purges;
    if |steps| > 0 {
      var t := Do(s, steps[0]);
      if id in t.used {
        RowsStay(t, steps[1..], id);
      } else {
        NewRowsAreQueued(t, steps[1..], id);
      }
    }
  }

  /** A delivery goes exactly when its message goes, and never moves to another one. */
  lemma {:induction false} DeliveriesStay(s: Shared, steps: seq<Step>, d: W.Id)
    requires s.Known()
    ensures var t := All(s, steps);
            d in t.deliveries
            <==> d in s.deliveries && (var m := s.deliveries[d].messageId; m in s.db ==> m in t.db)
    ensures var t := All(s, steps);
            d in t.deliveries ==> t.deliveries[d].messageId == s.deliveries[d].messageId
    decreases steps
  {
    hide Segments.CountSegments, Acceptable, Purges;
    if |steps| > 0 {
      var t := Do(s, steps[0]);
      DeliveriesStay(t, steps[1..], d);
      if d in s.deliveries {
        RowsStay(t, steps[1..], s.deliveries[d].messageId);
      }
    }
  }

  /** For a message in the table: its deliveries stay its deliveries exactly unless it is purged. */
  lemma DeliveriesFollow(s: Shared, steps: seq<Step>, d: W.Id, id: Id)
    requires s.Known() && id in s.db
    ensures var ds := All(s, steps).deliveries;
            (d in ds && ds[d].messageId == id)
            <==> (d in s.deliveries && s.deliveries[d].messageId == id && !Purges(steps, s.db[id].createdAt))
  {
    DeliveriesStay(s, steps, d);
    RowsStay(s, steps, id);
  }
}
