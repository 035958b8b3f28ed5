/** The `messages` table (gateway/shared/models.py) and the statements the gateway runs on it:
    the worker's queries, delivery-report matching (`_apply_delivery_report`), requeueing and purge.
    Times are whole seconds; message ids are opaque, ordered values. */
module Messages {
  import opened Common
  import Inbox
  import Ordering

  type Id = nat

  datatype Direction = Outbound | Inbound

  datatype Status = Queued | Sending | Sent | Delivered | Failed | Received

  datatype Row = Row(direction: Direction, msisdn: string, body: string, status: Status, segments: nat,
                     error: Option<string>, modemRef: Option<int>, createdAt: int,
                     sentAt: Option<int>, deliveredAt: Option<int>)

  type Table = map<Id, Row>

  function IdSet(ids: seq<Id>): set<Id> { set id | id in ids }

  function NewOutbound(msisdn: string, body: string, segments: nat, createdAt: int): Row {
    Row(Outbound, msisdn, body, Queued, segments, None, None, createdAt, None, None)
  }

  function NewInbound(msisdn: string, body: string, segments: nat, createdAt: int): Row {
    Row(Inbound, msisdn, body, Received, segments, None, None, createdAt, None, None)
  }

  /** `segments or 1` */
  function Cost(row: Row): (tokens: nat)
    ensures tokens >= 1 && (row.segments >= 1 ==> tokens == row.segments)
  {
    if row.segments == 0 then 1 else row.segments
  }

  // ---- what a row may look like ----

  /** delivered_at is set exactly on delivered rows, sent_at exactly on sent and delivered ones,
      error exactly on failed ones, and only inbound rows are `received`. */
  predicate Consistent(row: Row) {
    && (row.deliveredAt.Some? <==> row.status == Delivered)
    && (row.sentAt.Some? <==> row.status == Sent || row.status == Delivered)
    && (row.error.Some? <==> row.status == Failed)
    && (row.direction == Inbound <==> row.status == Received)
  }

  ghost predicate AllConsistent(db: Table) { forall id | id in db :: Consistent(db[id]) }

  // ---- the outbox query ----

  predicate IsQueued(row: Row) { row.direction == Outbound && row.status == Queued }
  predicate IsStuck(row: Row) { row.direction == Outbound && row.status == Sending }

  /** order_by(created_at, id) */
  predicate Before(db: Table, a: Id, b: Id)
    requires a in db && b in db
  {
    Ordering.Less(db[a].createdAt, a, db[b].createdAt, b)
  }

  /** The result of the outbox query: every queued outbound row, in order. */
  ghost predicate IsOutbox(db: Table, queue: seq<Id>) {
    && (forall i | 0 <= i < |queue| :: queue[i] in db && IsQueued(db[queue[i]]))
    && (forall id | id in db && IsQueued(db[id]) :: id in queue)
    && (forall i, j | 0 <= i < j < |queue| :: Before(db, queue[i], queue[j]))
  }

  method QueryOutbox(db: Table) returns (queue: seq<Id>)
    ensures IsOutbox(db, queue)
    ensures forall id :: id in queue <==> id in db && db[id].direction == Outbound && db[id].status == Queued
    ensures forall i, j | 0 <= i < j < |queue| ::
              db[queue[i]].createdAt < db[queue[j]].createdAt
              || (db[queue[i]].createdAt == db[queue[j]].createdAt && queue[i] < queue[j])
  {
    var keys := map id | id in db :: db[id].createdAt;
    queue := Ordering.Sort(keys, set id | id in db && IsQueued(db[id]));
    forall i | 0 <= i < |queue| ensures queue[i] in db && IsQueued(db[queue[i]]) {
      assert queue[i] in queue;
    }
    assert forall i, j | 0 <= i < j < |queue| ::
      Ordering.Before(keys, queue[i], queue[j]) == Before(db, queue[i], queue[j]);
  }

  // ---- recovery and purge ----

  function Stuck(db: Table): (ids: set<Id>)
    ensures forall id :: id in ids <==> id in db && db[id].direction == Outbound && db[id].status == Sending
  {
    set id | id in db && IsStuck(db[id])
  }

  function Requeue(db: Table, ids: set<Id>): Table {
    map id | id in db :: if id in ids then db[id].(status := Queued) else db[id]
  }

  function PurgeBefore(db: Table, cutoff: int): Table {
    map id | id in db && db[id].createdAt >= cutoff :: db[id]
  }

  // ---- delivery reports ----

  predicate Matches(row: Row, r: Inbox.Event)
    requires r.Report?
  {
    && row.direction == Outbound && row.msisdn == r.msisdn && row.status == Sent && row.deliveredAt.None?
    && (r.reference.Some? ==> row.modemRef == r.reference)
  }

  /** order_by(sent_at desc): NULL sorts last. */
  predicate NotLater(a: Row, b: Row) {
    a.sentAt.None? || (b.sentAt.Some? && a.sentAt.value <= b.sentAt.value)
  }

  /** What `.first()` may return for one report: nothing for a negative report or when no row
      matches, otherwise a matching row none of the others was sent after. */
  predicate IsPick(db: Table, r: Inbox.Event, pick: Option<Id>)
    requires r.Report?
  {
    match pick
    case None => !r.delivered || forall id | id in db :: !Matches(db[id], r)
    case Some(id) =>
      && r.delivered && id in db && Matches(db[id], r)
      && forall other | other in db && Matches(db[other], r) :: NotLater(db[other], db[id])
  }

  function ApplyReport(db: Table, r: Inbox.Event, pick: Option<Id>): Table
    requires r.Report?
  {
    if pick.Some? && pick.value in db then
      db[pick.value := db[pick.value].(status := Delivered, deliveredAt := Some(r.timestamp))]
    else db
  }

  predicate AllReports(rs: seq<Inbox.Event>) { forall i | 0 <= i < |rs| :: rs[i].Report? }

  /** Reports of one transaction, in order; each query sees the earlier writes of its session. */
  ghost predicate ValidPicks(db: Table, rs: seq<Inbox.Event>, picks: seq<Option<Id>>)
    requires AllReports(rs)
    decreases rs
  {
    if |rs| == 0 then picks == []
    else
      && |picks| == |rs| && IsPick(db, rs[0], picks[0])
      && ValidPicks(ApplyReport(db, rs[0], picks[0]), rs[1..], picks[1..])
  }

  function ApplyReports(db: Table, rs: seq<Inbox.Event>, picks: seq<Option<Id>>): Table
    requires AllReports(rs)
    decreases rs
  {
    if |rs| == 0 || |picks| == 0 then db
    else ApplyReports(ApplyReport(db, rs[0], picks[0]), rs[1..], picks[1..])
  }

  lemma {:induction false} ReportsFlip(db: Table, rs: seq<Inbox.Event>, picks: seq<Option<Id>>)
    requires AllReports(rs) && ValidPicks(db, rs, picks)
    ensures |picks| == |rs|
    ensures forall i, j | 0 <= i < j < |picks| && picks[i].Some? :: picks[i] != picks[j]
    ensures forall i | 0 <= i < |picks| && picks[i].Some? ::
              && rs[i].delivered && picks[i].value in db && Matches(db[picks[i].value], rs[i])
              && picks[i].value in ApplyReports(db, rs, picks)
              && ApplyReports(db, rs, picks)[picks[i].value]
                 == db[picks[i].value].(status := Delivered, deliveredAt := Some(rs[i].timestamp))
    ensures ApplyReports(db, rs, picks).Keys == db.Keys
    ensures forall id | id in db && Some(id) !in picks :: ApplyReports(db, rs, picks)[id] == db[id]
    decreases rs
  {
    if |rs| > 0 {
      var db1 := ApplyReport(db, rs[0], picks[0]);
      ReportsFlip(db1, rs[1..], picks[1..]);
      var after := ApplyReports(db, rs, picks);
      if picks[0].Some? {
        assert !(exists j | 1 <= j < |picks| :: picks[j] == picks[0]) by {
          forall j | 1 <= j < |picks| ensures picks[j] != picks[0] {
            assert picks[1..][j - 1] == picks[j];
          }
        }
        assert picks[0] !in picks[1..];
        assert after[picks[0].value] == db1[picks[0].value];
      }
      forall i, j | 0 <= i < j < |picks| && picks[i].Some? ensures picks[i] != picks[j] {
        assert picks[1..][j - 1] == picks[j];
        if i > 0 {
          assert picks[1..][i - 1] == picks[i];
        }
      }
      forall i | 1 <= i < |picks| && picks[i].Some?
        ensures rs[i].delivered && picks[i].value in db && Matches(db[picks[i].value], rs[i])
        ensures after[picks[i].value] == db[picks[i].value].(status := Delivered, deliveredAt := Some(rs[i].timestamp))
      {
        assert picks[1..][i - 1] == picks[i] && rs[1..][i - 1] == rs[i];
        assert picks[i] != picks[0];
      }
      assert picks == [picks[0]] + picks[1..];
    }
  }

  /** Over any sequence of reports: no row flips twice; a report flips only a row it names (number,
      and reference when it carries one); negative reports flip nothing; every flipped row was sent
      and is delivered now, and every other row is untouched. */
  lemma ReportsFlipOnce(db: Table, rs: seq<Inbox.Event>, picks: seq<Option<Id>>)
    requires AllReports(rs) && ValidPicks(db, rs, picks)
    ensures |picks| == |rs|
    ensures forall i, j | 0 <= i < j < |picks| && picks[i].Some? :: picks[i] != picks[j]
    ensures forall i | 0 <= i < |picks| && picks[i].Some? ::
              && rs[i].delivered && picks[i].value in db
              && db[picks[i].value].direction == Outbound && db[picks[i].value].msisdn == rs[i].msisdn
              && db[picks[i].value].status == Sent && db[picks[i].value].deliveredAt == None
              && (rs[i].reference.Some? ==> db[picks[i].value].modemRef == rs[i].reference)
              && picks[i].value in ApplyReports(db, rs, picks)
              && ApplyReports(db, rs, picks)[picks[i].value]
                 == db[picks[i].value].(status := Delivered, deliveredAt := Some(rs[i].timestamp))
    ensures ApplyReports(db, rs, picks).Keys == db.Keys
    ensures forall id | id in db && Some(id) !in picks :: ApplyReports(db, rs, picks)[id] == db[id]
  {
    hide ApplyReports, ValidPicks;
    ReportsFlip(db, rs, picks);
  }

  /** No row is passed over: of the rows a positive report names, those an earlier report of the transaction has
      not delivered were sent no later than the one it delivers, and there is one if there are any. */
  lemma {:induction false} ReportsPassNoneOver(db: Table, rs: seq<Inbox.Event>, picks: seq<Option<Id>>, i: nat, id: Id)
    requires AllReports(rs) && ValidPicks(db, rs, picks) && i < |rs| && rs[i].delivered
    requires id in db && db[id].direction == Outbound && db[id].msisdn == rs[i].msisdn
    requires db[id].status == Sent && db[id].deliveredAt == None
    requires rs[i].reference.Some? ==> db[id].modemRef == rs[i].reference
    ensures |picks| == |rs|
    ensures Some(id) in picks[..i]
            || (picks[i].Some? && picks[i].value in db
                && (db[id].sentAt.Some? ==>
                      db[picks[i].value].sentAt.Some? && db[id].sentAt.value <= db[picks[i].value].sentAt.value))
    decreases i
  {
    hide ApplyReports;
    if i > 0 && picks[0] != Some(id) {
      var db1 := ApplyReport(db, rs[0], picks[0]);
      ReportsPassNoneOver(db1, rs[1..], picks[1..], i - 1, id);
      assert picks[1..][i - 1] == picks[i];
      assert forall x | x in picks[1..][..i - 1] :: x in picks[..i];
    }
  }

  lemma ReportsKeepConsistency(db: Table, rs: seq<Inbox.Event>, picks: seq<Option<Id>>)
    requires AllReports(rs) && ValidPicks(db, rs, picks) && AllConsistent(db)
    ensures AllConsistent(ApplyReports(db, rs, picks))
  {
    ReportsFlipOnce(db, rs, picks);
    var after := ApplyReports(db, rs, picks);
    forall id | id in after ensures Consistent(after[id]) {
      if Some(id) in picks {
        var i :| 0 <= i < |picks| && picks[i] == Some(id);
        assert after[picks[i].value].status == Delivered;
      }
    }
  }

  /** A query that finds a match always has a latest one to return. */
  lemma {:induction false} LatestExists(db: Table, ids: set<Id>)
    requires ids <= db.Keys && ids != {}
    ensures exists id :: id in ids && forall other | other in ids :: NotLater(db[other], db[id])
  {
    var x :| x in ids;
    if ids == {x} {
      assert forall other | other in ids :: NotLater(db[other], db[x]);
    } else {
      LatestExists(db, ids - {x});
      var y :| y in ids - {x} && forall other | other in ids - {x} :: NotLater(db[other], db[y]);
      if NotLater(db[x], db[y]) {
        assert forall other | other in ids :: NotLater(db[other], db[y]);
      } else {
        assert forall other | other in ids :: NotLater(db[other], db[x]);
      }
    }
  }

  method QueryReport(db: Table, r: Inbox.Event) returns (pick: Option<Id>)
    requires r.Report?
    ensures IsPick(db, r, pick)
    ensures pick.Some? ==>
              && r.delivered && pick.value in db
              && db[pick.value].direction == Outbound && db[pick.value].msisdn == r.msisdn
              && db[pick.value].status == Sent && db[pick.value].deliveredAt == None
              && (r.reference.Some? ==> db[pick.value].modemRef == r.reference)
    ensures r.delivered ==>
              forall id | id in db && db[id].direction == Outbound && db[id].msisdn == r.msisdn
                          && db[id].status == Sent && db[id].deliveredAt == None
                          && (r.reference.Some? ==> db[id].modemRef == r.reference) ::
                pick.Some?
                && (db[id].sentAt.Some? ==>
                      db[pick.value].sentAt.Some? && db[id].sentAt.value <= db[pick.value].sentAt.value)
  {
    if !r.delivered {
      return None;
    }
    var found := set id | id in db && Matches(db[id], r);
    assert forall id | id in db && Matches(db[id], r) :: id in found;
    if found == {} {
      return None;
    }
    LatestExists(db, found);
    var id :| id in found && forall other | other in found :: NotLater(db[other], db[id]);
    return Some(id);
  }
}
