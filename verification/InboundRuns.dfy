/** What becomes of everything that arrives, over whole runs: from the modem's store and the callbacks,
    through the polls and the text transactions, to the rows of the messages table. */
module InboundRuns {
  import opened Common
  import opened Messages
  import opened Pipeline
  import opened PipelineInvariant
  import opened PipelineTheorems
  import Inbox

  // ---- events by kind ----

  function TextsOf(events: seq<Inbox.Event>): seq<Inbox.Event> {
    if |events| == 0 then [] else
      TextsOf(events[..|events| - 1]) + if events[|events| - 1].Text? then [events[|events| - 1]] else []
  }

  function ReportsOf(events: seq<Inbox.Event>): seq<Inbox.Event> {
    if |events| == 0 then [] else
      ReportsOf(events[..|events| - 1]) + if events[|events| - 1].Report? then [events[|events| - 1]] else []
  }

  lemma {:induction false} SplitByKind(events: seq<Inbox.Event>)
    ensures forall i | 0 <= i < |TextsOf(events)| :: TextsOf(events)[i].Text?
    ensures AllReports(ReportsOf(events))
    ensures |TextsOf(events)| + |ReportsOf(events)| == |events|
  {
    if |events| > 0 {
      SplitByKind(events[..|events| - 1]);
    }
  }

  lemma {:induction false} TextIsListed(events: seq<Inbox.Event>, e: Inbox.Event)
    requires e in events && e.Text?
    ensures e in TextsOf(events)
  {
    if e != events[|events| - 1] {
      TextIsListed(events[..|events| - 1], e);
    }
  }

  // ---- a stored text stays ----

  /** Some purge after event k covers messages created at that time. */
  ghost predicate PurgedAfter(es: seq<Event>, k: nat, createdAt: int) {
    exists i :: k < i < |es| && es[i].Purge? && createdAt < es[i].cutoff
  }

  lemma PurgedAfterStep(es: seq<Event>, k: nat, createdAt: int)
    requires k < |es| - 1
    ensures PurgedAfter(es, k, createdAt)
            <==> PurgedAfter(es[..|es| - 1], k, createdAt) || (es[|es| - 1].Purge? && createdAt < es[|es| - 1].cutoff)
  {
    var front := es[..|es| - 1];
    if i :| k < i < |front| && front[i].Purge? && createdAt < front[i].cutoff {
      assert es[i] == front[i];
    }
    if i :| k < i < |es| - 1 && es[i].Purge? && createdAt < es[i].cutoff {
      assert front[i] == es[i];
    }
  }

  ghost predicate IsText(db: Table, id: Id, text: Inbox.Event, createdAt: int) {
    && id in db && text.Text?
    && db[id] == Row(Inbound, text.msisdn, text.body, Received, text.segments, None, None, createdAt, None, None)
  }

  /** Text j of event k has the row of its id, exactly unless it was purged since. */
  ghost predicate RowOf(cfg: Config, es: seq<Event>, k: nat, j: nat)
    requires k < |es| && es[k].Receive?
  {
    && j < |es[k].newIds| == |es[k].texts|
    && var db, id := StateAfter(cfg, es).db, es[k].newIds[j];
       && (id in db <==> !PurgedAfter(es, k, es[k].createdAt))
       && (id in db ==> IsText(db, id, es[k].texts[j], es[k].createdAt))
  }

  lemma TextStep(cfg: Config, s: State, e: Event, id: Id, text: Inbox.Event, createdAt: int)
    requires Inv(cfg, s) && Enabled(s, e) && id in s.used
    requires id in s.db ==> IsText(s.db, id, text, createdAt)
    ensures var db := Next(cfg, s, e).db;
            && id in Next(cfg, s, e).used
            && (id in db <==> id in s.db && !(e.Purge? && createdAt < e.cutoff))
            && (id in db ==> IsText(db, id, text, createdAt))
  {
    var db := Next(cfg, s, e).db;
    if id !in s.db {
      NoRebirth(cfg, s, e, id);
    } else {
      if id in db {
        RowStep(cfg, s, e, id);
      }
      if e.Receive? {
        InsertTextsAdds(s.db, e.newIds, e.texts, e.createdAt);
      } else if !e.Purge? && !e.Enqueue? {
        KeysStep(cfg, s, e);
      }
    }
  }

  lemma TextArrives(cfg: Config, s: State, e: Event, j: nat)
    requires Inv(cfg, s) && Enabled(s, e) && e.Receive? && j < |e.newIds|
    ensures e.newIds[j] in Next(cfg, s, e).used && |e.newIds| == |e.texts|
    ensures IsText(Next(cfg, s, e).db, e.newIds[j], e.texts[j], e.createdAt)
  {
    InsertTextsAdds(s.db, e.newIds, e.texts, e.createdAt);
  }

  lemma NothingAfter(es: seq<Event>, k: nat, createdAt: int)
    requires k == |es| - 1
    ensures !PurgedAfter(es, k, createdAt)
  {
  }

  lemma IsThere(db: Table, id: Id, text: Inbox.Event, createdAt: int)
    requires IsText(db, id, text, createdAt)
    ensures id in db
  {
  }

  /** A text whose transaction commits is in the table from then on exactly as it came, exactly unless it
      is purged. */
  lemma {:induction false} ReceivedStays(cfg: Config, es: seq<Event>, k: nat, j: nat)
    requires cfg.perMinute >= 1 && IsRun(cfg, es) && k < |es| && es[k].Receive? && j < |es[k].newIds|
    ensures es[k].newIds[j] in StateAfter(cfg, es).used && RowOf(cfg, es, k, j)
  {
    hide Inv, Next, Enabled, PurgedAfter, IsText;
    var front, last := es[..|es| - 1], es[|es| - 1];
    RunsKeepInv(cfg, front);
    if k == |es| - 1 {
      TextArrives(cfg, StateAfter(cfg, front), last, j);
      NothingAfter(es, k, last.createdAt);
      IsThere(StateAfter(cfg, es).db, last.newIds[j], last.texts[j], last.createdAt);
    } else {
      assert front[k] == es[k];
      ReceivedStays(cfg, front, k, j);
      TextStep(cfg, StateAfter(cfg, front), last, es[k].newIds[j], es[k].texts[j], es[k].createdAt);
      PurgedAfterStep(es, k, es[k].createdAt);
    }
  }

  // ---- what the worker did with a poll ----

  /** What one turn of the worker's loop meets if it comes to a poll: the modem's answers, and whether the
      database takes the text transaction. */
  datatype Visit = Visit(poll: Inbox.Script, commits: bool)

  /** A poll that took place: in which turn, what was pending when it began, what it met, and the event of the
      run by which its texts were committed, if they were. */
  datatype Handled = Handled(turn: nat, found: seq<Inbox.Event>, poll: Inbox.Script, commits: bool, stored: Option<nat>)

  /** Its texts have been committed, all of them and nothing else, exactly when the poll returned something
      and the database took the transaction. */
  ghost predicate HandledOk(es: seq<Event>, h: Handled) {
    var f := Inbox.FetchInbound(h.poll, h.found);
    && (h.stored.Some? <==> h.commits && f.result.Fetched? && f.result.events != [])
    && (h.stored.Some? ==>
          && h.stored.value < |es| && es[h.stored.value].Receive?
          && es[h.stored.value].texts == TextsOf(f.result.events))
  }

  lemma HandledStays(es: seq<Event>, more: seq<Event>, h: Handled)
    requires HandledOk(es, h) && es <= more
    ensures HandledOk(more, h)
  {
  }

  function FoundNext(record: seq<Handled>, pending: seq<Inbox.Event>, i: nat): seq<Inbox.Event> {
    if i + 1 < |record| then record[i + 1].found else pending
  }

  /** What a poll finds pending begins with what the one before it left. */
  ghost predicate Chained(record: seq<Handled>, pending: seq<Inbox.Event>) {
    forall i | 0 <= i < |record| ::
      Inbox.FetchInbound(record[i].poll, record[i].found).pending <= FoundNext(record, pending, i)
  }

  /** Each entry is what its turn met, and the turns come in order. */
  ghost predicate Visited(visits: seq<Visit>, record: seq<Handled>) {
    && (forall i | 0 <= i < |record| ::
          record[i].turn < |visits| && visits[record[i].turn] == Visit(record[i].poll, record[i].commits))
    && (forall i, j | 0 <= i < j < |record| :: record[i].turn < record[j].turn)
  }

  /** No two polls share a commit, and the commits come in order. */
  ghost predicate StoredInOrder(record: seq<Handled>) {
    forall i, j | 0 <= i < j < |record| && record[i].stored.Some? && record[j].stored.Some? ::
      record[i].stored.value < record[j].stored.value
  }

  /** The polls of a life of the worker: each is what its turn met, committed exactly its texts or, if the
      database refused or there was nothing, nothing, and found pending what the one before it had left. */
  ghost predicate Recorded(events: seq<Event>, visits: seq<Visit>, record: seq<Handled>, pending: seq<Inbox.Event>) {
    && Visited(visits, record) && StoredInOrder(record) && Chained(record, pending)
    && forall i | 0 <= i < |record| :: HandledOk(events, record[i])
  }

  /** The events of a run by which texts were committed. */
  function Receives(es: seq<Event>): seq<nat> {
    if |es| == 0 then [] else Receives(es[..|es| - 1]) + if es[|es| - 1].Receive? then [|es| - 1] else []
  }

  lemma ReceivesStep(es: seq<Event>, e: Event)
    ensures Receives(es + [e]) == Receives(es) + if e.Receive? then [|es|] else []
  {
    assert (es + [e])[..|es|] == es;
  }

  function StoredBy(h: Handled): seq<nat> { if h.stored.Some? then [h.stored.value] else [] }

  /** Those the polls of a record account for, in order. */
  function StoredOf(record: seq<Handled>): seq<nat> {
    if |record| == 0 then [] else StoredOf(record[..|record| - 1]) + StoredBy(record[|record| - 1])
  }

  /** All deletes the polls of a record issued, in order. */
  function DeletesOf(record: seq<Handled>): seq<int> {
    if |record| == 0 then [] else
      var h := record[|record| - 1];
      DeletesOf(record[..|record| - 1]) + Inbox.FetchInbound(h.poll, h.found).issued
  }

  /** All captured events they handed to the worker, in order. */
  function HandedOf(record: seq<Handled>): seq<Inbox.Event> {
    if |record| == 0 then [] else
      var h := record[|record| - 1];
      HandedOf(record[..|record| - 1]) + if Inbox.FetchInbound(h.poll, h.found).result.Fetched? then h.found else []
  }

  lemma OneMorePoll(record: seq<Handled>, h: Handled)
    ensures var f := Inbox.FetchInbound(h.poll, h.found);
            && DeletesOf(record + [h]) == DeletesOf(record) + f.issued
            && StoredOf(record + [h]) == StoredOf(record) + StoredBy(h)
            && HandedOf(record + [h]) == HandedOf(record) + if f.result.Fetched? then h.found else []
  {
    assert (record + [h])[..|record|] == record;
  }

  lemma NothingRecorded(events: seq<Event>, visits: seq<Visit>, pending: seq<Inbox.Event>)
    ensures Recorded(events, visits, [], pending)
  {
  }

  lemma RecordKept(events: seq<Event>, events': seq<Event>, visits: seq<Visit>, record: seq<Handled>,
                   pending: seq<Inbox.Event>, pending': seq<Inbox.Event>)
    requires Recorded(events, visits, record, pending) && events <= events' && pending <= pending'
    ensures Recorded(events', visits, record, pending')
  {
    hide HandledOk, Inbox.FetchInbound, Visited, StoredInOrder;
    forall i | 0 <= i < |record| ensures HandledOk(events', record[i]) {
      HandledStays(events, events', record[i]);
    }
    forall i | 0 <= i < |record|
      ensures Inbox.FetchInbound(record[i].poll, record[i].found).pending <= FoundNext(record, pending', i)
    {
      assert Inbox.FetchInbound(record[i].poll, record[i].found).pending <= FoundNext(record, pending, i);
    }
  }

  lemma ChainGrows(record: seq<Handled>, h: Handled, pending: seq<Inbox.Event>)
    requires Chained(record, h.found) && Inbox.FetchInbound(h.poll, h.found).pending <= pending
    ensures Chained(record + [h], pending)
  {
    hide Inbox.FetchInbound;
    var more := record + [h];
    forall i | 0 <= i < |more|
      ensures Inbox.FetchInbound(more[i].poll, more[i].found).pending <= FoundNext(more, pending, i)
    {
      if i < |record| {
        assert Inbox.FetchInbound(record[i].poll, record[i].found).pending <= FoundNext(record, h.found, i);
        assert FoundNext(more, pending, i) == FoundNext(record, h.found, i);
      }
    }
  }

  lemma StoredBefore(events: seq<Event>, h: Handled)
    requires HandledOk(events, h)
    ensures h.stored.Some? ==> h.stored.value < |events|
  {
  }

  lemma RecordGrows(events: seq<Event>, events': seq<Event>, visits: seq<Visit>, record: seq<Handled>,
                    pending: seq<Inbox.Event>, h: Handled, pending': seq<Inbox.Event>)
    requires Recorded(events, visits, record, pending) && events <= events' && pending <= h.found
             && HandledOk(events', h)
    requires Inbox.FetchInbound(h.poll, h.found).pending <= pending'
    requires h.turn < |visits| && visits[h.turn] == Visit(h.poll, h.commits)
    requires forall i | 0 <= i < |record| :: record[i].turn < h.turn
    requires h.stored.Some? ==> |events| <= h.stored.value
    ensures Recorded(events', visits, record + [h], pending')
  {
    hide HandledOk, Inbox.FetchInbound, Chained;
    forall i | 0 <= i < |record| ensures record[i].stored.Some? ==> record[i].stored.value < |events| {
      StoredBefore(events, record[i]);
    }
    RecordKept(events, events', visits, record, pending, h.found);
    ChainGrows(record, h, pending');
  }

  /** The text has been committed by event k under an id of its own, and the row of that id is in the
      table exactly unless purged since. */
  ghost predicate InTable(cfg: Config, es: seq<Event>, k: nat, text: Inbox.Event) {
    && k < |es| && es[k].Receive?
    && exists j :: 0 <= j < |es[k].texts| && es[k].texts[j] == text && RowOf(cfg, es, k, j)
  }

  lemma ReceiveIsEnabled(cfg: Config, es: seq<Event>)
    requires IsRun(cfg, es) && |es| > 0 && es[|es| - 1].Receive?
    ensures var e := es[|es| - 1]; |e.newIds| == |e.texts|
  {
    hide StateAfter, Next;
    assert Enabled(StateAfter(cfg, es[..|es| - 1]), es[|es| - 1]);
  }

  lemma ReceivedMatches(cfg: Config, es: seq<Event>, k: nat)
    requires IsRun(cfg, es) && k < |es| && es[k].Receive?
    ensures |es[k].newIds| == |es[k].texts|
  {
    hide StateAfter, Next;
    RunPrefix(cfg, es, k + 1);
    ReceiveIsEnabled(cfg, es[..k + 1]);
  }

  /** What becomes of a text that a poll handed to the worker: it is in the table exactly unless purged since,
      or the database refused the transaction. */
  ghost predicate StoredUnlessRefused(cfg: Config, es: seq<Event>, h: Handled, text: Inbox.Event) {
    !h.commits || (h.stored.Some? && InTable(cfg, es, h.stored.value, text))
  }

  lemma FetchedEndsUp(cfg: Config, es: seq<Event>, h: Handled, text: Inbox.Event)
    requires cfg.perMinute >= 1 && IsRun(cfg, es) && HandledOk(es, h)
    requires var f := Inbox.FetchInbound(h.poll, h.found);
             f.result.Fetched? && text in f.result.events && text.Text?
    ensures StoredUnlessRefused(cfg, es, h, text)
  {
    hide Inbox.FetchInbound, TextsOf, IsRun, StateAfter, PurgedAfter, IsText;
    if h.commits {
      var k := h.stored.value;
      TextIsListed(Inbox.FetchInbound(h.poll, h.found).result.events, text);
      var j :| 0 <= j < |es[k].texts| && es[k].texts[j] == text;
      ReceivedMatches(cfg, es, k);
      ReceivedStays(cfg, es, k, j);
    }
  }

  // ---- from the modem's store to the table ----

  /** The part came in an entry that is a text. */
  ghost predicate ReadAsText(s: Inbox.Script, p: Inbox.Part) {
    p in Inbox.Flatten(Inbox.StoredTexts(Inbox.ReadAll(s, 0).0))
  }

  lemma {:induction false} GroupOf(groups: seq<Inbox.Group>, p: Inbox.Part) returns (g: nat)
    requires p in Inbox.GroupParts(groups)
    ensures g < |groups| && p in groups[g].parts
  {
    var last := |groups| - 1;
    if p in groups[last].parts {
      g := last;
    } else {
      g := GroupOf(groups[..last], p);
    }
  }

  /** A poll that succeeds returns the text of which the part is one. */
  lemma PartIsInAText(h: Handled, p: Inbox.Part) returns (g: nat)
    requires Inbox.LinkingPartitions(h.poll) && Inbox.Succeeds(h.poll) && ReadAsText(h.poll, p)
    ensures h.poll.linking.Linked? && g < |h.poll.linking.groups| && p in h.poll.linking.groups[g].parts
    ensures Inbox.Readable(h.poll.linking.groups[g])
    ensures var f := Inbox.FetchInbound(h.poll, h.found);
            f.result.Fetched? && Inbox.TextOf(h.poll.linking.groups[g]) in f.result.events
  {
    hide Inbox.Drain, Inbox.FetchInbound, Inbox.Flatten, Inbox.StoredTexts, Inbox.ReadAll, Inbox.TextOf, Inbox.Succeeds;
    Inbox.FetchGives(h.poll, h.found);
    assert p in multiset(Inbox.Flatten(Inbox.StoredTexts(Inbox.ReadAll(h.poll, 0).0)));
    assert p in multiset(Inbox.GroupParts(h.poll.linking.groups));
    g := GroupOf(h.poll.linking.groups, p);
    var reports := Inbox.StoredReports(Inbox.ReadAll(h.poll, 0).0);
    var f := Inbox.FetchInbound(h.poll, h.found);
    assert f.result.events[|h.found| + |reports| + g] == Inbox.TextOf(h.poll.linking.groups[g]);
  }

  /** The poll returned the part, and the text of which it is one is in the table exactly unless purged since,
      or the database refused its transaction. A part that came with a delivery report went to the report session. */
  ghost predicate EndedUp(cfg: Config, es: seq<Event>, h: Handled, p: Inbox.Part) {
    && Inbox.Returned(h.poll, p)
    && (ReadAsText(h.poll, p) ==>
          exists g: nat ::
            && h.poll.linking.Linked? && g < |h.poll.linking.groups| && p in h.poll.linking.groups[g].parts
            && Inbox.Readable(h.poll.linking.groups[g])
            && StoredUnlessRefused(cfg, es, h, Inbox.TextOf(h.poll.linking.groups[g])))
  }

  lemma ReturnedEndsUp(cfg: Config, es: seq<Event>, h: Handled, p: Inbox.Part)
    requires cfg.perMinute >= 1 && IsRun(cfg, es) && HandledOk(es, h)
    requires Inbox.LinkingPartitions(h.poll) && Inbox.Returned(h.poll, p)
    ensures EndedUp(cfg, es, h, p)
  {
    hide IsRun, StateAfter, HandledOk, StoredUnlessRefused, ReadAsText, Inbox.FetchInbound, Inbox.LinkingPartitions,
      Inbox.ReadAll, Inbox.Succeeds;
    if ReadAsText(h.poll, p) {
      var g := PartIsInAText(h, p);
      FetchedEndsUp(cfg, es, h, Inbox.TextOf(h.poll.linking.groups[g]));
    }
  }

  lemma {:induction false} FaithfulAt(turns: seq<Inbox.Turn>, store: Inbox.Store, i: nat)
    requires Inbox.Faithful(turns, store) && i < |turns|
    ensures Inbox.LinkingPartitions(turns[i].poll)
    decreases turns
  {
    hide Inbox.LinkingPartitions, Inbox.Reads, Inbox.StoreAfter;
    if i > 0 {
      FaithfulAt(turns[1..], Inbox.StoreAfter(turns[0].poll, store + turns[0].arriving), i - 1);
    }
  }

  /** End to end, over any life of the worker and whatever it meets: a part that is ever in the modem's store is
      still there as it was; or some poll returned it, and its text is in the table, or purged, or the database
      refused it after the modem had been told to delete it; or a poll freed it in vain. */
  lemma PartsEndUp(cfg: Config, es: seq<Event>, visits: seq<Visit>, record: seq<Handled>, pending: seq<Inbox.Event>,
                   turns: seq<Inbox.Turn>, store: Inbox.Store, location: int)
    requires cfg.perMinute >= 1 && IsRun(cfg, es) && Recorded(es, visits, record, pending)
    requires |record| == |turns| && forall i | 0 <= i < |turns| :: turns[i].poll == record[i].poll
    requires Inbox.Faithful(turns, store) && location in store
    ensures var after := Inbox.StoreAfterAll(turns, store);
            || (location in after && after[location] == store[location])
            || exists i :: 0 <= i < |record|
                 && (EndedUp(cfg, es, record[i], store[location]) || Inbox.FreedInVain(record[i].poll, location))
  {
    hide IsRun, StateAfter, HandledOk, EndedUp, Inbox.FreedInVain, Inbox.Returned, Inbox.Reads, Chained, Visited,
      StoredInOrder;
    Inbox.StoredPartsSurvive(turns, store, location);
    var after := Inbox.StoreAfterAll(turns, store);
    if !(location in after && after[location] == store[location]) {
      var i :| 0 <= i < |turns| && Inbox.ReturnedOrFreed(turns[i].poll, location, store[location]);
      FaithfulAt(turns, store, i);
      if Inbox.Returned(turns[i].poll, store[location]) {
        ReturnedEndsUp(cfg, es, record[i], store[location]);
      }
    }
  }

  // ---- from the callbacks to the table ----

  lemma InPrefix(a: seq<Inbox.Event>, b: seq<Inbox.Event>, e: Inbox.Event)
    requires a <= b && e in a
    ensures e in b
  {
    var i :| 0 <= i < |a| && a[i] == e;
    assert b[i] == e;
  }

  /** A text a callback captured, once a poll finds it pending, is still pending at the end, or some poll
      handed it over; then it is in the table, or purged, or the database refused it. */
  lemma {:induction false} CapturedTextsEndUp(cfg: Config, es: seq<Event>, visits: seq<Visit>, record: seq<Handled>,
                                              pending: seq<Inbox.Event>, text: Inbox.Event, from: nat)
    requires cfg.perMinute >= 1 && IsRun(cfg, es) && Recorded(es, visits, record, pending)
    requires from < |record| && text in record[from].found && text.Text?
    ensures || text in pending
            || exists i :: from <= i < |record| && Inbox.Succeeds(record[i].poll) && text in record[i].found
                 && StoredUnlessRefused(cfg, es, record[i], text)
    decreases |record| - from
  {
    hide IsRun, StateAfter, HandledOk, StoredUnlessRefused, Inbox.Drain, TextsOf, Visited, StoredInOrder;
    var h := record[from];
    Inbox.PendingStep(h.poll, h.found);
    if Inbox.Succeeds(h.poll) {
      Inbox.FetchSucceeds(h.poll, h.found);
      FetchedEndsUp(cfg, es, h, text);
    } else {
      var left := Inbox.FetchInbound(h.poll, h.found).pending;
      assert text in left;
      assert left <= FoundNext(record, pending, from);
      InPrefix(left, FoundNext(record, pending, from), text);
      if from + 1 < |record| {
        CapturedTextsEndUp(cfg, es, visits, record, pending, text, from + 1);
      }
    }
  }
}
