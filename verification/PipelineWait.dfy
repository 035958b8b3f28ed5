/** How long a message can wait, over the runs of the store-and-forward machine: in passes, and between the
    passes in time. */
module PipelineWait {
  import opened Common
  import opened Messages
  import opened Pipeline
  import opened PipelineInvariant
  import opened PipelineOrder
  import opened PipelineTheorems
  import Ordering
  import Segments
  import S = Sending
  import T = Throttle

  // ---- who is ahead ----

  predicate Waits(row: Row) { IsQueued(row) || IsStuck(row) }

  /** The messages on their way that come before the given place in the order of the outbox. */
  function Ahead(db: Table, created: int, id: Id): set<Id> {
    set x | x in db && Waits(db[x]) && (db[x].createdAt < created || (db[x].createdAt == created && x < id))
  }

  /** A message accepted that comes before it all the same: the same second and a smaller id. */
  function Overtakes(e: Event, created: int, id: Id): nat {
    if e.Enqueue? && (e.createdAt < created || (e.createdAt == created && e.id < id)) then 1 else 0
  }

  function Overtaking(es: seq<Event>, created: int, id: Id): nat {
    if |es| == 0 then 0 else Overtaking(es[..|es| - 1], created, id) + Overtakes(es[|es| - 1], created, id)
  }

  function Charges(es: seq<Event>): nat {
    if |es| == 0 then 0 else Charges(es[..|es| - 1]) + if es[|es| - 1].Charge? then 1 else 0
  }

  /** Every crash, exception and lost connection is followed by one before the next pass. */
  function Reconnects(es: seq<Event>): nat {
    if |es| == 0 then 0 else Reconnects(es[..|es| - 1]) + if es[|es| - 1].Connect? then 1 else 0
  }

  // ---- passes ----

  /** A queue that is not empty has been loaded, and the pass has neither asked the bucket nor been cut off. */
  predicate Opening(es: seq<Event>) {
    |es| > 0 &&
    match es[|es| - 1]
    case Snapshot(queue) => queue != []
    case Charge(_, _) => false
    case Deny(_, _) => false
    case Crash => false
    case Fault(_) => false
    case _ => Opening(es[..|es| - 1])
  }

  /** Passes over a queue that was not empty. */
  function Passes(es: seq<Event>): nat {
    if |es| == 0 then 0 else
      Passes(es[..|es| - 1]) + if es[|es| - 1].Snapshot? && es[|es| - 1].queue != [] then 1 else 0
  }

  /** Of these: the first message was granted, was refused, or a crash or an exception came first. */
  function Granting(es: seq<Event>): nat {
    if |es| == 0 then 0 else
      Granting(es[..|es| - 1]) + if es[|es| - 1].Charge? && Opening(es[..|es| - 1]) then 1 else 0
  }

  function Refused(es: seq<Event>): nat {
    if |es| == 0 then 0 else
      Refused(es[..|es| - 1]) + if es[|es| - 1].Deny? && Opening(es[..|es| - 1]) then 1 else 0
  }

  function Broken(es: seq<Event>): nat {
    if |es| == 0 then 0 else
      Broken(es[..|es| - 1])
      + if (es[|es| - 1].Crash? || es[|es| - 1].Fault?) && Opening(es[..|es| - 1]) then 1 else 0
  }

  lemma {:induction false} GrantsCharge(es: seq<Event>)
    ensures Granting(es) <= Charges(es)
  {
    if |es| > 0 {
      GrantsCharge(es[..|es| - 1]);
    }
  }

  /** A pass that has not asked the bucket yet stands at its first message. */
  ghost predicate OpeningOk(es: seq<Event>, w: Worker) {
    Opening(es) <==> w.Pass? && w.at == 0 && w.queue != []
  }

  lemma OpeningStep(cfg: Config, es: seq<Event>, s: State, e: Event)
    requires Enabled(s, e) && OpeningOk(es, s.worker)
    ensures OpeningOk(es + [e], Next(cfg, s, e).worker)
  {
    assert (es + [e])[..|es|] == es;
  }

  lemma SnapshotWhenIdle(s: State, e: Event)
    requires Enabled(s, e)
    ensures e.Snapshot? ==> !s.worker.Pass?
  {
  }

  /** Every pass over a queue asks the bucket, or is cut off. */
  lemma {:induction false} PassesAsk(cfg: Config, pre: seq<Event>, es: seq<Event>)
    requires IsRun(cfg, pre + es) && StateAfter(cfg, pre).worker == Idle(true)
    ensures OpeningOk(es, StateAfter(cfg, pre + es).worker)
    ensures Passes(es) == Granting(es) + Refused(es) + Broken(es) + if Opening(es) then 1 else 0
    decreases es
  {
    hide Next, Enabled;
    if |es| == 0 {
      assert pre + es == pre;
    } else {
      var front, e := es[..|es| - 1], es[|es| - 1];
      LastApart(pre, es);
      RunUnsnoc(cfg, pre + es, pre + front, e);
      PassesAsk(cfg, pre, front);
      OpeningStep(cfg, front, StateAfter(cfg, pre + front), e);
      SnapshotWhenIdle(StateAfter(cfg, pre + front), e);
    }
  }

  // ---- the invariant of a wait ----

  predicate AtHand(w: Worker) { w.Charged? || w.Flight? || w.Landed? }

  /** The message is on the list of the pass, not behind the position, after others that come before it. */
  ghost predicate Listed(s: State, created: int, id: Id, p: nat) {
    var w := s.worker;
    InPass(w) ==>
      && w.at <= p < |w.queue| && w.queue[p] == id
      && forall i | 0 <= i < p && w.queue[i] in s.db ::
           Ordering.Less(s.db[w.queue[i]].createdAt, w.queue[i], created, id)
  }

  /** One grant may be for a message at hand, or be lost to what cut the pass off. */
  function Debt(w: Worker): nat { if AtHand(w) || w.Down? || w.Booting? || w == Idle(false) then 1 else 0 }

  /** The message is done, or it waits and all that was spent, but for the debt, went to messages ahead. */
  ghost predicate WaitOk(s: State, created: int, id: Id, spent: nat, bound: nat, p: nat) {
    || HeadDone(s, id)
    || (&& id in s.db && Waits(s.db[id]) && s.db[id].createdAt == created && Listed(s, created, id, p)
        && spent + |Ahead(s.db, created, id)| <= bound + Debt(s.worker))
  }

  lemma {:induction false} Subset(a: set<Id>, b: set<Id>)
    requires a <= b
    ensures |a| <= |b|
  {
    if a != {} {
      var x :| x in a;
      Subset(a - {x}, b - {x});
    }
  }

  /** A step makes no row wait that did not, and moves none in the order, but for a new message. */
  lemma WaitingRow(cfg: Config, s: State, e: Event, x: Id)
    requires Inv(cfg, s) && Enabled(s, e)
    requires x in Next(cfg, s, e).db && Waits(Next(cfg, s, e).db[x]) && !(e.Enqueue? && x == e.id)
    ensures x in s.db && Waits(s.db[x]) && Next(cfg, s, e).db[x].createdAt == s.db[x].createdAt
  {
    if x in s.db {
      RowStep(cfg, s, e, x);
    } else {
      NewRowStep(cfg, s, e, x);
      if e.Receive? {
        InsertTextsAdds(s.db, e.newIds, e.texts, e.createdAt);
      } else if !e.Enqueue? && !e.Purge? {
        KeysStep(cfg, s, e);
      }
    }
  }

  lemma NewPlace(cfg: Config, s: State, e: Event)
    requires e.Enqueue?
    ensures e.id in Next(cfg, s, e).db && Next(cfg, s, e).db[e.id].createdAt == e.createdAt
  {
  }

  lemma AheadStep(cfg: Config, s: State, e: Event, created: int, id: Id)
    requires Inv(cfg, s) && Enabled(s, e)
    ensures |Ahead(Next(cfg, s, e).db, created, id)|
            <= |Ahead(s.db, created, id)| + Overtakes(e, created, id)
  {
    hide Inv, Enabled, Next, Waits;
    var before, after := Ahead(s.db, created, id), Ahead(Next(cfg, s, e).db, created, id);
    forall x | x in after && !(e.Enqueue? && x == e.id) ensures x in before {
      WaitingRow(cfg, s, e, x);
    }
    if e.Enqueue? {
      NewPlace(cfg, s, e);
      Subset(after, before + if Ordering.Less(e.createdAt, e.id, created, id) then {e.id} else {});
    } else {
      Subset(after, before);
    }
  }

  /** Settling a message that is ahead takes it out of the way. */
  lemma SettleTakesOne(cfg: Config, s: State, e: Event, created: int, id: Id)
    requires Inv(cfg, s) && Enabled(s, e) && e.Settle? && s.worker.outcome != S.Failed(S.ConnectionError)
    requires s.worker.queue[s.worker.at] in Ahead(s.db, created, id)
    ensures |Ahead(Next(cfg, s, e).db, created, id)| < |Ahead(s.db, created, id)|
  {
    var x := s.worker.queue[s.worker.at];
    Subset(Ahead(Next(cfg, s, e).db, created, id), Ahead(s.db, created, id) - {x});
  }

  // ---- steps ----

  /** Undone and still there means still on its way. */
  lemma StillWaits(cfg: Config, s: State, e: Event, created: int, id: Id)
    requires Inv(cfg, s) && Enabled(s, e) && id in s.db && Waits(s.db[id]) && s.db[id].createdAt == created
    ensures var s' := Next(cfg, s, e);
            HeadDone(s', id) || (id in s'.db && Waits(s'.db[id]) && s'.db[id].createdAt == created)
  {
    if id in Next(cfg, s, e).db {
      RowStep(cfg, s, e, id);
    } else {
      DoneStays(cfg, s, e, id);
    }
  }

  lemma ListedAtSnapshot(cfg: Config, s: State, e: Event, created: int, id: Id) returns (p: nat)
    requires Inv(cfg, s) && Enabled(s, e) && e.Snapshot?
    requires id in s.db && Waits(s.db[id]) && s.db[id].createdAt == created
    ensures Listed(Next(cfg, s, e), created, id, p)
  {
    assert !IsStuck(s.db[id]) by {
      assert id !in Stuck(s.db);
    }
    p :| 0 <= p < |e.queue| && e.queue[p] == id;
    assert forall i | 0 <= i < p :: Before(s.db, e.queue[i], e.queue[p]);
  }

  /** Within a pass the list stays, and no row on it moves. */
  lemma ListedStays(cfg: Config, s: State, e: Event, created: int, id: Id, p: nat)
    requires Inv(cfg, s) && Enabled(s, e) && InPass(s.worker) && Listed(s, created, id, p)
    requires InPass(Next(cfg, s, e).worker) && Next(cfg, s, e).worker.at <= p
    ensures Listed(Next(cfg, s, e), created, id, p)
  {
    var w, s' := s.worker, Next(cfg, s, e);
    QueueStays(cfg, s, e, w.queue);
    forall i | 0 <= i < p && w.queue[i] in s'.db
      ensures Ordering.Less(s'.db[w.queue[i]].createdAt, w.queue[i], created, id)
    {
      if w.queue[i] in s.db {
        RowStep(cfg, s, e, w.queue[i]);
      } else {
        NoRebirth(cfg, s, e, w.queue[i]);
      }
    }
  }

  /** When the position is at the message itself and its outcome commits, it is done. */
  lemma OwnSettle(cfg: Config, s: State, e: Event, id: Id)
    requires Inv(cfg, s) && Enabled(s, e) && e.Settle? && s.worker.queue[s.worker.at] == id
    ensures s.worker.outcome == S.Failed(S.ConnectionError) || HeadDone(Next(cfg, s, e), id)
  {
  }

  /** The message at hand, while another one waits further down the list, is ahead of it. */
  lemma AtHandIsAhead(cfg: Config, s: State, created: int, id: Id, p: nat)
    requires Inv(cfg, s) && Listed(s, created, id, p) && s.worker.Landed? && s.worker.at < p
    requires s.worker.queue[s.worker.at] in s.db
    ensures s.worker.queue[s.worker.at] in Ahead(s.db, created, id)
  {
    assert RowAt(s.worker, s.worker.at, s.db[s.worker.queue[s.worker.at]]);
  }

  /** An event on which a grant is spent, or lost with the pass it cuts off. */
  predicate Spends(w: Worker, e: Event) { e.Charge? || ((e.Crash? || e.Fault?) && w.Pass?) }

  function IfConnect(e: Event): nat { if e.Connect? then 1 else 0 }

  lemma Places(cfg: Config, s: State, e: Event)
    requires Enabled(s, e)
    ensures e.Settle? ==> s.worker.Landed? && s.worker.at < |s.worker.queue| && s.worker.queue[s.worker.at] in s.db
    ensures e.Settle? && s.worker.outcome != S.Failed(S.ConnectionError) ==> Next(cfg, s, e).worker.Pass?
    ensures e.Settle? && s.worker.outcome == S.Failed(S.ConnectionError) ==> Next(cfg, s, e).worker == Idle(false)
    ensures !(e.Settle? && s.worker.outcome != S.Failed(S.ConnectionError)) ==>
              Debt(s.worker) + (if Spends(s.worker, e) then 1 else 0) <= Debt(Next(cfg, s, e).worker) + IfConnect(e)
    ensures InPass(Next(cfg, s, e).worker) && !e.Snapshot? ==>
              InPass(s.worker) && Next(cfg, s, e).worker.at == s.worker.at + if e.Settle? then 1 else 0
  {
  }

  lemma WaitStepSettle(cfg: Config, s: State, e: Event, created: int, id: Id, spent: nat, bound: nat, p: nat)
    requires Inv(cfg, s) && Enabled(s, e) && e.Settle? && WaitOk(s, created, id, spent, bound, p)
    requires !HeadDone(s, id) && !HeadDone(Next(cfg, s, e), id)
    requires s.worker.outcome != S.Failed(S.ConnectionError)
    ensures WaitOk(Next(cfg, s, e), created, id, spent, bound, p)
  {
    hide Inv, Next, Enabled, Ahead;
    StillWaits(cfg, s, e, created, id);
    Places(cfg, s, e);
    if s.worker.at == p {
      OwnSettle(cfg, s, e, id);
    } else {
      AtHandIsAhead(cfg, s, created, id, p);
      SettleTakesOne(cfg, s, e, created, id);
      ListedStays(cfg, s, e, created, id, p);
    }
  }

  lemma WaitStepOther(cfg: Config, s: State, e: Event, created: int, id: Id, spent: nat, bound: nat, p: nat)
    returns (p': nat)
    requires Inv(cfg, s) && Enabled(s, e) && WaitOk(s, created, id, spent, bound, p)
    requires !(e.Settle? && s.worker.outcome != S.Failed(S.ConnectionError))
    requires !HeadDone(s, id) && !HeadDone(Next(cfg, s, e), id)
    ensures WaitOk(Next(cfg, s, e), created, id, spent + (if Spends(s.worker, e) then 1 else 0),
                   bound + Overtakes(e, created, id) + IfConnect(e), p')
  {
    hide Inv, Next, Enabled, Ahead, Debt, Spends;
    StillWaits(cfg, s, e, created, id);
    Places(cfg, s, e);
    AheadStep(cfg, s, e, created, id);
    p' := p;
    if e.Snapshot? {
      p' := ListedAtSnapshot(cfg, s, e, created, id);
    } else if InPass(Next(cfg, s, e).worker) {
      ListedStays(cfg, s, e, created, id, p);
    }
  }

  lemma IsUsed(s: State, id: Id)
    requires HeadDone(s, id)
    ensures id in s.used
  {
  }

  lemma WaitStep(cfg: Config, s: State, e: Event, created: int, id: Id, spent: nat, bound: nat, p: nat)
    returns (p': nat)
    requires Inv(cfg, s) && Enabled(s, e) && WaitOk(s, created, id, spent, bound, p)
    ensures WaitOk(Next(cfg, s, e), created, id, spent + (if Spends(s.worker, e) then 1 else 0),
                   bound + Overtakes(e, created, id) + IfConnect(e), p')
  {
    hide Inv, Next, Enabled, HeadDone, Listed, Ahead, Debt;
    p' := p;
    if HeadDone(s, id) {
      IsUsed(s, id);
      DoneStays(cfg, s, e, id);
    } else if !HeadDone(Next(cfg, s, e), id) {
      Places(cfg, s, e);
      if e.Settle? && s.worker.outcome != S.Failed(S.ConnectionError) {
        WaitStepSettle(cfg, s, e, created, id, spent, bound, p);
      } else {
        p' := WaitStepOther(cfg, s, e, created, id, spent, bound, p);
      }
    }
  }

  /** Spending less is fine. */
  lemma WaitLess(s: State, created: int, id: Id, spent: nat, less: nat, bound: nat, p: nat)
    requires WaitOk(s, created, id, spent, bound, p) && less <= spent
    ensures WaitOk(s, created, id, less, bound, p)
  {
  }

  lemma BrokenSpends(es: seq<Event>, w: Worker, e: Event)
    requires OpeningOk(es, w)
    ensures Charges(es + [e]) + Broken(es + [e])
            <= Charges(es) + Broken(es) + if Spends(w, e) then 1 else 0
    ensures Reconnects(es + [e]) == Reconnects(es) + IfConnect(e)
  {
    assert (es + [e])[..|es|] == es;
  }

  lemma OvertakingStep(es: seq<Event>, e: Event, created: int, id: Id)
    ensures Overtaking(es + [e], created, id) == Overtaking(es, created, id) + Overtakes(e, created, id)
  {
    assert (es + [e])[..|es|] == es;
  }

  /** What a stretch of a run may spend while the message waits. */
  function Bound(es: seq<Event>, created: int, id: Id, k: nat): nat {
    k + Overtaking(es, created, id) + Reconnects(es)
  }

  lemma NothingSpent(created: int, id: Id)
    ensures Charges([]) == Broken([]) == Overtaking([], created, id) == Reconnects([]) == 0
    ensures forall k: nat :: Bound([], created, id, k) == k
  {
  }

  lemma WaitOneMore(cfg: Config, s: State, front: seq<Event>, e: Event, created: int, id: Id, k: nat, q: nat)
    returns (p: nat)
    requires Inv(cfg, s) && Enabled(s, e) && OpeningOk(front, s.worker)
    requires WaitOk(s, created, id, Charges(front) + Broken(front), Bound(front, created, id, k), q)
    ensures WaitOk(Next(cfg, s, e), created, id, Charges(front + [e]) + Broken(front + [e]),
                   Bound(front + [e], created, id, k), p)
  {
    hide Inv, Next, Enabled, WaitOk, Charges, Broken, Overtaking, Reconnects, OpeningOk, Spends, Overtakes, IfConnect;
    p := WaitStep(cfg, s, e, created, id, Charges(front) + Broken(front), Bound(front, created, id, k), q);
    BrokenSpends(front, s.worker, e);
    OvertakingStep(front, e, created, id);
    WaitLess(Next(cfg, s, e), created, id, Charges(front) + Broken(front) + (if Spends(s.worker, e) then 1 else 0),
             Charges(front + [e]) + Broken(front + [e]), Bound(front + [e], created, id, k), p);
  }

  lemma {:induction false} WaitAlong(cfg: Config, pre: seq<Event>, es: seq<Event>, created: int, id: Id, k: nat)
    returns (p: nat)
    requires cfg.perMinute >= 1 && IsRun(cfg, pre + es) && StateAfter(cfg, pre).worker == Idle(true)
    requires WaitOk(StateAfter(cfg, pre), created, id, 0, k, 0)
    ensures WaitOk(StateAfter(cfg, pre + es), created, id, Charges(es) + Broken(es), Bound(es, created, id, k), p)
    decreases es
  {
    hide *;
    if |es| == 0 {
      assert pre + es == pre && es == [];
      p := 0;
      NothingSpent(created, id);
    } else {
      var front, e := es[..|es| - 1], es[|es| - 1];
      LastApart(pre, es);
      RunUnsnoc(cfg, pre + es, pre + front, e);
      var q := WaitAlong(cfg, pre, front, created, id, k);
      RunsKeepInv(cfg, pre + front);
      PassesAsk(cfg, pre, front);
      p := WaitOneMore(cfg, StateAfter(cfg, pre + front), front, e, created, id, k, q);
    }
  }

  // ---- the bound ----

  lemma {:induction false} DistinctSize(ids: seq<Id>)
    requires forall i, j | 0 <= i < j < |ids| :: ids[i] != ids[j]
    ensures |IdSet(ids)| == |ids|
  {
    if |ids| > 0 {
      var front, last := ids[..|ids| - 1], ids[|ids| - 1];
      DistinctSize(front);
      assert IdSet(ids) == IdSet(front) + {last};
    }
  }

  /** The k-th message of the outbox has k messages ahead. */
  lemma PlaceInQueue(db: Table, queue: seq<Id>, k: nat)
    requires IsOutbox(db, queue) && k < |queue| && Stuck(db) == {}
    ensures |Ahead(db, db[queue[k]].createdAt, queue[k])| == k
  {
    var ahead := Ahead(db, db[queue[k]].createdAt, queue[k]);
    assert ahead == IdSet(queue[..k]) by {
      forall x | x in ahead ensures x in queue[..k] {
        assert x !in Stuck(db);
        var i :| 0 <= i < |queue| && queue[i] == x;
        assert i > k ==> Before(db, queue[k], queue[i]);
        assert queue[..k][i] == x;
      }
      forall x | x in queue[..k] ensures x in ahead {
        var i :| 0 <= i < k && queue[i] == x;
        assert Before(db, queue[i], queue[k]);
      }
    }
    assert forall i, j | 0 <= i < j < k :: queue[..k][i] != queue[..k][j] by {
      assert forall i, j | 0 <= i < j < k :: Before(db, queue[i], queue[j]);
    }
    DistinctSize(queue[..k]);
  }

  /** Before a pass the k-th message waits behind k others. */
  lemma WaitsAtStart(cfg: Config, s: State, queue: seq<Id>, k: nat)
    requires Inv(cfg, s) && s.worker == Idle(true) && IsOutbox(s.db, queue) && k < |queue|
    ensures WaitOk(s, s.db[queue[k]].createdAt, queue[k], 0, k, 0)
  {
    hide Ahead;
    PlaceInQueue(s.db, queue, k);
  }

  /** At the end of a pass nothing is owed. */
  lemma DoneAfterPass(s: State, created: int, id: Id, spent: nat, bound: nat, p: nat)
    requires WaitOk(s, created, id, spent, bound, p) && s.worker == Receiving && spent > bound
    ensures HeadDone(s, id)
  {
  }

  /** Bounded wait, in every run: a message that is k-th in the outbox has been sent, has failed or was purged by
      the end of the pass in which the bucket has granted more than k messages since, one more for each message
      accepted meanwhile that sorts before it, and one more for each reconnect. */
  lemma BoundedWait(cfg: Config, pre: seq<Event>, es: seq<Event>, queue: seq<Id>, k: nat)
    requires cfg.perMinute >= 1 && IsRun(cfg, pre + es)
    requires StateAfter(cfg, pre).worker == Idle(true) && IsOutbox(StateAfter(cfg, pre).db, queue) && k < |queue|
    requires StateAfter(cfg, pre + es).worker == Receiving
    ensures Charges(es) + Broken(es) > Bound(es, StateAfter(cfg, pre).db[queue[k]].createdAt, queue[k], k) ==>
              var db := StateAfter(cfg, pre + es).db;
              queue[k] !in db || db[queue[k]].status in {Sent, Delivered, Messages.Failed}
  {
    hide IsRun, StateAfter, Enabled, Next, Inv, WaitOk, Charges, Broken, Overtaking, Reconnects;
    SplitRun(cfg, pre, es);
    RunsKeepInv(cfg, pre);
    var s, id := StateAfter(cfg, pre), queue[k];
    WaitsAtStart(cfg, s, queue, k);
    var created := s.db[id].createdAt;
    var p := WaitAlong(cfg, pre, es, created, id, k);
    if Charges(es) + Broken(es) > Bound(es, created, id, k) {
      DoneAfterPass(StateAfter(cfg, pre + es), created, id, Charges(es) + Broken(es), Bound(es, created, id, k), p);
    }
  }

  /** The same in passes: the k-th message is done by the end of pass k + 1, with one more for each message that
      sorts before it meanwhile, for each reconnect, and for each pass that is refused its first message. */
  lemma BoundedPasses(cfg: Config, pre: seq<Event>, es: seq<Event>, queue: seq<Id>, k: nat)
    requires cfg.perMinute >= 1 && IsRun(cfg, pre + es)
    requires StateAfter(cfg, pre).worker == Idle(true) && IsOutbox(StateAfter(cfg, pre).db, queue) && k < |queue|
    requires StateAfter(cfg, pre + es).worker == Receiving
    ensures Passes(es) > Bound(es, StateAfter(cfg, pre).db[queue[k]].createdAt, queue[k], k) + Refused(es) ==>
              var db := StateAfter(cfg, pre + es).db;
              queue[k] !in db || db[queue[k]].status in {Sent, Delivered, Messages.Failed}
  {
    hide IsRun, StateAfter, Bound;
    BoundedWait(cfg, pre, es, queue, k);
    PassesAsk(cfg, pre, es);
    GrantsCharge(es);
  }

  // ---- and in time ----

  /** Time and cost of the latest grant of this worker lifetime. */
  function LastGrant(es: seq<Event>): Option<(real, nat)> {
    if |es| == 0 then None else
      match es[|es| - 1]
      case BootRecover(_, _) => None
      case Charge(now, cost) => Some((now, cost))
      case _ => LastGrant(es[..|es| - 1])
  }

  /** What has flowed in since the latest grant is in the bucket, unless it is full. */
  ghost predicate FillOk(perMinute: nat, grant: Option<(real, nat)>, b: T.Level) {
    || b.tokens >= perMinute as real
    || (grant.Some? && grant.value.0 <= b.last
        && b.tokens >= 1.0 - grant.value.1 as real + T.Inflow(perMinute, b.last - grant.value.0))
  }

  lemma FillStep(perMinute: nat, grant: Option<(real, nat)>, b: T.Level, now: real, cost: nat)
    requires b.perMinute == perMinute >= 1 && b.last <= now && FillOk(perMinute, grant, b)
    ensures var (b', ok) := b.TryTake(now, cost); FillOk(perMinute, if ok then Some((now, cost)) else grant, b')
    ensures !b.TryTake(now, cost).1 ==>
              grant.Some? && grant.value.0 <= now && T.Inflow(perMinute, now - grant.value.0) < grant.value.1 as real
  {
    T.InflowGrows(perMinute, 0.0, now - b.last);
    assert T.Inflow(perMinute, now - now) == 0.0;
    if grant.Some? {
      var at := grant.value.0;
      T.InflowAdds(perMinute, b.last - at, now - b.last);
      assert (b.last - at) + (now - b.last) == now - at;
    }
  }

  lemma FullIsOk(perMinute: nat, now: real)
    ensures FillOk(perMinute, None, T.Full(perMinute, now))
  {
  }

  lemma FillNext(cfg: Config, es: seq<Event>, s: State, e: Event)
    requires cfg.perMinute >= 1 && Inv(cfg, s) && Enabled(s, e) && FillOk(cfg.perMinute, LastGrant(es), s.bucket)
    ensures FillOk(cfg.perMinute, LastGrant(es + [e]), Next(cfg, s, e).bucket)
  {
    hide FillOk, Next;
    assert (es + [e])[..|es|] == es;
    BucketStep(cfg, s, e);
    if e.Charge? || e.Deny? {
      FillStep(cfg.perMinute, LastGrant(es), s.bucket, e.now, e.cost);
    } else if e.BootRecover? {
      FullIsOk(cfg.perMinute, e.now);
    }
  }

  lemma {:induction false} RunsKeepFillOk(cfg: Config, es: seq<Event>)
    requires cfg.perMinute >= 1 && IsRun(cfg, es)
    ensures FillOk(cfg.perMinute, LastGrant(es), StateAfter(cfg, es).bucket)
  {
    hide Next, Enabled, Inv, FillOk;
    if |es| == 0 {
      FullIsOk(cfg.perMinute, 0.0);
    } else {
      var front, e := es[..|es| - 1], es[|es| - 1];
      RunsKeepFillOk(cfg, front);
      RunsKeepInv(cfg, front);
      FillNext(cfg, front, StateAfter(cfg, front), e);
      assert front + [e] == es;
    }
  }

  lemma BucketIsOurs(cfg: Config, s: State)
    requires Inv(cfg, s)
    ensures s.bucket.perMinute == cfg.perMinute
  {
  }

  lemma WithinTime(perMinute: nat, dt: real, cost: nat)
    requires perMinute >= 1 && T.Inflow(perMinute, dt) < cost as real
    ensures dt < 60.0 * cost as real / perMinute as real
  {
    T.TimeForCost(perMinute, cost);
    var time := 60.0 * cost as real / perMinute as real;
    if dt >= time {
      T.InflowGrows(perMinute, time, dt);
    }
  }

  /** A refusal comes less than 60 * cost / perMinute seconds after the latest grant, so less than
      600 / perMinute: a pass that begins later than that is not refused its first message. */
  lemma RefusedSoonAfterGrant(cfg: Config, es: seq<Event>, now: real, cost: nat)
    requires cfg.perMinute >= 1 && IsRun(cfg, es) && Enabled(StateAfter(cfg, es), Deny(now, cost))
    ensures LastGrant(es).Some? && LastGrant(es).value.0 <= now
    ensures now - LastGrant(es).value.0 < 60.0 * LastGrant(es).value.1 as real / cfg.perMinute as real
  {
    hide IsRun, StateAfter, Inv, FillOk, LastGrant;
    RunsKeepFillOk(cfg, es);
    RunsKeepInv(cfg, es);
    var s := StateAfter(cfg, es);
    BucketIsOurs(cfg, s);
    FillStep(cfg.perMinute, LastGrant(es), s.bucket, now, cost);
    WithinTime(cfg.perMinute, now - LastGrant(es).value.0, LastGrant(es).value.1);
  }
}
