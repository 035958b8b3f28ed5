/** The webhook dispatcher of gateway/api/webhooks.py as a machine over the committed
    `webhook_deliveries` table: rounds that load what is due, one POST at a time, manual retries
    (`retry_delivery`), purges, and failures or crashes between a POST and its commit. Times are reals
    read from a clock that never goes backwards; stored times are whole seconds. */
module Webhooks {
  import opened Common
  import Ordering

  type Id = nat

  datatype Status = Pending | Delivered | Failed

  datatype Delivery = Delivery(messageId: Id, attempt: nat, status: Status, responseCode: Option<int>,
                               nextRetryAt: int, deliveredAt: Option<int>, createdAt: int)


  /** 1m, 5m, 30m, 2h, 6h */
  const BACKOFF_DELAYS_SECONDS: seq<nat> := [60, 300, 1800, 7200, 21600]
  const MAX_RETRIES: nat := |BACKOFF_DELAYS_SECONDS|

  function NewDelivery(messageId: Id, now: int): Delivery {
    Delivery(messageId, 0, Pending, None, now, None, now)
  }

  /** `_iso` drops the fraction of a second. */
  function Iso(moment: real): int { moment.Floor }

  /** The row after one POST that ended at `end`. */
  function AfterAttempt(d: Delivery, success: bool, code: Option<int>, end: real): Delivery {
    var d' := d.(attempt := d.attempt + 1, responseCode := code);
    if success then d'.(status := Delivered, deliveredAt := Some(Iso(end)))
    else if d'.attempt > MAX_RETRIES then d'.(status := Failed)
    else d'.(nextRetryAt := Iso(end + BACKOFF_DELAYS_SECONDS[d'.attempt - 1] as real))
  }

  // ---- state and events ----

  /** Where the dispatcher task is; a round carries the list it loaded and when. */
  datatype Task =
    | Asleep
    | Round(due: seq<Id>, at: nat, since: real)
    | Posting(due: seq<Id>, at: nat, since: real)
    | Posted(due: seq<Id>, at: nat, since: real, success: bool, code: Option<int>)

  datatype State = State(deliveries: map<Id, Delivery>, used: set<Id>, messages: set<Id>, task: Task, clock: real)

  function Init(): State { State(map[], {}, {}, Asleep, 0.0) }

  datatype Event =
    | Create(id: Id, messageId: Id, now: int)         // process_inbound commits a text and its delivery
    | Purge(purged: set<Id>)                          // messages and their deliveries are deleted
    | ManualRetry(id: Id, now: int)                   // retry_delivery
    | Begin(since: real, due: seq<Id>)                  // a round loads the due deliveries
    | Orphan(id: Id)                                  // the message is gone: failed without a POST
    | Post(id: Id, start: real)                       // the request goes out
    | Answer(success: bool, code: Option<int>, end: real) // response, timeout or connection error
    | Commit(id: Id, end: real)                       // the outcome commits
    | Abort(lost: Option<Id>)                         // exception or crash; the outcome of `lost` is not recorded
    | Finish                                          // the round is over

  predicate IsDue(d: Delivery, now: int) { d.status == Pending && d.nextRetryAt <= now }

  predicate Before(ds: map<Id, Delivery>, a: Id, b: Id)
    requires a in ds && b in ds
  {
    Ordering.Less(ds[a].nextRetryAt, a, ds[b].nextRetryAt, b)
  }

  ghost predicate IsDueList(ds: map<Id, Delivery>, now: int, due: seq<Id>) {
    && (forall i | 0 <= i < |due| :: due[i] in ds && IsDue(ds[due[i]], now))
    && (forall id | id in ds && IsDue(ds[id], now) :: id in due)
    && (forall i, j | 0 <= i < j < |due| :: Before(ds, due[i], due[j]))
  }

  /** The delivery whose POST is out and not yet recorded. */
  function InFlight(t: Task): Option<Id> {
    if (t.Posting? || t.Posted?) && t.at < |t.due| then Some(t.due[t.at]) else None
  }

  ghost predicate Enabled(s: State, e: Event) {
    var t := s.task;
    match e
    case Create(id, messageId, _) => id !in s.used
    case Purge(_) => true
    case ManualRetry(id, _) => id in s.deliveries && s.deliveries[id].status == Failed
    case Begin(now, due) => t.Asleep? && s.clock <= now && IsDueList(s.deliveries, Iso(now), due)
    case Orphan(id) =>
      t.Round? && t.at < |t.due| && id == t.due[t.at] && id in s.deliveries && s.deliveries[id].messageId !in s.messages
    case Post(id, start) =>
      t.Round? && t.at < |t.due| && id == t.due[t.at] && id in s.deliveries
      && s.deliveries[id].messageId in s.messages && s.clock <= start
    case Answer(success, code, end) =>
      t.Posting? && s.clock <= end && (success <==> code.Some? && 200 <= code.value < 300)
    case Commit(id, end) => t.Posted? && t.at < |t.due| && id == t.due[t.at] && id in s.deliveries && s.clock <= end
    case Abort(lost) => lost == InFlight(t)
    case Finish => t.Round? && t.at == |t.due|
  }

  function Next(s: State, e: Event): State {
    var t := s.task;
    match e
    case Create(id, messageId, now) =>
      s.(deliveries := s.deliveries[id := NewDelivery(messageId, now)], used := s.used + {id},
         messages := s.messages + {messageId})
    case Purge(purged) =>
      s.(deliveries := (map id | id in s.deliveries && s.deliveries[id].messageId !in purged :: s.deliveries[id]),
         messages := s.messages - purged)
    case ManualRetry(id, now) =>
      if id in s.deliveries then
        s.(deliveries := s.deliveries[id := s.deliveries[id].(status := Pending, nextRetryAt := now)])
      else s
    case Begin(now, due) => s.(task := Round(due, 0, now), clock := now)
    case Orphan(id) =>
      if t.Round? && id in s.deliveries then
        s.(deliveries := s.deliveries[id := s.deliveries[id].(status := Failed)],
           task := Round(t.due, t.at + 1, t.since))
      else s
    case Post(_, start) => if t.Round? then s.(task := Posting(t.due, t.at, t.since), clock := start) else s
    case Answer(success, code, end) =>
      if t.Posting? then s.(task := Posted(t.due, t.at, t.since, success, code), clock := end) else s
    case Commit(id, end) =>
      if t.Posted? && id in s.deliveries then
        s.(deliveries := s.deliveries[id := AfterAttempt(s.deliveries[id], t.success, t.code, end)],
           task := Round(t.due, t.at + 1, t.since), clock := end)
      else s
    case Abort(_) => s.(task := Asleep)
    case Finish => s.(task := Asleep)
  }

  // ---- runs ----

  function StateAfter(es: seq<Event>): State {
    if |es| == 0 then Init() else Next(StateAfter(es[..|es| - 1]), es[|es| - 1])
  }

  ghost predicate IsRun(es: seq<Event>) {
    |es| == 0 || (IsRun(es[..|es| - 1]) && Enabled(StateAfter(es[..|es| - 1]), es[|es| - 1]))
  }

  lemma RunSnoc(es: seq<Event>, e: Event)
    requires IsRun(es) && Enabled(StateAfter(es), e)
    ensures IsRun(es + [e]) && StateAfter(es + [e]) == Next(StateAfter(es), e)
  {
    assert (es + [e])[..|es|] == es;
  }

  lemma RunUnsnoc(es: seq<Event>, front: seq<Event>, e: Event)
    requires es == front + [e] && IsRun(es)
    ensures IsRun(front) && Enabled(StateAfter(front), e) && StateAfter(es) == Next(StateAfter(front), e)
  {
    assert es[..|es| - 1] == front;
  }

  // ---- invariant ----

  ghost predicate RowOk(d: Delivery) {
    && (d.deliveredAt.Some? <==> d.status == Delivered)
  }

  /** What the round still has ahead of it is pending and was due when the round began. */
  ghost predicate TaskOk(s: State) {
    var t := s.task;
    !t.Asleep? ==>
      && t.at <= |t.due| && (!t.Round? ==> t.at < |t.due|) && t.since <= s.clock
      && (forall i | 0 <= i < |t.due| :: t.due[i] in s.used)
      && (forall i, j | 0 <= i < j < |t.due| :: t.due[i] != t.due[j])
      && (forall i | t.at <= i < |t.due| && t.due[i] in s.deliveries :: IsDue(s.deliveries[t.due[i]], Iso(t.since)))
  }

  ghost predicate Inv(s: State) {
    && s.deliveries.Keys <= s.used
    && (forall id | id in s.deliveries :: RowOk(s.deliveries[id]))
    && TaskOk(s)
  }

  lemma BeginKeepsInv(s: State, e: Event)
    requires Inv(s) && Enabled(s, e) && e.Begin?
    ensures Inv(Next(s, e))
  {
    forall i, j | 0 <= i < j < |e.due| ensures e.due[i] != e.due[j] {
      assert Before(s.deliveries, e.due[i], e.due[j]);
    }
  }

  lemma StepKeepsInv(s: State, e: Event)
    requires Inv(s) && Enabled(s, e)
    ensures Inv(Next(s, e))
  {
    if e.Begin? {
      BeginKeepsInv(s, e);
    }
  }

  lemma {:induction false} RunsKeepInv(es: seq<Event>)
    requires IsRun(es)
    ensures Inv(StateAfter(es))
  {
    if |es| > 0 {
      RunsKeepInv(es[..|es| - 1]);
      StepKeepsInv(StateAfter(es[..|es| - 1]), es[|es| - 1]);
    }
  }

  // ---- what a round does ----

  /** What became of one loaded delivery: a recorded attempt, or failed because its message is gone. */
  datatype Work = Attempted(id: Id) | Orphaned(id: Id)

  function WorkAfter(work: seq<Work>, e: Event): seq<Work> {
    match e
    case Begin(_, _) => []
    case Commit(id, _) => work + [Attempted(id)]
    case Orphan(id) => work + [Orphaned(id)]
    case _ => work
  }

  /** The work recorded since the latest round began. */
  function RoundWork(es: seq<Event>): seq<Work> {
    if |es| == 0 then [] else WorkAfter(RoundWork(es[..|es| - 1]), es[|es| - 1])
  }

  function Ids(work: seq<Work>): seq<Id> { seq(|work|, i requires 0 <= i < |work| => work[i].id) }

  function Attempts(work: seq<Work>): nat {
    if |work| == 0 then 0 else Attempts(work[..|work| - 1]) + if work[|work| - 1].Attempted? then 1 else 0
  }

  lemma RoundWorkStep(es: seq<Event>, e: Event)
    ensures RoundWork(es + [e]) == WorkAfter(RoundWork(es), e)
  {
    assert (es + [e])[..|es|] == es;
  }

  lemma OneMoreId(work: seq<Work>, w: Work, due: seq<Id>, at: nat)
    requires at < |due| && Ids(work) == due[..at] && w.id == due[at]
    ensures Ids(work + [w]) == due[..at + 1]
  {
    assert |work| == |Ids(work)| == at;
    forall i | 0 <= i < at ensures (work + [w])[i].id == due[i] {
      assert Ids(work)[i] == due[..at][i];
    }
  }

  /** At every point of a round its work is exactly the loaded deliveries up to the position, in order,
      each once; so a round that reaches its end has attempted or failed every delivery it loaded. */
  lemma {:induction false} RoundWorksThroughItsList(es: seq<Event>)
    requires IsRun(es) && !StateAfter(es).task.Asleep?
    ensures var t := StateAfter(es).task; t.at <= |t.due| && Ids(RoundWork(es)) == t.due[..t.at]
  {
    var front, e := es[..|es| - 1], es[|es| - 1];
    RunsKeepInv(es);
    if e.Begin? {
      assert Ids([]) == [];
    } else {
      RunsKeepInv(front);
      RoundWorksThroughItsList(front);
      var t := StateAfter(front).task;
      if e.Commit? || e.Orphan? {
        OneMoreId(RoundWork(front), if e.Commit? then Attempted(e.id) else Orphaned(e.id), t.due, t.at);
      }
    }
  }

  // ---- counting attempts ----

  function Posts(es: seq<Event>, id: Id): nat {
    if |es| == 0 then 0 else
      Posts(es[..|es| - 1], id) + if es[|es| - 1].Post? && es[|es| - 1].id == id then 1 else 0
  }

  function Retries(es: seq<Event>, id: Id): nat {
    if |es| == 0 then 0 else
      Retries(es[..|es| - 1], id) + if es[|es| - 1].ManualRetry? && es[|es| - 1].id == id then 1 else 0
  }

  /** POSTs whose outcome was never recorded. */
  function Lost(es: seq<Event>, id: Id): nat {
    if |es| == 0 then 0 else
      Lost(es[..|es| - 1], id) + if es[|es| - 1] == Abort(Some(id)) then 1 else 0
  }

  function Pending1(s: State, id: Id): nat { if InFlight(s.task) == Some(id) then 1 else 0 }

  ghost predicate CountsOk(es: seq<Event>, s: State, id: Id) {
    && (id !in s.used ==> Posts(es, id) == 0 && Lost(es, id) == 0)
    && (id in s.deliveries ==>
          var d := s.deliveries[id];
          && Posts(es, id) == d.attempt + Lost(es, id) + Pending1(s, id)
          && d.attempt <= MAX_RETRIES + Retries(es, id) + (if d.status == Pending then 0 else 1))
    && Posts(es, id) <= 1 + MAX_RETRIES + Retries(es, id) + Lost(es, id)
  }

  lemma CountsGrow(es: seq<Event>, e: Event, id: Id)
    ensures Posts(es + [e], id) == Posts(es, id) + if e.Post? && e.id == id then 1 else 0
    ensures Retries(es + [e], id) == Retries(es, id) + if e.ManualRetry? && e.id == id then 1 else 0
    ensures Lost(es + [e], id) == Lost(es, id) + if e == Abort(Some(id)) then 1 else 0
  {
    assert (es + [e])[..|es|] == es;
  }

  lemma CountsStep(es: seq<Event>, s: State, e: Event, id: Id)
    requires Inv(s) && Enabled(s, e) && CountsOk(es, s, id)
    ensures CountsOk(es + [e], Next(s, e), id)
  {
    CountsGrow(es, e, id);
    hide Posts, Retries, Lost;
  }

  lemma {:induction false} RunsKeepCounts(es: seq<Event>, id: Id)
    requires IsRun(es)
    ensures CountsOk(es, StateAfter(es), id)
  {
    if |es| > 0 {
      var front := es[..|es| - 1];
      RunsKeepCounts(front, id);
      RunsKeepInv(front);
      CountsStep(front, StateAfter(front), es[|es| - 1], id);
      assert front + [es[|es| - 1]] == es;
    }
  }

  /** Over any interleaving of rounds, manual retries, purges and failures: outside a POST, `attempt`
      is the number of POSTs made less those whose outcome was lost, and no delivery is POSTed more
      than 6 times plus once per manual retry and per lost outcome. */
  lemma AttemptsAreCounted(es: seq<Event>, id: Id)
    requires IsRun(es)
    ensures var s := StateAfter(es);
            && Posts(es, id) <= 6 + Retries(es, id) + Lost(es, id)
            && (id in s.deliveries && InFlight(s.task) != Some(id) ==>
                  s.deliveries[id].attempt == Posts(es, id) - Lost(es, id))
            && (id in s.deliveries ==> s.deliveries[id].attempt <= 6 + Retries(es, id))
  {
    RunsKeepCounts(es, id);
  }

  // ---- forwards from a state ----

  ghost predicate Steps(s: State, es: seq<Event>)
    decreases es
  {
    |es| == 0 || (Enabled(s, es[0]) && Steps(Next(s, es[0]), es[1..]))
  }

  function StateFrom(s: State, es: seq<Event>): State
    decreases es
  {
    if |es| == 0 then s else StateFrom(Next(s, es[0]), es[1..])
  }

  lemma {:induction false} StepsSnoc(s: State, es: seq<Event>, e: Event)
    requires Steps(s, es) && Enabled(StateFrom(s, es), e)
    ensures Steps(s, es + [e]) && StateFrom(s, es + [e]) == Next(StateFrom(s, es), e)
    decreases es
  {
    if |es| > 0 {
      assert (es + [e])[1..] == es[1..] + [e];
      StepsSnoc(Next(s, es[0]), es[1..], e);
    }
  }

  lemma {:induction false} SplitRun(pre: seq<Event>, es: seq<Event>)
    requires IsRun(pre + es)
    ensures IsRun(pre) && Steps(StateAfter(pre), es) && StateAfter(pre + es) == StateFrom(StateAfter(pre), es)
    decreases es
  {
    if |es| == 0 {
      assert pre + es == pre;
    } else {
      var front, e := es[..|es| - 1], es[|es| - 1];
      assert es == front + [e] && pre + es == (pre + front) + [e];
      RunUnsnoc(pre + es, pre + front, e);
      SplitRun(pre, front);
      StepsSnoc(StateAfter(pre), front, e);
    }
  }

  // ---- delivered is final ----

  lemma DeliveredStep(s: State, e: Event, id: Id)
    requires Inv(s) && Enabled(s, e) && id in s.used
    requires id in s.deliveries ==> s.deliveries[id].status == Delivered
    ensures id in Next(s, e).deliveries ==> id in s.deliveries && Next(s, e).deliveries[id] == s.deliveries[id]
    ensures id in Next(s, e).used && !(e.Post? && e.id == id)
  {
  }

  /** Once a delivery is `delivered` its row stays as it is until it is purged, and it is never
      POSTed again. */
  lemma {:induction false} DeliveredIsFinal(s: State, es: seq<Event>, id: Id)
    requires Inv(s) && Steps(s, es) && id in s.used && (id in s.deliveries ==> s.deliveries[id].status == Delivered)
    ensures id in StateFrom(s, es).deliveries ==>
            id in s.deliveries && StateFrom(s, es).deliveries[id] == s.deliveries[id]
    ensures forall i | 0 <= i < |es| :: !(es[i].Post? && es[i].id == id)
    decreases es
  {
    if |es| > 0 {
      DeliveredStep(s, es[0], id);
      StepKeepsInv(s, es[0]);
      DeliveredIsFinal(Next(s, es[0]), es[1..], id);
      forall i | 0 <= i < |es| ensures !(es[i].Post? && es[i].id == id) {
        if i > 0 {
          assert es[1..][i - 1] == es[i];
        }
      }
    }
  }

  // ---- spacing ----

  lemma IsoLosesLessThanASecond(t: real)
    ensures t - 1.0 < Iso(t) as real <= t
  {
  }

  /** A pending delivery keeps its due time until its next POST, unless it is purged or, its message
      gone, failed. */
  lemma {:induction false} DueTimeStays(s: State, es: seq<Event>, id: Id, due: int)
    requires Inv(s) && Steps(s, es) && id in s.used && InFlight(s.task) != Some(id)
    requires id in s.deliveries ==> s.deliveries[id].nextRetryAt == due || s.deliveries[id].status != Pending
    requires forall i | 0 <= i < |es| :: !(es[i].Post? && es[i].id == id) && !(es[i].ManualRetry? && es[i].id == id)
    ensures var s' := StateFrom(s, es);
            && Inv(s') && id in s'.used && InFlight(s'.task) != Some(id)
            && (id in s'.deliveries ==> s'.deliveries[id].nextRetryAt == due || s'.deliveries[id].status != Pending)
    decreases es
  {
    if |es| > 0 {
      var s1 := Next(s, es[0]);
      StepKeepsInv(s, es[0]);
      forall i | 0 <= i < |es[1..]|
        ensures !(es[1..][i].Post? && es[1..][i].id == id) && !(es[1..][i].ManualRetry? && es[1..][i].id == id)
      {
        assert es[1..][i] == es[i + 1];
      }
      DueTimeStays(s1, es[1..], id, due);
    }
  }

  /** Nothing is POSTed before its stored due time. */
  lemma PostIsDue(s: State, id: Id, start: real, due: int)
    requires Inv(s) && Enabled(s, Post(id, start))
    requires s.deliveries[id].nextRetryAt == due || s.deliveries[id].status != Pending
    ensures start >= due as real
  {
    assert IsDue(s.deliveries[s.task.due[s.task.at]], Iso(s.task.since));
    IsoLosesLessThanASecond(s.task.since);
  }

  lemma SpacedFrom(s: State, id: Id, end: real, mid: seq<Event>, start: real)
    requires Inv(s) && Enabled(s, Commit(id, end)) && !s.task.success && s.deliveries[id].attempt < MAX_RETRIES
    requires var s1 := Next(s, Commit(id, end)); Steps(s1, mid) && Enabled(StateFrom(s1, mid), Post(id, start))
    requires forall i | 0 <= i < |mid| ::
               !(mid[i].Post? && mid[i].id == id) && !(mid[i].ManualRetry? && mid[i].id == id)
    ensures start > end + BACKOFF_DELAYS_SECONDS[s.deliveries[id].attempt] as real - 1.0
  {
    var s1, due := Next(s, Commit(id, end)), end + BACKOFF_DELAYS_SECONDS[s.deliveries[id].attempt] as real;
    StepKeepsInv(s, Commit(id, end));
    DueTimeStays(s1, mid, id, Iso(due));
    PostIsDue(StateFrom(s1, mid), id, start, Iso(due));
    IsoLosesLessThanASecond(due);
  }

  /** The next automatic attempt starts more than delay_k - 1 seconds after attempt k has failed; the
      second is lost to truncation. `mid` is whatever happens in between, with no manual retry. */
  lemma AttemptsAreSpaced(pre: seq<Event>, id: Id, end: real, mid: seq<Event>, start: real)
    requires IsRun(pre + ([Commit(id, end)] + mid))
             && Enabled(StateAfter(pre + ([Commit(id, end)] + mid)), Post(id, start))
    requires forall i | 0 <= i < |mid| ::
               !(mid[i].Post? && mid[i].id == id) && !(mid[i].ManualRetry? && mid[i].id == id)
    requires var s := StateAfter(pre);
             s.task.Posted? && !s.task.success && id in s.deliveries && s.deliveries[id].attempt < MAX_RETRIES
    ensures start > end + BACKOFF_DELAYS_SECONDS[StateAfter(pre).deliveries[id].attempt] as real - 1.0
  {
    var s := StateAfter(pre);
    SplitRun(pre, [Commit(id, end)] + mid);
    assert ([Commit(id, end)] + mid)[1..] == mid;
    RunsKeepInv(pre);
    SpacedFrom(s, id, end, mid, start);
  }

  /** A failed attempt that is not the last schedules the next one by the chain: after attempt k the delay
      is the k-th of the five, for every k a reachable state can show. */
  lemma DelaysFollowTheChain(es: seq<Event>, id: Id, end: real)
    requires IsRun(es) && Enabled(StateAfter(es), Commit(id, end)) && !StateAfter(es).task.success
    ensures var k := StateAfter(es).deliveries[id].attempt + 1;
            var after := Next(StateAfter(es), Commit(id, end)).deliveries[id];
            && after.attempt == k == Posts(es, id) - Lost(es, id)
            && (after.status == Pending <==> k <= 5)
            && (k <= 5 ==> after.nextRetryAt == Iso(end + [60.0, 300.0, 1800.0, 7200.0, 21600.0][k - 1]))
  {
    RunsKeepCounts(es, id);
    RunsKeepInv(es);
    var s := StateAfter(es);
    assert IsDue(s.deliveries[s.task.due[s.task.at]], Iso(s.task.since));
  }

  // ---- what an answer means ----

  /** The status code of the latest answer; none for a timeout or a connection error. */
  function LastCode(es: seq<Event>): Option<int> {
    if |es| == 0 then None
    else if es[|es| - 1].Answer? then es[|es| - 1].code
    else LastCode(es[..|es| - 1])
  }

  lemma {:induction false} PostedIsLatest(es: seq<Event>)
    requires IsRun(es) && StateAfter(es).task.Posted?
    ensures var t, code := StateAfter(es).task, LastCode(es);
            t.code == code && (t.success <==> code.Some? && 200 <= code.value < 300)
  {
    if !es[|es| - 1].Answer? {
      PostedIsLatest(es[..|es| - 1]);
    }
  }

  /** In every run: a POST answered with a status code from 200 to 299 leaves its delivery `delivered` from that
      moment on, no other answer does, and the code answered is the one stored. */
  lemma AnswerDecides(es: seq<Event>, id: Id, end: real)
    requires IsRun(es) && Enabled(StateAfter(es), Commit(id, end))
    ensures var code, d := LastCode(es), Next(StateAfter(es), Commit(id, end)).deliveries[id];
            && d.responseCode == code
            && (code.Some? && 200 <= code.value < 300 ==> d.status == Delivered && d.deliveredAt == Some(end.Floor))
            && (code == None || code.value < 200 || code.value >= 300 ==>
                  (d.status == Pending || d.status == Failed) && d.deliveredAt == None)
  {
    PostedIsLatest(es);
    RunsKeepInv(es);
    var t := StateAfter(es).task;
    assert IsDue(StateAfter(es).deliveries[t.due[t.at]], Iso(t.since));
  }

  // ---- time ----

  /** The reading of the clock an event carries, if it carries one. */
  function TimeOf(e: Event): Option<real> {
    match e
    case Begin(since, _) => Some(since)
    case Post(_, start) => Some(start)
    case Answer(_, _, end) => Some(end)
    case Commit(_, end) => Some(end)
    case _ => None
  }

  lemma ClockStep(s: State, e: Event)
    requires Inv(s) && Enabled(s, e)
    ensures TimeOf(e).Some? ==> s.clock <= TimeOf(e).value == Next(s, e).clock
    ensures TimeOf(e).None? ==> Next(s, e).clock == s.clock
  {
  }

  /** The times of a run never decrease, so a POST comes after the beginning of its round and before its answer, and
      the answer before the commit. */
  lemma {:induction false} TimesNeverDecrease(es: seq<Event>)
    requires IsRun(es)
    ensures forall i, j | 0 <= i < j < |es| && TimeOf(es[i]).Some? && TimeOf(es[j]).Some? ::
              TimeOf(es[i]).value <= TimeOf(es[j]).value
    ensures forall i | 0 <= i < |es| && TimeOf(es[i]).Some? :: TimeOf(es[i]).value <= StateAfter(es).clock
  {
    hide Enabled, Next, Inv, TimeOf;
    if |es| > 0 {
      var front := es[..|es| - 1];
      TimesNeverDecrease(front);
      RunsKeepInv(front);
      ClockStep(StateAfter(front), es[|es| - 1]);
      assert forall i | 0 <= i < |front| :: front[i] == es[i];
    }
  }
}
