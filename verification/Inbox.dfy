/** Reading the modem, as functions over the modem's answers: `_on_incoming`, `fetch_inbound` and
    `_drain_storage` of gateway/worker/modem.py. Callbacks may deliver notifications during any
    command. Timestamps are whole seconds. */
module Inbox {
  import opened Common

  datatype Event =
    | Text(msisdn: string, body: string, receivedAt: int, segments: nat)
    | Report(msisdn: string, reference: Option<int>, delivered: bool, timestamp: int)

  // ---- callbacks ----

  /** `Ignored` covers callback types other than SMS, location-only notices, and notices whose
      handling raises: the callback logs and swallows every exception. */
  datatype Notification =
    | Ignored
    | StatusReport(number: string, reference: Option<int>, status: Option<int>, stamp: int)
    | FullText(number: string, text: string, stamp: int)

  /** 3GPP TS 23.040 section 9.2.3.15: status values 0 to 31 mean the transaction completed. */
  predicate Completed(status: Option<int>) { status.Some? && status.value < 32 }

  function Capture(n: Notification): seq<Event> {
    match n
    case Ignored => []
    case StatusReport(number, reference, status, stamp) => [Report(number, reference, Completed(status), stamp)]
    case FullText(number, text, stamp) => if number != "" && text != "" then [Text(number, text, stamp, 1)] else []
  }

  function CaptureAll(ns: seq<Notification>): seq<Event> {
    if |ns| == 0 then [] else CaptureAll(ns[..|ns| - 1]) + Capture(ns[|ns| - 1])
  }

  // ---- the store ----

  /** One stored part as gammu reports it; a part without a number makes `first["Number"]` raise. */
  datatype Part = Part(location: int, number: Option<string>, isReport: bool,
                       reference: Option<int>, status: Option<int>, stamp: int, text: string)

  type Entry = e: seq<Part> | |e| > 0 witness [Part(0, None, false, None, None, 0, "")]

  /** One GetNextSMS: an entry, the end of the store, a gammu error, or some other exception. */
  datatype Read = Got(entry: Entry) | EndOfStore | ReadFails(connection: bool) | ReadRaises

  datatype Decoding = Decoded(body: string) | Undecoded | DecodeRaises

  datatype Group = Group(parts: Entry, decoding: Decoding)

  /** LinkSMS and the DecodeSMS of each linked group. */
  datatype Linking = Linked(groups: seq<Group>) | LinkRaises

  datatype Deletion = Deleted | DeleteFails | DeleteRaises

  /** The environment of one `fetch_inbound`: what arrives during each command and how the command
      ends. Past the end of a list the store is empty, and a delete succeeds. */
  datatype Script = Script(readings: seq<(seq<Notification>, Read)>, linking: Linking,
                           deletions: seq<(seq<Notification>, Deletion)>)

  function ReadAt(s: Script, k: nat): (seq<Notification>, Read) {
    if k < |s.readings| then s.readings[k] else ([], EndOfStore)
  }

  function DeleteAt(s: Script, k: nat): (seq<Notification>, Deletion) {
    if k < |s.deletions| then s.deletions[k] else ([], Deleted)
  }

  // ---- _drain_storage, phase by phase ----

  datatype Failure = LinkLost | ModemFailed | OtherException

  /** The read loop from command k on: entries read, events captured meanwhile, how it stopped. */
  function ReadAll(s: Script, k: nat): (seq<Entry>, seq<Event>, Option<Failure>)
    decreases |s.readings| - k
  {
    var (notes, read) := ReadAt(s, k);
    match read
    case Got(entry) =>
      var (raw, arrivals, failure) := ReadAll(s, k + 1);
      ([entry] + raw, CaptureAll(notes) + arrivals, failure)
    case EndOfStore => ([], CaptureAll(notes), None)
    case ReadFails(c) => ([], CaptureAll(notes), Some(if c then LinkLost else ModemFailed))
    case ReadRaises => ([], CaptureAll(notes), Some(OtherException))
  }

  function ReportOf(p: Part): Event
    requires p.number.Some?
  {
    Report(p.number.value, p.reference, Completed(p.status), p.stamp)
  }

  function Locations(parts: seq<Part>): seq<int> {
    seq(|parts|, i requires 0 <= i < |parts| => parts[i].location)
  }

  function StoredReports(raw: seq<Entry>): seq<Entry> {
    if |raw| == 0 then [] else
      StoredReports(raw[..|raw| - 1]) + (if raw[|raw| - 1][0].isReport then [raw[|raw| - 1]] else [])
  }

  function StoredTexts(raw: seq<Entry>): seq<Entry> {
    if |raw| == 0 then [] else
      StoredTexts(raw[..|raw| - 1]) + (if raw[|raw| - 1][0].isReport then [] else [raw[|raw| - 1]])
  }

  predicate ReportsReadable(raw: seq<Entry>) {
    forall i | 0 <= i < |raw| && raw[i][0].isReport :: raw[i][0].number.Some?
  }

  predicate Numbered(entries: seq<Entry>) {
    forall i | 0 <= i < |entries| :: entries[i][0].number.Some?
  }

  function ReportEvents(reports: seq<Entry>): seq<Event>
    requires Numbered(reports)
  {
    if |reports| == 0 then [] else
      ReportEvents(reports[..|reports| - 1]) + [ReportOf(reports[|reports| - 1][0])]
  }

  predicate Readable(g: Group) { !g.decoding.DecodeRaises? && g.parts[0].number.Some? }

  function JoinTexts(parts: seq<Part>): string {
    if |parts| == 0 then "" else JoinTexts(parts[..|parts| - 1]) + parts[|parts| - 1].text
  }

  function TextOf(g: Group): Event
    requires Readable(g)
  {
    var first := g.parts[0];
    var body := if g.decoding.Decoded? then g.decoding.body else JoinTexts(g.parts);
    Text(first.number.value, body, first.stamp, |g.parts|)
  }

  function TextEvents(groups: seq<Group>): seq<Event>
    requires forall i | 0 <= i < |groups| :: Readable(groups[i])
  {
    if |groups| == 0 then [] else TextEvents(groups[..|groups| - 1]) + [TextOf(groups[|groups| - 1])]
  }

  function Flatten(entries: seq<Entry>): seq<Part> {
    if |entries| == 0 then [] else Flatten(entries[..|entries| - 1]) + entries[|entries| - 1]
  }

  function GroupParts(groups: seq<Group>): seq<Part> {
    if |groups| == 0 then [] else GroupParts(groups[..|groups| - 1]) + groups[|groups| - 1].parts
  }

  /** The delete loop from index k on: commands issued, events captured meanwhile, and whether an
      exception other than a gammu error escaped. */
  function DeleteAll(s: Script, locations: seq<int>, k: nat): (seq<int>, seq<Event>, bool)
    requires k <= |locations|
    decreases |locations| - k
  {
    if k == |locations| then ([], [], false)
    else
      var (notes, deletion) := DeleteAt(s, k);
      if deletion.DeleteRaises? then ([locations[k]], CaptureAll(notes), true)
      else
        var (issued, arrivals, raised) := DeleteAll(s, locations, k + 1);
        ([locations[k]] + issued, CaptureAll(notes) + arrivals, raised)
  }

  // ---- fetch_inbound ----

  datatype Result = Fetched(events: seq<Event>) | Raised(failure: Failure)

  /** Result of the call, the driver's pending list afterwards, and the deletes issued. */
  datatype Fetch = Fetch(result: Result, pending: seq<Event>, issued: seq<int>)

  predicate Extractable(s: Script, raw: seq<Entry>) {
    && ReportsReadable(raw)
    && s.linking.Linked?
    && forall i | 0 <= i < |s.linking.groups| :: Readable(s.linking.groups[i])
  }

  lemma {:induction false} StoredReportsReadable(raw: seq<Entry>)
    requires ReportsReadable(raw)
    ensures Numbered(StoredReports(raw))
  {
    if |raw| > 0 {
      StoredReportsReadable(raw[..|raw| - 1]);
    }
  }

  function EventsOf(s: Script, raw: seq<Entry>): seq<Event>
    requires Extractable(s, raw)
  {
    StoredReportsReadable(raw);
    ReportEvents(StoredReports(raw)) + TextEvents(s.linking.groups)
  }

  function ToDelete(s: Script, raw: seq<Entry>): seq<int>
    requires s.linking.Linked?
  {
    Locations(Flatten(StoredReports(raw))) + Locations(GroupParts(s.linking.groups))
  }

  /** `_drain_storage` apart from the events it was handed: how it failed, the events read from the
      store, those captured meanwhile, and the deletes issued. */
  datatype Drained = Drained(failure: Option<Failure>, events: seq<Event>, arrivals: seq<Event>, issued: seq<int>)

  function Drain(s: Script): Drained {
    var (raw, arrivals, failure) := ReadAll(s, 0);
    if failure.Some? then Drained(failure, [], arrivals, [])
    else if !Extractable(s, raw) then Drained(Some(OtherException), [], arrivals, [])
    else
      var (issued, late, raised) := DeleteAll(s, ToDelete(s, raw), 0);
      Drained(if raised then Some(OtherException) else None, EventsOf(s, raw), arrivals + late, issued)
  }

  lemma DrainStopsEarly(s: Script)
    ensures var (raw, arrivals, failure) := ReadAll(s, 0);
            && (failure.Some? ==> Drain(s) == Drained(failure, [], arrivals, []))
            && (failure.None? && !Extractable(s, raw) ==> Drain(s) == Drained(Some(OtherException), [], arrivals, []))
  {
  }

  lemma DrainToTheEnd(s: Script, raw: seq<Entry>)
    requires ReadAll(s, 0).2.None? && ReadAll(s, 0).0 == raw && Extractable(s, raw)
    ensures var (issued, late, raised) := DeleteAll(s, ToDelete(s, raw), 0);
            Drain(s) == Drained(if raised then Some(OtherException) else None, EventsOf(s, raw),
                                ReadAll(s, 0).1 + late, issued)
  {
  }

  function FetchInbound(s: Script, pending: seq<Event>): Fetch {
    var d := Drain(s);
    match d.failure
    case Some(failure) => Fetch(Raised(failure), pending + d.arrivals, d.issued)
    case None => Fetch(Fetched(pending + d.events), d.arrivals, d.issued)
  }

  // ---- conservation ----

  /** Environment assumption: LinkSMS partitions its input. */
  ghost predicate LinkingPartitions(s: Script) {
    s.linking.Linked? ==>
      multiset(GroupParts(s.linking.groups)) == multiset(Flatten(StoredTexts(ReadAll(s, 0).0)))
  }

  /** Everything the callbacks capture during the call, in the order of arrival. */
  function Arrivals(s: Script): seq<Event> { Drain(s).arrivals }

  lemma {:induction false} CountEvents(reports: seq<Entry>, groups: seq<Group>)
    requires Numbered(reports)
    requires forall i | 0 <= i < |groups| :: Readable(groups[i])
    ensures |ReportEvents(reports)| == |reports| && |TextEvents(groups)| == |groups|
    decreases |reports| + |groups|
  {
    if |reports| > 0 {
      CountEvents(reports[..|reports| - 1], groups);
    } else if |groups| > 0 {
      CountEvents(reports, groups[..|groups| - 1]);
    }
  }

  lemma {:induction false} DeletesAreIssuedInOrder(s: Script, locations: seq<int>, k: nat)
    requires k <= |locations|
    ensures var (issued, _, raised) := DeleteAll(s, locations, k);
            && issued <= locations[k..]
            && (!raised ==> issued == locations[k..])
            && (raised <==> exists i | k <= i < |locations| :: DeleteAt(s, i).1.DeleteRaises?)
            && (raised ==> issued != [])
    decreases |locations| - k
  {
    if k < |locations| {
      assert locations[k..] == [locations[k]] + locations[k + 1..];
      if !DeleteAt(s, k).1.DeleteRaises? {
        DeletesAreIssuedInOrder(s, locations, k + 1);
      }
    }
  }

  predicate Reached(s: Script, k: nat, i: nat) { forall j | k <= j < i :: !DeleteAt(s, j).1.DeleteRaises? }

  lemma {:induction false} DeletesAreReached(s: Script, locations: seq<int>, k: nat, i: nat)
    requires k <= i < |locations|
    ensures i - k < |DeleteAll(s, locations, k).0| <==> Reached(s, k, i)
    decreases |locations| - k
  {
    if k < i && !DeleteAt(s, k).1.DeleteRaises? {
      DeletesAreReached(s, locations, k + 1, i);
    }
  }

  lemma FlattenSnoc(entries: seq<Entry>, e: Entry)
    ensures Flatten(entries + [e]) == Flatten(entries) + e
  {
    assert (entries + [e])[..|entries|] == entries;
  }

  lemma StoredLast(raw: seq<Entry>)
    requires |raw| > 0
    ensures var front, last := raw[..|raw| - 1], raw[|raw| - 1];
            if last[0].isReport
            then StoredReports(raw) == StoredReports(front) + [last] && StoredTexts(raw) == StoredTexts(front)
            else StoredReports(raw) == StoredReports(front) && StoredTexts(raw) == StoredTexts(front) + [last]
  {
  }

  lemma AddToBag(a: seq<Part>, b: seq<Part>, c: seq<Part>, last: seq<Part>)
    requires multiset(a) + multiset(b) == multiset(c)
    ensures multiset(a + last) + multiset(b) == multiset(c + last)
    ensures multiset(a) + multiset(b + last) == multiset(c + last)
  {
  }

  lemma SplitStep(raw: seq<Entry>, front: seq<Entry>, last: Entry)
    requires raw == front + [last] && last != []
    requires multiset(Flatten(StoredReports(front))) + multiset(Flatten(StoredTexts(front))) == multiset(Flatten(front))
    ensures multiset(Flatten(StoredReports(raw))) + multiset(Flatten(StoredTexts(raw))) == multiset(Flatten(raw))
  {
    hide Flatten, StoredReports, StoredTexts;
    StoredLast(raw);
    assert raw[..|raw| - 1] == front;
    FlattenSnoc(StoredReports(front), last);
    FlattenSnoc(StoredTexts(front), last);
    FlattenSnoc(front, last);
    AddToBag(Flatten(StoredReports(front)), Flatten(StoredTexts(front)), Flatten(front), last);
  }

  lemma NothingStored(raw: seq<Entry>)
    requires raw == []
    ensures Flatten(raw) == [] && StoredReports(raw) == [] && StoredTexts(raw) == []
    ensures Flatten(StoredReports(raw)) == [] && Flatten(StoredTexts(raw)) == []
  {
  }

  lemma {:induction false} SplitStored(raw: seq<Entry>)
    ensures multiset(Flatten(StoredReports(raw))) + multiset(Flatten(StoredTexts(raw))) == multiset(Flatten(raw))
  {
    hide Flatten, StoredReports, StoredTexts;
    if |raw| == 0 {
      NothingStored(raw);
    } else {
      assert raw == raw[..|raw| - 1] + [raw[|raw| - 1]];
      SplitStored(raw[..|raw| - 1]);
      SplitStep(raw, raw[..|raw| - 1], raw[|raw| - 1]);
    }
  }

  predicate Succeeds(s: Script) { Drain(s).failure.None? }

  /** A call that succeeds keeps exactly what arrived meanwhile; any other call keeps every pending
      and arriving event in order. */
  lemma PendingStep(s: Script, pending: seq<Event>)
    ensures FetchInbound(s, pending).result.Fetched? <==> Succeeds(s)
    ensures FetchInbound(s, pending).pending == if Succeeds(s) then Arrivals(s) else pending + Arrivals(s)
  {
  }

  lemma FetchSucceeds(s: Script, pending: seq<Event>)
    requires Succeeds(s)
    ensures var f, raw := FetchInbound(s, pending), ReadAll(s, 0).0;
            && f.result.Fetched? && Extractable(s, raw)
            && f.result.events == pending + EventsOf(s, raw) && f.issued == ToDelete(s, raw)
  {
    var raw := ReadAll(s, 0).0;
    DeletesAreIssuedInOrder(s, ToDelete(s, raw), 0);
    assert ToDelete(s, raw)[0..] == ToDelete(s, raw);
  }

  lemma {:induction false} ReportEventAt(reports: seq<Entry>, i: nat)
    requires Numbered(reports) && i < |reports|
    ensures i < |ReportEvents(reports)| && ReportEvents(reports)[i] == ReportOf(reports[i][0])
  {
    CountEvents(reports, []);
    CountEvents(reports[..|reports| - 1], []);
    if i < |reports| - 1 {
      ReportEventAt(reports[..|reports| - 1], i);
    }
  }

  lemma {:induction false} TextEventAt(groups: seq<Group>, i: nat)
    requires (forall k | 0 <= k < |groups| :: Readable(groups[k])) && i < |groups|
    ensures i < |TextEvents(groups)| && TextEvents(groups)[i] == TextOf(groups[i])
  {
    CountEvents([], groups);
    CountEvents([], groups[..|groups| - 1]);
    if i < |groups| - 1 {
      TextEventAt(groups[..|groups| - 1], i);
    }
  }

  lemma EventsListed(s: Script, raw: seq<Entry>)
    requires Extractable(s, raw)
    ensures |EventsOf(s, raw)| == |StoredReports(raw)| + |s.linking.groups|
    ensures forall i | 0 <= i < |StoredReports(raw)| ::
              StoredReports(raw)[i][0].number.Some? && EventsOf(s, raw)[i] == ReportOf(StoredReports(raw)[i][0])
    ensures forall i | 0 <= i < |s.linking.groups| ::
              EventsOf(s, raw)[|StoredReports(raw)| + i] == TextOf(s.linking.groups[i])
  {
    hide StoredReports, ReportEvents, TextEvents, ReportOf, TextOf;
    StoredReportsReadable(raw);
    var reports, groups := StoredReports(raw), s.linking.groups;
    CountEvents(reports, groups);
    forall i | 0 <= i < |reports| ensures EventsOf(s, raw)[i] == ReportOf(reports[i][0]) {
      ReportEventAt(reports, i);
    }
    forall i | 0 <= i < |groups| ensures EventsOf(s, raw)[|reports| + i] == TextOf(groups[i]) {
      TextEventAt(groups, i);
    }
  }

  lemma LocationsConcat(a: seq<Part>, b: seq<Part>)
    ensures Locations(a + b) == Locations(a) + Locations(b)
  {
  }

  lemma StoreIsEmptied(s: Script, raw: seq<Entry>) returns (order: seq<Part>)
    requires s.linking.Linked?
    requires multiset(GroupParts(s.linking.groups)) == multiset(Flatten(StoredTexts(raw)))
    ensures multiset(order) == multiset(Flatten(raw)) && ToDelete(s, raw) == Locations(order)
  {
    var reports, texts := Flatten(StoredReports(raw)), GroupParts(s.linking.groups);
    order := reports + texts;
    LocationsConcat(reports, texts);
    SplitStored(raw);
    assert multiset(order) == multiset(reports) + multiset(texts);
  }

  /** A stored status report as an event: delivered when it has a status and the status is below 32. */
  lemma ReportIs(p: Part)
    requires p.number.Some?
    ensures ReportOf(p) == Report(p.number.value, p.reference, p.status.Some? && p.status.value < 32, p.stamp)
  {
  }

  ghost predicate TextRead(g: Group, e: Event) {
    && g.parts[0].number.Some? && !g.decoding.DecodeRaises?
    && e.Text? && e == Text(g.parts[0].number.value, e.body, g.parts[0].stamp, |g.parts|)
    && (g.decoding.Decoded? ==> e.body == g.decoding.body)
    && (g.decoding.Undecoded? ==> e.body == JoinTexts(g.parts))
  }

  lemma TextIs(g: Group)
    requires Readable(g)
    ensures TextRead(g, TextOf(g))
  {
  }

  /** The parts of a text that cannot be decoded are joined in their order. */
  lemma {:induction false} JoinTextsFirst(parts: seq<Part>)
    requires |parts| > 0
    ensures JoinTexts(parts) == parts[0].text + JoinTexts(parts[1..])
  {
    var front, last := parts[..|parts| - 1], parts[|parts| - 1];
    if |parts| == 1 {
      assert parts[1..] == front == [];
    } else {
      JoinTextsFirst(front);
      assert parts[1..][..|parts| - 2] == front[1..] && parts[1..][|parts| - 2] == last;
      Associate(front[0].text, JoinTexts(front[1..]), last.text);
    }
  }

  /** The read loop stops at the first answer that is not an entry: with what it has read at the end of the store,
      or with the failure that answer stands for. */
  lemma {:induction false} ReadsUpTo(s: Script, k: nat, n: nat)
    requires k <= n <= |s.readings| && (forall j | k <= j < n :: s.readings[j].1.Got?)
    requires n < |s.readings| ==> !s.readings[n].1.Got?
    ensures var (raw, _, failure) := ReadAll(s, k);
            && |raw| == n - k && (forall j | k <= j < n :: raw[j - k] == s.readings[j].1.entry)
            && failure == if n == |s.readings| || s.readings[n].1.EndOfStore? then None
                          else if s.readings[n].1 == ReadFails(true) then Some(LinkLost)
                          else if s.readings[n].1 == ReadFails(false) then Some(ModemFailed)
                          else Some(OtherException)
    decreases n - k
  {
    if k < n {
      ReadsUpTo(s, k + 1, n);
    }
  }

  /** A call succeeds exactly when the store could be read to its end, every report has a number, the texts could be
      linked and decoded and have a number, and no delete raised anything but a gammu error. */
  lemma SucceedsIff(s: Script)
    ensures Succeeds(s) <==>
            var (raw, _, failure) := ReadAll(s, 0);
            && failure == None
            && (forall i | 0 <= i < |raw| && raw[i][0].isReport :: raw[i][0].number.Some?)
            && s.linking.Linked?
            && (forall i | 0 <= i < |s.linking.groups| ::
                  !s.linking.groups[i].decoding.DecodeRaises? && s.linking.groups[i].parts[0].number.Some?)
            && forall k | 0 <= k < |ToDelete(s, raw)| :: !DeleteAt(s, k).1.DeleteRaises?
  {
    hide ReadAll, ToDelete, DeleteAt, StoredReports, EventsOf;
    var (raw, _, failure) := ReadAll(s, 0);
    if failure.None? && Extractable(s, raw) {
      DrainToTheEnd(s, raw);
      DeletesAreIssuedInOrder(s, ToDelete(s, raw), 0);
    }
  }

  lemma FetchGives(s: Script, pending: seq<Event>)
    requires LinkingPartitions(s) && Succeeds(s)
    ensures var f := FetchInbound(s, pending);
            var raw := ReadAll(s, 0).0;
            var reports := StoredReports(raw);
            && f.result.Fetched? && s.linking.Linked?
            && |f.result.events| == |pending| + |reports| + |s.linking.groups|
            && (forall i | 0 <= i < |pending| :: f.result.events[i] == pending[i])
            && (forall i | 0 <= i < |reports| ::
                  reports[i][0].number.Some? && f.result.events[|pending| + i] == ReportOf(reports[i][0]))
            && (forall i | 0 <= i < |s.linking.groups| ::
                  Readable(s.linking.groups[i])
                  && f.result.events[|pending| + |reports| + i] == TextOf(s.linking.groups[i]))
            && exists order: seq<Part> :: multiset(order) == multiset(Flatten(raw)) && f.issued == Locations(order)
  {
    hide StoredReports, Flatten, Locations, EventsOf, Readable, ReportOf, TextOf, ReadAll, FetchInbound;
    var raw := ReadAll(s, 0).0;
    FetchSucceeds(s, pending);
    EventsListed(s, raw);
    var order := StoreIsEmptied(s, raw);
    var events, reports := FetchInbound(s, pending).result.events, StoredReports(raw);
    forall i | 0 <= i < |reports| ensures events[|pending| + i] == ReportOf(reports[i][0]) {
      assert events[|pending| + i] == EventsOf(s, raw)[i];
    }
    forall i | 0 <= i < |s.linking.groups| ensures events[|pending| + |reports| + i] == TextOf(s.linking.groups[i]) {
      assert events[|pending| + |reports| + i] == EventsOf(s, raw)[|reports| + i];
    }
  }

  /** A successful call returns every pending event, then the event of each stored report and of each
      linked text, in order, and asks for the deletion of every stored part once. */
  lemma FetchReturnsAll(s: Script, pending: seq<Event>)
    requires LinkingPartitions(s) && Succeeds(s)
    ensures var f := FetchInbound(s, pending);
            var raw := ReadAll(s, 0).0;
            var reports := StoredReports(raw);
            && f.result.Fetched? && s.linking.Linked?
            && |f.result.events| == |pending| + |reports| + |s.linking.groups|
            && (forall i | 0 <= i < |pending| :: f.result.events[i] == pending[i])
            && (forall i | 0 <= i < |reports| ::
                  && reports[i][0].number.Some?
                  && f.result.events[|pending| + i]
                     == Report(reports[i][0].number.value, reports[i][0].reference,
                               reports[i][0].status.Some? && reports[i][0].status.value < 32, reports[i][0].stamp))
            && (forall i | 0 <= i < |s.linking.groups| ::
                  var g, e := s.linking.groups[i], f.result.events[|pending| + |reports| + i];
                  && g.parts[0].number.Some? && !g.decoding.DecodeRaises?
                  && e.Text? && e == Text(g.parts[0].number.value, e.body, g.parts[0].stamp, |g.parts|)
                  && (g.decoding.Decoded? ==> e.body == g.decoding.body)
                  && (g.decoding.Undecoded? ==> e.body == JoinTexts(g.parts)))
            && exists order: seq<Part> :: multiset(order) == multiset(Flatten(raw)) && f.issued == Locations(order)
  {
    hide StoredReports, Flatten, Locations, Readable, ReportOf, TextOf, ReadAll, FetchInbound, Succeeds,
      LinkingPartitions;
    FetchGives(s, pending);
    var events, reports := FetchInbound(s, pending).result.events, StoredReports(ReadAll(s, 0).0);
    forall i | 0 <= i < |reports|
      ensures ReportOf(reports[i][0])
              == Report(reports[i][0].number.value, reports[i][0].reference,
                        reports[i][0].status.Some? && reports[i][0].status.value < 32, reports[i][0].stamp)
    {
      ReportIs(reports[i][0]);
    }
    forall i | 0 <= i < |s.linking.groups| ensures TextRead(s.linking.groups[i], events[|pending| + |reports| + i]) {
      TextIs(s.linking.groups[i]);
    }
  }

  lemma NoGroups(groups: seq<Group>)
    requires groups == []
    ensures TextEvents(groups) == [] && Locations(GroupParts(groups)) == []
  {
  }

  lemma GroupSnoc(groups: seq<Group>, i: nat)
    requires i < |groups| && forall k | 0 <= k <= i :: Readable(groups[k])
    ensures TextEvents(groups[..i + 1]) == TextEvents(groups[..i]) + [TextOf(groups[i])]
    ensures Locations(GroupParts(groups[..i + 1])) == Locations(GroupParts(groups[..i])) + Locations(groups[i].parts)
  {
    hide TextOf, Locations;
    assert groups[..i + 1][..i] == groups[..i];
    LocationsConcat(GroupParts(groups[..i]), groups[i].parts);
  }

  /** A failed call has issued a delete exactly when some DeleteSMS it reached raised something
      else than a gammu error; then texts may be gone from the modem without having been returned.
      With deletes failing only with gammu errors, no failed call deletes anything. */
  lemma FailureAfterDelete(s: Script, pending: seq<Event>)
    ensures var f := FetchInbound(s, pending);
            var (raw, _, failure) := ReadAll(s, 0);
            (f.result.Raised? && f.issued != []) <==>
            (failure.None? && Extractable(s, raw) &&
             exists i | 0 <= i < |ToDelete(s, raw)| :: DeleteAt(s, i).1.DeleteRaises?)
  {
    var (raw, _, failure) := ReadAll(s, 0);
    if failure.None? && Extractable(s, raw) {
      DeletesAreIssuedInOrder(s, ToDelete(s, raw), 0);
    }
  }

  // ---- the loop that tells reports from texts ----

  /** What the loop has made of the first `i` entries, all of whose reports can be read. */
  ghost predicate Classified(raw: seq<Entry>, i: nat, events: seq<Event>, locations: seq<int>, texts: seq<Entry>)
    requires i <= |raw|
  {
    var reports := StoredReports(raw[..i]);
    && ReportsReadable(raw[..i]) && Numbered(reports)
    && events == ReportEvents(reports) && locations == Locations(Flatten(reports))
    && texts == StoredTexts(raw[..i])
  }

  lemma ClassifyNone(raw: seq<Entry>)
    ensures Classified(raw, 0, [], [], [])
  {
  }

  lemma StoredSnoc(raw: seq<Entry>, i: nat)
    requires i < |raw|
    ensures var reports, texts := StoredReports(raw[..i]), StoredTexts(raw[..i]);
            && StoredReports(raw[..i + 1]) == (if raw[i][0].isReport then reports + [raw[i]] else reports)
            && StoredTexts(raw[..i + 1]) == (if raw[i][0].isReport then texts else texts + [raw[i]])
  {
    assert raw[..i + 1][..i] == raw[..i];
  }

  lemma ReadableSnoc(raw: seq<Entry>, i: nat)
    requires i < |raw| && ReportsReadable(raw[..i])
    ensures ReportsReadable(raw[..i + 1]) <==> (raw[i][0].isReport ==> raw[i][0].number.Some?)
  {
    var more := raw[..i + 1];
    assert more[i] == raw[i];
    assert forall k | 0 <= k < i :: more[k] == raw[..i][k];
  }

  /** One more readable report: its event and its locations come last. */
  lemma ReportSnoc(reports: seq<Entry>, e: Entry)
    requires Numbered(reports)
    requires e[0].number.Some?
    ensures Numbered(reports + [e])
    ensures ReportEvents(reports + [e]) == ReportEvents(reports) + [ReportOf(e[0])]
    ensures Locations(Flatten(reports + [e])) == Locations(Flatten(reports)) + Locations(e)
  {
    assert (reports + [e])[..|reports|] == reports;
    FlattenSnoc(reports, e);
    LocationsConcat(Flatten(reports), e);
  }

  lemma ClassifyReport(raw: seq<Entry>, i: nat, events: seq<Event>, locations: seq<int>, texts: seq<Entry>)
    requires i < |raw| && raw[i][0].isReport && raw[i][0].number.Some? && Classified(raw, i, events, locations, texts)
    ensures Classified(raw, i + 1, events + [ReportOf(raw[i][0])], locations + Locations(raw[i]), texts)
  {
    hide StoredReports, StoredTexts, ReportEvents, Flatten, Locations, ReportsReadable, ReportOf;
    StoredSnoc(raw, i);
    ReadableSnoc(raw, i);
    ReportSnoc(StoredReports(raw[..i]), raw[i]);
  }

  lemma ClassifyText(raw: seq<Entry>, i: nat, events: seq<Event>, locations: seq<int>, texts: seq<Entry>)
    requires i < |raw| && !raw[i][0].isReport && Classified(raw, i, events, locations, texts)
    ensures Classified(raw, i + 1, events, locations, texts + [raw[i]])
  {
    hide StoredReports, StoredTexts, ReportEvents, Flatten, Locations, ReportsReadable;
    StoredSnoc(raw, i);
    ReadableSnoc(raw, i);
  }

  lemma ClassifyAll(raw: seq<Entry>, events: seq<Event>, locations: seq<int>, texts: seq<Entry>)
    requires Classified(raw, |raw|, events, locations, texts)
    ensures ReportsReadable(raw) && Numbered(StoredReports(raw))
    ensures events == ReportEvents(StoredReports(raw)) && texts == StoredTexts(raw)
    ensures locations == Locations(Flatten(StoredReports(raw)))
  {
    assert raw[..|raw|] == raw;
  }

  // ---- over any number of cycles ----

  /** One turn of the loop as the driver sees it: what the callbacks captured during every other command
      since the last poll - sends, connecting, status - and the poll. */
  datatype Cycle = Cycle(before: seq<Notification>, poll: Script)

  /** The driver's pending list after a series of cycles. */
  function PendingAfter(cycles: seq<Cycle>, pending: seq<Event>): seq<Event> {
    if |cycles| == 0 then pending
    else PendingAfter(cycles[1..], FetchInbound(cycles[0].poll, pending + CaptureAll(cycles[0].before)).pending)
  }

  /** The captured events handed over by the polls that succeeded: each returns the pending list it
      found in front of what it read from the store. */
  function HandedOver(cycles: seq<Cycle>, pending: seq<Event>): seq<Event> {
    if |cycles| == 0 then []
    else
      var found := pending + CaptureAll(cycles[0].before);
      (if Succeeds(cycles[0].poll) then found else [])
      + HandedOver(cycles[1..], FetchInbound(cycles[0].poll, found).pending)
  }

  function AllArrivals(cycles: seq<Cycle>): seq<Event> {
    if |cycles| == 0 then []
    else (CaptureAll(cycles[0].before) + Arrivals(cycles[0].poll)) + AllArrivals(cycles[1..])
  }

  lemma Regroup(ok: bool, pending: seq<Event>, arrivals: seq<Event>, next: seq<Event>,
                over: seq<Event>, after: seq<Event>, later: seq<Event>)
    requires next == if ok then arrivals else pending + arrivals
    requires over + after == next + later
    ensures ((if ok then pending else []) + over) + after == pending + (arrivals + later)
  {
    if ok {
      assert (pending + over) + after == pending + (over + after);
    } else {
      assert [] + over == over;
      assert (pending + arrivals) + later == pending + (arrivals + later);
    }
  }

  /** For all callback and storage interleavings: whatever the callbacks ever captured, during whatever
      command, is either handed over or still pending, in order, each event once. */
  lemma {:induction false} CapturedEventsSurvive(cycles: seq<Cycle>, pending: seq<Event>)
    ensures HandedOver(cycles, pending) + PendingAfter(cycles, pending) == pending + AllArrivals(cycles)
    decreases cycles
  {
    if |cycles| > 0 {
      var c := cycles[0];
      var found := pending + CaptureAll(c.before);
      var next := FetchInbound(c.poll, found).pending;
      CapturedEventsSurvive(cycles[1..], next);
      PendingStep(c.poll, found);
      Regroup(Succeeds(c.poll), found, Arrivals(c.poll), next,
              HandedOver(cycles[1..], next), PendingAfter(cycles[1..], next), AllArrivals(cycles[1..]));
      Associate4(pending, CaptureAll(c.before), Arrivals(c.poll), AllArrivals(cycles[1..]));
    }
  }

  // ---- the store over any number of polls ----

  /** The modem's message store, by location. */
  type Store = map<int, Part>

  /** Every part a poll reads is the store's. */
  ghost predicate Reads(s: Script, store: Store) {
    forall p | p in Flatten(ReadAll(s, 0).0) :: p.location in store && store[p.location] == p
  }

  /** Locations a poll has freed. */
  function Freed(s: Script): set<int> {
    var issued := Drain(s).issued;
    set k | 0 <= k < |issued| && DeleteAt(s, k).1.Deleted? :: issued[k]
  }

  function StoreAfter(s: Script, store: Store): Store { store - Freed(s) }

  /** The poll read the part and gave its event to the worker: see FetchReturnsAll. */
  ghost predicate Returned(s: Script, p: Part) { Succeeds(s) && p in Flatten(ReadAll(s, 0).0) }

  /** The delete loop freed the location and was then stopped by a `DeleteSMS` that raised something
      else than a gammu error. */
  ghost predicate FreedInVain(s: Script, location: int) {
    var (raw, _, failure) := ReadAll(s, 0);
    && failure.None? && Extractable(s, raw)
    && exists k, m :: 0 <= k < m < |ToDelete(s, raw)| && ToDelete(s, raw)[k] == location
         && Reached(s, 0, k) && DeleteAt(s, k).1.Deleted? && DeleteAt(s, m).1.DeleteRaises?
  }

  lemma FreedWasRead(s: Script, store: Store, location: int)
    requires LinkingPartitions(s) && Reads(s, store) && location in Freed(s) && location in store
    ensures store[location] in Flatten(ReadAll(s, 0).0)
  {
    hide DeleteAll, StoredTexts, GroupParts, StoredReports, Flatten;
    var raw := ReadAll(s, 0).0;
    var order := StoreIsEmptied(s, raw);
    DeletesAreIssuedInOrder(s, ToDelete(s, raw), 0);
    var issued := Drain(s).issued;
    var k :| 0 <= k < |issued| && issued[k] == location;
    assert issued <= Locations(order);
    assert order[k] in multiset(order);
    assert order[k] in Flatten(raw);
    assert store[location] == order[k];
  }

  /** What one poll loses: a stored part is gone without having been returned exactly when a later delete
      of the same poll raised something else than a gammu error. */
  lemma LostExactlyWhen(s: Script, store: Store, location: int)
    requires LinkingPartitions(s) && Reads(s, store) && location in store
    ensures (location !in StoreAfter(s, store) && !Returned(s, store[location]))
            <==> FreedInVain(s, location)
  {
    hide ReadAll, EventsOf, ToDelete, Flatten, StoredTexts, GroupParts, DeleteAll, LinkingPartitions, Reads;
    var (raw, _, failure) := ReadAll(s, 0);
    if failure.None? && Extractable(s, raw) {
      var locations, issued := ToDelete(s, raw), Drain(s).issued;
      DeletesAreIssuedInOrder(s, locations, 0);
      assert issued <= locations[0..] == locations;
      forall k | 0 <= k < |locations| ensures k < |issued| <==> Reached(s, 0, k) {
        DeletesAreReached(s, locations, 0, k);
      }
      if FreedInVain(s, location) {
        var k, m :| 0 <= k < m < |locations| && locations[k] == location
          && Reached(s, 0, k) && DeleteAt(s, k).1.Deleted? && DeleteAt(s, m).1.DeleteRaises?;
        assert issued[k] == location;
      } else if location in Freed(s) {
        FreedWasRead(s, store, location);
        var k :| 0 <= k < |issued| && DeleteAt(s, k).1.Deleted? && issued[k] == location;
        assert locations[k] == location && Reached(s, 0, k);
        assert forall m | 0 <= m < |locations| :: m > k || !DeleteAt(s, m).1.DeleteRaises?;
      }
    }
  }

  /** A series of polls between which new parts may arrive in free locations. */
  datatype Turn = Turn(arriving: Store, poll: Script)

  ghost predicate Faithful(turns: seq<Turn>, store: Store)
    decreases turns
  {
    |turns| > 0 ==>
      var full := store + turns[0].arriving;
      && turns[0].arriving.Keys !! store.Keys
      && LinkingPartitions(turns[0].poll) && Reads(turns[0].poll, full)
      && Faithful(turns[1..], StoreAfter(turns[0].poll, full))
  }

  function StoreAfterAll(turns: seq<Turn>, store: Store): Store
    decreases turns
  {
    if |turns| == 0 then store
    else StoreAfterAll(turns[1..], StoreAfter(turns[0].poll, store + turns[0].arriving))
  }

  ghost predicate ReturnedOrFreed(s: Script, location: int, p: Part) { Returned(s, p) || FreedInVain(s, location) }

  /** Over any series of polls: a part in the store at any time is still there afterwards, or some poll
      of the series has returned it, or one of them freed it in vain. */
  lemma {:induction false} StoredPartsSurvive(turns: seq<Turn>, store: Store, location: int)
    requires Faithful(turns, store) && location in store
    ensures (location in StoreAfterAll(turns, store) && StoreAfterAll(turns, store)[location] == store[location])
            || exists i :: 0 <= i < |turns| && ReturnedOrFreed(turns[i].poll, location, store[location])
    decreases turns
  {
    hide Returned, FreedInVain, Reads, LinkingPartitions, Freed;
    if |turns| > 0 {
      var poll, full := turns[0].poll, store + turns[0].arriving;
      LostExactlyWhen(poll, full, location);
      if location in StoreAfter(poll, full) {
        StoredPartsSurvive(turns[1..], StoreAfter(poll, full), location);
        if i :| 0 <= i < |turns[1..]| && ReturnedOrFreed(turns[1..][i].poll, location, store[location]) {
          assert turns[i + 1] == turns[1..][i];
        }
      }
    }
  }

  // ---- polls that find one message ----

  /** A store that holds the parts of one text, read and linked without trouble. */
  function OneMessage(entry: Entry, body: string, deletions: seq<(seq<Notification>, Deletion)>): Script {
    Script([([], Got(entry))], Linked([Group(entry, Decoded(body))]), deletions)
  }

  lemma OneEntryIsRead(s: Script, entry: Entry)
    requires s.readings == [([], Got(entry))]
    ensures ReadAll(s, 0) == ([entry], [], None)
  {
    assert ReadAll(s, 1) == ([], [], None);
    assert [entry] + [] == [entry] && CaptureAll([]) + [] == [];
  }

  lemma OneEntryIsStored(entry: Entry)
    requires !entry[0].isReport
    ensures StoredReports([entry]) == [] && StoredTexts([entry]) == [entry] && Flatten([entry]) == entry
    ensures Flatten([]) == []
  {
    assert [entry][..0] == [];
    StoredLast([entry]);
    NothingStored([]);
    assert [] + [entry] == [entry] && [] + entry == entry;
  }

  lemma OneGroup(group: Group)
    requires Readable(group)
    ensures TextEvents([group]) == [TextOf(group)] && GroupParts([group]) == group.parts
  {
    assert [group][..0] == [];
    assert [] + [TextOf(group)] == [TextOf(group)] && [] + group.parts == group.parts;
  }

  lemma OneMessageIsRead(entry: Entry, body: string, deletions: seq<(seq<Notification>, Deletion)>)
    requires entry[0].number.Some? && !entry[0].isReport
    ensures var s := OneMessage(entry, body, deletions);
            && ReadAll(s, 0) == ([entry], [], None) && Extractable(s, [entry]) && LinkingPartitions(s)
            && EventsOf(s, [entry]) == [Text(entry[0].number.value, body, entry[0].stamp, |entry|)]
            && ToDelete(s, [entry]) == Locations(entry) && Flatten([entry]) == entry
  {
    hide ReadAll, StoredReports, StoredTexts, Flatten, TextEvents, GroupParts;
    var s, group := OneMessage(entry, body, deletions), Group(entry, Decoded(body));
    OneEntryIsRead(s, entry);
    OneEntryIsStored(entry);
    OneGroup(group);
    assert Locations([]) == [];
    assert [] + Locations(entry) == Locations(entry) && [] + [TextOf(group)] == [TextOf(group)];
  }

  function OneText(location: int, number: string, text: string): Script {
    OneMessage([Part(location, Some(number), false, None, None, 0, text)], text, [])
  }

  lemma OneTextIsFetched(location: int, number: string, text: string)
    ensures var s := OneText(location, number, text);
            Succeeds(s) && Arrivals(s) == []
            && FetchInbound(s, []) == Fetch(Fetched([Text(number, text, 0, 1)]), [], [location])
  {
    hide ReadAll, EventsOf, ToDelete;
    var s := OneText(location, number, text);
    var entry: Entry := [Part(location, Some(number), false, None, None, 0, text)];
    OneMessageIsRead(entry, text, []);
    assert Locations(entry) == [location];
    assert DeleteAll(s, [location], 1) == ([], [], false);
    assert DeleteAll(s, [location], 0) == ([location] + [], CaptureAll([]) + [], false);
    assert CaptureAll([]) + [] == [] && [location] + [] == [location];
    assert [] + [Text(number, text, 0, 1)] == [Text(number, text, 0, 1)];
  }

  /** A text of two parts whose second `DeleteSMS` raises something else than a gammu error: the call
      fails, and the first part is gone without having been returned. */
  lemma PartIsLost(a: Part, b: Part, body: string, pending: seq<Event>)
    requires a.number.Some? && !a.isReport && a.location != b.location
    ensures var s := OneMessage([a, b], body, [([], Deleted), ([], DeleteRaises)]);
            var store := map[a.location := a, b.location := b];
            && LinkingPartitions(s) && Reads(s, store)
            && FetchInbound(s, pending).result.Raised?
            && StoreAfter(s, store) == map[b.location := b] && !Returned(s, a)
  {
    hide ReadAll, EventsOf, ToDelete, Flatten, LinkingPartitions;
    var deletions := [([], Deleted), ([], DeleteRaises)];
    var s, store := OneMessage([a, b], body, deletions), map[a.location := a, b.location := b];
    OneMessageIsRead([a, b], body, deletions);
    var locations := [a.location, b.location];
    assert Locations([a, b]) == locations;
    assert DeleteAll(s, locations, 1).2 && DeleteAll(s, locations, 1).0 == [b.location];
    assert DeleteAll(s, locations, 0).0 == [a.location] + [b.location] == locations;
    assert DeleteAt(s, 0).1.Deleted? && DeleteAt(s, 1).1.DeleteRaises?;
    assert Drain(s).issued == locations && locations[0] == a.location;
    assert Freed(s) == {a.location};
  }
}
