/** The driver of gateway/worker/modem.py as the object it is: it holds or drops the StateMachine and
    appends to and drains its list of pending events. The serial link itself is the environment: the
    answers to send commands come from `script`, those of one poll from that poll's own script. Incoming
    callbacks run while any command processes the serial buffer, sends included. */
module Modem {
  import opened Common
  import opened Sending
  import Inbox

  class GammuDriver {
    /** `_sm is not None` */
    var connected: bool
    /** `_pending` */
    var pending: seq<Inbox.Event>

    // the modem's side: answers still to come, parts accepted and deletes requested so far
    const script: Script
    var used: nat
    var log: seq<Submit>
    var deletes: seq<int>

    /** every event a callback ever captured, and those of them `fetch_inbound` has returned */
    ghost var captured: seq<Inbox.Event>
    ghost var handed: seq<Inbox.Event>

    constructor (script: Script)
      ensures Valid() && captured == []
      ensures !connected && pending == [] && this.script == script && log == [] && used == 0 && deletes == []
    {
      connected, pending, log, used, deletes := false, [], [], 0, [];
      captured, handed := [], [];
      this.script := script;
    }

    /** No captured event is lost, doubled or reordered: it has been handed over or is pending. */
    ghost predicate Valid()
      reads this
    {
      captured == handed + pending
    }

    function State(): Link
      reads this
    {
      Link(connected, used, log)
    }

    /** What any command may do besides its own work: callbacks append to the pending list. */
    method Command()
      requires Valid()
      modifies this`pending, this`captured
      ensures Valid() && old(captured) <= captured
    {
      var notes: seq<Inbox.Notification> := *;
      Callbacks(notes);
      assert old(captured) + Inbox.CaptureAll(notes) == handed + (old(pending) + Inbox.CaptureAll(notes));
    }

    /** `connect` drops any earlier StateMachine before it opens the port; `notes` arrive once the
        callback is set. */
    method Connect(opens: bool, notes: seq<Inbox.Notification>)
      requires Valid()
      modifies this`connected, this`pending, this`captured
      ensures Valid() && connected == opens
      ensures captured == old(captured) + if opens then Inbox.CaptureAll(notes) else []
    {
      connected := false;
      if opens {
        connected := true;
        Callbacks(notes);
        Associate(handed, old(pending), Inbox.CaptureAll(notes));
      }
    }

    /** Two queries that may fail, and drop the link when the error is one of the connection. */
    method Status(answers: bool, drops: bool) returns (ok: bool)
      requires Valid()
      modifies this`connected, this`pending, this`captured
      ensures Valid() && old(captured) <= captured
      ensures ok <==> old(connected) && answers
      ensures connected <==> old(connected) && (answers || !drops)
    {
      if !connected {
        return false;
      }
      Command();
      if !answers && drops {
        connected := false;
      }
      return answers;
    }

    // ---- sending ----

    method SendPart(part: nat, report: bool) returns (r: PartResult)
      requires Valid()
      modifies this`connected, this`used, this`log, this`pending, this`captured
      ensures Valid() && old(captured) <= captured
      ensures (State(), r) == Sending.SendPart(script, old(State()), part, report)
    {
      if !connected {
        return Raised(ConnectionError);
      }
      Command();
      var answer := Answer(script, used);
      used := used + 1;
      match if report then answer.reported else answer.plain {
        case Accepted(reference) =>
          log := log + [Submit(part, reference, report)];
          r := Ok(reference);
        case GsmError(connection) =>
          if connection {
            connected := false;
          }
          r := Raised(if connection then ConnectionError else ModemFailure);
        case Rejected =>
          r := Raised(Unclassified);
      }
    }

    method SendOne(part: nat, withReport: bool) returns (r: PartResult, reported: bool)
      requires Valid()
      modifies this`connected, this`used, this`log, this`pending, this`captured
      ensures Valid() && old(captured) <= captured
      ensures (State(), r, reported) == Sending.SendOne(script, old(State()), part, withReport)
    {
      r := SendPart(part, withReport);
      if r == Raised(Unclassified) {
        r := SendPart(part, false);
        return r, false;
      }
      return r, withReport;
    }

    /** `n` is the number of parts EncodeSMS makes of the body. */
    method SendSms(n: nat) returns (o: Outcome)
      requires Valid()
      modifies this`connected, this`used, this`log, this`pending, this`captured
      ensures Valid() && old(captured) <= captured
      ensures (State(), o) == Sending.SendSms(script, old(State()), n)
    {
      var encoding := Answer(script, used).encoding;
      used := used + 1;
      if encoding.EncodeFailed? {
        if encoding.connection {
          connected := false;
        }
        return Failed(if encoding.connection then ConnectionError else ModemFailure);
      }
      if encoding.EncodeRaises? {
        return Failed(Unclassified);
      }
      ghost var start := State();
      var requestReport := true;
      var reference: Option<int> := None;
      var index := 0;
      while index < n
        invariant index <= n && Valid() && old(captured) <= captured
        invariant SendParts(script, State(), n, index, requestReport, reference)
                  == SendParts(script, start, n, 0, true, None)
      {
        var result, reported := SendOne(index, requestReport);
        if result.Raised? {
          return Failed(Classify(result.error, index));
        }
        requestReport := reported;
        if result.reference.Some? {
          reference := result.reference;
        }
        index := index + 1;
      }
      return Done(n, reference);
    }

    // ---- receiving ----

    method OnIncoming(n: Inbox.Notification)
      modifies this`pending, this`captured
      ensures pending == old(pending) + Inbox.Capture(n) && captured == old(captured) + Inbox.Capture(n)
      ensures n.StatusReport? ==>
                pending == old(pending)
                           + [Inbox.Report(n.number, n.reference, n.status.Some? && n.status.value < 32, n.stamp)]
      ensures n.FullText? ==>
                pending == old(pending)
                           + if n.number == "" || n.text == "" then [] else [Inbox.Text(n.number, n.text, n.stamp, 1)]
      ensures n.Ignored? ==> pending == old(pending)
    {
      match n {
        case Ignored =>
        case StatusReport(number, reference, status, stamp) =>
          pending := pending + [Inbox.Report(number, reference, Inbox.Completed(status), stamp)];
        case FullText(number, text, stamp) =>
          if number != "" && text != "" {
            pending := pending + [Inbox.Text(number, text, stamp, 1)];
          }
      }
      captured := captured + Inbox.Capture(n);
    }

    /** Callbacks run while a gammu command processes the serial buffer. */
    method Callbacks(notes: seq<Inbox.Notification>)
      modifies this`pending, this`captured
      ensures pending == old(pending) + Inbox.CaptureAll(notes) && captured == old(captured) + Inbox.CaptureAll(notes)
    {
      var i := 0;
      while i < |notes|
        invariant i <= |notes|
        invariant pending == old(pending) + Inbox.CaptureAll(notes[..i])
        invariant captured == old(captured) + Inbox.CaptureAll(notes[..i])
      {
        assert notes[..i + 1][..i] == notes[..i];
        OnIncoming(notes[i]);
        i := i + 1;
      }
      assert notes[..i] == notes;
    }

    /** A call that succeeds hands the pending list over, in front of what it read; a call that fails
        keeps it, in front of what arrived meanwhile. */
    method FetchInbound(s: Inbox.Script) returns (r: Inbox.Result)
      requires Valid()
      modifies this`connected, this`pending, this`captured, this`handed, this`deletes
      ensures Valid() && captured == old(captured) + if old(connected) then Inbox.Arrivals(s) else []
      ensures handed == old(handed) + if r.Fetched? then old(pending) else []
      ensures !old(connected) ==>
                r == Inbox.Raised(Inbox.LinkLost) && pending == old(pending) && deletes == old(deletes)
      ensures old(connected) ==>
                var f := Inbox.FetchInbound(s, old(pending));
                r == f.result && pending == f.pending && deletes == old(deletes) + f.issued
      ensures connected == (old(connected) && r != Inbox.Raised(Inbox.LinkLost))
    {
      hide Inbox.Drain;
      if !connected {
        return Inbox.Raised(Inbox.LinkLost);
      }
      var events := pending;
      pending := [];
      r := DrainStorage(s, events);
      if r.Raised? {
        pending := events + pending;
        Associate(handed, events, Inbox.Drain(s).arrivals);
      } else {
        handed := handed + events;
      }
    }

    method ReadStore(s: Inbox.Script) returns (raw: seq<Inbox.Entry>, failure: Option<Inbox.Failure>)
      modifies this`pending, this`captured
      ensures var (entries, arrivals, f) := Inbox.ReadAll(s, 0);
              && pending == old(pending) + arrivals && captured == old(captured) + arrivals
              && failure == f && (f.None? ==> raw == entries)
    {
      raw := [];
      var k := 0;
      while true
        invariant var (entries, arrivals, f) := Inbox.ReadAll(s, k);
                  var (all, total, f0) := Inbox.ReadAll(s, 0);
                  && f == f0 && raw + entries == all
                  && pending + arrivals == old(pending) + total && captured + arrivals == old(captured) + total
        invariant k <= |s.readings|
        decreases |s.readings| - k
      {
        var (notes, read) := Inbox.ReadAt(s, k);
        ghost var next := Inbox.ReadAll(s, k + 1);
        Associate(pending, Inbox.CaptureAll(notes), next.1);
        Associate(captured, Inbox.CaptureAll(notes), next.1);
        Callbacks(notes);
        match read {
          case Got(entry) =>
            Associate(raw, [entry], next.0);
            raw := raw + [entry];
            k := k + 1;
          case EndOfStore =>
            return raw, None;
          case ReadFails(connection) =>
            return raw, Some(if connection then Inbox.LinkLost else Inbox.ModemFailed);
          case ReadRaises =>
            return raw, Some(Inbox.OtherException);
        }
      }
    }

    method ClassifyEntries(raw: seq<Inbox.Entry>)
      returns (ok: bool, events: seq<Inbox.Event>, locations: seq<int>, texts: seq<Inbox.Entry>)
      ensures ok <==> Inbox.ReportsReadable(raw)
      ensures ok ==> (Inbox.StoredReportsReadable(raw); events == Inbox.ReportEvents(Inbox.StoredReports(raw)))
      ensures ok ==> locations == Inbox.Locations(Inbox.Flatten(Inbox.StoredReports(raw)))
      ensures ok ==> texts == Inbox.StoredTexts(raw)
    {
      hide Inbox.Classified, Inbox.ReportEvents, Inbox.StoredReports, Inbox.StoredTexts, Inbox.Flatten;
      events, locations, texts := [], [], [];
      Inbox.ClassifyNone(raw);
      var i := 0;
      while i < |raw|
        invariant i <= |raw| && Inbox.Classified(raw, i, events, locations, texts)
      {
        var first := raw[i][0];
        if first.isReport {
          if first.number.None? {
            return false, events, locations, texts;
          }
          Inbox.ClassifyReport(raw, i, events, locations, texts);
          events := events + [Inbox.ReportOf(first)];
          locations := locations + Inbox.Locations(raw[i]);
        } else {
          Inbox.ClassifyText(raw, i, events, locations, texts);
          texts := texts + [raw[i]];
        }
        i := i + 1;
      }
      Inbox.ClassifyAll(raw, events, locations, texts);
      Inbox.StoredReportsReadable(raw);
      ok := true;
    }

    method DecodeGroups(groups: seq<Inbox.Group>) returns (ok: bool, events: seq<Inbox.Event>, locations: seq<int>)
      ensures ok <==> forall i | 0 <= i < |groups| :: Inbox.Readable(groups[i])
      ensures ok ==> events == Inbox.TextEvents(groups)
      ensures ok ==> locations == Inbox.Locations(Inbox.GroupParts(groups))
    {
      hide Inbox.TextEvents, Inbox.TextOf, Inbox.GroupParts, Inbox.Locations, Inbox.Readable;
      events, locations := [], [];
      Inbox.NoGroups(groups[..0]);
      var i := 0;
      while i < |groups|
        invariant i <= |groups|
        invariant forall k | 0 <= k < i :: Inbox.Readable(groups[k])
        invariant events == Inbox.TextEvents(groups[..i])
        invariant locations == Inbox.Locations(Inbox.GroupParts(groups[..i]))
      {
        if !Inbox.Readable(groups[i]) {
          return false, events, locations;
        }
        Inbox.GroupSnoc(groups, i);
        events := events + [Inbox.TextOf(groups[i])];
        locations := locations + Inbox.Locations(groups[i].parts);
        i := i + 1;
      }
      assert groups[..i] == groups;
      ok := true;
    }

    method DeleteStored(s: Inbox.Script, locations: seq<int>) returns (raised: bool)
      modifies this`pending, this`captured, this`deletes
      ensures var (issued, arrivals, r) := Inbox.DeleteAll(s, locations, 0);
              && raised == r && deletes == old(deletes) + issued
              && pending == old(pending) + arrivals && captured == old(captured) + arrivals
    {
      var k := 0;
      while k < |locations|
        invariant k <= |locations|
        invariant var (issued, arrivals, r) := Inbox.DeleteAll(s, locations, k);
                  var (all, total, r0) := Inbox.DeleteAll(s, locations, 0);
                  && r == r0 && deletes + issued == old(deletes) + all
                  && pending + arrivals == old(pending) + total && captured + arrivals == old(captured) + total
      {
        var (notes, deletion) := Inbox.DeleteAt(s, k);
        ghost var issued, arrivals := Inbox.DeleteAll(s, locations, k + 1).0, Inbox.DeleteAll(s, locations, k + 1).1;
        Associate(deletes, [locations[k]], issued);
        Associate(pending, Inbox.CaptureAll(notes), arrivals);
        Associate(captured, Inbox.CaptureAll(notes), arrivals);
        deletes := deletes + [locations[k]];
        Callbacks(notes);
        if deletion.DeleteRaises? {
          return true;
        }
        k := k + 1;
      }
      return false;
    }

    /** `taken` is the pending list the caller has set aside. */
    method DrainStorage(s: Inbox.Script, taken: seq<Inbox.Event>) returns (r: Inbox.Result)
      requires connected && pending == []
      modifies this`connected, this`pending, this`captured, this`deletes
      ensures var d := Inbox.Drain(s);
              && r == (if d.failure.Some? then Inbox.Raised(d.failure.value) else Inbox.Fetched(taken + d.events))
              && pending == d.arrivals && captured == old(captured) + d.arrivals
              && deletes == old(deletes) + d.issued
      ensures connected == (r != Inbox.Raised(Inbox.LinkLost))
    {
      hide Inbox.Drain, Inbox.ReadAll, Inbox.Extractable, Inbox.DeleteAll, Inbox.EventsOf, Inbox.ToDelete;
      var raw, failure := ReadStore(s);
      Inbox.DrainStopsEarly(s);
      if failure.Some? {
        connected := failure.value != Inbox.LinkLost;
        return Inbox.Raised(failure.value);
      }
      var ok, events, locations := ExtractEvents(s, raw);
      if !ok {
        return Inbox.Raised(Inbox.OtherException);
      }
      Inbox.DrainToTheEnd(s, raw);
      ghost var late := Inbox.DeleteAll(s, locations, 0).1;
      Associate(old(captured), Inbox.ReadAll(s, 0).1, late);
      assert [] + Inbox.ReadAll(s, 0).1 == Inbox.ReadAll(s, 0).1;
      var raised := DeleteStored(s, locations);
      if raised {
        return Inbox.Raised(Inbox.OtherException);
      }
      return Inbox.Fetched(taken + events);
    }

    method ExtractEvents(s: Inbox.Script, raw: seq<Inbox.Entry>)
      returns (ok: bool, events: seq<Inbox.Event>, locations: seq<int>)
      ensures ok <==> Inbox.Extractable(s, raw)
      ensures ok ==> events == Inbox.EventsOf(s, raw) && locations == Inbox.ToDelete(s, raw)
    {
      var readable, reports, stored, texts := ClassifyEntries(raw);
      if !readable || s.linking.LinkRaises? {
        return false, [], [];
      }
      var decoded, linkedEvents, linked := DecodeGroups(s.linking.groups);
      return decoded, reports + linkedEvents, stored + linked;
    }
  }

  /** `_send_with_retries` of gateway/worker/main.py. */
  method SendWithRetries(driver: GammuDriver, n: nat, maxAttempts: nat) returns (o: Outcome)
    requires maxAttempts > 0
    requires driver.Valid()
    modifies driver`connected, driver`used, driver`log, driver`pending, driver`captured
    ensures driver.Valid() && old(driver.captured) <= driver.captured
    ensures var (k, outcome, _) := Sending.SendWithRetries(driver.script, old(driver.State()), n, maxAttempts);
            driver.State() == k && o == outcome
  {
    var left := maxAttempts;
    o := Failed(ModemFailure);
    while left > 0
      invariant 0 <= left <= maxAttempts && driver.Valid() && old(driver.captured) <= driver.captured
      invariant left > 0 ==>
                  var (k, outcome, _) := Sending.SendWithRetries(driver.script, driver.State(), n, left);
                  var (k0, outcome0, _) := Sending.SendWithRetries(driver.script, old(driver.State()), n, maxAttempts);
                  k == k0 && outcome == outcome0
      invariant left == 0 ==>
                  var (k0, outcome0, _) := Sending.SendWithRetries(driver.script, old(driver.State()), n, maxAttempts);
                  driver.State() == k0 && o == outcome0
    {
      o := driver.SendSms(n);
      if Final(o) {
        return o;
      }
      left := left - 1;
    }
  }
}
