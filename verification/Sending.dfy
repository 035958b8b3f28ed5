/** What one send does to the modem, as functions over the modem's answers: `_send_part`,
    `_send_one` and `send_sms` of gateway/worker/modem.py and `_send_with_retries` of
    gateway/worker/main.py. The classes in Modem.dfy compute exactly these. */
module Sending {
  import opened Common

  // ---- the environment ----

  /** EncodeSMS succeeds, fails with a gammu error, or raises something else. */
  datatype Encoding = Encoded | EncodeFailed(connection: bool) | EncodeRaises

  /** How SendSMS ends: accepted with or without an integer reference, a gammu error of the
      connection or of another class, or a ValueError/TypeError. */
  datatype Reply = Accepted(reference: Option<int>) | GsmError(connection: bool) | Rejected

  /** The environment's answer to one command, whichever command it turns out to be. */
  datatype Slot = Slot(encoding: Encoding, reported: Reply, plain: Reply)

  type Script = seq<Slot>

  /** Past the end of the script the port is gone. */
  function Answer(script: Script, k: nat): Slot {
    if k < |script| then script[k] else Slot(EncodeFailed(true), GsmError(true), GsmError(true))
  }

  /** Environment assumption: SendSMS raises ValueError/TypeError only while the report field is
      set. */
  ghost predicate Courteous(script: Script) {
    forall k | 0 <= k < |script| :: !script[k].plain.Rejected?
  }

  // ---- results ----

  datatype Error = ConnectionError | ModemFailure | PartialSend | Unclassified

  datatype PartResult = Ok(reference: Option<int>) | Raised(error: Error)

  datatype Outcome = Done(segments: nat, reference: Option<int>) | Failed(error: Error)

  /** One part the modem accepted. */
  datatype Submit = Submit(part: nat, reference: Option<int>, report: bool)

  /** The driver's side of the serial link: whether a StateMachine is held, how many commands were
      answered, and the parts accepted so far. */
  datatype Link = Link(up: bool, used: nat, log: seq<Submit>)

  // ---- the driver ----

  function SendPart(script: Script, k: Link, part: nat, report: bool): (Link, PartResult) {
    if !k.up then (k, Raised(ConnectionError))
    else
      var answer := Answer(script, k.used);
      match if report then answer.reported else answer.plain
      case Accepted(r) => (Link(true, k.used + 1, k.log + [Submit(part, r, report)]), Ok(r))
      case GsmError(c) => (Link(!c, k.used + 1, k.log), Raised(if c then ConnectionError else ModemFailure))
      case Rejected => (Link(true, k.used + 1, k.log), Raised(Unclassified))
  }

  function SendOne(script: Script, k: Link, part: nat, report: bool): (Link, PartResult, bool) {
    var (k1, r1) := SendPart(script, k, part, report);
    if r1 == Raised(Unclassified) then
      var (k2, r2) := SendPart(script, k1, part, false);
      (k2, r2, false)
    else (k1, r1, report)
  }

  function Classify(error: Error, index: nat): Error {
    if error == Unclassified || index == 0 then error else PartialSend
  }

  function SendParts(script: Script, k: Link, n: nat, index: nat, report: bool, reference: Option<int>): (Link, Outcome)
    requires index <= n
    decreases n - index
  {
    if index == n then (k, Done(n, reference))
    else
      var (k', r, report') := SendOne(script, k, index, report);
      match r
      case Ok(ref) => SendParts(script, k', n, index + 1, report', if ref.Some? then ref else reference)
      case Raised(e) => (k', Failed(Classify(e, index)))
  }

  function SendSms(script: Script, k: Link, n: nat): (Link, Outcome) {
    match Answer(script, k.used).encoding
    case EncodeFailed(c) =>
      (Link(k.up && !c, k.used + 1, k.log), Failed(if c then ConnectionError else ModemFailure))
    case EncodeRaises => (k.(used := k.used + 1), Failed(Unclassified))
    case Encoded => SendParts(script, k.(used := k.used + 1), n, 0, true, None)
  }

  predicate Final(o: Outcome) {
    o.Done? || o.error == ConnectionError || o.error == PartialSend
  }

  function SendWithRetries(script: Script, k: Link, n: nat, attempts: nat): (Link, Outcome, nat)
    requires attempts > 0
    decreases attempts
  {
    var (k', o) := SendSms(script, k, n);
    if Final(o) || attempts == 1 then (k', o, 1)
    else
      var (k'', o', calls) := SendWithRetries(script, k', n, attempts - 1);
      (k'', o', calls + 1)
  }

  // ---- what it achieves ----

  function Parts(log: seq<Submit>): seq<nat> {
    seq(|log|, i requires 0 <= i < |log| => log[i].part)
  }

  function Range(from: nat, to: nat): seq<nat>
    requires from <= to
  {
    seq(to - from, i requires 0 <= i < to - from => from + i)
  }

  function LastReference(log: seq<Submit>, default: Option<int>): Option<int> {
    if |log| == 0 then default
    else if log[|log| - 1].reference.Some? then log[|log| - 1].reference
    else LastReference(log[..|log| - 1], default)
  }

  /** Once a report request was refused, no later part of that message asks for one. */
  ghost predicate ReportsStop(log: seq<Submit>) {
    forall i, j | 0 <= i <= j < |log| && log[j].report :: log[i].report
  }

  /** `accepted` is what the modem took in one call for a message of `n` parts that ended with
      outcome `o`: parts 0, 1, 2, ... in order and each once; all of them for a normal return, some
      but not all for a partial send, none for any other error. */
  ghost predicate Explains(accepted: seq<Submit>, n: nat, o: Outcome) {
    && |accepted| <= n
    && Parts(accepted) == Range(0, |accepted|)
    && ReportsStop(accepted)
    && match o
       case Done(segments, reference) =>
         segments == n == |accepted| && reference == LastReference(accepted, None)
       case Failed(PartialSend) => 0 < |accepted| < n
       case Failed(_) => accepted == []
  }

  lemma LastReferenceExtends(log: seq<Submit>, s: Submit, default: Option<int>)
    ensures LastReference(log + [s], default) ==
            if s.reference.Some? then s.reference else LastReference(log, default)
  {
    assert (log + [s])[..|log|] == log;
  }

  lemma SendOneAccepts(script: Script, k: Link, part: nat, report: bool)
    requires Courteous(script)
    ensures var (k', r, report') := SendOne(script, k, part, report);
            && (report' ==> report)
            && (r.Ok? ==> k'.log == k.log + [Submit(part, r.reference, report')])
            && (r.Raised? ==> k'.log == k.log && r.error in {ConnectionError, ModemFailure})
  {
  }

  /** The loop of `send_sms` before part `index`. */
  ghost predicate InProgress(accepted: seq<Submit>, index: nat, report: bool, reference: Option<int>) {
    && |accepted| == index
    && Parts(accepted) == Range(0, index)
    && ReportsStop(accepted)
    && (report ==> forall i | 0 <= i < index :: accepted[i].report)
    && reference == LastReference(accepted, None)
  }

  lemma OnePartMore(accepted: seq<Submit>, index: nat, report: bool, reference: Option<int>, s: Submit)
    requires InProgress(accepted, index, report, reference)
    requires s.part == index && (s.report ==> report)
    ensures InProgress(accepted + [s], index + 1, s.report, if s.reference.Some? then s.reference else reference)
  {
    assert Parts(accepted + [s]) == Parts(accepted) + [index] == Range(0, index + 1);
    LastReferenceExtends(accepted, s, None);
  }

  lemma {:induction false} SendPartsExplained(script: Script, start: seq<Submit>, k: Link, accepted: seq<Submit>,
                                              n: nat, report: bool, reference: Option<int>)
    requires Courteous(script) && |accepted| <= n && k.log == start + accepted
    requires InProgress(accepted, |accepted|, report, reference)
    ensures var (k', o) := SendParts(script, k, n, |accepted|, report, reference);
            && start <= k'.log
            && Explains(k'.log[|start|..], n, o)
            && (Final(o) || k'.log == start)
    decreases n - |accepted|
  {
    var index := |accepted|;
    assert k.log[|start|..] == accepted;
    if index < n {
      var (k', r, report') := SendOne(script, k, index, report);
      SendOneAccepts(script, k, index, report);
      if r.Ok? {
        var s := Submit(index, r.reference, report');
        OnePartMore(accepted, index, report, reference, s);
        assert k'.log == start + (accepted + [s]);
        SendPartsExplained(script, start, k', accepted + [s], n, report',
                           if r.reference.Some? then r.reference else reference);
      }
    }
  }

  lemma SendSmsExplained(script: Script, k: Link, n: nat)
    requires Courteous(script)
    ensures var (k', o) := SendSms(script, k, n);
            && k.log <= k'.log
            && Explains(k'.log[|k.log|..], n, o)
            && (Final(o) || k'.log == k.log)
  {
    if Answer(script, k.used).encoding.Encoded? {
      SendPartsExplained(script, k.log, k.(used := k.used + 1), [], n, true, None);
    }
  }

  /** A whole `_send_with_retries` call: no part is accepted twice, the outcome tells exactly how
      much went out, and the driver is called at most `attempts` times. */
  lemma {:induction false} SendExplained(script: Script, k: Link, n: nat, attempts: nat)
    requires Courteous(script) && attempts > 0
    ensures var (k', o, calls) := SendWithRetries(script, k, n, attempts);
            && k.log <= k'.log
            && Explains(k'.log[|k.log|..], n, o)
            && 1 <= calls <= attempts
    decreases attempts
  {
    var (k', o) := SendSms(script, k, n);
    SendSmsExplained(script, k, n);
    if !Final(o) && attempts > 1 {
      SendExplained(script, k', n, attempts - 1);
    }
  }

  /** A whole `_send_with_retries` call, driver call by driver call: each goes on from the link the one before it
      left, only a modem error or an unclassified exception is tried again, and it is until the attempts are used
      up. */
  lemma {:induction false} RetriesExplained(script: Script, k: Link, n: nat, attempts: nat)
    returns (links: seq<Link>, outcomes: seq<Outcome>)
    requires attempts > 0
    ensures var (k', o, calls) := SendWithRetries(script, k, n, attempts);
            && |outcomes| == calls && |links| == calls + 1 && 1 <= calls <= attempts
            && links[0] == k && links[calls] == k' && outcomes[calls - 1] == o
            && (forall i | 0 <= i < calls :: (links[i + 1], outcomes[i]) == SendSms(script, links[i], n))
            && (forall i | 0 <= i < calls - 1 ::
                  outcomes[i] == Failed(ModemFailure) || outcomes[i] == Failed(Unclassified))
            && (o == Failed(ModemFailure) || o == Failed(Unclassified) ==> calls == attempts)
            && (calls < attempts ==> o.Done? || o == Failed(ConnectionError) || o == Failed(PartialSend))
    decreases attempts
  {
    var (k', o) := SendSms(script, k, n);
    if Final(o) || attempts == 1 {
      links, outcomes := [k, k'], [o];
    } else {
      var rest, others := RetriesExplained(script, k', n, attempts - 1);
      links, outcomes := [k] + rest, [o] + others;
      assert forall i | 0 < i < |outcomes| :: outcomes[i] == others[i - 1] && links[i] == rest[i - 1];
    }
  }

  /** Read backwards, the accepted parts of a message with at least one part determine the way the
      call ended. */
  lemma OutcomeFromParts(accepted: seq<Submit>, n: nat, o: Outcome)
    requires Explains(accepted, n, o) && n > 0
    ensures o.Done? <==> |accepted| == n
    ensures o == Failed(PartialSend) <==> 0 < |accepted| < n
    ensures o.Failed? && o.error != PartialSend <==> accepted == []
  {
  }

  lemma {:induction false} PartsConnectionError(script: Script, k: Link, n: nat, index: nat, report: bool,
                                                reference: Option<int>)
    requires index <= n
    ensures var (k', o) := SendParts(script, k, n, index, report, reference);
            o == Failed(ConnectionError) ==> !k'.up
    decreases n - index
  {
    if index < n {
      var (k', r, report') := SendOne(script, k, index, report);
      if r.Ok? {
        PartsConnectionError(script, k', n, index + 1, report', if r.reference.Some? then r.reference else reference);
      }
    }
  }

  /** After a connection error the driver holds no StateMachine, so the next send reports a
      connection error too instead of talking to a stale port. */
  lemma {:induction false} ConnectionErrorDropsLink(script: Script, k: Link, n: nat, attempts: nat)
    requires attempts > 0
    ensures var (k', o, _) := SendWithRetries(script, k, n, attempts);
            o == Failed(ConnectionError) ==> !k'.up
    decreases attempts
  {
    var (k', o) := SendSms(script, k, n);
    if Answer(script, k.used).encoding.Encoded? {
      PartsConnectionError(script, k.(used := k.used + 1), n, 0, true, None);
    }
    if !Final(o) && attempts > 1 {
      ConnectionErrorDropsLink(script, k', n, attempts - 1);
    }
  }

  // ---- a send depends only on the answers still to come ----

  function Rest(script: Script, used: nat): Script { if used <= |script| then script[used..] else [] }

  /** `k` as seen by someone who also counted `used` earlier commands and `log` earlier parts. */
  function Lift(k: Link, used: nat, log: seq<Submit>): Link { Link(k.up, used + k.used, log + k.log) }

  lemma LiftOne(script: Script, used: nat, log: seq<Submit>, k: Link, part: nat, report: bool)
    ensures var (k', r, report') := SendOne(Rest(script, used), k, part, report);
            SendOne(script, Lift(k, used, log), part, report) == (Lift(k', used, log), r, report')
  {
    var answer := Answer(Rest(script, used), k.used);
    assert answer == Answer(script, used + k.used);
    assert Answer(Rest(script, used), k.used + 1) == Answer(script, used + k.used + 1);
    forall s: Submit ensures (log + k.log) + [s] == log + (k.log + [s]) {
    }
  }

  lemma {:induction false} LiftParts(script: Script, used: nat, log: seq<Submit>, k: Link, n: nat, index: nat,
                                     report: bool, reference: Option<int>)
    requires index <= n
    ensures var (k', o) := SendParts(Rest(script, used), k, n, index, report, reference);
            SendParts(script, Lift(k, used, log), n, index, report, reference) == (Lift(k', used, log), o)
    decreases n - index
  {
    if index < n {
      LiftOne(script, used, log, k, index, report);
      var (k', r, report') := SendOne(Rest(script, used), k, index, report);
      if r.Ok? {
        LiftParts(script, used, log, k', n, index + 1, report', if r.reference.Some? then r.reference else reference);
      }
    }
  }

  lemma LiftSms(script: Script, used: nat, log: seq<Submit>, k: Link, n: nat)
    ensures var (k', o) := SendSms(Rest(script, used), k, n);
            SendSms(script, Lift(k, used, log), n) == (Lift(k', used, log), o)
  {
    assert Answer(Rest(script, used), k.used) == Answer(script, used + k.used);
    LiftParts(script, used, log, k.(used := k.used + 1), n, 0, true, None);
  }

  lemma {:induction false} LiftRetries(script: Script, used: nat, log: seq<Submit>, k: Link, n: nat, attempts: nat)
    requires attempts > 0
    ensures var (k', o, calls) := SendWithRetries(Rest(script, used), k, n, attempts);
            SendWithRetries(script, Lift(k, used, log), n, attempts) == (Lift(k', used, log), o, calls)
    decreases attempts
  {
    LiftSms(script, used, log, k, n);
    var (k', o) := SendSms(Rest(script, used), k, n);
    if !Final(o) && attempts > 1 {
      LiftRetries(script, used, log, k', n, attempts - 1);
    }
  }

  lemma SendRefused(script: Script, k: Link, ok: Slot, refused: Slot)
    requires ok == Slot(Encoded, Accepted(None), Accepted(None)) && refused == Slot(Encoded, Rejected, Rejected)
    requires |script| > 4 && script[0] == script[1] == ok && script[2] == script[3] == refused
    requires k == Link(true, 0, [])
    ensures SendSms(script, k, 2) == (Link(true, 4, [Submit(0, None, true)]), Failed(Unclassified))
  {
    var k1 := Link(true, 2, [Submit(0, None, true)]);
    assert k.log + [Submit(0, None, true)] == k1.log;
    assert SendOne(script, k.(used := 1), 0, true) == (k1, Ok(None), true);
    assert SendOne(script, k1, 1, true) == (k1.(used := 4), Raised(Unclassified), false);
    assert SendParts(script, k1, 2, 1, true, None) == (k1.(used := 4), Failed(Unclassified));
    assert SendParts(script, k.(used := 1), 2, 0, true, None) == (k1.(used := 4), Failed(Unclassified));
  }

  /** Why the assumption on ValueError/TypeError is needed: the handler in `send_sms` catches only
      ModemError, so one raised for a plain second part looks like a retryable failure and the
      first part goes out again. */
  lemma DuplicateWithoutCourtesy()
    ensures exists script: Script, k: Link ::
              var (k', o, calls) := SendWithRetries(script, k, 2, 3);
              k.log == [] && o.Done? && Parts(k'.log) == [0, 0, 1]
  {
    var ok := Slot(Encoded, Accepted(None), Accepted(None));
    var refused := Slot(Encoded, Rejected, Rejected);
    var script := [ok, ok, refused, refused, ok, ok, ok];
    var k := Link(true, 0, []);
    var k1 := Link(true, 2, [Submit(0, None, true)]);
    SendRefused(script, k, ok, refused);
    var k2 := Link(true, 6, k1.log + [Submit(0, None, true)]);
    var k3 := Link(true, 7, k2.log + [Submit(1, None, true)]);
    assert SendOne(script, k1.(used := 5), 0, true) == (k2, Ok(None), true);
    assert SendOne(script, k2, 1, true) == (k3, Ok(None), true);
    assert SendParts(script, k3, 2, 2, true, None) == (k3, Done(2, None));
    assert SendParts(script, k2, 2, 1, true, None) == (k3, Done(2, None));
    assert SendSms(script, k1.(used := 4), 2) == (k3, Done(2, None));
    assert SendWithRetries(script, k, 2, 3) == (k3, Done(2, None), 2);
    assert Parts(k3.log) == [0, 0, 1];
  }
}
