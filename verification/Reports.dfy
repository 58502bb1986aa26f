/** What the daemon reports of the observer: the status and totals it was last told, or how the connection failed. */
module Reports {
  import opened Prelude
  import opened Capture
  import opened SessionMachine
  import opened Monitor
  import opened Application
  import opened ObserverSource
  import opened Backoff
  import opened Backend

  // ----- Messages taken from the socket -----

  /** A message that no session machine refuses. */
  predicate Welcome(message: ObserverMessage) {
    message.Status? || message.Totals? || (message.Captured? && IsValid(message.event))
  }

  lemma WelcomeIsAccepted(m: Machine, message: ObserverMessage)
    ensures Translate(m, message).1.Success? <==> Welcome(message)
  {
    hide Validate, NewSession, Fates, KeyListing;
  }

  /** An open connection with nothing queued takes the next message. */
  predicate Takes(v: Supervisor, answer: Answer) {
    v.exit.None? && !answer.shutdown && v.source.Some? && v.source.value.pending == [] && answer.read.Received?
  }

  /** The messages the current connection has taken from its socket. */
  ghost function Fetched(policy: BackoffPolicy, answers: seq<Answer>): seq<ObserverMessage> {
    if answers == [] then []
    else
      var p, answer := answers[..|answers| - 1], answers[|answers| - 1];
      var v := Backend.Run(policy, p);
      if v.source.None? || Backend.Run(policy, answers).source.None? then []
      else Fetched(policy, p) + if Takes(v, answer) then [answer.read.message] else []
  }

  /** The messages all connections have taken. */
  ghost function FetchedEver(policy: BackoffPolicy, answers: seq<Answer>): seq<ObserverMessage> {
    if answers == [] then []
    else
      var p, answer := answers[..|answers| - 1], answers[|answers| - 1];
      FetchedEver(policy, p) + if Takes(Backend.Run(policy, p), answer) then [answer.read.message] else []
  }

  // ----- What should be reported -----

  /** Availability and detail of the last status among the messages. */
  ghost function LastStatusIn(messages: seq<ObserverMessage>, otherwise: (Availability, string))
    : (Availability, string)
  {
    if messages == [] then otherwise
    else
      match messages[|messages| - 1]
      case Status(a, d) => (a, d)
      case _ => LastStatusIn(messages[..|messages| - 1], otherwise)
  }

  /** The last totals among the messages. */
  ghost function LastTotalsIn(messages: seq<ObserverMessage>, otherwise: Diagnostics): Diagnostics {
    if messages == [] then otherwise
    else
      match messages[|messages| - 1]
      case Totals(t) => t
      case _ => LastTotalsIn(messages[..|messages| - 1], otherwise)
  }

  /** How a failed attempt to connect is reported. */
  function AttemptFailed(error: ObserverError): (Availability, string) {
    (if error.kind.SocketMissing? then NotInstalled
     else if error.kind.InvalidHandshake? then VersionMismatch
     else ConnectionFailed,
     if |error.text| > 512 then error.text[..512] else error.text)
  }

  /** How a lost connection is reported. */
  function ConnectionLost(text: string): (Availability, string) {
    (Availability.BackendLost, "V4L2 observer disconnected: " + if |text| > 512 then text[..512] else text)
  }

  /** What is reported once a step has failed to connect or lost the connection, and otherwise what was before. */
  function NextFailure(v: Supervisor, answer: Answer, before: (Availability, string)): (Availability, string) {
    if v.exit.Some? || answer.shutdown then before
    else if v.source.None? then
      if answer.connect.Failure? then AttemptFailed(answer.connect.error) else before
    else if v.source.value.pending != [] then before
    else
      match answer.read
      case TimedOut => before
      case ReadFailed(e) => ConnectionLost(e.text)
      case Received(Hello) => ConnectionLost("observer protocol handshake is invalid")
      case Received(Captured(e)) =>
        if IsValid(e) then before else ConnectionLost(RejectionError(Validate(e).error).text)
      case Received(_) => before
  }

  /** What the last attempt that failed, or the last connection lost, is reported as. */
  ghost function LastFailure(policy: BackoffPolicy, answers: seq<Answer>, otherwise: (Availability, string))
    : (Availability, string)
  {
    if answers == [] then otherwise
    else
      var p, answer := answers[..|answers| - 1], answers[|answers| - 1];
      NextFailure(Backend.Run(policy, p), answer, LastFailure(policy, p, otherwise))
  }

  // ----- What is produced at each step -----

  /** The events a step adds to those produced: none, the report of a failure, or what a message queues. */
  ghost function Added(v: Supervisor, answer: Answer): seq<MonitorEvent> {
    if v.exit.Some? || answer.shutdown then []
    else if v.source.None? then
      if answer.connect.Failure? then [ConnectFailedEvent(answer.connect.error)] else []
    else if v.source.value.pending != [] then []
    else
      match answer.read
      case TimedOut => []
      case ReadFailed(e) => [DisconnectedEvent(e)]
      case Received(message) =>
        var queued := Translate(v.source.value.machine, message).1;
        if queued.Success? then queued.value else [DisconnectedEvent(queued.error)]
  }

  lemma DeliveryProduces(v: Supervisor, source: Source, event: MonitorEvent, answer: Answer)
    requires v.unsent == []
    ensures Produced(Send(v.(source := Some(source)), event, answer)) == v.sent + [event] + source.pending
  {
  }

  lemma RetryProduces(v: Supervisor, policy: BackoffPolicy, report: MonitorEvent, answer: Answer)
    requires v.unsent == [] && v.exit.None?
    ensures Produced(Retry(v, policy, report, answer)) == v.sent + [report]
  {
    hide BackoffPolicy.DelayAt;
  }

  /** Nothing produced is lost, reordered or invented. */
  lemma StepProduces(v: Supervisor, policy: BackoffPolicy, answer: Answer)
    requires v.exit.None? ==> v.unsent == []
    ensures Produced(Step(v, policy, answer)) == Produced(v) + Added(v, answer)
  {
    hide Translate, Retry, Send, ConnectFailedEvent, DisconnectedEvent;
    if v.exit.None? && !answer.shutdown && v.source.Some? {
      var s := v.source.value;
      var polled := Poll(s, answer.read);
      if polled.result.Failure? {
        RetryProduces(v, policy, DisconnectedEvent(polled.result.error), answer);
      } else if polled.result.value.Some? {
        var event, rest := polled.result.value.value, polled.source.pending;
        DeliveryProduces(v, polled.source, event, answer);
        if s.pending != [] {
          assert s.pending == [event] + rest;
        } else {
          assert Added(v, answer) == [event] + rest;
        }
      }
    } else if v.exit.None? && !answer.shutdown && answer.connect.Failure? {
      RetryProduces(v, policy, ConnectFailedEvent(answer.connect.error), answer);
    }
  }

  // ----- What is reported -----

  predicate Plain(ev: MonitorEvent) {
    !ev.AvailabilityChanged? && !ev.DiagnosticsChanged?
  }

  lemma {:induction false} PlainKeepsStatus(r: Registry, a: seq<MonitorEvent>, b: seq<MonitorEvent>)
    requires forall ev | ev in b :: Plain(ev)
    ensures LastStatus(r, a + b) == LastStatus(r, a)
  {
    if b == [] {
      assert a + b == a;
    } else {
      PlainKeepsStatus(r, a, b[..|b| - 1]);
      assert Plain(b[|b| - 1]);
      assert (a + b)[..|a + b| - 1] == a + b[..|b| - 1];
    }
  }

  lemma LastDecides(r: Registry, evs: seq<MonitorEvent>, ev: MonitorEvent)
    ensures LastStatus(r, evs + [ev]) ==
            match ev
            case AvailabilityChanged(a, d) => (a, d, LastStatus(r, evs).2)
            case DiagnosticsChanged(t) => (LastStatus(r, evs).0, LastStatus(r, evs).1, t)
            case _ => LastStatus(r, evs)
  {
    assert (evs + [ev])[..|evs|] == evs;
  }

  lemma TransitionsArePlain(t: CaptureTransition)
    ensures forall ev | ev in TransitionEvents(t) :: Plain(ev)
  {
  }

  /** What the events a message queues change of the status. */
  lemma QueuedStatus(r: Registry, evs: seq<MonitorEvent>, m: Machine, message: ObserverMessage)
    requires Welcome(message)
    ensures Translate(m, message).1.Success?
    ensures var s, s' := LastStatus(r, evs), LastStatus(r, evs + Translate(m, message).1.value);
            match message
            case Status(a, d) => s' == (a, d, s.2)
            case Totals(t) => s' == (s.0, s.1, t)
            case _ => s' == s
  {
    hide Observe, KeyListing, Fates, TransitionEvents, LastStatus, Plain, IsValid;
    WelcomeIsAccepted(m, message);
    match message
    case Status(a, d) =>
      if a == Available {
        LastDecides(r, evs, AvailabilityChanged(a, d));
      } else {
        var stops := TransitionEvents(LoseBackend(m).result.value);
        TransitionsArePlain(LoseBackend(m).result.value);
        PlainKeepsStatus(r, evs, stops);
        LastDecides(r, evs + stops, AvailabilityChanged(a, d));
        assert evs + (stops + [AvailabilityChanged(a, d)]) == evs + stops + [AvailabilityChanged(a, d)];
      }
    case Totals(t) =>
      LastDecides(r, evs, DiagnosticsChanged(t));
    case Captured(e) =>
      TransitionsArePlain(Observe(m, e).result.value);
      PlainKeepsStatus(r, evs, TransitionEvents(Observe(m, e).result.value));
  }

  lemma RefusedMessage(m: Machine, message: ObserverMessage)
    requires !Welcome(message)
    ensures message.Hello? || (message.Captured? && !IsValid(message.event))
    ensures Translate(m, message).1.Failure?
    ensures message.Hello? ==> Translate(m, message).1.error.text == "observer protocol handshake is invalid"
    ensures message.Captured? ==> Translate(m, message).1.error == RejectionError(Validate(message.event).error)
  {
    hide Validate, NewSession, Fates, KeyListing, RejectionError;
  }

  /** What a step changes of the status among everything produced. */
  ghost predicate MovesStatus(v: Supervisor, answer: Answer, s: (Availability, string, Diagnostics),
      s': (Availability, string, Diagnostics))
  {
    if v.exit.Some? || answer.shutdown then s' == s
    else if v.source.None? then
      if answer.connect.Failure?
      then s' == (AttemptFailed(answer.connect.error).0, AttemptFailed(answer.connect.error).1, s.2) else s' == s
    else if v.source.value.pending != [] then s' == s
    else
      match answer.read
      case TimedOut => s' == s
      case ReadFailed(e) => s' == (ConnectionLost(e.text).0, ConnectionLost(e.text).1, s.2)
      case Received(Status(a, d)) => s' == (a, d, s.2)
      case Received(Totals(t)) => s' == (s.0, s.1, t)
      case Received(Hello) =>
        var lost := ConnectionLost("observer protocol handshake is invalid");
        s' == (lost.0, lost.1, s.2)
      case Received(Captured(e)) =>
        if IsValid(e) then s' == s
        else
          var lost := ConnectionLost(RejectionError(Validate(e).error).text);
          s' == (lost.0, lost.1, s.2)
  }

  lemma StepMovesStatus(v: Supervisor, policy: BackoffPolicy, answer: Answer, r: Registry)
    requires v.exit.None? ==> v.unsent == []
    ensures MovesStatus(v, answer, LastStatus(r, Produced(v)), LastStatus(r, Produced(Step(v, policy, answer))))
  {
    hide Step, Produced, Translate, LastStatus, Validate, Welcome, RejectionError;
    var evs := Produced(v);
    StepProduces(v, policy, answer);
    assert evs + [] == evs;
    if v.exit.None? && !answer.shutdown {
      if v.source.None? {
        if answer.connect.Failure? { LastDecides(r, evs, ConnectFailedEvent(answer.connect.error)); }
      } else if v.source.value.pending == [] {
        match answer.read
        case TimedOut =>
        case ReadFailed(e) => LastDecides(r, evs, DisconnectedEvent(e));
        case Received(message) => MessageMovesStatus(evs, v.source.value.machine, message, r);
      }
    }
  }

  lemma MessageMovesStatus(evs: seq<MonitorEvent>, m: Machine, message: ObserverMessage, r: Registry)
    ensures var queued := Translate(m, message).1;
            var s, s' := LastStatus(r, evs),
              LastStatus(r, evs + if queued.Success? then queued.value else [DisconnectedEvent(queued.error)]);
            match message
            case Status(a, d) => s' == (a, d, s.2)
            case Totals(t) => s' == (s.0, s.1, t)
            case Hello =>
              var lost := ConnectionLost("observer protocol handshake is invalid");
              s' == (lost.0, lost.1, s.2)
            case Captured(e) =>
              if IsValid(e) then s' == s
              else
                var lost := ConnectionLost(RejectionError(Validate(e).error).text);
                s' == (lost.0, lost.1, s.2)
  {
    hide Translate, LastStatus, Validate, RejectionError;
    if Welcome(message) {
      QueuedStatus(r, evs, m, message);
    } else {
      RefusedMessage(m, message);
      LastDecides(r, evs, DisconnectedEvent(Translate(m, message).1.error));
    }
  }

  /** How the messages taken and the failures so far tell the status after a step. */
  lemma StatusNext(v: Supervisor, answer: Answer, connected: bool, s: (Availability, string, Diagnostics),
      s': (Availability, string, Diagnostics), fetched: seq<ObserverMessage>, ever: seq<ObserverMessage>,
      failure: (Availability, string), t: Diagnostics)
    requires MovesStatus(v, answer, s, s') && (v.source.None? ==> fetched == [])
    requires s == (LastStatusIn(fetched, failure).0, LastStatusIn(fetched, failure).1, LastTotalsIn(ever, t))
    requires connected == Connected(v, answer)
    ensures var added := if Takes(v, answer) then [answer.read.message] else [];
            var now := LastStatusIn(if v.source.Some? && connected then fetched + added else [],
                         NextFailure(v, answer, failure));
            s' == (now.0, now.1, LastTotalsIn(ever + added, t))
  {
    hide IsValid, Validate, RejectionError, LastStatusIn, LastTotalsIn;
    var added := if Takes(v, answer) then [answer.read.message] else [];
    FetchedNext(fetched, added, failure);
    FetchedNext(ever, added, failure);
    EmptyTellsNothing(failure);
    EmptyTellsNothing(NextFailure(v, answer, failure));
  }

  lemma EmptyTellsNothing(otherwise: (Availability, string))
    ensures LastStatusIn([], otherwise) == otherwise
  {
  }

  /** Over every run: the status among everything produced is the last one the connection fetched, else how the
      last attempt or connection failed, else the initial one; the totals are the last that any connection
      fetched, else the initial ones. */
  lemma {:induction false} ProducedStatus(policy: BackoffPolicy, answers: seq<Answer>, r: Registry)
    ensures var s := LastStatusIn(Fetched(policy, answers), LastFailure(policy, answers, (r.availability, r.detail)));
            LastStatus(r, Produced(Backend.Run(policy, answers))) ==
            (s.0, s.1, LastTotalsIn(FetchedEver(policy, answers), r.diagnostics))
  {
    hide Step, Backend.Run, Translate, LastStatus, Produced, Takes, NextFailure, MovesStatus, Connected, LastStatusIn,
      LastTotalsIn;
    if answers == [] {
      RunNothing(policy);
      assert Produced(IDLE) == [] by { IdleProduces(); }
      NoStatus(r);
      EmptyTellsNothing((r.availability, r.detail));
      NoTotals(r.diagnostics);
    } else {
      var p, answer := answers[..|answers| - 1], answers[|answers| - 1];
      var v := Backend.Run(policy, p);
      ProducedStatus(policy, p, r);
      RunNext(policy, answers, |p|);
      assert answers[..|p| + 1] == answers && answers[..|p|] == p;
      NothingUnsent(policy, p);
      StepMovesStatus(v, policy, answer, r);
      StepKeepsConnection(v, policy, answer);
      DisconnectedFetchesNothing(policy, p);
      StatusNext(v, answer, Backend.Run(policy, answers).source.Some?, LastStatus(r, Produced(v)),
        LastStatus(r, Produced(Backend.Run(policy, answers))), Fetched(policy, p), FetchedEver(policy, p),
        LastFailure(policy, p, (r.availability, r.detail)), r.diagnostics);
    }
  }

  lemma DisconnectedFetchesNothing(policy: BackoffPolicy, answers: seq<Answer>)
    ensures Backend.Run(policy, answers).source.None? ==> Fetched(policy, answers) == []
  {
    hide Backend.Run;
  }

  lemma IdleProduces()
    ensures Produced(IDLE) == []
  {
  }

  lemma NoTotals(t: Diagnostics)
    ensures LastTotalsIn([], t) == t
  {
  }

  lemma {:induction false} ResolutionKeepsStatus(r: Registry, evs: seq<MonitorEvent>,
      identities: seq<ApplicationIdentity>)
    requires |evs| == |identities|
    ensures LastStatus(r, ResolveAll(evs, identities)) == LastStatus(r, evs)
  {
    if evs != [] {
      var n := |evs| - 1;
      ResolutionKeepsStatus(r, evs[..n], identities[..n]);
      assert ResolveAll(evs, identities)[..n] == ResolveAll(evs[..n], identities[..n]);
    }
  }

  /** Over every run of the supervisor and all identities, the application shows the last status its connection
      fetched; before the first, how the last attempt or connection failed; before any failure, what it showed at
      first. Its totals are the last that any connection fetched. */
  lemma StatusIsLastReported(policy: BackoffPolicy, answers: seq<Answer>, r: Registry,
      identities: seq<ApplicationIdentity>)
    requires |identities| == |Produced(Backend.Run(policy, answers))|
    ensures var app := ReconcileAll(r, ResolveAll(Produced(Backend.Run(policy, answers)), identities));
            && (app.availability, app.detail) ==
               LastStatusIn(Fetched(policy, answers), LastFailure(policy, answers, (r.availability, r.detail)))
            && app.diagnostics == LastTotalsIn(FetchedEver(policy, answers), r.diagnostics)
  {
    hide Backend.Run, Produced, ResolveAll, ReconcileAll, LastStatus, Fetched, FetchedEver, LastFailure;
    var evs := Produced(Backend.Run(policy, answers));
    ProducedStatus(policy, answers, r);
    ResolutionKeepsStatus(r, evs, identities);
    StepsHaveNetEffect(true, r, ResolveAll(evs, identities), "");
  }

  lemma FetchedNext(messages: seq<ObserverMessage>, added: seq<ObserverMessage>, otherwise: (Availability, string))
    requires |added| <= 1
    ensures LastStatusIn(messages + added, otherwise) ==
            if added != [] && added[0].Status? then (added[0].availability, added[0].detail)
            else LastStatusIn(messages, otherwise)
    ensures forall t :: LastTotalsIn(messages + added, t) ==
              if added != [] && added[0].Totals? then added[0].diagnostics else LastTotalsIn(messages, t)
  {
    if added == [] {
      assert messages + added == messages;
    } else {
      assert (messages + added)[..|messages|] == messages;
    }
  }

  lemma NothingUnsent(policy: BackoffPolicy, answers: seq<Answer>)
    ensures Backend.Run(policy, answers).exit.None? ==> Backend.Run(policy, answers).unsent == []
  {
    hide Backend.Run, Produced, Describes, Valid;
    RunIsAccounted(policy, answers);
  }

  /** When a connection is open after a step. */
  predicate Connected(v: Supervisor, answer: Answer) {
    if v.exit.Some? || answer.shutdown then v.source.Some?
    else if v.source.None? then answer.connect.Success?
    else v.source.value.pending != [] || answer.read.TimedOut? ||
         (answer.read.Received? && Welcome(answer.read.message))
  }

  lemma StepKeepsConnection(v: Supervisor, policy: BackoffPolicy, answer: Answer)
    ensures Step(v, policy, answer).source.Some? <==> Connected(v, answer)
  {
    hide Translate, Welcome;
    if v.source.Some? && answer.read.Received? {
      WelcomeIsAccepted(v.source.value.machine, answer.read.message);
    }
  }

  lemma NoStatus(r: Registry)
    ensures LastStatus(r, []) == (r.availability, r.detail, r.diagnostics)
  {
  }

  // ----- When the supervisor waits and leaves -----

  /** An attempt to connect fails, or the connection is lost. */
  predicate Fails(v: Supervisor, answer: Answer) {
    && v.exit.None? && !answer.shutdown
    && if v.source.None? then answer.connect.Failure?
       else v.source.value.pending == [] &&
            (answer.read.ReadFailed? || (answer.read.Received? && !Welcome(answer.read.message)))
  }

  /** There is an event to send: the report of a failure, one queued, or one that a message queues. */
  ghost predicate Offers(v: Supervisor, answer: Answer) {
    Fails(v, answer) ||
    (v.exit.None? && !answer.shutdown && v.source.Some? &&
     (v.source.value.pending != [] ||
      (answer.read.Received? && Translate(v.source.value.machine, answer.read.message).1.Success? &&
       Translate(v.source.value.machine, answer.read.message).1.value != [])))
  }

  /** One step sends at most one event and waits after a failure it could report; it leaves when it is told to,
      when an event is not taken, or when its wait is interrupted, and for no other reason. */
  lemma StepLeaves(v: Supervisor, policy: BackoffPolicy, answer: Answer)
    requires v.exit.None?
    ensures var v' := Step(v, policy, answer);
            && v'.exit == (if answer.shutdown then Some(Shutdown)
                           else if Offers(v, answer) && !answer.taken then Some(answer.refusal)
                           else if Fails(v, answer) && answer.interrupted then Some(Shutdown)
                           else None)
            && |v'.waits| == |v.waits| + (if Fails(v, answer) && answer.taken then 1 else 0)
            && |v'.sent| == |v.sent| + (if Offers(v, answer) && answer.taken then 1 else 0)
            && (v'.unsent != v.unsent ==> Offers(v, answer) && !answer.taken)
  {
    hide Translate, BackoffPolicy.DelayAt, ConnectFailedEvent, DisconnectedEvent, Welcome;
    if v.source.Some? && answer.read.Received? {
      WelcomeIsAccepted(v.source.value.machine, answer.read.message);
    }
  }

  /** The failures of a run that could be reported. */
  ghost function FailureCount(policy: BackoffPolicy, answers: seq<Answer>): nat {
    if answers == [] then 0
    else
      var p, answer := answers[..|answers| - 1], answers[|answers| - 1];
      FailureCount(policy, p) + if Fails(Backend.Run(policy, p), answer) && answer.taken then 1 else 0
  }

  /** Over every run there is one wait for each failure reported. */
  lemma {:induction false} EveryFailureIsWaitedFor(policy: BackoffPolicy, answers: seq<Answer>)
    ensures |Backend.Run(policy, answers).waits| == FailureCount(policy, answers)
  {
    hide Step, Fails;
    if answers != [] {
      var p, answer := answers[..|answers| - 1], answers[|answers| - 1];
      EveryFailureIsWaitedFor(policy, p);
      if Backend.Run(policy, p).exit.None? {
        StepLeaves(Backend.Run(policy, p), policy, answer);
      } else {
        LeftStaysLeft(Backend.Run(policy, p), policy, answer);
        LeftFailsNoMore(Backend.Run(policy, p), answer);
      }
    }
  }

  lemma LeftFailsNoMore(v: Supervisor, answer: Answer)
    requires v.exit.Some?
    ensures !Fails(v, answer)
  {
  }
}
