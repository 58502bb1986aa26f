/** The daemon's observer connection: messages in, queued monitor events out. */
module ObserverSource {
  import opened Prelude
  import opened Orders
  import opened Capture
  import opened SessionMachine
  import opened Monitor
  import opened Application

  datatype ObserverMessage =
    | Hello
    | Status(availability: Availability, detail: string)
    | Captured(event: CaptureEvent)
    | Totals(diagnostics: Diagnostics)

  datatype ErrorKind =
    | SocketMissing
    | ConnectRefused
    | IoFailed
    | MalformedMessage
    | OversizedMessage
    | InvalidHandshake
    | RejectedEvent(reason: ValidationError)

  /** An error and the text it is reported with. */
  datatype ObserverError = ObserverError(kind: ErrorKind, text: string) {
    function Availability(): Availability {
      match kind
      case SocketMissing => NotInstalled
      case InvalidHandshake => VersionMismatch
      case _ => ConnectionFailed
    }
  }

  function HandshakeError(): ObserverError {
    ObserverError(InvalidHandshake, "observer protocol handshake is invalid")
  }

  /** The text of a rejection is not part of this model. */
  function RejectionError(reason: ValidationError): ObserverError {
    ObserverError(RejectedEvent(reason), "observer event was rejected")
  }

  /** What reading one message from the socket would produce. */
  datatype ReadOutcome = Received(message: ObserverMessage) | TimedOut | ReadFailed(error: ObserverError)

  // ----- Specification -----

  datatype Source = Source(machine: Machine, pending: seq<MonitorEvent>)

  datatype Polled = Polled(source: Source, result: Result<Option<MonitorEvent>, ObserverError>)

  function StopEvents(fates: seq<(CameraSession, SessionState)>): (r: seq<MonitorEvent>)
    ensures |r| == |fates| && forall i | 0 <= i < |fates| :: r[i] == SessionStopped(fates[i].0.id)
  {
    seq(|fates|, i requires 0 <= i < |fates| => SessionStopped(fates[i].0.id))
  }

  function TransitionEvents(t: CaptureTransition): seq<MonitorEvent> {
    match t
    case Unchanged => []
    case Started(s) => [SessionStarted(s)]
    case Ended(s, _) => [SessionStopped(s.id)]
    case EndedMany(ended) => StopEvents(ended)
  }

  /** The machine after one message and the events the message queues, or why it is refused. */
  ghost function Translate(m: Machine, message: ObserverMessage): (Machine, Result<seq<MonitorEvent>, ObserverError>) {
    match message
    case Hello => (m, Failure(HandshakeError()))
    case Status(a, d) =>
      if a == Available then (m, Success([AvailabilityChanged(a, d)]))
      else
        var lost := LoseBackend(m);
        (lost.machine, Success(TransitionEvents(lost.result.value) + [AvailabilityChanged(a, d)]))
    case Totals(d) => (m, Success([DiagnosticsChanged(d)]))
    case Captured(e) =>
      var applied := Observe(m, e);
      (applied.machine,
        if applied.result.Failure? then Failure(RejectionError(applied.result.error))
        else Success(TransitionEvents(applied.result.value)))
  }

  /** One poll: a queued event if there is one, else whatever the next message yields. */
  ghost function Poll(s: Source, read: ReadOutcome): Polled {
    if s.pending != [] then
      Polled(s.(pending := s.pending[1..]), Success(Some(s.pending[0])))
    else
      match read
      case TimedOut => Polled(s, Success(None))
      case ReadFailed(e) => Polled(s, Failure(e))
      case Received(message) =>
        var (m, queued) := Translate(s.machine, message);
        if queued.Failure? then Polled(Source(m, []), Failure(queued.error))
        else if queued.value == [] then Polled(Source(m, []), Success(None))
        else Polled(Source(m, queued.value[1..]), Success(Some(queued.value[0])))
  }

  // ----- The connection -----

  lemma LossEmpties(m: Machine)
    ensures LoseBackend(m).machine.active == map[]
  {
    hide KeyListing, Fates;
  }

  class ObserverEventSource {
    const sessions: V4l2SessionMachine
    var pending: seq<MonitorEvent>

    ghost function Model(): Source
      reads this, sessions
    {
      Source(sessions.Model(), pending)
    }

    constructor ()
      ensures fresh(sessions) && Model() == Source(INITIAL, [])
    {
      sessions := new V4l2SessionMachine();
      pending := [];
    }

    method NextEvent(read: ReadOutcome) returns (r: Result<Option<MonitorEvent>, ObserverError>)
      modifies this, sessions
      ensures Polled(Model(), r) == Poll(old(Model()), read)
    {
      hide Observe, LoseBackend;
      if pending != [] {
        var event := pending[0];
        pending := pending[1..];
        return Success(Some(event));
      }
      match read {
        case TimedOut => return Success(None);
        case ReadFailed(e) => return Failure(e);
        case Received(message) =>
          var translated := TranslateMessage(message);
          if translated.Failure? {
            return Failure(translated.error);
          }
          if pending == [] {
            return Success(None);
          }
          var event := pending[0];
          pending := pending[1..];
          return Success(Some(event));
      }
    }

    method TranslateMessage(message: ObserverMessage) returns (r: Result<(), ObserverError>)
      requires pending == []
      modifies this, sessions
      ensures var (m, queued) := Translate(old(sessions.Model()), message);
              && sessions.Model() == m
              && (r.Failure? <==> queued.Failure?)
              && (r.Failure? ==> r.error == queued.error && pending == [])
              && (r.Success? ==> pending == queued.value)
      ensures message.Status? ==>
                pending != [] &&
                pending[|pending| - 1] == AvailabilityChanged(message.availability, message.detail)
      ensures message.Totals? ==> pending == [DiagnosticsChanged(message.diagnostics)]
      ensures message.Status? && !message.availability.Available? ==> sessions.active == map[]
    {
      hide Observe, LoseBackend;
      match message {
        case Hello =>
          return Failure(HandshakeError());
        case Status(a, d) =>
          if a != Available {
            LossEmpties(sessions.Model());
            var t := sessions.LoseAll();
            Queue(t);
          }
          pending := pending + [AvailabilityChanged(a, d)];
        case Totals(d) =>
          pending := pending + [DiagnosticsChanged(d)];
        case Captured(e) =>
          var applied := sessions.Apply(e);
          if applied.Failure? {
            return Failure(RejectionError(applied.error));
          }
          Queue(applied.value);
      }
      r := Success(());
    }

    method Queue(t: CaptureTransition)
      modifies this
      ensures pending == old(pending) + TransitionEvents(t)
    {
      match t {
        case Unchanged =>
        case Started(s) => pending := pending + [SessionStarted(s)];
        case Ended(s, _) => pending := pending + [SessionStopped(s.id)];
        case EndedMany(ended) =>
          ghost var before := pending;
          for i := 0 to |ended|
            invariant pending == before + StopEvents(ended[..i])
          {
            pending := pending + [SessionStopped(ended[i].0.id)];
            assert StopEvents(ended[..i + 1]) == StopEvents(ended[..i]) + [SessionStopped(ended[i].0.id)];
          }
          assert ended[..|ended|] == ended;
      }
    }
  }

  /** A poll fails only with nothing queued, and a failed poll leaves the machine alone. */
  lemma FailedPollLosesNothing(s: Source, read: ReadOutcome)
    ensures Poll(s, read).result.Failure? ==>
              s.pending == [] && Poll(s, read).source == s
  {
    hide SessionText, NodeText, Validate;
    if s.pending == [] && read.Received? && read.message.Captured? {
      var e := read.message.event;
      assert Observe(s.machine, e).result.Failure? ==> Observe(s.machine, e).machine == s.machine;
    }
  }

  // ----- What a message queues -----

  ghost predicate AreStops(evs: seq<MonitorEvent>, ids: seq<string>) {
    |evs| == |ids| && forall i | 0 <= i < |ids| :: evs[i] == SessionStopped(ids[i])
  }

  ghost function IdsOfKeys(m: Machine): (ids: seq<string>)
    ensures |ids| == |KeyListing(m.active.Keys)|
    ensures forall i | 0 <= i < |ids| :: ids[i] == m.active[KeyListing(m.active.Keys)[i]].id
  {
    var order := KeyListing(m.active.Keys);
    seq(|order|, i requires 0 <= i < |order| => m.active[order[i]].id)
  }

  /** A status is queued as it was received, behind the stops of all active sessions, in key order, if the observer
      is not available; totals are queued alone; a capture queues its session's start or the ids it ended. */
  lemma MessagesQueue(m: Machine, message: ObserverMessage)
    ensures var (m', queued) := Translate(m, message);
            match message
            case Hello => m' == m && queued.Failure? && queued.error.kind == InvalidHandshake
            case Totals(t) => m' == m && queued == Success([DiagnosticsChanged(t)])
            case Status(a, d) =>
              && queued.Success? && |queued.value| > 0
              && queued.value[|queued.value| - 1] == AvailabilityChanged(a, d)
              && (a.Available? ==> m' == m && |queued.value| == 1)
              && (!a.Available? ==> m'.active == map[] && m'.last == m.last)
              && (!a.Available? ==> AreStops(queued.value[..|queued.value| - 1], IdsOfKeys(m)))
            case Captured(e) =>
              var fed := Feed(m, Event(e));
              && m' == fed.machine
              && (queued.Failure? <==> !IsValid(e))
              && (queued.Failure? ==> m' == m && queued.error.kind == RejectedEvent(Validate(e).error))
              && (queued.Success? ==>
                   match fed.result.value
                   case Unchanged => queued.value == []
                   case Started(s) => queued.value == [SessionStarted(s)]
                   case Ended(s, _) => queued.value == [SessionStopped(s.id)]
                   case EndedMany(fates) => AreStops(queued.value, Ids(fates)))
  {
    hide SessionText, NodeText, Validate, KeyListing, NewSession;
    match message
    case Status(a, d) =>
      if a != Available {
        var fates := LoseBackend(m).result.value.ended;
        assert Translate(m, message).1.value[..|fates|] == StopEvents(fates);
      }
    case _ =>
  }

  // ----- The sessions an event sequence leaves active -----

  function SessionsAfterOne(known: map<string, CameraSession>, ev: MonitorEvent): map<string, CameraSession> {
    match ev
    case SessionStarted(s) => known[s.id := s]
    case SessionUpdated(s) => if s.id in known then known[s.id := s] else known
    case SessionStopped(id) => known - {id}
    case AvailabilityChanged(a, _) => if a == Available then known else map[]
    case DiagnosticsChanged(_) => known
  }

  ghost function SessionsAfter(known: map<string, CameraSession>, evs: seq<MonitorEvent>): map<string, CameraSession> {
    if evs == [] then known else SessionsAfterOne(SessionsAfter(known, evs[..|evs| - 1]), evs[|evs| - 1])
  }

  lemma {:induction false} SessionsAfterAppend(known: map<string, CameraSession>, a: seq<MonitorEvent>,
      b: seq<MonitorEvent>)
    ensures SessionsAfter(known, a + b) == SessionsAfter(SessionsAfter(known, a), b)
  {
    hide SessionsAfterOne;
    if b == [] {
      assert a + b == a;
    } else {
      SessionsAfterAppend(known, a, b[..|b| - 1]);
      assert (a + b)[..|a + b| - 1] == a + b[..|b| - 1];
    }
  }

  lemma SessionsAfterSingle(known: map<string, CameraSession>, ev: MonitorEvent)
    ensures SessionsAfter(known, [ev]) == SessionsAfterOne(known, ev)
  {
    hide SessionsAfterOne;
    assert [ev][..0] == [];
  }

  /** The same sessions, whatever applications they are attributed to. */
  ghost predicate SameButApplication(a: map<string, CameraSession>, b: map<string, CameraSession>) {
    a.Keys == b.Keys && forall id | id in a :: a[id].(application := b[id].application) == b[id]
  }

  /** The application's sessions are those the events describe, but for the identities resolved. */
  lemma {:induction false} RegistryHoldsSessions(r: Registry, evs: seq<MonitorEvent>,
      identities: seq<ApplicationIdentity>)
    requires |evs| == |identities|
    ensures SameButApplication(ReconcileAll(r, ResolveAll(evs, identities)).sessions, SessionsAfter(r.sessions, evs))
  {
    if evs != [] {
      var n := |evs| - 1;
      RegistryHoldsSessions(r, evs[..n], identities[..n]);
      assert ResolveAll(evs, identities)[..n] == ResolveAll(evs[..n], identities[..n]);
    }
  }

  /** A session as it was announced: a later observation of it is not sent on. */
  function AsStarted(s: CameraSession): CameraSession {
    s.(lastObserved := s.startedAt)
  }

  /** The sessions known are exactly the machine's, each as it started. */
  ghost predicate Describes(known: map<string, CameraSession>, m: Machine) {
    && known.Keys == ActiveIds(m)
    && forall k | k in m.active :: m.active[k].id in known && known[m.active[k].id] == AsStarted(m.active[k])
  }

  lemma {:induction false} StopEventsRemove(known: map<string, CameraSession>,
      fates: seq<(CameraSession, SessionState)>)
    ensures SessionsAfter(known, StopEvents(fates)) == known - Elements(Ids(fates))
  {
    if fates == [] {
      assert known - Elements(Ids(fates)) == known;
    } else {
      var n := |fates| - 1;
      StopEventsRemove(known, fates[..n]);
      assert StopEvents(fates)[..n] == StopEvents(fates[..n]);
      assert Ids(fates) == Ids(fates[..n]) + [fates[n].0.id];
      assert Elements(Ids(fates)) == Elements(Ids(fates[..n])) + {fates[n].0.id};
    }
  }

  lemma FromMultisets(whole: set<string>, part: seq<string>, rest: set<string>)
    requires multiset(whole) == multiset(part) + multiset(rest)
    ensures rest == whole - Elements(part) && whole == rest + Elements(part)
  {
    forall x ensures x in whole <==> x in rest || x in part {
      assert x in multiset(whole) <==> x in multiset(part) || x in multiset(rest);
    }
    forall x | x in rest ensures x !in part {
      assert multiset(whole)[x] <= 1 && multiset(rest)[x] == 1;
      assert multiset(part)[x] == 0;
    }
  }

  /** The ids a transition reports started and ended lead from the ids active before it to those after it. */
  lemma TransitionMovesIds(m: Machine, x: Input)
    requires Valid(m) && Feed(m, x).result.Success?
    ensures var before, after := ActiveIds(m), ActiveIds(Feed(m, x).machine);
            match Feed(m, x).result.value
            case Unchanged => after == before
            case Started(s) => after == before + {s.id} && s.id !in before
            case Ended(s, _) => after == before - {s.id}
            case EndedMany(fates) => after == before - Elements(Ids(fates))
  {
    hide SessionText, NodeText, Observe, LoseBackend, Valid, ActiveIds;
    FeedConserves(m, x);
    var before, after := ActiveIds(m), ActiveIds(Feed(m, x).machine);
    match Feed(m, x).result.value
    case Unchanged =>
      FromMultisets(before, [], after);
    case Started(s) =>
      assert multiset([s.id]) == multiset{s.id};
      assert multiset(before) + multiset{s.id} == multiset{} + multiset(after) == multiset(after);
      assert multiset(after) == multiset{s.id} + multiset(before);
      FromMultisets(after, [s.id], before);
    case Ended(s, _) =>
      assert multiset([s.id]) == multiset{s.id};
      FromMultisets(before, [s.id], after);
    case EndedMany(fates) =>
      assert StartedIn(Feed(m, x).result) == multiset{} && EndedIn(Feed(m, x).result) == multiset(Ids(fates));
      FromMultisets(before, Ids(fates), after);
  }

  /** An entry active after an input was active before, as it started, or is the session just started. */
  lemma EntriesAreKept(m: Machine, x: Input, k: CaptureKey)
    requires k in Feed(m, x).machine.active
    ensures var s, result := Feed(m, x).machine.active[k], Feed(m, x).result;
            if result.Success? && result.value.Started? && result.value.session.id == s.id && k !in m.active
            then s == result.value.session == AsStarted(s)
            else k in m.active && AsStarted(s) == AsStarted(m.active[k])
  {
    hide SessionText, NodeText, Validate, KeyListing, Fates;
  }

  /** The events of a transition turn the sessions known before it into the sessions active after it. */
  lemma TransitionMovesSessions(m: Machine, x: Input, known: map<string, CameraSession>)
    requires Valid(m) && Feed(m, x).result.Success? && Describes(known, m)
    ensures Describes(SessionsAfter(known, TransitionEvents(Feed(m, x).result.value)), Feed(m, x).machine)
  {
    hide SessionText, NodeText, Feed, Valid, AsStarted, SessionsAfter;
    var t, m' := Feed(m, x).result.value, Feed(m, x).machine;
    TransitionMovesIds(m, x);
    match t {
      case Unchanged => NothingAfter(known);
      case Started(s) => SessionsAfterSingle(known, SessionStarted(s));
      case Ended(s, _) => SessionsAfterSingle(known, SessionStopped(s.id));
      case EndedMany(fates) => StopEventsRemove(known, fates);
    }
    var known' := SessionsAfter(known, TransitionEvents(t));
    assert known'.Keys == ActiveIds(m');
    forall k | k in m'.active
      ensures m'.active[k].id in known' && known'[m'.active[k].id] == AsStarted(m'.active[k])
    {
      assert m'.active[k].id in ActiveIds(m');
      EntriesAreKept(m, x, k);
      AsStartedKeepsId(m'.active[k]);
      if k in m.active {
        AsStartedKeepsId(m.active[k]);
        assert m.active[k].id in ActiveIds(m);
      }
    }
  }

  lemma AsStartedKeepsId(s: CameraSession)
    ensures AsStarted(s).id == s.id
  {
  }

  lemma NothingAfter(known: map<string, CameraSession>)
    ensures SessionsAfter(known, []) == known
  {
  }

  lemma LossMovesSessions(m: Machine, a: Availability, d: string, known: map<string, CameraSession>)
    requires Valid(m) && a != Available
    ensures Valid(LoseBackend(m).machine)
    ensures Describes(
              SessionsAfter(known, TransitionEvents(LoseBackend(m).result.value) + [AvailabilityChanged(a, d)]),
              LoseBackend(m).machine)
  {
    hide SessionText, NodeText, EntryValid, SessionsAfter, TransitionEvents;
    var lost := LoseBackend(m);
    SessionsAfterAppend(known, TransitionEvents(lost.result.value), [AvailabilityChanged(a, d)]);
    SessionsAfterSingle(SessionsAfter(known, TransitionEvents(lost.result.value)), AvailabilityChanged(a, d));
    assert ActiveIds(lost.machine) == {};
  }

  /** Translating a message moves the sessions its queued events describe. */
  lemma TranslateMovesSessions(m: Machine, message: ObserverMessage, known: map<string, CameraSession>)
    requires Valid(m) && Describes(known, m)
    ensures Valid(Translate(m, message).0)
    ensures Translate(m, message).1.Success? ==>
              Describes(SessionsAfter(known, Translate(m, message).1.value), Translate(m, message).0)
  {
    hide SessionText, NodeText, Observe, LoseBackend, Valid, Describes;
    match message
    case Status(a, d) =>
      if a == Available {
        SessionsAfterSingle(known, AvailabilityChanged(a, d));
      } else {
        LossMovesSessions(m, a, d, known);
      }
    case Captured(e) =>
      ObserveKeepsValid(m, e);
      if Observe(m, e).result.Success? { TransitionMovesSessions(m, Event(e), known); }
    case Totals(d) =>
      SessionsAfterSingle(known, DiagnosticsChanged(d));
    case Hello =>
  }

  /** What has been delivered plus what is queued always accounts for exactly the machine's sessions. */
  lemma PollKeepsAccount(s: Source, read: ReadOutcome, known: map<string, CameraSession>)
    requires Valid(s.machine) && Describes(SessionsAfter(known, s.pending), s.machine)
    ensures var p := Poll(s, read);
            && Valid(p.source.machine)
            && (p.result.Success? ==>
                var delivered := if p.result.value.Some? then SessionsAfterOne(known, p.result.value.value) else known;
                Describes(SessionsAfter(delivered, p.source.pending), p.source.machine))
  {
    hide SessionText, NodeText, Observe, Valid, Translate, Describes, SessionsAfterOne;
    if s.pending != [] {
      SessionsAfterAppend(known, [s.pending[0]], s.pending[1..]);
      SessionsAfterSingle(known, s.pending[0]);
      assert s.pending == [s.pending[0]] + s.pending[1..];
    } else if read.Received? {
      TranslateMovesSessions(s.machine, read.message, known);
      var (m, queued) := Translate(s.machine, read.message);
      if queued.Success? && queued.value != [] {
        SessionsAfterAppend(known, [queued.value[0]], queued.value[1..]);
        SessionsAfterSingle(known, queued.value[0]);
        assert queued.value == [queued.value[0]] + queued.value[1..];
      }
    }
  }
}
