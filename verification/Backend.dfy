/** The backend supervisor: connect, poll, report loss, wait, reconnect. */
module Backend {
  import opened Prelude
  import opened Capture
  import opened SessionMachine
  import opened Monitor
  import opened Application
  import opened ObserverSource
  import opened Backoff

  const MAX_FAILURE_TEXT_CHARS := 512

  function BoundedText(text: string): string {
    if |text| <= MAX_FAILURE_TEXT_CHARS then text else text[..MAX_FAILURE_TEXT_CHARS]
  }

  datatype SupervisorExit = Shutdown | ConsumerClosed

  /** What the environment would answer at one step: whether shutdown is requested at its start, what a
      connection attempt and a poll would give, whether the consumer takes what is sent and the reason to
      leave if it does not, and whether shutdown interrupts a wait. */
  datatype Answer = Answer(
    shutdown: bool,
    connect: Result<(), ObserverError>,
    read: ReadOutcome,
    taken: bool,
    refusal: SupervisorExit,
    interrupted: bool)

  // ----- Specification: one step of the supervisor -----

  /** `source` is the open connection, if any; `sent` and `waits` record what was sent and how long it waited;
      `unsent` is the event the consumer did not take, if the supervisor left for that. */
  datatype Supervisor = Supervisor(
    source: Option<Source>,
    attempt: u32,
    sent: seq<MonitorEvent>,
    unsent: seq<MonitorEvent>,
    waits: seq<Duration>,
    exit: Option<SupervisorExit>)

  const IDLE := Supervisor(None, 0, [], [], [], None)

  function ConnectFailedEvent(error: ObserverError): MonitorEvent {
    AvailabilityChanged(error.Availability(), BoundedText(error.text))
  }

  function DisconnectedEvent(error: ObserverError): MonitorEvent {
    AvailabilityChanged(Availability.BackendLost, "V4L2 observer disconnected: " + BoundedText(error.text))
  }

  function Send(v: Supervisor, event: MonitorEvent, answer: Answer): Supervisor {
    if answer.taken then v.(sent := v.sent + [event]) else v.(unsent := [event], exit := Some(answer.refusal))
  }

  function Retry(v: Supervisor, policy: BackoffPolicy, report: MonitorEvent, answer: Answer): Supervisor {
    var reported := Send(v.(source := None), report, answer);
    if !answer.taken then reported
    else
      reported.(
        attempt := SaturatingAdd32(v.attempt, 1), waits := v.waits + [policy.DelayAt(v.attempt)],
        exit := if answer.interrupted then Some(Shutdown) else None)
  }

  function Connecting(v: Supervisor, policy: BackoffPolicy, answer: Answer): Supervisor {
    if answer.connect.Success? then v.(source := Some(Source(INITIAL, [])), attempt := 0)
    else Retry(v, policy, ConnectFailedEvent(answer.connect.error), answer)
  }

  function Polling(v: Supervisor, policy: BackoffPolicy, polled: Polled, answer: Answer): Supervisor {
    if polled.result.Failure? then Retry(v, policy, DisconnectedEvent(polled.result.error), answer)
    else
      var v' := v.(source := Some(polled.source));
      if polled.result.value.Some? then Send(v', polled.result.value.value, answer) else v'
  }

  ghost function Step(v: Supervisor, policy: BackoffPolicy, answer: Answer): Supervisor {
    if v.exit.Some? then v
    else if answer.shutdown then v.(exit := Some(Shutdown))
    else if v.source.None? then Connecting(v, policy, answer)
    else Polling(v, policy, Poll(v.source.value, answer.read), answer)
  }

  ghost function Run(policy: BackoffPolicy, answers: seq<Answer>): Supervisor {
    if answers == [] then IDLE
    else Step(Run(policy, answers[..|answers| - 1]), policy, answers[|answers| - 1])
  }

  lemma RunNext(policy: BackoffPolicy, answers: seq<Answer>, i: nat)
    requires i < |answers|
    ensures Run(policy, answers[..i + 1]) == Step(Run(policy, answers[..i]), policy, answers[i])
  {
    assert answers[..i + 1][..i] == answers[..i];
  }

  /** Once left, the supervisor does nothing more. */
  lemma {:induction false} ExitIsFinal(policy: BackoffPolicy, answers: seq<Answer>, i: nat)
    requires i <= |answers| && Run(policy, answers[..i]).exit.Some?
    ensures Run(policy, answers) == Run(policy, answers[..i])
  {
    hide Step;
    if i == |answers| {
      assert answers[..i] == answers;
    } else {
      var p := answers[..|answers| - 1];
      assert p[..i] == answers[..i];
      ExitIsFinal(policy, p, i);
      LeftStaysLeft(Run(policy, p), policy, answers[|answers| - 1]);
    }
  }

  lemma LeftStaysLeft(v: Supervisor, policy: BackoffPolicy, answer: Answer)
    requires v.exit.Some?
    ensures Step(v, policy, answer) == v
  {
  }

  /** The supervisor's nested loops, until it leaves or the given answers are used up. */
  method RunBackendSupervisor(policy: BackoffPolicy, answers: seq<Answer>)
    returns (sent: seq<MonitorEvent>, waits: seq<Duration>, exit: Option<SupervisorExit>)
    ensures var v := Run(policy, answers); sent == v.sent && waits == v.waits && exit == v.exit
  {
    hide Step, Poll, Run;
    sent, waits, exit := [], [], None;
    var attempt: u32 := 0;
    var i := 0;
    RunNothing(policy);
    while i < |answers|
      invariant i <= |answers| && exit == None
      invariant Run(policy, answers[..i]) == Supervisor(None, attempt, sent, [], waits, None) || i == |answers|
      invariant var v := Run(policy, answers[..i]); sent == v.sent && waits == v.waits && exit == v.exit
    {
      var answer := answers[i];
      ghost var v := Supervisor(None, attempt, sent, [], waits, None);
      RunNext(policy, answers, i);
      StepIs(v, policy, answer);
      i := i + 1;
      if answer.shutdown {
        ExitIsFinal(policy, answers, i);
        return sent, waits, Some(Shutdown);
      }
      if answer.connect.Failure? {
        if !answer.taken {
          ExitIsFinal(policy, answers, i);
          return sent, waits, Some(answer.refusal);
        }
        sent := sent + [ConnectFailedEvent(answer.connect.error)];
        ghost var rounds;
        var delay;
        delay, rounds := policy.Delay(attempt);
        waits := waits + [delay];
        attempt := SaturatingAdd32(attempt, 1);
        if answer.interrupted {
          ExitIsFinal(policy, answers, i);
          return sent, waits, Some(Shutdown);
        }
        continue;
      }
      attempt := 0;
      var source := new ObserverEventSource();
      while i < |answers|
        invariant i <= |answers| && exit == None
        invariant Run(policy, answers[..i]) == Supervisor(Some(source.Model()), attempt, sent, [], waits, None)
        invariant fresh(source) && fresh(source.sessions)
      {
        answer := answers[i];
        v := Supervisor(Some(source.Model()), attempt, sent, [], waits, None);
        RunNext(policy, answers, i);
        StepIs(v, policy, answer);
        i := i + 1;
        if answer.shutdown {
          ExitIsFinal(policy, answers, i);
          return sent, waits, Some(Shutdown);
        }
        var polled := source.NextEvent(answer.read);
        if polled.Failure? {
          if !answer.taken {
            ExitIsFinal(policy, answers, i);
            return sent, waits, Some(answer.refusal);
          }
          sent := sent + [DisconnectedEvent(polled.error)];
          ghost var rounds;
          var delay;
          delay, rounds := policy.Delay(attempt);
          waits := waits + [delay];
          attempt := SaturatingAdd32(attempt, 1);
          if answer.interrupted {
            ExitIsFinal(policy, answers, i);
            return sent, waits, Some(Shutdown);
          }
          break;
        }
        if polled.value.Some? {
          if !answer.taken {
            ExitIsFinal(policy, answers, i);
            return sent, waits, Some(answer.refusal);
          }
          sent := sent + [polled.value.value];
        }
      }
    }
    assert answers[..|answers|] == answers;
  }

  lemma RunNothing(policy: BackoffPolicy)
    ensures Run(policy, []) == IDLE
  {
  }

  lemma StepIs(v: Supervisor, policy: BackoffPolicy, answer: Answer)
    requires v.exit.None?
    ensures Step(v, policy, answer) ==
            if answer.shutdown then v.(exit := Some(Shutdown))
            else if v.source.None? then Connecting(v, policy, answer)
            else Polling(v, policy, Poll(v.source.value, answer.read), answer)
  {
    hide Poll;
  }

  // ----- The application agrees with the current connection -----

  ghost function Queued(v: Supervisor): seq<MonitorEvent> {
    if v.source.Some? then v.source.value.pending else []
  }

  /** Everything the connections have produced: sent, refused by the consumer, or still queued. */
  ghost function Produced(v: Supervisor): seq<MonitorEvent> {
    v.sent + v.unsent + Queued(v)
  }

  /** The current connection's machine; an empty one while disconnected. */
  ghost function ConnectedMachine(v: Supervisor): Machine {
    if v.source.Some? then v.source.value.machine else INITIAL
  }

  ghost predicate Accounted(v: Supervisor) {
    && Valid(ConnectedMachine(v))
    && (v.exit.None? ==> v.unsent == [])
    && Describes(SessionsAfter(map[], Produced(v)), ConnectedMachine(v))
  }

  lemma ReportAccounts(v: Supervisor, policy: BackoffPolicy, report: MonitorEvent, answer: Answer)
    requires v.exit.None? && v.unsent == [] && report.AvailabilityChanged? && report.availability != Available
    ensures Accounted(Retry(v, policy, report, answer))
  {
    var v' := Retry(v, policy, report, answer);
    SessionsAfterAppend(map[], v.sent, [report]);
    SessionsAfterSingle(SessionsAfter(map[], v.sent), report);
    assert Produced(v') == v.sent + [report];
  }

  lemma StepKeepsAccount(v: Supervisor, policy: BackoffPolicy, answer: Answer)
    requires Accounted(v)
    ensures Accounted(Step(v, policy, answer))
  {
    hide Poll, ActiveIds, Valid, Retry, SessionsAfter;
    var v' := Step(v, policy, answer);
    if v.exit.Some? || answer.shutdown {
      assert Produced(v') == Produced(v);
    } else if v.source.None? {
      if answer.connect.Success? {
        InitialMachineIsEmpty();
        assert Produced(v') == Produced(v);
      } else {
        ReportAccounts(v, policy, ConnectFailedEvent(answer.connect.error), answer);
      }
    } else {
      var s := v.source.value;
      var polled := Poll(s, answer.read);
      assert Produced(v) == v.sent + s.pending;
      SessionsAfterAppend(map[], v.sent, s.pending);
      PollKeepsAccount(s, answer.read, SessionsAfter(map[], v.sent));
      if polled.result.Failure? {
        ReportAccounts(v, policy, DisconnectedEvent(polled.result.error), answer);
      } else {
        DeliveryAccounts(v, polled, answer);
      }
    }
  }

  lemma DeliveryAccounts(v: Supervisor, polled: Polled, answer: Answer)
    requires v.exit.None? && v.unsent == [] && polled.result.Success?
    ensures var v' := v.(source := Some(polled.source));
            var ids := SessionsAfter(map[], v.sent);
            polled.result.value.Some? ==>
              SessionsAfter(map[], Produced(Send(v', polled.result.value.value, answer))) ==
              SessionsAfter(SessionsAfterOne(ids, polled.result.value.value), polled.source.pending)
    ensures polled.result.value.None? ==>
              SessionsAfter(map[], Produced(v.(source := Some(polled.source)))) ==
              SessionsAfter(SessionsAfter(map[], v.sent), polled.source.pending)
  {
    hide SessionsAfter, SessionsAfterOne;
    var pending := polled.source.pending;
    if polled.result.value.Some? {
      var event := polled.result.value.value;
      var v' := Send(v.(source := Some(polled.source)), event, answer);
      assert Produced(v') == (v.sent + [event]) + pending;
      SessionsAfterAppend(map[], v.sent + [event], pending);
      SessionsAfterAppend(map[], v.sent, [event]);
      SessionsAfterSingle(SessionsAfter(map[], v.sent), event);
    } else {
      assert Produced(v.(source := Some(polled.source))) == v.sent + pending;
      SessionsAfterAppend(map[], v.sent, pending);
    }
  }

  lemma InitialMachineIsEmpty()
    ensures Valid(INITIAL) && ActiveIds(INITIAL) == {}
  {
  }

  lemma {:induction false} RunIsAccounted(policy: BackoffPolicy, answers: seq<Answer>)
    ensures Accounted(Run(policy, answers))
  {
    hide Step, Accounted;
    if answers == [] {
      assert Accounted(IDLE) by { IdleIsAccounted(); }
    } else {
      RunIsAccounted(policy, answers[..|answers| - 1]);
      StepKeepsAccount(Run(policy, answers[..|answers| - 1]), policy, answers[|answers| - 1]);
    }
  }

  lemma IdleIsAccounted()
    ensures Accounted(IDLE)
  {
    assert Produced(IDLE) == [];
  }

  /** The registry shows a machine: one session for each of its entries, as it started, under whatever
      application was resolved. */
  ghost predicate Shows(sessions: map<string, CameraSession>, m: Machine) {
    && sessions.Keys == ActiveIds(m)
    && forall k | k in m.active ::
         var s := m.active[k];
         s.id in sessions &&
         sessions[s.id] == s.(lastObserved := s.startedAt, application := sessions[s.id].application)
  }

  /** Over every run, reconnects and exits included, and whatever identities are resolved: once the application
      has reduced everything the connections produced, it shows the current machine, and each session under the
      identity resolved for its start. */
  lemma DaemonAgreesWithConnection(
    policy: BackoffPolicy, answers: seq<Answer>, r: Registry, identities: seq<ApplicationIdentity>)
    requires r.sessions == map[] && |identities| == |Produced(Run(policy, answers))|
    ensures var v := Run(policy, answers);
            var sessions := ReconcileAll(r, ResolveAll(Produced(v), identities)).sessions;
            Shows(sessions, ConnectedMachine(v)) && Attributed(r, Produced(v), identities, sessions)
  {
    hide Run, ConnectedMachine, ReconcileAll, ResolveAll, Produced, Valid, Attributed;
    var v := Run(policy, answers);
    RunIsAccounted(policy, answers);
    RegistryHoldsSessions(r, Produced(v), identities);
    AllAttributed(r, Produced(v), identities);
  }

  // ----- Waits follow the backoff policy -----

  /** How many waits there have been since the last successful connection. */
  ghost function WaitsSinceConnect(policy: BackoffPolicy, answers: seq<Answer>): nat {
    if answers == [] then 0
    else
      var p := answers[..|answers| - 1];
      var v, v' := Run(policy, p), Run(policy, answers);
      if v.source.None? && v'.source.Some? then 0
      else WaitsSinceConnect(policy, p) + if v'.waits == v.waits then 0 else 1
  }

  /** The i-th wait since the last successful connection is the policy's i-th delay. */
  lemma {:induction false} WaitsFollowPolicy(policy: BackoffPolicy, answers: seq<Answer>, i: nat)
    requires i < WaitsSinceConnect(policy, answers)
    ensures WaitsSinceConnect(policy, answers) <= |Run(policy, answers).waits|
    ensures var waits := Run(policy, answers).waits;
            waits[|waits| - WaitsSinceConnect(policy, answers) + i] == policy.DelayAt(Min(i, U32_MAX))
  {
    WaitCount(policy, answers);
    if answers != [] {
      var n := |answers| - 1;
      var p := answers[..n];
      WaitCount(policy, p);
      StepWaits(Run(policy, p), policy, answers[n]);
      if i < WaitsSinceConnect(policy, p) {
        WaitsFollowPolicy(policy, p, i);
      }
    }
  }

  lemma StepWaits(v: Supervisor, policy: BackoffPolicy, answer: Answer)
    ensures var v' := Step(v, policy, answer);
            if v'.waits == v.waits
            then v'.attempt == if v.source.None? && v'.source.Some? then 0 else v.attempt
            else v'.source.None? && v'.waits == v.waits + [policy.DelayAt(v.attempt)] &&
                 v'.attempt == SaturatingAdd32(v.attempt, 1)
  {
    hide Poll;
    assert |v.waits + [policy.DelayAt(v.attempt)]| == |v.waits| + 1;
  }

  lemma {:induction false} WaitCount(policy: BackoffPolicy, answers: seq<Answer>)
    ensures WaitsSinceConnect(policy, answers) <= |Run(policy, answers).waits|
    ensures Run(policy, answers).attempt == Min(WaitsSinceConnect(policy, answers), U32_MAX)
  {
    hide Step;
    if answers != [] {
      WaitCount(policy, answers[..|answers| - 1]);
      StepWaits(Run(policy, answers[..|answers| - 1]), policy, answers[|answers| - 1]);
    }
  }
}
