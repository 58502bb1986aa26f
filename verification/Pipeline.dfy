/** The whole chain, from tracepoints to a listening D-Bus client. */
module Pipeline {
  import opened Prelude
  import opened Capture
  import opened SessionMachine
  import opened Monitor
  import opened Application
  import opened DbusService
  import opened ObserverSource
  import opened Backoff
  import opened Backend
  import opened Reports
  import opened KernelEvents
  import opened Agreement
  import opened ObserverRuns
  import opened KernelMirror
  import opened Sending
  import Bpf
  import E = ExtensionService

  // ----- The daemon accepts whatever the observer sends -----

  /** Totals and valid captures only: no daemon refuses them. */
  ghost predicate AllWelcome(sent: seq<Routed>) {
    forall r | r in sent :: Welcome(r.message) && !r.message.Status?
  }

  lemma PublishesWelcome(o: Observer, user: u32, c: Candidate, operation: CaptureOperation, timestamp: u64, result: i64)
    requires AllWelcome(o.sent)
    ensures AllWelcome(Publish(o, user, c, operation, timestamp, result).sent)
    ensures AllWelcome(IncrementSuppression(o, user, CaptureOwner.Unknown).sent)
  {
    hide Validate, EventFor;
  }

  lemma {:induction false} DropSendsWelcome(o: Observer, keys: seq<CandidateKey>, operation: CaptureOperation,
      timestamp: u64, result: i64)
    requires AllWelcome(o.sent)
    ensures AllWelcome(Drop(o, keys, operation, timestamp, result).sent)
  {
    hide DropOne, AllWelcome;
    if keys != [] {
      DropSendsWelcome(o, keys[..|keys| - 1], operation, timestamp, result);
      DropOneSendsWelcome(Drop(o, keys[..|keys| - 1], operation, timestamp, result), keys[|keys| - 1], operation,
        timestamp, result);
    }
  }

  lemma DropOneSendsWelcome(o: Observer, k: CandidateKey, operation: CaptureOperation, timestamp: u64, result: i64)
    requires AllWelcome(o.sent)
    ensures AllWelcome(DropOne(o, k, operation, timestamp, result).sent)
  {
    hide AllWelcome, Publish;
    if k in o.candidates {
      PublishesWelcome(o.(candidates := o.candidates - {k}), k.userId, o.candidates[k], operation, timestamp, result);
    }
  }

  lemma {:induction false} TurnsSendWelcome(o: Observer, ticks: seq<Tick>)
    requires AllWelcome(o.sent)
    ensures AllWelcome(Turns(o, ticks).sent)
  {
    hide Turn, AllWelcome;
    if ticks != [] {
      TurnsSendWelcome(o, ticks[..|ticks| - 1]);
      TurnSendsWelcome(Turns(o, ticks[..|ticks| - 1]), ticks[|ticks| - 1]);
    }
  }

  lemma TurnSendsWelcome(o: Observer, tick: Tick)
    requires AllWelcome(o.sent)
    ensures AllWelcome(Turn(o, tick).sent)
  {
    hide AllWelcome, Publish, IncrementSuppression, Drop, DropOne, CandidateListing, BuildCandidate;
    match tick
    case DeviceCheck(missing) =>
      DropSendsWelcome(o, CandidateListing(WithMissingDevice(o.candidates, missing)), DeviceRemoved,
        SaturatingAdd64(o.lastTimestamp, 1), 0);
    case Kernel(raw, lookup) =>
      var o' := o.(lastTimestamp := if raw.timestamp > o.lastTimestamp then raw.timestamp else o.lastTimestamp);
      match raw.operation
      case StreamOn =>
        var c := if BuildCandidate(raw, lookup).Some? then BuildCandidate(raw, lookup).value else Unbuilt();
        PublishesWelcome(o', raw.userId, c, StreamStarted, raw.timestamp, raw.result);
      case StreamOff => DropOneSendsWelcome(o', KeyFor(raw), StreamStopped, raw.timestamp, raw.result);
      case Closed => DropOneSendsWelcome(o', KeyFor(raw), DeviceClosed, raw.timestamp, raw.result);
      case Exited =>
        DropSendsWelcome(o', CandidateListing(OfProcessGroup(o'.candidates, raw)), ProcessExited,
          raw.timestamp, raw.result);
  }

  function Unbuilt(): Candidate {
    Candidate(
      0, 0, 0, 0, PhysicalCamera(0, 0, None, None, None, None, None, None, None, None, None), CaptureOwner.Unknown)
  }

  lemma {:induction false} DeliveredIsWelcome(sent: seq<Routed>, user: u32)
    requires AllWelcome(sent)
    ensures forall message | message in Delivered(sent, user) :: Welcome(message) && !message.Status?
  {
    hide Welcome;
    if sent != [] {
      DeliveredIsWelcome(sent[..|sent| - 1], user);
    }
  }

  // ----- What a connection has fetched -----

  lemma FetchOne(messages: seq<ObserverMessage>, message: ObserverMessage)
    ensures MachineAfter(messages + [message]) == Translate(MachineAfter(messages), message).0
  {
    hide Translate;
    assert (messages + [message])[..|messages|] == messages;
  }

  /** The connection's machine is the one its fetched messages build. */
  lemma {:induction false} MachineIsFetched(policy: BackoffPolicy, answers: seq<Answer>)
    ensures var v := Backend.Run(policy, answers);
            v.source.Some? ==> v.source.value.machine == MachineAfter(Fetched(policy, answers))
  {
    hide Translate, MachineAfter;
    if answers != [] {
      var p, answer := answers[..|answers| - 1], answers[|answers| - 1];
      MachineIsFetched(policy, p);
      NothingFetched();
      var v := Backend.Run(policy, p);
      if v.source.Some? {
        var before := Fetched(policy, p);
        assert before + [] == before;
        if v.source.value.pending == [] && answer.read.Received? {
          FetchOne(before, answer.read.message);
        }
      }
    }
  }

  lemma NothingFetched()
    ensures MachineAfter([]) == INITIAL
  {
  }

  /** A poll, or a connection attempt, with nothing going wrong. */
  function Smooth(read: ReadOutcome): Answer {
    Answer(false, Success(()), read, true, Shutdown, false)
  }

  ghost predicate Idle(v: Supervisor) {
    v.exit.None? && v.source.Some? && v.source.value.pending == []
  }

  /** A running connection can always deliver what it has queued. */
  lemma {:induction false} Drains(policy: BackoffPolicy, answers: seq<Answer>) returns (all: seq<Answer>)
    requires Backend.Run(policy, answers).exit.None? && Backend.Run(policy, answers).source.Some?
    ensures Idle(Backend.Run(policy, all)) && Fetched(policy, all) == Fetched(policy, answers)
    decreases |Backend.Run(policy, answers).source.value.pending|
  {
    hide Translate;
    if Backend.Run(policy, answers).source.value.pending == [] {
      all := answers;
    } else {
      var more := answers + [Smooth(TimedOut)];
      assert more[..|answers|] == answers;
      assert Fetched(policy, more) == Fetched(policy, answers) + [];
      all := Drains(policy, more);
    }
  }

  /** An idle connection fetches the next message a session machine accepts. */
  lemma FetchesNext(policy: BackoffPolicy, answers: seq<Answer>, message: ObserverMessage)
    requires Idle(Backend.Run(policy, answers)) && Welcome(message)
    ensures var more := answers + [Smooth(Received(message))];
            && Backend.Run(policy, more).exit.None? && Backend.Run(policy, more).source.Some?
            && Fetched(policy, more) == Fetched(policy, answers) + [message]
  {
    hide Translate, Welcome;
    var more := answers + [Smooth(Received(message))];
    assert more[..|answers|] == answers;
    WelcomeIsAccepted(Backend.Run(policy, answers).source.value.machine, message);
  }

  /** Any messages a session machine accepts can be fetched. */
  lemma {:induction false} CanBeFetched(policy: BackoffPolicy, messages: seq<ObserverMessage>)
    returns (answers: seq<Answer>)
    requires forall message | message in messages :: Welcome(message)
    ensures Idle(Backend.Run(policy, answers)) && Fetched(policy, answers) == messages
  {
    hide Translate, Welcome, Idle, Fetched, Backend.Run;
    if messages == [] {
      answers := Connects(policy);
    } else {
      var n := |messages| - 1;
      var earlier := CanBeFetched(policy, messages[..n]);
      FetchesNext(policy, earlier, messages[n]);
      answers := Drains(policy, earlier + [Smooth(Received(messages[n]))]);
    }
  }

  lemma Connects(policy: BackoffPolicy) returns (answers: seq<Answer>)
    ensures Idle(Backend.Run(policy, answers)) && Fetched(policy, answers) == []
  {
    answers := [Smooth(TimedOut)];
    assert answers[..0] == [];
  }

  /** What the observer sends a newly connected daemon leaves its machine empty. */
  lemma {:induction false} GreetingIsNeutral(a: Availability, d: string, t: Diagnostics, rest: seq<ObserverMessage>)
    ensures MachineAfter([Status(a, d), Totals(t)] + rest) == MachineAfter(rest)
  {
    hide Observe;
    var greeting := [Status(a, d), Totals(t)];
    if rest == [] {
      assert greeting + rest == greeting;
      assert greeting[..1] == [Status(a, d)];
      FetchOne([], Status(a, d));
      FetchOne([Status(a, d)], Totals(t));
      assert INITIAL.active - INITIAL.active.Keys == map[];
    } else {
      var n := |rest| - 1;
      GreetingIsNeutral(a, d, t, rest[..n]);
      assert (greeting + rest)[..|greeting + rest| - 1] == greeting + rest[..n];
    }
  }

  // ----- No session update is ever produced -----

  lemma TranslateHasNoUpdates(m: Machine, message: ObserverMessage)
    ensures Translate(m, message).1.Success? ==> NoUpdates(Translate(m, message).1.value)
  {
    hide Observe, LoseBackend;
  }

  lemma PollHasNoUpdates(s: Source, read: ReadOutcome)
    requires NoUpdates(s.pending)
    ensures var p := Poll(s, read);
            NoUpdates(p.source.pending) &&
            (p.result.Success? && p.result.value.Some? ==> !p.result.value.value.SessionUpdated?)
  {
    hide Translate;
    if read.Received? {
      TranslateHasNoUpdates(s.machine, read.message);
    }
  }

  lemma {:induction false} RunHasNoUpdates(policy: BackoffPolicy, answers: seq<Answer>)
    ensures NoUpdates(Produced(Backend.Run(policy, answers)))
  {
    hide Poll;
    if answers != [] {
      var v, answer := Backend.Run(policy, answers[..|answers| - 1]), answers[|answers| - 1];
      RunHasNoUpdates(policy, answers[..|answers| - 1]);
      if v.source.Some? {
        PollHasNoUpdates(v.source.value, answer.read);
      }
    }
  }

  lemma ResolutionAddsNoUpdates(evs: seq<MonitorEvent>, identities: seq<ApplicationIdentity>)
    requires |evs| == |identities| && NoUpdates(evs)
    ensures NoUpdates(ResolveAll(evs, identities))
  {
  }

  // ----- End to end -----

  lemma {:induction false} AsManyIdsAsKeys(m: Machine, keys: set<CaptureKey>)
    requires Valid(m) && keys <= m.active.Keys
    ensures |IdsOf(m.active, keys)| == |keys|
  {
    hide Valid;
    if keys == {} {
      assert IdsOf(m.active, keys) == {};
    } else {
      var k :| k in keys;
      AsManyIdsAsKeys(m, keys - {k});
      forall k' | k' in keys - {k} ensures m.active[k'].id != m.active[k].id { ActiveIdsIdentifyKeys(m, k, k'); }
      assert IdsOf(m.active, keys) == IdsOf(m.active, keys - {k}) + {m.active[k].id};
    }
  }

  /** The properties show the given status and totals. */
  ghost predicate ShowsStatus(p: Properties, status: (Availability, string), totals: Diagnostics) {
    && (p.observerAvailable <==> status.0.Available?)
    && p.observerAvailability == status.0.Text() && p.observerStatusDetail == status.1
    && p.suppressedBrokerEvents == totals.suppressedBroker
    && p.suppressedUnknownEvents == totals.suppressedUnknown
    && (p.unknownCameraActivity <==> totals.suppressedUnknown > 0)
  }

  /** What each end of the chain holds once everything sent to a user has been handled. */
  ghost predicate ChainAgrees(held: set<CaptureKey>, m: Machine, app: Registry, service: Registry, client: Shadow,
      status: (Availability, string), totals: Diagnostics)
  {
    && m.active.Keys == held && Valid(m)
    && Shows(app.sessions, m)
    && |app.sessions| == |held|
    && service == app
    && client.ids == ActiveIds(m)
    && client.properties == PropertiesOf(app)
    && client.table == Table(service)
    && (client.properties.active <==> held != {})
    && (|held| <= 0xFFFF_FFFF ==> client.properties.activeSessionCount == |held|)
    && ShowsStatus(client.properties, status, totals)
  }

  /** The ends of a daemon's part of the chain agree, over every run of its supervisor and whatever identities are
      resolved: its session machine, its application, the service and a client that listens to the service. */
  lemma DaemonChainAgrees(
    policy: BackoffPolicy, answers: seq<Answer>, r: Registry, identities: seq<ApplicationIdentity>, listener: Shadow)
    requires Backend.Run(policy, answers).source.Some?
    requires r.sessions == map[] && Follows(listener, r) && listener.table == Table(r)
    requires |identities| == |Produced(Backend.Run(policy, answers))|
    ensures var v := Backend.Run(policy, answers);
            var events := ResolveAll(Produced(v), identities);
            var forwarded := ForwardedAll(r, events);
            && ChainAgrees(v.source.value.machine.active.Keys, v.source.value.machine,
                 ReconcileAll(r, events), ReduceAll(r, forwarded), HearAll(listener, SignalsForAll(r, forwarded)),
                 LastStatusIn(Fetched(policy, answers), LastFailure(policy, answers, (r.availability, r.detail))),
                 LastTotalsIn(FetchedEver(policy, answers), r.diagnostics))
            && Attributed(r, Produced(v), identities, ReconcileAll(r, events).sessions)
  {
    hide Attributed, Fetched, FetchedEver, LastFailure, LastStatusIn, LastTotalsIn, Backend.Run, Produced,
      ReconcileAll, ForwardedAll, ReduceAll, HearAll, SignalsForAll, ActiveIds, Valid,
      ResolveAll, PropertiesOf, Table, Describes, NoUpdates;
    var v := Backend.Run(policy, answers);
    var events := ResolveAll(Produced(v), identities);
    RunIsAccounted(policy, answers);
    DaemonAgreesWithConnection(policy, answers, r, identities);
    RunHasNoUpdates(policy, answers);
    ResolutionAddsNoUpdates(Produced(v), identities);
    ForwardedHasNoUpdates(r, events);
    ReplicaAgrees(r, events);
    ClientAlwaysFollows(listener, r, ForwardedAll(r, events));
    TableAlwaysFollows(listener, r, ForwardedAll(r, events));
    ActiveIdsCount(v.source.value.machine);
    var app := ReconcileAll(r, events);
    assert |app.sessions| == |app.sessions.Keys|;
    ActiveProperty(app);
    PropertiesMean(app);
    StatusIsLastReported(policy, answers, r, identities);
  }

  lemma ActiveIdsCount(m: Machine)
    requires Valid(m)
    ensures |ActiveIds(m)| == |m.active.Keys|
  {
    AsManyIdsAsKeys(m, m.active.Keys);
  }

  lemma ActiveProperty(r: Registry)
    ensures PropertiesOf(r).active <==> |r.sessions| != 0
  {
  }

  /** What the observer has sent a daemon of the user that connected between `before` and `after`. */
  ghost function SentSince(before: seq<Tick>, after: seq<Tick>, user: u32, a: Availability, d: string, t: Diagnostics)
    : seq<ObserverMessage>
  {
    [Status(a, d), Totals(t)] + Delivered(Turns(Joined(Turns(STARTING, before)), after).sent, user)
  }

  /** The capture's session is the one the kernel event opened since which it has been announced. */
  ghost predicate StartIsKernelEvent(before: seq<Tick>, after: seq<Tick>, user: u32, k: CandidateKey, m: Machine) {
    var candidates := ObserverAt(before, after).candidates;
    k in candidates && CaptureKeyOf(candidates[k]) in m.active &&
    exists i :: AnnouncedSince(before, after, user, k, i, m.active[CaptureKeyOf(candidates[k])])
  }

  // ----- The status and totals a connected daemon was sent -----

  /** What the current connection fetched is the latest of all that was ever fetched. */
  lemma {:induction false} FetchedIsLatest(policy: BackoffPolicy, answers: seq<Answer>)
    ensures exists earlier :: FetchedEver(policy, answers) == earlier + Fetched(policy, answers)
  {
    hide Backend.Run, Takes;
    var all := FetchedEver(policy, answers);
    assert all == all + [];
    if answers != [] && Fetched(policy, answers) != [] {
      var p := answers[..|answers| - 1];
      FetchedIsLatest(policy, p);
      var earlier :| FetchedEver(policy, p) == earlier + Fetched(policy, p);
      assert all == earlier + Fetched(policy, answers);
    }
  }

  lemma {:induction false} LatestTotals(earlier: seq<ObserverMessage>, messages: seq<ObserverMessage>, t: Diagnostics,
      u: Diagnostics)
    requires exists message :: message in messages && message.Totals?
    ensures LastTotalsIn(earlier + messages, t) == LastTotalsIn(messages, u)
  {
    var n := |messages| - 1;
    assert (earlier + messages)[..|earlier + messages| - 1] == earlier + messages[..n];
    if !messages[n].Totals? { LatestTotals(earlier, messages[..n], t, u); }
  }

  lemma {:induction false} AfterGreeting(a: Availability, d: string, t: Diagnostics, rest: seq<ObserverMessage>,
      otherwise: (Availability, string), u: Diagnostics)
    requires forall message | message in rest :: !message.Status?
    ensures LastStatusIn([Status(a, d), Totals(t)] + rest, otherwise) == (a, d)
    ensures LastTotalsIn([Status(a, d), Totals(t)] + rest, u) == LastTotalsIn(rest, t)
  {
    var greeting := [Status(a, d), Totals(t)];
    if rest == [] {
      assert greeting + rest == greeting && greeting[..1] == [Status(a, d)];
      assert LastStatusIn(greeting[..1], otherwise) == (a, d);
    } else {
      var n := |rest| - 1;
      assert (greeting + rest)[..|greeting + rest| - 1] == greeting + rest[..n];
      AfterGreeting(a, d, t, rest[..n], otherwise, u);
    }
  }

  lemma {:induction false} TotalsDelivered(sent: seq<Routed>, user: u32, t: Diagnostics)
    ensures LastTotalsIn(Delivered(sent, user), t) == LastTold(TotalsIn(sent, user), t)
  {
    if sent != [] {
      var n := |sent| - 1;
      TotalsDelivered(sent[..n], user, t);
      var before := Delivered(sent[..n], user);
      assert before + [] == before && (before + [sent[n].message])[..|before|] == before;
    }
  }

  /** The totals a user's daemon was last sent, when it was greeted with the user's totals at that time: the numbers of
      starts and dropped candidates of a broker, and of nobody known, since the observer started. */
  lemma TotalsReachDaemon(before: seq<Tick>, after: seq<Tick>, user: u32)
    ensures LastTotalsIn(Delivered(ObserverAt(before, after).sent, user), TotalsOf(Turns(STARTING, before), user)) ==
            Diagnostics(Capped(BrokerCount(STARTING, before + after, user)),
                        Capped(UnknownCount(STARTING, before + after, user)))
  {
    hide Turns, BrokerCount, UnknownCount, TotalsIn, LastTold, CountsUp, Delivered;
    var o := Joined(Turns(STARTING, before));
    SuppressionsAreCounted(o, after, user);
    SuppressionsAreCounted(STARTING, before + after, user);
    JoiningMissesThePast(before, after);
    TotalsDelivered(ObserverAt(before, after).sent, user, TotalsOf(o, user));
  }

  lemma IsAnnounced(before: seq<Tick>, after: seq<Tick>, user: u32, k: CandidateKey)
    requires AnnouncedFor(ObserverAt(before, after).candidates, user, HeardAll(after), k)
    ensures AnnouncedAt(before, after, user, k) && k in ObserverAt(before, after).candidates
  {
  }

  /** A connected daemon that fetched everything was last told the status of its greeting, and the totals last sent. */
  lemma GreetedStatus(policy: BackoffPolicy, answers: seq<Answer>, before: seq<Tick>, after: seq<Tick>, user: u32,
      a: Availability, d: string, t: Diagnostics, otherwise: (Availability, string), u: Diagnostics)
    requires Fetched(policy, answers) == SentSince(before, after, user, a, d, t)
    ensures LastStatusIn(Fetched(policy, answers), otherwise) == (a, d)
    ensures LastTotalsIn(FetchedEver(policy, answers), u) ==
            LastTotalsIn(Delivered(ObserverAt(before, after).sent, user), t)
  {
    hide Turns, Fetched, FetchedEver, Delivered, LastTotalsIn, LastStatusIn, Welcome;
    var o := Joined(Turns(STARTING, before));
    TurnsSendWelcome(o, after);
    DeliveredIsWelcome(Turns(o, after).sent, user);
    var rest := Delivered(ObserverAt(before, after).sent, user);
    AfterGreeting(a, d, t, rest, otherwise, u);
    FetchedIsLatest(policy, answers);
    var earlier :| FetchedEver(policy, answers) == earlier + Fetched(policy, answers);
    assert Fetched(policy, answers)[1] == Totals(t);
    LatestTotals(earlier, Fetched(policy, answers), u, u);
  }

  /** The properties show the numbers of suppressed captures, up to the greatest 64-bit number. */
  predicate ShowsTotals(p: Properties, broker: nat, unknown: nat) {
    && p.suppressedBrokerEvents == (if broker <= 0xFFFF_FFFF_FFFF_FFFF then broker else 0xFFFF_FFFF_FFFF_FFFF)
    && p.suppressedUnknownEvents == (if unknown <= 0xFFFF_FFFF_FFFF_FFFF then unknown else 0xFFFF_FFFF_FFFF_FFFF)
    && (p.unknownCameraActivity <==> unknown > 0)
  }

  lemma TotalsAreShown(held: set<CaptureKey>, m: Machine, app: Registry, service: Registry, client: Shadow,
      status: (Availability, string), broker: nat, unknown: nat)
    requires ChainAgrees(held, m, app, service, client, status, Diagnostics(Capped(broker), Capped(unknown)))
    ensures ShowsTotals(client.properties, broker, unknown)
  {
    hide Valid, Shows, PropertiesOf, Table, ActiveIds;
  }

  /** With kernel events from the tracepoint program, stable identities and increasing timestamps, a daemon that
      has fetched everything sent to its user since it connected shows its D-Bus clients one session, with its
      details, for each directly owned capture started since and still tracked by the observer. These are all
      the captures tracked exactly when every tracked one was started since; always, if it connected at the start.
      A session is the one the kernel event opened since which its capture has been tracked, under the identity
      resolved for it. The clients see the status the daemon was greeted with, and the totals last sent: if the
      greeting told the totals of that time, the numbers of suppressed captures since the observer started. */
  lemma EndToEnd(
    before: seq<Tick>, after: seq<Tick>, calls: seq<Bpf.Call>, user: u32,
    policy: BackoffPolicy, answers: seq<Answer>, a: Availability, d: string, t: Diagnostics,
    r: Registry, identities: seq<ApplicationIdentity>, listener: Shadow)
    requires LawfulRun(before + after) && TimestampsIncrease(before + after) && FromProgram(before + after, calls)
    requires Backend.Run(policy, answers).source.Some?
    requires Fetched(policy, answers) == SentSince(before, after, user, a, d, t)
    requires r.sessions == map[] && Follows(listener, r) && listener.table == Table(r)
    requires |identities| == |Produced(Backend.Run(policy, answers))|
    ensures var v := Backend.Run(policy, answers);
            var candidates := Turns(STARTING, before + after).candidates;
            var held := AnnouncedKeys(candidates, user, HeardAll(after));
            var events := ResolveAll(Produced(v), identities);
            var forwarded := ForwardedAll(r, events);
            && ChainAgrees(held, v.source.value.machine,
                 ReconcileAll(r, events), ReduceAll(r, forwarded), HearAll(listener, SignalsForAll(r, forwarded)),
                 (a, d), LastTotalsIn(Delivered(ObserverAt(before, after).sent, user), t))
            && (t == TotalsOf(Turns(STARTING, before), user) ==>
                 ShowsTotals(HearAll(listener, SignalsForAll(r, forwarded)).properties,
                   BrokerCount(STARTING, before + after, user), UnknownCount(STARTING, before + after, user)))
            && Attributed(r, Produced(v), identities, ReconcileAll(r, events).sessions)
            && (held == Tracked(candidates, user) <==>
                 forall k | AnnouncedFor(candidates, user, candidates.Keys, k) :: k in HeardAll(after))
            && (before == [] ==> held == Tracked(candidates, user))
            && forall k | AnnouncedFor(candidates, user, HeardAll(after), k) ::
                 StartIsKernelEvent(before, after, user, k, v.source.value.machine)
  {
    hide Turns, Backend.Run, Fetched, Delivered, MachineAfter, ReconcileAll, ForwardedAll, ReduceAll, HearAll,
      ResolveAll, SignalsForAll, AnnouncedKeys, AnnouncedFor, ChainAgrees, LawfulRun, TimestampsIncrease, FromProgram,
      Produced,
      Follows, Table, HeardAll, Translate, WellFiled, ResultsAreZero, AnnouncedAt, AnnouncedSince, TotalsOf,
      FetchedEver, LastStatusIn, LastTotalsIn, LastFailure, Attributed, BrokerCount, UnknownCount;
    var o := Turns(Joined(Turns(STARTING, before)), after);
    var m := Backend.Run(policy, answers).source.value.machine;
    ProgramReportsSuccess(before + after, calls);
    AgreementSince(before, after, user);
    JoiningMissesThePast(before, after);
    MachineIsFetched(policy, answers);
    GreetingIsNeutral(a, d, t, Delivered(o.sent, user));
    assert m == UserMachine(o, user);
    DaemonChainAgrees(policy, answers, r, identities, listener);
    GreetedStatus(policy, answers, before, after, user, a, d, t,
      LastFailure(policy, answers, (r.availability, r.detail)), r.diagnostics);
    var events := ResolveAll(Produced(Backend.Run(policy, answers)), identities);
    var forwarded := ForwardedAll(r, events);
    var client := HearAll(listener, SignalsForAll(r, forwarded));
    var totals := LastTotalsIn(Delivered(ObserverAt(before, after).sent, user), t);
    assert ChainAgrees(m.active.Keys, m, ReconcileAll(r, events), ReduceAll(r, forwarded), client, (a, d), totals);
    if t == TotalsOf(Turns(STARTING, before), user) {
      TotalsReachDaemon(before, after, user);
      TotalsAreShown(m.active.Keys, m, ReconcileAll(r, events), ReduceAll(r, forwarded), client, (a, d),
        BrokerCount(STARTING, before + after, user), UnknownCount(STARTING, before + after, user));
    }
    HoldsEverythingIff(o.candidates, user, HeardAll(after));
    if before == [] {
      assert before + after == after;
      EverythingIsHeard(after);
      TrackedIsHeard(o.candidates, user, HeardAll(after));
    }
    forall k | AnnouncedFor(o.candidates, user, HeardAll(after), k)
      ensures StartIsKernelEvent(before, after, user, k, m)
    {
      IsAnnounced(before, after, user, k);
      SessionsStartWhenAnnounced(before, after, user, k);
    }
  }

  lemma ShownEntry(sessions: map<string, CameraSession>, m: Machine, t: u32, fd: i32)
    requires Valid(m) && Shows(sessions, m)
    ensures (exists k :: k in m.active && k.threadGroupId == t && k.fileDescriptor == fd) <==>
            (exists id :: id in sessions && sessions[id].threadGroupId == t && sessions[id].fileDescriptor == fd)
  {
    hide SessionText, NodeText;
    if k :| k in m.active && k.threadGroupId == t && k.fileDescriptor == fd {
      assert EntryValid(k, m.active[k], m.last) && m.active[k].id in sessions;
    }
    if id :| id in sessions && sessions[id].threadGroupId == t && sessions[id].fileDescriptor == fd {
      var k :| k in m.active && m.active[k].id == id;
      assert EntryValid(k, m.active[k], m.last);
    }
  }

  /** From ACTIVE_CAPTURE to the client: over every run of handler calls and device checks on which the kernel's
      and the observer's records of a process do not part, and while all its captures are announced, a daemon that
      listens from the start shows its clients a session for exactly the process's descriptors in ACTIVE_CAPTURE. */
  lemma KernelToClient(
    moments: seq<Moment>, process: u32, user: u32, fd: i32,
    policy: BackoffPolicy, answers: seq<Answer>, a: Availability, d: string, t: Diagnostics,
    r: Registry, identities: seq<ApplicationIdentity>, listener: Shadow)
    requires AllReported(moments) && forall i: nat | i < |moments| :: !PartsAt(moments, i, process, user)
    requires LawfulRun(TurnsOf(moments)) && TimestampsIncrease(TurnsOf(moments))
    requires var candidates := ObserverAfter(moments).candidates;
             forall k | k in candidates && k.userId == user && k.threadGroupId == process :: Announced(candidates[k])
    requires Backend.Run(policy, answers).source.Some?
    requires Fetched(policy, answers) == SentSince([], TurnsOf(moments), user, a, d, t)
    requires r.sessions == map[] && Follows(listener, r) && listener.table == Table(r)
    requires |identities| == |Produced(Backend.Run(policy, answers))|
    ensures var events := ResolveAll(Produced(Backend.Run(policy, answers)), identities);
            var sessions := ReconcileAll(r, events).sessions;
            var table := HearAll(listener, SignalsForAll(r, ForwardedAll(r, events))).table;
            Bpf.CaptureKey(process, fd) in MapsAfter(moments).activeCapture <==>
            exists id :: id in table && id in sessions &&
              sessions[id].threadGroupId == process && sessions[id].fileDescriptor == fd
  {
    hide Turns, Backend.Run, Fetched, Delivered, ReconcileAll, ForwardedAll, ReduceAll, HearAll, ResolveAll, SentSince,
      SignalsForAll, AnnouncedKeys, LawfulRun, TimestampsIncrease, FromProgram, Produced, TurnsOf, Announced,
      Follows, HeardAll, WellFiled, Mirrors, MapsAfter, PartsAt, Valid, Shows, AllReported, StartIsKernelEvent;
    var after := TurnsOf(moments);
    var o := ObserverAfter(moments);
    assert moments[..|moments|] == moments && [] + after == after;
    MirrorsThroughoutIff(moments, process, user);
    assert MirrorsAfter(moments[..|moments|], process, user);
    TurnsAreFromProgram(moments);
    StartingIsFiled();
    TurnsKeepFiling(STARTING, after);
    EndToEnd([], after, CallsOf(moments), user, policy, answers, a, d, t, r, identities, listener);
    TrackedAreDescriptors(MapsAfter(moments), o, process, user, fd);
    var m := Backend.Run(policy, answers).source.value.machine;
    var events := ResolveAll(Produced(Backend.Run(policy, answers)), identities);
    ShownEntry(ReconcileAll(r, events).sessions, m, process, fd);
  }

  lemma StartingIsFiled()
    ensures WellFiled(STARTING.candidates)
  {
  }

  /** The last stage: when the service applies what the pipeline forwards, an extension at rest after a successful
      call shows the application's properties and sessions, which show the daemon's machine. */
  lemma ExtensionShowsMachine(
    policy: BackoffPolicy, answers: seq<Answer>, r: Registry, identities: seq<ApplicationIdentity>,
    render: E.Render, xs: seq<E.Action>)
    requires r.sessions == map[] && |identities| == |Produced(Backend.Run(policy, answers))|
    requires E.Applied(xs) == ForwardedAll(r, ResolveAll(Produced(Backend.Run(policy, answers)), identities))
    requires E.Possible(render, E.Beginning(r), xs)
    requires var j := E.After(render, E.Beginning(r), xs); E.AtRest(j) && j.world.outcome.Succeeded?
    ensures var v := Backend.Run(policy, answers);
            var app := ReconcileAll(r, ResolveAll(Produced(v), identities));
            var c := E.After(render, E.Beginning(r), xs).world.client;
            && c.lastView == Some(render(PropertiesOf(app), Table(app))) && (c.listening ==> c.Shown() == c.lastView)
            && Shows(app.sessions, ConnectedMachine(v))
  {
    hide Backend.Run, Produced, ReconcileAll, ForwardedAll, ReduceAll, ResolveAll, PropertiesOf, Table, E.Possible,
      E.After, Shows, E.AtRest;
    var events := ResolveAll(Produced(Backend.Run(policy, answers)), identities);
    E.RegistryIsApplied(render, E.Beginning(r), xs);
    E.RestingClientShows(render, r, xs);
    ReplicaAgrees(r, events);
    DaemonAgreesWithConnection(policy, answers, r, identities);
  }

  /** Whatever happens in the kernel and whenever a daemon connects, it can fetch everything sent to its user:
      no message of the observer is refused. */
  lemma EverythingCanBeFetched(before: seq<Tick>, after: seq<Tick>, user: u32, policy: BackoffPolicy,
      a: Availability, d: string, t: Diagnostics)
    returns (answers: seq<Answer>)
    ensures Idle(Backend.Run(policy, answers)) && Fetched(policy, answers) == SentSince(before, after, user, a, d, t)
  {
    hide Turns, Backend.Run, Fetched, Delivered;
    var o := Joined(Turns(STARTING, before));
    TurnsSendWelcome(o, after);
    DeliveredIsWelcome(Turns(o, after).sent, user);
    var messages := SentSince(before, after, user, a, d, t);
    forall message | message in messages ensures Welcome(message) {
      assert message in [Status(a, d), Totals(t)] || message in Delivered(Turns(o, after).sent, user);
    }
    answers := CanBeFetched(policy, messages);
  }
}
