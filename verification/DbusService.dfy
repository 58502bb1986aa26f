/** The D-Bus service: a replica of the pipeline's registry, and the signals a client can replay. */
module DbusService {
  import opened Prelude
  import opened Orders
  import opened Capture
  import opened Monitor
  import opened Application

  datatype SessionDto = SessionDto(
    sessionId: string,
    applicationId: string,
    applicationName: string,
    deviceId: string,
    deviceName: string,
    startedAt: u64,
    processId: u32)

  function ToDto(s: CameraSession): SessionDto {
    SessionDto(
      s.id,
      if s.application.appId.Some? then s.application.appId.value else "",
      s.application.displayName,
      s.device.id,
      s.device.displayName,
      s.startedAt,
      if s.application.pid.Some? then s.application.pid.value else 0)
  }

  /** The exported properties. */
  datatype Properties = Properties(
    active: bool,
    activeSessionCount: u32,
    observerAvailable: bool,
    observerAvailability: string,
    observerStatusDetail: string,
    unknownCameraActivity: bool,
    suppressedBrokerEvents: u64,
    suppressedUnknownEvents: u64)

  datatype PropertyChange =
    | Active(flag: bool)
    | ActiveSessionCount(count: u32)
    | ObserverAvailable(flag: bool)
    | ObserverAvailability(text: string)
    | ObserverStatusDetail(text: string)
    | UnknownCameraActivity(flag: bool)
    | SuppressedBrokerEvents(total: u64)
    | SuppressedUnknownEvents(total: u64)

  datatype Signal =
    | PropertiesChanged(change: PropertyChange)
    | StateChanged(active: bool, activeSessionCount: u32, observerAvailable: bool)
    | SessionStartedSignal(session: SessionDto)
    | SessionStoppedSignal(sessionId: string)
    | ObserverStatusChanged(availability: string)

  function CountOf(r: Registry): u32 {
    Min(|r.sessions|, U32_MAX)
  }

  function PropertiesOf(r: Registry): Properties {
    Properties(
      r.sessions != map[],
      CountOf(r),
      r.availability == Available,
      r.availability.Text(),
      r.detail,
      r.diagnostics.suppressedUnknown > 0,
      r.diagnostics.suppressedBroker,
      r.diagnostics.suppressedUnknown)
  }

  function ActiveSignals(before: Registry, after: Registry): seq<Signal> {
    if (before.sessions != map[]) != (after.sessions != map[])
    then [PropertiesChanged(PropertyChange.Active(after.sessions != map[]))]
    else []
  }

  function CountSignals(before: Registry, after: Registry): seq<Signal> {
    if |before.sessions| != |after.sessions| then [PropertiesChanged(ActiveSessionCount(CountOf(after)))] else []
  }

  function StatusSignals(before: Registry, after: Registry): seq<Signal> {
    if before.availability != after.availability
    then [PropertiesChanged(ObserverAvailable(after.availability == Available)),
          PropertiesChanged(ObserverAvailability(after.availability.Text())),
          ObserverStatusChanged(after.availability.Text())]
    else []
  }

  function DetailSignals(before: Registry, after: Registry): seq<Signal> {
    if before.detail != after.detail then [PropertiesChanged(ObserverStatusDetail(after.detail))] else []
  }

  function DiagnosticSignals(before: Registry, after: Registry): seq<Signal> {
    if before.diagnostics != after.diagnostics
    then [PropertiesChanged(UnknownCameraActivity(after.diagnostics.suppressedUnknown > 0)),
          PropertiesChanged(SuppressedBrokerEvents(after.diagnostics.suppressedBroker)),
          PropertiesChanged(SuppressedUnknownEvents(after.diagnostics.suppressedUnknown))]
    else []
  }

  /** The property notifications for a change of registry, in emission order. */
  function PropertySignals(before: Registry, after: Registry): seq<Signal> {
    ActiveSignals(before, after) + CountSignals(before, after) + StatusSignals(before, after) +
    DetailSignals(before, after) + DiagnosticSignals(before, after)
  }

  function EventSignals(after: Registry, ev: MonitorEvent): seq<Signal> {
    [StateChanged(after.sessions != map[], CountOf(after), after.availability == Available)] +
    match ev
    case SessionStarted(s) => [SessionStartedSignal(ToDto(s))]
    case SessionStopped(id) => [SessionStoppedSignal(id)]
    case _ => []
  }

  function SignalsFor(r: Registry, ev: MonitorEvent): seq<Signal> {
    var after := Reduce(r, ev);
    if after == r then [] else PropertySignals(r, after) + EventSignals(after, ev)
  }

  ghost function SignalsForAll(r: Registry, evs: seq<MonitorEvent>): seq<Signal> {
    if evs == [] then []
    else SignalsForAll(r, evs[..|evs| - 1]) + SignalsFor(ReduceAll(r, evs[..|evs| - 1]), evs[|evs| - 1])
  }

  lemma DtoKeepsId(s: CameraSession)
    ensures ToDto(s).sessionId == s.id
  {
  }

  class DbusService {
    const state: MonitorState
    /** Signals in the order the bus carries them. */
    var emitted: seq<Signal>

    ghost predicate Valid()
      reads this, state
    {
      state.Valid()
    }

    constructor (initial: Registry)
      requires Keyed(initial)
      ensures Valid() && fresh(state) && state.Model() == initial && emitted == []
    {
      state := new MonitorState(initial);
      emitted := [];
    }

    method ApplyEvent(ev: MonitorEvent) returns (changed: bool)
      requires Valid()
      modifies this, state
      ensures Valid()
      ensures state.Model() == Reduce(old(state.Model()), ev)
      ensures changed <==> state.Model() != old(state.Model())
      ensures emitted == old(emitted) + SignalsFor(old(state.Model()), ev)
      ensures !changed ==> emitted == old(emitted)
      ensures changed ==> CalledFor(emitted[|old(emitted)|..], 0, 11, old(state.Model()), state.Model(), ev)
    {
      hide Reduce, PropertySignals, EventSignals, CalledFor;
      var before := state.Copy();
      SignalsAreExact(before, ev);
      changed := state.Apply(ev);
      if !changed {
        return;
      }
      var after := state.Copy();
      EmitProperties(before, after);
      EmitEvent(after, ev);
    }

    /** The active sessions as exported, each once, in id order. */
    method GetActiveSessions() returns (list: seq<SessionDto>)
      requires Valid()
      ensures |list| == |state.activeSessions|
      ensures forall i, j | 0 <= i < j < |list| ::
                TextLeq(list[i].sessionId, list[j].sessionId) && list[i].sessionId != list[j].sessionId
      ensures forall i | 0 <= i < |list| ::
                list[i].sessionId in state.activeSessions &&
                list[i] == ToDto(state.activeSessions[list[i].sessionId])
    {
      hide IdListing, TextLeq, ToDto, Keyed;
      var sessions := state.SnapshotSessions();
      ghost var ids := IdListing(state.activeSessions.Keys);
      IdListingAscends(state.activeSessions.Keys);
      list := seq(|sessions|, i requires 0 <= i < |sessions| => ToDto(sessions[i]));
      forall i | 0 <= i < |list| ensures list[i].sessionId == ids[i] && ids[i] in state.activeSessions {
        DtoKeepsId(sessions[i]);
        assert ids[i] in state.activeSessions.Keys;
      }
    }

    method EmitProperties(before: Registry, after: Registry)
      modifies this
      ensures emitted == old(emitted) + PropertySignals(before, after)
    {
      hide ActiveSignals, CountSignals, StatusSignals, DetailSignals, DiagnosticSignals;
      EmitActive(before, after);
      EmitCount(before, after);
      EmitStatus(before, after);
      EmitDetail(before, after);
      EmitDiagnostics(before, after);
    }

    method EmitActive(before: Registry, after: Registry)
      modifies this
      ensures emitted == old(emitted) + ActiveSignals(before, after)
    {
      if (before.sessions != map[]) != (after.sessions != map[]) {
        Emit(PropertiesChanged(PropertyChange.Active(after.sessions != map[])));
      }
    }

    method EmitCount(before: Registry, after: Registry)
      modifies this
      ensures emitted == old(emitted) + CountSignals(before, after)
    {
      if |before.sessions| != |after.sessions| {
        Emit(PropertiesChanged(ActiveSessionCount(CountOf(after))));
      }
    }

    method EmitStatus(before: Registry, after: Registry)
      modifies this
      ensures emitted == old(emitted) + StatusSignals(before, after)
    {
      hide Availability.Text;
      if before.availability != after.availability {
        Emit(PropertiesChanged(ObserverAvailable(after.availability == Available)));
        Emit(PropertiesChanged(ObserverAvailability(after.availability.Text())));
        Emit(ObserverStatusChanged(after.availability.Text()));
      }
    }

    method EmitDetail(before: Registry, after: Registry)
      modifies this
      ensures emitted == old(emitted) + DetailSignals(before, after)
    {
      if before.detail != after.detail {
        Emit(PropertiesChanged(ObserverStatusDetail(after.detail)));
      }
    }

    method EmitDiagnostics(before: Registry, after: Registry)
      modifies this
      ensures emitted == old(emitted) + DiagnosticSignals(before, after)
    {
      if before.diagnostics != after.diagnostics {
        Emit(PropertiesChanged(UnknownCameraActivity(after.diagnostics.suppressedUnknown > 0)));
        Emit(PropertiesChanged(SuppressedBrokerEvents(after.diagnostics.suppressedBroker)));
        Emit(PropertiesChanged(SuppressedUnknownEvents(after.diagnostics.suppressedUnknown)));
      }
    }

    method EmitEvent(after: Registry, ev: MonitorEvent)
      modifies this
      ensures emitted == old(emitted) + EventSignals(after, ev)
    {
      Emit(StateChanged(after.sessions != map[], CountOf(after), after.availability == Available));
      match ev {
        case SessionStarted(s) => Emit(SessionStartedSignal(ToDto(s)));
        case SessionStopped(id) => Emit(SessionStoppedSignal(id));
        case _ =>
      }
    }

    method Emit(signal: Signal)
      modifies this
      ensures emitted == old(emitted) + [signal]
    {
      emitted := emitted + [signal];
    }
  }

  // ----- The replica follows the pipeline -----

  /** Each event of a sequence changes the registry it reaches. */
  ghost predicate AllEffective(r: Registry, evs: seq<MonitorEvent>) {
    forall i | 0 <= i < |evs| :: Reduce(ReduceAll(r, evs[..i]), evs[i]) != ReduceAll(r, evs[..i])
  }

  lemma {:induction false} StopsAreEffective(r: Registry, ids: seq<string>)
    requires Distinct(ids) && forall id | id in ids :: id in r.sessions
    ensures ReduceAll(r, Stops(ids)) == AfterStops(r, ids) && AllEffective(r, Stops(ids))
  {
    if ids == [] {
      assert r.sessions - Elements(ids) == r.sessions;
    } else {
      var n := |ids| - 1;
      StopsAreEffective(r, ids[..n]);
      StopNext(r, ids, n);
      assert ids[..n + 1] == ids;
      EffectiveAppend(r, Stops(ids[..n]), SessionStopped(ids[n]));
    }
  }

  lemma EffectiveAppend(r: Registry, evs: seq<MonitorEvent>, ev: MonitorEvent)
    requires AllEffective(r, evs)
    ensures ReduceAll(r, evs + [ev]) == Reduce(ReduceAll(r, evs), ev)
    ensures Reduce(ReduceAll(r, evs), ev) != ReduceAll(r, evs) ==> AllEffective(r, evs + [ev])
  {
    hide Reduce;
    var all := evs + [ev];
    assert all[..|evs|] == evs;
    assert forall i | 0 <= i < |evs| :: all[..i] == evs[..i] && all[i] == evs[i];
  }

  lemma {:induction false} EffectiveConcat(r: Registry, a: seq<MonitorEvent>, b: seq<MonitorEvent>)
    requires AllEffective(r, a) && AllEffective(ReduceAll(r, a), b)
    ensures AllEffective(r, a + b)
  {
    hide Reduce;
    forall i | 0 <= i < |a + b|
      ensures Reduce(ReduceAll(r, (a + b)[..i]), (a + b)[i]) != ReduceAll(r, (a + b)[..i])
    {
      if i < |a| {
        assert (a + b)[..i] == a[..i];
      } else {
        assert (a + b)[..i] == a + b[..i - |a|];
        ReduceAllAppend(r, a, b[..i - |a|]);
      }
    }
  }

  /** The events forwarded for one input rebuild the reconciled registry, each of them effective. */
  lemma ForwardedRebuilds(r: Registry, ev: MonitorEvent)
    ensures ReduceAll(r, Forwarded(r, ev)) == Reconcile(r, ev)
    ensures AllEffective(r, Forwarded(r, ev))
  {
    hide Reduce;
    var stops := if Unavailability(ev) then Stops(IdListing(r.sessions.Keys)) else [];
    if Unavailability(ev) {
      IdListingAscends(r.sessions.Keys);
      StopsAreEffective(r, IdListing(r.sessions.Keys));
      StopsEnds(r, IdListing(r.sessions.Keys));
    }
    assert ReduceAll(r, stops) == Cleared(r, ev) && AllEffective(r, stops);
    EffectiveAppend(r, stops, ev);
    assert Forwarded(r, ev) == if Reconcile(r, ev) != Cleared(r, ev) then stops + [ev] else stops;
  }

  /** A service that starts from the pipeline's registry and applies only what is forwarded always holds
      the pipeline's registry, and no forwarded event is a duplicate to it. */
  lemma {:induction false} ReplicaAgrees(r: Registry, evs: seq<MonitorEvent>)
    ensures ReduceAll(r, ForwardedAll(r, evs)) == ReconcileAll(r, evs)
    ensures AllEffective(r, ForwardedAll(r, evs))
  {
    hide Reduce, Forwarded, Reconcile;
    if evs != [] {
      var p, ev := evs[..|evs| - 1], evs[|evs| - 1];
      var mid := ReconcileAll(r, p);
      ReplicaAgrees(r, p);
      ForwardedRebuilds(mid, ev);
      ReduceAllAppend(r, ForwardedAll(r, p), Forwarded(mid, ev));
      EffectiveConcat(r, ForwardedAll(r, p), Forwarded(mid, ev));
    }
  }

  // ----- A client that only listens -----

  /** What a client can know from the signals alone. */
  datatype Shadow = Shadow(properties: Properties, ids: set<string>, table: map<string, SessionDto>)

  function Store(p: Properties, change: PropertyChange): Properties {
    match change
    case Active(b) => p.(active := b)
    case ActiveSessionCount(n) => p.(activeSessionCount := n)
    case ObserverAvailable(b) => p.(observerAvailable := b)
    case ObserverAvailability(t) => p.(observerAvailability := t)
    case ObserverStatusDetail(t) => p.(observerStatusDetail := t)
    case UnknownCameraActivity(b) => p.(unknownCameraActivity := b)
    case SuppressedBrokerEvents(n) => p.(suppressedBrokerEvents := n)
    case SuppressedUnknownEvents(n) => p.(suppressedUnknownEvents := n)
  }

  function Hear(c: Shadow, s: Signal): Shadow {
    match s
    case PropertiesChanged(change) => c.(properties := Store(c.properties, change))
    case SessionStartedSignal(dto) => c.(ids := c.ids + {dto.sessionId}, table := c.table[dto.sessionId := dto])
    case SessionStoppedSignal(id) => c.(ids := c.ids - {id}, table := c.table - {id})
    case _ => c
  }

  ghost function HearAll(c: Shadow, signals: seq<Signal>): Shadow
    decreases |signals|
  {
    if signals == [] then c else HearAll(Hear(c, signals[0]), signals[1..])
  }

  lemma {:induction false} HearAllAppend(c: Shadow, a: seq<Signal>, b: seq<Signal>)
    ensures HearAll(c, a + b) == HearAll(HearAll(c, a), b)
    decreases |a|
  {
    if a == [] {
      assert a + b == b;
    } else {
      assert (a + b)[1..] == a[1..] + b;
      HearAllAppend(Hear(c, a[0]), a[1..], b);
    }
  }

  ghost predicate Follows(c: Shadow, r: Registry) {
    c.properties == PropertiesOf(r) && c.ids == r.sessions.Keys
  }

  ghost function Table(r: Registry): map<string, SessionDto> {
    map id | id in r.sessions :: ToDto(r.sessions[id])
  }

  lemma SmallBlocksFollow(c: Shadow, before: Registry, after: Registry)
    ensures c.properties.active == (before.sessions != map[]) ==>
              HearAll(c, ActiveSignals(before, after)) ==
              c.(properties := c.properties.(active := after.sessions != map[]))
    ensures c.properties.activeSessionCount == CountOf(before) ==>
              HearAll(c, CountSignals(before, after)) ==
              c.(properties := c.properties.(activeSessionCount := CountOf(after)))
    ensures c.properties.observerStatusDetail == before.detail ==>
              HearAll(c, DetailSignals(before, after)) ==
              c.(properties := c.properties.(observerStatusDetail := after.detail))
  {
    HearOne(c, PropertiesChanged(PropertyChange.Active(after.sessions != map[])));
    HearOne(c, PropertiesChanged(ActiveSessionCount(CountOf(after))));
    HearOne(c, PropertiesChanged(ObserverStatusDetail(after.detail)));
  }

  lemma StatusFollows(c: Shadow, before: Registry, after: Registry)
    requires c.properties.observerAvailable == (before.availability == Available)
    requires c.properties.observerAvailability == before.availability.Text()
    ensures HearAll(c, StatusSignals(before, after)) ==
            c.(properties := c.properties.(
              observerAvailable := after.availability == Available,
              observerAvailability := after.availability.Text()))
  {
    hide Availability.Text;
    HearThree(c, PropertiesChanged(ObserverAvailable(after.availability == Available)),
      PropertiesChanged(ObserverAvailability(after.availability.Text())),
      ObserverStatusChanged(after.availability.Text()));
  }

  lemma DiagnosticsFollow(c: Shadow, before: Registry, after: Registry)
    requires c.properties.unknownCameraActivity == (before.diagnostics.suppressedUnknown > 0)
    requires c.properties.suppressedBrokerEvents == before.diagnostics.suppressedBroker
    requires c.properties.suppressedUnknownEvents == before.diagnostics.suppressedUnknown
    ensures HearAll(c, DiagnosticSignals(before, after)) ==
            c.(properties := c.properties.(
              unknownCameraActivity := after.diagnostics.suppressedUnknown > 0,
              suppressedBrokerEvents := after.diagnostics.suppressedBroker,
              suppressedUnknownEvents := after.diagnostics.suppressedUnknown))
  {
    HearThree(c, PropertiesChanged(UnknownCameraActivity(after.diagnostics.suppressedUnknown > 0)),
      PropertiesChanged(SuppressedBrokerEvents(after.diagnostics.suppressedBroker)),
      PropertiesChanged(SuppressedUnknownEvents(after.diagnostics.suppressedUnknown)));
  }

  /** One block of property notifications brings a client's properties up to date. */
  lemma PropertiesFollow(c: Shadow, before: Registry, after: Registry)
    requires c.properties == PropertiesOf(before)
    ensures HearAll(c, PropertySignals(before, after)) == c.(properties := PropertiesOf(after))
  {
    hide Availability.Text, Hear, HearAll, ActiveSignals, CountSignals, StatusSignals, DetailSignals, DiagnosticSignals;
    var s1, s2, s3 := ActiveSignals(before, after), CountSignals(before, after), StatusSignals(before, after);
    var s4, s5 := DetailSignals(before, after), DiagnosticSignals(before, after);
    HearAllAppend(c, s1 + s2 + s3 + s4, s5);
    HearAllAppend(c, s1 + s2 + s3, s4);
    HearAllAppend(c, s1 + s2, s3);
    HearAllAppend(c, s1, s2);
    SmallBlocksFollow(c, before, after);
    var c1 := HearAll(c, s1);
    SmallBlocksFollow(c1, before, after);
    var c2 := HearAll(c1, s2);
    StatusFollows(c2, before, after);
    var c3 := HearAll(c2, s3);
    SmallBlocksFollow(c3, before, after);
    DiagnosticsFollow(HearAll(c3, s4), before, after);
  }

  lemma HearOne(c: Shadow, s: Signal)
    ensures HearAll(c, []) == c && HearAll(c, [s]) == Hear(c, s)
  {
    hide Hear;
    assert [s][1..] == [];
  }

  lemma HearThree(c: Shadow, a: Signal, b: Signal, d: Signal)
    ensures HearAll(c, [a, b, d]) == Hear(Hear(Hear(c, a), b), d)
  {
    hide Hear;
    assert [a, b, d][1..] == [b, d] && [b, d][1..] == [d] && [d][1..] == [];
    assert HearAll(Hear(Hear(c, a), b), [d]) == Hear(Hear(Hear(c, a), b), d);
    assert HearAll(Hear(c, a), [b, d]) == HearAll(Hear(Hear(c, a), b), [d]);
  }

  lemma EventFollows(c: Shadow, after: Registry, ev: MonitorEvent)
    ensures HearAll(c, EventSignals(after, ev)) ==
            match ev
            case SessionStarted(s) => c.(ids := c.ids + {s.id}, table := c.table[s.id := ToDto(s)])
            case SessionStopped(id) => c.(ids := c.ids - {id}, table := c.table - {id})
            case _ => c
  {
    var first := StateChanged(after.sessions != map[], CountOf(after), after.availability == Available);
    var rest := EventSignals(after, ev)[1..];
    assert EventSignals(after, ev) == [first] + rest;
    HearAllAppend(c, [first], rest);
    assert HearAll(c, [first]) == c;
    if rest != [] {
      assert HearAll(c, rest) == Hear(c, rest[0]);
    }
  }

  /** After every event, a client that followed the service before follows it again. */
  lemma ClientFollows(c: Shadow, r: Registry, ev: MonitorEvent)
    requires Follows(c, r)
    ensures Follows(HearAll(c, SignalsFor(r, ev)), Reduce(r, ev))
  {
    var after := Reduce(r, ev);
    if after != r {
      HearAllAppend(c, PropertySignals(r, after), EventSignals(after, ev));
      PropertiesFollow(c, r, after);
      EventFollows(c.(properties := PropertiesOf(after)), after, ev);
    }
  }

  lemma {:induction false} ClientAlwaysFollows(c: Shadow, r: Registry, evs: seq<MonitorEvent>)
    requires Follows(c, r)
    ensures Follows(HearAll(c, SignalsForAll(r, evs)), ReduceAll(r, evs))
  {
    hide Reduce, SignalsFor, Hear, Follows;
    if evs != [] {
      var p, ev := evs[..|evs| - 1], evs[|evs| - 1];
      ClientAlwaysFollows(c, r, p);
      ClientFollows(HearAll(c, SignalsForAll(r, p)), ReduceAll(r, p), ev);
      HearAllAppend(c, SignalsForAll(r, p), SignalsFor(ReduceAll(r, p), ev));
    }
  }

  /** Session details are announced only when a session starts: the table a client replays stays equal to
      GetActiveSessions exactly when the event is not an update that changes an exported field. */
  lemma TableFollowsUnlessUpdated(c: Shadow, r: Registry, ev: MonitorEvent)
    requires Follows(c, r) && c.table == Table(r)
    ensures HearAll(c, SignalsFor(r, ev)).table == Table(Reduce(r, ev)) <==>
            !(ev.SessionUpdated? && ev.session.id in r.sessions &&
                ToDto(ev.session) != ToDto(r.sessions[ev.session.id]))
  {
    hide Availability.Text, PropertiesOf, PropertySignals, EventSignals, HearAll;
    var after := Reduce(r, ev);
    if after != r {
      HearAllAppend(c, PropertySignals(r, after), EventSignals(after, ev));
      PropertiesFollow(c, r, after);
      EventFollows(c.(properties := PropertiesOf(after)), after, ev);
      if ev.SessionUpdated? {
        assert Table(after)[ev.session.id] == ToDto(ev.session);
      }
    } else {
      HearOne(c, SessionStoppedSignal(""));
      if ev.SessionUpdated? && ev.session.id in r.sessions {
        assert after.sessions[ev.session.id] == ev.session;
      }
    }
  }

  ghost predicate NoUpdates(evs: seq<MonitorEvent>) {
    forall ev | ev in evs :: !ev.SessionUpdated?
  }

  /** Starts, stops and statuses alone keep a replayed session table equal to GetActiveSessions. */
  lemma {:induction false} TableAlwaysFollows(c: Shadow, r: Registry, evs: seq<MonitorEvent>)
    requires Follows(c, r) && c.table == Table(r) && NoUpdates(evs)
    ensures HearAll(c, SignalsForAll(r, evs)).table == Table(ReduceAll(r, evs))
  {
    hide Reduce, SignalsFor, Hear, Follows, Table;
    if evs != [] {
      var p, ev := evs[..|evs| - 1], evs[|evs| - 1];
      TableAlwaysFollows(c, r, p);
      ClientAlwaysFollows(c, r, p);
      TableFollowsUnlessUpdated(HearAll(c, SignalsForAll(r, p)), ReduceAll(r, p), ev);
      HearAllAppend(c, SignalsForAll(r, p), SignalsFor(ReduceAll(r, p), ev));
    }
  }

  /** An update of the application name of an active session reaches no listener's table. */
  lemma UpdateLeavesTableStale(c: Shadow, r: Registry, s: CameraSession, identity: ApplicationIdentity)
    requires Follows(c, r) && c.table == Table(r) && s.id in r.sessions && r.sessions[s.id] == s
    requires identity.displayName != s.application.displayName
    ensures HearAll(c, SignalsFor(r, SessionUpdated(s.(application := identity)))).table !=
            Table(Reduce(r, SessionUpdated(s.(application := identity))))
  {
    hide HearAll, SignalsFor, Table, Follows;
    TableFollowsUnlessUpdated(c, r, SessionUpdated(s.(application := identity)));
  }

  lemma {:induction false} ForwardedHasNoUpdates(r: Registry, evs: seq<MonitorEvent>)
    requires NoUpdates(evs)
    ensures NoUpdates(ForwardedAll(r, evs))
  {
    hide Reconcile, IdListing;
    if evs != [] {
      ForwardedHasNoUpdates(r, evs[..|evs| - 1]);
    }
  }

  // ----- What is exported and announced -----

  /** The length and first character of a text, which tell the nine apart. */
  lemma TextShape(a: Availability)
    ensures |a.Text()| == (match a case Available => 9 case Disabled => 8 case NotInstalled => 13
                                   case UnsupportedKernel => 18 case MissingCapability => 18
                                   case BlockedByPolicy => 17 case VersionMismatch => 16
                                   case ConnectionFailed => 17 case BackendLost => 12)
    ensures a.UnsupportedKernel? ==> a.Text()[0] == 'u'
    ensures a.MissingCapability? ==> a.Text()[0] == 'm'
    ensures a.BlockedByPolicy? ==> a.Text()[0] == 'b'
    ensures a.ConnectionFailed? ==> a.Text()[0] == 'c'
  {
  }

  /** Different availabilities have different texts. */
  lemma TextsDiffer(a: Availability, b: Availability)
    ensures a.Text() == b.Text() <==> a == b
  {
    hide Availability.Text;
    TextShape(a);
    TextShape(b);
  }

  /** A text names its availability. */
  lemma TextsName(a: Availability)
    ensures a.Text() == "available" <==> a.Available?
    ensures a.Text() == "disabled" <==> a.Disabled?
    ensures a.Text() == "not-installed" <==> a.NotInstalled?
    ensures a.Text() == "unsupported-kernel" <==> a.UnsupportedKernel?
    ensures a.Text() == "missing-capability" <==> a.MissingCapability?
    ensures a.Text() == "blocked-by-policy" <==> a.BlockedByPolicy?
    ensures a.Text() == "version-mismatch" <==> a.VersionMismatch?
    ensures a.Text() == "connection-failed" <==> a.ConnectionFailed?
    ensures a.Text() == "backend-lost" <==> a.BackendLost?
  {
    TextsAre();
    forall b: Availability ensures a.Text() == b.Text() <==> a == b { TextsDiffer(a, b); }
    hide Availability.Text;
  }

  lemma TextsAre()
    ensures Available.Text() == "available" && Disabled.Text() == "disabled" && NotInstalled.Text() == "not-installed"
    ensures UnsupportedKernel.Text() == "unsupported-kernel" && MissingCapability.Text() == "missing-capability"
    ensures BlockedByPolicy.Text() == "blocked-by-policy" && VersionMismatch.Text() == "version-mismatch"
    ensures ConnectionFailed.Text() == "connection-failed" && Availability.BackendLost.Text() == "backend-lost"
  {
  }

  /** The properties say how many sessions there are, up to the greatest 32-bit number, and what the observer last
      reported. */
  lemma PropertiesMean(r: Registry)
    ensures var p := PropertiesOf(r);
            && p.activeSessionCount == (if |r.sessions| <= 0xFFFF_FFFF then |r.sessions| else 0xFFFF_FFFF)
            && (p.active <==> exists id :: id in r.sessions)
            && (p.observerAvailable <==> r.availability.Available?)
            && p.observerAvailability == r.availability.Text() && p.observerStatusDetail == r.detail
            && p.suppressedBrokerEvents == r.diagnostics.suppressedBroker
            && p.suppressedUnknownEvents == r.diagnostics.suppressedUnknown
            && (p.unknownCameraActivity <==> r.diagnostics.suppressedUnknown != 0)
  {
    hide Availability.Text;
    if r.sessions != map[] {
      var id :| id in r.sessions;
    }
  }

  /** What a session is exported as. */
  ghost predicate Exports(dto: SessionDto, s: CameraSession) {
    && dto.sessionId == s.id && dto.deviceId == s.device.id && dto.deviceName == s.device.displayName
    && dto.startedAt == s.startedAt && dto.applicationName == s.application.displayName
    && (s.application.appId.Some? ==> dto.applicationId == s.application.appId.value)
    && (s.application.appId.None? ==> dto.applicationId == "")
    && (s.application.pid.Some? ==> dto.processId == s.application.pid.value)
    && (s.application.pid.None? ==> dto.processId == 0)
  }

  /** GetActiveSessions exports exactly the active sessions, field by field. */
  lemma TableExports(r: Registry)
    ensures Table(r).Keys == r.sessions.Keys
    ensures forall id | id in r.sessions :: Exports(Table(r)[id], r.sessions[id])
  {
  }

  /** Whether a change from one registry to another calls for a signal, signal by signal. */
  ghost predicate Announces(signal: Signal, before: Registry, after: Registry, ev: MonitorEvent) {
    var p := PropertiesOf(after);
    var totals := before.diagnostics != after.diagnostics;
    match signal
    case PropertiesChanged(Active(b)) =>
      (|before.sessions| > 0) != (|after.sessions| > 0) && b == (|after.sessions| > 0)
    case PropertiesChanged(ActiveSessionCount(n)) =>
      |before.sessions| != |after.sessions| && n == p.activeSessionCount
    case PropertiesChanged(ObserverAvailable(b)) =>
      before.availability != after.availability && b == p.observerAvailable
    case PropertiesChanged(ObserverAvailability(t)) =>
      before.availability != after.availability && t == p.observerAvailability
    case PropertiesChanged(ObserverStatusDetail(t)) => before.detail != after.detail && t == after.detail
    case PropertiesChanged(UnknownCameraActivity(b)) => totals && b == p.unknownCameraActivity
    case PropertiesChanged(SuppressedBrokerEvents(n)) => totals && n == after.diagnostics.suppressedBroker
    case PropertiesChanged(SuppressedUnknownEvents(n)) => totals && n == after.diagnostics.suppressedUnknown
    case ObserverStatusChanged(t) => before.availability != after.availability && t == p.observerAvailability
    case StateChanged(b, n, o) => b == (|after.sessions| > 0) && n == p.activeSessionCount && o == p.observerAvailable
    case SessionStartedSignal(dto) => ev.SessionStarted? && Exports(dto, ev.session)
    case SessionStoppedSignal(id) => ev == SessionStopped(id)
  }

  /** The place of a signal in the order of emission. */
  function Place(signal: Signal): nat {
    match signal
    case PropertiesChanged(Active(_)) => 0
    case PropertiesChanged(ActiveSessionCount(_)) => 1
    case PropertiesChanged(ObserverAvailable(_)) => 2
    case PropertiesChanged(ObserverAvailability(_)) => 3
    case ObserverStatusChanged(_) => 4
    case PropertiesChanged(ObserverStatusDetail(_)) => 5
    case PropertiesChanged(UnknownCameraActivity(_)) => 6
    case PropertiesChanged(SuppressedBrokerEvents(_)) => 7
    case PropertiesChanged(SuppressedUnknownEvents(_)) => 8
    case StateChanged(_, _, _) => 9
    case SessionStartedSignal(_) => 10
    case SessionStoppedSignal(_) => 10
  }

  /** Signals of the given places, in order, are just those called for. */
  ghost predicate CalledFor(signals: seq<Signal>, from: nat, to: nat, before: Registry, after: Registry,
      ev: MonitorEvent)
  {
    && (forall signal :: signal in signals <==>
          from <= Place(signal) < to && Announces(signal, before, after, ev))
    && forall i, j | 0 <= i < j < |signals| :: Place(signals[i]) < Place(signals[j])
  }

  lemma ConcatCalledFor(a: seq<Signal>, b: seq<Signal>, from: nat, mid: nat, to: nat, before: Registry,
      after: Registry, ev: MonitorEvent)
    requires from <= mid <= to && CalledFor(a, from, mid, before, after, ev) && CalledFor(b, mid, to, before, after, ev)
    ensures CalledFor(a + b, from, to, before, after, ev)
  {
    hide Announces, Place;
    var s := a + b;
    assert forall signal :: signal in s <==> signal in a || signal in b;
    forall i, j | 0 <= i < j < |s| ensures Place(s[i]) < Place(s[j]) {
      if i < |a| <= j {
        assert s[i] in a && s[j] in b;
      }
    }
  }

  lemma SmallBlocksAnnounce(before: Registry, after: Registry, ev: MonitorEvent)
    ensures CalledFor(ActiveSignals(before, after), 0, 1, before, after, ev)
    ensures CalledFor(CountSignals(before, after), 1, 2, before, after, ev)
    ensures CalledFor(DetailSignals(before, after), 5, 6, before, after, ev)
  {
    hide Availability.Text;
    assert |before.sessions| > 0 <==> before.sessions != map[];
    assert |after.sessions| > 0 <==> after.sessions != map[];
  }

  lemma StatusAnnounces(before: Registry, after: Registry, ev: MonitorEvent)
    ensures CalledFor(StatusSignals(before, after), 2, 5, before, after, ev)
  {
    hide Availability.Text;
  }

  lemma DiagnosticsAnnounce(before: Registry, after: Registry, ev: MonitorEvent)
    ensures CalledFor(DiagnosticSignals(before, after), 6, 9, before, after, ev)
  {
    hide Availability.Text;
  }

  lemma EventAnnounces(before: Registry, after: Registry, ev: MonitorEvent)
    ensures CalledFor(EventSignals(after, ev), 9, 11, before, after, ev)
  {
    hide Availability.Text;
    assert |after.sessions| > 0 <==> after.sessions != map[];
  }

  /** An event that changes nothing emits nothing; any other emits exactly the signals its change calls for, each
      once, and in order: properties and status first, then the state, then the session. */
  lemma SignalsAreExact(r: Registry, ev: MonitorEvent)
    ensures Reduce(r, ev) == r ==> SignalsFor(r, ev) == []
    ensures Reduce(r, ev) != r ==> CalledFor(SignalsFor(r, ev), 0, 11, r, Reduce(r, ev), ev)
  {
    hide Reduce, CalledFor, ActiveSignals, CountSignals, StatusSignals, DetailSignals, DiagnosticSignals, EventSignals;
    var after := Reduce(r, ev);
    SmallBlocksAnnounce(r, after, ev);
    StatusAnnounces(r, after, ev);
    DiagnosticsAnnounce(r, after, ev);
    EventAnnounces(r, after, ev);
    var s1, s2, s3 := ActiveSignals(r, after), CountSignals(r, after), StatusSignals(r, after);
    var s4, s5 := DetailSignals(r, after), DiagnosticSignals(r, after);
    ConcatCalledFor(s1, s2, 0, 1, 2, r, after, ev);
    ConcatCalledFor(s1 + s2, s3, 0, 2, 5, r, after, ev);
    ConcatCalledFor(s1 + s2 + s3, s4, 0, 5, 6, r, after, ev);
    ConcatCalledFor(s1 + s2 + s3 + s4, s5, 0, 6, 9, r, after, ev);
    ConcatCalledFor(s1 + s2 + s3 + s4 + s5, EventSignals(after, ev), 0, 9, 11, r, after, ev);
  }
}
