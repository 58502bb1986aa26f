/** The application pipeline: resolve, reduce, reconcile, forward. */
module Application {
  import opened Prelude
  import opened Orders
  import opened Capture
  import opened Monitor

  // ----- Specification -----

  predicate Unavailability(ev: MonitorEvent) {
    ev.AvailabilityChanged? && ev.availability != Available
  }

  /** An unavailable observer ends every session before the status itself is recorded. */
  function Cleared(r: Registry, ev: MonitorEvent): Registry {
    if Unavailability(ev) then r.(sessions := map[]) else r
  }

  function Reconcile(r: Registry, ev: MonitorEvent): Registry {
    Reduce(Cleared(r, ev), ev)
  }

  function Stops(ids: seq<string>): (r: seq<MonitorEvent>)
    ensures |r| == |ids| && forall i | 0 <= i < |ids| :: r[i] == SessionStopped(ids[i])
  {
    seq(|ids|, i requires 0 <= i < |ids| => SessionStopped(ids[i]))
  }

  /** What one event makes the pipeline forward: the stops it implies, in id order, then itself if effective. */
  ghost function Forwarded(r: Registry, ev: MonitorEvent): seq<MonitorEvent> {
    (if Unavailability(ev) then Stops(IdListing(r.sessions.Keys)) else []) +
    (if Reconcile(r, ev) != Cleared(r, ev) then [ev] else [])
  }

  ghost function ReconcileAll(r: Registry, evs: seq<MonitorEvent>): Registry {
    if evs == [] then r else Reconcile(ReconcileAll(r, evs[..|evs| - 1]), evs[|evs| - 1])
  }

  ghost function ForwardedAll(r: Registry, evs: seq<MonitorEvent>): seq<MonitorEvent> {
    if evs == [] then []
    else
      var p := evs[..|evs| - 1];
      ForwardedAll(r, p) + Forwarded(ReconcileAll(r, p), evs[|evs| - 1])
  }

  /** Identity resolution replaces the application of a session and nothing else. */
  function Resolve(ev: MonitorEvent, identity: ApplicationIdentity): MonitorEvent {
    match ev
    case SessionStarted(s) => SessionStarted(s.(application := identity))
    case SessionUpdated(s) => SessionUpdated(s.(application := identity))
    case _ => ev
  }

  function ResolveAll(evs: seq<MonitorEvent>, identities: seq<ApplicationIdentity>): seq<MonitorEvent>
    requires |evs| == |identities|
  {
    seq(|evs|, i requires 0 <= i < |evs| => Resolve(evs[i], identities[i]))
  }

  // ----- The pipeline -----

  ghost function AfterStops(r: Registry, ids: seq<string>): Registry {
    r.(sessions := r.sessions - Elements(ids))
  }

  lemma StopNext(r: Registry, ids: seq<string>, i: nat)
    requires i < |ids| && Distinct(ids) && ids[i] in r.sessions
    ensures Reduce(AfterStops(r, ids[..i]), SessionStopped(ids[i])) == AfterStops(r, ids[..i + 1])
    ensures AfterStops(r, ids[..i + 1]) != AfterStops(r, ids[..i])
    ensures Stops(ids[..i + 1]) == Stops(ids[..i]) + [SessionStopped(ids[i])]
  {
    assert Elements(ids[..i + 1]) == Elements(ids[..i]) + {ids[i]};
    assert ids[i] in AfterStops(r, ids[..i]).sessions && ids[i] !in AfterStops(r, ids[..i + 1]).sessions;
  }

  /** Stops every active session, in id order. */
  method StopAll(state: MonitorState) returns (stops: seq<MonitorEvent>)
    requires state.Valid()
    modifies state
    ensures state.Valid()
    ensures state.Model() == old(state.Model()).(sessions := map[])
    ensures stops == Stops(IdListing(old(state.Model()).sessions.Keys))
  {
    hide IdListing, Reduce, AfterStops, Stops, Keyed, TextLeq, Distinct;
    ghost var r := state.Model();
    ghost var ids := IdListing(r.sessions.Keys);
    IdListingAscends(r.sessions.Keys);
    var sessions := state.SnapshotSessions();
    assert forall i | 0 <= i < |sessions| :: sessions[i].id == ids[i];
    assert AfterStops(r, ids[..0]) == r && AfterStops(r, ids) == r.(sessions := map[]) && Stops(ids[..0]) == [] by {
      StopsEnds(r, ids);
    }
    stops := [];
    for i := 0 to |sessions|
      invariant state.Valid()
      invariant state.Model() == AfterStops(r, ids[..i])
      invariant stops == Stops(ids[..i])
    {
      var stop := SessionStopped(sessions[i].id);
      StopNext(r, ids, i);
      var changed := state.Apply(stop);
      if changed {
        stops := stops + [stop];
      }
    }
    assert ids[..|ids|] == ids;
  }

  lemma StopsEnds(r: Registry, ids: seq<string>)
    requires forall id :: id in ids <==> id in r.sessions
    ensures AfterStops(r, ids[..0]) == r && Stops(ids[..0]) == []
    ensures AfterStops(r, ids) == r.(sessions := map[])
  {
    assert r.sessions - Elements(ids[..0]) == r.sessions;
    assert r.sessions - Elements(ids) == map[];
  }

  method ReduceAndReconcile(state: MonitorState, ev: MonitorEvent) returns (effective: seq<MonitorEvent>)
    requires state.Valid()
    modifies state
    ensures state.Valid()
    ensures state.Model() == Reconcile(old(state.Model()), ev)
    ensures effective == Forwarded(old(state.Model()), ev)
  {
    hide IdListing;
    effective := [];
    if ev.AvailabilityChanged? && ev.availability != Available {
      effective := StopAll(state);
    }
    var changed := state.Apply(ev);
    if changed {
      effective := effective + [ev];
    }
  }

  /** Handles events in arrival order, each with whatever identity resolution produced for it. */
  method RunApplication(incoming: seq<MonitorEvent>, identities: seq<ApplicationIdentity>, state: MonitorState)
    returns (outgoing: seq<MonitorEvent>)
    requires |incoming| == |identities| && state.Valid()
    modifies state
    ensures state.Valid()
    ensures state.Model() == ReconcileAll(old(state.Model()), ResolveAll(incoming, identities))
    ensures outgoing == ForwardedAll(old(state.Model()), ResolveAll(incoming, identities))
    ensures old(state.activeSessions) == map[] ==>
              Attributed(old(state.Model()), incoming, identities, state.activeSessions)
  {
    hide Attributed;
    outgoing := [];
    ghost var r := state.Model();
    ghost var resolved := ResolveAll(incoming, identities);
    for i := 0 to |incoming|
      invariant state.Valid()
      invariant state.Model() == ReconcileAll(r, resolved[..i])
      invariant outgoing == ForwardedAll(r, resolved[..i])
    {
      var ev := Resolve(incoming[i], identities[i]);
      var effective := ReduceAndReconcile(state, ev);
      outgoing := outgoing + effective;
      assert resolved[..i + 1][..i] == resolved[..i];
    }
    assert resolved[..|incoming|] == resolved;
    if r.sessions == map[] { AllAttributed(r, incoming, identities); }
  }

  // ----- Which sessions are active after any run -----

  predicate Begins(ev: MonitorEvent, id: string) {
    ev.SessionStarted? && ev.session.id == id
  }

  predicate Finishes(ev: MonitorEvent, id: string) {
    ev == SessionStopped(id) || Unavailability(ev)
  }

  ghost predicate StartedAndKept(evs: seq<MonitorEvent>, id: string, i: int) {
    0 <= i < |evs| && Begins(evs[i], id) && forall j | i < j < |evs| :: !Finishes(evs[j], id)
  }

  /** A session is active at the end exactly when it was started, or was there, and neither stopped nor
      followed by an unavailable observer. */
  lemma {:induction false} ActiveSinceItsStart(r: Registry, evs: seq<MonitorEvent>, id: string)
    ensures id in ReconcileAll(r, evs).sessions <==>
            || (exists i :: StartedAndKept(evs, id, i))
            || (id in r.sessions && forall j | 0 <= j < |evs| :: !Finishes(evs[j], id))
  {
    if evs != [] {
      var n := |evs| - 1;
      var p := evs[..n];
      ActiveSinceItsStart(r, p, id);
      assert forall j | 0 <= j < n :: p[j] == evs[j];
      if Begins(evs[n], id) {
        assert StartedAndKept(evs, id, n);
      } else if !Finishes(evs[n], id) {
        forall i ensures StartedAndKept(p, id, i) <==> StartedAndKept(evs, id, i) {}
      }
    }
  }

  /** No session survives an unavailable observer: one active at the end started after the last such event. */
  lemma NoSessionSurvivesUnavailability(r: Registry, evs: seq<MonitorEvent>, id: string, u: nat)
    requires u < |evs| && Unavailability(evs[u]) && id in ReconcileAll(r, evs).sessions
    ensures exists i :: u < i && StartedAndKept(evs, id, i)
  {
    ActiveSinceItsStart(r, evs, id);
    assert Finishes(evs[u], id);
    var i :| StartedAndKept(evs, id, i);
  }

  // ----- What is forwarded -----

  /** Whether an event changes the registry. */
  predicate Changes(r: Registry, ev: MonitorEvent) {
    match ev
    case SessionStarted(s) => s.id !in r.sessions || r.sessions[s.id] != s
    case SessionUpdated(s) => s.id in r.sessions && r.sessions[s.id] != s
    case SessionStopped(id) => id in r.sessions
    case AvailabilityChanged(a, d) => r.availability != a || r.detail != d
    case DiagnosticsChanged(t) => r.diagnostics != t
  }

  /** An event is forwarded if it changes the registry. An unavailable observer first forwards the stop of every
      active session, in ascending order of ids. */
  lemma ForwardedInOrder(r: Registry, ev: MonitorEvent)
    ensures var f, stops := Forwarded(r, ev), if ev.AvailabilityChanged? && !ev.availability.Available?
              then |r.sessions| else 0;
            && |f| == stops + (if Changes(r, ev) then 1 else 0)
            && (Changes(r, ev) ==> f[stops] == ev)
            && (forall i | 0 <= i < stops :: f[i].SessionStopped? && f[i].id in r.sessions)
            && (forall i, j | 0 <= i < j < stops :: TextLeq(f[i].id, f[j].id) && f[i].id != f[j].id)
  {
    hide TextLeq, IdListing;
    IdListingAscends(r.sessions.Keys);
    ChangesIsEffective(r, ev);
    assert |r.sessions| == |r.sessions.Keys|;
    if Unavailability(ev) {
      var ids := IdListing(r.sessions.Keys);
      assert forall i | 0 <= i < |ids| :: ids[i] in r.sessions.Keys;
      assert forall i | 0 <= i < |ids| :: Forwarded(r, ev)[i] == SessionStopped(ids[i]);
    }
  }

  lemma ChangesIsEffective(r: Registry, ev: MonitorEvent)
    ensures Reconcile(r, ev) != Cleared(r, ev) <==> Changes(r, ev)
  {
    match ev {
      case SessionStarted(s) =>
        assert Reconcile(r, ev).sessions[s.id] == s;
        if !Changes(r, ev) { assert Reconcile(r, ev).sessions == r.sessions; }
      case SessionUpdated(s) =>
        if s.id in r.sessions {
          assert Reconcile(r, ev).sessions[s.id] == s;
          if !Changes(r, ev) { assert Reconcile(r, ev).sessions == r.sessions; }
        }
      case SessionStopped(id) =>
        assert id !in Reconcile(r, ev).sessions;
        if !Changes(r, ev) { assert Reconcile(r, ev).sessions == r.sessions; }
      case _ =>
    }
  }

  // ----- Which identity a session is filed under -----

  /** The event at `i` files a session under the id: it starts the session, or updates it while it is active. */
  ghost predicate Files(r: Registry, evs: seq<MonitorEvent>, id: string, i: int) {
    && 0 <= i < |evs|
    && (evs[i].SessionStarted? || (evs[i].SessionUpdated? && id in ReconcileAll(r, evs[..i]).sessions))
    && evs[i].session.id == id
  }

  ghost predicate LastFiled(r: Registry, evs: seq<MonitorEvent>, id: string, i: int) {
    Files(r, evs, id, i) && forall j | i < j < |evs| :: !Files(r, evs, id, j)
  }

  /** The session is the one the id was last filed under, with the identity resolved for that very event. */
  ghost predicate FiledAs(r: Registry, evs: seq<MonitorEvent>, identities: seq<ApplicationIdentity>, id: string, i: int,
      session: CameraSession)
    requires |evs| == |identities|
  {
    LastFiled(r, evs, id, i) && session == evs[i].session.(application := identities[i])
  }

  /** Every session is the one its last start or update carried, under the identity resolved for it. */
  ghost predicate Attributed(r: Registry, evs: seq<MonitorEvent>, identities: seq<ApplicationIdentity>,
      sessions: map<string, CameraSession>)
    requires |evs| == |identities|
  {
    forall id | id in sessions :: exists i :: FiledAs(r, evs, identities, id, i, sessions[id])
  }

  lemma {:induction false} ResolutionKeepsIds(r: Registry, evs: seq<MonitorEvent>, identities: seq<ApplicationIdentity>)
    requires |evs| == |identities|
    ensures ReconcileAll(r, ResolveAll(evs, identities)).sessions.Keys == ReconcileAll(r, evs).sessions.Keys
  {
    hide Reconcile, Resolve;
    if evs != [] {
      var n := |evs| - 1;
      var resolved := ResolveAll(evs, identities);
      ResolutionKeepsIds(r, evs[..n], identities[..n]);
      assert resolved[..n] == ResolveAll(evs[..n], identities[..n]);
      ResolvedOneKeepsIds(ReconcileAll(r, resolved[..n]), ReconcileAll(r, evs[..n]), evs[n], identities[n]);
    }
  }

  lemma ResolvedOneKeepsIds(r: Registry, r': Registry, ev: MonitorEvent, identity: ApplicationIdentity)
    requires r.sessions.Keys == r'.sessions.Keys
    ensures Reconcile(r, Resolve(ev, identity)).sessions.Keys == Reconcile(r', ev).sessions.Keys
  {
    match ev
    case AvailabilityChanged(_, _) =>
    case _ =>
  }

  /** An active session is the one its last start, or effective update, carried, under the identity resolved
      for that very event; without such an event it is the one the registry held at first. */
  lemma {:induction false} SessionsAreAttributed(r: Registry, evs: seq<MonitorEvent>,
      identities: seq<ApplicationIdentity>, id: string)
    requires |evs| == |identities| && id in ReconcileAll(r, ResolveAll(evs, identities)).sessions
    ensures var sessions := ReconcileAll(r, ResolveAll(evs, identities)).sessions;
            || (exists i :: FiledAs(r, evs, identities, id, i, sessions[id]))
            || (id in r.sessions && sessions[id] == r.sessions[id] &&
                forall i | 0 <= i < |evs| :: !Files(r, evs, id, i))
  {
    hide Reduce, Resolve;
    if evs != [] {
      var n := |evs| - 1;
      var p, q := evs[..n], identities[..n];
      ResolutionKeepsIds(r, p, q);
      assert ResolveAll(evs, identities)[..n] == ResolveAll(p, q);
      forall i | 0 <= i < n ensures Files(r, p, id, i) <==> Files(r, evs, id, i) {
        assert p[..i] == evs[..i];
      }
      FiledByOne(ReconcileAll(r, ResolveAll(p, q)), evs[n], identities[n], id);
      if Files(r, evs, id, n) {
        assert FiledAs(r, evs, identities, id, n, evs[n].session.(application := identities[n]));
      } else {
        SessionsAreAttributed(r, p, q, id);
        if i :| FiledAs(r, p, q, id, i, ReconcileAll(r, ResolveAll(p, q)).sessions[id]) {
          assert FiledAs(r, evs, identities, id, i, ReconcileAll(r, ResolveAll(p, q)).sessions[id]);
        }
      }
    }
  }

  lemma FiledByOne(r: Registry, ev: MonitorEvent, identity: ApplicationIdentity, id: string)
    requires id in Reconcile(r, Resolve(ev, identity)).sessions
    ensures var session := Reconcile(r, Resolve(ev, identity)).sessions[id];
            if (ev.SessionStarted? || (ev.SessionUpdated? && id in r.sessions)) && ev.session.id == id
            then session == ev.session.(application := identity)
            else id in r.sessions && session == r.sessions[id]
  {
  }

  lemma AllAttributed(r: Registry, evs: seq<MonitorEvent>, identities: seq<ApplicationIdentity>)
    requires |evs| == |identities| && r.sessions == map[]
    ensures Attributed(r, evs, identities, ReconcileAll(r, ResolveAll(evs, identities)).sessions)
  {
    hide ReconcileAll, ResolveAll, FiledAs;
    forall id | id in ReconcileAll(r, ResolveAll(evs, identities)).sessions
      ensures exists i :: FiledAs(r, evs, identities, id, i, ReconcileAll(r, ResolveAll(evs, identities)).sessions[id])
    {
      SessionsAreAttributed(r, evs, identities, id);
    }
  }

  // ----- Replaying a run changes nothing -----

  /** What an event sequence does to one id, whatever the id held before. */
  datatype Effect = Keep | Replace(session: CameraSession) | Become(final: Option<CameraSession>)
  {
    function Act(v: Option<CameraSession>): Option<CameraSession> {
      match this
      case Keep => v
      case Replace(s) => if v.Some? then Some(s) else None
      case Become(f) => f
    }

    function Then(next: Effect): Effect {
      match next
      case Keep => this
      case Replace(s) => if Become? then Become(next.Act(final)) else next
      case Become(_) => next
    }
  }

  function Find(r: Registry, id: string): Option<CameraSession> {
    if id in r.sessions then Some(r.sessions[id]) else None
  }

  /** A whole run of either reducer: the bare registry, or the reconciling pipeline. */
  ghost function RunOf(reconcile: bool, r: Registry, evs: seq<MonitorEvent>): Registry {
    if reconcile then ReconcileAll(r, evs) else ReduceAll(r, evs)
  }

  function EffectOn(reconcile: bool, ev: MonitorEvent, id: string): Effect {
    if Begins(ev, id) then Become(Some(ev.session))
    else if ev.SessionUpdated? && ev.session.id == id then Replace(ev.session)
    else if ev == SessionStopped(id) || (reconcile && Unavailability(ev)) then Become(None)
    else Keep
  }

  ghost function NetEffect(reconcile: bool, evs: seq<MonitorEvent>, id: string): Effect {
    if evs == [] then Keep
    else NetEffect(reconcile, evs[..|evs| - 1], id).Then(EffectOn(reconcile, evs[|evs| - 1], id))
  }

  ghost function LastStatus(r: Registry, evs: seq<MonitorEvent>): (Availability, string, Diagnostics) {
    if evs == [] then (r.availability, r.detail, r.diagnostics)
    else
      var before := LastStatus(r, evs[..|evs| - 1]);
      match evs[|evs| - 1]
      case AvailabilityChanged(a, d) => (a, d, before.2)
      case DiagnosticsChanged(d) => (before.0, before.1, d)
      case _ => before
  }

  lemma {:induction false} StepsHaveNetEffect(reconcile: bool, r: Registry, evs: seq<MonitorEvent>, id: string)
    ensures Find(RunOf(reconcile, r, evs), id) == NetEffect(reconcile, evs, id).Act(Find(r, id))
    ensures var s := RunOf(reconcile, r, evs); (s.availability, s.detail, s.diagnostics) == LastStatus(r, evs)
  {
    hide Reduce, Reconcile, EffectOn, Effect.Act, Effect.Then, Find;
    if evs == [] {
      NoEffect(Find(r, id));
    } else {
      var p, ev := evs[..|evs| - 1], evs[|evs| - 1];
      StepsHaveNetEffect(reconcile, r, p, id);
      OneStepHasEffect(reconcile, RunOf(reconcile, r, p), ev, id);
      EffectsCompose(NetEffect(reconcile, p, id), EffectOn(reconcile, ev, id), Find(r, id));
    }
  }

  lemma NoEffect(v: Option<CameraSession>)
    ensures Keep.Act(v) == v
  {
  }

  lemma EffectsCompose(first: Effect, next: Effect, v: Option<CameraSession>)
    ensures first.Then(next).Act(v) == next.Act(first.Act(v))
  {
  }

  lemma OneStepHasEffect(reconcile: bool, r: Registry, ev: MonitorEvent, id: string)
    ensures var r' := if reconcile then Reconcile(r, ev) else Reduce(r, ev);
            && Find(r', id) == EffectOn(reconcile, ev, id).Act(Find(r, id))
            && (r'.availability, r'.detail, r'.diagnostics) ==
               match ev
               case AvailabilityChanged(a, d) => (a, d, r.diagnostics)
               case DiagnosticsChanged(t) => (r.availability, r.detail, t)
               case _ => (r.availability, r.detail, r.diagnostics)
  {
  }

  lemma {:induction false} LastStatusIsIdempotent(r: Registry, r': Registry, evs: seq<MonitorEvent>)
    requires (r'.availability, r'.detail, r'.diagnostics) == LastStatus(r, evs)
    ensures LastStatus(r', evs) == LastStatus(r, evs)
  {
    LastStatusCases(r, evs);
    LastStatusCases(r', evs);
  }

  /** Each status is the one last reported, or the initial one. */
  lemma {:induction false} LastStatusCases(r: Registry, evs: seq<MonitorEvent>)
    ensures var s := LastStatus(r, evs);
            && (if exists i :: 0 <= i < |evs| && evs[i].AvailabilityChanged?
                then forall q: Registry :: LastStatus(q, evs).0 == s.0 && LastStatus(q, evs).1 == s.1
                else s.0 == r.availability && s.1 == r.detail)
            && (if exists i :: 0 <= i < |evs| && evs[i].DiagnosticsChanged?
                then forall q: Registry :: LastStatus(q, evs).2 == s.2
                else s.2 == r.diagnostics)
  {
    if evs != [] {
      var n := |evs| - 1;
      var p := evs[..n];
      LastStatusCases(r, p);
      assert forall j | 0 <= j < n :: p[j] == evs[j];
    }
  }

  lemma RunAgainChangesNothing(reconcile: bool, r: Registry, evs: seq<MonitorEvent>)
    ensures RunOf(reconcile, RunOf(reconcile, r, evs), evs) == RunOf(reconcile, r, evs)
  {
    hide RunOf;
    var once := RunOf(reconcile, r, evs);
    var twice := RunOf(reconcile, once, evs);
    forall id ensures Find(twice, id) == Find(once, id) {
      StepsHaveNetEffect(reconcile, r, evs, id);
      StepsHaveNetEffect(reconcile, once, evs, id);
    }
    assert twice.sessions == once.sessions by {
      forall id ensures id in twice.sessions <==> id in once.sessions {
        assert Find(twice, id) == Find(once, id);
      }
      forall id | id in once.sessions ensures twice.sessions[id] == once.sessions[id] {
        assert Find(twice, id) == Find(once, id);
      }
    }
    StepsHaveNetEffect(reconcile, r, evs, "");
    StepsHaveNetEffect(reconcile, once, evs, "");
    LastStatusIsIdempotent(r, once, evs);
  }

  /** Running a sequence a second time leaves the registry as the first run left it, with or without reconciliation. */
  lemma ReplayChangesNothing(r: Registry, evs: seq<MonitorEvent>)
    ensures ReduceAll(ReduceAll(r, evs), evs) == ReduceAll(r, evs)
    ensures ReconcileAll(ReconcileAll(r, evs), evs) == ReconcileAll(r, evs)
  {
    hide ReduceAll, ReconcileAll;
    RunAgainChangesNothing(false, r, evs);
    RunAgainChangesNothing(true, r, evs);
  }

  // ----- Sessions while the observer is unavailable -----

  predicate EmptyWhileUnavailable(r: Registry) {
    r.availability != Available ==> r.sessions == map[]
  }

  /** Only a start that arrives while the observer is unavailable makes an unavailable registry hold a session. */
  lemma EmptinessIsLostOnlyBy(r: Registry, ev: MonitorEvent)
    requires EmptyWhileUnavailable(r)
    ensures EmptyWhileUnavailable(Reconcile(r, ev)) <==> !(ev.SessionStarted? && r.availability != Available)
  {
    if ev.SessionStarted? {
      assert ev.session.id in Reconcile(r, ev).sessions;
    }
  }

  ghost predicate EmptyAfter(r: Registry, evs: seq<MonitorEvent>) {
    EmptyWhileUnavailable(ReconcileAll(r, evs))
  }

  ghost predicate StartsInTime(r: Registry, evs: seq<MonitorEvent>, i: nat)
    requires i < |evs|
  {
    evs[i].SessionStarted? ==> ReconcileAll(r, evs[..i]).availability == Available
  }

  lemma EmptinessStep(r: Registry, evs: seq<MonitorEvent>, i: nat)
    requires i < |evs| && EmptyAfter(r, evs[..i])
    ensures EmptyAfter(r, evs[..i + 1]) <==> StartsInTime(r, evs, i)
  {
    hide EmptyWhileUnavailable, Reconcile;
    assert evs[..i + 1][..i] == evs[..i];
    EmptinessIsLostOnlyBy(ReconcileAll(r, evs[..i]), evs[i]);
  }

  /** An unavailable registry holds no sessions throughout a run precisely when it held none at first and every
      start arrives while the observer is available. */
  lemma {:induction false} EmptyWhileUnavailableIff(r: Registry, evs: seq<MonitorEvent>)
    ensures (forall n: nat | n <= |evs| :: EmptyAfter(r, evs[..n])) <==>
            EmptyWhileUnavailable(r) && (forall i: nat | i < |evs| :: StartsInTime(r, evs, i))
  {
    hide EmptyWhileUnavailable, StartsInTime;
    assert evs[..0] == [] && ReconcileAll(r, []) == r;
    if forall n: nat | n <= |evs| :: EmptyAfter(r, evs[..n]) {
      assert EmptyAfter(r, evs[..0]);
      forall i: nat | i < |evs| ensures StartsInTime(r, evs, i) { EmptinessStep(r, evs, i); }
    }
    if EmptyWhileUnavailable(r) && forall i: nat | i < |evs| :: StartsInTime(r, evs, i) {
      for n := 0 to |evs|
        invariant forall i: nat | i <= n :: EmptyAfter(r, evs[..i])
      {
        EmptinessStep(r, evs, n);
      }
    }
  }

  /** A session that starts while the observer is unavailable is held all the same. */
  lemma UnavailableMayHoldSessions(r: Registry, status: MonitorEvent, s: CameraSession)
    requires Unavailability(status)
    ensures var after := ReconcileAll(r, [status, SessionStarted(s)]);
            after.availability != Available && after.sessions == map[s.id := s]
  {
    var evs := [status, SessionStarted(s)];
    assert evs[..1] == [status] && [status][..0] == [];
    assert ReconcileAll(r, []) == r;
  }
}
