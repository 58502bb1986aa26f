/** The V4L2 session machine: active captures rebuilt from observer events. */
module SessionMachine {
  import opened Prelude
  import opened Orders
  import opened Capture

  datatype CaptureTransition =
    | Unchanged
    | Started(session: CameraSession)
    | Ended(session: CameraSession, state: SessionState)
    | EndedMany(ended: seq<(CameraSession, SessionState)>)

  datatype Machine = Machine(active: map<CaptureKey, CameraSession>, last: u64)

  datatype Applied = Applied(machine: Machine, result: Result<CaptureTransition, ValidationError>)

  const INITIAL := Machine(map[], 0)

  // ----- Specification: what one observation does -----

  predicate Opens(e: CaptureEvent) {
    e.operation == StreamStarted || e.operation == CaptureRead
  }

  predicate SameProcess(k: CaptureKey, e: CaptureEvent) {
    k.threadGroupId == e.threadGroupId && k.startTicks == e.startTicks
  }

  predicate SameDevice(k: CaptureKey, e: CaptureEvent) {
    k.major == e.device.major && k.minor == e.device.minor
  }

  function OfProcess(active: map<CaptureKey, CameraSession>, e: CaptureEvent): set<CaptureKey> {
    set k | k in active && SameProcess(k, e)
  }

  function OfDevice(active: map<CaptureKey, CameraSession>, e: CaptureEvent): set<CaptureKey> {
    set k | k in active && SameDevice(k, e)
  }

  ghost function Fates(active: map<CaptureKey, CameraSession>, keys: seq<CaptureKey>, state: SessionState)
    : seq<(CameraSession, SessionState)>
    requires forall k | k in keys :: k in active
  {
    seq(|keys|, i requires 0 <= i < |keys| => (active[keys[i]], state))
  }

  /** Ends the given active keys, in key order. */
  ghost function EndAll(m: Machine, keys: set<CaptureKey>, state: SessionState): Applied
    requires keys <= m.active.Keys
  {
    Applied(m.(active := m.active - keys), Success(EndedMany(Fates(m.active, KeyListing(keys), state))))
  }

  ghost function LoseBackend(m: Machine): Applied {
    EndAll(m, m.active.Keys, Interrupted)
  }

  ghost function EndKey(m: Machine, k: CaptureKey): Applied {
    if k in m.active then
      Applied(m.(active := m.active - {k}), Success(Ended(m.active[k], Stopped)))
    else
      Applied(m, Success(Unchanged))
  }

  ghost function OpenKey(m: Machine, e: CaptureEvent): Applied {
    var k := KeyOf(e);
    if k in m.active then
      Applied(m.(active := m.active[k := m.active[k].(lastObserved := e.timestamp)]), Success(Unchanged))
    else
      var session := NewSession(e);
      Applied(m.(active := m.active[k := session]), Success(Started(session)))
  }

  ghost function Observe(m: Machine, e: CaptureEvent): Applied {
    if !IsValid(e) then
      Applied(m, Failure(Validate(e).error))
    else if e.timestamp < m.last then
      Applied(m, Success(Unchanged))
    else
      var m' := m.(last := e.timestamp);
      match e.operation
      case StreamStarted | CaptureRead => OpenKey(m', e)
      case StreamStopped | DeviceClosed => EndKey(m', KeyOf(e))
      case ProcessExited => EndAll(m', OfProcess(m.active, e), Stopped)
      case DeviceRemoved => EndAll(m', OfDevice(m.active, e), Interrupted)
      case BackendLost => LoseBackend(m')
      case DeviceOpened => Applied(m', Success(Unchanged))
  }

  // ----- The machine as the daemon runs it -----

  class V4l2SessionMachine {
    var active: map<CaptureKey, CameraSession>
    var lastTimestamp: u64

    ghost function Model(): Machine
      reads this
    {
      Machine(active, lastTimestamp)
    }

    constructor ()
      ensures Model() == INITIAL
    {
      active := map[];
      lastTimestamp := 0;
    }

    method Apply(event: CaptureEvent) returns (r: Result<CaptureTransition, ValidationError>)
      modifies this
      ensures Applied(Model(), r) == Observe(old(Model()), event)
    {
      var verdict := Validate(event);
      if verdict.Failure? {
        return Failure(verdict.error);
      }
      if event.timestamp < lastTimestamp {
        return Success(Unchanged);
      }
      lastTimestamp := event.timestamp;
      var key := KeyOf(event);
      match event.operation {
        case StreamStarted | CaptureRead =>
          if key in active {
            active := active[key := active[key].(lastObserved := event.timestamp)];
            return Success(Unchanged);
          }
          var session := SessionFromEvent(event).value;
          active := active[key := session];
          return Success(Started(session));
        case StreamStopped | DeviceClosed =>
          var t := EndOne(key, Stopped);
          return Success(t);
        case ProcessExited =>
          var t := EndMatching(OfProcess(active, event), Stopped);
          return Success(t);
        case DeviceRemoved =>
          var t := EndMatching(OfDevice(active, event), Interrupted);
          return Success(t);
        case BackendLost =>
          var t := LoseAll();
          return Success(t);
        case DeviceOpened =>
          return Success(Unchanged);
      }
    }

    method LoseAll() returns (t: CaptureTransition)
      modifies this`active
      ensures Applied(Model(), Success(t)) == LoseBackend(old(Model()))
    {
      var taken := active;
      active := map[];
      var order := KeysInOrder(taken.Keys);
      var ended := [];
      for i := 0 to |order|
        invariant ended == Fates(taken, order[..i], Interrupted)
      {
        ended := ended + [(taken[order[i]], Interrupted)];
      }
      assert order[..|order|] == order;
      t := EndedMany(ended);
    }

    method EndOne(key: CaptureKey, state: SessionState) returns (t: CaptureTransition)
      modifies this`active
      ensures active == old(active) - {key}
      ensures t == if key in old(active) then Ended(old(active)[key], state) else Unchanged
    {
      if key in active {
        t := Ended(active[key], state);
        active := active - {key};
      } else {
        t := Unchanged;
      }
    }

    /** Removes the matching keys one at a time, in key order. */
    method EndMatching(matching: set<CaptureKey>, state: SessionState) returns (t: CaptureTransition)
      requires matching <= active.Keys
      modifies this`active
      ensures Applied(Model(), Success(t)) == EndAll(old(Model()), matching, state)
    {
      ghost var before := active;
      var order := KeysInOrder(matching);
      KeyListingAscends(matching);
      var ended := [];
      for i := 0 to |order|
        invariant active == before - Elements(order[..i])
        invariant ended == Fates(before, order[..i], state)
      {
        ended := ended + [(active[order[i]], state)];
        active := active - {order[i]};
        assert Elements(order[..i + 1]) == Elements(order[..i]) + {order[i]};
      }
      assert order[..|order|] == order;
      t := EndedMany(ended);
    }
  }

  // ----- Invariant of the active map -----

  ghost predicate EntryValid(k: CaptureKey, s: CameraSession, last: u64) {
    && s.id == SessionText(k, s.startedAt)
    && s.threadGroupId == k.threadGroupId
    && s.startTicks == k.startTicks
    && s.fileDescriptor == k.fileDescriptor
    && s.device.id == NodeText(k.major, k.minor)
    && s.startedAt <= s.lastObserved <= last
    && s.state == Active
  }

  ghost predicate Valid(m: Machine) {
    forall k | k in m.active :: EntryValid(k, m.active[k], m.last)
  }

  ghost function ActiveIds(m: Machine): set<string> {
    IdsOf(m.active, m.active.Keys)
  }

  ghost function IdsOf(active: map<CaptureKey, CameraSession>, keys: set<CaptureKey>): set<string>
    requires keys <= active.Keys
  {
    set k | k in keys :: active[k].id
  }

  lemma ObserveKeepsValid(m: Machine, e: CaptureEvent)
    requires Valid(m)
    ensures Valid(Observe(m, e).machine)
    ensures Observe(m, e).result.Failure? ==> Observe(m, e).machine == m
  {
    hide SessionText, NodeText, Validate;
    if IsValid(e) && e.timestamp >= m.last {
      assert forall k | k in m.active :: EntryValid(k, m.active[k], e.timestamp);
    }
  }

  /** Active keys and active ids are in bijection. */
  lemma ActiveIdsIdentifyKeys(m: Machine, k: CaptureKey, k': CaptureKey)
    requires Valid(m) && k in m.active && k' in m.active
    ensures m.active[k].id == m.active[k'].id <==> k == k'
  {
    if m.active[k].id == m.active[k'].id {
      assert EntryValid(k, m.active[k], m.last) && EntryValid(k', m.active[k'], m.last);
      SessionTextInjective(k, m.active[k].startedAt, k', m.active[k'].startedAt);
    }
  }

  // ----- Runs -----

  datatype Input = Event(event: CaptureEvent) | Lose

  ghost function Feed(m: Machine, x: Input): Applied {
    match x
    case Event(e) => Observe(m, e)
    case Lose => LoseBackend(m)
  }

  ghost function Run(xs: seq<Input>): Machine {
    if xs == [] then INITIAL else Feed(Run(xs[..|xs| - 1]), xs[|xs| - 1]).machine
  }

  lemma {:induction false} RunKeepsValid(xs: seq<Input>)
    ensures Valid(Run(xs))
  {
    if xs != [] {
      var n := |xs| - 1;
      RunKeepsValid(xs[..n]);
      match xs[n]
      case Event(e) => ObserveKeepsValid(Run(xs[..n]), e);
      case Lose =>
    }
  }

  /** An input takes effect when it is a loss, or a valid event no earlier valid event is newer than. */
  ghost predicate Accepted(xs: seq<Input>, i: nat)
    requires i < |xs|
  {
    xs[i].Lose? ||
    (IsValid(xs[i].event) &&
     forall j | 0 <= j < i && xs[j].Event? && IsValid(xs[j].event) :: xs[j].event.timestamp <= xs[i].event.timestamp)
  }

  lemma {:induction false} LastIsRunningMaximum(xs: seq<Input>)
    ensures forall j | 0 <= j < |xs| && xs[j].Event? && IsValid(xs[j].event) :: xs[j].event.timestamp <= Run(xs).last
    ensures Run(xs).last == 0 ||
            exists j :: 0 <= j < |xs| && xs[j].Event? && IsValid(xs[j].event) && xs[j].event.timestamp == Run(xs).last
  {
    hide NewSession, Validate, Fates, KeyListing;
    if xs != [] {
      var n := |xs| - 1;
      var p := xs[..n];
      LastIsRunningMaximum(p);
      assert forall j | 0 <= j < n :: p[j] == xs[j];
      if xs[n].Event? && IsValid(xs[n].event) && xs[n].event.timestamp >= Run(p).last {
        assert Run(xs).last == xs[n].event.timestamp;
      } else {
        assert Run(xs).last == Run(p).last;
      }
    }
  }

  /** The run over a prefix accepts its next input exactly when the input is accepted. */
  lemma AcceptedIsNotOlder(xs: seq<Input>)
    requires xs != [] && xs[|xs| - 1].Event?
    ensures Accepted(xs, |xs| - 1) <==>
            IsValid(xs[|xs| - 1].event) && xs[|xs| - 1].event.timestamp >= Run(xs[..|xs| - 1]).last
  {
    var p := xs[..|xs| - 1];
    LastIsRunningMaximum(p);
    assert forall j | 0 <= j < |p| :: p[j] == xs[j];
  }

  ghost function OnlyAccepted(xs: seq<Input>): seq<Input> {
    if xs == [] then []
    else
      var n := |xs| - 1;
      OnlyAccepted(xs[..n]) + if Accepted(xs, n) then [xs[n]] else []
  }

  /** Running a sequence is running only its accepted inputs. */
  lemma {:induction false} RunIsRunOfAccepted(xs: seq<Input>)
    ensures Run(OnlyAccepted(xs)) == Run(xs)
  {
    if xs != [] {
      var n := |xs| - 1;
      RunIsRunOfAccepted(xs[..n]);
      if xs[n].Event? { AcceptedIsNotOlder(xs); }
      var kept := OnlyAccepted(xs[..n]);
      if Accepted(xs, n) {
        assert (kept + [xs[n]])[..|kept|] == kept;
      } else {
        assert OnlyAccepted(xs) == kept;
      }
    }
  }

  // ----- Which captures are active, read off the inputs -----

  ghost predicate OpenedAt(xs: seq<Input>, k: CaptureKey, i: nat)
    requires i < |xs|
  {
    Accepted(xs, i) && xs[i].Event? && Opens(xs[i].event) && KeyOf(xs[i].event) == k
  }

  ghost predicate ClosedAt(xs: seq<Input>, k: CaptureKey, i: nat)
    requires i < |xs|
  {
    Accepted(xs, i) &&
    match xs[i]
    case Lose => true
    case Event(e) =>
      match e.operation
      case StreamStopped | DeviceClosed => KeyOf(e) == k
      case ProcessExited => SameProcess(k, e)
      case DeviceRemoved => SameDevice(k, e)
      case BackendLost => true
      case _ => false
  }

  /** The observations of `k` since it last ended. */
  ghost function LiveObservations(xs: seq<Input>, k: CaptureKey): set<nat> {
    set i: nat | i < |xs| && OpenedAt(xs, k, i) && forall j | i < j < |xs| :: !ClosedAt(xs, k, j)
  }

  lemma LiveObservationsStep(xs: seq<Input>, k: CaptureKey)
    requires xs != []
    ensures LiveObservations(xs, k) ==
            if ClosedAt(xs, k, |xs| - 1) then {}
            else LiveObservations(xs[..|xs| - 1], k) + if OpenedAt(xs, k, |xs| - 1) then {|xs| - 1} else {}
  {
    var n := |xs| - 1;
    var p := xs[..n];
    forall i: nat | i < n
      ensures OpenedAt(p, k, i) == OpenedAt(xs, k, i) && ClosedAt(p, k, i) == ClosedAt(xs, k, i)
    {
      assert forall j | 0 <= j <= i :: p[j] == xs[j];
      assert Accepted(p, i) == Accepted(xs, i);
    }
  }

  ghost predicate FirstAndLast(s: set<nat>, first: nat, last: nat) {
    first in s && last in s && forall i | i in s :: first <= i <= last
  }

  ghost predicate TraceBetween(xs: seq<Input>, k: CaptureKey, session: CameraSession, first: int, last: int) {
    && 0 <= first && 0 <= last
    && FirstAndLast(LiveObservations(xs, k), first, last)
    && first < |xs| && last < |xs| && xs[first].Event? && xs[last].Event?
    && session == NewSession(xs[first].event).(lastObserved := xs[last].event.timestamp)
  }

  ghost predicate IsTraceOf(xs: seq<Input>, k: CaptureKey, session: CameraSession) {
    exists first, last :: TraceBetween(xs, k, session, first, last)
  }

  lemma LastInputActs(xs: seq<Input>, k: CaptureKey)
    requires xs != []
    ensures OpenedAt(xs, k, |xs| - 1) ==>
              var before := Run(xs[..|xs| - 1]).active;
              var e := xs[|xs| - 1].event;
              k in Run(xs).active &&
              Run(xs).active[k] == if k in before then before[k].(lastObserved := e.timestamp) else NewSession(e)
    ensures ClosedAt(xs, k, |xs| - 1) ==> k !in Run(xs).active
    ensures !OpenedAt(xs, k, |xs| - 1) && !ClosedAt(xs, k, |xs| - 1) ==>
              var before := Run(xs[..|xs| - 1]).active;
              (k in Run(xs).active <==> k in before) && (k in before ==> Run(xs).active[k] == before[k])
  {
    hide NewSession, Validate, KeyListing, Fates;
    if xs[|xs| - 1].Event? { AcceptedIsNotOlder(xs); }
  }

  /** A key is active exactly when some accepted observation of it has not been ended since; its entry
      is the session of the first such observation, last observed at the last one. */
  lemma {:induction false} TraceMeaning(xs: seq<Input>, k: CaptureKey)
    ensures k in Run(xs).active <==> LiveObservations(xs, k) != {}
    ensures k in Run(xs).active ==> IsTraceOf(xs, k, Run(xs).active[k])
  {
    hide SessionText, NodeText, Validate, Observe, LoseBackend;
    if xs != [] {
      var n := |xs| - 1;
      var p := xs[..n];
      TraceMeaning(p, k);
      LiveObservationsStep(xs, k);
      LastInputActs(xs, k);
      if k in Run(xs).active {
        var now := Run(xs).active[k];
        if k in Run(p).active {
          var first, last :| TraceBetween(p, k, Run(p).active[k], first, last);
          assert TraceBetween(xs, k, now, first, if OpenedAt(xs, k, n) then n else last);
        } else {
          assert TraceBetween(xs, k, now, n, n);
        }
      }
    }
  }

  // ----- Conservation of sessions -----

  ghost function Ids(fates: seq<(CameraSession, SessionState)>): seq<string> {
    seq(|fates|, i requires 0 <= i < |fates| => fates[i].0.id)
  }

  ghost function StartedIn(r: Result<CaptureTransition, ValidationError>): multiset<string> {
    if r.Success? && r.value.Started? then multiset{r.value.session.id} else multiset{}
  }

  ghost function EndedIn(r: Result<CaptureTransition, ValidationError>): multiset<string> {
    if r.Failure? then multiset{}
    else
      match r.value
      case Ended(s, _) => multiset{s.id}
      case EndedMany(ended) => multiset(Ids(ended))
      case _ => multiset{}
  }

  ghost function AllStarted(xs: seq<Input>): multiset<string> {
    if xs == [] then multiset{}
    else AllStarted(xs[..|xs| - 1]) + StartedIn(Feed(Run(xs[..|xs| - 1]), xs[|xs| - 1]).result)
  }

  ghost function AllEnded(xs: seq<Input>): multiset<string> {
    if xs == [] then multiset{}
    else AllEnded(xs[..|xs| - 1]) + EndedIn(Feed(Run(xs[..|xs| - 1]), xs[|xs| - 1]).result)
  }

  lemma IdsSplit(active: map<CaptureKey, CameraSession>, keys: set<CaptureKey>)
    requires keys <= active.Keys
    ensures IdsOf(active, active.Keys) == IdsOf(active, keys) + IdsOf(active - keys, active.Keys - keys)
  {
    forall k | k in active ensures active[k].id in IdsOf(active, keys) + IdsOf(active - keys, active.Keys - keys) {
      if k !in keys {
        assert k in active - keys && (active - keys)[k] == active[k];
      }
    }
  }

  lemma {:induction false} FatesCarryIds(m: Machine, order: seq<CaptureKey>, state: SessionState)
    requires Valid(m) && Distinct(order) && forall k | k in order :: k in m.active
    ensures multiset(Ids(Fates(m.active, order, state))) == multiset(IdsOf(m.active, Elements(order)))
  {
    hide SessionText, NodeText;
    if order == [] {
      assert Ids(Fates(m.active, order, state)) == [];
    } else {
      var k, rest := order[0], order[1..];
      FatesCarryIds(m, rest, state);
      var id := m.active[k].id;
      assert Ids(Fates(m.active, order, state)) == [id] + Ids(Fates(m.active, rest, state));
      assert Elements(order) == {k} + Elements(rest);
      assert IdsOf(m.active, Elements(order)) == {id} + IdsOf(m.active, Elements(rest));
      forall k' | k' in rest ensures m.active[k'].id != id { ActiveIdsIdentifyKeys(m, k, k'); }
    }
  }

  lemma EndAllConserves(m: Machine, keys: set<CaptureKey>, state: SessionState)
    requires Valid(m) && keys <= m.active.Keys
    ensures EndedIn(EndAll(m, keys, state).result) == multiset(IdsOf(m.active, keys))
    ensures multiset(ActiveIds(m)) == EndedIn(EndAll(m, keys, state).result) + multiset(ActiveIds(EndAll(m, keys,
        state).machine))
    ensures StartedIn(EndAll(m, keys, state).result) == multiset{}
  {
    hide SessionText, NodeText, Valid, KeyListing, Fates, Ids;
    KeyListingAscends(keys);
    FatesCarryIds(m, KeyListing(keys), state);
    assert Elements(KeyListing(keys)) == keys;
    var m' := EndAll(m, keys, state).machine;
    IdsSplit(m.active, keys);
    forall k, k' | k in keys && k' in m'.active ensures m.active[k].id != m'.active[k'].id {
      ActiveIdsIdentifyKeys(m, k, k');
    }
  }

  lemma FeedConserves(m: Machine, x: Input)
    requires Valid(m)
    ensures multiset(ActiveIds(m)) + StartedIn(Feed(m, x).result) ==
            EndedIn(Feed(m, x).result) + multiset(ActiveIds(Feed(m, x).machine))
  {
    hide SessionText, NodeText, Validate, EndAll;
    match x
    case Lose => EndAllConserves(m, m.active.Keys, Interrupted);
    case Event(e) =>
      if IsValid(e) && e.timestamp >= m.last {
        var m' := m.(last := e.timestamp);
        assert Valid(m') && ActiveIds(m') == ActiveIds(m);
        match e.operation
        case StreamStarted | CaptureRead => OpenConserves(m', e);
        case StreamStopped | DeviceClosed => EndKeyConserves(m', KeyOf(e));
        case ProcessExited => EndAllConserves(m', OfProcess(m.active, e), Stopped);
        case DeviceRemoved => EndAllConserves(m', OfDevice(m.active, e), Interrupted);
        case BackendLost => EndAllConserves(m', m.active.Keys, Interrupted);
        case DeviceOpened =>
      }
  }

  lemma OpenConserves(m: Machine, e: CaptureEvent)
    requires Valid(m) && m.last == e.timestamp
    ensures multiset(ActiveIds(m)) + StartedIn(OpenKey(m, e).result) == multiset(ActiveIds(OpenKey(m, e).machine))
    ensures EndedIn(OpenKey(m, e).result) == multiset{}
    ensures OpenKey(m, e).result.value.Started? ==> OpenKey(m, e).result.value.session.id !in ActiveIds(m)
  {
    hide SessionText, NodeText, Validate;
    var k := KeyOf(e);
    var m' := OpenKey(m, e).machine;
    if k in m.active {
      forall i ensures i in ActiveIds(m) <==> i in ActiveIds(m') {
        if i in ActiveIds(m) {
          var k' :| k' in m.active && m.active[k'].id == i;
          assert k' in m'.active && m'.active[k'].id == i;
        }
      }
    } else {
      var id := m'.active[k].id;
      forall k' | k' in m.active ensures m.active[k'].id != id {
        if m.active[k'].id == id {
          assert EntryValid(k', m.active[k'], m.last);
          SessionTextInjective(k', m.active[k'].startedAt, k, e.timestamp);
        }
      }
      assert ActiveIds(m') == ActiveIds(m) + {id} by {
        forall k' | k' in m.active ensures m.active[k'].id in ActiveIds(m') {
          assert m'.active[k'] == m.active[k'];
        }
      }
    }
  }

  lemma EndKeyConserves(m: Machine, k: CaptureKey)
    requires Valid(m)
    ensures multiset(ActiveIds(m)) == EndedIn(EndKey(m, k).result) + multiset(ActiveIds(EndKey(m, k).machine))
    ensures StartedIn(EndKey(m, k).result) == multiset{}
  {
    hide SessionText, NodeText;
    if k in m.active {
      var m' := EndKey(m, k).machine;
      var id := m.active[k].id;
      forall k' | k' in m'.active ensures m'.active[k'].id != id { ActiveIdsIdentifyKeys(m, k, k'); }
      IdsSplit(m.active, {k});
      assert IdsOf(m.active, {k}) == {id};
    }
  }

  /** Every session ever started has either been reported ended or is still active, counted with repetition. */
  lemma {:induction false} SessionsAreConserved(xs: seq<Input>)
    ensures AllStarted(xs) == AllEnded(xs) + multiset(ActiveIds(Run(xs)))
  {
    hide SessionText, NodeText, Validate, Observe, LoseBackend;
    if xs == [] {
      assert ActiveIds(INITIAL) == {};
    } else {
      var p, x := xs[..|xs| - 1], xs[|xs| - 1];
      SessionsAreConserved(p);
      RunKeepsValid(p);
      FeedConserves(Run(p), x);
      var fed := Feed(Run(p), x);
      assert AllStarted(xs) == AllEnded(p) + (multiset(ActiveIds(Run(p))) + StartedIn(fed.result));
    }
  }

  // ----- When two sessions share an id -----

  ghost predicate StartsAt(xs: seq<Input>, i: nat) {
    i < |xs| && Feed(Run(xs[..i]), xs[i]).result.Success? && Feed(Run(xs[..i]), xs[i]).result.value.Started?
  }

  ghost function SessionStartedAt(xs: seq<Input>, i: nat): CameraSession
    requires StartsAt(xs, i)
  {
    Feed(Run(xs[..i]), xs[i]).result.value.session
  }

  lemma StartedIsNew(m: Machine, x: Input)
    requires Feed(m, x).result.Success? && Feed(m, x).result.value.Started?
    ensures x.Event? && Feed(m, x).result.value.session == NewSession(x.event)
  {
    hide NewSession, Validate, KeyListing, Fates;
  }

  /** An id is issued twice exactly when one key is started twice at one timestamp. */
  lemma RepeatedIdsNeedRepeatedTimestamps(xs: seq<Input>, i: nat, j: nat)
    requires StartsAt(xs, i) && StartsAt(xs, j)
    ensures xs[i].Event? && xs[j].Event?
    ensures SessionStartedAt(xs, i).id == SessionStartedAt(xs, j).id <==>
            KeyOf(xs[i].event) == KeyOf(xs[j].event) && xs[i].event.timestamp == xs[j].event.timestamp
  {
    hide SessionText, NodeText, Feed, Run;
    StartedIsNew(Run(xs[..i]), xs[i]);
    StartedIsNew(Run(xs[..j]), xs[j]);
    var e, e' := xs[i].event, xs[j].event;
    if SessionStartedAt(xs, i).id == SessionStartedAt(xs, j).id {
      SessionTextInjective(KeyOf(e), e.timestamp, KeyOf(e'), e'.timestamp);
    }
  }

  ghost predicate EventTimesIncrease(xs: seq<Input>) {
    forall i, j | 0 <= i < j < |xs| && xs[i].Event? && xs[j].Event? :: xs[i].event.timestamp < xs[j].event.timestamp
  }

  /** Under increasing timestamps no id is issued twice in a run. */
  lemma IdsAreNeverReissued(xs: seq<Input>, i: nat, j: nat)
    requires EventTimesIncrease(xs) && StartsAt(xs, i) && StartsAt(xs, j) && i != j
    ensures SessionStartedAt(xs, i).id != SessionStartedAt(xs, j).id
  {
    hide SessionText, NodeText, Validate, Observe;
    RepeatedIdsNeedRepeatedTimestamps(xs, i, j);
    assert i < j || j < i;
  }

  /** A capture that starts, stops and starts again at one time issues its id twice. */
  lemma RestartAtOneTimeRepeatsId(start: CaptureEvent, stop: CaptureEvent)
    requires IsValid(start) && start.operation == StreamStarted
    requires IsValid(stop) && stop.operation == StreamStopped
    requires KeyOf(stop) == KeyOf(start) && stop.timestamp == start.timestamp
    ensures var xs := [Event(start), Event(stop), Event(start)];
            StartsAt(xs, 0) && StartsAt(xs, 2) && SessionStartedAt(xs, 0).id == SessionStartedAt(xs, 2).id
  {
    hide SessionText, NodeText, Validate;
    var xs := [Event(start), Event(stop), Event(start)];
    assert xs[..1][..0] == [] && xs[..2][..1] == xs[..1] && xs[..0] == [];
    assert Run(xs[..0]) == INITIAL;
    assert Run(xs[..1]) == Machine(map[KeyOf(start) := NewSession(start)], start.timestamp);
    assert Run(xs[..2]).active == map[] && Run(xs[..2]).last == start.timestamp;
    RepeatedIdsNeedRepeatedTimestamps(xs, 0, 2);
  }

  // ----- What each input reports -----

  /** The keys the input at `n` ends, among those active. */
  ghost function EndedBy(xs: seq<Input>, n: nat, active: map<CaptureKey, CameraSession>): set<CaptureKey>
    requires n < |xs|
  {
    set k | k in active && ClosedAt(xs, k, n)
  }

  /** A capture that stops, is closed or whose process exits is stopped; one whose device or backend goes away
      is interrupted. */
  predicate Interrupts(x: Input) {
    x.Lose? || x.event.operation.DeviceRemoved? || x.event.operation.BackendLost?
  }

  lemma OneKeyListed(k: CaptureKey)
    ensures KeyListing({k}) == [k]
  {
    KeyIsTotalOrder();
    ListingAscends(KeyLeq, {k});
    assert KeyListing({k})[0] in KeyListing({k});
  }

  lemma NoKeyListed()
    ensures KeyListing({}) == []
  {
    KeyIsTotalOrder();
    ListingAscends(KeyLeq, {});
  }

  ghost predicate Reports(fates: seq<(CameraSession, SessionState)>, active: map<CaptureKey, CameraSession>,
      keys: set<CaptureKey>, x: Input)
    requires keys <= active.Keys
  {
    var order := KeyListing(keys);
    && |fates| == |order|
    && forall i | 0 <= i < |order| ::
         fates[i].0 == active[order[i]] && fates[i].1 == if Interrupts(x) then Interrupted else SessionState.Stopped
  }

  /** What an input reports, over every run: an invalid event its violation; an accepted opening of an inactive
      capture its session; and any other exactly the sessions it ends, in key order, each with how it ended. */
  lemma InputsReport(xs: seq<Input>)
    requires xs != []
    ensures var n := |xs| - 1;
            var m, x, r := Run(xs[..n]), xs[n], Feed(Run(xs[..n]), xs[n]).result;
            if x.Event? && !IsValid(x.event) then r == Failure(Validate(x.event).error)
            else
              && r.Success?
              && (r.value.Started? <==> x.Event? && OpenedAt(xs, KeyOf(x.event), n) && KeyOf(x.event) !in m.active)
              && match r.value
                 case Unchanged => EndedBy(xs, n, m.active) == {}
                 case Started(s) => s == NewSession(x.event) && EndedBy(xs, n, m.active) == {}
                 case Ended(s, state) => Reports([(s, state)], m.active, EndedBy(xs, n, m.active), x)
                 case EndedMany(fates) => Reports(fates, m.active, EndedBy(xs, n, m.active), x)
  {
    hide NewSession, Validate, KeyListing;
    var n := |xs| - 1;
    var m, x := Run(xs[..n]), xs[n];
    var ended := EndedBy(xs, n, m.active);
    NoKeyListed();
    match x
    case Lose =>
      assert ended == m.active.Keys;
    case Event(e) =>
      AcceptedIsNotOlder(xs);
      var accepted := IsValid(e) && e.timestamp >= m.last;
      if accepted {
        match e.operation
        case StreamStopped | DeviceClosed =>
          OneKeyListed(KeyOf(e));
          assert ended == if KeyOf(e) in m.active then {KeyOf(e)} else {};
        case ProcessExited =>
          assert ended == OfProcess(m.active, e);
        case DeviceRemoved =>
          assert ended == OfDevice(m.active, e);
        case BackendLost =>
          assert ended == m.active.Keys;
        case _ =>
          assert ended == {};
      } else {
        assert ended == {};
      }
  }
}
