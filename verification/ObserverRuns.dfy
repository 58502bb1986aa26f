/** Agreement of daemons and observer over whole runs, whenever a daemon starts to listen. */
module ObserverRuns {
  import opened Prelude
  import opened Capture
  import opened SessionMachine
  import opened ObserverSource
  import opened KernelEvents
  import opened Agreement

  // ----- Agreement over whole runs -----

  ghost function HeardAll(ticks: seq<Tick>): set<CandidateKey> {
    if ticks == [] then {} else Heard(HeardAll(ticks[..|ticks| - 1]), ticks[|ticks| - 1])
  }

  ghost predicate AgreesAfter(o: Observer, ticks: seq<Tick>, user: u32) {
    Agrees(Turns(o, ticks), user, HeardAll(ticks))
  }

  ghost predicate FitsAt(o: Observer, ticks: seq<Tick>, i: nat, user: u32)
    requires i < |ticks|
  {
    Fits(Turns(o, ticks[..i]), ticks[i], user, HeardAll(ticks[..i]))
  }

  lemma {:induction false} TurnsKeepFiling(o: Observer, ticks: seq<Tick>)
    requires WellFiled(o.candidates)
    ensures WellFiled(Turns(o, ticks).candidates)
  {
    hide Turn, WellFiled;
    if ticks != [] {
      TurnsKeepFiling(o, ticks[..|ticks| - 1]);
      TurnKeepsFiling(Turns(o, ticks[..|ticks| - 1]), ticks[|ticks| - 1]);
    }
  }

  lemma AgreementStep(o: Observer, ticks: seq<Tick>, i: nat, user: u32)
    requires i < |ticks| && WellFiled(o.candidates) && AgreesAfter(o, ticks[..i], user)
    ensures AgreesAfter(o, ticks[..i + 1], user) <==> FitsAt(o, ticks, i, user)
  {
    hide Turn, WellFiled, Agrees, Fits, Heard;
    TurnsKeepFiling(o, ticks[..i]);
    TurnAgreesIff(Turns(o, ticks[..i]), ticks[i], user, HeardAll(ticks[..i]));
    assert ticks[..i + 1][..i] == ticks[..i];
  }

  lemma ListeningStarts(o: Observer, user: u32)
    requires o.sent == []
    ensures UserMachine(o, user) == INITIAL && AgreesAfter(o, [], user)
  {
    assert AnnouncedKeys(o.candidates, user, {}) == {};
  }

  /** From wherever a daemon starts listening: its machine agrees with the candidates started since, after every
      turn, precisely when every turn fits. */
  lemma {:induction false} AgreementIff(o: Observer, ticks: seq<Tick>, user: u32)
    requires o.sent == [] && WellFiled(o.candidates)
    ensures (forall n: nat | n <= |ticks| :: AgreesAfter(o, ticks[..n], user)) <==>
            (forall i: nat | i < |ticks| :: FitsAt(o, ticks, i, user))
  {
    hide AgreesAfter, FitsAt, WellFiled;
    if forall n: nat | n <= |ticks| :: AgreesAfter(o, ticks[..n], user) {
      forall i: nat | i < |ticks| ensures FitsAt(o, ticks, i, user) { AgreementStep(o, ticks, i, user); }
    }
    if forall i: nat | i < |ticks| :: FitsAt(o, ticks, i, user) {
      ListeningStarts(o, user);
      for n := 0 to |ticks|
        invariant forall i: nat | i <= n :: AgreesAfter(o, ticks[..i], user)
      {
        AgreementStep(o, ticks, n, user);
      }
    }
  }

  // ----- Lawful runs fit -----

  /** A restart on a live descriptor finds the same capture and the same announcement. */
  ghost predicate Stable(candidates: map<CandidateKey, Candidate>, raw: KernelEvent, lookup: Lookup) {
    var built := BuildCandidate(raw, lookup);
    built.Some? && KeyFor(raw) in candidates ==>
      var c := candidates[KeyFor(raw)];
      CaptureKeyOf(built.value) == CaptureKeyOf(c) && (Announced(built.value) <==> Announced(c))
  }

  ghost predicate OneSyspathPerDevice(candidates: map<CandidateKey, Candidate>) {
    forall k, k' | k in candidates && k' in candidates && k.userId == k'.userId &&
      candidates[k].device.major == candidates[k'].device.major &&
      candidates[k].device.minor == candidates[k'].device.minor ::
      candidates[k].device.udevSyspath == candidates[k'].device.udevSyspath
  }

  /** Identities are stable and device numbers name one syspath. */
  ghost predicate Lawful(candidates: map<CandidateKey, Candidate>, tick: Tick) {
    match tick
    case Kernel(raw, lookup) => raw.operation == StreamOn ==> Stable(candidates, raw, lookup)
    case DeviceCheck(_) => OneSyspathPerDevice(candidates)
  }

  ghost predicate LawfulRun(ticks: seq<Tick>) {
    forall i | 0 <= i < |ticks| :: Lawful(Turns(STARTING, ticks[..i]).candidates, ticks[i])
  }

  ghost predicate TimestampsIncrease(ticks: seq<Tick>) {
    forall i, j | 0 <= i < j < |ticks| && ticks[i].Kernel? && ticks[j].Kernel? ::
      ticks[i].raw.timestamp < ticks[j].raw.timestamp
  }

  ghost predicate ResultsAreZero(ticks: seq<Tick>) {
    forall i | 0 <= i < |ticks| && ticks[i].Kernel? :: ticks[i].raw.result == 0
  }

  lemma LawfulFits(o: Observer, tick: Tick, user: u32, heard: set<CandidateKey>)
    requires WellFiled(o.candidates) && Lawful(o.candidates, tick)
    requires UserMachine(o, user).last <= SaturatingAdd64(o.lastTimestamp, 1)
    requires tick.Kernel? ==> tick.raw.result == 0 && UserMachine(o, user).last <= tick.raw.timestamp
    ensures Fits(o, tick, user, heard)
  {
    hide UserMachine, Announced, Publishes, BuildCandidate, CaptureKeyOf;
  }

  /** The machine agrees and is never ahead of the synthetic time a device check would use. */
  ghost predicate InStep(o: Observer, user: u32, heard: set<CandidateKey>) {
    && WellFiled(o.candidates) && Agrees(o, user, heard)
    && UserMachine(o, user).last <= SaturatingAdd64(o.lastTimestamp, 1)
  }

  function TimeOf(o: Observer, tick: Tick): u64 {
    if tick.Kernel? then tick.raw.timestamp else SaturatingAdd64(o.lastTimestamp, 1)
  }

  lemma TurnTimes(o: Observer, tick: Tick, user: u32)
    ensures UserMachine(Turn(o, tick), user).last <= Max(UserMachine(o, user).last, TimeOf(o, tick))
    ensures Turn(o, tick).lastTimestamp ==
            if tick.Kernel? then Max(o.lastTimestamp, tick.raw.timestamp) else o.lastTimestamp
  {
    hide UserMachine, DropOne, Drop, CandidateListing, Publish, IncrementSuppression, BuildCandidate;
    match tick
    case DeviceCheck(missing) =>
      var gone := WithMissingDevice(o.candidates, missing);
      CandidateListingIsDistinct(gone);
      DropMoves(o, user, CandidateListing(gone), DeviceRemoved, SaturatingAdd64(o.lastTimestamp, 1), 0);
    case Kernel(raw, lookup) =>
      var o' := o.(lastTimestamp := if raw.timestamp > o.lastTimestamp then raw.timestamp else o.lastTimestamp);
      SameSent(o, o', user);
      match raw.operation
      case StreamOn =>
        StartMoves(o', raw, lookup, user);
        HandleKeepsTimestamp(o', raw, lookup);
      case StreamOff => SingleTimes(o', KeyFor(raw), StreamStopped, raw.timestamp, raw.result, user);
      case Closed => SingleTimes(o', KeyFor(raw), DeviceClosed, raw.timestamp, raw.result, user);
      case Exited =>
        CandidateListingIsDistinct(OfProcessGroup(o'.candidates, raw));
        DropMoves(o', user, CandidateListing(OfProcessGroup(o'.candidates, raw)), ProcessExited, raw.timestamp,
          raw.result);
  }

  lemma SingleTimes(o: Observer, k: CandidateKey, operation: CaptureOperation, timestamp: u64, result: i64, user: u32)
    requires Ending(operation)
    ensures UserMachine(DropOne(o, k, operation, timestamp, result), user).last <=
            Max(UserMachine(o, user).last, timestamp)
    ensures DropOne(o, k, operation, timestamp, result).lastTimestamp == o.lastTimestamp
  {
    hide UserMachine, DropOne;
    if k in o.candidates {
      DropOneMoves(o, k, operation, timestamp, result, user);
    } else {
      AbsentIsKept(o, k, operation, timestamp, result);
    }
  }

  lemma HandleKeepsTimestamp(o: Observer, raw: KernelEvent, lookup: Lookup)
    requires raw.operation == StreamOn
    ensures Handle(o, raw, lookup).lastTimestamp == o.lastTimestamp
  {
    hide EventFor, Validate, BuildCandidate;
  }

  /** Every lawful, successful turn that is not older than what the machine has seen keeps agreement. */
  lemma TurnKeepsStep(o: Observer, tick: Tick, user: u32, heard: set<CandidateKey>)
    requires InStep(o, user, heard) && Lawful(o.candidates, tick)
    requires tick.Kernel? ==> tick.raw.result == 0 && UserMachine(o, user).last <= tick.raw.timestamp
    ensures InStep(Turn(o, tick), user, Heard(heard, tick))
  {
    hide UserMachine, Agrees, WellFiled, Lawful, Fits, Turn, Heard;
    LawfulFits(o, tick, user, heard);
    TurnAgreesIff(o, tick, user, heard);
    TurnKeepsFiling(o, tick);
    TurnTimes(o, tick, user);
  }

  /** The latest timestamp is that of a kernel event already handled, or nothing has happened yet. */
  lemma {:induction false} LatestTimestamp(ticks: seq<Tick>)
    ensures var o := Turns(STARTING, ticks);
            || o == STARTING
            || exists i :: 0 <= i < |ticks| && ticks[i].Kernel? && ticks[i].raw.timestamp == o.lastTimestamp
  {
    hide Turn;
    if ticks != [] {
      var n := |ticks| - 1;
      var p := ticks[..n];
      var o := Turns(STARTING, p);
      LatestTimestamp(p);
      TurnTimes(o, ticks[n], 0);
      if ticks[n].Kernel? && ticks[n].raw.timestamp >= o.lastTimestamp {
        assert ticks[n].raw.timestamp == Turns(STARTING, ticks).lastTimestamp;
      } else if o != STARTING {
        var i :| 0 <= i < |p| && p[i].Kernel? && p[i].raw.timestamp == o.lastTimestamp;
        assert ticks[i] == p[i];
      } else {
        IdleCheck(ticks[n]);
      }
    }
  }

  lemma IdleCheck(tick: Tick)
    requires tick.DeviceCheck?
    ensures Turn(STARTING, tick) == STARTING
  {
    hide CandidateListing;
    CandidateListingIsDistinct(WithMissingDevice(map[], tick.missing));
    assert CandidateListing(WithMissingDevice(map[], tick.missing)) == [];
  }

  // ----- Listening from some point on -----

  function WithLog(o: Observer, earlier: seq<Routed>): Observer {
    o.(sent := earlier + o.sent)
  }

  lemma PublishIgnoresLog(o: Observer, earlier: seq<Routed>, user: u32, c: Candidate, operation: CaptureOperation,
      timestamp: u64, result: i64)
    ensures Publish(WithLog(o, earlier), user, c, operation, timestamp, result) ==
            WithLog(Publish(o, user, c, operation, timestamp, result), earlier)
    ensures IncrementSuppression(WithLog(o, earlier), user, c.owner) ==
            WithLog(IncrementSuppression(o, user, c.owner), earlier)
  {
    hide EventFor, Validate;
    var e := EventFor(c, operation, timestamp, result);
    assert earlier + (o.sent + [Routed(user, Captured(e))]) == (earlier + o.sent) + [Routed(user, Captured(e))];
    var d := IncrementSuppression(o, user, c.owner).totals[user];
    assert earlier + (o.sent + [Routed(user, Totals(d))]) == (earlier + o.sent) + [Routed(user, Totals(d))];
  }

  lemma {:induction false} DropIgnoresLog(o: Observer, earlier: seq<Routed>, keys: seq<CandidateKey>,
      operation: CaptureOperation, timestamp: u64, result: i64)
    ensures Drop(WithLog(o, earlier), keys, operation, timestamp, result) ==
            WithLog(Drop(o, keys, operation, timestamp, result), earlier)
  {
    hide DropOne;
    if keys != [] {
      var rest, k := keys[..|keys| - 1], keys[|keys| - 1];
      DropIgnoresLog(o, earlier, rest, operation, timestamp, result);
      DropOneIgnoresLog(Drop(o, rest, operation, timestamp, result), earlier, k, operation, timestamp, result);
    }
  }

  lemma DropOneIgnoresLog(o: Observer, earlier: seq<Routed>, k: CandidateKey,
      operation: CaptureOperation, timestamp: u64, result: i64)
    ensures DropOne(WithLog(o, earlier), k, operation, timestamp, result) ==
            WithLog(DropOne(o, k, operation, timestamp, result), earlier)
  {
    hide Publish;
    if k in o.candidates {
      PublishIgnoresLog(o.(candidates := o.candidates - {k}), earlier, k.userId, o.candidates[k], operation, timestamp,
        result);
    }
  }

  lemma TurnIgnoresLog(o: Observer, earlier: seq<Routed>, tick: Tick)
    ensures Turn(WithLog(o, earlier), tick) == WithLog(Turn(o, tick), earlier)
  {
    hide Publish, Drop, DropOne, IncrementSuppression, CandidateListing, BuildCandidate;
    match tick
    case DeviceCheck(missing) =>
      DropIgnoresLog(o, earlier, CandidateListing(WithMissingDevice(o.candidates, missing)), DeviceRemoved,
        SaturatingAdd64(o.lastTimestamp, 1), 0);
    case Kernel(raw, lookup) =>
      var o' := o.(lastTimestamp := if raw.timestamp > o.lastTimestamp then raw.timestamp else o.lastTimestamp);
      match raw.operation
      case StreamOn =>
        var built := BuildCandidate(raw, lookup);
        if built.Some? {
          PublishIgnoresLog(o', earlier, raw.userId, built.value, StreamStarted, raw.timestamp, raw.result);
        } else {
          UnbuiltIgnoresLog(o', earlier, raw.userId);
        }
      case StreamOff => DropOneIgnoresLog(o', earlier, KeyFor(raw), StreamStopped, raw.timestamp, raw.result);
      case Closed => DropOneIgnoresLog(o', earlier, KeyFor(raw), DeviceClosed, raw.timestamp, raw.result);
      case Exited =>
        DropIgnoresLog(o', earlier, CandidateListing(OfProcessGroup(o'.candidates, raw)), ProcessExited,
          raw.timestamp, raw.result);
  }

  lemma UnbuiltIgnoresLog(o: Observer, earlier: seq<Routed>, user: u32)
    ensures IncrementSuppression(WithLog(o, earlier), user, CaptureOwner.Unknown) ==
            WithLog(IncrementSuppression(o, user, CaptureOwner.Unknown), earlier)
  {
    var d := IncrementSuppression(o, user, CaptureOwner.Unknown).totals[user];
    assert earlier + (o.sent + [Routed(user, Totals(d))]) == (earlier + o.sent) + [Routed(user, Totals(d))];
  }

  /** The observer as a daemon that connects now sees it: nothing sent to it yet. */
  function Joined(o: Observer): Observer {
    o.(sent := [])
  }

  /** The observer goes on the same whoever listens, and a daemon that joined misses exactly what was sent before. */
  lemma {:induction false} JoiningMissesThePast(before: seq<Tick>, after: seq<Tick>)
    ensures Turns(STARTING, before + after) ==
            WithLog(Turns(Joined(Turns(STARTING, before)), after), Turns(STARTING, before).sent)
  {
    hide Turn;
    var earlier := Turns(STARTING, before).sent;
    if after == [] {
      assert before + after == before;
      assert earlier + [] == earlier;
    } else {
      var n := |after| - 1;
      JoiningMissesThePast(before, after[..n]);
      assert (before + after)[..|before + after| - 1] == before + after[..n];
      TurnIgnoresLog(Turns(Joined(Turns(STARTING, before)), after[..n]), earlier, after[n]);
    }
  }

  lemma LastTurnIsLawful(ticks: seq<Tick>)
    requires ticks != [] && LawfulRun(ticks) && TimestampsIncrease(ticks) && ResultsAreZero(ticks)
    ensures var p, last := ticks[..|ticks| - 1], ticks[|ticks| - 1];
            var o := Turns(STARTING, p);
            && LawfulRun(p) && TimestampsIncrease(p) && ResultsAreZero(p) && Lawful(o.candidates, last)
            && (last.Kernel? ==> last.raw.result == 0 && (o == STARTING || o.lastTimestamp < last.raw.timestamp))
  {
    hide Turns, Lawful;
    var n := |ticks| - 1;
    var p := ticks[..n];
    LatestTimestamp(p);
    forall i | 0 <= i < n ensures p[i] == ticks[i] && Lawful(Turns(STARTING, p[..i]).candidates, p[i]) {
      assert p[..i] == ticks[..i];
    }
  }

  lemma NewEnough(o: Observer, user: u32, heard: set<CandidateKey>, timestamp: u64)
    requires InStep(o, user, heard) && (o.sent == [] || o.lastTimestamp < timestamp)
    ensures UserMachine(o, user).last <= timestamp
  {
    if o.sent == [] { ListeningStarts(o, user); }
  }

  /** With increasing kernel timestamps, from wherever a daemon starts listening, its machine agrees with the
      candidates started since: every kernel event is new enough for it, even after the synthetic timestamp of a
      device removal. */
  lemma {:induction false} AgreementSince(before: seq<Tick>, after: seq<Tick>, user: u32)
    requires LawfulRun(before + after) && TimestampsIncrease(before + after) && ResultsAreZero(before + after)
    ensures InStep(Turns(Joined(Turns(STARTING, before)), after), user, HeardAll(after))
  {
    hide Turn, Lawful, InStep, LawfulRun, TimestampsIncrease, ResultsAreZero, UserMachine, Heard, WellFiled;
    var o0 := Joined(Turns(STARTING, before));
    if after == [] {
      StartingInStep(before, user);
    } else {
      var n := |after| - 1;
      var ticks := before + after;
      assert ticks[..|ticks| - 1] == before + after[..n];
      LastTurnIsLawful(ticks);
      AgreementSince(before, after[..n], user);
      var o := Turns(o0, after[..n]);
      JoiningMissesThePast(before, after[..n]);
      if after[n].Kernel? {
        NewEnough(o, user, HeardAll(after[..n]), after[n].raw.timestamp);
      }
      TurnKeepsStep(o, after[n], user, HeardAll(after[..n]));
    }
  }

  lemma StartingInStep(before: seq<Tick>, user: u32)
    ensures InStep(Joined(Turns(STARTING, before)), user, {})
  {
    hide UserMachine;
    TurnsKeepFiling(STARTING, before);
    ListeningStarts(Joined(Turns(STARTING, before)), user);
  }

  /** What a daemon that joined holds is all the announced captures exactly when each was started since. */
  lemma HoldsEverythingIff(candidates: map<CandidateKey, Candidate>, user: u32, heard: set<CandidateKey>)
    requires WellFiled(candidates)
    ensures AnnouncedKeys(candidates, user, heard) == AnnouncedKeys(candidates, user, candidates.Keys) <==>
            forall k | AnnouncedFor(candidates, user, candidates.Keys, k) :: k in heard
  {
    hide Announced, WellFiled, CaptureKeyOf, AnnouncedKeys;
    if AnnouncedKeys(candidates, user, heard) == AnnouncedKeys(candidates, user, candidates.Keys) {
      forall k | AnnouncedFor(candidates, user, candidates.Keys, k) ensures k in heard {
        AllAnnounced(candidates, user, heard, k);
        AllAnnounced(candidates, user, candidates.Keys, k);
      }
    } else if forall k | AnnouncedFor(candidates, user, candidates.Keys, k) :: k in heard {
      SameAnnounced(candidates, user, heard);
    }
  }

  lemma SameAnnounced(candidates: map<CandidateKey, Candidate>, user: u32, heard: set<CandidateKey>)
    requires forall k | AnnouncedFor(candidates, user, candidates.Keys, k) :: k in heard
    ensures AnnouncedKeys(candidates, user, heard) == AnnouncedKeys(candidates, user, candidates.Keys)
  {
    hide Announced, CaptureKeyOf;
    forall k ensures AnnouncedFor(candidates, user, heard, k) <==> AnnouncedFor(candidates, user, candidates.Keys, k) {}
  }

  lemma {:induction false} EverythingIsHeard(ticks: seq<Tick>)
    ensures Turns(STARTING, ticks).candidates.Keys <= HeardAll(ticks)
  {
    hide Turn, Heard;
    if ticks != [] {
      EverythingIsHeard(ticks[..|ticks| - 1]);
      NewCandidatesAreHeard(Turns(STARTING, ticks[..|ticks| - 1]), ticks[|ticks| - 1], HeardAll(ticks[..|ticks| - 1]));
    }
  }

  lemma NewCandidatesAreHeard(o: Observer, tick: Tick, heard: set<CandidateKey>)
    requires o.candidates.Keys <= heard
    ensures Turn(o, tick).candidates.Keys <= Heard(heard, tick)
  {
    hide DropOne, Drop, CandidateListing, BuildCandidate;
    match tick
    case DeviceCheck(missing) =>
      CandidateListingIsDistinct(WithMissingDevice(o.candidates, missing));
      DropMoves(o, 0, CandidateListing(WithMissingDevice(o.candidates, missing)), DeviceRemoved,
        SaturatingAdd64(o.lastTimestamp, 1), 0);
    case Kernel(raw, lookup) =>
      var o' := o.(lastTimestamp := if raw.timestamp > o.lastTimestamp then raw.timestamp else o.lastTimestamp);
      match raw.operation
      case StreamOn => StartMoves(o', raw, lookup, 0);
      case StreamOff => DropOneFiles(o', KeyFor(raw), StreamStopped, raw.timestamp, raw.result);
      case Closed => DropOneFiles(o', KeyFor(raw), DeviceClosed, raw.timestamp, raw.result);
      case Exited =>
        CandidateListingIsDistinct(OfProcessGroup(o'.candidates, raw));
        DropMoves(o', 0, CandidateListing(OfProcessGroup(o'.candidates, raw)), ProcessExited, raw.timestamp,
          raw.result);
  }

  /** The captures the observer tracks for a user. */
  ghost function Tracked(candidates: map<CandidateKey, Candidate>, user: u32): set<CaptureKey> {
    AnnouncedKeys(candidates, user, candidates.Keys)
  }

  /** A daemon that listens from the start holds exactly the captures the observer tracks for its user, after
      every turn of a lawful run with increasing kernel timestamps. */
  lemma AgreementOverRun(ticks: seq<Tick>, user: u32)
    requires LawfulRun(ticks) && TimestampsIncrease(ticks) && ResultsAreZero(ticks)
    ensures UserMachine(Turns(STARTING, ticks), user).active.Keys == Tracked(Turns(STARTING, ticks).candidates, user)
  {
    hide Turns, UserMachine, LawfulRun, TimestampsIncrease, ResultsAreZero, WellFiled, AnnouncedFor, AnnouncedKeys;
    assert [] + ticks == ticks;
    AgreementSince([], ticks, user);
    NoTurns();
    EverythingIsHeard(ticks);
    TrackedIsHeard(Turns(STARTING, ticks).candidates, user, HeardAll(ticks));
  }

  lemma NoTurns()
    ensures Joined(Turns(STARTING, [])) == STARTING
  {
  }

  lemma TrackedIsHeard(candidates: map<CandidateKey, Candidate>, user: u32, heard: set<CandidateKey>)
    requires candidates.Keys <= heard
    ensures AnnouncedKeys(candidates, user, heard) == Tracked(candidates, user)
  {
    hide Announced, CaptureKeyOf;
    SameAnnounced(candidates, user, heard);
  }

  // ----- Since when a session is active -----

  lemma EndingKeepsEntries(m: Machine, c: Candidate, operation: CaptureOperation, timestamp: u64, result: i64)
    requires Ending(operation)
    ensures var m' := Observe(m, EventFor(c, operation, timestamp, result)).machine;
            forall x | x in m'.active :: x in m.active && m'.active[x] == m.active[x]
  {
    hide Validate, KeyListing, Fates;
  }

  ghost predicate OnlyEnds(m: Machine, m': Machine) {
    forall x | x in m'.active :: x in m.active && m'.active[x] == m.active[x]
  }

  lemma DropOneKeepsEntries(o: Observer, k: CandidateKey, operation: CaptureOperation, timestamp: u64, result: i64,
      user: u32)
    requires Ending(operation)
    ensures OnlyEnds(UserMachine(o, user), UserMachine(DropOne(o, k, operation, timestamp, result), user))
  {
    hide Validate, EventFor, Observe, UserMachine;
    var o' := DropOne(o, k, operation, timestamp, result);
    if o'.sent != o.sent {
      SendMoves(o, o', o'.sent[|o.sent|], user);
      EndingKeepsEntries(UserMachine(o, user), o.candidates[k], operation, timestamp, result);
    } else {
      SameSent(o, o', user);
    }
  }

  lemma {:induction false} DropKeepsEntries(o: Observer, keys: seq<CandidateKey>, operation: CaptureOperation,
      timestamp: u64, result: i64, user: u32)
    requires Ending(operation)
    ensures OnlyEnds(UserMachine(o, user), UserMachine(Drop(o, keys, operation, timestamp, result), user))
  {
    hide DropOne, UserMachine;
    if keys != [] {
      var n := |keys| - 1;
      DropKeepsEntries(o, keys[..n], operation, timestamp, result, user);
      DropOneKeepsEntries(Drop(o, keys[..n], operation, timestamp, result), keys[n], operation, timestamp, result,
        user);
    }
  }

  /** The session is the one a kernel start opens: its process, descriptor and time are the event's, its device the one
      looked up. */
  predicate OpensAs(tick: Tick, s: CameraSession) {
    && tick.Kernel? && tick.raw.operation.StreamOn? && tick.lookup.startTicks.Some? && tick.lookup.device.Some?
    && s.startedAt == tick.raw.timestamp && s.application.pid == Some(tick.raw.processId)
    && s.application.displayName == "Unknown application" && s.application.appId.None? && s.application.binary.None?
    && s.threadGroupId == tick.raw.threadGroupId && s.fileDescriptor == tick.raw.fileDescriptor
    && s.startTicks == tick.lookup.startTicks.value && s.state == SessionState.Active
    && s.device.id == NodeText(tick.lookup.device.value.major, tick.lookup.device.value.minor)
    && s.device.nodeName == tick.lookup.device.value.udevSyspath
    && s.device.displayName == (if tick.lookup.device.value.displayName.Some?
                                then tick.lookup.device.value.displayName.value else "Unknown camera")
  }

  lemma OpensWhenLastObserved(tick: Tick, s: CameraSession, s': CameraSession)
    requires OpensAs(tick, s) && AsStarted(s') == AsStarted(s)
    ensures OpensAs(tick, s')
  {
    hide NodeText;
  }

  /** The turn is a start of the capture `x` by the user, which opens the session. */
  ghost predicate StartsCapture(tick: Tick, user: u32, x: CaptureKey, s: CameraSession) {
    OpensAs(tick, s) && tick.raw.userId == user &&
    BuildCandidate(tick.raw, tick.lookup).Some? && CaptureKeyOf(BuildCandidate(tick.raw, tick.lookup).value) == x
  }

  /** Entries keep their session as it started, and a new one is the session of the start that opens it. */
  ghost predicate TimesKept(m: Machine, m': Machine, tick: Tick, user: u32) {
    forall x | x in m'.active ::
      if x in m.active then AsStarted(m'.active[x]) == AsStarted(m.active[x])
      else StartsCapture(tick, user, x, m'.active[x])
  }

  lemma StartingKeepsTimes(m: Machine, c: Candidate, timestamp: u64, result: i64)
    ensures var e := EventFor(c, StreamStarted, timestamp, result);
            var m' := Observe(m, e).machine;
            forall x | x in m'.active ::
              if x in m.active then AsStarted(m'.active[x]) == AsStarted(m.active[x])
              else x == CaptureKeyOf(c) && m'.active[x] == NewSession(e)
  {
    hide Validate, SessionText, NodeText;
  }

  lemma BuiltOpens(raw: KernelEvent, lookup: Lookup)
    requires raw.operation == StreamOn && BuildCandidate(raw, lookup).Some?
    ensures OpensAs(Kernel(raw, lookup),
              NewSession(EventFor(BuildCandidate(raw, lookup).value, StreamStarted, raw.timestamp, raw.result)))
  {
    hide SessionText, NodeText;
  }

  lemma StartTimes(o: Observer, raw: KernelEvent, lookup: Lookup, user: u32)
    requires raw.operation == StreamOn
    ensures TimesKept(UserMachine(o, user), UserMachine(Handle(o, raw, lookup), user), Kernel(raw, lookup), user)
  {
    hide Validate, EventFor, Observe, UserMachine, BuildCandidate, OpensAs, NewSession, AsStarted;
    var o' := Handle(o, raw, lookup);
    if o'.sent != o.sent {
      SendMoves(o, o', o'.sent[|o.sent|], user);
      if BuildCandidate(raw, lookup).Some? {
        StartingKeepsTimes(UserMachine(o, user), BuildCandidate(raw, lookup).value, raw.timestamp, raw.result);
        BuiltOpens(raw, lookup);
      }
    } else {
      SameSent(o, o', user);
    }
  }

  lemma TurnKeepsTimes(o: Observer, tick: Tick, user: u32)
    ensures TimesKept(UserMachine(o, user), UserMachine(Turn(o, tick), user), tick, user)
  {
    hide UserMachine, DropOne, Drop, CandidateListing, BuildCandidate, StartsCapture, AsStarted;
    match tick
    case DeviceCheck(missing) =>
      DropKeepsEntries(o, CandidateListing(WithMissingDevice(o.candidates, missing)), DeviceRemoved,
        SaturatingAdd64(o.lastTimestamp, 1), 0, user);
    case Kernel(raw, lookup) =>
      var o' := o.(lastTimestamp := if raw.timestamp > o.lastTimestamp then raw.timestamp else o.lastTimestamp);
      SameSent(o, o', user);
      match raw.operation
      case StreamOn => StartTimes(o', raw, lookup, user);
      case StreamOff => DropOneKeepsEntries(o', KeyFor(raw), StreamStopped, raw.timestamp, raw.result, user);
      case Closed => DropOneKeepsEntries(o', KeyFor(raw), DeviceClosed, raw.timestamp, raw.result, user);
      case Exited =>
        DropKeepsEntries(o', CandidateListing(OfProcessGroup(o'.candidates, raw)), ProcessExited, raw.timestamp,
          raw.result, user);
  }

  lemma TurnKeepsCandidate(o: Observer, tick: Tick, k: CandidateKey)
    requires k in Turn(o, tick).candidates
    ensures var c := Turn(o, tick).candidates[k];
            || (tick.Kernel? && tick.raw.operation == StreamOn && KeyFor(tick.raw) == k &&
                BuildCandidate(tick.raw, tick.lookup) == Some(c))
            || (k in o.candidates && o.candidates[k] == c)
  {
    hide DropOne, Drop, CandidateListing, BuildCandidate, UserMachine;
    match tick
    case DeviceCheck(missing) =>
      CandidateListingIsDistinct(WithMissingDevice(o.candidates, missing));
      DropMoves(o, 0, CandidateListing(WithMissingDevice(o.candidates, missing)), DeviceRemoved,
        SaturatingAdd64(o.lastTimestamp, 1), 0);
    case Kernel(raw, lookup) =>
      var o' := o.(lastTimestamp := if raw.timestamp > o.lastTimestamp then raw.timestamp else o.lastTimestamp);
      match raw.operation
      case StreamOn => StartMoves(o', raw, lookup, 0);
      case StreamOff => DropOneFiles(o', KeyFor(raw), StreamStopped, raw.timestamp, raw.result);
      case Closed => DropOneFiles(o', KeyFor(raw), DeviceClosed, raw.timestamp, raw.result);
      case Exited =>
        CandidateListingIsDistinct(OfProcessGroup(o'.candidates, raw));
        DropMoves(o', 0, CandidateListing(OfProcessGroup(o'.candidates, raw)), ProcessExited, raw.timestamp,
          raw.result);
  }

  /** The observer at some point of what a daemon that joined after `before` hears. */
  ghost function ObserverAt(before: seq<Tick>, after: seq<Tick>): Observer {
    Turns(Joined(Turns(STARTING, before)), after)
  }

  ghost predicate AnnouncedAt(before: seq<Tick>, after: seq<Tick>, user: u32, k: CandidateKey) {
    AnnouncedFor(ObserverAt(before, after).candidates, user, HeardAll(after), k)
  }

  /** The turn at `i` starts the capture and opens the session; it was not announced before, and has been ever since. */
  ghost predicate AnnouncedSince(before: seq<Tick>, after: seq<Tick>, user: u32, k: CandidateKey, i: int,
      s: CameraSession)
  {
    && 0 <= i < |after|
    && OpensAs(after[i], s) && KeyFor(after[i].raw) == k
    && !AnnouncedAt(before, after[..i], user, k)
    && forall j | i < j <= |after| :: AnnouncedAt(before, after[..j], user, k)
  }

  /** A capture held for a process and descriptor is that of the candidate filed under them. */
  lemma OnlyOwnCapture(o: Observer, user: u32, heard: set<CandidateKey>, k: CandidateKey, x: CaptureKey)
    requires InStep(o, user, heard) && x in UserMachine(o, user).active
    requires k.userId == user && x.threadGroupId == k.threadGroupId && x.fileDescriptor == k.fileDescriptor
    ensures AnnouncedFor(o.candidates, user, heard, k)
  {
    hide UserMachine, Announced;
    var k' :| k' in o.candidates && AnnouncedFor(o.candidates, user, heard, k') && CaptureKeyOf(o.candidates[k']) == x;
    var c := o.candidates[k'];
    assert c.threadGroupId == k'.threadGroupId && c.fileDescriptor == k'.fileDescriptor;
    assert k' == CandidateKey(user, x.threadGroupId, x.fileDescriptor) == k;
  }

  lemma NewlyAnnounced(before: seq<Tick>, after: seq<Tick>, user: u32, k: CandidateKey)
    requires after != []
    requires var o, p := ObserverAt(before, after), after[..|after| - 1];
             var heard, m, m' := HeardAll(p), UserMachine(ObserverAt(before, p), user), UserMachine(o, user);
             && InStep(ObserverAt(before, p), user, heard) && InStep(o, user, HeardAll(after))
             && TimesKept(m, m', after[|after| - 1], user)
    requires AnnouncedAt(before, after, user, k) && !AnnouncedAt(before, after[..|after| - 1], user, k)
    ensures var o := ObserverAt(before, after);
            var x := CaptureKeyOf(o.candidates[k]);
            x in UserMachine(o, user).active &&
            AnnouncedSince(before, after, user, k, |after| - 1, UserMachine(o, user).active[x])
  {
    hide UserMachine, Announced, Turns, HeardAll, BuildCandidate, AsStarted;
    var n := |after| - 1;
    var o, o' := ObserverAt(before, after[..n]), ObserverAt(before, after);
    var x := CaptureKeyOf(o'.candidates[k]);
    assert x in AnnouncedKeys(o'.candidates, user, HeardAll(after));
    if x in UserMachine(o, user).active { OnlyOwnCapture(o, user, HeardAll(after[..n]), k, x); }
    BuiltIsFiled(after[n].raw, after[n].lookup);
    assert KeyFor(after[n].raw) == k;
    assert after[..|after|] == after;
  }

  lemma StillAnnounced(before: seq<Tick>, after: seq<Tick>, user: u32, k: CandidateKey, i: int, s: CameraSession,
      s': CameraSession)
    requires after != [] && AnnouncedSince(before, after[..|after| - 1], user, k, i, s)
    requires AnnouncedAt(before, after, user, k) && AsStarted(s') == AsStarted(s)
    ensures AnnouncedSince(before, after, user, k, i, s')
  {
    hide AnnouncedAt, OpensAs, AsStarted;
    OpensWhenLastObserved(after[i], s, s');
    var p := after[..|after| - 1];
    assert forall j | 0 <= j <= |p| :: p[..j] == after[..j];
    assert after[..|after|] == after;
  }

  /** The session of a capture is the one the kernel start opened since which it has been announced. */
  lemma {:induction false} SessionsStartWhenAnnounced(before: seq<Tick>, after: seq<Tick>, user: u32, k: CandidateKey)
    requires LawfulRun(before + after) && TimestampsIncrease(before + after) && ResultsAreZero(before + after)
    requires AnnouncedAt(before, after, user, k)
    ensures var o := ObserverAt(before, after);
            var x, m := CaptureKeyOf(o.candidates[k]), UserMachine(o, user);
            x in m.active && exists i :: AnnouncedSince(before, after, user, k, i, m.active[x])
  {
    hide Turn, Lawful, LawfulRun, TimestampsIncrease, ResultsAreZero, UserMachine, Heard, WellFiled, Announced,
      BuildCandidate, AnnouncedSince, TimesKept, InStep, AnnouncedKeys, AsStarted;
    var n := |after| - 1;
    if after != [] {
      var p, o, o' := after[..n], ObserverAt(before, after[..n]), ObserverAt(before, after);
      AgreementSince(before, after, user);
      assert (before + after)[..|before + after| - 1] == before + p;
      LastTurnIsLawful(before + after);
      AgreementSince(before, p, user);
      TurnKeepsTimes(o, after[n], user);
      if AnnouncedAt(before, p, user, k) {
        SessionsStartWhenAnnounced(before, p, user, k);
        JoiningMissesThePast(before, p);
        SameCapture(o, after[n], k);
        HeldEntry(o', user, HeardAll(after), k);
        HeldTime(UserMachine(o, user), UserMachine(o', user), after[n], user, CaptureKeyOf(o'.candidates[k]));
        var m := UserMachine(o, user);
        var x := CaptureKeyOf(o.candidates[k]);
        var i :| AnnouncedSince(before, p, user, k, i, m.active[x]);
        StillAnnounced(before, after, user, k, i, m.active[x], UserMachine(o', user).active[x]);
      } else {
        NewlyAnnounced(before, after, user, k);
      }
    }
  }

  lemma SameCapture(o: Observer, tick: Tick, k: CandidateKey)
    requires Lawful(o.candidates, tick) && k in o.candidates && k in Turn(o, tick).candidates
    ensures CaptureKeyOf(Turn(o, tick).candidates[k]) == CaptureKeyOf(o.candidates[k])
  {
    hide Turn, BuildCandidate, Announced;
    TurnKeepsCandidate(o, tick, k);
  }

  lemma HeldEntry(o: Observer, user: u32, heard: set<CandidateKey>, k: CandidateKey)
    requires InStep(o, user, heard) && AnnouncedFor(o.candidates, user, heard, k)
    ensures CaptureKeyOf(o.candidates[k]) in UserMachine(o, user).active
  {
    hide UserMachine, Announced;
  }

  lemma HeldTime(m: Machine, m': Machine, tick: Tick, user: u32, x: CaptureKey)
    requires TimesKept(m, m', tick, user) && x in m.active && x in m'.active
    ensures AsStarted(m'.active[x]) == AsStarted(m.active[x])
  {
    hide AsStarted;
  }

  // ----- Runs that lose agreement -----

  /** A camera with nothing but a device number and a short syspath. */
  function Camera(minor: u32, syspath: string): PhysicalCamera {
    PhysicalCamera(81, minor, Some(syspath), None, None, None, None, None, None, None, None)
  }

  /** A direct capture of process 7 by user 1000. */
  function Event(timestamp: u64, fd: i32, operation: KernelOperation, camera: PhysicalCamera): Tick {
    Kernel(KernelEvent(timestamp, 7, 7, 1000, fd, operation, 0), Lookup(Some(5), Some(camera), Direct))
  }

  /** Two streams start, and the stop of the first is handled although it is older than the second start. */
  const LATE_STOP := [
    Event(1, 3, StreamOn, Camera(0, "a")), Event(3, 4, StreamOn, Camera(1, "b")),
    Event(2, 3, StreamOff, Camera(0, "a"))]

  /** A second camera is plugged in under the device number of a first one whose removal is yet to be noticed. */
  const REPLUG := [
    Event(1, 3, StreamOn, Camera(0, "a")), Event(2, 4, StreamOn, Camera(0, "b")), DeviceCheck({"a"})]

  lemma {:induction false} ShortFieldsFit(fields: seq<Option<string>>)
    requires forall f | f in fields && f.Some? :: |f.value| == 1
    ensures AllFit(fields)
  {
    if fields != [] {
      ShortFieldsFit(fields[1..]);
      if fields[0].Some? {
        assert fields[0].value[1..] == [];
      }
    }
  }

  lemma CameraIsAnnounced(fd: i32, camera: PhysicalCamera)
    requires fd >= 0 && forall f | f in camera.TextFields() && f.Some? :: |f.value| == 1
    ensures Announced(Candidate(7, 7, 5, fd, camera, Direct))
    ensures Publishes(Candidate(7, 7, 5, fd, camera, Direct), DeviceRemoved, 0)
  {
    hide AllFit;
    ShortFieldsFit(camera.TextFields());
  }

  lemma FirstStarts(second: Tick, third: Tick)
    ensures Turns(STARTING, [second]) == Turn(STARTING, second)
    ensures Turns(STARTING, [second, third]) == Turn(Turn(STARTING, second), third)
  {
    hide Turn;
    assert [second][..0] == [] && [second, third][..1] == [second];
    assert Turns(STARTING, []) == STARTING;
  }

  /** Both of the runs above begin with two announced starts. */
  lemma TwoStarts(t: u64, a: PhysicalCamera, b: PhysicalCamera)
    requires 1 < t && forall f | f in a.TextFields() + b.TextFields() && f.Some? :: |f.value| == 1
    ensures var first, second := Event(1, 3, StreamOn, a), Event(t, 4, StreamOn, b);
            var o := Turns(STARTING, [first, second]);
            && o.candidates == map[CandidateKey(1000, 7, 3) := Candidate(7, 7, 5, 3, a, Direct),
                                   CandidateKey(1000, 7, 4) := Candidate(7, 7, 5, 4, b, Direct)]
            && Agrees(o, 1000, o.candidates.Keys) && UserMachine(o, 1000).last == t == o.lastTimestamp
            && WellFiled(o.candidates)
            && AnnouncedFor(o.candidates, 1000, o.candidates.Keys, CandidateKey(1000, 7, 3))
            && AnnouncedFor(o.candidates, 1000, o.candidates.Keys, CandidateKey(1000, 7, 4))
            && Turns(STARTING, [first]).candidates == map[CandidateKey(1000, 7, 3) := Candidate(7, 7, 5, 3, a, Direct)]
  {
    hide Turn, Turns, UserMachine, Announced, Publishes, AnnouncedKeys;
    var first, second := Event(1, 3, StreamOn, a), Event(t, 4, StreamOn, b);
    forall f | f in a.TextFields() ensures f in a.TextFields() + b.TextFields() {}
    forall f | f in b.TextFields() ensures f in a.TextFields() + b.TextFields() {}
    CameraIsAnnounced(3, a);
    CameraIsAnnounced(4, b);
    FirstStarts(first, second);
    ListeningStarts(STARTING, 1000);
    NothingTracked();
    var k, k' := CandidateKey(1000, 7, 3), CandidateKey(1000, 7, 4);
    OneStart(STARTING, 1, 3, a, {});
    assert {} + {k} == {k};
    OneStart(Turn(STARTING, first), t, 4, b, {k});
    assert Turns(STARTING, [first, second]).candidates.Keys == {k} + {k'};
  }

  lemma NothingTracked()
    ensures Agrees(STARTING, 1000, {})
  {
    ListeningStarts(STARTING, 1000);
  }

  lemma OneStart(o: Observer, t: u64, fd: i32, camera: PhysicalCamera, heard: set<CandidateKey>)
    requires WellFiled(o.candidates) && Agrees(o, 1000, heard) && CandidateKey(1000, 7, fd) !in o.candidates
    requires UserMachine(o, 1000).last <= t && o.lastTimestamp <= t
    requires Announced(Candidate(7, 7, 5, fd, camera, Direct))
    ensures var o', k := Turn(o, Event(t, fd, StreamOn, camera)), CandidateKey(1000, 7, fd);
            && o'.candidates == o.candidates[k := Candidate(7, 7, 5, fd, camera, Direct)]
            && WellFiled(o'.candidates) && Agrees(o', 1000, heard + {k})
            && UserMachine(o', 1000).last == t == o'.lastTimestamp
  {
    hide UserMachine, Announced, AnnouncedKeys, Handle, Agrees;
    var tick := Event(t, fd, StreamOn, camera);
    var o1 := o.(lastTimestamp := t);
    SameSent(o, o1, 1000);
    StartMoves(o1, tick.raw, tick.lookup, 1000);
    HandleKeepsTimestamp(o1, tick.raw, tick.lookup);
    TurnAgreesIff(o, tick, 1000, heard);
    TurnKeepsFiling(o, tick);
  }

  lemma LateStopIsLawful()
    ensures LawfulRun(LATE_STOP) && ResultsAreZero(LATE_STOP)
  {
    hide Turn, Turns, Announced, BuildCandidate;
    TwoStarts(3, Camera(0, "a"), Camera(1, "b"));
    assert LATE_STOP[..1] == [LATE_STOP[0]] && LATE_STOP[..2] == [LATE_STOP[0], LATE_STOP[1]];
    LateTurn(LATE_STOP);
    forall i | 0 <= i < 3 ensures Lawful(Turns(STARTING, LATE_STOP[..i]).candidates, LATE_STOP[i]) {
      assert i == 0 || i == 1 || i == 2;
    }
  }

  /** A stop that arrives late is lost, and its capture stays active. */
  lemma LateStopIsLost()
    ensures LawfulRun(LATE_STOP) && ResultsAreZero(LATE_STOP)
    ensures UserMachine(Turns(STARTING, LATE_STOP), 1000).active.Keys !=
            Tracked(Turns(STARTING, LATE_STOP).candidates, 1000)
  {
    hide Turn, Turns, UserMachine, AnnouncedFor, Tracked, LawfulRun, ResultsAreZero, Fits, WellFiled, Agrees;
    LateStopIsLawful();
    TwoStarts(3, Camera(0, "a"), Camera(1, "b"));
    assert LATE_STOP[..2] == [LATE_STOP[0], LATE_STOP[1]];
    LateTurn(LATE_STOP);
    var o := Turns(STARTING, LATE_STOP[..2]);
    StaleStopIsUnfit(o, LATE_STOP[2]);
    Unfit(o, LATE_STOP[2]);
  }

  lemma StaleStopIsUnfit(o: Observer, tick: Tick)
    requires tick.Kernel? && tick.raw.operation == StreamOff && tick.raw.userId == 1000
    requires AnnouncedFor(o.candidates, 1000, o.candidates.Keys, KeyFor(tick.raw))
    requires tick.raw.timestamp < UserMachine(o, 1000).last
    ensures !Fits(o, tick, 1000, o.candidates.Keys)
  {
    hide UserMachine, Announced;
  }

  lemma Unfit(o: Observer, tick: Tick)
    requires WellFiled(o.candidates) && Agrees(o, 1000, o.candidates.Keys) && !Fits(o, tick, 1000, o.candidates.Keys)
    requires tick.DeviceCheck? || tick.raw.operation == StreamOff
    ensures UserMachine(Turn(o, tick), 1000).active.Keys != Tracked(Turn(o, tick).candidates, 1000)
  {
    hide Turn, UserMachine, AnnouncedKeys, Fits;
    TurnAgreesIff(o, tick, 1000, o.candidates.Keys);
    StopKeepsLess(o, tick);
    TrackedIsHeard(Turn(o, tick).candidates, 1000, o.candidates.Keys);
  }

  lemma LateTurn(ticks: seq<Tick>)
    requires |ticks| == 3
    ensures Turns(STARTING, ticks) == Turn(Turns(STARTING, ticks[..2]), ticks[2])
    ensures Turns(STARTING, ticks[..0]) == STARTING
  {
    hide Turn;
    assert ticks[..|ticks| - 1] == ticks[..2];
  }

  lemma StopKeepsLess(o: Observer, tick: Tick)
    requires tick.DeviceCheck? || tick.raw.operation == StreamOff
    ensures Turn(o, tick).candidates.Keys <= o.candidates.Keys
  {
    hide Drop, CandidateListing, Publish;
    match tick
    case DeviceCheck(missing) =>
      CandidateListingIsDistinct(WithMissingDevice(o.candidates, missing));
      DropMoves(o, 0, CandidateListing(WithMissingDevice(o.candidates, missing)), DeviceRemoved,
        SaturatingAdd64(o.lastTimestamp, 1), 0);
    case Kernel(raw, _) =>
      DropOneFiles(o.(lastTimestamp := if raw.timestamp > o.lastTimestamp then raw.timestamp else o.lastTimestamp),
        KeyFor(raw), StreamStopped, raw.timestamp, raw.result);
  }

  /** The removal of the first camera also ends the live session of the second. */
  lemma ReplugEndsLiveSession()
    ensures TimestampsIncrease(REPLUG) && ResultsAreZero(REPLUG)
    ensures UserMachine(Turns(STARTING, REPLUG), 1000).active.Keys != Tracked(Turns(STARTING, REPLUG).candidates, 1000)
  {
    hide Turn, Turns, UserMachine, Announced, Publishes, AnnouncedKeys;
    var a, b := Camera(0, "a"), Camera(0, "b");
    TwoStarts(2, a, b);
    CameraIsAnnounced(3, a);
    assert REPLUG[..2] == [REPLUG[0], REPLUG[1]];
    LateTurn(REPLUG);
    var o := Turns(STARTING, REPLUG[..2]);
    assert CandidateKey(1000, 7, 3) in WithMissingDevice(o.candidates, {"a"});
    assert CandidateKey(1000, 7, 4) !in WithMissingDevice(o.candidates, {"a"}) by {
      assert "a"[0] != "b"[0];
    }
    assert !Fits(o, REPLUG[2], 1000, o.candidates.Keys);
    Unfit(o, REPLUG[2]);
  }

  /** A descriptor is closed unseen and reused for another camera. */
  const REUSE := [Event(1, 3, StreamOn, Camera(0, "a")), Event(2, 3, StreamOn, Camera(1, "b"))]

  /** The capture that a changed restart replaces stays active. */
  lemma ReuseLeavesOldCapture()
    ensures TimestampsIncrease(REUSE) && ResultsAreZero(REUSE)
    ensures UserMachine(Turns(STARTING, REUSE), 1000).active.Keys != Tracked(Turns(STARTING, REUSE).candidates, 1000)
  {
    hide Turn, Turns, UserMachine, Announced, AnnouncedKeys, Fits;
    var k := CandidateKey(1000, 7, 3);
    FirstStarts(REUSE[0], REUSE[1]);
    ListeningStarts(STARTING, 1000);
    NothingTracked();
    CameraIsAnnounced(3, Camera(0, "a"));
    OneStart(STARTING, 1, 3, Camera(0, "a"), {});
    assert {} + {k} == {k};
    var o := Turn(STARTING, REUSE[0]);
    ReuseIsUnfit(o, REUSE[1], {k});
    TurnAgreesIff(o, REUSE[1], 1000, {k});
    NewCandidatesAreHeard(o, REUSE[1], {k});
    assert Heard({k}, REUSE[1]) == {k};
    TrackedIsHeard(Turn(o, REUSE[1]).candidates, 1000, {k});
    assert REUSE == [REUSE[0], REUSE[1]];
  }

  lemma ReuseIsUnfit(o: Observer, tick: Tick, heard: set<CandidateKey>)
    requires tick.Kernel? && tick.raw.operation == StreamOn && tick.raw.userId == 1000
    requires AnnouncedFor(o.candidates, 1000, heard, KeyFor(tick.raw)) && BuildCandidate(tick.raw, tick.lookup).Some?
    requires CaptureKeyOf(BuildCandidate(tick.raw, tick.lookup).value) != CaptureKeyOf(o.candidates[KeyFor(tick.raw)])
    ensures !Fits(o, tick, 1000, heard)
  {
    hide UserMachine, Announced;
  }

  /** A daemon that connects while a stream is running is not told of it. */
  lemma ReconnectMissesRunningCapture()
    ensures var before := [Event(1, 3, StreamOn, Camera(0, "a"))];
            var o := Turns(STARTING, before);
            && LawfulRun(before) && TimestampsIncrease(before) && ResultsAreZero(before)
            && UserMachine(Joined(o), 1000).active.Keys == {}
            && Tracked(o.candidates, 1000) != {}
  {
    hide Turn, Turns, UserMachine, Announced, AnnouncedKeys, BuildCandidate;
    var first, k := Event(1, 3, StreamOn, Camera(0, "a")), CandidateKey(1000, 7, 3);
    FirstStarts(first, first);
    NoTurns();
    assert [first][..0] == [];
    ListeningStarts(STARTING, 1000);
    NothingTracked();
    CameraIsAnnounced(3, Camera(0, "a"));
    OneStart(STARTING, 1, 3, Camera(0, "a"), {});
    var o := Turns(STARTING, [first]);
    ListeningStarts(Joined(o), 1000);
    AllAnnounced(o.candidates, 1000, o.candidates.Keys, k);
  }
}
