/** Agreement of a user's session machine with the observer's candidates, turn by turn. */
module Agreement {
  import opened Prelude
  import opened Orders
  import opened Capture
  import opened SessionMachine
  import opened ObserverSource
  import opened KernelEvents

  // ----- What a user's daemon rebuilds from the messages sent to it -----

  ghost function Delivered(sent: seq<Routed>, user: u32): seq<ObserverMessage> {
    if sent == [] then []
    else
      var last := sent[|sent| - 1];
      Delivered(sent[..|sent| - 1], user) + if last.userId == user then [last.message] else []
  }

  ghost function MachineAfter(messages: seq<ObserverMessage>): Machine {
    if messages == [] then INITIAL else Translate(MachineAfter(messages[..|messages| - 1]), messages[|messages| - 1]).0
  }

  ghost function UserMachine(o: Observer, user: u32): Machine {
    MachineAfter(Delivered(o.sent, user))
  }

  lemma SendMoves(o: Observer, o': Observer, r: Routed, user: u32)
    requires o'.sent == o.sent + [r]
    ensures UserMachine(o', user) ==
            if r.userId == user then Translate(UserMachine(o, user), r.message).0 else UserMachine(o, user)
  {
    hide Translate;
    assert o'.sent[..|o.sent|] == o.sent;
    var before := Delivered(o.sent, user);
    assert (before + [r.message])[..|before|] == before;
    assert before + [] == before;
  }

  lemma SameSent(o: Observer, o': Observer, user: u32)
    requires o.sent == o'.sent
    ensures UserMachine(o, user) == UserMachine(o', user)
  {
  }

  // ----- Which captures a candidate announces and ends -----

  function CaptureKeyOf(c: Candidate): CaptureKey {
    CaptureKey(c.threadGroupId, c.startTicks, c.fileDescriptor, c.device.major, c.device.minor)
  }

  predicate Ending(operation: CaptureOperation) {
    operation in {StreamStopped, DeviceClosed, ProcessExited, DeviceRemoved}
  }

  /** Whether an event for the candidate leaves the observer as a capture event. */
  predicate Publishes(c: Candidate, operation: CaptureOperation, result: i64) {
    c.owner == Direct && IsValid(EventFor(c, operation, 0, result))
  }

  /** A candidate whose successful start is announced. */
  predicate Announced(c: Candidate) {
    Publishes(c, StreamStarted, 0)
  }

  /** Which active captures an event for the candidate ends. */
  predicate Ends(c: Candidate, operation: CaptureOperation, x: CaptureKey) {
    match operation
    case StreamStopped | DeviceClosed => x == CaptureKeyOf(c)
    case ProcessExited => x.threadGroupId == c.threadGroupId && x.startTicks == c.startTicks
    case DeviceRemoved => x.major == c.device.major && x.minor == c.device.minor
    case _ => false
  }

  /** Publication depends neither on time nor, beyond success, on the result; an announced candidate's ending
      is published too. */
  lemma Publication(c: Candidate, operation: CaptureOperation, timestamp: u64, result: i64)
    requires Ending(operation) || operation == StreamStarted
    ensures c.owner == Direct ==>
              (IsValid(EventFor(c, operation, timestamp, result)) <==> Publishes(c, operation, result))
    ensures Publishes(c, operation, result) <==> Publishes(c, operation, 0) && ConfirmedResult(operation, result)
    ensures Announced(c) ==> Publishes(c, operation, 0)
  {
    hide AllFit;
  }

  lemma EndingEvent(m: Machine, c: Candidate, operation: CaptureOperation, timestamp: u64, result: i64)
    requires Ending(operation) && IsValid(EventFor(c, operation, timestamp, result))
    ensures var m' := Observe(m, EventFor(c, operation, timestamp, result)).machine;
            if timestamp < m.last then m' == m
            else m'.last == timestamp && forall x :: x in m'.active <==> x in m.active && !Ends(c, operation, x)
  {
    hide Validate, KeyListing, Fates;
  }

  lemma StartingEvent(m: Machine, c: Candidate, timestamp: u64, result: i64)
    requires IsValid(EventFor(c, StreamStarted, timestamp, result))
    ensures var m' := Observe(m, EventFor(c, StreamStarted, timestamp, result)).machine;
            if timestamp < m.last then m' == m
            else m'.last == timestamp && m'.active.Keys == m.active.Keys + {CaptureKeyOf(c)}
  {
    hide Validate, NewSession;
  }

  // ----- Agreement -----

  /** Candidates of the user that are announced, among those in `heard`: the ones started while the daemon
      was listening. */
  predicate AnnouncedFor(candidates: map<CandidateKey, Candidate>, user: u32, heard: set<CandidateKey>,
      k: CandidateKey)
  {
    k in candidates && k.userId == user && k in heard && Announced(candidates[k])
  }

  ghost function AnnouncedKeys(candidates: map<CandidateKey, Candidate>, user: u32, heard: set<CandidateKey>)
    : set<CaptureKey>
  {
    set k | k in candidates && AnnouncedFor(candidates, user, heard, k) :: CaptureKeyOf(candidates[k])
  }

  ghost predicate WellFiled(candidates: map<CandidateKey, Candidate>) {
    forall k | k in candidates ::
      candidates[k].threadGroupId == k.threadGroupId && candidates[k].fileDescriptor == k.fileDescriptor
  }

  ghost predicate Agrees(o: Observer, user: u32, heard: set<CandidateKey>) {
    UserMachine(o, user).active.Keys == AnnouncedKeys(o.candidates, user, heard)
  }

  lemma SameFiling(candidates: map<CandidateKey, Candidate>, k: CandidateKey, k': CandidateKey)
    requires WellFiled(candidates) && k in candidates && k' in candidates && k.userId == k'.userId
    ensures CaptureKeyOf(candidates[k]) == CaptureKeyOf(candidates[k']) ==> k == k'
  {
  }

  /** A user's candidates announce different captures. */
  lemma SurvivorAnnounced(candidates: map<CandidateKey, Candidate>, user: u32, heard: set<CandidateKey>,
      keys: seq<CandidateKey>, k: CandidateKey)
    requires WellFiled(candidates) && k in candidates && k.userId == user
    ensures CaptureKeyOf(candidates[k]) in AnnouncedKeys(candidates - Elements(keys), user, heard) <==>
            AnnouncedFor(candidates, user, heard, k) && k !in keys
  {
    hide Announced, CaptureKeyOf, WellFiled;
    var left := candidates - Elements(keys);
    assert forall k' :: k' in left <==> k' in candidates && k' !in keys;
    if CaptureKeyOf(candidates[k]) in AnnouncedKeys(left, user, heard) {
      var k' :| k' in left && AnnouncedFor(left, user, heard, k') &&
        CaptureKeyOf(left[k']) == CaptureKeyOf(candidates[k]);
      SameFiling(candidates, k, k');
    }
    if AnnouncedFor(candidates, user, heard, k) && k !in keys {
      assert k in left && AnnouncedFor(left, user, heard, k) && left[k] == candidates[k];
    }
  }

  // ----- Dropping candidates -----

  lemma DropOneMoves(o: Observer, k: CandidateKey, operation: CaptureOperation, timestamp: u64, result: i64, user: u32)
    requires k in o.candidates && Ending(operation)
    ensures var o', c := DropOne(o, k, operation, timestamp, result), o.candidates[k];
            var m, m' := UserMachine(o, user), UserMachine(o', user);
            && o'.candidates == o.candidates - {k} && o'.lastTimestamp == o.lastTimestamp
            && if k.userId == user && Publishes(c, operation, result) && m.last <= timestamp
               then m'.last == timestamp && forall x :: x in m'.active <==> x in m.active && !Ends(c, operation, x)
               else m' == m
  {
    hide Validate, EventFor, Observe, Publishes, Ends, UserMachine;
    var o', c := DropOne(o, k, operation, timestamp, result), o.candidates[k];
    Publication(c, operation, timestamp, result);
    OwnerPublishes(c, operation, result);
    if o'.sent != o.sent {
      SendMoves(o, o', o'.sent[|o.sent|], user);
    } else {
      SameSent(o, o', user);
    }
    if c.owner == Direct && IsValid(EventFor(c, operation, timestamp, result)) {
      EndingEvent(UserMachine(o, user), c, operation, timestamp, result);
    }
  }

  lemma OwnerPublishes(c: Candidate, operation: CaptureOperation, result: i64)
    ensures Publishes(c, operation, result) ==> c.owner == Direct
  {
  }

  /** Some dropped candidate of the user publishes an event that ends the capture. */
  ghost predicate EndedBy(candidates: map<CandidateKey, Candidate>, user: u32, keys: seq<CandidateKey>,
      operation: CaptureOperation, result: i64, x: CaptureKey)
  {
    exists k :: k in keys && k in candidates && k.userId == user &&
      Publishes(candidates[k], operation, result) && Ends(candidates[k], operation, x)
  }

  lemma EndedByNext(candidates: map<CandidateKey, Candidate>, user: u32, keys: seq<CandidateKey>, k: CandidateKey,
      operation: CaptureOperation, result: i64, x: CaptureKey)
    requires k in candidates
    ensures EndedBy(candidates, user, keys + [k], operation, result, x) <==>
            EndedBy(candidates, user, keys, operation, result, x) ||
            (k.userId == user && Publishes(candidates[k], operation, result) && Ends(candidates[k], operation, x))
  {
    hide Publishes, Ends;
    assert forall k' :: k' in keys + [k] <==> k' in keys || k' == k;
  }

  /** Dropping candidates at one time ends exactly what their published events end, unless the machine has
      already seen something newer. */
  lemma {:induction false} DropMoves(o: Observer, user: u32, keys: seq<CandidateKey>,
      operation: CaptureOperation, timestamp: u64, result: i64)
    requires Ending(operation) && Distinct(keys) && forall k | k in keys :: k in o.candidates
    ensures var o' := Drop(o, keys, operation, timestamp, result);
            var m, m' := UserMachine(o, user), UserMachine(o', user);
            && o'.candidates == o.candidates - Elements(keys) && o'.lastTimestamp == o.lastTimestamp
            && if m.last <= timestamp
               then m'.last <= timestamp &&
                    forall x :: x in m'.active <==>
                      x in m.active && !EndedBy(o.candidates, user, keys, operation, result, x)
               else m' == m
  {
    hide DropOne, UserMachine, Publishes, Ends, EndedBy;
    if keys == [] {
      assert o.candidates - Elements(keys) == o.candidates;
      forall x ensures !EndedBy(o.candidates, user, [], operation, result, x) {
        NothingEnded(o.candidates, user, operation, result, x);
      }
    } else {
      var rest, k := keys[..|keys| - 1], keys[|keys| - 1];
      DropMoves(o, user, rest, operation, timestamp, result);
      var o' := Drop(o, rest, operation, timestamp, result);
      assert keys == rest + [k] && Elements(keys) == Elements(rest) + {k} && k !in rest;
      assert k in o'.candidates && o'.candidates[k] == o.candidates[k];
      DropOneMoves(o', k, operation, timestamp, result, user);
      assert o'.candidates - {k} == o.candidates - Elements(keys);
      forall x { EndedByNext(o.candidates, user, rest, k, operation, result, x); }
    }
  }

  lemma NothingEnded(candidates: map<CandidateKey, Candidate>, user: u32, operation: CaptureOperation, result: i64,
      x: CaptureKey)
    ensures !EndedBy(candidates, user, [], operation, result, x)
  {
  }

  /** The published events of `keys` end, of the captures the machine should hold, only those among `keys`. */
  ghost predicate Contained(candidates: map<CandidateKey, Candidate>, user: u32, heard: set<CandidateKey>,
      keys: seq<CandidateKey>, operation: CaptureOperation)
  {
    forall k, k' | k in keys && k in candidates && k.userId == user && Publishes(candidates[k], operation, 0) &&
      AnnouncedFor(candidates, user, heard, k') && Ends(candidates[k], operation, CaptureKeyOf(candidates[k'])) ::
      k' in keys
  }

  ghost predicate NoneAnnounced(candidates: map<CandidateKey, Candidate>, user: u32, heard: set<CandidateKey>,
      keys: seq<CandidateKey>)
  {
    forall k | k in keys :: !AnnouncedFor(candidates, user, heard, k)
  }

  lemma EndedIff(candidates: map<CandidateKey, Candidate>, user: u32, keys: seq<CandidateKey>,
      operation: CaptureOperation, result: i64, x: CaptureKey)
    requires Ending(operation)
    ensures EndedBy(candidates, user, keys, operation, result, x) <==>
            ConfirmedResult(operation, result) && EndedBy(candidates, user, keys, operation, 0, x)
  {
    hide Publishes, Ends, ConfirmedResult;
    forall k | k in candidates { Publication(candidates[k], operation, 0, result); }
    forall k | k in candidates { Publication(candidates[k], operation, 0, 0); }
  }

  lemma AnnouncedEnds(candidates: map<CandidateKey, Candidate>, user: u32, heard: set<CandidateKey>,
      keys: seq<CandidateKey>, operation: CaptureOperation, k: CandidateKey)
    requires Ending(operation) && k in keys && AnnouncedFor(candidates, user, heard, k)
    ensures EndedBy(candidates, user, keys, operation, 0, CaptureKeyOf(candidates[k]))
  {
    hide Publishes;
    Publication(candidates[k], operation, 0, 0);
  }

  lemma SurvivorEndedIff(candidates: map<CandidateKey, Candidate>, user: u32, heard: set<CandidateKey>,
      keys: seq<CandidateKey>, operation: CaptureOperation)
    ensures Contained(candidates, user, heard, keys, operation) <==>
            forall k | AnnouncedFor(candidates, user, heard, k) && k !in keys ::
              !EndedBy(candidates, user, keys, operation, 0, CaptureKeyOf(candidates[k]))
  {
    hide Publishes, Ends, Announced;
  }

  /** Dropping candidates keeps agreement precisely when, in time and successful, their events end no other
      capture; too late or failed, when none of them was announced. */
  lemma DropAgreesIff(o: Observer, user: u32, heard: set<CandidateKey>, keys: seq<CandidateKey>,
      operation: CaptureOperation, timestamp: u64, result: i64)
    requires Ending(operation) && Distinct(keys) && forall k | k in keys :: k in o.candidates
    requires WellFiled(o.candidates) && Agrees(o, user, heard)
    ensures Agrees(Drop(o, keys, operation, timestamp, result), user, heard) <==>
            if UserMachine(o, user).last <= timestamp && ConfirmedResult(operation, result)
            then Contained(o.candidates, user, heard, keys, operation)
            else NoneAnnounced(o.candidates, user, heard, keys)
  {
    hide Drop, UserMachine, EndedBy, Contained, AnnouncedKeys, Announced, CaptureKeyOf, ConfirmedResult, WellFiled;
    var o' := Drop(o, keys, operation, timestamp, result);
    var m, m' := UserMachine(o, user), UserMachine(o', user);
    var acts := m.last <= timestamp && ConfirmedResult(operation, result);
    DropMoves(o, user, keys, operation, timestamp, result);
    forall x
      ensures x in m'.active <==> x in m.active && !(acts && EndedBy(o.candidates, user, keys, operation, 0, x))
    {
      EndedIff(o.candidates, user, keys, operation, result, x);
    }
    SurvivorEndedIff(o.candidates, user, heard, keys, operation);
    forall k | k in o.candidates && k.userId == user
      ensures CaptureKeyOf(o.candidates[k]) in AnnouncedKeys(o'.candidates, user, heard) <==>
              AnnouncedFor(o.candidates, user, heard, k) && k !in keys
      ensures CaptureKeyOf(o.candidates[k]) in m.active <==> AnnouncedFor(o.candidates, user, heard, k)
      ensures k in keys && AnnouncedFor(o.candidates, user, heard, k) ==>
                EndedBy(o.candidates, user, keys, operation, 0, CaptureKeyOf(o.candidates[k]))
    {
      SurvivorAnnounced(o.candidates, user, heard, keys, k);
      AllAnnounced(o.candidates, user, heard, k);
      if k in keys && AnnouncedFor(o.candidates, user, heard, k) {
        AnnouncedEnds(o.candidates, user, heard, keys, operation, k);
      }
    }
    FromCandidates(o.candidates, user, heard);
    FromCandidates(o'.candidates, user, heard);
    assert forall k | k in o'.candidates :: k in o.candidates && o'.candidates[k] == o.candidates[k];
    var fits := if acts then Contained(o.candidates, user, heard, keys, operation)
      else NoneAnnounced(o.candidates, user, heard, keys);
    if fits {
      forall x ensures x in m'.active <==> x in AnnouncedKeys(o'.candidates, user, heard) {
        if x in m.active || x in AnnouncedKeys(o'.candidates, user, heard) {
          var k :| k in o.candidates && k.userId == user && CaptureKeyOf(o.candidates[k]) == x;
        }
      }
    }
  }

  lemma AllAnnounced(candidates: map<CandidateKey, Candidate>, user: u32, heard: set<CandidateKey>, k: CandidateKey)
    requires WellFiled(candidates) && k in candidates && k.userId == user
    ensures CaptureKeyOf(candidates[k]) in AnnouncedKeys(candidates, user, heard) <==>
            AnnouncedFor(candidates, user, heard, k)
  {
    hide AnnouncedKeys, AnnouncedFor, CaptureKeyOf, WellFiled;
    SurvivorAnnounced(candidates, user, heard, [], k);
    assert candidates - Elements([]) == candidates;
  }

  lemma FromCandidates(candidates: map<CandidateKey, Candidate>, user: u32, heard: set<CandidateKey>)
    ensures forall x | x in AnnouncedKeys(candidates, user, heard) ::
              exists k :: k in candidates && k.userId == user && CaptureKeyOf(candidates[k]) == x
  {
    hide CaptureKeyOf, Announced;
  }

  // ----- Starting a candidate -----

  /** A built candidate is heard from the start event on. */
  function Heard(heard: set<CandidateKey>, tick: Tick): set<CandidateKey> {
    if tick.Kernel? && tick.raw.operation == StreamOn && BuildCandidate(tick.raw, tick.lookup).Some?
    then heard + {KeyFor(tick.raw)} else heard
  }

  lemma FiledAnnounced(candidates: map<CandidateKey, Candidate>, user: u32, heard: set<CandidateKey>,
      k: CandidateKey, c: Candidate, x: CaptureKey)
    requires WellFiled(candidates) && c.threadGroupId == k.threadGroupId && c.fileDescriptor == k.fileDescriptor
    ensures x in AnnouncedKeys(candidates[k := c], user, heard + {k}) <==>
            || (x in AnnouncedKeys(candidates, user, heard) &&
                !(AnnouncedFor(candidates, user, heard, k) && x == CaptureKeyOf(candidates[k])))
            || (k.userId == user && Announced(c) && x == CaptureKeyOf(c))
    ensures k.userId == user && CaptureKeyOf(c) in AnnouncedKeys(candidates, user, heard) ==>
              AnnouncedFor(candidates, user, heard, k) && CaptureKeyOf(c) == CaptureKeyOf(candidates[k])
  {
    hide Announced;
    var after := candidates[k := c];
    forall k' | k' != k
      ensures AnnouncedFor(after, user, heard + {k}, k') <==> AnnouncedFor(candidates, user, heard, k')
    {
    }
    if x in AnnouncedKeys(after, user, heard + {k}) {
      var k' :| AnnouncedFor(after, user, heard + {k}, k') && CaptureKeyOf(after[k']) == x;
      if k' != k {
        assert AnnouncedFor(candidates, user, heard, k') && CaptureKeyOf(candidates[k']) == x;
      }
    }
    if x in AnnouncedKeys(candidates, user, heard) {
      var k' :| AnnouncedFor(candidates, user, heard, k') && CaptureKeyOf(candidates[k']) == x;
      if k' != k {
        assert AnnouncedFor(after, user, heard + {k}, k') && CaptureKeyOf(after[k']) == x;
      }
    }
    if k.userId == user && Announced(c) {
      assert AnnouncedFor(after, user, heard + {k}, k) && after[k] == c;
    }
  }

  /** A restart of a capture the daemon holds must find the same capture, announced as before; any other start
      of an announced capture must be successful and in time. */
  predicate StartFits(candidates: map<CandidateKey, Candidate>, user: u32, heard: set<CandidateKey>,
      k: CandidateKey, c: Candidate, inTime: bool)
  {
    if AnnouncedFor(candidates, user, heard, k) then CaptureKeyOf(c) == CaptureKeyOf(candidates[k]) && Announced(c)
    else Announced(c) ==> inTime
  }

  lemma StartMoves(o: Observer, raw: KernelEvent, lookup: Lookup, user: u32)
    requires raw.operation == StreamOn
    ensures var m, m' := UserMachine(o, user), UserMachine(Handle(o, raw, lookup), user);
            var built := BuildCandidate(raw, lookup);
            if built.Some? && raw.userId == user && Announced(built.value) && raw.result == 0 && m.last <= raw.timestamp
            then m'.last == raw.timestamp && m'.active.Keys == m.active.Keys + {CaptureKeyOf(built.value)}
            else m' == m
    ensures var built := BuildCandidate(raw, lookup);
            Handle(o, raw, lookup).candidates ==
            if built.Some? then o.candidates[KeyFor(raw) := built.value] else o.candidates
  {
    hide Validate, UserMachine, Observe, EventFor, Publishes, BuildCandidate;
    var built := BuildCandidate(raw, lookup);
    var o' := Handle(o, raw, lookup);
    if o'.sent != o.sent {
      SendMoves(o, o', o'.sent[|o.sent|], user);
    } else {
      SameSent(o, o', user);
    }
    if built.Some? {
      var c := built.value;
      Publication(c, StreamStarted, raw.timestamp, raw.result);
      OwnerPublishes(c, StreamStarted, raw.result);
      if c.owner == Direct && IsValid(EventFor(c, StreamStarted, raw.timestamp, raw.result)) {
        StartingEvent(UserMachine(o, user), c, raw.timestamp, raw.result);
      }
    }
  }

  lemma BuiltIsFiled(raw: KernelEvent, lookup: Lookup)
    ensures var built := BuildCandidate(raw, lookup);
            built.Some? ==> built.value.threadGroupId == KeyFor(raw).threadGroupId &&
                            built.value.fileDescriptor == KeyFor(raw).fileDescriptor
  {
  }

  lemma StartAgreesIff(o: Observer, raw: KernelEvent, lookup: Lookup, user: u32, heard: set<CandidateKey>)
    requires WellFiled(o.candidates) && Agrees(o, user, heard) && raw.operation == StreamOn
    ensures var built := BuildCandidate(raw, lookup);
            Agrees(Handle(o, raw, lookup), user, Heard(heard, Kernel(raw, lookup))) <==>
            (built.Some? && raw.userId == user ==>
               StartFits(o.candidates, user, heard, KeyFor(raw), built.value,
                 raw.result == 0 && UserMachine(o, user).last <= raw.timestamp))
  {
    hide UserMachine, AnnouncedKeys, Announced, BuildCandidate, CaptureKeyOf, Handle;
    StartMoves(o, raw, lookup, user);
    var built := BuildCandidate(raw, lookup);
    if built.Some? {
      var c, k := built.value, KeyFor(raw);
      BuiltIsFiled(raw, lookup);
      var o' := Handle(o, raw, lookup);
      var m, m' := UserMachine(o, user), UserMachine(o', user);
      assert Agrees(o', user, heard + {k}) <==>
             forall x :: x in m'.active <==> x in AnnouncedKeys(o'.candidates, user, heard + {k});
      FiledAnnounced(o.candidates, user, heard, k, c, CaptureKeyOf(c));
      forall x
        ensures x in AnnouncedKeys(o'.candidates, user, heard + {k}) <==>
                || (x in m.active &&
                    !(AnnouncedFor(o.candidates, user, heard, k) && x == CaptureKeyOf(o.candidates[k])))
                || (k.userId == user && Announced(c) && x == CaptureKeyOf(c))
      {
        FiledAnnounced(o.candidates, user, heard, k, c, x);
      }
      AnnouncedIsHeld(o, user, heard, k);
    }
  }

  lemma AnnouncedIsHeld(o: Observer, user: u32, heard: set<CandidateKey>, k: CandidateKey)
    requires Agrees(o, user, heard)
    ensures AnnouncedFor(o.candidates, user, heard, k) ==>
              k in o.candidates && k.userId == user && CaptureKeyOf(o.candidates[k]) in UserMachine(o, user).active
  {
    hide UserMachine, Announced;
  }

  // ----- One turn -----

  /** No capture the daemon holds survives on a device number a removal event is published for. */
  ghost predicate SharesNoDevice(candidates: map<CandidateKey, Candidate>, user: u32, heard: set<CandidateKey>,
      gone: set<CandidateKey>)
  {
    forall k, k' | k in gone && k in candidates && k.userId == user && Publishes(candidates[k], DeviceRemoved, 0) &&
      AnnouncedFor(candidates, user, heard, k') &&
      candidates[k'].device.major == candidates[k].device.major &&
      candidates[k'].device.minor == candidates[k].device.minor ::
      k' in gone
  }

  /** What a turn must satisfy, beforehand, to keep agreement. */
  ghost predicate Fits(o: Observer, tick: Tick, user: u32, heard: set<CandidateKey>) {
    match tick
    case DeviceCheck(missing) =>
      var gone := WithMissingDevice(o.candidates, missing);
      if UserMachine(o, user).last <= SaturatingAdd64(o.lastTimestamp, 1)
      then SharesNoDevice(o.candidates, user, heard, gone)
      else forall k | k in gone :: !AnnouncedFor(o.candidates, user, heard, k)
    case Kernel(raw, lookup) =>
      raw.userId == user ==>
        var inTime := UserMachine(o, user).last <= raw.timestamp;
        match raw.operation
        case StreamOn =>
          var built := BuildCandidate(raw, lookup);
          built.Some? ==>
            StartFits(o.candidates, user, heard, KeyFor(raw), built.value, raw.result == 0 && inTime)
        case StreamOff => AnnouncedFor(o.candidates, user, heard, KeyFor(raw)) ==> raw.result == 0 && inTime
        case Closed => AnnouncedFor(o.candidates, user, heard, KeyFor(raw)) ==> raw.result >= 0 && inTime
        case Exited =>
          (raw.result >= 0 && inTime) ||
          forall k | k in OfProcessGroup(o.candidates, raw) :: !AnnouncedFor(o.candidates, user, heard, k)
  }

  lemma CandidateListingIsDistinct(keys: set<CandidateKey>)
    ensures Distinct(CandidateListing(keys)) && |CandidateListing(keys)| == |keys|
  {
    CandidateIsTotalOrder();
    ListingAscends(CandidateLeq, keys);
  }

  /** A stop or close ends only its own capture. */
  lemma SingleIsContained(candidates: map<CandidateKey, Candidate>, user: u32, heard: set<CandidateKey>,
      k: CandidateKey, operation: CaptureOperation)
    requires WellFiled(candidates) && k in candidates && operation in {StreamStopped, DeviceClosed}
    ensures Contained(candidates, user, heard, [k], operation)
  {
    hide Announced, Publishes;
  }

  /** An exit ends only captures of the exiting process, all of which are dropped. */
  lemma ExitIsContained(candidates: map<CandidateKey, Candidate>, raw: KernelEvent, user: u32, heard: set<CandidateKey>)
    requires WellFiled(candidates)
    ensures Contained(candidates, user, heard, CandidateListing(OfProcessGroup(candidates, raw)), ProcessExited)
  {
    hide Announced, Publishes, CandidateListing;
  }

  lemma RemovalIsContainedIff(candidates: map<CandidateKey, Candidate>, user: u32, heard: set<CandidateKey>,
      gone: set<CandidateKey>)
    ensures Contained(candidates, user, heard, CandidateListing(gone), DeviceRemoved) <==>
            SharesNoDevice(candidates, user, heard, gone)
  {
    hide Announced, Publishes, CandidateListing;
  }

  lemma SingleAgreesIff(o: Observer, k: CandidateKey, operation: CaptureOperation, timestamp: u64, result: i64,
      user: u32, heard: set<CandidateKey>)
    requires WellFiled(o.candidates) && Agrees(o, user, heard) && operation in {StreamStopped, DeviceClosed}
    ensures Agrees(DropOne(o, k, operation, timestamp, result), user, heard) <==>
            (AnnouncedFor(o.candidates, user, heard, k) ==>
              ConfirmedResult(operation, result) && UserMachine(o, user).last <= timestamp)
  {
    hide UserMachine, AnnouncedKeys, Contained, DropOne, Announced, WellFiled, ConfirmedResult;
    if k in o.candidates {
      SingleIsContained(o.candidates, user, heard, k, operation);
      DropAgreesIff(o, user, heard, [k], operation, timestamp, result);
      DropSingle(o, k, operation, timestamp, result);
    } else {
      AbsentIsKept(o, k, operation, timestamp, result);
    }
  }

  lemma DropSingle(o: Observer, k: CandidateKey, operation: CaptureOperation, timestamp: u64, result: i64)
    ensures Drop(o, [k], operation, timestamp, result) == DropOne(o, k, operation, timestamp, result)
  {
    hide DropOne;
    assert [k][..0] == [];
    assert Drop(o, [], operation, timestamp, result) == o;
  }

  lemma AbsentIsKept(o: Observer, k: CandidateKey, operation: CaptureOperation, timestamp: u64, result: i64)
    requires k !in o.candidates
    ensures DropOne(o, k, operation, timestamp, result) == o
  {
  }

  /** The exact condition, for every turn of the event loop: the user's machine and the candidates started
      while it listened still agree after the turn precisely when the turn fits. */
  lemma TurnAgreesIff(o: Observer, tick: Tick, user: u32, heard: set<CandidateKey>)
    requires WellFiled(o.candidates) && Agrees(o, user, heard)
    ensures Agrees(Turn(o, tick), user, Heard(heard, tick)) <==> Fits(o, tick, user, heard)
  {
    hide UserMachine, AnnouncedKeys, Contained, DropOne, Drop, Announced, WellFiled, CandidateListing, StartFits,
      SharesNoDevice;
    match tick
    case DeviceCheck(missing) =>
      var gone := WithMissingDevice(o.candidates, missing);
      CandidateListingIsDistinct(gone);
      RemovalIsContainedIff(o.candidates, user, heard, gone);
      DropAgreesIff(o, user, heard, CandidateListing(gone), DeviceRemoved, SaturatingAdd64(o.lastTimestamp, 1), 0);
    case Kernel(raw, lookup) =>
      var o' := o.(lastTimestamp := if raw.timestamp > o.lastTimestamp then raw.timestamp else o.lastTimestamp);
      SameSent(o, o', user);
      assert Agrees(o', user, heard);
      match raw.operation
      case StreamOn => StartAgreesIff(o', raw, lookup, user, heard);
      case StreamOff => SingleAgreesIff(o', KeyFor(raw), StreamStopped, raw.timestamp, raw.result, user, heard);
      case Closed => SingleAgreesIff(o', KeyFor(raw), DeviceClosed, raw.timestamp, raw.result, user, heard);
      case Exited =>
        var keys := OfProcessGroup(o'.candidates, raw);
        CandidateListingIsDistinct(keys);
        ExitIsContained(o'.candidates, raw, user, heard);
        DropAgreesIff(o', user, heard, CandidateListing(keys), ProcessExited, raw.timestamp, raw.result);
  }

  lemma TurnKeepsFiling(o: Observer, tick: Tick)
    requires WellFiled(o.candidates)
    ensures WellFiled(Turn(o, tick).candidates)
  {
    hide DropOne, Drop, CandidateListing;
    match tick
    case DeviceCheck(missing) =>
      var gone := WithMissingDevice(o.candidates, missing);
      CandidateListingIsDistinct(gone);
      DropMoves(o, 0, CandidateListing(gone), DeviceRemoved, SaturatingAdd64(o.lastTimestamp, 1), 0);
    case Kernel(raw, lookup) =>
      var o' := o.(lastTimestamp := if raw.timestamp > o.lastTimestamp then raw.timestamp else o.lastTimestamp);
      match raw.operation
      case StreamOn => StartMoves(o', raw, lookup, 0); BuiltIsFiled(raw, lookup);
      case StreamOff => DropOneFiles(o', KeyFor(raw), StreamStopped, raw.timestamp, raw.result);
      case Closed => DropOneFiles(o', KeyFor(raw), DeviceClosed, raw.timestamp, raw.result);
      case Exited =>
        var keys := OfProcessGroup(o'.candidates, raw);
        CandidateListingIsDistinct(keys);
        DropMoves(o', 0, CandidateListing(keys), ProcessExited, raw.timestamp, raw.result);
  }

  lemma DropOneFiles(o: Observer, k: CandidateKey, operation: CaptureOperation, timestamp: u64, result: i64)
    ensures DropOne(o, k, operation, timestamp, result).candidates == o.candidates - {k}
  {
    hide Validate, EventFor;
  }
}
