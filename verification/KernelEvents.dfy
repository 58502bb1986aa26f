/** The privileged observer: kernel events in, per-user capture messages out. */
module KernelEvents {
  import opened Prelude
  import opened Orders
  import opened Capture
  import opened Monitor
  import opened ObserverSource

  datatype KernelOperation = StreamOn | StreamOff | Closed | Exited

  datatype KernelEvent = KernelEvent(
    timestamp: u64,
    processId: u32,
    threadGroupId: u32,
    userId: u32,
    fileDescriptor: i32,
    operation: KernelOperation,
    result: i64)

  datatype Candidate = Candidate(
    processId: u32,
    threadGroupId: u32,
    startTicks: u64,
    fileDescriptor: i32,
    device: PhysicalCamera,
    owner: CaptureOwner)

  datatype CandidateKey = CandidateKey(userId: u32, threadGroupId: u32, fileDescriptor: i32)

  /** What procfs, sysfs and the broker policy answer for a process and descriptor. */
  datatype Lookup = Lookup(startTicks: Option<u64>, device: Option<PhysicalCamera>, owner: CaptureOwner)

  /** A message and the only user it is sent to. */
  datatype Routed = Routed(userId: u32, message: ObserverMessage)

  datatype Observer = Observer(
    candidates: map<CandidateKey, Candidate>,
    lastTimestamp: u64,
    totals: map<u32, Diagnostics>,
    sent: seq<Routed>)

  const STARTING := Observer(map[], 0, map[], [])

  predicate CandidateLeq(a: CandidateKey, b: CandidateKey) {
    a.userId < b.userId || (a.userId == b.userId &&
    (a.threadGroupId < b.threadGroupId || (a.threadGroupId == b.threadGroupId && a.fileDescriptor <= b.fileDescriptor)))
  }

  lemma CandidateIsTotalOrder()
    ensures TotalOrder(CandidateLeq)
  {
    assert forall a, b | CandidateLeq(a, b) && CandidateLeq(b, a) :: a == b;
  }

  /** Candidate keys are ordered by user, process and descriptor, in this order. */
  lemma CandidateLeqMeans(a: CandidateKey, b: CandidateKey)
    ensures CandidateLeq(a, b) <==>
            LexLeq([a.userId, a.threadGroupId, a.fileDescriptor], [b.userId, b.threadGroupId, b.fileDescriptor])
  {
    var x, y := [a.userId, a.threadGroupId, a.fileDescriptor], [b.userId, b.threadGroupId, b.fileDescriptor];
    assert x[1..][1..][1..] == [] && y[1..][1..][1..] == [];
    assert LexLeq(x[1..][1..], y[1..][1..]) <==> a.fileDescriptor <= b.fileDescriptor;
  }

  ghost function CandidateListing(keys: set<CandidateKey>): (r: seq<CandidateKey>)
    ensures forall k :: k in r <==> k in keys
  {
    CandidateIsTotalOrder();
    Listing(CandidateLeq, keys)
  }

  // ----- Specification -----

  function KeyFor(raw: KernelEvent): CandidateKey {
    CandidateKey(raw.userId, raw.threadGroupId, raw.fileDescriptor)
  }

  function BuildCandidate(raw: KernelEvent, lookup: Lookup): Option<Candidate> {
    if lookup.startTicks.None? || lookup.startTicks.value == 0 || lookup.device.None? then None
    else
      Some(Candidate(
        raw.processId, raw.threadGroupId, lookup.startTicks.value, raw.fileDescriptor, lookup.device.value,
            lookup.owner))
  }

  function EventFor(c: Candidate, operation: CaptureOperation, timestamp: u64, result: i64): CaptureEvent {
    CaptureEvent(
      OBSERVER_SCHEMA_VERSION, timestamp, c.processId, c.threadGroupId, c.startTicks,
      if operation == ProcessExited then -1 else c.fileDescriptor,
      c.device, operation, result, Confirmed, Direct)
  }

  function TotalsOf(o: Observer, user: u32): Diagnostics {
    if user in o.totals then o.totals[user] else Diagnostics(0, 0)
  }

  function IncrementSuppression(o: Observer, user: u32, owner: CaptureOwner): Observer {
    var d := TotalsOf(o, user);
    var d' := if owner == BrokerOwned then d.(suppressedBroker := SaturatingAdd64(d.suppressedBroker, 1))
              else d.(suppressedUnknown := SaturatingAdd64(d.suppressedUnknown, 1));
    o.(totals := o.totals[user := d'], sent := o.sent + [Routed(user, Totals(d'))])
  }

  /** Only directly owned, valid events leave the observer; anything else is merely counted or dropped. */
  function Publish(o: Observer, user: u32, c: Candidate, operation: CaptureOperation, timestamp: u64,
      result: i64): Observer {
    if c.owner != Direct then IncrementSuppression(o, user, c.owner)
    else
      var e := EventFor(c, operation, timestamp, result);
      if IsValid(e) then o.(sent := o.sent + [Routed(user, Captured(e))]) else o
  }

  function DropOne(o: Observer, k: CandidateKey, operation: CaptureOperation, timestamp: u64, result: i64): Observer {
    if k in o.candidates then
      Publish(o.(candidates := o.candidates - {k}), k.userId, o.candidates[k], operation, timestamp, result)
    else o
  }

  ghost function Drop(o: Observer, keys: seq<CandidateKey>, operation: CaptureOperation, timestamp: u64,
      result: i64): Observer {
    if keys == [] then o
    else DropOne(Drop(o, keys[..|keys| - 1], operation, timestamp, result), keys[|keys| - 1], operation,
        timestamp, result)
  }

  function OfProcessGroup(candidates: map<CandidateKey, Candidate>, raw: KernelEvent): set<CandidateKey> {
    set k | k in candidates && k.userId == raw.userId && k.threadGroupId == raw.threadGroupId
  }

  function WithMissingDevice(candidates: map<CandidateKey, Candidate>, missing: set<string>): set<CandidateKey> {
    set k | k in candidates && candidates[k].device.udevSyspath.Some? &&
        candidates[k].device.udevSyspath.value in missing
  }

  /** One turn of the event loop: a kernel event with what was looked up for it, or a periodic device check. */
  datatype Tick = Kernel(raw: KernelEvent, lookup: Lookup) | DeviceCheck(missing: set<string>)

  ghost function Handle(o: Observer, raw: KernelEvent, lookup: Lookup): Observer {
    match raw.operation
    case StreamOn =>
      var built := BuildCandidate(raw, lookup);
      if built.None? then IncrementSuppression(o, raw.userId, CaptureOwner.Unknown)
      else
        var o' := Publish(o, raw.userId, built.value, StreamStarted, raw.timestamp, raw.result);
        o'.(candidates := o'.candidates[KeyFor(raw) := built.value])
    case StreamOff => DropOne(o, KeyFor(raw), StreamStopped, raw.timestamp, raw.result)
    case Closed => DropOne(o, KeyFor(raw), DeviceClosed, raw.timestamp, raw.result)
    case Exited =>
      Drop(o, CandidateListing(OfProcessGroup(o.candidates, raw)), ProcessExited, raw.timestamp, raw.result)
  }

  ghost function Turn(o: Observer, tick: Tick): Observer {
    match tick
    case Kernel(raw, lookup) =>
      Handle(o.(lastTimestamp := if raw.timestamp > o.lastTimestamp then raw.timestamp else o.lastTimestamp),
          raw, lookup)
    case DeviceCheck(missing) =>
      Drop(o, CandidateListing(WithMissingDevice(o.candidates, missing)), DeviceRemoved,
          SaturatingAdd64(o.lastTimestamp, 1), 0)
  }

  ghost function Turns(o: Observer, ticks: seq<Tick>): Observer {
    if ticks == [] then o else Turn(Turns(o, ticks[..|ticks| - 1]), ticks[|ticks| - 1])
  }

  // ----- The event loop -----

  class KernelEventProcessor {
    var candidates: map<CandidateKey, Candidate>
    var lastTimestamp: u64
    var totals: map<u32, Diagnostics>
    var sent: seq<Routed>

    ghost function Model(): Observer
      reads this
    {
      Observer(candidates, lastTimestamp, totals, sent)
    }

    constructor ()
      ensures Model() == STARTING
    {
      candidates, lastTimestamp, totals, sent := map[], 0, map[], [];
    }

    method ProcessKernelEvents(ticks: seq<Tick>)
      modifies this
      ensures Model() == Turns(old(Model()), ticks)
    {
      hide Turn;
      ghost var o := Model();
      for i := 0 to |ticks|
        invariant Model() == Turns(o, ticks[..i])
      {
        assert ticks[..i + 1][..i] == ticks[..i];
        TakeTurn(ticks[i]);
      }
      assert ticks[..|ticks|] == ticks;
    }

    method TakeTurn(tick: Tick)
      modifies this
      ensures Model() == Turn(old(Model()), tick)
    {
      hide BuildCandidate, EventFor, CandidateListing, Drop, DropOne, Publish, IncrementSuppression;
      match tick {
        case DeviceCheck(missing) =>
          RemoveMissingDevices(missing, SaturatingAdd64(lastTimestamp, 1));
        case Kernel(raw, lookup) =>
          if raw.timestamp > lastTimestamp {
            lastTimestamp := raw.timestamp;
          }
          match raw.operation {
            case StreamOn =>
              var built := BuildCandidate(raw, lookup);
              match built {
                case Some(c) =>
                  PublishCandidate(raw.userId, c, StreamStarted, raw.timestamp, raw.result);
                  candidates := candidates[KeyFor(raw) := c];
                case None =>
                  CountSuppressed(raw.userId, CaptureOwner.Unknown);
              }
            case StreamOff =>
              RemoveCandidate(KeyFor(raw), StreamStopped, raw.timestamp, raw.result);
            case Closed =>
              RemoveCandidate(KeyFor(raw), DeviceClosed, raw.timestamp, raw.result);
            case Exited =>
              var keys := CandidatesInOrder(OfProcessGroup(candidates, raw));
              RemoveCandidates(keys, ProcessExited, raw.timestamp, raw.result);
          }
      }
    }

    method RemoveMissingDevices(missing: set<string>, timestamp: u64)
      modifies this
      ensures Model() ==
              Drop(old(Model()), CandidateListing(WithMissingDevice(old(candidates), missing)), DeviceRemoved,
                  timestamp, 0)
    {
      hide CandidateListing, Drop;
      var removed := CandidatesInOrder(WithMissingDevice(candidates, missing));
      RemoveCandidates(removed, DeviceRemoved, timestamp, 0);
    }

    method RemoveCandidates(keys: seq<CandidateKey>, operation: CaptureOperation, timestamp: u64, result: i64)
      modifies this
      ensures Model() == Drop(old(Model()), keys, operation, timestamp, result)
    {
      hide DropOne;
      ghost var o := Model();
      for i := 0 to |keys|
        invariant Model() == Drop(o, keys[..i], operation, timestamp, result)
      {
        assert keys[..i + 1][..i] == keys[..i];
        RemoveCandidate(keys[i], operation, timestamp, result);
      }
      assert keys[..|keys|] == keys;
    }

    method RemoveCandidate(k: CandidateKey, operation: CaptureOperation, timestamp: u64, result: i64)
      modifies this
      ensures Model() == DropOne(old(Model()), k, operation, timestamp, result)
    {
      hide Publish;
      if k in candidates {
        var c := candidates[k];
        candidates := candidates - {k};
        PublishCandidate(k.userId, c, operation, timestamp, result);
      }
    }

    method PublishCandidate(user: u32, c: Candidate, operation: CaptureOperation, timestamp: u64, result: i64)
      modifies this
      ensures Model() == Publish(old(Model()), user, c, operation, timestamp, result)
    {
      hide Validate, IncrementSuppression;
      if c.owner != Direct {
        CountSuppressed(user, c.owner);
        return;
      }
      var fd := if operation == ProcessExited then -1 else c.fileDescriptor;
      var event := CaptureEvent(
        OBSERVER_SCHEMA_VERSION, timestamp, c.processId, c.threadGroupId, c.startTicks, fd,
        c.device, operation, result, Confirmed, Direct);
      if Validate(event).Success? {
        sent := sent + [Routed(user, Captured(event))];
      }
    }

    method CountSuppressed(user: u32, owner: CaptureOwner)
      modifies this
      ensures Model() == IncrementSuppression(old(Model()), user, owner)
      ensures user in totals && sent == old(sent) + [Routed(user, Totals(totals[user]))]
      ensures totals[user].suppressedBroker ==
              (if owner.BrokerOwned? then Min(TotalsOf(old(Model()), user).suppressedBroker + 1, 0xFFFF_FFFF_FFFF_FFFF)
               else TotalsOf(old(Model()), user).suppressedBroker)
      ensures totals[user].suppressedUnknown ==
              (if owner.BrokerOwned? then TotalsOf(old(Model()), user).suppressedUnknown
               else Min(TotalsOf(old(Model()), user).suppressedUnknown + 1, 0xFFFF_FFFF_FFFF_FFFF))
    {
      var d := if user in totals then totals[user] else Diagnostics(0, 0);
      match owner {
        case BrokerOwned => d := d.(suppressedBroker := SaturatingAdd64(d.suppressedBroker, 1));
        case Unknown | Direct => d := d.(suppressedUnknown := SaturatingAdd64(d.suppressedUnknown, 1));
      }
      totals := totals[user := d];
      sent := sent + [Routed(user, Totals(d))];
    }
  }

  method CandidatesInOrder(keys: set<CandidateKey>) returns (order: seq<CandidateKey>)
    ensures order == CandidateListing(keys)
  {
    CandidateIsTotalOrder();
    order := InOrder(CandidateLeq, keys);
  }
}
