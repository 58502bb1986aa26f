/** What the observer sends: one capture message for each announced candidate, and running totals of the rest. */
module Sending {
  import opened Prelude
  import opened Orders
  import opened Capture
  import opened Monitor
  import opened ObserverSource
  import opened KernelEvents
  import opened Agreement
  import opened ObserverRuns

  // ----- Which candidates a turn concerns -----

  /** A candidate and the user it is filed under. */
  type Owned = (u32, Candidate)

  /** The candidates filed under the keys, in key order. */
  ghost function Filed(candidates: map<CandidateKey, Candidate>, keys: set<CandidateKey>): seq<Owned>
    requires keys <= candidates.Keys
  {
    FiledInOrder(candidates, CandidateListing(keys))
  }

  ghost function FiledInOrder(candidates: map<CandidateKey, Candidate>, keys: seq<CandidateKey>): seq<Owned>
    requires forall k | k in keys :: k in candidates
  {
    seq(|keys|, i requires 0 <= i < |keys| => (keys[i].userId, candidates[keys[i]]))
  }

  /** A start finds its process and its device. */
  predicate Found(lookup: Lookup) {
    lookup.startTicks.Some? && lookup.startTicks.value != 0 && lookup.device.Some?
  }

  /** The candidate a start opens, or the ones a turn drops: the one that stops or is closed, those of the process that
      exits, or those whose camera is gone. */
  ghost function Concerned(candidates: map<CandidateKey, Candidate>, tick: Tick): seq<Owned> {
    match tick
    case DeviceCheck(missing) =>
      Filed(candidates, set k | k in candidates && candidates[k].device.udevSyspath.Some? &&
                                candidates[k].device.udevSyspath.value in missing)
    case Kernel(raw, lookup) =>
      var k := CandidateKey(raw.userId, raw.threadGroupId, raw.fileDescriptor);
      match raw.operation
      case StreamOn =>
        if Found(lookup)
        then [(raw.userId, Candidate(raw.processId, raw.threadGroupId, lookup.startTicks.value, raw.fileDescriptor,
                                     lookup.device.value, lookup.owner))]
        else []
      case StreamOff | Closed => if k in candidates then [(raw.userId, candidates[k])] else []
      case Exited =>
        Filed(candidates, set k | k in candidates && k.userId == raw.userId && k.threadGroupId == raw.threadGroupId)
  }

  // ----- The capture messages -----

  function OperationOf(tick: Tick): CaptureOperation {
    match tick
    case DeviceCheck(_) => DeviceRemoved
    case Kernel(raw, _) =>
      match raw.operation
      case StreamOn => StreamStarted
      case StreamOff => StreamStopped
      case Closed => DeviceClosed
      case Exited => ProcessExited
  }

  /** A device check reports success one past the latest kernel event. */
  function OccasionOf(o: Observer, tick: Tick): (u64, i64) {
    match tick
    case DeviceCheck(_) => (if o.lastTimestamp < 0xFFFF_FFFF_FFFF_FFFF then o.lastTimestamp + 1 else o.lastTimestamp, 0)
    case Kernel(raw, _) => (raw.timestamp, raw.result)
  }

  /** The event that announces what happened to a candidate. */
  function Announcement(c: Candidate, operation: CaptureOperation, occasion: (u64, i64)): CaptureEvent {
    CaptureEvent(
      schemaVersion := 1, timestamp := occasion.0, processId := c.processId, threadGroupId := c.threadGroupId,
      startTicks := c.startTicks, fileDescriptor := if operation.ProcessExited? then -1 else c.fileDescriptor,
      device := c.device, operation := operation, result := occasion.1, confidence := Confirmed, owner := Direct)
  }

  /** One message for each directly owned candidate with a valid event, to its own user. */
  ghost function Announcements(concerned: seq<Owned>, operation: CaptureOperation, occasion: (u64, i64)): seq<Routed> {
    if concerned == [] then []
    else
      var (user, c) := concerned[|concerned| - 1];
      Announcements(concerned[..|concerned| - 1], operation, occasion) +
      if c.owner.Direct? && IsValid(Announcement(c, operation, occasion))
      then [Routed(user, Captured(Announcement(c, operation, occasion)))] else []
  }

  ghost function CapturesIn(sent: seq<Routed>): seq<Routed> {
    if sent == [] then []
    else CapturesIn(sent[..|sent| - 1]) + if sent[|sent| - 1].message.Captured? then [sent[|sent| - 1]] else []
  }

  lemma CapturesNext(sent: seq<Routed>, r: Routed)
    ensures CapturesIn(sent + [r]) == CapturesIn(sent) + if r.message.Captured? then [r] else []
  {
    assert (sent + [r])[..|sent|] == sent;
  }

  lemma AnnouncementsNext(concerned: seq<Owned>, next: Owned, operation: CaptureOperation, occasion: (u64, i64))
    ensures Announcements(concerned + [next], operation, occasion) ==
            Announcements(concerned, operation, occasion) + Announcements([next], operation, occasion)
  {
    hide IsValid, Announcement;
    assert (concerned + [next])[..|concerned|] == concerned && [next][..0] == [];
  }

  lemma PublishAnnounces(o: Observer, user: u32, c: Candidate, operation: CaptureOperation, occasion: (u64, i64))
    ensures CapturesIn(Publish(o, user, c, operation, occasion.0, occasion.1).sent) ==
            CapturesIn(o.sent) + Announcements([(user, c)], operation, occasion)
  {
    hide Validate, CapturesIn;
    assert EventFor(c, operation, occasion.0, occasion.1) == Announcement(c, operation, occasion);
    var o' := Publish(o, user, c, operation, occasion.0, occasion.1);
    if o'.sent != o.sent { CapturesNext(o.sent, o'.sent[|o.sent|]); }
    assert [(user, c)][..0] == [];
    assert Announcements([], operation, occasion) == [];
  }

  lemma FiledNext(candidates: map<CandidateKey, Candidate>, keys: seq<CandidateKey>, k: CandidateKey)
    requires k in candidates && forall k' | k' in keys :: k' in candidates
    ensures FiledInOrder(candidates, keys + [k]) == FiledInOrder(candidates, keys) + [(k.userId, candidates[k])]
  {
  }

  lemma NoneFiled(candidates: map<CandidateKey, Candidate>)
    ensures FiledInOrder(candidates, []) == []
  {
  }

  lemma {:induction false} DropAnnounces(o: Observer, keys: seq<CandidateKey>, operation: CaptureOperation,
      occasion: (u64, i64))
    requires Distinct(keys) && forall k | k in keys :: k in o.candidates
    ensures var o' := Drop(o, keys, operation, occasion.0, occasion.1);
            && o'.candidates == o.candidates - Elements(keys)
            && CapturesIn(o'.sent) ==
               CapturesIn(o.sent) + Announcements(FiledInOrder(o.candidates, keys), operation, occasion)
  {
    hide Publish, CapturesIn, Announcements, FiledInOrder;
    if keys == [] {
      assert o.candidates - Elements(keys) == o.candidates;
      NoneFiled(o.candidates);
      NothingAnnounced(operation, occasion);
    } else {
      var rest, k := keys[..|keys| - 1], keys[|keys| - 1];
      DropAnnounces(o, rest, operation, occasion);
      var o' := Drop(o, rest, operation, occasion.0, occasion.1);
      assert keys == rest + [k] && Elements(keys) == Elements(rest) + {k} && k !in rest;
      assert k in o'.candidates && o'.candidates[k] == o.candidates[k];
      PublishAnnounces(o'.(candidates := o'.candidates - {k}), k.userId, o.candidates[k], operation, occasion);
      PublishKeepsCandidates(o'.(candidates := o'.candidates - {k}), k.userId, o.candidates[k], operation, occasion);
      FiledNext(o.candidates, rest, k);
      AnnouncementsNext(FiledInOrder(o.candidates, rest), (k.userId, o.candidates[k]), operation, occasion);
    }
  }

  lemma PublishKeepsCandidates(o: Observer, user: u32, c: Candidate, operation: CaptureOperation,
      occasion: (u64, i64))
    ensures Publish(o, user, c, operation, occasion.0, occasion.1).candidates == o.candidates
  {
    hide Validate, EventFor;
  }

  lemma NothingAnnounced(operation: CaptureOperation, occasion: (u64, i64))
    ensures Announcements([], operation, occasion) == []
  {
  }

  /** Every turn sends, of capture messages, exactly one for each candidate concerned that is directly owned and has
      a valid event: to its user, in key order, saying what happened to it and when. */
  lemma TurnAnnounces(o: Observer, tick: Tick)
    ensures CapturesIn(Turn(o, tick).sent) ==
            CapturesIn(o.sent) +
            Announcements(Concerned(o.candidates, tick), OperationOf(tick), OccasionOf(o, tick))
  {
    hide CapturesIn, Announcements, Publish, Drop, CandidateListing, IncrementSuppression;
    var operation, occasion := OperationOf(tick), OccasionOf(o, tick);
    NothingAnnounced(operation, occasion);
    match tick
    case DeviceCheck(missing) =>
      var keys := WithMissingDevice(o.candidates, missing);
      CandidateListingIsDistinct(keys);
      DropAnnounces(o, CandidateListing(keys), operation, occasion);
    case Kernel(raw, lookup) =>
      var o' := o.(lastTimestamp := if raw.timestamp > o.lastTimestamp then raw.timestamp else o.lastTimestamp);
      match raw.operation
      case StreamOn =>
        if Found(lookup) {
          PublishAnnounces(o', raw.userId, BuildCandidate(raw, lookup).value, operation, occasion);
        } else {
          SuppressionIsNoCapture(o', raw.userId, CaptureOwner.Unknown);
        }
      case Exited =>
        var keys := OfProcessGroup(o.candidates, raw);
        CandidateListingIsDistinct(keys);
        DropAnnounces(o', CandidateListing(keys), operation, occasion);
      case _ =>
        if KeyFor(raw) in o.candidates {
          PublishAnnounces(o'.(candidates := o.candidates - {KeyFor(raw)}), raw.userId, o.candidates[KeyFor(raw)],
            operation, occasion);
        }
  }

  lemma SuppressionIsNoCapture(o: Observer, user: u32, owner: CaptureOwner)
    ensures CapturesIn(IncrementSuppression(o, user, owner).sent) == CapturesIn(o.sent)
  {
    hide CapturesIn;
    var o' := IncrementSuppression(o, user, owner);
    CapturesNext(o.sent, o'.sent[|o.sent|]);
  }

  /** What a turn does to the candidates and the latest timestamp: a start files the candidate it finds under its user,
      process and descriptor; every other turn removes the candidates it concerns, and nothing else. */
  lemma TurnFiles(o: Observer, tick: Tick)
    ensures var left, latest := Turn(o, tick).candidates, Turn(o, tick).lastTimestamp;
            match tick
            case DeviceCheck(missing) =>
              && latest == o.lastTimestamp
              && left == map k | k in o.candidates && !(o.candidates[k].device.udevSyspath.Some? &&
                                                        o.candidates[k].device.udevSyspath.value in missing)
                             :: o.candidates[k]
            case Kernel(raw, lookup) =>
              var key := CandidateKey(raw.userId, raw.threadGroupId, raw.fileDescriptor);
              && latest >= o.lastTimestamp && latest >= raw.timestamp && latest in {o.lastTimestamp, raw.timestamp}
              && match raw.operation
                 case StreamOn =>
                   left == if Found(lookup) then o.candidates[key := Concerned(o.candidates, tick)[0].1]
                           else o.candidates
                 case StreamOff | Closed => left == o.candidates - {key}
                 case Exited =>
                   left == map k | k in o.candidates && (k.userId != raw.userId || k.threadGroupId != raw.threadGroupId)
                               :: o.candidates[k]
  {
    hide Drop, CandidateListing, Publish, IncrementSuppression;
    TurnTimes(o, tick, 0);
    match tick
    case DeviceCheck(missing) =>
      var keys := WithMissingDevice(o.candidates, missing);
      CandidateListingIsDistinct(keys);
      DropAnnounces(o, CandidateListing(keys), DeviceRemoved, OccasionOf(o, tick));
    case Kernel(raw, lookup) =>
      var o' := o.(lastTimestamp := if raw.timestamp > o.lastTimestamp then raw.timestamp else o.lastTimestamp);
      match raw.operation
      case StreamOn => StartFiles(o', raw, lookup);
      case StreamOff => DropOneFiles(o', KeyFor(raw), StreamStopped, raw.timestamp, raw.result);
      case Closed => DropOneFiles(o', KeyFor(raw), DeviceClosed, raw.timestamp, raw.result);
      case Exited =>
        var keys := OfProcessGroup(o.candidates, raw);
        CandidateListingIsDistinct(keys);
        DropAnnounces(o', CandidateListing(keys), ProcessExited, (raw.timestamp, raw.result));
  }

  lemma StartFiles(o: Observer, raw: KernelEvent, lookup: Lookup)
    requires raw.operation.StreamOn?
    ensures Handle(o, raw, lookup).candidates ==
            if Found(lookup) then o.candidates[KeyFor(raw) := Concerned(o.candidates, Kernel(raw, lookup))[0].1]
            else o.candidates
  {
    hide Publish;
    if Found(lookup) {
      PublishKeepsCandidates(o, raw.userId, BuildCandidate(raw, lookup).value, StreamStarted,
        (raw.timestamp, raw.result));
    }
  }

  /** What a whole run announces, turn by turn. */
  ghost function AnnouncedIn(o: Observer, ticks: seq<Tick>): seq<Routed> {
    if ticks == [] then []
    else
      var p, last := ticks[..|ticks| - 1], ticks[|ticks| - 1];
      var before := Turns(o, p);
      AnnouncedIn(o, p) +
      Announcements(Concerned(before.candidates, last), OperationOf(last), OccasionOf(before, last))
  }

  /** The same over every run. */
  lemma {:induction false} RunAnnounces(o: Observer, ticks: seq<Tick>)
    ensures CapturesIn(Turns(o, ticks).sent) == CapturesIn(o.sent) + AnnouncedIn(o, ticks)
  {
    hide Turn, CapturesIn, Announcements, Concerned, OccasionOf;
    if ticks != [] {
      RunAnnounces(o, ticks[..|ticks| - 1]);
      TurnAnnounces(Turns(o, ticks[..|ticks| - 1]), ticks[|ticks| - 1]);
    }
  }

  // ----- The totals -----

  /** How many of the candidates are the user's and have the given owner. */
  ghost function CountOwned(concerned: seq<Owned>, user: u32, owner: CaptureOwner): nat {
    if concerned == [] then 0
    else
      var (u, c) := concerned[|concerned| - 1];
      CountOwned(concerned[..|concerned| - 1], user, owner) + if u == user && c.owner == owner then 1 else 0
  }

  /** The tick is a start by the user that finds no process or no device. */
  predicate Misses(tick: Tick, user: u32) {
    tick.Kernel? && tick.raw.operation.StreamOn? && tick.raw.userId == user && !Found(tick.lookup)
  }

  /** Starts and drops of candidates that belong to a broker. */
  ghost function BrokerCount(o: Observer, ticks: seq<Tick>, user: u32): nat {
    if ticks == [] then 0
    else
      var p, last := ticks[..|ticks| - 1], ticks[|ticks| - 1];
      BrokerCount(o, p, user) + CountOwned(Concerned(Turns(o, p).candidates, last), user, BrokerOwned)
  }

  /** Starts and drops of candidates of unknown owners, and starts that find no process or device. */
  ghost function UnknownCount(o: Observer, ticks: seq<Tick>, user: u32): nat {
    if ticks == [] then 0
    else
      var p, last := ticks[..|ticks| - 1], ticks[|ticks| - 1];
      UnknownCount(o, p, user) + CountOwned(Concerned(Turns(o, p).candidates, last), user, CaptureOwner.Unknown) +
      if Misses(last, user) then 1 else 0
  }

  /** The totals sent to a user. */
  ghost function TotalsIn(sent: seq<Routed>, user: u32): seq<Diagnostics> {
    if sent == [] then []
    else
      var last := sent[|sent| - 1];
      TotalsIn(sent[..|sent| - 1], user) +
      if last.userId == user && last.message.Totals? then [last.message.diagnostics] else []
  }

  lemma TotalsNext(sent: seq<Routed>, r: Routed, user: u32)
    ensures TotalsIn(sent + [r], user) ==
            TotalsIn(sent, user) + if r.userId == user && r.message.Totals? then [r.message.diagnostics] else []
  {
    assert (sent + [r])[..|sent|] == sent;
  }

  function Capped(n: nat): u64 {
    if n <= 0xFFFF_FFFF_FFFF_FFFF then n else 0xFFFF_FFFF_FFFF_FFFF
  }

  /** One of the two totals is one higher, if it can be. */
  predicate OneMore(a: Diagnostics, b: Diagnostics) {
    b == a.(suppressedBroker := Capped(a.suppressedBroker + 1)) ||
    b == a.(suppressedUnknown := Capped(a.suppressedUnknown + 1))
  }

  ghost function LastTold(totals: seq<Diagnostics>, first: Diagnostics): Diagnostics {
    if totals == [] then first else totals[|totals| - 1]
  }

  /** Each of the totals is one more than the one before. */
  ghost predicate CountsUp(totals: seq<Diagnostics>, first: Diagnostics) {
    totals == [] ||
    (CountsUp(totals[..|totals| - 1], first) &&
     OneMore(LastTold(totals[..|totals| - 1], first), totals[|totals| - 1]))
  }

  /** The user's totals have counted up to the given numbers, each step told to the user. */
  ghost predicate Tallied(o: Observer, user: u32, first: Diagnostics, broker: nat, unknown: nat) {
    var told := TotalsIn(o.sent, user);
    && TotalsOf(o, user) ==
       Diagnostics(Capped(first.suppressedBroker + broker), Capped(first.suppressedUnknown + unknown))
    && |told| == broker + unknown
    && CountsUp(told, first) && LastTold(told, first) == TotalsOf(o, user)
  }

  lemma CountsUpNext(totals: seq<Diagnostics>, first: Diagnostics, next: Diagnostics)
    requires CountsUp(totals, first) && OneMore(LastTold(totals, first), next)
    ensures CountsUp(totals + [next], first) && LastTold(totals + [next], first) == next
  {
    var all := totals + [next];
    assert all[..|all| - 1] == totals;
  }

  lemma TotalsAfter(o: Observer, user: u32, owner: CaptureOwner, other: u32)
    ensures var o', d := IncrementSuppression(o, other, owner), TotalsOf(o, other);
            var d' := if owner.BrokerOwned? then d.(suppressedBroker := Capped(d.suppressedBroker + 1))
              else d.(suppressedUnknown := Capped(d.suppressedUnknown + 1));
            && TotalsOf(o', user) == (if other == user then d' else TotalsOf(o, user))
            && o'.sent == o.sent + [Routed(other, Totals(d'))]
  {
  }

  lemma SuppressionTallies(o: Observer, user: u32, owner: CaptureOwner, other: u32, first: Diagnostics, broker: nat,
      unknown: nat)
    requires Tallied(o, user, first, broker, unknown)
    ensures var mine := other == user;
            Tallied(IncrementSuppression(o, other, owner), user, first,
              broker + (if mine && owner.BrokerOwned? then 1 else 0),
              unknown + if mine && !owner.BrokerOwned? then 1 else 0)
  {
    hide TotalsIn, CountsUp, LastTold, IncrementSuppression, TotalsOf;
    var o' := IncrementSuppression(o, other, owner);
    TotalsAfter(o, user, owner, other);
    TotalsNext(o.sent, o'.sent[|o.sent|], user);
    assert TotalsIn(o.sent, user) + [] == TotalsIn(o.sent, user);
    if other == user {
      CountsUpNext(TotalsIn(o.sent, user), first, TotalsOf(o', user));
    }
  }

  lemma PublishTallies(o: Observer, owned: Owned, operation: CaptureOperation, occasion: (u64, i64), user: u32,
      first: Diagnostics, broker: nat, unknown: nat)
    requires Tallied(o, user, first, broker, unknown)
    ensures Tallied(Publish(o, owned.0, owned.1, operation, occasion.0, occasion.1), user, first,
              broker + CountOwned([owned], user, BrokerOwned),
              unknown + CountOwned([owned], user, CaptureOwner.Unknown))
  {
    hide Validate, EventFor, IncrementSuppression, TotalsIn, CountsUp, LastTold;
    assert [owned][..0] == [];
    assert CountOwned([], user, BrokerOwned) == 0 == CountOwned([], user, CaptureOwner.Unknown);
    if owned.1.owner != Direct {
      SuppressionTallies(o, user, owned.1.owner, owned.0, first, broker, unknown);
    } else {
      var o' := Publish(o, owned.0, owned.1, operation, occasion.0, occasion.1);
      if o'.sent != o.sent { TotalsNext(o.sent, o'.sent[|o.sent|], user); }
      assert TotalsIn(o.sent, user) + [] == TotalsIn(o.sent, user);
    }
  }

  lemma CountNext(concerned: seq<Owned>, next: Owned, user: u32, owner: CaptureOwner)
    ensures CountOwned(concerned + [next], user, owner) ==
            CountOwned(concerned, user, owner) + CountOwned([next], user, owner)
  {
    assert (concerned + [next])[..|concerned|] == concerned && [next][..0] == [];
    assert CountOwned([], user, owner) == 0;
  }

  lemma {:induction false} DropTallies(o: Observer, keys: seq<CandidateKey>, operation: CaptureOperation,
      occasion: (u64, i64), user: u32, first: Diagnostics, broker: nat, unknown: nat)
    requires Distinct(keys) && (forall k | k in keys :: k in o.candidates)
    requires Tallied(o, user, first, broker, unknown)
    ensures var dropped := FiledInOrder(o.candidates, keys);
            Tallied(Drop(o, keys, operation, occasion.0, occasion.1), user, first,
              broker + CountOwned(dropped, user, BrokerOwned),
              unknown + CountOwned(dropped, user, CaptureOwner.Unknown))
  {
    hide Publish, CountOwned, Tallied, FiledInOrder;
    if keys == [] {
      NothingCounted(user);
      NoneFiled(o.candidates);
    } else {
      var rest, k := keys[..|keys| - 1], keys[|keys| - 1];
      var owned := (k.userId, o.candidates[k]);
      var dropped := FiledInOrder(o.candidates, rest);
      DropTallies(o, rest, operation, occasion, user, first, broker, unknown);
      DropAnnounces(o, rest, operation, occasion);
      var o' := Drop(o, rest, operation, occasion.0, occasion.1);
      assert k !in rest && k in o'.candidates && o'.candidates[k] == o.candidates[k];
      var left := o'.(candidates := o'.candidates - {k});
      var b, u := CountOwned(dropped, user, BrokerOwned), CountOwned(dropped, user, CaptureOwner.Unknown);
      SameTally(o', left, user, first, broker + b, unknown + u);
      PublishTallies(left, owned, operation, occasion, user, first, broker + b, unknown + u);
      assert keys == rest + [k];
      FiledNext(o.candidates, rest, k);
      CountNext(dropped, owned, user, BrokerOwned);
      CountNext(dropped, owned, user, CaptureOwner.Unknown);
    }
  }

  lemma NothingCounted(user: u32)
    ensures CountOwned([], user, BrokerOwned) == 0 == CountOwned([], user, CaptureOwner.Unknown)
  {
  }

  lemma SameTally(o: Observer, o': Observer, user: u32, first: Diagnostics, broker: nat, unknown: nat)
    requires Tallied(o, user, first, broker, unknown) && o'.sent == o.sent && o'.totals == o.totals
    ensures Tallied(o', user, first, broker, unknown)
  {
  }

  lemma TurnTallies(o: Observer, tick: Tick, user: u32, first: Diagnostics, broker: nat, unknown: nat)
    requires Tallied(o, user, first, broker, unknown)
    ensures var concerned := Concerned(o.candidates, tick);
            Tallied(Turn(o, tick), user, first, broker + CountOwned(concerned, user, BrokerOwned),
              unknown + CountOwned(concerned, user, CaptureOwner.Unknown) + if Misses(tick, user) then 1 else 0)
  {
    hide Tallied, CountOwned, Publish, Drop, CandidateListing, IncrementSuppression;
    var operation, occasion := OperationOf(tick), OccasionOf(o, tick);
    NothingCounted(user);
    match tick
    case DeviceCheck(missing) =>
      var keys := WithMissingDevice(o.candidates, missing);
      CandidateListingIsDistinct(keys);
      DropTallies(o, CandidateListing(keys), operation, occasion, user, first, broker, unknown);
    case Kernel(raw, lookup) =>
      var o' := o.(lastTimestamp := if raw.timestamp > o.lastTimestamp then raw.timestamp else o.lastTimestamp);
      SameTally(o, o', user, first, broker, unknown);
      match raw.operation
      case StreamOn =>
        if Found(lookup) {
          var owned := (raw.userId, BuildCandidate(raw, lookup).value);
          PublishTallies(o', owned, operation, occasion, user, first, broker, unknown);
          SameTally(Publish(o', owned.0, owned.1, operation, occasion.0, occasion.1), Turn(o, tick), user, first,
            broker + CountOwned([owned], user, BrokerOwned), unknown + CountOwned([owned], user, CaptureOwner.Unknown));
        } else {
          SuppressionTallies(o', user, CaptureOwner.Unknown, raw.userId, first, broker, unknown);
        }
      case Exited =>
        var keys := OfProcessGroup(o.candidates, raw);
        CandidateListingIsDistinct(keys);
        DropTallies(o', CandidateListing(keys), operation, occasion, user, first, broker, unknown);
      case _ =>
        if KeyFor(raw) in o.candidates {
          var left := o'.(candidates := o.candidates - {KeyFor(raw)});
          SameTally(o', left, user, first, broker, unknown);
          PublishTallies(left, (raw.userId, o.candidates[KeyFor(raw)]), operation, occasion, user, first, broker,
            unknown);
        }
  }

  /** Over every run, from whenever a daemon listens: a user's totals are what they were plus the numbers of starts
      and dropped candidates that belong to a broker, or to nobody known, up to the greatest 64-bit number; and the
      user is sent each step of the way, the last message telling the totals as they are. */
  lemma {:induction false} SuppressionsAreCounted(o: Observer, ticks: seq<Tick>, user: u32)
    requires o.sent == []
    ensures Tallied(Turns(o, ticks), user, TotalsOf(o, user), BrokerCount(o, ticks, user), UnknownCount(o, ticks, user))
  {
    hide Turn, CountOwned, Concerned;
    if ticks != [] {
      var p := ticks[..|ticks| - 1];
      SuppressionsAreCounted(o, p, user);
      TurnTallies(Turns(o, p), ticks[|ticks| - 1], user, TotalsOf(o, user), BrokerCount(o, p, user),
        UnknownCount(o, p, user));
    }
  }
}
