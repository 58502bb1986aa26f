/** The tracepoint program's own record of active descriptors, against the observer's candidates. */
module KernelMirror {
  import opened Prelude
  import Orders
  import opened Capture
  import opened KernelEvents
  import opened Agreement
  import opened ObserverRuns
  import Bpf

  // ----- Kernel events come from the tracepoint program -----

  /** The kernel event carries a record the program emitted. */
  predicate Carries(raw: KernelEvent, record: (Bpf.Emitted, i64)) {
    && raw.result == record.1
    && raw.threadGroupId == record.0.tgid
    && match record.0
       case StreamOn(_, fd) => raw.operation == KernelOperation.StreamOn && raw.fileDescriptor == fd
       case StreamOff(_, fd) => raw.operation == KernelOperation.StreamOff && raw.fileDescriptor == fd
       case Closed(_, fd) => raw.operation == KernelOperation.Closed && raw.fileDescriptor == fd
       case Exited(_) => raw.operation == KernelOperation.Exited && raw.fileDescriptor == -1
  }

  /** Every kernel event carries a record of some run of the program, in whatever order and from whatever CPU. */
  ghost predicate FromProgram(ticks: seq<Tick>, calls: seq<Bpf.Call>) {
    forall i | 0 <= i < |ticks| && ticks[i].Kernel? ::
      exists record :: record in Bpf.TraceAll(Bpf.FRESH, calls).emitted && Carries(ticks[i].raw, record)
  }

  lemma ProgramReportsSuccess(ticks: seq<Tick>, calls: seq<Bpf.Call>)
    requires FromProgram(ticks, calls)
    ensures ResultsAreZero(ticks)
  {
    hide Bpf.TraceAll;
    Bpf.HistoryIsJustified(calls);
  }

  // ----- One call of the program, told to the observer -----

  /** The record a call emits, if any. */
  function Record(m: Bpf.Maps, call: Bpf.Call): Option<(Bpf.Emitted, i64)> {
    var log := Bpf.Trace(m, call).emitted;
    if |log| > |m.emitted| then Some(log[|log| - 1]) else None
  }

  /** The observer after a call, if `tick` is the turn that handles what the call emits. */
  ghost function Told(o: Observer, m: Bpf.Maps, call: Bpf.Call, tick: Tick): Observer {
    if Record(m, call).Some? then Turn(o, tick) else o
  }

  /** The turn carries the call's record. */
  predicate Reports(m: Bpf.Maps, call: Bpf.Call, tick: Tick) {
    Record(m, call).Some? ==> tick.Kernel? && Carries(tick.raw, Record(m, call).value)
  }

  /** The observer has a candidate of user `u` for exactly the descriptors of process `t` in ACTIVE_CAPTURE. */
  ghost predicate Mirrors(m: Bpf.Maps, o: Observer, t: u32, u: u32) {
    forall fd: i32 :: CandidateKey(u, t, fd) in o.candidates <==> Bpf.CaptureKey(t, fd) in m.activeCapture
  }

  /** A descriptor starts that only one side takes in: ACTIVE_CAPTURE is full, or the device is not found, or the
      process runs under another user by now. */
  predicate StartsOneSided(m: Bpf.Maps, call: Bpf.Call, tick: Tick, t: u32, u: u32) {
    Bpf.Starts(m, call, t) && tick.Kernel? &&
    (|m.activeCapture| < 16384 <==>
      !(BuildCandidate(tick.raw, tick.lookup).Some? && tick.raw.userId == u))
  }

  /** A descriptor is stopped or closed while the process runs under another user: its candidate stays. */
  predicate EndsElsewhere(m: Bpf.Maps, call: Bpf.Call, tick: Tick, t: u32, u: u32) {
    var record := Record(m, call);
    record.Some? && tick.Kernel? && tick.raw.userId != u &&
    match record.value.0
    case StreamOff(t', fd) => t' == t && Bpf.CaptureKey(t, fd) in m.activeCapture
    case Closed(t', fd) => t' == t && Bpf.CaptureKey(t, fd) in m.activeCapture
    case _ => false
  }

  /** The leader of a counted process exits with descriptors left, which stay in ACTIVE_CAPTURE. */
  ghost predicate LeavesDescriptors(m: Bpf.Maps, call: Bpf.Call, tick: Tick, t: u32, u: u32) {
    call == Bpf.ProcessExit(Bpf.Thread(t, t)) && t in m.activeTgid && tick.Kernel? && tick.raw.userId == u &&
    Bpf.Descriptors(m.activeCapture, t) != {}
  }

  /** What makes the two records part at a call. */
  ghost predicate Parts(m: Bpf.Maps, call: Bpf.Call, tick: Tick, t: u32, u: u32) {
    || StartsOneSided(m, call, tick, t, u)
    || EndsElsewhere(m, call, tick, t, u)
    || LeavesDescriptors(m, call, tick, t, u)
  }

  function AtTime(o: Observer, raw: KernelEvent): Observer {
    o.(lastTimestamp := if raw.timestamp > o.lastTimestamp then raw.timestamp else o.lastTimestamp)
  }

  lemma CandidatesAfter(o: Observer, raw: KernelEvent, lookup: Lookup)
    ensures var after := Turn(o, Kernel(raw, lookup)).candidates.Keys;
            match raw.operation
            case StreamOn =>
              after == o.candidates.Keys + if BuildCandidate(raw, lookup).Some? then {KeyFor(raw)} else {}
            case StreamOff | Closed => after == o.candidates.Keys - {KeyFor(raw)}
            case Exited => after == o.candidates.Keys - OfProcessGroup(o.candidates, raw)
  {
    hide Handle, BuildCandidate;
    match raw.operation
    case StreamOn => StartedCandidates(AtTime(o, raw), raw, lookup);
    case StreamOff => EndedCandidates(AtTime(o, raw), raw, lookup);
    case Closed => EndedCandidates(AtTime(o, raw), raw, lookup);
    case Exited => ExitedCandidates(AtTime(o, raw), raw, lookup);
  }

  lemma StartedCandidates(o: Observer, raw: KernelEvent, lookup: Lookup)
    requires raw.operation == KernelOperation.StreamOn
    ensures Handle(o, raw, lookup).candidates.Keys ==
            o.candidates.Keys + if BuildCandidate(raw, lookup).Some? then {KeyFor(raw)} else {}
  {
    hide EventFor, Validate, BuildCandidate;
  }

  lemma EndedCandidates(o: Observer, raw: KernelEvent, lookup: Lookup)
    requires raw.operation == KernelOperation.StreamOff || raw.operation == KernelOperation.Closed
    ensures Handle(o, raw, lookup).candidates.Keys == o.candidates.Keys - {KeyFor(raw)}
  {
    hide DropOne;
    DropOneFiles(o, KeyFor(raw), StreamStopped, raw.timestamp, raw.result);
    DropOneFiles(o, KeyFor(raw), DeviceClosed, raw.timestamp, raw.result);
  }

  lemma ExitedCandidates(o: Observer, raw: KernelEvent, lookup: Lookup)
    requires raw.operation == KernelOperation.Exited
    ensures Handle(o, raw, lookup).candidates.Keys == o.candidates.Keys - OfProcessGroup(o.candidates, raw)
  {
    hide Drop, CandidateListing, UserMachine, EndedBy;
    var keys := OfProcessGroup(o.candidates, raw);
    CandidateListingIsDistinct(keys);
    DropMoves(o, 0, CandidateListing(keys), ProcessExited, raw.timestamp, raw.result);
    assert o.candidates.Keys - keys == (o.candidates - Orders.Elements(CandidateListing(keys))).Keys;
  }

  lemma UpdatedKeys(captures: map<Bpf.CaptureKey, u32>, k: Bpf.CaptureKey)
    ensures Bpf.Update(captures, k, 1, Bpf.CAPTURE_ENTRIES).Keys ==
            captures.Keys + (if |captures| < Bpf.CAPTURE_ENTRIES then {k} else {})
  {
  }

  lemma FinishedIoctl(m: Bpf.Maps, tgid: u32, p: Bpf.PendingIoctl, ret: i64)
    ensures var after, k := Bpf.FinishIoctl(m, tgid, p, ret), Bpf.CaptureKey(tgid, p.fd);
            if p.command == Bpf.VIDIOC_STREAMON then
              && after.emitted == m.emitted + [(Bpf.StreamOn(tgid, p.fd), ret)]
              && after.activeCapture.Keys ==
                 m.activeCapture.Keys + (if |m.activeCapture| < Bpf.CAPTURE_ENTRIES then {k} else {})
            else
              && after.emitted == m.emitted + [(Bpf.StreamOff(tgid, p.fd), ret)]
              && after.activeCapture.Keys == m.activeCapture.Keys - {k}
  {
    hide Bpf.Increment, Bpf.Decrement, Bpf.Update;
    UpdatedKeys(m.activeCapture, Bpf.CaptureKey(tgid, p.fd));
  }

  /** What a call does to ACTIVE_CAPTURE, told by the record it emits. */
  ghost predicate CapturesMatch(m: Bpf.Maps, call: Bpf.Call, record: Option<(Bpf.Emitted, i64)>) {
    var before, after := m.activeCapture.Keys, Bpf.Trace(m, call).activeCapture.Keys;
    match record
    case None => after == before
    case Some(r) =>
      match r.0
      case StreamOn(t, fd) =>
        var k := Bpf.CaptureKey(t, fd);
        && after == before + (if |m.activeCapture| < Bpf.CAPTURE_ENTRIES then {k} else {})
        && (k !in before <==> Bpf.Starts(m, call, t))
      case StreamOff(t, fd) => after == before - {Bpf.CaptureKey(t, fd)}
      case Closed(t, fd) => after == before - {Bpf.CaptureKey(t, fd)}
      case Exited(t) => after == before && call == Bpf.ProcessExit(Bpf.Thread(t, t)) && t in m.activeTgid
  }

  /** A start of the process, or a counted exit of its leader, is always reported as such. */
  ghost predicate Reported(m: Bpf.Maps, call: Bpf.Call, record: Option<(Bpf.Emitted, i64)>, t: u32) {
    && (Bpf.Starts(m, call, t) ==> record.Some? && record.value.0.StreamOn? && record.value.0.tgid == t)
    && (call == Bpf.ProcessExit(Bpf.Thread(t, t)) && t in m.activeTgid ==>
         record.Some? && record.value.0 == Bpf.Exited(t))
  }

  lemma IoctlIs(m: Bpf.Maps, th: Bpf.Thread, ret: i64)
    ensures var left := m.(pendingIoctl := m.pendingIoctl - {th});
            Bpf.Trace(m, Bpf.ExitIoctl(th, ret)) ==
            if th !in m.pendingIoctl then m
            else if ret != 0 then left
            else Bpf.FinishIoctl(left, th.tgid, m.pendingIoctl[th], ret)
  {
    hide Bpf.FinishIoctl;
  }

  lemma IoctlRecord(m: Bpf.Maps, th: Bpf.Thread, ret: i64)
    ensures Record(m, Bpf.ExitIoctl(th, ret)) ==
            if th !in m.pendingIoctl || ret != 0 then None
            else
              var p := m.pendingIoctl[th];
              Some((if p.command == Bpf.VIDIOC_STREAMON then Bpf.StreamOn(th.tgid, p.fd)
                    else Bpf.StreamOff(th.tgid, p.fd), ret))
  {
    hide Bpf.Trace, Bpf.FinishIoctl;
    IoctlIs(m, th, ret);
    if th in m.pendingIoctl && ret == 0 {
      FinishedIoctl(m.(pendingIoctl := m.pendingIoctl - {th}), th.tgid, m.pendingIoctl[th], ret);
    }
  }

  lemma IoctlStarts(m: Bpf.Maps, th: Bpf.Thread, ret: i64, t: u32)
    ensures Bpf.Starts(m, Bpf.ExitIoctl(th, ret), t) <==>
            th in m.pendingIoctl && ret == 0 && m.pendingIoctl[th].command == Bpf.VIDIOC_STREAMON &&
            Bpf.CaptureKey(th.tgid, m.pendingIoctl[th].fd) !in m.activeCapture && th.tgid == t
  {
  }

  lemma IoctlCaptures(m: Bpf.Maps, th: Bpf.Thread, ret: i64, t: u32)
    ensures CapturesMatch(m, Bpf.ExitIoctl(th, ret), Record(m, Bpf.ExitIoctl(th, ret)))
    ensures Reported(m, Bpf.ExitIoctl(th, ret), Record(m, Bpf.ExitIoctl(th, ret)), t)
  {
    hide Bpf.Trace, Bpf.FinishIoctl, Record, Bpf.Starts;
    IoctlIs(m, th, ret);
    IoctlRecord(m, th, ret);
    IoctlStarts(m, th, ret, t);
    IoctlStarts(m, th, ret, th.tgid);
    if th in m.pendingIoctl && ret == 0 {
      FinishedIoctl(m.(pendingIoctl := m.pendingIoctl - {th}), th.tgid, m.pendingIoctl[th], ret);
    }
  }

  lemma CloseCaptures(m: Bpf.Maps, th: Bpf.Thread, ret: i64, t: u32)
    ensures CapturesMatch(m, Bpf.ExitClose(th, ret), Record(m, Bpf.ExitClose(th, ret)))
    ensures Reported(m, Bpf.ExitClose(th, ret), Record(m, Bpf.ExitClose(th, ret)), t)
  {
    hide Bpf.Decrement;
    if th in m.pendingClose && ret == 0 {
      assert Record(m, Bpf.ExitClose(th, ret)) == Some((Bpf.Closed(th.tgid, m.pendingClose[th]), ret));
    }
  }

  lemma OtherCaptures(m: Bpf.Maps, call: Bpf.Call, t: u32)
    requires !call.ExitIoctl? && !call.ExitClose?
    ensures CapturesMatch(m, call, Record(m, call)) && Reported(m, call, Record(m, call), t)
  {
    hide Bpf.Update;
    assert Record(m, call).Some? ==> Record(m, call).value == (Bpf.Exited(call.thread.tgid), 0);
  }

  lemma CapturesAfter(m: Bpf.Maps, call: Bpf.Call, t: u32)
    ensures CapturesMatch(m, call, Record(m, call)) && Reported(m, call, Record(m, call), t)
  {
    hide CapturesMatch, Reported, Record;
    match call
    case ExitIoctl(th, ret) => IoctlCaptures(m, th, ret, t);
    case ExitClose(th, ret) => CloseCaptures(m, th, ret, t);
    case _ => OtherCaptures(m, call, t);
  }

  lemma MirrorsWithoutRecord(m: Bpf.Maps, o: Observer, call: Bpf.Call, tick: Tick, t: u32, u: u32)
    requires Reports(m, call, tick) && Mirrors(m, o, t, u)
    requires Record(m, call).None?
    ensures Mirrors(Bpf.Trace(m, call), Told(o, m, call, tick), t, u) <==> !Parts(m, call, tick, t, u)
  {
    hide Bpf.Trace, Turn, BuildCandidate, Bpf.Starts, Record, Bpf.Descriptors, Mirrors;
    CapturesAfter(m, call, t);
    var m', o' := Bpf.Trace(m, call), Told(o, m, call, tick);
    NoneTouched(m, o, m', o', t, u);
  }

  /** A call that reports a start can part the records in no other way. */
  lemma StartPartsAlone(m: Bpf.Maps, call: Bpf.Call, tick: Tick, t: u32, u: u32)
    requires Reports(m, call, tick) && Record(m, call).Some? && Record(m, call).value.0.StreamOn?
    ensures var StreamOn(t', fd) := Record(m, call).value.0;
            Parts(m, call, tick, t, u) <==>
            t' == t && Bpf.CaptureKey(t, fd) !in m.activeCapture &&
            (|m.activeCapture| < 16384) !=
            (BuildCandidate(tick.raw, tick.lookup).Some? && tick.raw.userId == u)
  {
    hide Bpf.Trace, BuildCandidate, Bpf.Starts, Record, Bpf.Descriptors;
    var StreamOn(t', fd) := Record(m, call).value.0;
    CapturesAfter(m, call, t);
    CapturesAfter(m, call, t');
  }

  lemma MirrorsOnStart(m: Bpf.Maps, o: Observer, call: Bpf.Call, tick: Tick, t: u32, u: u32)
    requires Reports(m, call, tick) && Mirrors(m, o, t, u)
    requires Record(m, call).Some? && Record(m, call).value.0.StreamOn?
    ensures Mirrors(Bpf.Trace(m, call), Told(o, m, call, tick), t, u) <==> !Parts(m, call, tick, t, u)
  {
    hide Bpf.Trace, Turn, BuildCandidate, Bpf.Starts, Record, Mirrors, Parts;
    var StreamOn(t', fd) := Record(m, call).value.0;
    CapturesAfter(m, call, t');
    StartPartsAlone(m, call, tick, t, u);
    CandidatesAfter(o, tick.raw, tick.lookup);
    OneStarted(m, o, Bpf.Trace(m, call), Told(o, m, call, tick), t, u, t', fd, tick.raw.userId,
      |m.activeCapture| < 16384, BuildCandidate(tick.raw, tick.lookup).Some?);
  }

  lemma MirrorsOnExit(m: Bpf.Maps, o: Observer, call: Bpf.Call, tick: Tick, t: u32, u: u32)
    requires Reports(m, call, tick) && Mirrors(m, o, t, u)
    requires Record(m, call).Some? && Record(m, call).value.0.Exited?
    ensures Mirrors(Bpf.Trace(m, call), Told(o, m, call, tick), t, u) <==> !Parts(m, call, tick, t, u)
  {
    hide Bpf.Trace, Turn, BuildCandidate, Bpf.Starts, Record, Bpf.Descriptors, Mirrors;
    CapturesAfter(m, call, t);
    var m', o' := Bpf.Trace(m, call), Told(o, m, call, tick);
    CandidatesAfter(o, tick.raw, tick.lookup);
    if Record(m, call).value.0.tgid == t && tick.raw.userId == u {
      LeftBehind(m, o, m', o', t, u);
    } else {
      NoneTouched(m, o, m', o', t, u);
    }
  }

  lemma MirrorsOnEnd(m: Bpf.Maps, o: Observer, call: Bpf.Call, tick: Tick, t: u32, u: u32)
    requires Reports(m, call, tick) && Mirrors(m, o, t, u)
    requires Record(m, call).Some? && (Record(m, call).value.0.StreamOff? || Record(m, call).value.0.Closed?)
    ensures Mirrors(Bpf.Trace(m, call), Told(o, m, call, tick), t, u) <==> !Parts(m, call, tick, t, u)
  {
    hide Bpf.Trace, Turn, BuildCandidate, Bpf.Starts, Record, Bpf.Descriptors, Mirrors;
    CapturesAfter(m, call, t);
    var m', o' := Bpf.Trace(m, call), Told(o, m, call, tick);
    var record := Record(m, call).value.0;
    CandidatesAfter(o, tick.raw, tick.lookup);
    OneGone(m, o, m', o', t, u, record.tgid, record.fd, tick.raw.userId);
  }

  /** The two records of process `t` stay the same through a call precisely when it is no one-sided start, no end
      under another user, and no exit that leaves descriptors behind. */
  lemma MirrorsIff(m: Bpf.Maps, o: Observer, call: Bpf.Call, tick: Tick, t: u32, u: u32)
    requires Reports(m, call, tick) && Mirrors(m, o, t, u)
    ensures Mirrors(Bpf.Trace(m, call), Told(o, m, call, tick), t, u) <==> !Parts(m, call, tick, t, u)
  {
    hide Bpf.Trace, Record, Mirrors, Told, Reports, Parts;
    var record := Record(m, call);
    if record.None? {
      MirrorsWithoutRecord(m, o, call, tick, t, u);
    } else if record.value.0.StreamOn? {
      MirrorsOnStart(m, o, call, tick, t, u);
    } else if record.value.0.Exited? {
      MirrorsOnExit(m, o, call, tick, t, u);
    } else {
      MirrorsOnEnd(m, o, call, tick, t, u);
    }
  }

  lemma NoneTouched(m: Bpf.Maps, o: Observer, m': Bpf.Maps, o': Observer, t: u32, u: u32)
    requires Mirrors(m, o, t, u) && m'.activeCapture.Keys == m.activeCapture.Keys
    requires forall fd: i32 :: CandidateKey(u, t, fd) in o'.candidates <==> CandidateKey(u, t, fd) in o.candidates
    ensures Mirrors(m', o', t, u)
  {
  }

  lemma OneStarted(m: Bpf.Maps, o: Observer, m': Bpf.Maps, o': Observer, t: u32, u: u32, t': u32, fd: i32, user: u32,
      room: bool, built: bool)
    requires Mirrors(m, o, t, u)
    requires m'.activeCapture.Keys == m.activeCapture.Keys + (if room then {Bpf.CaptureKey(t', fd)} else {})
    requires o'.candidates.Keys == o.candidates.Keys + (if built then {CandidateKey(user, t', fd)} else {})
    ensures Mirrors(m', o', t, u) <==>
            !(t' == t && Bpf.CaptureKey(t, fd) !in m.activeCapture && room != (built && user == u))
  {
    assert forall k :: k in m'.activeCapture <==> k in m.activeCapture || (room && k == Bpf.CaptureKey(t', fd));
    assert forall k :: k in o'.candidates <==> k in o.candidates || (built && k == CandidateKey(user, t', fd));
    assert t' == t ==> (CandidateKey(u, t, fd) in o.candidates <==> Bpf.CaptureKey(t, fd) in m.activeCapture);
    if t' == t && Bpf.CaptureKey(t, fd) !in m.activeCapture && room != (built && user == u) {
      assert CandidateKey(u, t, fd) in o'.candidates <==> built && user == u;
    }
  }

  lemma OneGone(m: Bpf.Maps, o: Observer, m': Bpf.Maps, o': Observer, t: u32, u: u32, t': u32, fd: i32, user: u32)
    requires Mirrors(m, o, t, u)
    requires m'.activeCapture.Keys == m.activeCapture.Keys - {Bpf.CaptureKey(t', fd)}
    requires o'.candidates.Keys == o.candidates.Keys - {CandidateKey(user, t', fd)}
    ensures Mirrors(m', o', t, u) <==> !(t' == t && user != u && Bpf.CaptureKey(t, fd) in m.activeCapture)
  {
    if t' == t && user != u && Bpf.CaptureKey(t, fd) in m.activeCapture {
      assert CandidateKey(u, t, fd) in o'.candidates && Bpf.CaptureKey(t, fd) !in m'.activeCapture;
    }
  }

  /** All candidates of the process are gone while its descriptors stay. */
  lemma LeftBehind(m: Bpf.Maps, o: Observer, m': Bpf.Maps, o': Observer, t: u32, u: u32)
    requires m'.activeCapture.Keys == m.activeCapture.Keys
    requires forall fd: i32 :: CandidateKey(u, t, fd) !in o'.candidates
    ensures Mirrors(m', o', t, u) <==> Bpf.Descriptors(m.activeCapture, t) == {}
  {
    assert forall fd: i32 | Bpf.CaptureKey(t, fd) in m'.activeCapture ::
        Bpf.CaptureKey(t, fd) in Bpf.Descriptors(m.activeCapture, t);
    if Bpf.Descriptors(m.activeCapture, t) != {} {
      var k :| k in Bpf.Descriptors(m.activeCapture, t);
      assert k == Bpf.CaptureKey(t, k.fd) && Bpf.CaptureKey(t, k.fd) in m'.activeCapture;
    }
  }

  lemma CheckedCandidates(o: Observer, missing: set<string>)
    ensures Turn(o, DeviceCheck(missing)).candidates.Keys ==
            o.candidates.Keys - WithMissingDevice(o.candidates, missing)
  {
    hide Drop, CandidateListing, UserMachine, EndedBy;
    var gone := WithMissingDevice(o.candidates, missing);
    CandidateListingIsDistinct(gone);
    DropMoves(o, 0, CandidateListing(gone), DeviceRemoved, SaturatingAdd64(o.lastTimestamp, 1), 0);
    assert o.candidates.Keys - gone == (o.candidates - Orders.Elements(CandidateListing(gone))).Keys;
  }

  /** A device check keeps the two records the same precisely when it drops no candidate of the process. */
  lemma CheckMirrorsIff(m: Bpf.Maps, o: Observer, missing: set<string>, t: u32, u: u32)
    requires Mirrors(m, o, t, u)
    ensures Mirrors(m, Turn(o, DeviceCheck(missing)), t, u) <==>
            forall k | k in WithMissingDevice(o.candidates, missing) :: !(k.userId == u && k.threadGroupId == t)
  {
    hide Turn;
    CheckedCandidates(o, missing);
    var gone, o' := WithMissingDevice(o.candidates, missing), Turn(o, DeviceCheck(missing));
    assert forall k :: k in o'.candidates <==> k in o.candidates && k !in gone;
    if k :| k in gone && k.userId == u && k.threadGroupId == t {
      assert k == CandidateKey(u, t, k.fileDescriptor);
      assert CandidateKey(u, t, k.fileDescriptor) !in o'.candidates;
    }
  }

  // ----- Whole runs -----

  /** A handler call with the turn that handles what it emits, or a periodic device check. */
  datatype Moment = Called(call: Bpf.Call, tick: Tick) | Checked(missing: set<string>)

  ghost function CallsOf(moments: seq<Moment>): seq<Bpf.Call> {
    if moments == [] then []
    else
      var last := moments[|moments| - 1];
      CallsOf(moments[..|moments| - 1]) + if last.Called? then [last.call] else []
  }

  ghost function MapsAfter(moments: seq<Moment>): Bpf.Maps {
    Bpf.TraceAll(Bpf.FRESH, CallsOf(moments))
  }

  /** The turns of the observer's event loop. */
  ghost function TurnsOf(moments: seq<Moment>): seq<Tick> {
    if moments == [] then []
    else
      var p, last := moments[..|moments| - 1], moments[|moments| - 1];
      TurnsOf(p) +
      match last
      case Called(call, tick) => if Record(MapsAfter(p), call).Some? then [tick] else []
      case Checked(missing) => [DeviceCheck(missing)]
  }

  ghost function ObserverAfter(moments: seq<Moment>): Observer {
    Turns(STARTING, TurnsOf(moments))
  }

  ghost predicate ReportsAt(moments: seq<Moment>, i: nat)
    requires i < |moments|
  {
    moments[i].Called? ==> Reports(MapsAfter(moments[..i]), moments[i].call, moments[i].tick)
  }

  ghost predicate AllReported(moments: seq<Moment>) {
    forall i: nat | i < |moments| :: ReportsAt(moments, i)
  }

  ghost predicate MirrorsAfter(moments: seq<Moment>, t: u32, u: u32) {
    Mirrors(MapsAfter(moments), ObserverAfter(moments), t, u)
  }

  ghost predicate PartsAt(moments: seq<Moment>, i: nat, t: u32, u: u32)
    requires i < |moments|
  {
    var m, o := MapsAfter(moments[..i]), ObserverAfter(moments[..i]);
    match moments[i]
    case Called(call, tick) => Parts(m, call, tick, t, u)
    case Checked(missing) =>
      exists k :: k in WithMissingDevice(o.candidates, missing) && k.userId == u && k.threadGroupId == t
  }

  lemma Appended(moments: seq<Moment>, last: Moment)
    ensures var m, o := MapsAfter(moments), ObserverAfter(moments);
            match last
            case Called(call, tick) =>
              MapsAfter(moments + [last]) == Bpf.Trace(m, call) &&
              ObserverAfter(moments + [last]) == Told(o, m, call, tick)
            case Checked(missing) =>
              MapsAfter(moments + [last]) == m && ObserverAfter(moments + [last]) == Turn(o, DeviceCheck(missing))
  {
    hide Bpf.Trace, Turn, Record;
    var all := moments + [last];
    assert all[..|moments|] == moments;
    var calls, turns := CallsOf(moments), TurnsOf(moments);
    assert calls + [] == calls && turns + [] == turns;
    match last
    case Called(call, tick) =>
      assert (calls + [call])[..|calls|] == calls;
      assert (turns + [tick])[..|turns|] == turns;
    case Checked(missing) =>
      assert (turns + [DeviceCheck(missing)])[..|turns|] == turns;
  }

  lemma MirrorStep(moments: seq<Moment>, i: nat, t: u32, u: u32)
    requires i < |moments| && ReportsAt(moments, i) && MirrorsAfter(moments[..i], t, u)
    ensures MirrorsAfter(moments[..i + 1], t, u) <==> !PartsAt(moments, i, t, u)
  {
    hide Bpf.Trace, Turn, Told, Mirrors, Reports, Parts, MapsAfter, ObserverAfter;
    var m, o := MapsAfter(moments[..i]), ObserverAfter(moments[..i]);
    assert moments[..i + 1] == moments[..i] + [moments[i]];
    Appended(moments[..i], moments[i]);
    match moments[i]
    case Called(call, tick) => MirrorsIff(m, o, call, tick, t, u);
    case Checked(missing) => CheckMirrorsIff(m, o, missing, t, u);
  }

  /** Over every interleaving of handler calls and device checks, the observer tracks exactly the descriptors of a
      process in ACTIVE_CAPTURE throughout precisely when the records part at no call and no check drops one of the
      process's candidates. */
  lemma {:induction false} MirrorsThroughoutIff(moments: seq<Moment>, t: u32, u: u32)
    requires AllReported(moments)
    ensures (forall n: nat | n <= |moments| :: MirrorsAfter(moments[..n], t, u)) <==>
            (forall i: nat | i < |moments| :: !PartsAt(moments, i, t, u))
  {
    hide MirrorsAfter, PartsAt, ReportsAt;
    if forall n: nat | n <= |moments| :: MirrorsAfter(moments[..n], t, u) {
      forall i: nat | i < |moments| ensures !PartsAt(moments, i, t, u) { MirrorStep(moments, i, t, u); }
    }
    if forall i: nat | i < |moments| :: !PartsAt(moments, i, t, u) {
      FreshMirrors(t, u);
      assert moments[..0] == [];
      for n := 0 to |moments|
        invariant forall i: nat | i <= n :: MirrorsAfter(moments[..i], t, u)
      {
        MirrorStep(moments, n, t, u);
      }
    }
  }

  lemma FreshMirrors(t: u32, u: u32)
    ensures MirrorsAfter([], t, u)
  {
    assert Turns(STARTING, []) == STARTING;
  }

  /** The turns of a reported run carry records of the program. */
  lemma {:induction false} TurnsAreFromProgram(moments: seq<Moment>)
    requires AllReported(moments)
    ensures FromProgram(TurnsOf(moments), CallsOf(moments))
  {
    hide Bpf.Trace, Carries, Record;
    if moments != [] {
      var n := |moments| - 1;
      var p := moments[..n];
      forall i: nat | i < n ensures ReportsAt(p, i) {
        assert p[..i] == moments[..i] && ReportsAt(moments, i);
      }
      TurnsAreFromProgram(p);
      Appended(p, moments[n]);
      assert moments == p + [moments[n]];
      assert ReportsAt(moments, n);
      if moments[n].Called? {
        LogOnlyGrows(MapsAfter(p), moments[n].call);
      }
    }
  }

  lemma LogOnlyGrows(m: Bpf.Maps, call: Bpf.Call)
    ensures forall record | record in m.emitted :: record in Bpf.Trace(m, call).emitted
    ensures Record(m, call).Some? ==> Record(m, call).value in Bpf.Trace(m, call).emitted
  {
    hide Bpf.Increment, Bpf.Decrement;
  }

  /** When all candidates of a process are announced captures of its user, the captures tracked for it are its
      descriptors in ACTIVE_CAPTURE. */
  lemma TrackedAreDescriptors(m: Bpf.Maps, o: Observer, t: u32, u: u32, fd: i32)
    requires Mirrors(m, o, t, u) && WellFiled(o.candidates)
    requires forall k | k in o.candidates && k.userId == u && k.threadGroupId == t :: Announced(o.candidates[k])
    ensures Bpf.CaptureKey(t, fd) in m.activeCapture <==>
            exists x :: x in Tracked(o.candidates, u) && x.threadGroupId == t && x.fileDescriptor == fd
  {
    hide Announced;
    var k := CandidateKey(u, t, fd);
    if Bpf.CaptureKey(t, fd) in m.activeCapture {
      assert AnnouncedFor(o.candidates, u, o.candidates.Keys, k);
      assert CaptureKeyOf(o.candidates[k]) in Tracked(o.candidates, u);
    }
    if x :| x in Tracked(o.candidates, u) && x.threadGroupId == t && x.fileDescriptor == fd {
      var k' :| k' in o.candidates && AnnouncedFor(o.candidates, u, o.candidates.Keys, k') &&
        CaptureKeyOf(o.candidates[k']) == x;
      assert k' == k;
    }
  }

  // ----- Runs on which the two records part -----

  const PROCESS := Bpf.Thread(7, 7)

  /** Process 7 of user 1000 streams from a camera on descriptor 0. */
  const STREAMING := [
    Called(Bpf.EnterIoctl(PROCESS, 0, Bpf.VIDIOC_STREAMON), DeviceCheck({})),
    Called(Bpf.ExitIoctl(PROCESS, 0), Event(1, 0, KernelOperation.StreamOn, Camera(0, "a")))]

  /** What process 7 reports at time 2 for descriptor `fd`, running under user `u`. */
  function Later(fd: i32, operation: KernelOperation, u: u32): Tick {
    Kernel(KernelEvent(2, 7, 7, u, fd, operation, 0), Lookup(None, None, CaptureOwner.Unknown))
  }

  lemma CallTwo(a: Moment, b: Moment)
    requires a.Called? && b.Called?
    ensures CallsOf([a, b]) == [a.call, b.call]
  {
    assert [a, b][..1] == [a] && [a][..0] == [];
    assert CallsOf([a]) == [a.call];
  }

  lemma StreamingMirrors()
    ensures AllReported(STREAMING) && MirrorsAfter(STREAMING, 7, 1000)
    ensures var m, o, k := MapsAfter(STREAMING), ObserverAfter(STREAMING), CandidateKey(1000, 7, 0);
            && m.activeCapture.Keys == {Bpf.CaptureKey(7, 0)} && 7 in m.activeTgid && m.pendingIoctl == map[]
            && o.candidates.Keys == {k} && k in o.candidates && o.candidates[k].device.udevSyspath == Some("a")
  {
    hide Turn;
    var m1 := MapsAfter(STREAMING[..1]);
    assert STREAMING[..0] == [] && STREAMING[..1] == [] + [STREAMING[0]];
    assert STREAMING == STREAMING[..1] + [STREAMING[1]];
    assert MapsAfter([]) == Bpf.FRESH && ObserverAfter([]) == STARTING;
    Appended([], STREAMING[0]);
    Appended(STREAMING[..1], STREAMING[1]);
    assert m1 == Bpf.FRESH.(pendingIoctl := map[PROCESS := Bpf.PendingIoctl(0, Bpf.VIDIOC_STREAMON)]);
    assert ObserverAfter(STREAMING[..1]) == STARTING;
    StreamingMaps(m1);
    StreamingCandidate();
  }

  lemma StreamingMaps(m: Bpf.Maps)
    requires m == Bpf.FRESH.(pendingIoctl := map[PROCESS := Bpf.PendingIoctl(0, Bpf.VIDIOC_STREAMON)])
    ensures var call, m' := Bpf.ExitIoctl(PROCESS, 0), Bpf.Trace(m, Bpf.ExitIoctl(PROCESS, 0));
            && m'.activeCapture.Keys == {Bpf.CaptureKey(7, 0)} && 7 in m'.activeTgid && m'.pendingIoctl == map[]
            && Record(m, call) == Some((Bpf.StreamOn(7, 0), 0))
  {
    IoctlIs(m, PROCESS, 0);
    IoctlRecord(m, PROCESS, 0);
  }

  lemma StreamingCandidate()
    ensures var o, k := Turn(STARTING, STREAMING[1].tick), CandidateKey(1000, 7, 0);
            o.candidates.Keys == {k} && o.candidates[k].device.udevSyspath == Some("a")
  {
    hide Handle;
    var tick := STREAMING[1].tick;
    StartMoves(AtTime(STARTING, tick.raw), tick.raw, tick.lookup, 0);
  }

  /** The camera is unplugged while its descriptor is open: a check drops the candidate, ACTIVE_CAPTURE keeps it. */
  lemma UnplugParts()
    ensures AllReported(STREAMING + [Checked({"a"})]) && MirrorsAfter(STREAMING, 7, 1000)
    ensures !MirrorsAfter(STREAMING + [Checked({"a"})], 7, 1000)
  {
    hide Reports, Turn, MapsAfter, ObserverAfter, Mirrors;
    StreamingMirrors();
    Appended(STREAMING, Checked({"a"}));
    ReportedFurther(STREAMING, Checked({"a"}));
    var m, o := MapsAfter(STREAMING), ObserverAfter(STREAMING);
    assert CandidateKey(1000, 7, 0) in WithMissingDevice(o.candidates, {"a"});
    CheckMirrorsIff(m, o, {"a"}, 7, 1000);
  }

  lemma ReportedFurther(moments: seq<Moment>, last: Moment)
    requires AllReported(moments)
    requires last.Called? ==> Reports(MapsAfter(moments), last.call, last.tick)
    ensures AllReported(moments + [last])
  {
    hide Reports, MapsAfter;
    var all := moments + [last];
    assert all[..|moments|] == moments;
    forall i: nat | i < |all| ensures ReportsAt(all, i) {
      if i < |moments| {
        assert all[..i] == moments[..i] && ReportsAt(moments, i);
      }
    }
  }

  /** The process exits while streaming: its candidate goes, ACTIVE_CAPTURE keeps the descriptor. */
  const EXIT := Called(Bpf.ProcessExit(PROCESS), Later(-1, KernelOperation.Exited, 1000))

  lemma StreamingExitParts()
    ensures AllReported(STREAMING + [EXIT]) && MirrorsAfter(STREAMING, 7, 1000)
    ensures !MirrorsAfter(STREAMING + [EXIT], 7, 1000)
  {
    hide Bpf.Trace, Turn, MapsAfter, ObserverAfter, Mirrors, Told, Record;
    StreamingMirrors();
    var m, o := MapsAfter(STREAMING), ObserverAfter(STREAMING);
    ExitRecord(m);
    Appended(STREAMING, EXIT);
    ReportedFurther(STREAMING, EXIT);
    assert Bpf.CaptureKey(7, 0) in Bpf.Descriptors(m.activeCapture, 7);
    MirrorsIff(m, o, EXIT.call, EXIT.tick, 7, 1000);
  }

  lemma ExitRecord(m: Bpf.Maps)
    requires 7 in m.activeTgid
    ensures Record(m, Bpf.ProcessExit(PROCESS)) == Some((Bpf.Exited(7), 0))
  {
  }

  /** The process gives up its user before it switches the stream off: the old candidate stays. */
  const SWITCH := [
    Called(Bpf.EnterIoctl(PROCESS, 0, Bpf.VIDIOC_STREAMOFF), DeviceCheck({})),
    Called(Bpf.ExitIoctl(PROCESS, 0), Later(0, KernelOperation.StreamOff, 2000))]

  lemma UserChangeParts()
    ensures AllReported(STREAMING + SWITCH) && MirrorsAfter(STREAMING, 7, 1000)
    ensures !MirrorsAfter(STREAMING + SWITCH, 7, 1000)
  {
    hide Bpf.Trace, Turn, MapsAfter, ObserverAfter, Mirrors, Told, Record;
    StreamingMirrors();
    var m, o := MapsAfter(STREAMING), ObserverAfter(STREAMING);
    SwitchRecords(m);
    Appended(STREAMING, SWITCH[0]);
    ReportedFurther(STREAMING, SWITCH[0]);
    MirrorsIff(m, o, SWITCH[0].call, SWITCH[0].tick, 7, 1000);
    var entered := STREAMING + [SWITCH[0]];
    Appended(entered, SWITCH[1]);
    ReportedFurther(entered, SWITCH[1]);
    assert entered + [SWITCH[1]] == STREAMING + SWITCH;
    MirrorsIff(MapsAfter(entered), ObserverAfter(entered), SWITCH[1].call, SWITCH[1].tick, 7, 1000);
  }

  lemma SwitchRecords(m: Bpf.Maps)
    requires m.pendingIoctl == map[]
    ensures var entered := Bpf.Trace(m, SWITCH[0].call);
            && entered.activeCapture == m.activeCapture
            && Record(m, SWITCH[0].call) == None
            && Record(entered, SWITCH[1].call) == Some((Bpf.StreamOff(7, 0), 0))
  {
    IoctlRecord(Bpf.Trace(m, SWITCH[0].call), PROCESS, 0);
  }
}
