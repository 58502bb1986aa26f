/** The eBPF tracepoint handlers over their four hash maps. Each handler runs as one atomic step. */
module Bpf {
  import opened Prelude

  const PENDING_ENTRIES := 4096
  const CAPTURE_ENTRIES := 16384
  const TGID_ENTRIES := 4096

  const VIDIOC_STREAMON: u32 := 0x4004_5612
  const VIDIOC_STREAMOFF: u32 := 0x4004_5613

  datatype Thread = Thread(tgid: u32, pid: u32)

  datatype CaptureKey = CaptureKey(tgid: u32, fd: i32)

  datatype PendingIoctl = PendingIoctl(fd: i32, command: u32)

  datatype Emitted =
    | StreamOn(tgid: u32, fd: i32)
    | StreamOff(tgid: u32, fd: i32)
    | Closed(tgid: u32, fd: i32)
    | Exited(tgid: u32)

  /** The maps, and every event emitted so far with its result. */
  datatype Maps = Maps(
    pendingIoctl: map<Thread, PendingIoctl>,
    pendingClose: map<Thread, i32>,
    activeCapture: map<CaptureKey, u32>,
    activeTgid: map<u32, u32>,
    emitted: seq<(Emitted, i64)>)

  const FRESH := Maps(map[], map[], map[], map[], [])

  /** An update of a full hash map with a new key fails, and the handlers ignore the failure. */
  function Update<K, V>(m: map<K, V>, k: K, v: V, capacity: nat): map<K, V> {
    if k in m || |m| < capacity then m[k := v] else m
  }

  function Increment(counts: map<u32, u32>, tgid: u32): map<u32, u32> {
    if tgid in counts then
      var next: int := counts[tgid] as int + 1;
      counts[tgid := next % 0x1_0000_0000]
    else
      Update(counts, tgid, 1, TGID_ENTRIES)
  }

  function Decrement(counts: map<u32, u32>, tgid: u32): map<u32, u32> {
    if tgid !in counts then counts
    else if counts[tgid] <= 1 then counts - {tgid}
    else counts[tgid := counts[tgid] - 1]
  }

  function Emit(m: Maps, e: Emitted, result: i64): Maps {
    m.(emitted := m.emitted + [(e, result)])
  }

  // ----- Specification: the five handlers -----

  datatype Call =
    | EnterIoctl(thread: Thread, fd: i32, command: u32)
    | ExitIoctl(thread: Thread, ret: i64)
    | EnterClose(thread: Thread, fd: i32)
    | ExitClose(thread: Thread, ret: i64)
    | ProcessExit(thread: Thread)

  function FinishIoctl(m: Maps, tgid: u32, p: PendingIoctl, ret: i64): (r: Maps)
    ensures r.pendingIoctl == m.pendingIoctl && r.pendingClose == m.pendingClose
  {
    var k := CaptureKey(tgid, p.fd);
    if p.command == VIDIOC_STREAMON then
      var started := if k in m.activeCapture then m
        else m.(activeCapture := Update(m.activeCapture, k, 1, CAPTURE_ENTRIES),
                activeTgid := Increment(m.activeTgid, tgid));
      Emit(started, StreamOn(tgid, p.fd), ret)
    else
      var stopped := if k in m.activeCapture
        then m.(activeCapture := m.activeCapture - {k}, activeTgid := Decrement(m.activeTgid, tgid)) else m;
      Emit(stopped, StreamOff(tgid, p.fd), ret)
  }

  function Trace(m: Maps, call: Call): Maps {
    match call
    case EnterIoctl(th, fd, command) =>
      if command != VIDIOC_STREAMON && command != VIDIOC_STREAMOFF then m
      else m.(pendingIoctl := Update(m.pendingIoctl, th, PendingIoctl(fd, command), PENDING_ENTRIES))
    case ExitIoctl(th, ret) =>
      if th !in m.pendingIoctl then m
      else
        var m' := m.(pendingIoctl := m.pendingIoctl - {th});
        if ret != 0 then m' else FinishIoctl(m', th.tgid, m.pendingIoctl[th], ret)
    case EnterClose(th, fd) =>
      if CaptureKey(th.tgid, fd) in m.activeCapture
      then m.(pendingClose := Update(m.pendingClose, th, fd, PENDING_ENTRIES)) else m
    case ExitClose(th, ret) =>
      if th !in m.pendingClose then m
      else
        var fd := m.pendingClose[th];
        var m' := m.(pendingClose := m.pendingClose - {th});
        if ret != 0 then m'
        else
          Emit(
            m'.(activeCapture := m.activeCapture - {CaptureKey(th.tgid, fd)},
                activeTgid := Decrement(m.activeTgid, th.tgid)),
            Closed(th.tgid, fd), ret)
    case ProcessExit(th) =>
      if th.pid == th.tgid && th.tgid in m.activeTgid
      then Emit(m.(activeTgid := m.activeTgid - {th.tgid}), Exited(th.tgid), 0) else m
  }

  ghost function TraceAll(m: Maps, calls: seq<Call>): Maps {
    if calls == [] then m else Trace(TraceAll(m, calls[..|calls| - 1]), calls[|calls| - 1])
  }

  // ----- The kernel-side program -----

  class Program {
    var pendingIoctl: map<Thread, PendingIoctl>
    var pendingClose: map<Thread, i32>
    var activeCapture: map<CaptureKey, u32>
    var activeTgid: map<u32, u32>
    var emitted: seq<(Emitted, i64)>

    ghost function Model(): Maps
      reads this
    {
      Maps(pendingIoctl, pendingClose, activeCapture, activeTgid, emitted)
    }

    constructor ()
      ensures Model() == FRESH
    {
      pendingIoctl, pendingClose, activeCapture, activeTgid, emitted := map[], map[], map[], map[], [];
    }

    method EnterIoctl(th: Thread, fd: i32, command: u32)
      modifies this
      ensures Model() == Trace(old(Model()), Call.EnterIoctl(th, fd, command))
    {
      if command != VIDIOC_STREAMON && command != VIDIOC_STREAMOFF {
        return;
      }
      pendingIoctl := Update(pendingIoctl, th, PendingIoctl(fd, command), PENDING_ENTRIES);
    }

    method ExitIoctl(th: Thread, ret: i64)
      modifies this
      ensures Model() == Trace(old(Model()), Call.ExitIoctl(th, ret))
    {
      if th !in pendingIoctl {
        return;
      }
      var copy := pendingIoctl[th];
      pendingIoctl := pendingIoctl - {th};
      if ret != 0 {
        return;
      }
      var key := CaptureKey(th.tgid, copy.fd);
      if copy.command == VIDIOC_STREAMON {
        if key !in activeCapture {
          activeCapture := Update(activeCapture, key, 1, CAPTURE_ENTRIES);
          IncrementTgid(th.tgid);
        }
        emitted := emitted + [(StreamOn(th.tgid, copy.fd), ret)];
      } else {
        if key in activeCapture {
          activeCapture := activeCapture - {key};
          DecrementTgid(th.tgid);
        }
        emitted := emitted + [(StreamOff(th.tgid, copy.fd), ret)];
      }
    }

    method EnterClose(th: Thread, fd: i32)
      modifies this
      ensures Model() == Trace(old(Model()), Call.EnterClose(th, fd))
    {
      if CaptureKey(th.tgid, fd) in activeCapture {
        pendingClose := Update(pendingClose, th, fd, PENDING_ENTRIES);
      }
    }

    method ExitClose(th: Thread, ret: i64)
      modifies this
      ensures Model() == Trace(old(Model()), Call.ExitClose(th, ret))
    {
      if th !in pendingClose {
        return;
      }
      var copy := pendingClose[th];
      pendingClose := pendingClose - {th};
      if ret != 0 {
        return;
      }
      activeCapture := activeCapture - {CaptureKey(th.tgid, copy)};
      DecrementTgid(th.tgid);
      emitted := emitted + [(Closed(th.tgid, copy), ret)];
    }

    method ProcessExit(th: Thread)
      modifies this
      ensures Model() == Trace(old(Model()), Call.ProcessExit(th))
    {
      if th.pid == th.tgid && th.tgid in activeTgid {
        activeTgid := activeTgid - {th.tgid};
        emitted := emitted + [(Exited(th.tgid), 0)];
      }
    }

    method IncrementTgid(tgid: u32)
      modifies this`activeTgid
      ensures activeTgid == Increment(old(activeTgid), tgid)
      ensures tgid in old(activeTgid) ==>
                tgid in activeTgid &&
                activeTgid[tgid] == (if old(activeTgid)[tgid] == 0xFFFF_FFFF then 0 else old(activeTgid)[tgid] + 1)
    {
      if tgid in activeTgid {
        var next: int := activeTgid[tgid] as int + 1;
        activeTgid := activeTgid[tgid := next % 0x1_0000_0000];
      } else {
        activeTgid := Update(activeTgid, tgid, 1, TGID_ENTRIES);
      }
    }

    method DecrementTgid(tgid: u32)
      modifies this`activeTgid
      ensures activeTgid == Decrement(old(activeTgid), tgid)
    {
      if tgid !in activeTgid {
        return;
      }
      if activeTgid[tgid] <= 1 {
        activeTgid := activeTgid - {tgid};
      } else {
        activeTgid := activeTgid[tgid := activeTgid[tgid] - 1];
      }
    }
  }

  // ----- Reference counts -----

  /** What a call does to the captures and counts. */
  datatype Effect = Nothing | Start(key: CaptureKey) | Remove(key: CaptureKey) | Leave(tgid: u32)

  function EffectOf(m: Maps, call: Call): Effect {
    var th := call.thread;
    match call
    case ExitIoctl(_, ret) =>
      if th !in m.pendingIoctl || ret != 0 then Nothing
      else
        var k := CaptureKey(th.tgid, m.pendingIoctl[th].fd);
        if m.pendingIoctl[th].command == VIDIOC_STREAMON
        then if k in m.activeCapture then Nothing else Start(k)
        else if k in m.activeCapture then Remove(k) else Nothing
    case ExitClose(_, ret) =>
      if th !in m.pendingClose || ret != 0 then Nothing else Remove(CaptureKey(th.tgid, m.pendingClose[th]))
    case ProcessExit(_) =>
      if th.pid == th.tgid && th.tgid in m.activeTgid then Leave(th.tgid) else Nothing
    case _ => Nothing
  }

  function Captures(captures: map<CaptureKey, u32>, e: Effect): map<CaptureKey, u32> {
    match e
    case Start(k) => Update(captures, k, 1, CAPTURE_ENTRIES)
    case Remove(k) => captures - {k}
    case _ => captures
  }

  function Counts(counts: map<u32, u32>, e: Effect): map<u32, u32> {
    match e
    case Start(k) => Increment(counts, k.tgid)
    case Remove(k) => Decrement(counts, k.tgid)
    case Leave(t) => counts - {t}
    case Nothing => counts
  }

  lemma TraceHasEffect(m: Maps, call: Call)
    ensures Trace(m, call).activeCapture == Captures(m.activeCapture, EffectOf(m, call))
    ensures Trace(m, call).activeTgid == Counts(m.activeTgid, EffectOf(m, call))
  {
    hide Increment, Decrement, Update;
    match call
    case ExitIoctl(th, ret) =>
      if th in m.pendingIoctl && ret == 0 && m.pendingIoctl[th].command == VIDIOC_STREAMON {
      } else {
      }
    case ExitClose(th, ret) =>
    case _ =>
  }

  ghost function Descriptors(captures: map<CaptureKey, u32>, tgid: u32): set<CaptureKey> {
    set k | k in captures && k.tgid == tgid
  }

  function CountOf(counts: map<u32, u32>, tgid: u32): nat {
    if tgid in counts then counts[tgid] else 0
  }

  /** A counted process has at least one active descriptor, and is not counted higher than it has descriptors. */
  ghost predicate BoundedFor(captures: map<CaptureKey, u32>, counts: map<u32, u32>, t: u32) {
    t in counts ==> 1 <= counts[t] <= |Descriptors(captures, t)|
  }

  ghost predicate Exact(captures: map<CaptureKey, u32>, counts: map<u32, u32>, t: u32) {
    CountOf(counts, t) == |Descriptors(captures, t)|
  }

  /** Whether incrementing a process's count takes effect. */
  predicate Countable(counts: map<u32, u32>, t: u32) {
    t in counts || |counts| < 4096
  }

  lemma DescriptorsAdd(captures: map<CaptureKey, u32>, k: CaptureKey, t: u32)
    requires k !in captures
    ensures |Descriptors(captures[k := 1], t)| == |Descriptors(captures, t)| + if k.tgid == t then 1 else 0
  {
    assert Descriptors(captures[k := 1], t) == Descriptors(captures, t) + if k.tgid == t then {k} else {};
  }

  lemma DescriptorsRemove(captures: map<CaptureKey, u32>, k: CaptureKey, t: u32)
    ensures |Descriptors(captures - {k}, t)| ==
            |Descriptors(captures, t)| - if k in captures && k.tgid == t then 1 else 0
  {
    if k in captures && k.tgid == t {
      assert Descriptors(captures - {k}, t) == Descriptors(captures, t) - {k};
    } else {
      assert Descriptors(captures - {k}, t) == Descriptors(captures, t);
    }
  }

  lemma {:induction false} SubsetFits<T>(a: set<T>, b: set<T>)
    requires a <= b
    ensures |a| <= |b|
  {
    if a != {} {
      var x :| x in a;
      SubsetFits(a - {x}, b - {x});
    }
  }

  lemma DescriptorsFit(captures: map<CaptureKey, u32>, t: u32)
    ensures |Descriptors(captures, t)| <= |captures|
  {
    SubsetFits(Descriptors(captures, t), captures.Keys);
  }

  lemma CountAfterIncrement(counts: map<u32, u32>, tgid: u32, t: u32)
    requires CountOf(counts, tgid) < U32_MAX
    ensures CountOf(Increment(counts, tgid), t) ==
            CountOf(counts, t) + if t == tgid && Countable(counts, tgid) then 1 else 0
    ensures t in Increment(counts, tgid) <==> t in counts || (t == tgid && Countable(counts, tgid))
  {
  }

  lemma CountAfterDecrement(counts: map<u32, u32>, tgid: u32, t: u32)
    ensures CountOf(Decrement(counts, tgid), t) ==
            CountOf(counts, t) - if t == tgid && CountOf(counts, t) > 0 then 1 else 0
    ensures t in Decrement(counts, tgid) ==> t in counts && (t == tgid ==> counts[t] > 1)
  {
  }

  lemma CapturesFit(captures: map<CaptureKey, u32>, e: Effect)
    requires |captures| <= CAPTURE_ENTRIES
    ensures |Captures(captures, e)| <= CAPTURE_ENTRIES
  {
    if e.Remove? {
      SubsetFits((captures - {e.key}).Keys, captures.Keys);
    }
  }

  /** ACTIVE_CAPTURE never outgrows its capacity. */
  lemma {:induction false} CapturesNeverOverflow(calls: seq<Call>)
    ensures |TraceAll(FRESH, calls).activeCapture| <= 16384
  {
    hide Trace, Captures, Counts;
    if calls != [] {
      var m, call := TraceAll(FRESH, calls[..|calls| - 1]), calls[|calls| - 1];
      CapturesNeverOverflow(calls[..|calls| - 1]);
      TraceHasEffect(m, call);
      CapturesFit(m.activeCapture, EffectOf(m, call));
    }
  }

  // ----- When a count exceeds the descriptors -----

  /** A descriptor of the process starts. */
  predicate Starts(m: Maps, call: Call, t: u32) {
    EffectOf(m, call).Start? && EffectOf(m, call).key.tgid == t
  }

  /** A descriptor starts that ACTIVE_CAPTURE has no room for, while its process is already counted in full. */
  ghost predicate Overcounts(m: Maps, call: Call, t: u32) {
    Starts(m, call, t) && |m.activeCapture| >= 16384 &&
    Countable(m.activeTgid, t) && CountOf(m.activeTgid, t) == |Descriptors(m.activeCapture, t)|
  }

  lemma EffectOnBound(captures: map<CaptureKey, u32>, counts: map<u32, u32>, e: Effect, t: u32)
    requires |captures| <= CAPTURE_ENTRIES && BoundedFor(captures, counts, t)
    requires e.Start? ==> e.key !in captures
    ensures BoundedFor(Captures(captures, e), Counts(counts, e), t) <==>
            !(e.Start? && e.key.tgid == t && |captures| >= 16384 &&
              Countable(counts, t) && CountOf(counts, t) == |Descriptors(captures, t)|)
  {
    hide Descriptors, Increment, Decrement;
    DescriptorsFit(captures, t);
    match e
    case Start(k) =>
      DescriptorsAdd(captures, k, t);
      if k.tgid == t {
        CountAfterIncrement(counts, t, t);
      } else {
        OthersAreLeft(counts, k.tgid, t);
      }
    case Remove(k) =>
      DescriptorsRemove(captures, k, t);
      CountAfterDecrement(counts, k.tgid, t);
    case _ =>
  }

  lemma OthersAreLeft(counts: map<u32, u32>, tgid: u32, t: u32)
    requires t != tgid
    ensures t in Increment(counts, tgid) <==> t in counts
    ensures t in counts ==> Increment(counts, tgid)[t] == counts[t]
  {
  }

  /** The bound survives a call precisely when the call does not overcount. */
  lemma BoundIsLostOnlyBy(m: Maps, call: Call, t: u32)
    requires |m.activeCapture| <= CAPTURE_ENTRIES && BoundedFor(m.activeCapture, m.activeTgid, t)
    ensures BoundedFor(Trace(m, call).activeCapture, Trace(m, call).activeTgid, t) <==> !Overcounts(m, call, t)
  {
    hide Trace, Captures, Counts, BoundedFor, Countable;
    TraceHasEffect(m, call);
    EffectOnBound(m.activeCapture, m.activeTgid, EffectOf(m, call), t);
  }

  ghost predicate BoundedAfter(calls: seq<Call>, t: u32) {
    var m := TraceAll(FRESH, calls); BoundedFor(m.activeCapture, m.activeTgid, t)
  }

  lemma TraceNext(calls: seq<Call>, i: nat)
    requires i < |calls|
    ensures TraceAll(FRESH, calls[..i + 1]) == Trace(TraceAll(FRESH, calls[..i]), calls[i])
  {
    assert calls[..i + 1][..i] == calls[..i];
  }

  ghost predicate OvercountsAt(calls: seq<Call>, i: nat, t: u32)
    requires i < |calls|
  {
    Overcounts(TraceAll(FRESH, calls[..i]), calls[i], t)
  }

  lemma BoundStep(calls: seq<Call>, i: nat, t: u32)
    requires i < |calls| && BoundedAfter(calls[..i], t)
    ensures BoundedAfter(calls[..i + 1], t) <==> !OvercountsAt(calls, i, t)
  {
    hide Trace, TraceAll, Overcounts, BoundedFor;
    CapturesNeverOverflow(calls[..i]);
    TraceNext(calls, i);
    BoundIsLostOnlyBy(TraceAll(FRESH, calls[..i]), calls[i], t);
  }

  /** Over every interleaving, a process's count stays within its active descriptors throughout precisely when
      no call overcounts it; below the capacity of ACTIVE_CAPTURE none can. */
  lemma {:induction false} CountsNeverExceedDescriptors(calls: seq<Call>, t: u32)
    ensures (forall n: nat | n <= |calls| :: BoundedAfter(calls[..n], t)) <==>
            (forall i: nat | i < |calls| :: !OvercountsAt(calls, i, t))
  {
    hide BoundedAfter, OvercountsAt;
    if forall n: nat | n <= |calls| :: BoundedAfter(calls[..n], t) {
      forall i: nat | i < |calls| ensures !OvercountsAt(calls, i, t) { BoundStep(calls, i, t); }
    }
    if forall i: nat | i < |calls| :: !OvercountsAt(calls, i, t) {
      FreshIsBounded(t);
      for n := 0 to |calls|
        invariant forall i: nat | i <= n :: BoundedAfter(calls[..i], t)
      {
        BoundStep(calls, n, t);
      }
    }
  }

  lemma FreshIsBounded(t: u32)
    ensures BoundedAfter([], t) && ExactAfter([], t)
  {
    assert Descriptors(map[], t) == {};
  }

  // ----- When a count differs from the descriptors -----

  /** The leader of a counted process exits: its descriptors stay behind uncounted. */
  predicate LeaderExits(m: Maps, call: Call, t: u32) {
    call == ProcessExit(Thread(t, t)) && CountOf(m.activeTgid, t) > 0
  }

  /** A close completes for a descriptor another thread has already removed: the count drops for nothing. */
  predicate ClosesTwice(m: Maps, call: Call, t: u32) {
    call.ExitClose? && call.ret == 0 && call.thread.tgid == t && call.thread in m.pendingClose &&
    CaptureKey(t, m.pendingClose[call.thread]) !in m.activeCapture && CountOf(m.activeTgid, t) > 0
  }

  /** The first descriptor of a process starts while ACTIVE_TGID is full: it is never counted. */
  predicate StartsUncounted(m: Maps, call: Call, t: u32) {
    Starts(m, call, t) && |m.activeCapture| < 16384 && !Countable(m.activeTgid, t)
  }

  /** A descriptor starts while ACTIVE_CAPTURE is full: it is counted, but not kept. */
  predicate StartsUnkept(m: Maps, call: Call, t: u32) {
    Starts(m, call, t) && |m.activeCapture| >= 16384 && Countable(m.activeTgid, t)
  }

  predicate Exceptional(m: Maps, call: Call, t: u32) {
    LeaderExits(m, call, t) || ClosesTwice(m, call, t) || StartsUncounted(m, call, t) || StartsUnkept(m, call, t)
  }

  lemma EffectOnExactness(captures: map<CaptureKey, u32>, counts: map<u32, u32>, e: Effect, t: u32)
    requires |captures| <= CAPTURE_ENTRIES && Exact(captures, counts, t)
    requires e.Start? ==> e.key !in captures
    ensures Exact(Captures(captures, e), Counts(counts, e), t) <==>
            match e
            case Nothing => true
            case Leave(l) => !(l == t && CountOf(counts, t) > 0)
            case Remove(k) => !(k.tgid == t && k !in captures && CountOf(counts, t) > 0)
            case Start(k) => k.tgid == t ==> (|captures| < 16384 <==> Countable(counts, t))
  {
    hide Descriptors, Increment, Decrement, Countable;
    DescriptorsFit(captures, t);
    match e
    case Start(k) =>
      DescriptorsAdd(captures, k, t);
      if k.tgid == t {
        CountAfterIncrement(counts, t, t);
      } else {
        OthersAreLeft(counts, k.tgid, t);
      }
    case Remove(k) =>
      DescriptorsRemove(captures, k, t);
      CountAfterDecrement(counts, k.tgid, t);
    case _ =>
  }

  /** An exact count stays exact through a call precisely when the call is none of the four exceptions. */
  lemma ExactnessIsLostOnlyBy(m: Maps, call: Call, t: u32)
    requires |m.activeCapture| <= CAPTURE_ENTRIES && Exact(m.activeCapture, m.activeTgid, t)
    ensures Exact(Trace(m, call).activeCapture, Trace(m, call).activeTgid, t) <==> !Exceptional(m, call, t)
  {
    hide Trace, Captures, Counts, Exact, Countable;
    TraceHasEffect(m, call);
    EffectOnExactness(m.activeCapture, m.activeTgid, EffectOf(m, call), t);
  }

  ghost predicate ExactAfter(calls: seq<Call>, t: u32) {
    var m := TraceAll(FRESH, calls); Exact(m.activeCapture, m.activeTgid, t)
  }

  ghost predicate ExceptionalAt(calls: seq<Call>, i: nat, t: u32)
    requires i < |calls|
  {
    Exceptional(TraceAll(FRESH, calls[..i]), calls[i], t)
  }

  lemma ExactStep(calls: seq<Call>, i: nat, t: u32)
    requires i < |calls| && ExactAfter(calls[..i], t)
    ensures ExactAfter(calls[..i + 1], t) <==> !ExceptionalAt(calls, i, t)
  {
    hide Trace, TraceAll, Exceptional, Exact;
    CapturesNeverOverflow(calls[..i]);
    TraceNext(calls, i);
    ExactnessIsLostOnlyBy(TraceAll(FRESH, calls[..i]), calls[i], t);
  }

  /** Over every interleaving, the count of a process is its number of active descriptors throughout precisely
      when no call is an exception for it. */
  lemma {:induction false} CountsAreExactIff(calls: seq<Call>, t: u32)
    ensures (forall n: nat | n <= |calls| :: ExactAfter(calls[..n], t)) <==>
            (forall i: nat | i < |calls| :: !ExceptionalAt(calls, i, t))
  {
    hide ExactAfter, ExceptionalAt;
    if forall n: nat | n <= |calls| :: ExactAfter(calls[..n], t) {
      forall i: nat | i < |calls| ensures !ExceptionalAt(calls, i, t) { ExactStep(calls, i, t); }
    }
    if forall i: nat | i < |calls| :: !ExceptionalAt(calls, i, t) {
      FreshIsBounded(t);
      for n := 0 to |calls|
        invariant forall i: nat | i <= n :: ExactAfter(calls[..i], t)
      {
        ExactStep(calls, n, t);
      }
    }
  }

  // ----- Runs that make each exception happen -----

  lemma TraceTwo(calls: seq<Call>, a: Call, b: Call)
    ensures TraceAll(FRESH, calls + [a]) == Trace(TraceAll(FRESH, calls), a)
    ensures TraceAll(FRESH, calls + [a, b]) == Trace(Trace(TraceAll(FRESH, calls), a), b)
  {
    hide Trace;
    assert (calls + [a])[..|calls|] == calls;
    assert (calls + [a, b])[..|calls| + 1] == calls + [a];
  }

  /** A stream starts with no other call of its thread in between. */
  function StartOf(th: Thread, fd: i32): seq<Call> {
    [EnterIoctl(th, fd, VIDIOC_STREAMON), ExitIoctl(th, 0)]
  }

  lemma StartRuns(calls: seq<Call>, th: Thread, fd: i32)
    requires TraceAll(FRESH, calls).pendingIoctl == map[]
    requires CaptureKey(th.tgid, fd) !in TraceAll(FRESH, calls).activeCapture
    ensures var m, m' := TraceAll(FRESH, calls), TraceAll(FRESH, calls + StartOf(th, fd));
            && m'.activeCapture == Update(m.activeCapture, CaptureKey(th.tgid, fd), 1, CAPTURE_ENTRIES)
            && m'.activeTgid == Increment(m.activeTgid, th.tgid)
            && m'.pendingIoctl == map[] && m'.pendingClose == m.pendingClose
  {
    hide Trace, TraceAll, Update, Increment;
    TraceTwo(calls, EnterIoctl(th, fd, VIDIOC_STREAMON), ExitIoctl(th, 0));
    EnterAlone(TraceAll(FRESH, calls), th, fd);
    ExitAlone(TraceAll(FRESH, calls), th, fd);
  }

  lemma EnterAlone(m: Maps, th: Thread, fd: i32)
    requires m.pendingIoctl == map[]
    ensures Trace(m, EnterIoctl(th, fd, VIDIOC_STREAMON)) ==
            m.(pendingIoctl := map[th := PendingIoctl(fd, VIDIOC_STREAMON)])
  {
    hide Update;
    UpdateEmpty(th, PendingIoctl(fd, VIDIOC_STREAMON));
  }

  lemma ExitAlone(m: Maps, th: Thread, fd: i32)
    requires CaptureKey(th.tgid, fd) !in m.activeCapture
    ensures var m' := Trace(m.(pendingIoctl := map[th := PendingIoctl(fd, VIDIOC_STREAMON)]), ExitIoctl(th, 0));
            && m'.activeCapture == Update(m.activeCapture, CaptureKey(th.tgid, fd), 1, CAPTURE_ENTRIES)
            && m'.activeTgid == Increment(m.activeTgid, th.tgid)
            && m'.pendingIoctl == map[] && m'.pendingClose == m.pendingClose
  {
    hide Update, Increment;
    var pending := map[th := PendingIoctl(fd, VIDIOC_STREAMON)];
    assert pending - {th} == map[];
  }

  lemma UpdateEmpty(th: Thread, p: PendingIoctl)
    ensures Update(map[], th, p, PENDING_ENTRIES) == map[th := p]
  {
  }

  /** One process starts stream after stream on new descriptors. */
  function Flood(n: nat): seq<Call>
    requires n <= CAPTURE_ENTRIES + 1
  {
    if n == 0 then [] else Flood(n - 1) + StartOf(Thread(7, 7), n - 1)
  }

  ghost function Streams(n: nat): set<CaptureKey>
    requires n <= CAPTURE_ENTRIES
  {
    set fd: i32 | 0 <= fd < n :: CaptureKey(7, fd)
  }

  lemma StreamsGrow(n: nat)
    requires 0 < n <= CAPTURE_ENTRIES
    ensures Streams(n) == Streams(n - 1) + {CaptureKey(7, n - 1)} && CaptureKey(7, n - 1) !in Streams(n - 1)
  {
  }

  lemma {:induction false} FloodState(n: nat)
    requires n <= CAPTURE_ENTRIES
    ensures var m := TraceAll(FRESH, Flood(n));
            && m.activeCapture.Keys == Streams(n) && |m.activeCapture| == n
            && CountOf(m.activeTgid, 7) == n && m.activeTgid.Keys <= {7}
            && m.pendingIoctl == map[] && m.pendingClose == map[]
  {
    hide Trace, TraceAll, Streams;
    if n == 0 {
      assert TraceAll(FRESH, []) == FRESH by { TraceNothing(); }
      assert Streams(0) == {} by { StreamsNone(); }
    } else {
      FloodState(n - 1);
      StreamsGrow(n);
      var m := TraceAll(FRESH, Flood(n - 1));
      StartRuns(Flood(n - 1), Thread(7, 7), n - 1);
      SubsetFits(m.activeTgid.Keys, {7});
      CountAfterIncrement(m.activeTgid, 7, 7);
      assert |m.activeTgid| == |m.activeTgid.Keys|;
      assert |m.activeCapture[CaptureKey(7, n - 1) := 1]| == |m.activeCapture| + 1;
    }
  }

  lemma TraceNothing()
    ensures TraceAll(FRESH, []) == FRESH
  {
  }

  lemma StreamsNone()
    ensures Streams(0) == {}
  {
  }

  lemma OwnStreams(captures: map<CaptureKey, u32>, n: nat)
    requires n <= CAPTURE_ENTRIES && captures.Keys == Streams(n)
    ensures Descriptors(captures, 7) == captures.Keys
  {
  }

  /** The stream after the one that fills ACTIVE_CAPTURE is counted but not kept: the count is then above the
      number of descriptors. */
  lemma FullCaptureMiscounts()
    ensures ExactAfter(Flood(16384), 7) && BoundedAfter(Flood(16384), 7)
    ensures !ExactAfter(Flood(16385), 7) && !BoundedAfter(Flood(16385), 7)
  {
    hide Trace, TraceAll, Streams, Flood, Descriptors;
    var n := CAPTURE_ENTRIES;
    var m := TraceAll(FRESH, Flood(n));
    FloodState(n);
    OwnStreams(m.activeCapture, n);
    StreamIsNew(n);
    FloodNext(n);
    StartRuns(Flood(n), Thread(7, 7), n);
    CountAfterIncrement(m.activeTgid, 7, 7);
  }

  lemma StreamIsNew(n: nat)
    requires n <= CAPTURE_ENTRIES
    ensures CaptureKey(7, n) !in Streams(n)
  {
  }

  lemma FloodNext(n: nat)
    requires n <= CAPTURE_ENTRIES
    ensures Flood(n + 1) == Flood(n) + StartOf(Thread(7, 7), n)
  {
  }

  /** One process after the other starts a stream. */
  function Crowd(n: nat): seq<Call>
    requires n <= TGID_ENTRIES + 1
  {
    if n == 0 then [] else Crowd(n - 1) + StartOf(Thread(n, n), 0)
  }

  lemma {:induction false} CrowdState(n: nat)
    requires n <= TGID_ENTRIES
    ensures var m := TraceAll(FRESH, Crowd(n));
            && (forall k | k in m.activeCapture :: 1 <= k.tgid <= n) && |m.activeCapture| == n
            && (forall t | t in m.activeTgid :: 1 <= t <= n) && |m.activeTgid| == n
            && m.pendingIoctl == map[]
  {
    hide Trace, TraceAll;
    if n == 0 {
      TraceNothing();
    } else {
      CrowdState(n - 1);
      StartRuns(Crowd(n - 1), Thread(n, n), 0);
      var m := TraceAll(FRESH, Crowd(n - 1));
      assert |m.activeCapture[CaptureKey(n, 0) := 1]| == |m.activeCapture| + 1;
      assert |m.activeTgid[n := 1]| == |m.activeTgid| + 1;
    }
  }

  /** The first stream of a process beyond the capacity of ACTIVE_TGID is never counted. */
  lemma FullTgidMiscounts()
    ensures ExactAfter(Crowd(4096), 4097)
    ensures !ExactAfter(Crowd(4097), 4097)
  {
    hide Trace, TraceAll, Crowd;
    var n := TGID_ENTRIES;
    var m := TraceAll(FRESH, Crowd(n));
    CrowdState(n);
    assert Crowd(n + 1) == Crowd(n) + StartOf(Thread(n + 1, n + 1), 0) by { CrowdNext(n); }
    StartRuns(Crowd(n), Thread(n + 1, n + 1), 0);
    assert Descriptors(m.activeCapture, n + 1) == {};
    DescriptorsAdd(m.activeCapture, CaptureKey(n + 1, 0), n + 1);
  }

  /** What an uncounted start costs: the exit of the streaming process goes unreported. */
  lemma UncountedExitIsSilent()
    ensures var t: u32, m := 4097, TraceAll(FRESH, Crowd(4097));
            Descriptors(m.activeCapture, t) != {} && Trace(m, ProcessExit(Thread(t, t))) == m
  {
    hide TraceAll, Crowd;
    var n := TGID_ENTRIES;
    var m := TraceAll(FRESH, Crowd(n));
    CrowdState(n);
    CrowdNext(n);
    StartRuns(Crowd(n), Thread(n + 1, n + 1), 0);
    CountAfterIncrement(m.activeTgid, n + 1, n + 1);
    assert CaptureKey(n + 1, 0) in Descriptors(TraceAll(FRESH, Crowd(n + 1)).activeCapture, n + 1);
  }

  lemma CrowdNext(n: nat)
    requires n <= TGID_ENTRIES
    ensures Crowd(n + 1) == Crowd(n) + StartOf(Thread(n + 1, n + 1), 0)
  {
  }

  /** The leader of a streaming process exits without closing. */
  lemma LeaderExitMiscounts()
    ensures ExactAfter(Flood(1), 7) && !ExactAfter(Flood(1) + [ProcessExit(Thread(7, 7))], 7)
  {
    hide TraceAll, Descriptors, Flood;
    FloodState(1);
    OwnStreams(TraceAll(FRESH, Flood(1)).activeCapture, 1);
    TraceTwo(Flood(1), ProcessExit(Thread(7, 7)), ProcessExit(Thread(7, 7)));
  }

  /** With two streams, one thread closes a descriptor while another switches that stream off. */
  const TWO_CLOSERS := [
    EnterClose(Thread(7, 7), 1), EnterIoctl(Thread(7, 8), 1, VIDIOC_STREAMOFF), ExitIoctl(Thread(7, 8), 0),
    ExitClose(Thread(7, 7), 0)]

  /** The close of an active descriptor that another thread switches off before it completes. */
  lemma OverlappingClose(m: Maps)
    requires m.pendingIoctl == map[] && m.pendingClose == map[] && CaptureKey(7, 1) in m.activeCapture
    ensures var off := Trace(Trace(Trace(m, TWO_CLOSERS[0]), TWO_CLOSERS[1]), TWO_CLOSERS[2]);
            && off.activeCapture == m.activeCapture - {CaptureKey(7, 1)}
            && off.activeTgid == Decrement(m.activeTgid, 7)
            && Trace(off, TWO_CLOSERS[3]).activeCapture == off.activeCapture - {CaptureKey(7, 1)}
            && Trace(off, TWO_CLOSERS[3]).activeTgid == Decrement(off.activeTgid, 7)
  {
    hide Decrement;
    var m1 := Trace(m, TWO_CLOSERS[0]);
    assert m1 == m.(pendingClose := map[Thread(7, 7) := 1]);
    var m2 := Trace(m1, TWO_CLOSERS[1]);
    assert m2 == m1.(pendingIoctl := map[Thread(7, 8) := PendingIoctl(1, VIDIOC_STREAMOFF)]);
    assert Thread(7, 7) in Trace(m2, TWO_CLOSERS[2]).pendingClose;
  }

  lemma LateCloseMiscounts()
    ensures ExactAfter(Flood(2) + TWO_CLOSERS[..3], 7) && !ExactAfter(Flood(2) + TWO_CLOSERS, 7)
  {
    hide TraceAll, Trace, Descriptors, Flood, Streams, Decrement;
    FloodState(2);
    var m := TraceAll(FRESH, Flood(2));
    OwnStreams(m.activeCapture, 2);
    StreamsGrow(2);
    OverlappingClose(m);
    TraceTwo(Flood(2), TWO_CLOSERS[0], TWO_CLOSERS[1]);
    TraceTwo(Flood(2) + [TWO_CLOSERS[0], TWO_CLOSERS[1]], TWO_CLOSERS[2], TWO_CLOSERS[3]);
    assert Flood(2) + [TWO_CLOSERS[0], TWO_CLOSERS[1]] + [TWO_CLOSERS[2]] == Flood(2) + TWO_CLOSERS[..3];
    assert Flood(2) + [TWO_CLOSERS[0], TWO_CLOSERS[1]] + [TWO_CLOSERS[2], TWO_CLOSERS[3]] == Flood(2) + TWO_CLOSERS;
    DescriptorsRemove(m.activeCapture, CaptureKey(7, 1), 7);
    DescriptorsRemove(m.activeCapture - {CaptureKey(7, 1)}, CaptureKey(7, 1), 7);
    CountAfterDecrement(m.activeTgid, 7, 7);
    CountAfterDecrement(Decrement(m.activeTgid, 7), 7, 7);
  }

  // ----- Event history -----

  ghost predicate StartedBefore(log: seq<(Emitted, i64)>, n: int, tgid: u32, fd: i32) {
    exists i :: 0 <= i < n && i < |log| && log[i].0 == StreamOn(tgid, fd)
  }

  /** A start of the process is logged with no exit of it logged since. */
  ghost predicate StartedSinceExit(log: seq<(Emitted, i64)>, n: int, tgid: u32) {
    exists i :: 0 <= i < n && i < |log| && log[i].0.StreamOn? && log[i].0.tgid == tgid &&
      forall j | i < j < n && j < |log| :: log[j].0 != Exited(tgid)
  }

  ghost predicate LogJustified(log: seq<(Emitted, i64)>) {
    forall n | 0 <= n < |log| ::
      && log[n].1 == 0
      && (log[n].0.Closed? ==> StartedBefore(log, n, log[n].0.tgid, log[n].0.fd))
      && (log[n].0.Exited? ==> StartedSinceExit(log, n, log[n].0.tgid))
  }

  ghost predicate Justified(m: Maps) {
    && (forall k | k in m.activeCapture :: StartedBefore(m.emitted, |m.emitted|, k.tgid, k.fd))
    && (forall th | th in m.pendingClose :: StartedBefore(m.emitted, |m.emitted|, th.tgid, m.pendingClose[th]))
    && (forall t | t in m.activeTgid :: StartedSinceExit(m.emitted, |m.emitted|, t))
    && LogJustified(m.emitted)
  }

  lemma LogGrows(log: seq<(Emitted, i64)>, e: (Emitted, i64), n: int, tgid: u32, fd: i32)
    requires 0 <= n <= |log|
    ensures StartedBefore(log, n, tgid, fd) ==>
              StartedBefore(log + [e], n, tgid, fd) && StartedBefore(log + [e], n + 1, tgid, fd)
    ensures StartedSinceExit(log, n, tgid) ==> StartedSinceExit(log + [e], n, tgid)
    ensures n == |log| && StartedSinceExit(log, n, tgid) && e.0 != Exited(tgid) ==>
        StartedSinceExit(log + [e], n + 1, tgid)
    ensures n == |log| && e.0 == StreamOn(tgid, fd) ==>
              StartedBefore(log + [e], n + 1, tgid, fd) && StartedSinceExit(log + [e], n + 1, tgid)
  {
    var log' := log + [e];
    if StartedBefore(log, n, tgid, fd) {
      var i :| 0 <= i < n && i < |log| && log[i].0 == StreamOn(tgid, fd);
      assert log'[i] == log[i];
    }
    if StartedSinceExit(log, n, tgid) {
      var i :| 0 <= i < n && i < |log| && log[i].0.StreamOn? && log[i].0.tgid == tgid &&
        forall j | i < j < n && j < |log| :: log[j].0 != Exited(tgid);
      assert log'[i] == log[i];
      assert forall j | i < j < n :: log'[j] == log[j];
    }
    if n == |log| && e.0 == StreamOn(tgid, fd) {
      assert log'[n].0 == StreamOn(tgid, fd);
    }
  }

  /** Emitting an event its own history justifies keeps the log and the maps justified. */
  lemma EmitJustified(m: Maps, e: Emitted)
    requires Justified(m)
    requires e.Closed? ==> StartedBefore(m.emitted, |m.emitted|, e.tgid, e.fd)
    requires e.Exited? ==> StartedSinceExit(m.emitted, |m.emitted|, e.tgid)
    requires e.Exited? ==> e.tgid in m.activeTgid
    ensures Justified(Emit(m, e, 0).(activeTgid := if e.Exited? then m.activeTgid - {e.tgid} else m.activeTgid))
  {
    var log, log' := m.emitted, m.emitted + [(e, 0 as i64)];
    forall k | k in m.activeCapture ensures StartedBefore(log', |log'|, k.tgid, k.fd) {
      LogGrows(log, (e, 0), |log|, k.tgid, k.fd);
    }
    forall th | th in m.pendingClose ensures StartedBefore(log', |log'|, th.tgid, m.pendingClose[th]) {
      LogGrows(log, (e, 0), |log|, th.tgid, m.pendingClose[th]);
    }
    forall t | t in m.activeTgid && e != Exited(t) ensures StartedSinceExit(log', |log'|, t) {
      LogGrows(log, (e, 0), |log|, t, 0);
    }
    forall n | 0 <= n < |log'|
      ensures log'[n].1 == 0
      ensures log'[n].0.Closed? ==> StartedBefore(log', n, log'[n].0.tgid, log'[n].0.fd)
      ensures log'[n].0.Exited? ==> StartedSinceExit(log', n, log'[n].0.tgid)
    {
      var x := log'[n].0;
      if x.Closed? { LogGrows(log, (e, 0), n, x.tgid, x.fd); }
      if x.Exited? { LogGrows(log, (e, 0), n, x.tgid, 0); }
    }
  }

  lemma CloseKeepsHistory(m: Maps, th: Thread)
    requires Justified(m) && th in m.pendingClose
    ensures Justified(Trace(m, ExitClose(th, 0)))
  {
    hide StartedBefore, StartedSinceExit, LogJustified;
    var fd := m.pendingClose[th];
    var m' := m.(
      pendingClose := m.pendingClose - {th},
      activeCapture := m.activeCapture - {CaptureKey(th.tgid, fd)},
      activeTgid := Decrement(m.activeTgid, th.tgid));
    assert Justified(m');
    EmitJustified(m', Closed(th.tgid, fd));
  }

  lemma CallKeepsHistory(m: Maps, call: Call)
    requires Justified(m)
    ensures Justified(Trace(m, call))
  {
    hide StartedBefore, StartedSinceExit, LogJustified, Decrement, FinishIoctl;
    var th := call.thread;
    match call
    case EnterIoctl(_, _, _) =>
    case EnterClose(_, fd) =>
    case ExitIoctl(_, ret) =>
      if th in m.pendingIoctl && ret == 0 {
        StreamKeepsHistory(m.(pendingIoctl := m.pendingIoctl - {th}), th.tgid, m.pendingIoctl[th]);
      }
    case ExitClose(_, ret) =>
      if th in m.pendingClose && ret == 0 {
        CloseKeepsHistory(m, th);
      } else {
        assert Trace(m, call).(pendingClose := m.pendingClose) == m;
      }
    case ProcessExit(_) =>
      if th.pid == th.tgid && th.tgid in m.activeTgid {
        EmitJustified(m, Exited(th.tgid));
      }
  }

  lemma StreamKeepsHistory(m: Maps, tgid: u32, p: PendingIoctl)
    requires Justified(m)
    ensures Justified(FinishIoctl(m, tgid, p, 0))
  {
    hide StartedBefore, StartedSinceExit, LogJustified;
    if p.command == VIDIOC_STREAMON {
      EmitJustified(m, StreamOn(tgid, p.fd));
      LogGrows(m.emitted, (StreamOn(tgid, p.fd), 0), |m.emitted|, tgid, p.fd);
    } else {
      var k := CaptureKey(tgid, p.fd);
      var m' := if k in m.activeCapture
        then m.(activeCapture := m.activeCapture - {k}, activeTgid := Decrement(m.activeTgid, tgid)) else m;
      assert Justified(m');
      EmitJustified(m', StreamOff(tgid, p.fd));
    }
  }

  /** For every interleaving: every event reports success, every close follows a start of the same descriptor,
      and every process exit follows a start of that process since its previous exit. */
  lemma {:induction false} HistoryIsJustified(calls: seq<Call>)
    ensures Justified(TraceAll(FRESH, calls))
  {
    hide Trace, Justified;
    if calls == [] {
      NothingToJustify();
    } else {
      HistoryIsJustified(calls[..|calls| - 1]);
      CallKeepsHistory(TraceAll(FRESH, calls[..|calls| - 1]), calls[|calls| - 1]);
    }
  }

  lemma NothingToJustify()
    ensures Justified(FRESH)
  {
  }

  // ----- Pending entries belong to system calls in progress -----

  datatype Syscall = Outside | InIoctl | InClose

  /** The system call a thread is in after the given calls, judged by its own calls alone. */
  ghost function Inside(calls: seq<Call>, th: Thread): Syscall {
    if calls == [] then Outside
    else
      var last := calls[|calls| - 1];
      if last.thread != th then Inside(calls[..|calls| - 1], th)
      else
        match last
        case EnterIoctl(_, _, _) => InIoctl
        case EnterClose(_, _) => InClose
        case _ => Outside
  }

  /** Each thread alternates: it enters and exits only from outside, and leaves the call it is in. */
  ghost predicate Alternating(calls: seq<Call>) {
    forall i | 0 <= i < |calls| ::
      Inside(calls[..i], calls[i].thread) ==
      match calls[i]
      case ExitIoctl(_, _) => InIoctl
      case ExitClose(_, _) => InClose
      case _ => Outside
  }

  lemma PendingChanges(m: Maps, call: Call, th: Thread)
    ensures th in Trace(m, call).pendingIoctl ==>
              (th in m.pendingIoctl && !(call.ExitIoctl? && call.thread == th)) || (call.EnterIoctl? &&
                  call.thread == th)
    ensures th in Trace(m, call).pendingClose ==>
              (th in m.pendingClose && !(call.ExitClose? && call.thread == th)) || (call.EnterClose? &&
                  call.thread == th)
  {
    hide Increment, Decrement, FinishIoctl;
    match call
    case ExitIoctl(_, _) =>
    case _ =>
  }

  /** Entries wait in the pending maps only while their thread is inside that system call. */
  lemma {:induction false} PendingOnlyInside(calls: seq<Call>, th: Thread)
    requires Alternating(calls)
    ensures th in TraceAll(FRESH, calls).pendingIoctl ==> Inside(calls, th) == InIoctl
    ensures th in TraceAll(FRESH, calls).pendingClose ==> Inside(calls, th) == InClose
  {
    hide Trace;
    if calls != [] {
      var n := |calls| - 1;
      var p := calls[..n];
      assert forall i | 0 <= i < n :: p[i] == calls[i] && p[..i] == calls[..i];
      PendingOnlyInside(p, th);
      PendingChanges(TraceAll(FRESH, p), calls[n], th);
    }
  }

  // ----- What the calls of a run report -----

  /** The last call of a thread, or -1. */
  ghost function LastCall(calls: seq<Call>, th: Thread): (i: int)
    ensures -1 <= i < |calls| && (i >= 0 ==> calls[i].thread == th)
    ensures forall j | i < j < |calls| :: calls[j].thread != th
  {
    if calls == [] then -1
    else if calls[|calls| - 1].thread == th then |calls| - 1
    else LastCall(calls[..|calls| - 1], th)
  }

  /** The call enters a stream ioctl and there is room to remember it. */
  ghost predicate AwaitsIoctl(m: Maps, call: Call) {
    && call.EnterIoctl? && (call.command == 0x4004_5612 || call.command == 0x4004_5613)
    && |m.pendingIoctl| < 4096
  }

  /** The call enters the close of an active descriptor and there is room to remember it. */
  ghost predicate AwaitsClose(m: Maps, call: Call) {
    && call.EnterClose? && CaptureKey(call.thread.tgid, call.fd) in m.activeCapture
    && |m.pendingClose| < 4096
  }

  lemma UpdateKeepsOthers<V>(m: map<Thread, V>, k: Thread, v: V, capacity: nat, th: Thread)
    requires k != th
    ensures th in Update(m, k, v, capacity) <==> th in m
    ensures th in m ==> Update(m, k, v, capacity)[th] == m[th]
  {
  }

  lemma OtherThreadsWait(m: Maps, call: Call, th: Thread)
    requires call.thread != th
    ensures var m' := Trace(m, call);
            && (th in m'.pendingIoctl <==> th in m.pendingIoctl)
            && (th in m.pendingIoctl ==> m'.pendingIoctl[th] == m.pendingIoctl[th])
            && (th in m'.pendingClose <==> th in m.pendingClose)
            && (th in m.pendingClose ==> m'.pendingClose[th] == m.pendingClose[th])
  {
    hide Increment, Decrement, FinishIoctl, Update;
    match call
    case EnterIoctl(k, fd, command) =>
      UpdateKeepsOthers(m.pendingIoctl, k, PendingIoctl(fd, command), PENDING_ENTRIES, th);
    case EnterClose(k, fd) => UpdateKeepsOthers(m.pendingClose, k, fd, PENDING_ENTRIES, th);
    case ExitIoctl(k, _) =>
    case ExitClose(k, _) =>
    case ProcessExit(k) =>
  }

  lemma OwnCallsWait(m: Maps, call: Call)
    requires !call.ExitIoctl? ==> call.thread !in m.pendingIoctl
    requires !call.ExitClose? ==> call.thread !in m.pendingClose
    ensures var m', th := Trace(m, call), call.thread;
            && (th in m'.pendingIoctl <==> AwaitsIoctl(m, call))
            && (th in m'.pendingIoctl ==> m'.pendingIoctl[th] == PendingIoctl(call.fd, call.command))
            && (th in m'.pendingClose <==> AwaitsClose(m, call))
            && (th in m'.pendingClose ==> m'.pendingClose[th] == call.fd)
  {
    hide Increment, Decrement, FinishIoctl;
    match call
    case EnterIoctl(_, _, _) =>
    case EnterClose(_, _) =>
    case ExitIoctl(_, _) =>
    case ExitClose(_, _) =>
    case ProcessExit(_) =>
  }

  /** If threads alternate entering and leaving system calls: a thread's entry waits exactly when its last call entered
      a stream ioctl, or the close of an active descriptor, and there was room; and it remembers what that call said. */
  lemma {:induction false} PendingIsLastCall(calls: seq<Call>, th: Thread)
    requires Alternating(calls)
    ensures var m, i := TraceAll(FRESH, calls), LastCall(calls, th);
            && (th in m.pendingIoctl <==> i >= 0 && AwaitsIoctl(TraceAll(FRESH, calls[..i]), calls[i]))
            && (th in m.pendingIoctl ==> m.pendingIoctl[th] == PendingIoctl(calls[i].fd, calls[i].command))
            && (th in m.pendingClose <==> i >= 0 && AwaitsClose(TraceAll(FRESH, calls[..i]), calls[i]))
            && (th in m.pendingClose ==> m.pendingClose[th] == calls[i].fd)
  {
    hide Trace, AwaitsIoctl, AwaitsClose, Inside;
    if calls != [] {
      var n := |calls| - 1;
      var p := calls[..n];
      assert forall i | 0 <= i < n :: p[i] == calls[i] && p[..i] == calls[..i];
      var m := TraceAll(FRESH, p);
      if calls[n].thread == th {
        PendingOnlyInside(p, th);
        OwnCallsWait(m, calls[n]);
      } else {
        PendingIsLastCall(p, th);
        OtherThreadsWait(m, calls[n], th);
      }
    }
  }

  /** What the last call of a run reports, read off the calls alone but for room and counts: leaving a stream ioctl, or
      a close, successfully reports what its thread entered; the exit of a leader reports its process if that is
      counted; nothing else reports anything. */
  ghost function Reported(calls: seq<Call>, call: Call): seq<(Emitted, i64)> {
    var m, i := TraceAll(FRESH, calls), LastCall(calls, call.thread);
    var tgid := call.thread.tgid;
    match call
    case ExitIoctl(_, ret) =>
      if ret == 0 && i >= 0 && AwaitsIoctl(TraceAll(FRESH, calls[..i]), calls[i])
      then [(if calls[i].command == 0x4004_5612 then StreamOn(tgid, calls[i].fd) else StreamOff(tgid, calls[i].fd), 0)]
      else []
    case ExitClose(_, ret) =>
      if ret == 0 && i >= 0 && AwaitsClose(TraceAll(FRESH, calls[..i]), calls[i])
      then [(Closed(tgid, calls[i].fd), 0)] else []
    case ProcessExit(_) => if call.thread.pid == tgid && tgid in m.activeTgid then [(Exited(tgid), 0)] else []
    case _ => []
  }

  lemma EmitsAsRemembered(m: Maps, call: Call)
    ensures Trace(m, call).emitted == m.emitted +
            match call
            case ExitIoctl(th, ret) =>
              if ret == 0 && th in m.pendingIoctl
              then [(if m.pendingIoctl[th].command == 0x4004_5612 then StreamOn(th.tgid, m.pendingIoctl[th].fd)
                     else StreamOff(th.tgid, m.pendingIoctl[th].fd), 0)]
              else []
            case ExitClose(th, ret) =>
              if ret == 0 && th in m.pendingClose then [(Closed(th.tgid, m.pendingClose[th]), 0)] else []
            case ProcessExit(th) =>
              if th.pid == th.tgid && th.tgid in m.activeTgid then [(Exited(th.tgid), 0)] else []
            case _ => []
  {
    hide Increment, Decrement, Update;
    match call
    case ExitIoctl(_, _) =>
    case ExitClose(_, _) =>
    case _ =>
  }

  /** Over every run, each call reports exactly that. */
  lemma CallsReport(calls: seq<Call>)
    requires calls != [] && Alternating(calls)
    ensures var p, last := calls[..|calls| - 1], calls[|calls| - 1];
            TraceAll(FRESH, calls).emitted == TraceAll(FRESH, p).emitted + Reported(p, last)
  {
    hide Trace, AwaitsIoctl, AwaitsClose;
    var n := |calls| - 1;
    var p := calls[..n];
    assert forall i | 0 <= i < n :: p[i] == calls[i] && p[..i] == calls[..i];
    PendingIsLastCall(p, calls[n].thread);
    EmitsAsRemembered(TraceAll(FRESH, p), calls[n]);
  }
}
