/** Observer wire events, their validation, and the session an accepted start creates. */
module Capture {
  import opened Prelude
  import opened Orders
  import opened Decimal

  const OBSERVER_SCHEMA_VERSION: u16 := 1
  const MAX_IDENTITY_FIELD_BYTES := 512

  datatype CaptureOwner = Direct | BrokerOwned | Unknown

  datatype CaptureConfidence = Confirmed | OpenOnly | Unconfirmed

  datatype CaptureOperation =
    | DeviceOpened
    | StreamStarted
    | StreamStopped
    | CaptureRead
    | DeviceClosed
    | ProcessExited
    | DeviceRemoved
    | BackendLost

  datatype PhysicalCamera = PhysicalCamera(
    major: u32,
    minor: u32,
    udevSyspath: Option<string>,
    mediaDevice: Option<string>,
    serial: Option<string>,
    hardwarePath: Option<string>,
    vendorId: Option<string>,
    productId: Option<string>,
    busInfo: Option<string>,
    driver: Option<string>,
    displayName: Option<string>)
  {
    function TextFields(): seq<Option<string>> {
      [udevSyspath, mediaDevice, serial, hardwarePath, vendorId, productId, busInfo, driver, displayName]
    }
  }

  datatype CaptureEvent = CaptureEvent(
    schemaVersion: u16,
    timestamp: u64,
    processId: u32,
    threadGroupId: u32,
    startTicks: u64,
    fileDescriptor: i32,
    device: PhysicalCamera,
    operation: CaptureOperation,
    result: i64,
    confidence: CaptureConfidence,
    owner: CaptureOwner)

  datatype ValidationError =
    | UnsupportedSchema(version: u16)
    | NonDirectOwner
    | InvalidProcessIdentity
    | InvalidFileDescriptor
    | InvalidResult
    | InvalidConfidence
    | IdentityFieldTooLong

  datatype ApplicationIdentity = ApplicationIdentity(
    pid: Option<u32>, appId: Option<string>, displayName: string, binary: Option<string>)

  datatype CameraDevice = CameraDevice(id: string, displayName: string, nodeName: Option<string>)

  datatype SessionState = Active | Stopped | Interrupted | Indeterminate

  datatype CameraSession = CameraSession(
    id: string,
    application: ApplicationIdentity,
    device: CameraDevice,
    startTicks: u64,
    threadGroupId: u32,
    fileDescriptor: i32,
    startedAt: u64,
    lastObserved: u64,
    state: SessionState)

  datatype CaptureKey = CaptureKey(
    threadGroupId: u32, startTicks: u64, fileDescriptor: i32, major: u32, minor: u32)

  /** The derived lexicographic order of capture keys. */
  predicate KeyLeq(a: CaptureKey, b: CaptureKey) {
    a.threadGroupId < b.threadGroupId || (a.threadGroupId == b.threadGroupId &&
    (a.startTicks < b.startTicks || (a.startTicks == b.startTicks &&
    (a.fileDescriptor < b.fileDescriptor || (a.fileDescriptor == b.fileDescriptor &&
    (a.major < b.major || (a.major == b.major && a.minor <= b.minor)))))))
  }

  lemma KeyIsTotalOrder()
    ensures TotalOrder(KeyLeq)
  {
    assert forall a, b | KeyLeq(a, b) && KeyLeq(b, a) :: a == b;
  }

  /** A set of keys in key order. */
  ghost function KeyListing(keys: set<CaptureKey>): (r: seq<CaptureKey>)
    ensures forall k :: k in r <==> k in keys
  {
    KeyIsTotalOrder();
    Listing(KeyLeq, keys)
  }

  lemma KeyListingAscends(keys: set<CaptureKey>)
    ensures Distinct(KeyListing(keys)) && Ascending(KeyLeq, KeyListing(keys))
  {
    KeyIsTotalOrder();
    ListingAscends(KeyLeq, keys);
  }

  method KeysInOrder(keys: set<CaptureKey>) returns (order: seq<CaptureKey>)
    ensures order == KeyListing(keys)
  {
    KeyIsTotalOrder();
    order := InOrder(KeyLeq, keys);
  }

  function Utf8Length(s: string): nat {
    if s == [] then 0
    else
      var c := s[0] as int;
      (if c < 0x80 then 1 else if c < 0x800 then 2 else if c < 0x1_0000 then 3 else 4) + Utf8Length(s[1..])
  }

  predicate AllFit(fields: seq<Option<string>>) {
    fields == [] ||
    ((fields[0].Some? ==> Utf8Length(fields[0].value) <= MAX_IDENTITY_FIELD_BYTES) && AllFit(fields[1..]))
  }

  predicate ConfirmedResult(operation: CaptureOperation, result: i64) {
    match operation
    case StreamStarted | StreamStopped => result == 0
    case CaptureRead => result > 0
    case _ => result >= 0
  }

  function ExpectedConfidence(operation: CaptureOperation): CaptureConfidence {
    match operation
    case DeviceOpened => OpenOnly
    case BackendLost => Unconfirmed
    case _ => Confirmed
  }

  /** Reports the first violation of the observer contract, in the order the checks are made. */
  function Validate(e: CaptureEvent): Result<(), ValidationError> {
    if e.schemaVersion != OBSERVER_SCHEMA_VERSION then
      Failure(UnsupportedSchema(e.schemaVersion))
    else if e.owner != Direct then
      Failure(NonDirectOwner)
    else if e.processId == 0 || e.threadGroupId == 0 || e.startTicks == 0 then
      Failure(InvalidProcessIdentity)
    else if e.fileDescriptor < 0 && !(e.operation in {ProcessExited, DeviceRemoved, BackendLost}) then
      Failure(InvalidFileDescriptor)
    else if !ConfirmedResult(e.operation, e.result) then
      Failure(InvalidResult)
    else if e.confidence != ExpectedConfidence(e.operation) then
      Failure(InvalidConfidence)
    else if !AllFit(e.device.TextFields()) then
      Failure(IdentityFieldTooLong)
    else
      Success(())
  }

  predicate IsValid(e: CaptureEvent) {
    Validate(e).Success?
  }

  function KeyOf(e: CaptureEvent): CaptureKey {
    CaptureKey(e.threadGroupId, e.startTicks, e.fileDescriptor, e.device.major, e.device.minor)
  }

  function SessionText(k: CaptureKey, timestamp: u64): string {
    "v4l2-" +
    PrintFields([k.threadGroupId, k.startTicks, k.fileDescriptor, k.major, k.minor, timestamp], "---:-")
  }

  /** The printed session id determines the capture key and the start time. */
  lemma SessionTextInjective(k: CaptureKey, t: u64, k': CaptureKey, t': u64)
    requires SessionText(k, t) == SessionText(k', t')
    ensures k == k' && t == t'
  {
    var a := [k.threadGroupId, k.startTicks, k.fileDescriptor, k.major, k.minor, t];
    var b := [k'.threadGroupId, k'.startTicks, k'.fileDescriptor, k'.major, k'.minor, t'];
    assert SessionText(k, t)[5..] == PrintFields(a, "---:-") && SessionText(k', t')[5..] == PrintFields(b, "---:-");
    PrintFieldsInjective(a, b, "---:-");
    assert a[0] == b[0] && a[1] == b[1] && a[2] == b[2] && a[3] == b[3] && a[4] == b[4] && a[5] == b[5];
  }

  function NodeText(major: u32, minor: u32): string {
    "v4l2-" + PrintFields([major, minor], ":")
  }

  /** Characters with the White_Space property, the ones `trim` removes. */
  predicate IsWhitespace(c: char) {
    var n := c as int;
    9 <= n <= 13 || n == 0x20 || n == 0x85 || n == 0xA0 || n == 0x1680 || 0x2000 <= n <= 0x200A ||
    n == 0x2028 || n == 0x2029 || n == 0x202F || n == 0x205F || n == 0x3000
  }

  predicate BlankIdentifier(s: string) {
    forall c | c in s :: IsWhitespace(c)
  }

  const UNKNOWN_APPLICATION := "Unknown application"

  function NewSession(e: CaptureEvent): CameraSession {
    CameraSession(
      SessionText(KeyOf(e), e.timestamp),
      ApplicationIdentity(Some(e.processId), None, UNKNOWN_APPLICATION, None),
      CameraDevice(
        NodeText(e.device.major, e.device.minor),
        if e.device.displayName.Some? then e.device.displayName.value else "Unknown camera",
        e.device.udevSyspath),
      e.startTicks, e.threadGroupId, e.fileDescriptor, e.timestamp, e.timestamp, Active)
  }

  /** The session an event opens. Its identifiers are never blank, so creating it never fails. */
  function SessionFromEvent(e: CaptureEvent): (r: Result<CameraSession, ValidationError>)
    ensures r == Success(NewSession(e))
  {
    var session := NewSession(e);
    assert session.id[0] == 'v' && session.id[0] in session.id;
    assert session.device.id[0] == 'v' && session.device.id[0] in session.device.id;
    if BlankIdentifier(session.id) || BlankIdentifier(session.device.id) then
      Failure(InvalidProcessIdentity)
    else
      Success(session)
  }

  // ----- What validation, order, texts and sessions mean -----

  function CountAbove(s: string, bound: int): nat {
    if s == [] then 0 else (if s[0] as int >= bound then 1 else 0) + CountAbove(s[1..], bound)
  }

  /** UTF-8 takes one byte for every character and one more from each of three code points on. */
  lemma {:induction false} Utf8LengthIs(s: string)
    ensures Utf8Length(s) == |s| + CountAbove(s, 0x80) + CountAbove(s, 0x800) + CountAbove(s, 0x1_0000)
  {
    if s != [] { Utf8LengthIs(s[1..]); }
  }

  lemma {:induction false} AllFitMeans(fields: seq<Option<string>>)
    ensures AllFit(fields) <==> forall f | f in fields && f.Some? :: Utf8Length(f.value) <= 512
  {
    if fields != [] {
      AllFitMeans(fields[1..]);
      assert forall f :: f in fields <==> f == fields[0] || f in fields[1..];
    }
  }

  /** The observer contract, check by check: what must hold, and how its violation is reported. */
  ghost function Contract(e: CaptureEvent): seq<(bool, ValidationError)> {
    var anywhere := e.operation.ProcessExited? || e.operation.DeviceRemoved? || e.operation.BackendLost?;
    var d := e.device;
    var texts := {d.udevSyspath, d.mediaDevice, d.serial, d.hardwarePath, d.vendorId, d.productId, d.busInfo, d.driver,
                  d.displayName};
    [(e.schemaVersion == 1, UnsupportedSchema(e.schemaVersion)),
     (e.owner.Direct?, NonDirectOwner),
     (e.processId > 0 && e.threadGroupId > 0 && e.startTicks > 0, InvalidProcessIdentity),
     (anywhere || e.fileDescriptor >= 0, InvalidFileDescriptor),
     (if e.operation.StreamStarted? || e.operation.StreamStopped? then e.result == 0
      else if e.operation.CaptureRead? then e.result > 0 else e.result >= 0, InvalidResult),
     (if e.operation.DeviceOpened? then e.confidence.OpenOnly?
      else if e.operation.BackendLost? then e.confidence.Unconfirmed? else e.confidence.Confirmed?, InvalidConfidence),
     (forall f | f in texts && f.Some? :: Utf8Length(f.value) <= 512, IdentityFieldTooLong)]
  }

  /** An event is valid when it meets the whole contract, and otherwise the first violation is reported. */
  lemma ValidateReportsFirstViolation(e: CaptureEvent)
    ensures IsValid(e) <==> forall i | 0 <= i < 7 :: Contract(e)[i].0
    ensures forall i | 0 <= i < 7 && !Contract(e)[i].0 && (forall j | 0 <= j < i :: Contract(e)[j].0) ::
              Validate(e) == Failure(Contract(e)[i].1)
  {
    hide AllFit, Utf8Length;
    AllFitMeans(e.device.TextFields());
    var c := Contract(e);
    assert c[6].0 <==> AllFit(e.device.TextFields());
    assert IsValid(e) <==> c[0].0 && c[1].0 && c[2].0 && c[3].0 && c[4].0 && c[5].0 && c[6].0;
  }

  /** Capture keys are ordered by process, start ticks, descriptor, major and minor, in this order. */
  lemma KeyLeqMeans(a: CaptureKey, b: CaptureKey)
    ensures KeyLeq(a, b) <==>
            LexLeq([a.threadGroupId, a.startTicks, a.fileDescriptor, a.major, a.minor],
                   [b.threadGroupId, b.startTicks, b.fileDescriptor, b.major, b.minor])
  {
    var x := [a.threadGroupId, a.startTicks, a.fileDescriptor, a.major, a.minor];
    var y := [b.threadGroupId, b.startTicks, b.fileDescriptor, b.major, b.minor];
    assert x[1..][1..][1..][1..][1..] == [] && y[1..][1..][1..][1..][1..] == [];
    assert LexLeq(x[1..][1..][1..][1..], y[1..][1..][1..][1..]) <==> a.minor <= b.minor;
    assert LexLeq(x[1..][1..][1..], y[1..][1..][1..]) <==>
           a.major < b.major || (a.major == b.major && a.minor <= b.minor);
    assert LexLeq(x[1..][1..], y[1..][1..]) <==>
           a.fileDescriptor < b.fileDescriptor ||
           (a.fileDescriptor == b.fileDescriptor && LexLeq(x[1..][1..][1..], y[1..][1..][1..]));
  }

  /** Device ids as printed. */
  lemma NodeIsPrinted(major: u32, minor: u32)
    ensures NodeText(major, minor) == "v4l2-" + (PrintSigned(major) + ":" + PrintSigned(minor))
  {
    hide PrintSigned;
    LastField(minor);
    FieldThen(major, [minor], ':', [], [major, minor], ":");
  }

  /** Session ids as printed. */
  lemma SessionIsPrinted(k: CaptureKey, timestamp: u64)
    ensures SessionText(k, timestamp) ==
            "v4l2-" + (PrintSigned(k.threadGroupId) + "-" + (PrintSigned(k.startTicks) + "-" +
              (PrintSigned(k.fileDescriptor) + "-" + (PrintSigned(k.major) + ":" + (PrintSigned(k.minor) + "-" +
              PrintSigned(timestamp))))))
  {
    hide PrintSigned, PrintFields;
    LastField(timestamp);
    FieldThen(k.minor, [timestamp], '-', [], [k.minor, timestamp], "-");
    FieldThen(k.major, [k.minor, timestamp], ':', "-", [k.major, k.minor, timestamp], ":-");
    FieldThen(k.fileDescriptor, [k.major, k.minor, timestamp], '-', ":-",
      [k.fileDescriptor, k.major, k.minor, timestamp], "-:-");
    FieldThen(k.startTicks, [k.fileDescriptor, k.major, k.minor, timestamp], '-', "-:-",
      [k.startTicks, k.fileDescriptor, k.major, k.minor, timestamp], "--:-");
    FieldThen(k.threadGroupId, [k.startTicks, k.fileDescriptor, k.major, k.minor, timestamp], '-', "--:-",
      [k.threadGroupId, k.startTicks, k.fileDescriptor, k.major, k.minor, timestamp], "---:-");
  }

  lemma FieldThen(n: int, rest: seq<int>, separator: char, separators: string, all: seq<int>, allSeparators: string)
    requires |rest| == |separators| + 1 && all == [n] + rest && allSeparators == [separator] + separators
    ensures PrintFields(all, allSeparators) == PrintSigned(n) + [separator] + PrintFields(rest, separators)
  {
    NextField(n, rest, separator, separators);
  }

  lemma LastField(n: int)
    ensures PrintFields([n], []) == PrintSigned(n)
  {
  }

  lemma NextField(n: int, rest: seq<int>, separator: char, separators: string)
    requires |rest| == |separators| + 1
    ensures PrintFields([n] + rest, [separator] + separators) ==
            PrintSigned(n) + [separator] + PrintFields(rest, separators)
  {
    hide PrintSigned;
    assert ([n] + rest)[1..] == rest && ([separator] + separators)[1..] == separators;
  }

  /** The session a start opens, field by field. */
  lemma SessionOfStart(e: CaptureEvent)
    ensures var s := NewSession(e);
            && s.id == SessionText(KeyOf(e), e.timestamp)
            && KeyOf(e) == CaptureKey(e.threadGroupId, e.startTicks, e.fileDescriptor, e.device.major, e.device.minor)
            && s.application.pid == Some(e.processId) && s.application.displayName == "Unknown application"
            && s.application.appId == None && s.application.binary == None
            && s.device.id == NodeText(e.device.major, e.device.minor)
            && (e.device.displayName.Some? ==> s.device.displayName == e.device.displayName.value)
            && (e.device.displayName.None? ==> s.device.displayName == "Unknown camera")
            && s.device.nodeName == e.device.udevSyspath
            && s.threadGroupId == e.threadGroupId && s.startTicks == e.startTicks
            && s.fileDescriptor == e.fileDescriptor && s.startedAt == s.lastObserved == e.timestamp && s.state == Active
  {
    hide SessionText, NodeText;
  }
}
