/** The daemon's registry of active sessions and observer status. */
module Monitor {
  import opened Prelude
  import opened Orders
  import opened Capture

  datatype Availability =
    | Available
    | Disabled
    | NotInstalled
    | UnsupportedKernel
    | MissingCapability
    | BlockedByPolicy
    | VersionMismatch
    | ConnectionFailed
    | BackendLost
  {
    function Text(): string {
      match this
      case Available => "available"
      case Disabled => "disabled"
      case NotInstalled => "not-installed"
      case UnsupportedKernel => "unsupported-kernel"
      case MissingCapability => "missing-capability"
      case BlockedByPolicy => "blocked-by-policy"
      case VersionMismatch => "version-mismatch"
      case ConnectionFailed => "connection-failed"
      case BackendLost => "backend-lost"
    }
  }

  datatype Diagnostics = Diagnostics(suppressedBroker: u64, suppressedUnknown: u64)

  datatype MonitorEvent =
    | SessionStarted(session: CameraSession)
    | SessionUpdated(session: CameraSession)
    | SessionStopped(id: string)
    | AvailabilityChanged(availability: Availability, detail: string)
    | DiagnosticsChanged(diagnostics: Diagnostics)

  datatype Registry = Registry(
    sessions: map<string, CameraSession>, availability: Availability, detail: string, diagnostics: Diagnostics)

  // ----- Specification -----

  /** Sessions are filed under their own ids. */
  ghost predicate Keyed(r: Registry) {
    forall id | id in r.sessions :: r.sessions[id].id == id
  }

  function Reduce(r: Registry, ev: MonitorEvent): Registry {
    match ev
    case SessionStarted(s) => r.(sessions := r.sessions[s.id := s])
    case SessionUpdated(s) => if s.id in r.sessions then r.(sessions := r.sessions[s.id := s]) else r
    case SessionStopped(id) => r.(sessions := r.sessions - {id})
    case AvailabilityChanged(a, d) => r.(availability := a, detail := d)
    case DiagnosticsChanged(d) => r.(diagnostics := d)
  }

  ghost function ReduceAll(r: Registry, evs: seq<MonitorEvent>): Registry {
    if evs == [] then r else Reduce(ReduceAll(r, evs[..|evs| - 1]), evs[|evs| - 1])
  }

  lemma {:induction false} ReduceAllAppend(r: Registry, a: seq<MonitorEvent>, b: seq<MonitorEvent>)
    ensures ReduceAll(r, a + b) == ReduceAll(ReduceAll(r, a), b)
  {
    if b == [] {
      assert a + b == a;
    } else {
      ReduceAllAppend(r, a, b[..|b| - 1]);
      assert (a + b)[..|a + b| - 1] == a + b[..|b| - 1];
    }
  }

  /** Session ids in the order snapshots list them. */
  ghost function IdListing(ids: set<string>): (r: seq<string>)
    ensures forall id :: id in r <==> id in ids
  {
    TextIsTotalOrder();
    Listing(TextLeq, ids)
  }

  lemma IdListingAscends(ids: set<string>)
    ensures Distinct(IdListing(ids)) && Ascending(TextLeq, IdListing(ids)) && |IdListing(ids)| == |ids|
  {
    TextIsTotalOrder();
    ListingAscends(TextLeq, ids);
  }

  method IdsInOrder(ids: set<string>) returns (order: seq<string>)
    ensures order == IdListing(ids)
  {
    TextIsTotalOrder();
    order := InOrder(TextLeq, ids);
  }

  // ----- The registry object -----

  class MonitorState {
    var activeSessions: map<string, CameraSession>
    var availability: Availability
    var statusDetail: string
    var diagnostics: Diagnostics

    ghost function Model(): Registry
      reads this
    {
      Registry(activeSessions, availability, statusDetail, diagnostics)
    }

    ghost predicate Valid()
      reads this
    {
      Keyed(Model())
    }

    constructor (initial: Registry)
      requires Keyed(initial)
      ensures Model() == initial && Valid()
    {
      activeSessions := initial.sessions;
      availability := initial.availability;
      statusDetail := initial.detail;
      diagnostics := initial.diagnostics;
    }

    /** Applies one event; the result tells whether anything observable changed. */
    method Apply(ev: MonitorEvent) returns (changed: bool)
      requires Valid()
      modifies this
      ensures Valid()
      ensures Model() == Reduce(old(Model()), ev)
      ensures changed <==> Model() != old(Model())
    {
      match ev {
        case SessionStarted(s) =>
          changed := InsertOrReplace(s);
        case SessionUpdated(s) =>
          changed := UpdateExisting(s);
        case SessionStopped(id) =>
          changed := id in activeSessions;
          activeSessions := activeSessions - {id};
          assert changed ==> id in old(activeSessions) && id !in activeSessions;
        case AvailabilityChanged(a, d) =>
          changed := availability != a || statusDetail != d;
          availability := a;
          statusDetail := d;
        case DiagnosticsChanged(d) =>
          changed := diagnostics != d;
          diagnostics := d;
      }
    }

    method InsertOrReplace(s: CameraSession) returns (changed: bool)
      modifies this`activeSessions
      ensures activeSessions == old(activeSessions)[s.id := s]
      ensures changed <==> activeSessions != old(activeSessions)
    {
      if s.id in activeSessions && activeSessions[s.id] == s {
        assert activeSessions == activeSessions[s.id := s];
        return false;
      }
      activeSessions := activeSessions[s.id := s];
      assert activeSessions[s.id] == s;
      changed := true;
    }

    method UpdateExisting(s: CameraSession) returns (changed: bool)
      modifies this`activeSessions
      ensures activeSessions == if s.id in old(activeSessions) then old(activeSessions)[s.id := s]
          else old(activeSessions)
      ensures changed <==> activeSessions != old(activeSessions)
    {
      if s.id !in activeSessions {
        return false;
      }
      if activeSessions[s.id] == s {
        assert activeSessions == activeSessions[s.id := s];
        return false;
      }
      activeSessions := activeSessions[s.id := s];
      assert activeSessions[s.id] == s;
      changed := true;
    }

    /** The state as a value, for comparing before and after. */
    method Copy() returns (r: Registry)
      ensures r == Model()
    {
      r := Registry(activeSessions, availability, statusDetail, diagnostics);
    }

    /** The active sessions in id order. */
    method SnapshotSessions() returns (sessions: seq<CameraSession>)
      requires Valid()
      ensures |sessions| == |IdListing(activeSessions.Keys)|
      ensures forall i | 0 <= i < |sessions| ::
                sessions[i].id == IdListing(activeSessions.Keys)[i] && sessions[i] == activeSessions[sessions[i].id]
    {
      hide IdListing;
      var ids := IdsInOrder(activeSessions.Keys);
      sessions := [];
      for i := 0 to |ids|
        invariant |sessions| == i
        invariant forall j | 0 <= j < i :: sessions[j].id == ids[j] && sessions[j] == activeSessions[ids[j]]
      {
        assert ids[i] in IdListing(activeSessions.Keys);
        sessions := sessions + [activeSessions[ids[i]]];
      }
    }
  }
}
