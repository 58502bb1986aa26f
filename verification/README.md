# LensGuard: verified model of the session chain

LensGuard tells a desktop user which applications are using a camera. Kernel tracepoints report stream
ioctls, closes and exits; a privileged observer turns them into capture events for the user they concern; that
user's daemon rebuilds active sessions from the events and publishes them on D-Bus; a shell extension displays
them. Every stage keeps its own copy of "what is active now". This project models each stage and proves that
the copies agree, over every run.

Check it with `dafny verify dfyconfig.toml`.

| file | component |
|---|---|
| `Bpf.dfy` | the five tracepoint handlers and their four hash maps |
| `KernelEvents.dfy`, `Sending.dfy` | the observer's event loop and its candidates; what it sends to each user, and its totals |
| `Agreement.dfy`, `ObserverRuns.dfy` | agreement of a user's session machine with the observer's candidates, per turn and over runs |
| `KernelMirror.dfy` | the handlers' map of active descriptors against the observer's candidates |
| `Framing.dfy` | the length-prefixed frames of the observer protocol |
| `Capture.dfy`, `SessionMachine.dfy` | capture events, their validation, session ids, the V4L2 session machine |
| `ObserverSource.dfy`, `Backoff.dfy`, `Backend.dfy` | the daemon's observer connection, retry delays and reconnecting supervisor |
| `Reports.dfy` | what the supervisor reports: status, totals and failures, over every run |
| `Monitor.dfy`, `Application.dfy` | the registry of active sessions and the reduce-and-reconcile pipeline |
| `DbusService.dfy` | the D-Bus service as a replica, its signals, and a client that only listens |
| `Pipeline.dfy` | the chain as a whole |
| `ExtensionClient.dfy`, `ExtensionService.dfy` | the extension's asynchronous D-Bus client, alone and together with the service |
| `IdentityCache.dfy` | the bounded cache of application identities |
| `Display.dfy` | deduplication and ordering of the displayed sessions |
| `Orders.dfy`, `Decimal.dfy`, `Prelude.dfy` | ordered-map iteration, lexicographic order, decimal printing, machine integers |

Components that update state are classes whose methods are proved equal to a step function on values; the
properties of whole runs are lemmas about those step functions. The file system and the broker policy are
oracles (`Lookup`, `missing`), sockets are sequences of answers (`Answer`, `ReadOutcome`), identity resolution
is an arbitrary identity per event, and the asynchronous environment of the extension is an arbitrary sequence
of enabled events.

## What the code does and does not guarantee

Where a promise fails, one lemma gives the exact condition, decided by what is known before the step, and
another a concrete input on which it fails.

* A user's session machine and the observer's candidates agree after a turn precisely when the turn fits
  (`TurnAgreesIff`), and throughout a run precisely when every turn does (`AgreementIff`). The tracepoint program
  reports only successes (`ProgramReportsSuccess`), so three things are left that break it. The machine drops a valid
  event older than the last one it accepted, even for an unrelated capture: `docs/architecture.md` calls out-of-order stops harmless, but a stop that arrives late is lost and its capture
  stays active (`LateStopIsLost`). A camera plugged in under the device number of one whose removal is not yet
  noticed loses its live session with the old one (`ReplugEndsLiveSession`). And a restart that finds a different
  identity on a live descriptor leaves the old capture behind (`ReuseLeavesOldCapture`). Increasing kernel timestamps,
  stable identities and one syspath per device number exclude all three (`AgreementOverRun`).
* A daemon that reconnects is not told of streams already running (`ReconnectMissesRunningCapture`). It holds
  exactly the captures started since it connected (`AgreementSince`), which are all of them precisely when each was
  started since (`HoldsEverythingIff`).
* Over every run of handler calls and device checks, the observer tracks under a user exactly a process's descriptors
  in `ACTIVE_CAPTURE` precisely as long as none of four things happens (`MirrorsThroughoutIff`): a descriptor starts
  on one side only, the map being full, the device not found or the process running under another user; one ends
  while the process runs under another user (`UserChangeParts`); a counted leader exits with descriptors left
  (`StreamingExitParts`); or a device check drops a candidate of the process, its camera being unplugged while open
  (`UnplugParts`). While none does, a daemon that listens from the start shows exactly those descriptors
  (`KernelToClient`).
* Two sessions get one id exactly when one capture key is started twice at one timestamp
  (`RepeatedIdsNeedRepeatedTimestamps`, `RestartAtOneTimeRepeatsId`).
* `ACTIVE_TGID` stays within the number of active descriptors precisely as long as no descriptor of a fully
  counted process starts while `ACTIVE_CAPTURE` is full (`CountsNeverExceedDescriptors`). It is exact precisely as
  long as there is none of four exceptions (`CountsAreExactIff`): a leader exits (`LeaderExitMiscounts`), a close
  completes after another thread removed the descriptor (`LateCloseMiscounts`), a first descriptor starts while
  `ACTIVE_TGID` is full (`FullTgidMiscounts`), or a descriptor starts while `ACTIVE_CAPTURE` is full
  (`FullCaptureMiscounts`). An exit is reported only for a counted process, so an uncounted one that exits while
  streaming leaves its candidate and its session behind (`UncountedExitIsSilent`).
* A client that replays `SessionStarted` and `SessionStopped` has the service's exact session table as long as no
  update changes an exported field (`TableFollowsUnlessUpdated`, `UpdateLeavesTableStale`). The daemon's own
  pipeline never produces an update (`RunHasNoUpdates`), so there the table is always exact (`EndToEnd`); updates
  can only come from another caller of `apply_event`.
* After an invalidation the identity cache can hold fewer requests than it has room for (`ExactnessStep`,
  `InvalidationLeavesAHole`); which requests it holds is exact for every run (`CachedIffRecent`).
* An extension at rest shows the service's current state precisely when its last call succeeded or what it shows
  instead happens to be that state (`RestingClientIsCurrentIff`): after a failed call nothing is tried again until
  the next signal, and the observer is shown as unavailable.
* The registry holds no sessions while the observer is unavailable precisely when it held none at first and every
  start arrives while the observer is available (`EmptyWhileUnavailableIff`, `UnavailableMayHoldSessions`). In any
  case no session survives an unavailability event (`NoSessionSurvivesUnavailability`).
* The displayed list is independent of the order received exactly when no trimmed id arrives with two different
  labels (`OrderIndependentIff`, `FirstNameWins`).

## Model

| member | source | states |
|---|---|---|
| `Bpf.Program.IncrementTgid` | observer/bpf/v4l2.bpf.c:108-115 | adds one to a process's count, wrapping at 32 bits, or files a first count if the map has room |
| `Bpf.Program.DecrementTgid` | observer/bpf/v4l2.bpf.c:117-127 | takes one from a count and deletes an entry that would fall to zero; nothing for an uncounted process |
| `Bpf.Program.EnterIoctl` | observer/bpf/v4l2.bpf.c:129-138 | remembers only stream ioctls, per thread |
| `Bpf.Program.ExitIoctl` | observer/bpf/v4l2.bpf.c:140-167 | a successful start or stop changes captures and counts only for a descriptor not yet, or still, active; it is reported either way |
| `Bpf.Program.EnterClose` | observer/bpf/v4l2.bpf.c:169-176 | remembers the close of an active descriptor only |
| `Bpf.Program.ExitClose` | observer/bpf/v4l2.bpf.c:178-194 | a successful remembered close removes the descriptor, decrements unconditionally and is reported |
| `Bpf.Program.ProcessExit` | observer/bpf/v4l2.bpf.c:196-206 | only the leader of a counted process is reported, and uncounted |
| `Bpf.TraceHasEffect` | observer/bpf/v4l2.bpf.c:108-206 | every handler call is one of four effects on captures and counts: nothing, a start, a removal, or a process leaving |
| `Bpf.CapturesNeverOverflow` | observer/bpf/v4l2.bpf.c:108-206 | ACTIVE_CAPTURE never outgrows its capacity |
| `Bpf.BoundIsLostOnlyBy` | observer/bpf/v4l2.bpf.c:108-206 | the bound of one process survives a call if and only if the call does not overcount it |
| `Bpf.CountsNeverExceedDescriptors` | observer/bpf/v4l2.bpf.c:108-206 | over every interleaving, a process's count is absent or between 1 and its active descriptors throughout if and only if no call starts a descriptor of a fully counted process while ACTIVE_CAPTURE is full |
| `Bpf.ExactnessIsLostOnlyBy` | observer/bpf/v4l2.bpf.c:108-206 | an exact count stays exact if and only if the call is not a leader exit, a second removal of the descriptor, a start while only ACTIVE_TGID is full, or a start while only ACTIVE_CAPTURE is full |
| `Bpf.CountsAreExactIff` | observer/bpf/v4l2.bpf.c:108-206 | over every interleaving, a process's count equals its active descriptors throughout if and only if no call is one of those exceptions |
| `Bpf.FullCaptureMiscounts` | observer/bpf/v4l2.bpf.c:151-157 | a run of one process opening 16385 streams ends counted above its descriptors |
| `Bpf.FullTgidMiscounts` | observer/bpf/v4l2.bpf.c:108-115 | a run of 4097 processes opening a stream each ends with the last one uncounted |
| `Bpf.UncountedExitIsSilent` | observer/bpf/v4l2.bpf.c:196-206 | the exit of that last, streaming process changes and emits nothing |
| `Bpf.LeaderExitMiscounts` | observer/bpf/v4l2.bpf.c:196-206 | a leader that exits while streaming leaves its descriptor uncounted |
| `Bpf.LateCloseMiscounts` | observer/bpf/v4l2.bpf.c:178-194 | a close overtaken by another thread's stream-off takes one from the count of the other stream |
| `Bpf.HistoryIsJustified` | observer/bpf/v4l2.bpf.c:129-206 | for every interleaving each emitted close follows a start of the same descriptor, each emitted exit a start since the process's previous exit, and all results are 0 |
| `Bpf.PendingOnlyInside` | observer/bpf/v4l2.bpf.c:129-194 | if threads alternate entering and leaving system calls, a pending entry exists only while its thread is inside that call |
| `Bpf.PendingIsLastCall` | observer/bpf/v4l2.bpf.c:129-194 | if threads alternate entering and leaving system calls, an entry waits for a thread if and only if the thread's last call entered a stream ioctl, or the close of an active descriptor, while there was room; and it holds that call's descriptor and command |
| `Bpf.CallsReport` | observer/bpf/v4l2.bpf.c:129-206 | over every such run each call reports exactly: leaving successfully a stream ioctl or a close that was remembered, that start, stop or close with result 0; the exit of the leader of a counted process, that exit; nothing else anything |
| `KernelEvents.KernelEventProcessor.ProcessKernelEvents` | observer/src/main.rs:139-237 | the event loop computes the fold of its turns: candidates, latest timestamp, totals and everything sent |
| `KernelEvents.KernelEventProcessor.TakeTurn` | observer/src/main.rs:148-236 | one turn, a kernel event or a device check at one past the latest timestamp |
| `KernelEvents.KernelEventProcessor.RemoveMissingDevices` | observer/src/main.rs:239-268 | drops the candidates whose device is gone, in key order, announcing each as removed |
| `KernelEvents.KernelEventProcessor.RemoveCandidates` | observer/src/main.rs:221-233 | drops the listed candidates one after the other, announcing each |
| `KernelEvents.KernelEventProcessor.RemoveCandidate` | observer/src/main.rs:196-211 | drops one candidate and announces it; an unknown key changes nothing |
| `KernelEvents.KernelEventProcessor.PublishCandidate` | observer/src/main.rs:286-324 | only directly owned candidates with a valid event are announced, to their user alone; others are counted |
| `KernelEvents.KernelEventProcessor.CountSuppressed` | observer/src/main.rs:326-346 | adds one to the user's broker total for a broker-owned capture and to the unknown total for any other, up to the greatest 64-bit number, and sends both totals to that user alone |
| `KernelEvents.CandidateLeqMeans` | observer/src/main.rs:31-36 | candidates are visited by user, then process, then descriptor |
| `Sending.TurnAnnounces` | observer/src/main.rs:148-324 | every turn sends, of capture messages, exactly one for each directly owned candidate it starts or drops that has a valid event: to its own user, in key order, with the candidate's fields, what happened and when |
| `Sending.RunAnnounces` | observer/src/main.rs:139-324 | the same over every run |
| `Sending.TurnFiles` | observer/src/main.rs:148-268 | a start files the candidate it finds under its user, process and descriptor; every other turn removes exactly the candidates it concerns; the latest timestamp never falls |
| `Sending.SuppressionsAreCounted` | observer/src/main.rs:326-346 | over every run, from whenever a daemon listens: a user's totals are what they were plus the numbers of starts and dropped candidates of a broker, and of nobody known or found, up to the greatest 64-bit number; each step is told to the user in a message of its own, the last one telling the totals as they are |
| `Agreement.Publication` | observer/src/main.rs:293-323 | whether a candidate's event is sent depends neither on time nor, beyond success, on the result; an announced candidate's ending is always sent |
| `Agreement.EndingEvent` | crates/camera-core/src/v4l2.rs:303-334 | a fresh ending event removes exactly its own capture, its process's, or its device's; a stale one changes nothing |
| `Agreement.DropMoves` | observer/src/main.rs:213-268 | dropping candidates at one time removes from the user's machine exactly what their sent events end, or nothing if the machine has seen something newer |
| `Agreement.DropAgreesIff` | observer/src/main.rs:213-268 | dropping candidates keeps agreement if and only if, fresh and successful, their events end no other capture held, or, stale or failed, none of them was announced |
| `Agreement.SingleIsContained` | observer/src/main.rs:190-212 | a stop or close ends no announced capture but its own |
| `Agreement.ExitIsContained` | observer/src/main.rs:213-234 | whatever an exit event ends in the daemon, the observer drops in the same turn |
| `Agreement.RemovalIsContainedIff` | observer/src/main.rs:239-268 | whatever a device check ends in the daemon is dropped in that check if and only if no surviving capture shares a device number with a removed one |
| `Agreement.StartAgreesIff` | observer/src/main.rs:165-189 | a start keeps agreement if and only if it restarts the same capture announced as before, or is successful and fresh whenever announced |
| `Agreement.TurnAgreesIff` | observer/src/main.rs:148-268 | for every kernel event and device check, any result and timestamp, the user's machine and the candidates started while it listened agree afterwards if and only if the turn fits a condition on the state before it |
| `Agreement.TurnKeepsFiling` | observer/src/main.rs:148-268 | every candidate stays filed under its own process and descriptor |
| `ObserverRuns.AgreementIff` | observer/src/main.rs:148-268 | from wherever a daemon starts listening, agreement holds after every turn if and only if every turn fits |
| `ObserverRuns.TurnTimes` | observer/src/main.rs:159-163 | no message is newer than the event handled or, for a device check, one past the latest event |
| `ObserverRuns.TurnKeepsStep` | observer/src/main.rs:148-268 | every lawful, successful, fresh turn fits, and leaves the machine no newer than the next synthetic removal time |
| `ObserverRuns.JoiningMissesThePast` | observer/src/main.rs:139-237 | the observer goes on the same whoever listens; a daemon that joins misses exactly what was sent before |
| `ObserverRuns.AgreementSince` | observer/src/main.rs:148-267 | over every lawful run with increasing kernel timestamps, a daemon listening from any point on holds exactly the announced captures started since, and the synthetic removal time never outdates a later kernel event |
| `ObserverRuns.HoldsEverythingIff` | observer/src/main.rs:148-267 | these are all the user's announced captures if and only if each was started since |
| `ObserverRuns.ReconnectMissesRunningCapture` | observer/src/ipc.rs:82-110 | on a concrete lawful run a daemon that connects while a stream is running holds nothing although the observer tracks it |
| `ObserverRuns.AgreementOverRun` | observer/src/main.rs:148-267 | a daemon listening from the start holds exactly the capture keys of its user's direct, valid candidates after every lawful run |
| `ObserverRuns.TurnKeepsTimes` | crates/camera-core/src/v4l2.rs:308-317 | through any turn a machine's entries keep the session they started as, and a new one is the session of the kernel start that opens it: its process, descriptor and time, and the device looked up |
| `ObserverRuns.SessionsStartWhenAnnounced` | crates/camera-core/src/v4l2.rs:392-429 | over every lawful run with increasing timestamps, a session is the one opened by the kernel start before which its capture was not announced and since which it always has been, with the event's process, descriptor and time and the device looked up |
| `ObserverRuns.LateStopIsLost` | crates/camera-core/src/v4l2.rs:303-306 | on a concrete lawful run a stop older than another start is dropped and its capture stays active |
| `ObserverRuns.ReplugEndsLiveSession` | observer/src/main.rs:239-268 | on a concrete run the removal of one camera ends the live session of another under the same device number |
| `ObserverRuns.ReuseLeavesOldCapture` | observer/src/main.rs:165-189 | on a concrete run a descriptor reused for another camera leaves the first capture active |
| `KernelMirror.ProgramReportsSuccess` | observer/src/bpf.rs:121-145 | kernel events that carry records of the tracepoint program all have result 0 |
| `KernelMirror.CandidatesAfter` | observer/src/main.rs:164-235 | which candidate keys a kernel event adds or removes |
| `KernelMirror.CapturesAfter` | observer/bpf/v4l2.bpf.c:140-206 | what a handler call does to ACTIVE_CAPTURE is read off the record it emits, and starts and counted leader exits are always reported |
| `KernelMirror.MirrorsIff` | observer/bpf/v4l2.bpf.c:140-206 | a user's candidates and the active descriptors of a process stay the same through a call and the turn that handles it if and only if the call is no start that only one side takes in, no end under another user, and no counted leader exit with descriptors left |
| `KernelMirror.CheckMirrorsIff` | observer/src/main.rs:239-268 | they stay the same through a device check if and only if it drops no candidate of the process |
| `KernelMirror.StreamingExitParts` | observer/bpf/v4l2.bpf.c:196-206 | on a concrete run a leader exiting while streaming leaves a descriptor in ACTIVE_CAPTURE that no candidate matches |
| `KernelMirror.UnplugParts` | observer/src/main.rs:239-268 | on a concrete run a camera unplugged while open does the same |
| `KernelMirror.UserChangeParts` | observer/src/main.rs:190-212 | on a concrete run a process that stops a stream under another user leaves its old candidate behind |
| `KernelMirror.MirrorsThroughoutIff` | observer/src/main.rs:148-268 | over every interleaving of handler calls and device checks, the observer tracks exactly a process's active descriptors throughout if and only if the records part at no call and no check drops a candidate of the process |
| `KernelMirror.TurnsAreFromProgram` | observer/src/bpf.rs:121-145 | the kernel events of such a run all carry records of the program |
| `KernelMirror.TrackedAreDescriptors` | observer/src/main.rs:270-284 | if all candidates of a process are announced, its tracked captures are its active descriptors |
| `Framing.Writer.WriteMessage` | daemon/src/observer.rs:178-191 | appends the payload's frame, or nothing for a payload above the limit |
| `Framing.Reader.ReadMessage` | daemon/src/observer.rs:198-211 | takes from the stream what parsing its rest prescribes: a payload, a rejected header alone, or everything at a premature end |
| `Framing.ToFromBigEndian` | daemon/src/observer.rs:202-204 | four bytes are the big-endian form of the length they denote |
| `Framing.FromToBigEndian` | daemon/src/observer.rs:186-187 | a length is read back from its big-endian form |
| `Framing.WrittenInOrder` | daemon/src/observer.rs:175-215 | written lengths compare byte by byte as the lengths do: the most significant byte comes first |
| `Framing.ReadsExactlyFrames` | daemon/src/observer.rs:198-211 | a read yields a payload if and only if the payload has 1 to 16384 bytes and the stream starts with its frame |
| `Framing.BadHeaderIsRejectedAlone` | daemon/src/observer.rs:202-207 | a header is rejected with only its four bytes read if and only if it is 0 or above the limit |
| `Framing.FramingRoundTrip` | daemon/src/observer.rs:178-211 | a stream reads completely as a sequence of payloads if and only if it is the concatenation of their frames and all sizes are within limits |
| `Decimal.PrintInjective` | crates/camera-core/src/v4l2.rs:393-401 | decimal printing is injective |
| `Decimal.PrintFieldsInjective` | crates/camera-core/src/v4l2.rs:393-401 | integers printed with fixed non-digit separators, minus signs included, determine the integers |
| `Decimal.PrintDenotes` | crates/camera-core/src/v4l2.rs:392-401 | the printed digits denote the number and have no leading zero |
| `Decimal.PrintSignedDenotes` | crates/camera-core/src/v4l2.rs:392-401 | a minus sign and the digits of the magnitude denote a negative number |
| `Capture.SessionTextInjective` | crates/camera-core/src/v4l2.rs:392-401 | the printed session id determines process, start ticks, descriptor, device and timestamp |
| `Capture.SessionFromEvent` | crates/camera-core/src/v4l2.rs:392-429 | creating the session of a start never fails, since neither identifier can be blank |
| `Capture.KeyListingAscends` | crates/camera-core/src/v4l2.rs:272-279 | ended sessions are visited once each in the derived order of capture keys |
| `Capture.KeyLeqMeans` | crates/camera-core/src/v4l2.rs:272-279 | keys are ordered by process, start ticks, descriptor, major and minor number, in this order |
| `Capture.ValidateReportsFirstViolation` | crates/camera-core/src/v4l2.rs:185-237 | an event is valid if and only if it meets all seven clauses of the contract, and otherwise the first one violated is reported |
| `Capture.Utf8LengthIs` | crates/camera-core/src/v4l2.rs:228-234 | the length of a text in UTF-8 bytes |
| `Capture.AllFitMeans` | crates/camera-core/src/v4l2.rs:228-234 | every text field present has at most 512 bytes |
| `Capture.SessionIsPrinted` | crates/camera-core/src/v4l2.rs:392-401 | the text of a session id, part by part |
| `Capture.NodeIsPrinted` | crates/camera-core/src/v4l2.rs:256-258 | the text of a device id |
| `Capture.SessionOfStart` | crates/camera-core/src/v4l2.rs:392-429 | the session of a start, field by field |
| `SessionMachine.V4l2SessionMachine.Apply` | crates/camera-core/src/v4l2.rs:298-337 | one event: rejected and stale events change nothing, others open, refresh or end sessions, with the transition reported |
| `SessionMachine.V4l2SessionMachine.LoseAll` | crates/camera-core/src/v4l2.rs:340-346 | interrupts every active session, in key order, leaving none |
| `SessionMachine.V4l2SessionMachine.EndOne` | crates/camera-core/src/v4l2.rs:353-359 | removes exactly the key and reports its session, or nothing |
| `SessionMachine.V4l2SessionMachine.EndMatching` | crates/camera-core/src/v4l2.rs:361-377 | removes exactly the matching keys and reports their sessions in key order |
| `SessionMachine.ObserveKeepsValid` | crates/camera-core/src/v4l2.rs:298-377 | entries keep agreeing with their keys, with started at most last observed at most last timestamp; a rejected event changes nothing |
| `SessionMachine.RunKeepsValid` | crates/camera-core/src/v4l2.rs:298-377 | the same for every run of events and backend losses |
| `SessionMachine.ActiveIdsIdentifyKeys` | crates/camera-core/src/v4l2.rs:392-401 | active keys and active ids are in bijection |
| `SessionMachine.LastIsRunningMaximum` | crates/camera-core/src/v4l2.rs:302-306 | the machine's last timestamp is the maximum over the valid events so far |
| `SessionMachine.AcceptedIsNotOlder` | crates/camera-core/src/v4l2.rs:302-306 | the machine acts on an event if and only if it is valid and no earlier valid event is newer |
| `SessionMachine.InputsReport` | crates/camera-core/src/v4l2.rs:295-390 | over every run an input reports: the violation of an invalid event; the session of an accepted opening of an inactive capture; and otherwise exactly the sessions it ends, in key order, interrupted by a lost device or backend and stopped by anything else |
| `SessionMachine.RunIsRunOfAccepted` | crates/camera-core/src/v4l2.rs:298-337 | a run equals the run of its accepted events alone |
| `SessionMachine.TraceMeaning` | crates/camera-core/src/v4l2.rs:298-377 | a key is active if and only if an accepted start or read of it has no later stop, close, exit, removal or loss; its entry is the session of the first such observation, last observed at the last |
| `SessionMachine.FeedConserves` | crates/camera-core/src/v4l2.rs:298-377 | per input, active ids plus started ids equal ended ids plus ids still active, as multisets |
| `SessionMachine.SessionsAreConserved` | crates/camera-core/src/v4l2.rs:298-377 | over every run, the ids ever started are the ids reported ended plus those active, counted with repetition |
| `SessionMachine.RepeatedIdsNeedRepeatedTimestamps` | crates/camera-core/src/v4l2.rs:392-401 | two starts get one id if and only if they have one key and one timestamp |
| `SessionMachine.RestartAtOneTimeRepeatsId` | crates/camera-core/src/v4l2.rs:392-401 | a capture started, stopped and started at one time issues its id twice |
| `SessionMachine.IdsAreNeverReissued` | crates/camera-core/src/v4l2.rs:392-401 | under increasing timestamps no id is issued twice in a run |
| `ObserverSource.ObserverEventSource.NextEvent` | daemon/src/observer.rs:101-123 | delivers the oldest queued event, or translates one message and delivers its first event; errors pass through |
| `ObserverSource.ObserverEventSource.TranslateMessage` | daemon/src/observer.rs:125-149 | queues what the message means: a status as received, behind the stops an unavailable one implies, and totals as received; a second hello and an invalid capture are refused |
| `ObserverSource.MessagesQueue` | daemon/src/observer.rs:125-171 | what each kind of message queues, event by event: an unavailable status the stop of every active session in key order and then itself, an available one only itself; totals themselves; a capture its session's start or the stops of the sessions it ended |
| `ObserverSource.ObserverEventSource.Queue` | daemon/src/observer.rs:152-171 | appends the events of a transition, ended sessions in order |
| `ObserverSource.FailedPollLosesNothing` | daemon/src/observer.rs:101-123 | a poll fails only with nothing queued, and then leaves machine and queue as they were |
| `ObserverSource.TransitionMovesIds` | daemon/src/observer.rs:152-171 | the ids a transition reports started or ended lead exactly from the ids active before it to those active after it |
| `ObserverSource.EntriesAreKept` | crates/camera-core/src/v4l2.rs:298-377 | an entry active after an input was active before, unchanged but for its last observation, or is the session just started |
| `ObserverSource.TransitionMovesSessions` | daemon/src/observer.rs:152-171 | the events of any transition turn the sessions known before it into exactly the machine's sessions after it, each as it started |
| `ObserverSource.TranslateMovesSessions` | daemon/src/observer.rs:125-149 | so do the events queued for any accepted message |
| `ObserverSource.PollKeepsAccount` | daemon/src/observer.rs:101-149 | events delivered plus events queued always account for exactly the machine's sessions, details included |
| `ObserverSource.RegistryHoldsSessions` | daemon/src/application.rs:83-138 | the application's sessions are those the event sequence describes, but for the identities resolved |
| `Backoff.BackoffPolicy.Delay` | daemon/src/backoff.rs:24-35 | the retry loop computes the closed form for every policy and attempt, never saturates 128 bits below the maximum, and with a multiplier of at least 2 stops within about log2(maximum) rounds |
| `Backoff.BackoffPolicy.DelaysGrow` | daemon/src/backoff.rs:24-35 | delays never decrease with the attempt nor exceed the maximum |
| `Backoff.BackoffPolicy.WholeMilliseconds` | daemon/src/backoff.rs:24-35 | for whole-millisecond durations that fit 64 bits, the delay is min(maximum, initial * max(1, multiplier)^attempt) |
| `Backend.RunBackendSupervisor` | daemon/src/backend.rs:107-192 | the nested connect and poll loops send, wait and leave (on shutdown or a closed consumer) exactly as the fold of supervisor steps over the answers received |
| `Backend.ExitIsFinal` | daemon/src/backend.rs:107-192 | once left, the supervisor does nothing more |
| `Backend.StepKeepsAccount` | daemon/src/backend.rs:107-184 | connects, polls, lost connections, failed attempts and exits all keep the events sent, refused and queued accounting for the connection's sessions, details included |
| `Backend.RunIsAccounted` | daemon/src/backend.rs:107-184 | the same for every run, reconnects and exits included |
| `Backend.DaemonAgreesWithConnection` | daemon/src/application.rs:83-99 | for every run and every identities resolved, folding the pipeline over all events sent, refused and queued gives one session for each entry of the current connection's machine, equal to it as it started, under the identity resolved for its last start, and none while disconnected |
| `Backend.WaitsFollowPolicy` | daemon/src/backend.rs:139-175 | the i-th wait since the last successful connection is the policy's delay for attempt i |
| `Reports.WelcomeIsAccepted` | daemon/src/observer.rs:125-149 | the daemon accepts a message in any state if and only if it is a status, totals or a valid capture event |
| `Reports.StepProduces` | daemon/src/backend.rs:120-184 | at each step of the supervisor the events sent, refused and queued grow by exactly those the step calls for; none is lost, reordered or invented |
| `Reports.StatusIsLastReported` | daemon/src/backend.rs:85-184 | over every run and all identities the application shows the availability and detail of the last status its connection fetched; before the first, how the last attempt or connection failed; before any failure, what it showed at first; its totals are the last that any connection fetched |
| `Reports.StepLeaves` | daemon/src/backend.rs:107-184 | a step sends at most one event, waits exactly after a failure it could report, and leaves only when told to, when an event is not taken, or when its wait is interrupted |
| `Reports.EveryFailureIsWaitedFor` | daemon/src/backend.rs:107-184 | over every run there is one wait for each failure reported |
| `Monitor.MonitorState.Apply` | crates/camera-core/src/state.rs:70-93 | applies one event and returns true if and only if the registry changed |
| `Monitor.MonitorState.InsertOrReplace` | crates/camera-core/src/state.rs:146-153 | files the session under its id, true if and only if that changed the map |
| `Monitor.MonitorState.UpdateExisting` | crates/camera-core/src/state.rs:155-166 | replaces a known session only, true if and only if that changed the map |
| `Monitor.MonitorState.SnapshotSessions` | crates/camera-core/src/state.rs:137-144 | lists every active session once, ordered by id |
| `Monitor.IdListingAscends` | crates/camera-core/src/state.rs:137-144 | that listing is strictly ascending and complete |
| `Application.StopAll` | daemon/src/application.rs:195-201 | stops every active session in id order, each stop effective, leaving none |
| `Application.ReduceAndReconcile` | daemon/src/application.rs:188-206 | an unavailable status first forwards the stops of all active sessions in id order, then itself if effective; other events are forwarded if and only if they change the registry |
| `Application.RunApplication` | daemon/src/application.rs:83-99 | the receive loop is the fold of resolving, reconciling and forwarding; from an empty registry each session it leaves is the one its last start or update carried, under the identity resolved for that event |
| `Application.SessionsAreAttributed` | daemon/src/application.rs:102-138 | over every run an active session is exactly the one its last start, or effective update, carried, with the identity resolved for that very event, or the one held at first |
| `Application.ForwardedInOrder` | daemon/src/application.rs:188-206 | an event is forwarded if and only if it changes the registry; an unavailable status first forwards one stop for each active session, in ascending order of ids |
| `Application.ActiveSinceItsStart` | daemon/src/application.rs:188-206 | a session is active at the end if and only if it was started, or there at first, with no later stop or unavailability |
| `Application.NoSessionSurvivesUnavailability` | daemon/src/application.rs:188-206 | any session active at the end was started after every unavailability event |
| `Application.EmptinessIsLostOnlyBy` | daemon/src/application.rs:188-206 | a registry empty while unavailable stays so if and only if the event is not a start that arrives while the observer is unavailable |
| `Application.EmptyWhileUnavailableIff` | daemon/src/application.rs:188-206 | it is so throughout a run if and only if it was at first and every start arrives while the observer is available |
| `Application.UnavailableMayHoldSessions` | crates/camera-core/src/state.rs:70-93 | a start that arrives while the observer is unavailable is held |
| `Application.StepsHaveNetEffect` | crates/camera-core/src/state.rs:70-93 | what a sequence does to one session is a net effect (keep, replace if present, or become) computed from the events alone |
| `Application.LastStatusCases` | crates/camera-core/src/state.rs:77-91 | availability, detail and diagnostics are those last reported, whatever came before |
| `Application.ReplayChangesNothing` | crates/camera-core/src/state.rs:70-93 | running any sequence a second time leaves the state unchanged, for the registry alone and for reduce-and-reconcile |
| `DbusService.DbusService.ApplyEvent` | crates/camera-dbus/src/service.rs:162-220 | updates the replica and returns true if and only if it changed; it then emits exactly the signals the change calls for, each once and in order, and nothing otherwise |
| `DbusService.SignalsAreExact` | crates/camera-dbus/src/service.rs:162-220 | signal by signal: which change calls for it and with what value; properties and status first, then the state, then the session |
| `DbusService.PropertiesMean` | crates/camera-dbus/src/service.rs:45-88 | the exported count is the number of sessions up to the greatest 32-bit number; active means that there is one; status and totals are those of the registry |
| `DbusService.TextsName` | crates/camera-core/src/v4l2.rs:95-109 | the nine availability texts, each naming its availability and no other |
| `DbusService.TableExports` | crates/camera-dbus/src/dto.rs:20-31 | GetActiveSessions exports each active session, field by field |
| `DbusService.DbusService.GetActiveSessions` | crates/camera-dbus/src/dto.rs:34-42 | lists every active session once, in ascending order of ids |
| `DbusService.DbusService.EmitProperties` | crates/camera-dbus/src/service.rs:176-198 | announces the properties of each changed group, with their new values |
| `DbusService.DbusService.EmitEvent` | crates/camera-dbus/src/service.rs:200-217 | announces the new state and the session started or stopped |
| `DbusService.ForwardedRebuilds` | daemon/src/application.rs:188-206 | the events forwarded for one input rebuild the reconciled registry and each of them is effective |
| `DbusService.ReplicaAgrees` | crates/camera-dbus/src/service.rs:162-220 | over every run, a service that applies only what is forwarded holds the application's registry, and never sees a duplicate |
| `DbusService.PropertiesFollow` | crates/camera-dbus/src/service.rs:43-88 | one block of notifications makes a client's eight properties equal to the getters' values |
| `DbusService.ClientFollows` | crates/camera-dbus/src/service.rs:162-220 | a client that replays the signals of an event still has the service's exact id set and property values |
| `DbusService.ClientAlwaysFollows` | crates/camera-dbus/src/service.rs:162-220 | the same after any sequence of events |
| `DbusService.TableFollowsUnlessUpdated` | crates/camera-dbus/src/service.rs:201-217 | a replayed session table still equals GetActiveSessions after an event if and only if the event is not an update of an exported field |
| `DbusService.TableAlwaysFollows` | crates/camera-dbus/src/service.rs:201-217 | over every sequence without updates a replayed table equals GetActiveSessions |
| `DbusService.UpdateLeavesTableStale` | crates/camera-dbus/src/service.rs:201-217 | an update of an application name reaches no replayed table |
| `Pipeline.TurnsSendWelcome` | observer/src/main.rs:286-346 | the observer sends nothing else |
| `Pipeline.MachineIsFetched` | daemon/src/observer.rs:101-149 | through any run of the supervisor, the connection's machine is the one built from the messages that connection fetched |
| `Pipeline.GreetingIsNeutral` | observer/src/ipc.rs:82-101 | the status and totals sent to a new connection leave its machine as if never sent |
| `Pipeline.RunHasNoUpdates` | daemon/src/observer.rs:125-171 | no run of the supervisor ever produces a session update |
| `Pipeline.AsManyIdsAsKeys` | crates/camera-core/src/v4l2.rs:392-401 | there are as many session ids as captures |
| `Pipeline.DaemonChainAgrees` | daemon/src/application.rs:83-99 | over every run of the supervisor and all identities: the application has one session for each entry of the session machine, with the entry's device, process and start, under the identity resolved for its start; service replica and application are equal; a listening client has the service's ids, properties and exported session details, the number of captures held as its count, and the status and totals last fetched |
| `Pipeline.EndToEnd` | daemon/src/application.rs:83-99 | with kernel events from the program, stable identities and increasing timestamps, a daemon that fetched everything since it connected shows its clients one session, with device and start as the machine holds them, for each directly owned capture started since and still tracked; these are all tracked captures if and only if each was started since, and always for a daemon connected at the start; a session is the one the kernel event opened since which its capture has been tracked; the client's count is the number of these captures; it shows the status of the greeting and the totals last sent, which are the numbers of suppressed captures since the observer started if the greeting told those of its time |
| `Pipeline.TotalsReachDaemon` | observer/src/ipc.rs:92-110 | the totals a daemon was last sent are the user's capped numbers of suppressed captures since the observer started, whenever it connected |
| `Pipeline.FetchedIsLatest` | daemon/src/observer.rs:101-123 | what the current connection fetched is the end of all that was ever fetched |
| `Pipeline.KernelToClient` | daemon/src/application.rs:83-99 | over every run of handler calls and device checks on which the records of a process do not part and its captures are announced, a descriptor is in ACTIVE_CAPTURE if and only if a client of the daemon lists a session of that process and descriptor |
| `Pipeline.ExtensionShowsMachine` | extension/src/dbusClient.js:238-277 | when the service applies what the pipeline forwards, an extension at rest after a successful call shows the application's properties and sessions, which show the daemon's machine |
| `Pipeline.EverythingCanBeFetched` | daemon/src/observer.rs:101-149 | whatever happens in the kernel and whenever a daemon connects, some run of its supervisor fetches everything the observer sent its user, nothing being refused |
| `ExtensionClient.DbusClient.constructor` | extension/src/dbusClient.js:100-121 | a new client watches nothing and has nothing outstanding |
| `ExtensionClient.DbusClient.Start` | extension/src/dbusClient.js:123-134 | shows the service as unavailable and watches the name, once |
| `ExtensionClient.DbusClient.Stop` | extension/src/dbusClient.js:136-149 | begins a new generation with no proxy, no handlers, no scheduled refresh and no listener |
| `ExtensionClient.DbusClient.OnNameAppeared` | extension/src/dbusClient.js:151-173 | begins a new generation with its own cancellable and shows the observer as unavailable |
| `ExtensionClient.DbusClient.OnProxyCreated` | extension/src/dbusClient.js:174-186 | a stale or cancelled proxy is ignored, a current one is attached and a refresh scheduled |
| `ExtensionClient.DbusClient.OnProxyFailed` | extension/src/dbusClient.js:187-193 | only a current, uncancelled failure shows the service as unavailable |
| `ExtensionClient.DbusClient.OnNameVanished` | extension/src/dbusClient.js:196-206 | begins a new generation and shows the service as unavailable |
| `ExtensionClient.DbusClient.ScheduleRefresh` | extension/src/dbusClient.js:220-236 | coalesces: during a call it asks for another, otherwise at most one idle refresh is pending |
| `ExtensionClient.DbusClient.Refresh` | extension/src/dbusClient.js:238-246 | issues one call for the proxy held, if any |
| `ExtensionClient.DbusClient.OnFetched` | extension/src/dbusClient.js:250-258 | a reply for the current generation and proxy is shown, any other ignored |
| `ExtensionClient.DbusClient.OnFetchFailed` | extension/src/dbusClient.js:259-270 | a current, uncancelled failure shows the observer as unavailable |
| `ExtensionClient.DbusClient.Finish` | extension/src/dbusClient.js:271-276 | only a current call clears the in-flight flag and honours a request for another |
| `ExtensionClient.DbusClient.PublishView` | extension/src/dbusClient.js:309-316 | tells the listener only of a view whose text differs from the last |
| `ExtensionClient.DbusClient.DetachProxy` | extension/src/dbusClient.js:328-344 | cancels the cancellable and disconnects the handlers of the proxy held |
| `ExtensionClient.StepKeepsInv` | extension/src/dbusClient.js:123-344 | every enabled event of the protocol keeps the invariant relating the fields, the outstanding operations by generation, and the signals not yet answered |
| `ExtensionClient.RunKeepsInv` | extension/src/dbusClient.js:123-344 | the same for every run |
| `ExtensionClient.NoLostUpdate` | extension/src/dbusClient.js:220-277 | in every reachable state with a proxy, a signal newer than the last call implies a scheduled refresh or a pending repeat; at rest after a success the view comes from a server snapshot no older than the last signal |
| `ExtensionClient.CurrentOperations` | extension/src/dbusClient.js:136-277 | the current generation has exactly one call when in flight and none otherwise, scheduled and in-flight refreshes never coexist, handlers are attached exactly to the proxy held |
| `ExtensionClient.OnlyCurrentCompletionsAct` | extension/src/dbusClient.js:174-277 | a completion of an older generation or after stop changes no field; a current one always concerns the proxy held or a live cancellable |
| `ExtensionClient.VanishedStaysUnavailable` | extension/src/dbusClient.js:196-206 | from a vanished name until it appears again the view stays service-unavailable, whatever completes |
| `ExtensionClient.StoppedIsSilent` | extension/src/dbusClient.js:136-149 | after stop the listener is never told anything again |
| `ExtensionClient.OnlyChangesAreTold` | extension/src/dbusClient.js:309-316 | over every run the listener is told no view twice in a row, and while it listens the last one told is the current one |
| `ExtensionClient.FailedCreationStaysUnavailable` | extension/src/dbusClient.js:166-193 | while a proxy is being made the observer is shown as unavailable; when that fails uncancelled the service is, whatever happens until the name appears again |
| `ExtensionClient.NothingIsDoneUncalled` | extension/src/dbusClient.js:136-277 | over every run a refresh is scheduled only for a signal newer than the last call or for a proxy nothing was called on, a repeat is asked for only after such a signal, and the creations of older generations have been cancelled |
| `ExtensionService.SignalsUpdate` | crates/camera-dbus/src/service.rs:162-220 | the signals of an event bring up-to-date cached properties up to date again, and an effective event emits some |
| `ExtensionService.StepKeepsInv` | extension/src/dbusClient.js:151-316 | every step of client and service together keeps the invariant on cached properties, undelivered signals, served replies and the view |
| `ExtensionService.RunKeepsInv` | extension/src/dbusClient.js:151-316 | the same for every run |
| `ExtensionService.RestingClientShows` | extension/src/dbusClient.js:220-277 | whatever the service applies and whenever calls are served, a client with nothing scheduled, in flight or undelivered shows the service's current properties and sessions after a successful call, observer-unavailable after a failed one, and what it showed before after a cancelled one |
| `ExtensionService.RestingClientIsCurrentIff` | extension/src/dbusClient.js:259-276 | it is current if and only if its last call succeeded or what it shows instead is the current view |
| `ExtensionService.RegistryIsApplied` | crates/camera-dbus/src/service.rs:162-220 | the service's registry is the reduction of the events applied, whatever the client does |
| `IdentityCache.ApplicationResolver.WithSources` | crates/camera-app-resolver/src/resolver.rs:60-75 | refuses exactly a capacity of zero, else starts empty |
| `IdentityCache.ApplicationResolver.Resolve` | crates/camera-app-resolver/src/resolver.rs:81-93 | answers from the cache and touches the request, else resolves afresh and caches |
| `IdentityCache.ApplicationResolver.Invalidate` | crates/camera-app-resolver/src/resolver.rs:96-99 | drops one request from map and queue and tells whether it was cached |
| `IdentityCache.ApplicationResolver.ClearCache` | crates/camera-app-resolver/src/resolver.rs:102-105 | drops every request |
| `IdentityCache.ApplicationResolver.InsertCache` | crates/camera-app-resolver/src/resolver.rs:179-187 | evicts the least recently used request when full, then adds the new one |
| `IdentityCache.ApplicationResolver.Touch` | crates/camera-app-resolver/src/resolver.rs:189-192 | makes a request the most recent without duplicating it |
| `IdentityCache.StackIsByLastUse` | crates/camera-app-resolver/src/resolver.rs:81-192 | the abstract stack lists exactly the requests resolved since they were last dropped, in the order of their last use |
| `IdentityCache.RunIsWellKept` | crates/camera-app-resolver/src/resolver.rs:81-192 | over every run the queue lists exactly the cached requests, once each, within capacity, and is a most recent part of the stack |
| `IdentityCache.ExactnessStep` | crates/camera-app-resolver/src/resolver.rs:96-99 | a cache holding as much of the stack as fits stops doing so if and only if a cached request is invalidated after others were evicted |
| `IdentityCache.InvalidationLeavesAHole` | crates/camera-app-resolver/src/resolver.rs:96-99 | with one place and two requests, invalidating the second leaves the cache empty |
| `IdentityCache.ExactWithoutInvalidation` | crates/camera-app-resolver/src/resolver.rs:81-192 | without invalidations the cache always holds the last min(capacity, distinct) requests |
| `IdentityCache.CachedIffRecent` | crates/camera-app-resolver/src/resolver.rs:81-192 | for every run, invalidations and clearings included, a request is cached if and only if it was resolved, not dropped since, and never outrun by capacity more recent requests |
| `IdentityCache.SmallerIsIncluded` | crates/camera-app-resolver/src/resolver.rs:179-192 | on the same run a smaller cache is the most recent part of a larger one |
| `IdentityCache.CachedIsRecorded` | crates/camera-app-resolver/src/resolver.rs:81-105 | a cached identity is one that resolving that very request gave, and the request has not been dropped since |
| `IdentityCache.AnswersAreFresh` | crates/camera-app-resolver/src/resolver.rs:81-93 | while the sources give each request one answer, every answer equals resolving afresh |
| `IdentityCache.HitsAnswerTheLastMiss` | crates/camera-app-resolver/src/resolver.rs:81-93 | whatever the sources answer meanwhile, a cached request is answered as when it was last resolved afresh, and any other is resolved afresh |
| `Display.CompareTextOrders` | extension/src/sessionModel.js:37-50 | comparing folded text first and text second is a strict total order on texts, for any folding |
| `Display.CompareSessionsOrders` | extension/src/sessionModel.js:52-56 | the three-level comparison is 0 only for equal sessions, changes sign when swapped, and is transitive |
| `Display.NormalizeSessions` | extension/src/sessionModel.js:58-81 | returns the kept sessions in display order: application name before camera name before id, folded text before the text itself; each line is that of the first entry of its id; nothing for a value that is no list |
| `Display.LinesAreOrdered` | extension/src/sessionModel.js:37-56 | of two lines displayed, the first does not come after the second by folded application name, then the name itself, then likewise by camera name and by id |
| `Display.LessMeans` | extension/src/sessionModel.js:37-50 | a text is less than another if and only if it is a proper prefix of it or smaller at the first code unit where they differ |
| `Display.LinesAreEntries` | extension/src/sessionModel.js:58-81 | the lines are exactly those of the first entry of each trimmed, non-empty id, with its cleaned and clipped labels or the fallback texts, one for each id |
| `Display.SortSessions` | extension/src/sessionModel.js:80 | returns an ordered permutation |
| `Display.KeptIsFirst` | extension/src/sessionModel.js:62-78 | for each trimmed id exactly its first counting occurrence is kept |
| `Display.DisplayedIsAscending` | extension/src/sessionModel.js:58-81 | one line per counting id, strictly ascending |
| `Display.DisplayedAlikeIff` | extension/src/sessionModel.js:58-81 | two inputs are displayed alike if and only if they keep the same session for each id |
| `Display.DistinctIdsAnyOrder` | extension/src/sessionModel.js:58-81 | with pairwise distinct trimmed ids every permutation is displayed alike |
| `Display.OrderIndependentIff` | extension/src/sessionModel.js:58-81 | every permutation is displayed alike if and only if equal ids always show the same session |
| `Display.FirstNameWins` | extension/src/sessionModel.js:58-81 | two entries with one id and different labels are displayed by whichever comes first |

## Left out

- Sockets, procfs and sysfs reads, eBPF program loading, perf buffers, the D-Bus transport, GNOME actors, preferences, packaging: input and output or foreign code; they appear only as parameters.
- JSON encoding of observer messages: frames carry opaque payloads, messages are values.
- A socket timeout in the middle of a frame: reads deliver whole frames or fail.
- The moment between reading the status and subscribing to the broadcast in `observer/src/ipc.rs`, lagging broadcast receivers, and availability broadcasts after connecting: `EndToEnd` is about a daemon that receives everything sent to its user since it connected.
- Races inside one eBPF handler: each handler is one atomic step.
- Worker threads, the mutex, the busy flag and the timeout around identity resolution: each event gets an arbitrary identity.
- `resolve_uncached`, `plain_text` and the desktop-entry lookup: the memoised function of the cache is a parameter.
- The text of a rejected event's error; the length bound on failure texts is modelled.
- Broker policy classification, configuration parsing, `createViewState` branches, `dbusPayload.js` shape checks, device-number bit layout: single-branch facts.
- Trimming, lower-casing and sanitising of displayed text are arbitrary functions; the sort of the JavaScript engine is any sort, here insertion.
- How a view's JSON text is made from a snapshot: a view is its text, and two constants stand for the texts of the two fixed views.
- How a D-Bus proxy loads its properties: in `ExtensionService` it has the service's current ones when it is attached, and signals emitted before are not delivered to it.
- Records lost by a full perf buffer and the order in which buffers of different CPUs are read: `KernelMirror` handles every record, in the order of emission and at once; a delay alone changes nothing at times when no record waits.
- JavaScript's limit on exactly represented integers: generations are unbounded.
