/** The shell extension's D-Bus client: generations, coalesced refreshes, cancellation. */
module ExtensionClient {
  import opened Prelude

  /** What is shown, as the text by which the client tells views apart. */
  type View = string

  /** The two fixed views, standing for their full texts. */
  const SERVICE_UNAVAILABLE: View := "service-unavailable"
  const OBSERVER_UNAVAILABLE: View := "observer-unavailable"

  type ProxyId = nat
  type CancellableId = nat

  /** An outstanding proxy creation, or GetActiveSessions call with the time it was issued. */
  datatype Creation = Creation(generation: nat, cancellable: CancellableId)
  datatype Fetch = Fetch(generation: nat, proxy: ProxyId, issued: nat)

  /** The client's fields. `handlers` are the proxies with signal handlers connected; a scheduled idle source
      is `scheduled`; `told` are the views handed to the callback, oldest first. */
  datatype Client = Client(
    running: bool,
    listening: bool,
    watching: bool,
    generation: nat,
    proxy: Option<ProxyId>,
    handlers: set<ProxyId>,
    cancellable: Option<CancellableId>,
    cancelled: set<CancellableId>,
    scheduled: bool,
    inFlight: bool,
    again: bool,
    lastView: Option<View>,
    told: seq<View>)
  {
    /** The view handed to the callback last. */
    function Shown(): Option<View> {
      if told == [] then None else Some(told[|told| - 1])
    }
  }

  /** How the last call made ended, as far as the client used it. */
  datatype Outcome = Waiting | Succeeded | Failed | Cancelled

  /** The client together with its outstanding asynchronous operations and a clock that every step advances.
      `signalled` is when the last state signal was delivered, `issued` when the last call was made,
      `snapshot` and `view`
      the time of the server snapshot in the last reply the client used, and the view made from it;
      `before` the view when the last call was made. */
  datatype World = World(
    client: Client,
    creations: map<nat, Creation>,
    fetches: map<nat, Fetch>,
    clock: nat,
    signalled: nat,
    issued: nat,
    snapshot: nat,
    view: View,
    outcome: Outcome,
    before: Option<View>)

  datatype Event =
    | Start
    | Stop
    | NameAppeared
    | NameVanished
    | CreationDone(id: nat, proxy: ProxyId)
    | CreationFailed(id: nat, cancelledError: bool)
    | StateSignal
    | OtherSignal
    | IdleFires
    | FetchDone(id: nat, view: View, snapshot: nat)
    | FetchFailed(id: nat, cancelledError: bool)

  const NEW_CLIENT := Client(false, true, false, 0, None, {}, None, {}, false, false, false, None, [])

  const BEGINNING := World(NEW_CLIENT, map[], map[], 1, 0, 0, 0, "", Waiting, None)

  // ----- Specification of the client's own steps -----

  function Publish(c: Client, v: View): (r: Client)
    ensures r == c.(lastView := r.lastView, told := r.told)
    ensures !c.listening ==> r.told == c.told
    ensures r.lastView == Some(v)
  {
    if c.lastView == Some(v) then c
    else c.(lastView := Some(v), told := if c.listening then c.told + [v] else c.told)
  }

  function Held(o: Option<nat>): set<nat> {
    if o.Some? then {o.value} else {}
  }

  function Schedule(c: Client): (r: Client)
    ensures r == c.(scheduled := r.scheduled, again := r.again)
  {
    if !c.running || c.proxy.None? then c
    else if c.inFlight then c.(again := true)
    else c.(scheduled := true)
  }

  /** What starting a new generation resets. */
  function Reset(c: Client): Client {
    c.(
      generation := c.generation + 1,
      cancelled := c.cancelled + Held(c.cancellable),
      cancellable := None,
      handlers := c.handlers - Held(c.proxy),
      proxy := None,
      scheduled := false, inFlight := false, again := false)
  }

  function Started(c: Client): Client {
    if c.running then c else Publish(c.(running := true), SERVICE_UNAVAILABLE).(watching := true)
  }

  function Stopped(c: Client): Client {
    Reset(c).(running := false, watching := false, listening := false, lastView := None)
  }

  /** `token` identifies the cancellable made for the new generation. */
  function Appeared(c: Client, token: CancellableId): Client {
    if !c.running then c
    else Publish(Reset(c).(cancellable := Some(token)), OBSERVER_UNAVAILABLE)
  }

  function Vanished(c: Client): Client {
    if !c.running then c else Publish(Reset(c), SERVICE_UNAVAILABLE)
  }

  predicate IsCurrent(c: Client, generation: nat) {
    c.running && generation == c.generation
  }

  function Created(c: Client, op: Creation, proxy: ProxyId): Client {
    if !IsCurrent(c, op.generation) || op.cancellable in c.cancelled then c
    else Schedule(c.(proxy := Some(proxy), handlers := c.handlers + {proxy}))
  }

  function NotCreated(c: Client, op: Creation, cancelledError: bool): Client {
    if !IsCurrent(c, op.generation) || cancelledError then c else Publish(c, SERVICE_UNAVAILABLE)
  }

  function Refreshed(c: Client): Client {
    var c' := c.(scheduled := false);
    if !c'.running || c'.proxy.None? then c' else c'.(inFlight := true, again := false)
  }

  predicate Concerns(c: Client, op: Fetch) {
    IsCurrent(c, op.generation) && c.proxy == Some(op.proxy)
  }

  function Settle(c: Client, op: Fetch): (r: Client)
    ensures r == c.(inFlight := r.inFlight, scheduled := r.scheduled, again := r.again)
  {
    if !Concerns(c, op) then c
    else
      var c' := c.(inFlight := false);
      if c'.again then Schedule(c') else c'
  }

  function Fetched(c: Client, op: Fetch, view: View): Client {
    Settle(if Concerns(c, op) then Publish(c, view) else c, op)
  }

  function NotFetched(c: Client, op: Fetch, cancelledError: bool): Client {
    Settle(if IsCurrent(c, op.generation) && !cancelledError then Publish(c, OBSERVER_UNAVAILABLE) else c, op)
  }

  // ----- The client object -----

  class DbusClient {
    var running: bool
    var listening: bool
    var watching: bool
    var generation: nat
    var proxy: Option<ProxyId>
    var handlers: set<ProxyId>
    var cancellable: Option<CancellableId>
    var cancelled: set<CancellableId>
    var refreshScheduled: bool
    var refreshInFlight: bool
    var refreshAgain: bool
    var lastView: Option<View>
    var told: seq<View>

    ghost function Model(): Client
      reads this
    {
      Client(running, listening, watching, generation, proxy, handlers, cancellable, cancelled,
        refreshScheduled, refreshInFlight, refreshAgain, lastView, told)
    }

    constructor ()
      ensures Model() == NEW_CLIENT
    {
      running, listening, watching, generation := false, true, false, 0;
      proxy, handlers, cancellable, cancelled := None, {}, None, {};
      refreshScheduled, refreshInFlight, refreshAgain := false, false, false;
      lastView, told := None, [];
    }

    method Start()
      modifies this
      ensures Model() == Started(old(Model()))
    {
      if running {
        return;
      }
      running := true;
      PublishView(SERVICE_UNAVAILABLE);
      watching := true;
    }

    method Stop()
      modifies this
      ensures Model() == Stopped(old(Model()))
    {
      running := false;
      watching := false;
      BeginGeneration();
      listening := false;
      lastView := None;
    }

    method OnNameAppeared(token: CancellableId)
      modifies this
      ensures Model() == Appeared(old(Model()), token)
    {
      hide Reset;
      if !running {
        return;
      }
      BeginGeneration();
      cancellable := Some(token);
      PublishView(OBSERVER_UNAVAILABLE);
    }

    method OnProxyCreated(op: Creation, created: ProxyId)
      modifies this
      ensures Model() == Created(old(Model()), op, created)
    {
      if !(running && op.generation == generation) || op.cancellable in cancelled {
        return;
      }
      proxy := Some(created);
      handlers := handlers + {created};
      ScheduleRefresh();
    }

    method OnProxyFailed(op: Creation, cancelledError: bool)
      modifies this
      ensures Model() == NotCreated(old(Model()), op, cancelledError)
    {
      if !(running && op.generation == generation) || cancelledError {
        return;
      }
      PublishView(SERVICE_UNAVAILABLE);
    }

    method OnNameVanished()
      modifies this
      ensures Model() == Vanished(old(Model()))
    {
      hide Reset;
      if !running {
        return;
      }
      BeginGeneration();
      PublishView(SERVICE_UNAVAILABLE);
    }

    method ScheduleRefresh()
      modifies this
      ensures Model() == Schedule(old(Model()))
    {
      if !running || proxy.None? {
        return;
      }
      if refreshInFlight {
        refreshAgain := true;
        return;
      }
      if refreshScheduled {
        return;
      }
      refreshScheduled := true;
    }

    /** The idle callback; tells whether a call is issued. */
    method Refresh() returns (issued: bool)
      modifies this
      ensures Model() == Refreshed(old(Model()))
      ensures issued <==> old(running) && old(proxy).Some?
    {
      refreshScheduled := false;
      if !running || proxy.None? {
        return false;
      }
      refreshInFlight := true;
      refreshAgain := false;
      issued := true;
    }

    method OnFetched(op: Fetch, view: View)
      modifies this
      ensures Model() == Fetched(old(Model()), op, view)
    {
      if running && op.generation == generation && proxy == Some(op.proxy) {
        PublishView(view);
      }
      Finish(op);
    }

    method OnFetchFailed(op: Fetch, cancelledError: bool)
      modifies this
      ensures Model() == NotFetched(old(Model()), op, cancelledError)
    {
      if running && op.generation == generation && !cancelledError {
        PublishView(OBSERVER_UNAVAILABLE);
      }
      Finish(op);
    }

    method Finish(op: Fetch)
      modifies this
      ensures Model() == Settle(old(Model()), op)
    {
      if running && op.generation == generation && proxy == Some(op.proxy) {
        refreshInFlight := false;
        if refreshAgain {
          ScheduleRefresh();
        }
      }
    }

    method PublishView(v: View)
      modifies this`lastView, this`told
      ensures Model() == Publish(old(Model()), v)
    {
      if lastView == Some(v) {
        return;
      }
      lastView := Some(v);
      if listening {
        told := told + [v];
      }
    }

    /** Makes every outstanding operation stale and drops the proxy, the scheduled refresh and the flags. */
    method BeginGeneration()
      modifies this
      ensures Model() == Reset(old(Model()))
    {
      generation := generation + 1;
      DetachProxy();
      refreshScheduled := false;
      refreshInFlight := false;
      refreshAgain := false;
    }

    method DetachProxy()
      modifies this`cancelled, this`cancellable, this`handlers, this`proxy
      ensures cancelled == old(cancelled) + Held(old(cancellable)) && cancellable == None
      ensures handlers == old(handlers) - Held(old(proxy)) && proxy == None
    {
      if cancellable.Some? {
        cancelled := cancelled + {cancellable.value};
      }
      cancellable := None;
      if proxy.Some? {
        handlers := handlers - {proxy.value};
      }
      proxy := None;
    }
  }

  // ----- The asynchronous protocol -----

  /** Which events the environment can produce: handlers fire only while connected, an idle source only while
      scheduled, completions only for outstanding operations; a reply carries a server snapshot taken between
      the call and now. */
  ghost predicate Enabled(w: World, e: Event) {
    match e
    case StateSignal | OtherSignal => w.client.handlers != {}
    case IdleFires => w.client.scheduled
    case NameAppeared | NameVanished => w.client.watching
    case CreationDone(id, _) => id in w.creations
    case CreationFailed(id, _) => id in w.creations
    case FetchDone(id, _, at) => id in w.fetches && w.fetches[id].issued <= at <= w.clock
    case FetchFailed(id, _) => id in w.fetches
    case _ => true
  }

  /** Whether an event issues a proxy creation, or a call. Operations are identified by the time they are issued. */
  predicate Issues(c: Client, e: Event) {
    c.running && (e.NameAppeared? || (e.IdleFires? && c.proxy.Some?))
  }

  function ClientAfter(w: World, e: Event): Client
    requires Enabled(w, e)
  {
    match e
    case Start => Started(w.client)
    case Stop => Stopped(w.client)
    case NameAppeared => Appeared(w.client, w.clock)
    case NameVanished => Vanished(w.client)
    case CreationDone(id, proxy) => Created(w.client, w.creations[id], proxy)
    case CreationFailed(id, cancelledError) => NotCreated(w.client, w.creations[id], cancelledError)
    case StateSignal => Schedule(w.client)
    case OtherSignal => w.client
    case IdleFires => Refreshed(w.client)
    case FetchDone(id, view, _) => Fetched(w.client, w.fetches[id], view)
    case FetchFailed(id, cancelledError) => NotFetched(w.client, w.fetches[id], cancelledError)
  }

  function Next(w: World, e: Event): (r: World)
    requires Enabled(w, e)
    ensures r.client == ClientAfter(w, e)
  {
    var c := w.client;
    var w' := w.(client := ClientAfter(w, e), clock := w.clock + 1);
    match e
    case NameAppeared =>
      if Issues(c, e) then w'.(creations := w.creations[w.clock := Creation(w'.client.generation, w.clock)]) else w'
    case CreationDone(id, _) => w'.(creations := w.creations - {id})
    case CreationFailed(id, _) => w'.(creations := w.creations - {id})
    case StateSignal => w'.(signalled := w.clock)
    case IdleFires =>
      if Issues(c, e) then
        w'.(fetches := w.fetches[w.clock := Fetch(c.generation, c.proxy.value, w.clock)],
            issued := w.clock, outcome := Waiting, before := c.lastView)
      else w'
    case FetchDone(id, view, at) =>
      if Concerns(c, w.fetches[id]) then
        w'.(fetches := w.fetches - {id}, snapshot := at, view := view, outcome := Succeeded)
      else w'.(fetches := w.fetches - {id})
    case FetchFailed(id, cancelledError) =>
      if Concerns(c, w.fetches[id]) then
        w'.(fetches := w.fetches - {id}, outcome := if cancelledError then Cancelled else Failed)
      else w'.(fetches := w.fetches - {id})
    case _ => w'
  }

  ghost predicate Possible(w: World, es: seq<Event>)
    decreases |es|
  {
    es == [] || (Enabled(w, es[0]) && Possible(Next(w, es[0]), es[1..]))
  }

  ghost function After(w: World, es: seq<Event>): World
    requires Possible(w, es)
    decreases |es|
  {
    if es == [] then w else After(Next(w, es[0]), es[1..])
  }

  // ----- Invariant -----

  ghost function CurrentFetches(w: World): set<nat> {
    set id | id in w.fetches && w.fetches[id].generation == w.client.generation
  }

  ghost function CurrentCreations(w: World): set<nat> {
    set id | id in w.creations && w.creations[id].generation == w.client.generation
  }

  /** The client's own fields fit together. */
  ghost predicate Coherent(c: Client) {
    && (c.scheduled ==> c.running && c.proxy.Some? && !c.inFlight)
    && (c.inFlight ==> c.running && c.proxy.Some?)
    && (c.again ==> c.inFlight || c.scheduled)
    && (c.proxy.Some? ==> c.running && c.cancellable.Some?)
    && (c.cancellable.Some? ==> c.running && c.cancellable.value !in c.cancelled)
    && c.handlers == (if c.proxy.Some? then {c.proxy.value} else {})
    && (c.watching <==> c.running)
    && (c.running && c.cancellable.None? ==> c.lastView == Some(SERVICE_UNAVAILABLE))
    && (c.listening ==> c.Shown() == c.lastView)
    && (c.listening && !c.running ==> c.lastView == None)
  }

  /** Outstanding calls belong to no later generation; of the current one there is one exactly while in flight. */
  ghost predicate FetchesFit(w: World) {
    var c := w.client;
    && (forall id | id in w.fetches :: w.fetches[id].generation <= c.generation && w.fetches[id].issued == id < w.clock)
    && (forall id | id in CurrentFetches(w) :: c.inFlight && c.proxy == Some(w.fetches[id].proxy) && id == w.issued)
    && (c.inFlight ==> w.issued in CurrentFetches(w))
  }

  /** Outstanding creations belong to no later generation; one of the current generation is still wanted. */
  ghost predicate CreationsFit(w: World) {
    var c := w.client;
    && (forall id | id in w.creations ::
         w.creations[id].generation <= c.generation && w.creations[id].cancellable == id < w.clock)
    && (forall x | x in c.cancelled :: x < w.clock)
    && (c.cancellable.Some? ==> c.cancellable.value < w.clock)
    && (forall id | id in CurrentCreations(w) ::
         c.proxy.None? && c.cancellable == Some(id) && c.lastView == Some(OBSERVER_UNAVAILABLE))
  }

  /** A state signal delivered since the last call was issued will be followed by another call. */
  ghost predicate SignalsHeeded(w: World) {
    && w.signalled < w.clock && w.issued < w.clock
    && (w.client.running && w.client.proxy.Some? && w.signalled > w.issued ==>
         w.client.scheduled || (w.client.inFlight && w.client.again))
    && (w.client.inFlight ==> w.outcome == Waiting && w.client.lastView == w.before)
    && (w.client.proxy.Some? && !w.client.scheduled && !w.client.inFlight ==>
         match w.outcome
         case Waiting => false
         case Succeeded => w.snapshot >= w.issued && w.client.lastView == Some(w.view)
         case Failed => w.client.lastView == Some(OBSERVER_UNAVAILABLE)
         case Cancelled => w.client.lastView == w.before)
  }

  ghost predicate Inv(w: World) {
    Coherent(w.client) && FetchesFit(w) && CreationsFit(w) && SignalsHeeded(w)
  }

  lemma BeginningIsValid()
    ensures Inv(BEGINNING)
  {
  }

  lemma StepKeepsCoherence(w: World, e: Event)
    requires Inv(w) && Enabled(w, e)
    ensures Coherent(Next(w, e).client)
  {
    hide Next;
    match e
    case CreationDone(id, _) =>
      if w.creations[id].generation == w.client.generation { assert id in CurrentCreations(w); }
    case CreationFailed(id, _) =>
      if w.creations[id].generation == w.client.generation { assert id in CurrentCreations(w); }
    case FetchDone(id, _, _) =>
      if w.fetches[id].generation == w.client.generation { assert id in CurrentFetches(w); }
    case FetchFailed(id, _) =>
      if w.fetches[id].generation == w.client.generation { assert id in CurrentFetches(w); }
    case _ =>
  }

  /** A new generation starts with no operations of its own. */
  lemma NewGenerationIsFresh(w: World, w': World)
    requires w'.client.generation > w.client.generation && !w'.client.inFlight && w'.clock > w.clock
    ensures FetchesFit(w) && w'.fetches == w.fetches ==> FetchesFit(w')
    ensures CreationsFit(w) && w'.creations == w.creations ==> CurrentCreations(w') == {}
  {
  }

  lemma SameFetches(w: World, w': World)
    requires FetchesFit(w) && w'.fetches == w.fetches && w'.issued == w.issued && w'.clock > w.clock
    requires w'.client.generation == w.client.generation && w'.client.inFlight == w.client.inFlight
    requires w.client.inFlight ==> w'.client.proxy == w.client.proxy
    ensures FetchesFit(w')
  {
    assert CurrentFetches(w') == CurrentFetches(w);
  }

  lemma IdleKeepsFetches(w: World)
    requires Coherent(w.client) && FetchesFit(w) && w.client.scheduled
    ensures FetchesFit(Next(w, IdleFires))
  {
    hide Coherent;
    assert w.client.running && w.client.proxy.Some? && !w.client.inFlight by { ScheduledIsReady(w.client); }
    var w' := Next(w, IdleFires);
    assert forall id | id in CurrentFetches(w') :: id == w.clock || id in CurrentFetches(w);
  }

  lemma ScheduledIsReady(c: Client)
    requires Coherent(c) && c.scheduled
    ensures c.running && c.proxy.Some? && !c.inFlight
  {
  }

  lemma CompletionKeepsFetches(w: World, e: Event)
    requires Coherent(w.client) && FetchesFit(w) && Enabled(w, e) && (e.FetchDone? || e.FetchFailed?)
    ensures FetchesFit(Next(w, e))
  {
    hide Publish, Schedule;
    var w' := Next(w, e);
    if w.fetches[e.id].generation == w.client.generation { assert e.id in CurrentFetches(w); }
    assert CurrentFetches(w') == CurrentFetches(w) - {e.id};
  }

  lemma StepKeepsFetches(w: World, e: Event)
    requires Coherent(w.client) && FetchesFit(w) && CreationsFit(w) && Enabled(w, e)
    ensures FetchesFit(Next(w, e))
  {
    hide Publish, Schedule, FetchesFit, CurrentFetches, Settle;
    var w' := Next(w, e);
    match e
    case FetchDone(_, _, _) => CompletionKeepsFetches(w, e);
    case FetchFailed(_, _) => CompletionKeepsFetches(w, e);
    case IdleFires => IdleKeepsFetches(w);
    case CreationDone(id, _) =>
      if w.creations[id].generation == w.client.generation { assert id in CurrentCreations(w); }
      SameFetches(w, w');
    case _ =>
      if w'.client.generation > w.client.generation {
        NewGenerationIsFresh(w, w');
      } else {
        SameFetches(w, w');
      }
  }

  lemma SameCreations(w: World, w': World)
    requires CreationsFit(w) && w'.creations == w.creations && w'.clock > w.clock
    requires w'.client.generation == w.client.generation && w'.client.proxy == w.client.proxy
    requires w'.client.cancellable == w.client.cancellable && w'.client.cancelled == w.client.cancelled
    requires w'.client.lastView == w.client.lastView || w.client.proxy.Some? || w.client.cancellable.None?
    ensures CreationsFit(w')
  {
    assert CurrentCreations(w') == CurrentCreations(w);
  }

  lemma CompletionKeepsCreations(w: World, e: Event)
    requires Coherent(w.client) && CreationsFit(w) && Enabled(w, e) && (e.CreationDone? || e.CreationFailed?)
    ensures CreationsFit(Next(w, e))
  {
    hide Publish, Schedule;
    var w' := Next(w, e);
    if w.creations[e.id].generation == w.client.generation { assert e.id in CurrentCreations(w); }
    assert CurrentCreations(w') == CurrentCreations(w) - {e.id};
    assert w.creations[e.id].generation == w.client.generation ==> CurrentCreations(w') == {};
  }

  lemma GenerationKeepsCreations(w: World, e: Event)
    requires CreationsFit(w) && Enabled(w, e) && (e.Stop? || e.NameAppeared? || e.NameVanished?)
    ensures CreationsFit(Next(w, e))
  {
    hide Publish;
    var w' := Next(w, e);
    if w'.client.generation == w.client.generation {
      SameCreations(w, w');
    } else {
      assert forall id | id in CurrentCreations(w') :: id == w.clock && e.NameAppeared?;
    }
  }

  lemma FetchEndedIsConcerned(w: World, e: Event)
    requires FetchesFit(w) && Enabled(w, e) && (e.FetchDone? || e.FetchFailed?)
    ensures w.client.running && w.fetches[e.id].generation == w.client.generation ==> w.client.proxy.Some?
  {
    if w.fetches[e.id].generation == w.client.generation { assert e.id in CurrentFetches(w); }
  }

  lemma StepKeepsCreations(w: World, e: Event)
    requires Coherent(w.client) && FetchesFit(w) && CreationsFit(w) && Enabled(w, e)
    ensures CreationsFit(Next(w, e))
  {
    hide Publish, Schedule, Settle, CreationsFit, Coherent, FetchesFit;
    match e
    case CreationDone(_, _) => CompletionKeepsCreations(w, e);
    case CreationFailed(_, _) => CompletionKeepsCreations(w, e);
    case Stop => GenerationKeepsCreations(w, e);
    case NameAppeared => GenerationKeepsCreations(w, e);
    case NameVanished => GenerationKeepsCreations(w, e);
    case Start =>
      OnlyRunningCancels(w.client);
      SameCreations(w, Next(w, e));
    case FetchDone(_, _, _) =>
      FetchEndedIsConcerned(w, e);
      SameCreations(w, Next(w, e));
    case FetchFailed(_, _) =>
      FetchEndedIsConcerned(w, e);
      SameCreations(w, Next(w, e));
    case _ => SameCreations(w, Next(w, e));
  }

  lemma OnlyRunningCancels(c: Client)
    requires Coherent(c)
    ensures c.cancellable.Some? ==> c.running
  {
  }

  lemma StepHeedsSignals(w: World, e: Event)
    requires Inv(w) && Enabled(w, e)
    ensures SignalsHeeded(Next(w, e))
  {
    hide Publish;
    match e
    case FetchDone(id, _, _) =>
      if w.fetches[id].generation == w.client.generation { assert id in CurrentFetches(w); }
    case FetchFailed(id, _) =>
      if w.fetches[id].generation == w.client.generation { assert id in CurrentFetches(w); }
    case CreationDone(id, _) =>
      if w.creations[id].generation == w.client.generation { assert id in CurrentCreations(w); }
    case CreationFailed(id, _) =>
      if w.creations[id].generation == w.client.generation { assert id in CurrentCreations(w); }
    case _ =>
  }

  lemma StepKeepsInv(w: World, e: Event)
    requires Inv(w) && Enabled(w, e)
    ensures Inv(Next(w, e))
  {
    StepKeepsCoherence(w, e);
    StepKeepsFetches(w, e);
    StepKeepsCreations(w, e);
    StepHeedsSignals(w, e);
  }

  lemma {:induction false} RunKeepsInv(w: World, es: seq<Event>)
    requires Inv(w) && Possible(w, es)
    ensures Inv(After(w, es))
    decreases |es|
  {
    hide Inv, Enabled, Next;
    if es != [] {
      StepKeepsInv(w, es[0]);
      RunKeepsInv(Next(w, es[0]), es[1..]);
    }
  }

  lemma ReachableIsValid(es: seq<Event>)
    requires Possible(BEGINNING, es)
    ensures Inv(After(BEGINNING, es))
  {
    BeginningIsValid();
    RunKeepsInv(BEGINNING, es);
  }

  // ----- What every reachable state satisfies -----

  /** No state signal is lost: until a call newer than it is issued, one is scheduled or will follow the one
      in flight; and once nothing is pending after a successful call, what is shown comes from a server
      snapshot no older than the last signal. */
  lemma NoLostUpdate(es: seq<Event>)
    requires Possible(BEGINNING, es)
    ensures var w := After(BEGINNING, es);
            var c := w.client;
            c.running && c.proxy.Some? ==>
              && (w.signalled > w.issued ==> c.scheduled || (c.inFlight && c.again))
              && (!c.scheduled && !c.inFlight && w.outcome == Succeeded ==>
                   w.signalled <= w.issued <= w.snapshot && c.lastView == Some(w.view) &&
                   (c.listening ==> c.Shown() == Some(w.view)))
  {
    ReachableIsValid(es);
  }

  /** The current generation has one outstanding call exactly while a refresh is in flight, which never
      coexists with a scheduled one; handlers are connected exactly to the proxy held. */
  lemma CurrentOperations(es: seq<Event>)
    requires Possible(BEGINNING, es)
    ensures var w := After(BEGINNING, es);
            var c := w.client;
            && |CurrentFetches(w)| == (if c.inFlight then 1 else 0)
            && |CurrentCreations(w)| <= 1
            && (CurrentCreations(w) != {} ==> c.proxy.None?)
            && !(c.scheduled && c.inFlight)
            && c.handlers == Held(c.proxy)
            && (!c.running ==> CurrentFetches(w) == {} && CurrentCreations(w) == {} && !c.scheduled && c.proxy.None?)
  {
    ReachableIsValid(es);
    var w := After(BEGINNING, es);
    if w.client.inFlight {
      assert CurrentFetches(w) == {w.issued};
    }
    if w.client.cancellable.Some? {
      AtMostOne(CurrentCreations(w), w.client.cancellable.value);
    } else {
      assert CurrentCreations(w) == {};
    }
  }

  lemma AtMostOne(s: set<nat>, x: nat)
    requires forall y | y in s :: y == x
    ensures |s| <= 1
  {
    assert s == {} || s == {x};
  }

  /** The generation an outstanding completion belongs to. */
  function GenerationOf(w: World, e: Event): nat
    requires Enabled(w, e) && (e.CreationDone? || e.CreationFailed? || e.FetchDone? || e.FetchFailed?)
  {
    if e.CreationDone? || e.CreationFailed? then w.creations[e.id].generation else w.fetches[e.id].generation
  }

  /** A completion of an older generation, or after stop, changes no field and publishes nothing; one of the
      current generation always concerns the proxy held and finds its cancellable live. */
  lemma OnlyCurrentCompletionsAct(es: seq<Event>, e: Event)
    requires Possible(BEGINNING, es) && Enabled(After(BEGINNING, es), e)
    requires e.CreationDone? || e.CreationFailed? || e.FetchDone? || e.FetchFailed?
    ensures var w := After(BEGINNING, es);
            if IsCurrent(w.client, GenerationOf(w, e)) then
              if e.FetchDone? || e.FetchFailed? then Concerns(w.client, w.fetches[e.id])
              else w.creations[e.id].cancellable !in w.client.cancelled && w.client.proxy.None?
            else Next(w, e).client == w.client
  {
    ReachableIsValid(es);
    var w := After(BEGINNING, es);
    if IsCurrent(w.client, GenerationOf(w, e)) {
      if e.FetchDone? || e.FetchFailed? {
        assert e.id in CurrentFetches(w);
      } else {
        assert e.id in CurrentCreations(w);
      }
    }
  }

  ghost predicate NoAppearance(es: seq<Event>) {
    forall i | 0 <= i < |es| :: !es[i].NameAppeared?
  }

  lemma StaysDetached(w: World, e: Event)
    requires Inv(w) && w.client.cancellable.None? && Enabled(w, e) && !e.NameAppeared?
    ensures Next(w, e).client.cancellable.None?
  {
    hide Inv, Next, Publish, Schedule, Concerns, Settle;
    match e
    case FetchDone(_, _, _) =>
    case FetchFailed(_, _) =>
    case _ =>
  }

  lemma {:induction false} DetachedWithoutAppearance(w: World, es: seq<Event>)
    requires Inv(w) && w.client.cancellable.None? && Possible(w, es) && NoAppearance(es)
    ensures After(w, es).client.cancellable.None?
    decreases |es|
  {
    hide Inv, Next, Enabled;
    if es != [] {
      StepKeepsInv(w, es[0]);
      StaysDetached(w, es[0]);
      DetachedWithoutAppearance(Next(w, es[0]), es[1..]);
    }
  }

  /** After the name vanishes, and until it appears again, a running client shows the service as unavailable. */
  lemma VanishedStaysUnavailable(before: seq<Event>, es: seq<Event>)
    requires Possible(BEGINNING, before) && After(BEGINNING, before).client.running
    requires Enabled(After(BEGINNING, before), NameVanished)
    requires Possible(Next(After(BEGINNING, before), NameVanished), es) && NoAppearance(es)
    ensures var c := After(Next(After(BEGINNING, before), NameVanished), es).client;
            c.running ==>
              c.lastView == Some(SERVICE_UNAVAILABLE) && (c.listening ==> c.Shown() == Some(SERVICE_UNAVAILABLE))
  {
    ReachableIsValid(before);
    var w := After(BEGINNING, before);
    StepKeepsInv(w, NameVanished);
    DetachedWithoutAppearance(Next(w, NameVanished), es);
    RunKeepsInv(Next(w, NameVanished), es);
  }

  lemma UnheardStepShowsNothing(w: World, e: Event)
    requires !w.client.listening && Enabled(w, e)
    ensures Next(w, e).client.told == w.client.told && !Next(w, e).client.listening
  {
    hide Next, Publish, Schedule, Concerns, Settle;
    match e
    case FetchDone(_, _, _) =>
    case FetchFailed(_, _) =>
    case _ =>
  }

  lemma {:induction false} UnheardRunsShowNothing(w: World, es: seq<Event>)
    requires !w.client.listening && Possible(w, es)
    ensures After(w, es).client.told == w.client.told && !After(w, es).client.listening
    decreases |es|
  {
    hide Next, Enabled;
    if es != [] {
      UnheardStepShowsNothing(w, es[0]);
      UnheardRunsShowNothing(Next(w, es[0]), es[1..]);
    }
  }

  /** Once stopped, the client never calls its listener again, whatever still completes. */
  lemma StoppedIsSilent(w: World, es: seq<Event>)
    requires Possible(Next(w, Stop), es)
    ensures After(Next(w, Stop), es).client.told == w.client.told
  {
    UnheardRunsShowNothing(Next(w, Stop), es);
  }

  // ----- What the listener is told -----

  /** No view follows itself. */
  ghost predicate NeverTwice(told: seq<View>) {
    told == [] || (NeverTwice(told[..|told| - 1]) && (|told| > 1 ==> told[|told| - 2] != told[|told| - 1]))
  }

  /** The listener has been told the current view if it changed, and nothing else. */
  predicate TellsChange(c: Client, c': Client) {
    c'.told == c.told + if c.listening && c'.lastView != c.lastView && c'.lastView.Some?
      then [c'.lastView.value] else []
  }

  lemma PublishTells(c: Client, v: View)
    ensures TellsChange(c, Publish(c, v))
  {
  }

  lemma QuietTells(c: Client, c': Client)
    requires c'.told == c.told && (c'.lastView == c.lastView || c'.lastView.None?)
    ensures TellsChange(c, c')
  {
  }

  lemma ResetTells(c: Client)
    ensures Reset(c).told == c.told && Reset(c).lastView == c.lastView && Reset(c).listening == c.listening
  {
  }

  lemma GenerationTells(w: World, e: Event)
    requires Enabled(w, e) && (e.Start? || e.Stop? || e.NameAppeared? || e.NameVanished?)
    ensures TellsChange(w.client, ClientAfter(w, e))
  {
    hide Publish, TellsChange, Reset;
    var c, c' := w.client, ClientAfter(w, e);
    ResetTells(c);
    if e.Stop? || (e.Start? && c.running) || (!e.Start? && !c.running) {
      QuietTells(c, c');
    } else if e.Start? {
      OfPublished(c, c.(running := true), c', SERVICE_UNAVAILABLE);
    } else if e.NameAppeared? {
      OfPublished(c, Reset(c).(cancellable := Some(w.clock)), c', OBSERVER_UNAVAILABLE);
    } else {
      OfPublished(c, Reset(c), c', SERVICE_UNAVAILABLE);
    }
  }

  lemma CompletionTells(w: World, e: Event)
    requires Enabled(w, e) && (e.CreationFailed? || e.FetchDone? || e.FetchFailed?)
    ensures TellsChange(w.client, ClientAfter(w, e))
  {
    hide Publish, TellsChange, Settle, Concerns, IsCurrent;
    var c, c' := w.client, ClientAfter(w, e);
    match e
    case CreationFailed(_, _) =>
      if c' == c { QuietTells(c, c'); } else { OfPublished(c, c, c', SERVICE_UNAVAILABLE); }
    case FetchDone(id, view, _) =>
      if Concerns(c, w.fetches[id]) { OfPublished(c, c, c', view); } else { QuietTells(c, c'); }
    case FetchFailed(id, cancelledError) =>
      if IsCurrent(c, w.fetches[id].generation) && !cancelledError {
        OfPublished(c, c, c', OBSERVER_UNAVAILABLE);
      } else {
        QuietTells(c, c');
      }
  }

  /** A step tells the listener of a change of view, and of nothing else. */
  lemma StepTells(w: World, e: Event)
    requires Enabled(w, e)
    ensures TellsChange(w.client, Next(w, e).client)
  {
    hide Next, Schedule, TellsChange, Started, Stopped, Appeared, Vanished, NotCreated, Refreshed, Fetched, NotFetched;
    var c, c' := w.client, Next(w, e).client;
    if e.Start? || e.Stop? || e.NameAppeared? || e.NameVanished? {
      GenerationTells(w, e);
    } else if e.CreationFailed? || e.FetchDone? || e.FetchFailed? {
      CompletionTells(w, e);
    } else {
      RefreshedIsQuiet(c);
      QuietTells(c, c');
    }
  }

  lemma RefreshedIsQuiet(c: Client)
    ensures Refreshed(c).told == c.told && Refreshed(c).lastView == c.lastView
  {
  }

  lemma OfPublished(c: Client, ready: Client, c': Client, v: View)
    requires ready.told == c.told && ready.lastView == c.lastView && ready.listening == c.listening
    requires c'.told == Publish(ready, v).told && c'.lastView == Publish(ready, v).lastView
    ensures TellsChange(c, c')
  {
    PublishTells(ready, v);
  }

  lemma ToldNext(told: seq<View>, next: View)
    requires NeverTwice(told) && (told == [] || told[|told| - 1] != next)
    ensures NeverTwice(told + [next])
  {
    assert (told + [next])[..|told|] == told;
  }

  lemma {:induction false} RunsTellNothingTwice(w: World, es: seq<Event>)
    requires Inv(w) && Possible(w, es) && NeverTwice(w.client.told)
    ensures NeverTwice(After(w, es).client.told)
    decreases |es|
  {
    hide Inv, Enabled, Next, NeverTwice;
    if es != [] {
      StepKeepsInv(w, es[0]);
      StepTellsNothingTwice(w, es[0]);
      RunsTellNothingTwice(Next(w, es[0]), es[1..]);
    }
  }

  lemma LastToldIsCurrent(c: Client)
    requires Coherent(c)
    ensures c.listening ==> c.Shown() == c.lastView
  {
  }

  lemma StepTellsNothingTwice(w: World, e: Event)
    requires Inv(w) && Enabled(w, e) && NeverTwice(w.client.told)
    ensures NeverTwice(Next(w, e).client.told)
  {
    hide Enabled, Next, NeverTwice, Coherent, FetchesFit, CreationsFit, SignalsHeeded;
    StepTells(w, e);
    var c, c' := w.client, Next(w, e).client;
    if c'.told != c.told {
      LastToldIsCurrent(c);
      ToldNext(c.told, c'.lastView.value);
    }
  }

  /** Over every run the listener is told of changes only: no view twice in a row, and while it listens the last one
      told is the current one. */
  lemma OnlyChangesAreTold(es: seq<Event>)
    requires Possible(BEGINNING, es)
    ensures var c := After(BEGINNING, es).client;
            NeverTwice(c.told) && (c.listening ==> c.Shown() == c.lastView)
  {
    BeginningIsValid();
    ReachableIsValid(es);
    RunsTellNothingTwice(BEGINNING, es);
  }

  /** Attached to no proxy, with none being made, the service is shown as unavailable. */
  ghost predicate Detached(w: World) {
    && w.client.proxy.None? && CurrentCreations(w) == {}
    && (w.client.running ==> w.client.lastView == Some("service-unavailable"))
  }

  lemma StaysUnattached(w: World, e: Event)
    requires Inv(w) && Detached(w) && Enabled(w, e) && !e.NameAppeared?
    ensures Detached(Next(w, e))
  {
    hide Publish;
    match e
    case FetchDone(id, _, _) => FetchEndedIsConcerned(w, e);
    case FetchFailed(id, _) => FetchEndedIsConcerned(w, e);
    case CreationDone(id, _) => assert id !in CurrentCreations(w);
    case CreationFailed(id, _) => assert id !in CurrentCreations(w);
    case _ =>
  }

  lemma {:induction false} StaysDetachedThroughout(w: World, es: seq<Event>)
    requires Inv(w) && Detached(w) && Possible(w, es) && NoAppearance(es)
    ensures Detached(After(w, es))
    decreases |es|
  {
    hide Inv, Next, Enabled, Detached;
    if es != [] {
      StepKeepsInv(w, es[0]);
      StaysUnattached(w, es[0]);
      StaysDetachedThroughout(Next(w, es[0]), es[1..]);
    }
  }

  /** While a proxy is being made the observer is shown as unavailable. When that fails, and was not cancelled, the
      service is, whatever happens until the name appears again. */
  lemma FailedCreationStaysUnavailable(before: seq<Event>, id: nat, es: seq<Event>)
    requires Possible(BEGINNING, before) && id in CurrentCreations(After(BEGINNING, before))
    requires After(BEGINNING, before).client.running
    requires Possible(Next(After(BEGINNING, before), CreationFailed(id, false)), es) && NoAppearance(es)
    ensures After(BEGINNING, before).client.lastView == Some("observer-unavailable")
    ensures var c := After(Next(After(BEGINNING, before), CreationFailed(id, false)), es).client;
            c.running ==> c.lastView == Some("service-unavailable")
  {
    hide Possible, After;
    ReachableIsValid(before);
    var w := After(BEGINNING, before);
    var failed := CreationFailed(id, false);
    StepKeepsInv(w, failed);
    assert Detached(Next(w, failed));
    StaysDetachedThroughout(Next(w, failed), es);
  }

  // ----- Calls are made only when called for, and stale operations are cancelled -----

  /** A refresh is scheduled only for a signal newer than the last call, or for a proxy nothing was called on yet;
      another is asked for during a call only after such a signal. No call is made while a proxy is being made.
      The operations of older generations have been cancelled. */
  ghost predicate CalledFor(w: World) {
    var c := w.client;
    && (c.scheduled ==> w.signalled > w.issued || (c.cancellable.Some? && w.issued < c.cancellable.value))
    && (c.inFlight && c.again ==> w.signalled > w.issued)
    && (forall id | id in CurrentCreations(w) :: w.issued < id)
    && (forall id | id in w.creations && id !in CurrentCreations(w) :: w.creations[id].cancellable in c.cancelled)
  }

  lemma GenerationIsCalledFor(w: World, e: Event)
    requires Inv(w) && CalledFor(w) && Enabled(w, e) && (e.Stop? || e.NameAppeared? || e.NameVanished?)
    ensures CalledFor(Next(w, e))
  {
    hide Publish, Coherent, FetchesFit, SignalsHeeded;
    var w' := Next(w, e);
    IssuedInThePast(w);
    if w'.client.generation > w.client.generation {
      forall id | id in w'.creations && id !in CurrentCreations(w')
        ensures w'.creations[id].cancellable in w'.client.cancelled
      {
        assert id in w.creations && w'.creations[id] == w.creations[id];
      }
    } else {
      assert w'.client == w.client;
    }
  }

  lemma IssuedInThePast(w: World)
    requires SignalsHeeded(w)
    ensures w.issued < w.clock && w.signalled < w.clock
  {
  }

  lemma CreationIsCalledFor(w: World, e: Event)
    requires Inv(w) && CalledFor(w) && Enabled(w, e) && (e.CreationDone? || e.CreationFailed?)
    ensures CalledFor(Next(w, e))
  {
    hide Publish, FetchesFit, SignalsHeeded;
    assert CurrentCreations(Next(w, e)) == CurrentCreations(w) - {e.id};
    if w.creations[e.id].generation == w.client.generation { assert e.id in CurrentCreations(w); }
  }

  lemma FetchIsCalledFor(w: World, e: Event)
    requires Inv(w) && CalledFor(w) && Enabled(w, e) && (e.FetchDone? || e.FetchFailed?)
    ensures CalledFor(Next(w, e))
  {
    hide Publish, FetchesFit, CreationsFit, SignalsHeeded;
    assert CurrentCreations(Next(w, e)) == CurrentCreations(w);
  }

  lemma StepIsCalledFor(w: World, e: Event)
    requires Inv(w) && CalledFor(w) && Enabled(w, e)
    ensures CalledFor(Next(w, e))
  {
    hide Publish, FetchesFit, CreationsFit;
    match e {
      case Stop => GenerationIsCalledFor(w, e);
      case NameAppeared => GenerationIsCalledFor(w, e);
      case NameVanished => GenerationIsCalledFor(w, e);
      case CreationDone(_, _) => CreationIsCalledFor(w, e);
      case CreationFailed(_, _) => CreationIsCalledFor(w, e);
      case FetchDone(_, _, _) => FetchIsCalledFor(w, e);
      case FetchFailed(_, _) => FetchIsCalledFor(w, e);
      case IdleFires =>
        assert CurrentCreations(Next(w, e)) == CurrentCreations(w);
        NoneMadeWhileHeld(w);
      case _ =>
        assert CurrentCreations(Next(w, e)) == CurrentCreations(w);
    }
  }

  lemma NoneMadeWhileHeld(w: World)
    requires Inv(w) && w.client.scheduled
    ensures CurrentCreations(w) == {}
  {
    hide FetchesFit, SignalsHeeded;
    ScheduledIsReady(w.client);
    assert forall id | id in CurrentCreations(w) :: w.client.proxy.None?;
  }

  /** Over every run. */
  lemma {:induction false} RunsAreCalledFor(w: World, es: seq<Event>)
    requires Inv(w) && CalledFor(w) && Possible(w, es)
    ensures CalledFor(After(w, es))
    decreases |es|
  {
    hide Inv, Enabled, Next, CalledFor;
    if es != [] {
      StepKeepsInv(w, es[0]);
      StepIsCalledFor(w, es[0]);
      RunsAreCalledFor(Next(w, es[0]), es[1..]);
    }
  }

  lemma NothingIsDoneUncalled(es: seq<Event>)
    requires Possible(BEGINNING, es)
    ensures CalledFor(After(BEGINNING, es))
  {
    BeginningIsValid();
    RunsAreCalledFor(BEGINNING, es);
  }
}
