/** The extension's client together with the service it listens to. */
module ExtensionService {
  import opened Prelude
  import opened Monitor
  import opened DbusService
  import C = ExtensionClient

  /** A served call: the sessions it returned and when it was served. */
  datatype Reply = Reply(table: map<string, SessionDto>, at: nat)

  /** The client with its outstanding operations, the service's registry, the signals emitted since the proxy was
      attached and not yet delivered, the properties the proxy has cached, and the calls served. `attached` and
      `changed` are when the proxy was attached and when the registry last changed; `usedTable` and `usedCache`
      are what the last successful view was made from. */
  datatype Joint = Joint(
    world: C.World,
    registry: Registry,
    undelivered: seq<Signal>,
    cache: Properties,
    replies: map<nat, Reply>,
    attached: nat,
    changed: nat,
    usedTable: map<string, SessionDto>,
    usedCache: Properties)

  datatype Action =
    | Apply(event: MonitorEvent)
    | Serve(id: nat)
    | Act(step: C.Event)

  /** How a view is made from cached properties and returned sessions is left open. */
  type Render = (Properties, map<string, SessionDto>) -> C.View

  ghost function Cached(cache: Properties, signals: seq<Signal>): Properties {
    HearAll(Shadow(cache, {}, map[]), signals).properties
  }

  /** Signals are delivered in order, and a reply is what the service returned for that very call, shown with
      the properties cached when it arrives. */
  ghost predicate Enabled(render: Render, j: Joint, x: Action) {
    match x
    case Apply(_) => true
    case Serve(id) => id in j.world.fetches && id !in j.replies
    case Act(e) =>
      C.Enabled(j.world, e) &&
      match e
      case StateSignal => j.undelivered != []
      case FetchDone(id, view, at) =>
        id in j.replies && at == j.replies[id].at && view == render(j.cache, j.replies[id].table)
      case _ => true
  }

  /** Time passes for the client although it does nothing. */
  function Passed(w: C.World): C.World {
    w.(clock := w.clock + 1)
  }

  ghost function Next(render: Render, j: Joint, x: Action): Joint
    requires Enabled(render, j, x)
  {
    match x
    case Apply(event) =>
      var after := Reduce(j.registry, event);
      var signals := SignalsFor(j.registry, event);
      j.(
        world := Passed(j.world), registry := after,
        undelivered := if j.world.client.proxy.Some? then j.undelivered + signals else [],
        changed := if after != j.registry then j.world.clock else j.changed)
    case Serve(id) =>
      j.(world := Passed(j.world), replies := j.replies[id := Reply(Table(j.registry), j.world.clock)])
    case Act(e) =>
      var j' := j.(world := C.Next(j.world, e));
      if j'.world.client.proxy.None? then
        j'.(undelivered := [])
      else if j.world.client.proxy != j'.world.client.proxy then
        j'.(undelivered := [], cache := PropertiesOf(j.registry), attached := j.world.clock)
      else
        match e
        case StateSignal =>
          j'.(undelivered := j.undelivered[1..], cache := Cached(j.cache, [j.undelivered[0]]))
        case FetchDone(id, _, _) =>
          if C.Concerns(j.world.client, j.world.fetches[id])
          then j'.(usedTable := j.replies[id].table, usedCache := j.cache) else j'
        case _ => j'
  }

  ghost predicate Possible(render: Render, j: Joint, xs: seq<Action>)
    decreases |xs|
  {
    xs == [] || (Enabled(render, j, xs[0]) && Possible(render, Next(render, j, xs[0]), xs[1..]))
  }

  ghost function After(render: Render, j: Joint, xs: seq<Action>): Joint
    requires Possible(render, j, xs)
    decreases |xs|
  {
    if xs == [] then j else After(render, Next(render, j, xs[0]), xs[1..])
  }

  function Beginning(r: Registry): Joint {
    Joint(C.BEGINNING, r, [], PropertiesOf(r), map[], 0, 0, map[], PropertiesOf(r))
  }

  // ----- Invariant -----

  /** With a proxy, the undelivered signals bring the cached properties up to date; when there are none, the
      registry has not changed since the last signal, or since the proxy was attached. */
  ghost predicate CacheFits(j: Joint) {
    j.world.client.proxy.Some? ==>
      && Cached(j.cache, j.undelivered) == PropertiesOf(j.registry)
      && (j.undelivered == [] ==> j.changed < j.world.signalled || j.changed < j.attached)
      && (j.world.client.scheduled || j.world.issued > j.attached)
  }

  /** A reply served since the registry last changed is current. */
  ghost predicate RepliesFit(j: Joint) {
    && j.changed < j.world.clock && j.attached < j.world.clock
    && forall id | id in j.replies ::
         j.replies[id].at < j.world.clock && (j.changed < j.replies[id].at ==> j.replies[id].table == Table(j.registry))
  }

  /** What the last successful view was made from: sessions current if nothing changed since, and the cached
      properties if no signal came and no proxy was attached since the call. */
  ghost predicate ViewFits(render: Render, j: Joint) {
    var w := j.world;
    w.outcome == C.Succeeded ==>
      && w.snapshot < w.clock
      && w.view == render(j.usedCache, j.usedTable)
      && (j.changed < w.snapshot ==> j.usedTable == Table(j.registry))
      && (w.client.proxy.Some? && w.signalled <= w.issued && j.attached < w.issued ==> j.usedCache == j.cache)
  }

  ghost predicate Inv(render: Render, j: Joint) {
    C.Inv(j.world) && CacheFits(j) && RepliesFit(j) && ViewFits(render, j)
  }

  lemma PassingKeepsInv(w: C.World)
    requires C.Inv(w)
    ensures C.Inv(Passed(w))
  {
    assert C.CurrentFetches(Passed(w)) == C.CurrentFetches(w);
    assert C.CurrentCreations(Passed(w)) == C.CurrentCreations(w);
  }

  /** The signals of an event bring up-to-date cached properties up to date with the event; an effective event
      emits some. */
  lemma SignalsUpdate(c: Shadow, r: Registry, event: MonitorEvent)
    requires c.properties == PropertiesOf(r)
    ensures HearAll(c, SignalsFor(r, event)).properties == PropertiesOf(Reduce(r, event))
    ensures SignalsFor(r, event) == [] ==> Reduce(r, event) == r
  {
    hide Reduce, PropertySignals, Availability.Text;
    var after := Reduce(r, event);
    if after != r {
      HearAllAppend(c, PropertySignals(r, after), EventSignals(after, event));
      PropertiesFollow(c, r, after);
      EventFollows(c.(properties := PropertiesOf(after)), after, event);
    }
  }

  /** What is heard of the properties depends on the properties alone. */
  lemma {:induction false} PropertiesAlone(c: Shadow, c': Shadow, signals: seq<Signal>)
    requires c.properties == c'.properties
    ensures HearAll(c, signals).properties == HearAll(c', signals).properties
    decreases |signals|
  {
    if signals != [] {
      PropertiesAlone(Hear(c, signals[0]), Hear(c', signals[0]), signals[1..]);
    }
  }

  lemma CacheAfterEvent(cache: Properties, undelivered: seq<Signal>, r: Registry, event: MonitorEvent)
    requires Cached(cache, undelivered) == PropertiesOf(r)
    ensures Cached(cache, undelivered + SignalsFor(r, event)) == PropertiesOf(Reduce(r, event))
  {
    hide Reduce, SignalsFor, PropertiesOf, HearAll;
    var c := Shadow(cache, {}, map[]);
    HearAllAppend(c, undelivered, SignalsFor(r, event));
    SignalsUpdate(HearAll(c, undelivered), r, event);
  }

  lemma CacheAfterDelivery(cache: Properties, undelivered: seq<Signal>)
    requires undelivered != []
    ensures Cached(Cached(cache, [undelivered[0]]), undelivered[1..]) == Cached(cache, undelivered)
  {
    hide HearAll;
    var c := Shadow(cache, {}, map[]);
    HearAllAppend(c, [undelivered[0]], undelivered[1..]);
    assert undelivered == [undelivered[0]] + undelivered[1..];
    var heard := HearAll(c, [undelivered[0]]);
    PropertiesAlone(Shadow(heard.properties, {}, map[]), heard, undelivered[1..]);
  }

  lemma NothingCached(cache: Properties)
    ensures Cached(cache, []) == cache
  {
  }

  lemma ApplyKeepsInv(render: Render, j: Joint, event: MonitorEvent)
    requires Inv(render, j)
    ensures Inv(render, Next(render, j, Apply(event)))
  {
    hide C.Inv, Cached, Reduce, SignalsFor, PropertiesOf, Table;
    PassingKeepsInv(j.world);
    if j.world.client.proxy.Some? {
      CacheAfterEvent(j.cache, j.undelivered, j.registry, event);
      NoSignalsNoChange(j.registry, event);
    }
  }

  lemma NoSignalsNoChange(r: Registry, event: MonitorEvent)
    ensures SignalsFor(r, event) == [] ==> Reduce(r, event) == r
  {
    SignalsUpdate(Shadow(PropertiesOf(r), {}, map[]), r, event);
  }

  lemma ServeKeepsInv(render: Render, j: Joint, id: nat)
    requires Inv(render, j) && Enabled(render, j, Serve(id))
    ensures Inv(render, Next(render, j, Serve(id)))
  {
    hide C.Inv, Cached, PropertiesOf, Table;
    PassingKeepsInv(j.world);
  }

  /** Which of its fields the client changes when. */
  lemma ClientMoves(w: C.World, e: C.Event)
    requires C.Inv(w) && C.Enabled(w, e)
    ensures var c, c' := w.client, C.Next(w, e).client;
            && (c'.proxy.Some? && c'.proxy != c.proxy ==> e.CreationDone? && c'.scheduled)
            && (c'.proxy.Some? && c'.proxy == c.proxy && c.scheduled && !e.IdleFires? ==> c'.scheduled)
            && (c'.proxy.Some? && e.IdleFires? ==> C.Issues(c, e))
            && (e.StateSignal? ==> c'.proxy == c.proxy)
            && (e.FetchDone? && C.Concerns(c, w.fetches[e.id]) ==> c'.proxy == c.proxy && c.proxy.Some?)
  {
    hide C.FetchesFit, C.SignalsHeeded, C.Publish;
    if e.CreationDone? && w.creations[e.id].generation == w.client.generation {
      assert e.id in C.CurrentCreations(w);
    }
  }

  lemma IssuedBeforeNow(w: C.World)
    requires C.Inv(w)
    ensures w.issued < w.clock
  {
  }

  lemma DetachedKeepsInv(render: Render, j: Joint, e: C.Event)
    requires Inv(render, j) && Enabled(render, j, Act(e)) && C.Inv(C.Next(j.world, e))
    requires var c, c' := j.world.client, C.Next(j.world, e).client;
             c'.proxy.None?
    ensures Inv(render, Next(render, j, Act(e)))
  {
    hide C.Inv, C.ClientAfter, Cached, PropertiesOf, Table, C.Concerns, C.Publish;
    ClientMoves(j.world, e);
    IssuedBeforeNow(j.world);
  }

  lemma AttachingKeepsInv(render: Render, j: Joint, e: C.Event)
    requires Inv(render, j) && Enabled(render, j, Act(e)) && C.Inv(C.Next(j.world, e))
    requires var c, c' := j.world.client, C.Next(j.world, e).client;
             c'.proxy.Some? && c'.proxy != c.proxy
    ensures Inv(render, Next(render, j, Act(e)))
  {
    hide C.Inv, C.ClientAfter, Cached, PropertiesOf, Table, C.Concerns, C.Publish;
    ClientMoves(j.world, e);
    IssuedBeforeNow(j.world);
    NothingCached(PropertiesOf(j.registry));
  }

  lemma SignalKeepsInv(render: Render, j: Joint, e: C.Event)
    requires Inv(render, j) && Enabled(render, j, Act(e)) && C.Inv(C.Next(j.world, e))
    requires var c, c' := j.world.client, C.Next(j.world, e).client;
             c'.proxy.Some? && c'.proxy == c.proxy && e.StateSignal?
    ensures Inv(render, Next(render, j, Act(e)))
  {
    hide C.Inv, C.ClientAfter, Cached, PropertiesOf, Table, C.Concerns, C.Publish;
    ClientMoves(j.world, e);
    IssuedBeforeNow(j.world);
    CacheAfterDelivery(j.cache, j.undelivered);
  }

  lemma ReplyKeepsInv(render: Render, j: Joint, e: C.Event)
    requires Inv(render, j) && Enabled(render, j, Act(e)) && C.Inv(C.Next(j.world, e))
    requires var c, c' := j.world.client, C.Next(j.world, e).client;
             c'.proxy.Some? && c'.proxy == c.proxy && e.FetchDone?
    ensures Inv(render, Next(render, j, Act(e)))
  {
    hide C.Inv, C.ClientAfter, Cached, PropertiesOf, Table, C.Concerns, C.Publish;
    ClientMoves(j.world, e);
    IssuedBeforeNow(j.world);
  }

  lemma OthersKeepInv(render: Render, j: Joint, e: C.Event)
    requires Inv(render, j) && Enabled(render, j, Act(e)) && C.Inv(C.Next(j.world, e))
    requires var c, c' := j.world.client, C.Next(j.world, e).client;
             c'.proxy.Some? && c'.proxy == c.proxy && !e.StateSignal? && !e.FetchDone?
    ensures Inv(render, Next(render, j, Act(e)))
  {
    hide C.Inv, C.ClientAfter, Cached, PropertiesOf, Table, C.Concerns, C.Publish;
    ClientMoves(j.world, e);
    IssuedBeforeNow(j.world);
  }

  lemma ActKeepsInv(render: Render, j: Joint, e: C.Event)
    requires Inv(render, j) && Enabled(render, j, Act(e))
    ensures Inv(render, Next(render, j, Act(e)))
  {
    hide C.Inv, C.Next, C.Enabled, CacheFits, RepliesFit, ViewFits, Next;
    C.StepKeepsInv(j.world, e);
    var c, c' := j.world.client, C.Next(j.world, e).client;
    if c'.proxy.None? {
      DetachedKeepsInv(render, j, e);
    } else if c'.proxy != c.proxy {
      AttachingKeepsInv(render, j, e);
    } else if e.StateSignal? {
      SignalKeepsInv(render, j, e);
    } else if e.FetchDone? {
      ReplyKeepsInv(render, j, e);
    } else {
      OthersKeepInv(render, j, e);
    }
  }

  lemma StepKeepsInv(render: Render, j: Joint, x: Action)
    requires Inv(render, j) && Enabled(render, j, x)
    ensures Inv(render, Next(render, j, x))
  {
    hide Inv, Next, Enabled;
    match x
    case Apply(event) => ApplyKeepsInv(render, j, event);
    case Serve(id) => ServeKeepsInv(render, j, id);
    case Act(e) => ActKeepsInv(render, j, e);
  }

  lemma {:induction false} RunKeepsInv(render: Render, j: Joint, xs: seq<Action>)
    requires Inv(render, j) && Possible(render, j, xs)
    ensures Inv(render, After(render, j, xs))
    decreases |xs|
  {
    hide Inv, Next, Enabled;
    if xs != [] {
      StepKeepsInv(render, j, xs[0]);
      RunKeepsInv(render, Next(render, j, xs[0]), xs[1..]);
    }
  }

  lemma BeginningIsValid(render: Render, r: Registry)
    ensures Inv(render, Beginning(r))
  {
    C.BeginningIsValid();
  }

  /** A client at rest: attached, with nothing scheduled, in flight or undelivered. */
  predicate AtRest(j: Joint) {
    var c := j.world.client;
    c.running && c.proxy.Some? && !c.scheduled && !c.inFlight && j.undelivered == []
  }

  ghost function CurrentView(render: Render, r: Registry): C.View {
    render(PropertiesOf(r), Table(r))
  }

  /** Whatever the service applies and whenever calls are served: a client at rest shows the service's current
      properties and sessions after a successful call; after a failed one it goes on showing the observer as
      unavailable, and after a cancelled one what it showed before. */
  lemma RestingClientShows(render: Render, r: Registry, xs: seq<Action>)
    requires Possible(render, Beginning(r), xs) && AtRest(After(render, Beginning(r), xs))
    ensures var j := After(render, Beginning(r), xs);
            var c := j.world.client;
            && (c.listening ==> c.Shown() == c.lastView)
            && match j.world.outcome
               case Waiting => false
               case Succeeded => c.lastView == Some(CurrentView(render, j.registry))
               case Failed => c.lastView == Some(C.OBSERVER_UNAVAILABLE)
               case Cancelled => c.lastView == j.world.before
  {
    hide Possible, After, PropertiesOf, Table, Beginning;
    BeginningIsValid(render, r);
    RunKeepsInv(render, Beginning(r), xs);
    var j := After(render, Beginning(r), xs);
    NothingCached(j.cache);
  }

  /** A client at rest is current precisely when its last call succeeded, or what it shows instead happens to be
      the current view; nothing is tried again before the next signal. */
  lemma RestingClientIsCurrentIff(render: Render, r: Registry, xs: seq<Action>)
    requires Possible(render, Beginning(r), xs) && AtRest(After(render, Beginning(r), xs))
    ensures var j := After(render, Beginning(r), xs);
            var current := CurrentView(render, j.registry);
            j.world.client.lastView == Some(current) <==>
            || j.world.outcome == C.Succeeded
            || (j.world.outcome == C.Failed && current == C.OBSERVER_UNAVAILABLE)
            || (j.world.outcome == C.Cancelled && j.world.before == Some(current))
  {
    hide Possible, After, CurrentView, Beginning;
    RestingClientShows(render, r, xs);
  }

  // ----- The service behind the daemon's pipeline -----

  /** The events the service applies, in order. */
  ghost function Applied(xs: seq<Action>): seq<MonitorEvent>
    decreases |xs|
  {
    if xs == [] then [] else (if xs[0].Apply? then [xs[0].event] else []) + Applied(xs[1..])
  }

  lemma {:induction false} RegistryIsApplied(render: Render, j: Joint, xs: seq<Action>)
    requires Possible(render, j, xs)
    ensures After(render, j, xs).registry == ReduceAll(j.registry, Applied(xs))
    decreases |xs|
  {
    hide Enabled, Reduce;
    if xs != [] {
      var next := Next(render, j, xs[0]);
      RegistryIsApplied(render, next, xs[1..]);
      if xs[0].Apply? {
        ReduceAllAppend(j.registry, [xs[0].event], Applied(xs[1..]));
        assert [xs[0].event][..0] == [];
      } else {
        assert [] + Applied(xs[1..]) == Applied(xs[1..]);
      }
    }
  }
}
