/**
 The multi-Domain host: one service per enabled Domain, owned from creation to closure. The
 factory and the services themselves may fail at any point.
 */
module DomainRuntimeHost {
  import opened Wrappers

  /** A service in the table, known by the order in which the factory made it. */
  datatype Owned = Owned(domainId: string, service: nat)

  datatype HostError = HostClosed | DomainDisabled | FactoryFailed | ServiceFailed | StartFailed | CloseFailed

  /** What the outside world does: does the factory deliver, does the service start, does it close cleanly? */
  datatype World = World(makes: string -> bool, starts: string -> bool, closes: string -> bool)

  /** `made` counts the factory's services; `starts` and `closings` record which were started and closed, in order. */
  datatype Host = Host(
    enabled: seq<string>, services: seq<Owned>, startedIds: set<string>, started: bool, closed: bool,
    made: nat, starts: seq<nat>, closings: seq<nat>)

  function NewHost(enabled: seq<string>): Host {
    Host(enabled, [], {}, false, false, 0, [], [])
  }

  function Find(services: seq<Owned>, domainId: string): (r: Option<nat>)
    ensures r.Some? ==> Owned(domainId, r.value) in services
    ensures r.None? ==> forall o | o in services :: o.domainId != domainId
  {
    if services == [] then None
    else if services[|services| - 1].domainId == domainId then Some(services[|services| - 1].service)
    else Find(services[..|services| - 1], domainId)
  }

  /** The owned service of the Domain, made when there is none. */
  function Ensure(h: Host, w: World, domainId: string): (Host, Result<nat, HostError>) {
    match Find(h.services, domainId)
    case Some(service) => (h, Ok(service))
    case None =>
      if !w.makes(domainId) then (h, Err(FactoryFailed))
      else (h.(services := h.services + [Owned(domainId, h.made)], made := h.made + 1), Ok(h.made))
  }

  /** `_start_service`. */
  function StartService(h: Host, w: World, domainId: string, service: nat): (Host, Result<(), HostError>) {
    if domainId in h.startedIds then (h, Ok(()))
    else if !w.starts(domainId) then (h, Err(ServiceFailed))
    else (h.(startedIds := h.startedIds + {domainId}, starts := h.starts + [service]), Ok(()))
  }

  /** `service`. */
  function Serve(h: Host, w: World, domainId: string): (Host, Result<nat, HostError>) {
    if domainId !in h.enabled then (h, Err(DomainDisabled))
    else if h.closed then (h, Err(HostClosed))
    else
      var (h1, service) := Ensure(h, w, domainId);
      if service.Err? || !h1.started then (h1, service)
      else
        var (h2, ok) := StartService(h1, w, domainId, service.value);
        (h2, if ok.Err? then Err(ok.error) else service)
  }

  function Reversed(services: seq<Owned>): (r: seq<nat>)
    ensures |r| == |services|
  {
    if services == [] then [] else [services[|services| - 1].service] + Reversed(services[..|services| - 1])
  }

  /** Every owned service is closed, the last made first, whether or not the others close cleanly. */
  function CloseOwned(h: Host, w: World): (Host, Result<(), HostError>) {
    (h.(closings := h.closings + Reversed(h.services), services := [], startedIds := {}, started := false),
     if forall o | o in h.services :: w.closes(o.domainId) then Ok(()) else Err(CloseFailed))
  }

  function StartOne(h: Host, w: World, domainId: string): (r: (Host, Result<(), HostError>))
    ensures r.0.enabled == h.enabled
  {
    var (h1, service) := Ensure(h, w, domainId);
    if service.Err? then (h1, Err(service.error)) else StartService(h1, w, domainId, service.value)
  }

  /** The enabled Domains from position `i` on, each made if need be and started, up to the first failure. */
  function StartFrom(h: Host, w: World, i: nat): (Host, Result<(), HostError>)
    requires i <= |h.enabled|
    decreases |h.enabled| - i
  {
    if i == |h.enabled| then (h, Ok(()))
    else
      var (h1, ok) := StartOne(h, w, h.enabled[i]);
      if ok.Err? then (h1, ok) else StartFrom(h1, w, i + 1)
  }

  /** `start`: all or nothing; a failure closes whatever was made. */
  function Begin(h: Host, w: World): (Host, Result<(), HostError>) {
    if h.closed then (h, Err(HostClosed))
    else if h.started then (h, Ok(()))
    else
      var (h1, ok) := StartFrom(h, w, 0);
      if ok.Ok? then (h1.(started := true), Ok(()))
      else (CloseOwned(h1.(closed := true), w).0, Err(StartFailed))
  }

  /** `close`. */
  function Finish(h: Host, w: World): (Host, Result<(), HostError>) {
    if h.closed then (h, Ok(())) else CloseOwned(h.(closed := true), w)
  }

  // ---------------------------------------------------------------- ownership over every run

  datatype Op = ServiceOp(domainId: string) | StartOp | CloseOp

  datatype Event = Event(op: Op, world: World)

  function Apply(h: Host, e: Event): Host {
    match e.op
    case ServiceOp(d) => Serve(h, e.world, d).0
    case StartOp => Begin(h, e.world).0
    case CloseOp => Finish(h, e.world).0
  }

  function Run(h: Host, events: seq<Event>): Host
    decreases |events|
  {
    if events == [] then h else Apply(Run(h, events[..|events| - 1]), events[|events| - 1])
  }

  function Live(services: seq<Owned>): (r: seq<nat>)
    ensures |r| == |services| && forall i | 0 <= i < |r| :: r[i] == services[i].service
  {
    seq(|services|, i requires 0 <= i < |services| => services[i].service)
  }

  function Made(n: nat): multiset<nat> {
    if n == 0 then multiset{} else Made(n - 1) + multiset{n - 1}
  }

  ghost predicate TableOk(services: seq<Owned>, enabled: seq<string>) {
    && (forall i, j | 0 <= i < j < |services| :: services[i].domainId != services[j].domainId)
    && (forall o | o in services :: o.domainId in enabled)
  }

  /**
   Each service ever made is either in the table or closed exactly once, never both and never
   lost; the table holds at most one service per Domain, and a closed host holds none.
   */
  ghost predicate OwnershipOk(h: Host) {
    && TableOk(h.services, h.enabled)
    && multiset(Live(h.services)) + multiset(h.closings) == Made(h.made)
    && (h.closed ==> h.services == [] && !h.started)
  }

  /** Nothing but the table, the count and the started set may differ. */
  ghost predicate SameOwner(h: Host, t: Host) {
    t.enabled == h.enabled && t.closed == h.closed && t.started == h.started && t.closings == h.closings
  }

  ghost predicate KeepsFinds(a: seq<Owned>, b: seq<Owned>) {
    forall d | Find(a, d).Some? :: Find(b, d) == Find(a, d)
  }

  ghost predicate KeepsServices(h: Host, t: Host) {
    KeepsFinds(h.services, t.services)
  }

  /** A well-owned host and what one step makes of it. */
  ghost predicate Kept(h: Host, t: Host) {
    OwnershipOk(t) && SameOwner(h, t) && KeepsServices(h, t)
  }

  lemma AppendOwned(services: seq<Owned>, enabled: seq<string>, last: Owned)
    requires TableOk(services, enabled) && last.domainId in enabled && Find(services, last.domainId).None?
    ensures TableOk(services + [last], enabled) && KeepsFinds(services, services + [last])
    ensures multiset(Live(services + [last])) == multiset(Live(services)) + multiset{last.service}
  {
    var t := services + [last];
    assert t[..|services|] == services;
    assert Live(t) == Live(services) + [last.service];
    assert forall i | 0 <= i < |services| :: services[i] in services;
  }

  lemma {:induction false} ReversedIsLive(services: seq<Owned>)
    ensures multiset(Reversed(services)) == multiset(Live(services))
    decreases |services|
  {
    if services != [] {
      var init, last := services[..|services| - 1], services[|services| - 1];
      ReversedIsLive(init);
      assert Live(services) == Live(init) + [last.service];
    }
  }

  lemma EnsureKeeps(h: Host, w: World, d: string)
    requires OwnershipOk(h) && d in h.enabled && !h.closed
    ensures Kept(h, Ensure(h, w, d).0)
  {
    if Find(h.services, d).None? && w.makes(d) {
      AppendOwned(h.services, h.enabled, Owned(d, h.made));
    }
  }

  lemma StartServiceKeeps(h: Host, w: World, d: string, service: nat)
    requires OwnershipOk(h)
    ensures Kept(h, StartService(h, w, d, service).0)
  {
  }

  lemma StartOneKeeps(h: Host, w: World, d: string)
    requires OwnershipOk(h) && d in h.enabled && !h.closed
    ensures Kept(h, StartOne(h, w, d).0)
  {
    EnsureKeeps(h, w, d);
    var (t, service) := Ensure(h, w, d);
    if service.Ok? {
      StartServiceKeeps(t, w, d, service.value);
    }
  }

  lemma {:induction false} StartFromKeeps(h: Host, w: World, i: nat)
    requires OwnershipOk(h) && !h.closed && i <= |h.enabled|
    ensures Kept(h, StartFrom(h, w, i).0)
    decreases |h.enabled| - i
  {
    if i < |h.enabled| {
      StartOneKeeps(h, w, h.enabled[i]);
      var (t, ok) := StartOne(h, w, h.enabled[i]);
      if ok.Ok? {
        StartFromKeeps(t, w, i + 1);
      }
    }
  }

  lemma CloseKeeps(h: Host, w: World)
    requires OwnershipOk(h) && !h.closed
    ensures OwnershipOk(CloseOwned(h.(closed := true), w).0)
  {
    ReversedIsLive(h.services);
    assert Live([]) == [];
  }

  lemma ServeKeeps(h: Host, w: World, d: string)
    requires OwnershipOk(h)
    ensures Kept(h, Serve(h, w, d).0)
  {
    if d in h.enabled && !h.closed {
      EnsureKeeps(h, w, d);
      var (t, service) := Ensure(h, w, d);
      if service.Ok? {
        StartServiceKeeps(t, w, d, service.value);
      }
    }
  }

  lemma BeginKeeps(h: Host, w: World)
    requires OwnershipOk(h)
    ensures var t := Begin(h, w).0; OwnershipOk(t) && t.enabled == h.enabled && (!t.closed ==> KeepsServices(h, t))
  {
    if !h.closed && !h.started {
      StartFromKeeps(h, w, 0);
      CloseKeeps(StartFrom(h, w, 0).0, w);
    }
  }

  lemma FinishKeeps(h: Host, w: World)
    requires OwnershipOk(h)
    ensures var t := Finish(h, w).0; OwnershipOk(t) && t.enabled == h.enabled && t.closed
  {
    if !h.closed {
      CloseKeeps(h, w);
    }
  }

  lemma ApplyKeeps(h: Host, e: Event)
    requires OwnershipOk(h)
    ensures OwnershipOk(Apply(h, e)) && Apply(h, e).enabled == h.enabled
    ensures !Apply(h, e).closed ==> KeepsServices(h, Apply(h, e))
  {
    match e.op
    case ServiceOp(d) => ServeKeeps(h, e.world, d);
    case StartOp => BeginKeeps(h, e.world);
    case CloseOp => FinishKeeps(h, e.world);
  }

  /** Ownership holds on every run, whatever fails. */
  lemma {:induction false} RunKeepsOwnership(enabled: seq<string>, events: seq<Event>)
    ensures var h := Run(NewHost(enabled), events); OwnershipOk(h) && h.enabled == enabled
    decreases |events|
  {
    if events == [] {
      assert Live([]) == [];
    } else {
      RunKeepsOwnership(enabled, events[..|events| - 1]);
      ApplyKeeps(Run(NewHost(enabled), events[..|events| - 1]), events[|events| - 1]);
    }
  }

  /** A closed host stays exactly as it is: nothing is made, served or closed again. */
  lemma {:induction false} ClosedIsFinal(h: Host, events: seq<Event>)
    requires h.closed
    ensures Run(h, events) == h
    decreases |events|
  {
    if events != [] {
      ClosedIsFinal(h, events[..|events| - 1]);
    }
  }

  lemma {:induction false} MadeOnce(n: nat, k: nat)
    ensures Made(n)[k] == if k < n then 1 else 0
    decreases n
  {
    if n > 0 {
      MadeOnce(n - 1, k);
    }
  }

  /** No service is ever closed twice; once the host is closed, each has been closed exactly once. */
  lemma ClosedOnce(enabled: seq<string>, events: seq<Event>, service: nat)
    ensures var h := Run(NewHost(enabled), events);
            && multiset(h.closings)[service] <= 1
            && (h.closed ==> multiset(h.closings)[service] == if service < h.made then 1 else 0)
  {
    RunKeepsOwnership(enabled, events);
    var h := Run(NewHost(enabled), events);
    assert Live([]) == [];
    MadeOnce(h.made, service);
    assert (multiset(Live(h.services)) + multiset(h.closings))[service] == Made(h.made)[service];
  }

  /** While the host stays open, a Domain keeps the one service it was given. */
  lemma {:induction false} ServiceIsStable(h: Host, events: seq<Event>, d: string)
    requires OwnershipOk(h) && !Run(h, events).closed && Find(h.services, d).Some?
    ensures Find(Run(h, events).services, d) == Find(h.services, d)
    decreases |events|
  {
    if events != [] {
      var init, last := events[..|events| - 1], events[|events| - 1];
      ClosedStays(Run(h, init), last);
      ServiceIsStable(h, init, d);
      RunOnKeeps(h, init);
      ApplyKeeps(Run(h, init), last);
    }
  }

  lemma ClosedStays(h: Host, e: Event)
    ensures h.closed ==> Apply(h, e) == h
  {
  }

  lemma {:induction false} RunOnKeeps(h: Host, events: seq<Event>)
    requires OwnershipOk(h)
    ensures OwnershipOk(Run(h, events))
    decreases |events|
  {
    if events != [] {
      RunOnKeeps(h, events[..|events| - 1]);
      ApplyKeeps(Run(h, events[..|events| - 1]), events[|events| - 1]);
    }
  }

  // ---------------------------------------------------------------- what has been started

  /** An owned service has been started exactly once if its Domain is marked, and otherwise never. */
  ghost predicate StartsOk(h: Host) {
    && (forall i, j | 0 <= i < j < |h.services| ::
          h.services[i].service != h.services[j].service && h.services[i].domainId != h.services[j].domainId)
    && (forall o | o in h.services ::
          o.service < h.made && multiset(h.starts)[o.service] == if o.domainId in h.startedIds then 1 else 0)
    && (forall d | d in h.startedIds :: Find(h.services, d).Some?)
    && (forall x: nat :: multiset(h.starts)[x] <= if x < h.made then 1 else 0)
  }

  lemma {:induction false} FindIsOwned(services: seq<Owned>, o: Owned)
    requires o in services
    requires forall i, j | 0 <= i < j < |services| :: services[i].domainId != services[j].domainId
    ensures Find(services, o.domainId) == Some(o.service)
    decreases |services|
  {
    var init, last := services[..|services| - 1], services[|services| - 1];
    if o != last {
      var i :| 0 <= i < |services| && services[i] == o;
      assert init[i] == o;
      FindIsOwned(init, o);
    }
  }

  lemma {:induction false} FindAppended(services: seq<Owned>, last: Owned, d: string)
    ensures Find(services + [last], d) == if last.domainId == d then Some(last.service) else Find(services, d)
  {
    assert (services + [last])[..|services|] == services;
  }

  lemma EnsureStarts(h: Host, w: World, d: string)
    requires StartsOk(h)
    ensures var (t, service) := Ensure(h, w, d);
            && StartsOk(t) && t.starts == h.starts && t.startedIds == h.startedIds && t.started == h.started
            && (service.Ok? ==> Owned(d, service.value) in t.services)
  {
    if Find(h.services, d).None? && w.makes(d) {
      var t := Ensure(h, w, d).0;
      forall x | x in h.startedIds
        ensures Find(t.services, x).Some?
      {
        FindAppended(h.services, Owned(d, h.made), x);
      }
      assert forall o | o in t.services :: o in h.services || o == Owned(d, h.made);
      assert forall i | 0 <= i < |h.services| :: h.services[i] in h.services;
    }
  }

  lemma StartServiceStarts(h: Host, w: World, d: string, service: nat)
    requires StartsOk(h) && Owned(d, service) in h.services
    ensures var (t, ok) := StartService(h, w, d, service);
            && StartsOk(t) && t.services == h.services && (ok.Ok? ==> multiset(t.starts)[service] == 1 && d in t.startedIds)
  {
    var t := StartService(h, w, d, service).0;
    FindIsOwned(h.services, Owned(d, service));
    if d !in h.startedIds && w.starts(d) {
      forall o | o in t.services
        ensures multiset(t.starts)[o.service] == if o.domainId in t.startedIds then 1 else 0
      {
        FindIsOwned(h.services, o);
        var i :| 0 <= i < |h.services| && h.services[i] == o;
        var j :| 0 <= j < |h.services| && h.services[j] == Owned(d, service);
        assert o.service == service <==> i == j;
      }
    }
  }

  lemma StartOneStarts(h: Host, w: World, d: string)
    requires StartsOk(h)
    ensures var (t, ok) := StartOne(h, w, d);
            StartsOk(t) && h.startedIds <= t.startedIds && (ok.Ok? ==> d in t.startedIds)
  {
    EnsureStarts(h, w, d);
    var (t, service) := Ensure(h, w, d);
    if service.Ok? {
      StartServiceStarts(t, w, d, service.value);
    }
  }

  /** The first `n` of these Domains are marked as started. */
  ghost predicate Marked(domains: seq<string>, n: nat, ids: set<string>) {
    n <= |domains| && forall j | 0 <= j < n :: domains[j] in ids
  }

  lemma MarkOne(domains: seq<string>, n: nat, ids: set<string>, more: set<string>)
    requires Marked(domains, n, ids) && ids <= more && n < |domains| && domains[n] in more
    ensures Marked(domains, n + 1, more)
  {
  }

  lemma {:induction false} StartFromStarts(h: Host, w: World, i: nat)
    requires StartsOk(h) && Marked(h.enabled, i, h.startedIds)
    ensures StartsOk(StartFrom(h, w, i).0)
    ensures StartFrom(h, w, i).1.Ok? ==> Marked(h.enabled, |h.enabled|, StartFrom(h, w, i).0.startedIds)
    decreases |h.enabled| - i
  {
    if i < |h.enabled| {
      StartOneStarts(h, w, h.enabled[i]);
      var (t, ok) := StartOne(h, w, h.enabled[i]);
      if ok.Ok? {
        MarkOne(h.enabled, i, h.startedIds, t.startedIds);
        StartFromStarts(t, w, i + 1);
      }
    }
  }

  lemma ApplyStarts(h: Host, e: Event)
    requires StartsOk(h)
    ensures StartsOk(Apply(h, e))
  {
    match e.op
    case ServiceOp(d) => ServeStarts(h, e.world, d);
    case StartOp =>
      if !h.closed && !h.started {
        StartFromStarts(h, e.world, 0);
      }
    case CloseOp =>
  }

  lemma ServeStarts(h: Host, w: World, d: string)
    requires StartsOk(h)
    ensures var (t, answer) := Serve(h, w, d);
            StartsOk(t) && (answer.Ok? && h.started ==> multiset(t.starts)[answer.value] == 1)
  {
    if d in h.enabled && !h.closed {
      EnsureStarts(h, w, d);
      var (t, service) := Ensure(h, w, d);
      if service.Ok? && t.started {
        StartServiceStarts(t, w, d, service.value);
      }
    }
  }

  lemma {:induction false} RunStarts(enabled: seq<string>, events: seq<Event>)
    ensures StartsOk(Run(NewHost(enabled), events))
    decreases |events|
  {
    if events != [] {
      RunStarts(enabled, events[..|events| - 1]);
      ApplyStarts(Run(NewHost(enabled), events[..|events| - 1]), events[|events| - 1]);
    }
  }

  /**
   On every run, whatever fails: no service is started twice, and one that a started host hands
   out has been started exactly once.
   */
  lemma ServedIsStarted(enabled: seq<string>, events: seq<Event>, w: World, d: string)
    ensures var h := Run(NewHost(enabled), events);
            var (t, answer) := Serve(h, w, d);
            && (forall x: nat :: multiset(t.starts)[x] <= 1)
            && (answer.Ok? && h.started ==> multiset(t.starts)[answer.value] == 1)
  {
    RunStarts(enabled, events);
    ServeStarts(Run(NewHost(enabled), events), w, d);
  }

  /** A start that succeeds has started the service of every enabled Domain. */
  lemma StartStartsAll(enabled: seq<string>, events: seq<Event>, w: World, d: string)
    requires d in enabled && !Run(NewHost(enabled), events).started
    requires Begin(Run(NewHost(enabled), events), w).1.Ok?
    ensures var t := Begin(Run(NewHost(enabled), events), w).0;
            Find(t.services, d).Some? && multiset(t.starts)[Find(t.services, d).value] == 1
  {
    var h := Run(NewHost(enabled), events);
    RunStarts(enabled, events);
    RunKeepsOwnership(enabled, events);
    StartFromStarts(h, w, 0);
    var t := Begin(h, w).0;
    var i :| 0 <= i < |enabled| && enabled[i] == d;
    assert enabled[i] in t.startedIds && Owned(d, Find(t.services, d).value) in t.services;
  }

  // ---------------------------------------------------------------- the closing loop

  /** What the loop will have closed when it ends, the first `i` services being still open. */
  function Closing(closings: seq<nat>, services: seq<Owned>, i: nat): seq<nat>
    requires i <= |services|
    decreases i
  {
    if i == 0 then closings else Closing(closings + [services[i - 1].service], services, i - 1)
  }

  lemma {:induction false} ClosingIs(closings: seq<nat>, services: seq<Owned>, i: nat)
    requires i <= |services|
    ensures Closing(closings, services, i) == closings + Reversed(services[..i])
    decreases i
  {
    if i > 0 {
      ClosingIs(closings + [services[i - 1].service], services, i - 1);
      assert services[..i][..i - 1] == services[..i - 1];
    }
  }

  predicate FailsFrom(services: seq<Owned>, w: World, i: nat)
    requires i <= |services|
    decreases |services| - i
  {
    i < |services| && (!w.closes(services[i].domainId) || FailsFrom(services, w, i + 1))
  }

  lemma {:induction false} FailsFromIs(services: seq<Owned>, w: World, i: nat)
    requires i <= |services|
    ensures FailsFrom(services, w, i) <==> exists o | o in services[i..] :: !w.closes(o.domainId)
    decreases |services| - i
  {
    if i < |services| {
      FailsFromIs(services, w, i + 1);
      assert services[i..] == [services[i]] + services[i + 1..];
    }
  }

  // ---------------------------------------------------------------- the object

  class RuntimeHost {
    const enabled: seq<string>
    var services: seq<Owned>
    var startedIds: set<string>
    var started: bool
    var closed: bool
    var made: nat
    ghost var starts: seq<nat>
    ghost var closings: seq<nat>

    ghost function Now(): Host
      reads this
    {
      Host(enabled, services, startedIds, started, closed, made, starts, closings)
    }

    constructor (enabled: seq<string>)
      ensures Now() == NewHost(enabled)
    {
      this.enabled := enabled;
      services, startedIds, started, closed := [], {}, false, false;
      made, starts, closings := 0, [], [];
    }

    method EnsureService(w: World, domainId: string) returns (r: Result<nat, HostError>)
      modifies this`services, this`made
      ensures (Now(), r) == Ensure(old(Now()), w, domainId)
    {
      var found := Find(services, domainId);
      if found.Some? {
        return Ok(found.value);
      }
      if !w.makes(domainId) {
        return Err(FactoryFailed);
      }
      services := services + [Owned(domainId, made)];
      made := made + 1;
      return Ok(made - 1);
    }

    method StartServiceOf(w: World, domainId: string, service: nat) returns (r: Result<(), HostError>)
      modifies this`startedIds, this`starts
      ensures (Now(), r) == StartService(old(Now()), w, domainId, service)
    {
      if domainId in startedIds {
        return Ok(());
      }
      if !w.starts(domainId) {
        return Err(ServiceFailed);
      }
      startedIds, starts := startedIds + {domainId}, starts + [service];
      return Ok(());
    }

    method Service(w: World, domainId: string) returns (r: Result<nat, HostError>)
      modifies this
      ensures (Now(), r) == Serve(old(Now()), w, domainId)
    {
      if domainId !in enabled {
        return Err(DomainDisabled);
      }
      if closed {
        return Err(HostClosed);
      }
      r := EnsureService(w, domainId);
      if r.Ok? && started {
        var ok := StartServiceOf(w, domainId, r.value);
        if ok.Err? {
          r := Err(ok.error);
        }
      }
    }

    method StartEach(w: World) returns (ok: Result<(), HostError>)
      modifies this`services, this`made, this`startedIds, this`starts
      ensures (Now(), ok) == StartFrom(old(Now()), w, 0)
    {
      ghost var h := Now();
      for i := 0 to |enabled|
        invariant started == h.started && closed == h.closed && closings == h.closings
        invariant StartFrom(h, w, 0) == StartFrom(Now(), w, i)
      {
        var service := EnsureService(w, enabled[i]);
        if service.Err? {
          return Err(service.error);
        }
        ok := StartServiceOf(w, enabled[i], service.value);
        if ok.Err? {
          return;
        }
      }
      return Ok(());
    }

    method Start(w: World) returns (r: Result<(), HostError>)
      modifies this
      ensures (Now(), r) == Begin(old(Now()), w)
    {
      if closed {
        return Err(HostClosed);
      }
      if started {
        return Ok(());
      }
      var ok := StartEach(w);
      if ok.Ok? {
        started := true;
        return Ok(());
      }
      closed := true;
      var _ := CloseServices(w);
      return Err(StartFailed);
    }

    /** Newest first; a service that fails to close does not keep the others open. */
    method CloseEach(w: World) returns (failed: bool)
      modifies this`closings
      ensures closings == old(closings) + Reversed(services)
      ensures failed <==> exists o | o in services :: !w.closes(o.domainId)
    {
      failed := false;
      ghost var all := Closing(closings, services, |services|);
      ClosingIs(closings, services, |services|);
      assert services[..|services|] == services;
      var i := |services|;
      while i > 0
        invariant 0 <= i <= |services| && Closing(closings, services, i) == all
        invariant failed <==> FailsFrom(services, w, i)
      {
        i := i - 1;
        closings := closings + [services[i].service];
        if !w.closes(services[i].domainId) {
          failed := true;
        }
      }
      FailsFromIs(services, w, 0);
      assert services[0..] == services;
    }

    method CloseServices(w: World) returns (r: Result<(), HostError>)
      modifies this`services, this`startedIds, this`started, this`closings
      ensures (Now(), r) == CloseOwned(old(Now()), w)
    {
      var failed := CloseEach(w);
      services, startedIds, started := [], {}, false;
      r := if failed then Err(CloseFailed) else Ok(());
    }

    method Close(w: World) returns (r: Result<(), HostError>)
      modifies this
      ensures (Now(), r) == Finish(old(Now()), w)
    {
      if closed {
        return Ok(());
      }
      closed := true;
      r := CloseServices(w);
    }
  }
}
