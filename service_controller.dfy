/** The life cycle of one service inside the service container: the actor that
    waits for the service's dependencies, injects them, starts the service,
    and stops and removes it again.

    The controller is an actor that reacts to one event of its own channel at
    a time and has one handler per life-cycle phase. The whole observable state
    is captured by the value type `ControllerState`; the pure functions below say how each
    event and each external completion changes it, and the class
    `ServiceController` at the end does the same thing step by step on its
    fields, each method proved equal to the corresponding function. */
module Controller {
  import opened Common

  // ---------------------------------------------------------------------------
  // Data model
  // ---------------------------------------------------------------------------

  /** The handler the controller's events are currently given to. */
  datatype Phase =
    | AwaitDependenciesStarted
    | AwaitStart
    | Started
    | AwaitDependentsStopped
    | AwaitStop
    | Removed

  /** Position of a phase along the life cycle; no transition goes back. */
  function Rank(p: Phase): (r: nat)
    ensures r <= 5
    ensures r == 0 <==> p == AwaitDependenciesStarted
    ensures r == 5 <==> p == Removed
  {
    match p
    case AwaitDependenciesStarted => 0
    case AwaitStart => 1
    case Started => 2
    case AwaitDependentsStopped => 3
    case AwaitStop => 4
    case Removed => 5
  }

  /** The transitions the handlers make: each phase either stays or moves to
      one of the phases listed for it. */
  predicate Edge(p: Phase, q: Phase)
  {
    p == q ||
    match p
    case AwaitDependenciesStarted => q == AwaitStart || q == Removed
    case AwaitStart => q == Started || q == AwaitStop
    case Started => q == AwaitDependentsStopped
    case AwaitDependentsStopped => q == AwaitStop
    case AwaitStop => q == Removed
    case Removed => false
  }

  /** A started dependency as the resolver hands it over: its service name and
      the value its service's get() returns. */
  datatype Dependency<V> = Dependency(name: string, value: V)

  /** The events of the controller's channel; the ones the controller fires
      also go to the container's channel. */
  datatype ServiceEvent<V> =
    | ServiceInstalled
    | DependenciesAvailable(resolved: seq<Dependency<V>>)
    | DependenciesUnavailable
    | DependentsStopped
    | ServiceStarted
    | ServiceStartFailed(cause: Exception)
    | ServiceStopping
    | ServiceStopped
    | ServiceRemoved

  /** The events the dependency resolver adds to a controller's channel. */
  predicate IsResolverEvent<V>(e: ServiceEvent<V>)
  {
    e.DependenciesAvailable? || e.DependenciesUnavailable? || e.DependentsStopped?
  }

  /** An injector of the service: the injected value and the name of the
      service it came from. */
  datatype Injector<V> = Injector(value: Option<V>, injectedServiceName: Option<string>)

  /** What a service's start or stop does with the context it is handed: the
      context calls it makes in order (async(future) or run(action)), and the
      exception it throws afterwards, if any. A context call that throws
      ends the service's start or stop with that exception. */
  datatype ContextCall = CallAsync(interruptible: bool) | CallRun
  datatype Behaviour = Behaviour(calls: seq<ContextCall>, failure: Option<string>)

  /** The installed service: its name, the value its get() returns, and how its
      start and stop behave. */
  datatype Descriptor<V> = Descriptor(name: string, value: V, start: Behaviour, stop: Behaviour)

  /** The fields of StartContextImpl and StopContextImpl; `hasAction` says
      whether run(action) stored an action. */
  datatype StartContext = StartContext(isValid: bool, isAsync: bool, isInterruptible: bool, hasAction: bool)
  datatype StopContext = StopContext(isValid: bool, isAsync: bool, hasAction: bool, wasInterrupted: bool)

  const FreshStartContext := StartContext(true, false, false, false)

  const ContextInvalid: string := "Service Context is invalid"
  const ContextAlreadyAsync: string := "Context is already async. Cannnot call asyc() more than once."

  function InterruptedMessage(name: string): string
  {
    "Service " + name + " was interrupted"
  }

  function RemovedWhileStartingMessage(name: string): string
  {
    "Could not start service " + name + " removed while starting"
  }

  /** Everything the controller's handlers read and write.
      `published` is the container's channel as seen from this controller;
      `startCalls` and `stopCalls` count the invocations of the service's
      start and stop; `startCompletionPending` / `stopCompletionPending` say
      that a future or blocking action handed to the context will still
      report back. */
  datatype ControllerState<V> = ControllerState(
    phase: Phase,
    stopAfterStarted: bool,
    inbox: seq<ServiceEvent<V>>,
    published: seq<ServiceEvent<V>>,
    injectors: map<string, seq<Injector<V>>>,
    resolvedDependencies: seq<Dependency<V>>,
    startContext: Option<StartContext>,
    stopContext: Option<StopContext>,
    startCompletionPending: bool,
    stopCompletionPending: bool,
    startFuture: Future<V>,
    stopFuture: Future<()>,
    startCalls: nat,
    stopCalls: nat,
    closed: bool)

  /** The state right after the actor started: it announced itself to the
      container, and nothing else happened. */
  function Initial<V>(injectors: map<string, seq<Injector<V>>>): ControllerState<V>
  {
    ControllerState(AwaitDependenciesStarted, false, [], [ServiceInstalled], injectors, [],
         None, None, false, false, Pending, Pending, 0, 0, false)
  }

  // ---------------------------------------------------------------------------
  // Contexts
  // ---------------------------------------------------------------------------

  function StartAsync(c: StartContext, interruptible: bool): Result<StartContext>
  {
    if !c.isValid then Err(ContextInvalid)
    else if c.isAsync then Err(ContextAlreadyAsync)
    else Ok(c.(isAsync := true, isInterruptible := interruptible))
  }

  function StartRun(c: StartContext): Result<StartContext>
  {
    if !c.isValid then Err(ContextInvalid)
    else if c.isAsync then Err(ContextAlreadyAsync)
    else Ok(c.(isAsync := true, hasAction := true))
  }

  function StartIsAsync(c: StartContext): Result<bool>
  {
    if !c.isValid then Err(ContextInvalid) else Ok(c.isAsync)
  }

  function StartIsInterruptible(c: StartContext): Result<bool>
  {
    if !c.isValid then Err(ContextInvalid) else Ok(c.isInterruptible)
  }

  function Invalidate(c: StartContext): StartContext
  {
    c.(isValid := false)
  }

  function StopAsync(c: StopContext): Result<StopContext>
  {
    if !c.isValid then Err(ContextInvalid)
    else if c.isAsync then Err(ContextAlreadyAsync)
    else Ok(c.(isAsync := true))
  }

  function StopRun(c: StopContext): Result<StopContext>
  {
    if !c.isValid then Err(ContextInvalid)
    else if c.isAsync then Err(ContextAlreadyAsync)
    else Ok(c.(isAsync := true, hasAction := true))
  }

  /** A start context accepts exactly one of async/run; every later one throws
      IllegalStateException, and so does every call on an invalidated context,
      including the isAsync / isInterruptible queries. */
  lemma StartContextIsSingleUse(first: ContextCall, second: ContextCall, c: StartContext)
    ensures var r := StartCall(FreshStartContext, first);
      && r.Ok? && r.value.isAsync && r.value.isValid
      && (r.value.isInterruptible <==> first == CallAsync(true))
      && (r.value.hasAction <==> first.CallRun?)
      && StartCall(r.value, second) == Err(ContextAlreadyAsync)
    ensures StartCall(Invalidate(c), first) == Err(ContextInvalid)
    ensures StartIsAsync(Invalidate(c)).Err? && StartIsInterruptible(Invalidate(c)).Err?
  {
  }

  function StartCall(c: StartContext, call: ContextCall): Result<StartContext>
  {
    match call
    case CallAsync(i) => StartAsync(c, i)
    case CallRun => StartRun(c)
  }

  function StopCall(c: StopContext, call: ContextCall): Result<StopContext>
  {
    match call
    case CallAsync(_) => StopAsync(c)
    case CallRun => StopRun(c)
  }

  /** Running a service's context calls: the context afterwards, whether a
      future completion was registered (by async), and the exception that
      ended the calls, if one did. */
  datatype CallsOutcome<C> = CallsOutcome(ctx: C, registered: bool, thrown: Option<Exception>)

  function RunStartCalls(c: StartContext, calls: seq<ContextCall>, registered: bool): CallsOutcome<StartContext>
    decreases |calls|
  {
    if calls == [] then CallsOutcome(c, registered, None)
    else
      var r := StartCall(c, calls[0]);
      if r.Err? then CallsOutcome(c, registered, Some(IllegalStateException(r.message)))
      else RunStartCalls(r.value, calls[1..], registered || calls[0].CallAsync?)
  }

  function RunStopCalls(c: StopContext, calls: seq<ContextCall>, registered: bool): CallsOutcome<StopContext>
    decreases |calls|
  {
    if calls == [] then CallsOutcome(c, registered, None)
    else
      var r := StopCall(c, calls[0]);
      if r.Err? then CallsOutcome(c, registered, Some(IllegalStateException(r.message)))
      else RunStopCalls(r.value, calls[1..], registered || calls[0].CallAsync?)
  }

  /** On a fresh context no call sequence ends in the "invalid" error, at most
      one call succeeds, and a second call is what throws. */
  lemma FreshStartCalls(calls: seq<ContextCall>)
    ensures var out := RunStartCalls(FreshStartContext, calls, false);
      && out.ctx.isValid
      && (out.thrown.None? <==> |calls| <= 1)
      && (out.thrown.Some? ==> out.thrown.value == IllegalStateException(ContextAlreadyAsync))
      && (out.ctx.isAsync <==> |calls| >= 1)
      && (out.registered <==> |calls| >= 1 && calls[0].CallAsync?)
      && (out.ctx.hasAction <==> |calls| >= 1 && calls[0].CallRun?)
      && (out.ctx.isInterruptible <==> |calls| >= 1 && calls[0] == CallAsync(true))
  {
    if |calls| >= 2 {
      var c1 := StartCall(FreshStartContext, calls[0]).value;
      assert RunStartCalls(FreshStartContext, calls, false)
          == RunStartCalls(c1, calls[1..], calls[0].CallAsync?);
      assert StartCall(c1, calls[1]) == Err(ContextAlreadyAsync);
    }
  }

  lemma FreshStopCalls(calls: seq<ContextCall>, interrupted: bool)
    ensures var out := RunStopCalls(StopContext(true, false, false, interrupted), calls, false);
      && out.ctx.isValid && out.ctx.wasInterrupted == interrupted
      && (out.thrown.None? <==> |calls| <= 1)
      && (out.thrown.Some? ==> out.thrown.value == IllegalStateException(ContextAlreadyAsync))
      && (out.ctx.isAsync <==> |calls| >= 1)
      && (out.registered <==> |calls| >= 1 && calls[0].CallAsync?)
      && (out.ctx.hasAction <==> |calls| >= 1 && calls[0].CallRun?)
  {
    var c0 := StopContext(true, false, false, interrupted);
    if |calls| >= 2 {
      var c1 := StopCall(c0, calls[0]).value;
      assert RunStopCalls(c0, calls, false) == RunStopCalls(c1, calls[1..], calls[0].CallAsync?);
      assert StopCall(c1, calls[1]) == Err(ContextAlreadyAsync);
    }
  }

  // ---------------------------------------------------------------------------
  // Injection
  // ---------------------------------------------------------------------------

  function InjectEach<V>(s: seq<Injector<V>>, d: Dependency<V>): seq<Injector<V>>
  {
    seq(|s|, _ => Injector(Some(d.value), Some(d.name)))
  }

  function InjectOne<V>(m: map<string, seq<Injector<V>>>, d: Dependency<V>): map<string, seq<Injector<V>>>
  {
    if d.name in m then m[d.name := InjectEach(m[d.name], d)] else m
  }

  /** The injectors after every resolved dependency, in order, was injected
      into the injectors registered under its name. */
  function Injected<V>(m: map<string, seq<Injector<V>>>, deps: seq<Dependency<V>>): map<string, seq<Injector<V>>>
    decreases |deps|
  {
    if deps == [] then m else InjectOne(Injected(m, deps[..|deps| - 1]), deps[|deps| - 1])
  }

  /** Injection keeps the registered names and the number of injectors under
      each, and leaves untouched the injectors of every name no resolved
      dependency carries. */
  lemma {:induction false} InjectedShape<V>(m: map<string, seq<Injector<V>>>, deps: seq<Dependency<V>>)
    ensures Injected(m, deps).Keys == m.Keys
    ensures forall k :: k in m ==> |Injected(m, deps)[k]| == |m[k]|
    ensures forall k :: k in m && (forall i :: 0 <= i < |deps| ==> deps[i].name != k) ==>
              Injected(m, deps)[k] == m[k]
    decreases |deps|
  {
    if deps != [] {
      var init := deps[..|deps| - 1];
      InjectedShape(m, init);
      forall k | k in m && (forall i :: 0 <= i < |deps| ==> deps[i].name != k)
        ensures Injected(m, deps)[k] == m[k]
      {
        assert forall i :: 0 <= i < |init| ==> init[i].name == deps[i].name;
        assert deps[|deps| - 1].name != k;
      }
    }
  }

  /** Every injector registered under a dependency's name ends up holding that
      dependency's value and name, the value of the last dependency of that
      name winning. */
  lemma {:induction false} InjectedHoldsDependency<V>(
    m: map<string, seq<Injector<V>>>, deps: seq<Dependency<V>>, i: nat, j: nat)
    requires i < |deps| && deps[i].name in m && j < |m[deps[i].name]|
    requires forall i' :: i < i' < |deps| ==> deps[i'].name != deps[i].name
    ensures deps[i].name in Injected(m, deps)
    ensures j < |Injected(m, deps)[deps[i].name]|
    ensures Injected(m, deps)[deps[i].name][j] == Injector(Some(deps[i].value), Some(deps[i].name))
    decreases |deps|
  {
    InjectedShape(m, deps);
    var init := deps[..|deps| - 1];
    InjectedShape(m, init);
    if i < |deps| - 1 {
      assert init[i] == deps[i];
      InjectedHoldsDependency(m, init, i, j);
      assert deps[|deps| - 1].name != deps[i].name;
    }
  }

  function UninjectEach<V>(s: seq<Injector<V>>): seq<Injector<V>>
  {
    seq(|s|, i requires 0 <= i < |s| => s[i].(value := None))
  }

  /** Every injector of every name uninjected. */
  function Uninjected<V>(m: map<string, seq<Injector<V>>>): map<string, seq<Injector<V>>>
  {
    map k | k in m :: UninjectEach(m[k])
  }

  ghost predicate AllUninjected<V>(m: map<string, seq<Injector<V>>>)
  {
    forall k, j :: k in m && 0 <= j < |m[k]| ==> m[k][j].value.None?
  }

  lemma UninjectedClearsAll<V>(m: map<string, seq<Injector<V>>>)
    ensures AllUninjected(Uninjected(m))
    ensures Uninjected(m).Keys == m.Keys
    ensures forall k :: k in m ==> |Uninjected(m)[k]| == |m[k]|
  {
  }

  // ---------------------------------------------------------------------------
  // The handlers, as functions of the state
  // ---------------------------------------------------------------------------

  /** fireEvent: the event goes to the controller's own channel and to the
      container's. */
  function Fired<V>(c: ControllerState<V>, e: ServiceEvent<V>): (r: ControllerState<V>)
    ensures r.inbox == c.inbox + [e] && r.published == c.published + [e]
    ensures r.(inbox := c.inbox, published := c.published) == c
  {
    c.(inbox := c.inbox + [e], published := c.published + [e])
  }

  /** The outcome of the service's start and stop calls on fresh contexts. */
  function StartOutcome<V>(d: Descriptor<V>): CallsOutcome<StartContext>
  {
    RunStartCalls(FreshStartContext, d.start.calls, false)
  }

  function StopOutcome<V>(d: Descriptor<V>, interrupted: bool): CallsOutcome<StopContext>
  {
    RunStopCalls(StopContext(true, false, false, interrupted), d.stop.calls, false)
  }

  /** The events fired while the service's start runs: START_FAILED when it
      threw, STARTED when it neither threw nor went asynchronous. */
  function StartSignal<V>(d: Descriptor<V>, out: CallsOutcome<StartContext>): seq<ServiceEvent<V>>
  {
    if out.thrown.Some? then [ServiceStartFailed(out.thrown.value)]
    else if d.start.failure.Some? then [ServiceStartFailed(ThrownByCollaborator(d.start.failure.value))]
    else if !out.ctx.isAsync then [ServiceStarted]
    else []
  }

  /** Whether a completion will still fire STARTED or START_FAILED: the future
      handed to async(), or the action handed to run() once start returned
      normally. */
  function StartStillPending<V>(d: Descriptor<V>, out: CallsOutcome<StartContext>): bool
  {
    out.registered || (out.thrown.None? && d.start.failure.None? && out.ctx.hasAction)
  }

  /** The same for stop: SERVICE_STOPPED fires at once unless stop went
      asynchronous and returned normally. */
  function StopSignal<V>(d: Descriptor<V>, out: CallsOutcome<StopContext>): seq<ServiceEvent<V>>
  {
    if out.thrown.Some? || d.stop.failure.Some? || !out.ctx.isAsync then [ServiceStopped] else []
  }

  function StopStillPending<V>(d: Descriptor<V>, out: CallsOutcome<StopContext>): bool
  {
    out.registered || (out.thrown.None? && d.stop.failure.None? && out.ctx.hasAction)
  }

  /** Creating the start context and invoking the service's start. */
  function StartInvoked<V>(d: Descriptor<V>, c: ControllerState<V>): ControllerState<V>
  {
    var out := StartOutcome(d);
    var fired := StartSignal(d, out);
    c.(phase := AwaitStart, startContext := Some(out.ctx), startCalls := c.startCalls + 1,
       startCompletionPending := StartStillPending(d, out),
       inbox := c.inbox + fired, published := c.published + fired)
  }

  /** invokeStop: invalidating the start context, creating the stop context and
      invoking the service's stop. */
  function StopInvoked<V>(d: Descriptor<V>, c: ControllerState<V>, interrupted: bool): ControllerState<V>
  {
    var out := StopOutcome(d, interrupted);
    var fired := StopSignal(d, out);
    c.(phase := AwaitStop,
       startContext := if c.startContext.Some? then Some(Invalidate(c.startContext.value)) else None,
       stopContext := Some(out.ctx), stopCalls := c.stopCalls + 1,
       stopCompletionPending := StopStillPending(d, out),
       inbox := c.inbox + fired, published := c.published + fired)
  }

  function InAwaitDependenciesStarted<V>(d: Descriptor<V>, c: ControllerState<V>, e: ServiceEvent<V>): ControllerState<V>
  {
    match e
    case DependenciesAvailable(deps) =>
      StartInvoked(d, c.(resolvedDependencies := deps, injectors := Injected(c.injectors, deps)))
    case DependenciesUnavailable => Fired(c.(phase := Removed), ServiceRemoved)
    case ServiceStopping => Fired(c.(phase := Removed), ServiceRemoved)
    case _ => c
  }

  /** A stop request while the service is starting: an interruptible start is
      interrupted at once, any other start is stopped once it completed. */
  function StopWhileStarting<V>(d: Descriptor<V>, c: ControllerState<V>): ControllerState<V>
  {
    if c.startContext.Some? && c.startContext.value.isInterruptible then
      StopInvoked(d, c.(startFuture := Failed(ServiceInterruptedException(InterruptedMessage(d.name)))), true)
    else
      c.(stopAfterStarted := true)
  }

  function InAwaitStart<V>(d: Descriptor<V>, c: ControllerState<V>, e: ServiceEvent<V>): ControllerState<V>
  {
    match e
    case ServiceStarted =>
      if c.stopAfterStarted then
        StopInvoked(d, c.(startFuture := Failed(RuntimeException(RemovedWhileStartingMessage(d.name)))), false)
      else
        c.(phase := Started, startFuture := Completed(d.value))
    case ServiceStartFailed(cause) => Fired(c.(startFuture := Failed(cause), phase := AwaitStop), ServiceStopped)
    case DependenciesUnavailable => StopWhileStarting(d, c)
    case DependentsStopped => StopWhileStarting(d, c)
    case ServiceStopping => StopWhileStarting(d, c)
    case _ => c
  }

  function InStarted<V>(c: ControllerState<V>, e: ServiceEvent<V>): ControllerState<V>
  {
    match e
    case DependenciesUnavailable => Fired(c, ServiceStopping).(phase := AwaitDependentsStopped)
    case ServiceStopping => c.(phase := AwaitDependentsStopped)
    case _ => c
  }

  function InAwaitDependentsStopped<V>(d: Descriptor<V>, c: ControllerState<V>, e: ServiceEvent<V>): ControllerState<V>
  {
    if e.DependentsStopped? then StopInvoked(d, c, false) else c
  }

  function InAwaitStop<V>(c: ControllerState<V>, e: ServiceEvent<V>): ControllerState<V>
  {
    if e.ServiceStopped? then
      Fired(c.(injectors := Uninjected(c.injectors), phase := Removed), ServiceRemoved)
    else c
  }

  /** SERVICE_REMOVED closes the actor, and closing completes the stop
      future. */
  function InRemoved<V>(c: ControllerState<V>, e: ServiceEvent<V>): ControllerState<V>
  {
    if e.ServiceRemoved? then c.(closed := true, stopFuture := Completed(())) else c
  }

  /** The current handler applied to an event already taken from the
      channel. */
  function Accept<V>(d: Descriptor<V>, c: ControllerState<V>, e: ServiceEvent<V>): ControllerState<V>
  {
    match c.phase
    case AwaitDependenciesStarted => InAwaitDependenciesStarted(d, c, e)
    case AwaitStart => InAwaitStart(d, c, e)
    case Started => InStarted(c, e)
    case AwaitDependentsStopped => InAwaitDependentsStopped(d, c, e)
    case AwaitStop => InAwaitStop(c, e)
    case Removed => InRemoved(c, e)
  }

  /** onServiceEvent: one event of the channel, if there is one and the actor
      is not closed. */
  function Step<V>(d: Descriptor<V>, c: ControllerState<V>): ControllerState<V>
  {
    if c.closed || |c.inbox| == 0 then c else Accept(d, c.(inbox := c.inbox[1..]), c.inbox[0])
  }

  /** Everything that can happen to a controller: the resolver adds an event,
      the actor processes the next event, the future or blocking action handed
      to the start or stop context completes (with an exception or not), or
      remove() is called. */
  datatype Input<V> =
    | ResolverDelivers(event: ServiceEvent<V>)
    | ProcessNext
    | StartCompletes(error: Option<Exception>)
    | StopCompletes
    | RemoveRequested

  function Delivered<V>(c: ControllerState<V>, e: ServiceEvent<V>): ControllerState<V>
  {
    if IsResolverEvent(e) then c.(inbox := c.inbox + [e]) else c
  }

  /** The completion registered by the start context reports back (the
      context's accept): no throwable means started. */
  function StartCompleted<V>(c: ControllerState<V>, err: Option<Exception>): ControllerState<V>
  {
    if !c.startCompletionPending then c
    else Fired(c.(startCompletionPending := false),
               if err.None? then ServiceStarted else ServiceStartFailed(err.value))
  }

  /** The stop context's completion reports back: always SERVICE_STOPPED. */
  function StopCompleted<V>(c: ControllerState<V>): ControllerState<V>
  {
    if !c.stopCompletionPending then c
    else Fired(c.(stopCompletionPending := false), ServiceStopped)
  }

  function Apply<V>(d: Descriptor<V>, c: ControllerState<V>, i: Input<V>): ControllerState<V>
  {
    match i
    case ResolverDelivers(e) => Delivered(c, e)
    case ProcessNext => Step(d, c)
    case StartCompletes(err) => StartCompleted(c, err)
    case StopCompletes => StopCompleted(c)
    case RemoveRequested => Fired(c, ServiceStopping)
  }

  function Run<V>(d: Descriptor<V>, c: ControllerState<V>, inputs: seq<Input<V>>): ControllerState<V>
    decreases |inputs|
  {
    if inputs == [] then c else Run(d, Apply(d, c, inputs[0]), inputs[1..])
  }

  // ---------------------------------------------------------------------------
  // The life-cycle invariant
  // ---------------------------------------------------------------------------

  predicate HasStartSignal<V>(q: seq<ServiceEvent<V>>)
  {
    exists i :: 0 <= i < |q| && (q[i].ServiceStarted? || q[i].ServiceStartFailed?)
  }

  predicate HasStopSignal<V>(q: seq<ServiceEvent<V>>)
  {
    exists i :: 0 <= i < |q| && q[i].ServiceStopped?
  }

  predicate HasRemovedSignal<V>(q: seq<ServiceEvent<V>>)
  {
    exists i :: 0 <= i < |q| && q[i].ServiceRemoved?
  }

  /** What holds in every reachable state:
      - start and stop are each invoked at most once, stop only after start;
      - the stop future is completed exactly when the actor is closed, which
        happens only in Removed;
      - a phase that waits for the service to start (or stop, or be removed)
        always has the event that ends the wait in its channel or a completion
        that will fire it still outstanding;
      - injectors hold no value before dependencies are injected and after the
        service was removed;
      - once stop was invoked, the start context is invalid. */
  ghost predicate Inv<V>(d: Descriptor<V>, c: ControllerState<V>)
  {
    && c.startCalls <= 1 && c.stopCalls <= c.startCalls
    && (c.closed <==> c.stopFuture.Completed?) && !c.stopFuture.Failed?
    && (c.closed ==> c.phase == Removed)
    && (c.startCalls == 0 <==> c.startContext.None?)
    && (c.stopCalls == 0 <==> c.stopContext.None?)
    && (c.stopCalls == 1 ==> c.startContext.Some? && !c.startContext.value.isValid)
    && (c.stopCalls == 0 ==> !c.stopCompletionPending)
    && (c.startFuture.Completed? ==> c.startFuture.value == d.value)
    && match c.phase
       case AwaitDependenciesStarted =>
         c.startCalls == 0 && c.startFuture.Pending? && !c.startCompletionPending
         && AllUninjected(c.injectors)
       case AwaitStart =>
         c.startCalls == 1 && c.stopCalls == 0 && c.startFuture.Pending?
         && c.startContext.Some? && c.startContext.value.isValid
         && (HasStartSignal(c.inbox) || c.startCompletionPending)
       case Started =>
         c.startCalls == 1 && c.stopCalls == 0 && c.startFuture.Completed?
       case AwaitDependentsStopped =>
         c.startCalls == 1 && c.stopCalls == 0 && c.startFuture.Completed?
       case AwaitStop =>
         c.startCalls == 1 && !c.startFuture.Pending?
         && (HasStopSignal(c.inbox) || c.stopCompletionPending)
       case Removed =>
         (c.closed || HasRemovedSignal(c.inbox))
         && (c.startFuture.Pending? <==> c.startCalls == 0)
         && AllUninjected(c.injectors)
  }

  lemma InitialSatisfiesInv<V>(d: Descriptor<V>, injectors: map<string, seq<Injector<V>>>)
    requires AllUninjected(injectors)
    ensures Inv(d, Initial(injectors))
  {
  }

  lemma HasSignalAfterPop<V>(q: seq<ServiceEvent<V>>)
    requires |q| > 0
    ensures HasStartSignal(q) && !(q[0].ServiceStarted? || q[0].ServiceStartFailed?) ==> HasStartSignal(q[1..])
    ensures HasStopSignal(q) && !q[0].ServiceStopped? ==> HasStopSignal(q[1..])
    ensures HasRemovedSignal(q) && !q[0].ServiceRemoved? ==> HasRemovedSignal(q[1..])
  {
    if HasStartSignal(q) && !(q[0].ServiceStarted? || q[0].ServiceStartFailed?) {
      var i :| 0 <= i < |q| && (q[i].ServiceStarted? || q[i].ServiceStartFailed?);
      assert q[1..][i - 1] == q[i];
    }
    if HasStopSignal(q) && !q[0].ServiceStopped? {
      var i :| 0 <= i < |q| && q[i].ServiceStopped?;
      assert q[1..][i - 1] == q[i];
    }
    if HasRemovedSignal(q) && !q[0].ServiceRemoved? {
      var i :| 0 <= i < |q| && q[i].ServiceRemoved?;
      assert q[1..][i - 1] == q[i];
    }
  }

  lemma HasSignalAfterAppend<V>(q: seq<ServiceEvent<V>>, e: ServiceEvent<V>)
    ensures HasStartSignal(q) || e.ServiceStarted? || e.ServiceStartFailed? <==> HasStartSignal(q + [e])
    ensures HasStopSignal(q) || e.ServiceStopped? <==> HasStopSignal(q + [e])
    ensures HasRemovedSignal(q) || e.ServiceRemoved? <==> HasRemovedSignal(q + [e])
  {
    var q' := q + [e];
    assert q'[|q|] == e;
    assert forall i :: 0 <= i < |q| ==> q'[i] == q[i];
  }

  /** The service's start leaves the controller waiting in AwaitStart with the
      event that ends the wait either already fired or still to come from a
      registered completion; a second context call fails the start with the
      context's IllegalStateException, and a start that makes no context call
      and throws nothing is reported started at once. */
  lemma StartInvokedSignals<V>(d: Descriptor<V>, c: ControllerState<V>)
    ensures var r := StartInvoked(d, c);
      && r.phase == AwaitStart && r.startCalls == c.startCalls + 1
      && r.startContext.Some? && r.startContext.value.isValid
      && (r.startContext.value.isInterruptible <==> |d.start.calls| >= 1 && d.start.calls[0] == CallAsync(true))
      && (HasStartSignal(r.inbox) || r.startCompletionPending)
      && (|d.start.calls| >= 2 ==>
            r.published == c.published + [ServiceStartFailed(IllegalStateException(ContextAlreadyAsync))])
      && (|d.start.calls| == 0 && d.start.failure.None? ==> r.published == c.published + [ServiceStarted])
      && (|d.start.calls| <= 1 && d.start.failure.Some? ==>
            r.published == c.published + [ServiceStartFailed(ThrownByCollaborator(d.start.failure.value))])
      && (|d.start.calls| == 1 && d.start.failure.None? ==>
            r.published == c.published && r.startCompletionPending)
  {
    FreshStartCalls(d.start.calls);
    var out := StartOutcome(d);
    var fired: seq<ServiceEvent<V>> := StartSignal(d, out);
    if fired != [] {
      HasSignalAfterAppend(c.inbox, fired[0]);
      assert [fired[0]] == fired;
    }
  }

  /** invokeStop always leads to SERVICE_STOPPED: fired at once when the stop
      is synchronous or throws, otherwise by the completion it registered.
      The start context is invalidated and the stop context records whether
      the start was interrupted. */
  lemma StopInvokedSignals<V>(d: Descriptor<V>, c: ControllerState<V>, interrupted: bool)
    requires c.startContext.Some?
    ensures var r := StopInvoked(d, c, interrupted);
      && r.phase == AwaitStop && r.stopCalls == c.stopCalls + 1
      && (HasStopSignal(r.inbox) || r.stopCompletionPending)
      && r.startContext.Some? && !r.startContext.value.isValid
      && r.stopContext.Some? && r.stopContext.value.wasInterrupted == interrupted
      && (|d.stop.calls| != 1 || d.stop.failure.Some? ==> r.published == c.published + [ServiceStopped])
  {
    FreshStopCalls(d.stop.calls, interrupted);
    var out := StopOutcome(d, interrupted);
    HasSignalAfterAppend(c.inbox, ServiceStopped);
  }

  lemma StopWhileStartingShape<V>(d: Descriptor<V>, c: ControllerState<V>)
    requires Inv(d, c) && c.phase == AwaitStart
    ensures var r := StopWhileStarting(d, c);
      if c.startContext.value.isInterruptible then
        && r.phase == AwaitStop
        && r.startFuture == Failed(ServiceInterruptedException(InterruptedMessage(d.name)))
        && r.stopContext.Some? && r.stopContext.value.wasInterrupted
        && Inv(d, r)
      else
        r == c.(stopAfterStarted := true)
  {
    if c.startContext.value.isInterruptible {
      var c1 := c.(startFuture := Failed(ServiceInterruptedException(InterruptedMessage(d.name))));
      StopInvokedSignals(d, c1, true);
    }
  }

  /** Each step of the controller keeps the life-cycle invariant. */
  lemma ApplyPreservesInv<V>(d: Descriptor<V>, c: ControllerState<V>, i: Input<V>)
    requires Inv(d, c)
    ensures Inv(d, Apply(d, c, i))
  {
    match i
    case ResolverDelivers(e) => DeliveredPreservesInv(d, c, e);
    case StartCompletes(err) => StartCompletedPreservesInv(d, c, err);
    case StopCompletes => StopCompletedPreservesInv(d, c);
    case RemoveRequested => RemovePreservesInv(d, c);
    case ProcessNext =>
      if !c.closed && |c.inbox| > 0 {
        StepPreservesInv(d, c);
      }
  }

  lemma DeliveredPreservesInv<V>(d: Descriptor<V>, c: ControllerState<V>, e: ServiceEvent<V>)
    requires Inv(d, c)
    ensures Inv(d, Delivered(c, e))
  {
    HasSignalAfterAppend(c.inbox, e);
  }

  lemma StartCompletedPreservesInv<V>(d: Descriptor<V>, c: ControllerState<V>, err: Option<Exception>)
    requires Inv(d, c)
    ensures Inv(d, StartCompleted(c, err))
  {
    HasSignalAfterAppend(c.inbox, if err.None? then ServiceStarted else ServiceStartFailed(err.value));
  }

  lemma StopCompletedPreservesInv<V>(d: Descriptor<V>, c: ControllerState<V>)
    requires Inv(d, c)
    ensures Inv(d, StopCompleted(c))
  {
    HasSignalAfterAppend(c.inbox, ServiceStopped);
  }

  lemma RemovePreservesInv<V>(d: Descriptor<V>, c: ControllerState<V>)
    requires Inv(d, c)
    ensures Inv(d, Fired(c, ServiceStopping))
  {
    HasSignalAfterAppend(c.inbox, ServiceStopping);
  }

  lemma StepPreservesInv<V>(d: Descriptor<V>, c: ControllerState<V>)
    requires Inv(d, c) && !c.closed && |c.inbox| > 0
    ensures Inv(d, Step(d, c))
  {
    HasSignalAfterPop(c.inbox);
    assert [c.inbox[0]] + c.inbox[1..] == c.inbox;
    match c.phase
    case AwaitDependenciesStarted => AwaitDependenciesStartedKeepsInv(d, c.(inbox := c.inbox[1..]), c.inbox[0]);
    case AwaitStart => AwaitStartKeepsInv(d, c.(inbox := c.inbox[1..]), c.inbox[0]);
    case Started => StartedKeepsInv(d, c.(inbox := c.inbox[1..]), c.inbox[0]);
    case AwaitDependentsStopped => AwaitDependentsStoppedKeepsInv(d, c.(inbox := c.inbox[1..]), c.inbox[0]);
    case AwaitStop => AwaitStopKeepsInv(d, c.(inbox := c.inbox[1..]), c.inbox[0]);
    case Removed =>
  }

  /** The handlers keep the invariant; each lemma takes the state with the
      event already taken from the channel. */
  lemma AwaitDependenciesStartedKeepsInv<V>(d: Descriptor<V>, p: ControllerState<V>, e: ServiceEvent<V>)
    requires Inv(d, p) && p.phase == AwaitDependenciesStarted
    ensures Inv(d, InAwaitDependenciesStarted(d, p, e))
  {
    if e.DependenciesAvailable? {
      var p1 := p.(resolvedDependencies := e.resolved, injectors := Injected(p.injectors, e.resolved));
      StartInvokedSignals(d, p1);
    } else if e.DependenciesUnavailable? || e.ServiceStopping? {
      HasSignalAfterAppend(p.inbox, ServiceRemoved);
    }
  }

  lemma AwaitStartKeepsInv<V>(d: Descriptor<V>, p: ControllerState<V>, e: ServiceEvent<V>)
    requires p.phase == AwaitStart
    requires Inv(d, p.(inbox := [e] + p.inbox))
    requires !(e.ServiceStarted? || e.ServiceStartFailed?) ==> HasStartSignal(p.inbox) || p.startCompletionPending
    ensures Inv(d, InAwaitStart(d, p, e))
  {
    if e.ServiceStarted? {
      if p.stopAfterStarted {
        StopInvokedSignals(d, p.(startFuture := Failed(RuntimeException(RemovedWhileStartingMessage(d.name)))), false);
      }
    } else if e.ServiceStartFailed? {
      HasSignalAfterAppend(p.inbox, ServiceStopped);
    } else if e.DependenciesUnavailable? || e.DependentsStopped? || e.ServiceStopping? {
      assert Inv(d, p);
      StopWhileStartingShape(d, p);
    } else {
      assert Inv(d, p);
    }
  }

  lemma StartedKeepsInv<V>(d: Descriptor<V>, p: ControllerState<V>, e: ServiceEvent<V>)
    requires Inv(d, p) && p.phase == Started
    ensures Inv(d, InStarted(p, e))
  {
    if e.DependenciesUnavailable? {
      HasSignalAfterAppend(p.inbox, ServiceStopping);
    }
  }

  lemma AwaitDependentsStoppedKeepsInv<V>(d: Descriptor<V>, p: ControllerState<V>, e: ServiceEvent<V>)
    requires Inv(d, p) && p.phase == AwaitDependentsStopped
    ensures Inv(d, InAwaitDependentsStopped(d, p, e))
  {
    if e.DependentsStopped? {
      StopInvokedSignals(d, p, false);
    }
  }

  lemma AwaitStopKeepsInv<V>(d: Descriptor<V>, p: ControllerState<V>, e: ServiceEvent<V>)
    requires p.phase == AwaitStop
    requires Inv(d, p.(inbox := [e] + p.inbox))
    requires !e.ServiceStopped? ==> HasStopSignal(p.inbox) || p.stopCompletionPending
    ensures Inv(d, InAwaitStop(p, e))
  {
    if e.ServiceStopped? {
      HasSignalAfterAppend(p.inbox, ServiceRemoved);
      UninjectedClearsAll(p.injectors);
    } else {
      assert Inv(d, p);
    }
  }

  /** Over any sequence of inputs the invariant holds; in particular the
      service's start and stop are each invoked at most once. */
  lemma {:induction false} RunPreservesInv<V>(d: Descriptor<V>, c: ControllerState<V>, inputs: seq<Input<V>>)
    requires Inv(d, c)
    ensures Inv(d, Run(d, c, inputs))
    ensures Run(d, c, inputs).startCalls <= 1 && Run(d, c, inputs).stopCalls <= 1
    decreases |inputs|
  {
    if inputs != [] {
      ApplyPreservesInv(d, c, inputs[0]);
      RunPreservesInv(d, Apply(d, c, inputs[0]), inputs[1..]);
    }
  }

  /** How a later state relates to an earlier one: the phase is no earlier,
      the counters are no smaller, the container's channel only grew, and a
      removed service stays removed without further start or stop. */
  ghost predicate Progress<V>(c: ControllerState<V>, r: ControllerState<V>)
  {
    && Rank(c.phase) <= Rank(r.phase)
    && c.startCalls <= r.startCalls && c.stopCalls <= r.stopCalls
    && c.published <= r.published
    && (c.phase == Removed ==> r.phase == Removed && r.startCalls == c.startCalls && r.stopCalls == c.stopCalls)
  }

  lemma ProgressTransitive<V>(a: ControllerState<V>, b: ControllerState<V>, c: ControllerState<V>)
    requires Progress(a, b) && Progress(b, c)
    ensures Progress(a, c)
  {
  }

  lemma StartInvokedMoves<V>(d: Descriptor<V>, c: ControllerState<V>)
    ensures var r := StartInvoked(d, c);
      r.phase == AwaitStart && r.startCalls == c.startCalls + 1 && r.stopCalls == c.stopCalls && c.published <= r.published
  {
  }

  lemma StopInvokedMoves<V>(d: Descriptor<V>, c: ControllerState<V>, interrupted: bool)
    ensures var r := StopInvoked(d, c, interrupted);
      r.phase == AwaitStop && r.startCalls == c.startCalls && r.stopCalls == c.stopCalls + 1 && c.published <= r.published
  {
  }

  /** Each handler's transition is one of `Edge`'s. */
  lemma StepFollowsEdge<V>(d: Descriptor<V>, c: ControllerState<V>)
    ensures Edge(c.phase, Step(d, c).phase) && Progress(c, Step(d, c))
  {
    if !c.closed && |c.inbox| > 0 {
      AcceptMoves(d, c.(inbox := c.inbox[1..]), c.inbox[0]);
    }
  }

  lemma AcceptMoves<V>(d: Descriptor<V>, p: ControllerState<V>, e: ServiceEvent<V>)
    ensures Edge(p.phase, Accept(d, p, e).phase) && Progress(p, Accept(d, p, e))
  {
    match p.phase
    case AwaitDependenciesStarted => AwaitDependenciesStartedMoves(d, p, e);
    case AwaitStart => AwaitStartMoves(d, p, e);
    case AwaitDependentsStopped => AwaitDependentsStoppedMoves(d, p, e);
    case Started =>
    case AwaitStop =>
    case Removed =>
  }

  lemma AwaitDependenciesStartedMoves<V>(d: Descriptor<V>, p: ControllerState<V>, e: ServiceEvent<V>)
    requires p.phase == AwaitDependenciesStarted
    ensures var r := InAwaitDependenciesStarted(d, p, e); Edge(p.phase, r.phase) && Progress(p, r)
  {
    if e.DependenciesAvailable? {
      StartInvokedMoves(d, p.(resolvedDependencies := e.resolved, injectors := Injected(p.injectors, e.resolved)));
    }
  }

  lemma AwaitStartMoves<V>(d: Descriptor<V>, p: ControllerState<V>, e: ServiceEvent<V>)
    requires p.phase == AwaitStart
    ensures var r := InAwaitStart(d, p, e); Edge(p.phase, r.phase) && Progress(p, r)
  {
    match e
    case ServiceStarted =>
      if p.stopAfterStarted {
        StopInvokedMoves(d, p.(startFuture := Failed(RuntimeException(RemovedWhileStartingMessage(d.name)))), false);
      }
    case DependenciesUnavailable => StopWhileStartingMoves(d, p);
    case DependentsStopped => StopWhileStartingMoves(d, p);
    case ServiceStopping => StopWhileStartingMoves(d, p);
    case _ =>
  }

  lemma StopWhileStartingMoves<V>(d: Descriptor<V>, p: ControllerState<V>)
    requires p.phase == AwaitStart
    ensures var r := StopWhileStarting(d, p); Edge(p.phase, r.phase) && Progress(p, r)
  {
    if p.startContext.Some? && p.startContext.value.isInterruptible {
      StopInvokedMoves(d, p.(startFuture := Failed(ServiceInterruptedException(InterruptedMessage(d.name)))), true);
    }
  }

  lemma AwaitDependentsStoppedMoves<V>(d: Descriptor<V>, p: ControllerState<V>, e: ServiceEvent<V>)
    requires p.phase == AwaitDependentsStopped
    ensures var r := InAwaitDependentsStopped(d, p, e); Edge(p.phase, r.phase) && Progress(p, r)
  {
    if e.DependentsStopped? {
      StopInvokedMoves(d, p, false);
    }
  }

  /** Each input follows one of the handlers' transitions, so the phase never
      goes back (a service that began to stop never becomes Started again);
      the counters never decrease and fired events are never taken back from
      the container's channel. */
  lemma ApplyFollowsEdge<V>(d: Descriptor<V>, c: ControllerState<V>, i: Input<V>)
    ensures Edge(c.phase, Apply(d, c, i).phase) && Progress(c, Apply(d, c, i))
  {
    match i
    case ProcessNext => StepFollowsEdge(d, c);
    case ResolverDelivers(e) =>
      assert Apply(d, c, i) == Delivered(c, e);
    case StartCompletes(err) =>
      assert Apply(d, c, i) == StartCompleted(c, err);
    case StopCompletes =>
      assert Apply(d, c, i) == StopCompleted(c);
    case RemoveRequested =>
      assert Apply(d, c, i) == Fired(c, ServiceStopping);
  }

  lemma {:induction false} RunNeverGoesBack<V>(d: Descriptor<V>, c: ControllerState<V>, inputs: seq<Input<V>>)
    ensures Progress(c, Run(d, c, inputs))
    decreases |inputs|
  {
    if inputs != [] {
      var next := Apply(d, c, inputs[0]);
      ApplyFollowsEdge(d, c, inputs[0]);
      RunNeverGoesBack(d, next, inputs[1..]);
      ProgressTransitive(c, next, Run(d, next, inputs[1..]));
    }
  }

  /** Whatever happens after installation, start and stop are each invoked at
      most once; a service removed before its dependencies became available is
      never started, and its injectors never receive a value. */
  lemma {:induction false} AtMostOnce<V>(
    d: Descriptor<V>, injectors: map<string, seq<Injector<V>>>, before: seq<Input<V>>, after: seq<Input<V>>)
    requires AllUninjected(injectors)
    ensures var c := Run(d, Initial(injectors), before);
      && c.startCalls <= 1 && c.stopCalls <= 1
      && (c.phase == Removed && c.startCalls == 0 ==>
            Run(d, c, after).startCalls == 0 && AllUninjected(Run(d, c, after).injectors))
  {
    InitialSatisfiesInv(d, injectors);
    RunPreservesInv(d, Initial(injectors), before);
    var c := Run(d, Initial(injectors), before);
    RunPreservesInv(d, c, after);
    RunNeverGoesBack(d, c, after);
  }

  /** DEPENDENCIES_AVAILABLE injects every resolved dependency into the
      injectors registered under its name and invokes the service's start. */
  lemma DependenciesAvailableStarts<V>(d: Descriptor<V>, c: ControllerState<V>, deps: seq<Dependency<V>>)
    requires Inv(d, c) && c.phase == AwaitDependenciesStarted
    ensures var r := InAwaitDependenciesStarted(d, c, DependenciesAvailable(deps));
      && r.phase == AwaitStart && r.startCalls == 1 && r.resolvedDependencies == deps
      && r.injectors.Keys == c.injectors.Keys
      && (forall k :: k in c.injectors ==> |r.injectors[k]| == |c.injectors[k]|)
      && (forall i, j :: (0 <= i < |deps| && deps[i].name in c.injectors && 0 <= j < |c.injectors[deps[i].name]|
            && (forall i' :: i < i' < |deps| ==> deps[i'].name != deps[i].name)) ==>
            r.injectors[deps[i].name][j] == Injector(Some(deps[i].value), Some(deps[i].name)))
  {
    var m := Injected(c.injectors, deps);
    InjectedShape(c.injectors, deps);
    StartInvokedSignals(d, c.(resolvedDependencies := deps, injectors := m));
    forall i, j | 0 <= i < |deps| && deps[i].name in c.injectors && 0 <= j < |c.injectors[deps[i].name]|
        && (forall i' :: i < i' < |deps| ==> deps[i'].name != deps[i].name)
      ensures m[deps[i].name][j] == Injector(Some(deps[i].value), Some(deps[i].name))
    {
      InjectedHoldsDependency(c.injectors, deps, i, j);
    }
  }

  /** A service that is stopped while its non-interruptible start is still
      running is first allowed to finish starting; its start future then fails
      with "removed while starting" and stop is invoked, not interrupted. */
  lemma StoppedAfterStarted<V>(d: Descriptor<V>, c: ControllerState<V>)
    requires Inv(d, c) && c.phase == AwaitStart && !c.startContext.value.isInterruptible
    ensures var r := InAwaitStart(d, InAwaitStart(d, c, ServiceStopping), ServiceStarted);
      && r.phase == AwaitStop && r.stopCalls == 1
      && r.startFuture == Failed(RuntimeException(RemovedWhileStartingMessage(d.name)))
      && r.stopContext.Some? && !r.stopContext.value.wasInterrupted
  {
    var c1 := c.(stopAfterStarted := true);
    StopInvokedSignals(d, c1.(startFuture := Failed(RuntimeException(RemovedWhileStartingMessage(d.name)))), false);
  }

  /** A start that fails completes the start future with the failure and goes
      to AwaitStop without invoking the service's stop. */
  lemma StartFailureSkipsStop<V>(d: Descriptor<V>, c: ControllerState<V>, cause: Exception)
    requires Inv(d, c) && c.phase == AwaitStart
    ensures var r := InAwaitStart(d, c, ServiceStartFailed(cause));
      && r.phase == AwaitStop && r.startFuture == Failed(cause) && r.stopCalls == 0
      && HasStopSignal(r.inbox) && Inv(d, r)
  {
    HasSignalAfterAppend(c.inbox, ServiceStopped);
  }

  // ---------------------------------------------------------------------------
  // The actor
  // ---------------------------------------------------------------------------

  class ServiceController<V> {
    const descriptor: Descriptor<V>
    var phase: Phase
    /** the field of the AwaitStart handler */
    var stopAfterStarted: bool
    var inbox: seq<ServiceEvent<V>>
    var published: seq<ServiceEvent<V>>
    var injectors: map<string, seq<Injector<V>>>
    var resolvedDependencies: seq<Dependency<V>>
    var startContext: Option<StartContext>
    var stopContext: Option<StopContext>
    var startCompletionPending: bool
    var stopCompletionPending: bool
    var startFuture: Future<V>
    var stopFuture: Future<()>
    ghost var startCalls: nat
    ghost var stopCalls: nat
    var closed: bool

    ghost function View(): ControllerState<V>
      reads this
    {
      ControllerState(phase, stopAfterStarted, inbox, published, injectors, resolvedDependencies,
           startContext, stopContext, startCompletionPending, stopCompletionPending,
           startFuture, stopFuture, startCalls, stopCalls, closed)
    }

    ghost predicate Valid()
      reads this
    {
      Inv(descriptor, View())
    }

    /** Creating the controller and starting its actor, which announces the
        service to the container. */
    constructor(descriptor: Descriptor<V>, injectors: map<string, seq<Injector<V>>>)
      requires AllUninjected(injectors)
      ensures this.descriptor == descriptor
      ensures View() == Initial(injectors)
      ensures Valid()
    {
      this.descriptor := descriptor;
      phase := AwaitDependenciesStarted;
      stopAfterStarted := false;
      inbox := [];
      published := [ServiceInstalled];
      this.injectors := injectors;
      resolvedDependencies := [];
      startContext := None;
      stopContext := None;
      startCompletionPending := false;
      stopCompletionPending := false;
      startFuture := Pending;
      stopFuture := Pending;
      startCalls := 0;
      stopCalls := 0;
      closed := false;
      new;
      InitialSatisfiesInv(descriptor, injectors);
    }

    /** The resolver adds an event to the controller's channel. */
    method Deliver(e: ServiceEvent<V>)
      requires Valid() && IsResolverEvent(e)
      modifies this
      ensures View() == Delivered(old(View()), e)
      ensures Valid()
    {
      inbox := inbox + [e];
      DeliveredPreservesInv(descriptor, old(View()), e);
    }

    /** remove(): fires SERVICE_STOPPING on the actor; the caller is handed the
        stop future. */
    method Remove() returns (f: Future<()>)
      requires Valid()
      modifies this
      ensures View() == Fired(old(View()), ServiceStopping)
      ensures f == stopFuture
      ensures Valid()
    {
      FireEvent(ServiceStopping);
      f := stopFuture;
      RemovePreservesInv(descriptor, old(View()));
    }

    /** The future handed to the start context's async(), or the blocking action
        handed to its run(), completes; a null throwable means started. */
    method OnStartCompletion(error: Option<Exception>)
      requires Valid() && startCompletionPending
      modifies this
      ensures View() == StartCompleted(old(View()), error)
      ensures Valid()
    {
      ghost var c0 := View();
      startCompletionPending := false;
      if error.None? {
        FireEvent(ServiceStarted);
      } else {
        FireEvent(ServiceStartFailed(error.value));
      }
      StartCompletedPreservesInv(descriptor, c0, error);
    }

    /** The same for the stop context: whatever the outcome, the service is
        stopped. */
    method OnStopCompletion()
      requires Valid() && stopCompletionPending
      modifies this
      ensures View() == StopCompleted(old(View()))
      ensures Valid()
    {
      stopCompletionPending := false;
      FireEvent(ServiceStopped);
      StopCompletedPreservesInv(descriptor, old(View()));
    }

    /** onServiceEvent: takes the next event of the channel and gives it to the
        current handler. */
    method OnServiceEvent()
      requires Valid()
      modifies this
      ensures View() == Step(descriptor, old(View()))
      ensures Valid()
    {
      ghost var c0 := View();
      if closed || |inbox| == 0 {
        return;
      }
      var e := inbox[0];
      inbox := inbox[1..];
      AcceptEvent(e);
      StepPreservesInv(descriptor, c0);
    }

    /** state.accept(event) */
    method AcceptEvent(e: ServiceEvent<V>)
      modifies this
      ensures View() == Accept(descriptor, old(View()), e)
    {
      match phase {
        case AwaitDependenciesStarted => AcceptAwaitingDependencies(e);
        case AwaitStart => AcceptAwaitingStart(e);
        case Started => AcceptStarted(e);
        case AwaitDependentsStopped =>
          if e.DependentsStopped? {
            InvokeStop(false);
          }
        case AwaitStop =>
          if e.ServiceStopped? {
            UninjectAll();
            phase := Removed;
            FireEvent(ServiceRemoved);
          }
        case Removed =>
          if e.ServiceRemoved? {
            closed := true;
            stopFuture := Completed(());
          }
      }
    }

    method FireEvent(e: ServiceEvent<V>)
      modifies this`inbox, this`published
      ensures inbox == old(inbox) + [e] && published == old(published) + [e]
    {
      inbox := inbox + [e];
      published := published + [e];
    }

    method AcceptAwaitingDependencies(e: ServiceEvent<V>)
      modifies this
      ensures View() == InAwaitDependenciesStarted(descriptor, old(View()), e)
    {
      match e {
        case DependenciesAvailable(deps) =>
          InjectDependencies(deps);
          InvokeStart();
        case DependenciesUnavailable =>
          phase := Removed;
          FireEvent(ServiceRemoved);
        case ServiceStopping =>
          phase := Removed;
          FireEvent(ServiceRemoved);
        case _ =>
      }
    }

    /** The nested injection loop of onDependenciesAvailable. */
    method InjectDependencies(deps: seq<Dependency<V>>)
      modifies this
      ensures View() == old(View()).(resolvedDependencies := deps, injectors := Injected(old(injectors), deps))
    {
      resolvedDependencies := deps;
      var m := injectors;
      var i := 0;
      while i < |deps|
        invariant 0 <= i <= |deps|
        invariant m == Injected(injectors, deps[..i])
        decreases |deps| - i
      {
        var d := deps[i];
        if d.name in m {
          ghost var before := m;
          var j := 0;
          while j < |m[d.name]|
            invariant 0 <= j <= |before[d.name]|
            invariant d.name in m && |m[d.name]| == |before[d.name]|
            invariant m == before[d.name := m[d.name]]
            invariant forall k :: 0 <= k < j ==> m[d.name][k] == Injector(Some(d.value), Some(d.name))
            decreases |before[d.name]| - j
          {
            m := m[d.name := m[d.name][j := Injector(Some(d.value), Some(d.name))]];
            j := j + 1;
          }
          assert m[d.name] == InjectEach(before[d.name], d);
        }
        assert deps[..i + 1][..i] == deps[..i];
        i := i + 1;
      }
      assert deps[..i] == deps;
      injectors := m;
    }

    /** The rest of onDependenciesAvailable: the start context is created and
        the service's start invoked. */
    method InvokeStart()
      modifies this
      ensures View() == StartInvoked(descriptor, old(View()))
    {
      phase := AwaitStart;
      startCalls := startCalls + 1;
      var out := StartOutcome(descriptor);
      startContext := Some(out.ctx);
      ReportStart(out);
    }

    /** What follows service.start(startContext): a blocking action handed to
        run() is started, and a start that did not go asynchronous is reported
        started; an exception is reported as a failed start. */
    method ReportStart(out: CallsOutcome<StartContext>)
      modifies this`inbox, this`published, this`startCompletionPending
      ensures inbox == old(inbox) + StartSignal(descriptor, out)
      ensures published == old(published) + StartSignal(descriptor, out)
      ensures startCompletionPending == StartStillPending(descriptor, out)
    {
      startCompletionPending := out.registered;
      if out.thrown.Some? {
        FireEvent(ServiceStartFailed(out.thrown.value));
      } else if descriptor.start.failure.Some? {
        FireEvent(ServiceStartFailed(ThrownByCollaborator(descriptor.start.failure.value)));
      } else {
        if out.ctx.hasAction {
          startCompletionPending := true;
        }
        if !out.ctx.isAsync {
          FireEvent(ServiceStarted);
        }
      }
    }

    method InvokeStop(interrupted: bool)
      modifies this`phase, this`startContext, this`stopCalls, this`stopContext
      modifies this`inbox, this`published, this`stopCompletionPending
      ensures View() == StopInvoked(descriptor, old(View()), interrupted)
    {
      phase := AwaitStop;
      if startContext.Some? {
        startContext := Some(Invalidate(startContext.value));
      }
      stopCalls := stopCalls + 1;
      var out := StopOutcome(descriptor, interrupted);
      stopContext := Some(out.ctx);
      ReportStop(out);
    }

    /** What follows service.stop(stopContext): SERVICE_STOPPED is fired unless
        the stop went asynchronous; any throwable also ends in SERVICE_STOPPED. */
    method ReportStop(out: CallsOutcome<StopContext>)
      modifies this`inbox, this`published, this`stopCompletionPending
      ensures inbox == old(inbox) + StopSignal(descriptor, out)
      ensures published == old(published) + StopSignal(descriptor, out)
      ensures stopCompletionPending == StopStillPending(descriptor, out)
    {
      stopCompletionPending := out.registered;
      if out.thrown.Some? || descriptor.stop.failure.Some? {
        FireEvent(ServiceStopped);
      } else {
        if out.ctx.hasAction {
          stopCompletionPending := true;
        }
        if !out.ctx.isAsync {
          FireEvent(ServiceStopped);
        }
      }
    }

    method AcceptAwaitingStart(e: ServiceEvent<V>)
      modifies this
      ensures View() == InAwaitStart(descriptor, old(View()), e)
    {
      match e {
        case ServiceStarted =>
          if stopAfterStarted {
            startFuture := Failed(RuntimeException(RemovedWhileStartingMessage(descriptor.name)));
            InvokeStop(false);
          } else {
            phase := Started;
            startFuture := Completed(descriptor.value);
          }
        case ServiceStartFailed(cause) =>
          startFuture := Failed(cause);
          phase := AwaitStop;
          FireEvent(ServiceStopped);
        case DependenciesUnavailable => StopRequestedWhileStarting();
        case DependentsStopped => StopRequestedWhileStarting();
        case ServiceStopping => StopRequestedWhileStarting();
        case _ =>
      }
    }

    method StopRequestedWhileStarting()
      modifies this
      ensures View() == StopWhileStarting(descriptor, old(View()))
    {
      if startContext.Some? && startContext.value.isInterruptible {
        startFuture := Failed(ServiceInterruptedException(InterruptedMessage(descriptor.name)));
        InvokeStop(true);
      } else {
        stopAfterStarted := true;
      }
    }

    method AcceptStarted(e: ServiceEvent<V>)
      modifies this
      ensures View() == InStarted(old(View()), e)
    {
      match e {
        case DependenciesUnavailable =>
          FireEvent(ServiceStopping);
          phase := AwaitDependentsStopped;
        case ServiceStopping =>
          phase := AwaitDependentsStopped;
        case _ =>
      }
    }

    /** Uninjecting every injector of every name, as the AwaitStop handler does
        before the service is removed. */
    method UninjectAll()
      modifies this
      ensures View() == old(View()).(injectors := Uninjected(old(injectors)))
    {
      var m := injectors;
      var remaining := m.Keys;
      while remaining != {}
        invariant remaining <= injectors.Keys && m.Keys == injectors.Keys
        invariant forall k :: k in injectors && k !in remaining ==> m[k] == UninjectEach(injectors[k])
        invariant forall k :: k in remaining ==> m[k] == injectors[k]
        decreases |remaining|
      {
        var name :| name in remaining;
        ghost var before := m;
        var j := 0;
        while j < |m[name]|
          invariant 0 <= j <= |injectors[name]|
          invariant name in m && |m[name]| == |injectors[name]|
          invariant m == before[name := m[name]]
          invariant forall k :: 0 <= k < j ==> m[name][k] == injectors[name][k].(value := None)
          invariant forall k :: j <= k < |m[name]| ==> m[name][k] == injectors[name][k]
          decreases |injectors[name]| - j
        {
          m := m[name := m[name][j := m[name][j].(value := None)]];
          j := j + 1;
        }
        assert m[name] == UninjectEach(injectors[name]);
        remaining := remaining - {name};
      }
      assert m == Uninjected(injectors);
      injectors := m;
    }
  }
}
