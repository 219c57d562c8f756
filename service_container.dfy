/** The service container: the facade that installs services, removes them and
    closes, in front of the dependency resolver.

    Work the container hands to its actor (actor.call / actor.run) is executed
    at once. The resolver is abstract: `registry` is its map from service name
    to installed controller, updated by the resolver inputs at the end of the
    class. Controllers are numbered in order of installation and only their
    stop futures are kept here; their life cycle is the `Controller`
    module. */
module Container {
  import opened Common

  datatype ContainerState = New | Open | Closing | Closed

  /** The enum constant's name, as "%s" prints it. */
  function StateName(s: ContainerState): string
  {
    match s
    case New => "NEW"
    case Open => "OPEN"
    case Closing => "CLOSING"
    case Closed => "CLOSED"
  }

  function Rank(s: ContainerState): nat
  {
    match s
    case New => 0
    case Open => 1
    case Closing => 2
    case Closed => 3
  }

  const AlreadyOpen: string := "Cannot start service container, is already open."

  function DuplicateServiceMessage(name: string): string
  {
    "Cannot install service with name '" + name + "'. Service with same name already exists"
  }

  function InstallRejectedMessage(name: string, s: ContainerState): string
  {
    "Cannot install new service " + name + " into the container, state is '" + StateName(s) + "'"
  }

  function RemoveRejectedMessage(s: ContainerState): string
  {
    "Cannot remove service, container is '" + StateName(s) + "'."
  }

  function CloseRejectedMessage(s: ContainerState): string
  {
    "Cannot close service container, container is '" + StateName(s) + "'."
  }

  // ---------------------------------------------------------------------------
  // start()
  // ---------------------------------------------------------------------------

  /** The container state and the isOpenend flag after start(), and what it
      threw. */
  datatype StartResult = StartResult(state: ContainerState, isOpened: bool, error: Option<Exception>)

  /** start() as written: the compare-and-set on isOpenend is its only
      guard. */
  function StartAsWritten(state: ContainerState, isOpened: bool): StartResult
  {
    if !isOpened then StartResult(Open, true, None)
    else StartResult(state, isOpened, Some(IllegalStateException(AlreadyOpen)))
  }

  /** start() as the documented state order intends: only a NEW container
      opens; a CLOSED one is not reusable. */
  function Start(state: ContainerState, isOpened: bool): (r: StartResult)
    ensures r.error.None? <==> !isOpened && state == New
    ensures r.error.None? ==> r.state == Open && r.isOpened
    ensures r.error.Some? ==>
      r.state == state && r.isOpened == isOpened && r.error.value == IllegalStateException(AlreadyOpen)
    ensures Rank(state) <= Rank(r.state)
  {
    if !isOpened && state == New then StartResult(Open, true, None)
    else StartResult(state, isOpened, Some(IllegalStateException(AlreadyOpen)))
  }

  /** The two agree on every container that was never closed before being
      started. */
  lemma StartAgreesUnlessClosedBeforeStart(state: ContainerState, isOpened: bool)
    requires !isOpened ==> state == New
    ensures Start(state, isOpened) == StartAsWritten(state, isOpened)
  {
  }

  /** A container closed before it was ever started (CLOSED with isOpenend
      still false) is opened again by the start() as written: its state goes
      back from CLOSED to OPEN. */
  lemma StartAsWrittenReopensClosed()
    ensures StartAsWritten(Closed, false).state == Open
    ensures StartAsWritten(Closed, false).error.None?
    ensures Rank(StartAsWritten(Closed, false).state) < Rank(Closed)
    ensures Start(Closed, false).state == Closed && Start(Closed, false).error.Some?
  {
  }

  // ---------------------------------------------------------------------------
  // The decisions of onServiceBuilt, removeService and closeAsync
  // ---------------------------------------------------------------------------

  /** onServiceBuilt: a controller is submitted (None) or the install future
      fails with the exception. */
  function InstallDecision(state: ContainerState, name: string, exists_: bool): (r: Option<Exception>)
    ensures r.None? <==> state == Open && !exists_
    ensures state != Open ==> r == Some(IllegalStateException(InstallRejectedMessage(name, state)))
    ensures state == Open && exists_ ==> r == Some(IllegalStateException(DuplicateServiceMessage(name)))
  {
    if state == Open then
      if !exists_ then None else Some(IllegalStateException(DuplicateServiceMessage(name)))
    else Some(IllegalStateException(InstallRejectedMessage(name, state)))
  }

  /** removeService: follow the controller's stop future, complete at once, or
      fail. */
  datatype RemoveDecision = FollowStopFuture | CompleteNow | Reject(error: Exception)

  function RemoveDecisionFor(state: ContainerState, known: bool): (r: RemoveDecision)
    ensures r.FollowStopFuture? <==> (state == Open || state == Closing) && known
    ensures r.CompleteNow? <==> (state == Open || state == Closing) && !known
    ensures r.Reject? <==> state == New || state == Closed
    ensures r.Reject? ==> r.error == IllegalStateException(RemoveRejectedMessage(state))
  {
    if state == Open || state == Closing then
      if known then FollowStopFuture else CompleteNow
    else Reject(IllegalStateException(RemoveRejectedMessage(state)))
  }

  /** The removal futures handed out by removeService: the controller whose
      stop future they follow (None when completed at once), and their
      state. */
  datatype Removal = Removal(controller: Option<nat>, result: Future<()>)

  /** What the wait in close(timeout) ended with. */
  datatype CloseOutcome = ClosedInTime | TimedOut | CloseFailed(error: Exception)

  /** The controllers of the root services, in the order the resolver lists
      them. */
  function RootIds(registry: map<string, nat>, roots: seq<string>): (ids: seq<nat>)
    requires forall i :: 0 <= i < |roots| ==> roots[i] in registry
    ensures |ids| == |roots|
    ensures forall i :: 0 <= i < |roots| ==> ids[i] == registry[roots[i]]
  {
    seq(|roots|, i requires 0 <= i < |roots| => registry[roots[i]])
  }

  class ServiceContainer {
    var state: ContainerState
    var isOpened: bool
    /** the container's actor was submitted / was closed */
    var actorSubmitted: bool
    var actorClosed: bool
    /** names of the submitted controllers, by controller number */
    var installed: seq<string>
    /** the stop future of each submitted controller */
    var stopFutures: seq<Future<()>>
    /** the controllers whose remove() was called, in call order */
    var removeCalls: seq<nat>
    /** the resolver's map from service name to controller */
    var registry: map<string, nat>
    var removals: seq<Removal>
    var closeFuture: Future<()>
    /** the controllers whose removal closeAsync waits for, and whether that
        wait was registered */
    var closeAwaits: seq<nat>
    var closeArmed: bool

    ghost predicate Valid()
      reads this
    {
      && |stopFutures| == |installed|
      && (forall n :: n in registry ==> registry[n] < |installed| && installed[registry[n]] == n)
      && (forall i :: 0 <= i < |removeCalls| ==> removeCalls[i] < |installed|)
      && (forall i :: 0 <= i < |closeAwaits| ==> closeAwaits[i] < |installed|)
      && (forall k :: 0 <= k < |removals| && removals[k].controller.Some? ==>
            && removals[k].controller.value < |installed|
            && (!removals[k].result.Pending? ==> removals[k].result == stopFutures[removals[k].controller.value]))
      && (actorSubmitted <==> isOpened)
      && (state == New ==> !isOpened)
      && (!isOpened ==> installed == [] && !closeArmed)
      && (state == Open ==> isOpened && !closeArmed)
      && (state == Closing ==> isOpened && closeArmed)
      && (actorClosed ==> closeArmed && AllStopped(closeAwaits))
      && (closeFuture.Completed? ==> actorClosed)
    }

    /** Every listed controller's stop future has completed. */
    ghost predicate AllStopped(ids: seq<nat>)
      reads this
    {
      forall i :: 0 <= i < |ids| && ids[i] < |stopFutures| ==> !stopFutures[ids[i]].Pending?
    }

    predicate HasService(name: string)
      reads this
    {
      name in registry
    }

    constructor()
      ensures Valid()
      ensures state == New && !isOpened && !actorSubmitted && !actorClosed
      ensures installed == [] && registry == map[] && removals == [] && removeCalls == []
      ensures closeFuture == Pending && !closeArmed
    {
      state := New;
      isOpened := false;
      actorSubmitted := false;
      actorClosed := false;
      installed := [];
      stopFutures := [];
      removeCalls := [];
      registry := map[];
      removals := [];
      closeFuture := Pending;
      closeAwaits := [];
      closeArmed := false;
    }

    /** start(): the compare-and-set on isOpenend opens the container once and
        submits its actor, whatever its state; a container closed before it
        was started is opened too (see `StartAsWrittenReopensClosed`). */
    method StartContainer() returns (error: Option<Exception>)
      requires Valid()
      modifies this`state, this`isOpened, this`actorSubmitted
      ensures Valid()
      ensures var r := StartAsWritten(old(state), old(isOpened));
        state == r.state && isOpened == r.isOpened && error == r.error
      ensures error.None? <==> !old(isOpened)
      ensures error.None? ==> state == Open && actorSubmitted
      ensures error.Some? ==> state == old(state) && actorSubmitted == old(actorSubmitted)
    {
      if !isOpened {
        isOpened := true;
        actorSubmitted := true;
        state := Open;
        error := None;
      } else {
        error := Some(IllegalStateException(AlreadyOpen));
      }
    }

    /** hasService: whether the resolver holds a controller of that name; such
        a controller was installed. */
    method HasServiceCall(name: string) returns (b: bool)
      requires Valid()
      ensures b <==> HasService(name)
      ensures b ==> name in installed
    {
      b := name in registry;
      if b {
        assert installed[registry[name]] == name;
      }
    }

    /** onServiceBuilt: submits a new controller when the container is OPEN and
        no service of that name exists; the returned install future is pending
        until the controller starts the service. */
    method OnServiceBuilt(name: string) returns (installFuture: Future<()>)
      requires Valid()
      modifies this`installed, this`stopFutures
      ensures Valid()
      ensures var decision := InstallDecision(state, name, HasService(name));
        && (decision.None? ==>
              installFuture == Pending && installed == old(installed) + [name] && stopFutures == old(stopFutures) + [Pending])
        && (decision.Some? ==>
              installFuture == Failed(decision.value) && installed == old(installed) && stopFutures == old(stopFutures))
    {
      if state == Open {
        if !HasService(name) {
          installed := installed + [name];
          stopFutures := stopFutures + [Pending];
          installFuture := Pending;
        } else {
          installFuture := Failed(IllegalStateException(DuplicateServiceMessage(name)));
        }
      } else {
        installFuture := Failed(IllegalStateException(InstallRejectedMessage(name, state)));
      }
    }

    /** removeService: returns the number of the removal future it created. */
    method RemoveService(name: string) returns (k: nat)
      requires Valid()
      modifies this`removals, this`removeCalls
      ensures Valid()
      ensures k == |old(removals)| && |removals| == k + 1 && removals[..k] == old(removals)
      ensures match RemoveDecisionFor(state, HasService(name))
        case FollowStopFuture =>
          removals[k] == Removal(Some(registry[name]), Pending) && removeCalls == old(removeCalls) + [registry[name]]
        case CompleteNow =>
          removals[k] == Removal(None, Completed(())) && removeCalls == old(removeCalls)
        case Reject(e) =>
          removals[k] == Removal(None, Failed(e)) && removeCalls == old(removeCalls)
    {
      k := |removals|;
      if state == Open || state == Closing {
        if name in registry {
          var ctrl := registry[name];
          removeCalls := removeCalls + [ctrl];
          removals := removals + [Removal(Some(ctrl), Pending)];
        } else {
          removals := removals + [Removal(None, Completed(()))];
        }
      } else {
        removals := removals + [Removal(None, Failed(IllegalStateException(RemoveRejectedMessage(state))))];
      }
    }

    /** closeAsync: from OPEN, CLOSING calls remove() on every root service and
        waits for all their stop futures; from any other state the close
        future fails. An empty list of roots is complete at once. */
    method CloseAsync(roots: seq<string>)
      requires Valid()
      requires forall i :: 0 <= i < |roots| ==> roots[i] in registry
      modifies this`state, this`removeCalls, this`closeAwaits, this`closeArmed, this`actorClosed, this`closeFuture
      ensures Valid()
      ensures Rank(old(state)) <= Rank(state)
      ensures old(state) == Open ==>
        && state == Closing && closeArmed
        && closeAwaits == RootIds(registry, roots)
        && removeCalls == old(removeCalls) + RootIds(registry, roots)
        && (roots == [] <==> actorClosed)
        && (roots == [] && old(closeFuture).Pending? ==> closeFuture == Completed(()))
        && (roots != [] ==> closeFuture == old(closeFuture))
      ensures old(state) != Open ==>
        && state == old(state) && removeCalls == old(removeCalls) && closeAwaits == old(closeAwaits)
        && closeArmed == old(closeArmed) && actorClosed == old(actorClosed)
        && (old(closeFuture).Pending? ==> closeFuture == Failed(IllegalStateException(CloseRejectedMessage(state))))
        && (!old(closeFuture).Pending? ==> closeFuture == old(closeFuture))
    {
      if state == Open {
        state := Closing;
        var futures := RootRemovals(roots);
        removeCalls := removeCalls + futures;
        closeAwaits := futures;
        closeArmed := true;
        if futures == [] {
          actorClosed := true;
          if closeFuture.Pending? {
            closeFuture := Completed(());
          }
        }
      } else if closeFuture.Pending? {
        closeFuture := Failed(IllegalStateException(CloseRejectedMessage(state)));
      }
    }

    /** The forEach of closeAsync over the root services: calls remove() on
        each, in the resolver's order, and collects the controllers whose stop
        futures are to be awaited. */
    method RootRemovals(roots: seq<string>) returns (futures: seq<nat>)
      requires forall i :: 0 <= i < |roots| ==> roots[i] in registry
      ensures futures == RootIds(registry, roots)
    {
      futures := [];
      var i := 0;
      while i < |roots|
        invariant 0 <= i <= |roots|
        invariant futures == RootIds(registry, roots[..i])
        decreases |roots| - i
      {
        futures := futures + [registry[roots[i]]];
        assert roots[..i + 1][..i] == roots[..i];
        i := i + 1;
      }
      assert roots[..i] == roots;
    }

    /** close(timeout), after closeAsync: the wait ends with the close future's
        state (still pending: timed out), and the container is CLOSED
        whatever the outcome. */
    method CloseAwaited() returns (outcome: CloseOutcome)
      requires Valid()
      modifies this`state
      ensures Valid()
      ensures state == Closed && Rank(old(state)) <= Rank(state)
      ensures outcome == match closeFuture
        case Pending => TimedOut
        case Completed(_) => ClosedInTime
        case Failed(e) => CloseFailed(e)
    {
      outcome := match closeFuture
        case Pending => TimedOut
        case Completed(_) => ClosedInTime
        case Failed(e) => CloseFailed(e);
      state := Closed;
    }

    /** close(timeout) in one go: closeAsync, and no other input before the wait
        ends. */
    method Close(roots: seq<string>) returns (outcome: CloseOutcome)
      requires Valid()
      requires forall i :: 0 <= i < |roots| ==> roots[i] in registry
      modifies this`state, this`removeCalls, this`closeAwaits, this`closeArmed, this`actorClosed, this`closeFuture
      ensures Valid() && state == Closed
      ensures old(state) == Open && roots == [] && old(closeFuture).Pending? ==> outcome == ClosedInTime
      ensures old(state) == Open && roots != [] && old(closeFuture).Pending? ==> outcome == TimedOut
      ensures old(closeFuture).Pending? && old(state) != Open ==>
        outcome == CloseFailed(IllegalStateException(CloseRejectedMessage(old(state))))
    {
      CloseAsync(roots);
      outcome := CloseAwaited();
    }

    // -------------------------------------------------------------------------
    // Inputs from the resolver and from the controllers
    // -------------------------------------------------------------------------

    /** The resolver saw SERVICE_INSTALLED of controller `id`. */
    method ResolverRegisters(id: nat)
      requires Valid() && id < |installed| && installed[id] !in registry
      modifies this`registry
      ensures Valid()
      ensures registry == old(registry)[installed[id] := id]
    {
      registry := registry[installed[id] := id];
    }

    /** The resolver saw SERVICE_REMOVED and forgets the service. */
    method ResolverUnregisters(name: string)
      requires Valid()
      modifies this`registry
      ensures Valid()
      ensures registry == old(registry) - {name}
    {
      registry := registry - {name};
    }

    /** Controller `id` closed its actor, completing its stop future. */
    method ControllerClosed(id: nat)
      requires Valid() && id < |stopFutures| && stopFutures[id].Pending?
      modifies this`stopFutures
      ensures Valid()
      ensures stopFutures == old(stopFutures)[id := Completed(())]
    {
      stopFutures := stopFutures[id := Completed(())];
    }

    /** The completion callback of removal `k`: the removal future takes over
        the outcome of the controller's stop future, error included. */
    method RemovalCallback(k: nat)
      requires Valid() && k < |removals| && removals[k].controller.Some?
      requires removals[k].result.Pending? && !stopFutures[removals[k].controller.value].Pending?
      modifies this`removals
      ensures Valid()
      ensures removals == old(removals)[k := Removal(old(removals)[k].controller,
                                                     stopFutures[old(removals)[k].controller.value])]
    {
      var r := removals[k];
      removals := removals[k := Removal(r.controller, stopFutures[r.controller.value])];
    }

    /** The callback on the list of root removals: runs once every one has
        completed, closes the actor and completes the close future. */
    method CloseCallback()
      requires Valid() && closeArmed && !actorClosed && AllStopped(closeAwaits)
      modifies this`actorClosed, this`closeFuture
      ensures Valid()
      ensures actorClosed
      ensures closeFuture == if old(closeFuture).Pending? then Completed(()) else old(closeFuture)
    {
      actorClosed := true;
      if closeFuture.Pending? {
        closeFuture := Completed(());
      }
    }
  }

  /** A container that is closed before it was started: its close fails with
      "container is 'NEW'" and leaves it CLOSED with isOpenend still false;
      start() then opens it again, while the corrected start would throw. */
  method ClosedBeforeStart()
    returns (outcome: CloseOutcome, closed: ContainerState, corrected: StartResult,
             error: Option<Exception>, reopened: ContainerState)
    ensures outcome == CloseFailed(IllegalStateException("Cannot close service container, container is 'NEW'."))
    ensures closed == Closed
    ensures corrected.state == Closed && corrected.error == Some(IllegalStateException(AlreadyOpen))
    ensures error.None? && reopened == Open
  {
    var c := new ServiceContainer();
    outcome := c.Close([]);
    closed := c.state;
    corrected := Start(c.state, c.isOpened);
    error := c.StartContainer();
    reopened := c.state;
    assert CloseRejectedMessage(New) == "Cannot close service container, container is 'NEW'.";
  }
}
