# Zeebe service container and engine cores, modelled in Dafny

This project models the core of Zeebe's service container:

- the per-service **controller**, a state machine that goes AwaitDependenciesStarted → AwaitStart → Started → AwaitDependentsStopped → AwaitStop → Removed;
- the **container** that owns the controllers and goes NEW → OPEN → CLOSING → CLOSED.

It also models a set of smaller, self-contained cores of the broker, engine, transport and clients:

- the remote-address index of the transport;
- the json-path query compiler;
- the deployment transformer (duplicate process ids, versions and keys);
- the deployment distributor's partition bookkeeping;
- the topology manager's membership-event handling;
- the msgpack base property;
- broker cluster configuration validation;
- the `Authorization: Bearer <jwt>` header of RFC 6750 section 2.1, on the client and on the gateway;
- boundary-event attachment to an activity;
- the multi-instance activating and activated handlers;
- the pending message-subscription checker;
- the last-event-position scan of the log storage appender;
- the loop-characteristics validator.

Every core is one file and one module:

- `common.dfy` (`Common`): Java's nullable reference as `Option`, thrown exceptions as `Result`/`Exception`, actor futures as `Future`, and decimal rendering of integers.
- `service_controller.dfy` (`Controller`): the controller's state as a value (`ControllerState`) and a transition function for each handler (`Step`, `Apply`, `Run`). Also the class `ServiceController`, whose methods change its fields exactly as those functions say.
  - The lifecycle invariant `Inv` is proved to hold in every reachable state.
  - The service's start and stop behaviour is data: the context calls it makes and whether it throws.
  - The controller's channel is a queue of events. The container's channel is the sequence `published`.
- `service_container.dfy` (`Container`): the class `ServiceContainer`, with the dependency resolver as a map from name to controller and the root services as an input.
- `remote_address_list.dfy` (`Transport`): the class `RemoteAddressList` over a growing `array`.
- `json_path.dfy` (`JsonPath`): the class `JsonPathQueryCompiler` and the pure token visitor `Visit`.
- `deployment_transformer.dfy` (`Deployment`), `deployment_distributor.dfy` (`DeploymentDistribution`), `topology_manager.dfy` (`Topology`): each a class with the source's fields, proved against pure step functions.
- `base_property.dfy` (`Msgpack`), `system_context.dfy` (`SystemConfig`), `jwt_interceptor.dfy` (`Gateway`), `jwt_call_credentials.dfy` (`Client`), `executable_activity.dfy` (`Elements`), `activity_activating_handler.dfy` (`ActivityHandlers`), `element_activated_handler.dfy` (`ElementHandlers`), `pending_subscription_checker.dfy` (`MessageSubscriptions`), `log_storage_appender.dfy` (`LogAppender`), `loop_characteristics_validator.dfy` (`LoopValidation`).

Collaborators that are not part of this model are parameters:

- the JWT verifier, as a function from the token to an optional error;
- the query processor's result tokens;
- the fragment reader of a log block;
- the command sender's acceptance of a command;
- the current partition leaders;
- the root services of the resolver;
- the clock, as a `now` argument.

## Model

| member | source | states |
|---|---|---|
| `Controller.StartContextIsSingleUse` | service-container/src/main/java/io/zeebe/servicecontainer/impl/ServiceController.java:446-483 | A fresh start context accepts one `async` or `run` call. It becomes interruptible exactly for `async(f, true)` and holds an action exactly for `run`. A second call throws "Context is already async". Every call, including `isAsync` and `isInterruptible`, on an invalidated context throws "Service Context is invalid". |
| `Controller.FreshStartCalls` | service-container/src/main/java/io/zeebe/servicecontainer/impl/ServiceController.java:446-483 | On a fresh start context, a call sequence throws nothing exactly when it has at most one call; what it throws is the "already async" IllegalStateException. The context is async exactly when a call was made, and a completion is registered exactly when the first call was `async`. |
| `Controller.FreshStopCalls` | service-container/src/main/java/io/zeebe/servicecontainer/impl/ServiceController.java:506-538 | The same single-use rule for the stop context, which also keeps its `wasInterrupted` flag. |
| `Controller.InjectedShape` | service-container/src/main/java/io/zeebe/servicecontainer/impl/ServiceController.java:245-253 | Injecting the resolved dependencies keeps the injector map's names and the length of each list. Injectors registered under a name no dependency has are untouched. |
| `Controller.InjectedHoldsDependency` | service-container/src/main/java/io/zeebe/servicecontainer/impl/ServiceController.java:245-253 | After injection, every injector registered under a resolved dependency's name holds that dependency's value and name. When a name is resolved twice, the later dependency wins. |
| `Controller.UninjectedClearsAll` | service-container/src/main/java/io/zeebe/servicecontainer/impl/ServiceController.java:368 | Uninjecting clears every injector and keeps the map's names and list lengths. |
| `Controller.Fired` | service-container/src/main/java/io/zeebe/servicecontainer/impl/ServiceController.java:150-155 | Firing an event appends it to the controller's channel and to the container's channel, and changes nothing else. |
| `Controller.StartInvokedSignals` | service-container/src/main/java/io/zeebe/servicecontainer/impl/ServiceController.java:255-271 | Invoking start enters AwaitStart with a valid start context and counts one start. The event that ends the wait is already queued, or a registered completion will fire it. A second context call fires SERVICE_START_FAILED with the context's exception. A start that throws, after at most one context call, fires SERVICE_START_FAILED with what it threw. A start that makes no context call and throws nothing fires SERVICE_STARTED. A start that makes one context call and throws nothing fires nothing and leaves a completion pending. |
| `Controller.StopInvokedSignals` | service-container/src/main/java/io/zeebe/servicecontainer/impl/ServiceController.java:115-139 | invokeStop enters AwaitStop, invalidates the start context and records `wasInterrupted` in the stop context. SERVICE_STOPPED is then fired at once, or is still to come from the completion the stop registered. It is fired at once whenever the stop throws or is synchronous. |
| `Controller.StopWhileStartingShape` | service-container/src/main/java/io/zeebe/servicecontainer/impl/ServiceController.java:287-297 | A stop request during an interruptible start fails the start future with "Service <name> was interrupted" and invokes stop with `wasInterrupted` set. During a non-interruptible start it only sets `stopAfterStarted`. |
| `Controller.InitialSatisfiesInv` | service-container/src/main/java/io/zeebe/servicecontainer/impl/ServiceController.java:69 | A new controller in AwaitDependenciesStarted, with empty injectors, satisfies the lifecycle invariant. |
| `Controller.ApplyPreservesInv` | service-container/src/main/java/io/zeebe/servicecontainer/impl/ServiceController.java:102-109 | Every input keeps the lifecycle invariant: an event from the resolver, a start or stop completion, `remove()`, or the next event taken from the channel. |
| `Controller.DeliveredPreservesInv` | service-container/src/main/java/io/zeebe/servicecontainer/impl/ServiceController.java:102-105 | An event added to the channel from outside keeps the invariant. |
| `Controller.StartCompletedPreservesInv` | service-container/src/main/java/io/zeebe/servicecontainer/impl/ServiceController.java:485-492 | The start context's completion callback keeps the invariant. |
| `Controller.StopCompletedPreservesInv` | service-container/src/main/java/io/zeebe/servicecontainer/impl/ServiceController.java:540-543 | The stop context's completion callback keeps the invariant. |
| `Controller.RemovePreservesInv` | service-container/src/main/java/io/zeebe/servicecontainer/impl/ServiceController.java:161-168 | `remove()` keeps the invariant. |
| `Controller.StepPreservesInv` | service-container/src/main/java/io/zeebe/servicecontainer/impl/ServiceController.java:102-109 | Handling the next queued event keeps the invariant. |
| `Controller.AwaitDependenciesStartedKeepsInv` | service-container/src/main/java/io/zeebe/servicecontainer/impl/ServiceController.java:208-272 | The AwaitDependenciesStarted handler keeps the invariant. |
| `Controller.AwaitStartKeepsInv` | service-container/src/main/java/io/zeebe/servicecontainer/impl/ServiceController.java:275-325 | The AwaitStart handler keeps the invariant. |
| `Controller.StartedKeepsInv` | service-container/src/main/java/io/zeebe/servicecontainer/impl/ServiceController.java:327-353 | The Started handler keeps the invariant. |
| `Controller.AwaitDependentsStoppedKeepsInv` | service-container/src/main/java/io/zeebe/servicecontainer/impl/ServiceController.java:355-362 | The AwaitDependentsStopped handler keeps the invariant. |
| `Controller.AwaitStopKeepsInv` | service-container/src/main/java/io/zeebe/servicecontainer/impl/ServiceController.java:364-374 | The AwaitStop handler keeps the invariant. |
| `Controller.RunPreservesInv` | service-container/src/main/java/io/zeebe/servicecontainer/impl/ServiceController.java:102-109 | Over any sequence of inputs the invariant holds. In particular, start and stop are each invoked at most once. |
| `Controller.StepFollowsEdge` | service-container/src/main/java/io/zeebe/servicecontainer/impl/ServiceController.java:208-383 | Each handled event moves along one of the lifecycle's edges. The phase never goes back, the counters never decrease, the container's channel only grows, and Removed is final. |
| `Controller.ApplyFollowsEdge` | service-container/src/main/java/io/zeebe/servicecontainer/impl/ServiceController.java:102-109 | The same holds for every input. |
| `Controller.RunNeverGoesBack` | service-container/src/main/java/io/zeebe/servicecontainer/impl/ServiceController.java:69 | The same holds for any input sequence. |
| `Controller.AtMostOnce` | service-container/src/main/java/io/zeebe/servicecontainer/impl/ServiceController.java:230-238 | From installation on, start and stop are each invoked at most once. A service removed before its dependencies became available is never started later, and its injectors never receive a value. |
| `Controller.DependenciesAvailableStarts` | service-container/src/main/java/io/zeebe/servicecontainer/impl/ServiceController.java:240-272 | DEPENDENCIES_AVAILABLE records the resolved dependencies, injects each into the injectors under its name, and invokes start once, entering AwaitStart. |
| `Controller.StoppedAfterStarted` | service-container/src/main/java/io/zeebe/servicecontainer/impl/ServiceController.java:306-317 | A stop requested during a non-interruptible start lets the start finish. SERVICE_STARTED then fails the start future with "Could not start service <name> removed while starting" and invokes stop, not interrupted. |
| `Controller.StartFailureSkipsStop` | service-container/src/main/java/io/zeebe/servicecontainer/impl/ServiceController.java:319-324 | SERVICE_START_FAILED fails the start future with the cause and enters AwaitStop without calling the service's stop. SERVICE_STOPPED is queued. |
| `Controller.ServiceController.constructor` | service-container/src/main/java/io/zeebe/servicecontainer/impl/ServiceController.java:71-83 | A new controller is in its initial state, with the builder's injectors. |
| `Controller.ServiceController.Remove` | service-container/src/main/java/io/zeebe/servicecontainer/impl/ServiceController.java:161-168 | `remove()` fires SERVICE_STOPPING and returns the stop future. |
| `Controller.ServiceController.OnStartCompletion` | service-container/src/main/java/io/zeebe/servicecontainer/impl/ServiceController.java:485-492 | A completed async start fires SERVICE_STARTED; a failed one fires SERVICE_START_FAILED with the error. |
| `Controller.ServiceController.OnStopCompletion` | service-container/src/main/java/io/zeebe/servicecontainer/impl/ServiceController.java:540-543 | A completed async stop fires SERVICE_STOPPED. |
| `Controller.ServiceController.OnServiceEvent` | service-container/src/main/java/io/zeebe/servicecontainer/impl/ServiceController.java:102-109 | Takes one event from the channel and hands it to the current state's handler, as `Step`. The invariant is kept. |
| `Controller.ServiceController.AcceptEvent` | service-container/src/main/java/io/zeebe/servicecontainer/impl/ServiceController.java:208-383 | Dispatches an event to the handler of the current state, as `Accept`. |
| `Controller.ServiceController.FireEvent` | service-container/src/main/java/io/zeebe/servicecontainer/impl/ServiceController.java:150-155 | Appends the event to both channels. |
| `Controller.ServiceController.AcceptAwaitingDependencies` | service-container/src/main/java/io/zeebe/servicecontainer/impl/ServiceController.java:210-238 | The AwaitDependenciesStarted handler. DEPENDENCIES_UNAVAILABLE or SERVICE_STOPPING enters Removed and fires SERVICE_REMOVED. Other events are ignored. |
| `Controller.ServiceController.InjectDependencies` | service-container/src/main/java/io/zeebe/servicecontainer/impl/ServiceController.java:245-253 | The two injection loops leave the injectors as `Injected` of the resolved dependencies. |
| `Controller.ServiceController.InvokeStart` | service-container/src/main/java/io/zeebe/servicecontainer/impl/ServiceController.java:255-271 | Creates the start context, runs the service's start calls and reports the outcome, as `StartInvoked`. |
| `Controller.ServiceController.ReportStart` | service-container/src/main/java/io/zeebe/servicecontainer/impl/ServiceController.java:262-271 | Fires SERVICE_STARTED for a synchronous start and SERVICE_START_FAILED for a thrown exception. For an async start it fires nothing and leaves the completion pending. |
| `Controller.ServiceController.InvokeStop` | service-container/src/main/java/io/zeebe/servicecontainer/impl/ServiceController.java:115-139 | Invalidates the start context, creates the stop context, runs the service's stop calls and reports the outcome, as `StopInvoked`. |
| `Controller.ServiceController.ReportStop` | service-container/src/main/java/io/zeebe/servicecontainer/impl/ServiceController.java:128-138 | Fires SERVICE_STOPPED unless the stop is async and threw nothing. |
| `Controller.ServiceController.AcceptAwaitingStart` | service-container/src/main/java/io/zeebe/servicecontainer/impl/ServiceController.java:279-324 | The AwaitStart handler, as `InAwaitStart`. |
| `Controller.ServiceController.StopRequestedWhileStarting` | service-container/src/main/java/io/zeebe/servicecontainer/impl/ServiceController.java:287-297 | An interruptible start is interrupted; otherwise `stopAfterStarted` is set. |
| `Controller.ServiceController.AcceptStarted` | service-container/src/main/java/io/zeebe/servicecontainer/impl/ServiceController.java:329-352 | DEPENDENCIES_UNAVAILABLE fires SERVICE_STOPPING. It and SERVICE_STOPPING both enter AwaitDependentsStopped. |
| `Controller.ServiceController.UninjectAll` | service-container/src/main/java/io/zeebe/servicecontainer/impl/ServiceController.java:368 | The uninject loop clears every injector. |
| `Container.Start` | service-container/src/main/java/io/zeebe/servicecontainer/impl/ServiceContainerImpl.java:46-54 | Corrected start: only a NEW, never-opened container opens. Anything else throws "Cannot start service container, is already open." and changes nothing. The state never goes back. |
| `Container.StartAgreesUnlessClosedBeforeStart` | service-container/src/main/java/io/zeebe/servicecontainer/impl/ServiceContainerImpl.java:46-54 | The corrected start and start as written agree on every container except one closed before it was started. |
| `Container.StartAsWrittenReopensClosed` | service-container/src/main/java/io/zeebe/servicecontainer/impl/ServiceContainerImpl.java:260-265 | Start as written opens a CLOSED container that was never started, moving its state back from CLOSED to OPEN. |
| `Container.InstallDecision` | service-container/src/main/java/io/zeebe/servicecontainer/impl/ServiceContainerImpl.java:207-228 | A controller is submitted exactly when the container is OPEN and the name is free. Otherwise the install future fails with the state or the duplicate-name message. |
| `Container.RemoveDecisionFor` | service-container/src/main/java/io/zeebe/servicecontainer/impl/ServiceContainerImpl.java:77-97 | In OPEN or CLOSING, a known name follows its controller's stop future and an unknown name completes at once. In NEW or CLOSED the removal fails with "Cannot remove service, container is '<state>'." |
| `Container.RootIds` | service-container/src/main/java/io/zeebe/servicecontainer/impl/ServiceContainerImpl.java:150-152 | The controllers of the root services, one per root in the resolver's order. |
| `Container.ServiceContainer.constructor` | service-container/src/main/java/io/zeebe/servicecontainer/impl/ServiceContainerImpl.java:41-43 | A new container is NEW, not yet opened, and has no services. |
| `Container.ServiceContainer.StartContainer` | service-container/src/main/java/io/zeebe/servicecontainer/impl/ServiceContainerImpl.java:46-54 | start() as written: the compare-and-set on `isOpenend` decides, whatever the state. A container never opened becomes OPEN and its actor is submitted, even when it is CLOSED. Any later call throws "Cannot start service container, is already open." and changes nothing. |
| `Container.ServiceContainer.HasServiceCall` | service-container/src/main/java/io/zeebe/servicecontainer/impl/ServiceContainerImpl.java:199-201 | hasService is true exactly when the resolver holds a controller of that name. |
| `Container.ServiceContainer.OnServiceBuilt` | service-container/src/main/java/io/zeebe/servicecontainer/impl/ServiceContainerImpl.java:203-246 | Submits a controller, or fails the install future, as `InstallDecision` says. |
| `Container.ServiceContainer.RemoveService` | service-container/src/main/java/io/zeebe/servicecontainer/impl/ServiceContainerImpl.java:72-109 | Creates one removal future, decided as `RemoveDecisionFor` says. A followed stop future's result, including its error, is passed through later. |
| `Container.ServiceContainer.CloseAsync` | service-container/src/main/java/io/zeebe/servicecontainer/impl/ServiceContainerImpl.java:142-177 | From OPEN it enters CLOSING, calls remove() on every root service in order, and completes the close future only once all their stop futures are complete. From any other state the close future fails with "Cannot close service container, container is '<state>'." |
| `Container.ServiceContainer.RootRemovals` | service-container/src/main/java/io/zeebe/servicecontainer/impl/ServiceContainerImpl.java:150-161 | The forEach over the root services calls remove() on each, in order. |
| `Container.ServiceContainer.CloseAwaited` | service-container/src/main/java/io/zeebe/servicecontainer/impl/ServiceContainerImpl.java:116-138 | The wait of close(timeout) ends closed in time, timed out, or failed with the close future's error. Either way the container ends CLOSED. |
| `Container.ServiceContainer.Close` | service-container/src/main/java/io/zeebe/servicecontainer/impl/ServiceContainerImpl.java:112-139 | close(timeout) always leaves the container CLOSED, and reports how the wait ended. |
| `Container.ServiceContainer.ControllerClosed` | service-container/src/main/java/io/zeebe/servicecontainer/impl/ServiceController.java:98-100 | A controller that closes its actor completes its stop future. |
| `Container.ServiceContainer.RemovalCallback` | service-container/src/main/java/io/zeebe/servicecontainer/impl/ServiceContainerImpl.java:81-89 | A removal that follows a stop future completes with that future's result or error. |
| `Container.ServiceContainer.CloseCallback` | service-container/src/main/java/io/zeebe/servicecontainer/impl/ServiceContainerImpl.java:163-168 | Once every root removal has completed, the actor is closed and the close future completes. |
| `Container.ClosedBeforeStart` | service-container/src/main/java/io/zeebe/servicecontainer/impl/ServiceContainerImpl.java:169-173 | Closing a NEW container fails with "Cannot close service container, container is 'NEW'." and leaves it CLOSED. start() then opens it without an error, while the corrected start would throw and keep it CLOSED. |
| `Transport.FirstMatch` | transport/src/main/java/io/zeebe/transport/impl/RemoteAddressListImpl.java:109-125 | The index of the first entry, in index order, whose address matches and whose state is in the mask, or none if no entry matches. |
| `Transport.FirstMatchIsUnique` | transport/src/main/java/io/zeebe/transport/impl/RemoteAddressListImpl.java:113-122 | An entry that matches with no earlier match is the one the search returns. |
| `Transport.SecondSearchFindsInactive` | transport/src/main/java/io/zeebe/transport/impl/RemoteAddressListImpl.java:76-79 | When no ACTIVE entry matches but an ACTIVE or INACTIVE one does, that entry is INACTIVE. |
| `Transport.StreamIdsKept` | transport/src/main/java/io/zeebe/transport/impl/RemoteAddressListImpl.java:85-90 | Appending an entry with the previous size as stream id, or changing an entry's state, keeps every entry's stream id equal to its index. |
| `Transport.RemoteAddressList.constructor` | transport/src/main/java/io/zeebe/transport/impl/RemoteAddressListImpl.java:17-18 | The index starts empty. |
| `Transport.RemoteAddressList.GetByStreamId` | transport/src/main/java/io/zeebe/transport/impl/RemoteAddressListImpl.java:22-29 | Returns `index[id]` exactly when `id < size`, and that entry's stream id is `id`. |
| `Transport.RemoteAddressList.GetByAddressIn` | transport/src/main/java/io/zeebe/transport/impl/RemoteAddressListImpl.java:109-125 | The linear search returns `FirstMatch`. |
| `Transport.RemoteAddressList.GetByAddress` | transport/src/main/java/io/zeebe/transport/impl/RemoteAddressListImpl.java:37-40 | The first ACTIVE entry for the address. |
| `Transport.RemoteAddressList.Retire` | transport/src/main/java/io/zeebe/transport/impl/RemoteAddressListImpl.java:47-50 | Retires the entry of that stream id and changes nothing else. An unknown stream id changes nothing. |
| `Transport.RemoteAddressList.Deactivate` | transport/src/main/java/io/zeebe/transport/impl/RemoteAddressListImpl.java:58-61 | Deactivates the entry of that stream id and changes nothing else. An unknown stream id changes nothing. |
| `Transport.RemoteAddressList.DeactivateAll` | transport/src/main/java/io/zeebe/transport/impl/RemoteAddressListImpl.java:63-68 | Every entry in 0..size-1 becomes INACTIVE, with its stream id and address kept. |
| `Transport.RemoteAddressList.Register` | transport/src/main/java/io/zeebe/transport/impl/RemoteAddressListImpl.java:70-107 | An address with an ACTIVE entry gets that entry and nothing changes. An INACTIVE entry is reactivated with its stream id kept. Otherwise an entry is appended with the previous size as stream id, and all earlier entries are kept. The added-consumer runs exactly in the last two cases. |
| `Transport.RemoteAddressList.Append` | transport/src/main/java/io/zeebe/transport/impl/RemoteAddressListImpl.java:81-95 | The array is copied into one of size + 1, with the new entry at the previous size. |
| `JsonPath.FilterId` | json-path/src/main/java/io/zeebe/msgpack/jsonpath/JsonPathQueryCompiler.java:22-33 | Filter ids are below 4. |
| `JsonPath.Significant` | json-path/src/main/java/io/zeebe/msgpack/jsonpath/JsonPathQueryCompiler.java:76-78 | The tokens that are not START_INPUT or END_INPUT, which are ignored in both modes. |
| `JsonPath.AcceptedStep` | json-path/src/main/java/io/zeebe/msgpack/jsonpath/JsonPathQueryCompiler.java:71-101 | A token that fits the mode keeps the valid shape. A literal in LITERAL mode appends a MAP_VALUE filter keyed by it, becomes the variable name if it is the first, and switches to OPERATOR. A CHILD_OPERATOR in OPERATOR mode switches back to LITERAL. |
| `JsonPath.RejectedStep` | json-path/src/main/java/io/zeebe/msgpack/jsonpath/JsonPathQueryCompiler.java:79-80 | A misplaced token invalidates the query at its offset with "Unexpected json-path token <type>". |
| `JsonPath.RejectedStaysRejected` | json-path/src/main/java/io/zeebe/msgpack/jsonpath/JsonPathQueryCompiler.java:66-69 | Once invalid, the query keeps its first error whatever tokens follow. |
| `JsonPath.CompiledShape` | json-path/src/main/java/io/zeebe/msgpack/jsonpath/JsonPathQueryCompiler.java:45-61 | Compiling gives one of two shapes. When literals and child operators alternate, starting with a literal, the query is valid: ROOT_COLLECTION then one MAP_VALUE filter per literal, with the first literal as variable name, in a mode fixed by the parity. Otherwise it is invalidated at the first misplaced token. |
| `JsonPath.CompiledFilterIds` | json-path/src/main/java/io/zeebe/msgpack/jsonpath/JsonPathQueryCompiler.java:22-33 | A compiled valid query holds only filter ids 0 and 1: ROOT_COLLECTION first, then MAP_VALUE filters. |
| `JsonPath.FiltersBeforeInvalidation` | json-path/src/main/java/io/zeebe/msgpack/jsonpath/JsonPathQueryCompiler.java:95-96 | Even an invalid query holds only ROOT_COLLECTION followed by MAP_VALUE filters. |
| `JsonPath.InvalidStaysInvalid` | json-path/src/main/java/io/zeebe/msgpack/jsonpath/JsonPathQueryCompiler.java:66-69 | Tokens after the query became invalid change neither the query nor the mode. |
| `JsonPath.DottedPathExample` | json-path/src/main/java/io/zeebe/msgpack/jsonpath/JsonPathQueryCompiler.java:83-107 | `foo.bar` compiles to ROOT_COLLECTION, MAP_VALUE foo, MAP_VALUE bar, with variable name foo. |
| `JsonPath.JsonPathQueryCompiler.constructor` | json-path/src/main/java/io/zeebe/msgpack/jsonpath/JsonPathQueryCompiler.java:35-38 | No query is being compiled. |
| `JsonPath.JsonPathQueryCompiler.VisitToken` | json-path/src/main/java/io/zeebe/msgpack/jsonpath/JsonPathQueryCompiler.java:63-109 | visit updates the mode and the current query as `Visit` says. |
| `JsonPath.JsonPathQueryCompiler.Compile` | json-path/src/main/java/io/zeebe/msgpack/jsonpath/JsonPathQueryCompiler.java:45-61 | The loop over the tokens yields `Compiled(tokens)` and clears the current query. |
| `Deployment.Ids` | engine/src/main/java/io/zeebe/engine/processor/workflow/deployment/transform/DeploymentTransformer.java:125-126 | The ids of a resource's processes, in order. |
| `Deployment.DupCheckNoneIff` | engine/src/main/java/io/zeebe/engine/processor/workflow/deployment/transform/DeploymentTransformer.java:121-136 | checkForDuplicateBpmnId finds no duplicate exactly when the resource's process ids are pairwise distinct and none was seen in an earlier resource. |
| `Deployment.DupCheckMap` | engine/src/main/java/io/zeebe/engine/processor/workflow/deployment/transform/DeploymentTransformer.java:121-136 | On success every process id maps to the current resource and the earlier entries are kept. On a duplicate the message is "Duplicated process id in resources '<earlier>' and '<current>'". |
| `Deployment.DeployProcess` | engine/src/main/java/io/zeebe/engine/processor/workflow/deployment/transform/DeploymentTransformer.java:145-173 | If digest and resource name equal the latest version's, the key and version are reused and the store is unchanged. Otherwise the next key and the next version are taken and the digest is stored. |
| `Deployment.Origins` | engine/src/main/java/io/zeebe/engine/processor/workflow/deployment/transform/DeploymentTransformer.java:167-173 | The process id and resource name of each workflow entry. |
| `Deployment.DeployAllOrigins` | engine/src/main/java/io/zeebe/engine/processor/workflow/deployment/transform/DeploymentTransformer.java:145-146 | Exactly the executable processes of a resource get an entry, in order, under the resource's name. |
| `Deployment.DistinctAppend` | engine/src/main/java/io/zeebe/engine/processor/workflow/deployment/transform/DeploymentTransformer.java:121-136 | Ids of two resources are distinct together exactly when each part is distinct and no id occurs in both. |
| `Deployment.ResourceStepMeaning` | engine/src/main/java/io/zeebe/engine/processor/workflow/deployment/transform/DeploymentTransformer.java:91-119 | One resource fails exactly when it is unreadable, invalid, or repeats a process id. Its error is appended as "'<resource>': <message>" or as the duplicate message. |
| `Deployment.FreshIdsSplit` | engine/src/main/java/io/zeebe/engine/processor/workflow/deployment/transform/DeploymentTransformer.java:121-136 | Freshness of a deployment's ids splits into freshness of the first resource's ids and of the rest, the rest checked against the grown map. |
| `Deployment.FreshIdsPrefix` | engine/src/main/java/io/zeebe/engine/processor/workflow/deployment/transform/DeploymentTransformer.java:121-136 | Freshness of a deployment's ids implies it for its first resource. |
| `Deployment.TransformAllSucceedsIff` | engine/src/main/java/io/zeebe/engine/processor/workflow/deployment/transform/DeploymentTransformer.java:75-78 | The loop over every resource succeeds exactly when all resources are readable and valid and no process id is repeated among them or was seen before. |
| `Deployment.NeverRecovers` | engine/src/main/java/io/zeebe/engine/processor/workflow/deployment/transform/DeploymentTransformer.java:77 | Once a resource failed, the result stays false: `&=` never resets it. |
| `Deployment.ErrorsIffFailure` | engine/src/main/java/io/zeebe/engine/processor/workflow/deployment/transform/DeploymentTransformer.java:75-78 | Errors are only appended, and the errors stay as they were exactly when the result stays true. |
| `Deployment.SuccessfulEntries` | engine/src/main/java/io/zeebe/engine/processor/workflow/deployment/transform/DeploymentTransformer.java:145-173 | A successful loop adds one entry per executable process of its resources, in order. |
| `Deployment.TransformMeaning` | engine/src/main/java/io/zeebe/engine/processor/workflow/deployment/transform/DeploymentTransformer.java:63-89 | For a non-empty deployment, the transform succeeds exactly when all resources are well-formed with distinct process ids; it succeeds exactly when no error was collected; and on success its entries are those of the executable processes. |
| `Deployment.DuplicateAcrossResources` | engine/src/main/java/io/zeebe/engine/processor/workflow/deployment/transform/DeploymentTransformer.java:121-136 | Two resources declaring the same process id fail with "Duplicated process id in resources 'a' and 'b'", keeping the first resource's entry. |
| `Deployment.DeploymentTransformer.constructor` | engine/src/main/java/io/zeebe/engine/processor/workflow/deployment/transform/DeploymentTransformer.java:52-61 | The transformer reads the latest workflows and the key and version store. |
| `Deployment.DeploymentTransformer.Transform` | engine/src/main/java/io/zeebe/engine/processor/workflow/deployment/transform/DeploymentTransformer.java:63-89 | An empty deployment is rejected with INVALID_ARGUMENT and "Expected to deploy at least one resource, but none given". Otherwise all resources are processed. On failure the rejection reason is the fixed prefix followed by the collected errors; on success the rejection is left as it was. |
| `Deployment.DeploymentTransformer.TransformResource` | engine/src/main/java/io/zeebe/engine/processor/workflow/deployment/transform/DeploymentTransformer.java:91-119 | One resource as `ResourceStep`. |
| `Deployment.DeploymentTransformer.CheckForDuplicateBpmnId` | engine/src/main/java/io/zeebe/engine/processor/workflow/deployment/transform/DeploymentTransformer.java:121-136 | The loop over the processes as `DupCheck`. |
| `Deployment.DeploymentTransformer.TransformWorkflowResource` | engine/src/main/java/io/zeebe/engine/processor/workflow/deployment/transform/DeploymentTransformer.java:138-178 | The loop over the processes appends the entries of `DeployAll`. |
| `Deployment.DeploymentTransformer.DeployOne` | engine/src/main/java/io/zeebe/engine/processor/workflow/deployment/transform/DeploymentTransformer.java:146-173 | One executable process as `DeployProcess`. |
| `DeploymentDistribution.RemoveInt` | broker-core/src/main/java/io/zeebe/broker/engine/impl/DeploymentDistributorImpl.java:79 | `removeInt` leaves a list without the value unchanged. Otherwise the list is one shorter and its multiset loses exactly one copy of the value. |
| `DeploymentDistribution.RemoveIntFirstOccurrence` | broker-core/src/main/java/io/zeebe/broker/engine/impl/DeploymentDistributorImpl.java:79 | The occurrence dropped is the first: the result is what precedes it followed by what follows it, in their original order. |
| `DeploymentDistribution.TargetPartitions` | broker-core/src/main/java/io/zeebe/broker/engine/impl/DeploymentDistributorImpl.java:75-82 | The target partitions are exactly the configured partitions other than the deployment partition. |
| `DeploymentDistribution.PassSplitsPartitions` | broker-core/src/main/java/io/zeebe/broker/engine/impl/DeploymentDistributorImpl.java:160-174 | One pass pushes to every partition with a known leader and keeps the others in their original order. Pushed and kept together are all the partitions. |
| `DeploymentDistribution.DeploymentResponseTopic` | broker-core/src/main/java/io/zeebe/broker/engine/impl/DeploymentDistributorImpl.java:311-313 | The topic is "deployment-response-<key>". |
| `DeploymentDistribution.TopicsDistinct` | broker-core/src/main/java/io/zeebe/broker/engine/impl/DeploymentDistributorImpl.java:311-313 | Distinct deployment keys have distinct response topics. |
| `DeploymentDistribution.DeploymentDistributor.constructor` | broker-core/src/main/java/io/zeebe/broker/engine/impl/DeploymentDistributorImpl.java:62-73 | The distributor's targets are the partitions minus the deployment partition, and nothing is pending. |
| `DeploymentDistribution.DeploymentDistributor.PushDeployment` | broker-core/src/main/java/io/zeebe/broker/engine/impl/DeploymentDistributorImpl.java:84-110 | The deployment is stored as pending, with a count equal to the number of targets. With no targets its future completes at once; otherwise a first pass pushes to every target with a leader. |
| `DeploymentDistribution.DeploymentDistributor.DistributeDeploymentToPartitions` | broker-core/src/main/java/io/zeebe/broker/engine/impl/DeploymentDistributorImpl.java:160-174 | The iterator loop pushes and removes exactly the partitions with a leader. |
| `DeploymentDistribution.DeploymentDistributor.HandlePushResponse` | broker-core/src/main/java/io/zeebe/broker/engine/impl/DeploymentDistributorImpl.java:284-309 | A response for a pending deployment decrements its count and returns true. At 0 its future completes and is removed. A response for an unknown key changes nothing and returns false. |
| `DeploymentDistribution.DeploymentDistributor.GetPartitionResponses` | broker-core/src/main/java/io/zeebe/broker/engine/impl/DeploymentDistributorImpl.java:315-323 | The missing responses of a topic, created as all target partitions on first use. |
| `DeploymentDistribution.DeploymentDistributor.StrikeResponse` | broker-core/src/main/java/io/zeebe/broker/engine/impl/DeploymentDistributorImpl.java:253-254 | The topic's missing responses, created as all targets on first use, lose the partition once. Every other topic is unchanged. |
| `DeploymentDistribution.DeploymentDistributor.HandleResponse` | broker-core/src/main/java/io/zeebe/broker/engine/impl/DeploymentDistributorImpl.java:247-265 | Error and unknown responses, and push responses for a key that is not pending, change nothing. A push response for a pending key decrements its count. At 0 the key's future completes and is forgotten. Unless that future is missing (the NullPointerException), the partition is struck from the topic's missing responses and no other topic changes. |
| `DeploymentDistribution.DeploymentDistributor.RemovePendingDeployment` | broker-core/src/main/java/io/zeebe/broker/engine/impl/DeploymentDistributorImpl.java:99-101 | Removes and returns the pending deployment of the key, if any. |
| `DeploymentDistribution.AllTargetsRespond` | broker-core/src/main/java/io/zeebe/broker/engine/impl/DeploymentDistributorImpl.java:284-302 | When every target answers, the push future completes and the count reaches 0. |
| `Topology.ReadBrokerInfo` | broker-core/src/main/java/io/zeebe/broker/clustering/base/topology/TopologyManagerImpl.java:167-177 | Broker info is kept exactly when it decodes and passes the static-configuration check. |
| `Topology.Updates` | broker-core/src/main/java/io/zeebe/broker/clustering/base/topology/TopologyManagerImpl.java:156-164 | One partition update per consumed partition role, in order. |
| `Topology.UpdateNotes` | broker-core/src/main/java/io/zeebe/broker/clustering/base/topology/TopologyManagerImpl.java:156-164 | One partition notification per consumed partition role, in order. |
| `Topology.AddedStep` | broker-core/src/main/java/io/zeebe/broker/clustering/base/topology/TopologyManagerImpl.java:136-150 | A broker with a command-API address and an unknown node id is added, and listeners are told. Otherwise nothing changes. |
| `Topology.MetadataStep` | broker-core/src/main/java/io/zeebe/broker/clustering/base/topology/TopologyManagerImpl.java:153-165 | The members stay, and each partition role of the broker becomes an update and a notification. |
| `Topology.RemovedStep` | broker-core/src/main/java/io/zeebe/broker/clustering/base/topology/TopologyManagerImpl.java:127-133 | A known member is removed and listeners are told. An unknown one changes nothing. |
| `Topology.EventKeepsMembersValid` | broker-core/src/main/java/io/zeebe/broker/clustering/base/topology/TopologyManagerImpl.java:91-124 | Every member passes the static-configuration check and is not the local node, and every event keeps that. |
| `Topology.IgnoredEvents` | broker-core/src/main/java/io/zeebe/broker/clustering/base/topology/TopologyManagerImpl.java:101 | Events without valid broker info, or from the local node, change nothing. |
| `Topology.AddThenRemove` | broker-core/src/main/java/io/zeebe/broker/clustering/base/topology/TopologyManagerImpl.java:104-116 | MEMBER_ADDED then MEMBER_REMOVED for a new valid broker leaves the members as they were, and listeners saw it come and go. |
| `Topology.AcceptedConfigsAgree` | broker-core/src/main/java/io/zeebe/broker/clustering/base/topology/TopologyManagerImpl.java:180-186 | A remote broker whose configuration passes broker validation, and whose static configuration equals the local one, passes the static check. |
| `Topology.Roles` | broker-core/src/main/java/io/zeebe/broker/clustering/base/topology/TopologyManagerImpl.java:200-206 | Each partition paired with the role. |
| `Topology.LocalRolesExact` | broker-core/src/main/java/io/zeebe/broker/clustering/base/topology/TopologyManagerImpl.java:196-209 | The published broker info lists a partition as leader exactly when it is a local leader, and as follower exactly when it is a local follower. |
| `Topology.TopologyManager.constructor` | broker-core/src/main/java/io/zeebe/broker/clustering/base/topology/TopologyManagerImpl.java:39-59 | The topology starts empty and the local broker info is published at once. |
| `Topology.TopologyManager.Event` | broker-core/src/main/java/io/zeebe/broker/clustering/base/topology/TopologyManagerImpl.java:91-124 | event dispatches as `OnEvent`: MEMBER_ADDED runs add then the metadata update; METADATA_CHANGED only the update; MEMBER_REMOVED the removal; others nothing. |
| `Topology.TopologyManager.OnMemberRemoved` | broker-core/src/main/java/io/zeebe/broker/clustering/base/topology/TopologyManagerImpl.java:127-133 | As `RemovedStep`. |
| `Topology.TopologyManager.OnMemberAdded` | broker-core/src/main/java/io/zeebe/broker/clustering/base/topology/TopologyManagerImpl.java:136-150 | As `AddedStep`. |
| `Topology.TopologyManager.OnMetadataChanged` | broker-core/src/main/java/io/zeebe/broker/clustering/base/topology/TopologyManagerImpl.java:153-165 | The consumer loop leaves the topology as `MetadataStep`. |
| `Topology.TopologyManager.CreateLocalNodeBrokerInfo` | broker-core/src/main/java/io/zeebe/broker/clustering/base/topology/TopologyManagerImpl.java:196-209 | The partitions are cleared, then filled with the local leaders, then the local followers. |
| `Topology.TopologyManager.PublishTopologyChanges` | broker-core/src/main/java/io/zeebe/broker/clustering/base/topology/TopologyManagerImpl.java:189-193 | The fresh local broker info is written into the member properties. |
| `Msgpack.BaseProperty.constructor` | msgpack-value/src/main/java/io/zeebe/msgpack/property/BaseProperty.java:32-39 | A new property is not set. |
| `Msgpack.BaseProperty.Set` | msgpack-value/src/main/java/io/zeebe/msgpack/property/BaseProperty.java:41-43 | `set()` marks the property set. |
| `Msgpack.BaseProperty.Reset` | msgpack-value/src/main/java/io/zeebe/msgpack/property/BaseProperty.java:45-49 | `reset()` clears the flag and resets the value. |
| `Msgpack.BaseProperty.Read` | msgpack-value/src/main/java/io/zeebe/msgpack/property/BaseProperty.java:74-77 | `read()` stores the value read and marks the property set. |
| `Msgpack.BaseProperty.ResolveValue` | msgpack-value/src/main/java/io/zeebe/msgpack/property/BaseProperty.java:59-68 | The value if set, else the default, else a MsgpackPropertyException carrying the key and the "has nothing" message. It resolves exactly when `hasValue()` holds. |
| `Msgpack.BaseProperty.Write` | msgpack-value/src/main/java/io/zeebe/msgpack/property/BaseProperty.java:79-92 | Writes the key then the resolved value. It throws a MsgpackPropertyException with the key and the "before writing" message exactly when there is nothing to resolve. |
| `Msgpack.BaseProperty.EncodedLength` | msgpack-value/src/main/java/io/zeebe/msgpack/property/BaseProperty.java:70-72 | The key's encoded length plus the written value's. It throws when nothing resolves. |
| `Msgpack.BaseProperty.Equals` | msgpack-value/src/main/java/io/zeebe/msgpack/property/BaseProperty.java:109-122 | The same object is equal. Otherwise differing keys give false without resolving either value. For equal keys the properties are equal exactly when the resolved values are equal, and the exception of the first resolve that fails propagates. |
| `Msgpack.ResetFallsBackToDefault` | msgpack-value/src/main/java/io/zeebe/msgpack/property/BaseProperty.java:45-68 | After read then reset, a property with a default resolves to the default, and one without resolves to nothing. |
| `Msgpack.EqualPropertiesHashApart` | msgpack-value/src/main/java/io/zeebe/msgpack/property/BaseProperty.java:104-107 | hashCode as written: two properties that equals calls equal get different hash inputs. |
| `Msgpack.EqualPropertiesHashAlike` | msgpack-value/src/main/java/io/zeebe/msgpack/property/BaseProperty.java:109-122 | With key and resolved value as hash inputs, equal properties hash alike. |
| `SystemConfig.Validate` | broker-core/src/main/java/io/zeebe/broker/system/SystemContext.java:97-116 | A configuration is accepted exactly when partitions ≥ 1, 0 ≤ node id < cluster size and 1 ≤ replication factor ≤ cluster size. The checks run in that order, each with its IllegalArgumentException message. |
| `Gateway.EncodedJwt` | gateway/src/main/java/io/zeebe/gateway/JwtInterceptor.java:64 | The token is the header with the "Bearer " prefix removed: prefix plus token gives the header back. |
| `Gateway.InterceptCall` | gateway/src/main/java/io/zeebe/gateway/JwtInterceptor.java:43-96 | A missing or empty header, a header without "Bearer ", or a failed verification closes the call UNAUTHENTICATED without calling `next`. The call is started exactly when the stripped token verifies. |
| `Client.NewCredentials` | clients/java/src/main/java/io/zeebe/client/impl/JwtCallCredentials.java:32-38 | The only header is "Authorization", holding "Bearer " + jwt. |
| `Client.ApplyRequestMetadata` | clients/java/src/main/java/io/zeebe/client/impl/JwtCallCredentials.java:41-50 | The headers are applied exactly at PRIVACY_AND_INTEGRITY; any other level fails UNAUTHENTICATED. |
| `Client.HeaderRoundTrip` | clients/java/src/main/java/io/zeebe/client/impl/JwtCallCredentials.java:37 | The client's header passes the gateway's prefix check, stripping it gives the jwt back, and the call is started exactly when that jwt verifies. |
| `LoopValidation.Validate` | bpmn-model/src/main/java/io/zeebe/model/bpmn/validation/zeebe/ZeebeLoopCharacteristicsValidator.java:31-41 | One error with code 0, naming the input-collection attribute, is added exactly when the input collection is missing or empty. Earlier errors are kept. |
| `LoopValidation.InputElementIgnored` | bpmn-model/src/main/java/io/zeebe/model/bpmn/validation/zeebe/ZeebeLoopCharacteristicsValidator.java:34 | The input element does not affect validation. |
| `LoopValidation.PresentCollectionAccepted` | bpmn-model/src/main/java/io/zeebe/model/bpmn/validation/zeebe/ZeebeLoopCharacteristicsValidator.java:36 | A non-empty input collection yields no error. |
| `Elements.InterruptingIds` | engine/src/main/java/io/zeebe/engine/processor/workflow/deployment/model/element/ExecutableActivity.java:31-33 | The ids of the boundary events that cancel the activity. |
| `Elements.InterruptingIdsAppend` | engine/src/main/java/io/zeebe/engine/processor/workflow/deployment/model/element/ExecutableActivity.java:27-34 | Attaching more events only appends their interrupting ids. |
| `Elements.InterruptingIdsMeaning` | engine/src/main/java/io/zeebe/engine/processor/workflow/deployment/model/element/ExecutableActivity.java:31-33 | An id is interrupting exactly when some attached event with that id cancels the activity. |
| `Elements.ExecutableActivity.constructor` | engine/src/main/java/io/zeebe/engine/processor/workflow/deployment/model/element/ExecutableActivity.java:23-25 | A new activity has no events and no loop characteristics. |
| `Elements.ExecutableActivity.Attach` | engine/src/main/java/io/zeebe/engine/processor/workflow/deployment/model/element/ExecutableActivity.java:27-34 | The event is appended to the boundary events and to the catch events. Its id is appended to the interrupting ids exactly when it cancels the activity. Loop characteristics are unchanged. |
| `Elements.ExecutableActivity.SetLoopCharacteristics` | engine/src/main/java/io/zeebe/engine/processor/workflow/deployment/model/element/ExecutableActivity.java:36-46 | The characteristics are set; `hasLoopCharacteristics` holds exactly when they are not null. |
| `Elements.ExecutableActivity.GetEvents` | engine/src/main/java/io/zeebe/engine/processor/workflow/deployment/model/element/ExecutableActivity.java:48-51 | The catch events, which are the attached boundary events. |
| `Elements.ExecutableActivity.GetBoundaryEvents` | engine/src/main/java/io/zeebe/engine/processor/workflow/deployment/model/element/ExecutableActivity.java:53-55 | The boundary events. |
| `Elements.ExecutableActivity.GetInterruptingElementIds` | engine/src/main/java/io/zeebe/engine/processor/workflow/deployment/model/element/ExecutableActivity.java:57-60 | The ids of exactly the attached events that cancel the activity. |
| `Elements.AttachExample` | engine/src/main/java/io/zeebe/engine/processor/workflow/deployment/model/element/ExecutableActivity.java:27-34 | A non-interrupting then an interrupting event give both as events and only the second id as interrupting. |
| `ActivityHandlers.AsString` | engine/src/main/java/io/zeebe/engine/processor/workflow/handlers/activity/ActivityElementActivatingHandler.java:78-80 | A variable name's bytes as characters. |
| `ActivityHandlers.BodyActivation` | engine/src/main/java/io/zeebe/engine/processor/workflow/handlers/activity/ActivityElementActivatingHandler.java:60-93 | The multi-instance body queries only the input collection's variable. No result raises EXTRACT_VALUE_ERROR "Multi-Instance variable '<v>' not found."; a non-array raises "... is not an array."; both return false. Otherwise it returns true. |
| `ActivityHandlers.PlainActivation` | engine/src/main/java/io/zeebe/engine/processor/workflow/handlers/activity/ActivityElementActivatingHandler.java:95-98 | A normal activity runs the base step and subscribes only if that succeeded; the result is the conjunction. |
| `ActivityHandlers.InnerActivation` | engine/src/main/java/io/zeebe/engine/processor/workflow/handlers/activity/ActivityElementActivatingHandler.java:52-58 | An inner instance runs the base step only. |
| `ActivityHandlers.HandleStateWith` | engine/src/main/java/io/zeebe/engine/processor/workflow/handlers/activity/ActivityElementActivatingHandler.java:48-99 | The three-way decision, given how the flow scope's element id is compared with the element's id. |
| `ActivityHandlers.HandleState` | engine/src/main/java/io/zeebe/engine/processor/workflow/handlers/activity/ActivityElementActivatingHandler.java:48-99 | Corrected handleState: the base step runs exactly for normal activities and inner instances. |
| `ActivityHandlers.HandleStateAsWritten` | engine/src/main/java/io/zeebe/engine/processor/workflow/handlers/activity/ActivityElementActivatingHandler.java:52-56 | As written, the inner-instance test never holds, so every instance of a multi-instance activity is handled as the body. |
| `ActivityHandlers.InnerInstanceTakenForBody` | engine/src/main/java/io/zeebe/engine/processor/workflow/handlers/activity/ActivityElementActivatingHandler.java:52-58 | As written, an inner instance skips its base step and is accepted even where the base step fails. The corrected version runs the base step and returns its failure. |
| `ActivityHandlers.AsWrittenAgreesOutsideInnerInstances` | engine/src/main/java/io/zeebe/engine/processor/workflow/handlers/activity/ActivityElementActivatingHandler.java:50-99 | Both versions agree on everything but inner instances. |
| `ElementHandlers.SpawnedShape` | engine/src/main/java/io/zeebe/engine/processor/workflow/handlers/element/ElementActivatedHandler.java:75-81 | n spawned events are ELEMENT_ACTIVATING with the same record and consecutive keys. |
| `ElementHandlers.EventOutput.constructor` | engine/src/main/java/io/zeebe/engine/processor/workflow/handlers/element/ElementActivatedHandler.java:77-78 | The output starts with no events. |
| `ElementHandlers.EventOutput.AppendNewEvent` | engine/src/main/java/io/zeebe/engine/processor/workflow/handlers/element/ElementActivatedHandler.java:77-78 | Appends one event under a fresh key and returns that key. |
| `ElementHandlers.HandleState` | engine/src/main/java/io/zeebe/engine/processor/workflow/handlers/element/ElementActivatedHandler.java:38-90 | Always true. The body appends exactly `size` ELEMENT_ACTIVATING events, each with the body's key as flow-scope key. Plain elements and inner instances append nothing. |
| `ElementHandlers.ThreeItemsSpawnThree` | engine/src/test/java/io/zeebe/engine/processor/workflow/activity/MultiInstanceTest.java:49-67 | A body over three items spawns three ELEMENT_ACTIVATING events with distinct keys, all in the body's flow scope. |
| `MessageSubscriptions.CommandFor` | engine/src/main/java/io/zeebe/engine/processor/workflow/message/PendingWorkflowInstanceSubscriptionChecker.java:41-71 | An opening subscription gets an open command with partition, keys, message name, correlation key and close-on-correlate. Any other gets a close command with partition, keys and message name. |
| `MessageSubscriptions.VisitStops` | engine/src/main/java/io/zeebe/engine/processor/workflow/message/PendingWorkflowInstanceSubscriptionChecker.java:34-52 | Every visited subscription is overdue, and every one before the last visited had its command sent. The visit ends at the end of the column, before a subscription that is not overdue, or after one whose command was not sent. |
| `MessageSubscriptions.StopsAtFirstRejection` | engine/src/main/java/io/zeebe/engine/processor/workflow/message/PendingWorkflowInstanceSubscriptionChecker.java:38-53 | When the command of the i-th overdue subscription is not sent, the run visits exactly i + 1 subscriptions. Those after it are neither sent nor changed, even when overdue. |
| `MessageSubscriptions.CommandsAreOverdue` | engine/src/main/java/io/zeebe/engine/processor/workflow/message/PendingWorkflowInstanceSubscriptionChecker.java:34-35 | The commands of a run are those of the first visited subscriptions, in order, each overdue. There is at most one per subscription, and one for each when all are overdue and every send succeeds. |
| `MessageSubscriptions.RunSettles` | engine/src/main/java/io/zeebe/engine/processor/workflow/message/PendingWorkflowInstanceSubscriptionChecker.java:32-50 | With the column in sent-time order and every send succeeding, no subscription is overdue after the run. A second run at the same time visits nothing. |
| `MessageSubscriptions.RunKeepsSubscriptions` | engine/src/main/java/io/zeebe/engine/processor/workflow/message/PendingWorkflowInstanceSubscriptionChecker.java:48-50 | A run changes only sent times, and only of overdue subscriptions whose send succeeded. |
| `MessageSubscriptions.SubscriptionState.constructor` | engine/src/main/java/io/zeebe/engine/processor/workflow/message/PendingWorkflowInstanceSubscriptionChecker.java:22-29 | The state holds the given subscriptions. |
| `MessageSubscriptions.SubscriptionState.UpdateSentTime` | engine/src/main/java/io/zeebe/engine/processor/workflow/message/PendingWorkflowInstanceSubscriptionChecker.java:49 | Only that subscription's sent time changes. |
| `MessageSubscriptions.CommandSender.constructor` | engine/src/main/java/io/zeebe/engine/processor/workflow/message/PendingWorkflowInstanceSubscriptionChecker.java:22-29 | Nothing is sent yet. |
| `MessageSubscriptions.CommandSender.Send` | engine/src/main/java/io/zeebe/engine/processor/workflow/message/PendingWorkflowInstanceSubscriptionChecker.java:55-71 | Records the command and returns whether it was accepted. |
| `MessageSubscriptions.PendingSubscriptionChecker.constructor` | engine/src/main/java/io/zeebe/engine/processor/workflow/message/PendingWorkflowInstanceSubscriptionChecker.java:22-29 | The checker holds its sender, state and timeout. |
| `MessageSubscriptions.PendingSubscriptionChecker.SendCommand` | engine/src/main/java/io/zeebe/engine/processor/workflow/message/PendingWorkflowInstanceSubscriptionChecker.java:38-53 | Sends the open or close command. The sent time becomes now exactly when the send succeeded, which is the result. |
| `MessageSubscriptions.PendingSubscriptionChecker.Run` | engine/src/main/java/io/zeebe/engine/processor/workflow/message/PendingWorkflowInstanceSubscriptionChecker.java:31-36 | Visits the subscriptions in column order and stops at the first that is not overdue, or just after the first whose command was not sent (the visitor's false). The commands sent and the new sent times are those of `Commands` and `AfterRun`. |
| `LogAppender.WalkShape` | logstreams/src/main/java/io/zeebe/logstreams/impl/LogStorageAppender.java:102-108 | The offsets visited start at 0, strictly increase by each fragment's length, and stay inside the block. |
| `LogAppender.GetLastEventPosition` | logstreams/src/main/java/io/zeebe/logstreams/impl/LogStorageAppender.java:94-110 | The loop returns the position of the last fragment read, or −1. |
| `LogAppender.LastEventPositionMeaning` | logstreams/src/main/java/io/zeebe/logstreams/impl/LogStorageAppender.java:99-108 | An empty block yields −1. A non-empty block yields the position of its last fragment, the one whose length reaches the end. |
| `LogAppender.SingleEventBlock` | logstreams/src/main/java/io/zeebe/logstreams/impl/LogStorageAppender.java:103-108 | A block of one fragment yields that fragment's position. |
| `LogAppender.LogStorageAppender.constructor` | logstreams/src/main/java/io/zeebe/logstreams/impl/LogStorageAppender.java:36-46 | Nothing has been appended. |
| `LogAppender.LogStorageAppender.PeekBlock` | logstreams/src/main/java/io/zeebe/logstreams/impl/LogStorageAppender.java:58-64 | A non-empty peek is appended; an empty one changes nothing. |
| `LogAppender.LogStorageAppender.AppendBlock` | logstreams/src/main/java/io/zeebe/logstreams/impl/LogStorageAppender.java:66-91 | The block is appended with its last event's position as commit position and marked completed. |

## Left out

- The actor runtime: channels, `actor.call`/`run`/`runOnCompletion`/`runBlocking`/`runDelayed`, and yielding. Scheduled callbacks are explicit methods that a caller invokes, one at a time, so interleavings are not modelled.
- The dependency resolver of the container is not part of this model. Its events (DEPENDENCIES_AVAILABLE, DEPENDENCIES_UNAVAILABLE, DEPENDENTS_STOPPED) are inputs to the controller. Its registry and its root services are inputs to the container.
- `Controller.ServiceController.Deliver` stands for the resolver adding an event to a controller's channel, which happens in code outside this model.
- `hasService` returns a future in the source. The model returns the boolean the future is completed with.
- `runBlocking` of a context's action is not run: a `run(action)` call is modelled as async, with its completion as an explicit input.
- The start and stop context objects are values held by the controller, so aliasing of a context kept by a service after invalidation is not captured. `createService`, `createComposite`, `removeService`, `hasService` and `getScheduler` on a start context are left out; only their validity check is modelled.
- `addReferencedValue` and `removeReferencedValue` of the controller (service groups) are left out.
- `Topology` (the class TopologyManagerImpl calls `getMember`, `addMember` and `removeMember` on) is not part of this model. It is taken to be a map from node id to member. `getMember` looks the id up. `addMember` succeeds, adding the member, exactly when its node id is absent. `removeMember` deletes the node id. `Topology.AddedStep`, `Topology.RemovedStep`, `Topology.AddThenRemove` and `Topology.EventKeepsMembersValid` rest on these assumed semantics, as do the manager's `OnMemberAdded` and `OnMemberRemoved`. Its partition bookkeeping is recorded only as the sequence of updates it receives.
- `Injector` and `RemoteAddressImpl` are not part of this model. Uninjecting is taken to clear the injected value; the injector keeps the injected service's name. Activating, deactivating and retiring an address are taken to set its state.
- Logging, `toString`, `getName` and `writeJSON` are left out.
- Networking and clustering:
  - Atomix messaging, subscriptions, retries and timeouts of the distributor;
  - the retry scheduling of missing responses;
  - membership listeners of the topology manager;
  - `updateRole` and `updatePartition` from local Raft role changes. The local leader and follower partitions are fields set from outside.
- JWT verification with HMAC-SHA256 is a parameter of the interceptor.
- MD5 digests, BPMN and YAML parsing, and YAML-to-XML conversion (`transformYamlWorkflowResource`): a resource carries its digest and its parsed processes or read error.
- The msgpack query processor is left out. Its results are a parameter of the activating handler, and its single token a parameter of the activated handler. `getSingleResult` on an empty result is not modelled in the activated handler.
- The SBE command and response classes are left out. A response is one of three decoded cases.
- `Protocol.DEPLOYMENT_PARTITION` is not part of this model; it is a constructor parameter of the distributor.
- The deployment state and the workflow state are maps; the key generator is a counter.
- `Transport.RemoteAddressList.Register`: the second, synchronized search and the `volatile` publication of `size` are modelled sequentially. Concurrent readers are not modelled.
- `SystemConfig.Validate` returns the exception instead of throwing. The rest of `SystemContext` (paths, scheduler, components, close) is left out.
- The clock is the `now` argument of the subscription checker's run.
- Integers are unbounded: the source's `int` and `long` overflow is not modelled. Key and version counters grow without wrap-around.
- `ElementHandlers.ShouldHandleState`: its three checks (the base check, the element state and the flow scope's activity) are made in `AbstractHandler` and the element instance state, which are not part of this model. They are parameters, so the function only conjoins them.
- `MessageSubscriptions.PendingSubscriptionChecker.Run`: `WorkflowInstanceSubscriptionState` is not part of this model. Its sent-time column is a list taken in its order at the start of the run. A sent time updated during the run keeps its place, where the column would move it to the end. Both reads of `ActorClock` are the one `now`.
- `Transport.RemoteAddressList.GetByStreamId` takes a `nat`. A negative `int` stream id passes Java's `streamId < size` test and throws ArrayIndexOutOfBoundsException, which is not modelled.
- `Controller.ServiceController.InvokeStop` keeps the invalidated start context in `startContext`. `StartContextImpl.invalidate()` also sets the controller's field to null (ServiceController.java:393-396). Nothing in the model reads the field after invalidation, so the difference is not observable here.

## Findings

| source | as written | input that shows it | evidently intended | confidence | as-written member | corrected member |
|---|---|---|---|---|---|---|
| service-container/src/main/java/io/zeebe/servicecontainer/impl/ServiceContainerImpl.java:45-54 | `start()` checks only the `isOpenend` flag, so a container closed before it was ever started is opened again. Its state goes from CLOSED back to OPEN. | `close(t)` on a NEW container fails, leaving it CLOSED with `isOpenend` false; then `start()` | a CLOSED container stays closed; start succeeds only from NEW | low, not executed | `Container.StartAsWrittenReopensClosed` | `Container.Start` |
| engine/src/main/java/io/zeebe/engine/processor/workflow/handlers/activity/ActivityElementActivatingHandler.java:52-58 | The inner-instance test calls `equals` of the flow scope's element id, a `String`, with the element's id, a `DirectBuffer`, so it never holds. Every instance of a multi-instance activity is treated as the body. | an inner instance (flow-scope element id equal to the activity id) whose base step fails, with the input collection an array | inner instances run the base step only, as the comment and the activated handler (which compares `getElementIdBuffer`) do | medium, not executed | `ActivityHandlers.InnerInstanceTakenForBody` | `ActivityHandlers.HandleState` |
| msgpack-value/src/main/java/io/zeebe/msgpack/property/BaseProperty.java:104-122 | `hashCode` hashes the key, the raw value, the default and the `isSet` flag, while `equals` compares only the key and the resolved value. Equal properties can have different hash codes. | property A set to x with no default; property B unset with default x, same key | hash only what `equals` compares: the key and the resolved value | high, not executed | `Msgpack.EqualPropertiesHashApart` | `Msgpack.EqualPropertiesHashAlike` |
