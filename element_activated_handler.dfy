/** The activated step of an element. Only the body of a multi-instance
    activity does anything here: it spawns one ELEMENT_ACTIVATING event per
    item of its input collection, each in the body's flow scope. Plain
    elements and the body's inner instances pass.

    The output stream writer is modelled as an event log with a key counter;
    the query result's token is a parameter. */
module ElementHandlers {
  import opened Common
  import Elements
  import opened ActivityHandlers

  datatype Intent = ElementActivating | ElementActivated | ElementCompleting

  datatype Event = Event(key: nat, intent: Intent, value: WorkflowInstanceRecord)

  /** The element of the step: an activity, or any other flow node. */
  datatype FlowNode = Activity(activity: Elements.ExecutableActivity) | OtherFlowNode(id: Elements.ElementId)

  /** The step works on the multi-instance body: an activity with loop
      characteristics whose flow scope is not an instance of itself. */
  predicate IsBody(ctx: StepContext, element: FlowNode)
    reads if element.Activity? then {element.activity} else {}
  {
    element.Activity? && element.activity.HasLoopCharacteristics()
    && ctx.flowScope.elementId != element.activity.id
  }

  /** The events spawned for n items, with keys from firstKey on. */
  function Spawned(firstKey: nat, value: WorkflowInstanceRecord, n: nat): seq<Event>
  {
    if n == 0 then [] else Spawned(firstKey, value, n - 1) + [Event(firstKey + n - 1, ElementActivating, value)]
  }

  /** n events, all ELEMENT_ACTIVATING with the same record, and consecutive
      (so distinct) keys. */
  lemma {:induction false} SpawnedShape(firstKey: nat, value: WorkflowInstanceRecord, n: nat)
    ensures |Spawned(firstKey, value, n)| == n
    ensures forall i :: 0 <= i < n ==> Spawned(firstKey, value, n)[i] == Event(firstKey + i, ElementActivating, value)
  {
    if n > 0 {
      SpawnedShape(firstKey, value, n - 1);
    }
  }

  /** The stream writer: appended events, and the key generator's next key. */
  class EventOutput {
    var events: seq<Event>
    var nextKey: nat

    constructor(nextKey: nat)
      ensures events == [] && this.nextKey == nextKey
    {
      events := [];
      this.nextKey := nextKey;
    }

    /** appendNewEvent: a new event with the next key. */
    method AppendNewEvent(intent: Intent, value: WorkflowInstanceRecord) returns (key: nat)
      modifies this
      ensures key == old(nextKey) && nextKey == old(nextKey) + 1
      ensures events == old(events) + [Event(key, intent, value)]
    {
      key := nextKey;
      events := events + [Event(key, intent, value)];
      nextKey := nextKey + 1;
    }
  }

  /** handleState: always true. For the body, `token.size` events are
      appended, each with the body's key as flow-scope key; the record of the
      step keeps that flow-scope key once an event was spawned. Otherwise
      nothing is appended. */
  method HandleState(ctx: StepContext, element: FlowNode, token: MsgPackToken, output: EventOutput)
    returns (handled: bool, value: WorkflowInstanceRecord)
    modifies output
    ensures handled
    ensures IsBody(ctx, element) ==>
      && value == (if token.size > 0 then ctx.value.(flowScopeKey := ctx.key) else ctx.value)
      && output.events == old(output.events) + Spawned(old(output.nextKey), ctx.value.(flowScopeKey := ctx.key), token.size)
      && output.nextKey == old(output.nextKey) + token.size
    ensures !IsBody(ctx, element) ==>
      value == ctx.value && output.events == old(output.events) && output.nextKey == old(output.nextKey)
  {
    value := ctx.value;
    if !element.Activity? || !element.activity.HasLoopCharacteristics() {
      return true, value;
    }
    if ctx.flowScope.elementId == element.activity.id {
      return true, value;
    }
    var size := token.size;
    var spawned := ctx.value.(flowScopeKey := ctx.key);
    var i := 0;
    while i < size
      invariant 0 <= i <= size
      invariant output.events == old(output.events) + Spawned(old(output.nextKey), spawned, i)
      invariant output.nextKey == old(output.nextKey) + i
      invariant value == if i > 0 then spawned else ctx.value
      decreases size - i
    {
      value := value.(flowScopeKey := ctx.key);
      var elementInstanceKey := output.AppendNewEvent(ElementActivating, value);
      i := i + 1;
    }
    handled := true;
  }

  /** shouldHandleState: the base check, the record's state being the element
      instance's state, and the element being the root scope or having an
      active flow scope. The three checks live outside this model. */
  function ShouldHandleState(baseCheck: bool, stateSameAsElementState: bool, isRootScope: bool, flowScopeActive: bool): (r: bool)
    ensures r ==> baseCheck && stateSameAsElementState
    ensures !isRootScope && !flowScopeActive ==> !r
    ensures baseCheck && stateSameAsElementState && (isRootScope || flowScopeActive) ==> r
  {
    baseCheck && stateSameAsElementState && (isRootScope || flowScopeActive)
  }

  /** A body over a three-item collection spawns three ELEMENT_ACTIVATING
      events with distinct keys, all in the body's flow scope. */
  method ThreeItemsSpawnThree(bodyKey: int, record: WorkflowInstanceRecord, processElement: Elements.ElementId,
                               lc: Elements.LoopCharacteristics, id: Elements.ElementId, firstKey: nat)
    returns (events: seq<Event>)
    requires processElement != id
    ensures |events| == 3
    ensures forall i :: 0 <= i < 3 ==> events[i].intent == ElementActivating && events[i].value.flowScopeKey == bodyKey
    ensures events[0].key != events[1].key && events[1].key != events[2].key && events[0].key != events[2].key
  {
    var activity := new Elements.ExecutableActivity(id);
    activity.SetLoopCharacteristics(Some(lc));
    var output := new EventOutput(firstKey);
    var ctx := StepContext(bodyKey, record, WorkflowInstanceRecord(processElement, -1));
    var handled, value := HandleState(ctx, Activity(activity), MsgPackToken(true, 3), output);
    events := output.events;
    SpawnedShape(firstKey, record.(flowScopeKey := bodyKey), 3);
  }
}
