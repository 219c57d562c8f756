/** The activating step of an activity. A plain activity applies the base
    activating step and then subscribes to its catch events. An activity with
    loop characteristics is either the multi-instance body, which checks that
    the input collection is an array, or one of the body's inner instances,
    whose flow scope is an instance of the same element.

    The base step, the event subscriber and the msgpack query processor are
    not part of this model: their outcomes are parameters. */
module ActivityHandlers {
  import opened Common
  import JsonPath
  import Elements

  /** What a workflow instance record holds that the handlers use. */
  datatype WorkflowInstanceRecord = WorkflowInstanceRecord(elementId: Elements.ElementId, flowScopeKey: int)

  /** The parts of the step context the handlers read: the element instance's
      key and record, and the record of its flow-scope instance. */
  datatype StepContext = StepContext(key: int, value: WorkflowInstanceRecord, flowScope: WorkflowInstanceRecord)

  /** A msgpack token of a query result: whether it is an array, and its
      size. */
  datatype MsgPackToken = MsgPackToken(isArray: bool, size: nat)

  datatype ErrorType = ExtractValueError

  datatype Incident = Incident(errorType: ErrorType, message: string)

  /** What one activating step did: its result, whether it ran the base step
      and the subscriber, the variables of the document it queried, and the
      incident it raised. */
  datatype Activation = Activation(
    handled: bool,
    ranBaseStep: bool,
    subscribed: bool,
    queriedVariables: Option<set<Elements.ElementId>>,
    incident: Option<Incident>)

  /** The variable name of the input collection; a query without one names
      the empty buffer. */
  function VariableName(q: JsonPath.Query): seq<JsonPath.byte>
  {
    if q.variableName.Some? then q.variableName.value else []
  }

  /** bufferAsString, one character per byte. */
  function AsString(b: seq<JsonPath.byte>): (s: string)
    ensures |s| == |b|
    ensures forall i :: 0 <= i < |b| ==> s[i] as int == b[i] as int
  {
    seq(|b|, i requires 0 <= i < |b| => (b[i] as int) as char)
  }

  function NotFoundMessage(name: seq<JsonPath.byte>): string
  {
    "Multi-Instance variable '" + AsString(name) + "' not found."
  }

  function NotAnArrayMessage(name: seq<JsonPath.byte>): string
  {
    "Multi-Instance variable '" + AsString(name) + "' is not an array."
  }

  /** The multi-instance body: the input collection is queried on a document
      holding only its variable; no result, or a single result that is not
      an array, raises an extract-value incident. */
  function BodyActivation(lc: Elements.LoopCharacteristics, results: seq<MsgPackToken>): (r: Activation)
    ensures !r.ranBaseStep && !r.subscribed
    ensures r.queriedVariables == Some({VariableName(lc.inputCollection)})
    ensures r.handled <==> |results| > 0 && results[0].isArray
    ensures r.incident.None? <==> r.handled
    ensures |results| == 0 ==>
      r.incident == Some(Incident(ExtractValueError, NotFoundMessage(VariableName(lc.inputCollection))))
    ensures |results| > 0 && !results[0].isArray ==>
      r.incident == Some(Incident(ExtractValueError, NotAnArrayMessage(VariableName(lc.inputCollection))))
  {
    var name := VariableName(lc.inputCollection);
    var queried := Some({name});
    if |results| == 0 then
      Activation(false, false, false, queried, Some(Incident(ExtractValueError, NotFoundMessage(name))))
    else if !results[0].isArray then
      Activation(false, false, false, queried, Some(Incident(ExtractValueError, NotAnArrayMessage(name))))
    else
      Activation(true, false, false, queried, None)
  }

  /** A plain activity: the base step, and the subscription only when the
      base step succeeded. */
  function PlainActivation(baseResult: bool, subscribeResult: bool): (r: Activation)
    ensures r.ranBaseStep && (r.subscribed <==> baseResult)
    ensures r.handled <==> baseResult && subscribeResult
    ensures r.queriedVariables.None? && r.incident.None?
  {
    Activation(baseResult && subscribeResult, true, baseResult, None, None)
  }

  /** An inner instance: only the base step. */
  function InnerActivation(baseResult: bool): (r: Activation)
    ensures r.ranBaseStep && !r.subscribed && (r.handled <==> baseResult)
    ensures r.queriedVariables.None? && r.incident.None?
  {
    Activation(baseResult, true, false, None, None)
  }

  /** handleState, given how the flow-scope element id is compared with the
      element's id. */
  function HandleStateWith(
    sameElement: (Elements.ElementId, Elements.ElementId) -> bool,
    ctx: StepContext, element: Elements.ExecutableActivity,
    baseResult: bool, subscribeResult: bool, results: seq<MsgPackToken>): (r: Activation)
    reads element
    ensures !element.HasLoopCharacteristics() ==> r == PlainActivation(baseResult, subscribeResult)
    ensures element.HasLoopCharacteristics() && sameElement(ctx.flowScope.elementId, element.id) ==>
      r == InnerActivation(baseResult)
    ensures element.HasLoopCharacteristics() && !sameElement(ctx.flowScope.elementId, element.id) ==>
      r == BodyActivation(element.loopCharacteristics.value, results)
  {
    match element.loopCharacteristics
    case None => PlainActivation(baseResult, subscribeResult)
    case Some(lc) =>
      if sameElement(ctx.flowScope.elementId, element.id) then InnerActivation(baseResult)
      else BodyActivation(lc, results)
  }

  /** The ids compared as buffers. */
  predicate SameBuffer(a: Elements.ElementId, b: Elements.ElementId)
  {
    a == b
  }

  /** Java's String.equals with an argument that is not a String: always
      false. The flow scope's getElementId yields a String, the element's
      getId a buffer. */
  predicate StringEqualsBuffer(s: string, b: Elements.ElementId)
  {
    false
  }

  /** The String form of the flow-scope id compared with the id buffer. */
  predicate SameAsWritten(a: Elements.ElementId, b: Elements.ElementId)
  {
    StringEqualsBuffer(AsString(a), b)
  }

  /** handleState: a plain activity runs the base step and then subscribes; an
      inner instance, whose flow scope is an instance of the same element,
      runs the base step only; the body checks the input collection. */
  function HandleState(
    ctx: StepContext, element: Elements.ExecutableActivity,
    baseResult: bool, subscribeResult: bool, results: seq<MsgPackToken>): (r: Activation)
    reads element
    ensures !element.HasLoopCharacteristics() ==> r == PlainActivation(baseResult, subscribeResult)
    ensures element.HasLoopCharacteristics() && ctx.flowScope.elementId == element.id ==>
      r == InnerActivation(baseResult)
    ensures element.HasLoopCharacteristics() && ctx.flowScope.elementId != element.id ==>
      r == BodyActivation(element.loopCharacteristics.value, results)
    ensures r.ranBaseStep <==> !element.HasLoopCharacteristics() || ctx.flowScope.elementId == element.id
  {
    HandleStateWith(SameBuffer, ctx, element, baseResult, subscribeResult, results)
  }

  /** handleState as written: the inner-instance test never holds, so every
      instance of a multi-instance activity is treated as the body. */
  function HandleStateAsWritten(
    ctx: StepContext, element: Elements.ExecutableActivity,
    baseResult: bool, subscribeResult: bool, results: seq<MsgPackToken>): (r: Activation)
    reads element
    ensures !element.HasLoopCharacteristics() ==> r == HandleState(ctx, element, baseResult, subscribeResult, results)
    ensures element.HasLoopCharacteristics() ==> r == BodyActivation(element.loopCharacteristics.value, results)
  {
    HandleStateWith(SameAsWritten, ctx, element, baseResult, subscribeResult, results)
  }

  /** As written, an inner instance is activated like the body: its base
      step (input mappings) is skipped, and when the base step would fail the
      inner instance is accepted anyway as long as the collection is still an
      array. The two versions agree on everything but inner instances. */
  lemma InnerInstanceTakenForBody(
    ctx: StepContext, element: Elements.ExecutableActivity, subscribeResult: bool, n: nat)
    requires element.HasLoopCharacteristics() && ctx.flowScope.elementId == element.id
    ensures !HandleStateAsWritten(ctx, element, false, subscribeResult, [MsgPackToken(true, n)]).ranBaseStep
    ensures HandleStateAsWritten(ctx, element, false, subscribeResult, [MsgPackToken(true, n)]).handled
    ensures !HandleState(ctx, element, false, subscribeResult, [MsgPackToken(true, n)]).handled
    ensures HandleState(ctx, element, false, subscribeResult, [MsgPackToken(true, n)]).ranBaseStep
  {
  }

  lemma AsWrittenAgreesOutsideInnerInstances(
    ctx: StepContext, element: Elements.ExecutableActivity,
    baseResult: bool, subscribeResult: bool, results: seq<MsgPackToken>)
    requires !element.HasLoopCharacteristics() || ctx.flowScope.elementId != element.id
    ensures HandleStateAsWritten(ctx, element, baseResult, subscribeResult, results)
      == HandleState(ctx, element, baseResult, subscribeResult, results)
  {
  }
}
