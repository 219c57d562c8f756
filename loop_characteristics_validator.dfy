/** The BPMN model's validation of zeebe loop characteristics: the input
    collection is required, the input element is optional. */
module LoopValidation {
  import opened Common

  /** A zeebe:loopCharacteristics element; None stands for an absent
      attribute. */
  datatype ZeebeLoopCharacteristics = ZeebeLoopCharacteristics(inputCollection: Option<string>, inputElement: Option<string>)

  /** An entry of the validation result collector: a code and a message. */
  datatype ValidationError = ValidationError(code: int, message: string)

  /** The error message, naming the input-collection attribute. */
  function MissingInputCollection(attributeName: string): string
  {
    "Attribute '" + attributeName + "' must be present and not empty"
  }

  predicate InputCollectionMissing(element: ZeebeLoopCharacteristics)
  {
    element.inputCollection.None? || |element.inputCollection.value| == 0
  }

  /** validate: one error with code 0 is added exactly when the input
      collection is absent or empty; the errors collected before are kept. */
  function Validate(element: ZeebeLoopCharacteristics, attributeName: string, errors: seq<ValidationError>): (r: seq<ValidationError>)
    ensures |r| == |errors| + (if InputCollectionMissing(element) then 1 else 0)
    ensures r[..|errors|] == errors
    ensures InputCollectionMissing(element) ==>
      r[|errors|] == ValidationError(0, MissingInputCollection(attributeName))
  {
    var missing := element.inputCollection.None? || element.inputCollection.value == "";
    if missing then errors + [ValidationError(0, MissingInputCollection(attributeName))] else errors
  }

  /** The input element plays no part in validation. */
  lemma InputElementIgnored(element: ZeebeLoopCharacteristics, other: Option<string>, attributeName: string, errors: seq<ValidationError>)
    ensures Validate(element.(inputElement := other), attributeName, errors) == Validate(element, attributeName, errors)
  {
  }

  /** A present, non-empty input collection is accepted with or without an
      input element. */
  lemma PresentCollectionAccepted(c: string, e: Option<string>, attributeName: string)
    requires |c| > 0
    ensures Validate(ZeebeLoopCharacteristics(Some(c), e), attributeName, []) == []
  {
  }
}
