/** A msgpack document property: a key, the property's value object, an
    optional default value, and whether the value was set. Reading, writing
    and the encoded length use the value set, or else the default.

    The value type is left open (`V`); its reset form, and its encoded
    length and the key's, are parameters. What the writer receives is
    recorded as the sequence of items written. */
module Msgpack {
  import opened Common

  /** A MsgpackPropertyException: the property's key and the message. */
  datatype PropertyError = PropertyError(key: string, message: string)

  /** A call that returns a value or throws a MsgpackPropertyException. */
  datatype Outcome<+T> = Returned(value: T) | Threw(error: PropertyError)

  const NothingToResolve: string := "Expected a value or default value to be specified, but has nothing"
  const NothingToWrite: string := "Expected a value or default value to be set before writing, but has nothing"

  datatype Written<V> = KeyItem(key: string) | ValueItem(value: V)

  /** The inputs hashCode combines, as written. */
  datatype HashInputsAsWritten<V> = HashInputsAsWritten(key: string, value: V, defaultValue: Option<V>, isSet: bool)

  class BaseProperty<V(==)> {
    const key: string
    var value: V
    const defaultValue: Option<V>
    var isSet: bool
    /** what value.reset() makes of the value */
    const blank: V

    constructor(key: string, value: V, defaultValue: Option<V>, blank: V)
      ensures this.key == key && this.value == value && this.defaultValue == defaultValue
      ensures this.blank == blank && !isSet
    {
      this.key := key;
      this.value := value;
      this.defaultValue := defaultValue;
      this.blank := blank;
      isSet := false;
    }

    method Set()
      modifies this`isSet
      ensures isSet
    {
      isSet := true;
    }

    method Reset()
      modifies this`isSet, this`value
      ensures !isSet && value == blank
    {
      isSet := false;
      value := blank;
    }

    /** read: the value takes what the reader holds, and is set. */
    method Read(read: V)
      modifies this`isSet, this`value
      ensures isSet && value == read
    {
      value := read;
      Set();
    }

    predicate HasValue()
      reads this
    {
      isSet || defaultValue.Some?
    }

    /** resolveValue: the value if set, else the default, else an error. */
    function ResolveValue(): (r: Outcome<V>)
      reads this
      ensures r.Returned? <==> HasValue()
      ensures isSet ==> r == Returned(value)
      ensures !isSet && defaultValue.Some? ==> r == Returned(defaultValue.value)
      ensures !HasValue() ==> r == Threw(PropertyError(key, NothingToResolve))
    {
      if isSet then Returned(value)
      else if defaultValue.Some? then Returned(defaultValue.value)
      else Threw(PropertyError(key, NothingToResolve))
    }

    /** write: the key, then the value if set or else the default; an error,
        and nothing written, when there is neither. It writes exactly what
        resolveValue resolves. */
    function Write(): (r: Outcome<seq<Written<V>>>)
      reads this
      ensures r.Returned? <==> ResolveValue().Returned?
      ensures r.Returned? ==> r.value == [KeyItem(key), ValueItem(ResolveValue().value)]
      ensures r.Threw? ==> r == Threw(PropertyError(key, NothingToWrite))
    {
      var valueToWrite := if isSet then Some(value) else defaultValue;
      if valueToWrite.None? then Threw(PropertyError(key, NothingToWrite))
      else Returned([KeyItem(key), ValueItem(valueToWrite.value)])
    }

    /** getEncodedLength: the key's encoded length plus the resolved value's,
        the lengths of the two items write emits; resolveValue's error when
        there is no value. */
    function EncodedLength(keyLength: string -> nat, valueLength: V -> nat): (r: Outcome<nat>)
      reads this
      ensures r.Returned? <==> Write().Returned?
      ensures r.Returned? ==> r.value == keyLength(Write().value[0].key) + valueLength(Write().value[1].value)
      ensures r.Threw? ==> r == Threw(PropertyError(key, NothingToResolve))
    {
      match ResolveValue()
      case Returned(v) => Returned(keyLength(key) + valueLength(v))
      case Threw(e) => Threw(e)
    }

    function HashCodeInputsAsWritten(): HashInputsAsWritten<V>
      reads this
    {
      HashInputsAsWritten(key, value, defaultValue, isSet)
    }

    /** hashCode as equality requires: only the key and the resolved value. */
    function HashCodeInputs(): (string, Option<V>)
      reads this
    {
      (key, match ResolveValue() case Returned(v) => Some(v) case Threw(_) => None)
    }

    /** equals: the same object, or equal keys and equal resolved values.
        The keys are compared first; only for equal keys are the values
        resolved, and resolving a property without a value throws. */
    method Equals(that: BaseProperty<V>) returns (r: Outcome<bool>)
      ensures that == this ==> r == Returned(true)
      ensures that != this && key != that.key ==> r == Returned(false)
      ensures that != this && key == that.key && ResolveValue().Threw? ==>
        r == Threw(PropertyError(key, NothingToResolve))
      ensures that != this && key == that.key && ResolveValue().Returned? && that.ResolveValue().Threw? ==>
        r == Threw(PropertyError(that.key, NothingToResolve))
      ensures that != this && key == that.key && ResolveValue().Returned? && that.ResolveValue().Returned? ==>
        r == Returned(ResolveValue().value == that.ResolveValue().value)
      ensures r.Returned? && r.value ==> key == that.key
    {
      if that == this {
        return Returned(true);
      }
      if key != that.key {
        return Returned(false);
      }
      var mine := ResolveValue();
      if mine.Threw? {
        return Threw(mine.error);
      }
      var theirs := that.ResolveValue();
      if theirs.Threw? {
        return Threw(theirs.error);
      }
      r := Returned(mine.value == theirs.value);
    }
  }

  /** set/read, then reset: a property with a default falls back to it, one
      without has no value any more. */
  method ResetFallsBackToDefault<V(==)>(key: string, v: V, d: Option<V>, blank: V, read: V) returns (before: Outcome<V>, after: Outcome<V>)
    ensures before == Returned(read)
    ensures after == if d.Some? then Returned(d.value) else Threw(PropertyError(key, NothingToResolve))
  {
    var p := new BaseProperty(key, v, d, blank);
    p.Read(read);
    before := p.ResolveValue();
    p.Reset();
    after := p.ResolveValue();
  }

  /** hashCode as written combines the raw value, the default and the flag,
      so two properties that equals calls equal can hash differently: one
      set to x without a default, one unset with default x. */
  method EqualPropertiesHashApart<V(==)>(key: string, x: V, blank: V) returns (equal: Outcome<bool>, sameHash: bool)
    ensures equal == Returned(true)
    ensures !sameHash
  {
    var p := new BaseProperty(key, x, None, blank);
    p.Set();
    var q := new BaseProperty(key, blank, Some(x), blank);
    equal := p.Equals(q);
    sameHash := p.HashCodeInputsAsWritten() == q.HashCodeInputsAsWritten();
  }

  /** With the key and the resolved value as the hash inputs, properties that
      equals calls equal hash alike. */
  lemma EqualPropertiesHashAlike<V>(p: BaseProperty<V>, q: BaseProperty<V>)
    requires p.ResolveValue().Returned? && q.ResolveValue().Returned?
    requires p.key == q.key && p.ResolveValue().value == q.ResolveValue().value
    ensures p.HashCodeInputs() == q.HashCodeInputs()
  {
  }
}
