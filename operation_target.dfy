/**
 * An update operation's target paired with its value, and the encoding of
 * that pair into the value an update document holds for the path.
 */
module Query {
  import opened Wrappers
  import opened JavaValues
  import opened Mapping

  /**
   * What `encode` returns: the raw value itself when there is no target,
   * otherwise a document whose entries map dotted paths to values.
   */
  datatype Encoded = Raw(value: Value) | Doc(entries: map<string, Value>)

  /**
   * The codec cached on the property model the target's field resolves to:
   * none when the field is unmapped, when the declaring class has no
   * property model for it, or when the model has no cached codec.
   */
  function CachedCodec(t: PathTarget): (c: Option<Codec>)
  {
    match t.mappedField
    case None => None
    case Some(f) =>
      match f.declaringModel.GetPropertyModel(f.javaFieldName)
      case None => None
      case Some(p) => p.cachedCodec
  }

  /** True when the target's property has a `PropertyHandler` as its cached codec. */
  predicate HasHandler(t: PathTarget)
  {
    CachedCodec(t).Some? && CachedCodec(t).value.PropertyHandler?
  }

  /** The value stored under the target's path: the handler's, the registry codec's, or null. */
  function StoredValue(t: PathTarget, value: Value, mapper: Mapper): (v: Value)
  {
    if HasHandler(t) then CachedCodec(t).value.encode(value)
    else if value.Obj? then mapper.writeRoot(mapper.codecFor(value.cls), value)
    else Null
  }

  /** The result of encoding `value` for `target` with `mapper`. */
  function EncodeOutcome(target: Option<PathTarget>, value: Value, mapper: Mapper): (r: Encoded)
  {
    match target
    case None => Raw(value)
    case Some(t) => Doc(map[t.translatedPath := StoredValue(t, value, mapper)])
  }

  /** Holds a path target (possibly `null`) and the value an update operation applies to it. */
  class OperationTarget {
    const target: Option<PathTarget>
    const value: Value

    constructor (target: Option<PathTarget>, value: Value)
      ensures this.target == target && this.value == value
    {
      this.target := target;
      this.value := value;
    }

    /** The target given to the constructor. */
    function GetTarget(): (t: Option<PathTarget>)
      ensures t == target
    {
      target
    }

    /** The value given to the constructor. */
    function GetValue(): (v: Value)
      ensures v == value
    {
      value
    }

    /** Encodes the held value for the held target, as `EncodeOutcome` describes. */
    method Encode(mapper: Mapper) returns (r: Encoded)
      ensures r == EncodeOutcome(target, value, mapper)
    {
      if target.None? {
        return Raw(value);
      }
      var mappedField := target.value.mappedField;
      var mappedValue := value;
      var propertyModel := if mappedField.Some?
        then mappedField.value.declaringModel.GetPropertyModel(mappedField.value.javaFieldName)
        else None;
      var cachedCodec := if propertyModel.Some? then propertyModel.value.cachedCodec else None;
      if cachedCodec.Some? && cachedCodec.value.PropertyHandler? {
        mappedValue := cachedCodec.value.encode(mappedValue);
      } else if mappedValue.Obj? {
        var codec := mapper.codecFor(mappedValue.cls);
        mappedValue := mapper.writeRoot(codec, mappedValue);
      }
      r := Doc(map[target.value.translatedPath := mappedValue]);
    }
  }

  /** Without a target the raw value comes back unchanged, whatever the mapper. */
  lemma EncodeWithoutTarget(value: Value, m1: Mapper, m2: Mapper)
    ensures EncodeOutcome(None, value, m1) == Raw(value)
    ensures EncodeOutcome(None, value, m1) == EncodeOutcome(None, value, m2)
  {
  }

  /** With a target the result is a document with exactly one entry, keyed by the translated path. */
  lemma EncodeIsOneEntryDocument(t: PathTarget, value: Value, mapper: Mapper)
    ensures EncodeOutcome(Some(t), value, mapper).Doc?
    ensures EncodeOutcome(Some(t), value, mapper).entries.Keys == {t.translatedPath}
    ensures |EncodeOutcome(Some(t), value, mapper).entries| == 1
  {
  }

  /**
   * A property handler's encoding is stored as it is, for a null value too,
   * and the mapper's codec registry has no say in it.
   */
  lemma EncodeWithHandler(t: PathTarget, value: Value, m1: Mapper, m2: Mapper)
    requires HasHandler(t)
    ensures EncodeOutcome(Some(t), value, m1)
         == Doc(map[t.translatedPath := CachedCodec(t).value.encode(value)])
    ensures EncodeOutcome(Some(t), value, m1) == EncodeOutcome(Some(t), value, m2)
  {
  }

  /** Without a handler a null value is stored as null, whatever the mapper. */
  lemma EncodeNullWithoutHandler(t: PathTarget, m: Mapper)
    requires !HasHandler(t)
    ensures EncodeOutcome(Some(t), Null, m) == Doc(map[t.translatedPath := Null])
  {
  }

  /**
   * Without a handler a non-null value is stored as the root the registry's
   * codec for the value's runtime class writes.
   */
  lemma EncodeWithRegistryCodec(t: PathTarget, value: Value, m: Mapper)
    requires !HasHandler(t) && value.Obj?
    ensures EncodeOutcome(Some(t), value, m)
         == Doc(map[t.translatedPath := m.writeRoot(m.codecFor(value.cls), value)])
  {
  }

  /**
   * An unmapped field, or a field whose declaring class has no property
   * model for it, has no cached codec, so the handler branch is never taken.
   */
  lemma EncodeWithoutPropertyModel(t: PathTarget)
    requires t.mappedField.None?
          || t.mappedField.value.javaFieldName !in t.mappedField.value.declaringModel.properties
    ensures CachedCodec(t).None? && !HasHandler(t)
  {
  }
}
