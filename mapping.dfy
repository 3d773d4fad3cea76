/**
 * The mapping machinery the query layer consults without owning it: mapped
 * fields, the entity model of their declaring class, property models with
 * their cached codecs, resolved path targets and the mapper's codec
 * registry. The query layer only reads these, so they are modelled as plain
 * data and as functions supplied by the caller. A path target's translated
 * path and mapped field, which path resolution computes, are stored fields.
 */
module Mapping {
  import opened Wrappers
  import opened JavaValues

  /**
   * A codec. A `PropertyHandler` is a field-specific codec whose `encode`
   * turns the raw value into its stored form; every other codec is only
   * ever handed to the mapper's writer, so it needs no more than an identity.
   */
  datatype Codec =
    | PropertyHandler(encode: Value -> Value)
    | OtherCodec(id: nat)

  /** A property model: the codec cached for the property, if any. */
  datatype PropertyModel = PropertyModel(cachedCodec: Option<Codec>)

  /** The entity model of a mapped class: its property models by Java field name. */
  datatype EntityModel = EntityModel(properties: map<string, PropertyModel>)
  {
    /** The property model for a Java field name, or none (`null`) when the class has no such property. */
    function GetPropertyModel(javaFieldName: string): (p: Option<PropertyModel>)
      ensures p.Some? <==> javaFieldName in properties
      ensures javaFieldName in properties ==> p == Some(properties[javaFieldName])
    {
      if javaFieldName in properties then Some(properties[javaFieldName]) else None
    }
  }

  /** A mapped field: its Java field name and the entity model of the class that declares it. */
  datatype MappedField = MappedField(javaFieldName: string, declaringModel: EntityModel)

  /**
   * A resolved path: the translated dotted path used on the wire and the
   * mapped field it ends on, which is absent for an unmapped key.
   */
  datatype PathTarget = PathTarget(translatedPath: string, mappedField: Option<MappedField>)

  /**
   * The mapper as the encoder uses it. `codecFor` is the codec registry's
   * choice for a runtime class; `writeRoot` is the root a fresh
   * `DocumentWriter` holds after that codec has encoded a value into it.
   */
  datatype Mapper = Mapper(codecFor: JClass -> Codec, writeRoot: (Codec, Value) -> Value)
}
