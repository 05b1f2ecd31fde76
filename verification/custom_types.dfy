/**
 * The conversion record of the custom-type registry: a pair of runtime type
 * identities together with a marshaller and an unmarshaller, and the
 * type-checked `marshal` / `unmarshal` that bracket the caller's conversion.
 *
 * Go's reflection is abstracted: a type identity is an opaque value with
 * equality, a runtime value is either the untyped `nil` or a payload boxed
 * with its dynamic type, and `reflect.TypeOf` maps the untyped `nil` to a
 * dedicated "no type".
 */
module CustomTypes {
  import opened Wrappers

  /** The identity of a concrete Go type (`UUID`, `*UUID`, `string`, ...). */
  type TypeId(==, !new)

  /** The content of a runtime value; nothing about it is inspected here. */
  type Payload

  /** The identity of an opaque error created by user code. */
  type ErrorId(==)

  /** A `reflect.Type`: either a concrete type or the nil type of an untyped `nil`. */
  datatype Type = NoType | Named(id: TypeId)

  /** An `interface{}` value: the untyped `nil`, or a payload with its dynamic type. */
  datatype Value = Nil | Boxed(typ: TypeId, payload: Payload)

  /**
   * The errors a conversion can report: the two package sentinels, or any
   * other error a user-supplied conversion returns.
   */
  datatype Error = ErrIncorrectInType | ErrIncorrectOutType | Other(id: ErrorId)

  /** The `(interface{}, error)` pair every conversion returns; `None` is a nil error. */
  datatype Return = Return(value: Value, err: Option<Error>)

  /** A `TypeMarshaller` or `TypeUnmarshaller`: arbitrary caller code. */
  type Marshaller = Value -> Return
  type Unmarshaller = Value -> Return

  /** `reflect.TypeOf`: the dynamic type of a value, `NoType` for the untyped `nil`. */
  function TypeOf(v: Value): (t: Type)
    ensures t == NoType <==> v == Nil
    ensures v.Boxed? ==> t.id == v.typ
  {
    match v
    case Nil => NoType
    case Boxed(typ, _) => Named(typ)
  }

  /**
   * The record `newCustomType` builds: both type identities and both
   * conversions, set together and never changed afterwards.
   */
  datatype CustomType = CustomType(
    inType: Type,
    outType: Type,
    marshaller: Marshaller,
    unmarshaller: Unmarshaller)

  /** A failed conversion: nil value and the given error. */
  function Failed(e: Error): Return
  {
    Return(Nil, Some(e))
  }

  /**
   * Converts an application value to its wire form. The input must have the
   * record's `inType`, the marshaller must succeed, and its output must have
   * the record's `outType`; the first check that fails decides the error.
   */
  function Marshal(ct: CustomType, v: Value): (r: Return)
    // a mistyped input is refused with the input sentinel before the marshaller is consulted
    ensures TypeOf(v) != ct.inType ==> r == Failed(ErrIncorrectInType)
    // an error of the marshaller is passed on unchanged, never replaced by a sentinel
    ensures TypeOf(v) == ct.inType && ct.marshaller(v).err.Some? ==> r == Failed(ct.marshaller(v).err.value)
    // a well-typed input whose conversion has the wrong type is refused with the output sentinel
    ensures TypeOf(v) == ct.inType && ct.marshaller(v).err.None? && TypeOf(ct.marshaller(v).value) != ct.outType
            ==> r == Failed(ErrIncorrectOutType)
    // success exactly when both type checks pass around a successful conversion
    ensures r.err.None? <==>
            TypeOf(v) == ct.inType && ct.marshaller(v).err.None? && TypeOf(ct.marshaller(v).value) == ct.outType
    // on success the marshaller's own output is returned, and it has the wire type
    ensures r.err.None? ==> r.value == ct.marshaller(v).value && TypeOf(r.value) == ct.outType
    // every failure carries a nil value
    ensures r.err.Some? ==> r.value == Nil
  {
    if TypeOf(v) != ct.inType then
      Failed(ErrIncorrectInType)
    else
      var out := ct.marshaller(v);
      if out.err.Some? then
        Failed(out.err.value)
      else if TypeOf(out.value) != ct.outType then
        Failed(ErrIncorrectOutType)
      else
        Return(out.value, None)
  }

  /**
   * Converts a wire value back to its application form: the mirror of
   * `Marshal`, checking the input against `outType` and the unmarshaller's
   * result against `inType`.
   */
  function Unmarshal(ct: CustomType, v: Value): (r: Return)
    // a mistyped wire value is refused with the output sentinel before the unmarshaller is consulted
    ensures TypeOf(v) != ct.outType ==> r == Failed(ErrIncorrectOutType)
    // an error of the unmarshaller is passed on unchanged
    ensures TypeOf(v) == ct.outType && ct.unmarshaller(v).err.Some? ==> r == Failed(ct.unmarshaller(v).err.value)
    // a conversion that does not produce the application type is refused with the input sentinel
    ensures TypeOf(v) == ct.outType && ct.unmarshaller(v).err.None? && TypeOf(ct.unmarshaller(v).value) != ct.inType
            ==> r == Failed(ErrIncorrectInType)
    ensures r.err.None? <==>
            TypeOf(v) == ct.outType && ct.unmarshaller(v).err.None? && TypeOf(ct.unmarshaller(v).value) == ct.inType
    ensures r.err.None? ==> r.value == ct.unmarshaller(v).value && TypeOf(r.value) == ct.inType
    ensures r.err.Some? ==> r.value == Nil
  {
    if TypeOf(v) != ct.outType then
      Failed(ErrIncorrectOutType)
    else
      var back := ct.unmarshaller(v);
      if back.err.Some? then
        Failed(back.err.value)
      else if TypeOf(back.value) != ct.inType then
        Failed(ErrIncorrectInType)
      else
        Return(back.value, None)
  }

  /** A mistyped input never reaches the marshaller: any other marshaller gives the same answer. */
  lemma MarshalSkipsMarshallerOnWrongInput(ct: CustomType, other: Marshaller, v: Value)
    requires TypeOf(v) != ct.inType
    ensures Marshal(ct.(marshaller := other), v) == Marshal(ct, v) == Failed(ErrIncorrectInType)
  {
  }

  /** A mistyped wire value never reaches the unmarshaller. */
  lemma UnmarshalSkipsUnmarshallerOnWrongInput(ct: CustomType, other: Unmarshaller, v: Value)
    requires TypeOf(v) != ct.outType
    ensures Unmarshal(ct.(unmarshaller := other), v) == Unmarshal(ct, v) == Failed(ErrIncorrectOutType)
  {
  }

  /** The record with the roles of the two sides exchanged. */
  function Mirror(ct: CustomType): CustomType
  {
    CustomType(ct.outType, ct.inType, ct.unmarshaller, ct.marshaller)
  }

  /**
   * `Unmarshal` is `Marshal` with the roles swapped: both succeed together with
   * the same value, and both pass on the same conversion error; they differ only
   * in which sentinel names a type mismatch.
   */
  lemma UnmarshalMirrorsMarshal(ct: CustomType, v: Value)
    ensures Unmarshal(ct, v).value == Marshal(Mirror(ct), v).value
    ensures Unmarshal(ct, v).err.None? <==> Marshal(Mirror(ct), v).err.None?
    ensures TypeOf(v) != ct.outType ==>
              Unmarshal(ct, v).err == Some(ErrIncorrectOutType) && Marshal(Mirror(ct), v).err == Some(ErrIncorrectInType)
    ensures TypeOf(v) == ct.outType && ct.unmarshaller(v).err.Some? ==>
              Unmarshal(ct, v).err == Marshal(Mirror(ct), v).err == ct.unmarshaller(v).err
    ensures TypeOf(v) == ct.outType && ct.unmarshaller(v).err.None? && TypeOf(ct.unmarshaller(v).value) != ct.inType ==>
              Unmarshal(ct, v).err == Some(ErrIncorrectInType) && Marshal(Mirror(ct), v).err == Some(ErrIncorrectOutType)
  {
  }

  /**
   * When the unmarshaller undoes the marshaller on a value, a successful
   * `Marshal` followed by `Unmarshal` gives the value back.
   */
  lemma MarshalUnmarshalRoundTrip(ct: CustomType, v: Value)
    requires Marshal(ct, v).err.None?
    requires ct.unmarshaller(ct.marshaller(v).value) == Return(v, None)
    ensures Unmarshal(ct, Marshal(ct, v).value) == Return(v, None)
  {
  }
}
