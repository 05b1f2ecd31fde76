# Custom-type registry of a JSON:API serializer, modelled in Dafny

This project models the custom-type conversion registry of the Go package
`jsonapi` (`custom_types.go`). A caller registers, for an application type
(say an identifier type `UUID`), a wire type (say `string`) together with a
marshaller and an unmarshaller. The serializer later converts field values
through the registered record. The record re-checks the runtime types on both
sides of every conversion.

The model has three files:

- `wrappers.dfy` (module `Wrappers`): `Option`, standing for Go's nullable `error`.
- `custom_types.dfy` (module `CustomTypes`): the conversion record and its
  type-checked `Marshal` / `Unmarshal`.
  - Go reflection is abstracted. A type identity is the abstract type `TypeId`, which has equality.
  - A `reflect.Type` is `Type = NoType | Named(TypeId)`. `NoType` is what `reflect.TypeOf(nil)` returns.
  - An `interface{}` value is `Value = Nil | Boxed(TypeId, Payload)`.
  - Errors are the two package sentinels `ErrIncorrectInType` and `ErrIncorrectOutType`, plus `Other(ErrorId)` for any error that user code creates.
  - A conversion returns Go's `(value, error)` pair as `Return(value, err)`.
  - Marshallers and unmarshallers are arbitrary functions `Value -> Return`.
  - `newCustomType` is the datatype constructor `CustomType(inType, outType, marshaller, unmarshaller)`. A record is a value, so it never changes after it is built.
- `registry.dfy` (module `Registry`): the package-level map `customTypes`.
  - It is the field of the class `Registry`.
  - The methods `RegisterCustomType`, `RegisterCustomTypeFunc` and `ClearCustomTypes` replace the map in place.
  - `IsRegisteredType` is a reads-only function.
  - The pure function `Insert` specifies a registration.
  - `Run` replays any sequence of register and clear calls. `LastEffect` independently defines which call decides each key's entry, and `RunLookup` proves the two agree.

The registry is keyed by `reflect.Type`, so the nil type is a legal key, as in
Go. Registering with `inType` nil makes `IsRegisteredType(nil)` true, and then
`marshal` accepts the untyped `nil`. The model keeps this.

## Model

| member | source | states |
|---|---|---|
| `CustomTypes.TypeOf` | custom_types.go:34 | the dynamic type of a value is the "no type" exactly for the untyped nil; a boxed value has its own type |
| `CustomTypes.Marshal` | custom_types.go:33-48 | a mistyped input yields `ErrIncorrectInType`; otherwise a marshaller error is returned unchanged; otherwise an output of the wrong type yields `ErrIncorrectOutType`; success happens exactly when both type checks pass around a successful conversion; it returns the marshaller's own output, whose type is `outType`; every failure carries a nil value |
| `CustomTypes.Unmarshal` | custom_types.go:50-65 | the same three outcomes with the roles swapped: a wire value not of `outType` yields `ErrIncorrectOutType`, an unmarshaller error is passed on, and a result not of `inType` yields `ErrIncorrectInType`; on success it returns the unmarshaller's result, of type `inType`, and every failure carries a nil value |
| `CustomTypes.MarshalSkipsMarshallerOnWrongInput` | custom_types.go:33-36 | for a mistyped input, the result does not depend on the marshaller at all, so the marshaller is never consulted |
| `CustomTypes.UnmarshalSkipsUnmarshallerOnWrongInput` | custom_types.go:50-53 | for a mistyped wire value, the result does not depend on the unmarshaller |
| `CustomTypes.UnmarshalMirrorsMarshal` | custom_types.go:33-65 | `Unmarshal` is `Marshal` on the mirrored record: both give the same value and succeed together; both pass on the same conversion error; each type mismatch is named by the opposite sentinel |
| `CustomTypes.MarshalUnmarshalRoundTrip` | custom_types.go:33-65 | if the unmarshaller undoes the marshaller on a value, a successful marshal followed by unmarshal returns that value with no error |
| `Registry.Insert` | custom_types.go:98 | after a registration the record is filed under its `inType`, replacing any earlier one; every other key keeps its presence and its entry; entries stay filed under their own `inType` |
| `Registry.LastWriteWins` | custom_types.go:98 | registering twice under the same application type is the same as registering only the second record |
| `Registry.DistinctKeysIndependent` | custom_types.go:94-99 | registrations under two distinct type identities (a type and its pointer type) both remain, each with its own record |
| `Registry.LastEffect` | custom_types.go:94-111 | the reference account of a key: a record it reports was registered under that key, and a reported clear did occur |
| `Registry.RunLookup` | custom_types.go:94-111 | after any sequence of register and clear calls, the entry for a type is the record of the last registration under it since the last clear; it is absent if a clear came last; it is unchanged if no call concerned it |
| `Registry.RunKeyedByInType` | custom_types.go:98 | every sequence of calls keeps each record filed under its own application type |
| `Registry.ClearThenRegister` | custom_types_test.go:11-13 | clearing and then registering one record leaves exactly that record in the registry |
| `Registry.Registry.constructor` | custom_types.go:11 | the registry starts empty |
| `Registry.Registry.IsRegisteredType` | custom_types.go:88-91 | true exactly when a record is filed under the type; as a reads-only function it cannot change the registry |
| `Registry.Registry.RegisterCustomType` | custom_types.go:94-99 | never fails; afterwards the type is registered and its entry is exactly the four arguments; every other type's presence and entry are unchanged; the new map is one `Register` step of the call-trace semantics, so `RunLookup` covers any sequence of these calls |
| `Registry.Registry.RegisterCustomTypeFunc` | custom_types.go:101-106 | has exactly the effect of `RegisterCustomType` on the same arguments |
| `Registry.Registry.ClearCustomTypes` | custom_types.go:109-111 | the map becomes empty, and no type is registered afterwards; the new map is one `Clear` step of the call-trace semantics |
| `Registry.RegisterEachAfterClear` | custom_types_test.go:8-25 | clearing, registering and checking each application type in turn (`UUID`, then `*UUID`) finds every one registered; the registry ends up holding only the last type, whose entry is exactly the record registered for it, and every entry is filed under its own type |

## Left out

- Go reflection (`reflect.TypeOf`) is replaced by the type tag carried in each modelled value.
- The bodies of user-supplied marshallers and unmarshallers are not modelled. They are arbitrary total, deterministic, side-effect-free functions.
- CustomTypes.Marshal: does not model a nil marshaller. Go accepts one at custom_types.go:98, and `marshal` then panics at line 38 once the input check passes; a nil `TypeMarshalFunc` panics the same way at line 78. Conversions that panic, or that keep state or have other effects between calls, cannot be represented either. "Never calls the marshaller" on a mistyped input is stated as the result not depending on the marshaller, which says nothing about effects.
- CustomTypes.Unmarshal: does not model a nil unmarshaller. Go accepts one at custom_types.go:98, and `unmarshal` then panics at line 55 once the input check passes; a nil `TypeUnmarshalFunc` panics the same way at line 84. Panicking or stateful unmarshallers cannot be represented, and "never calls the unmarshaller" is stated as result independence only.
- Go's two sentinel errors (custom_types.go:9-10) carry no expected or actual types, and the model keeps the bare sentinels.
- The interfaces `TypeMarshaller` / `TypeUnmarshaller` and the adapters `TypeMarshalFunc` / `TypeUnmarshalFunc` (custom_types.go:67-85) are not modelled separately. They only delegate, and one Dafny function type stands for both forms.
- Concurrency is not modelled. The Go map is unsynchronised and the code takes no lock.
- The registry is not a process-wide global. It is one `Registry` object, and the global's initial value is its constructor.
- The JSON:API document encoder and decoder, which look records up by field type, are not part of this model.
- Payloads are opaque. No concrete conversion (such as an identifier to its decimal string) is modelled.
