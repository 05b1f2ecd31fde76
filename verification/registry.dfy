/**
 * The package-level registry `customTypes`: a map from a type identity to the
 * conversion record registered for it, keyed by the record's `inType`.
 * Registration inserts with last-write-wins and never fails, clearing
 * replaces the map by an empty one, and the membership test only reads.
 */
module Registry {
  import opened Wrappers
  import opened CustomTypes

  /** Every entry is filed under its own application type. */
  ghost predicate KeyedByInType(m: map<Type, CustomType>)
  {
    forall t :: t in m ==> m[t].inType == t
  }

  /**
   * The map after one registration: the record is filed under its `inType`,
   * replacing whatever was there, and every other key keeps its entry.
   */
  function Insert(m: map<Type, CustomType>, ct: CustomType): (r: map<Type, CustomType>)
    ensures ct.inType in r && r[ct.inType] == ct
    ensures forall t :: t != ct.inType ==> (t in r <==> t in m)
    ensures forall t :: t != ct.inType && t in m ==> r[t] == m[t]
    ensures r.Keys == m.Keys + {ct.inType}
    ensures KeyedByInType(m) ==> KeyedByInType(r)
  {
    m[ct.inType := ct]
  }

  /** Registering twice under the same application type keeps only the later record. */
  lemma LastWriteWins(m: map<Type, CustomType>, first: CustomType, second: CustomType)
    requires first.inType == second.inType
    ensures Insert(Insert(m, first), second) == Insert(m, second)
  {
  }

  /** Registrations under distinct type identities (a type and its pointer type) do not disturb each other. */
  lemma DistinctKeysIndependent(m: map<Type, CustomType>, a: CustomType, b: CustomType)
    requires a.inType != b.inType
    ensures var r := Insert(Insert(m, a), b);
            a.inType in r && r[a.inType] == a && b.inType in r && r[b.inType] == b
  {
  }

  /** One call that changes the registry. */
  datatype Call = Register(ct: CustomType) | Clear

  /** The registry's map after one call. */
  function Step(m: map<Type, CustomType>, c: Call): map<Type, CustomType>
  {
    match c
    case Register(ct) => Insert(m, ct)
    case Clear => map[]
  }

  /** The registry's map after a sequence of calls, performed first to last. */
  function Run(m: map<Type, CustomType>, calls: seq<Call>): map<Type, CustomType>
    decreases |calls|
  {
    if calls == [] then m else Run(Step(m, calls[0]), calls[1..])
  }

  /** What the calls did, last of all, to the entry for one key. */
  datatype Effect = Untouched | Emptied | Filed(ct: CustomType)

  /**
   * The reference definition: the effect on key `t` of the last call that
   * concerns it, a `Clear` or a registration under `t`.
   */
  function LastEffect(calls: seq<Call>, t: Type): (e: Effect)
    ensures e.Filed? ==> e.ct.inType == t && Register(e.ct) in calls
    ensures e.Emptied? ==> Clear in calls
    decreases |calls|
  {
    if calls == [] then Untouched
    else
      match LastEffect(calls[1..], t)
      case Untouched =>
        (match calls[0]
         case Clear => Emptied
         case Register(ct) => if ct.inType == t then Filed(ct) else Untouched)
      case e => e
  }

  /**
   * After any sequence of calls, the entry for `t` is the record of the last
   * registration under `t` since the last clear; if the calls ended with a
   * clear after it, there is none; if no call concerned `t`, the entry is
   * the one before the calls.
   */
  lemma {:induction false} RunLookup(m: map<Type, CustomType>, calls: seq<Call>, t: Type)
    ensures LastEffect(calls, t) == Untouched ==>
              (t in Run(m, calls) <==> t in m) && (t in m ==> Run(m, calls)[t] == m[t])
    ensures LastEffect(calls, t) == Emptied ==> t !in Run(m, calls)
    ensures LastEffect(calls, t).Filed? ==>
              t in Run(m, calls) && Run(m, calls)[t] == LastEffect(calls, t).ct
    decreases |calls|
  {
    if calls != [] {
      RunLookup(Step(m, calls[0]), calls[1..], t);
    }
  }

  /** Every sequence of calls keeps each entry filed under its own application type. */
  lemma {:induction false} RunKeyedByInType(m: map<Type, CustomType>, calls: seq<Call>)
    requires KeyedByInType(m)
    ensures KeyedByInType(Run(m, calls))
    decreases |calls|
  {
    if calls != [] {
      RunKeyedByInType(Step(m, calls[0]), calls[1..]);
    }
  }

  /** Registering after a clear leaves exactly that one record registered. */
  lemma ClearThenRegister(m: map<Type, CustomType>, ct: CustomType)
    ensures Run(m, [Clear, Register(ct)]) == map[ct.inType := ct]
  {
    assert [Clear, Register(ct)][1..] == [Register(ct)];
    assert [Register(ct)][1..] == [];
    assert Run(m, [Clear, Register(ct)]) == Run(map[], [Register(ct)]);
    assert Run(map[], [Register(ct)]) == Run(Insert(map[], ct), []);
  }

  /** The process-wide registry, as an object whose map the operations replace. */
  class Registry {
    var customTypes: map<Type, CustomType>

    ghost predicate Valid()
      reads this
    {
      KeyedByInType(customTypes)
    }

    /** The registry as the package initialises it: empty. */
    constructor ()
      ensures Valid()
      ensures customTypes == map[]
    {
      customTypes := map[];
    }

    /** Whether a record is registered for `t`; a lookup that changes nothing. */
    function IsRegisteredType(t: Type): (ok: bool)
      reads this
      ensures ok <==> t in customTypes.Keys
    {
      t in customTypes
    }

    /**
     * Files a record for the four arguments under `inType`, replacing any
     * record already there; every other entry stays as it was. It cannot fail.
     */
    method RegisterCustomType(inType: Type, outType: Type, marshaller: Marshaller, unmarshaller: Unmarshaller)
      requires Valid()
      modifies this
      ensures Valid()
      ensures customTypes == Insert(old(customTypes), CustomType(inType, outType, marshaller, unmarshaller))
      ensures customTypes == Step(old(customTypes), Register(CustomType(inType, outType, marshaller, unmarshaller)))
      ensures IsRegisteredType(inType)
      ensures customTypes[inType] == CustomType(inType, outType, marshaller, unmarshaller)
      ensures forall t :: t != inType ==> IsRegisteredType(t) == old(IsRegisteredType(t))
      ensures forall t :: t != inType && t in old(customTypes) ==> customTypes[t] == old(customTypes)[t]
    {
      customTypes := customTypes[inType := CustomType(inType, outType, marshaller, unmarshaller)];
    }

    /** The function-typed form of `RegisterCustomType`, to which it delegates. */
    method RegisterCustomTypeFunc(inType: Type, outType: Type, marshaller: Marshaller, unmarshaller: Unmarshaller)
      requires Valid()
      modifies this
      ensures Valid()
      ensures customTypes == Insert(old(customTypes), CustomType(inType, outType, marshaller, unmarshaller))
    {
      RegisterCustomType(inType, outType, marshaller, unmarshaller);
    }

    /** Discards every record: afterwards no type is registered. */
    method ClearCustomTypes()
      modifies this
      ensures Valid()
      ensures customTypes == map[]
      ensures customTypes == Step(old(customTypes), Clear)
      ensures forall t :: !IsRegisteredType(t)
    {
      customTypes := map[];
    }
  }

  /**
   * The registration scenario the package's test runs, over a list of
   * application types (there: `UUID` and `*UUID`): for each one, clear the
   * registry, register it against the wire type, and check that it is
   * registered. Every check succeeds, and the registry ends up holding
   * only the last type's record, filed under that type.
   */
  method RegisterEachAfterClear(appTypes: seq<Type>, wireType: Type, marshaller: Marshaller, unmarshaller: Unmarshaller)
    returns (allRegistered: bool, final: map<Type, CustomType>)
    ensures allRegistered
    ensures KeyedByInType(final)
    ensures appTypes != [] ==> final.Keys == {appTypes[|appTypes| - 1]}
    ensures appTypes != [] ==>
              final[appTypes[|appTypes| - 1]] == CustomType(appTypes[|appTypes| - 1], wireType, marshaller, unmarshaller)
    ensures appTypes == [] ==> final == map[]
  {
    var reg := new Registry();
    allRegistered := true;
    for i := 0 to |appTypes|
      invariant reg.Valid()
      invariant allRegistered
      invariant i == 0 ==> reg.customTypes.Keys == {}
      invariant i > 0 ==> reg.customTypes.Keys == {appTypes[i - 1]}
      invariant i > 0 ==> reg.customTypes[appTypes[i - 1]] == CustomType(appTypes[i - 1], wireType, marshaller, unmarshaller)
    {
      reg.ClearCustomTypes();
      reg.RegisterCustomTypeFunc(appTypes[i], wireType, marshaller, unmarshaller);
      allRegistered := allRegistered && reg.IsRegisteredType(appTypes[i]);
    }
    final := reg.customTypes;
  }
}
