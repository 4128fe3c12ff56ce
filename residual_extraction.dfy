/** The extraction pass that the three `ResourceTypeSchema` constructors run
    over the engine's "unprocessed properties": each recognised vendor key is
    read, converted and deleted; what remains is the residual the schema
    exposes.  The functions here state what the pass computes; the loop
    methods read the pointer arrays element by element as the constructors'
    `forEach` calls do. */
module ResidualExtraction {

  import opened Wrappers
  import opened JavaText
  import opened JsonValues
  import opened JsonPointers

  // ---------------------------------------------------------------------
  // Recognised keys

  const SourceUrlKey := "sourceUrl"
  const DocumentationUrlKey := "documentationUrl"
  const TypeNameKey := "typeName"
  const CreateOnlyKey := "createOnlyProperties"
  const DeprecatedKey := "deprecatedProperties"
  const PrimaryIdentifierKey := "primaryIdentifier"
  const AdditionalIdentifiersKey := "additionalIdentifiers"
  const ReadOnlyKey := "readOnlyProperties"
  const WriteOnlyKey := "writeOnlyProperties"
  /** The list-of-lists key of the oldest variant. */
  const IdentifiersKey := "identifiers"

  /** The nine keys the current and the com.amazonaws constructors consume. */
  const InterpretedKeys: set<string> :=
    {SourceUrlKey, DocumentationUrlKey, TypeNameKey, CreateOnlyKey, DeprecatedKey,
     PrimaryIdentifierKey, AdditionalIdentifiersKey, ReadOnlyKey, WriteOnlyKey}

  /** The seven keys the com.aws.cfn constructor consumes. */
  const CfnInterpretedKeys: set<string> :=
    {SourceUrlKey, TypeNameKey, CreateOnlyKey, DeprecatedKey, IdentifiersKey, ReadOnlyKey, WriteOnlyKey}

  /** The recognised keys are pairwise distinct (stated once, so that
      removing one of them visibly leaves the others in place). */
  lemma KeysDistinct()
    ensures |SourceUrlKey| == 9 && |DocumentationUrlKey| == 16 && |TypeNameKey| == 8
    ensures |CreateOnlyKey| == 20 && |DeprecatedKey| == 20 && |PrimaryIdentifierKey| == 17
    ensures |AdditionalIdentifiersKey| == 21 && |ReadOnlyKey| == 18 && |WriteOnlyKey| == 19
    ensures |IdentifiersKey| == 11
    ensures CreateOnlyKey != DeprecatedKey
  {
    assert CreateOnlyKey[0] != DeprecatedKey[0];
  }

  // ---------------------------------------------------------------------
  // Converting one value

  /** `containsKey(k) ? get(k).toString() : null`. */
  function ScalarText(residual: map<string, Json>, key: string): (r: Option<string>)
    ensures r.Some? <==> key in residual
    ensures key in residual && residual[key].JString? ==> r == Some(residual[key].str)
  {
    if key in residual then Some(ToJavaString(residual[key])) else None
  }

  /** `new JSONPointer(p.toString())` for every element, in order; the first
      element whose text is not a pointer raises IllegalArgumentException. */
  function PointerList(es: seq<Json>): (r: Result<seq<JsonPointer>, Fault>)
    ensures r.Success? <==> forall i :: 0 <= i < |es| ==> Parse(ToJavaString(es[i])).Success?
    ensures r.Success? ==> |r.value| == |es|
    ensures r.Success? ==> forall i :: 0 <= i < |es| ==> Parse(ToJavaString(es[i])) == Success(r.value[i])
    ensures r.Failure? ==> r.error == IllegalArgument
    decreases |es|
  {
    if es == [] then Success([])
    else
      var p :- Parse(ToJavaString(es[0]));
      var rest :- PointerList(es[1..]);
      Success([p] + rest)
  }

  /** `((ArrayList<?>) v).forEach(p -> list.add(new JSONPointer(p.toString())))`:
      a value that is not a JSON array fails the cast. */
  function PointerArray(v: Json): (r: Result<seq<JsonPointer>, Fault>)
    ensures !v.JArray? ==> r == Failure(ClassCast)
    ensures v.JArray? ==> r == PointerList(v.elems)
  {
    if v.JArray? then PointerList(v.elems) else Failure(ClassCast)
  }

  /** The nested loop of `additionalIdentifiers` / `identifiers`: every
      element must itself be an array of pointer texts; inner lists are kept
      as they are, in order. */
  function IdentifierLists(es: seq<Json>): (r: Result<seq<seq<JsonPointer>>, Fault>)
    ensures r.Success? <==> forall i :: 0 <= i < |es| ==> PointerArray(es[i]).Success?
    ensures r.Success? ==> |r.value| == |es|
    ensures r.Success? ==> forall i :: 0 <= i < |es| ==> PointerArray(es[i]) == Success(r.value[i])
    ensures r.Failure? ==>
      exists k :: 0 <= k < |es| && PointerArray(es[k]) == Failure(r.error) && forall j :: 0 <= j < k ==> PointerArray(es[j]).Success?
    decreases |es|
  {
    if es == [] then Success([])
    else
      var ps :- PointerArray(es[0]);
      var rest :- IdentifierLists(es[1..]);
      Success([ps] + rest)
  }

  function IdentifierArray(v: Json): (r: Result<seq<seq<JsonPointer>>, Fault>)
    ensures !v.JArray? ==> r == Failure(ClassCast)
    ensures v.JArray? ==> r == IdentifierLists(v.elems)
  {
    if v.JArray? then IdentifierLists(v.elems) else Failure(ClassCast)
  }

  /** A pointer-list key: read when present, an empty list when absent. */
  function PointerField(residual: map<string, Json>, key: string): (r: Result<seq<JsonPointer>, Fault>)
    ensures key !in residual ==> r == Success([])
    ensures key in residual ==> r == PointerArray(residual[key])
  {
    if key in residual then PointerArray(residual[key]) else Success([])
  }

  function IdentifierField(residual: map<string, Json>, key: string): (r: Result<seq<seq<JsonPointer>>, Fault>)
    ensures key !in residual ==> r == Success([])
    ensures key in residual ==> r == IdentifierArray(residual[key])
  {
    if key in residual then IdentifierArray(residual[key]) else Success([])
  }

  // ---------------------------------------------------------------------
  // The whole pass (current and com.amazonaws variants)

  datatype SchemaFields = SchemaFields(
    unprocessed: map<string, Json>,
    sourceUrl: Option<string>,
    documentationUrl: Option<string>,
    typeName: string,
    createOnlyProperties: seq<JsonPointer>,
    deprecatedProperties: seq<JsonPointer>,
    primaryIdentifier: seq<JsonPointer>,
    additionalIdentifiers: seq<seq<JsonPointer>>,
    readOnlyProperties: seq<JsonPointer>,
    writeOnlyProperties: seq<JsonPointer>)

  /** Every list-valued key that is present holds a well-formed value. */
  predicate ListsWellFormed(residual: map<string, Json>) {
    PointerField(residual, CreateOnlyKey).Success?
    && PointerField(residual, DeprecatedKey).Success?
    && PointerField(residual, PrimaryIdentifierKey).Success?
    && IdentifierField(residual, AdditionalIdentifiersKey).Success?
    && PointerField(residual, ReadOnlyKey).Success?
    && PointerField(residual, WriteOnlyKey).Success?
  }

  /** What the constructor leaves behind: the residual without the keys it
      consumed. */
  function Without(residual: map<string, Json>, keys: set<string>): (r: map<string, Json>)
    ensures forall k :: k in r <==> k in residual && k !in keys
    ensures forall k :: k in r ==> r[k] == residual[k]
  {
    map k | k in residual && k !in keys :: residual[k]
  }

  /** The six pointer lists, as the constructor stores them. */
  datatype PointerLists = PointerLists(
    createOnly: seq<JsonPointer>,
    deprecated: seq<JsonPointer>,
    primary: seq<JsonPointer>,
    additional: seq<seq<JsonPointer>>,
    readOnly: seq<JsonPointer>,
    writeOnly: seq<JsonPointer>)

  /** The six list keys in the constructor's order, the first failure
      propagating. */
  function ListFields(m: map<string, Json>): (r: Result<PointerLists, Fault>)
    ensures r.Success? <==> ListsWellFormed(m)
    ensures r.Success? ==> Success(r.value.createOnly) == PointerField(m, CreateOnlyKey)
    ensures r.Success? ==> Success(r.value.deprecated) == PointerField(m, DeprecatedKey)
    ensures r.Success? ==> Success(r.value.primary) == PointerField(m, PrimaryIdentifierKey)
    ensures r.Success? ==> Success(r.value.additional) == IdentifierField(m, AdditionalIdentifiersKey)
    ensures r.Success? ==> Success(r.value.readOnly) == PointerField(m, ReadOnlyKey)
    ensures r.Success? ==> Success(r.value.writeOnly) == PointerField(m, WriteOnlyKey)
  {
    var createOnly :- PointerField(m, CreateOnlyKey);
    var deprecated :- PointerField(m, DeprecatedKey);
    var primary :- PointerField(m, PrimaryIdentifierKey);
    var additional :- IdentifierField(m, AdditionalIdentifiersKey);
    var readOnly :- PointerField(m, ReadOnlyKey);
    var writeOnly :- PointerField(m, WriteOnlyKey);
    Success(PointerLists(createOnly, deprecated, primary, additional, readOnly, writeOnly))
  }

  /** Removing keys that are not list keys does not change what the list
      steps read. */
  lemma ListFieldsIgnore(m: map<string, Json>, keys: set<string>)
    requires CreateOnlyKey !in keys && DeprecatedKey !in keys && PrimaryIdentifierKey !in keys
    requires AdditionalIdentifiersKey !in keys && ReadOnlyKey !in keys && WriteOnlyKey !in keys
    ensures ListFields(m - keys) == ListFields(m)
  {
    assert PointerField(m - keys, CreateOnlyKey) == PointerField(m, CreateOnlyKey);
    assert PointerField(m - keys, DeprecatedKey) == PointerField(m, DeprecatedKey);
    assert PointerField(m - keys, PrimaryIdentifierKey) == PointerField(m, PrimaryIdentifierKey);
    assert IdentifierField(m - keys, AdditionalIdentifiersKey) == IdentifierField(m, AdditionalIdentifiersKey);
    assert PointerField(m - keys, ReadOnlyKey) == PointerField(m, ReadOnlyKey);
    assert PointerField(m - keys, WriteOnlyKey) == PointerField(m, WriteOnlyKey);
  }

  /** The steps in the constructor's order: the two optional URLs, the
      mandatory `typeName` (its absence is a NullPointerException), then the
      six list keys. */
  function Extract(residual: map<string, Json>): (r: Result<SchemaFields, Fault>)
    ensures r.Success? <==> TypeNameKey in residual && ListsWellFormed(residual)
    ensures TypeNameKey !in residual ==> r == Failure(NullPointer)
    ensures TypeNameKey in residual && !ListsWellFormed(residual) ==> r == Failure(ListFields(residual).error)
    ensures r.Success? ==> r.value.unprocessed == Without(residual, InterpretedKeys)
    ensures r.Success? ==> r.value.sourceUrl == ScalarText(residual, SourceUrlKey)
    ensures r.Success? ==> r.value.documentationUrl == ScalarText(residual, DocumentationUrlKey)
    ensures r.Success? && residual[TypeNameKey].JString? ==> r.value.typeName == residual[TypeNameKey].str
    ensures r.Success? ==> Success(r.value.createOnlyProperties) == PointerField(residual, CreateOnlyKey)
    ensures r.Success? ==> Success(r.value.deprecatedProperties) == PointerField(residual, DeprecatedKey)
    ensures r.Success? ==> Success(r.value.primaryIdentifier) == PointerField(residual, PrimaryIdentifierKey)
    ensures r.Success? ==> Success(r.value.additionalIdentifiers) == IdentifierField(residual, AdditionalIdentifiersKey)
    ensures r.Success? ==> Success(r.value.readOnlyProperties) == PointerField(residual, ReadOnlyKey)
    ensures r.Success? ==> Success(r.value.writeOnlyProperties) == PointerField(residual, WriteOnlyKey)
  {
    var sourceUrl := ScalarText(residual, SourceUrlKey);
    var documentationUrl := ScalarText(residual, DocumentationUrlKey);
    if TypeNameKey !in residual then Failure(NullPointer)
    else
      var typeName := ToJavaString(residual[TypeNameKey]);
      var lists :- ListFields(residual);
      Success(SchemaFields(Without(residual, InterpretedKeys), sourceUrl, documentationUrl, typeName,
                           lists.createOnly, lists.deprecated, lists.primary, lists.additional,
                           lists.readOnly, lists.writeOnly))
  }

  /** What `Extract` builds once the scalars are read and the list steps
      have succeeded on the map without the three scalar keys. */
  lemma ExtractBuilds(residual: map<string, Json>, lists: PointerLists, rest: map<string, Json>)
    requires TypeNameKey in residual
    requires ListFields(residual - {SourceUrlKey, DocumentationUrlKey, TypeNameKey}) == Success(lists)
    requires rest == residual - {SourceUrlKey, DocumentationUrlKey, TypeNameKey}
      - {CreateOnlyKey, DeprecatedKey, PrimaryIdentifierKey, AdditionalIdentifiersKey, ReadOnlyKey, WriteOnlyKey}
    ensures Extract(residual) == Success(SchemaFields(rest, ScalarText(residual, SourceUrlKey),
      ScalarText(residual, DocumentationUrlKey), ToJavaString(residual[TypeNameKey]), lists.createOnly,
      lists.deprecated, lists.primary, lists.additional, lists.readOnly, lists.writeOnly))
  {
    KeysDistinct();
    ListFieldsIgnore(residual, {SourceUrlKey, DocumentationUrlKey, TypeNameKey});
    assert rest == Without(residual, InterpretedKeys);
  }

  /** The error `Extract` reports when a list step fails. */
  lemma ExtractFails(residual: map<string, Json>)
    requires TypeNameKey in residual
    requires ListFields(residual - {SourceUrlKey, DocumentationUrlKey, TypeNameKey}).Failure?
    ensures Extract(residual) == Failure(ListFields(residual - {SourceUrlKey, DocumentationUrlKey, TypeNameKey}).error)
  {
    KeysDistinct();
    ListFieldsIgnore(residual, {SourceUrlKey, DocumentationUrlKey, TypeNameKey});
  }

  // ---------------------------------------------------------------------
  // The oldest pass (com.aws.cfn): optional typeName, `identifiers`

  datatype CfnFields = CfnFields(
    unprocessed: map<string, Json>,
    sourceUrl: Option<string>,
    typeName: Option<string>,
    createOnlyProperties: seq<JsonPointer>,
    deprecatedProperties: seq<JsonPointer>,
    identifiers: seq<seq<JsonPointer>>,
    readOnlyProperties: seq<JsonPointer>,
    writeOnlyProperties: seq<JsonPointer>)

  predicate CfnListsWellFormed(residual: map<string, Json>) {
    PointerField(residual, CreateOnlyKey).Success?
    && PointerField(residual, DeprecatedKey).Success?
    && IdentifierField(residual, IdentifiersKey).Success?
    && PointerField(residual, ReadOnlyKey).Success?
    && PointerField(residual, WriteOnlyKey).Success?
  }

  /** The five list steps of the oldest constructor, in its order. */
  datatype CfnLists = CfnLists(
    createOnly: seq<JsonPointer>,
    deprecated: seq<JsonPointer>,
    identifiers: seq<seq<JsonPointer>>,
    readOnly: seq<JsonPointer>,
    writeOnly: seq<JsonPointer>)

  function CfnListFields(m: map<string, Json>): (r: Result<CfnLists, Fault>)
    ensures r.Success? <==> CfnListsWellFormed(m)
    ensures r.Failure? ==> r.error == ClassCast || r.error == IllegalArgument
    ensures r.Success? ==> Success(r.value.createOnly) == PointerField(m, CreateOnlyKey)
    ensures r.Success? ==> Success(r.value.deprecated) == PointerField(m, DeprecatedKey)
    ensures r.Success? ==> Success(r.value.identifiers) == IdentifierField(m, IdentifiersKey)
    ensures r.Success? ==> Success(r.value.readOnly) == PointerField(m, ReadOnlyKey)
    ensures r.Success? ==> Success(r.value.writeOnly) == PointerField(m, WriteOnlyKey)
  {
    FieldFaults(m);
    var createOnly :- PointerField(m, CreateOnlyKey);
    var deprecated :- PointerField(m, DeprecatedKey);
    var identifiers :- IdentifierField(m, IdentifiersKey);
    var readOnly :- PointerField(m, ReadOnlyKey);
    var writeOnly :- PointerField(m, WriteOnlyKey);
    Success(CfnLists(createOnly, deprecated, identifiers, readOnly, writeOnly))
  }

  lemma CfnListFieldsIgnore(m: map<string, Json>, keys: set<string>)
    requires CreateOnlyKey !in keys && DeprecatedKey !in keys && IdentifiersKey !in keys
    requires ReadOnlyKey !in keys && WriteOnlyKey !in keys
    ensures CfnListFields(m - keys) == CfnListFields(m)
  {
    assert PointerField(m - keys, CreateOnlyKey) == PointerField(m, CreateOnlyKey);
    assert PointerField(m - keys, DeprecatedKey) == PointerField(m, DeprecatedKey);
    assert IdentifierField(m - keys, IdentifiersKey) == IdentifierField(m, IdentifiersKey);
    assert PointerField(m - keys, ReadOnlyKey) == PointerField(m, ReadOnlyKey);
    assert PointerField(m - keys, WriteOnlyKey) == PointerField(m, WriteOnlyKey);
  }

  /** The oldest constructor: both scalars optional, every key it knows
      removed whether or not it was present, a failure only from a list. */
  function ExtractCfn(residual: map<string, Json>): (r: Result<CfnFields, Fault>)
    ensures r.Success? <==> CfnListsWellFormed(residual)
    ensures r.Failure? ==> r.error == ClassCast || r.error == IllegalArgument
    ensures r.Success? ==> r.value.unprocessed == Without(residual, CfnInterpretedKeys)
    ensures r.Success? ==> r.value.sourceUrl == ScalarText(residual, SourceUrlKey)
    ensures r.Success? ==> r.value.typeName == ScalarText(residual, TypeNameKey)
    ensures r.Success? ==> Success(r.value.createOnlyProperties) == PointerField(residual, CreateOnlyKey)
    ensures r.Success? ==> Success(r.value.deprecatedProperties) == PointerField(residual, DeprecatedKey)
    ensures r.Success? ==> Success(r.value.identifiers) == IdentifierField(residual, IdentifiersKey)
    ensures r.Success? ==> Success(r.value.readOnlyProperties) == PointerField(residual, ReadOnlyKey)
    ensures r.Success? ==> Success(r.value.writeOnlyProperties) == PointerField(residual, WriteOnlyKey)
  {
    var lists :- CfnListFields(residual);
    Success(CfnFields(Without(residual, CfnInterpretedKeys), ScalarText(residual, SourceUrlKey),
                      ScalarText(residual, TypeNameKey), lists.createOnly, lists.deprecated,
                      lists.identifiers, lists.readOnly, lists.writeOnly))
  }

  lemma ExtractCfnBuilds(residual: map<string, Json>, lists: CfnLists, rest: map<string, Json>)
    requires CfnListFields(residual - {SourceUrlKey, TypeNameKey}) == Success(lists)
    requires rest == residual - {SourceUrlKey, TypeNameKey}
      - {CreateOnlyKey, DeprecatedKey, IdentifiersKey, ReadOnlyKey, WriteOnlyKey}
    ensures ExtractCfn(residual) == Success(CfnFields(rest, ScalarText(residual, SourceUrlKey),
      ScalarText(residual, TypeNameKey), lists.createOnly, lists.deprecated, lists.identifiers,
      lists.readOnly, lists.writeOnly))
  {
    KeysDistinct();
    CfnListFieldsIgnore(residual, {SourceUrlKey, TypeNameKey});
    assert rest == Without(residual, CfnInterpretedKeys);
  }

  lemma ExtractCfnFails(residual: map<string, Json>)
    requires CfnListFields(residual - {SourceUrlKey, TypeNameKey}).Failure?
    ensures ExtractCfn(residual) == Failure(CfnListFields(residual - {SourceUrlKey, TypeNameKey}).error)
  {
    KeysDistinct();
    CfnListFieldsIgnore(residual, {SourceUrlKey, TypeNameKey});
  }

  /** A list key can only fail the cast or hold a text that is no pointer. */
  lemma FieldFaults(residual: map<string, Json>)
    ensures forall key :: PointerField(residual, key).Failure? ==>
      PointerField(residual, key).error == ClassCast || PointerField(residual, key).error == IllegalArgument
    ensures forall key :: IdentifierField(residual, key).Failure? ==>
      IdentifierField(residual, key).error == ClassCast || IdentifierField(residual, key).error == IllegalArgument
  {
    forall key | IdentifierField(residual, key).Failure?
      ensures IdentifierField(residual, key).error == ClassCast || IdentifierField(residual, key).error == IllegalArgument
    {
      if key in residual && residual[key].JArray? {
        IdentifierListsFault(residual[key].elems);
      }
    }
  }

  lemma {:induction false} IdentifierListsFault(es: seq<Json>)
    ensures IdentifierLists(es).Failure? ==>
      IdentifierLists(es).error == ClassCast || IdentifierLists(es).error == IllegalArgument
    decreases |es|
  {
    if es != [] {
      IdentifierListsFault(es[1..]);
    }
  }

  // ---------------------------------------------------------------------
  // The constructors' loops

  /** The `forEach` that appends one `JSONPointer` per element. */
  method ReadPointers(v: Json) returns (r: Result<seq<JsonPointer>, Fault>)
    ensures r == PointerArray(v)
  {
    if !v.JArray? {
      return Failure(ClassCast);
    }
    var es := v.elems;
    var acc: seq<JsonPointer> := [];
    var i := 0;
    while i < |es|
      invariant 0 <= i <= |es| && |acc| == i
      invariant forall j :: 0 <= j < i ==> Parse(ToJavaString(es[j])) == Success(acc[j])
    {
      var p := Parse(ToJavaString(es[i]));
      if p.Failure? {
        return Failure(p.error);
      }
      acc := acc + [p.value];
      i := i + 1;
    }
    assert PointerList(es).value == acc;
    return Success(acc);
  }

  /** The nested `forEach` that builds one identifier list per element. */
  method ReadIdentifierLists(v: Json) returns (r: Result<seq<seq<JsonPointer>>, Fault>)
    ensures r == IdentifierArray(v)
  {
    if !v.JArray? {
      return Failure(ClassCast);
    }
    var es := v.elems;
    var acc: seq<seq<JsonPointer>> := [];
    var i := 0;
    while i < |es|
      invariant 0 <= i <= |es| && |acc| == i
      invariant forall j :: 0 <= j < i ==> PointerArray(es[j]) == Success(acc[j])
    {
      var identifiers := ReadPointers(es[i]);
      if identifiers.Failure? {
        return Failure(identifiers.error);
      }
      acc := acc + [identifiers.value];
      i := i + 1;
    }
    assert IdentifierLists(es).value == acc;
    return Success(acc);
  }

  /** The constructor's six `computeIfPresent` calls: each list key is read
      in turn, the first failure aborting; on success all six are gone from
      the working map.  The keys are distinct, so reading each from the map
      as it was before the calls reads the same value as reading it after
      the earlier removals. */
  method ReadLists(m: map<string, Json>) returns (r: Result<PointerLists, Fault>, rest: map<string, Json>)
    ensures r == ListFields(m)
    ensures r.Success? ==> rest == m - {CreateOnlyKey, DeprecatedKey, PrimaryIdentifierKey,
                                         AdditionalIdentifiersKey, ReadOnlyKey, WriteOnlyKey}
  {
    rest := m;
    var createOnly := ReadPointerField(m, CreateOnlyKey);
    if createOnly.Failure? {
      return Failure(createOnly.error), rest;
    }
    var deprecated := ReadPointerField(m, DeprecatedKey);
    if deprecated.Failure? {
      return Failure(deprecated.error), rest;
    }
    var primary := ReadPointerField(m, PrimaryIdentifierKey);
    if primary.Failure? {
      return Failure(primary.error), rest;
    }
    var additional := ReadIdentifierField(m, AdditionalIdentifiersKey);
    if additional.Failure? {
      return Failure(additional.error), rest;
    }
    var readOnly := ReadPointerField(m, ReadOnlyKey);
    if readOnly.Failure? {
      return Failure(readOnly.error), rest;
    }
    var writeOnly := ReadPointerField(m, WriteOnlyKey);
    if writeOnly.Failure? {
      return Failure(writeOnly.error), rest;
    }
    rest := m - {CreateOnlyKey, DeprecatedKey, PrimaryIdentifierKey, AdditionalIdentifiersKey, ReadOnlyKey, WriteOnlyKey};
    r := Success(PointerLists(createOnly.value, deprecated.value, primary.value, additional.value,
                              readOnly.value, writeOnly.value));
  }

  /** The oldest constructor's five `containsKey`/`get`/`remove` steps. */
  method ReadCfnLists(m: map<string, Json>) returns (r: Result<CfnLists, Fault>, rest: map<string, Json>)
    ensures r == CfnListFields(m)
    ensures r.Success? ==> rest == m - {CreateOnlyKey, DeprecatedKey, IdentifiersKey, ReadOnlyKey, WriteOnlyKey}
  {
    rest := m;
    var createOnly := ReadPointerField(m, CreateOnlyKey);
    if createOnly.Failure? {
      return Failure(createOnly.error), rest;
    }
    var deprecated := ReadPointerField(m, DeprecatedKey);
    if deprecated.Failure? {
      return Failure(deprecated.error), rest;
    }
    var identifiers := ReadIdentifierField(m, IdentifiersKey);
    if identifiers.Failure? {
      return Failure(identifiers.error), rest;
    }
    var readOnly := ReadPointerField(m, ReadOnlyKey);
    if readOnly.Failure? {
      return Failure(readOnly.error), rest;
    }
    var writeOnly := ReadPointerField(m, WriteOnlyKey);
    if writeOnly.Failure? {
      return Failure(writeOnly.error), rest;
    }
    rest := m - {CreateOnlyKey, DeprecatedKey, IdentifiersKey, ReadOnlyKey, WriteOnlyKey};
    r := Success(CfnLists(createOnly.value, deprecated.value, identifiers.value, readOnly.value, writeOnly.value));
  }

  /** One `computeIfPresent` for a pointer-list key. */
  method ReadPointerField(m: map<string, Json>, key: string) returns (r: Result<seq<JsonPointer>, Fault>)
    ensures r == PointerField(m, key)
  {
    r := Success([]);
    if key in m {
      r := ReadPointers(m[key]);
    }
  }

  method ReadIdentifierField(m: map<string, Json>, key: string) returns (r: Result<seq<seq<JsonPointer>>, Fault>)
    ensures r == IdentifierField(m, key)
  {
    r := Success([]);
    if key in m {
      r := ReadIdentifierLists(m[key]);
    }
  }

  // ---------------------------------------------------------------------
  // Properties of the pass

  /** The text of every array element, as `p.toString()` gives it. */
  function Texts(es: seq<Json>): (r: seq<string>)
    ensures |r| == |es|
  {
    seq(|es|, i requires 0 <= i < |es| => ToJavaString(es[i]))
  }

  /** An array of pointer texts, each of which prints back unchanged. */
  predicate PlainPointerArray(v: Json) {
    v.JArray? && forall i :: 0 <= i < |v.elems| ==> PlainPointerText(ToJavaString(v.elems[i]))
  }

  /** Reading then rendering a plain pointer array gives back its texts, in
      their order: what `get*AsStrings` returns is what the schema said. */
  lemma PointerArrayRendered(v: Json)
    requires PlainPointerArray(v)
    ensures PointerArray(v).Success?
    ensures AsStrings(PointerArray(v).value) == Texts(v.elems)
  {
    var es := v.elems;
    forall i | 0 <= i < |es|
      ensures Parse(ToJavaString(es[i])).Success?
    {
      ToStringParse(ToJavaString(es[i]));
    }
    var ps := PointerArray(v).value;
    forall i | 0 <= i < |es|
      ensures ToString(ps[i]) == ToJavaString(es[i])
    {
      ToStringParse(ToJavaString(es[i]));
    }
  }

  /** What a pointer-list field renders to, in terms of the residual: the
      empty list when the key is absent, the original texts when they are
      plain. */
  lemma RenderedField(residual: map<string, Json>, key: string, ps: seq<JsonPointer>)
    requires PointerField(residual, key) == Success(ps)
    ensures key !in residual ==> AsStrings(ps) == []
    ensures key in residual && PlainPointerArray(residual[key]) ==> AsStrings(ps) == Texts(residual[key].elems)
  {
    if key in residual && PlainPointerArray(residual[key]) {
      PointerArrayRendered(residual[key]);
    }
  }

  /** The same for a list-of-lists field. */
  lemma RenderedIdentifierField(residual: map<string, Json>, key: string, pss: seq<seq<JsonPointer>>)
    requires IdentifierField(residual, key) == Success(pss)
    ensures key !in residual ==> AsStringLists(pss) == []
    ensures key in residual && PlainIdentifierArray(residual[key]) ==>
      |AsStringLists(pss)| == |residual[key].elems|
      && forall i :: 0 <= i < |pss| ==> AsStringLists(pss)[i] == Texts(residual[key].elems[i].elems)
  {
    if key in residual && PlainIdentifierArray(residual[key]) {
      IdentifierArrayRendered(residual[key]);
    }
  }

  predicate PlainIdentifierArray(v: Json) {
    v.JArray? && forall i :: 0 <= i < |v.elems| ==> PlainPointerArray(v.elems[i])
  }

  /** The same for a list of lists: outer and inner order are both kept. */
  lemma IdentifierArrayRendered(v: Json)
    requires PlainIdentifierArray(v)
    ensures IdentifierArray(v).Success?
    ensures |IdentifierArray(v).value| == |v.elems|
    ensures forall i :: 0 <= i < |v.elems| ==> AsStrings(IdentifierArray(v).value[i]) == Texts(v.elems[i].elems)
  {
    var es := v.elems;
    forall i | 0 <= i < |es|
      ensures PointerArray(es[i]).Success? && AsStrings(PointerArray(es[i]).value) == Texts(es[i].elems)
    {
      PointerArrayRendered(es[i]);
    }
  }

  /** A bare string member under a pointer-list key is not an ArrayList:
      construction fails with ClassCastException. */
  lemma ExtractRejectsNonArray(residual: map<string, Json>, key: string)
    requires TypeNameKey in residual
    requires key in {CreateOnlyKey, DeprecatedKey, PrimaryIdentifierKey, ReadOnlyKey, WriteOnlyKey}
    requires key in residual && !residual[key].JArray?
    ensures Extract(residual).Failure?
  {
  }

  /** The current and oldest passes agree on what they share when the
      oldest one's `identifiers` key is not used. */
  lemma ExtractVariantsAgree(residual: map<string, Json>)
    requires Extract(residual).Success?
    requires IdentifiersKey !in residual
    ensures ExtractCfn(residual).Success?
    ensures ExtractCfn(residual).value.typeName == Some(Extract(residual).value.typeName)
    ensures ExtractCfn(residual).value.createOnlyProperties == Extract(residual).value.createOnlyProperties
    ensures ExtractCfn(residual).value.writeOnlyProperties == Extract(residual).value.writeOnlyProperties
    ensures ExtractCfn(residual).value.identifiers == []
  {
  }
}
