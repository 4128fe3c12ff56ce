/** The current `software.amazon.cloudformation.resource.ResourceTypeSchema`:
    the fields the constructor extracts from the engine's unprocessed
    properties, the string views of its pointer lists, and the write-only
    queries and removals on a resource model. */
module ResourceTypeSchemas {

  import opened Wrappers
  import opened JavaText
  import opened JsonValues
  import opened JsonPointers
  import opened ResidualExtraction
  import opened PublicJsonPointers
  import opened PropertyRemoval

  class ResourceTypeSchema {

    /** The unprocessed properties the schema engine handed over. */
    ghost var residual: map<string, Json>

    var unprocessedProperties: map<string, Json>
    var sourceUrl: Option<string>
    var documentationUrl: Option<string>
    var typeName: string
    var createOnlyProperties: seq<JsonPointer>
    var deprecatedProperties: seq<JsonPointer>
    var primaryIdentifier: seq<JsonPointer>
    var additionalIdentifiers: seq<seq<JsonPointer>>
    var readOnlyProperties: seq<JsonPointer>
    var writeOnlyProperties: seq<JsonPointer>

    ghost function Fields(): SchemaFields
      reads this
    {
      SchemaFields(unprocessedProperties, sourceUrl, documentationUrl, typeName, createOnlyProperties,
                   deprecatedProperties, primaryIdentifier, additionalIdentifiers, readOnlyProperties,
                   writeOnlyProperties)
    }

    /** The fields are what the extraction pass computes from the residual. */
    ghost predicate Valid()
      reads this
    {
      Extract(residual) == Success(Fields())
    }

    /** The field initialisers and the copy of the engine's map
        (`super.getUnprocessedProperties().forEach(put)`). */
    constructor Init(residual: map<string, Json>)
      ensures this.residual == residual && unprocessedProperties == residual
      ensures sourceUrl == None && documentationUrl == None && typeName == ""
      ensures createOnlyProperties == [] && deprecatedProperties == [] && primaryIdentifier == []
      ensures additionalIdentifiers == [] && readOnlyProperties == [] && writeOnlyProperties == []
    {
      this.residual := residual;
      unprocessedProperties := residual;
      sourceUrl, documentationUrl, typeName := None, None, "";
      createOnlyProperties, deprecatedProperties, primaryIdentifier := [], [], [];
      additionalIdentifiers, readOnlyProperties, writeOnlyProperties := [], [], [];
    }

    /** `new ResourceTypeSchema(builder)`: the field initialisers, then the
        recognised keys in the constructor's order; an exception aborts the
        construction. */
    static method Create(residual: map<string, Json>) returns (r: Result<ResourceTypeSchema, Fault>)
      ensures r.Success? <==> Extract(residual).Success?
      ensures r.Failure? ==> r.error == Extract(residual).error
      ensures r.Success? ==> fresh(r.value) && r.value.residual == residual && r.value.Valid()
    {
      var s := new ResourceTypeSchema.Init(residual);
      var scalars := s.TakeScalars();
      if scalars.Fail? {
        return Failure(scalars.error);
      }
      ghost var afterScalars := s.unprocessedProperties;
      var lists := s.TakeLists();
      if lists.Fail? {
        ExtractFails(residual);
        return Failure(lists.error);
      }
      ExtractBuilds(residual, ListFields(afterScalars).value, s.unprocessedProperties);
      return Success(s);
    }

    /** `sourceUrl` and `documentationUrl` are read when present and
        `typeName` always (`get(...).toString()` on a missing key is a
        NullPointerException); each is removed from the map. */
    method TakeScalars() returns (outcome: Outcome<Fault>)
      modifies this`sourceUrl, this`documentationUrl, this`typeName, this`unprocessedProperties
      ensures outcome.Pass? <==> TypeNameKey in old(unprocessedProperties)
      ensures outcome.Fail? ==> outcome.error == NullPointer
      ensures outcome.Pass? ==>
        && sourceUrl == ScalarText(old(unprocessedProperties), SourceUrlKey)
        && documentationUrl == ScalarText(old(unprocessedProperties), DocumentationUrlKey)
        && typeName == ToJavaString(old(unprocessedProperties)[TypeNameKey])
        && unprocessedProperties == old(unprocessedProperties) - {SourceUrlKey, DocumentationUrlKey, TypeNameKey}
    {
      sourceUrl := ScalarText(unprocessedProperties, SourceUrlKey);
      unprocessedProperties := unprocessedProperties - {SourceUrlKey};
      documentationUrl := ScalarText(unprocessedProperties, DocumentationUrlKey);
      unprocessedProperties := unprocessedProperties - {DocumentationUrlKey};
      if TypeNameKey !in unprocessedProperties {
        return Fail(NullPointer);
      }
      typeName := ToJavaString(unprocessedProperties[TypeNameKey]);
      unprocessedProperties := unprocessedProperties - {TypeNameKey};
      return Pass;
    }

    /** The six list keys: each list starts empty and receives the pointers
        read; the first failure aborts. */
    method TakeLists() returns (outcome: Outcome<Fault>)
      modifies this`createOnlyProperties, this`deprecatedProperties, this`primaryIdentifier
      modifies this`additionalIdentifiers, this`readOnlyProperties, this`writeOnlyProperties
      modifies this`unprocessedProperties
      ensures outcome.Pass? <==> ListFields(old(unprocessedProperties)).Success?
      ensures outcome.Fail? ==> outcome.error == ListFields(old(unprocessedProperties)).error
      ensures outcome.Pass? ==>
        var lists := ListFields(old(unprocessedProperties)).value;
        && createOnlyProperties == lists.createOnly && deprecatedProperties == lists.deprecated
        && primaryIdentifier == lists.primary && additionalIdentifiers == lists.additional
        && readOnlyProperties == lists.readOnly && writeOnlyProperties == lists.writeOnly
        && unprocessedProperties == old(unprocessedProperties) - {CreateOnlyKey, DeprecatedKey,
             PrimaryIdentifierKey, AdditionalIdentifiersKey, ReadOnlyKey, WriteOnlyKey}
    {
      var lists, rest := ReadLists(unprocessedProperties);
      if lists.Failure? {
        return Fail(lists.error);
      }
      createOnlyProperties := lists.value.createOnly;
      deprecatedProperties := lists.value.deprecated;
      primaryIdentifier := lists.value.primary;
      additionalIdentifiers := lists.value.additional;
      readOnlyProperties := lists.value.readOnly;
      writeOnlyProperties := lists.value.writeOnly;
      unprocessedProperties := rest;
      return Pass;
    }

    // -------------------------------------------------------------------
    // Getters

    function GetCreateOnlyPropertiesAsStrings(): (r: seq<string>)
      reads this
      requires Valid()
      ensures |r| == |createOnlyProperties|
      ensures CreateOnlyKey !in residual ==> r == []
      ensures CreateOnlyKey in residual && PlainPointerArray(residual[CreateOnlyKey]) ==>
        r == Texts(residual[CreateOnlyKey].elems)
    {
      RenderedField(residual, CreateOnlyKey, createOnlyProperties);
      AsStrings(createOnlyProperties)
    }

    function GetDeprecatedPropertiesAsStrings(): (r: seq<string>)
      reads this
      requires Valid()
      ensures |r| == |deprecatedProperties|
      ensures DeprecatedKey !in residual ==> r == []
      ensures DeprecatedKey in residual && PlainPointerArray(residual[DeprecatedKey]) ==>
        r == Texts(residual[DeprecatedKey].elems)
    {
      RenderedField(residual, DeprecatedKey, deprecatedProperties);
      AsStrings(deprecatedProperties)
    }

    function GetPrimaryIdentifierAsStrings(): (r: seq<string>)
      reads this
      requires Valid()
      ensures |r| == |primaryIdentifier|
      ensures PrimaryIdentifierKey !in residual ==> r == []
      ensures PrimaryIdentifierKey in residual && PlainPointerArray(residual[PrimaryIdentifierKey]) ==>
        r == Texts(residual[PrimaryIdentifierKey].elems)
    {
      RenderedField(residual, PrimaryIdentifierKey, primaryIdentifier);
      AsStrings(primaryIdentifier)
    }

    function GetAdditionalIdentifiersAsStrings(): (r: seq<seq<string>>)
      reads this
      requires Valid()
      ensures |r| == |additionalIdentifiers|
      ensures AdditionalIdentifiersKey !in residual ==> r == []
      ensures AdditionalIdentifiersKey in residual && PlainIdentifierArray(residual[AdditionalIdentifiersKey]) ==>
        |r| == |residual[AdditionalIdentifiersKey].elems|
        && forall i :: 0 <= i < |r| ==> r[i] == Texts(residual[AdditionalIdentifiersKey].elems[i].elems)
    {
      RenderedIdentifierField(residual, AdditionalIdentifiersKey, additionalIdentifiers);
      AsStringLists(additionalIdentifiers)
    }

    function GetReadOnlyPropertiesAsStrings(): (r: seq<string>)
      reads this
      requires Valid()
      ensures |r| == |readOnlyProperties|
      ensures ReadOnlyKey !in residual ==> r == []
      ensures ReadOnlyKey in residual && PlainPointerArray(residual[ReadOnlyKey]) ==>
        r == Texts(residual[ReadOnlyKey].elems)
    {
      RenderedField(residual, ReadOnlyKey, readOnlyProperties);
      AsStrings(readOnlyProperties)
    }

    function GetWriteOnlyPropertiesAsStrings(): (r: seq<string>)
      reads this
      requires Valid()
      ensures |r| == |writeOnlyProperties|
      ensures WriteOnlyKey !in residual ==> r == []
      ensures WriteOnlyKey in residual && PlainPointerArray(residual[WriteOnlyKey]) ==>
        r == Texts(residual[WriteOnlyKey].elems)
    {
      RenderedField(residual, WriteOnlyKey, writeOnlyProperties);
      AsStrings(writeOnlyProperties)
    }

    /** The read-only view of what the constructor did not consume. */
    function GetUnprocessedProperties(): (r: map<string, Json>)
      reads this
      requires Valid()
      ensures forall k :: k in r <==> k in residual && k !in InterpretedKeys
      ensures forall k :: k in r ==> r[k] == residual[k]
    {
      unprocessedProperties
    }

    // -------------------------------------------------------------------
    // Queries and removals on a resource model

    /** `hasProperty(JSONPointer, JSONObject)`: the same test as
        `PublicJSONPointer.isInObject`. */
    function HasProperty(property: JsonPointer, resourceModel: JsonObject): (r: bool)
      reads resourceModel
      ensures r == IsInObject(property, resourceModel.members)
    {
      var q := QueryFrom(property, JObject(resourceModel.members));
      q.Success? && q.value.Some?
    }

    /** `hasProperty(String, JSONObject)`: the text is parsed first, and a
        text that is no pointer raises IllegalArgumentException. */
    function HasPropertyText(property: string, resourceModel: JsonObject): (r: Result<bool, Fault>)
      reads resourceModel
      ensures r.Failure? <==> Parse(property).Failure?
      ensures r.Success? ==> r.value == IsInObject(Parse(property).value, resourceModel.members)
    {
      var p :- Parse(property);
      Success(HasProperty(p, resourceModel))
    }

    /** `hasWriteOnlyProperties`: is any write-only property, rewritten from
        "/properties/..." into the model, present? */
    function HasWriteOnlyProperties(resourceModel: JsonObject): (r: Result<bool, Fault>)
      reads this, resourceModel
      requires Valid()
      ensures r.Failure? ==> r.error == IllegalArgument
      ensures r == Success(false) ==>
        forall i :: 0 <= i < |writeOnlyProperties| ==>
          InstancePointer(ToString(writeOnlyProperties[i])).Success?
          && !IsInObject(InstancePointer(ToString(writeOnlyProperties[i])).value, resourceModel.members)
      ensures r == Success(true) ==>
        exists i :: 0 <= i < |writeOnlyProperties|
          && InstancePointer(ToString(writeOnlyProperties[i])).Success?
          && IsInObject(InstancePointer(ToString(writeOnlyProperties[i])).value, resourceModel.members)
      ensures var texts := GetWriteOnlyPropertiesAsStrings();
        r == Success(false) <==> NonePresent(texts, resourceModel.members)
      ensures var texts := GetWriteOnlyPropertiesAsStrings();
        r == Success(true) <==>
          exists j :: 0 <= j < |texts| && NonePresent(texts[..j], resourceModel.members) && Present(texts[j], resourceModel.members)
      ensures var texts := GetWriteOnlyPropertiesAsStrings();
        r.Failure? <==>
          exists j :: 0 <= j < |texts| && NonePresent(texts[..j], resourceModel.members) && InstancePointer(texts[j]).Failure?
      ensures var texts := GetWriteOnlyPropertiesAsStrings();
        (forall i :: 0 <= i < |texts| ==> InstancePointer(texts[i]).Success?) ==>
          r == Success(exists i :: 0 <= i < |texts| && Present(texts[i], resourceModel.members))
    {
      var texts := GetWriteOnlyPropertiesAsStrings();
      assert forall i :: 0 <= i < |texts| ==> texts[i] == ToString(writeOnlyProperties[i]);
      AnyPresentDecides(texts, resourceModel.members);
      AnyPresentTotal(texts, resourceModel.members);
      AnyPresent(texts, resourceModel.members)
    }

    /** `removeProperty`, as its comments intend: the value the pointer reaches
        is removed from the model in place, and a model that has no parent
        object for it is left alone.  See README, "Findings", for the code as
        written. */
    static method RemoveProperty(property: JsonPointer, resourceModel: JsonObject)
      modifies resourceModel
      ensures resourceModel.members == PropertyRemoved(property, old(resourceModel.members))
    {
      resourceModel.members := PropertyRemoved(property, resourceModel.members);
    }

    /** `removeWriteOnlyProperties`: each write-only property, rewritten into
        the model, is removed in turn; a text that is no pointer after the
        rewrite raises and stops the loop. */
    method RemoveWriteOnlyProperties(resourceModel: JsonObject) returns (outcome: Outcome<Fault>)
      requires Valid()
      modifies resourceModel
      ensures (outcome, resourceModel.members) == StripAll(GetWriteOnlyPropertiesAsStrings(), old(resourceModel.members))
    {
      var texts := GetWriteOnlyPropertiesAsStrings();
      var i := 0;
      while i < |texts|
        invariant 0 <= i <= |texts|
        invariant StripAll(texts, old(resourceModel.members)) == StripAll(texts[i..], resourceModel.members)
      {
        assert texts[i..][0] == texts[i] && texts[i..][1..] == texts[i + 1..];
        var p := InstancePointer(texts[i]);
        if p.Failure? {
          return Fail(p.error);
        }
        RemoveProperty(p.value, resourceModel);
        i := i + 1;
      }
      return Pass;
    }
  }

  /** After `removeWriteOnlyProperties` raised nothing, `hasWriteOnlyProperties`
      is false: each write-only property rewrites into a pointer that is not
      the root and whose parent is not an array. */
  lemma RemoveThenHasNone(schema: ResourceTypeSchema, before: map<string, Json>, after: JsonObject)
    requires schema.Valid()
    requires Strippable(schema.GetWriteOnlyPropertiesAsStrings(), before)
    requires after.members == StripAll(schema.GetWriteOnlyPropertiesAsStrings(), before).1
    ensures StripAll(schema.GetWriteOnlyPropertiesAsStrings(), before).0 == Pass
    ensures schema.HasWriteOnlyProperties(after) == Success(false)
  {
    StripAllClears(schema.GetWriteOnlyPropertiesAsStrings(), before);
  }

  /** An empty model has no write-only property (none of them being the
      bare "/properties"). */
  lemma EmptyModelHasNoWriteOnly(schema: ResourceTypeSchema, empty: JsonObject)
    requires schema.Valid() && empty.members == map[]
    requires forall i :: 0 <= i < |schema.writeOnlyProperties| ==>
      InstancePointer(ToString(schema.writeOnlyProperties[i])).Success?
      && InstancePointer(ToString(schema.writeOnlyProperties[i])).value.refTokens != []
    ensures schema.HasWriteOnlyProperties(empty) == Success(false)
  {
    var texts := schema.GetWriteOnlyPropertiesAsStrings();
    assert forall i :: 0 <= i < |texts| ==> texts[i] == ToString(schema.writeOnlyProperties[i]);
    EmptyModelHasNone(texts);
  }
}
