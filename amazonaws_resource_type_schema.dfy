/** `com.amazonaws.cloudformation.resource.ResourceTypeSchema`, the
    predecessor of the current schema class: the same extraction pass and the
    same string views, without the write-only queries. */
module AmazonawsResourceTypeSchemas {

  import opened Wrappers
  import opened JavaText
  import opened JsonValues
  import opened JsonPointers
  import opened ResidualExtraction

  class ResourceTypeSchema {

    /** The unprocessed properties the schema loader handed over. */
    ghost var residual: map<string, Json>

    var unprocessedProperties: map<string, Json>
    var sourceUrl: Option<string>
    var documentationUrl: Option<string>
    var typeName: string
    var createOnlyProperties: seq<JsonPointer>
    var deprecatedProperties: seq<JsonPointer>
    var primaryIdentifier: seq<JsonPointer>
    var additionalIdentifiers: seq<seq<JsonPointer>>
    var readOnlyProperties: seq<JsonPointer>
    var writeOnlyProperties: seq<JsonPointer>

    ghost function Fields(): SchemaFields
      reads this
    {
      SchemaFields(unprocessedProperties, sourceUrl, documentationUrl, typeName, createOnlyProperties,
                   deprecatedProperties, primaryIdentifier, additionalIdentifiers, readOnlyProperties,
                   writeOnlyProperties)
    }

    /** The constructor of this class runs the same pass as the current one. */
    ghost predicate Valid()
      reads this
    {
      Extract(residual) == Success(Fields())
    }

    constructor Init(residual: map<string, Json>)
      ensures this.residual == residual && unprocessedProperties == residual
      ensures sourceUrl == None && documentationUrl == None && typeName == ""
      ensures createOnlyProperties == [] && deprecatedProperties == [] && primaryIdentifier == []
      ensures additionalIdentifiers == [] && readOnlyProperties == [] && writeOnlyProperties == []
    {
      this.residual := residual;
      unprocessedProperties := residual;
      sourceUrl, documentationUrl, typeName := None, None, "";
      createOnlyProperties, deprecatedProperties, primaryIdentifier := [], [], [];
      additionalIdentifiers, readOnlyProperties, writeOnlyProperties := [], [], [];
    }

    /** `new ResourceTypeSchema(builder)`. */
    static method Create(residual: map<string, Json>) returns (r: Result<ResourceTypeSchema, Fault>)
      ensures r.Success? <==> Extract(residual).Success?
      ensures r.Failure? ==> r.error == Extract(residual).error
      ensures r.Success? ==> fresh(r.value) && r.value.residual == residual && r.value.Valid()
    {
      var s := new ResourceTypeSchema.Init(residual);
      var scalars := s.TakeScalars();
      if scalars.Fail? {
        return Failure(scalars.error);
      }
      ghost var afterScalars := s.unprocessedProperties;
      var lists := s.TakeLists();
      if lists.Fail? {
        ExtractFails(residual);
        return Failure(lists.error);
      }
      ExtractBuilds(residual, ListFields(afterScalars).value, s.unprocessedProperties);
      return Success(s);
    }

    /** The two optional URLs and the mandatory `typeName`. */
    method TakeScalars() returns (outcome: Outcome<Fault>)
      modifies this`sourceUrl, this`documentationUrl, this`typeName, this`unprocessedProperties
      ensures outcome.Pass? <==> TypeNameKey in old(unprocessedProperties)
      ensures outcome.Fail? ==> outcome.error == NullPointer
      ensures outcome.Pass? ==>
        && sourceUrl == ScalarText(old(unprocessedProperties), SourceUrlKey)
        && documentationUrl == ScalarText(old(unprocessedProperties), DocumentationUrlKey)
        && typeName == ToJavaString(old(unprocessedProperties)[TypeNameKey])
        && unprocessedProperties == old(unprocessedProperties) - {SourceUrlKey, DocumentationUrlKey, TypeNameKey}
    {
      sourceUrl := ScalarText(unprocessedProperties, SourceUrlKey);
      unprocessedProperties := unprocessedProperties - {SourceUrlKey};
      documentationUrl := ScalarText(unprocessedProperties, DocumentationUrlKey);
      unprocessedProperties := unprocessedProperties - {DocumentationUrlKey};
      if TypeNameKey !in unprocessedProperties {
        return Fail(NullPointer);
      }
      typeName := ToJavaString(unprocessedProperties[TypeNameKey]);
      unprocessedProperties := unprocessedProperties - {TypeNameKey};
      return Pass;
    }

    /** The six `computeIfPresent` calls. */
    method TakeLists() returns (outcome: Outcome<Fault>)
      modifies this`createOnlyProperties, this`deprecatedProperties, this`primaryIdentifier
      modifies this`additionalIdentifiers, this`readOnlyProperties, this`writeOnlyProperties
      modifies this`unprocessedProperties
      ensures outcome.Pass? <==> ListFields(old(unprocessedProperties)).Success?
      ensures outcome.Fail? ==> outcome.error == ListFields(old(unprocessedProperties)).error
      ensures outcome.Pass? ==>
        var lists := ListFields(old(unprocessedProperties)).value;
        && createOnlyProperties == lists.createOnly && deprecatedProperties == lists.deprecated
        && primaryIdentifier == lists.primary && additionalIdentifiers == lists.additional
        && readOnlyProperties == lists.readOnly && writeOnlyProperties == lists.writeOnly
        && unprocessedProperties == old(unprocessedProperties) - {CreateOnlyKey, DeprecatedKey,
             PrimaryIdentifierKey, AdditionalIdentifiersKey, ReadOnlyKey, WriteOnlyKey}
    {
      var lists, rest := ReadLists(unprocessedProperties);
      if lists.Failure? {
        return Fail(lists.error);
      }
      createOnlyProperties := lists.value.createOnly;
      deprecatedProperties := lists.value.deprecated;
      primaryIdentifier := lists.value.primary;
      additionalIdentifiers := lists.value.additional;
      readOnlyProperties := lists.value.readOnly;
      writeOnlyProperties := lists.value.writeOnly;
      unprocessedProperties := rest;
      return Pass;
    }

    // -------------------------------------------------------------------
    // Getters

    function GetCreateOnlyPropertiesAsStrings(): (r: seq<string>)
      reads this
      requires Valid()
      ensures |r| == |createOnlyProperties|
      ensures CreateOnlyKey !in residual ==> r == []
      ensures CreateOnlyKey in residual && PlainPointerArray(residual[CreateOnlyKey]) ==>
        r == Texts(residual[CreateOnlyKey].elems)
    {
      RenderedField(residual, CreateOnlyKey, createOnlyProperties);
      AsStrings(createOnlyProperties)
    }

    function GetDeprecatedPropertiesAsStrings(): (r: seq<string>)
      reads this
      requires Valid()
      ensures |r| == |deprecatedProperties|
      ensures DeprecatedKey !in residual ==> r == []
      ensures DeprecatedKey in residual && PlainPointerArray(residual[DeprecatedKey]) ==>
        r == Texts(residual[DeprecatedKey].elems)
    {
      RenderedField(residual, DeprecatedKey, deprecatedProperties);
      AsStrings(deprecatedProperties)
    }

    function GetPrimaryIdentifierAsStrings(): (r: seq<string>)
      reads this
      requires Valid()
      ensures |r| == |primaryIdentifier|
      ensures PrimaryIdentifierKey !in residual ==> r == []
      ensures PrimaryIdentifierKey in residual && PlainPointerArray(residual[PrimaryIdentifierKey]) ==>
        r == Texts(residual[PrimaryIdentifierKey].elems)
    {
      RenderedField(residual, PrimaryIdentifierKey, primaryIdentifier);
      AsStrings(primaryIdentifier)
    }

    function GetAdditionalIdentifiersAsStrings(): (r: seq<seq<string>>)
      reads this
      requires Valid()
      ensures |r| == |additionalIdentifiers|
      ensures AdditionalIdentifiersKey !in residual ==> r == []
      ensures AdditionalIdentifiersKey in residual && PlainIdentifierArray(residual[AdditionalIdentifiersKey]) ==>
        |r| == |residual[AdditionalIdentifiersKey].elems|
        && forall i :: 0 <= i < |r| ==> r[i] == Texts(residual[AdditionalIdentifiersKey].elems[i].elems)
    {
      RenderedIdentifierField(residual, AdditionalIdentifiersKey, additionalIdentifiers);
      AsStringLists(additionalIdentifiers)
    }

    function GetReadOnlyPropertiesAsStrings(): (r: seq<string>)
      reads this
      requires Valid()
      ensures |r| == |readOnlyProperties|
      ensures ReadOnlyKey !in residual ==> r == []
      ensures ReadOnlyKey in residual && PlainPointerArray(residual[ReadOnlyKey]) ==>
        r == Texts(residual[ReadOnlyKey].elems)
    {
      RenderedField(residual, ReadOnlyKey, readOnlyProperties);
      AsStrings(readOnlyProperties)
    }

    function GetWriteOnlyPropertiesAsStrings(): (r: seq<string>)
      reads this
      requires Valid()
      ensures |r| == |writeOnlyProperties|
      ensures WriteOnlyKey !in residual ==> r == []
      ensures WriteOnlyKey in residual && PlainPointerArray(residual[WriteOnlyKey]) ==>
        r == Texts(residual[WriteOnlyKey].elems)
    {
      RenderedField(residual, WriteOnlyKey, writeOnlyProperties);
      AsStrings(writeOnlyProperties)
    }

    /** The read-only view of what the constructor did not consume. */
    function GetUnprocessedProperties(): (r: map<string, Json>)
      reads this
      requires Valid()
      ensures forall k :: k in r <==> k in residual && k !in InterpretedKeys
      ensures forall k :: k in r ==> r[k] == residual[k]
    {
      unprocessedProperties
    }
  }
}
