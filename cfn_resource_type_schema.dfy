/** `com.aws.cfn.resource.ResourceTypeSchema`, the oldest schema class: an
    optional `typeName`, a single list of `identifiers`, and every known key
    removed whether or not it was present. */
module CfnResourceTypeSchemas {

  import opened Wrappers
  import opened JavaText
  import opened JsonValues
  import opened JsonPointers
  import opened ResidualExtraction

  class ResourceTypeSchema {

    /** The unprocessed properties the schema loader handed over. */
    ghost var residual: map<string, Json>

    var unprocessedProperties: map<string, Json>
    var sourceUrl: Option<string>
    var typeName: Option<string>
    var createOnlyProperties: seq<JsonPointer>
    var deprecatedProperties: seq<JsonPointer>
    var identifiers: seq<seq<JsonPointer>>
    var readOnlyProperties: seq<JsonPointer>
    var writeOnlyProperties: seq<JsonPointer>

    ghost function Fields(): CfnFields
      reads this
    {
      CfnFields(unprocessedProperties, sourceUrl, typeName, createOnlyProperties, deprecatedProperties,
                identifiers, readOnlyProperties, writeOnlyProperties)
    }

    ghost predicate Valid()
      reads this
    {
      ExtractCfn(residual) == Success(Fields())
    }

    constructor Init(residual: map<string, Json>)
      ensures this.residual == residual && unprocessedProperties == residual
      ensures sourceUrl == None && typeName == None
      ensures createOnlyProperties == [] && deprecatedProperties == [] && identifiers == []
      ensures readOnlyProperties == [] && writeOnlyProperties == []
    {
      this.residual := residual;
      unprocessedProperties := residual;
      sourceUrl, typeName := None, None;
      createOnlyProperties, deprecatedProperties, identifiers := [], [], [];
      readOnlyProperties, writeOnlyProperties := [], [];
    }

    /** `new ResourceTypeSchema(builder)`: only a list key holding something
        other than an array of pointer texts makes it fail. */
    static method Create(residual: map<string, Json>) returns (r: Result<ResourceTypeSchema, Fault>)
      ensures r.Success? <==> CfnListsWellFormed(residual)
      ensures r.Failure? ==> r.error == ExtractCfn(residual).error
      ensures r.Success? ==> fresh(r.value) && r.value.residual == residual && r.value.Valid()
    {
      var s := new ResourceTypeSchema.Init(residual);
      s.TakeScalars();
      ghost var afterScalars := s.unprocessedProperties;
      var lists := s.TakeLists();
      if lists.Fail? {
        ExtractCfnFails(residual);
        return Failure(lists.error);
      }
      ExtractCfnBuilds(residual, CfnListFields(afterScalars).value, s.unprocessedProperties);
      return Success(s);
    }

    /** `sourceUrl` and `typeName`, each read when present and removed. */
    method TakeScalars()
      modifies this`sourceUrl, this`typeName, this`unprocessedProperties
      ensures sourceUrl == ScalarText(old(unprocessedProperties), SourceUrlKey)
      ensures typeName == ScalarText(old(unprocessedProperties), TypeNameKey)
      ensures unprocessedProperties == old(unprocessedProperties) - {SourceUrlKey, TypeNameKey}
    {
      sourceUrl := ScalarText(unprocessedProperties, SourceUrlKey);
      unprocessedProperties := unprocessedProperties - {SourceUrlKey};
      typeName := ScalarText(unprocessedProperties, TypeNameKey);
      unprocessedProperties := unprocessedProperties - {TypeNameKey};
    }

    /** The five list keys, each read when present and then removed. */
    method TakeLists() returns (outcome: Outcome<Fault>)
      modifies this`createOnlyProperties, this`deprecatedProperties, this`identifiers
      modifies this`readOnlyProperties, this`writeOnlyProperties, this`unprocessedProperties
      ensures outcome.Pass? <==> CfnListFields(old(unprocessedProperties)).Success?
      ensures outcome.Fail? ==> outcome.error == CfnListFields(old(unprocessedProperties)).error
      ensures outcome.Pass? ==>
        var lists := CfnListFields(old(unprocessedProperties)).value;
        && createOnlyProperties == lists.createOnly && deprecatedProperties == lists.deprecated
        && identifiers == lists.identifiers && readOnlyProperties == lists.readOnly
        && writeOnlyProperties == lists.writeOnly
        && unprocessedProperties == old(unprocessedProperties) - {CreateOnlyKey, DeprecatedKey,
             IdentifiersKey, ReadOnlyKey, WriteOnlyKey}
    {
      var lists, rest := ReadCfnLists(unprocessedProperties);
      if lists.Failure? {
        return Fail(lists.error);
      }
      createOnlyProperties := lists.value.createOnly;
      deprecatedProperties := lists.value.deprecated;
      identifiers := lists.value.identifiers;
      readOnlyProperties := lists.value.readOnly;
      writeOnlyProperties := lists.value.writeOnly;
      unprocessedProperties := rest;
      return Pass;
    }

    /** The read-only view of what the constructor did not consume. */
    function GetUnprocessedProperties(): (r: map<string, Json>)
      reads this
      requires Valid()
      ensures forall k :: k in r <==> k in residual && k !in CfnInterpretedKeys
      ensures forall k :: k in r ==> r[k] == residual[k]
    {
      unprocessedProperties
    }
  }
}
