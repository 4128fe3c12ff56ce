/** `ResourceTagging`: the tagging metadata of a resource type — whether it
    can be tagged, on creation and on update, whether system tags apply,
    which property holds the tags and which permissions tagging needs — and
    the check of that metadata against the schema's handlers and
    properties. */
module ResourceTaggings {

  import opened Wrappers
  import opened JavaText
  import opened JsonPointers
  import opened ValidationExceptions

  const PropertiesToken: string := "properties"

  /** "/properties/", the place every tag property must lie below. */
  const PropertiesPrefix: string := "/" + PropertiesToken + "/"

  /** `new JSONPointer("/properties/Tags")`. */
  const DefaultTagProperty: JsonPointer := JsonPointer([PropertiesToken, "Tags"])

  lemma DefaultTagPropertyText()
    ensures ToString(DefaultTagProperty) == "/properties/Tags"
    ensures Parse("/properties/Tags") == Success(DefaultTagProperty)
  {
    DefaultTagPropertyPieces();
    PropertyPointerPrefix(DefaultTagProperty.refTokens);
    DefaultTagPropertyLiteral();
    LastTokenKept(DefaultTagProperty.refTokens);
  }

  lemma DefaultTagPropertyPieces()
    ensures Join(EscapeAll(DefaultTagProperty.refTokens[1..]), "/") == "Tags"
  {
    PlainEscape("Tags");
    assert DefaultTagProperty.refTokens[1..] == ["Tags"];
  }

  lemma DefaultTagPropertyLiteral()
    ensures PropertiesPrefix + "Tags" == "/properties/Tags"
  {
  }

  /** The three failures `validateTaggingMetadata` can raise. */
  function UpdatableWithoutHandler(): ValidationException {
    WithKeyword(Some("Invalid tagUpdatable value since update handler is missing"), Some("tagging"),
                Some("#/tagging/tagUpdatable"))
  }

  function TagPropertyOutsideProperties(text: string): ValidationException {
    WithKeyword(Some("Invalid tagProperty value " + text + " must start with \"/properties\""), Some("tagging"),
                Some("#/tagging/tagProperty"))
  }

  function TagPropertyUndefined(name: string): ValidationException {
    WithKeyword(Some("Invalid tagProperty value since " + name + " not found in schema"), Some("tagging"),
                Some("#/tagging/tagProperty"))
  }

  /** The text of a pointer starts with "/properties/" exactly when its first
      token is `properties` and at least one token follows; the rest of the
      text is then those tokens, escaped and joined. */
  lemma PropertyPointerText(ts: seq<string>)
    ensures PropertiesPrefix <= ToString(JsonPointer(ts)) <==> |ts| >= 2 && ts[0] == PropertiesToken
    ensures |ts| >= 2 && ts[0] == PropertiesToken ==>
              ToString(JsonPointer(ts))[|PropertiesPrefix|..] == Join(EscapeAll(ts[1..]), "/")
  {
    if |ts| >= 2 && ts[0] == PropertiesToken {
      PropertyPointerPrefix(ts);
    }
    if PropertiesPrefix <= ToString(JsonPointer(ts)) {
      PrefixedPointerTokens(ts);
    }
  }

  lemma PropertyPointerPrefix(ts: seq<string>)
    requires |ts| >= 2 && ts[0] == PropertiesToken
    ensures ToString(JsonPointer(ts)) == PropertiesPrefix + Join(EscapeAll(ts[1..]), "/")
  {
    var es := EscapeAll(ts);
    var rest := Join(EscapeAll(ts[1..]), "/");
    PlainEscape(PropertiesToken);
    EscapeAllTail(ts);
    assert Join(es, "/") == PropertiesToken + "/" + rest;
    Regroup("/", PropertiesToken, "/", rest);
  }

  lemma EscapeAllTail(ts: seq<string>)
    requires ts != []
    ensures EscapeAll(ts)[1..] == EscapeAll(ts[1..])
  {
  }

  lemma Regroup(a: string, b: string, c: string, d: string)
    ensures a + (b + c + d) == (a + b + c) + d
  {
  }

  lemma PrefixedPointerTokens(ts: seq<string>)
    requires PropertiesPrefix <= ToString(JsonPointer(ts))
    ensures |ts| >= 2 && ts[0] == PropertiesToken
  {
    var es := EscapeAll(ts);
    var j := Join(es, "/");
    assert ts != [];
    assert ToString(JsonPointer(ts)) == "/" + j;
    var rest := PrefixedTail(j);
    EscapedPieces(ts);
    assert es == [PropertiesToken] + RawSplit(rest, '/');
    assert ts[0] == Unescape(es[0]);
    PlainUnescape(PropertiesToken);
  }

  /** Text after "/" that starts with "properties/" splits into
      `properties` and the pieces of the rest. */
  lemma PrefixedTail(j: string) returns (rest: string)
    requires PropertiesPrefix <= "/" + j
    ensures RawSplit(j, '/') == [PropertiesToken] + RawSplit(rest, '/')
  {
    rest := j[|PropertiesToken| + 1..];
    assert j == PropertiesToken + "/" + rest by {
      assert PropertiesPrefix[1..] == PropertiesToken + "/";
      assert j[..|PropertiesToken| + 1] == PropertiesPrefix[1..];
      assert j == j[..|PropertiesToken| + 1] + rest;
    }
    RawSplitPrefix(PropertiesToken, '/', rest);
  }

  class ResourceTagging {
    var taggable: bool
    var tagOnCreate: bool
    var tagUpdatable: bool
    var cloudFormationSystemTags: bool
    var tagProperty: JsonPointer
    var tagPermissions: seq<string>

    /** `new ResourceTagging(taggableValue)`; `DEFAULT` is this with `true`. */
    constructor (taggableValue: bool)
      ensures taggable == taggableValue && tagOnCreate == taggableValue
      ensures tagUpdatable == taggableValue && cloudFormationSystemTags == taggableValue
      ensures tagProperty == DefaultTagProperty && tagPermissions == []
    {
      taggable := taggableValue;
      tagOnCreate := taggableValue;
      tagUpdatable := taggableValue;
      cloudFormationSystemTags := taggableValue;
      tagProperty := DefaultTagProperty;
      tagPermissions := [];
    }

    /** The all-arguments constructor. */
    constructor WithAll(taggable: bool, tagOnCreate: bool, tagUpdatable: bool, cloudFormationSystemTags: bool,
                        tagProperty: JsonPointer, tagPermissions: seq<string>)
      ensures this.taggable == taggable && this.tagOnCreate == tagOnCreate
      ensures this.tagUpdatable == tagUpdatable && this.cloudFormationSystemTags == cloudFormationSystemTags
      ensures this.tagProperty == tagProperty && this.tagPermissions == tagPermissions
    {
      this.taggable := taggable;
      this.tagOnCreate := tagOnCreate;
      this.tagUpdatable := tagUpdatable;
      this.cloudFormationSystemTags := cloudFormationSystemTags;
      this.tagProperty := tagProperty;
      this.tagPermissions := tagPermissions;
    }

    /** `resetTaggable`: the four switches take the one value; the tag
        property and the permissions are left as they were. */
    method ResetTaggable(taggableValue: bool)
      modifies this`taggable, this`tagOnCreate, this`tagUpdatable, this`cloudFormationSystemTags
      ensures taggable == taggableValue && tagOnCreate == taggableValue
      ensures tagUpdatable == taggableValue && cloudFormationSystemTags == taggableValue
      ensures tagProperty == old(tagProperty) && tagPermissions == old(tagPermissions)
    {
      taggable := taggableValue;
      tagOnCreate := taggableValue;
      tagUpdatable := taggableValue;
      cloudFormationSystemTags := taggableValue;
    }

    /** `validateTaggingMetadata`, with `schema.definesProperty` passed in:
        the checks run in order and the first that fails is raised. The
        metadata passes exactly when an updatable tag has an update
        handler, the tag property lies below `/properties`, and, for a
        taggable type, the schema defines the property named by the rest
        of the pointer. */
    function ValidateTaggingMetadata(containUpdateHandler: bool, definesProperty: string -> bool): (r: Outcome<ValidationException>)
      reads this
      ensures var ts := tagProperty.refTokens;
        r.Pass? <==> && (!tagUpdatable || containUpdateHandler)
                     && |ts| >= 2 && ts[0] == PropertiesToken
                     && (!taggable || definesProperty(Join(EscapeAll(ts[1..]), "/")))
      ensures tagUpdatable && !containUpdateHandler ==> r == Fail(UpdatableWithoutHandler())
      ensures var ts := tagProperty.refTokens;
        (!tagUpdatable || containUpdateHandler) && !(|ts| >= 2 && ts[0] == PropertiesToken) ==>
          r == Fail(TagPropertyOutsideProperties(ToString(tagProperty)))
      ensures var ts := tagProperty.refTokens;
        (!tagUpdatable || containUpdateHandler) && |ts| >= 2 && ts[0] == PropertiesToken && taggable
        && !definesProperty(Join(EscapeAll(ts[1..]), "/")) ==>
          r == Fail(TagPropertyUndefined(Join(EscapeAll(ts[1..]), "/")))
      ensures r.Fail? ==> r.error.keyword == Some("tagging") && r.error.causingExceptions == []
      ensures r.Fail? && r.error.schemaPointer == Some("#/tagging/tagUpdatable") ==>
                tagUpdatable && !containUpdateHandler
    {
      PropertyPointerText(tagProperty.refTokens);
      var text := ToString(tagProperty);
      if tagUpdatable && !containUpdateHandler then Fail(UpdatableWithoutHandler())
      else if !(PropertiesPrefix <= text) then Fail(TagPropertyOutsideProperties(text))
      else
        var propertyName := text[|PropertiesPrefix|..];
        if taggable && !definesProperty(propertyName) then Fail(TagPropertyUndefined(propertyName))
        else Pass
    }
  }

  /** The switches of `DEFAULT`: with the default tag property, the metadata
      passes exactly when there is an update handler and the schema defines
      `Tags`. */
  lemma DefaultValidation(t: ResourceTagging, containUpdateHandler: bool, definesProperty: string -> bool)
    requires t.taggable && t.tagUpdatable && t.tagProperty == DefaultTagProperty
    ensures (t.ValidateTaggingMetadata(containUpdateHandler, definesProperty).Pass?
             <==> containUpdateHandler && definesProperty("Tags"))
    ensures !containUpdateHandler ==>
              t.ValidateTaggingMetadata(containUpdateHandler, definesProperty) == Fail(UpdatableWithoutHandler())
  {
    PlainEscape("Tags");
    assert EscapeAll(["Tags"]) == ["Tags"];
    assert DefaultTagProperty.refTokens[1..] == ["Tags"];
  }

  /** After `resetTaggable(false)` only the place of the tag property is
      checked: neither the update handler nor the schema's properties
      matter. */
  lemma UntaggableChecksOnlyPlace(t: ResourceTagging, containUpdateHandler: bool, definesProperty: string -> bool)
    requires !t.taggable && !t.tagUpdatable
    ensures var ts := t.tagProperty.refTokens;
      t.ValidateTaggingMetadata(containUpdateHandler, definesProperty).Pass? <==> |ts| >= 2 && ts[0] == PropertiesToken
  {
  }

  /** The test of `resetTaggable`: every switch off, the tag property and
      the permissions as they were. */
  method ResetTaggableCase() returns (t: ResourceTagging)
    ensures !t.taggable && !t.tagOnCreate && !t.tagUpdatable && !t.cloudFormationSystemTags
    ensures t.tagProperty == JsonPointer(["properties", "tags"]) && t.tagPermissions == []
  {
    t := new ResourceTagging.WithAll(true, true, true, true, JsonPointer(["properties", "tags"]), []);
    t.ResetTaggable(false);
  }
}
