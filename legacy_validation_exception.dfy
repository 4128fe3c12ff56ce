/** The older `ValidationException` of the `com.amazonaws` packages: the
    same scrubbing of the JSON-schema library's errors, with a list of safe
    keywords that also holds `items`, and a four-argument constructor that
    does not accept a null list of causes. */
module LegacyValidationExceptions {

  import opened Wrappers
  import opened JavaText
  import Current = ValidationExceptions

  type ValidationException = Current.ValidationException
  type NativeFailure = Current.NativeFailure

  const LegacySafeKeywords: seq<string> := [
    "required", "minProperties", "maxProperties", "dependencies", "additionalProperties",
    "minLength", "maxLength",
    "minItems", "maxItems", "uniqueItems", "items",
    "type", "allOf", "anyOf", "oneOf", "contains"]

  /** `newScrubbedException` with the older list: keyword and pointer are
      copied, the causes are scrubbed in order, and the message is kept
      exactly for a parent or a keyword on the older list. */
  function NewScrubbedException(e: NativeFailure): (v: ValidationException)
    ensures v.keyword == e.keyword && v.schemaPointer == e.pointerToViolation
    ensures |v.causingExceptions| == |Current.NativeCausesOf(e)|
    ensures forall i :: 0 <= i < |v.causingExceptions| ==>
              v.causingExceptions[i] == Current.Scrubbed(LegacySafeKeywords, Current.NativeCausesOf(e)[i])
    ensures Current.IsNativeParent(e) || Current.IsSafe(LegacySafeKeywords, e.keyword) ==> v.message == e.message
    ensures !Current.IsNativeParent(e) && !Current.IsSafe(LegacySafeKeywords, e.keyword) ==>
              v.message == Some(Current.RedactedMessage(e.pointerToViolation, e.keyword))
    ensures Current.ShowsOnlySafeMessages(LegacySafeKeywords, v)
  {
    Current.ScrubbedNode(LegacySafeKeywords, e);
    Current.ScrubbedShowsOnlySafeMessages(LegacySafeKeywords, e);
    Current.Scrubbed(LegacySafeKeywords, e)
  }

  /** The public `new ValidationException(everit error)`: the library's own
      message is kept as it stands, whatever the keyword, while the causes
      are scrubbed. */
  function FromNative(e: NativeFailure): (v: ValidationException)
    ensures v.message == e.message
    ensures v.keyword == e.keyword && v.schemaPointer == e.pointerToViolation
    ensures |v.causingExceptions| == |Current.NativeCausesOf(e)|
    ensures forall i :: 0 <= i < |v.causingExceptions| ==>
              v.causingExceptions[i] == NewScrubbedException(Current.NativeCausesOf(e)[i])
  {
    Current.Wrapped(LegacySafeKeywords, e.message, e)
  }

  /** The public `new ValidationException(errorMessage, everit error)`. */
  function FromNativeWithMessage(errorMessage: Option<string>, e: NativeFailure): (v: ValidationException)
    ensures v.message == errorMessage
    ensures v.keyword == e.keyword && v.schemaPointer == e.pointerToViolation
    ensures |v.causingExceptions| == |Current.NativeCausesOf(e)|
    ensures forall i :: 0 <= i < |v.causingExceptions| ==>
              v.causingExceptions[i] == NewScrubbedException(Current.NativeCausesOf(e)[i])
  {
    Current.Wrapped(LegacySafeKeywords, errorMessage, e)
  }

  /** `new ValidationException(message, causingExceptions, keyword,
      schemaPointer)`: wrapping a null list raises NullPointerException. */
  function WithCauses(message: Option<string>, causingExceptions: Option<seq<ValidationException>>,
                      keyword: Option<string>, schemaPointer: Option<string>): (r: Result<ValidationException, Fault>)
    ensures r.Failure? <==> causingExceptions.None?
    ensures r.Failure? ==> r.error == NullPointer
    ensures r.Success? ==> r.value == Current.WithCauses(message, causingExceptions, keyword, schemaPointer)
  {
    if causingExceptions.None? then Failure(NullPointer)
    else Success(Current.ValidationException(message, causingExceptions.value, keyword, schemaPointer))
  }

  /** `new ValidationException(message, keyword, schemaPointer)`. */
  function WithKeyword(message: Option<string>, keyword: Option<string>, schemaPointer: Option<string>): (r: Result<ValidationException, Fault>)
    ensures r == Success(Current.WithKeyword(message, keyword, schemaPointer))
  {
    WithCauses(message, Some([]), keyword, schemaPointer)
  }

  // ---------------------------------------------------------------------
  // The older class against the current one

  /** The older list is the current one with `items` added. */
  lemma SafeKeywordsDiffer()
    ensures forall k :: k in LegacySafeKeywords <==> k in Current.SafeKeywords || k == "items"
    ensures "items" !in Current.SafeKeywords
    ensures |LegacySafeKeywords| == |Current.SafeKeywords| + 1
  {
    forall k | k in LegacySafeKeywords
      ensures k in Current.SafeKeywords || k == "items"
    {
      var i :| 0 <= i < |LegacySafeKeywords| && LegacySafeKeywords[i] == k;
      if i < 10 {
        assert Current.SafeKeywords[i] == k;
      } else if i == 10 {
      } else if i < 15 {
        assert Current.SafeKeywords[i] == k;
      } else {
        assert Current.SafeKeywords[10] == k;
      }
    }
    forall k | k in Current.SafeKeywords
      ensures k in LegacySafeKeywords
    {
      var i :| 0 <= i < |Current.SafeKeywords| && Current.SafeKeywords[i] == k;
      if i < 10 {
        assert LegacySafeKeywords[i] == k;
      } else if i == 10 {
        assert LegacySafeKeywords[15] == k;
      } else {
        assert LegacySafeKeywords[i] == k;
      }
    }
  }

  /** Some error of the tree, at any depth, has keyword `k`. */
  predicate UsesKeyword(e: NativeFailure, k: string)
    decreases e
  {
    || e.keyword == Some(k)
    || (e.causingExceptions.CauseList? &&
        exists i :: 0 <= i < |e.causingExceptions.items| && UsesKeyword(e.causingExceptions.items[i], k))
  }

  lemma {:induction false} ListsAgreeWithoutItems(e: NativeFailure)
    requires !UsesKeyword(e, "items")
    ensures Current.SafeListsAgree(Current.SafeKeywords, LegacySafeKeywords, e)
    decreases e
  {
    SafeKeywordsDiffer();
    if e.causingExceptions.CauseList? {
      var xs := e.causingExceptions.items;
      forall i | 0 <= i < |xs|
        ensures Current.SafeListsAgree(Current.SafeKeywords, LegacySafeKeywords, xs[i])
      {
        ListsAgreeWithoutItems(xs[i]);
      }
    }
  }

  /** Both generations scrub alike every tree that never uses `items`. */
  lemma ScrubAgreesWithoutItems(e: NativeFailure)
    requires !UsesKeyword(e, "items")
    ensures NewScrubbedException(e) == Current.Scrubbed(Current.SafeKeywords, e)
  {
    ListsAgreeWithoutItems(e);
    Current.ScrubbedDependsOnUsedKeywords(Current.SafeKeywords, LegacySafeKeywords, e);
  }

  /** An `items` failure keeps its message in the older class and is
      redacted by the current one. */
  lemma ItemsMessageKeptOnlyByLegacy(message: string, pointer: Option<string>, causes: Current.NativeCauses)
    ensures var e := Current.NativeFailure(Some(message), Some("items"), pointer, causes);
      && NewScrubbedException(e).message == Some(message)
      && Current.Scrubbed(Current.SafeKeywords, e).message == Some(Current.RedactedMessage(pointer, Some("items")))
  {
    var e := Current.NativeFailure(Some(message), Some("items"), pointer, causes);
    SafeKeywordsDiffer();
    assert LegacySafeKeywords[10] == "items";
    Current.ScrubbedNode(LegacySafeKeywords, e);
    Current.ScrubbedNode(Current.SafeKeywords, e);
  }

  /** Whatever the keywords, the older class never shows an unsafe message
      at any depth. */
  lemma LegacyShowsOnlySafeMessages(e: NativeFailure)
    ensures Current.ShowsOnlySafeMessages(LegacySafeKeywords, NewScrubbedException(e))
  {
    Current.ScrubbedShowsOnlySafeMessages(LegacySafeKeywords, e);
  }

  /** A null list of causes: the older class raises where the current one
      stores no causes. */
  lemma NullCausesDiffer(message: Option<string>, keyword: Option<string>, schemaPointer: Option<string>)
    ensures WithCauses(message, None, keyword, schemaPointer) == Failure(NullPointer)
    ensures Current.WithCauses(message, None, keyword, schemaPointer).causingExceptions == []
  {
  }
}
