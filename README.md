# CloudFormation resource schema: a Dafny model of its core

CloudFormation resource providers describe each resource type with a JSON
schema: its properties, identifiers, read-only and write-only properties,
and tagging metadata. The repository validates such schemas and resource
models with the everit JSON-Schema engine. Around the engine it keeps three
small layers of its own, and this project models them:

1. **The schema object** (`ResourceTypeSchema`, the current class and two
   older generations of it). The constructor copies the engine's
   *unprocessed properties* (the keys the engine does not interpret). Then,
   for each key the class recognises, it reads the value into a field and
   deletes the key. `sourceUrl`, `documentationUrl` and `typeName` become
   text. `createOnlyProperties` and the other array keys become ordered lists
   of JSON pointers. `additionalIdentifiers` becomes a list of lists. What
   remains is exposed read-only. The current class can also query a resource
   model for its write-only properties and remove them in place (the
   `/properties/...` pointers are rewritten into pointers into the model).
2. **Error scrubbing** (`ValidationException`, the current class and its
   older `com.amazonaws` version). A tree of engine failures becomes a tree
   of the repository's own exceptions. A node keeps its message only when it
   is a *parent* (no keyword, at least one cause) or its keyword is on a
   fixed list of safe keywords. Any other node gets a fixed template built
   from its pointer and keyword, so no property value leaks. A tree can be
   flattened into one message, one line per node.
3. **Tagging metadata** (`ResourceTagging`): default construction,
   `resetTaggable`, and the three ordered checks of `validateTaggingMetadata`.

Beside these is `PublicJSONPointer.isInObject`: does a pointer reach a value
of a JSON object, without ever raising?

JSON values are a datatype (`JsonValues.Json`). Pointers are their token
lists (`JsonPointers.JsonPointer`). The library's `JSONPointer` (its text
form, its parser and `queryFrom`) is modelled as far as the core relies on
it, following sections 3 and 4 of RFC 6901. Java exceptions are the
`Failure` side of a `Result`, or the `Fail` side of an `Outcome`, carrying a
`Fault`. The mutable classes are Dafny classes:

- `ResourceTypeSchemas.ResourceTypeSchema`, its two predecessors, and
  `ResourceTaggings.ResourceTagging` have the classes' own fields.
- A resource model that the code edits in place is a `JsonValues.JsonObject`.
- The constructors' extraction pass is a sequence of methods. They remove
  keys from the `unprocessedProperties` map field and fill the list fields.
  Each method is proved against the specification function
  `ResidualExtraction.Extract` (or `ExtractCfn` for the oldest class).
- The exception tree is a value. Its scrubbing loop and its
  message-building loop are methods. They are proved against the functions
  `ValidationExceptions.Scrubbed` and `ValidationExceptions.FullMessage`.

Each schema generation, and each of the two exception classes, is its own
module. The extraction functions shared by the three schema classes live in
`ResidualExtraction`, and removal from a resource model lives in
`PropertyRemoval`. The current and the legacy exception class share one
scrubbing function: it takes the safe-keyword list as a parameter, because
the two classes keep different lists.

## Model

| member | source | states |
|---|---|---|
| ResourceTypeSchemas.ResourceTypeSchema.Init | src/main/java/software/amazon/cloudformation/resource/ResourceTypeSchema.java:40-55 | the field initialisers: every list empty, the URLs null, and the unprocessed map a copy of the engine's map |
| ResourceTypeSchemas.ResourceTypeSchema.Create | src/main/java/software/amazon/cloudformation/resource/ResourceTypeSchema.java:52-104 | construction succeeds exactly when the extraction pass does, and fails with the same exception; on success the new object's fields are exactly what `Extract` computes from the engine's map |
| ResourceTypeSchemas.ResourceTypeSchema.TakeScalars | src/main/java/software/amazon/cloudformation/resource/ResourceTypeSchema.java:57-69 | the two URLs are their text when present and null otherwise; a missing `typeName` raises NullPointerException; otherwise `typeName` is its text and the three keys leave the map |
| ResourceTypeSchemas.ResourceTypeSchema.TakeLists | src/main/java/software/amazon/cloudformation/resource/ResourceTypeSchema.java:71-103 | the six list fields are the pointers `ListFields` reads, and the six keys leave the map; a value that is no array, or an element that is no pointer, aborts with that exception |
| ResourceTypeSchemas.ResourceTypeSchema.GetCreateOnlyPropertiesAsStrings | src/main/java/software/amazon/cloudformation/resource/ResourceTypeSchema.java:121-123 | one string per pointer; the empty list when the key was absent; exactly the source array's texts, in order, when they are plain pointer texts |
| ResourceTypeSchemas.ResourceTypeSchema.GetDeprecatedPropertiesAsStrings | src/main/java/software/amazon/cloudformation/resource/ResourceTypeSchema.java:125-127 | the same, for `deprecatedProperties` |
| ResourceTypeSchemas.ResourceTypeSchema.GetPrimaryIdentifierAsStrings | src/main/java/software/amazon/cloudformation/resource/ResourceTypeSchema.java:129-131 | the same, for `primaryIdentifier` |
| ResourceTypeSchemas.ResourceTypeSchema.GetAdditionalIdentifiersAsStrings | src/main/java/software/amazon/cloudformation/resource/ResourceTypeSchema.java:133-137 | one list per identifier, and the empty list when the key was absent; for plain nested arrays, the i-th list is exactly the texts of the i-th inner array, in order |
| ResourceTypeSchemas.ResourceTypeSchema.GetReadOnlyPropertiesAsStrings | src/main/java/software/amazon/cloudformation/resource/ResourceTypeSchema.java:139-141 | the same as for create-only, for `readOnlyProperties` |
| ResourceTypeSchemas.ResourceTypeSchema.GetWriteOnlyPropertiesAsStrings | src/main/java/software/amazon/cloudformation/resource/ResourceTypeSchema.java:143-145 | the same as for create-only, for `writeOnlyProperties` |
| ResourceTypeSchemas.ResourceTypeSchema.GetUnprocessedProperties | src/main/java/software/amazon/cloudformation/resource/ResourceTypeSchema.java:147-150 | holds exactly the engine's keys other than the nine interpreted ones, each with its original value |
| ResourceTypeSchemas.ResourceTypeSchema.HasPropertyText | src/main/java/software/amazon/cloudformation/resource/ResourceTypeSchema.java:157-159 | raises exactly when the text is no pointer; otherwise it answers `isInObject` for the parsed pointer |
| ResourceTypeSchemas.ResourceTypeSchema.HasProperty | src/main/java/software/amazon/cloudformation/resource/ResourceTypeSchema.java:161-167 | the same test as `PublicJSONPointer.isInObject` |
| ResourceTypeSchemas.ResourceTypeSchema.HasWriteOnlyProperties | src/main/java/software/amazon/cloudformation/resource/ResourceTypeSchema.java:152-155 | `anyMatch` over the rewritten write-only texts, in order. False exactly when every text rewrites to a pointer that the model does not hold. True exactly when some text is present and every earlier one rewrites to an absent pointer. IllegalArgumentException exactly when some text does not rewrite and every earlier one rewrites to an absent pointer. When every text rewrites, it raises nothing and answers whether the model holds one of them |
| ResourceTypeSchemas.ResourceTypeSchema.RemoveProperty | src/main/java/software/amazon/cloudformation/resource/ResourceTypeSchema.java:175-194 | the model becomes `PropertyRemoved` of its old members (the corrected removal, see Findings) |
| ResourceTypeSchemas.ResourceTypeSchema.RemoveWriteOnlyProperties | src/main/java/software/amazon/cloudformation/resource/ResourceTypeSchema.java:169-173 | the outcome and the new model are `StripAll` of the write-only texts and the old model: the properties are removed in order, and the first text that is no pointer stops the loop |
| ResourceTypeSchemas.RemoveThenHasNone | src/main/java/software/amazon/cloudformation/resource/ResourceTypeSchema.java:169-173 | after a removal pass over strippable properties, nothing was raised and `hasWriteOnlyProperties` is false |
| ResourceTypeSchemas.EmptyModelHasNoWriteOnly | src/main/java/software/amazon/cloudformation/resource/ResourceTypeSchema.java:152-155 | an empty model has no write-only property |
| AmazonawsResourceTypeSchemas.ResourceTypeSchema.Init | src/main/java/com/amazonaws/cloudformation/resource/ResourceTypeSchema.java:40-52 | the field initialisers and the copy of the engine's map |
| AmazonawsResourceTypeSchemas.ResourceTypeSchema.Create | src/main/java/com/amazonaws/cloudformation/resource/ResourceTypeSchema.java:49-101 | success exactly when `Extract` succeeds, with the same exception otherwise; the fields are what `Extract` computes |
| AmazonawsResourceTypeSchemas.ResourceTypeSchema.TakeScalars | src/main/java/com/amazonaws/cloudformation/resource/ResourceTypeSchema.java:54-66 | the URLs are their text or null; `typeName` is mandatory (NullPointerException); the three keys are removed |
| AmazonawsResourceTypeSchemas.ResourceTypeSchema.TakeLists | src/main/java/com/amazonaws/cloudformation/resource/ResourceTypeSchema.java:68-100 | the six `computeIfPresent` calls: the lists `ListFields` reads, with the six keys removed |
| AmazonawsResourceTypeSchemas.ResourceTypeSchema.GetCreateOnlyPropertiesAsStrings | src/main/java/com/amazonaws/cloudformation/resource/ResourceTypeSchema.java:118-120 | as in the current class: length, empty when absent, the source texts in order |
| AmazonawsResourceTypeSchemas.ResourceTypeSchema.GetDeprecatedPropertiesAsStrings | src/main/java/com/amazonaws/cloudformation/resource/ResourceTypeSchema.java:122-124 | the same, for `deprecatedProperties` |
| AmazonawsResourceTypeSchemas.ResourceTypeSchema.GetPrimaryIdentifierAsStrings | src/main/java/com/amazonaws/cloudformation/resource/ResourceTypeSchema.java:126-128 | the same, for `primaryIdentifier` |
| AmazonawsResourceTypeSchemas.ResourceTypeSchema.GetAdditionalIdentifiersAsStrings | src/main/java/com/amazonaws/cloudformation/resource/ResourceTypeSchema.java:130-134 | nested lists: outer length, empty when absent, each inner list the texts of its inner array |
| AmazonawsResourceTypeSchemas.ResourceTypeSchema.GetReadOnlyPropertiesAsStrings | src/main/java/com/amazonaws/cloudformation/resource/ResourceTypeSchema.java:136-138 | the same, for `readOnlyProperties` |
| AmazonawsResourceTypeSchemas.ResourceTypeSchema.GetWriteOnlyPropertiesAsStrings | src/main/java/com/amazonaws/cloudformation/resource/ResourceTypeSchema.java:140-142 | the same, for `writeOnlyProperties` |
| AmazonawsResourceTypeSchemas.ResourceTypeSchema.GetUnprocessedProperties | src/main/java/com/amazonaws/cloudformation/resource/ResourceTypeSchema.java:144-147 | exactly the non-interpreted keys, with their original values |
| CfnResourceTypeSchemas.ResourceTypeSchema.Init | src/main/java/com/aws/cfn/resource/ResourceTypeSchema.java:20-29 | the field initialisers and the copy of the engine's map |
| CfnResourceTypeSchemas.ResourceTypeSchema.Create | src/main/java/com/aws/cfn/resource/ResourceTypeSchema.java:26-73 | succeeds exactly when every present list key holds a well-formed array, and fails with `ExtractCfn`'s exception otherwise; a missing `typeName` is no error; the fields are what `ExtractCfn` computes |
| CfnResourceTypeSchemas.ResourceTypeSchema.TakeScalars | src/main/java/com/aws/cfn/resource/ResourceTypeSchema.java:31-39 | `sourceUrl` and `typeName` are their text when present and null otherwise; both keys are removed |
| CfnResourceTypeSchemas.ResourceTypeSchema.TakeLists | src/main/java/com/aws/cfn/resource/ResourceTypeSchema.java:41-72 | the five lists, `identifiers` nested, are what `CfnListFields` reads; the five keys are removed whether present or not |
| CfnResourceTypeSchemas.ResourceTypeSchema.GetUnprocessedProperties | src/main/java/com/aws/cfn/resource/ResourceTypeSchema.java:75-78 | exactly the keys other than the seven interpreted ones, with their original values |
| ResidualExtraction.ScalarText | src/main/java/software/amazon/cloudformation/resource/ResourceTypeSchema.java:57-65 | a value exactly when the key is present; a string value is taken verbatim |
| ResidualExtraction.PointerList | src/main/java/software/amazon/cloudformation/resource/ResourceTypeSchema.java:71-74 | succeeds exactly when every element's text parses as a pointer; then one pointer per element, in order; otherwise IllegalArgumentException |
| ResidualExtraction.PointerArray | src/main/java/software/amazon/cloudformation/resource/ResourceTypeSchema.java:71-74 | a value that is no array fails the cast (ClassCastException); an array is read element by element |
| ResidualExtraction.IdentifierLists | src/main/java/software/amazon/cloudformation/resource/ResourceTypeSchema.java:86-93 | succeeds exactly when every element is a pointer array; then one list per element, in order |
| ResidualExtraction.IdentifierArray | src/main/java/software/amazon/cloudformation/resource/ResourceTypeSchema.java:86-93 | the outer cast fails on a non-array; an array is read as a list of pointer lists |
| ResidualExtraction.PointerField | src/main/java/software/amazon/cloudformation/resource/ResourceTypeSchema.java:71-74 | an absent key gives the empty list; a present one is read as a pointer array |
| ResidualExtraction.IdentifierField | src/main/java/software/amazon/cloudformation/resource/ResourceTypeSchema.java:86-93 | an absent key gives the empty list; a present one is read as nested arrays |
| ResidualExtraction.Without | src/main/java/software/amazon/cloudformation/resource/ResourceTypeSchema.java:55-103 | the map after the constructor's removals: exactly the other keys, with their values |
| ResidualExtraction.ListFields | src/main/java/software/amazon/cloudformation/resource/ResourceTypeSchema.java:71-103 | succeeds exactly when every present list key is well formed; each list is its key's field |
| ResidualExtraction.ListFieldsIgnore | src/main/java/software/amazon/cloudformation/resource/ResourceTypeSchema.java:57-103 | removing the scalar keys first does not change what the list keys yield |
| ResidualExtraction.Extract | src/main/java/software/amazon/cloudformation/resource/ResourceTypeSchema.java:52-104 | succeeds exactly when `typeName` is present and the lists are well formed; a missing `typeName` gives NullPointerException; the remaining map, the URLs, the type name and all six lists are stated field by field |
| ResidualExtraction.ExtractBuilds | src/main/java/software/amazon/cloudformation/resource/ResourceTypeSchema.java:52-104 | the staged pass (scalars first, then the lists on what remains) yields `Extract`'s fields |
| ResidualExtraction.ExtractFails | src/main/java/software/amazon/cloudformation/resource/ResourceTypeSchema.java:71-103 | a list failure in the staged pass is `Extract`'s failure |
| ResidualExtraction.CfnListFields | src/main/java/com/aws/cfn/resource/ResourceTypeSchema.java:41-72 | succeeds exactly when the five list keys are well formed; it fails only by ClassCast or IllegalArgument; each list is its key's field |
| ResidualExtraction.CfnListFieldsIgnore | src/main/java/com/aws/cfn/resource/ResourceTypeSchema.java:31-72 | removing the scalar keys does not change the lists |
| ResidualExtraction.ExtractCfn | src/main/java/com/aws/cfn/resource/ResourceTypeSchema.java:26-73 | succeeds exactly when the lists are well formed; optional `sourceUrl` and `typeName`; the seven keys removed; every list stated |
| ResidualExtraction.ExtractCfnBuilds | src/main/java/com/aws/cfn/resource/ResourceTypeSchema.java:26-73 | the staged pass yields `ExtractCfn`'s fields |
| ResidualExtraction.ExtractCfnFails | src/main/java/com/aws/cfn/resource/ResourceTypeSchema.java:41-72 | a list failure in the staged pass is `ExtractCfn`'s failure |
| ResidualExtraction.FieldFaults | src/main/java/software/amazon/cloudformation/resource/ResourceTypeSchema.java:71-93 | reading a list key can only raise ClassCastException or IllegalArgumentException |
| ResidualExtraction.IdentifierListsFault | src/main/java/software/amazon/cloudformation/resource/ResourceTypeSchema.java:86-93 | the same for nested identifier arrays |
| ResidualExtraction.ReadPointers | src/main/java/software/amazon/cloudformation/resource/ResourceTypeSchema.java:71-74 | the `forEach` loop of `add(new JSONPointer(p.toString()))` computes `PointerArray` |
| ResidualExtraction.ReadIdentifierLists | src/main/java/software/amazon/cloudformation/resource/ResourceTypeSchema.java:86-93 | the nested loops compute `IdentifierArray` |
| ResidualExtraction.ReadLists | src/main/java/software/amazon/cloudformation/resource/ResourceTypeSchema.java:71-103 | the six list keys, read in order, compute `ListFields`, leaving the map without them |
| ResidualExtraction.ReadCfnLists | src/main/java/com/aws/cfn/resource/ResourceTypeSchema.java:41-72 | the five list keys compute `CfnListFields`, leaving the map without them |
| ResidualExtraction.ReadPointerField | src/main/java/software/amazon/cloudformation/resource/ResourceTypeSchema.java:71-74 | `computeIfPresent` on one list key computes `PointerField` |
| ResidualExtraction.ReadIdentifierField | src/main/java/software/amazon/cloudformation/resource/ResourceTypeSchema.java:86-93 | `computeIfPresent` on `additionalIdentifiers` computes `IdentifierField` |
| ResidualExtraction.PointerArrayRendered | src/main/java/software/amazon/cloudformation/resource/ResourceTypeSchema.java:121-123 | an array of plain pointer texts reads successfully, and renders back to exactly those texts |
| ResidualExtraction.RenderedField | src/main/java/software/amazon/cloudformation/resource/ResourceTypeSchema.java:121-145 | a field's string view is empty for an absent key, and the source texts for a plain array |
| ResidualExtraction.RenderedIdentifierField | src/main/java/software/amazon/cloudformation/resource/ResourceTypeSchema.java:133-137 | the same for the nested identifier lists |
| ResidualExtraction.IdentifierArrayRendered | src/main/java/software/amazon/cloudformation/resource/ResourceTypeSchema.java:86-93 | a plain nested array keeps its outer length, and each inner list renders back to its texts |
| ResidualExtraction.ExtractRejectsNonArray | src/main/java/software/amazon/cloudformation/resource/ResourceTypeSchema.java:71-74 | a list key holding anything other than an array makes construction fail |
| ResidualExtraction.ExtractVariantsAgree | src/main/java/com/aws/cfn/resource/ResourceTypeSchema.java:26-73 | on a schema that the current class accepts and that has no `identifiers` key, the oldest class accepts it too, with the same type name and create-only and write-only lists and no identifiers |
| JsonPointers.Parse | src/main/java/software/amazon/cloudformation/resource/ResourceTypeSchema.java:157-159 | `new JSONPointer(text)` raises IllegalArgumentException exactly when the text is not empty, not `#`, and does not start with `/` or `#/` |
| JsonPointers.ParseToString | src/main/java/software/amazon/cloudformation/resource/ResourceTypeSchema.java:176-178 | printing a pointer and parsing the text gives the pointer back exactly when its tokens survive Java's split |
| JsonPointers.LastEmptyTokenLost | src/main/java/software/amazon/cloudformation/resource/ResourceTypeSchema.java:176-178 | a pointer of several tokens that ends in an empty token does not survive printing and re-splitting |
| PublicJsonPointers.FromTokens | src/main/java/org/everit/json/schema/PublicJSONPointer.java:23-25 | `getRefTokens` returns the tokens the pointer was built from |
| PublicJsonPointers.GetRefTokens | src/main/java/org/everit/json/schema/PublicJSONPointer.java:31-33 | the returned tokens rebuild the same pointer |
| PublicJsonPointers.FromString | src/main/java/org/everit/json/schema/PublicJSONPointer.java:27-29 | the text constructor raises exactly on text that is no pointer; a plain pointer text prints back to itself |
| PublicJsonPointers.IsInObject | src/main/java/org/everit/json/schema/PublicJSONPointer.java:35-41 | a total test (a raised JSONPointerException answers false): the root is always present, and a single token is present exactly when it is a key of the object, even one holding JSON null |
| PublicJsonPointers.IsInObjectNested | src/test/java/org/everit/json/schema/PublicJSONPointerTest.java:31-35 | a pointer below a key that holds an object is in the object exactly when its tail is in that member |
| PublicJsonPointers.MissingIntermediate | src/test/java/org/everit/json/schema/PublicJSONPointerTest.java:37-41 | a pointer through a missing key is absent, and nothing is raised |
| PublicJsonPointers.IsInObjectPrefix | src/main/java/org/everit/json/schema/PublicJSONPointer.java:35-41 | whatever a pointer finds, every prefix of it finds too |
| PublicJsonPointers.IsInObjectCases | src/test/java/org/everit/json/schema/PublicJSONPointerTest.java:26-47 | the four tests: a present top-level key, a present nested key, a missing top-level key, and a missing intermediate object |
| PropertyRemoval.RemoveAtTarget | src/main/java/software/amazon/cloudformation/resource/ResourceTypeSchema.java:185-187 | `parentObject.remove(key)`: the object the parent path reaches loses exactly that key |
| PropertyRemoval.RemoveAtFrame | src/main/java/software/amazon/cloudformation/resource/ResourceTypeSchema.java:185-187 | every path that is neither an ancestor of the removed entry nor inside it finds the same value as before |
| PropertyRemoval.RemoveAtAddsNothing | src/main/java/software/amazon/cloudformation/resource/ResourceTypeSchema.java:185-187 | whatever is found after the removal was found before, with the same shape |
| PropertyRemoval.PropertyRemovedAsWritten | src/main/java/software/amazon/cloudformation/resource/ResourceTypeSchema.java:175-194 | the code as written: an empty token list raises IndexOutOfBounds; a success removes keys and adds none |
| PropertyRemoval.PropertyRemoved | src/main/java/software/amazon/cloudformation/resource/ResourceTypeSchema.java:175-194 | the intended removal: without a parent object the model is unchanged, and no key is ever added |
| PropertyRemoval.PropertyRemovedRemoves | src/main/java/software/amazon/cloudformation/resource/ResourceTypeSchema.java:175-190 | afterwards the pointer reaches nothing (unless it is the root, or its parent is an array) |
| PropertyRemoval.PropertyRemovedParent | src/main/java/software/amazon/cloudformation/resource/ResourceTypeSchema.java:183-190 | the parent object keeps every other key with its value |
| PropertyRemoval.PropertyRemovedFrame | src/main/java/software/amazon/cloudformation/resource/ResourceTypeSchema.java:175-194 | every other entry of the model is unchanged |
| PropertyRemoval.PropertyRemovedAddsNothing | src/main/java/software/amazon/cloudformation/resource/ResourceTypeSchema.java:175-194 | removal creates nothing |
| PropertyRemoval.RemovalTokensPlain | src/main/java/software/amazon/cloudformation/resource/ResourceTypeSchema.java:176-178 | for tokens that need no escaping and survive the split, re-splitting the text gives back the pointer's tokens |
| PropertyRemoval.AsWrittenAgrees | src/main/java/software/amazon/cloudformation/resource/ResourceTypeSchema.java:175-194 | on such pointers the code as written is the intended removal, whenever the parent is an object or its walk raises |
| PropertyRemoval.EscapedKeySurvives | src/main/java/software/amazon/cloudformation/resource/ResourceTypeSchema.java:176-189 | removing the key `a/b` with the code as written leaves it in the model; the intended removal deletes it |
| PropertyRemoval.EscapedKeyAsWritten | src/main/java/software/amazon/cloudformation/resource/ResourceTypeSchema.java:176-189 | the code as written returns the model unchanged for `a/b` |
| PropertyRemoval.EscapedKeyIntended | src/main/java/software/amazon/cloudformation/resource/ResourceTypeSchema.java:175-194 | the pointer reaches the key, and the intended removal empties the model |
| PropertyRemoval.EscapedTokens | src/main/java/software/amazon/cloudformation/resource/ResourceTypeSchema.java:176-178 | the code works with the escaped token `a~1b` |
| PropertyRemoval.TrailingEmptyTokenLost | src/main/java/software/amazon/cloudformation/resource/ResourceTypeSchema.java:176-189 | removing the member `""` of object `a` with the code as written removes all of `a` |
| PropertyRemoval.TrailingEmptyAsWritten | src/main/java/software/amazon/cloudformation/resource/ResourceTypeSchema.java:176-189 | the code as written empties the model |
| PropertyRemoval.TrailingEmptyIntended | src/main/java/software/amazon/cloudformation/resource/ResourceTypeSchema.java:175-194 | the intended removal leaves `a` as an empty object |
| PropertyRemoval.TrailingTokens | src/main/java/software/amazon/cloudformation/resource/ResourceTypeSchema.java:176-178 | the split of `/a/` yields only `a` |
| PropertyRemoval.MissingParentRaises | src/main/java/software/amazon/cloudformation/resource/ResourceTypeSchema.java:183-193 | with a missing parent the code as written raises NullPointerException, where the intended removal leaves the model alone |
| PropertyRemoval.ArrayParentRaises | src/main/java/software/amazon/cloudformation/resource/ResourceTypeSchema.java:183-193 | with an array parent the code as written fails the cast, where the intended removal leaves the model alone |
| PropertyRemoval.InstancePointer | src/main/java/software/amazon/cloudformation/resource/ResourceTypeSchema.java:169-173 | removing the first `/properties` from a text that starts with `/properties/` always leaves a pointer |
| PropertyRemoval.AnyPresent | src/main/java/software/amazon/cloudformation/resource/ResourceTypeSchema.java:152-155 | `anyMatch`: false means no rewritten pointer is present; true means one is; a failure is IllegalArgumentException |
| PropertyRemoval.AnyPresentDecides | src/main/java/software/amazon/cloudformation/resource/ResourceTypeSchema.java:152-155 | both directions of each outcome: false exactly when every text rewrites to an absent pointer; true exactly when some text is present after only absent ones; a failure exactly when some text does not rewrite after only absent ones |
| PropertyRemoval.AnyPresentTotal | src/main/java/software/amazon/cloudformation/resource/ResourceTypeSchema.java:152-155 | when every text rewrites into a pointer, nothing is raised and the answer is whether the model holds one of them |
| PropertyRemoval.StripAll | src/main/java/software/amazon/cloudformation/resource/ResourceTypeSchema.java:169-173 | stripping only ever removes keys |
| PropertyRemoval.StrippableAfterRemoval | src/main/java/software/amazon/cloudformation/resource/ResourceTypeSchema.java:169-173 | a removal keeps the remaining texts strippable |
| PropertyRemoval.StripAllAddsNothing | src/main/java/software/amazon/cloudformation/resource/ResourceTypeSchema.java:169-173 | whatever the stripped model holds, the original held |
| PropertyRemoval.StripAllClears | src/main/java/software/amazon/cloudformation/resource/ResourceTypeSchema.java:169-173 | over strippable texts nothing is raised, and afterwards none of the write-only properties is present |
| PropertyRemoval.EmptyModelHasNone | src/main/java/software/amazon/cloudformation/resource/ResourceTypeSchema.java:152-155 | an empty model holds none of the rewritten pointers |
| PropertyRemoval.StripAllAsWritten | src/main/java/software/amazon/cloudformation/resource/ResourceTypeSchema.java:169-194 | the pass with `removeProperty` as written only ever removes keys, and a text that does not rewrite makes it raise |
| PropertyRemoval.EscapedWriteOnlyPointer | src/main/java/software/amazon/cloudformation/resource/ResourceTypeSchema.java:169-173 | `/properties/a~1b` rewrites to the one-token pointer `a/b` |
| PropertyRemoval.NestedWriteOnlyPointer | src/main/java/software/amazon/cloudformation/resource/ResourceTypeSchema.java:169-173 | `/properties/E/nested` rewrites to the pointer `E`, `nested` |
| PropertyRemoval.WholePassEscapedKey | src/main/java/software/amazon/cloudformation/resource/ResourceTypeSchema.java:169-194 | on `{"a/b": 1}` the pass as written raises nothing and keeps the key, so `hasWriteOnlyProperties` is still true; the intended pass empties the model and the query is then false |
| PropertyRemoval.WholePassMissingParent | src/main/java/software/amazon/cloudformation/resource/ResourceTypeSchema.java:169-194 | on `{}` the pass as written raises NullPointerException for `/properties/E/nested`; the intended pass raises nothing and leaves the model alone |
| ValidationExceptions.WithCauses | src/main/java/software/amazon/cloudformation/resource/exceptions/ValidationException.java:60-69 | the message, keyword and pointer are stored; a null list of causes becomes the empty list |
| ValidationExceptions.WithKeyword | src/main/java/software/amazon/cloudformation/resource/exceptions/ValidationException.java:45-49 | no causes, so never a parent; the given message, keyword and pointer |
| ValidationExceptions.WithCause | src/main/java/software/amazon/cloudformation/resource/exceptions/ValidationException.java:51-58 | the cause-carrying constructor: keyword `""`, no causes, never a parent |
| ValidationExceptions.NewScrubbedException | src/main/java/software/amazon/cloudformation/resource/exceptions/ValidationException.java:103-116 | computes `Scrubbed` for the safe-keyword list |
| ValidationExceptions.FromNative | src/main/java/software/amazon/cloudformation/resource/exceptions/ValidationException.java:81-94 | the private constructor's loop computes `Wrapped`: the given message, the copied keyword and pointer, and the causes scrubbed one by one |
| ValidationExceptions.ScrubbedNode | src/main/java/software/amazon/cloudformation/resource/exceptions/ValidationException.java:84-114 | keyword and pointer are copied; the children are the scrubbed children, same count and order (null children give none); parents stay parents; the message is kept exactly for a parent or a safe keyword and is the `<pointer>: failed validation constraint for keyword [<keyword>]` template otherwise |
| ValidationExceptions.ScrubbedShowsOnlySafeMessages | src/main/java/software/amazon/cloudformation/resource/exceptions/ValidationException.java:103-116 | at every depth of the result, each node is a parent, has a safe keyword, or carries the template message |
| ValidationExceptions.ScrubbedHidesUnsafeMessages | src/main/java/software/amazon/cloudformation/resource/exceptions/ValidationException.java:110-114 | two failure trees that differ only in scrubbed messages give the same result: no part of a scrubbed message reaches it |
| ValidationExceptions.ScrubbedDependsOnUsedKeywords | src/main/java/software/amazon/cloudformation/resource/exceptions/ValidationException.java:106-108 | two safe lists that classify every keyword of the tree alike scrub it alike |
| ValidationExceptions.BuildFullExceptionMessageHelper | src/main/java/software/amazon/cloudformation/resource/exceptions/ValidationException.java:128-141 | the `StringBuilder` loop produces the pre-order lines of the tree, each followed by a newline; parents and null messages contribute no line |
| ValidationExceptions.BuildFullExceptionMessage | src/main/java/software/amazon/cloudformation/resource/exceptions/ValidationException.java:124-126 | the helper's text, trimmed |
| ValidationExceptions.FullMessageOfLeaf | src/main/java/software/amazon/cloudformation/resource/exceptions/ValidationException.java:132-134 | a node without causes gives its trimmed message, or the empty string when the message is null |
| ValidationExceptions.FullMessageJoinsLines | src/main/java/software/amazon/cloudformation/resource/exceptions/ValidationException.java:124-141 | when the first and last lines begin and end visibly, the full message is the lines joined by newlines, with no trailing newline |
| ValidationExceptions.FullMessageSplitsIntoLines | src/main/java/software/amazon/cloudformation/resource/exceptions/ValidationException.java:124-141 | splitting the full message at newlines gives back exactly the pre-order lines |
| ValidationExceptions.ConstructorCases | src/test/java/software/amazon/cloudformation/resource/exceptions/ValidationExceptionTest.java:27-51 | a three-argument exception has no causes; an all-null exception has the empty message; a single exception's full message is its own message |
| ValidationExceptions.ThreeLeavesLines | src/main/java/software/amazon/cloudformation/resource/exceptions/ValidationException.java:128-141 | a parent of three leaves contributes only the three leaves' messages |
| ValidationExceptions.ThreeCausesMessage | src/test/java/software/amazon/cloudformation/resource/exceptions/ValidationExceptionTest.java:53-71 | the three-cause test: the message is the three causes' messages on three lines, with no trailing newline, and it splits into exactly those three |
| LegacyValidationExceptions.NewScrubbedException | src/main/java/com/amazonaws/cloudformation/resource/exceptions/ValidationException.java:95-108 | keyword and pointer are copied; the causes are scrubbed in order, same count; the message is kept exactly for a parent or a keyword on the older list, and is the redacted template otherwise; at every depth only safe messages show |
| LegacyValidationExceptions.FromNative | src/main/java/com/amazonaws/cloudformation/resource/exceptions/ValidationException.java:58-60 | the public constructor keeps the engine's message as it stands, whatever the keyword; keyword and pointer are copied; the causes are scrubbed with the older list |
| LegacyValidationExceptions.FromNativeWithMessage | src/main/java/com/amazonaws/cloudformation/resource/exceptions/ValidationException.java:62-74 | the given message and the copied keyword and pointer; the causes are scrubbed in order |
| LegacyValidationExceptions.WithCauses | src/main/java/com/amazonaws/cloudformation/resource/exceptions/ValidationException.java:82-90 | raises NullPointerException exactly on a null list; otherwise it is the current class's exception |
| LegacyValidationExceptions.WithKeyword | src/main/java/com/amazonaws/cloudformation/resource/exceptions/ValidationException.java:76-80 | never raises, and agrees with the current class |
| LegacyValidationExceptions.SafeKeywordsDiffer | src/main/java/com/amazonaws/cloudformation/resource/exceptions/ValidationException.java:35-56 | the older list has 16 keywords: the current 15 plus `items` |
| LegacyValidationExceptions.ListsAgreeWithoutItems | src/main/java/com/amazonaws/cloudformation/resource/exceptions/ValidationException.java:35-56 | the two lists classify alike every tree that never uses `items` |
| LegacyValidationExceptions.ScrubAgreesWithoutItems | src/main/java/com/amazonaws/cloudformation/resource/exceptions/ValidationException.java:95-108 | on such trees the older scrubbing equals the current one |
| LegacyValidationExceptions.ItemsMessageKeptOnlyByLegacy | src/main/java/com/amazonaws/cloudformation/resource/exceptions/ValidationException.java:100-106 | an `items` failure keeps its message in the older class, and the current one gives it the template |
| LegacyValidationExceptions.LegacyShowsOnlySafeMessages | src/main/java/com/amazonaws/cloudformation/resource/exceptions/ValidationException.java:95-108 | the older scrubbing also leaves only safe messages at every depth |
| LegacyValidationExceptions.NullCausesDiffer | src/main/java/com/amazonaws/cloudformation/resource/exceptions/ValidationException.java:82-90 | on a null list the older class raises, where the current one stores no causes |
| ResourceTaggings.DefaultTagPropertyText | src/main/java/software/amazon/cloudformation/resource/ResourceTagging.java:51 | the default tag property prints as `/properties/Tags`, and that text parses back to it |
| ResourceTaggings.PropertyPointerText | src/main/java/software/amazon/cloudformation/resource/ResourceTagging.java:68-75 | a pointer's text starts with `/properties/` exactly when its first token is `properties` and another follows; the property name is then the remaining tokens, escaped and joined |
| ResourceTaggings.ResourceTagging.constructor | src/main/java/software/amazon/cloudformation/resource/ResourceTagging.java:46-53 | all four switches take the value; the tag property is `/properties/Tags`; the permissions are empty |
| ResourceTaggings.ResourceTagging.WithAll | src/main/java/software/amazon/cloudformation/resource/ResourceTagging.java:28-44 | the all-arguments constructor stores each argument in its field |
| ResourceTaggings.ResourceTagging.ResetTaggable | src/main/java/software/amazon/cloudformation/resource/ResourceTagging.java:55-60 | the four switches take the value; the tag property and the permissions are unchanged |
| ResourceTaggings.ResourceTagging.ValidateTaggingMetadata | src/main/java/software/amazon/cloudformation/resource/ResourceTagging.java:62-80 | passes exactly when an updatable type has an update handler, the tag property lies below `/properties`, and a taggable type defines the named property; a missing handler fails first at `#/tagging/tagUpdatable`; the second and third checks fail with their own messages at `#/tagging/tagProperty`; every failure has keyword `tagging` and no causes |
| ResourceTaggings.DefaultValidation | src/main/java/software/amazon/cloudformation/resource/ResourceTagging.java:37 | for `DEFAULT`'s switches and tag property, validation passes exactly when there is an update handler and the schema defines `Tags` |
| ResourceTaggings.UntaggableChecksOnlyPlace | src/main/java/software/amazon/cloudformation/resource/ResourceTagging.java:75-79 | when not taggable and not updatable, only the place of the tag property is checked |
| ResourceTaggings.ResetTaggableCase | src/test/java/software/amazon/cloudformation/resource/ResourceTaggingTest.java:25-38 | the `resetTaggable` test: every switch is off, and the tag property and the permissions are as constructed |

## Left out

- Loading a schema (`load`), the validators and the schema engine are left out. The engine's draft-07 keyword evaluation and its message wording are left out too. The engine's output is an input here: the unprocessed-property map, or the failure tree `ValidationExceptions.NativeFailure`.
- `schema.definesProperty` is not modelled. `ValidateTaggingMetadata` takes it as a predicate parameter.
- The everit `getMessage()` is treated as opaque text. Its prefixing of the pointer is not modelled.
- JSON parsing and printing are not modelled, and neither is file, network or resource-stream I/O.
- `JsonValues.ToJavaString` prints a map's entries in ascending key order. Java's `HashMap` order is unspecified, so a map inside a list key is only rendered up to that order.
- Number formats are only partly modelled. Floating-point numbers are not modelled. Java integer parsing is modelled for ASCII digits only.
- The `#/` pointer form is accepted, but it is not URL-decoded.
- Aliasing between nested `JSONObject`s of a resource model is not modelled. A model is one value held by one `JsonObject`. A removal rebuilds the path to the parent rather than mutating a shared nested object.
- A Java null stored inside the residual map is not modelled (the engine does not produce one).
- On a failed construction, the half-filled lists and map are not observable. The model returns the exception only.
- `ReadLists` reads every list key from the map as it stood before any list key was removed. This matches the code, because no list key reads another.
- The Lombok getters of the plain fields (`getSourceUrl`, `getTypeName`, the tagging switches) are field reads in the model and need no member of their own.
- `DEFAULT` being one shared static instance is not modelled. `DefaultValidation` states its switches.
- `ValidationExceptions.WithCause` does not store the `cause` object.
- The current class's never-null test on `getCausingExceptions()` in the message helper is not modelled. Every constructor stores a list, so that test is always true.
- `com.aws.cfn.resource.exceptions.ValidationException` and `SchemaProcessingException` are not part of this model: one is a plain tree copy without redaction, the other a bare exception type.
- The `*AsStrings` getters (all of them, in both schema classes): element-wise equality with the source array's texts is stated only for plain pointer texts. Those are texts without `~` or a trailing empty token, for which printing the parsed pointer gives back the text. For other texts only the length is stated.
- `PropertyRemoval.PropertyRemovedRemoves`: the removal is not stated for a parent that is an array. The corrected `PropertyRemoved` leaves the model alone when the parent is an array. That is this model's choice: whether the code meant to remove the array element is unresolved (see Findings).
- `PropertyRemoval.StripAllClears` and `ResourceTypeSchemas.RemoveThenHasNone` only cover texts that are `Strippable`, and `Strippable` excludes a parent that is an array. A write-only property reached through an array therefore stays in the model after `RemoveWriteOnlyProperties`, and `HasWriteOnlyProperties` can still answer true.

## Findings

| source | as written | input that shows it | evidently intended | confidence | as-written member | corrected member |
|---|---|---|---|---|---|---|
| src/main/java/software/amazon/cloudformation/resource/ResourceTypeSchema.java:176-178 | `removeProperty` prints the pointer and re-splits the text at `/`. Escapes are not undone, and Java's split drops a trailing empty token. | the key `a/b` in `{"a/b": 1}` survives its own removal; removing the member `""` of `{"a": {"": 1}}` removes all of `a` | remove the entry the pointer's own tokens name | not executed | PropertyRemoval.PropertyRemovedAsWritten (EscapedKeySurvives, TrailingEmptyTokenLost, WholePassEscapedKey) | PropertyRemoval.PropertyRemoved (PropertyRemovedRemoves, PropertyRemovedFrame) |
| src/main/java/software/amazon/cloudformation/resource/ResourceTypeSchema.java:183-193 | A parent that is missing or is an array is not caught. Java null raises NullPointerException at `remove`, and an array fails the cast to `JSONObject`. | pointer `/E/nested` on `{}`; pointer `/L/0` on `{"L": [7]}` | for a missing parent, "the model does not have a value for the pointer", so do nothing; for an array parent the intent is unresolved, since the comment "fetch parent object/array" and the `NumberFormatException` catch suggest that removing the element was meant, and the corrected member leaves the model alone there | not executed | PropertyRemoval.PropertyRemovedAsWritten (MissingParentRaises, ArrayParentRaises, WholePassMissingParent) | PropertyRemoval.PropertyRemoved (StripAllClears) |

The class's `RemoveProperty` and `RemoveWriteOnlyProperties` use the
corrected removal. `AsWrittenAgrees` shows where the two agree: on pointers
whose tokens need no escaping and survive the split, whenever the parent is
an object or its walk raises.
