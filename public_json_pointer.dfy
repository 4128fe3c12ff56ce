/** `PublicJSONPointer`: the library pointer with its token list made
    public and an existence test that never raises. */
module PublicJsonPointers {

  import opened Wrappers
  import opened JavaText
  import opened JsonValues
  import opened JsonPointers

  /** `new PublicJSONPointer(List<String>)`; `getRefTokens` gives the list
      back. */
  function FromTokens(refTokens: seq<string>): (p: JsonPointer)
    ensures GetRefTokens(p) == refTokens
  {
    JsonPointer(refTokens)
  }

  /** `new PublicJSONPointer(String)`: a text starting with neither "/" nor
      "#/" (and not "" or "#") is refused; a plain text is read back as it
      was written. */
  function FromString(pointer: string): (r: Result<JsonPointer, Fault>)
    ensures r.Failure? <==> pointer != "" && pointer != "#" && pointer[0] != '/' && !("#/" <= pointer)
    ensures r.Failure? ==> r.error == IllegalArgument
    ensures PlainPointerText(pointer) ==> r.Success? && ToString(r.value) == pointer
  {
    if PlainPointerText(pointer) then
      ToStringParse(pointer);
      Parse(pointer)
    else
      Parse(pointer)
  }

  /** `getRefTokens`: the tokens that rebuild the same pointer. */
  function GetRefTokens(p: JsonPointer): (r: seq<string>)
    ensures JsonPointer(r) == p
  {
    p.refTokens
  }

  /** `isInObject`: true exactly when `queryFrom` yields a non-null value;
      a JSONPointerException is answered with false. */
  function IsInObject(p: JsonPointer, jsonObject: map<string, Json>): (r: bool)
    ensures p.refTokens == [] ==> r
    ensures |p.refTokens| == 1 ==> (r <==> p.refTokens[0] in jsonObject)
  {
    assert |p.refTokens| == 1 ==> Walk(Some(JObject(jsonObject)), p.refTokens) == Step(Some(JObject(jsonObject)), p.refTokens[0]);
    Resolves(p, JObject(jsonObject))
  }

  /** A nested pointer is in the object exactly when its tail is in the
      member its first token names, and that member is an object. */
  lemma IsInObjectNested(k: string, rest: seq<string>, jsonObject: map<string, Json>)
    requires rest != []
    requires k in jsonObject && jsonObject[k].JObject?
    ensures IsInObject(FromTokens([k] + rest), jsonObject)
        == IsInObject(FromTokens(rest), jsonObject[k].members)
  {
    var ts := [k] + rest;
    assert ts[0] == k && ts[1..] == rest;
  }

  /** A pointer whose first token is missing cannot reach anything below. */
  lemma MissingIntermediate(k: string, rest: seq<string>, jsonObject: map<string, Json>)
    requires rest != [] && k !in jsonObject
    ensures !IsInObject(FromTokens([k] + rest), jsonObject)
  {
    var ts := [k] + rest;
    assert ts[0] == k && ts[1..] == rest;
    WalkFromNull(rest);
  }

  /** What is in the object has every ancestor in the object. */
  lemma IsInObjectPrefix(a: seq<string>, b: seq<string>, jsonObject: map<string, Json>)
    requires IsInObject(FromTokens(a + b), jsonObject)
    ensures IsInObject(FromTokens(a), jsonObject)
  {
    WalkAppend(Some(JObject(jsonObject)), a, b);
    if b != [] {
      var w := Walk(Some(JObject(jsonObject)), a);
      if w.Success? && w.value.None? {
        WalkFromNull(b);
      }
    }
  }

  /** The cases of the library's own tests, stated for all inputs: a present
      key (even one holding JSON null) is found, a missing one is not, a
      present nested key is found and nothing is found in the empty object
      but the whole document. */
  lemma IsInObjectCases(k: string, n: string, v: Json)
    ensures IsInObject(FromTokens([k]), map[k := v])
    ensures IsInObject(FromTokens([k, n]), map[k := JObject(map[n := v])])
    ensures !IsInObject(FromTokens([k]), map[])
    ensures !IsInObject(FromTokens([k, n]), map[])
    ensures IsInObject(FromTokens([]), map[])
  {
    IsInObjectNested(k, [n], map[k := JObject(map[n := v])]);
    MissingIntermediate(k, [n], map[]);
  }
}
