/** JSON documents as the org.json / everit libraries hand them over:
    null, booleans, integers, strings, arrays and objects.  `JNull` stands
    for `JSONObject.NULL`, which is a real (non-null) Java object. */
module JsonValues {

  import opened JavaText

  datatype Json =
    | JNull
    | JBool(b: bool)
    | JInt(n: int)
    | JString(str: string)
    | JArray(elems: seq<Json>)
    | JObject(members: map<string, Json>)

  /** `toString()` of the Java object that carries a residual value:
      strings print bare, lists as `[a, b]`, maps as `{k=v, k2=v2}`
      (in ascending key order here; see README). */
  function ToJavaString(v: Json): string {
    match v
    case JNull => "null"
    case JBool(b) => if b then "true" else "false"
    case JInt(n) => IntToString(n)
    case JString(s) => s
    case JArray(es) =>
      "[" + Join(seq(|es|, i requires 0 <= i < |es| => ToJavaString(es[i])), ", ") + "]"
    case JObject(m) =>
      var ks := SortedKeys(m.Keys);
      "{" + Join(seq(|ks|, i requires 0 <= i < |ks| => ks[i] + "=" + ToJavaString(m[ks[i]])), ", ") + "}"
  }

  lemma {:induction false} NatToStringStartsWithDigit(n: nat)
    ensures IsDigit(NatToString(n)[0])
    decreases n
  {
    if n >= 10 {
      NatToStringStartsWithDigit(n / 10);
    }
  }

  /** Only a JSON string can render to text that begins with `/` or `#`:
      every other value starts with a digit, a sign, a letter or a bracket. */
  lemma NonStringRendering(v: Json)
    requires !v.JString?
    ensures |ToJavaString(v)| >= 1
    ensures ToJavaString(v)[0] != '/' && ToJavaString(v)[0] != '#'
  {
    if v.JInt? {
      if v.n >= 0 {
        NatToStringStartsWithDigit(v.n);
      }
    }
  }

  /** A JSONObject that the code changes in place. */
  class JsonObject {
    var members: map<string, Json>

    constructor (members: map<string, Json>)
      ensures this.members == members
    {
      this.members := members;
    }
  }
}
