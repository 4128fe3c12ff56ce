/** The everit `JSONPointer` the core builds on (library code, modelled only
    as far as the core relies on it): a pointer is its list of reference
    tokens; the text form escapes `~` and `/` as section 3 of RFC 6901
    prescribes; `queryFrom` walks objects by key and arrays by index
    (section 4 of RFC 6901), answering Java null (None) for a missing final
    member and raising JSONPointerException when it cannot go on. */
module JsonPointers {

  import opened Wrappers
  import opened JavaText
  import opened JsonValues

  datatype JsonPointer = JsonPointer(refTokens: seq<string>)

  // ---------------------------------------------------------------------
  // Escaping of reference tokens (section 3 of RFC 6901)

  function Escape(t: string): (r: string)
    ensures '/' !in r
    ensures r == "" <==> t == ""
  {
    if t == [] then []
    else (if t[0] == '~' then "~0" else if t[0] == '/' then "~1" else [t[0]]) + Escape(t[1..])
  }

  /** Replaces "~1" by "/" and then "~0" by "~"; a single left-to-right scan
      gives the same string as Java's two successive `replace` calls. */
  function Unescape(t: string): string {
    if |t| >= 2 && t[0] == '~' && t[1] == '1' then "/" + Unescape(t[2..])
    else if |t| >= 2 && t[0] == '~' && t[1] == '0' then "~" + Unescape(t[2..])
    else if t == [] then []
    else [t[0]] + Unescape(t[1..])
  }

  lemma {:induction false} UnescapeEscape(t: string)
    ensures Unescape(Escape(t)) == t
  {
    if t != [] {
      UnescapeEscape(t[1..]);
      var head := if t[0] == '~' then "~0" else if t[0] == '/' then "~1" else [t[0]];
      assert Escape(t) == head + Escape(t[1..]);
      if t[0] != '~' && t[0] != '/' {
        assert (head + Escape(t[1..]))[1..] == Escape(t[1..]);
      } else {
        assert (head + Escape(t[1..]))[2..] == Escape(t[1..]);
      }
      assert t == [t[0]] + t[1..];
    }
  }

  lemma {:induction false} PlainEscape(t: string)
    requires '~' !in t && '/' !in t
    ensures Escape(t) == t
  {
    if t != [] {
      PlainEscape(t[1..]);
      assert t == [t[0]] + t[1..];
    }
  }

  lemma {:induction false} PlainUnescape(t: string)
    requires '~' !in t
    ensures Unescape(t) == t
  {
    if t != [] {
      PlainUnescape(t[1..]);
      assert t == [t[0]] + t[1..];
    }
  }

  function EscapeAll(ts: seq<string>): (r: seq<string>)
    ensures |r| == |ts|
  {
    seq(|ts|, i requires 0 <= i < |ts| => Escape(ts[i]))
  }

  function UnescapeAll(ts: seq<string>): (r: seq<string>)
    ensures |r| == |ts|
  {
    seq(|ts|, i requires 0 <= i < |ts| => Unescape(ts[i]))
  }

  // ---------------------------------------------------------------------
  // Text form

  /** `JSONPointer.toString()`: "/" before every escaped token. */
  function ToString(p: JsonPointer): string {
    if p.refTokens == [] then "" else "/" + Join(EscapeAll(p.refTokens), "/")
  }

  /** `new JSONPointer(String)`: "" and "#" are the whole document; after a
      leading "/" (or "#/") the text is split at "/" with Java's `split`
      and each piece unescaped; anything else is refused. */
  function Parse(s: string): (r: Result<JsonPointer, Fault>)
    ensures r.Failure? ==> r.error == IllegalArgument
    ensures r.Failure? <==> (s != "" && s != "#" && s[0] != '/' && !("#/" <= s))
  {
    if s == "" || s == "#" then Success(JsonPointer([]))
    else if "#/" <= s then Success(JsonPointer(UnescapeAll(JavaSplit(s[2..], '/'))))
    else if s[0] == '/' then Success(JsonPointer(UnescapeAll(JavaSplit(s[1..], '/'))))
    else Failure(IllegalArgument)
  }

  /** Text of a pointer that survives a round trip unchanged: a leading "/",
      no "~" at all, and no trailing "/" (unless it is the text "/"). */
  predicate PlainPointerText(s: string) {
    |s| >= 1 && s[0] == '/' && '~' !in s && (|s| == 1 || s[|s| - 1] != '/')
  }

  /** Parsing then printing a pointer gives its text back when the text is
      plain. */
  lemma {:induction false} ToStringParse(s: string)
    requires PlainPointerText(s)
    ensures Parse(s).Success? && ToString(Parse(s).value) == s
  {
    var refs := s[1..];
    assert s == "/" + refs;
    assert s[0] == '/';
    assert !("#/" <= s);
    assert Parse(s) == Success(JsonPointer(UnescapeAll(JavaSplit(refs, '/'))));
    if refs == "" {
      assert Parse(s).value.refTokens == [""];
    } else {
      assert '~' !in refs;
      assert refs[|refs| - 1] == s[|s| - 1];
      var pieces := RawSplit(refs, '/');
      RawSplitLast(refs, '/');
      assert pieces[|pieces| - 1] != "";
      assert JavaSplit(refs, '/') == pieces;
      PlainPieces(refs);
      JoinSplit(refs, '/');
    }
  }

  /** The pieces of a text without `~` are their own escape and unescape. */
  lemma PlainPieces(refs: string)
    requires '~' !in refs
    ensures UnescapeAll(RawSplit(refs, '/')) == RawSplit(refs, '/')
    ensures EscapeAll(RawSplit(refs, '/')) == RawSplit(refs, '/')
  {
    var pieces := RawSplit(refs, '/');
    forall i | 0 <= i < |pieces|
      ensures Unescape(pieces[i]) == pieces[i] && Escape(pieces[i]) == pieces[i]
    {
      SplitPiecesAreSubstrings(refs, '/', i, '~');
      PlainUnescape(pieces[i]);
      PlainEscape(pieces[i]);
    }
  }

  lemma {:induction false} SplitPiecesAreSubstrings(s: string, c: char, i: int, x: char)
    requires 0 <= i < |RawSplit(s, c)|
    requires x !in s
    ensures x !in RawSplit(s, c)[i]
  {
    if s != [] {
      var rest := RawSplit(s[1..], c);
      if s[0] == c {
        if i > 0 {
          SplitPiecesAreSubstrings(s[1..], c, i - 1, x);
        }
      } else {
        if i == 0 {
          SplitPiecesAreSubstrings(s[1..], c, 0, x);
        } else {
          SplitPiecesAreSubstrings(s[1..], c, i, x);
        }
      }
    }
  }

  /** A pointer comes back from its own text exactly when it is the whole
      document, the single empty token, or its last token is not empty
      (Java's `split` drops trailing empty pieces). */
  predicate RoundTrips(ts: seq<string>) {
    ts == [] || ts == [""] || ts[|ts| - 1] != ""
  }

  lemma ParseToString(p: JsonPointer)
    ensures Parse(ToString(p)) == Success(p) <==> RoundTrips(p.refTokens)
  {
    var ts := p.refTokens;
    if ts == [] {
    } else if ts == [""] {
      SingleEmptyTokenRoundTrips();
    } else if ts[|ts| - 1] != "" {
      LastTokenKept(ts);
    } else {
      LastEmptyTokenLost(ts);
    }
  }

  lemma SingleEmptyTokenRoundTrips()
    ensures Parse(ToString(JsonPointer([""]))) == Success(JsonPointer([""]))
  {
    ParseOfText([""]);
    assert EscapeAll([""]) == [""];
    assert Join(EscapeAll([""]), "/") == "";
    assert UnescapeAll([""]) == [""];
  }

  /** A last token that is not empty survives `split`. */
  lemma LastTokenKept(ts: seq<string>)
    requires ts != [] && ts[|ts| - 1] != ""
    ensures Parse(ToString(JsonPointer(ts))) == Success(JsonPointer(ts))
  {
    var es := EscapeAll(ts);
    var j := Join(es, "/");
    ParseOfText(ts);
    EscapedPieces(ts);
    assert es[|es| - 1] != "";
    JoinNotEmpty(es, '/');
    assert JavaSplit(j, '/') == es;
  }

  /** A join whose last piece is not empty is not empty. */
  lemma {:induction false} JoinNotEmpty(es: seq<string>, c: char)
    requires es != [] && es[|es| - 1] != ""
    ensures Join(es, [c]) != ""
    decreases |es|
  {
    if |es| >= 2 {
      JoinNotEmpty(es[1..], c);
    }
  }

  /** With two or more tokens and an empty last one, `split` loses it. */
  lemma LastEmptyTokenLost(ts: seq<string>)
    requires ts != [] && ts != [""] && ts[|ts| - 1] == ""
    ensures Parse(ToString(JsonPointer(ts))) != Success(JsonPointer(ts))
  {
    var es := EscapeAll(ts);
    var j := Join(es, "/");
    ParseOfText(ts);
    EscapedPieces(ts);
    assert |ts| >= 2;
    JoinLonger(es, '/');
    assert es[|es| - 1] == "";
    var d := DropTrailingEmpty(es);
    assert JavaSplit(j, '/') == d;
    assert d == es[..|d|];
    assert |d| != |es| by {
      assert d != [] ==> d[|d| - 1] != "";
    }
    assert |Parse(ToString(JsonPointer(ts))).value.refTokens| == |d|;
  }

  /** The text of a non-empty pointer starts with "/" and parses back to
      the split of what follows it. */
  lemma ParseOfText(ts: seq<string>)
    requires ts != []
    ensures Parse(ToString(JsonPointer(ts)))
      == Success(JsonPointer(UnescapeAll(JavaSplit(Join(EscapeAll(ts), "/"), '/'))))
  {
    var j := Join(EscapeAll(ts), "/");
    var s := ToString(JsonPointer(ts));
    assert s == "/" + j;
    assert s[0] == '/';
    assert !("#/" <= s);
    assert s[1..] == j;
  }

  /** The escaped tokens are exactly the raw pieces of their joined text,
      and unescaping them restores the tokens. */
  lemma EscapedPieces(ts: seq<string>)
    requires ts != []
    ensures RawSplit(Join(EscapeAll(ts), "/"), '/') == EscapeAll(ts)
    ensures UnescapeAll(EscapeAll(ts)) == ts
  {
    var es := EscapeAll(ts);
    SplitJoin(es, '/');
    forall i | 0 <= i < |ts|
      ensures Unescape(es[i]) == ts[i]
    {
      UnescapeEscape(ts[i]);
    }
  }

  lemma JoinNonEmpty(es: seq<string>, c: char)
    requires |es| >= 1
    requires Join(es, [c]) == ""
    ensures |es| == 1 && es[0] == ""
  {
    JoinLonger(es, c);
  }

  lemma JoinLonger(es: seq<string>, c: char)
    ensures |es| >= 2 ==> |Join(es, [c])| >= 1
  {
  }

  /** The `get*AsStrings` rendering of a pointer list. */
  function AsStrings(ps: seq<JsonPointer>): (r: seq<string>)
    ensures |r| == |ps|
  {
    seq(|ps|, i requires 0 <= i < |ps| => ToString(ps[i]))
  }

  /** The rendering of a list of pointer lists, nesting preserved. */
  function AsStringLists(pss: seq<seq<JsonPointer>>): (r: seq<seq<string>>)
    ensures |r| == |pss|
  {
    seq(|pss|, i requires 0 <= i < |pss| => AsStrings(pss[i]))
  }

  // ---------------------------------------------------------------------
  // Evaluation (section 4 of RFC 6901), as everit's queryFrom does it

  /** One step of `queryFrom`: an object yields its member (Java null when it
      is missing), an array yields the element at a decimal index, and
      anything else (Java null included) raises JSONPointerException. */
  function Step(cur: Option<Json>, token: string): Result<Option<Json>, Fault> {
    match cur
    case None => Failure(JsonPointerError)
    case Some(v) =>
      match v
      case JObject(m) => Success(if token in m then Some(m[token]) else None)
      case JArray(es) =>
        (match ParseJavaInt(token)
         case None => Failure(JsonPointerError)
         case Some(i) => if 0 <= i < |es| then Success(Some(es[i])) else Failure(JsonPointerError))
      case _ => Failure(JsonPointerError)
  }

  function Walk(cur: Option<Json>, tokens: seq<string>): Result<Option<Json>, Fault>
    decreases |tokens|
  {
    if tokens == [] then Success(cur)
    else
      var next :- Step(cur, tokens[0]);
      Walk(next, tokens[1..])
  }

  function QueryFrom(p: JsonPointer, doc: Json): Result<Option<Json>, Fault> {
    Walk(Some(doc), p.refTokens)
  }

  /** `queryFrom(doc) != null` without an exception: the pointer reaches a
      value of the document (JSONObject.NULL included). */
  predicate Resolves(p: JsonPointer, doc: Json) {
    var r := QueryFrom(p, doc);
    r.Success? && r.value.Some?
  }

  /** Walking a concatenated path is walking its two parts in turn. */
  lemma {:induction false} WalkAppend(cur: Option<Json>, a: seq<string>, b: seq<string>)
    ensures Walk(cur, a + b) == (var mid :- Walk(cur, a); Walk(mid, b))
    decreases |a|
  {
    if a == [] {
      assert a + b == b;
    } else {
      assert (a + b)[0] == a[0];
      assert (a + b)[1..] == a[1..] + b;
      match Step(cur, a[0])
      case Failure(_) =>
      case Success(next) =>
        WalkAppend(next, a[1..], b);
    }
  }

  /** Nothing can be found below a Java null: once a walk yields null, any
      further token raises. */
  lemma {:induction false} WalkFromNull(tokens: seq<string>)
    requires tokens != []
    ensures Walk(None, tokens).Failure?
  {
  }
}
