/** `ValidationException`: the error the schema validator reports. It is
    built from the JSON-schema library's own validation error by scrubbing
    every message that could echo a property value, and a whole tree of
    such errors can be flattened into one message, one line per error. */
module ValidationExceptions {

  import opened Wrappers
  import opened JavaText

  // ---------------------------------------------------------------------
  // Data

  /** The causes of a library error, which the code tests for Java null. */
  datatype NativeCauses = NullCauses | CauseList(items: seq<NativeFailure>)

  /** The JSON-schema library's validation error, as far as the code reads
      it: its message, keyword and pointer may each be Java null. */
  datatype NativeFailure = NativeFailure(
    message: Option<string>,
    keyword: Option<string>,
    pointerToViolation: Option<string>,
    causingExceptions: NativeCauses)

  /** The code's own exception. Every constructor stores a list of causes,
      so `causingExceptions` is never null here. */
  datatype ValidationException = ValidationException(
    message: Option<string>,
    causingExceptions: seq<ValidationException>,
    keyword: Option<string>,
    schemaPointer: Option<string>)

  /** Keywords whose library messages carry no value from the document. */
  const SafeKeywords: seq<string> := [
    "required", "minProperties", "maxProperties", "dependencies", "additionalProperties",
    "minLength", "maxLength",
    "minItems", "maxItems", "uniqueItems", "contains",
    "type", "allOf", "anyOf", "oneOf"]

  // ---------------------------------------------------------------------
  // Public constructors

  /** `new ValidationException(message, causingExceptions, keyword,
      schemaPointer)`: a null list of causes is stored as the empty list. */
  function WithCauses(message: Option<string>, causingExceptions: Option<seq<ValidationException>>,
                      keyword: Option<string>, schemaPointer: Option<string>): (v: ValidationException)
    ensures causingExceptions.None? ==> v.causingExceptions == []
    ensures causingExceptions.Some? ==> v.causingExceptions == causingExceptions.value
    ensures v.message == message && v.keyword == keyword && v.schemaPointer == schemaPointer
  {
    var causes := if causingExceptions.Some? then causingExceptions.value else [];
    ValidationException(message, causes, keyword, schemaPointer)
  }

  /** `new ValidationException(message, keyword, schemaPointer)`: an error
      without causes. */
  function WithKeyword(message: Option<string>, keyword: Option<string>, schemaPointer: Option<string>): (v: ValidationException)
    ensures v.causingExceptions == [] && !IsParent(v)
    ensures v.message == message && v.keyword == keyword && v.schemaPointer == schemaPointer
  {
    WithCauses(message, Some([]), keyword, schemaPointer)
  }

  /** `new ValidationException(message, schemaPointer, cause)`: no causes and
      the empty keyword, so never a parent. */
  function WithCause(message: Option<string>, schemaPointer: Option<string>): (v: ValidationException)
    ensures v.causingExceptions == [] && v.keyword == Some("") && !IsParent(v)
    ensures v.message == message && v.schemaPointer == schemaPointer
  {
    ValidationException(message, [], Some(""), schemaPointer)
  }

  // ---------------------------------------------------------------------
  // Scrubbing

  /** A parent error has no keyword of its own and at least one cause; its
      message only counts the failures beneath it. */
  predicate IsNativeParent(e: NativeFailure) {
    e.keyword.None? && e.causingExceptions.CauseList? && e.causingExceptions.items != []
  }

  predicate IsParent(v: ValidationException) {
    v.keyword.None? && v.causingExceptions != []
  }

  /** `SAFE_KEYWORDS.contains(keyword)`: Java null is in no list of keywords. */
  predicate IsSafe(safe: seq<string>, keyword: Option<string>) {
    keyword.Some? && keyword.value in safe
  }

  /** `%s` of `String.format`: a null reference prints as "null". */
  function FormatArg(s: Option<string>): string {
    if s.Some? then s.value else "null"
  }

  /** The message put in place of one that may echo a value. */
  function RedactedMessage(pointer: Option<string>, keyword: Option<string>): string {
    FormatArg(pointer) + ": failed validation constraint for keyword [" + FormatArg(keyword) + "]"
  }

  /** The private constructor from a library error: the given message, the
      error's keyword and pointer, and every cause scrubbed in turn. The
      list of safe keywords is a parameter because the two generations of
      the class keep different lists. */
  function Wrapped(safe: seq<string>, errorMessage: Option<string>, e: NativeFailure): ValidationException
    decreases e, 0
  {
    match e.causingExceptions
    case NullCauses =>
      ValidationException(errorMessage, [], e.keyword, e.pointerToViolation)
    case CauseList(items) =>
      ValidationException(errorMessage, seq(|items|, i requires 0 <= i < |items| => Scrubbed(safe, items[i])),
                          e.keyword, e.pointerToViolation)
  }

  /** `newScrubbedException`: a parent error or one with a safe keyword keeps
      its message; any other gets the redacted message. */
  function Scrubbed(safe: seq<string>, e: NativeFailure): ValidationException
    decreases e, 1
  {
    if IsNativeParent(e) || IsSafe(safe, e.keyword) then Wrapped(safe, e.message, e)
    else Wrapped(safe, Some(RedactedMessage(e.pointerToViolation, e.keyword)), e)
  }

  /** The causes a library error lists, a null list read as none. */
  function NativeCausesOf(e: NativeFailure): seq<NativeFailure> {
    match e.causingExceptions
    case NullCauses => []
    case CauseList(items) => items
  }

  /** `newScrubbedException`, as the code computes it. */
  method NewScrubbedException(safe: seq<string>, e: NativeFailure) returns (v: ValidationException)
    ensures v == Scrubbed(safe, e)
    decreases e, 1
  {
    if IsNativeParent(e) || IsSafe(safe, e.keyword) {
      v := FromNative(safe, e.message, e);
    } else {
      var errorMessage := RedactedMessage(e.pointerToViolation, e.keyword);
      v := FromNative(safe, Some(errorMessage), e);
    }
  }

  /** The private constructor, with its loop that scrubs the causes one by
      one into a fresh list. */
  method FromNative(safe: seq<string>, errorMessage: Option<string>, e: NativeFailure) returns (v: ValidationException)
    ensures v == Wrapped(safe, errorMessage, e)
    decreases e, 0
  {
    var causingExceptions: seq<ValidationException> := [];
    if e.causingExceptions.CauseList? {
      var items := e.causingExceptions.items;
      var i := 0;
      while i < |items|
        invariant 0 <= i <= |items|
        invariant |causingExceptions| == i
        invariant forall j :: 0 <= j < i ==> causingExceptions[j] == Scrubbed(safe, items[j])
      {
        var cause := NewScrubbedException(safe, items[i]);
        causingExceptions := causingExceptions + [cause];
        i := i + 1;
      }
    }
    v := ValidationException(errorMessage, causingExceptions, e.keyword, e.pointerToViolation);
  }

  /** One scrubbing step: keyword and pointer are copied, the causes are the
      scrubbed causes in their order, parents stay parents, and the message
      is kept exactly for a parent or safe keyword and redacted otherwise. */
  lemma ScrubbedNode(safe: seq<string>, e: NativeFailure)
    ensures var v := Scrubbed(safe, e);
      && v.keyword == e.keyword && v.schemaPointer == e.pointerToViolation
      && |v.causingExceptions| == |NativeCausesOf(e)|
      && (forall i :: 0 <= i < |v.causingExceptions| ==> v.causingExceptions[i] == Scrubbed(safe, NativeCausesOf(e)[i]))
      && (IsParent(v) <==> IsNativeParent(e))
      && (IsNativeParent(e) || IsSafe(safe, e.keyword) ==> v.message == e.message)
      && (!IsNativeParent(e) && !IsSafe(safe, e.keyword) ==> v.message == Some(RedactedMessage(e.pointerToViolation, e.keyword)))
  {
  }

  /** Every error in the tree shows either a parent's count, a message of a
      safe keyword, or the redacted message built from its own pointer and
      keyword. */
  predicate ShowsOnlySafeMessages(safe: seq<string>, v: ValidationException)
    decreases v
  {
    && (IsParent(v) || IsSafe(safe, v.keyword) || v.message == Some(RedactedMessage(v.schemaPointer, v.keyword)))
    && forall i :: 0 <= i < |v.causingExceptions| ==> ShowsOnlySafeMessages(safe, v.causingExceptions[i])
  }

  /** Scrubbing redacts at every depth of the tree, not just at the root. */
  lemma {:induction false} ScrubbedShowsOnlySafeMessages(safe: seq<string>, e: NativeFailure)
    ensures ShowsOnlySafeMessages(safe, Scrubbed(safe, e))
    decreases e
  {
    var v := Scrubbed(safe, e);
    ScrubbedNode(safe, e);
    match e.causingExceptions
    case NullCauses =>
    case CauseList(items) =>
      forall i | 0 <= i < |items|
        ensures ShowsOnlySafeMessages(safe, v.causingExceptions[i])
      {
        ScrubbedShowsOnlySafeMessages(safe, items[i]);
      }
  }

  /** Two library errors that agree everywhere except, perhaps, in the
      messages that scrubbing throws away. */
  predicate AgreeOnKeptParts(safe: seq<string>, a: NativeFailure, b: NativeFailure)
    decreases a
  {
    && a.keyword == b.keyword
    && a.pointerToViolation == b.pointerToViolation
    && a.causingExceptions.CauseList? == b.causingExceptions.CauseList?
    && (a.causingExceptions.CauseList? && b.causingExceptions.CauseList? ==>
          && |a.causingExceptions.items| == |b.causingExceptions.items|
          && forall i :: 0 <= i < |a.causingExceptions.items| ==>
               AgreeOnKeptParts(safe, a.causingExceptions.items[i], b.causingExceptions.items[i]))
    && (IsNativeParent(a) || IsSafe(safe, a.keyword) ==> a.message == b.message)
  }

  /** Nothing of a message that is scrubbed reaches the result: library
      errors that differ only in such messages scrub to the same error. */
  lemma {:induction false} ScrubbedHidesUnsafeMessages(safe: seq<string>, a: NativeFailure, b: NativeFailure)
    requires AgreeOnKeptParts(safe, a, b)
    ensures Scrubbed(safe, a) == Scrubbed(safe, b)
    decreases a
  {
    if a.causingExceptions.CauseList? {
      var xs, ys := a.causingExceptions.items, b.causingExceptions.items;
      ScrubbedNode(safe, a);
      ScrubbedNode(safe, b);
      forall i | 0 <= i < |xs|
        ensures Scrubbed(safe, xs[i]) == Scrubbed(safe, ys[i])
      {
        ScrubbedHidesUnsafeMessages(safe, xs[i], ys[i]);
      }
      var va, vb := Scrubbed(safe, a), Scrubbed(safe, b);
      assert va.causingExceptions == vb.causingExceptions;
    }
  }

  /** Two keyword lists that classify every keyword of the tree alike. */
  predicate SafeListsAgree(s1: seq<string>, s2: seq<string>, e: NativeFailure)
    decreases e
  {
    && (IsSafe(s1, e.keyword) <==> IsSafe(s2, e.keyword))
    && (e.causingExceptions.CauseList? ==>
          forall i :: 0 <= i < |e.causingExceptions.items| ==> SafeListsAgree(s1, s2, e.causingExceptions.items[i]))
  }

  /** Scrubbing depends on the list of safe keywords only through the
      keywords the tree actually uses. */
  lemma {:induction false} ScrubbedDependsOnUsedKeywords(s1: seq<string>, s2: seq<string>, e: NativeFailure)
    requires SafeListsAgree(s1, s2, e)
    ensures Scrubbed(s1, e) == Scrubbed(s2, e)
    decreases e
  {
    if e.causingExceptions.CauseList? {
      var xs := e.causingExceptions.items;
      ScrubbedNode(s1, e);
      ScrubbedNode(s2, e);
      forall i | 0 <= i < |xs|
        ensures Scrubbed(s1, xs[i]) == Scrubbed(s2, xs[i])
      {
        ScrubbedDependsOnUsedKeywords(s1, s2, xs[i]);
      }
      assert Scrubbed(s1, e).causingExceptions == Scrubbed(s2, e).causingExceptions;
    }
  }

  // ---------------------------------------------------------------------
  // The full message of a tree

  function Flatten(parts: seq<seq<string>>): seq<string> {
    if parts == [] then [] else Flatten(parts[..|parts| - 1]) + parts[|parts| - 1]
  }

  /** The lines, each followed by a line feed. */
  function Terminated(lines: seq<string>): string {
    if lines == [] then "" else Terminated(lines[..|lines| - 1]) + lines[|lines| - 1] + "\n"
  }

  /** The message an error contributes itself: none for a parent or a null
      message. */
  function OwnLine(v: ValidationException): seq<string> {
    if !IsParent(v) && v.message.Some? then [v.message.value] else []
  }

  /** The messages of the tree in pre-order: an error before its causes,
      causes in their order. */
  function Lines(v: ValidationException): seq<string>
    decreases v
  {
    var cs := v.causingExceptions;
    OwnLine(v) + Flatten(seq(|cs|, i requires 0 <= i < |cs| => Lines(cs[i])))
  }

  /** `buildFullExceptionMessage`. */
  function FullMessage(v: ValidationException): string {
    Trim(Terminated(Lines(v)))
  }

  lemma {:induction false} TerminatedAppend(a: seq<string>, b: seq<string>)
    ensures Terminated(a + b) == Terminated(a) + Terminated(b)
    decreases |b|
  {
    if b != [] {
      var b' := b[..|b| - 1];
      assert (a + b)[..|a + b| - 1] == a + b';
      TerminatedAppend(a, b');
    } else {
      assert a + b == a;
    }
  }

  /** Appending the text of one more cause appends its lines. */
  lemma TerminatedStep(own: seq<string>, parts: seq<seq<string>>, i: nat)
    requires i < |parts|
    ensures Terminated(own + Flatten(parts[..i + 1])) == Terminated(own + Flatten(parts[..i])) + Terminated(parts[i])
  {
    assert parts[..i + 1][..i] == parts[..i];
    assert own + Flatten(parts[..i + 1]) == (own + Flatten(parts[..i])) + parts[i];
    TerminatedAppend(own + Flatten(parts[..i]), parts[i]);
  }

  lemma TerminatedSingle(m: string)
    ensures Terminated([m]) == m + "\n"
  {
    assert [m][..0] == [];
  }

  /** `buildFullExceptionMessageHelper`: the messages of the tree in
      pre-order, each ended by a line feed. */
  method BuildFullExceptionMessageHelper(v: ValidationException) returns (s: string)
    ensures s == Terminated(Lines(v))
    decreases v
  {
    var cs := v.causingExceptions;
    ghost var parts := seq(|cs|, i requires 0 <= i < |cs| => Lines(cs[i]));
    var builder := "";
    if !IsParent(v) && v.message.Some? {
      builder := builder + v.message.value + "\n";
    }
    assert builder == Terminated(OwnLine(v)) by {
      if OwnLine(v) != [] {
        TerminatedSingle(v.message.value);
      }
    }
    var i := 0;
    while i < |cs|
      invariant 0 <= i <= |cs|
      invariant builder == Terminated(OwnLine(v) + Flatten(parts[..i]))
    {
      var text := BuildFullExceptionMessageHelper(cs[i]);
      TerminatedStep(OwnLine(v), parts, i);
      builder := builder + text;
      i := i + 1;
    }
    assert parts[..|cs|] == parts;
    s := builder;
  }

  /** `buildFullExceptionMessage`: the helper's text, trimmed. */
  method BuildFullExceptionMessage(v: ValidationException) returns (r: string)
    ensures r == FullMessage(v)
  {
    var s := BuildFullExceptionMessageHelper(v);
    r := Trim(s);
  }

  // ---------------------------------------------------------------------
  // Trimming and joining

  lemma {:induction false} TrimStartAppend(s: string, x: string)
    requires TrimStart(s) != ""
    ensures TrimStart(s + x) == TrimStart(s) + x
    decreases |s|
  {
    if s[0] <= ' ' {
      assert (s + x)[1..] == s[1..] + x;
      TrimStartAppend(s[1..], x);
    }
  }

  lemma {:induction false} TrimStartBlank(s: string)
    requires TrimStart(s) == ""
    ensures TrimStart(s + "\n") == ""
    decreases |s|
  {
    if s != [] {
      assert (s + "\n")[1..] == s[1..] + "\n";
      TrimStartBlank(s[1..]);
    }
  }

  /** A final line feed makes no difference once the text is trimmed. */
  lemma TrimFinalNewline(s: string)
    ensures Trim(s + "\n") == Trim(s)
  {
    var t := TrimStart(s);
    if t == "" {
      TrimStartBlank(s);
    } else {
      TrimStartAppend(s, "\n");
      assert (t + "\n")[..|t + "\n"| - 1] == t;
    }
  }

  /** Text that starts and ends with a visible character is left as it is. */
  lemma TrimLeavesVisible(s: string)
    requires s != "" && s[0] > ' ' && s[|s| - 1] > ' '
    ensures Trim(s) == s
  {
  }

  lemma {:induction false} TerminatedAsJoin(lines: seq<string>)
    requires lines != []
    ensures Terminated(lines) == Join(lines, "\n") + "\n"
    decreases |lines|
  {
    if |lines| == 1 {
      assert lines[..0] == [];
    } else {
      var rest := lines[1..];
      assert lines == [lines[0]] + rest;
      TerminatedAppend([lines[0]], rest);
      assert [lines[0]][..0] == [];
      TerminatedAsJoin(rest);
    }
  }

  lemma JoinStarts(lines: seq<string>)
    requires lines != [] && lines[0] != ""
    ensures Join(lines, "\n") != "" && Join(lines, "\n")[0] == lines[0][0]
  {
  }

  lemma {:induction false} JoinEnds(lines: seq<string>)
    requires lines != []
    ensures var j, last := Join(lines, "\n"), lines[|lines| - 1];
      |j| >= |last| && j[|j| - |last|..] == last
    decreases |lines|
  {
    if |lines| > 1 {
      JoinEnds(lines[1..]);
    }
  }

  // ---------------------------------------------------------------------
  // What the full message says

  /** An error without causes gives its own message, trimmed, or the empty
      text when the message is null. */
  lemma FullMessageOfLeaf(v: ValidationException)
    requires v.causingExceptions == []
    ensures v.message.Some? ==> FullMessage(v) == Trim(v.message.value)
    ensures v.message.None? ==> FullMessage(v) == ""
  {
    assert Lines(v) == OwnLine(v) + Flatten([]);
    if v.message.Some? {
      TerminatedSingle(v.message.value);
      TrimFinalNewline(v.message.value);
    }
  }

  /** The first line starts and the last line ends with a visible
      character. */
  predicate VisibleEnds(ls: seq<string>) {
    && ls != [] && ls[0] != "" && ls[0][0] > ' '
    && ls[|ls| - 1] != "" && ls[|ls| - 1][|ls[|ls| - 1]| - 1] > ' '
  }

  /** When the first line starts and the last line ends with a visible
      character, the full message is the lines joined by line feeds, with
      no line feed at the end. */
  lemma FullMessageJoinsLines(v: ValidationException)
    requires VisibleEnds(Lines(v))
    ensures FullMessage(v) == Join(Lines(v), "\n")
  {
    var ls := Lines(v);
    TerminatedAsJoin(ls);
    TrimFinalNewline(Join(ls, "\n"));
    JoinStarts(ls);
    JoinEnds(ls);
    TrimLeavesVisible(Join(ls, "\n"));
  }

  /** Splitting the full message at line feeds gives back every line when
      no line holds a line feed. */
  lemma FullMessageSplitsIntoLines(v: ValidationException)
    requires VisibleEnds(Lines(v))
    requires forall i :: 0 <= i < |Lines(v)| ==> '\n' !in Lines(v)[i]
    ensures JavaSplit(FullMessage(v), '\n') == Lines(v)
  {
    var ls := Lines(v);
    FullMessageJoinsLines(v);
    SplitJoin(ls, '\n');
    JoinEnds(ls);
  }

  /** The constructor tests: a three-argument error has no causes and its
      message; an error whose every part is null has the empty full message;
      a single error's full message is its own message. */
  lemma ConstructorCases(m: string, k: string, p: string)
    requires m != "" && m[0] > ' ' && m[|m| - 1] > ' '
    ensures WithKeyword(Some(m), Some(k), Some(p)).causingExceptions == []
    ensures FullMessage(WithCauses(None, None, None, None)) == ""
    ensures FullMessage(WithKeyword(Some(m), None, Some(p))) == m
  {
    FullMessageOfLeaf(WithCauses(None, None, None, None));
    FullMessageOfLeaf(WithKeyword(Some(m), None, Some(p)));
    TrimLeavesVisible(m);
  }

  lemma JoinThree(a: string, b: string, c: string)
    ensures Join([a, b, c], "\n") == a + "\n" + b + "\n" + c
  {
    assert [a, b, c][1..] == [b, c];
    assert [b, c][1..] == [c];
    assert Join([b, c], "\n") == b + "\n" + c;
    assert Join([a, b, c], "\n") == a + "\n" + (b + "\n" + c);
  }

  /** The lines of a parent of three errors without causes are the three
      causes' messages. */
  lemma ThreeLeavesLines(root: string, rootPointer: string, c1: ValidationException,
                         c2: ValidationException, c3: ValidationException, m1: string, m2: string, m3: string)
    requires c1.causingExceptions == [] && c2.causingExceptions == [] && c3.causingExceptions == []
    requires c1.message == Some(m1) && c2.message == Some(m2) && c3.message == Some(m3)
    ensures Lines(WithCauses(Some(root), Some([c1, c2, c3]), None, Some(rootPointer))) == [m1, m2, m3]
  {
    var e := WithCauses(Some(root), Some([c1, c2, c3]), None, Some(rootPointer));
    assert Flatten([]) == [];
    assert Lines(c1) == OwnLine(c1) + Flatten([]) == [m1];
    assert Lines(c2) == OwnLine(c2) + Flatten([]) == [m2];
    assert Lines(c3) == OwnLine(c3) + Flatten([]) == [m3];
    var parts := seq(3, i requires 0 <= i < 3 => Lines([c1, c2, c3][i]));
    assert parts == [[m1], [m2], [m3]] by {
      assert parts[0] == [m1] && parts[1] == [m2] && parts[2] == [m3];
    }
    assert Flatten(parts) == [m1, m2, m3] by {
      assert [[m1]][..0] == [];
      assert Flatten([[m1]]) == [m1];
      assert [[m1], [m2]][..1] == [[m1]];
      assert Flatten([[m1], [m2]]) == [m1, m2];
      assert parts[..2] == [[m1], [m2]];
    }
    assert OwnLine(e) == [];
  }

  /** The test with three causes: the parent's own message is left out, the
      causes' messages fill three lines and nothing follows the last one. */
  lemma ThreeCausesMessage(m1: string, m2: string, m3: string, k1: string, k2: string, k3: string,
                           p: string, root: string, rootPointer: string)
    requires m1 != "" && m1[0] > ' ' && m3 != "" && m3[|m3| - 1] > ' '
    requires '\n' !in m1 && '\n' !in m2 && '\n' !in m3
    ensures var e := WithCauses(Some(root), Some([WithKeyword(Some(m1), Some(k1), Some(p)),
                                                  WithKeyword(Some(m2), Some(k2), Some(p)),
                                                  WithKeyword(Some(m3), Some(k3), Some(p))]),
                                None, Some(rootPointer));
      && FullMessage(e) == m1 + "\n" + m2 + "\n" + m3
      && JavaSplit(FullMessage(e), '\n') == [m1, m2, m3]
  {
    var c1, c2, c3 := WithKeyword(Some(m1), Some(k1), Some(p)), WithKeyword(Some(m2), Some(k2), Some(p)),
                      WithKeyword(Some(m3), Some(k3), Some(p));
    var e := WithCauses(Some(root), Some([c1, c2, c3]), None, Some(rootPointer));
    ThreeLeavesLines(root, rootPointer, c1, c2, c3, m1, m2, m3);
    FullMessageSplitsIntoLines(e);
    FullMessageJoinsLines(e);
    JoinThree(m1, m2, m3);
  }
}
