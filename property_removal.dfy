/** Removing the value a JSON pointer reaches from a resource model, and the
    write-only stripping built on it (`removeProperty`,
    `removeWriteOnlyProperties`, `hasWriteOnlyProperties` of the current
    `ResourceTypeSchema`).  Both the code as written and the behaviour its
    comments describe are modelled; see README, "Findings". */
module PropertyRemoval {

  import opened Wrappers
  import opened JavaText
  import opened JsonValues
  import opened JsonPointers

  // ---------------------------------------------------------------------
  // Removing one key from the object a path reaches

  /** Two values of the same shape: same constructor, arrays of the same
      length, and equal scalars. */
  predicate SameKind(a: Json, b: Json) {
    a.JObject? == b.JObject? && a.JArray? == b.JArray?
    && (a.JArray? ==> |a.elems| == |b.elems|)
    && (!a.JObject? && !a.JArray? ==> a == b)
  }

  /** The model after `parentObject.remove(key)`, where `parentObject` is the
      object `path` reaches inside `v`; each container on the way is rebuilt
      with the one entry on the path replaced.  When the path does not reach
      an object nothing changes. */
  function RemoveAt(v: Json, path: seq<string>, key: string): (r: Json)
    ensures SameKind(v, r)
    decreases |path|
  {
    if path == [] then
      (if v.JObject? then JObject(v.members - {key}) else v)
    else
      match v
      case JObject(m) =>
        if path[0] in m then JObject(m[path[0] := RemoveAt(m[path[0]], path[1..], key)]) else v
      case JArray(es) =>
        (match ParseJavaInt(path[0])
         case Some(i) => if 0 <= i < |es| then JArray(es[i := RemoveAt(es[i], path[1..], key)]) else v
         case None => v)
      case _ => v
  }

  /** The object the path reaches loses exactly `key`. */
  lemma {:induction false} RemoveAtTarget(v: Json, path: seq<string>, key: string, m: map<string, Json>)
    requires Walk(Some(v), path) == Success(Some(JObject(m)))
    ensures Walk(Some(RemoveAt(v, path, key)), path) == Success(Some(JObject(m - {key})))
    decreases |path|
  {
    if path != [] {
      match v
      case JObject(vm) =>
        assert path[0] in vm by {
          if path[0] !in vm {
            WalkFromNull(path[1..]);
          }
        }
        RemoveAtTarget(vm[path[0]], path[1..], key, m);
      case JArray(es) =>
        var i := ParseJavaInt(path[0]).value;
        RemoveAtTarget(es[i], path[1..], key, m);
      case _ =>
    }
  }

  /** Removal creates nothing: whatever a path finds afterwards it found
      before, with the same shape. */
  lemma {:induction false} RemoveAtAddsNothing(v: Json, path: seq<string>, key: string, q: seq<string>)
    requires Walk(Some(RemoveAt(v, path, key)), q).Success?
    requires Walk(Some(RemoveAt(v, path, key)), q).value.Some?
    ensures Walk(Some(v), q).Success? && Walk(Some(v), q).value.Some?
    ensures SameKind(Walk(Some(v), q).value.value, Walk(Some(RemoveAt(v, path, key)), q).value.value)
    decreases |q|
  {
    if q != [] {
      var w := RemoveAt(v, path, key);
      if w != v {
        if path == [] {
          var m := v.members;
          assert q[0] in w.members by {
            if q[0] !in w.members {
              WalkFromNullOrEmpty(q[1..]);
            }
          }
          assert w.members[q[0]] == m[q[0]];
          assert Walk(Some(w), q) == Walk(Some(m[q[0]]), q[1..]);
          SameKindRefl(Walk(Some(v), q).value.value);
        } else {
          match v
          case JObject(m) =>
            assert q[0] in w.members by {
              if q[0] !in w.members {
                WalkFromNullOrEmpty(q[1..]);
              }
            }
            if q[0] == path[0] {
              RemoveAtAddsNothing(m[path[0]], path[1..], key, q[1..]);
            } else {
              assert w.members[q[0]] == m[q[0]];
              SameKindRefl(Walk(Some(v), q).value.value);
            }
          case JArray(es) =>
            var i := ParseJavaInt(path[0]).value;
            var j := ParseJavaInt(q[0]).value;
            if j == i {
              RemoveAtAddsNothing(es[i], path[1..], key, q[1..]);
            } else {
              assert w.elems[j] == es[j];
              SameKindRefl(Walk(Some(v), q).value.value);
            }
        }
      } else {
        SameKindRefl(Walk(Some(v), q).value.value);
      }
    }
  }

  lemma SameKindRefl(a: Json)
    ensures SameKind(a, a)
  {
  }

  /** A walk that finds nothing for a key finds nothing below it either. */
  lemma WalkFromNullOrEmpty(tokens: seq<string>)
    ensures !(Walk(None, tokens).Success? && Walk(None, tokens).value.Some?)
  {
  }

  /** No path through an array: removal along such a path has no second
      spelling of an index to reach the same element by. */
  predicate NoArrayAlong(v: Json, path: seq<string>)
    decreases |path|
  {
    path == [] || (!v.JArray? && (v.JObject? && path[0] in v.members ==> NoArrayAlong(v.members[path[0]], path[1..])))
  }

  /** Nothing else changes: every path that is neither an ancestor of the
      removed entry nor inside it resolves exactly as before. */
  lemma {:induction false} RemoveAtFrame(v: Json, path: seq<string>, key: string, q: seq<string>)
    requires NoArrayAlong(v, path)
    requires !(q <= path) && !(path + [key] <= q)
    ensures Walk(Some(RemoveAt(v, path, key)), q) == Walk(Some(v), q)
    decreases |path|
  {
    var w := RemoveAt(v, path, key);
    assert q != [];
    if path == [] {
      assert path + [key] == [key];
      assert ([key] <= q) <==> q[0] == key;
      if v.JObject? {
        assert Step(Some(w), q[0]) == Step(Some(v), q[0]);
      }
    } else if v.JObject? && path[0] in v.members {
      var m := v.members;
      if q[0] == path[0] {
        assert q == [q[0]] + q[1..];
        assert path == [path[0]] + path[1..];
        assert path + [key] == [path[0]] + (path[1..] + [key]);
        PrefixCons(q[0], q[1..], path[1..]);
        PrefixCons(q[0], path[1..] + [key], q[1..]);
        RemoveAtFrame(m[path[0]], path[1..], key, q[1..]);
      } else {
        assert Step(Some(w), q[0]) == Step(Some(v), q[0]);
      }
    }
  }

  lemma PrefixCons(x: string, a: seq<string>, b: seq<string>)
    ensures ([x] + a <= [x] + b) <==> (a <= b)
  {
    assert ([x] + a)[1..] == a && ([x] + b)[1..] == b;
  }

  // ---------------------------------------------------------------------
  // removeProperty as the code is written

  /** The tokens `removeProperty` works with: the pointer printed, its first
      "/" removed, and the rest split at "/" (escapes are not undone). */
  function RemovalTokens(p: JsonPointer): seq<string> {
    JavaSplit(RemoveFirst(ToString(p), "/"), '/')
  }

  /** `removeProperty` as written.  Success carries the new model; a failure
      is the exception that escapes (the model is then untouched).  A walk of
      the parent that raises JSONPointerException is caught and ignored; a
      parent that is Java null raises NullPointerException, and one that is
      not a JSONObject fails the cast. */
  function PropertyRemovedAsWritten(p: JsonPointer, model: map<string, Json>): (r: Result<map<string, Json>, Fault>)
    ensures RemovalTokens(p) == [] <==> r == Failure(IndexOutOfBounds)
    ensures r.Success? ==> forall k :: k in r.value ==> k in model
  {
    var ts := RemovalTokens(p);
    if ts == [] then Failure(IndexOutOfBounds)
    else
      var key := ts[|ts| - 1];
      if |ts| > 1 then
        var parent := ts[..|ts| - 1];
        match Walk(Some(JObject(model)), parent)
        case Failure(_) => Success(model)
        case Success(None) => Failure(NullPointer)
        case Success(Some(j)) =>
          if j.JObject? then Success(RemoveAt(JObject(model), parent, key).members) else Failure(ClassCast)
      else
        Success(model - {key})
  }

  // ---------------------------------------------------------------------
  // removeProperty as intended

  function Parent(ts: seq<string>): seq<string>
    requires ts != []
  {
    ts[..|ts| - 1]
  }

  /** The pointer's parent resolves to a JSON object. */
  predicate ParentIsObject(p: JsonPointer, model: map<string, Json>) {
    p.refTokens != []
    && var w := Walk(Some(JObject(model)), Parent(p.refTokens));
    w.Success? && w.value.Some? && w.value.value.JObject?
  }

  /** The pointer's parent resolves to a JSON array. */
  predicate ParentIsArray(p: JsonPointer, model: map<string, Json>) {
    p.refTokens != []
    && var w := Walk(Some(JObject(model)), Parent(p.refTokens));
    w.Success? && w.value.Some? && w.value.value.JArray?
  }

  /** Removal with the pointer's own tokens.  When the model "does not have
      a value for the pointer" (no parent at all) it is left as it is and
      nothing is raised; a parent that is an array is left alone as well,
      a choice of this model rather than of the code's comments. */
  function PropertyRemoved(p: JsonPointer, model: map<string, Json>): (r: map<string, Json>)
    ensures !ParentIsObject(p, model) ==> r == model
    ensures forall k :: k in r ==> k in model
  {
    var ts := p.refTokens;
    if ts == [] then model
    else
      var parent := Parent(ts);
      var w := Walk(Some(JObject(model)), parent);
      if w.Success? && w.value.Some? && w.value.value.JObject? then
        RemoveAt(JObject(model), parent, ts[|ts| - 1]).members
      else model
  }

  /** After the removal the pointer no longer names anything, unless its
      parent is an array (arrays are not edited), or it is the root. */
  lemma PropertyRemovedRemoves(p: JsonPointer, model: map<string, Json>)
    requires p.refTokens != [] && !ParentIsArray(p, model)
    ensures !Resolves(p, JObject(PropertyRemoved(p, model)))
  {
    var ts := p.refTokens;
    var parent := Parent(ts);
    var key := ts[|ts| - 1];
    assert ts == parent + [key];
    WalkAppend(Some(JObject(model)), parent, [key]);
    if ParentIsObject(p, model) {
      var m := Walk(Some(JObject(model)), parent).value.value.members;
      RemoveAtTarget(JObject(model), parent, key, m);
      WalkAppend(Some(JObject(PropertyRemoved(p, model))), parent, [key]);
    }
  }

  /** The parent object keeps every other key with its value. */
  lemma PropertyRemovedParent(p: JsonPointer, model: map<string, Json>)
    requires ParentIsObject(p, model)
    ensures var m := Walk(Some(JObject(model)), Parent(p.refTokens)).value.value.members;
      Walk(Some(JObject(PropertyRemoved(p, model))), Parent(p.refTokens))
        == Success(Some(JObject(m - {p.refTokens[|p.refTokens| - 1]})))
  {
    var m := Walk(Some(JObject(model)), Parent(p.refTokens)).value.value.members;
    RemoveAtTarget(JObject(model), Parent(p.refTokens), p.refTokens[|p.refTokens| - 1], m);
  }

  /** Every path that is neither an ancestor of the removed entry nor inside
      it resolves as before. */
  lemma PropertyRemovedFrame(p: JsonPointer, model: map<string, Json>, q: seq<string>)
    requires p.refTokens != []
    requires NoArrayAlong(JObject(model), Parent(p.refTokens))
    requires !(q <= Parent(p.refTokens)) && !(p.refTokens <= q)
    ensures Walk(Some(JObject(PropertyRemoved(p, model))), q) == Walk(Some(JObject(model)), q)
  {
    var ts := p.refTokens;
    assert ts == Parent(ts) + [ts[|ts| - 1]];
    if ParentIsObject(p, model) {
      RemoveAtFrame(JObject(model), Parent(ts), ts[|ts| - 1], q);
    }
  }

  /** What the model resolves after the removal it resolved before, with the
      same shape. */
  lemma PropertyRemovedAddsNothing(p: JsonPointer, model: map<string, Json>, q: seq<string>)
    requires var w := Walk(Some(JObject(PropertyRemoved(p, model))), q); w.Success? && w.value.Some?
    ensures var w0 := Walk(Some(JObject(model)), q); w0.Success? && w0.value.Some?
    ensures SameKind(Walk(Some(JObject(model)), q).value.value,
                     Walk(Some(JObject(PropertyRemoved(p, model))), q).value.value)
  {
    if ParentIsObject(p, model) {
      var ts := p.refTokens;
      RemoveAtAddsNothing(JObject(model), Parent(ts), ts[|ts| - 1], q);
    } else {
      SameKindRefl(Walk(Some(JObject(model)), q).value.value);
    }
  }

  // ---------------------------------------------------------------------
  // Where the two agree

  /** Tokens that need no escaping. */
  predicate PlainTokens(ts: seq<string>) {
    forall i :: 0 <= i < |ts| ==> '~' !in ts[i] && '/' !in ts[i]
  }

  /** For a pointer whose tokens need no escaping and whose text parses back
      to it, the code re-derives the pointer's own tokens. */
  lemma RemovalTokensPlain(p: JsonPointer)
    requires p.refTokens != [] && PlainTokens(p.refTokens) && RoundTrips(p.refTokens)
    ensures RemovalTokens(p) == p.refTokens
  {
    var ts := p.refTokens;
    forall i | 0 <= i < |ts|
      ensures EscapeAll(ts)[i] == ts[i]
    {
      PlainEscape(ts[i]);
    }
    assert EscapeAll(ts) == ts;
    var j := Join(ts, "/");
    assert ToString(p) == "/" + j;
    assert RemoveFirst(ToString(p), "/") == j;
    if j == "" {
      JoinNonEmpty(ts, '/');
    } else {
      SplitJoin(ts, '/');
    }
  }

  /** On such a pointer the code does what was intended whenever the parent
      is an object or cannot be resolved at all. */
  lemma AsWrittenAgrees(p: JsonPointer, model: map<string, Json>)
    requires p.refTokens != [] && PlainTokens(p.refTokens) && RoundTrips(p.refTokens)
    requires ParentIsObject(p, model) || Walk(Some(JObject(model)), Parent(p.refTokens)).Failure?
    ensures PropertyRemovedAsWritten(p, model) == Success(PropertyRemoved(p, model))
  {
    RemovalTokensPlain(p);
  }

  // ---------------------------------------------------------------------
  // Counterexamples to the code as written

  /** A token holding "/" is printed as "~1" and never unescaped: the model
      key "a/b" survives its own removal. */
  lemma EscapedKeySurvives()
    ensures var p := JsonPointer(["a/b"]);
      var model := map["a/b" := JInt(1)];
      PropertyRemovedAsWritten(p, model) == Success(model)
      && Resolves(p, JObject(model))
      && PropertyRemoved(p, model) == map[]
  {
    EscapedKeyAsWritten();
    EscapedKeyIntended();
  }

  lemma EscapedKeyAsWritten()
    ensures PropertyRemovedAsWritten(JsonPointer(["a/b"]), map["a/b" := JInt(1)]) == Success(map["a/b" := JInt(1)])
  {
    EscapedTokens();
    assert map["a/b" := JInt(1)] - {"a~1b"} == map["a/b" := JInt(1)];
  }

  lemma EscapedKeyIntended()
    ensures Resolves(JsonPointer(["a/b"]), JObject(map["a/b" := JInt(1)]))
    ensures PropertyRemoved(JsonPointer(["a/b"]), map["a/b" := JInt(1)]) == map[]
  {
    var p := JsonPointer(["a/b"]);
    assert Parent(p.refTokens) == [];
    assert map["a/b" := JInt(1)] - {"a/b"} == map[];
  }

  lemma EscapedTokens()
    ensures RemovalTokens(JsonPointer(["a/b"])) == ["a~1b"]
  {
    var p := JsonPointer(["a/b"]);
    assert Escape("a/b") == "a~1b" by {
      assert Escape("/b") == "~1" + Escape("b");
      assert Escape("b") == "b" + Escape("");
    }
    assert EscapeAll(p.refTokens) == ["a~1b"];
    assert ToString(p) == "/a~1b";
    assert RemoveFirst("/a~1b", "/") == "a~1b";
    NoSeparatorSplit("a~1b", '/');
  }

  /** A trailing empty token is dropped by the split: removing the member ""
      of object "a" removes all of "a". */
  lemma TrailingEmptyTokenLost()
    ensures var p := JsonPointer(["a", ""]);
      var model := map["a" := JObject(map["" := JInt(1)])];
      PropertyRemovedAsWritten(p, model) == Success(map[])
      && PropertyRemoved(p, model) == map["a" := JObject(map[])]
  {
    TrailingEmptyAsWritten();
    TrailingEmptyIntended();
  }

  lemma TrailingEmptyAsWritten()
    ensures PropertyRemovedAsWritten(JsonPointer(["a", ""]), map["a" := JObject(map["" := JInt(1)])]) == Success(map[])
  {
    TrailingTokens();
    assert map["a" := JObject(map["" := JInt(1)])] - {"a"} == map[];
  }

  lemma TrailingEmptyIntended()
    ensures PropertyRemoved(JsonPointer(["a", ""]), map["a" := JObject(map["" := JInt(1)])]) == map["a" := JObject(map[])]
  {
    var p := JsonPointer(["a", ""]);
    var inner := map["" := JInt(1)];
    var model := map["a" := JObject(inner)];
    assert Parent(p.refTokens) == ["a"];
    assert Walk(Some(JObject(model)), ["a"]) == Success(Some(JObject(inner)));
    assert inner - {""} == map[];
    assert RemoveAt(JObject(inner), [], "") == JObject(map[]);
    assert ["a"][1..] == [];
    assert RemoveAt(JObject(model), ["a"], "") == JObject(model["a" := JObject(map[])]);
    assert model["a" := JObject(map[])] == map["a" := JObject(map[])];
  }

  lemma TrailingTokens()
    ensures RemovalTokens(JsonPointer(["a", ""])) == ["a"]
  {
    var p := JsonPointer(["a", ""]);
    assert Escape("a") == "a";
    assert EscapeAll(p.refTokens) == ["a", ""];
    assert Join(["a", ""], "/") == "a/";
    assert ToString(p) == "/a/";
    assert RemoveFirst("/a/", "/") == "a/";
    assert RawSplit("a/", '/') == ["a", ""] by {
      assert RawSplit("/", '/') == [""] + RawSplit("", '/');
    }
    assert DropTrailingEmpty(["a", ""]) == ["a"] by {
      assert ["a", ""][..1] == ["a"];
    }
  }

  /** A parent that is missing from the model is Java null: the code raises
      NullPointerException where the model merely lacks the value. */
  lemma MissingParentRaises()
    ensures var p := JsonPointer(["E", "nested"]);
      PropertyRemovedAsWritten(p, map[]) == Failure(NullPointer)
      && PropertyRemoved(p, map[]) == map[]
  {
    var p := JsonPointer(["E", "nested"]);
    assert Parent(p.refTokens) == ["E"];
    assert Walk(Some(JObject(map[])), ["E"]) == Success(None);
    assert PropertyRemovedAsWritten(p, map[]) == Failure(NullPointer) by {
      assert PlainTokens(p.refTokens);
      RemovalTokensPlain(p);
    }
  }

  /** A parent that is an array fails the cast to JSONObject. */
  lemma ArrayParentRaises()
    ensures var p := JsonPointer(["L", "0"]);
      var model := map["L" := JArray([JInt(7)])];
      PropertyRemovedAsWritten(p, model) == Failure(ClassCast)
      && PropertyRemoved(p, model) == model
  {
    var p := JsonPointer(["L", "0"]);
    var model := map["L" := JArray([JInt(7)])];
    assert Parent(p.refTokens) == ["L"];
    assert Walk(Some(JObject(model)), ["L"]) == Success(Some(JArray([JInt(7)])));
    assert PropertyRemovedAsWritten(p, model) == Failure(ClassCast) by {
      assert PlainTokens(p.refTokens);
      RemovalTokensPlain(p);
    }
  }

  // ---------------------------------------------------------------------
  // Write-only stripping

  /** `new JSONPointer(RegExUtils.removeFirst(text, "/properties"))`: the
      schema pointer rewritten into a pointer into the resource model. */
  function InstancePointer(writeOnlyText: string): (r: Result<JsonPointer, Fault>)
    ensures "/properties/" <= writeOnlyText ==> r.Success?
  {
    Parse(RemoveFirst(writeOnlyText, "/properties"))
  }

  /** `hasWriteOnlyProperties`: `anyMatch` over the write-only texts, in
      order, stopping at the first pointer present; a text that does not
      rewrite into a pointer raises IllegalArgumentException. */
  function AnyPresent(texts: seq<string>, model: map<string, Json>): (r: Result<bool, Fault>)
    ensures r.Failure? ==> r.error == IllegalArgument
    ensures r == Success(false) ==>
      forall i :: 0 <= i < |texts| ==> InstancePointer(texts[i]).Success? && !Resolves(InstancePointer(texts[i]).value, JObject(model))
    ensures r == Success(true) ==>
      exists i :: 0 <= i < |texts| && InstancePointer(texts[i]).Success? && Resolves(InstancePointer(texts[i]).value, JObject(model))
    decreases |texts|
  {
    if texts == [] then Success(false)
    else
      var p :- InstancePointer(texts[0]);
      if Resolves(p, JObject(model)) then Success(true) else AnyPresent(texts[1..], model)
  }

  /** The text rewrites into a pointer that the model holds. */
  predicate Present(text: string, model: map<string, Json>) {
    InstancePointer(text).Success? && Resolves(InstancePointer(text).value, JObject(model))
  }

  /** The text rewrites into a pointer that the model does not hold. */
  predicate Absent(text: string, model: map<string, Json>) {
    InstancePointer(text).Success? && !Present(text, model)
  }

  /** Every text rewrites into a pointer, and the model holds none of them. */
  predicate NonePresent(texts: seq<string>, model: map<string, Json>) {
    forall i :: 0 <= i < |texts| ==> Absent(texts[i], model)
  }

  /** What `anyMatch` decides: false when every text rewrites to an absent
      pointer; true when some text is present and every earlier one rewrites
      to an absent pointer; and IllegalArgumentException when some text does
      not rewrite and every earlier one rewrites to an absent pointer. */
  lemma AnyPresentDecides(texts: seq<string>, model: map<string, Json>)
    ensures AnyPresent(texts, model) == Success(false) <==> NonePresent(texts, model)
    ensures AnyPresent(texts, model) == Success(true) <==>
      exists j :: 0 <= j < |texts| && NonePresent(texts[..j], model) && Present(texts[j], model)
    ensures AnyPresent(texts, model).Failure? <==>
      exists j :: 0 <= j < |texts| && NonePresent(texts[..j], model) && InstancePointer(texts[j]).Failure?
  {
    AnyPresentFalse(texts, model);
    AnyPresentTrue(texts, model);
    AnyPresentFails(texts, model);
  }

  /** A text that rewrites to an absent pointer, followed by `rest`: the
      prefixes of the whole are that text followed by the prefixes of
      `rest`. */
  lemma NonePresentCons(texts: seq<string>, model: map<string, Json>)
    requires texts != [] && Absent(texts[0], model)
    ensures forall j :: 1 <= j <= |texts| ==> (NonePresent(texts[..j], model) <==> NonePresent(texts[1..][..j - 1], model))
  {
    forall j | 1 <= j <= |texts|
      ensures NonePresent(texts[..j], model) <==> NonePresent(texts[1..][..j - 1], model)
    {
      assert texts[..j] == [texts[0]] + texts[1..][..j - 1];
    }
  }

  lemma {:induction false} AnyPresentFalse(texts: seq<string>, model: map<string, Json>)
    ensures AnyPresent(texts, model) == Success(false) <==> NonePresent(texts, model)
    decreases |texts|
  {
    if texts != [] {
      var rest := texts[1..];
      AnyPresentFalse(rest, model);
      if Absent(texts[0], model) {
        assert texts == [texts[0]] + rest;
        assert NonePresent(texts, model) <==> NonePresent(rest, model);
      }
    }
  }

  lemma {:induction false} AnyPresentTrue(texts: seq<string>, model: map<string, Json>)
    ensures AnyPresent(texts, model) == Success(true) <==>
      exists j :: 0 <= j < |texts| && NonePresent(texts[..j], model) && Present(texts[j], model)
    decreases |texts|
  {
    if texts != [] {
      var rest := texts[1..];
      assert NonePresent(texts[..0], model);
      if Absent(texts[0], model) {
        AnyPresentTrue(rest, model);
        NonePresentCons(texts, model);
        if exists j :: 0 <= j < |rest| && NonePresent(rest[..j], model) && Present(rest[j], model) {
          var j :| 0 <= j < |rest| && NonePresent(rest[..j], model) && Present(rest[j], model);
          assert NonePresent(texts[..j + 1], model) && Present(texts[j + 1], model);
        }
        if exists j :: 0 <= j < |texts| && NonePresent(texts[..j], model) && Present(texts[j], model) {
          var j :| 0 <= j < |texts| && NonePresent(texts[..j], model) && Present(texts[j], model);
          assert j != 0;
          assert NonePresent(rest[..j - 1], model) && Present(rest[j - 1], model);
        }
      } else if InstancePointer(texts[0]).Success? {
        assert AnyPresent(texts, model) == Success(true);
      } else {
        assert forall j :: 0 < j <= |texts| ==> !NonePresent(texts[..j], model) by {
          forall j | 0 < j <= |texts| ensures texts[..j][0] == texts[0] {}
        }
      }
    }
  }

  lemma {:induction false} AnyPresentFails(texts: seq<string>, model: map<string, Json>)
    ensures AnyPresent(texts, model).Failure? <==>
      exists j :: 0 <= j < |texts| && NonePresent(texts[..j], model) && InstancePointer(texts[j]).Failure?
    decreases |texts|
  {
    if texts != [] {
      var rest := texts[1..];
      assert NonePresent(texts[..0], model);
      if Absent(texts[0], model) {
        AnyPresentFails(rest, model);
        NonePresentCons(texts, model);
        if exists j :: 0 <= j < |rest| && NonePresent(rest[..j], model) && InstancePointer(rest[j]).Failure? {
          var j :| 0 <= j < |rest| && NonePresent(rest[..j], model) && InstancePointer(rest[j]).Failure?;
          assert NonePresent(texts[..j + 1], model) && InstancePointer(texts[j + 1]).Failure?;
        }
        if exists j :: 0 <= j < |texts| && NonePresent(texts[..j], model) && InstancePointer(texts[j]).Failure? {
          var j :| 0 <= j < |texts| && NonePresent(texts[..j], model) && InstancePointer(texts[j]).Failure?;
          assert j != 0;
          assert NonePresent(rest[..j - 1], model) && InstancePointer(rest[j - 1]).Failure?;
        }
      } else if InstancePointer(texts[0]).Success? {
        assert forall j :: 0 < j <= |texts| ==> !NonePresent(texts[..j], model) by {
          forall j | 0 < j <= |texts| ensures texts[..j][0] == texts[0] {}
        }
      }
    }
  }

  /** When every text rewrites into a pointer, `hasWriteOnlyProperties`
      raises nothing and answers whether the model holds one of them. */
  lemma {:induction false} AnyPresentTotal(texts: seq<string>, model: map<string, Json>)
    ensures (forall i :: 0 <= i < |texts| ==> InstancePointer(texts[i]).Success?) ==>
      AnyPresent(texts, model) == Success(exists i :: 0 <= i < |texts| && Present(texts[i], model))
    decreases |texts|
  {
    if texts != [] && forall i :: 0 <= i < |texts| ==> InstancePointer(texts[i]).Success? {
      var rest := texts[1..];
      assert forall i :: 0 <= i < |rest| ==> rest[i] == texts[i + 1];
      AnyPresentTotal(rest, model);
      if !Present(texts[0], model) {
        assert AnyPresent(texts, model) == AnyPresent(rest, model);
        if exists i :: 0 <= i < |texts| && Present(texts[i], model) {
          var i :| 0 <= i < |texts| && Present(texts[i], model);
          assert Present(rest[i - 1], model);
        }
      }
    }
  }

  /** `removeWriteOnlyProperties`: removes each rewritten pointer in turn;
      a text that does not rewrite into a pointer stops the loop with the
      removals made so far kept. */
  function StripAll(texts: seq<string>, model: map<string, Json>): (r: (Outcome<Fault>, map<string, Json>))
    ensures forall k :: k in r.1 ==> k in model
    decreases |texts|
  {
    if texts == [] then (Pass, model)
    else
      match InstancePointer(texts[0])
      case Failure(e) => (Fail(e), model)
      case Success(p) => StripAll(texts[1..], PropertyRemoved(p, model))
  }

  /** `removeWriteOnlyProperties` with `removeProperty` as the code is
      written: an exception from a removal escapes the loop as well. */
  function StripAllAsWritten(texts: seq<string>, model: map<string, Json>): (r: (Outcome<Fault>, map<string, Json>))
    ensures forall k :: k in r.1 ==> k in model
    ensures (exists i :: 0 <= i < |texts| && InstancePointer(texts[i]).Failure?) ==> r.0.Fail?
    decreases |texts|
  {
    if texts == [] then (Pass, model)
    else
      match InstancePointer(texts[0])
      case Failure(e) => (Fail(e), model)
      case Success(p) =>
        match PropertyRemovedAsWritten(p, model)
        case Failure(e) => (Fail(e), model)
        case Success(m) =>
          var r := StripAllAsWritten(texts[1..], m);
          assert forall i :: 1 <= i < |texts| ==> texts[i] == texts[1..][i - 1];
          r
  }

  /** The prefix `removeFirst` takes off a write-only property. */
  const PropertiesPath: string := "/properties"

  /** A write-only property whose name holds "/". */
  const EscapedWriteOnly: string := PropertiesPath + "/a~1b"

  /** A write-only property nested below `E`. */
  const NestedWriteOnly: string := PropertiesPath + "/E/nested"

  /** Below `/properties`, the rewrite parses the rest of the text. */
  lemma InstanceOfRest(rest: string)
    ensures InstancePointer(PropertiesPath + rest) == Parse(rest)
  {
    assert PropertiesPath <= PropertiesPath + rest;
    assert (PropertiesPath + rest)[|PropertiesPath|..] == rest;
  }

  lemma EscapedWriteOnlyPointer()
    ensures InstancePointer(EscapedWriteOnly) == Success(JsonPointer(["a/b"]))
  {
    InstanceOfRest("/a~1b");
    EscapedParse();
  }

  lemma EscapedParse()
    ensures Parse("/a~1b") == Success(JsonPointer(["a/b"]))
  {
    assert "/a~1b"[1..] == "a~1b";
    NoSeparatorSplit("a~1b", '/');
    assert JavaSplit("a~1b", '/') == ["a~1b"];
    assert Unescape("a~1b") == "a/b" by {
      assert Unescape("~1b") == "/" + Unescape("b");
      assert Unescape("b") == "b" + Unescape("");
    }
    assert UnescapeAll(["a~1b"]) == ["a/b"];
  }

  lemma NestedWriteOnlyPointer()
    ensures InstancePointer(NestedWriteOnly) == Success(JsonPointer(["E", "nested"]))
  {
    InstanceOfRest("/E/nested");
    NestedParse();
  }

  lemma NestedParse()
    ensures Parse("/E/nested") == Success(JsonPointer(["E", "nested"]))
  {
    assert "/E/nested"[1..] == "E/nested";
    NestedSplit();
    NestedUnescaped();
  }

  lemma NestedSplit()
    ensures JavaSplit("E/nested", '/') == ["E", "nested"]
  {
    var e, n := "E", "nested";
    assert e + ['/'] + n == "E/nested";
    RawSplitPrefix(e, '/', n);
    NoSeparatorSplit(n, '/');
    assert RawSplit("E/nested", '/') == [e, n];
    assert DropTrailingEmpty([e, n]) == [e, n];
  }

  lemma NestedUnescaped()
    ensures UnescapeAll(["E", "nested"]) == ["E", "nested"]
  {
    PlainUnescape("E");
    PlainUnescape("nested");
  }

  /** The whole pass over `/properties/a~1b`: as written it keeps the key
      `a/b`, so `hasWriteOnlyProperties` is still true afterwards, while the
      intended removal leaves nothing behind. */
  lemma WholePassEscapedKey()
    ensures var model := map["a/b" := JInt(1)];
      StripAllAsWritten([EscapedWriteOnly], model) == (Pass, model)
      && AnyPresent([EscapedWriteOnly], model) == Success(true)
      && StripAll([EscapedWriteOnly], model) == (Pass, map[])
      && AnyPresent([EscapedWriteOnly], map[]) == Success(false)
  {
    EscapedWriteOnlyPointer();
    EscapedKeySurvives();
    EmptyModelResolvesNothing(JsonPointer(["a/b"]));
  }

  /** The whole pass over `/properties/E/nested` on a model without `E`: as
      written it raises NullPointerException, while the intended removal
      leaves the model alone. */
  lemma WholePassMissingParent()
    ensures StripAllAsWritten([NestedWriteOnly], map[]) == (Fail(NullPointer), map[])
    ensures StripAll([NestedWriteOnly], map[]) == (Pass, map[])
  {
    NestedWriteOnlyPointer();
    MissingParentRaises();
  }

  /** Each text rewrites into a pointer that is not the root and whose parent
      is not an array. */
  predicate Strippable(texts: seq<string>, model: map<string, Json>) {
    forall i :: 0 <= i < |texts| ==>
      InstancePointer(texts[i]).Success?
      && InstancePointer(texts[i]).value.refTokens != []
      && !ParentIsArray(InstancePointer(texts[i]).value, model)
  }

  lemma StrippableAfterRemoval(texts: seq<string>, p: JsonPointer, model: map<string, Json>)
    requires Strippable(texts, model)
    ensures Strippable(texts, PropertyRemoved(p, model))
  {
    forall i | 0 <= i < |texts|
      ensures !ParentIsArray(InstancePointer(texts[i]).value, PropertyRemoved(p, model))
    {
      var q := InstancePointer(texts[i]).value;
      if ParentIsArray(q, PropertyRemoved(p, model)) {
        PropertyRemovedAddsNothing(p, model, Parent(q.refTokens));
      }
    }
  }

  lemma {:induction false} StripAllAddsNothing(texts: seq<string>, model: map<string, Json>, q: JsonPointer)
    requires Resolves(q, JObject(StripAll(texts, model).1))
    ensures Resolves(q, JObject(model))
    decreases |texts|
  {
    if texts != [] {
      match InstancePointer(texts[0])
      case Failure(_) =>
      case Success(p) =>
        StripAllAddsNothing(texts[1..], PropertyRemoved(p, model), q);
        PropertyRemovedAddsNothing(p, model, q.refTokens);
    }
  }

  /** After a stripping pass that raised nothing, `hasWriteOnlyProperties`
      answers false. */
  lemma {:induction false} StripAllClears(texts: seq<string>, model: map<string, Json>)
    requires Strippable(texts, model)
    ensures StripAll(texts, model).0 == Pass
    ensures AnyPresent(texts, StripAll(texts, model).1) == Success(false)
    decreases |texts|
  {
    if texts != [] {
      var p := InstancePointer(texts[0]).value;
      var m1 := PropertyRemoved(p, model);
      assert Strippable(texts[1..], model) by {
        forall i | 0 <= i < |texts[1..]|
          ensures InstancePointer(texts[1..][i]) == InstancePointer(texts[i + 1])
        {
        }
      }
      StrippableAfterRemoval(texts[1..], p, model);
      StripAllClears(texts[1..], m1);
      var final := StripAll(texts, model).1;
      assert final == StripAll(texts[1..], m1).1;
      PropertyRemovedRemoves(p, model);
      if Resolves(p, JObject(final)) {
        StripAllAddsNothing(texts[1..], m1, p);
      }
    }
  }

  /** The empty model has no write-only property, as long as no text is the
      root pointer. */
  lemma {:induction false} EmptyModelHasNone(texts: seq<string>)
    requires forall i :: 0 <= i < |texts| ==>
      InstancePointer(texts[i]).Success? && InstancePointer(texts[i]).value.refTokens != []
    ensures AnyPresent(texts, map[]) == Success(false)
    decreases |texts|
  {
    if texts != [] {
      EmptyModelResolvesNothing(InstancePointer(texts[0]).value);
      assert forall i :: 0 <= i < |texts[1..]| ==> texts[1..][i] == texts[i + 1];
      EmptyModelHasNone(texts[1..]);
    }
  }

  lemma EmptyModelResolvesNothing(p: JsonPointer)
    requires p.refTokens != []
    ensures !Resolves(p, JObject(map[]))
  {
    var ts := p.refTokens;
    assert Step(Some(JObject(map[])), ts[0]) == Success(None);
    assert QueryFrom(p, JObject(map[])) == Walk(None, ts[1..]);
    if |ts| > 1 {
      WalkFromNull(ts[1..]);
    }
  }
}
