/** The pieces of the Java platform that the modelled code leans on:
    the exceptions it can raise, `String.split`, `String.trim`,
    `RegExUtils.removeFirst` with a literal pattern, `Integer.parseInt`,
    decimal rendering of integers, and a lexicographic order on strings. */
module JavaText {

  import opened Wrappers

  /** The Java exceptions the modelled code raises or catches. */
  datatype Fault =
    | ClassCast         // a checked cast to ArrayList or JSONObject failed
    | IllegalArgument   // a JSON pointer text starts with neither "/" nor "#/"
    | NullPointer       // a method was called on a Java null
    | IndexOutOfBounds  // List.get(-1) on an empty token list
    | JsonPointerError  // JSONPointerException raised by queryFrom

  // ---------------------------------------------------------------------
  // Splitting and joining

  /** Every piece between occurrences of `c`, empty pieces included. */
  function RawSplit(s: string, c: char): (r: seq<string>)
    ensures |r| >= 1
    ensures forall i :: 0 <= i < |r| ==> c !in r[i]
  {
    if s == [] then [""]
    else if s[0] == c then [""] + RawSplit(s[1..], c)
    else
      var rest := RawSplit(s[1..], c);
      [[s[0]] + rest[0]] + rest[1..]
  }

  function DropTrailingEmpty(ps: seq<string>): (r: seq<string>)
    ensures |r| <= |ps| && r == ps[..|r|]
    ensures r != [] ==> r[|r| - 1] != ""
    ensures forall i :: |r| <= i < |ps| ==> ps[i] == ""
  {
    if ps != [] && ps[|ps| - 1] == "" then DropTrailingEmpty(ps[..|ps| - 1]) else ps
  }

  /** Java's `s.split(String.valueOf(c))`: trailing empty pieces are dropped,
      but splitting the empty string yields one empty piece. */
  function JavaSplit(s: string, c: char): seq<string> {
    if s == "" then [""] else DropTrailingEmpty(RawSplit(s, c))
  }

  function Join(ps: seq<string>, sep: string): string {
    if |ps| == 0 then ""
    else if |ps| == 1 then ps[0]
    else ps[0] + sep + Join(ps[1..], sep)
  }

  lemma {:induction false} SplitJoin(ps: seq<string>, c: char)
    requires |ps| >= 1
    requires forall i :: 0 <= i < |ps| ==> c !in ps[i]
    ensures RawSplit(Join(ps, [c]), c) == ps
    decreases |ps|, |ps[0]|
  {
    if |ps| == 1 {
      NoSeparatorSplit(ps[0], c);
    } else if ps[0] == "" {
      assert Join(ps, [c]) == [c] + Join(ps[1..], [c]);
      SplitJoin(ps[1..], c);
      assert [""] + ps[1..] == ps;
    } else {
      var tail := [ps[0][1..]] + ps[1..];
      assert tail[1..] == ps[1..];
      assert Join(tail, [c]) == ps[0][1..] + [c] + Join(ps[1..], [c]);
      assert Join(ps, [c]) == [ps[0][0]] + Join(tail, [c]);
      SplitJoin(tail, c);
      var j := Join(ps, [c]);
      assert j[0] == ps[0][0] && j[1..] == Join(tail, [c]);
      assert ps[0] == [ps[0][0]] + ps[0][1..];
      assert [[ps[0][0]] + tail[0]] + tail[1..] == ps;
    }
  }

  lemma {:induction false} NoSeparatorSplit(s: string, c: char)
    requires c !in s
    ensures RawSplit(s, c) == [s]
  {
    if s != [] {
      NoSeparatorSplit(s[1..], c);
      assert [s[0]] + s[1..] == s;
    }
  }

  lemma {:induction false} JoinSplit(s: string, c: char)
    ensures Join(RawSplit(s, c), [c]) == s
  {
    if s == [] {
    } else if s[0] == c {
      JoinSplit(s[1..], c);
      var rest := RawSplit(s[1..], c);
      assert RawSplit(s, c) == [""] + rest;
      assert ([""] + rest)[1..] == rest;
    } else {
      JoinSplit(s[1..], c);
      var rest := RawSplit(s[1..], c);
      var r := [[s[0]] + rest[0]] + rest[1..];
      assert RawSplit(s, c) == r;
      if |rest| == 1 {
        assert s == [s[0]] + s[1..];
      } else {
        assert r[1..] == rest[1..];
        assert Join(rest, [c]) == rest[0] + [c] + Join(rest[1..], [c]);
        assert s == [s[0]] + s[1..];
      }
    }
  }

  /** A piece free of the separator, then the separator, splits off as the
      first piece. */
  lemma {:induction false} RawSplitPrefix(p: string, c: char, rest: string)
    requires c !in p
    ensures RawSplit(p + [c] + rest, c) == [p] + RawSplit(rest, c)
  {
    var s := p + [c] + rest;
    if p == [] {
      assert s == [c] + rest && s[1..] == rest;
    } else {
      assert s[0] == p[0] && s[1..] == p[1..] + [c] + rest;
      RawSplitPrefix(p[1..], c, rest);
      assert [p[0]] + p[1..] == p;
    }
  }

  /** The last piece of a raw split is empty exactly when the text ends with
      the separator (or is empty). */
  lemma {:induction false} RawSplitLast(s: string, c: char)
    ensures var r := RawSplit(s, c); (r[|r| - 1] == "") <==> (s == [] || s[|s| - 1] == c)
  {
    if s != [] {
      RawSplitLast(s[1..], c);
      var rest := RawSplit(s[1..], c);
      if s[0] != c && |rest| == 1 {
        assert RawSplit(s, c) == [[s[0]] + rest[0]];
      }
    }
  }

  // ---------------------------------------------------------------------
  // RegExUtils.removeFirst with a pattern free of metacharacters

  /** Removes the leftmost occurrence of `pat` from `s`, if there is one. */
  function RemoveFirst(s: string, pat: string): (r: string)
    requires pat != []
    ensures pat <= s ==> r == s[|pat|..]
    ensures |r| <= |s|
  {
    if pat <= s then s[|pat|..]
    else if s == [] then s
    else [s[0]] + RemoveFirst(s[1..], pat)
  }

  // ---------------------------------------------------------------------
  // String.trim

  /** `String.trim` drops every leading and trailing character whose code
      is at most U+0020. */
  function TrimStart(s: string): (r: string)
    ensures |r| <= |s| && r == s[|s| - |r|..]
  {
    if s != [] && s[0] <= ' ' then TrimStart(s[1..]) else s
  }

  function TrimEnd(s: string): (r: string)
    ensures |r| <= |s| && r == s[..|r|]
  {
    if s != [] && s[|s| - 1] <= ' ' then TrimEnd(s[..|s| - 1]) else s
  }

  function Trim(s: string): string {
    TrimEnd(TrimStart(s))
  }

  // ---------------------------------------------------------------------
  // Integers

  function DigitChar(d: nat): char
    requires d < 10
  {
    "0123456789"[d]
  }

  function NatToString(n: nat): (r: string)
    ensures |r| >= 1
    decreases n
  {
    if n < 10 then [DigitChar(n)] else NatToString(n / 10) + [DigitChar(n % 10)]
  }

  /** Decimal rendering of an integer, as `Integer.toString` / `Long.toString`. */
  function IntToString(n: int): string {
    if n < 0 then "-" + NatToString(-n) else NatToString(n)
  }

  predicate IsDigit(c: char) {
    '0' <= c <= '9'
  }

  function DigitsValue(ds: string): nat
    requires forall i :: 0 <= i < |ds| ==> IsDigit(ds[i])
  {
    if ds == [] then 0
    else
      assert IsDigit(ds[|ds| - 1]);
      DigitsValue(ds[..|ds| - 1]) * 10 + ((ds[|ds| - 1] as int) - ('0' as int))
  }

  /** `Integer.parseInt` on ASCII decimal text: an optional sign, at least one
      digit, and a value that fits in 32 bits; otherwise NumberFormatException
      (None). */
  function ParseJavaInt(t: string): (r: Option<int>)
    ensures r.Some? ==> -0x8000_0000 <= r.value < 0x8000_0000
  {
    var signed := |t| > 0 && (t[0] == '-' || t[0] == '+');
    var digits := if signed then t[1..] else t;
    if digits == [] || !(forall i :: 0 <= i < |digits| ==> IsDigit(digits[i])) then None
    else
      var v: int := if |t| > 0 && t[0] == '-' then 0 - (DigitsValue(digits) as int) else DigitsValue(digits) as int;
      if -0x8000_0000 <= v < 0x8000_0000 then Some(v) else None
  }

  // ---------------------------------------------------------------------
  // Lexicographic order, used to fix an order for the entries of a map

  predicate LexLe(a: string, b: string)
    decreases |a|
  {
    a == [] || (b != [] && (a[0] < b[0] || (a[0] == b[0] && LexLe(a[1..], b[1..]))))
  }

  lemma {:induction false} LexLeTotal(a: string, b: string)
    ensures LexLe(a, b) || LexLe(b, a)
    decreases |a|
  {
    if a != [] && b != [] && a[0] == b[0] {
      LexLeTotal(a[1..], b[1..]);
    }
  }

  lemma {:induction false} LexLePairAntisymmetric(a: string, b: string)
    ensures LexLe(a, b) && LexLe(b, a) ==> a == b
    decreases |a|
  {
    if a != [] && b != [] && a[0] == b[0] {
      LexLePairAntisymmetric(a[1..], b[1..]);
      if LexLe(a, b) && LexLe(b, a) {
        assert a == [a[0]] + a[1..] && b == [b[0]] + b[1..];
      }
    }
  }

  lemma {:induction false} LexLeTransitive(a: string, b: string, c: string)
    ensures LexLe(a, b) && LexLe(b, c) ==> LexLe(a, c)
    decreases |a|
  {
    if a != [] && b != [] && c != [] && a[0] == b[0] && b[0] == c[0] {
      LexLeTransitive(a[1..], b[1..], c[1..]);
    }
  }

  lemma LexLeAntisymmetric()
    ensures forall a, b :: LexLe(a, b) && LexLe(b, a) ==> a == b
  {
    forall a, b
      ensures LexLe(a, b) && LexLe(b, a) ==> a == b
    {
      LexLePairAntisymmetric(a, b);
    }
  }

  lemma {:induction false} LexLeRefl(a: string)
    ensures LexLe(a, a)
    decreases |a|
  {
    if a != [] {
      LexLeRefl(a[1..]);
    }
  }

  lemma MinExists(ks: set<string>)
    requires ks != {}
    ensures exists k :: k in ks && forall j :: j in ks ==> LexLe(k, j)
  {
    var k := LeastOf(ks);
  }

  lemma {:induction false} LeastOf(ks: set<string>) returns (k: string)
    requires ks != {}
    ensures k in ks && forall j :: j in ks ==> LexLe(k, j)
    decreases |ks|
  {
    var x :| x in ks;
    var rest := ks - {x};
    assert ks == rest + {x};
    if rest == {} {
      LexLeRefl(x);
      k := x;
    } else {
      var m := LeastOf(rest);
      k := LeastOfInsert(rest, m, x);
    }
  }

  /** The smaller of the least element of a set and a new element is the
      least element of the set with it. */
  lemma LeastOfInsert(rest: set<string>, m: string, x: string) returns (k: string)
    requires m in rest && forall j :: j in rest ==> LexLe(m, j)
    ensures k in rest + {x} && forall j :: j in rest + {x} ==> LexLe(k, j)
  {
    LexLeTotal(m, x);
    LexLeRefl(x);
    if LexLe(m, x) {
      k := m;
    } else {
      k := x;
      forall j | j in rest + {x}
        ensures LexLe(x, j)
      {
        if j != x {
          LexLeTransitive(x, m, j);
        }
      }
    }
  }

  /** The least key of a non-empty set in lexicographic order. */
  function MinKey(ks: set<string>): (k: string)
    requires ks != {}
    ensures k in ks && forall j :: j in ks ==> LexLe(k, j)
  {
    MinExists(ks);
    LexLeAntisymmetric();
    var k :| k in ks && forall j :: j in ks ==> LexLe(k, j);
    k
  }

  /** The elements of a finite set of strings in ascending order. */
  function SortedKeys(ks: set<string>): (r: seq<string>)
    ensures forall x :: x in r <==> x in ks
    decreases |ks|
  {
    if ks == {} then []
    else
      var k := MinKey(ks);
      [k] + SortedKeys(ks - {k})
  }
}
