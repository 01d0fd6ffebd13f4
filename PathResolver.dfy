/** The dot-path resolver, `f5_get_by_string`: a path such as
    `items.0.name` names a value inside the parsed response; a dot
    preceded by a backslash belongs to the property name. */
module PathResolver {
  import opened Options
  import opened Text
  import opened JsValues

  /** The first two rewrites of the path are `replace` calls with STRING
      patterns (the regular expressions were written inside quotes), so they
      look for these literal texts, and `$1` is inserted as written. */
  const IndexPattern := "/[(w+)]/g"
  const IndexReplacement := ".$1"
  const LeadingDotPattern := "/^./"

  /** The vertical tab the path is split on. */
  const Sep: char := '\U{B}'

  /** `s.replace(/([^\\])\./g, '$1\u000B')`: the regular expression is
      tried left to right, and a match consumes a character that is not a
      backslash together with the dot after it, which becomes the separator.
      So a dot is marked exactly when the character before it is not a
      backslash and was not itself the dot of the previous match. */
  function MarkDots(s: string): string
  {
    MarkFrom(s, false)
  }

  /** The scan of `MarkDots` over the rest `s` of the text; `afterPlain`
      says whether the character just passed can begin a match. */
  function MarkFrom(s: string, afterPlain: bool): string
  {
    if |s| == 0 then ""
    else if s[0] == '.' && afterPlain then [Sep] + MarkFrom(s[1..], false)
    else [s[0]] + MarkFrom(s[1..], s[0] != '\\')
  }

  /** `k.replace(/\\\./g, '.')`: every escaped dot becomes a plain dot. */
  function Unescape(s: string): string
  {
    if |s| == 0 then ""
    else if |s| >= 2 && s[0] == '\\' && s[1] == '.' then "." + Unescape(s[2..])
    else [s[0]] + Unescape(s[1..])
  }

  function UnescapeAll(parts: seq<string>): (r: seq<string>)
    ensures |r| == |parts|
  {
    seq(|parts|, i requires 0 <= i < |parts| => Unescape(parts[i]))
  }

  /** The property names a path string denotes, before any are dropped. */
  function SplitPath(s: string): (r: seq<string>)
    ensures |r| >= 1
  {
    var s1 := ReplaceFirst(s, IndexPattern, IndexReplacement);
    var s2 := ReplaceFirst(s1, LeadingDotPattern, "");
    UnescapeAll(Split(MarkDots(s2), Sep))
  }

  /** How many leading names `a.splice(0, a.length - d)` keeps out of `n`:
      the deletion count is clamped to the array. */
  function KeepCount(n: nat, d: int): (r: nat)
    ensures r <= n
    ensures 0 <= d <= n ==> r == n - d
    ensures d > n ==> r == 0
    ensures d < 0 ==> r == n
  {
    if n - d < 0 then 0 else if n - d > n then n else n - d
  }

  /** What the resolver yields: a value, `undefined`, or a TypeError thrown
      by `k in o` on something that is not an object. */
  datatype Resolved = Found(value: Json) | Undefined | Threw

  /** Walking the names from `o` (`None` is an absent document). */
  function Walk(o: Option<Json>, names: seq<string>): (r: Resolved)
    ensures names == [] ==> r == (if o.Some? then Found(o.value) else Undefined)
    decreases |names|
  {
    if |names| == 0 then (if o.Some? then Found(o.value) else Undefined)
    else if o.None? || !IsContainer(o.value) then Threw
    else match Member(o.value, names[0])
      case None => Undefined
      case Some(child) => Walk(Some(child), names[1..])
  }

  /** Walking `a + b` is walking `a` and then, from the value reached,
      walking `b`; an `undefined` or a throw along `a` is the answer for
      the whole path. (From an absent document with `a` empty, walking `b`
      alone decides.) */
  lemma {:induction false} WalkAppend(o: Option<Json>, a: seq<string>, b: seq<string>)
    ensures o.Some? || |a| > 0 ==>
      Walk(o, a + b) == (if Walk(o, a).Found? then Walk(Some(Walk(o, a).value), b) else Walk(o, a))
    ensures Walk(o, a).Threw? ==> Walk(o, a + b).Threw?
    ensures |a| > 0 && Walk(o, a).Undefined? ==> Walk(o, a + b).Undefined?
    decreases |a|
  {
    if |a| == 0 {
      assert a + b == b;
    } else {
      assert (a + b)[0] == a[0];
      assert (a + b)[1..] == a[1..] + b;
      if o.Some? && IsContainer(o.value) && Member(o.value, a[0]).Some? {
        WalkAppend(Member(o.value, a[0]), a[1..], b);
      }
    }
  }

  /** `f5_get_by_string(s, d)` over the parsed document `doc`: a non-string
      path (`None`) yields `undefined`; otherwise the path is split, its last
      `d` names are dropped, and the rest are walked. */
  function Resolve(doc: Option<Json>, s: Option<string>, d: int): Resolved
  {
    match s
    case None => Undefined
    case Some(p) =>
      var names := SplitPath(p);
      Walk(doc, names[..KeepCount(|names|, d)])
  }

  /** `f5_get_by_string`: the loop that reassigns `o` name by name. */
  method GetByString(doc: Option<Json>, s: Option<string>, d: int) returns (r: Resolved)
    ensures r == Resolve(doc, s, d)
  {
    if s.None? {
      return Undefined;
    }
    var a := SplitPath(s.value);
    a := a[..KeepCount(|a|, d)];
    var o := doc;
    var i := 0;
    while i < |a|
      invariant 0 <= i <= |a|
      invariant o.Some? || i == 0
      invariant Walk(o, a[i..]) == Walk(doc, a)
    {
      var k := a[i];
      if o.None? || !IsContainer(o.value) {
        return Threw;
      }
      var m := Member(o.value, k);
      if m.None? {
        return Undefined;
      }
      assert a[i..][1..] == a[i + 1..];
      o := m;
      i := i + 1;
    }
    r := if o.Some? then Found(o.value) else Undefined;
  }

  // ---- Writing a path: the inverse of SplitPath ----

  /** A property name the path syntax can carry: non-empty, and free of
      backslashes, of the separator and of `/` (which both literal patterns
      above contain). Dots are allowed: they are escaped. */
  predicate PlainName(k: string)
  {
    |k| > 0 && '\\' !in k && Sep !in k && '/' !in k
  }

  /** The name with each dot written as `\.`. */
  function EscapeDots(k: string): (r: string)
    ensures |k| > 0 ==> |r| > 0 && r[0] != '.'
  {
    if |k| == 0 then ""
    else (if k[0] == '.' then "\\." else [k[0]]) + EscapeDots(k[1..])
  }

  /** Escaping adds only backslashes and dots. */
  lemma {:induction false} EscapeDotsLacks(k: string, c: char)
    requires c != '\\' && c != '.' && c !in k
    ensures c !in EscapeDots(k)
  {
    if |k| > 0 {
      EscapeDotsLacks(k[1..], c);
    }
  }

  /** A name without dots is written as it is. */
  lemma {:induction false} EscapeDotsNoDot(k: string)
    requires '.' !in k
    ensures EscapeDots(k) == k
  {
    if |k| > 0 {
      EscapeDotsNoDot(k[1..]);
      assert [k[0]] + k[1..] == k;
    }
  }

  function EscapeAll(names: seq<string>): (r: seq<string>)
    ensures |r| == |names|
  {
    seq(|names|, i requires 0 <= i < |names| => EscapeDots(names[i]))
  }

  /** The path that names `names`, dots in names escaped. */
  function JoinPath(names: seq<string>): string
  {
    Join(EscapeAll(names), ".")
  }

  lemma {:induction false} UnescapeEscape(k: string)
    requires '\\' !in k
    ensures Unescape(EscapeDots(k)) == k
  {
    if |k| > 0 {
      UnescapeEscape(k[1..]);
      var rest := EscapeDots(k[1..]);
      if k[0] == '.' {
        assert EscapeDots(k) == "\\." + rest;
        assert ("\\." + rest)[2..] == rest;
      } else {
        assert EscapeDots(k) == [k[0]] + rest;
        assert ([k[0]] + rest)[1..] == rest;
      }
      assert [k[0]] + k[1..] == k;
    }
  }

  /** One step of the scan. */
  lemma MarkFromCons(c: char, u: string, afterPlain: bool)
    ensures MarkFrom([c] + u, afterPlain) ==
      if c == '.' && afterPlain then [Sep] + MarkFrom(u, false)
      else [c] + MarkFrom(u, c != '\\')
  {
    assert ([c] + u)[1..] == u;
  }

  /** Escaping works character by character. */
  lemma EscapeDotsCons(k: string)
    requires |k| > 0
    ensures EscapeDots(k) == EscapeDots([k[0]]) + EscapeDots(k[1..])
  {
    assert [k[0]][1..] == [];
  }

  /** The escaped form of one character is copied as it is, and afterwards
      a dot would be marked. */
  lemma MarkEscapedChar(c: char, u: string, afterPlain: bool)
    requires c != '\\'
    ensures MarkFrom(EscapeDots([c]) + u, afterPlain) == EscapeDots([c]) + MarkFrom(u, true)
  {
    assert [c][1..] == [];
    if c == '.' {
      assert EscapeDots([c]) + u == ['\\'] + (['.'] + u);
      MarkFromCons('\\', ['.'] + u, afterPlain);
      MarkFromCons('.', u, false);
    } else {
      assert EscapeDots([c]) + u == [c] + u;
      MarkFromCons(c, u, afterPlain);
    }
  }

  /** Inside an escaped name no dot is marked, and a dot right after the
      name would be. */
  lemma {:induction false} MarkEscaped(k: string, t: string, afterPlain: bool)
    requires |k| > 0 && '\\' !in k
    ensures MarkFrom(EscapeDots(k) + t, afterPlain) == EscapeDots(k) + MarkFrom(t, true)
  {
    var head := EscapeDots([k[0]]);
    var rest := EscapeDots(k[1..]);
    EscapeDotsCons(k);
    assert EscapeDots(k) + t == head + (rest + t);
    MarkEscapedChar(k[0], rest + t, afterPlain);
    if |k| == 1 {
      assert rest + t == t;
    } else {
      MarkEscaped(k[1..], t, true);
      assert head + (rest + MarkFrom(t, true)) == EscapeDots(k) + MarkFrom(t, true);
    }
  }

  lemma {:induction false} JoinLacks(parts: seq<string>, sep: string, c: char)
    requires c !in sep
    requires forall i :: 0 <= i < |parts| ==> c !in parts[i]
    ensures c !in Join(parts, sep)
  {
    if |parts| > 1 {
      JoinLacks(parts[1..], sep, c);
    }
  }

  /** A path of several names is the first escaped name, a dot, and the
      path of the others. */
  lemma JoinPathCons(names: seq<string>)
    requires |names| >= 2
    ensures JoinPath(names) == EscapeDots(names[0]) + (['.'] + JoinPath(names[1..]))
  {
    var e := EscapeAll(names);
    assert e[1..] == EscapeAll(names[1..]);
    assert Join(e, ".") == e[0] + "." + Join(e[1..], ".");
  }

  /** The escaped names of several names, joined by the separator. */
  lemma JoinEscapedCons(names: seq<string>)
    requires |names| >= 2
    ensures Join(EscapeAll(names), [Sep]) ==
      EscapeDots(names[0]) + ([Sep] + Join(EscapeAll(names[1..]), [Sep]))
  {
    var e := EscapeAll(names);
    assert e[1..] == EscapeAll(names[1..]);
    assert Join(e, [Sep]) == e[0] + [Sep] + Join(e[1..], [Sep]);
  }

  /** Marking the separators of a written path yields the escaped names
      joined by the separator. */
  lemma {:induction false} MarkJoinPath(names: seq<string>, afterPlain: bool)
    requires |names| >= 1
    requires forall i :: 0 <= i < |names| ==> PlainName(names[i])
    ensures MarkFrom(JoinPath(names), afterPlain) == Join(EscapeAll(names), [Sep])
  {
    var e0 := EscapeDots(names[0]);
    if |names| == 1 {
      assert JoinPath(names) == e0 + "";
      MarkEscaped(names[0], "", afterPlain);
      assert MarkFrom("", true) == "";
    } else {
      var tail := JoinPath(names[1..]);
      MarkJoinPath(names[1..], false);
      JoinPathCons(names);
      MarkEscaped(names[0], ['.'] + tail, afterPlain);
      MarkFromCons('.', tail, true);
      JoinEscapedCons(names);
    }
  }

  /** Writing names as a path and splitting it again gives the same names
      back, for non-empty names without backslashes, separators or slashes;
      in particular the two literal rewrites change nothing. */
  lemma SplitPathJoinPath(names: seq<string>)
    requires |names| >= 1
    requires forall i :: 0 <= i < |names| ==> PlainName(names[i])
    ensures SplitPath(JoinPath(names)) == names
  {
    var s := JoinPath(names);
    var e := EscapeAll(names);
    forall i | 0 <= i < |names|
      ensures '/' !in e[i] && Sep !in e[i]
    {
      EscapeDotsLacks(names[i], '/');
      EscapeDotsLacks(names[i], Sep);
    }
    JoinLacks(e, ".", '/');
    ReplaceFirstAbsent(s, IndexPattern, IndexReplacement, '/');
    ReplaceFirstAbsent(s, LeadingDotPattern, "", '/');
    MarkJoinPath(names, false);
    SplitJoin(e, Sep);
    forall i | 0 <= i < |names|
      ensures Unescape(e[i]) == names[i]
    {
      UnescapeEscape(names[i]);
    }
  }

  /** Resolving a written path drops its last `d` names and walks the rest;
      with `d` at most zero nothing is dropped, and with `d` at least the
      number of names the document itself comes back. */
  lemma ResolveJoinPath(doc: Option<Json>, names: seq<string>, d: int)
    requires |names| >= 1
    requires forall i :: 0 <= i < |names| ==> PlainName(names[i])
    ensures Resolve(doc, Some(JoinPath(names)), d) == Walk(doc, names[..KeepCount(|names|, d)])
    ensures d <= 0 ==> Resolve(doc, Some(JoinPath(names)), d) == Walk(doc, names)
  {
    SplitPathJoinPath(names);
    assert names[..|names|] == names;
  }
}
