/** `f5_search_json` and its three wrappers: a depth-first search of a
    parsed document, limited in depth, in one of three modes.
    - value and attribute: the attribute of the first scope holding a
      primitive `===` the value;
    - attribute only: the attribute of the first scope holding any primitive
      and having the attribute;
    - value only: the dot-joined key path of the first primitive `===` the
      value. */
module JsonSearch {
  import opened Options
  import opened Text
  import opened JsValues
  import opened PathResolver

  /** The depth limit the wrappers use. */
  const DefaultMaxDepth := 15

  /** The attribute is given and truthy (a non-empty string). */
  predicate Named(attr: Option<string>)
  {
    attr.Some? && attr.value != ""
  }

  /** `attr in json` is evaluated on a string document, which throws a
      TypeError: in attribute-only mode at its first character, in
      value-and-attribute mode at a character equal to the value. */
  predicate ThrowsOnString(j: Json, value: Option<Json>, attr: Option<string>)
  {
    j.JStr? && Named(attr) && |j.s| > 0 &&
    (!Truthy(value) || (value.value.JStr? && |value.value.s| == 1 && value.value.s[0] in j.s))
  }

  /** `f5_search_json(j, value, attr, maxDepth, path)`; `None` is
      `undefined`. In value-only mode the answer is null exactly when the
      starting depth is already beyond the limit: a deeper search that hits
      the limit yields null, which is falsy, so the caller goes on. */
  function Search(j: Json, value: Option<Json>, attr: Option<string>, maxDepth: int, path: seq<string>): (r: Option<Json>)
    requires !ThrowsOnString(j, value, attr)
    ensures !Truthy(value) && !Named(attr) ==> r == None
    ensures (Truthy(value) || Named(attr)) && |path| > maxDepth ==> r == Some(JNull)
    ensures !Named(attr) ==> (r == Some(JNull) <==> Truthy(value) && |path| > maxDepth)
    decreases Size(j), 1
  {
    if !Truthy(value) && !Named(attr) then None
    else if |path| > maxDepth then Some(JNull)
    else SearchFrom(j, value, attr, maxDepth, path, 0)
  }

  /** The `for...in` loop of the search, from the `k`-th property on. */
  function SearchFrom(j: Json, value: Option<Json>, attr: Option<string>, maxDepth: int, path: seq<string>, k: nat): (r: Option<Json>)
    requires !ThrowsOnString(j, value, attr)
    requires k <= EntryCount(j)
    ensures !Named(attr) ==> r != Some(JNull)
    decreases Size(j), 0, EntryCount(j) - k
  {
    if k == EntryCount(j) then None
    else
      var key := EntryKey(j, k);
      var child := EntryValue(j, k);
      if IsObject(child) then
        var ret := Search(child, value, attr, maxDepth, path + [key]);
        if Truthy(ret) then ret else SearchFrom(j, value, attr, maxDepth, path, k + 1)
      else if Truthy(value) && Named(attr) && StrictEquals(Some(child), value.value) && Member(j, attr.value).Some? then
        Member(j, attr.value)
      else if !Truthy(value) && Named(attr) && Member(j, attr.value).Some? then
        Member(j, attr.value)
      else if Truthy(value) && !Named(attr) && StrictEquals(Some(child), value.value) then
        Some(JStr(Join(path + [key], ".")))
      else
        SearchFrom(j, value, attr, maxDepth, path, k + 1)
  }

  /** An absent document is searched as `{}`. */
  function DocOrEmpty(doc: Option<Json>): Json
  {
    doc.GetOr(JObj([]))
  }

  // ---- A reference for value-only mode: the leaves in search order ----

  /** A primitive found in the document, with the key path leading to it. */
  type Leaf = (seq<string>, Json)

  /** The primitives of `j` in the order the search visits them, each with
      its key path extended from `path`; an object below the depth limit is
      not entered. */
  function Leaves(j: Json, path: seq<string>, maxDepth: int): (r: seq<Leaf>)
    ensures forall i :: 0 <= i < |r| ==> |r[i].0| > |path| && r[i].0[..|path|] == path
    decreases Size(j), 1
  {
    LeavesFrom(j, path, maxDepth, 0)
  }

  function LeavesFrom(j: Json, path: seq<string>, maxDepth: int, k: nat): (r: seq<Leaf>)
    requires k <= EntryCount(j)
    ensures forall i :: 0 <= i < |r| ==> |r[i].0| > |path| && r[i].0[..|path|] == path
    decreases Size(j), 0, EntryCount(j) - k
  {
    if k == EntryCount(j) then []
    else
      var key := EntryKey(j, k);
      var child := EntryValue(j, k);
      var here :=
        if !IsObject(child) then [(path + [key], child)]
        else if |path| + 1 <= maxDepth then Leaves(child, path + [key], maxDepth)
        else [];
      assert forall i :: 0 <= i < |here| ==> here[i].0[..|path|] == (here[i].0[..|path| + 1])[..|path|];
      here + LeavesFrom(j, path, maxDepth, k + 1)
  }

  /** The key path of the first leaf `===` the value. */
  function FirstMatch(leaves: seq<Leaf>, v: Json): (r: Option<seq<string>>)
    ensures r.Some? ==> exists i :: 0 <= i < |leaves| && leaves[i].0 == r.value && StrictEquals(Some(leaves[i].1), v)
    ensures r.None? ==> forall i :: 0 <= i < |leaves| ==> !StrictEquals(Some(leaves[i].1), v)
  {
    if |leaves| == 0 then None
    else if StrictEquals(Some(leaves[0].1), v) then Some(leaves[0].0)
    else
      var r := FirstMatch(leaves[1..], v);
      assert forall i :: 1 <= i < |leaves| ==> leaves[i] == leaves[1..][i - 1];
      r
  }

  lemma {:induction false} FirstMatchAppend(a: seq<Leaf>, b: seq<Leaf>, v: Json)
    ensures FirstMatch(a + b, v) == if FirstMatch(a, v).Some? then FirstMatch(a, v) else FirstMatch(b, v)
  {
    if |a| > 0 {
      FirstMatchAppend(a[1..], b, v);
      assert (a + b)[1..] == a[1..] + b;
    } else {
      assert a + b == b;
    }
  }

  /** A key path as the search reports it. */
  function PathText(p: Option<seq<string>>): Option<Json>
  {
    match p
    case None => None
    case Some(q) => Some(JStr(Join(q, ".")))
  }

  /** In value-only mode the search answers the key path of the first leaf,
      in depth-first `for...in` order, that is `===` the value. */
  lemma {:induction false} SearchFindsFirstLeaf(j: Json, v: Json, maxDepth: int, path: seq<string>)
    requires Truthy(Some(v)) && |path| <= maxDepth
    ensures Search(j, Some(v), None, maxDepth, path) == PathText(FirstMatch(Leaves(j, path, maxDepth), v))
    decreases Size(j), 1
  {
    SearchFromFindsFirstLeaf(j, v, maxDepth, path, 0);
  }

  lemma {:induction false} SearchFromFindsFirstLeaf(j: Json, v: Json, maxDepth: int, path: seq<string>, k: nat)
    requires Truthy(Some(v)) && |path| <= maxDepth && k <= EntryCount(j)
    ensures SearchFrom(j, Some(v), None, maxDepth, path, k) == PathText(FirstMatch(LeavesFrom(j, path, maxDepth, k), v))
    decreases Size(j), 0, EntryCount(j) - k
  {
    if k < EntryCount(j) {
      var child := EntryValue(j, k);
      SearchFromFindsFirstLeaf(j, v, maxDepth, path, k + 1);
      if IsObject(child) && |path| + 1 <= maxDepth {
        SearchFindsFirstLeaf(child, v, maxDepth, path + [EntryKey(j, k)]);
      }
      SearchFromStep(j, v, maxDepth, path, k);
    }
  }

  /** One property of the loop: the search of the rest of the properties
      and of the property's own value agree with the leaves, so the search
      from this property does. */
  lemma SearchFromStep(j: Json, v: Json, maxDepth: int, path: seq<string>, k: nat)
    requires Truthy(Some(v)) && |path| <= maxDepth && k < EntryCount(j)
    requires SearchFrom(j, Some(v), None, maxDepth, path, k + 1) == PathText(FirstMatch(LeavesFrom(j, path, maxDepth, k + 1), v))
    requires IsObject(EntryValue(j, k)) && |path| + 1 <= maxDepth ==>
      Search(EntryValue(j, k), Some(v), None, maxDepth, path + [EntryKey(j, k)]) ==
      PathText(FirstMatch(Leaves(EntryValue(j, k), path + [EntryKey(j, k)], maxDepth), v))
    ensures SearchFrom(j, Some(v), None, maxDepth, path, k) == PathText(FirstMatch(LeavesFrom(j, path, maxDepth, k), v))
  {
    var key := EntryKey(j, k);
    var child := EntryValue(j, k);
    var rest := LeavesFrom(j, path, maxDepth, k + 1);
    if !IsObject(child) {
      var here := [(path + [key], child)];
      assert LeavesFrom(j, path, maxDepth, k) == here + rest;
      FirstMatchAppend(here, rest, v);
      FirstMatchOne(path + [key], child, v);
    } else if |path| + 1 <= maxDepth {
      var here := Leaves(child, path + [key], maxDepth);
      assert LeavesFrom(j, path, maxDepth, k) == here + rest;
      FirstMatchAppend(here, rest, v);
      PathTextTruthy(here, v);
    } else {
      assert LeavesFrom(j, path, maxDepth, k) == [] + rest;
      assert [] + rest == rest;
    }
  }

  /** A single leaf is the first match exactly when it matches. */
  lemma FirstMatchOne(p: seq<string>, x: Json, v: Json)
    ensures FirstMatch([(p, x)], v) == if StrictEquals(Some(x), v) then Some(p) else None
  {
  }

  /** A key path of two names or more is reported as a non-empty text. */
  lemma PathTextTruthy(leaves: seq<Leaf>, v: Json)
    requires forall i :: 0 <= i < |leaves| ==> |leaves[i].0| >= 2
    ensures Truthy(PathText(FirstMatch(leaves, v))) <==> FirstMatch(leaves, v).Some?
  {
    var m := FirstMatch(leaves, v);
    if m.Some? {
      assert |m.value| >= 2;
      assert Join(m.value, ".") == m.value[0] + "." + Join(m.value[1..], ".");
    }
  }

  // ---- Value-only mode and the path resolver ----

  /** A key the resolver reads back as written: a plain name without dots. */
  predicate SimpleKey(k: string)
  {
    PlainName(k) && '.' !in k
  }

  /** Every object key in the document is a simple key. */
  predicate KeysSimple(j: Json)
  {
    match j
    case JArr(items) => forall i :: 0 <= i < |items| ==> KeysSimple(items[i])
    case JObj(fs) => forall i :: 0 <= i < |fs| ==> SimpleKey(fs[i].0) && KeysSimple(fs[i].1)
    case _ => true
  }

  predicate AllSimple(names: seq<string>)
  {
    forall n :: 0 <= n < |names| ==> SimpleKey(names[n])
  }

  /** The leaf is reached from `j` by walking its key path past `path`. */
  predicate LeafReached(j: Json, path: seq<string>, leaf: Leaf)
    requires |leaf.0| >= |path|
  {
    AllSimple(leaf.0[|path|..]) && Walk(Some(j), leaf.0[|path|..]) == Found(leaf.1)
  }

  lemma {:induction false} NumeralSimple(n: nat)
    ensures SimpleKey(NatToString(n))
  {
    var r := NatToString(n);
    assert forall i :: 0 <= i < |r| ==> IsDigit(r[i]);
  }

  /** Each leaf of a well-formed document is where its key path leads. */
  lemma {:induction false} LeavesReached(j: Json, path: seq<string>, maxDepth: int)
    requires IsObject(j) && WellFormed(j) && KeysSimple(j)
    ensures forall i :: 0 <= i < |Leaves(j, path, maxDepth)| ==> LeafReached(j, path, Leaves(j, path, maxDepth)[i])
    decreases Size(j), 1
  {
    LeavesFromReached(j, path, maxDepth, 0);
  }

  lemma {:induction false} LeavesFromReached(j: Json, path: seq<string>, maxDepth: int, k: nat)
    requires IsObject(j) && WellFormed(j) && KeysSimple(j) && k <= EntryCount(j)
    ensures forall i :: 0 <= i < |LeavesFrom(j, path, maxDepth, k)| ==> LeafReached(j, path, LeavesFrom(j, path, maxDepth, k)[i])
    decreases Size(j), 0, EntryCount(j) - k
  {
    if k < EntryCount(j) {
      var key := EntryKey(j, k);
      var child := EntryValue(j, k);
      var here :=
        if !IsObject(child) then [(path + [key], child)]
        else if |path| + 1 <= maxDepth then Leaves(child, path + [key], maxDepth)
        else [];
      var rest := LeavesFrom(j, path, maxDepth, k + 1);
      LeavesFromReached(j, path, maxDepth, k + 1);
      MemberOfEntry(j, k);
      assert SimpleKey(key) by {
        if j.JArr? {
          NumeralSimple(k);
        }
      }
      assert WellFormed(child) && KeysSimple(child);
      forall i | 0 <= i < |here|
        ensures LeafReached(j, path, here[i])
      {
        var q := here[i].0;
        if !IsObject(child) {
          assert q[|path|..] == [key];
          assert Walk(Some(j), [key]) == Walk(Some(child), []);
        } else {
          LeavesReached(child, path + [key], maxDepth);
          assert LeafReached(child, path + [key], here[i]);
          assert q[|path|] == (q[..|path| + 1])[|path|] == key;
          assert q[|path|..] == [key] + q[|path| + 1..];
          assert q[|path|..][1..] == q[|path| + 1..];
        }
      }
      assert LeavesFrom(j, path, maxDepth, k) == here + rest;
    }
  }

  /** A key path the value search reports leads the resolver
      (`f5_get_by_string`) back to the value, when the document's keys are
      plain names without dots. */
  lemma PathByValueResolves(doc: Json, v: Json, p: string)
    requires IsContainer(doc) && WellFormed(doc) && KeysSimple(doc)
    requires PathByValue(Some(doc), Some(v)) == Some(JStr(p))
    ensures Resolve(Some(doc), Some(p), 0) == Found(v)
  {
    var ls := Leaves(doc, [], DefaultMaxDepth);
    var m := FirstMatch(ls, v);
    assert m.Some?;
    var i :| 0 <= i < |ls| && ls[i].0 == m.value && StrictEquals(Some(ls[i].1), v);
    LeavesReached(doc, [], DefaultMaxDepth);
    assert LeafReached(doc, [], ls[i]);
    var names := m.value;
    assert names[0..] == names;
    SimplePath(names);
    ResolveJoinPath(Some(doc), names, 0);
  }

  /** Simple keys are written into a path as they are. */
  lemma SimplePath(names: seq<string>)
    requires AllSimple(names)
    ensures JoinPath(names) == Join(names, ".")
    ensures forall n :: 0 <= n < |names| ==> PlainName(names[n])
  {
    forall n | 0 <= n < |names|
      ensures EscapeAll(names)[n] == names[n]
    {
      EscapeDotsNoDot(names[n]);
    }
    assert EscapeAll(names) == names;
  }

  // ---- Attribute modes: the answer comes from a matching scope ----

  /** `s` is an object or array the search enters at depth `depth` when it
      starts at `j`: `j` itself, or one reached through nested objects, none
      deeper than the limit. */
  ghost predicate Reaches(j: Json, s: Json, depth: int, maxDepth: int)
    decreases maxDepth - depth
  {
    depth <= maxDepth &&
    (s == j ||
     exists k :: 0 <= k < EntryCount(j) && IsObject(EntryValue(j, k)) && Reaches(EntryValue(j, k), s, depth + 1, maxDepth))
  }

  /** A scope an attribute-mode search can answer from with `x`: it has the
      attribute, with value `x`, and holds a primitive, which must be `===`
      the value when one is given. */
  ghost predicate Answers(s: Json, value: Option<Json>, attr: string, x: Json)
  {
    IsContainer(s) && Member(s, attr) == Some(x) &&
    exists k :: 0 <= k < EntryCount(s) && !IsObject(EntryValue(s, k)) &&
      (Truthy(value) ==> StrictEquals(Some(EntryValue(s, k)), value.value))
  }

  /** In the attribute modes, whatever the search answers is the attribute
      of a scope within the depth limit that matches. */
  lemma {:induction false} SearchAttrSound(j: Json, value: Option<Json>, attr: Option<string>, maxDepth: int, path: seq<string>, x: Json)
    requires Named(attr) && !ThrowsOnString(j, value, attr) && |path| <= maxDepth
    requires Search(j, value, attr, maxDepth, path) == Some(x)
    ensures exists s :: Reaches(j, s, |path|, maxDepth) && Answers(s, value, attr.value, x)
    decreases Size(j), 1
  {
    SearchFromAttrSound(j, value, attr, maxDepth, path, 0, x);
  }

  lemma {:induction false} SearchFromAttrSound(j: Json, value: Option<Json>, attr: Option<string>, maxDepth: int, path: seq<string>, k: nat, x: Json)
    requires Named(attr) && !ThrowsOnString(j, value, attr) && |path| <= maxDepth && k <= EntryCount(j)
    requires SearchFrom(j, value, attr, maxDepth, path, k) == Some(x)
    ensures exists s :: Reaches(j, s, |path|, maxDepth) && Answers(s, value, attr.value, x)
    decreases Size(j), 0, EntryCount(j) - k
  {
    var key := EntryKey(j, k);
    var child := EntryValue(j, k);
    if IsObject(child) {
      var ret := Search(child, value, attr, maxDepth, path + [key]);
      if Truthy(ret) {
        SearchAttrSound(child, value, attr, maxDepth, path + [key], x);
        var s :| Reaches(child, s, |path| + 1, maxDepth) && Answers(s, value, attr.value, x);
        assert Reaches(j, s, |path|, maxDepth);
      } else {
        SearchFromAttrSound(j, value, attr, maxDepth, path, k + 1, x);
      }
    } else if IsContainer(j) && Member(j, attr.value).Some? && (Truthy(value) ==> StrictEquals(Some(child), value.value)) {
      assert Reaches(j, j, |path|, maxDepth);
      assert Answers(j, value, attr.value, x);
    } else {
      SearchFromAttrSound(j, value, attr, maxDepth, path, k + 1, x);
    }
  }

  // ---- Attribute modes: the first matching scope ----

  /** A primitive the search visits, with the scope (object, array or
      string) that holds it. */
  type Visit = (Json, Json)

  /** The primitives of `j` in the order the search visits them, each with
      its scope; `depth` is the length of the path at `j`. */
  function Visits(j: Json, depth: int, maxDepth: int): seq<Visit>
    decreases Size(j), 1
  {
    VisitsFrom(j, depth, maxDepth, 0)
  }

  function VisitsFrom(j: Json, depth: int, maxDepth: int, k: nat): seq<Visit>
    requires k <= EntryCount(j)
    decreases Size(j), 0, EntryCount(j) - k
  {
    if k == EntryCount(j) then []
    else
      var child := EntryValue(j, k);
      var here :=
        if !IsObject(child) then [(j, child)]
        else if depth + 1 <= maxDepth then Visits(child, depth + 1, maxDepth)
        else [];
      here + VisitsFrom(j, depth, maxDepth, k + 1)
  }

  /** A visit the attribute modes answer at: the scope has the attribute,
      and the primitive is `===` the value when one is given. */
  predicate Hit(v: Visit, value: Option<Json>, attr: string)
  {
    IsContainer(v.0) && Member(v.0, attr).Some? &&
    (Truthy(value) ==> StrictEquals(Some(v.1), value.value))
  }

  /** The attribute of the scope of the first hit. */
  function FirstHit(vs: seq<Visit>, value: Option<Json>, attr: string): (r: Option<Json>)
    ensures r.Some? ==> exists i :: 0 <= i < |vs| && Hit(vs[i], value, attr) && Member(vs[i].0, attr) == r
    ensures r.None? ==> forall i :: 0 <= i < |vs| ==> !Hit(vs[i], value, attr)
  {
    if |vs| == 0 then None
    else if Hit(vs[0], value, attr) then Member(vs[0].0, attr)
    else
      var r := FirstHit(vs[1..], value, attr);
      assert forall i :: 1 <= i < |vs| ==> vs[i] == vs[1..][i - 1];
      r
  }

  lemma {:induction false} FirstHitAppend(a: seq<Visit>, b: seq<Visit>, value: Option<Json>, attr: string)
    ensures FirstHit(a + b, value, attr) == if FirstHit(a, value, attr).Some? then FirstHit(a, value, attr) else FirstHit(b, value, attr)
  {
    if |a| > 0 {
      FirstHitAppend(a[1..], b, value, attr);
      assert (a + b)[1..] == a[1..] + b;
    } else {
      assert a + b == b;
    }
  }

  /** Wherever the attribute occurs in the document, its value is truthy. */
  predicate AttrTruthy(j: Json, attr: string)
    decreases Size(j)
  {
    (IsContainer(j) && Member(j, attr).Some? ==> Truthy(Member(j, attr))) &&
    (IsContainer(j) ==> forall k :: 0 <= k < EntryCount(j) ==> AttrTruthy(EntryValue(j, k), attr))
  }

  /** The condition holds of every object value inside the document. */
  lemma AttrTruthyChild(j: Json, attr: string, k: nat)
    requires AttrTruthy(j, attr) && k < EntryCount(j) && IsObject(EntryValue(j, k))
    ensures AttrTruthy(EntryValue(j, k), attr)
  {
  }

  /** With truthy attribute values every hit yields a truthy answer. */
  lemma {:induction false} FirstHitTruthy(j: Json, depth: int, maxDepth: int, value: Option<Json>, attr: string)
    requires AttrTruthy(j, attr)
    ensures FirstHit(Visits(j, depth, maxDepth), value, attr).Some? ==> Truthy(FirstHit(Visits(j, depth, maxDepth), value, attr))
    decreases Size(j), 1
  {
    FirstHitFromTruthy(j, depth, maxDepth, value, attr, 0);
  }

  lemma {:induction false} FirstHitFromTruthy(j: Json, depth: int, maxDepth: int, value: Option<Json>, attr: string, k: nat)
    requires AttrTruthy(j, attr) && k <= EntryCount(j)
    ensures
      var r := FirstHit(VisitsFrom(j, depth, maxDepth, k), value, attr);
      r.Some? ==> Truthy(r)
    decreases Size(j), 0, EntryCount(j) - k
  {
    if k < EntryCount(j) {
      FirstHitFromTruthy(j, depth, maxDepth, value, attr, k + 1);
      if IsObject(EntryValue(j, k)) && depth + 1 <= maxDepth {
        AttrTruthyChild(j, attr, k);
        FirstHitTruthy(EntryValue(j, k), depth + 1, maxDepth, value, attr);
      }
      FirstHitTruthyStep(j, depth, maxDepth, value, attr, k);
    }
  }

  lemma FirstHitTruthyStep(j: Json, depth: int, maxDepth: int, value: Option<Json>, attr: string, k: nat)
    requires AttrTruthy(j, attr) && k < EntryCount(j)
    requires
      var r := FirstHit(VisitsFrom(j, depth, maxDepth, k + 1), value, attr);
      r.Some? ==> Truthy(r)
    requires IsObject(EntryValue(j, k)) && depth + 1 <= maxDepth ==>
      var r := FirstHit(Visits(EntryValue(j, k), depth + 1, maxDepth), value, attr);
      r.Some? ==> Truthy(r)
    ensures
      var r := FirstHit(VisitsFrom(j, depth, maxDepth, k), value, attr);
      r.Some? ==> Truthy(r)
  {
    var child := EntryValue(j, k);
    var here :=
      if !IsObject(child) then [(j, child)]
      else if depth + 1 <= maxDepth then Visits(child, depth + 1, maxDepth)
      else [];
    assert VisitsFrom(j, depth, maxDepth, k) == here + VisitsFrom(j, depth, maxDepth, k + 1);
    FirstHitAppend(here, VisitsFrom(j, depth, maxDepth, k + 1), value, attr);
  }

  /** In the attribute modes, when the attribute's values are truthy, the
      search answers the attribute of the scope of the first hit, in
      depth-first `for...in` order, and undefined when there is none. */
  lemma {:induction false} SearchFindsFirstHit(j: Json, value: Option<Json>, attr: Option<string>, maxDepth: int, path: seq<string>)
    requires Named(attr) && !ThrowsOnString(j, value, attr) && |path| <= maxDepth
    requires AttrTruthy(j, attr.value)
    ensures Search(j, value, attr, maxDepth, path) == FirstHit(Visits(j, |path|, maxDepth), value, attr.value)
    decreases Size(j), 1
  {
    SearchFromFindsFirstHit(j, value, attr, maxDepth, path, 0);
  }

  lemma {:induction false} SearchFromFindsFirstHit(j: Json, value: Option<Json>, attr: Option<string>, maxDepth: int, path: seq<string>, k: nat)
    requires Named(attr) && !ThrowsOnString(j, value, attr) && |path| <= maxDepth && k <= EntryCount(j)
    requires AttrTruthy(j, attr.value)
    ensures SearchFrom(j, value, attr, maxDepth, path, k) == FirstHit(VisitsFrom(j, |path|, maxDepth, k), value, attr.value)
    decreases Size(j), 0, EntryCount(j) - k
  {
    if k < EntryCount(j) {
      var child := EntryValue(j, k);
      SearchFromFindsFirstHit(j, value, attr, maxDepth, path, k + 1);
      if IsObject(child) && |path| + 1 <= maxDepth {
        NestedFindsFirstHit(j, value, attr, maxDepth, path, k);
      }
      SearchFromHitStep(j, value, attr, maxDepth, path, k);
    }
  }

  /** The search of an object inside `j` answers its first hit, which is
      truthy. */
  lemma {:induction false} NestedFindsFirstHit(j: Json, value: Option<Json>, attr: Option<string>, maxDepth: int, path: seq<string>, k: nat)
    requires Named(attr) && |path| + 1 <= maxDepth && k < EntryCount(j)
    requires AttrTruthy(j, attr.value) && IsObject(EntryValue(j, k))
    ensures
      var r := FirstHit(Visits(EntryValue(j, k), |path| + 1, maxDepth), value, attr.value);
      Search(EntryValue(j, k), value, attr, maxDepth, path + [EntryKey(j, k)]) == r && (r.Some? ==> Truthy(r))
    decreases Size(j), 0, EntryCount(j) - k - 1
  {
    var child := EntryValue(j, k);
    AttrTruthyChild(j, attr.value, k);
    SearchFindsFirstHit(child, value, attr, maxDepth, path + [EntryKey(j, k)]);
    FirstHitTruthy(child, |path| + 1, maxDepth, value, attr.value);
  }

  /** One property of the loop in the attribute modes. */
  lemma SearchFromHitStep(j: Json, value: Option<Json>, attr: Option<string>, maxDepth: int, path: seq<string>, k: nat)
    requires Named(attr) && !ThrowsOnString(j, value, attr) && |path| <= maxDepth && k < EntryCount(j)
    requires SearchFrom(j, value, attr, maxDepth, path, k + 1) == FirstHit(VisitsFrom(j, |path|, maxDepth, k + 1), value, attr.value)
    requires IsObject(EntryValue(j, k)) && |path| + 1 <= maxDepth ==>
      var r := FirstHit(Visits(EntryValue(j, k), |path| + 1, maxDepth), value, attr.value);
      Search(EntryValue(j, k), value, attr, maxDepth, path + [EntryKey(j, k)]) == r && (r.Some? ==> Truthy(r))
    ensures SearchFrom(j, value, attr, maxDepth, path, k) == FirstHit(VisitsFrom(j, |path|, maxDepth, k), value, attr.value)
  {
    var child := EntryValue(j, k);
    var rest := VisitsFrom(j, |path|, maxDepth, k + 1);
    if !IsObject(child) {
      var here := [(j, child)];
      assert VisitsFrom(j, |path|, maxDepth, k) == here + rest;
      FirstHitAppend(here, rest, value, attr.value);
      assert here[1..] == [];
      if j.JStr? {
        assert child == JStr([j.s[k]]);
        assert !Hit((j, child), value, attr.value);
      }
    } else if |path| + 1 <= maxDepth {
      var here := Visits(child, |path| + 1, maxDepth);
      assert VisitsFrom(j, |path|, maxDepth, k) == here + rest;
      FirstHitAppend(here, rest, value, attr.value);
    } else {
      assert VisitsFrom(j, |path|, maxDepth, k) == [] + rest;
      assert [] + rest == rest;
    }
  }

  /** An empty attribute is falsy: the search runs as if none were given. */
  lemma {:induction false} SearchUnnamed(j: Json, value: Option<Json>, attr: Option<string>, maxDepth: int, path: seq<string>)
    requires !Named(attr)
    ensures Search(j, value, attr, maxDepth, path) == Search(j, value, None, maxDepth, path)
    decreases Size(j), 1
  {
    SearchFromUnnamed(j, value, attr, maxDepth, path, 0);
  }

  lemma {:induction false} SearchFromUnnamed(j: Json, value: Option<Json>, attr: Option<string>, maxDepth: int, path: seq<string>, k: nat)
    requires !Named(attr) && k <= EntryCount(j)
    ensures SearchFrom(j, value, attr, maxDepth, path, k) == SearchFrom(j, value, None, maxDepth, path, k)
    decreases Size(j), 0, EntryCount(j) - k
  {
    if k < EntryCount(j) {
      var child := EntryValue(j, k);
      SearchFromUnnamed(j, value, attr, maxDepth, path, k + 1);
      if IsObject(child) {
        SearchUnnamed(child, value, attr, maxDepth, path + [EntryKey(j, k)]);
      }
    }
  }

  // ---- The wrappers ----

  /** `f5_get_path_by_value(doc, value)`: undefined without a truthy value;
      otherwise the key path of the first leaf `===` the value. */
  function PathByValue(doc: Option<Json>, value: Option<Json>): (r: Option<Json>)
    requires !ThrowsOnString(DocOrEmpty(doc), value, None)
    ensures !Truthy(value) ==> r == None
    ensures Truthy(value) ==> r == PathText(FirstMatch(Leaves(DocOrEmpty(doc), [], DefaultMaxDepth), value.value))
  {
    if Truthy(value) then SearchFindsFirstLeaf(DocOrEmpty(doc), value.value, DefaultMaxDepth, []); Search(DocOrEmpty(doc), value, None, DefaultMaxDepth, [])
    else Search(DocOrEmpty(doc), value, None, DefaultMaxDepth, [])
  }

  /** `f5_get_property_by_value(doc, value, property)`: without a property
      it is the path search; with one, any answer is the property of a scope
      within the default depth holding a primitive `===` the value, and when
      the property's values are truthy it is that of the first such scope. */
  function PropertyByValue(doc: Option<Json>, value: Option<Json>, property: Option<string>): (r: Option<Json>)
    requires !ThrowsOnString(DocOrEmpty(doc), value, property)
    ensures !Named(property) ==> r == PathByValue(doc, value)
    ensures Named(property) && r.Some? ==>
      exists s :: Reaches(DocOrEmpty(doc), s, 0, DefaultMaxDepth) && Answers(s, value, property.value, r.value)
    ensures Named(property) && AttrTruthy(DocOrEmpty(doc), property.value) ==>
      r == FirstHit(Visits(DocOrEmpty(doc), 0, DefaultMaxDepth), value, property.value)
  {
    var j := DocOrEmpty(doc);
    var r := Search(j, value, property, DefaultMaxDepth, []);
    if !Named(property) then SearchUnnamed(j, value, property, DefaultMaxDepth, []); r
    else if r.Some? && AttrTruthy(j, property.value) then
      SearchAttrSound(j, value, property, DefaultMaxDepth, [], r.value); SearchFindsFirstHit(j, value, property, DefaultMaxDepth, []); r
    else if r.Some? then SearchAttrSound(j, value, property, DefaultMaxDepth, [], r.value); r
    else if AttrTruthy(j, property.value) then SearchFindsFirstHit(j, value, property, DefaultMaxDepth, []); r
    else r
  }

  /** `f5_get_first_property_value(doc, property)`: nothing without a
      property; with one, any answer is the property of a scope within the
      default depth that holds some primitive, and when the property's
      values are truthy it is that of the first such scope. */
  function FirstPropertyValue(doc: Option<Json>, property: Option<string>): (r: Option<Json>)
    requires !ThrowsOnString(DocOrEmpty(doc), None, property)
    ensures !Named(property) ==> r == None
    ensures Named(property) && r.Some? ==>
      exists s :: Reaches(DocOrEmpty(doc), s, 0, DefaultMaxDepth) && Answers(s, None, property.value, r.value)
    ensures Named(property) && AttrTruthy(DocOrEmpty(doc), property.value) ==>
      r == FirstHit(Visits(DocOrEmpty(doc), 0, DefaultMaxDepth), None, property.value)
  {
    var j := DocOrEmpty(doc);
    var r := Search(j, None, property, DefaultMaxDepth, []);
    if !Named(property) then r
    else if r.Some? && AttrTruthy(j, property.value) then
      SearchAttrSound(j, None, property, DefaultMaxDepth, [], r.value); SearchFindsFirstHit(j, None, property, DefaultMaxDepth, []); r
    else if r.Some? then SearchAttrSound(j, None, property, DefaultMaxDepth, [], r.value); r
    else if AttrTruthy(j, property.value) then SearchFindsFirstHit(j, None, property, DefaultMaxDepth, []); r
    else r
  }
}
