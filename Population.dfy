/** `f5_populate_env_vars`: each variable spec names an environment
    variable and where its value comes from, a path into the response or a
    custom function; each is recorded in the ledger, found or not. */
module Population {
  import opened Options
  import opened JsValues
  import opened Ledger
  import opened Session
  import opened PathResolver

  /** Where a variable's value comes from: the response at a path (`None`
      when the spec's `value` is not a string), or the result a custom
      function returned (`None` being `undefined`). */
  datatype Source = FromPath(path: Option<string>) | Computed(ret: Option<Json>)

  datatype VarSpec = VarSpec(name: string, source: Source)

  /** What population reads and writes; `raised` records an exception
      thrown by the resolver, which ends the call. */
  datatype PopState = PopState(raised: bool, tests: Ledger, env: map<string, Json>, next: NextReq)

  function PopulateName(name: string): string
  {
    "[Populate Variable] " + name + "="
  }

  /** One spec: a value found (or returned) is stored and recorded as a
      pass; a missing one is recorded as a failure, and for a path the run
      is stopped unless polling or the bypass is on. */
  function PopulateOne(v: VarSpec, s: PopState, doc: Option<Json>, g: Globals): PopState
  {
    var name := PopulateName(v.name);
    match v.source
    case Computed(ret) =>
      if ret.Some? then
        s.(tests := Record(s.tests, g.Polled(), name, Num(1), ret, false), env := s.env[v.name := ret.value])
      else
        s.(tests := Record(s.tests, g.Polled(), name, Num(0), None, false), env := s.env[v.name := JStr("")])
    case FromPath(p) =>
      var found := Resolve(doc, p, 0);
      if found.Threw? then s.(raised := true)
      else if found.Found? && Truthy(Some(found.value)) then
        s.(env := s.env[v.name := found.value], tests := Record(s.tests, g.Polled(), name, Num(1), Some(found.value), false))
      else
        s.(tests := Record(s.tests, g.Polled(), name, Num(0), None, false),
           next := if g.HaltsOnFailure() then Halt else s.next)
  }

  /** The loop over the specs; an exception ends it. */
  function RunPopulate(vs: seq<VarSpec>, s: PopState, doc: Option<Json>, g: Globals): PopState
    decreases |vs|
  {
    if |vs| == 0 then s
    else
      var prev := RunPopulate(vs[..|vs| - 1], s, doc, g);
      if prev.raised then prev else PopulateOne(vs[|vs| - 1], prev, doc, g)
  }

  /** A variable populated from a path holds the value the resolver
      (`f5_get_by_string`) finds there, and its entry passes. */
  lemma PopulatedFromPath(name: string, p: Option<string>, s: PopState, doc: Option<Json>, g: Globals)
    requires Resolve(doc, p, 0).Found? && Truthy(Some(Resolve(doc, p, 0).value))
    requires AllPassed(s.tests)
    requires g.Polled() || !StartsWith(TestName(PopulateName(name), Some(Resolve(doc, p, 0).value)), FailPrefix)
    ensures PopulateOne(VarSpec(name, FromPath(p)), s, doc, g).env == s.env[name := Resolve(doc, p, 0).value]
    ensures AllPassed(PopulateOne(VarSpec(name, FromPath(p)), s, doc, g).tests)
  {
    RecordPassKeeps(s.tests, g.Polled(), PopulateName(name), Num(1), Some(Resolve(doc, p, 0).value), false);
  }

  /** A variable that cannot be populated is recorded as a failure that
      `f5_all_tests_passed` sees, in either mode; a path also stops a
      non-polled run without the bypass, while a custom function's
      `undefined` stores the empty string. */
  lemma MissingVariableFails(v: VarSpec, s: PopState, doc: Option<Json>, g: Globals)
    requires !s.raised
    requires
      match v.source
      case Computed(ret) => ret.None?
      case FromPath(p) => !Resolve(doc, p, 0).Threw? && !(Resolve(doc, p, 0).Found? && Truthy(Some(Resolve(doc, p, 0).value)))
    ensures !PopulateOne(v, s, doc, g).raised
    ensures !AllPassed(PopulateOne(v, s, doc, g).tests)
    ensures v.source.FromPath? && g.HaltsOnFailure() ==> PopulateOne(v, s, doc, g).next == Halt
    ensures v.source.Computed? ==> PopulateOne(v, s, doc, g).env == s.env[v.name := JStr("")]
  {
    if g.Polled() {
      RecordPolledFailBreaks(s.tests, PopulateName(v.name), Num(0), None, false);
    } else {
      RecordZeroBreaks(s.tests, PopulateName(v.name), None, false);
    }
  }

  /** An exception ends the loop: later specs change nothing. */
  lemma {:induction false} RaisedIgnoresRest(vs: seq<VarSpec>, more: seq<VarSpec>, s: PopState, doc: Option<Json>, g: Globals)
    requires RunPopulate(vs, s, doc, g).raised
    ensures RunPopulate(vs + more, s, doc, g) == RunPopulate(vs, s, doc, g)
    decreases |more|
  {
    if |more| > 0 {
      assert (vs + more)[..|vs + more| - 1] == vs + more[..|more| - 1];
      RaisedIgnoresRest(vs, more[..|more| - 1], s, doc, g);
    } else {
      assert vs + more == vs;
    }
  }

  /** Population only sets the variables the specs name. */
  lemma {:induction false} RunPopulateSetsNamed(vs: seq<VarSpec>, s: PopState, doc: Option<Json>, g: Globals, k: string)
    requires forall i :: 0 <= i < |vs| ==> vs[i].name != k
    ensures k in RunPopulate(vs, s, doc, g).env <==> k in s.env
    ensures k in s.env ==> RunPopulate(vs, s, doc, g).env[k] == s.env[k]
    decreases |vs|
  {
    if |vs| > 0 {
      RunPopulateSetsNamed(vs[..|vs| - 1], s, doc, g, k);
    }
  }
}
