/** The library's entry points as they act on Postman's state: the ledger
    (`tests`), the environment, the globals and the next request. Each
    method is proved against the function that specifies it. */
module Workflows {
  import opened Options
  import opened Text
  import opened JsValues
  import opened Ledger
  import opened Session
  import opened Classifier
  import opened PathResolver
  import opened Operators
  import opened Checks
  import opened Population
  import opened Polling
  import opened RuntimeVars
  import opened Tester

  /** `f5_get_version()`: the major and minor parts joined by a dot. */
  function Version(): (r: string)
    ensures r == "1.0.0"
  {
    var major := "1.0";
    var minor := "0";
    major + "." + minor
  }

  /** The Postman sandbox one script runs in. */
  class Host {
    var tests: Ledger
    var env: map<string, Json>
    var globals: Globals
    var next: NextReq

    /** `request.method`, `request.name`, `responseCode.code`. */
    const httpMethod: string
    const requestName: string
    const responseCode: int
    /** The parsed response body (`f5_parse_json_resp()`), absent when
        there is none. */
    const doc: Option<Json>
    const oracle: Oracle

    constructor(httpMethod: string, requestName: string, responseCode: int, doc: Option<Json>, oracle: Oracle,
                tests: Ledger, env: map<string, Json>, globals: Globals)
      ensures this.httpMethod == httpMethod && this.requestName == requestName
      ensures this.responseCode == responseCode && this.doc == doc && this.oracle == oracle
      ensures this.tests == tests && this.env == env && this.globals == globals && next == Unchanged
    {
      this.httpMethod := httpMethod;
      this.requestName := requestName;
      this.responseCode := responseCode;
      this.doc := doc;
      this.oracle := oracle;
      this.tests := tests;
      this.env := env;
      this.globals := globals;
      next := Unchanged;
    }

    /** The ledger after the response code check writes its entry. */
    function CodeLedger(t: Ledger, extend404: bool): Ledger
      reads this
    {
      Record(t, globals.Polled(), CodeTestName(httpMethod), Num(if Classify(httpMethod, responseCode, extend404) == Fail then 0 else 1),
             Some(JNum(responseCode)), false)
    }

    function Ctx(): CheckContext
      reads this
    {
      CheckContext(doc, globals.Polled(), oracle)
    }

    /** `f5_set_test_result(name, result, value, polloverride)`. */
    method SetTestResult(name: string, result: LedgerVal, value: Option<Json>, pollOverride: bool)
      modifies this
      ensures tests == Record(old(tests), globals.Polled(), name, result, value, pollOverride)
      ensures env == old(env) && globals == old(globals) && next == old(next)
    {
      var testName := TestName(name, value);
      if !globals.Polled() {
        tests := tests[testName := result];
        return;
      }
      if Passed(result) {
        tests := tests[PassPrefix + testName := Num(1)];
      } else {
        tests := tests[FailPrefix + testName := if pollOverride then Num(0) else Num(1)];
      }
    }

    /** `f5_all_tests_passed()`: the loop over the ledger's entries. */
    method AllTestsPassed() returns (r: bool)
      ensures r == AllPassed(tests)
    {
      var pending := tests.Keys;
      while pending != {}
        invariant pending <= tests.Keys
        invariant forall k :: k in tests && k !in pending ==> EntryPasses(k, tests[k])
        decreases pending
      {
        var k :| k in pending;
        if StartsWith(k, FailPrefix) {
          return false;
        }
        if tests[k] == Num(0) {
          return false;
        }
        pending := pending - {k};
      }
      return true;
    }

    /** `f5_check_response_code(mode)`; `extend404` says whether `mode` was
        passed. */
    method CheckResponseCode(extend404: bool) returns (r: CodeClass)
      modifies this
      ensures r == Classify(httpMethod, responseCode, extend404)
      ensures tests == CodeLedger(old(tests), extend404)
      ensures env == old(env) && globals == old(globals) && next == old(next)
    {
      var okCodes := OkCodes(httpMethod, extend404);
      var testName := CodeTestName(httpMethod);
      if okCodes.Some? && responseCode in okCodes.value {
        SetTestResult(testName, Num(1), Some(JNum(responseCode)), false);
        return SuccessMethod;
      }
      if 200 <= responseCode < 300 {
        SetTestResult(testName, Num(1), Some(JNum(responseCode)), false);
        return Success2xx;
      }
      SetTestResult(testName, Num(0), Some(JNum(responseCode)), false);
      return Fail;
    }

    /** The body of the loop of `f5_check_response` for one filled-in check. */
    method RunCheck(c: CheckSpec) returns (status: PassStatus)
      requires Filled(c)
      modifies this
      ensures PassState(status, tests) == CheckOne(c, old(tests), Ctx())
      ensures env == old(env) && globals == old(globals) && next == old(next)
    {
      var found := GetByString(doc, c.path, 0);
      if found.Threw? {
        return Raised;
      }
      var x := if found.Found? then Some(found.value) else None;
      if Truthy(x) {
        SetTestResult(CurrentValueName(c.testname.value), Num(1), x, false);
      }
      if !Truthy(c.test) {
        return Done;
      }
      var checkName := CheckValueName(c.testname.value, c.op.value);
      match c.value.value {
        case Custom(ret) =>
          SetTestResult(checkName, Num(if Truthy(ret) then 1 else 0), Some(JStr("[custom function]")), false);
          return Done;
        case Literal(y) =>
          var op := ParseOp(c.op.value);
          if op.None? {
            return BadOp;
          }
          var outcome := Compare(op.value, x, y, oracle);
          if outcome.Threw? {
            return Raised;
          }
          SetTestResult(checkName, outcome.v, Some(y), false);
          return Done;
      }
    }

    /** `f5_check_response(vars)`, `null` standing for `undefined`: the
        response code is checked; if it fails, the run stops (unless polling
        or the bypass is on); otherwise the checks are run in order, their
        defaults filled in in place, until one stops the pass. */
    method CheckResponse(vars: array?<CheckSpec>) returns (status: PassStatus)
      modifies this, vars
      ensures globals == old(globals) && env == old(env)
      ensures vars == null ==> status == Done && tests == CodeLedger(old(tests), false) && next == old(next)
      ensures vars != null && Classify(httpMethod, responseCode, false) == Fail ==>
        status == Done && tests == CodeLedger(old(tests), false) && vars[..] == old(vars[..]) &&
        next == (if globals.HaltsOnFailure() then Halt else old(next))
      ensures vars != null && Classify(httpMethod, responseCode, false) != Fail ==>
        var pass := RunChecks(old(vars[..]), CodeLedger(old(tests), false), Ctx());
        status == pass.status && tests == pass.tests && next == old(next) &&
        vars[..] == FilledUpTo(old(vars[..]), Reached(old(vars[..]), CodeLedger(old(tests), false), Ctx()))
    {
      if vars == null {
        var _ := CheckResponseCode(false);
        return Done;
      }
      var cls := CheckResponseCode(false);
      if cls == Fail {
        if globals.HaltsOnFailure() {
          next := Halt;
        }
        return Done;
      }
      var cs := vars[..];
      var t0 := tests;
      var i := 0;
      while i < vars.Length
        invariant 0 <= i <= vars.Length
        invariant RunChecks(cs[..i], t0, Ctx()) == PassState(Done, tests)
        invariant vars[..] == FilledUpTo(cs, i)
        invariant globals == old(globals) && env == old(env) && next == old(next)
      {
        RunChecksStep(cs, i, t0, Ctx());
        FilledUpToStep(cs, i);
        var c := vars[i];
        if Eligible(c) {
          c := Fill(c);
          vars[i] := c;
          var st := RunCheck(c);
          if st != Done {
            RunChecksStopsAt(cs, i, t0, Ctx());
            return st;
          }
        }
        i := i + 1;
      }
      assert cs[..i] == cs;
      RunChecksDone(cs, t0, Ctx());
      return Done;
    }

    /** The body of the loop of `f5_populate_env_vars` for one spec. */
    method PopulateVar(v: VarSpec) returns (raised: bool)
      modifies this
      ensures PopState(raised, tests, env, next) == PopulateOne(v, PopState(false, old(tests), old(env), old(next)), doc, globals)
      ensures globals == old(globals)
    {
      var testName := PopulateName(v.name);
      match v.source {
        case Computed(ret) =>
          if ret.Some? {
            SetTestResult(testName, Num(1), ret, false);
            env := env[v.name := ret.value];
          } else {
            SetTestResult(testName, Num(0), None, false);
            env := env[v.name := JStr("")];
          }
        case FromPath(p) =>
          var found := GetByString(doc, p, 0);
          if found.Threw? {
            return true;
          }
          if found.Found? && Truthy(Some(found.value)) {
            env := env[v.name := found.value];
            SetTestResult(testName, Num(1), Some(found.value), false);
          } else {
            SetTestResult(testName, Num(0), None, false);
            if globals.HaltsOnFailure() {
              next := Halt;
            }
          }
      }
      return false;
    }

    /** `f5_populate_env_vars(vars)`, `None` standing for a falsy `vars`. */
    method PopulateEnvVars(vars: Option<seq<VarSpec>>) returns (raised: bool)
      modifies this
      ensures globals == old(globals)
      ensures vars.None? ==> !raised && tests == old(tests) && env == old(env) && next == old(next)
      ensures vars.Some? && Classify(httpMethod, responseCode, false) == Fail ==>
        !raised && tests == CodeLedger(old(tests), false) && env == old(env) &&
        next == (if globals.HaltsOnFailure() then Halt else old(next))
      ensures vars.Some? && Classify(httpMethod, responseCode, false) != Fail ==>
        PopState(raised, tests, env, next) ==
          RunPopulate(vars.value, PopState(false, CodeLedger(old(tests), false), old(env), old(next)), doc, globals)
    {
      if vars.None? {
        return false;
      }
      var cls := CheckResponseCode(false);
      if cls == Fail {
        if globals.HaltsOnFailure() {
          next := Halt;
        }
        return false;
      }
      var vs := vars.value;
      var s0 := PopState(false, tests, env, next);
      var i := 0;
      while i < |vs|
        invariant 0 <= i <= |vs|
        invariant RunPopulate(vs[..i], s0, doc, globals) == PopState(false, tests, env, next)
        invariant globals == old(globals)
      {
        assert vs[..i + 1][..i] == vs[..i];
        var r := PopulateVar(vs[i]);
        if r {
          RaisedIgnoresRest(vs[..i + 1], vs[i + 1..], s0, doc, globals);
          assert vs[..i + 1] + vs[i + 1..] == vs;
          return true;
        }
        i := i + 1;
      }
      assert vs[..i] == vs;
      return false;
    }

    /** `f5_poll_until_all_tests_pass(nextItem, curr)`; an absent `curr` is
        the current request's name. The blocking wait of the internal
        sleep is not modelled. */
    method PollUntilAllTestsPass(nextItem: string, curr: Option<string>)
      modifies this
      ensures
        var s := Poll(PollState(old(tests), old(globals), old(next)), nextItem, curr.GetOr(requestName));
        tests == s.tests && globals == s.g && next == s.next
      ensures env == old(env)
    {
      var current := if curr.Some? then curr.value else requestName;
      tests := tests[TryName(globals) := Num(1)];
      var passed := AllTestsPassed();
      if passed {
        globals := globals.(pollIterator := 1);
        next := Goto(nextItem);
        return;
      }
      if globals.pollIterator >= globals.pollMaxTries {
        tests := tests[MaxTriesName := Num(0)];
        globals := globals.(pollIterator := 1);
        if !globals.Bypass() {
          next := Halt;
        }
        return;
      }
      if globals.pollIterator != globals.pollMaxTries {
        var i := globals.pollIterator;
        i := i + 1;
        globals := globals.(pollIterator := i);
        if globals.pollUseInternal == 1 {
          next := Goto(current);
          globals := globals.(pollCurr := "");
        } else {
          globals := globals.(pollCurr := current);
          next := Goto(DelayItem);
        }
      }
    }

    /** `f5_poll_next()`, run by the delay item: back to the polled item if
        the delay's response code passes, otherwise stop. */
    method PollNext()
      modifies this
      ensures tests == CodeLedger(old(tests), false)
      ensures next == if Classify(httpMethod, responseCode, false) != Fail then Goto(old(globals).pollCurr) else Halt
      ensures globals == old(globals).(pollCurr := "")
      ensures env == old(env)
    {
      var cls := CheckResponseCode(false);
      if cls != Fail {
        next := Goto(globals.pollCurr);
      } else {
        next := Halt;
      }
      globals := globals.(pollCurr := "");
    }

    /** `f5_clear_runtime_vars(del)`: the loop over the environment's
        names, then the feedback entry, written directly. */
    method ClearRuntimeVars(del: Option<Json>)
      modifies this
      ensures env == Cleared(old(env), Truthy(del))
      ensures tests == old(tests)[ClearedName := Num(1)]
      ensures globals == old(globals) && next == old(next)
    {
      var remove := Truthy(del);
      var pending := env.Keys;
      ghost var env0 := env;
      while pending != {}
        invariant pending <= env0.Keys
        invariant forall k :: k in pending ==> (k in env && env[k] == env0[k])
        invariant forall k :: k !in pending && k in env0 ==>
          (k in env <==> !(remove && IsRuntime(k))) && (k in env ==> env[k] == (if IsRuntime(k) then JStr("") else env0[k]))
        invariant forall k :: k in env ==> k in env0
        invariant tests == old(tests) && globals == old(globals) && next == old(next)
        decreases pending
      {
        var k :| k in pending;
        if StartsWith(k, RuntimePrefix) {
          if remove {
            env := env - {k};
          } else {
            env := env[k := JStr("")];
          }
        }
        pending := pending - {k};
      }
      assert env == Cleared(env0, remove);
      tests := tests[ClearedName := Num(1)];
    }

    /** `f5_test_check(expected)`: the loop looks for the first entry that
        differs from the reference; the verdict is recorded with the polled
        override, and a mismatch stops a non-polled run. */
    method TestCheck(expected: seq<(string, LedgerVal)>)
      modifies this
      ensures tests == TestCheckLedger(old(tests), globals.Polled(), expected)
      ensures next == if !Matches(old(tests), expected) && !globals.Polled() then Halt else old(next)
      ensures env == old(env) && globals == old(globals)
    {
      var i := 0;
      while i < |expected|
        invariant 0 <= i <= |expected|
        invariant forall j :: 0 <= j < i ==> expected[j].0 in tests && tests[expected[j].0] == expected[j].1
      {
        var name := expected[i].0;
        if !(name in tests && tests[name] == expected[i].1) {
          SetTestResult(TesterName, Num(0), None, true);
          if !globals.Polled() {
            next := Halt;
          }
          return;
        }
        i := i + 1;
      }
      SetTestResult(TesterName, Num(1), None, true);
    }
  }
}
