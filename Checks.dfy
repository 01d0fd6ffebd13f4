/** The assertion pass of `f5_check_response`: each check names a path in
    the response, an expected value and an operator; the pass records the
    current value and the verdict of each check in the ledger, and stops at
    the first check whose operator is unknown or whose comparison throws. */
module Checks {
  import opened Options
  import opened JsValues
  import opened Ledger
  import opened PathResolver
  import opened Operators

  /** The expected value of a check: a literal, or a custom function, of
      which only the result it returns matters here. */
  datatype Expected = Literal(v: Json) | Custom(ret: Option<Json>)

  /** One element of the `vars` array; `None` is a missing property. */
  datatype CheckSpec = CheckSpec(
    path: Option<string>,
    value: Option<Expected>,
    op: Option<string>,
    test: Option<Json>,
    testname: Option<string>)

  /** A check without a path or an expected value is skipped. */
  predicate Eligible(c: CheckSpec)
  {
    c.path.Some? && c.value.Some?
  }

  /** The check with its defaults filled in: operator `==`, test `true`,
      and the path as its name. */
  function Fill(c: CheckSpec): (r: CheckSpec)
    requires Eligible(c)
    ensures Filled(r) && r.path == c.path && r.value == c.value
    ensures c.op.Some? ==> r.op == c.op
    ensures c.test.Some? ==> r.test == c.test
    ensures c.testname.Some? ==> r.testname == c.testname
    ensures c.op.None? ==> r.op == Some("==")
    ensures c.test.None? ==> r.test == Some(JBool(true))
    ensures c.testname.None? ==> r.testname == c.path
  {
    c.(op := Some(c.op.GetOr("==")),
       test := Some(c.test.GetOr(JBool(true))),
       testname := Some(c.testname.GetOr(c.path.value)))
  }

  /** The `vars` array after a pass reached its first `n` checks: those
      that were not skipped have their defaults filled in. */
  function FilledUpTo(cs: seq<CheckSpec>, n: int): (r: seq<CheckSpec>)
    ensures |r| == |cs|
  {
    seq(|cs|, i requires 0 <= i < |cs| => if i < n && Eligible(cs[i]) then Fill(cs[i]) else cs[i])
  }

  predicate Filled(c: CheckSpec)
  {
    Eligible(c) && c.op.Some? && c.test.Some? && c.testname.Some?
  }

  /** How a pass ends: all checks done, an unknown operator (the function
      returns `undefined`), or an exception raised. */
  datatype PassStatus = Done | BadOp | Raised

  datatype PassState = PassState(status: PassStatus, tests: Ledger)

  /** What a pass depends on besides the checks. */
  datatype CheckContext = CheckContext(doc: Option<Json>, polled: bool, oracle: Oracle)

  function CurrentValueName(testname: string): string
  {
    "[Current Value] " + testname + "="
  }

  function CheckValueName(testname: string, op: string): string
  {
    "[Check Value] " + testname + " " + op + " "
  }

  /** One filled-in check against the ledger `t`. */
  function CheckOne(c: CheckSpec, t: Ledger, ctx: CheckContext): PassState
    requires Filled(c)
  {
    var found := Resolve(ctx.doc, c.path, 0);
    if found.Threw? then PassState(Raised, t)
    else
      var x := if found.Found? then Some(found.value) else None;
      var t1 := if Truthy(x) then Record(t, ctx.polled, CurrentValueName(c.testname.value), Num(1), x, false) else t;
      if !Truthy(c.test) then PassState(Done, t1)
      else
        var name := CheckValueName(c.testname.value, c.op.value);
        match c.value.value
        case Custom(ret) =>
          PassState(Done, Record(t1, ctx.polled, name, Num(if Truthy(ret) then 1 else 0), Some(JStr("[custom function]")), false))
        case Literal(y) =>
          match ParseOp(c.op.value)
          case None => PassState(BadOp, t1)
          case Some(op) =>
            var outcome := Compare(op, x, y, ctx.oracle);
            if outcome.Threw? then PassState(Raised, t1)
            else PassState(Done, Record(t1, ctx.polled, name, outcome.v, Some(y), false))
  }

  /** The pass over `cs`, check by check, starting from the ledger `t`. */
  function RunChecks(cs: seq<CheckSpec>, t: Ledger, ctx: CheckContext): PassState
    decreases |cs|
  {
    if |cs| == 0 then PassState(Done, t)
    else
      var prev := RunChecks(cs[..|cs| - 1], t, ctx);
      var c := cs[|cs| - 1];
      if prev.status != Done || !Eligible(c) then prev
      else CheckOne(Fill(c), prev.tests, ctx)
  }

  /** How many checks the pass reaches: all of them, or up to and
      including the one that stops it. */
  function Reached(cs: seq<CheckSpec>, t: Ledger, ctx: CheckContext): (r: nat)
    ensures r <= |cs|
    ensures RunChecks(cs, t, ctx).status == Done ==> r == |cs|
    ensures RunChecks(cs, t, ctx).status != Done ==> r >= 1
    decreases |cs|
  {
    if |cs| == 0 then 0
    else if RunChecks(cs[..|cs| - 1], t, ctx).status != Done then Reached(cs[..|cs| - 1], t, ctx)
    else |cs|
  }

  /** A check only ever adds or overwrites ledger entries. */
  lemma CheckOneKeepsKeys(c: CheckSpec, t: Ledger, ctx: CheckContext)
    requires Filled(c)
    ensures t.Keys <= CheckOne(c, t, ctx).tests.Keys
  {
  }

  /** Once a pass has stopped, later checks change nothing: an unknown
      operator leaves the entries written so far in place and ignores the
      rest. */
  lemma {:induction false} StopIgnoresRest(cs: seq<CheckSpec>, more: seq<CheckSpec>, t: Ledger, ctx: CheckContext)
    requires RunChecks(cs, t, ctx).status != Done
    ensures RunChecks(cs + more, t, ctx) == RunChecks(cs, t, ctx)
    ensures Reached(cs + more, t, ctx) == Reached(cs, t, ctx)
    decreases |more|
  {
    if |more| > 0 {
      var front := cs + more[..|more| - 1];
      assert (cs + more)[..|cs + more| - 1] == front;
      assert more[..|more| - 1] + [more[|more| - 1]] == more;
      StopIgnoresRest(cs, more[..|more| - 1], t, ctx);
    } else {
      assert cs + more == cs;
    }
  }

  /** One more check: the pass so far, continued by that check. */
  lemma RunChecksStep(cs: seq<CheckSpec>, i: nat, t: Ledger, ctx: CheckContext)
    requires i < |cs| && RunChecks(cs[..i], t, ctx).status == Done
    ensures RunChecks(cs[..i + 1], t, ctx) ==
      if Eligible(cs[i]) then CheckOne(Fill(cs[i]), RunChecks(cs[..i], t, ctx).tests, ctx) else RunChecks(cs[..i], t, ctx)
  {
    assert cs[..i + 1][..i] == cs[..i];
    assert cs[..i + 1][i] == cs[i];
  }

  /** If the pass stops at the check `i`, the whole pass ends there. */
  lemma RunChecksStopsAt(cs: seq<CheckSpec>, i: nat, t: Ledger, ctx: CheckContext)
    requires i < |cs| && RunChecks(cs[..i], t, ctx).status == Done
    requires RunChecks(cs[..i + 1], t, ctx).status != Done
    ensures RunChecks(cs, t, ctx) == RunChecks(cs[..i + 1], t, ctx) && Reached(cs, t, ctx) == i + 1
  {
    assert cs[..i + 1][..i] == cs[..i];
    StopIgnoresRest(cs[..i + 1], cs[i + 1..], t, ctx);
    assert cs[..i + 1] + cs[i + 1..] == cs;
  }

  /** A pass that did not stop reached every check. */
  lemma RunChecksDone(cs: seq<CheckSpec>, t: Ledger, ctx: CheckContext)
    requires RunChecks(cs, t, ctx).status == Done
    ensures Reached(cs, t, ctx) == |cs|
  {
  }

  lemma FilledUpToStep(cs: seq<CheckSpec>, i: nat)
    requires i < |cs|
    ensures FilledUpTo(cs, i + 1) == FilledUpTo(cs, i)[i := if Eligible(cs[i]) then Fill(cs[i]) else cs[i]]
  {
  }

  /** Entries written by a pass stay: the ledger's names only grow. */
  lemma {:induction false} RunChecksKeepsKeys(cs: seq<CheckSpec>, t: Ledger, ctx: CheckContext)
    ensures t.Keys <= RunChecks(cs, t, ctx).tests.Keys
    decreases |cs|
  {
    if |cs| > 0 {
      RunChecksKeepsKeys(cs[..|cs| - 1], t, ctx);
      var prev := RunChecks(cs[..|cs| - 1], t, ctx);
      var c := cs[|cs| - 1];
      if prev.status == Done && Eligible(c) {
        CheckOneKeepsKeys(Fill(c), prev.tests, ctx);
      }
    }
  }

  /** A check whose expected value is a literal and whose operator is not
      one of the twelve stops the pass, after recording the current value. */
  lemma UnknownOpStops(c: CheckSpec, t: Ledger, ctx: CheckContext)
    requires Filled(c) && c.value.value.Literal? && Truthy(c.test)
    requires ParseOp(c.op.value).None?
    requires !Resolve(ctx.doc, c.path, 0).Threw?
    ensures CheckOne(c, t, ctx).status == BadOp
    ensures
      var found := Resolve(ctx.doc, c.path, 0);
      var x := if found.Found? then Some(found.value) else None;
      CheckOne(c, t, ctx).tests ==
        (if Truthy(x) then Record(t, ctx.polled, CurrentValueName(c.testname.value), Num(1), x, false) else t)
  {
  }

  /** A comparison that fails fails the ledger in polled mode, and in
      non-polled mode when it returned the number 0 (`incl`, `notincl`,
      `regex`); a failed comparison that returned `false` is recorded but
      not seen by `f5_all_tests_passed`. */
  lemma FailedCheckInLedger(c: CheckSpec, t: Ledger, ctx: CheckContext)
    requires Filled(c) && c.value.value.Literal? && Truthy(c.test)
    requires ParseOp(c.op.value).Some?
    requires Resolve(ctx.doc, c.path, 0).Found? || Resolve(ctx.doc, c.path, 0).Undefined?
    requires
      var x := if Resolve(ctx.doc, c.path, 0).Found? then Some(Resolve(ctx.doc, c.path, 0).value) else None;
      var outcome := Compare(ParseOp(c.op.value).value, x, c.value.value.v, ctx.oracle);
      outcome.Val? && !Passed(outcome.v)
    ensures CheckOne(c, t, ctx).status == Done
    ensures ctx.polled ==> !AllPassed(CheckOne(c, t, ctx).tests)
    ensures
      var x := if Resolve(ctx.doc, c.path, 0).Found? then Some(Resolve(ctx.doc, c.path, 0).value) else None;
      !ctx.polled && Compare(ParseOp(c.op.value).value, x, c.value.value.v, ctx.oracle) == Val(Num(0)) ==>
        !AllPassed(CheckOne(c, t, ctx).tests)
    ensures
      var x := if Resolve(ctx.doc, c.path, 0).Found? then Some(Resolve(ctx.doc, c.path, 0).value) else None;
      !ctx.polled && AllPassed(t) && Compare(ParseOp(c.op.value).value, x, c.value.value.v, ctx.oracle) != Val(Num(0)) ==>
        AllPassed(CheckOne(c, t, ctx).tests)
  {
    var found := Resolve(ctx.doc, c.path, 0);
    var x := if found.Found? then Some(found.value) else None;
    var t1 := if Truthy(x) then Record(t, ctx.polled, CurrentValueName(c.testname.value), Num(1), x, false) else t;
    var name := CheckValueName(c.testname.value, c.op.value);
    var outcome := Compare(ParseOp(c.op.value).value, x, c.value.value.v, ctx.oracle);
    assert CheckOne(c, t, ctx) == PassState(Done, Record(t1, ctx.polled, name, outcome.v, Some(c.value.value.v), false));
    if ctx.polled {
      RecordPolledFailBreaks(t1, name, outcome.v, Some(c.value.value.v), false);
    } else if outcome.v == Num(0) {
      RecordZeroBreaks(t1, name, Some(c.value.value.v), false);
    } else if AllPassed(t) {
      assert outcome.v == Bool(false);
      if Truthy(x) {
        LabelNotFailure(CurrentValueName(c.testname.value), x);
        RecordPassKeeps(t, false, CurrentValueName(c.testname.value), Num(1), x, false);
      }
      LabelNotFailure(name, Some(c.value.value.v));
      RecordFalseIgnored(t1, name, Some(c.value.value.v), false);
    }
  }

  /** The entry names a check writes begin with `[C`, never with the FAIL
      prefix. */
  lemma LabelNotFailure(name: string, value: Option<Json>)
    requires |name| >= 2 && name[..2] == "[C"
    ensures !StartsWith(TestName(name, value), FailPrefix)
  {
    var n := TestName(name, value);
    assert n[1] == name[1] == 'C';
    assert FailPrefix[1] == 'P';
  }
}
