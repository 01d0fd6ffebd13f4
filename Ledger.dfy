/** The result ledger, Postman's `tests` object: `f5_set_test_result`
    writes one entry per call and `f5_all_tests_passed` reads them all.
    In polled mode a verdict travels in the entry's name, so that the
    poller can retry without Postman counting a failure. */
module Ledger {
  import opened Options
  import opened JsValues

  /** What an entry holds: the library stores numbers (1 and 0) and the
      booleans comparisons return. */
  datatype LedgerVal = Num(n: int) | Bool(b: bool)

  type Ledger = map<string, LedgerVal>

  const PassPrefix := "[Polled] [PASS] "
  const FailPrefix := "[Polled] [FAIL] "

  /** JavaScript truthiness of a stored result. */
  predicate Passed(v: LedgerVal)
  {
    match v
    case Num(n) => n != 0
    case Bool(b) => b
  }

  /** `s.startsWith(p)`. */
  predicate StartsWith(s: string, p: string)
  {
    |s| >= |p| && s[..|p|] == p
  }

  /** The entry name for a test: the base name followed by the value it
      conveys, an object (or null) as `JSON.stringify` writes it, anything
      else as string concatenation does; no value, no suffix. */
  function TestName(name: string, value: Option<Json>): string
  {
    match value
    case None => name
    case Some(v) => name + (if IsObject(v) then Stringify(v) else ToStr(v))
  }

  /** The entry `f5_set_test_result` writes: the test name itself when not
      polled, otherwise the name under the PASS or FAIL prefix. */
  function WrittenKey(polled: bool, name: string, result: LedgerVal, value: Option<Json>): string
  {
    var base := TestName(name, value);
    if !polled then base
    else if Passed(result) then PassPrefix + base
    else FailPrefix + base
  }

  /** The value written: the result itself when not polled; in polled mode
      1, except a failure written with the override, which is 0. */
  function WrittenValue(polled: bool, result: LedgerVal, pollOverride: bool): LedgerVal
  {
    if !polled then result
    else if Passed(result) then Num(1)
    else if pollOverride then Num(0) else Num(1)
  }

  /** The ledger after `f5_set_test_result(name, result, value, polloverride)`;
      `pollOverride` says whether a fourth argument was passed at all. */
  function Record(t: Ledger, polled: bool, name: string, result: LedgerVal, value: Option<Json>, pollOverride: bool): (r: Ledger)
    ensures r.Keys == t.Keys + {WrittenKey(polled, name, result, value)}
    ensures forall k :: k in t && k != WrittenKey(polled, name, result, value) ==> r[k] == t[k]
    ensures r[WrittenKey(polled, name, result, value)] == WrittenValue(polled, result, pollOverride)
  {
    t[WrittenKey(polled, name, result, value) := WrittenValue(polled, result, pollOverride)]
  }

  /** What is stored: the result as given when not polled; 1 for a polled
      pass, and for a polled failure 0 with the override and 1 without. */
  lemma WrittenValueCases(polled: bool, result: LedgerVal, pollOverride: bool)
    ensures !polled ==> WrittenValue(polled, result, pollOverride) == result
    ensures polled && Passed(result) ==> WrittenValue(polled, result, pollOverride) == Num(1)
    ensures polled && !Passed(result) ==> WrittenValue(polled, result, pollOverride) == (if pollOverride then Num(0) else Num(1))
  {
  }

  /** An entry that `f5_all_tests_passed` accepts: its name does not carry
      the FAIL prefix, and its value is not the number 0. */
  predicate EntryPasses(k: string, v: LedgerVal)
  {
    !StartsWith(k, FailPrefix) && v != Num(0)
  }

  /** `f5_all_tests_passed()`. */
  predicate AllPassed(t: Ledger)
  {
    forall k :: k in t ==> EntryPasses(k, t[k])
  }

  /** In polled mode the verdict can be read back from the entry's name,
      and the value is 0 exactly for an overridden failure. */
  lemma PolledVerdictInName(name: string, result: LedgerVal, value: Option<Json>, pollOverride: bool)
    ensures StartsWith(WrittenKey(true, name, result, value), PassPrefix) <==> Passed(result)
    ensures StartsWith(WrittenKey(true, name, result, value), FailPrefix) <==> !Passed(result)
    ensures WrittenValue(true, result, pollOverride) == Num(0) <==> !Passed(result) && pollOverride
  {
    var key := WrittenKey(true, name, result, value);
    var base := TestName(name, value);
    if Passed(result) {
      assert key[..|PassPrefix|] == PassPrefix;
      assert key[10] == 'P' && FailPrefix[10] == 'F';
    } else {
      assert key[..|FailPrefix|] == FailPrefix;
      assert key[10] == 'F' && PassPrefix[10] == 'P';
    }
  }

  /** After a write the ledger passes exactly when the other entries pass
      and so does the one written. */
  lemma RecordAllPassed(t: Ledger, polled: bool, name: string, result: LedgerVal, value: Option<Json>, pollOverride: bool)
    ensures
      var key := WrittenKey(polled, name, result, value);
      AllPassed(Record(t, polled, name, result, value, pollOverride)) <==>
        AllPassed(t - {key}) && EntryPasses(key, WrittenValue(polled, result, pollOverride))
  {
    var key := WrittenKey(polled, name, result, value);
    var r := Record(t, polled, name, result, value, pollOverride);
    assert key in r;
    if AllPassed(t - {key}) && EntryPasses(key, WrittenValue(polled, result, pollOverride)) {
      forall k | k in r
        ensures EntryPasses(k, r[k])
      {
        if k != key {
          assert k in t - {key};
        }
      }
    }
  }

  /** A passing result keeps a passing ledger passing (in non-polled mode,
      unless the test's own name carries the FAIL prefix). */
  lemma RecordPassKeeps(t: Ledger, polled: bool, name: string, result: LedgerVal, value: Option<Json>, pollOverride: bool)
    requires AllPassed(t) && Passed(result)
    requires polled || !StartsWith(TestName(name, value), FailPrefix)
    ensures AllPassed(Record(t, polled, name, result, value, pollOverride))
  {
    RecordAllPassed(t, polled, name, result, value, pollOverride);
    if polled {
      PolledVerdictInName(name, result, value, pollOverride);
    }
  }

  /** In polled mode a failure always fails the ledger, overridden or not. */
  lemma RecordPolledFailBreaks(t: Ledger, name: string, result: LedgerVal, value: Option<Json>, pollOverride: bool)
    requires !Passed(result)
    ensures !AllPassed(Record(t, true, name, result, value, pollOverride))
  {
    PolledVerdictInName(name, result, value, pollOverride);
    RecordAllPassed(t, true, name, result, value, pollOverride);
  }

  /** In non-polled mode a stored 0 fails the ledger ... */
  lemma RecordZeroBreaks(t: Ledger, name: string, value: Option<Json>, pollOverride: bool)
    ensures !AllPassed(Record(t, false, name, Num(0), value, pollOverride))
  {
    RecordAllPassed(t, false, name, Num(0), value, pollOverride);
  }

  /** ... but a stored `false` does not: `f5_all_tests_passed` only looks
      for values `=== 0`, so a failed comparison recorded as a boolean
      leaves a passing ledger passing. */
  lemma RecordFalseIgnored(t: Ledger, name: string, value: Option<Json>, pollOverride: bool)
    requires AllPassed(t) && !StartsWith(TestName(name, value), FailPrefix)
    ensures AllPassed(Record(t, false, name, Bool(false), value, pollOverride))
  {
    RecordAllPassed(t, false, name, Bool(false), value, pollOverride);
  }
}
