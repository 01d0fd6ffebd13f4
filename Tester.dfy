/** `f5_test_check`: the ledger is compared with a reference list of
    entry names and the values they should hold. */
module Tester {
  import opened Options
  import opened Ledger

  const TesterName := "[Tester] All Tests Passed"

  /** Every listed entry is present and holds, `===`, the listed value. */
  predicate Matches(t: Ledger, expected: seq<(string, LedgerVal)>)
  {
    forall i :: 0 <= i < |expected| ==> expected[i].0 in t && t[expected[i].0] == expected[i].1
  }

  /** The ledger after the check: the verdict is recorded under the
      tester's name, with the polled override. */
  function TestCheckLedger(t: Ledger, polled: bool, expected: seq<(string, LedgerVal)>): Ledger
  {
    Record(t, polled, TesterName, Num(if Matches(t, expected) then 1 else 0), None, true)
  }

  /** The tester's verdict reaches `f5_all_tests_passed`: after the check
      the ledger passes only if the reference matched, and a match keeps a
      passing ledger passing. */
  lemma TestCheckVerdict(t: Ledger, polled: bool, expected: seq<(string, LedgerVal)>)
    ensures AllPassed(TestCheckLedger(t, polled, expected)) ==> Matches(t, expected)
    ensures Matches(t, expected) && AllPassed(t) ==> AllPassed(TestCheckLedger(t, polled, expected))
  {
    var result := Num(if Matches(t, expected) then 1 else 0);
    assert !StartsWith(TesterName, FailPrefix) by {
      assert TesterName[1] == 'T' && FailPrefix[1] == 'P';
    }
    if !Matches(t, expected) {
      if polled {
        RecordPolledFailBreaks(t, TesterName, result, None, true);
      } else {
        RecordZeroBreaks(t, TesterName, None, true);
      }
    } else if AllPassed(t) {
      RecordPassKeeps(t, polled, TesterName, result, None, true);
    }
  }
}
