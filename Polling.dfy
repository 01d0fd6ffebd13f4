/** The poller, `f5_poll_until_all_tests_pass`: after each try of an
    item it advances to the next item when the ledger passes, gives up when
    the try counter has reached the maximum, and otherwise schedules the
    item again, directly after a blocking wait or through the delay item. */
module Polling {
  import opened Text
  import opened Ledger
  import opened Session

  /** The item the external delay goes through; it calls back into the
      polled item. */
  const DelayItem := "_F5_POLL_DELAY"
  const MaxTriesName := "[Poller] Max Tries Reached"

  /** The entry recording a try, `"[Poller] Try i of m"`. */
  function TryName(g: Globals): string
  {
    "[Poller] Try " + IntToString(g.pollIterator) + " of " + IntToString(g.pollMaxTries)
  }

  datatype Decision = Advance | Exhausted | Retry

  /** Which of the three branches a call takes. */
  function Decide(passed: bool, counter: int, maxTries: int): Decision
  {
    if passed then Advance
    else if counter >= maxTries then Exhausted
    else Retry
  }

  /** What the poller reads and writes. */
  datatype PollState = PollState(tests: Ledger, g: Globals, next: NextReq)

  /** One call of `f5_poll_until_all_tests_pass(nextItem, curr)`; the
      verdict is taken after the try entry is written. The try and
      max-tries entries are written into the ledger directly, not through
      the polled encoding. */
  function Poll(s: PollState, nextItem: string, curr: string): PollState
  {
    var t := s.tests[TryName(s.g) := Num(1)];
    match Decide(AllPassed(t), s.g.pollIterator, s.g.pollMaxTries)
    case Advance => PollState(t, s.g.(pollIterator := 1), Goto(nextItem))
    case Exhausted =>
      PollState(t[MaxTriesName := Num(0)], s.g.(pollIterator := 1), if s.g.Bypass() then s.next else Halt)
    case Retry =>
      if s.g.pollIterator != s.g.pollMaxTries then
        var g := s.g.(pollIterator := s.g.pollIterator + 1);
        if s.g.pollUseInternal == 1 then PollState(t, g.(pollCurr := ""), Goto(curr))
        else PollState(t, g.(pollCurr := curr), Goto(DelayItem))
      else PollState(t, s.g, s.next)
  }

  /** The names of try entries. */
  predicate IsTryName(k: string)
  {
    StartsWith(k, "[Poller] Try ")
  }

  /** The try entry is not a polled failure. */
  lemma TryNameNotFailure(g: Globals)
    ensures !StartsWith(TryName(g), FailPrefix)
    ensures TryName(g) != MaxTriesName
    ensures IsTryName(TryName(g))
  {
    var n := TryName(g);
    assert n[..13] == "[Poller] Try ";
    assert n[6] == 'r' && FailPrefix[6] == 'd';
    assert MaxTriesName[9] == 'M' && n[9] == 'T';
  }

  /** A passing ledger advances to the next item and resets the counter. */
  lemma PassingAdvances(s: PollState, nextItem: string, curr: string)
    requires AllPassed(s.tests)
    ensures Poll(s, nextItem, curr).next == Goto(nextItem)
    ensures Poll(s, nextItem, curr).g == s.g.(pollIterator := 1)
  {
    TryNameNotFailure(s.g);
    var t := s.tests[TryName(s.g) := Num(1)];
    assert AllPassed(t) by {
      forall k | k in t
        ensures EntryPasses(k, t[k])
      {
        if k != TryName(s.g) {
          assert k in s.tests;
        }
      }
    }
  }

  /** The counter stays between 1 and the maximum. */
  lemma IteratorInRange(s: PollState, nextItem: string, curr: string)
    requires 1 <= s.g.pollIterator <= s.g.pollMaxTries
    ensures 1 <= Poll(s, nextItem, curr).g.pollIterator <= s.g.pollMaxTries
    ensures Poll(s, nextItem, curr).g.pollMaxTries == s.g.pollMaxTries
  {
  }

  /** A ledger holding a failing entry that no try entry overwrites: a
      polled failure, or a non-polled result stored as 0 (a failed response
      code, a missing variable, an overridden `f5_test_check`). */
  predicate HasLastingFailure(t: Ledger)
  {
    exists k :: k in t && !IsTryName(k) && !EntryPasses(k, t[k])
  }

  /** Every polled failure is a lasting one. */
  lemma PolledFailureLasts(t: Ledger, k: string)
    requires k in t && StartsWith(k, FailPrefix)
    ensures HasLastingFailure(t)
  {
    assert k[6] == FailPrefix[6] == 'd';
    assert "[Poller] Try "[6] == 'r';
  }

  /** `n` consecutive calls. */
  function Run(s: PollState, n: nat, nextItem: string, curr: string): PollState
    decreases n
  {
    if n == 0 then s else Run(Poll(s, nextItem, curr), n - 1, nextItem, curr)
  }

  /** While a lasting failure stays in the ledger, each call before the
      maximum retries: the counter goes up by one, the poller's settings
      stay, and the retry goes straight back to `curr` after the internal
      wait (clearing the stored item), or else through the delay item with
      `curr` stored for it. */
  lemma {:induction false} FailingRetries(s: PollState, n: nat, nextItem: string, curr: string)
    requires HasLastingFailure(s.tests)
    requires 1 <= s.g.pollIterator && s.g.pollIterator + n <= s.g.pollMaxTries
    ensures HasLastingFailure(Run(s, n, nextItem, curr).tests)
    ensures Run(s, n, nextItem, curr).g.pollIterator == s.g.pollIterator + n
    ensures Run(s, n, nextItem, curr).g.pollMaxTries == s.g.pollMaxTries
    ensures Run(s, n, nextItem, curr).g.bypassTimeout == s.g.bypassTimeout
    ensures Run(s, n, nextItem, curr).g.pollUseInternal == s.g.pollUseInternal
    ensures n > 0 ==> Run(s, n, nextItem, curr).next == (if s.g.pollUseInternal == 1 then Goto(curr) else Goto(DelayItem))
    ensures n > 0 ==> Run(s, n, nextItem, curr).g.pollCurr == (if s.g.pollUseInternal == 1 then "" else curr)
    decreases n
  {
    if n > 0 {
      var k :| k in s.tests && !IsTryName(k) && !EntryPasses(k, s.tests[k]);
      var p := Poll(s, nextItem, curr);
      var t := s.tests[TryName(s.g) := Num(1)];
      TryNameNotFailure(s.g);
      assert k in t && t[k] == s.tests[k];
      assert !AllPassed(t);
      assert p.tests == t;
      FailingRetries(p, n - 1, nextItem, curr);
    }
  }

  /** Starting from 1 with a lasting failure, the first `maxTries - 1`
      calls retry and the `maxTries`-th call gives up: it records the
      max-tries failure, resets the counter and, without the bypass,
      stops the run; with the bypass it leaves the next request alone. */
  lemma ExhaustsAtMaxTries(s: PollState, nextItem: string, curr: string)
    requires HasLastingFailure(s.tests)
    requires s.g.pollIterator == 1 <= s.g.pollMaxTries
    ensures
      var before := Run(s, s.g.pollMaxTries - 1, nextItem, curr);
      var after := Poll(before, nextItem, curr);
      before.g.pollIterator == s.g.pollMaxTries &&
      after.g.pollIterator == 1 &&
      MaxTriesName in after.tests && after.tests[MaxTriesName] == Num(0) &&
      (!s.g.Bypass() ==> after.next == Halt) &&
      (s.g.Bypass() ==> after.next == before.next)
  {
    var before := Run(s, s.g.pollMaxTries - 1, nextItem, curr);
    FailingRetries(s, s.g.pollMaxTries - 1, nextItem, curr);
    var k :| k in before.tests && !IsTryName(k) && !EntryPasses(k, before.tests[k]);
    var t := before.tests[TryName(before.g) := Num(1)];
    TryNameNotFailure(before.g);
    assert k in t && t[k] == before.tests[k];
    assert !AllPassed(t);
  }
}
