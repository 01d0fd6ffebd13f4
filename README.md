# F5 Postman workflows, modelled in Dafny

`framework/f5-postman-workflows.js` is a helper library for Postman
collections. It runs inside Postman's script sandbox. It checks HTTP
responses, copies values out of JSON responses into environment variables,
records every verdict in Postman's `tests` object (the *ledger*), and drives
a polling loop that repeats a request until all of its tests pass.

This project models the library's core and proves properties of that model.

- **Sandbox state.** The state the library changes in place is the class
  `Workflows.Host`. Its fields are the ledger, the environment, the global
  variables and the next request.
- **Entry points.** Each entry point is a method of `Host`. Its contract ties
  the new state to a pure function of the old state.
- **Pure parts.** Their properties are lemmas over datatypes. These parts are
  the ledger encoding, the response-code classifier, the comparison
  operators, the dot-path resolver and the depth-limited JSON search.

Modules, in dependency order:

- `Options`, `Text`: `Option`, and the JavaScript string operations the
  library uses.
  - `join`
  - `split` on one character
  - `includes`
  - `replace` with a string pattern
  - `toLowerCase`
  - numerals
- `JsValues`: parsed JSON documents.
  - A document is a datatype whose objects are ordered field lists, in
    `for...in` order.
  - Truthiness, `in`, `===`, `String()` and `JSON.stringify`.
- `Ledger`: what `f5_set_test_result` writes and what `f5_all_tests_passed`
  accepts.
- `Session`: the global variables, read as integers, and the next-request
  value.
- `Classifier`: `f5_check_response_code`.
- `PathResolver`: `f5_get_by_string`, and a path writer `JoinPath` that it
  inverts.
- `JsonSearch`: `f5_search_json` and its three wrappers. The search is
  compared with two reference definitions:
  - the leaves in visiting order, for value-only mode;
  - the scopes in visiting order, for the attribute modes.
- `Operators`: the twelve match operators of `f5_check_response`.
- `Checks`: the assertion pass of `f5_check_response`, check by check.
- `Population`: the loop of `f5_populate_env_vars`.
- `Polling`: `f5_poll_until_all_tests_pass` as a state transition. It also
  covers runs of consecutive calls.
- `RuntimeVars`: `f5_clear_runtime_vars`.
- `Tester`: `f5_test_check`.
- `Workflows`: `f5_get_version` and the `Host` class.

### Exceptions and host values

- **Exceptions are outcomes, not preconditions.** Some expressions throw a
  TypeError in JavaScript: `k in o` when `o` is not an object, and `.length`
  of `undefined` or `null`. The model returns these as an explicit outcome:
  - `Resolved.Threw` from the path walk;
  - `Outcome.Threw` from the `length` operator.

  The loops stop on them: `PassStatus.Raised` in the checks pass, and the
  `raised` result of the population loop.
- **One exception is a precondition.** The search throws when it evaluates
  `attr in` a string document. That happens only when the search is called
  directly on a string. It is excluded with the precondition
  `!ThrowsOnString(...)`.
- **Values the host supplies are inputs.** These are:
  - the parsed response body;
  - `request.method` and `request.name`;
  - `responseCode.code`;
  - the results of user-supplied custom functions.

### Behaviour of the code that its comments do not spell out

The model follows the code in each of these cases.

- **The response-code table.** The comment at lines 333-334 says a `mode`
  argument adds 404 to GET's `okCodes`. The code rebuilds `okCodes` on every
  call (line 340), so the extra 404 applies only to the call that passes
  `mode`. See `Classifier.ExtensionOnlyGet404`.
- **Lookups that throw.** The comment at line 642 says `f5_get_by_string`
  returns the JSON object at a dot-notation path. The code yields `undefined`
  at the first missing name (line 665). But `k in o` throws a TypeError when
  the document is absent (line 662), and also when the walk reaches a
  primitive before the path ends. See `PathResolver.GetByString` and
  `PathResolver.WalkAppend`.
- **The `Null` answer of the search.** The comment at line 535 lists `Null`
  among the search's answers. A branch beyond the depth limit yields null
  (lines 552-555). That null is falsy, so the calling level goes on to the
  next sibling. Without an attribute, the whole search therefore yields null
  only when it starts beyond the limit. In the attribute modes, null is also
  the answer when the matching scope's attribute itself holds null.
  See `JsonSearch.Search`.
- **Falsy attribute values.** The comments at lines 591 and 603 promise the
  first occurrence. Each level only passes a truthy answer up (line 565). So
  when a nested scope matches with a falsy attribute value (0, "", false or
  null), its answer is dropped and the rest of that scope is skipped.
  `JsonSearch.SearchFindsFirstHit`, the "first matching scope" theorem, is
  therefore stated for documents whose attribute values are truthy.
  `JsonSearch.SearchAttrSound` holds without that condition.
- **Stored booleans.** The comparison operators `===`, `==`, `<` and the
  others return booleans. In non-polled mode `f5_set_test_result` stores a
  failed comparison as `false`. `f5_all_tests_passed` looks only for values
  `=== 0`, so it does not see that failure. See `Ledger.RecordFalseIgnored`
  and `Checks.FailedCheckInLedger`.

## Model

| member | source | states |
|---|---|---|
| `Workflows.Version` | framework/f5-postman-workflows.js:11-25 | The version text is "1.0.0": major "1.0" and minor "0" joined by a dot. |
| `Ledger.Record` | framework/f5-postman-workflows.js:396-419 | A write adds exactly the written name to the ledger's names, stores the written value under it, and changes no other entry. |
| `Ledger.WrittenValueCases` | framework/f5-postman-workflows.js:406-418 | The value stored is the result as given when not polled. When polled it is 1 for a pass, and for a failure 0 with the override and 1 without. |
| `Ledger.PolledVerdictInName` | framework/f5-postman-workflows.js:406-418 | In polled mode the entry name starts with the PASS prefix iff the result is truthy, and with the FAIL prefix iff it is falsy. The stored value is 0 exactly for a failure written with the override. |
| `Ledger.RecordAllPassed` | framework/f5-postman-workflows.js:316-329 | After a write, the ledger passes iff the other entries pass and the written entry passes. An entry passes when its name lacks the FAIL prefix and its value is not the number 0. |
| `Ledger.RecordPassKeeps` | framework/f5-postman-workflows.js:396-419 | Writing a passing result keeps a passing ledger passing. |
| `Ledger.RecordPolledFailBreaks` | framework/f5-postman-workflows.js:413-417 | In polled mode a failure fails the ledger, with or without the override. |
| `Ledger.RecordZeroBreaks` | framework/f5-postman-workflows.js:408-410 | In non-polled mode a stored 0 fails the ledger. |
| `Ledger.RecordFalseIgnored` | framework/f5-postman-workflows.js:316-329 | In non-polled mode a stored `false` leaves a passing ledger passing. |
| `Workflows.Host.SetTestResult` | framework/f5-postman-workflows.js:396-419 | The ledger becomes `Record` of the old ledger. Environment, globals and next request are unchanged. |
| `Workflows.Host.AllTestsPassed` | framework/f5-postman-workflows.js:316-329 | The loop over the entry names returns exactly `AllPassed` of the ledger. |
| `Classifier.Classify` | framework/f5-postman-workflows.js:339-381 | A code passes iff it is 2xx, or it is 404 on GET with the extension. The answer is 1 exactly when the method's table holds the code, and 2 only for other 2xx codes. |
| `Classifier.ExtensionOnlyGet404` | framework/f5-postman-workflows.js:340-361 | The 404 extension changes no verdict except that of 404 on GET. |
| `Workflows.Host.CheckResponseCode` | framework/f5-postman-workflows.js:339-381 | Returns `Classify` and writes the one entry `[METHOD Response Code]=code`: 1 on success, 0 on failure. Nothing else changes. |
| `Operators.ParseOp` | framework/f5-postman-workflows.js:150-216 | The operator found is the one whose name is the lower-cased text. No operator is found iff the lower-cased text names none of the twelve. |
| `Operators.StrLessTrichotomy` | framework/f5-postman-workflows.js:165-176 | String `<` is irreflexive and asymmetric, and any two distinct strings are ordered. |
| `Operators.StrLessTransitive` | framework/f5-postman-workflows.js:165-176 | String `<` is transitive. |
| `Operators.StringRelations` | framework/f5-postman-workflows.js:165-176 | On strings, `<=` is `<` or equal, `>=` is not `<`, and `>` is `<` with the operands swapped. |
| `Operators.InclNotIncl` | framework/f5-postman-workflows.js:177-198 | `incl` and `notincl` never throw. They disagree on strings and arrays, and both give 0 on anything else. On a string, `incl` holds iff the text of the expected value occurs at some position. |
| `Operators.StrictImpliesLoose` | framework/f5-postman-workflows.js:153-161 | `===` implies `==`, whatever the coercions. |
| `Operators.LengthCases` | framework/f5-postman-workflows.js:211-213 | `length` throws exactly on undefined and null. On strings and arrays it compares their length. On numbers and booleans it compares `undefined`. |
| `Checks.Fill` | framework/f5-postman-workflows.js:120-128 | Defaults: operator `==`, test `true`, the path as the test name. Given fields are kept. |
| `Checks.CheckOneKeepsKeys` | framework/f5-postman-workflows.js:130-227 | One check never removes a ledger entry. |
| `Checks.StopIgnoresRest` | framework/f5-postman-workflows.js:218-221 | After an unknown operator or an exception, later checks change neither the ledger nor how far the pass got. |
| `Checks.RunChecksStep` | framework/f5-postman-workflows.js:119-228 | The pass over one more check is the pass so far, followed by that check if it has a path and a value. |
| `Checks.RunChecksStopsAt` | framework/f5-postman-workflows.js:218-221 | If check `i` stops the pass, the whole pass ends there, having reached `i + 1` checks. |
| `Checks.Reached` | framework/f5-postman-workflows.js:119-221 | The pass reaches every check when it ends normally, and at least one check when it stops. |
| `Checks.RunChecksDone` | framework/f5-postman-workflows.js:119-229 | A pass that did not stop reached every check. |
| `Checks.FilledUpToStep` | framework/f5-postman-workflows.js:126-128 | Reaching one more check fills in that check's defaults and no other. |
| `Checks.RunChecksKeepsKeys` | framework/f5-postman-workflows.js:119-228 | A pass never removes a ledger entry. |
| `Checks.UnknownOpStops` | framework/f5-postman-workflows.js:214-221 | A literal check whose operator is unknown stops the pass. It records the current value when that is truthy and writes no `[Check Value]` entry of its own. |
| `Checks.FailedCheckInLedger` | framework/f5-postman-workflows.js:225-226 | A failed comparison is recorded. In polled mode it fails the ledger. In non-polled mode it fails a passing ledger if and only if the comparison returned the number 0; a returned `false` leaves it passing. |
| `Workflows.Host.RunCheck` | framework/f5-postman-workflows.js:130-227 | One filled-in check gives the status and ledger of `CheckOne`. Environment, globals and next request are unchanged. |
| `Workflows.Host.CheckResponse` | framework/f5-postman-workflows.js:102-230 | Without checks, only the code entry is written. If the code fails, the run halts unless polling or the bypass is on. Otherwise: status and ledger are those of `RunChecks`; the checks reached have their defaults filled in place; the rest are untouched. |
| `Population.PopulatedFromPath` | framework/f5-postman-workflows.js:73-79 | A value found at the path is stored under the variable's name, and a passing ledger stays passing. |
| `Population.MissingVariableFails` | framework/f5-postman-workflows.js:59-86 | A variable that is not found fails the ledger in either mode. A missing path also halts a non-polled run without the bypass. A custom function's `undefined` stores "". |
| `Population.RaisedIgnoresRest` | framework/f5-postman-workflows.js:54-88 | After the resolver throws, later specs change nothing. |
| `Population.RunPopulateSetsNamed` | framework/f5-postman-workflows.js:54-88 | A variable no spec names is neither added, removed nor changed. |
| `Workflows.Host.PopulateVar` | framework/f5-postman-workflows.js:55-87 | One spec acts as `PopulateOne` on the ledger, the environment and the next request. |
| `Workflows.Host.PopulateEnvVars` | framework/f5-postman-workflows.js:38-90 | A falsy `vars` changes nothing. A failing code writes only its entry and may halt. Otherwise the state is that of `RunPopulate` after the code entry. |
| `Polling.TryNameNotFailure` | framework/f5-postman-workflows.js:269-280 | The try entry never carries the FAIL prefix and differs from the max-tries entry. |
| `Polling.PassingAdvances` | framework/f5-postman-workflows.js:269-276 | A passing ledger moves on to the next item and resets the counter to 1. |
| `Polling.IteratorInRange` | framework/f5-postman-workflows.js:277-305 | A counter between 1 and the maximum stays between 1 and the maximum. |
| `Polling.PolledFailureLasts` | framework/f5-postman-workflows.js:269-280 | A polled failure is a lasting failure: no try entry overwrites it. |
| `Polling.FailingRetries` | framework/f5-postman-workflows.js:287-305 | While a failing entry that is not a try entry is in the ledger, each call before the maximum retries. The counter goes up by one, and the maximum, bypass and wait mode stay. With the internal wait the next request is `curr` and the stored item is cleared; otherwise the next request is the delay item and `curr` is stored. |
| `Polling.ExhaustsAtMaxTries` | framework/f5-postman-workflows.js:277-286 | From 1 with such a failure, the call made at the maximum writes the max-tries failure and resets the counter. Without the bypass it halts the run; with it the next request is left as it was. |
| `Workflows.Host.PollUntilAllTestsPass` | framework/f5-postman-workflows.js:260-307 | Ledger, globals and next request become those of `Poll`. An absent `curr` is the request's name. The environment is unchanged. |
| `Workflows.Host.PollNext` | framework/f5-postman-workflows.js:467-477 | Writes the code entry, goes back to the stored item if the code passes and halts otherwise, then clears the stored item. |
| `RuntimeVars.Cleared` | framework/f5-postman-workflows.js:443-456 | `_rt_` variables are blanked, or removed with `del`. Every other variable is untouched. |
| `RuntimeVars.ClearedIdempotent` | framework/f5-postman-workflows.js:443-456 | Clearing twice is clearing once. |
| `Workflows.Host.ClearRuntimeVars` | framework/f5-postman-workflows.js:443-459 | The environment becomes `Cleared` of the old one, and the feedback entry is set to 1. |
| `Tester.TestCheckVerdict` | framework/f5-postman-workflows.js:498-510 | After the check the ledger passes only if every listed entry holds its listed value. A match keeps a passing ledger passing. |
| `Workflows.Host.TestCheck` | framework/f5-postman-workflows.js:498-510 | The verdict is recorded with the override. A mismatch halts a non-polled run. |
| `JsonSearch.Search` | framework/f5-postman-workflows.js:538-555 | With neither a truthy value nor an attribute the answer is undefined. Otherwise a start beyond the depth limit answers null. Without an attribute, null is answered only then. |
| `JsonSearch.SearchFrom` | framework/f5-postman-workflows.js:557-582 | Without an attribute, the loop never answers null: a null from a deeper level is falsy and the loop goes on. |
| `JsonSearch.SearchFindsFirstLeaf` | framework/f5-postman-workflows.js:557-579 | In value-only mode the answer is the dot-joined key path of the first leaf `===` the value, in depth-first `for...in` order, or undefined if none. |
| `JsonSearch.PathByValueResolves` | framework/f5-postman-workflows.js:575-578 | If keys are plain names without dots, a path the value search reports leads `f5_get_by_string` back to a value `===` the one searched. |
| `JsonSearch.SearchAttrSound` | framework/f5-postman-workflows.js:563-574 | In the attribute modes, any answer is the attribute of a scope within the depth limit that has the attribute and holds a primitive, `===` the value when one is given. |
| `JsonSearch.SearchFindsFirstHit` | framework/f5-postman-workflows.js:557-574 | In the attribute modes, with truthy attribute values, the answer is the attribute of the first matching scope in depth-first order, or undefined if none. |
| `JsonSearch.SearchUnnamed` | framework/f5-postman-workflows.js:545-575 | An empty attribute is treated as no attribute. |
| `JsonSearch.PathByValue` | framework/f5-postman-workflows.js:616-618 | Undefined for a falsy value. Otherwise the path of the first leaf `===` the value. |
| `JsonSearch.PropertyByValue` | framework/f5-postman-workflows.js:594-596 | Without a property it is the path search. With one, the answer is sound, and it is the first hit when attribute values are truthy. |
| `JsonSearch.FirstPropertyValue` | framework/f5-postman-workflows.js:605-607 | Without a property it is undefined. With one, the answer is sound, and it is the first hit when attribute values are truthy. |
| `PathResolver.KeepCount` | framework/f5-postman-workflows.js:658 | `splice(0, n - d)` keeps `n - d` names, clamped to 0 and `n`. |
| `PathResolver.WalkAppend` | framework/f5-postman-workflows.js:659-667 | Walking `a + b` is walking `a`, then walking `b` from the value reached. An undefined or a throw along `a` is the answer for the whole path. |
| `PathResolver.GetByString` | framework/f5-postman-workflows.js:646-669 | The loop's result is `Resolve`: undefined for a non-string path, a throw on a non-object, undefined at the first missing name. |
| `PathResolver.SplitPathJoinPath` | framework/f5-postman-workflows.js:653-661 | Splitting a written path gives back the names. This holds for non-empty names without backslashes, `/` or the separator. The two string-pattern rewrites change nothing. |
| `PathResolver.ResolveJoinPath` | framework/f5-postman-workflows.js:646-669 | Resolving a written path walks all its names but the last `d`, and all of them for `d <= 0`. |
| `PathResolver.UnescapeEscape` | framework/f5-postman-workflows.js:661 | Unescaping an escaped name gives the name back. |
| `PathResolver.MarkJoinPath` | framework/f5-postman-workflows.js:655 | Only the dots written between names become separators. |
| `Text.SplitJoin` | framework/f5-postman-workflows.js:656 | `split` undoes `join` when no piece contains the separator. |
| `Text.ReplaceFirstAbsent` | framework/f5-postman-workflows.js:653-654 | A string-pattern `replace` whose pattern has a character the text lacks leaves the text unchanged. |
| `Text.ContainsOccurs` | framework/f5-postman-workflows.js:180 | `includes` holds iff the pattern occurs at some position. |
| `Text.ToLower` | framework/f5-postman-workflows.js:152 | Lower-casing keeps the length, turns each ASCII capital into its small letter, and keeps every other character. |
| `JsValues.MemberOfEntry` | framework/f5-postman-workflows.js:557-563 | In a well-formed document, every property `for...in` visits is read back by `in` and indexing under its name. |

## Left out

- `f5_sleep` is left out: it is a wall-clock busy wait. The internal-sleep branch of the poller only schedules the retry.
- `f5_debug` and `f5_test_state_generate` are left out: they only log to the console.
- `f5_parse_json_resp` is left out: it calls `JSON.parse`, `alert` and the module-level cache. The parsed document, or its absence, is an input of `Host`.
- The `regex` operator is left out as JavaScript regular expressions. The model does not evaluate them: whether a string matches the pattern built from the expected value is the `Oracle.regex` predicate.
- Loose coercion is left out: `==`, `!=`, `<`, `<=`, `>` and `>=` between values of different types are the `Oracle.coerce` relation. Same-typed numbers and strings, `null`/`undefined` and object identity are modelled.
- User-supplied custom functions are left out: they are foreign code. Only the value they return is modelled, as an input, and so are their `args`.
- `parseInt` of the global variables is left out: globals are held as integers, so NaN paths are not modelled. The try entry prints the parsed numbers, not the raw global texts.
- Floating-point numbers are left out: numbers are integers.
- Strings are left out as UTF-16: they are sequences of `char`, and `toLowerCase` is modelled on ASCII letters only.
- Object key enumeration is left out: objects keep their fields in `for...in` order (integer-like keys first), and the model takes that order as given.
- The `in` operator on objects sees own properties only. Inherited members such as `toString` are not modelled.
- Non-string `op`, `path` or `testname` values in a check, a `null` `vars` array in `f5_check_response`, and `undefined` expected values in `f5_test_check` are not modelled.
- `JsonSearch.Search` requires `!ThrowsOnString`: a search started on a string document, where `attr in` a string throws, is excluded rather than modelled as an exception.
- `JsonSearch.SearchFindsFirstHit` is stated only for documents whose attribute values are truthy. With a falsy nested value the search drops that answer and skips the rest of that scope; `JsonSearch.SearchAttrSound` covers that case only as soundness.
- `JsonSearch.SearchAttrSound` is stated for searches started within the depth limit; beyond it the answer is null.
- `JsonSearch.PathByValueResolves` requires that every key be a plain name without dots, because the search joins keys without escaping them.
- `PathResolver.SplitPathJoinPath` covers only names without backslashes, `/` or the vertical-tab separator, and not empty names.
- `JsonSearch.PropertyByValue` requires `!ThrowsOnString`, as `JsonSearch.Search` does, and states the first hit only for documents whose attribute values are truthy; otherwise it promises only that its answer is sound, as `JsonSearch.SearchAttrSound` states.
- `JsonSearch.FirstPropertyValue` has the same two limits as `JsonSearch.PropertyByValue`, for the same reasons.
- `Polling.FailingRetries` and `Polling.ExhaustsAtMaxTries` do not cover a failing entry whose name begins like a try entry (`[Poller] Try `), because the next try entry may overwrite it with 1.
- `Polling.Run`, `Polling.FailingRetries` and `Polling.ExhaustsAtMaxTries` carry one ledger across consecutive calls, whereas the host gives each re-run of the request a fresh `tests` object. The carried failing entry stands for each re-run failing again; `Polling.Poll` reads the ledger only through `f5_all_tests_passed`.
- Environment variables are held as JSON values, not as the text Postman stores through `postman.setEnvironmentVariable`; no proved property depends on that conversion.
