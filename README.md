# k6 summary to Xray test-execution payload: a Dafny model

This project models the report generator of a small integration between the
k6 load-testing tool and the Xray test-management module of Jira. At the end
of a k6 run, the generator receives k6's end-of-run summary. It turns that
summary into the JSON payload Xray's test-execution import accepts:

- It flattens the tree of groups under `root_group`, depth-first and
  pre-order (`extractGroups`).
- It pulls an issue key `<PREFIX>-<digits>` out of every check label
  (`getKey`).
- It sorts the keys into a fail list and a pass list, where fail dominates,
  and de-duplicates both (`checkMetrics`, `removeDuplicates`).
- It totals passes and failures over all checks (`countChecks`,
  `getChecks`).
- It builds one PASSED or FAILED test entry per key (`modifyTests`) and wraps
  the entries in the payload with its summary, description, dates and test
  plan key (`makeJiraTests`, `getSummary`).

Modules, one per concern of `generator.js`:

- `Wrappers` (wrappers.dfy): `Option`. `None` stands for JavaScript's
  `undefined`.
- `K6Summary` (k6_summary.dfy): `Check(path, passes, fails)`,
  `Group(checks: Option<seq<Check>>, children)`, the summary, and the checks
  of a list of groups.
- `KeyExtraction` (key_extraction.dfy): `getKey`.
- `GroupFlattening` (group_flattening.dfy): `extractGroups`.
- `Distinct` (distinct.dfy): `removeDuplicates`.
- `Classification` (classification.dfy): `checkMetrics`.
- `CheckCounting` (check_counting.dfy): `countChecks` and `getChecks`.
- `XrayReport` (xray_report.dfy): `modifyTests`, `makeJiraTests` and
  `getSummary`.

The code's loops are Dafny methods with loop invariants: the `for…of` loop
and the inner `forEach` of `checkMetrics`, the `for` loops of `getChecks` and `countChecks`,
and the pushes of `modifyTests`. Each method is proved against a
specification function. The expression-only parts (`getKey`,
`extractGroups`, `removeDuplicates`, the filter) are functions. Lemmas
state what those functions promise.

Parameters replace the code's ambient inputs:

- the clock reading `timeNow`, as the text the payload carries;
- the already formatted `min` and `max` durations;
- the two `__ENV` values `TEST_EXEC_KEY` and `TEST_PLAN_KEY`, as
  `Option<string>`, where `None` means the variable is unset.

Behaviour of the code that is easy to misread, which the model keeps:

- A label without a key is not skipped. `getKey` returns `undefined`, and
  that value is still pushed into `fails` or `passes` (generator.js:20-24).
  The model's key type is therefore `Option<string>`. All unmatched labels
  share the single key `None`, so one unmatched failing check removes
  every unmatched passing check from the pass list.
- `testPlanKey` falls back to the `key` argument only when `TEST_PLAN_KEY`
  is the string `"undefined"` or the empty string (generator.js:106-109).
  An unset variable is JavaScript `undefined`, which equals neither. In that
  case the payload's `testPlanKey` is undefined, not the `key` argument.
- The minimum duration is computed and passed to `makeJiraTests`, which
  never uses it (generator.js:97-102, 149-154). No part of the payload shows
  it.
- Pass entries come before fail entries (generator.js:74-75). The comment
  depends on the status: `Test execution passed` or `Test execution failed`
  (generator.js:68).
- Checks placed directly on the root group are never read, because
  flattening starts at the root's children (generator.js:18, 86).
- `checkMetrics` calls `checks.forEach` without a guard (generator.js:19).
  `CheckMetrics` therefore requires every flattened group to carry a
  `checks` field. `getChecks` skips groups without one (generator.js:87).

## Model

| member | source | states |
|---|---|---|
| KeyExtraction.GetKey | generator.js:1-6 | The result is None exactly when no position of the label starts `<prefix>-<digit>`. Otherwise it is a `<prefix>-<digits>` token that occurs in the label, whose digit run cannot be extended, with no earlier position where such a token starts. |
| KeyExtraction.ScanKey | generator.js:2 | Scanning from a position finds the leftmost match at or after it, or reports that none starts there or later. |
| KeyExtraction.GetKeyFindsLeftmostMatch | generator.js:2-4 | Conversely, if a maximal `<prefix>-<digits>` token starts at i and no match starts before i, then GetKey returns exactly that token. |
| GroupFlattening.FlattenAppend | generator.js:124-129 | The fold over sibling groups distributes over concatenation: flattening a + b gives the flattening of a followed by that of b. |
| GroupFlattening.FlattenPreOrder | generator.js:122-130 | Pre-order: the flattening of a non-empty list is its first group, then the flattening of that group's children, then the flattening of its later siblings. |
| GroupFlattening.FlattenListsEveryGroupOnce | generator.js:122-130 | The multiset of flattened groups equals the multiset of groups in the tree, so every group appears once per place it occupies. The length is the number of groups in the tree. |
| GroupFlattening.FlattenSubtreeFollows | generator.js:125-127 | Every group in the flattening is followed immediately by the flattening of its own children. |
| K6Summary.ChecksOfMember | generator.js:86-91 | A check is among the checks that are read exactly when it belongs to some listed group that has a `checks` field. |
| Distinct.RemoveDuplicates | generator.js:114-116 | The result has exactly the values of the input, and none of them twice. |
| Distinct.RemoveDuplicatesKeepsFirstOccurrenceOrder | generator.js:114-116 | Values come out ordered by the position of their first occurrence in the input, as a `Set` keeps insertion order. |
| Classification.WithoutFailed | generator.js:29-30 | The filtered pass list holds exactly the pushed pass keys that were never pushed as fail keys. Each kept key occurs as often as in the list it filters, and every dropped key not at all. The result is no longer than that list. |
| Classification.WithoutFailedAppend | generator.js:29-30 | The filter keeps order: filtering a + b gives the filtered a followed by the filtered b. |
| Classification.FailKeysMembers | generator.js:18-22 | A key (None included) is pushed into `fails` exactly when some check with fails > 0 yields it. |
| Classification.PassKeysMembers | generator.js:18-25 | A key is pushed into `passes` exactly when some check with fails = 0 and passes > 0 yields it. A check with both counts 0 pushes nothing. |
| Classification.ClassificationMembers | generator.js:14-35 | The returned fail list holds exactly the keys of failing checks. The returned pass list holds exactly the keys of passing, never-failing checks whose key no failing check yields. |
| Classification.FailDominates | generator.js:29-35 | No key is in both the returned pass list and the returned fail list. |
| Classification.CheckMetrics | generator.js:14-36 | The loops over every flattened group and every check return the specified fail and pass lists. Both are free of duplicates. Every flattened group must have `checks`. |
| CheckCounting.CountChecks | generator.js:132-140 | The running totals equal the sums of `passes` and of `fails` over the checks. |
| CheckCounting.GetChecks | generator.js:83-95 | The totals equal the sums of `fails` and of `passes` over every check of every flattened group that has `checks`. Groups without `checks` add nothing, and the totals do not depend on key extraction. |
| CheckCounting.TotalsCoverPushedKeys | generator.js:132-140 | The failure total is at least the number of fail-key pushes, and the pass total at least the number of pass-key pushes. Checks without a key count in the totals. |
| XrayReport.ToLowerAscii | generator.js:68 | ASCII-only stand-in for `toLowerCase`: it keeps the length, maps each ASCII capital to its lower-case letter and keeps every other character. Only the status names `PASSED` and `FAILED` reach it, and on those it agrees with the full Unicode `toLowerCase` of JavaScript. |
| XrayReport.CommentText | generator.js:68 | The comment is `Test execution passed` for a PASSED entry and `Test execution failed` for a FAILED one. |
| XrayReport.AddTests | generator.js:62-72 | `addTests` keeps the entries already in `tests` and appends one entry per key, in key order. Each new entry has that key, the given status, start = finish = timeNow, and the status's comment. |
| XrayReport.ModifyTests | generator.js:57-78 | The result has one entry per pass key plus one per fail key: first a PASSED entry for each pass key, then a FAILED entry for each fail key, in list order, all stamped with the one timeNow. |
| XrayReport.ReportedKeys | generator.js:57-78 | For any two key lists, overlapping or not, a key is reported PASSED exactly when it is in the pass list, and FAILED exactly when it is in the fail list. |
| XrayReport.ReportedOnce | generator.js:57-78 | If both lists are duplicate-free and disjoint, no key appears in two entries. |
| XrayReport.EntriesStamped | generator.js:64-70 | Every entry starts and finishes at timeNow and carries the comment of its own status. |
| XrayReport.DecimalText | generator.js:102 | A count prints as one or more decimal digits and reads back as the same number. A text that starts with `0` is exactly `"0"`, so there is no leading zero. |
| XrayReport.MakeJiraTests | generator.js:97-112 | `tests` is exactly the given entries. startDate = finishDate = timeNow. The execution key is `TEST_EXEC_KEY`. The user is `k6-user`, and the description carries max and both totals. testPlanKey is the `key` argument when `TEST_PLAN_KEY` is `"undefined"` or `""`, and `TEST_PLAN_KEY` itself otherwise. |
| XrayReport.GetSummary | generator.js:146-159 | End to end: a key is reported FAILED exactly when a failing check yields it. It is reported PASSED exactly when a passing, never-failing check yields it and no failing check does. Each key appears once. All dates are timeNow. `tests` is laid out as one PASSED entry per key of the pass list, then one FAILED entry per key of the fail list, each list in the order its keys were first pushed. The execution key is `TEST_EXEC_KEY`, the summary is `K6 Test execution - ` followed by timeNow, and the user is `k6-user`. testPlanKey is the `key` argument when `TEST_PLAN_KEY` is `"undefined"` or `""`, and `TEST_PLAN_KEY` itself otherwise. The description carries the pass and fail sums over all checks. With no checks anywhere, `tests` is empty and both totals are 0. |

## Left out

- execution.js is not part of this model. It finds or creates the day's test plan through HTTP calls to Jira, formats the date with moment, logs to the console and writes `__ENV`. It is network glue with no state of its own.
- `getTime`, `toFixed(2)` and `max / 1000` (generator.js:38-48, 154-155): floating-point duration formatting. The model takes `min` and `max` as already formatted text.
- `getTimeNow` (generator.js:142-144) reads the wall clock. The model takes `timeNow` as a parameter, already rendered as text. It does not model how a `Date` prints in the summary versus how it serialises in the JSON.
- Regular-expression semantics (generator.js:2): the prefix is interpolated into the pattern unescaped. The model treats it as a literal string. A prefix that contains regular-expression metacharacters behaves differently in the code.
- `parseInt` on the counters: the model's counts are natural numbers. A missing or non-numeric counter, which yields `NaN` in the code, is not modelled.
- `Object.values` over the `groups` object lists integer-like keys first. The model takes each group's children as the sequence in which `Object.values` yields them.
- A summary without `root_group` throws a `TypeError` when `.groups` is read (generator.js:18, 86). A `root_group` without `groups` throws in `Object.values(undefined)` (generator.js:123). A nested group without `groups` simply has no children (generator.js:125). In the model the root always has a children sequence, so neither throwing input can be written, and a root with no children yields an empty report.
- Number representation: counters and totals are JavaScript doubles. Sums are exact only below 2^53, and `${n}` prints in exponent notation from 1e21 on. The model's sums are natural numbers, and `DecimalText` prints them exactly in decimal at every size.
- XrayReport.ToLowerAscii: covers ASCII only, unlike JavaScript's `toLowerCase`, which applies full Unicode case mapping and can change the length of a string. The two agree on `PASSED` and `FAILED`, the only inputs it receives.
- The destructuring defaults `pass = []` and `fail = []` in `modifyTests` (generator.js:59) never apply, because `checkMetrics` always supplies both lists.
