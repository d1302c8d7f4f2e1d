/**
 * `modifyTests`, `makeJiraTests` and `getSummary`: the Xray test-execution
 * import payload built from the classified keys and the check totals.
 */
module XrayReport {
  import opened Wrappers
  import opened K6Summary
  import opened GroupFlattening
  import opened Distinct
  import opened Classification
  import opened CheckCounting

  /** The status Xray records for one test. */
  datatype Status = Passed | Failed

  /** The status as the payload spells it. */
  function StatusName(status: Status): string
  {
    match status
    case Passed => "PASSED"
    case Failed => "FAILED"
  }

  /** `toLowerCase` on ASCII letters; every other character is kept. */
  function ToLowerAscii(s: string): (r: string)
    ensures |r| == |s|
    ensures forall i :: 0 <= i < |s| ==> ('A' <= s[i] <= 'Z' ==> r[i] as int == s[i] as int + 32)
    ensures forall i :: 0 <= i < |s| ==> (!('A' <= s[i] <= 'Z') ==> r[i] == s[i])
  {
    if s == [] then []
    else
      var c := s[0];
      [if 'A' <= c <= 'Z' then (c as int + 32) as char else c] + ToLowerAscii(s[1..])
  }

  /** The entry comment: `Test execution ` and then the status name in lower case. */
  function Comment(status: Status): string
  {
    "Test execution " + ToLowerAscii(StatusName(status))
  }

  /** The two comments the payload can carry. */
  lemma CommentText(status: Status)
    ensures Comment(status) == if status == Passed then "Test execution passed" else "Test execution failed"
  {
  }

  /** One entry of the payload's `tests` list. */
  datatype TestEntry = TestEntry(testKey: Key, start: string, finish: string, comment: string, status: Status)

  /** The keys of the entries, in order. */
  function TestKeys(tests: seq<TestEntry>): (r: seq<Key>)
    ensures |r| == |tests|
    ensures forall i :: 0 <= i < |tests| ==> r[i] == tests[i].testKey
  {
    if tests == [] then [] else [tests[0].testKey] + TestKeys(tests[1..])
  }

  /** The entry `addTests` pushes for `key`: stamped `timeNow`, commented after its status. */
  predicate IsEntryFor(entry: TestEntry, key: Key, status: Status, timeNow: string)
  {
    && entry.testKey == key
    && entry.status == status
    && entry.start == timeNow
    && entry.finish == timeNow
    && entry.comment == Comment(status)
  }

  /** The closure `addTests`: one entry per key pushed onto `tests`. */
  method AddTests(tests: seq<TestEntry>, keys: seq<Key>, status: Status, timeNow: string)
    returns (result: seq<TestEntry>)
    ensures |result| == |tests| + |keys|
    ensures result[..|tests|] == tests
    ensures forall i :: 0 <= i < |keys| ==> IsEntryFor(result[|tests| + i], keys[i], status, timeNow)
  {
    result := tests;
    var i := 0;
    while i < |keys|
      invariant 0 <= i <= |keys|
      invariant |result| == |tests| + i
      invariant result[..|tests|] == tests
      invariant forall k :: 0 <= k < i ==> IsEntryFor(result[|tests| + k], keys[k], status, timeNow)
    {
      var key := keys[i];
      result := result + [TestEntry(key, timeNow, timeNow, Comment(status), status)];
      i := i + 1;
    }
  }

  /**
   * `modifyTests`: a PASSED entry for every pass key,
   * then a FAILED entry for every fail key, in list order, all stamped with
   * the same `timeNow`.
   */
  method ModifyTests(pass: seq<Key>, fail: seq<Key>, timeNow: string) returns (tests: seq<TestEntry>)
    ensures |tests| == |pass| + |fail|
    ensures forall i :: 0 <= i < |pass| ==> IsEntryFor(tests[i], pass[i], Passed, timeNow)
    ensures forall i :: 0 <= i < |fail| ==> IsEntryFor(tests[|pass| + i], fail[i], Failed, timeNow)
  {
    tests := [];
    tests := AddTests(tests, pass, Passed, timeNow);
    ghost var afterPass := tests;
    tests := AddTests(tests, fail, Failed, timeNow);
    forall i | 0 <= i < |pass|
      ensures IsEntryFor(tests[i], pass[i], Passed, timeNow)
    {
      assert tests[i] == tests[..|afterPass|][i];
    }
  }

  /** The character of a decimal digit. */
  function DigitChar(d: nat): char
    requires d < 10
  {
    ('0' as int + d) as char
  }

  /** The value of a string of decimal digits. */
  function DecimalValue(s: string): nat
  {
    if s == [] then 0
    else
      var c := s[|s| - 1];
      DecimalValue(s[..|s| - 1]) * 10 + (if '0' <= c <= '9' then c as int - '0' as int else 0)
  }

  /**
   * How a template literal prints a non-negative integer count: decimal
   * digits, no leading zero, reading back as the same number.
   */
  function DecimalText(n: nat): (s: string)
    ensures |s| >= 1
    ensures forall i :: 0 <= i < |s| ==> '0' <= s[i] <= '9'
    ensures s[0] == '0' ==> s == "0"
    ensures DecimalValue(s) == n
  {
    if n < 10 then [DigitChar(n)]
    else
      var s := DecimalText(n / 10) + [DigitChar(n % 10)];
      assert s[..|s| - 1] == DecimalText(n / 10);
      s
  }

  /** The `__ENV` values the generator reads; `None` is an unset variable. */
  datatype Env = Env(testExecKey: Option<string>, testPlanKey: Option<string>)

  /** The check totals `getChecks` returns. */
  datatype Metrics = Metrics(failMetrics: nat, passMetrics: nat)

  /** The payload's `info` object. */
  datatype Info = Info(
    summary: string,
    description: string,
    user: string,
    startDate: string,
    finishDate: string,
    testPlanKey: Option<string>)

  /** The test-execution import payload. */
  datatype Report = Report(testExecutionKey: Option<string>, info: Info, tests: seq<TestEntry>)

  /** The description line, with the maximum duration and both totals filled in. */
  function Description(max: string, metrics: Metrics): string
  {
    "This is k6 test with maximum iteration duration of " + max + "s, "
      + DecimalText(metrics.passMetrics) + " passed requests and "
      + DecimalText(metrics.failMetrics) + " failures on checks"
  }

  /**
   * Whether `TEST_PLAN_KEY` counts as missing: only the literal strings
   * `"undefined"` and `""` do; an unset variable does not.
   */
  predicate PlanKeyMissing(envPlanKey: Option<string>)
  {
    envPlanKey == Some("undefined") || envPlanKey == Some("")
  }

  /**
   * `makeJiraTests`: the payload around the entries.
   * `min` is accepted but not used.
   */
  function MakeJiraTests(tests: seq<TestEntry>, timeNow: string, min: string, max: string,
                         metrics: Metrics, key: string, env: Env): (plan: Report)
    ensures plan.tests == tests
    ensures plan.testExecutionKey == env.testExecKey
    ensures plan.info.startDate == timeNow && plan.info.finishDate == timeNow
    ensures plan.info.summary == "K6 Test execution - " + timeNow
    ensures plan.info.user == "k6-user"
    ensures plan.info.description == Description(max, metrics)
    ensures PlanKeyMissing(env.testPlanKey) ==> plan.info.testPlanKey == Some(key)
    ensures !PlanKeyMissing(env.testPlanKey) ==> plan.info.testPlanKey == env.testPlanKey
  {
    var info := Info(
      "K6 Test execution - " + timeNow,
      Description(max, metrics),
      "k6-user",
      timeNow,
      timeNow,
      if PlanKeyMissing(env.testPlanKey) then Some(key) else env.testPlanKey);
    Report(env.testExecKey, info, tests)
  }

  /** The entry at `i` reports `k` with `status`. */
  predicate Reports(tests: seq<TestEntry>, k: Key, status: Status)
  {
    exists i :: 0 <= i < |tests| && tests[i].testKey == k && tests[i].status == status
  }

  /**
   * `getSummary(data, key, prefix)`, with the clock reading `timeNow`, the
   * already formatted `min` and `max`, and the environment passed in.
   */
  method GetSummary(data: RunSummary, key: string, prefix: string, timeNow: string,
                    min: string, max: string, env: Env) returns (plan: Report)
    requires AllHaveChecks(ExtractGroups(data))
    ensures var checks := ChecksOf(ExtractGroups(data));
      forall k :: && (Reports(plan.tests, k, Failed) <==> HasFailingCheck(checks, prefix, k))
                  && (Reports(plan.tests, k, Passed) <==>
                        HasPassingCheck(checks, prefix, k) && !HasFailingCheck(checks, prefix, k))
    ensures NoDuplicates(TestKeys(plan.tests))
    ensures forall t :: t in plan.tests ==>
      t.start == timeNow && t.finish == timeNow && t.comment == Comment(t.status)
    ensures LaidOut(PassList(ExtractGroups(data), prefix), FailList(ExtractGroups(data), prefix), plan.tests, timeNow)
    ensures plan.testExecutionKey == env.testExecKey
    ensures plan.info.summary == "K6 Test execution - " + timeNow && plan.info.user == "k6-user"
    ensures PlanKeyMissing(env.testPlanKey) ==> plan.info.testPlanKey == Some(key)
    ensures !PlanKeyMissing(env.testPlanKey) ==> plan.info.testPlanKey == env.testPlanKey
    ensures plan.info.startDate == timeNow && plan.info.finishDate == timeNow
    ensures var checks := ChecksOf(ExtractGroups(data));
      plan.info.description == Description(max, Metrics(SumFails(checks), SumPasses(checks)))
    ensures ChecksOf(ExtractGroups(data)) == [] ==>
      plan.tests == [] && plan.info.description == Description(max, Metrics(0, 0))
  {
    var pass, fail := CheckMetrics(data, prefix);
    var tests := ModifyTests(pass, fail, timeNow);
    assert LaidOut(pass, fail, tests, timeNow);
    var failMetrics, passMetrics := GetChecks(data);
    plan := MakeJiraTests(tests, timeNow, min, max, Metrics(failMetrics, passMetrics), key, env);
    FailDominates(ExtractGroups(data), prefix);
    ClassificationMembers(ExtractGroups(data), prefix);
    ReportedKeys(pass, fail, tests, timeNow);
    ReportedOnce(pass, fail, tests, timeNow);
    EntriesStamped(pass, fail, tests, timeNow);
  }

  /** The key and status of entry `i` of the layout `ModifyTests` produces. */
  function KeyAt(pass: seq<Key>, fail: seq<Key>, i: nat): Key
    requires i < |pass| + |fail|
  {
    if i < |pass| then pass[i] else fail[i - |pass|]
  }

  /** `tests` holds the pass entries and then the fail entries, as `ModifyTests` promises. */
  predicate LaidOut(pass: seq<Key>, fail: seq<Key>, tests: seq<TestEntry>, timeNow: string)
  {
    && |tests| == |pass| + |fail|
    && (forall i :: 0 <= i < |pass| ==> IsEntryFor(tests[i], pass[i], Passed, timeNow))
    && (forall i :: 0 <= i < |fail| ==> IsEntryFor(tests[|pass| + i], fail[i], Failed, timeNow))
  }

  /** The same layout, one index at a time. */
  lemma EntriesAt(pass: seq<Key>, fail: seq<Key>, tests: seq<TestEntry>, timeNow: string)
    requires LaidOut(pass, fail, tests, timeNow)
    ensures forall i :: 0 <= i < |tests| ==>
      IsEntryFor(tests[i], KeyAt(pass, fail, i), if i < |pass| then Passed else Failed, timeNow)
  {
  }

  /** An entry reports a key as passed exactly when it is a pass key, and likewise for failed. */
  lemma ReportedKeys(pass: seq<Key>, fail: seq<Key>, tests: seq<TestEntry>, timeNow: string)
    requires LaidOut(pass, fail, tests, timeNow)
    ensures forall k :: Reports(tests, k, Passed) <==> k in pass
    ensures forall k :: Reports(tests, k, Failed) <==> k in fail
  {
    EntriesAt(pass, fail, tests, timeNow);
    forall k | k in pass ensures Reports(tests, k, Passed) {
      var i :| 0 <= i < |pass| && pass[i] == k;
      assert tests[i].testKey == k;
    }
    forall k | k in fail ensures Reports(tests, k, Failed) {
      var i :| 0 <= i < |fail| && fail[i] == k;
      assert tests[|pass| + i].testKey == k;
    }
    forall k | Reports(tests, k, Passed) ensures k in pass {
      var i :| 0 <= i < |tests| && tests[i].testKey == k && tests[i].status == Passed;
      assert i < |pass| && pass[i] == k;
    }
    forall k | Reports(tests, k, Failed) ensures k in fail {
      var i :| 0 <= i < |tests| && tests[i].testKey == k && tests[i].status == Failed;
      assert i >= |pass| && fail[i - |pass|] == k;
    }
  }

  /** With distinct, disjoint key lists, every key is reported once. */
  lemma ReportedOnce(pass: seq<Key>, fail: seq<Key>, tests: seq<TestEntry>, timeNow: string)
    requires LaidOut(pass, fail, tests, timeNow)
    requires NoDuplicates(pass) && NoDuplicates(fail)
    requires forall k :: !(k in pass && k in fail)
    ensures NoDuplicates(TestKeys(tests))
  {
    EntriesAt(pass, fail, tests, timeNow);
    var keys := TestKeys(tests);
    forall i, j | 0 <= i < j < |keys| ensures keys[i] != keys[j] {
      assert keys[i] == KeyAt(pass, fail, i) && keys[j] == KeyAt(pass, fail, j);
      if i < |pass| && j >= |pass| {
        assert fail[j - |pass|] in fail;
      }
    }
  }

  /** Every entry carries the one `timeNow` and the comment of its status. */
  lemma EntriesStamped(pass: seq<Key>, fail: seq<Key>, tests: seq<TestEntry>, timeNow: string)
    requires LaidOut(pass, fail, tests, timeNow)
    ensures forall t :: t in tests ==> t.start == timeNow && t.finish == timeNow && t.comment == Comment(t.status)
  {
    EntriesAt(pass, fail, tests, timeNow);
  }
}
