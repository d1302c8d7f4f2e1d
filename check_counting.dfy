/**
 * `countChecks` and `getChecks`: the total number of passes and failures
 * over every check of every flattened group that has a `checks` field,
 * whether or not its label yields a key.
 */
module CheckCounting {
  import opened Wrappers
  import opened K6Summary
  import opened GroupFlattening
  import opened Classification

  /** The sum of `passes` over `checks`. */
  function SumPasses(checks: seq<Check>): nat
  {
    if checks == [] then 0 else SumPasses(checks[..|checks| - 1]) + checks[|checks| - 1].passes
  }

  /** The sum of `fails` over `checks`. */
  function SumFails(checks: seq<Check>): nat
  {
    if checks == [] then 0 else SumFails(checks[..|checks| - 1]) + checks[|checks| - 1].fails
  }

  /** Both sums add up over concatenation. */
  lemma {:induction false} SumsAppend(a: seq<Check>, b: seq<Check>)
    ensures SumPasses(a + b) == SumPasses(a) + SumPasses(b)
    ensures SumFails(a + b) == SumFails(a) + SumFails(b)
    decreases |b|
  {
    if b == [] {
      assert a + b == a;
    } else {
      var n := |b| - 1;
      assert (a + b)[..|a + b| - 1] == a + b[..n];
      assert (a + b)[|a + b| - 1] == b[n];
      SumsAppend(a, b[..n]);
    }
  }

  /**
   * Every key pushed into `fails` or `passes` by `checkMetrics` stands for a
   * check whose failure or pass is in the totals, keyed or not: there are
   * at least as many failures as pushed fail keys, and at least as many
   * passes as pushed pass keys.
   */
  lemma {:induction false} TotalsCoverPushedKeys(checks: seq<Check>, prefix: string)
    ensures SumFails(checks) >= |FailKeys(checks, prefix)|
    ensures SumPasses(checks) >= |PassKeys(checks, prefix)|
  {
    if checks != [] {
      TotalsCoverPushedKeys(checks[..|checks| - 1], prefix);
    }
  }

  /** `countChecks(checks)`: running totals over one group's checks. */
  method CountChecks(checks: seq<Check>) returns (passes: nat, fails: nat)
    ensures passes == SumPasses(checks)
    ensures fails == SumFails(checks)
  {
    passes, fails := 0, 0;
    var i := 0;
    while i < |checks|
      invariant 0 <= i <= |checks|
      invariant passes == SumPasses(checks[..i])
      invariant fails == SumFails(checks[..i])
    {
      assert checks[..i + 1][..i] == checks[..i];
      passes := passes + checks[i].passes;
      fails := fails + checks[i].fails;
      i := i + 1;
    }
    assert checks[..i] == checks;
  }

  /**
   * `getChecks(data)`: totals over all flattened groups; a group without a
   * `checks` field is skipped.
   */
  method GetChecks(data: RunSummary) returns (failMetrics: nat, passMetrics: nat)
    ensures failMetrics == SumFails(ChecksOf(ExtractGroups(data)))
    ensures passMetrics == SumPasses(ChecksOf(ExtractGroups(data)))
  {
    var checkFailures, checkPasses := 0, 0;
    var groups := ExtractGroups(data);
    var i := 0;
    while i < |groups|
      invariant 0 <= i <= |groups|
      invariant checkFailures == SumFails(ChecksOf(groups[..i]))
      invariant checkPasses == SumPasses(ChecksOf(groups[..i]))
    {
      var group := groups[i];
      ChecksOfNext(groups, i);
      SumsAppend(ChecksOf(groups[..i]), ChecksIn(group));
      if group.checks.Some? {
        var passes, fails := CountChecks(group.checks.value);
        checkFailures := checkFailures + fails;
        checkPasses := checkPasses + passes;
      }
      i := i + 1;
    }
    assert groups[..i] == groups;
    failMetrics, passMetrics := checkFailures, checkPasses;
  }
}
