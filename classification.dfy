/**
 * `checkMetrics`: sorts the keys of all checks into a fail list and a pass
 * list. A failing check pushes its key to `fails`; otherwise a check that
 * passed at least once pushes its key to `passes`. Keys that failed anywhere
 * are then dropped from `passes`, and both lists are de-duplicated.
 */
module Classification {
  import opened Wrappers
  import opened K6Summary
  import opened KeyExtraction
  import opened GroupFlattening
  import opened Distinct

  /**
   * What `getKey` hands back for one check: the key, or `None` for the
   * `undefined` of a label without one, which is pushed all the same.
   */
  type Key = Option<string>

  /** The keys `checkMetrics` pushes into `fails`, in push order. */
  function FailKeys(checks: seq<Check>, prefix: string): seq<Key>
  {
    if checks == [] then []
    else
      var c := checks[|checks| - 1];
      FailKeys(checks[..|checks| - 1], prefix) + (if c.fails > 0 then [GetKey(c.path, prefix)] else [])
  }

  /** The keys `checkMetrics` pushes into `passes`, in push order. */
  function PassKeys(checks: seq<Check>, prefix: string): seq<Key>
  {
    if checks == [] then []
    else
      var c := checks[|checks| - 1];
      PassKeys(checks[..|checks| - 1], prefix) + (if c.fails == 0 && c.passes > 0 then [GetKey(c.path, prefix)] else [])
  }

  /** The next check of a group extends both push lists by at most its own key. */
  lemma PushNext(done: seq<Check>, checks: seq<Check>, j: nat, prefix: string)
    requires j < |checks|
    ensures var c := checks[j];
      FailKeys(done + checks[..j + 1], prefix) ==
        FailKeys(done + checks[..j], prefix) + (if c.fails > 0 then [GetKey(c.path, prefix)] else [])
    ensures var c := checks[j];
      PassKeys(done + checks[..j + 1], prefix) ==
        PassKeys(done + checks[..j], prefix) + (if c.fails == 0 && c.passes > 0 then [GetKey(c.path, prefix)] else [])
  {
    var longer := done + checks[..j + 1];
    assert longer[..|longer| - 1] == done + checks[..j];
    assert longer[|longer| - 1] == checks[j];
  }

  /** The pass list with every key that also occurs in the fail list dropped, order kept. */
  function WithoutFailed(passes: seq<Key>, fails: seq<Key>): (r: seq<Key>)
    ensures forall k :: k in r <==> k in passes && k !in fails
    ensures forall k :: multiset(r)[k] == if k in fails then 0 else multiset(passes)[k]
    ensures |r| <= |passes|
  {
    if passes == [] then []
    else
      assert passes == [passes[0]] + passes[1..];
      (if passes[0] in fails then [] else [passes[0]]) + WithoutFailed(passes[1..], fails)
  }

  /**
   * The filter keeps order: filtering a concatenation filters each part and
   * concatenates the results.
   */
  lemma {:induction false} WithoutFailedAppend(a: seq<Key>, b: seq<Key>, fails: seq<Key>)
    ensures WithoutFailed(a + b, fails) == WithoutFailed(a, fails) + WithoutFailed(b, fails)
  {
    if a == [] {
      assert a + b == b;
    } else {
      var head := if a[0] in fails then [] else [a[0]];
      assert (a + b)[0] == a[0] && (a + b)[1..] == a[1..] + b;
      var restA, restB := WithoutFailed(a[1..], fails), WithoutFailed(b, fails);
      assert WithoutFailed(a + b, fails) == head + WithoutFailed(a[1..] + b, fails);
      assert WithoutFailed(a, fails) == head + restA;
      WithoutFailedAppend(a[1..], b, fails);
      Reassociate(head, restA, restB);
    }
  }

  /** Associativity of `+` on key lists. */
  lemma Reassociate(x: seq<Key>, y: seq<Key>, z: seq<Key>)
    ensures x + (y + z) == (x + y) + z
  {
  }

  /** Some check failed and its label yields `k`. */
  ghost predicate HasFailingCheck(checks: seq<Check>, prefix: string, k: Key)
  {
    exists c :: c in checks && c.fails > 0 && GetKey(c.path, prefix) == k
  }

  /** Some check never failed, passed at least once, and its label yields `k`. */
  ghost predicate HasPassingCheck(checks: seq<Check>, prefix: string, k: Key)
  {
    exists c :: c in checks && c.fails == 0 && c.passes > 0 && GetKey(c.path, prefix) == k
  }

  /** The `fail` list `checkMetrics` returns. */
  function FailList(groups: seq<Group>, prefix: string): seq<Key>
  {
    RemoveDuplicates(FailKeys(ChecksOf(groups), prefix))
  }

  /** The `pass` list `checkMetrics` returns. */
  function PassList(groups: seq<Group>, prefix: string): seq<Key>
  {
    var checks := ChecksOf(groups);
    RemoveDuplicates(WithoutFailed(PassKeys(checks, prefix), FailKeys(checks, prefix)))
  }

  /** A key is pushed into `fails` exactly when some failing check yields it. */
  lemma {:induction false} FailKeysMembers(checks: seq<Check>, prefix: string)
    ensures forall k :: k in FailKeys(checks, prefix) <==> HasFailingCheck(checks, prefix, k)
  {
    if checks != [] {
      var n := |checks| - 1;
      FailKeysMembers(checks[..n], prefix);
      assert checks == checks[..n] + [checks[n]];
      forall k ensures HasFailingCheck(checks, prefix, k) ==> k in FailKeys(checks, prefix) {
        if HasFailingCheck(checks, prefix, k) {
          var c :| c in checks && c.fails > 0 && GetKey(c.path, prefix) == k;
          if c != checks[n] {
            assert c in checks[..n];
          }
        }
      }
    }
  }

  /** A key is pushed into `passes` exactly when some passing, never-failing check yields it. */
  lemma {:induction false} PassKeysMembers(checks: seq<Check>, prefix: string)
    ensures forall k :: k in PassKeys(checks, prefix) <==> HasPassingCheck(checks, prefix, k)
  {
    if checks != [] {
      var n := |checks| - 1;
      PassKeysMembers(checks[..n], prefix);
      assert checks == checks[..n] + [checks[n]];
      forall k ensures HasPassingCheck(checks, prefix, k) ==> k in PassKeys(checks, prefix) {
        if HasPassingCheck(checks, prefix, k) {
          var c :| c in checks && c.fails == 0 && c.passes > 0 && GetKey(c.path, prefix) == k;
          if c != checks[n] {
            assert c in checks[..n];
          }
        }
      }
    }
  }

  /**
   * The classification: `fail` holds the keys of failing checks; `pass` holds
   * the keys of checks that passed and never failed, unless that key also
   * failed elsewhere. A check with no passes and no failures adds nothing.
   */
  lemma ClassificationMembers(groups: seq<Group>, prefix: string)
    ensures var checks := ChecksOf(groups);
      forall k :: && (k in FailList(groups, prefix) <==> HasFailingCheck(checks, prefix, k))
                  && (k in PassList(groups, prefix) <==>
                        HasPassingCheck(checks, prefix, k) && !HasFailingCheck(checks, prefix, k))
  {
    FailKeysMembers(ChecksOf(groups), prefix);
    PassKeysMembers(ChecksOf(groups), prefix);
  }

  /** Fail dominates: no key is both in the pass list and in the fail list. */
  lemma FailDominates(groups: seq<Group>, prefix: string)
    ensures forall k :: !(k in PassList(groups, prefix) && k in FailList(groups, prefix))
  {
  }

  /**
   * `checkMetrics(data, prefix)`: walks every flattened group and every
   * check in it, pushing keys, then filters and de-duplicates. The source
   * calls `checks.forEach` without a guard, so every group must carry a
   * `checks` field.
   */
  method CheckMetrics(data: RunSummary, prefix: string) returns (pass: seq<Key>, fail: seq<Key>)
    requires AllHaveChecks(ExtractGroups(data))
    ensures fail == FailList(ExtractGroups(data), prefix)
    ensures pass == PassList(ExtractGroups(data), prefix)
    ensures NoDuplicates(pass) && NoDuplicates(fail)
  {
    var fails: seq<Key> := [];
    var passes: seq<Key> := [];
    var groups := ExtractGroups(data);
    var i := 0;
    while i < |groups|
      invariant 0 <= i <= |groups|
      invariant fails == FailKeys(ChecksOf(groups[..i]), prefix)
      invariant passes == PassKeys(ChecksOf(groups[..i]), prefix)
    {
      var checks := groups[i].checks.value;
      ghost var done := ChecksOf(groups[..i]);
      var j := 0;
      assert done + checks[..j] == done;
      while j < |checks|
        invariant 0 <= j <= |checks|
        invariant fails == FailKeys(done + checks[..j], prefix)
        invariant passes == PassKeys(done + checks[..j], prefix)
      {
        var value := checks[j];
        var key := GetKey(value.path, prefix);
        if value.fails > 0 {
          fails := fails + [key];
        } else if value.passes > 0 {
          passes := passes + [key];
        }
        PushNext(done, checks, j, prefix);
        j := j + 1;
      }
      assert checks[..j] == ChecksIn(groups[i]);
      ChecksOfNext(groups, i);
      i := i + 1;
    }
    assert groups[..i] == groups;
    passes := WithoutFailed(passes, fails);
    pass := RemoveDuplicates(passes);
    fail := RemoveDuplicates(fails);
  }
}
