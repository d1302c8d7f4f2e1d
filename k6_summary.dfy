/**
 * The part of k6's end-of-run summary that the report generator reads:
 * the tree of groups under `root_group`, each with an optional list of
 * check counters.
 */
module K6Summary {
  import opened Wrappers

  /** One check counter: its label and how often it passed and failed. */
  datatype Check = Check(path: string, passes: nat, fails: nat)

  /**
   * A group of the summary. `checks` is `None` when the group carries no
   * `checks` field; a group without a `groups` field has no children.
   */
  datatype Group = Group(checks: Option<seq<Check>>, children: seq<Group>)

  /** The summary object, reduced to its `root_group`. */
  datatype RunSummary = RunSummary(rootGroup: Group)

  /** Every group carries a `checks` field. */
  predicate AllHaveChecks(groups: seq<Group>)
  {
    forall i :: 0 <= i < |groups| ==> groups[i].checks.Some?
  }

  /** The checks of a group, or none when it has no `checks` field. */
  function ChecksIn(g: Group): seq<Check>
  {
    match g.checks
    case Some(cs) => cs
    case None => []
  }

  /** The checks of the given groups, group by group, in order. */
  function ChecksOf(groups: seq<Group>): seq<Check>
  {
    if groups == [] then []
    else ChecksOf(groups[..|groups| - 1]) + ChecksIn(groups[|groups| - 1])
  }

  /** Taking one more group adds its checks at the end. */
  lemma ChecksOfNext(groups: seq<Group>, i: nat)
    requires i < |groups|
    ensures ChecksOf(groups[..i + 1]) == ChecksOf(groups[..i]) + ChecksIn(groups[i])
  {
    assert groups[..i + 1][..i] == groups[..i];
  }

  /** A check belongs to the checks of some listed group that has a `checks` field. */
  lemma {:induction false} ChecksOfMember(groups: seq<Group>, c: Check)
    ensures c in ChecksOf(groups) <==> exists i :: 0 <= i < |groups| && c in ChecksIn(groups[i])
  {
    if groups != [] {
      var n := |groups| - 1;
      ChecksOfMember(groups[..n], c);
      if c in ChecksIn(groups[n]) {
        assert c in ChecksOf(groups);
      }
      if exists i :: 0 <= i < |groups| && c in ChecksIn(groups[i]) {
        var i :| 0 <= i < |groups| && c in ChecksIn(groups[i]);
        if i < n {
          assert groups[..n][i] == groups[i];
        }
      }
    }
  }
}
