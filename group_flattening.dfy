/**
 * `extractGroups`: the group tree flattened depth-first, pre-order. The
 * source folds over the child list, appending each group and then, when it
 * has a `groups` field, the flattening of its own children.
 */
module GroupFlattening {
  import opened K6Summary

  /** The fold of `extractGroups`: everything before the last group, then it, then its subtree. */
  function Flatten(groups: seq<Group>): seq<Group>
  {
    if groups == [] then []
    else
      var g := groups[|groups| - 1];
      Flatten(groups[..|groups| - 1]) + [g] + Flatten(g.children)
  }

  /** The flattening of the root group's children; the root itself is not listed. */
  function ExtractGroups(data: RunSummary): seq<Group>
  {
    Flatten(data.rootGroup.children)
  }

  /** Every group of the forest, counted once per place it occupies in the tree. */
  function TreeGroups(groups: seq<Group>): multiset<Group>
  {
    if groups == [] then multiset{}
    else multiset{groups[0]} + TreeGroups(groups[0].children) + TreeGroups(groups[1..])
  }

  /** Flattening distributes over concatenation of sibling lists. */
  lemma {:induction false} FlattenAppend(a: seq<Group>, b: seq<Group>)
    ensures Flatten(a + b) == Flatten(a) + Flatten(b)
    decreases |b|
  {
    if b == [] {
      assert a + b == a;
    } else {
      var n := |b| - 1;
      assert (a + b)[..|a + b| - 1] == a + b[..n];
      assert (a + b)[|a + b| - 1] == b[n];
      FlattenAppend(a, b[..n]);
    }
  }

  /**
   * Pre-order, read from the front: the first group, then the flattening of
   * its children, then the flattening of its later siblings.
   */
  lemma {:induction false} FlattenPreOrder(groups: seq<Group>)
    requires groups != []
    ensures Flatten(groups) == [groups[0]] + Flatten(groups[0].children) + Flatten(groups[1..])
  {
    assert groups == [groups[0]] + groups[1..];
    FlattenAppend([groups[0]], groups[1..]);
    assert [groups[0]][..0] == [];
  }

  /** Each group appears in the flattening exactly as often as it occurs in the tree. */
  lemma {:induction false} FlattenListsEveryGroupOnce(groups: seq<Group>)
    ensures multiset(Flatten(groups)) == TreeGroups(groups)
    ensures |Flatten(groups)| == |TreeGroups(groups)|
  {
    if groups != [] {
      FlattenPreOrder(groups);
      FlattenListsEveryGroupOnce(groups[0].children);
      FlattenListsEveryGroupOnce(groups[1..]);
    }
    assert |multiset(Flatten(groups))| == |Flatten(groups)|;
  }

  /** The group at `i` of `f` is followed immediately by the flattening of its children. */
  predicate SubtreeFollows(f: seq<Group>, i: nat)
    requires i < |f|
  {
    var sub := Flatten(f[i].children);
    i + 1 + |sub| <= |f| && f[i + 1..i + 1 + |sub|] == sub
  }

  lemma SubtreeFollowsAppend(a: seq<Group>, b: seq<Group>, i: nat)
    requires i < |a| && SubtreeFollows(a, i)
    ensures SubtreeFollows(a + b, i)
  {
  }

  lemma SubtreeFollowsPrepend(a: seq<Group>, b: seq<Group>, i: nat)
    requires i < |b| && SubtreeFollows(b, i)
    ensures SubtreeFollows(a + b, |a| + i)
  {
  }

  /**
   * Each listed group is followed immediately by the flattening of its own
   * children.
   */
  lemma {:induction false} FlattenSubtreeFollows(groups: seq<Group>, i: nat)
    requires i < |Flatten(groups)|
    ensures SubtreeFollows(Flatten(groups), i)
    decreases |Flatten(groups)|
  {
    FlattenPreOrder(groups);
    var first := [groups[0]] + Flatten(groups[0].children);
    var rest := Flatten(groups[1..]);
    assert Flatten(groups) == first + rest;
    if i == 0 {
      assert first[1..] == Flatten(groups[0].children);
      assert SubtreeFollows(first, 0);
      SubtreeFollowsAppend(first, rest, 0);
    } else if i < |first| {
      FlattenSubtreeFollows(groups[0].children, i - 1);
      SubtreeFollowsPrepend([groups[0]], Flatten(groups[0].children), i - 1);
      SubtreeFollowsAppend(first, rest, i);
    } else {
      FlattenSubtreeFollows(groups[1..], i - |first|);
      SubtreeFollowsPrepend(first, rest, i - |first|);
    }
  }
}
