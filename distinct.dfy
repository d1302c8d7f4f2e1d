/** `removeDuplicates`: the distinct values of a list, through a JavaScript `Set`. */
module Distinct {

  /** No value occurs twice. */
  predicate NoDuplicates<T(==)>(s: seq<T>)
  {
    forall i, j :: 0 <= i < j < |s| ==> s[i] != s[j]
  }

  /** Position of the first occurrence of `x` in `s`. */
  function FirstIndex<T(==)>(s: seq<T>, x: T): (r: nat)
    requires x in s
    ensures r < |s| && s[r] == x && x !in s[..r]
  {
    if s[0] == x then 0
    else
      var r := 1 + FirstIndex(s[1..], x);
      assert s[..r] == [s[0]] + s[1..][..r - 1];
      r
  }

  /**
   * The values of `s` in the order a JavaScript `Set` keeps them: each value
   * is inserted when first met and later occurrences are ignored.
   */
  function RemoveDuplicates<T(==,!new)>(s: seq<T>): (r: seq<T>)
    ensures forall x :: x in r <==> x in s
    ensures NoDuplicates(r)
  {
    if s == [] then []
    else
      var d := RemoveDuplicates(s[..|s| - 1]);
      var x := s[|s| - 1];
      assert forall y :: y in s <==> y in s[..|s| - 1] || y == x by {
        assert s == s[..|s| - 1] + [x];
      }
      if x in d then d else d + [x]
  }

  /** The first occurrence of a value lies in the part of `s` it occurs in first. */
  lemma FirstIndexInPrefix<T>(s: seq<T>, t: seq<T>, x: T)
    requires x in s
    ensures x in s + t && FirstIndex(s + t, x) == FirstIndex(s, x)
  {
    var k := FirstIndex(s, x);
    var k' := FirstIndex(s + t, x);
    assert (s + t)[k] == x;
  }

  /** The values of `r`, all taken from `s`, are ordered by where they first occur in `s`. */
  predicate InFirstOccurrenceOrder<T(==)>(r: seq<T>, s: seq<T>)
  {
    && (forall k :: 0 <= k < |r| ==> r[k] in s)
    && forall i, j :: 0 <= i < j < |r| ==> FirstIndex(s, r[i]) < FirstIndex(s, r[j])
  }

  /** Values come out in the order of their first occurrence in the input. */
  lemma {:induction false} RemoveDuplicatesKeepsFirstOccurrenceOrder<T(!new)>(s: seq<T>)
    ensures InFirstOccurrenceOrder(RemoveDuplicates(s), s)
  {
    if s != [] {
      var n := |s| - 1;
      var p, x := s[..n], s[n];
      assert s == p + [x];
      var d := RemoveDuplicates(p);
      RemoveDuplicatesKeepsFirstOccurrenceOrder(p);
      forall k | 0 <= k < |d|
        ensures d[k] in p && FirstIndex(s, d[k]) == FirstIndex(p, d[k])
      {
        assert d[k] in d;
        FirstIndexInPrefix(p, [x], d[k]);
      }
      if x !in d {
        assert x !in p;
        assert FirstIndex(s, x) == n;
        var r := d + [x];
        forall i, j | 0 <= i < j < |r|
          ensures FirstIndex(s, r[i]) < FirstIndex(s, r[j])
        {
          assert r[i] == d[i];
          if j < |d| {
            assert r[j] == d[j];
            assert FirstIndex(p, d[i]) < FirstIndex(p, d[j]);
          } else {
            assert r[j] == x;
            assert FirstIndex(p, d[i]) < |p|;
          }
        }
      }
    }
  }
}
