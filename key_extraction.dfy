/**
 * `getKey`: the issue key `<prefix>-<digits>` that a check path mentions.
 * The source matches the regular expression `<prefix>-\d+` globally and takes
 * the first match; here the prefix is a literal string and the match is a
 * direct scan, which finds the same leftmost, longest token.
 */
module KeyExtraction {
  import opened Wrappers

  predicate IsDigit(c: char)
  {
    '0' <= c <= '9'
  }

  predicate AllDigits(s: string)
  {
    forall k :: 0 <= k < |s| ==> IsDigit(s[k])
  }

  /** `k` is written `<prefix>-` followed by one or more digits. */
  predicate IsKeyShape(k: string, prefix: string)
  {
    && |k| >= |prefix| + 2
    && k[..|prefix|] == prefix
    && k[|prefix|] == '-'
    && AllDigits(k[|prefix| + 1..])
  }

  /** The pattern can start matching at position `i` of `path`. */
  predicate KeyStartsAt(path: string, prefix: string, i: nat)
  {
    && i + |prefix| + 2 <= |path|
    && path[i..i + |prefix|] == prefix
    && path[i + |prefix|] == '-'
    && IsDigit(path[i + |prefix| + 1])
  }

  /**
   * `k` is the pattern's match at position `i`: it occurs there, has the key
   * shape, and its digit run cannot be extended (the `+` is greedy).
   */
  predicate MatchAt(path: string, prefix: string, i: nat, k: string)
  {
    && i + |k| <= |path|
    && path[i..i + |k|] == k
    && IsKeyShape(k, prefix)
    && (i + |k| == |path| || !IsDigit(path[i + |k|]))
  }

  /** No match starts in `path[from..to]`. */
  predicate NoKeyBetween(path: string, prefix: string, from: nat, to: nat)
  {
    forall j :: from <= j < to ==> !KeyStartsAt(path, prefix, j)
  }

  /** The end of the run of digits that starts at `j`. */
  function DigitRunEnd(s: string, j: nat): (k: nat)
    requires j <= |s|
    ensures j <= k <= |s| && AllDigits(s[j..k])
    ensures j <= k <= |s| && (k == |s| || !IsDigit(s[k]))
    decreases |s| - j
  {
    if j < |s| && IsDigit(s[j]) then
      var k := DigitRunEnd(s, j + 1);
      assert s[j..k] == [s[j]] + s[j + 1..k];
      k
    else
      j
  }

  /** A match that starts at `i` has the key shape and begins with a digit after the dash. */
  lemma MatchStarts(path: string, prefix: string, i: nat, k: string)
    requires MatchAt(path, prefix, i, k)
    ensures KeyStartsAt(path, prefix, i)
  {
  }

  /** The match at `i`, when one starts there, is `path[i..DigitRunEnd(...)]`. */
  lemma MatchAtRunEnd(path: string, prefix: string, i: nat)
    requires KeyStartsAt(path, prefix, i)
    ensures MatchAt(path, prefix, i, path[i..DigitRunEnd(path, i + |prefix| + 1)])
  {
  }

  /** Leftmost match at or after `from`, scanning one position at a time. */
  function ScanKey(path: string, prefix: string, from: nat): (r: Option<string>)
    requires from <= |path|
    ensures r.None? <==> forall i :: from <= i ==> !KeyStartsAt(path, prefix, i)
    ensures r.Some? ==>
      exists i :: from <= i && MatchAt(path, prefix, i, r.value) && NoKeyBetween(path, prefix, from, i)
    decreases |path| - from
  {
    if from + |prefix| + 2 > |path| then
      None
    else if KeyStartsAt(path, prefix, from) then
      MatchAtRunEnd(path, prefix, from);
      Some(path[from..DigitRunEnd(path, from + |prefix| + 1)])
    else
      ScanKey(path, prefix, from + 1)
  }

  /**
   * `getKey(path, prefix)`: the leftmost `<prefix>-<digits>` token of
   * `path`, digits taken greedily; `None` (the source's `undefined`) when
   * the path holds no such token.
   */
  function GetKey(path: string, prefix: string): (r: Option<string>)
    ensures r.None? <==> forall i :: !KeyStartsAt(path, prefix, i)
    ensures r.Some? ==> exists i :: MatchAt(path, prefix, i, r.value) && NoKeyBetween(path, prefix, 0, i)
  {
    ScanKey(path, prefix, 0)
  }

  /** Two matches at one position are the same token. */
  lemma {:induction false} MatchAtUnique(path: string, prefix: string, i: nat, k1: string, k2: string)
    requires MatchAt(path, prefix, i, k1) && MatchAt(path, prefix, i, k2)
    ensures k1 == k2
  {
  }

  /**
   * Conversely, a token that matches at `i`, with no match starting earlier,
   * is exactly what `GetKey` returns.
   */
  lemma {:induction false} GetKeyFindsLeftmostMatch(path: string, prefix: string, i: nat, k: string)
    requires MatchAt(path, prefix, i, k)
    requires NoKeyBetween(path, prefix, 0, i)
    ensures GetKey(path, prefix) == Some(k)
  {
    MatchStarts(path, prefix, i, k);
    var r := GetKey(path, prefix);
    var i': nat :| MatchAt(path, prefix, i', r.value) && NoKeyBetween(path, prefix, 0, i');
    MatchStarts(path, prefix, i', r.value);
    MatchAtUnique(path, prefix, i, k, r.value);
  }
}
