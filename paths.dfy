/** Small facts about strings split at a separator character: `strings.SplitN(s, sep,
    2)[0]`, key prefixes, and why joining with a separator is unambiguous. */
module Paths {

  lemma ConcatAssociates<T>(a: seq<T>, b: seq<T>, c: seq<T>)
    ensures (a + b) + c == a + (b + c)
  {
  }

  /** `strings.HasPrefix`. */
  predicate HasPrefix(s: string, p: string) {
    |p| <= |s| && s[..|p|] == p
  }

  /** `strings.HasSuffix`. */
  predicate HasSuffix(s: string, p: string) {
    |p| <= |s| && s[|s| - |p|..] == p
  }

  /** The text before the first `c`, or all of `s` when `c` does not occur. */
  function BeforeFirst(s: string, c: char): (r: string)
    ensures |r| <= |s| && r == s[..|r|]
    ensures c !in r
    ensures |r| < |s| ==> s[|r|] == c
  {
    if s == [] || s[0] == c then ""
    else [s[0]] + BeforeFirst(s[1..], c)
  }

  /** The three facts above pin the result down: any prefix free of `c` that is followed
      by `c` (or is all of `s`) is `BeforeFirst(s, c)`. */
  lemma BeforeFirstUnique(s: string, c: char, r: string)
    requires |r| <= |s| && r == s[..|r|] && c !in r
    requires |r| < |s| ==> s[|r|] == c
    ensures BeforeFirst(s, c) == r
  {
  }

  lemma BeforeFirstOfJoined(a: string, c: char, b: string)
    requires c !in a
    ensures BeforeFirst(a + [c] + b, c) == a
  {
    BeforeFirstUnique(a + [c] + b, c, a);
  }

  lemma BeforeFirstOfWhole(a: string, c: char)
    requires c !in a
    ensures BeforeFirst(a, c) == a
  {
    BeforeFirstUnique(a, c, a);
  }

  /** Joining two parts with a separator the first part cannot contain is injective. */
  lemma JoinedUnique(a1: string, b1: string, a2: string, b2: string, c: char)
    requires c !in a1 && c !in a2
    requires a1 + [c] + b1 == a2 + [c] + b2
    ensures a1 == a2 && b1 == b2
  {
    BeforeFirstOfJoined(a1, c, b1);
    BeforeFirstOfJoined(a2, c, b2);
    var s := a1 + [c] + b1;
    assert b1 == s[|a1| + 1..];
    assert b2 == s[|a2| + 1..];
  }
}
