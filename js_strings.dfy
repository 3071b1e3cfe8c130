/**
 * The parts of JavaScript's `String.prototype` that the substring helpers of
 * src/bytelegend/utils.ts rely on: `indexOf` and `lastIndexOf` with a string
 * argument and no start position. Both return -1 when the target does not
 * occur; an empty target occurs at every index from 0 to the string's length.
 * A Dafny string is a sequence of Unicode scalar values, so indices here count
 * characters where JavaScript counts UTF-16 code units.
 */
module JsStrings {

  /** `t` occurs in `s` starting at index `i`. */
  predicate OccursAt(s: string, t: string, i: int) {
    0 <= i && i + |t| <= |s| && s[i..i + |t|] == t
  }

  /** `t` occurs somewhere in `s`. */
  ghost predicate Occurs(s: string, t: string) {
    exists i :: OccursAt(s, t, i)
  }

  /** The first occurrence of `t` in `s` at an index `i` or later, or -1. */
  function FirstOccurrenceFrom(s: string, t: string, i: nat): (r: int)
    ensures r == -1 || (i <= r && OccursAt(s, t, r))
    ensures forall j :: i <= j && (r == -1 || j < r) ==> !OccursAt(s, t, j)
    decreases |s| - i
  {
    if i + |t| > |s| then -1
    else if s[i..i + |t|] == t then i
    else FirstOccurrenceFrom(s, t, i + 1)
  }

  /** The last occurrence of `t` in `s` at an index `i` or earlier, or -1. */
  function LastOccurrenceUpTo(s: string, t: string, i: int): (r: int)
    requires i + |t| <= |s|
    ensures r == -1 || (0 <= r <= i && OccursAt(s, t, r))
    ensures forall j :: r < j <= i ==> !OccursAt(s, t, j)
    decreases i + 1
  {
    if i < 0 then -1
    else if s[i..i + |t|] == t then i
    else LastOccurrenceUpTo(s, t, i - 1)
  }

  /** `s.indexOf(t)`: the least index at which `t` occurs, or -1. */
  function IndexOf(s: string, t: string): (r: int)
    ensures r == -1 ==> forall j :: !OccursAt(s, t, j)
    ensures r != -1 ==> OccursAt(s, t, r) && forall j :: j < r ==> !OccursAt(s, t, j)
  {
    FirstOccurrenceFrom(s, t, 0)
  }

  /** `s.lastIndexOf(t)`: the greatest index at which `t` occurs, or -1. */
  function LastIndexOf(s: string, t: string): (r: int)
    ensures r == -1 ==> forall j :: !OccursAt(s, t, j)
    ensures r != -1 ==> OccursAt(s, t, r) && forall j :: r < j ==> !OccursAt(s, t, j)
  {
    if |t| > |s| then -1 else LastOccurrenceUpTo(s, t, |s| - |t|)
  }

  /** An occurrence with none before it is the one `indexOf` finds. */
  lemma IndexOfIs(s: string, t: string, k: int)
    requires OccursAt(s, t, k)
    requires forall j :: j < k ==> !OccursAt(s, t, j)
    ensures IndexOf(s, t) == k
  {
  }

  /** An occurrence with none after it is the one `lastIndexOf` finds. */
  lemma LastIndexOfIs(s: string, t: string, k: int)
    requires OccursAt(s, t, k)
    requires forall j :: k < j ==> !OccursAt(s, t, j)
    ensures LastIndexOf(s, t) == k
  {
  }

  /** A one-character target occurs exactly where that character stands. */
  lemma OccursAtChar(s: string, c: char, i: int)
    ensures OccursAt(s, [c], i) <==> 0 <= i < |s| && s[i] == c
  {
    if 0 <= i < |s| {
      assert s[i..i + 1] == [s[i]];
    }
  }

  /**
   * Joining two strings around a separator character that the first does not
   * contain can be undone: the join is injective.
   */
  lemma JoinInjective(a1: string, b1: string, a2: string, b2: string, c: char)
    requires c !in a1 && c !in a2
    requires a1 + [c] + b1 == a2 + [c] + b2
    ensures a1 == a2 && b1 == b2
  {
    var s := a1 + [c] + b1;
    forall j | j < |a1| ensures !OccursAt(s, [c], j) { OccursAtChar(s, c, j); }
    OccursAtChar(s, c, |a1|);
    IndexOfIs(s, [c], |a1|);
    forall j | j < |a2| ensures !OccursAt(s, [c], j) { OccursAtChar(s, c, j); }
    OccursAtChar(s, c, |a2|);
    IndexOfIs(s, [c], |a2|);
    assert a1 == s[..|a1|] && a2 == s[..|a2|];
    assert b1 == s[|a1| + 1..] && b2 == s[|a2| + 1..];
  }
}
