/** The naive substring search used by the assignment-1 tests to check what
    `GetResponse` prints: `findSubstring` scans the start positions left to
    right and stops at the first match; `containsString` wraps it. */
module Substring {

  /** `sub` sits in `str` starting at index `i`. */
  predicate OccursAt(str: string, sub: string, i: int)
  {
    0 <= i && i + |sub| <= |str| && str[i..i + |sub|] == sub
  }

  /** `sub` is a contiguous slice of `str`. */
  ghost predicate Contains(str: string, sub: string)
  {
    exists i :: OccursAt(str, sub, i)
  }

  /** The first start position at or after `from` where `sub` occurs, or -1. */
  function LeftmostFrom(str: string, sub: string, from: nat): int
    decreases |str| - from
  {
    if from + |sub| > |str| then -1
    else if str[from..from + |sub|] == sub then from
    else LeftmostFrom(str, sub, from + 1)
  }

  /** The leftmost occurrence of `sub` in `str`, or -1 when there is none. */
  function Leftmost(str: string, sub: string): int
  {
    LeftmostFrom(str, sub, 0)
  }

  lemma {:induction false} LeftmostFromIsFirst(str: string, sub: string, from: nat)
    ensures var r := LeftmostFrom(str, sub, from);
            && (r == -1 || (from <= r && OccursAt(str, sub, r)))
            && (forall j :: from <= j && (r == -1 || j < r) ==> !OccursAt(str, sub, j))
    decreases |str| - from
  {
    if from + |sub| > |str| {
    } else if str[from..from + |sub|] == sub {
    } else {
      LeftmostFromIsFirst(str, sub, from + 1);
    }
  }

  /** `Leftmost` is -1 exactly when `sub` occurs nowhere, and otherwise it is
      an in-range start position of `sub` with no occurrence before it. */
  lemma LeftmostIsFirst(str: string, sub: string)
    ensures var r := Leftmost(str, sub);
            && (r == -1 <==> !Contains(str, sub))
            && (r != -1 ==> 0 <= r <= |str| - |sub| && OccursAt(str, sub, r))
            && (forall j :: 0 <= j < r ==> !OccursAt(str, sub, j))
  {
    LeftmostFromIsFirst(str, sub, 0);
  }

  /** `findSubstring`: try every start position `i` from 0 up to
      `|str| - |sub|` and return the first one whose slice equals `sub`. */
  method FindSubstring(str: string, sub: string) returns (r: int)
    ensures r == Leftmost(str, sub)
    ensures r == -1 <==> !Contains(str, sub)
    ensures r != -1 ==> 0 <= r <= |str| - |sub| && str[r..r + |sub|] == sub
    ensures forall j :: 0 <= j < r ==> !OccursAt(str, sub, j)
    ensures |sub| == 0 ==> r == 0
    ensures |sub| > |str| ==> r == -1
  {
    LeftmostIsFirst(str, sub);
    var i: nat := 0;
    while i <= |str| - |sub|
      invariant LeftmostFrom(str, sub, i) == Leftmost(str, sub)
      decreases |str| - |sub| - i
    {
      if str[i..i + |sub|] == sub {
        return i;
      }
      i := i + 1;
    }
    return -1;
  }

  /** `containsString`: the length guard followed by a search. */
  function ContainsString(str: string, sub: string): (b: bool)
    ensures b <==> Contains(str, sub)
  {
    LeftmostIsFirst(str, sub);
    |str| >= |sub| && Leftmost(str, sub) != -1
  }
}
