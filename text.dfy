/**
 * Ordinal string search: the substring tests the classifier is built from, and the
 * non-overlapping, left-to-right occurrence count of `CountOccurrences`.
 */
module Text {

  /** `sub` occurs in `s` starting at position `i`. */
  predicate OccursAt(s: string, sub: string, i: nat)
  {
    i + |sub| <= |s| && s[i..i + |sub|] == sub
  }

  /** `s.Contains(sub)`: `sub` occurs somewhere in `s`. */
  predicate Contains(s: string, sub: string)
  {
    exists i :: 0 <= i <= |s| - |sub| && OccursAt(s, sub, i)
  }

  /** `s.StartsWith(prefix)`. */
  predicate StartsWith(s: string, prefix: string)
  {
    |prefix| <= |s| && s[..|prefix|] == prefix
  }

  /**
   * `s.IndexOf(sub, start)`: the first position at or after `start` where `sub`
   * occurs, or -1 when there is none. A start beyond the end of `s` is an error
   * in .NET and is excluded here; the count never asks for one.
   */
  function IndexOf(s: string, sub: string, start: nat): (r: int)
    requires start <= |s|
    ensures r == -1 || (start <= r && OccursAt(s, sub, r))
    ensures r != -1 ==> forall i :: start <= i < r ==> !OccursAt(s, sub, i)
    ensures r == -1 ==> forall i :: start <= i ==> !OccursAt(s, sub, i)
    decreases |s| - start
  {
    if OccursAt(s, sub, start) then start
    else if start == |s| then -1
    else IndexOf(s, sub, start + 1)
  }

  /**
   * Reference definition of the positions `CountOccurrences` counts: scanning from
   * `from` left to right, take every occurrence that does not overlap the previous
   * one taken.
   */
  function Hits(s: string, sub: string, from: nat): seq<nat>
    requires |sub| > 0
    decreases |s| - from
  {
    if |s| < from + |sub| then []
    else if OccursAt(s, sub, from) then [from] + Hits(s, sub, from + |sub|)
    else Hits(s, sub, from + 1)
  }

  /** The number of non-overlapping occurrences of `sub` in `s`, taken left to right. */
  function Occurrences(s: string, sub: string): nat
    requires |sub| > 0
  {
    |Hits(s, sub, 0)|
  }

  /** Every hit is an occurrence at or after `from`, and consecutive hits do not overlap. */
  lemma {:induction false} HitsAreDisjointOccurrences(s: string, sub: string, from: nat)
    requires |sub| > 0
    ensures forall k :: 0 <= k < |Hits(s, sub, from)| ==>
              from <= Hits(s, sub, from)[k] && OccursAt(s, sub, Hits(s, sub, from)[k])
    ensures forall k :: 0 <= k < |Hits(s, sub, from)| - 1 ==>
              Hits(s, sub, from)[k] + |sub| <= Hits(s, sub, from)[k + 1]
    decreases |s| - from
  {
    if |s| < from + |sub| {
    } else if OccursAt(s, sub, from) {
      HitsAreDisjointOccurrences(s, sub, from + |sub|);
    } else {
      HitsAreDisjointOccurrences(s, sub, from + 1);
    }
  }

  /**
   * Left-to-right greediness: every occurrence at or after `from` is either a hit or
   * starts inside a hit that was taken before it. Together with the lemma above this
   * fixes the hits uniquely.
   */
  lemma {:induction false} HitsCoverEveryOccurrence(s: string, sub: string, from: nat, p: nat)
    requires |sub| > 0
    requires from <= p && OccursAt(s, sub, p)
    ensures exists k :: 0 <= k < |Hits(s, sub, from)| &&
              Hits(s, sub, from)[k] <= p < Hits(s, sub, from)[k] + |sub|
    decreases |s| - from
  {
    var h := Hits(s, sub, from);
    if OccursAt(s, sub, from) {
      if p < from + |sub| {
        assert h[0] == from;
      } else {
        var t := Hits(s, sub, from + |sub|);
        assert h == [from] + t;
        HitsCoverEveryOccurrence(s, sub, from + |sub|, p);
        var k :| 0 <= k < |t| && t[k] <= p < t[k] + |sub|;
        assert h[k + 1] == t[k];
      }
    } else {
      assert p != from;
      HitsCoverEveryOccurrence(s, sub, from + 1, p);
    }
  }

  /** Non-overlapping hits fit in what is left of the text: count * |sub| <= |s| - from. */
  lemma {:induction false} HitsBound(s: string, sub: string, from: nat)
    requires |sub| > 0 && from <= |s|
    ensures |Hits(s, sub, from)| * |sub| <= |s| - from
    decreases |s| - from
  {
    if |s| < from + |sub| {
    } else if OccursAt(s, sub, from) {
      HitsBound(s, sub, from + |sub|);
      var n := |Hits(s, sub, from + |sub|)|;
      assert |Hits(s, sub, from)| == n + 1;
      assert (n + 1) * |sub| == n * |sub| + |sub|;
    } else {
      HitsBound(s, sub, from + 1);
    }
  }

  /** Positions with no occurrence can be skipped without changing the hits. */
  lemma {:induction false} HitsSkip(s: string, sub: string, i: nat, j: nat)
    requires |sub| > 0 && i <= j
    requires forall p :: i <= p < j ==> !OccursAt(s, sub, p)
    ensures Hits(s, sub, i) == Hits(s, sub, j)
    decreases j - i
  {
    if i < j {
      if |s| < i + |sub| {
        HitsEmptyPastEnd(s, sub, j);
      } else {
        HitsSkip(s, sub, i + 1, j);
      }
    }
  }

  lemma {:induction false} HitsEmptyPastEnd(s: string, sub: string, j: nat)
    requires |sub| > 0
    requires forall p :: j <= p ==> !OccursAt(s, sub, p)
    ensures Hits(s, sub, j) == []
    decreases |s| - j
  {
    if |s| >= j + |sub| {
      HitsEmptyPastEnd(s, sub, j + 1);
    }
  }

  /**
   * `CountOccurrences`: repeatedly search from `index`, and after each hit resume
   * the search just past it. The needle must be non-empty: on "" `IndexOf` returns
   * `index` itself and the C# loop never ends.
   */
  method CountOccurrences(source: string, substring: string) returns (count: nat)
    requires |substring| > 0
    ensures count == Occurrences(source, substring)
    ensures count * |substring| <= |source|
  {
    count := 0;
    var index: nat := 0;
    while true
      invariant index <= |source|
      invariant count + |Hits(source, substring, index)| == Occurrences(source, substring)
      decreases |source| - index
    {
      var found := IndexOf(source, substring, index);
      if found == -1 {
        HitsEmptyPastEnd(source, substring, index);
        break;
      }
      HitsSkip(source, substring, index, found);
      index := found + |substring|;
      count := count + 1;
    }
    HitsBound(source, substring, 0);
  }

  /** "addadd" holds two non-overlapping "add"; "aaa" holds one "aa", not two. */
  lemma CountExamples()
    ensures Occurrences("addadd", "add") == 2
    ensures Occurrences("aaa", "aa") == 1
  {
    assert OccursAt("addadd", "add", 0);
    assert OccursAt("addadd", "add", 3);
    assert Hits("addadd", "add", 6) == [];
    assert Hits("addadd", "add", 3) == [3];
    assert Hits("addadd", "add", 0) == [0, 3];
    assert OccursAt("aaa", "aa", 0);
    assert Hits("aaa", "aa", 2) == [];
    assert Hits("aaa", "aa", 0) == [0];
  }
}
