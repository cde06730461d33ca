/** `ArrayUtil`: searching an array for a sequence from either end, and reversing in place. */
module ArraySearch {
  /* ---- What is searched for ---- */

  /** The sequence `t` stands in `s` at `i`. */
  predicate Occurs(s: seq<int>, t: seq<int>, i: int) {
    0 <= i <= |s| - |t| && forall k :: 0 <= k < |t| ==> s[i + k] == t[k]
  }

  predicate NoneFrom(s: seq<int>, t: seq<int>, lo: int, hi: int) {
    forall i :: lo <= i < hi ==> !Occurs(s, t, i)
  }

  /** The least place at or after `from`, or -1. */
  predicate IsFirst(s: seq<int>, t: seq<int>, from: int, r: int) {
    if r == -1 then NoneFrom(s, t, from, |s| + 1) else from <= r && Occurs(s, t, r) && NoneFrom(s, t, from, r)
  }

  /** The greatest place at or before `start`, or -1. */
  predicate IsLast(s: seq<int>, t: seq<int>, start: int, r: int) {
    if r == -1 then NoneFrom(s, t, 0, start + 1) else r <= start && Occurs(s, t, r) && NoneFrom(s, t, r + 1, start + 1)
  }

  lemma {:induction false} FirstIsUnique(s: seq<int>, t: seq<int>, from: nat, q: int, r: int)
    requires IsFirst(s, t, from, q) && IsFirst(s, t, from, r)
    ensures q == r
  {
  }

  /** A start index as `indexOf` takes it. */
  function Clamped(startIndex: int, length: nat): (from: nat)
    ensures from <= length
  {
    if startIndex < 0 then 0 else if startIndex >= length then length else startIndex
  }

  /** A start beyond the end finds nothing, as documented, just when there is something to find:
      the empty sequence is found at the end. */
  lemma StartBeyondEnd(s: seq<int>, t: seq<int>, startIndex: int, r: int)
    requires startIndex >= |s| && IsFirst(s, t, Clamped(startIndex, |s|), r)
    ensures r == -1 <==> t != []
    ensures t == [] ==> r == |s|
  {
    if t == [] {
      assert Occurs(s, t, |s|);
    }
  }

  /** A start below zero counts as zero, as documented. */
  lemma StartBelowZero(s: seq<int>, t: seq<int>, startIndex: int, r: int)
    requires startIndex < 0 && IsFirst(s, t, Clamped(startIndex, |s|), r)
    ensures IsFirst(s, t, 0, r)
  {
  }

  /** Searching `[7]` for the empty sequence from index 5 on gives 1. */
  lemma EmptyBeyondEnd(r: int)
    requires IsFirst([7], [], Clamped(5, 1), r)
    ensures r == 1
  {
    StartBeyondEnd([7], [], 5, r);
  }

  /* ---- The searches ---- */

  /** What `indexOf` finds at `i`, behind the first element: whether the rest agrees. */
  method RestAgrees(source: array<int>, target: array<int>, i: nat) returns (found: bool)
    requires 0 < target.Length && i + target.Length <= source.Length && source[i] == target[0]
    ensures found <==> Occurs(source[..], target[..], i)
  {
    var j := i + 1;
    var end := (j + target.Length) - 1;
    var k := 1;
    while j < end
      invariant j == i + k && 1 <= k <= target.Length
      invariant forall m :: 0 <= m < k ==> source[i + m] == target[m]
    {
      if source[j] != target[k] {
        assert !Occurs(source[..], target[..], i) by {
          assert source[..][i + k] != target[..][k];
        }
        return false;
      }
      j, k := j + 1, k + 1;
    }
    return true;
  }

  method IndexOf(source: array?<int>, target: array?<int>, startIndex: int) returns (r: int)
    ensures source == null || target == null ==> r == -1
    ensures source != null && target != null ==> IsFirst(source[..], target[..], Clamped(startIndex, source.Length), r)
  {
    if source == null || target == null {
      return -1;
    }
    var sourceLength, targetLength := source.Length, target.Length;
    if startIndex >= sourceLength {
      return if targetLength == 0 then sourceLength else -1;
    }
    var from := if startIndex < 0 then 0 else startIndex;
    if targetLength == 0 {
      return from;
    }
    var first := target[0];
    var i := from;
    var max := sourceLength - targetLength;
    while true
      invariant from <= i && NoneFrom(source[..], target[..], from, i)
      decreases sourceLength - i
    {
      while i <= max && source[i] != first
        invariant from <= i && NoneFrom(source[..], target[..], from, i)
        decreases max - i
      {
        assert source[..][i + 0] != target[..][0];
        i := i + 1;
      }
      if i > max {
        return -1;
      }
      var found := RestAgrees(source, target, i);
      if found {
        return i;
      }
      i := i + 1;
    }
  }

  /** What `lastIndexOf` finds before the last element at `i`. */
  method RestAgreesBackwards(source: array<int>, target: array<int>, i: nat) returns (start: int, found: bool)
    requires 0 < target.Length <= i + 1 <= source.Length && source[i] == target[target.Length - 1]
    ensures start == i - target.Length
    ensures found <==> Occurs(source[..], target[..], start + 1)
  {
    var n := target.Length;
    var j := i - 1;
    start := j - (n - 1);
    var k := n - 2;
    while j > start
      invariant j - k == start + 1 && -1 <= k <= n - 2
      invariant forall m :: k < m < n ==> source[start + 1 + m] == target[m]
    {
      if source[j] != target[k] {
        assert !Occurs(source[..], target[..], start + 1) by {
          assert source[..][start + 1 + k] != target[..][k];
        }
        return start, false;
      }
      j, k := j - 1, k - 1;
    }
    return start, true;
  }

  method LastIndexOf(source: array?<int>, target: array?<int>, startIndex: int) returns (r: int)
    ensures source == null || target == null ==> r == -1
    ensures source != null && target != null ==> IsLast(source[..], target[..], startIndex, r)
  {
    if source == null || target == null {
      return -1;
    }
    var sourceLength, targetLength := source.Length, target.Length;
    var rightIndex := sourceLength - targetLength;
    if startIndex < 0 {
      return -1;
    }
    var from := if startIndex > rightIndex then rightIndex else startIndex;
    if targetLength == 0 {
      return from;
    }
    var lastIndex := targetLength - 1;
    var last := target[lastIndex];
    var min := targetLength - 1;
    var i := min + from;
    while true
      invariant i <= min + from && NoneFrom(source[..], target[..], i - min + 1, startIndex + 1)
      decreases i - min
    {
      while i >= min && source[i] != last
        invariant i <= min + from && NoneFrom(source[..], target[..], i - min + 1, startIndex + 1)
        decreases i - min
      {
        assert source[..][i - min + lastIndex] != target[..][lastIndex];
        i := i - 1;
      }
      if i < min {
        return -1;
      }
      var start, found := RestAgreesBackwards(source, target, i);
      if found {
        return start + 1;
      }
      i := i - 1;
    }
  }

  /* ---- Reversing ---- */

  function Reversed(s: seq<int>): (r: seq<int>)
    ensures |r| == |s|
  {
    seq(|s|, i requires 0 <= i < |s| => s[|s| - 1 - i])
  }

  lemma {:induction false} ReversedTwice(s: seq<int>)
    ensures Reversed(Reversed(s)) == s
  {
  }

  method Reverse(source: array?<int>)
    modifies if source == null then {} else {source}
    ensures source != null ==> source[..] == Reversed(old(source[..]))
  {
    if source == null {
      return;
    }
    var i, j := 0, source.Length - 1;
    while j > i
      invariant 0 <= i <= j + 1 && i + j == source.Length - 1
      invariant forall k :: 0 <= k < i || j < k < source.Length ==> source[k] == old(source[..])[source.Length - 1 - k]
      invariant forall k :: i <= k <= j ==> source[k] == old(source[..])[k]
      decreases j - i
    {
      var tmp := source[j];
      source[j] := source[i];
      source[i] := tmp;
      i, j := i + 1, j - 1;
    }
  }

  /* ---- Duality ---- */

  lemma OccursIfReversed(s: seq<int>, t: seq<int>, i: int)
    requires Occurs(s, t, i)
    ensures Occurs(Reversed(s), Reversed(t), |s| - |t| - i)
  {
    var j := |s| - |t| - i;
    forall k | 0 <= k < |t| ensures Reversed(s)[j + k] == Reversed(t)[k] {
      assert s[i + (|t| - 1 - k)] == t[|t| - 1 - k];
    }
  }

  lemma OccursOnlyIfReversed(s: seq<int>, t: seq<int>, i: int, s': seq<int>, t': seq<int>)
    requires s' == Reversed(s) && t' == Reversed(t) && Occurs(s', t', |s| - |t| - i)
    ensures Occurs(s, t, i)
  {
    OccursIfReversed(s', t', |s| - |t| - i);
    ReversedTwice(s);
    ReversedTwice(t);
  }

  lemma OccursReversed(s: seq<int>, t: seq<int>, i: int)
    ensures Occurs(s, t, i) <==> Occurs(Reversed(s), Reversed(t), |s| - |t| - i)
  {
    var s', t' := Reversed(s), Reversed(t);
    if Occurs(s', t', |s| - |t| - i) {
      OccursOnlyIfReversed(s, t, i, s', t');
    } else if Occurs(s, t, i) {
      OccursIfReversed(s, t, i);
    }
  }

  lemma {:induction false} NoneReversed(s: seq<int>, t: seq<int>, lo: int, hi: int)
    requires NoneFrom(s, t, lo, hi)
    ensures NoneFrom(Reversed(s), Reversed(t), |s| - |t| - hi + 1, |s| - |t| - lo + 1)
  {
    forall i | |s| - |t| - hi + 1 <= i < |s| - |t| - lo + 1 ensures !Occurs(Reversed(s), Reversed(t), i) {
      OccursReversed(s, t, |s| - |t| - i);
    }
  }

  lemma {:induction false} LastIsFirstReversed(s: seq<int>, t: seq<int>, start: nat, r: int)
    requires IsLast(s, t, start, r)
    ensures IsFirst(Reversed(s), Reversed(t), Clamped(|s| - |t| - start, |s|), if r == -1 then -1 else |s| - |t| - r)
  {
    if r == -1 {
      NoneReversed(s, t, 0, start + 1);
    } else {
      OccursReversed(s, t, r);
      NoneReversed(s, t, r + 1, start + 1);
    }
  }

  /** Searching from the end is searching the reversed array for the reversed sequence, counted
      from the other end; both find nothing together. */
  lemma {:induction false} Duality(s: seq<int>, t: seq<int>, start: nat, last: int, first: int)
    requires IsLast(s, t, start, last) && IsFirst(Reversed(s), Reversed(t), Clamped(|s| - |t| - start, |s|), first)
    ensures last == if first == -1 then -1 else |s| - |t| - first
  {
    LastIsFirstReversed(s, t, start, last);
    FirstIsUnique(Reversed(s), Reversed(t), Clamped(|s| - |t| - start, |s|), first,
      if last == -1 then -1 else |s| - |t| - last);
  }
}
