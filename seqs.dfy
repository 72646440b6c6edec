/**
 * The two Python list built-ins the game relies on, stated over Dafny
 * sequences: `max(xs, key=f)` and `xs.remove(x)`, together with the first
 * occurrence that `remove` deletes.
 */
module Seqs {

  /** Index of the element `max(s, key=key)` returns. Python's max scans from
      the front and replaces its current best only on a strictly greater key,
      so among equal maxima the earliest one wins. */
  function FirstMaxBy<T>(s: seq<T>, key: T -> int): (i: nat)
    requires |s| > 0
    ensures i < |s|
    ensures forall k :: 0 <= k < |s| ==> key(s[k]) <= key(s[i])
    ensures forall k :: 0 <= k < i ==> key(s[k]) < key(s[i])
  {
    if |s| == 1 then 0
    else
      var b := FirstMaxBy(s[..|s| - 1], key);
      if key(s[|s| - 1]) > key(s[b]) then |s| - 1 else b
  }

  /** The position of the first occurrence of `x`, the one `s.remove(x)` deletes. */
  function IndexOf<T(==)>(s: seq<T>, x: T): (i: nat)
    requires x in s
    ensures i < |s| && s[i] == x
    ensures x !in s[..i]
  {
    if s[0] == x then 0
    else
      var j := IndexOf(s[1..], x);
      assert s[..j + 1] == [s[0]] + s[1..][..j];
      j + 1
  }

  /** `s.remove(x)`: drops the first occurrence of `x` and keeps the order of
      everything else. Python raises ValueError when `x` is absent. */
  function RemoveFirst<T(==)>(s: seq<T>, x: T): (r: seq<T>)
    requires x in s
    ensures |r| == |s| - 1
    ensures multiset(r) == multiset(s) - multiset{x}
    ensures forall k :: 0 <= k < IndexOf(s, x) ==> r[k] == s[k]
    ensures forall k :: IndexOf(s, x) <= k < |r| ==> r[k] == s[k + 1]
  {
    var i := IndexOf(s, x);
    DropAt(s, i);
    s[..i] + s[i + 1..]
  }

  /** Dropping position i removes exactly one copy of s[i]. */
  lemma DropAt<T>(s: seq<T>, i: nat)
    requires i < |s|
    ensures multiset(s[..i] + s[i + 1..]) == multiset(s) - multiset{s[i]}
  {
    assert s == s[..i] + [s[i]] + s[i + 1..];
  }

  /** `x` is what `max(s, key=key)` returns: a maximal element with no
      element of equal key before its first occurrence. */
  ghost predicate IsFirstMax<T>(s: seq<T>, key: T -> int, x: T) {
    && x in s
    && (forall k :: 0 <= k < |s| ==> key(s[k]) <= key(x))
    && (forall k :: 0 <= k < IndexOf(s, x) ==> key(s[k]) < key(x))
  }

  /** The element at `FirstMaxBy` is the one max returns. */
  lemma FirstMaxByIsFirstMax<T>(s: seq<T>, key: T -> int)
    requires |s| > 0
    ensures IsFirstMax(s, key, s[FirstMaxBy(s, key)])
  {
  }

  /** At most one element satisfies IsFirstMax, so it pins down max's result. */
  lemma FirstMaxUnique<T>(s: seq<T>, key: T -> int, x: T, y: T)
    requires IsFirstMax(s, key, x) && IsFirstMax(s, key, y)
    ensures x == y
  {
  }
}
