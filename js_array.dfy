/**
 * The three JavaScript array operations the vote code uses, with the
 * language's own semantics: `indexOf` answers -1 for a missing element and
 * `splice(start, 1)` counts a negative `start` from the end of the array.
 */
module JsArray {

  /** `s.indexOf(x)`: the first position of `x` in `s`, or -1 when it is absent. */
  function IndexOf<T(==)>(s: seq<T>, x: T): (i: int)
    ensures -1 <= i < |s|
    ensures i == -1 <==> x !in s
    ensures 0 <= i ==> s[i] == x && x !in s[..i]
  {
    if |s| == 0 then -1
    else if s[0] == x then 0
    else
      var j := IndexOf(s[1..], x);
      assert s[1..][..j + 1] == s[1..j + 2] by { if j >= 0 { assert s[1..][..j] == s[1..j + 1]; } }
      if j == -1 then -1 else j + 1
  }

  /** `s` without the element at position `k`. */
  function RemoveAt<T>(s: seq<T>, k: nat): (r: seq<T>)
    requires k < |s|
    ensures |r| == |s| - 1
    ensures forall i :: 0 <= i < k ==> r[i] == s[i]
    ensures forall i :: k <= i < |r| ==> r[i] == s[i + 1]
  {
    s[..k] + s[k + 1..]
  }

  /** The position `splice` starts at: a negative start counts from the end, clamped to the bounds. */
  function SpliceStart(len: nat, start: int): (k: nat)
    ensures k <= len
    ensures k < len <==> 0 < len && start < len
    ensures start < 0 && len + start >= 0 ==> k == len + start
    ensures 0 <= start <= len ==> k == start
  {
    if start < 0 then (if len + start < 0 then 0 else len + start)
    else if start > len then len
    else start
  }

  /** `s.splice(start, 1)`: remove the one element at the (normalised) start, if there is one. */
  function Splice<T>(s: seq<T>, start: int): (r: seq<T>)
    ensures |r| == |s| - (if 0 < |s| && start < |s| then 1 else 0)
    ensures 0 < |s| && start < |s| ==> r == RemoveAt(s, SpliceStart(|s|, start))
    ensures start >= |s| ==> r == s
  {
    var k := SpliceStart(|s|, start);
    if k < |s| then RemoveAt(s, k) else s
  }

  /** `s.push(x)`. */
  function Push<T>(s: seq<T>, x: T): (r: seq<T>)
    ensures |r| == |s| + 1 && r[..|s|] == s && r[|s|] == x
  {
    s + [x]
  }

  /** The number of occurrences of `x` in `s`. */
  function Count<T(==)>(s: seq<T>, x: T): nat
  {
    multiset(s)[x]
  }

  /** Removing position `k` removes one occurrence of the element there. */
  lemma RemoveAtMultiset<T>(s: seq<T>, k: nat)
    requires k < |s|
    ensures multiset(RemoveAt(s, k)) == multiset(s) - multiset{s[k]}
  {
    assert s == s[..k] + [s[k]] + s[k + 1..];
  }

  /** `splice(indexOf(x), 1)` removes exactly one occurrence of a present `x` and nothing else. */
  lemma SpliceIndexOfRemovesOne<T>(s: seq<T>, x: T)
    requires x in s
    ensures |Splice(s, IndexOf(s, x))| == |s| - 1
    ensures multiset(Splice(s, IndexOf(s, x))) == multiset(s) - multiset{x}
  {
    var k := IndexOf(s, x);
    assert 0 <= k && s[k] == x;
    assert Splice(s, k) == RemoveAt(s, k);
    RemoveAtMultiset(s, k);
  }

  /** With the index -1 of an absent element, `splice` drops the last element of a non-empty array. */
  lemma SpliceMinusOneDropsLast<T>(s: seq<T>)
    requires |s| > 0
    ensures Splice(s, -1) == s[..|s| - 1]
  {
    assert SpliceStart(|s|, -1) == |s| - 1;
  }

  /** A value that occurs once is gone after `splice(indexOf(x), 1)`. */
  lemma SpliceIndexOfRemovesSingle<T>(s: seq<T>, x: T)
    requires Count(s, x) == 1
    ensures x !in Splice(s, IndexOf(s, x))
  {
    SpliceIndexOfRemovesOne(s, x);
    assert multiset(Splice(s, IndexOf(s, x)))[x] == 0;
  }
}
