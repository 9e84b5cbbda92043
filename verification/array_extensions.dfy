/**
 * Identity-based search and removal over arrays (`Array+Extensions.swift`).
 *
 * Swift arrays are values, so a `mutating` method is modelled as a method that
 * takes the array and returns its new value. Element equality here is Dafny's
 * `==`, which on class instances is reference identity (Swift's `===`).
 */
module ArrayExtensions {
  import opened Options

  /** Elements at different positions are different objects. */
  ghost predicate Distinct<T>(s: seq<T>)
  {
    forall a, b :: 0 <= a < b < |s| ==> s[a] != s[b]
  }

  /** The sequence without its element at index k. */
  function RemoveAt<T>(s: seq<T>, k: nat): (r: seq<T>)
    requires k < |s|
    ensures |r| == |s| - 1
    ensures forall j :: 0 <= j < k ==> r[j] == s[j]
    ensures forall j :: k <= j < |r| ==> r[j] == s[j + 1]
  {
    s[..k] + s[k + 1..]
  }

  /** Removing an element from a sequence of distinct elements keeps it distinct and drops that element. */
  lemma RemoveAtDistinct<T>(s: seq<T>, k: nat)
    requires k < |s| && Distinct(s)
    ensures Distinct(RemoveAt(s, k))
    ensures s[k] !in RemoveAt(s, k)
  {
    var r := RemoveAt(s, k);
    forall a, b | 0 <= a < b < |r| ensures r[a] != r[b] {
      var a' := if a < k then a else a + 1;
      var b' := if b < k then b else b + 1;
      assert r[a] == s[a'] && r[b] == s[b'] && a' < b';
    }
  }

  /**
   * `firstIndex(where: { $0 === el })`: the position of the first element
   * identical to `el`, or None when there is none.
   */
  function FirstIndex<T(==)>(s: seq<T>, el: T): (r: Option<nat>)
    ensures r.None? <==> el !in s
    ensures r.Some? ==> r.value < |s| && s[r.value] == el && el !in s[..r.value]
    decreases |s|
  {
    if s == [] then None
    else if s[0] == el then Some(0)
    else
      match FirstIndex(s[1..], el)
      case None => None
      case Some(i) => assert s[..i + 1] == [s[0]] + s[1..][..i]; Some(i + 1)
  }

  /**
   * `removeAnyObject`: removes the first element identical to `el` and
   * reports whether there was one. Later occurrences stay, the order of the
   * others is kept, and without a match the array is returned unchanged.
   */
  method RemoveAnyObject<T(==)>(a: seq<T>, el: T) returns (found: bool, rest: seq<T>)
    ensures found <==> el in a
    ensures !found ==> rest == a
    ensures found ==> |rest| == |a| - 1
    ensures found ==> exists k :: 0 <= k < |a| && a[k] == el && el !in a[..k] && rest == a[..k] + a[k + 1..]
    ensures multiset(rest) + (if found then multiset{el} else multiset{}) == multiset(a)
  {
    var index := FirstIndex(a, el);
    if index.Some? {
      var k := index.value;
      rest := RemoveAt(a, k);
      assert a == a[..k] + [a[k]] + a[k + 1..];
      return true, rest;
    }
    return false, a;
  }

  /** A second copy of the removed object is still present after the first is removed. */
  lemma LaterOccurrenceStays<T>(a: seq<T>, el: T, i: nat, j: nat)
    requires i < j < |a| && a[i] == el && a[j] == el
    ensures el in RemoveAt(a, i)
  {
    assert RemoveAt(a, i)[j - 1] == el;
  }
}
