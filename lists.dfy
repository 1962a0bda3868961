/**
 * Python list operations the core relies on: membership without duplicates and
 * `list.remove`, which drops the first occurrence of a value.
 */
module Lists {
  /** No value occurs twice. */
  predicate NoDuplicates<T(==)>(s: seq<T>) {
    forall i, j :: 0 <= i < j < |s| ==> s[i] != s[j]
  }

  /** `list.remove(x)`: drop the first occurrence of `x`. */
  function RemoveFirst<T(==)>(s: seq<T>, x: T): (r: seq<T>)
    requires x in s
    ensures |r| == |s| - 1
  {
    if s[0] == x then s[1..] else [s[0]] + RemoveFirst(s[1..], x)
  }

  /** The position of the first `x`. */
  function FirstIndex<T(==)>(s: seq<T>, x: T): (k: nat)
    requires x in s
    ensures k < |s| && s[k] == x && forall j :: 0 <= j < k ==> s[j] != x
  {
    if s[0] == x then 0 else 1 + FirstIndex(s[1..], x)
  }

  /** Removing the first occurrence cuts out exactly the element at the first position of `x`. */
  lemma {:induction false} RemoveFirstIsSplice<T>(s: seq<T>, x: T)
    requires x in s
    ensures RemoveFirst(s, x) == s[..FirstIndex(s, x)] + s[FirstIndex(s, x) + 1..]
  {
    if s[0] != x {
      RemoveFirstIsSplice(s[1..], x);
      var k := FirstIndex(s[1..], x);
      assert [s[0]] + (s[1..][..k] + s[1..][k + 1..]) == s[..k + 1] + s[k + 2..];
    }
  }

  /** Removing the first occurrence takes exactly one copy of `x` out of the list. */
  lemma RemoveFirstRemovesOne<T>(s: seq<T>, x: T)
    requires x in s
    ensures multiset(RemoveFirst(s, x)) == multiset(s) - multiset{x}
  {
    var k := FirstIndex(s, x);
    RemoveFirstIsSplice(s, x);
    assert s == s[..k] + [x] + s[k + 1..];
  }

  /** In a list without duplicates, removing `x` leaves no `x` and no duplicates. */
  lemma RemoveFirstKeepsUnique<T>(s: seq<T>, x: T)
    requires x in s && NoDuplicates(s)
    ensures x !in RemoveFirst(s, x) && NoDuplicates(RemoveFirst(s, x))
  {
    var k := FirstIndex(s, x);
    var r := RemoveFirst(s, x);
    SpliceIndex(s, x);
    forall i, j | 0 <= i < j < |r| ensures r[i] != r[j] {
      assert r[i] == s[if i < k then i else i + 1];
      assert r[j] == s[if j < k then j else j + 1];
    }
    forall i | 0 <= i < |r| ensures r[i] != x {
      assert r[i] == s[if i < k then i else i + 1];
    }
  }

  /** Element `i` of the list after removal is element `i` or `i + 1` before it. */
  lemma SpliceIndex<T>(s: seq<T>, x: T)
    requires x in s
    ensures forall i :: 0 <= i < |RemoveFirst(s, x)| ==>
      RemoveFirst(s, x)[i] == s[if i < FirstIndex(s, x) then i else i + 1]
  {
    RemoveFirstIsSplice(s, x);
  }

  /** Extending a list does not move the first occurrence of a value it already holds. */
  lemma {:induction false} FirstIndexOfPrefix<T>(s: seq<T>, t: seq<T>, x: T)
    requires x in s
    ensures x in s + t && FirstIndex(s + t, x) == FirstIndex(s, x)
  {
    if s[0] != x {
      assert (s + t)[1..] == s[1..] + t;
      FirstIndexOfPrefix(s[1..], t, x);
    }
  }

  /** A value appended to a list that lacks it first occurs at the end. */
  lemma {:induction false} FirstIndexOfAppended<T>(s: seq<T>, x: T)
    requires x !in s
    ensures FirstIndex(s + [x], x) == |s|
  {
    if s != [] {
      assert (s + [x])[1..] == s[1..] + [x];
      FirstIndexOfAppended(s[1..], x);
    }
  }

  /** Appending a new value and then removing it gives the list back. */
  lemma {:induction false} AppendThenRemove<T>(s: seq<T>, x: T)
    requires x !in s
    ensures RemoveFirst(s + [x], x) == s
  {
    if s != [] {
      assert (s + [x])[1..] == s[1..] + [x];
      AppendThenRemove(s[1..], x);
    }
  }
}
