/** The stacking list of views (front = most recently focused) as a
    sequence, with the two list edits the compositor makes on it: unlinking a
    view and moving a view to the front. */
module ZOrder {

  /** No element appears twice: a list link is in at most one place. */
  predicate Distinct<T(==)>(s: seq<T>) {
    forall i, j :: 0 <= i < j < |s| ==> s[i] != s[j]
  }

  /** The list with `v` unlinked, every other element in its old order. */
  function Remove<T(==)>(s: seq<T>, v: T): (r: seq<T>)
    ensures multiset(r) == multiset(s)[v := 0]
    ensures v !in r
  {
    if s == [] then []
    else
      assert s == [s[0]] + s[1..];
      if s[0] == v then Remove(s[1..], v) else [s[0]] + Remove(s[1..], v)
  }

  /** Unlinking an element that is not there leaves the list as it is. */
  lemma {:induction false} RemoveAbsent<T>(s: seq<T>, v: T)
    requires v !in s
    ensures Remove(s, v) == s
  {
    if s != [] {
      RemoveAbsent(s[1..], v);
    }
  }

  /** Unlinking keeps a list free of duplicates. */
  lemma {:induction false} RemoveDistinct<T>(s: seq<T>, v: T)
    requires Distinct(s)
    ensures Distinct(Remove(s, v))
  {
    if s != [] {
      RemoveDistinct(s[1..], v);
      if s[0] != v {
        assert s[0] !in s[1..];
        assert multiset(s[1..])[s[0]] == 0;
        assert s[0] !in multiset(Remove(s[1..], v));
      }
    }
  }

  /** In a list without duplicates, each member occurs exactly once. */
  lemma {:induction false} DistinctOnce<T>(s: seq<T>, v: T)
    requires Distinct(s) && v in s
    ensures multiset(s)[v] == 1
  {
    assert s == [s[0]] + s[1..];
    if s[0] == v {
      assert v !in s[1..];
    } else {
      DistinctOnce(s[1..], v);
    }
  }

  /** Inserting an element that is not in the list at the front keeps the
      list free of duplicates. */
  lemma PrependDistinct<T>(s: seq<T>, v: T)
    requires Distinct(s) && v !in s
    ensures Distinct([v] + s)
  {
    forall i, j | 0 <= i < j < |[v] + s|
      ensures ([v] + s)[i] != ([v] + s)[j]
    {
      if i == 0 {
        assert ([v] + s)[j] == s[j - 1];
      }
    }
  }

  /** `focus_view`'s list edit: unlink `v` and insert it at the front. */
  function MoveToFront<T(==)>(s: seq<T>, v: T): (r: seq<T>)
    ensures |r| >= 1 && r[0] == v
  {
    [v] + Remove(s, v)
  }

  /** Moving a member of a duplicate-free list to the front permutes the
      list, keeps it duplicate-free, and leaves every other element in its
      old relative order. */
  lemma MoveToFrontPermutes<T>(s: seq<T>, v: T)
    requires Distinct(s) && v in s
    ensures multiset(MoveToFront(s, v)) == multiset(s)
    ensures Distinct(MoveToFront(s, v))
    ensures Remove(MoveToFront(s, v), v) == Remove(s, v)
  {
    DistinctOnce(s, v);
    RemoveDistinct(s, v);
    RemoveAbsent(Remove(s, v), v);
    var r := MoveToFront(s, v);
    assert r[1..] == Remove(s, v);
    assert multiset(r) == multiset{v} + multiset(s)[v := 0];
  }

  /** Moving the front element to the front changes nothing. */
  lemma MoveFrontToFront<T>(s: seq<T>)
    requires Distinct(s) && |s| >= 1
    ensures MoveToFront(s, s[0]) == s
  {
    assert s[0] !in s[1..];
    RemoveAbsent(s[1..], s[0]);
    assert s == [s[0]] + s[1..];
  }

  /** Unlinking the last element of a list where it occurs only there leaves
      the prefix before it. */
  lemma {:induction false} RemoveLast<T>(s: seq<T>, v: T)
    requires v !in s
    ensures Remove(s + [v], v) == s
  {
    if s == [] {
      assert [v][1..] == [];
    } else {
      assert (s + [v])[1..] == s[1..] + [v];
      RemoveLast(s[1..], v);
    }
  }

  /** Bringing the tail of a duplicate-free list to the front rotates the
      list by one: the tail comes first and everything else follows in its
      old order. */
  lemma TailToFrontRotates<T>(s: seq<T>)
    requires Distinct(s) && |s| >= 1
    ensures MoveToFront(s, s[|s| - 1]) == [s[|s| - 1]] + s[..|s| - 1]
  {
    var n := |s| - 1;
    assert s == s[..n] + [s[n]];
    assert s[n] !in s[..n];
    RemoveLast(s[..n], s[n]);
  }

  /** Unlinking shortens the list by the number of occurrences removed. */
  lemma {:induction false} RemoveLength<T>(s: seq<T>, v: T)
    ensures |Remove(s, v)| == |s| - multiset(s)[v]
  {
    if s != [] {
      assert s == [s[0]] + s[1..];
      RemoveLength(s[1..], v);
    }
  }
}
