/** Lists of ids with the update operators the core applies to `members`:
    `$pull` and JavaScript's `filter` (Without), `$addToSet` (AddToSet) and the
    client's include-or-exclude toggle (Toggle). */
module IdLists {

  /** A document id: the string form of a MongoDB ObjectId. */
  type Id = string

  predicate NoDuplicates(s: seq<Id>) {
    forall i, j :: 0 <= i < j < |s| ==> s[i] != s[j]
  }

  /** Every occurrence of `x` removed, the rest kept in order. */
  function Without(s: seq<Id>, x: Id): (r: seq<Id>)
    ensures x !in r
    ensures forall y :: y != x ==> (y in r <==> y in s)
    ensures multiset(r) == multiset(s)[x := 0]
    decreases |s|
  {
    if |s| == 0 then []
    else
      var rest := Without(s[1..], x);
      assert s == [s[0]] + s[1..];
      if s[0] == x then rest else [s[0]] + rest
  }

  /** Removing commutes with concatenation, so the kept elements stay in their relative order. */
  lemma {:induction false} WithoutConcat(a: seq<Id>, b: seq<Id>, x: Id)
    ensures Without(a + b, x) == Without(a, x) + Without(b, x)
    decreases |a|
  {
    if a != [] {
      assert (a + b)[1..] == a[1..] + b;
      WithoutConcat(a[1..], b, x);
    } else {
      assert a + b == b;
    }
  }

  /** Nothing to remove leaves the list as it is. */
  lemma {:induction false} WithoutAbsent(s: seq<Id>, x: Id)
    requires x !in s
    ensures Without(s, x) == s
    decreases |s|
  {
    if s != [] {
      WithoutAbsent(s[1..], x);
      assert s == [s[0]] + s[1..];
    }
  }

  lemma WithoutIdempotent(s: seq<Id>, x: Id)
    ensures Without(Without(s, x), x) == Without(s, x)
  {
    WithoutAbsent(Without(s, x), x);
  }

  /** A sub-list of a duplicate-free list has no duplicates. */
  lemma {:induction false} WithoutKeepsNoDuplicates(s: seq<Id>, x: Id)
    requires NoDuplicates(s)
    ensures NoDuplicates(Without(s, x))
    decreases |s|
  {
    if s != [] {
      WithoutKeepsNoDuplicates(s[1..], x);
      if s[0] != x {
        var rest := Without(s[1..], x);
        assert s[0] !in s[1..];
        assert s[0] !in rest;
        assert Without(s, x) == [s[0]] + rest;
      }
    }
  }

  /** `$addToSet`: append `x` unless it is already there. */
  function AddToSet(s: seq<Id>, x: Id): (r: seq<Id>)
    ensures x in r
    ensures forall y :: y in r <==> y in s || y == x
    ensures x in s ==> r == s
    ensures x !in s ==> r == s + [x]
  {
    if x in s then s else s + [x]
  }

  lemma AddToSetIdempotent(s: seq<Id>, x: Id)
    ensures AddToSet(AddToSet(s, x), x) == AddToSet(s, x)
  {
  }

  lemma AddToSetKeepsNoDuplicates(s: seq<Id>, x: Id)
    requires NoDuplicates(s)
    ensures NoDuplicates(AddToSet(s, x))
  {
  }

  /** Include `x` if absent (at the end), exclude every occurrence if present. */
  function Toggle(s: seq<Id>, x: Id): (r: seq<Id>)
    ensures x in r <==> x !in s
    ensures forall y :: y != x ==> (y in r <==> y in s)
  {
    if x in s then Without(s, x) else s + [x]
  }

  /** An absent id is added once, at the end, after the list as it was. */
  lemma ToggleAppendsAtEnd(s: seq<Id>, x: Id)
    requires x !in s
    ensures |Toggle(s, x)| == |s| + 1
    ensures Toggle(s, x)[..|s|] == s && Toggle(s, x)[|s|] == x
    ensures multiset(Toggle(s, x))[x] == 1
  {
  }

  /** A present id leaves with all its occurrences; every other id keeps its multiplicity. */
  lemma ToggleRemovesEveryOccurrence(s: seq<Id>, x: Id)
    requires x in s
    ensures multiset(Toggle(s, x)) == multiset(s)[x := 0]
  {
  }

  /** The other ids keep their relative order: toggling filters them out unchanged. */
  lemma ToggleKeepsOthersInOrder(s: seq<Id>, x: Id)
    ensures Without(Toggle(s, x), x) == Without(s, x)
  {
    if x in s {
      WithoutIdempotent(s, x);
    } else {
      WithoutConcat(s, [x], x);
    }
  }

  lemma ToggleKeepsNoDuplicates(s: seq<Id>, x: Id)
    requires NoDuplicates(s)
    ensures NoDuplicates(Toggle(s, x))
  {
    if x in s {
      WithoutKeepsNoDuplicates(s, x);
    }
  }

  /** Toggling twice gives back the same set of ids, and on a list without `x`, the same list. */
  lemma ToggleTwice(s: seq<Id>, x: Id)
    ensures forall y :: y in Toggle(Toggle(s, x), x) <==> y in s
    ensures x !in s ==> Toggle(Toggle(s, x), x) == s
  {
    if x !in s {
      WithoutConcat(s, [x], x);
      WithoutAbsent(s, x);
    }
  }
}
